/** The input of the event builder: one time-ordered stream of entries, each
    either a FEBEX channel hit or an info record. The channel mapping and the
    calibration have already been applied to each hit, so a hit carries its
    energy, its over-threshold decision and its detector position. */
module Hits {

  datatype Option<T> = None | Some(value: T)

  /** Where a Miniball channel sits: cluster, crystal and segment (0 is the core). */
  datatype MbPos = MbPos(cluster: nat, crystal: nat, segment: nat)

  /** Where a CD channel sits: detector, sector, side (0 = p, 1 = n) and strip. */
  datatype CdPos = CdPos(detector: nat, sector: nat, side: nat, strip: nat)

  /** One entry of the sorted input tree. For a FEBEX hit, `miniball` is the
      Miniball position when the mapping calls the channel a Miniball channel
      and `cd` the CD position when it calls it a CD channel; both lookups are
      made, as the builder asks both questions in turn. */
  datatype Entry =
    | Febex(time: nat, sfp: nat, board: nat, energy: real, overThreshold: bool,
            miniball: Option<MbPos>, cd: Option<CdPos>)
    | Info(time: nat, code: int, sfp: nat, board: nat)

  /** A Miniball hit kept in the open window (one element of the mb_* lists). */
  datatype MbHit = MbHit(energy: real, time: nat, cluster: nat, crystal: nat, segment: nat)

  /** A CD hit kept in the open window (one element of the cd_* lists). */
  datatype CdHit = CdHit(energy: real, time: nat, detector: nat, sector: nat, side: nat, strip: nat)

  /** The configuration the builder reads: the FEBEX module grid, the event
      window in ns, the CD geometry and the info codes. */
  datatype Settings = Settings(
    nSfp: nat, nBoard: nat, buildWindow: int, nCdDet: nat, nCdSec: nat,
    ebisCode: int, t1Code: int, pulserCode: int, pauseCode: int, resumeCode: int)

  /** A FEBEX hit must name a module inside the grid: the builder indexes its
      start/stop tables with a range-checked access that throws otherwise. */
  predicate InRange(cfg: Settings, e: Entry)
  {
    e.Febex? ==> e.sfp < cfg.nSfp && e.board < cfg.nBoard
  }
}
