/** What the particle finder computes for one closed window, as functions of
    the CD hits of the window. The finder visits every (detector, sector)
    cell, but the side multiplicities it tests are counted over all CD hits
    of the window, whatever their detector and sector. The index lists it
    keeps hold unsigned 8-bit values, so a hit index is stored modulo 256. */
module Particles {
  import opened Hits
  import opened Evts

  /** The indices (modulo 256) of the hits among 0 .. n-1 on the given side. */
  function SideIndices(cd: seq<CdHit>, side: nat, n: nat): (r: seq<nat>)
    requires n <= |cd|
    ensures forall m :: 0 <= m < |r| ==> r[m] < n
  {
    if n == 0 then []
    else SideIndices(cd, side, n - 1) + (if cd[n - 1].side == side then [(n - 1) % 256] else [])
  }

  /** Among hits 0 .. n-1, hit k is the one and only hit on the given side. */
  ghost predicate OnlyOnSide(cd: seq<CdHit>, side: nat, n: nat, k: nat)
    requires n <= |cd|
  {
    k < n && cd[k].side == side && forall j :: 0 <= j < n && j != k ==> cd[j].side != side
  }

  /** The particle event of one cell built from p-side hit p and n-side hit n. */
  function PairEvent(cd: seq<CdHit>, det: nat, sec: nat, p: nat, n: nat): (r: ParticleEvt)
    requires p < |cd| && n < |cd|
  {
    ParticleEvt(det, sec, cd[p].energy, cd[n].energy, cd[p].time, cd[n].time, cd[p].strip, cd[n].strip)
  }

  /** What the finder adds for cell (det, sec): one event when the window has
      exactly one hit with side 0 and exactly one with side 1, else nothing. */
  function CellEvent(cd: seq<CdHit>, det: nat, sec: nat): (r: seq<ParticleEvt>)
  {
    var pIndex, nIndex := SideIndices(cd, 0, |cd|), SideIndices(cd, 1, |cd|);
    if |pIndex| == 1 && |nIndex| == 1 then [PairEvent(cd, det, sec, pIndex[0], nIndex[0])] else []
  }

  /** The events of cells (det, 0) .. (det, nSec-1). */
  function SectorEvents(cd: seq<CdHit>, det: nat, nSec: nat): (r: seq<ParticleEvt>)
  {
    if nSec == 0 then [] else SectorEvents(cd, det, nSec - 1) + CellEvent(cd, det, nSec - 1)
  }

  /** The events of detectors 0 .. nDet-1, each over sectors 0 .. nSec-1. */
  function Particles(cd: seq<CdHit>, nDet: nat, nSec: nat): (r: seq<ParticleEvt>)
  {
    if nDet == 0 then [] else Particles(cd, nDet - 1, nSec) + SectorEvents(cd, nDet - 1, nSec)
  }

  /** The index list of a side is empty iff no hit is on that side, and it is
      the single index k (modulo 256) iff k is the only hit on that side. */
  lemma {:induction false} SideIndicesOne(cd: seq<CdHit>, side: nat, n: nat)
    requires n <= |cd|
    ensures SideIndices(cd, side, n) == [] <==> forall j :: 0 <= j < n ==> cd[j].side != side
    ensures forall k: nat :: OnlyOnSide(cd, side, n, k) ==> SideIndices(cd, side, n) == [k % 256]
    ensures |SideIndices(cd, side, n)| == 1 ==> exists k: nat :: OnlyOnSide(cd, side, n, k)
  {
    if n > 0 {
      SideIndicesOne(cd, side, n - 1);
      var r' := SideIndices(cd, side, n - 1);
      if cd[n - 1].side == side {
        assert SideIndices(cd, side, n) == r' + [(n - 1) % 256];
        if |SideIndices(cd, side, n)| == 1 {
          assert OnlyOnSide(cd, side, n, n - 1);
        }
        forall k: nat | OnlyOnSide(cd, side, n, k)
          ensures SideIndices(cd, side, n) == [k % 256]
        {
          assert k == n - 1;
        }
      } else {
        assert SideIndices(cd, side, n) == r';
        forall k: nat | OnlyOnSide(cd, side, n, k)
          ensures SideIndices(cd, side, n) == [k % 256]
        {
          assert OnlyOnSide(cd, side, n - 1, k);
        }
        if |r'| == 1 {
          var k: nat :| OnlyOnSide(cd, side, n - 1, k);
          assert OnlyOnSide(cd, side, n, k);
        }
      }
    }
  }

  /** The index of the first copy for detector d when every detector has
      nSec copies, counted without multiplication so that the proofs below
      stay linear. */
  function Offset(d: nat, nSec: nat): (r: nat)
  {
    if d == 0 then 0 else Offset(d - 1, nSec) + nSec
  }

  /** The index of the copy of cell (d, s). */
  function Slot(d: nat, s: nat, nSec: nat): (r: nat)
  {
    Offset(d, nSec) + s
  }

  /** The offset is the product, and is 0 exactly when there is no detector
      before d or no sector. */
  lemma {:induction false} OffsetIsProduct(d: nat, nSec: nat)
    ensures Offset(d, nSec) == d * nSec
    ensures Offset(d, nSec) == 0 <==> d == 0 || nSec == 0
  {
    if d > 0 {
      OffsetIsProduct(d - 1, nSec);
      assert d * nSec == (d - 1) * nSec + nSec;
    }
  }

  /** The copies of detector d lie before those of any later detector. */
  lemma {:induction false} OffsetGrows(d: nat, e: nat, nSec: nat)
    requires d < e
    ensures Offset(d, nSec) + nSec <= Offset(e, nSec)
  {
    if d + 1 < e {
      OffsetGrows(d, e - 1, nSec);
    }
  }

  /** With one hit per side, the sectors of one detector each get a copy. */
  lemma {:induction false} SectorEventsMatched(cd: seq<CdHit>, det: nat, nSec: nat, p: nat, n: nat)
    requires p < |cd| && n < |cd|
    requires SideIndices(cd, 0, |cd|) == [p] && SideIndices(cd, 1, |cd|) == [n]
    ensures Row(SectorEvents(cd, det, nSec), cd, det, nSec, p, n)
  {
    if nSec > 0 {
      SectorEventsMatched(cd, det, nSec - 1, p, n);
    }
  }

  /** The copies of detectors 0 .. nDet-1, each over sectors 0 .. nSec-1:
      cell (d, s) is copy Offset(d, nSec) + s. */
  ghost predicate Grid(ps: seq<ParticleEvt>, cd: seq<CdHit>, nDet: nat, nSec: nat, p: nat, n: nat)
    requires p < |cd| && n < |cd|
  {
    && |ps| == Offset(nDet, nSec)
    && forall d, s :: 0 <= d < nDet && 0 <= s < nSec ==>
         Slot(d, s, nSec) < |ps| && ps[Slot(d, s, nSec)] == PairEvent(cd, d, s, p, n)
  }

  /** The copies of detector det, one per sector 0 .. nSec-1. */
  ghost predicate Row(ps: seq<ParticleEvt>, cd: seq<CdHit>, det: nat, nSec: nat, p: nat, n: nat)
    requires p < |cd| && n < |cd|
  {
    |ps| == nSec && forall s :: 0 <= s < nSec ==> ps[s] == PairEvent(cd, det, s, p, n)
  }

  /** Appending the copies of one more detector to a grid gives the grid of
      one more detector. */
  lemma AppendDetector(before: seq<ParticleEvt>, last: seq<ParticleEvt>, cd: seq<CdHit>, q: nat, nSec: nat, p: nat, n: nat)
    requires p < |cd| && n < |cd| && Grid(before, cd, q, nSec, p, n)
    requires Row(last, cd, q, nSec, p, n)
    ensures Grid(before + last, cd, q + 1, nSec, p, n)
  {
    var all := before + last;
    assert |all| == Offset(q + 1, nSec);
    forall d, s | 0 <= d < q + 1 && 0 <= s < nSec
      ensures Slot(d, s, nSec) < |all| && all[Slot(d, s, nSec)] == PairEvent(cd, d, s, p, n)
    {
      if d < q {
        OffsetGrows(d, q, nSec);
        assert all[Slot(d, s, nSec)] == before[Slot(d, s, nSec)];
      } else {
        assert all[Slot(d, s, nSec)] == last[s] == PairEvent(cd, q, s, p, n);
      }
    }
  }

  /** With one hit per side, every cell gets a copy, detector by detector. */
  lemma {:induction false} ParticlesMatched(cd: seq<CdHit>, nDet: nat, nSec: nat, p: nat, n: nat)
    requires p < |cd| && n < |cd|
    requires SideIndices(cd, 0, |cd|) == [p] && SideIndices(cd, 1, |cd|) == [n]
    ensures Grid(Particles(cd, nDet, nSec), cd, nDet, nSec, p, n)
  {
    if nDet > 0 {
      ParticlesMatched(cd, nDet - 1, nSec, p, n);
      SectorEventsMatched(cd, nDet - 1, nSec, p, n);
      AppendDetector(Particles(cd, nDet - 1, nSec), SectorEvents(cd, nDet - 1, nSec), cd, nDet - 1, nSec, p, n);
    }
  }

  /** Without one hit per side, no cell gets an event. */
  lemma {:induction false} ParticlesUnmatched(cd: seq<CdHit>, nDet: nat, nSec: nat)
    requires |SideIndices(cd, 0, |cd|)| != 1 || |SideIndices(cd, 1, |cd|)| != 1
    ensures Particles(cd, nDet, nSec) == []
  {
    if nDet > 0 {
      ParticlesUnmatched(cd, nDet - 1, nSec);
      SectorEventsUnmatched(cd, nDet - 1, nSec);
    }
  }

  lemma {:induction false} SectorEventsUnmatched(cd: seq<CdHit>, det: nat, nSec: nat)
    requires |SideIndices(cd, 0, |cd|)| != 1 || |SideIndices(cd, 1, |cd|)| != 1
    ensures SectorEvents(cd, det, nSec) == []
  {
    if nSec > 0 {
      SectorEventsUnmatched(cd, det, nSec - 1);
    }
  }

  /** The particle finder emits events iff the window holds exactly one CD
      hit with side 0 and exactly one with side 1 (hits with other sides do
      not count) and the geometry has at least one cell. It then emits one
      copy per (detector, sector) cell, detector-major, nDet * nSec in all:
      copy Offset(d, nSec) + s names detector d and sector s and carries
      energy, time and strip of the two unique hits, whose indices are read
      back modulo 256. */
  lemma ParticleEmission(cd: seq<CdHit>, nDet: nat, nSec: nat)
    ensures Particles(cd, nDet, nSec) != [] <==>
              nDet > 0 && nSec > 0
              && (exists p: nat :: OnlyOnSide(cd, 0, |cd|, p))
              && (exists n: nat :: OnlyOnSide(cd, 1, |cd|, n))
    ensures forall p: nat, n: nat :: OnlyOnSide(cd, 0, |cd|, p) && OnlyOnSide(cd, 1, |cd|, n) ==>
              |Particles(cd, nDet, nSec)| == nDet * nSec
              && Grid(Particles(cd, nDet, nSec), cd, nDet, nSec, p % 256, n % 256)
  {
    SideIndicesOne(cd, 0, |cd|);
    SideIndicesOne(cd, 1, |cd|);
    OffsetIsProduct(nDet, nSec);
    if (exists p: nat :: OnlyOnSide(cd, 0, |cd|, p)) && (exists n: nat :: OnlyOnSide(cd, 1, |cd|, n)) {
      var p: nat :| OnlyOnSide(cd, 0, |cd|, p);
      var n: nat :| OnlyOnSide(cd, 1, |cd|, n);
      ParticlesMatched(cd, nDet, nSec, p % 256, n % 256);
      forall p': nat, n': nat | OnlyOnSide(cd, 0, |cd|, p') && OnlyOnSide(cd, 1, |cd|, n')
        ensures p' == p && n' == n
      {
      }
    } else {
      ParticlesUnmatched(cd, nDet, nSec);
    }
  }
}
