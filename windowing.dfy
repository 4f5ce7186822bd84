/** The event builder's main loop as a function of its state and the input
    entries: reading an entry, the look-ahead that decides whether the open
    window closes, and what closing it emits. The class in module Builder is
    proved to compute exactly this. */
module Windowing {
  import opened Hits
  import opened Evts
  import opened Health
  import Gamma
  import Particles

  /** The builder's run counters. */
  datatype Counts = Counts(
    febexData: nat, infoData: nat, miniball: nat, cd: nat,
    gamma: nat, gammaAb: nat, particle: nat, beamDump: nat)

  const NoCounts := Counts(0, 0, 0, 0, 0, 0, 0, 0)

  /** Everything the builder's loop reads or changes. `timeFirst` is the
      anchor of the open window, `hitCtr` the counter that would move it,
      `mb` and `cd` the hits of the open window, `output` the records
      written to the output tree. */
  datatype State = State(
    timePrev: nat, timeMin: nat, timeMax: nat, timeFirst: nat, hitCtr: nat,
    ebis: Marker, t1: Marker, pulser: Marker,
    counts: Counts,
    modules: Table,
    mb: seq<MbHit>, cd: seq<CdHit>, eventOpen: bool, flagClose: bool,
    output: seq<Record>)

  predicate Fits(cfg: Settings, st: State)
  {
    Shaped(st.modules, cfg.nSfp, cfg.nBoard)
  }

  predicate AllInRange(cfg: Settings, es: seq<Entry>)
  {
    forall k :: 0 <= k < |es| ==> InRange(cfg, es[k])
  }

  /** The state when a new input file starts: every counter, module table and
      marker previous-time zeroed. The last EBIS and T1 times are kept, and so
      are the open window and the output. */
  function FileStart(cfg: Settings, st: State): (r: State)
    ensures Fits(cfg, r)
    ensures r.timePrev == 0 && r.timeMin == 0 && r.timeMax == 0 && r.timeFirst == 0
    ensures r.counts == NoCounts
    ensures r.ebis.count == 0 && r.t1.count == 0 && r.pulser.count == 0
    ensures r.ebis.prev == 0 && r.t1.prev == 0 && r.pulser.prev == 0 && r.pulser.time == 0
    ensures forall s, b :: 0 <= s < cfg.nSfp && 0 <= b < cfg.nBoard ==> r.modules[s][b] == Zero
    ensures r.ebis.time == st.ebis.time && r.t1.time == st.t1.time
    ensures r.ebis.freq == st.ebis.freq && r.t1.freq == st.t1.freq && r.pulser.freq == st.pulser.freq
    ensures r.mb == st.mb && r.cd == st.cd && r.output == st.output && r.hitCtr == st.hitCtr
    ensures r.eventOpen == st.eventOpen && r.flagClose == st.flagClose
  {
    st.(timePrev := 0, timeMin := 0, timeMax := 0, timeFirst := 0,
        pulser := st.pulser.(time := 0, prev := 0, count := 0),
        ebis := st.ebis.(prev := 0, count := 0),
        t1 := st.t1.(prev := 0, count := 0),
        counts := NoCounts,
        modules := ZeroTable(cfg.nSfp, cfg.nBoard))
  }

  /** The state after the window has been cleared. */
  function Initialised(st: State): (r: State)
  {
    st.(flagClose := false, eventOpen := false, hitCtr := 0, mb := [], cd := [])
  }

  function MbHitOf(e: Entry): (r: MbHit)
    requires e.Febex? && e.miniball.Some?
  {
    MbHit(e.energy, e.time, e.miniball.value.cluster, e.miniball.value.crystal, e.miniball.value.segment)
  }

  function CdHitOf(e: Entry): (r: CdHit)
    requires e.Febex? && e.cd.Some?
  {
    CdHit(e.energy, e.time, e.cd.value.detector, e.cd.value.sector, e.cd.value.side, e.cd.value.strip)
  }

  /** A FEBEX hit: counted; kept in the window when over threshold and
      mapped, Miniball before CD; recorded as its module's start/stop time;
      and the window's time bounds follow it. */
  function ReadFebex(cfg: Settings, st: State, e: Entry): (r: State)
    requires e.Febex? && Fits(cfg, st) && InRange(cfg, e)
    ensures Fits(cfg, r)
  {
    Timed(Kept(st, e).(modules := FebexSeen(st.modules, e.sfp, e.board, e.time)), e)
  }

  /** A FEBEX hit counted, and kept in the window when over threshold and
      mapped, Miniball before CD. */
  function Kept(st: State, e: Entry): (r: State)
    requires e.Febex?
  {
    var counts := st.counts.(febexData := st.counts.febexData + 1);
    if e.miniball.Some? && e.overThreshold then
      st.(counts := counts.(miniball := counts.miniball + 1), eventOpen := true, mb := st.mb + [MbHitOf(e)])
    else if e.cd.Some? && e.overThreshold then
      st.(counts := counts.(cd := counts.cd + 1), eventOpen := true, cd := st.cd + [CdHitOf(e)])
    else st.(counts := counts)
  }

  /** The window's time bounds after a FEBEX hit: the anchor and both bounds
      move to the hit when hitCtr is 1 and it is over threshold, and then the
      bounds widen to take it in. */
  function Timed(st: State, e: Entry): (r: State)
    requires e.Febex?
  {
    var anchored :=
      if st.hitCtr == 1 && e.overThreshold then st.(timeMin := e.time, timeMax := e.time, timeFirst := e.time)
      else st;
    if e.time > anchored.timeMax then anchored.(timeMax := e.time)
    else if e.time < anchored.timeMin then anchored.(timeMin := e.time)
    else anchored
  }

  /** An info record: counted, then matched against each info code in turn. */
  function ReadInfo(cfg: Settings, st: State, e: Entry): (r: State)
    requires e.Info? && Fits(cfg, st)
    ensures Fits(cfg, r)
  {
    var t := e.time;
    var counted := st.(counts := st.counts.(infoData := st.counts.infoData + 1));
    var marked := counted.(ebis := if e.code == cfg.ebisCode then Debounced(st.ebis, t) else st.ebis)
                         .(t1 := if e.code == cfg.t1Code then Debounced(st.t1, t) else st.t1)
                         .(pulser := if e.code == cfg.pulserCode then Observe(st.pulser, t).(prev := st.pulser.prev)
                                     else st.pulser);
    var moved := marked.(modules := PauseResume(cfg, st.modules, e));
    // the pulser's previous time is moved on last
    moved.(pulser := if e.code == cfg.pulserCode then moved.pulser.(prev := t) else moved.pulser)
  }

  /** What an info record does to the module tables: a Pause code then a
      Resume code, each for the record's module. */
  function PauseResume(cfg: Settings, t: Table, e: Entry): (r: Table)
    requires e.Info? && Shaped(t, cfg.nSfp, cfg.nBoard)
    ensures Shaped(r, cfg.nSfp, cfg.nBoard)
  {
    var paused := if e.code == cfg.pauseCode then Pause(t, cfg.nSfp, cfg.nBoard, e.sfp, e.board, e.time) else t;
    if e.code == cfg.resumeCode then Resume(paused, cfg.nSfp, cfg.nBoard, e.sfp, e.board, e.time) else paused
  }

  /** Entry e may change the table cell of module (s, b). */
  predicate Addresses(cfg: Settings, e: Entry, s: nat, b: nat)
  {
    e.sfp == s && e.board == b && (e.Febex? || e.code == cfg.pauseCode || e.code == cfg.resumeCode)
  }

  /** Reading one entry, everything before the look-ahead. Info records never
      open a window nor add to it; a FEBEX hit opens the window and is kept
      iff it is over threshold and mapped to Miniball or CD, Miniball first.
      A timestamp lower than the previous one changes nothing but timePrev. */
  function Absorb(cfg: Settings, st: State, e: Entry): (r: State)
    requires Fits(cfg, st) && InRange(cfg, e)
    ensures Fits(cfg, r)
  {
    var read := st.(timePrev := e.time);
    if e.Febex? then ReadFebex(cfg, read, e) else ReadInfo(cfg, read, e)
  }

  /** Reading an entry sets timePrev and leaves the output, the close flag
      and hitCtr alone; the anchor moves only when hitCtr is 1. Info records
      never open a window nor add to it; a FEBEX hit opens the window and is
      kept iff it is over threshold and mapped to Miniball or CD, Miniball
      first. */
  lemma AbsorbFacts(cfg: Settings, st: State, e: Entry)
    requires Fits(cfg, st) && InRange(cfg, e)
    ensures var r := Absorb(cfg, st, e);
      && r.timePrev == e.time
      && r.output == st.output && r.flagClose == st.flagClose && r.hitCtr == st.hitCtr
      && (st.hitCtr != 1 ==> r.timeFirst == st.timeFirst)
      && (e.Info? ==> r.mb == st.mb && r.cd == st.cd && r.eventOpen == st.eventOpen)
      && (e.Febex? ==> (r.eventOpen <==> st.eventOpen || (e.overThreshold && (e.miniball.Some? || e.cd.Some?))))
      && (e.Febex? ==> r.mb == st.mb + (if e.overThreshold && e.miniball.Some? then [MbHitOf(e)] else []))
      && (e.Febex? ==> r.cd == st.cd + (if e.overThreshold && e.miniball.None? && e.cd.Some? then [CdHitOf(e)] else []))
  {
  }

  /** Reading an entry changes only the table cell of the module it
      addresses, and a pause time only on a Pause record. */
  lemma AbsorbModule(cfg: Settings, st: State, e: Entry, s: nat, b: nat)
    requires Fits(cfg, st) && InRange(cfg, e) && s < cfg.nSfp && b < cfg.nBoard
    ensures var r := Absorb(cfg, st, e);
      && (!Addresses(cfg, e, s, b) ==> r.modules[s][b] == st.modules[s][b])
      && (!(e.Info? && e.code == cfg.pauseCode && e.sfp == s && e.board == b) ==>
            r.modules[s][b].pauseTime == st.modules[s][b].pauseTime)
  {
  }

  /** The record the finders fill for the window held in st. */
  function RecordOf(cfg: Settings, st: State): (r: Record)
  {
    var singles := Gamma.Singles(st.mb);
    Record(st.ebis.time, st.t1.time, singles, Gamma.Addback(singles),
           Particles.Particles(st.cd, cfg.nCdDet, cfg.nCdSec))
  }

  /** Runs both finders on the window and writes the record when it holds a
      gamma-ray single or addback event. */
  function Emit(cfg: Settings, st: State): (r: State)
  {
    var rec := RecordOf(cfg, st);
    st.(counts := st.counts.(gamma := st.counts.gamma + |rec.gamma|,
                             gammaAb := st.counts.gammaAb + |rec.addback|,
                             particle := st.counts.particle + |rec.particles|),
        output := if |rec.gamma| != 0 || |rec.addback| != 0 then st.output + [rec] else st.output)
  }

  /** The look-ahead: the time of the entry after entry i, if there is one. */
  function NextTime(es: seq<Entry>, i: nat): (r: Option<nat>)
    ensures r.Some? <==> i + 1 < |es|
    ensures r.Some? ==> r.value == es[i + 1].time
  {
    if i + 1 < |es| then Some(es[i + 1].time) else None
  }

  /** The window close rule: there is no next entry, or the next entry's time
      minus the anchor is greater than the build window or negative. */
  predicate Closes(cfg: Settings, first: nat, next: Option<nat>)
  {
    next.None? || next.value - first > cfg.buildWindow || next.value - first < 0
  }

  /** One pass of the loop body: read the entry, look ahead, and close the
      window when the close rule holds. Closing runs the finders only when
      the window is open, writes a record only when it holds a gamma-ray
      single (so windows with only particles are dropped), and then clears
      the window whatever it held. */
  function Step(cfg: Settings, st: State, e: Entry, next: Option<nat>): (r: State)
    requires Fits(cfg, st) && InRange(cfg, e)
    ensures Fits(cfg, r) && !r.flagClose
  {
    Closed(cfg, Flagged(cfg, Absorb(cfg, st, e), next), next)
  }

  /** A step leaves the modules as reading the entry left them, and a
      hitCtr of 0 and the anchor as they were. */
  lemma StepKeeps(cfg: Settings, st: State, e: Entry, next: Option<nat>)
    requires Fits(cfg, st) && InRange(cfg, e)
    ensures var r := Step(cfg, st, e, next);
      && r.modules == Absorb(cfg, st, e).modules
      && (st.hitCtr == 0 ==> r.hitCtr == 0 && r.timeFirst == st.timeFirst)
  {
    AbsorbFacts(cfg, st, e);
  }

  /** When the close rule holds for the anchor after reading the entry, the
      window is cleared and a record is appended exactly when the window was
      open and holds a gamma-ray single; otherwise the step is just the read. */
  lemma StepWindow(cfg: Settings, st: State, e: Entry, next: Option<nat>)
    requires Fits(cfg, st) && InRange(cfg, e) && !st.flagClose
    ensures var r, a := Step(cfg, st, e, next), Absorb(cfg, st, e);
      if Closes(cfg, a.timeFirst, next) then
        && r.mb == [] && r.cd == [] && !r.eventOpen && r.hitCtr == 0
        && r.output == a.output + (if a.eventOpen && Gamma.Singles(a.mb) != [] then [RecordOf(cfg, a)] else [])
      else r == a
  {
    var a := Absorb(cfg, st, e);
    AbsorbFacts(cfg, st, e);
    EmitFacts(cfg, a);
    var f := Flagged(cfg, a, next);
    assert f == a.(flagClose := a.flagClose || (next.Some? && Closes(cfg, a.timeFirst, next)));
  }

  /** Closing an open window changes only the counters and the output, and
      appends a record exactly when the window holds a gamma-ray single. */
  lemma EmitFacts(cfg: Settings, st: State)
    ensures var r := Emit(cfg, st);
      && r == st.(counts := r.counts, output := r.output)
      && r.output == st.output + (if Gamma.Singles(st.mb) != [] then [RecordOf(cfg, st)] else [])
  {
    Gamma.AddbackLength(Gamma.Singles(st.mb));
  }

  /** The look-ahead: the close flag is raised when the next entry's time
      minus the anchor is greater than the build window or negative. */
  function Flagged(cfg: Settings, st: State, next: Option<nat>): (r: State)
  {
    match next
    case Some(t) =>
      if t - st.timeFirst > cfg.buildWindow then st.(flagClose := true)
      else if t - st.timeFirst < 0 then st.(flagClose := true)
      else st
    case None => st
  }

  /** Closing, when the flag is up or the entry was the last one: the
      finders run and the record is written only for an open window, and the
      window is cleared whatever it held. */
  function Closed(cfg: Settings, st: State, next: Option<nat>): (r: State)
  {
    if st.flagClose || next.None? then Initialised(if st.eventOpen then Emit(cfg, st) else st) else st
  }

  /** The state after the loop has handled entries 0 .. n-1 of es. */
  function Run(cfg: Settings, st: State, es: seq<Entry>, n: nat): (r: State)
    requires n <= |es| && Fits(cfg, st) && AllInRange(cfg, es)
    ensures Fits(cfg, r)
  {
    if n == 0 then st else Step(cfg, Run(cfg, st, es, n - 1), es[n - 1], NextTime(es, n - 1))
  }

  /** What building the events of one input tree does: nothing for an empty
      tree; otherwise clear the window and run the loop over every entry. */
  function Built(cfg: Settings, st: State, es: seq<Entry>): (r: State)
    requires Fits(cfg, st) && AllInRange(cfg, es)
  {
    if |es| == 0 then st else Run(cfg, Initialised(st), es, |es|)
  }

  // ---------------------------------------------------------------------
  // Properties of the loop
  // ---------------------------------------------------------------------

  /** The anchor of the window is only moved when hitCtr is 1, but hitCtr is
      only ever set to 0: from a cleared window on, the anchor stays where the
      file start put it, whatever the entries. */
  lemma {:induction false} AnchorNeverMoves(cfg: Settings, st: State, es: seq<Entry>, n: nat)
    requires n <= |es| && Fits(cfg, st) && AllInRange(cfg, es)
    requires st.hitCtr == 0
    ensures Run(cfg, st, es, n).timeFirst == st.timeFirst
    ensures Run(cfg, st, es, n).hitCtr == 0
  {
    if n > 0 {
      AnchorNeverMoves(cfg, st, es, n - 1);
      StepKeeps(cfg, Run(cfg, st, es, n - 1), es[n - 1], NextTime(es, n - 1));
    }
  }

  /** Consequence of the fixed anchor at 0 after a file start: the window is
      closed after entry i exactly when entry i is the last one or the next
      entry's time exceeds the build window, so once the timestamps pass the
      build window every entry ends its own window. */
  lemma WindowCloseAfterFileStart(cfg: Settings, st: State, es: seq<Entry>, i: nat)
    requires i < |es| && Fits(cfg, st) && AllInRange(cfg, es)
    requires st.hitCtr == 0 && st.timeFirst == 0 && !st.flagClose
    ensures var before, after := Run(cfg, st, es, i), Run(cfg, st, es, i + 1);
      if i + 1 == |es| || es[i + 1].time > cfg.buildWindow then
        after.mb == [] && after.cd == [] && !after.eventOpen
      else after == Absorb(cfg, before, es[i])
  {
    AnchorNeverMoves(cfg, st, es, i);
    var before := Run(cfg, st, es, i);
    AbsorbFacts(cfg, before, es[i]);
    StepWindow(cfg, before, es[i], NextTime(es, i));
  }

  /** Every record from index `from` on holds at least one gamma-ray single
      and as many addback events as singles. */
  ghost predicate RecordsFrom(out: seq<Record>, from: nat)
  {
    forall k :: from <= k < |out| ==> out[k].gamma != [] && |out[k].addback| == |out[k].gamma|
  }

  /** One step appends at most one record, and only one holding gammas. */
  lemma StepRecords(cfg: Settings, st: State, e: Entry, next: Option<nat>) returns (tail: seq<Record>)
    requires Fits(cfg, st) && InRange(cfg, e) && !st.flagClose
    ensures Step(cfg, st, e, next).output == st.output + tail && |tail| <= 1 && RecordsFrom(tail, 0)
  {
    StepWindow(cfg, st, e, next);
    AbsorbFacts(cfg, st, e);
    var a := Absorb(cfg, st, e);
    if Closes(cfg, a.timeFirst, next) && a.eventOpen && Gamma.Singles(a.mb) != [] {
      Gamma.AddbackLength(Gamma.Singles(a.mb));
      tail := [RecordOf(cfg, a)];
    } else {
      tail := [];
    }
  }

  /** Every record written during a run holds at least one gamma-ray single
      and as many addback events as singles; earlier output is kept. */
  lemma {:induction false} RecordsHoldGammas(cfg: Settings, st: State, es: seq<Entry>, n: nat)
    requires n <= |es| && Fits(cfg, st) && AllInRange(cfg, es) && !st.flagClose
    ensures Extends(Run(cfg, st, es, n).output, st.output)
  {
    if n > 0 {
      RecordsHoldGammas(cfg, st, es, n - 1);
      var before := Run(cfg, st, es, n - 1);
      var tail := StepRecords(cfg, before, es[n - 1], NextTime(es, n - 1));
      RecordsAppended(before.output, st.output, tail);
    }
  }

  /** out starts with base, and every record after base holds gammas. */
  ghost predicate Extends(out: seq<Record>, base: seq<Record>)
  {
    |base| <= |out| && out[..|base|] == base && RecordsFrom(out, |base|)
  }

  lemma RecordsAppended(prev: seq<Record>, base: seq<Record>, tail: seq<Record>)
    requires Extends(prev, base) && RecordsFrom(tail, 0)
    ensures Extends(prev + tail, base)
  {
    var out := prev + tail;
    assert out[..|base|] == prev[..|base|];
    forall k | |base| <= k < |out|
      ensures out[k].gamma != [] && |out[k].addback| == |out[k].gamma|
    {
      if k >= |prev| {
        assert out[k] == tail[k - |prev|];
      }
    }
  }

  /** The table cell of a module that no entry addresses is left as it was. */
  lemma {:induction false} ModuleUntouched(cfg: Settings, st: State, es: seq<Entry>, n: nat, s: nat, b: nat)
    requires n <= |es| && Fits(cfg, st) && AllInRange(cfg, es)
    requires s < cfg.nSfp && b < cfg.nBoard
    requires forall k :: 0 <= k < n ==> !Addresses(cfg, es[k], s, b)
    ensures Run(cfg, st, es, n).modules[s][b] == st.modules[s][b]
  {
    if n > 0 {
      ModuleUntouched(cfg, st, es, n - 1, s, b);
      StepModuleUntouched(cfg, Run(cfg, st, es, n - 1), es[n - 1], NextTime(es, n - 1), s, b);
    }
  }

  lemma StepModuleUntouched(cfg: Settings, st: State, e: Entry, next: Option<nat>, s: nat, b: nat)
    requires Fits(cfg, st) && InRange(cfg, e) && s < cfg.nSfp && b < cfg.nBoard && !Addresses(cfg, e, s, b)
    ensures Step(cfg, st, e, next).modules[s][b] == st.modules[s][b]
  {
    StepKeeps(cfg, st, e, next);
    AbsorbModule(cfg, st, e, s, b);
  }

  /** Entry e is a Pause record for module (s, b). */
  predicate PausesModule(cfg: Settings, e: Entry, s: nat, b: nat)
  {
    e.Info? && e.code == cfg.pauseCode && e.sfp == s && e.board == b
  }

  /** Without a Pause record for module (s, b), its pause time stays 0 from
      the file start, whatever other modules do. */
  lemma {:induction false} PauseTimeStaysZero(cfg: Settings, st: State, es: seq<Entry>, n: nat, s: nat, b: nat)
    requires n <= |es| && Fits(cfg, st) && AllInRange(cfg, es)
    requires s < cfg.nSfp && b < cfg.nBoard && st.modules[s][b].pauseTime == 0
    requires forall k :: 0 <= k < n ==> !PausesModule(cfg, es[k], s, b)
    ensures Run(cfg, st, es, n).modules[s][b].pauseTime == 0
  {
    if n > 0 {
      PauseTimeStaysZero(cfg, st, es, n - 1, s, b);
      StepPauseTime(cfg, Run(cfg, st, es, n - 1), es[n - 1], NextTime(es, n - 1), s, b);
    }
  }

  lemma StepPauseTime(cfg: Settings, st: State, e: Entry, next: Option<nat>, s: nat, b: nat)
    requires Fits(cfg, st) && InRange(cfg, e) && s < cfg.nSfp && b < cfg.nBoard
    requires !PausesModule(cfg, e, s, b)
    ensures Step(cfg, st, e, next).modules[s][b].pauseTime == st.modules[s][b].pauseTime
  {
    StepKeeps(cfg, st, e, next);
    AbsorbModule(cfg, st, e, s, b);
  }

  /** A module blocked from the start of the run: when no Pause record for
      module (s, b) came since its pause time was 0, a Resume record for it
      (that is not also a Pause code) adds its whole time to the dead time. */
  lemma ResumeWithoutPause(cfg: Settings, st: State, es: seq<Entry>, n: nat, s: nat, b: nat)
    requires n < |es| && Fits(cfg, st) && AllInRange(cfg, es)
    requires s < cfg.nSfp && b < cfg.nBoard && st.modules[s][b].pauseTime == 0
    requires forall k :: 0 <= k < n ==> !PausesModule(cfg, es[k], s, b)
    requires es[n].Info? && es[n].code == cfg.resumeCode && es[n].code != cfg.pauseCode
    requires es[n].sfp == s && es[n].board == b
    ensures Run(cfg, st, es, n + 1).modules[s][b].deadTime
         == Run(cfg, st, es, n).modules[s][b].deadTime + es[n].time
  {
    PauseTimeStaysZero(cfg, st, es, n, s, b);
    var before := Run(cfg, st, es, n);
    StepKeeps(cfg, before, es[n], NextTime(es, n));
    assert Absorb(cfg, before, es[n]).modules == Resume(before.modules, cfg.nSfp, cfg.nBoard, s, b, es[n].time);
  }

  /** An out-of-order timestamp is only reported: the step does not depend
      on the previous entry's time. */
  lemma OutOfOrderOnlyReported(cfg: Settings, st: State, e: Entry, next: Option<nat>, earlier: nat)
    requires Fits(cfg, st) && InRange(cfg, e)
    ensures Step(cfg, st.(timePrev := earlier), e, next) == Step(cfg, st, e, next)
  {
  }
}
