/** Module health bookkeeping of the event builder: per-(sfp, board) start and
    stop times, pause and resume counts and dead time, and the EBIS, T1 and
    pulser timing markers. */
module Health {

  /** Everything the builder tracks for one FEBEX module (sfp, board). */
  datatype ModuleStats = ModuleStats(
    timeStart: nat, timeStop: nat, deadTime: int, pauseTime: nat, resumeTime: nat,
    nPause: nat, nResume: nat, flagPause: bool, flagResume: bool)

  const Zero := ModuleStats(0, 0, 0, 0, 0, 0, 0, false, false)

  /** The module tables, indexed [sfp][board]. */
  type Table = seq<seq<ModuleStats>>

  predicate Shaped(t: Table, nSfp: nat, nBoard: nat)
  {
    |t| == nSfp && forall s :: 0 <= s < |t| ==> |t[s]| == nBoard
  }

  /** Every cell other than (s, b) is the same in both tables. */
  ghost predicate SameElsewhere(r: Table, t: Table, s: nat, b: nat)
    requires |r| == |t| && forall i :: 0 <= i < |t| ==> |r[i]| == |t[i]|
  {
    forall i, j :: 0 <= i < |t| && 0 <= j < |t[i]| && (i != s || j != b) ==> r[i][j] == t[i][j]
  }

  /** The tables as a new file starts: every counter and time zero, no flag set. */
  function ZeroTable(nSfp: nat, nBoard: nat): (t: Table)
    ensures Shaped(t, nSfp, nBoard)
    ensures forall s, b :: 0 <= s < nSfp && 0 <= b < nBoard ==> t[s][b] == Zero
  {
    seq(nSfp, _ => seq(nBoard, _ => Zero))
  }

  /** A shaped table whose every cell is zero is the zero table. */
  lemma AllZeroIsZeroTable(t: Table, nSfp: nat, nBoard: nat)
    requires Shaped(t, nSfp, nBoard)
    requires forall s, b :: 0 <= s < nSfp && 0 <= b < nBoard ==> t[s][b] == Zero
    ensures t == ZeroTable(nSfp, nBoard)
  {
    var z := ZeroTable(nSfp, nBoard);
    forall s | 0 <= s < nSfp
      ensures t[s] == z[s]
    {
    }
  }

  function SetCell(t: Table, s: nat, b: nat, m: ModuleStats): (r: Table)
    requires s < |t| && b < |t[s]|
  {
    t[s := t[s][b := m]]
  }

  /** A FEBEX hit of module (s, b) at the given time: it becomes the start
      time while that is still 0, and always the stop time. */
  function FebexSeen(t: Table, s: nat, b: nat, time: nat): (r: Table)
    requires s < |t| && b < |t[s]|
    ensures |r| == |t| && forall i :: 0 <= i < |t| ==> |r[i]| == |t[i]|
    ensures SameElsewhere(r, t, s, b)
    ensures r[s][b].timeStop == time
    ensures r[s][b].timeStart == if t[s][b].timeStart == 0 then time else t[s][b].timeStart
    ensures r[s][b].(timeStart := 0, timeStop := 0) == t[s][b].(timeStart := 0, timeStop := 0)
  {
    var m := t[s][b];
    SetCell(t, s, b, m.(timeStart := if m.timeStart == 0 then time else m.timeStart, timeStop := time))
  }

  /** A Pause record for module (s, b): counted, flagged and its time kept.
      A module outside the nSfp x nBoard grid changes nothing. */
  function Pause(t: Table, nSfp: nat, nBoard: nat, s: nat, b: nat, time: nat): (r: Table)
    requires Shaped(t, nSfp, nBoard)
    ensures Shaped(r, nSfp, nBoard)
    ensures !(s < nSfp && b < nBoard) ==> r == t
    ensures s < nSfp && b < nBoard ==>
              SameElsewhere(r, t, s, b)
              && r[s][b] == t[s][b].(nPause := t[s][b].nPause + 1, flagPause := true, pauseTime := time)
  {
    if s < nSfp && b < nBoard then
      var m := t[s][b];
      SetCell(t, s, b, m.(nPause := m.nPause + 1, flagPause := true, pauseTime := time))
    else t
  }

  /** A Resume record for module (s, b): counted, flagged, its time kept, and
      the time since the last Pause (since 0 when none came since the file
      start) added to the dead time. A module outside the grid changes nothing. */
  function Resume(t: Table, nSfp: nat, nBoard: nat, s: nat, b: nat, time: nat): (r: Table)
    requires Shaped(t, nSfp, nBoard)
    ensures Shaped(r, nSfp, nBoard)
    ensures !(s < nSfp && b < nBoard) ==> r == t
    ensures s < nSfp && b < nBoard ==>
              SameElsewhere(r, t, s, b)
              && r[s][b].deadTime == t[s][b].deadTime + (time - t[s][b].pauseTime)
              && r[s][b].nResume == t[s][b].nResume + 1
              && r[s][b].resumeTime == time && r[s][b].flagResume
              && r[s][b].(deadTime := 0, nResume := 0, resumeTime := 0, flagResume := false)
                 == t[s][b].(deadTime := 0, nResume := 0, resumeTime := 0, flagResume := false)
  {
    if s < nSfp && b < nBoard then
      var m := t[s][b];
      SetCell(t, s, b, m.(nResume := m.nResume + 1, flagResume := true, resumeTime := time,
                          deadTime := m.deadTime + time - m.pauseTime))
    else t
  }

  /** A Pause at t1 followed by a Resume at t2 on the same module adds t2 - t1
      to its dead time and one to each of its pause and resume counts. */
  lemma PauseThenResume(t: Table, nSfp: nat, nBoard: nat, s: nat, b: nat, t1: nat, t2: nat)
    requires Shaped(t, nSfp, nBoard) && s < nSfp && b < nBoard
    ensures var r := Resume(Pause(t, nSfp, nBoard, s, b, t1), nSfp, nBoard, s, b, t2);
      && r[s][b].deadTime == t[s][b].deadTime + (t2 - t1)
      && r[s][b].nPause == t[s][b].nPause + 1
      && r[s][b].nResume == t[s][b].nResume + 1
  {
  }

  // ---------------------------------------------------------------------
  // Timing markers
  // ---------------------------------------------------------------------

  /** A point of a frequency profile: the marker time and the previous marker
      time, from which the frequency 1e9 / (time - prev) Hz is drawn. */
  datatype FreqPoint = FreqPoint(time: nat, prev: nat)

  /** One timing marker (EBIS, T1 or pulser): its last recorded time, the
      previous time, how many were recorded and the frequency profile. */
  datatype Marker = Marker(time: nat, prev: nat, count: nat, freq: seq<FreqPoint>)

  function Distance(a: nat, b: nat): (r: nat)
  {
    if a >= b then a - b else b - a
  }

  /** Records a marker at time t: it becomes the time and the previous time,
      and the profile gets a point only when a previous time was known (not 0). */
  function Observe(m: Marker, t: nat): (r: Marker)
  {
    Marker(t, t, m.count + 1, if m.prev != 0 then m.freq + [FreqPoint(t, m.prev)] else m.freq)
  }

  /** An EBIS or T1 record at time t: recorded only when it lies more than
      1000 ns from the last recorded time of that marker, otherwise ignored. */
  function Debounced(m: Marker, t: nat): (r: Marker)
    ensures Distance(m.time, t) <= 1000 ==> r == m
    ensures Distance(m.time, t) > 1000 ==>
              r.time == t && r.prev == t && r.count == m.count + 1
              && r.freq == m.freq + (if m.prev != 0 then [FreqPoint(t, m.prev)] else [])
  {
    if Distance(m.time, t) > 1000 then Observe(m, t) else m
  }

  /** A marker repeated within 1000 ns of one just recorded is ignored. */
  lemma RepeatIgnored(m: Marker, t: nat, t': nat)
    requires Distance(m.time, t) > 1000 && Distance(t, t') <= 1000
    ensures Debounced(Debounced(m, t), t') == Debounced(m, t)
  {
  }
}
