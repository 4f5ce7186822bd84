# Miniball event builder

This project models the event builder of the Miniball sort code in Dafny and
proves properties about it. The event builder walks the time-ordered entries of
one sorted input tree. Each entry is a FEBEX channel hit or an info record. It
groups the hits into time windows. When a window closes it reconstructs:

- gamma-ray singles and addback events from the Miniball hits;
- particle events from the CD hits.

It writes them to an output record. Along the way it keeps per-module health
bookkeeping: start and stop times, pauses, resumes and dead time, and the EBIS,
T1 and pulser timing markers.

The model has seven modules:

- `Hits` holds the input: the entry variant (`Febex` or `Info`), the window hit
  records and the settings the builder reads.
- `Evts` holds the output record `MiniballEvts` and the scratch gamma-ray object
  `GammaRayEvt`, both as classes whose setters update fields in place. An
  addback event has exactly the fields of a gamma-ray event, so both event
  vectors hold the one value type `GammaRay`.
- `Health` holds the module tables, pause/resume bookkeeping and the debounced
  timing markers, as functions on values.
- `Gamma` and `Particles` define what the two finders compute for one window,
  as recursive functions, with lemmas stating what those results are.
- `Windowing` defines one pass of the main loop (`Step`), the loop itself (`Run`)
  and building a whole tree (`Built`) over a value `State` of all of the
  builder's fields. Lemmas state the window rules.
- `Builder` is the imperative builder: class `EventBuilder` with the source's
  fields updated in place. Every method is proved to change the fields exactly
  as the functions of `Windowing`, `Gamma` and `Particles` say. Each finder loop
  carries invariants against those functions.

The model follows the code as written, including four behaviours that the
lemmas state outright:

- **The window anchor never moves.** `time_first` is only set when `hit_ctr` is
  1, but `hit_ctr` is only ever set to 0. After a file start the anchor stays at
  0. A window then closes only on the last entry, or when the next entry's time
  is above the build window (`AnchorNeverMoves`, `WindowCloseAfterFileStart`).
- **The addback inner loop starts at `i+i`.** The list of used events is never
  filled. So every single seeds its own addback event, and seed 0 adds its own
  energy twice (`SeedZeroCountedTwice`, `AddbackOfTwoSingles`).
- **The particle finder counts the p and n sides over all CD hits of the
  window**, whatever their detector and sector. When there is exactly one of
  each, it emits one copy of the pair for every (detector, sector) cell
  (`ParticleEmission`).
- **The hit indices kept by the particle finder are 8-bit**, so they are stored
  modulo 256.

The source's own comments describe a different intent on the first three
points:

- The anchor update is guarded as the "first datum included in Event"
  (src/EventBuilder.cc:441), but `hit_ctr` is always 0 there.
- The addback loop says it checks "we haven't already used this event"
  (src/EventBuilder.cc:675), but `ab_index` is never filled.
- The particle finder resets its index lists "for a new detector element"
  (src/EventBuilder.cc:728), but it counts the sides over all CD hits.

The model follows what the code does.

## Model

| member | source | states |
|---|---|---|
| Builder.EventBuilder.constructor | src/EventBuilder.cc:3-50 | The module tables are sized nSfp x nBoard. Every counter and time is zero, the window is empty and the record is empty. |
| Builder.EventBuilder.StartFile | src/EventBuilder.cc:52-102 | The new state is `FileStart` of the old one. |
| Windowing.FileStart | src/EventBuilder.cc:52-102 | After a file start these are all zero: the previous, min, max and anchor times; every run counter; each marker's count and previous time; the pulser time; every module cell. The last EBIS and T1 times, the frequency profiles, the window with its open and close flags, and the output are kept. |
| Builder.EventBuilder.ResetTimes | src/EventBuilder.cc:57-60 | Zeroes the four times and changes nothing else. |
| Builder.EventBuilder.ResetMarkers | src/EventBuilder.cc:61-71 | Zeroes the pulser time and each marker's previous time and count. Keeps the EBIS and T1 times. Changes nothing else. |
| Builder.EventBuilder.ResetCounts | src/EventBuilder.cc:66-79 | Zeroes the run counters and changes nothing else. |
| Builder.EventBuilder.ZeroModules | src/EventBuilder.cc:81-100 | The nested loop leaves the zero table and changes nothing else. |
| Health.ZeroTable | src/EventBuilder.cc:81-100 | The zero table is nSfp x nBoard and every cell is zero with no flag set. |
| Builder.EventBuilder.Initialise | src/EventBuilder.cc:162-201 | Lowers the close flag, closes the window, zeroes hitCtr and empties both hit lists and the record's three event vectors. Keeps the record's EBIS and T1 stamps. |
| Builder.EventBuilder.ClearWindow | src/EventBuilder.cc:166-195 | The state becomes `Initialised` of the old one. |
| Evts.MiniballEvts.ClearEvt | src/EventBuilder.cc:197 | Empties the three event vectors and keeps the EBIS and T1 times. |
| Builder.EventBuilder.BuildEvents | src/EventBuilder.cc:203-588 | Returns the number of entries. An empty tree changes nothing. Otherwise the state becomes the loop run over every entry from a cleared window. |
| Builder.EventBuilder.ReadEntries | src/EventBuilder.cc:230-547 | The loop over the entries ends in `Run` over all of them. Its invariant is `Run` over the first i entries. |
| Builder.EventBuilder.StepEntry | src/EventBuilder.cc:232-518 | One pass of the loop body moves the state from `Run` over i entries to `Run` over i+1. |
| Builder.EventBuilder.ReadEntry | src/EventBuilder.cc:238-435 | Reading an entry gives `Absorb`: it takes the entry's time, then reads it as a FEBEX hit or an info record. |
| Windowing.OutOfOrderOnlyReported | src/EventBuilder.cc:240-249 | A step does not depend on the previous entry's time, so an out-of-order timestamp is only reported. |
| Windowing.AbsorbFacts | src/EventBuilder.cc:249-314 | Reading an entry sets timePrev and leaves the output, the close flag and hitCtr alone. The anchor moves only when hitCtr is 1. Info records never open or extend a window. A FEBEX hit opens the window iff it is over threshold and mapped. It goes to the Miniball list iff it is over threshold and a Miniball channel, and to the CD list iff it is over threshold and a CD channel and not a Miniball one. |
| Builder.EventBuilder.ReadFebex | src/EventBuilder.cc:258-325 | A FEBEX hit is counted and kept when over threshold and mapped. Its module's start and stop times are updated, and the window's time bounds follow it. |
| Builder.EventBuilder.KeepHit | src/EventBuilder.cc:261-314 | Counts the hit and keeps it when it is over threshold and mapped, Miniball before CD. |
| Health.FebexSeen | src/EventBuilder.cc:318-323 | The hit's time becomes the module's stop time. It becomes the start time only while that is 0. Every other field and cell is unchanged. |
| Windowing.AbsorbModule | src/EventBuilder.cc:319-428 | Reading an entry changes no table cell except the one of the module it addresses. It changes a module's pause time only on a Pause record for that module. |
| Builder.EventBuilder.ReadInfo | src/EventBuilder.cc:331-435 | An info record is counted and then tested against each info code in turn. |
| Builder.EventBuilder.ObserveEbis | src/EventBuilder.cc:339-348 | An EBIS code updates the EBIS marker as `Debounced` says, and any other code leaves it. |
| Health.Debounced | src/EventBuilder.cc:339-348 | A marker within 1000 ns of the last recorded time changes nothing. Otherwise it becomes both the time and the previous time, and the count goes up by one. A profile point is added only when a previous time was known. |
| Health.RepeatIgnored | src/EventBuilder.cc:339-340 | A marker repeated within 1000 ns of one just recorded is ignored. |
| Builder.EventBuilder.ObserveT1 | src/EventBuilder.cc:351-360 | A T1 code updates the T1 marker as `Debounced` says, and any other code leaves it. |
| Builder.EventBuilder.ObservePulser | src/EventBuilder.cc:363-371 | A pulser code records the pulser time, counts it and adds a profile point when the previous time is known. It leaves the previous time for later. |
| Builder.EventBuilder.PauseResumeModule | src/EventBuilder.cc:373-428 | The Pause test and then the Resume test for the record's module. |
| Builder.EventBuilder.PauseModule | src/EventBuilder.cc:374-392 | A Pause code applies `Pause` to the tables, and any other code leaves them. |
| Health.Pause | src/EventBuilder.cc:374-392 | An in-grid Pause counts, flags and times the module and changes no other cell. An out-of-grid one changes nothing. |
| Windowing.StepPauseTime | src/EventBuilder.cc:374-392 | Only a Pause record for a module changes its pause time. |
| Builder.EventBuilder.ResumeModule | src/EventBuilder.cc:395-428 | A Resume code applies `Resume` to the tables, and any other code leaves them. |
| Health.Resume | src/EventBuilder.cc:395-428 | An in-grid Resume counts, flags and times the module, and adds resume time minus pause time to its dead time. No other field or cell changes. An out-of-grid one changes nothing. |
| Windowing.PauseTimeStaysZero | src/EventBuilder.cc:374-392 | With no Pause record for module (s, b), its pause time stays 0 through the run, whatever Pause records other modules get. |
| Windowing.ResumeWithoutPause | src/EventBuilder.cc:395-417 | A module blocked from the start: with no Pause record for (s, b) since its pause time was 0, a Resume record for it adds its whole time to its dead time. |
| Health.PauseThenResume | src/EventBuilder.cc:404-406 | A Pause at t1 then a Resume at t2 add t2 - t1 to the dead time and one to each count. |
| Windowing.ModuleUntouched | src/EventBuilder.cc:319-428 | A module that no entry addresses keeps its table cell through the whole run. |
| Windowing.StepModuleUntouched | src/EventBuilder.cc:319-428 | One step keeps the cell of every module the entry does not address. |
| Builder.EventBuilder.MovePulserPrev | src/EventBuilder.cc:431-432 | After a pulser code, the pulser's previous time moves on to its time. |
| Builder.EventBuilder.WindowTiming | src/EventBuilder.cc:439-454 | The anchor and bounds move to the hit when hitCtr is 1 and the hit is over threshold. Then the max or min widens to take the hit in. |
| Windowing.StepKeeps | src/EventBuilder.cc:442-448 | A step leaves the modules as reading the entry left them. With hitCtr 0 it keeps hitCtr at 0 and the anchor where it was. |
| Windowing.AnchorNeverMoves | src/EventBuilder.cc:442-448 | From hitCtr 0, the anchor stays where it was through any run, and hitCtr stays 0. |
| Builder.EventBuilder.LookAhead | src/EventBuilder.cc:460-481 | The close flag is raised when a next entry exists and its time minus the anchor is above the build window or negative. |
| Windowing.NextTime | src/EventBuilder.cc:460-462 | The look-ahead yields a time iff an entry follows entry i, and then it is that entry's time. |
| Windowing.Closes | src/EventBuilder.cc:460-487 | The close rule: there is no next entry, or the next time minus the anchor is above the build window or negative. `StepWindow` is proved against it. |
| Windowing.StepWindow | src/EventBuilder.cc:460-518 | When the close rule holds, the window is emptied and closed. A record is appended iff the window was open and holds a gamma-ray single. Otherwise the step is just the read. |
| Windowing.WindowCloseAfterFileStart | src/EventBuilder.cc:460-487 | After a file start, the window is closed after entry i iff i is the last entry or the next entry's time is above the build window. Otherwise the step only reads the entry. |
| Builder.EventBuilder.CloseEvent | src/EventBuilder.cc:487-518 | On close, an open window is emitted and then the window is cleared whatever it held. |
| Builder.EventBuilder.WriteEvent | src/EventBuilder.cc:490-511 | Runs both finders and stamps the record. Appends it to the output iff it holds a single or addback event. |
| Windowing.EmitFacts | src/EventBuilder.cc:490-511 | Closing an open window changes only the counters and the output. It appends the record iff the window holds a gamma-ray single. |
| Builder.EventBuilder.FillRecord | src/EventBuilder.cc:495-502 | The record becomes the one the window calls for: its singles, their addback, its particles and the last EBIS and T1 times. The counters grow by the event counts. |
| Windowing.StepRecords | src/EventBuilder.cc:503-505 | One step appends at most one record, and only one that holds a single. |
| Windowing.RecordsHoldGammas | src/EventBuilder.cc:487-516 | Every record written during a run holds at least one single and as many addback events as singles. Earlier output is kept. |
| Builder.EventBuilder.GammaRayFinder | src/EventBuilder.cc:591-714 | Appends the window's singles to the record, then one addback event per single the record holds. Counts both. |
| Builder.EventBuilder.FindSingles | src/EventBuilder.cc:606-650 | The singles loop appends exactly `Singles` of the Miniball hits. |
| Gamma.SinglesFollowCores | src/EventBuilder.cc:606-650 | Singles correspond one to one and in order with the core (segment 0) hits. Single k is built from the k-th core hit. |
| Builder.EventBuilder.SegmentSearch | src/EventBuilder.cc:612-639 | The segment loop returns the segment `SegScan` settles on. |
| Gamma.SegScanIsFirstMax | src/EventBuilder.cc:617-639 | The search ends on the first companion of strictly maximal, positive energy. It ends on segment 0 when no companion is above 0. |
| Gamma.SingleOfCore | src/EventBuilder.cc:641-647 | A single has the core's energy, time, cluster and crystal. Its segment is the first maximal companion's, or 0. The segment sum plays no part. |
| Gamma.CoreWithOneSegment | src/EventBuilder.cc:606-650 | A 500 keV core and a 50 keV segment-3 hit of the same crystal give one 500 keV single in segment 3. |
| Builder.EventBuilder.FindAddback | src/EventBuilder.cc:654-710 | The addback loop appends exactly `Addback` of the record's singles, one per single. |
| Gamma.AddbackOnePerSingle | src/EventBuilder.cc:654-710 | There is one addback event per single, in order. Event k is the one seeded by single k. |
| Gamma.AddbackLength | src/EventBuilder.cc:654-710 | There are as many addback events as singles. |
| Builder.EventBuilder.AddbackSearch | src/EventBuilder.cc:657-699 | The inner loop from i+i returns the sum, crystal, segment and time of `AbScan`. |
| Gamma.AbScanSum | src/EventBuilder.cc:666-686 | The addback sum is the seed's energy plus every same-cluster single from index i+i on. |
| Gamma.AbScanSpec | src/EventBuilder.cc:656-699 | Beyond the sum, crystal, segment and time come from the first same-cluster member from i+i on whose energy is the strict maximum above the seed's. Otherwise they come from the seed. |
| Gamma.AddbackOfSeed | src/EventBuilder.cc:701-707 | The addback event of seed i has that sum and donor. Its cluster is the seed's. |
| Gamma.SeedZeroCountedTwice | src/EventBuilder.cc:667 | Seed 0 adds its own energy twice. |
| Gamma.AddbackOfTwoSingles | src/EventBuilder.cc:667-682 | Singles of 500 and 300 keV in one cluster give addback events of 1300 and 300 keV. |
| Builder.EventBuilder.ParticleFinder | src/EventBuilder.cc:717-767 | Appends exactly `Particles` of the CD hits over every (detector, sector) cell, and counts them. |
| Builder.EventBuilder.FindSectors | src/EventBuilder.cc:726-761 | The sector loop of detector i appends that detector's cell events. |
| Builder.EventBuilder.FindCell | src/EventBuilder.cc:728-759 | Cell (i, j) gets one event iff there is exactly one p-side and one n-side index. |
| Builder.EventBuilder.SideSearch | src/EventBuilder.cc:735-740 | The side loop returns the side 0 and side 1 index lists, modulo 256. |
| Particles.SideIndices | src/EventBuilder.cc:735-740 | Every stored index is below the number of hits scanned. |
| Particles.SideIndicesOne | src/EventBuilder.cc:735-740 | A side's list is empty iff no hit is on that side. It is [k mod 256] when k is the only hit on that side. A one-element list means exactly one hit is on that side. |
| Particles.SectorEventsMatched | src/EventBuilder.cc:726-761 | With one hit per side, every sector of a detector gets that detector's copy of the pair. |
| Particles.AppendDetector | src/EventBuilder.cc:724-763 | Appending one detector's row to the grid of the detectors before it gives the grid of one more detector. |
| Particles.ParticlesMatched | src/EventBuilder.cc:724-763 | With one hit per side, cell (d, s) gets copy d*nSec + s, named d and s. |
| Particles.ParticlesUnmatched | src/EventBuilder.cc:746 | Without exactly one index on each side, no cell gets an event. |
| Particles.SectorEventsUnmatched | src/EventBuilder.cc:746 | The same for the sectors of one detector. |
| Particles.ParticleEmission | src/EventBuilder.cc:724-763 | Events are emitted iff there is at least one cell and exactly one side-0 hit and one side-1 hit; other sides are ignored. Then nDet*nSec copies are emitted, detector-major. Each copy carries its cell and the energy, time and strip of the two hits, whose indices are read modulo 256. |
| Particles.OffsetIsProduct | src/EventBuilder.cc:724-726 | Detector d's first copy is at d*nSec. It is 0 iff d or nSec is 0. |
| Particles.OffsetGrows | src/EventBuilder.cc:724-726 | The copies of an earlier detector come before those of a later one. |
| Windowing.Initialised | src/EventBuilder.cc:166-195 | The state with the close flag down, the window closed, hitCtr 0 and both hit lists empty; `ClearWindow` and `CloseEvent` are proved to reach it. |
| Windowing.Absorb | src/EventBuilder.cc:238-454 | Reading one entry: its time becomes the previous time, then it is read as a FEBEX hit or an info record; the module grid keeps its shape. `AbsorbFacts` and `AbsorbModule` state what it changes. |
| Windowing.ReadFebex | src/EventBuilder.cc:258-325 | A FEBEX hit: counted and kept when over threshold and mapped, its module marked seen, and the window timing applied; the module grid keeps its shape. |
| Windowing.Kept | src/EventBuilder.cc:261-314 | A FEBEX hit counted and, when over threshold, kept in the Miniball list if it is a Miniball channel, else in the CD list if it is a CD channel, opening the window. |
| Windowing.Timed | src/EventBuilder.cc:439-454 | The window timing after a FEBEX hit: anchor and bounds move to the hit when hitCtr is 1 and it is over threshold, then the max or min widens. |
| Windowing.ReadInfo | src/EventBuilder.cc:331-435 | An info record counted, then EBIS, T1, pulser, Pause and Resume codes applied in the source's order, and the pulser's previous time moved last; the module grid keeps its shape. |
| Windowing.PauseResume | src/EventBuilder.cc:373-428 | The Pause and then the Resume code applied to the module tables; the grid keeps its shape. |
| Health.Observe | src/EventBuilder.cc:342-346 | A marker recorded at t: t becomes its time and previous time, its count grows by one, and a profile point is added only when a previous time was known. |
| Windowing.RecordOf | src/EventBuilder.cc:495-502 | The record of a window: the last EBIS and T1 times, the singles of its Miniball hits, their addback and the particles of its CD hits; `FillRecord` is proved to build it. |
| Windowing.Emit | src/EventBuilder.cc:490-511 | Both finders on an open window: counters grow by the event counts and the record is written iff it holds a single or addback event; `EmitFacts` states what it changes. |
| Windowing.Flagged | src/EventBuilder.cc:460-481 | The look-ahead raising the close flag when a next entry exists and its time minus the anchor is above the build window or negative; `LookAhead` is proved against it. |
| Windowing.Closed | src/EventBuilder.cc:487-518 | Closing when the flag is up or the entry was the last: emit an open window, then clear it whatever it held. |
| Windowing.Step | src/EventBuilder.cc:232-518 | One pass of the loop body; the grid keeps its shape and the close flag is down afterwards. `StepWindow`, `StepKeeps` and `StepRecords` state the window rules. |
| Windowing.Run | src/EventBuilder.cc:230-547 | The loop over the first n entries; the grid keeps its shape. `ReadEntries` is proved against it. |
| Windowing.Built | src/EventBuilder.cc:203-588 | Building one tree: nothing for an empty tree, otherwise clear the window and run every entry; `BuildEvents` is proved against it. |
| Gamma.SegScan | src/EventBuilder.cc:612-639 | The segment search of core hit i over the first n hits; `SegScanIsFirstMax` states what it finds and `SegmentSearch` is proved against it. |
| Gamma.Single | src/EventBuilder.cc:641-647 | The single built from core hit i; `SingleOfCore` states its fields. |
| Gamma.Singles | src/EventBuilder.cc:606-650 | The singles of a window, one per core hit in order (`SinglesFollowCores`); `FindSingles` is proved against it. |
| Gamma.AbScan | src/EventBuilder.cc:656-699 | The addback scan of seed i over the singles from i+i to n; `AbScanSpec` states its sum and donor and `AddbackSearch` is proved against it. |
| Gamma.AddbackOf | src/EventBuilder.cc:701-707 | The addback event of seed i; `AddbackOfSeed` states its fields. |
| Gamma.Addback | src/EventBuilder.cc:654-710 | The addback events of all singles, one per single (`AddbackOnePerSingle`); `FindAddback` is proved against it. |
| Particles.PairEvent | src/EventBuilder.cc:749-756 | The particle event of a cell: its detector and sector, with energy, time and strip taken from p-side hit p and n-side hit n. `SectorEventsMatched` states it for a matched cell. |
| Particles.CellEvent | src/EventBuilder.cc:735-759 | What cell (det, sec) adds: one event iff both side lists have one index; `FindCell` is proved against it. |
| Particles.SectorEvents | src/EventBuilder.cc:726-761 | The events of the sectors of one detector; `FindSectors` is proved against it. |
| Particles.Particles | src/EventBuilder.cc:724-763 | The events of every cell, detector-major; `ParticleEmission` states when and what it emits and `ParticleFinder` is proved against it. |
| Evts.GammaRayEvt.constructor | include/MiniballEvts.hh:17 | A new gamma-ray event has the all-zero value. |
| Evts.GammaRayEvt.GetEnergy | include/MiniballEvts.hh:28 | Returns the energy of the event's value. |
| Evts.GammaRayEvt.GetTime | include/MiniballEvts.hh:29 | Returns the time of the event's value. |
| Evts.GammaRayEvt.GetCluster | include/MiniballEvts.hh:30 | Returns the cluster of the event's value. |
| Evts.GammaRayEvt.GetCrystal | include/MiniballEvts.hh:31 | Returns the crystal of the event's value. |
| Evts.GammaRayEvt.GetSegment | include/MiniballEvts.hh:32 | Returns the segment of the event's value. |
| Evts.MiniballEvts.constructor | include/MiniballEvts.hh:79 | A new record has zero stamps and three empty event vectors. |
| Evts.GammaRayEvt.SetEnergy | include/MiniballEvts.hh:21 | The energy reads back as set, and the other fields are unchanged. |
| Evts.GammaRayEvt.SetTime | include/MiniballEvts.hh:22 | The time reads back as set, and the other fields are unchanged. |
| Evts.GammaRayEvt.SetCluster | include/MiniballEvts.hh:23 | The cluster reads back as set, and the other fields are unchanged. |
| Evts.GammaRayEvt.SetCrystal | include/MiniballEvts.hh:24 | The crystal reads back as set, and the other fields are unchanged. |
| Evts.GammaRayEvt.SetSegment | include/MiniballEvts.hh:25 | The segment reads back as set, and the other fields are unchanged. |
| Evts.MiniballEvts.AddGammaRayEvt | include/MiniballEvts.hh:82 | Appends a copy of the event's value to the singles and changes nothing else. |
| Evts.MiniballEvts.AddGammaRayAddbackEvt | include/MiniballEvts.hh:83 | Appends a copy of the event's value to the addback events and changes nothing else. |
| Evts.MiniballEvts.AddParticleEvt | src/EventBuilder.cc:757 | Appends the particle event and changes nothing else. |
| Evts.MiniballEvts.GetGammaRayMultiplicity | include/MiniballEvts.hh:85 | The number of singles held. |
| Evts.MiniballEvts.GetGammaRayAddbackMultiplicity | include/MiniballEvts.hh:86 | The number of addback events held. |
| Evts.MiniballEvts.GetGammaRayEvt | include/MiniballEvts.hh:88-91 | Returns some value iff i is below the singles multiplicity, and then it is single i. Otherwise it returns nothing (null). |
| Evts.MiniballEvts.GetGammaRayAddbackEvt | include/MiniballEvts.hh:92-95 | Returns some value iff i is below the addback multiplicity, and then it is addback event i. Otherwise it returns nothing (null). |
| Evts.MiniballEvts.SetEBIS | include/MiniballEvts.hh:100 | GetEBIS returns t afterwards, and the event vectors and T1 time are unchanged. |
| Evts.MiniballEvts.SetT1 | include/MiniballEvts.hh:101 | GetT1 returns t afterwards, and the event vectors and EBIS time are unchanged. |
| Evts.MiniballEvts.GetEBIS | include/MiniballEvts.hh:103 | Returns the EBIS stamp of the record's value. |
| Evts.MiniballEvts.GetT1 | include/MiniballEvts.hh:104 | Returns the T1 stamp of the record's value. |

## Left out

- ROOT file and tree handling is not modelled: `SetInputFile`, `SetInputTree`, `SetOutput`, basket loading and dropping, and `MakeEventHists`/`CleanHists`. The input tree is the entry sequence given to `BuildEvents`. Filling the output tree is appending the record to the `output` sequence.
- Console and log output is left out. This covers the out-of-order warning, bad pause/resume, blocked-at-start messages and the end-of-run summary. It also covers the progress bar and GUI updates, and the `tdiff` histograms. None of them feeds back into the state.
- The marker frequencies `1e9 / (time - prev)` are floating point. Each profile fill is kept as a (time, previous time) point, under the same "previous time known" condition.
- The EBIS/T1 debounce compares doubles in the source. The model uses the exact integer distance, so it can differ only for times beyond 2^53 ns.
- The channel mapping and calibration lookups are foreign calls, and so is the `overwrite_cal` choice between the calibrated and the stored energy and threshold. Each FEBEX entry carries their results: energy, over-threshold decision, and Miniball and CD positions.
- A FEBEX entry's sfp and board must be inside the module grid (`InRange`). The source reads those tables through throwing range checks, and the model does not model the exception.
- Builder.EventBuilder.constructor starts every field at zero. In the source, `StartFile` sets the counters, times and tables, and `Initialise` sets `hit_ctr`, `event_open` and `flag_close_event`. Nothing sets `ebis_time` or `t1_time` before an accepted marker, so the source's first EBIS/T1 debounce compares against an unset value. The model compares against 0, so it ignores a first EBIS or T1 marker at a time of 1000 ns or less.
- Evts.GammaRayEvt.constructor and Evts.MiniballEvts.constructor zero every field (energy, time, cluster, crystal and segment; the EBIS and T1 stamps). The source's constructors have empty bodies and leave these fields unset. The builder sets each field before it is read, so no output depends on this.
- The source header's `MiniballEvts::ClearEvt` has no body. The model empties the three event vectors and keeps the EBIS and T1 times.
- The record follows what `EventBuilder.cc` calls: `SetCluster`-style setters, one `AddEvt` per event kind, and a particle vector. The header declares `SetClu`/`SetCry`/`SetSeg`, raw-pointer `AddEvt` overloads and no particle vector.
- Times and counters are unbounded naturals, so the 64-bit wrap-around of the source's unsigned types is not modelled. The look-ahead difference and the dead time are unbounded integers. Their widths are declared in `EventBuilder.hh`, which is not part of this model.
- The 8-bit cluster, crystal, segment, detector, sector and strip fields are not truncated, since the mapping yields small values. The 8-bit hit indices of the particle finder are truncated (modulo 256). The 8-bit used-event list of the addback pass is never filled, so its width does not matter.
- Energies are reals, so single-precision float rounding in the sums and comparisons is not modelled.
- The segment energy sum, segment multiplicity and addback multiplicity are computed and never read. They are kept as locals with no effect.
- The per-SFP and per-board event counters and the beam-dump counter are never incremented by this code. They are left out, apart from the zeroed beam-dump field of the counters.
- Several methods of `Builder.EventBuilder` stand for inline code of `BuildEvents`, `StartFile`, `Initialise` and the finders: ReadEntries, StepEntry, ReadEntry, ReadFebex, KeepHit, WindowTiming, ReadInfo and its Observe/Pause/Resume helpers, LookAhead, CloseEvent, WriteEvent, FillRecord, ResetTimes, ResetMarkers, ResetCounts, ZeroModules, ClearWindow, FindSingles, FindAddback, SegmentSearch, AddbackSearch, FindSectors, FindCell and SideSearch. They add no behaviour.
- `mb_sort.cc` (command line, threads, the HTTP server and the shared-memory data spy) and `Histogrammer.hh` (floating-point cut predicates over an unseen reaction class) are not part of this model.
