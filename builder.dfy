/** The event builder object. Its counters, module tables, marker times, open
    window and output are fields updated in place entry by entry; every
    method is proved to change them exactly as the functions of module
    Windowing say, and the finders to fill the record exactly as the
    functions of modules Gamma and Particles say. */
module Builder {
  import opened Hits
  import opened Evts
  import opened Health
  import opened Windowing
  import Gamma
  import Particles

  class EventBuilder {
    const settings: Settings
    /** The record filled for the window being closed. */
    const writeEvts: MiniballEvts
    /** Scratch objects the finders set field by field before adding a copy. */
    const gammaEvt: GammaRayEvt
    const gammaAbEvt: GammaRayEvt

    var timePrev: nat
    var timeMin: nat
    var timeMax: nat
    var timeFirst: nat
    var hitCtr: nat
    /** The EBIS, T1 and pulser markers: last time, previous time, count and
        frequency profile of each. */
    var ebis: Marker
    var t1: Marker
    var pulser: Marker
    /** The run counters (FEBEX and info packets, Miniball and CD hits,
        gamma-ray, addback and particle events, beam-dump events). */
    var counts: Counts
    var modules: Table
    var mbList: seq<MbHit>
    var cdList: seq<CdHit>
    var eventOpen: bool
    var flagCloseEvent: bool
    /** The records written to the output tree, in order. */
    var output: seq<Record>

    /** The builder's fields as one value of the loop's state. */
    ghost function Abs(): State
      reads this
    {
      State(timePrev, timeMin, timeMax, timeFirst, hitCtr, ebis, t1, pulser, counts,
            modules, mbList, cdList, eventOpen, flagCloseEvent, output)
    }

    /** A builder for the given settings: module tables of nSfp x nBoard
        zeroed cells, every counter and time zero, an empty window and an
        empty record. */
    constructor (cfg: Settings)
      ensures settings == cfg
      ensures Abs() == State(0, 0, 0, 0, 0, Marker(0, 0, 0, []), Marker(0, 0, 0, []), Marker(0, 0, 0, []),
                             NoCounts, ZeroTable(cfg.nSfp, cfg.nBoard), [], [], false, false, [])
      ensures writeEvts.Value() == Record(0, 0, [], [], [])
      ensures fresh(writeEvts) && fresh(gammaEvt) && fresh(gammaAbEvt)
    {
      settings := cfg;
      writeEvts := new MiniballEvts();
      gammaEvt := new GammaRayEvt();
      gammaAbEvt := new GammaRayEvt();
      timePrev, timeMin, timeMax, timeFirst, hitCtr := 0, 0, 0, 0, 0;
      ebis, t1, pulser := Marker(0, 0, 0, []), Marker(0, 0, 0, []), Marker(0, 0, 0, []);
      counts := NoCounts;
      modules := ZeroTable(cfg.nSfp, cfg.nBoard);
      mbList, cdList := [], [];
      eventOpen, flagCloseEvent := false, false;
      output := [];
    }

    /** Resets the counters, times and module tables for a new input file. */
    method StartFile()
      requires Shaped(modules, settings.nSfp, settings.nBoard)
      modifies this`timePrev, this`timeMin, this`timeMax, this`timeFirst
      modifies this`ebis, this`t1, this`pulser, this`counts, this`modules
      ensures Abs() == FileStart(settings, old(Abs()))
    {
      ResetTimes();
      ResetMarkers();
      ResetCounts();
      ZeroModules();
    }

    /** Zeroes the previous, minimum, maximum and anchor times. */
    method ResetTimes()
      modifies this`timePrev, this`timeMin, this`timeMax, this`timeFirst
      ensures Abs() == old(Abs()).(timePrev := 0, timeMin := 0, timeMax := 0, timeFirst := 0)
    {
      timePrev, timeMin, timeMax, timeFirst := 0, 0, 0, 0;
    }

    /** Zeroes the marker counts and previous times and the pulser time; the
        last EBIS and T1 times are kept. */
    method ResetMarkers()
      modifies this`ebis, this`t1, this`pulser
      ensures Abs() == old(Abs()).(pulser := old(pulser).(time := 0, prev := 0, count := 0),
                                   ebis := old(ebis).(prev := 0, count := 0),
                                   t1 := old(t1).(prev := 0, count := 0))
    {
      pulser := pulser.(time := 0, prev := 0, count := 0);
      ebis := ebis.(prev := 0, count := 0);
      t1 := t1.(prev := 0, count := 0);
    }

    /** Zeroes the run counters. */
    method ResetCounts()
      modifies this`counts
      ensures Abs() == old(Abs()).(counts := NoCounts)
    {
      counts := NoCounts;
    }

    /** Zeroes every cell of the module tables, sfp by sfp and board by board. */
    method ZeroModules()
      requires Shaped(modules, settings.nSfp, settings.nBoard)
      modifies this`modules
      ensures Abs() == old(Abs()).(modules := ZeroTable(settings.nSfp, settings.nBoard))
    {
      for i := 0 to settings.nSfp
        modifies this`modules
        invariant Shaped(modules, settings.nSfp, settings.nBoard)
        invariant forall s, b :: 0 <= s < i && 0 <= b < settings.nBoard ==> modules[s][b] == Zero
      {
        for j := 0 to settings.nBoard
          modifies this`modules
          invariant Shaped(modules, settings.nSfp, settings.nBoard)
          invariant forall s, b :: 0 <= s < i && 0 <= b < settings.nBoard ==> modules[s][b] == Zero
          invariant forall b :: 0 <= b < j ==> modules[i][b] == Zero
        {
          modules := modules[i := modules[i][j := Zero]];
        }
      }
      AllZeroIsZeroTable(modules, settings.nSfp, settings.nBoard);
    }

    /** The record's three event vectors are empty. */
    predicate Cleared()
      reads writeEvts
    {
      writeEvts.gammaEvent == [] && writeEvts.gammaAbEvent == [] && writeEvts.particleEvent == []
    }

    /** Clears the window and the record's event vectors. */
    method Initialise()
      modifies this`flagCloseEvent, this`eventOpen, this`hitCtr, this`mbList, this`cdList, writeEvts
      ensures Abs() == Initialised(old(Abs()))
      ensures Cleared()
      ensures writeEvts.ebis == old(writeEvts.ebis) && writeEvts.t1 == old(writeEvts.t1)
    {
      ClearWindow();
      writeEvts.ClearEvt();
    }

    /** Lowers the close flag, closes the window and empties its hit lists. */
    method ClearWindow()
      modifies this`flagCloseEvent, this`eventOpen, this`hitCtr, this`mbList, this`cdList
      ensures Abs() == Initialised(old(Abs()))
    {
      flagCloseEvent := false;
      eventOpen := false;
      hitCtr := 0;
      mbList, cdList := [], [];
    }

    /** Reads one entry: its time becomes the previous time (an entry earlier
        than the previous one is only reported), then it is read as a FEBEX
        hit or as an info record. */
    method ReadEntry(e: Entry)
      requires Shaped(modules, settings.nSfp, settings.nBoard) && InRange(settings, e)
      modifies this`timePrev, this`counts, this`eventOpen, this`mbList, this`cdList, this`modules
      modifies this`timeMin, this`timeMax, this`timeFirst, this`ebis, this`t1, this`pulser
      ensures Abs() == Absorb(settings, old(Abs()), e)
    {
      timePrev := e.time;
      if e.Febex? {
        ReadFebex(e);
      } else {
        ReadInfo(e);
      }
    }

    /** Reads one FEBEX hit (after its time has been taken). */
    method ReadFebex(e: Entry)
      requires e.Febex? && Shaped(modules, settings.nSfp, settings.nBoard) && InRange(settings, e)
      modifies this`counts, this`eventOpen, this`mbList, this`cdList, this`modules
      modifies this`timeMin, this`timeMax, this`timeFirst
      ensures Abs() == Windowing.ReadFebex(settings, old(Abs()), e)
    {
      ghost var kept := Kept(old(Abs()), e).(modules := FebexSeen(modules, e.sfp, e.board, e.time));
      KeepHit(e);
      var m := modules[e.sfp][e.board];
      if m.timeStart == 0 {
        m := m.(timeStart := e.time);
      }
      m := m.(timeStop := e.time);
      modules := modules[e.sfp := modules[e.sfp][e.board := m]];
      assert Abs() == kept;
      WindowTiming(e);
    }

    /** Counts a FEBEX hit and keeps it in the window when it is over
        threshold and mapped, Miniball before CD. */
    method KeepHit(e: Entry)
      requires e.Febex?
      modifies this`counts, this`eventOpen, this`mbList, this`cdList
      ensures Abs() == Kept(old(Abs()), e)
    {
      counts := counts.(febexData := counts.febexData + 1);
      var mythres := e.overThreshold;
      if e.miniball.Some? && mythres {
        counts := counts.(miniball := counts.miniball + 1);
        eventOpen := true;
        mbList := mbList + [MbHitOf(e)];
      } else if e.cd.Some? && mythres {
        counts := counts.(cd := counts.cd + 1);
        eventOpen := true;
        cdList := cdList + [CdHitOf(e)];
      }
    }

    /** The window timing, for real data only. */
    method WindowTiming(e: Entry)
      requires e.Febex?
      modifies this`timeMin, this`timeMax, this`timeFirst
      ensures Abs() == Timed(old(Abs()), e)
    {
      if hitCtr == 1 && e.overThreshold {
        timeMin, timeMax, timeFirst := e.time, e.time, e.time;
      }
      if e.time > timeMax {
        timeMax := e.time;
      } else if e.time < timeMin {
        timeMin := e.time;
      }
    }

    /** Reads one info record (after its time has been taken): each info
        code is tested in turn, and the pulser's previous time is moved on
        last. */
    method ReadInfo(e: Entry)
      requires e.Info? && Shaped(modules, settings.nSfp, settings.nBoard)
      modifies this`counts, this`ebis, this`t1, this`pulser, this`modules
      ensures Abs() == Windowing.ReadInfo(settings, old(Abs()), e)
    {
      counts := counts.(infoData := counts.infoData + 1);
      ObserveEbis(e);
      ObserveT1(e);
      ObservePulser(e);
      PauseResumeModule(e);
      MovePulserPrev(e);
    }

    /** The Pause and then the Resume code test of an info record. */
    method PauseResumeModule(e: Entry)
      requires e.Info? && Shaped(modules, settings.nSfp, settings.nBoard)
      modifies this`modules
      ensures Abs() == old(Abs()).(modules := PauseResume(settings, old(modules), e))
    {
      PauseModule(e);
      ResumeModule(e);
    }

    /** Moves the pulser's previous time on to its time after a pulser code. */
    method MovePulserPrev(e: Entry)
      requires e.Info?
      modifies this`pulser
      ensures Abs() == old(Abs()).(pulser := if e.code == settings.pulserCode then old(pulser).(prev := old(pulser).time)
                                            else old(pulser))
    {
      if e.code == settings.pulserCode {
        pulser := pulser.(prev := pulser.time);
      }
    }

    /** An EBIS code more than 1000 ns away from the last EBIS time records a
        new EBIS time. */
    method ObserveEbis(e: Entry)
      requires e.Info?
      modifies this`ebis
      ensures Abs() == old(Abs()).(ebis := if e.code == settings.ebisCode then Debounced(old(ebis), e.time) else old(ebis))
    {
      if e.code == settings.ebisCode && Distance(ebis.time, e.time) > 1000 {
        ebis := ebis.(time := e.time);
        if ebis.prev != 0 {
          ebis := ebis.(freq := ebis.freq + [FreqPoint(ebis.time, ebis.prev)]);
        }
        ebis := ebis.(prev := ebis.time, count := ebis.count + 1);
      }
    }

    /** A T1 code more than 1000 ns away from the last T1 time records a new
        T1 time. */
    method ObserveT1(e: Entry)
      requires e.Info?
      modifies this`t1
      ensures Abs() == old(Abs()).(t1 := if e.code == settings.t1Code then Debounced(old(t1), e.time) else old(t1))
    {
      if e.code == settings.t1Code && Distance(t1.time, e.time) > 1000 {
        t1 := t1.(time := e.time);
        if t1.prev != 0 {
          t1 := t1.(freq := t1.freq + [FreqPoint(t1.time, t1.prev)]);
        }
        t1 := t1.(prev := t1.time, count := t1.count + 1);
      }
    }

    /** A pulser code records the pulser time; its previous time is left for
        the end of the record. */
    method ObservePulser(e: Entry)
      requires e.Info?
      modifies this`pulser
      ensures Abs() == old(Abs()).(pulser := if e.code == settings.pulserCode
                                            then Observe(old(pulser), e.time).(prev := old(pulser).prev)
                                            else old(pulser))
    {
      if e.code == settings.pulserCode {
        pulser := pulser.(time := e.time);
        if pulser.prev != 0 {
          pulser := pulser.(freq := pulser.freq + [FreqPoint(pulser.time, pulser.prev)]);
        }
        pulser := pulser.(count := pulser.count + 1);
      }
    }

    /** A Pause code for a module inside the grid counts, flags and times the
        pause; one outside the grid is only reported. */
    method PauseModule(e: Entry)
      requires e.Info? && Shaped(modules, settings.nSfp, settings.nBoard)
      modifies this`modules
      ensures Abs() == old(Abs()).(modules := if e.code == settings.pauseCode
                                             then Pause(old(modules), settings.nSfp, settings.nBoard, e.sfp, e.board, e.time)
                                             else old(modules))
    {
      if e.code == settings.pauseCode {
        if e.sfp < settings.nSfp && e.board < settings.nBoard {
          var m := modules[e.sfp][e.board];
          m := m.(nPause := m.nPause + 1, flagPause := true, pauseTime := e.time);
          modules := modules[e.sfp := modules[e.sfp][e.board := m]];
        }
      }
    }

    /** A Resume code for a module inside the grid counts, flags and times the
        resume and adds the time since the pause to the dead time; one outside
        the grid is only reported. */
    method ResumeModule(e: Entry)
      requires e.Info? && Shaped(modules, settings.nSfp, settings.nBoard)
      modifies this`modules
      ensures Abs() == old(Abs()).(modules := if e.code == settings.resumeCode
                                             then Resume(old(modules), settings.nSfp, settings.nBoard, e.sfp, e.board, e.time)
                                             else old(modules))
    {
      if e.code == settings.resumeCode {
        if e.sfp < settings.nSfp && e.board < settings.nBoard {
          var m := modules[e.sfp][e.board];
          m := m.(nResume := m.nResume + 1, flagResume := true, resumeTime := e.time);
          m := m.(deadTime := m.deadTime + m.resumeTime - m.pauseTime);
          modules := modules[e.sfp := modules[e.sfp][e.board := m]];
        }
      }
    }

    /** Builds the gamma-ray singles of the window into the record, then one
        addback event per single held by the record. */
    method GammaRayFinder()
      modifies this`counts, writeEvts, gammaEvt, gammaAbEvt
      ensures writeEvts.Value() == old(writeEvts.Value()).(gamma := old(writeEvts.gammaEvent) + Gamma.Singles(mbList),
                                                           addback := old(writeEvts.gammaAbEvent) + Gamma.Addback(writeEvts.gammaEvent))
      ensures counts == old(counts).(gamma := old(counts.gamma) + |Gamma.Singles(mbList)|,
                                     gammaAb := old(counts.gammaAb) + |writeEvts.gammaEvent|)
    {
      FindSingles();
      FindAddback();
    }

    /** The singles pass: one gamma ray per core (segment 0) hit, in order,
        with the segment found by the segment search. */
    method FindSingles()
      modifies this`counts, writeEvts, gammaEvt
      ensures writeEvts.Value() == old(writeEvts.Value()).(gamma := old(writeEvts.gammaEvent) + Gamma.Singles(mbList))
      ensures counts == old(counts).(gamma := old(counts.gamma) + |Gamma.Singles(mbList)|)
    {
      for i := 0 to |mbList|
        invariant writeEvts.Value() == old(writeEvts.Value()).(gamma := old(writeEvts.gammaEvent) + Gamma.SinglesUpTo(mbList, i))
        invariant counts == old(counts).(gamma := old(counts.gamma) + |Gamma.SinglesUpTo(mbList, i)|)
      {
        if mbList[i].segment != 0 {
          continue;
        }
        var maxSegId := SegmentSearch(i);
        counts := counts.(gamma := counts.gamma + 1);
        gammaEvt.SetEnergy(mbList[i].energy);
        gammaEvt.SetCluster(mbList[i].cluster);
        gammaEvt.SetCrystal(mbList[i].crystal);
        gammaEvt.SetSegment(maxSegId);
        gammaEvt.SetTime(mbList[i].time);
        writeEvts.AddGammaRayEvt(gammaEvt);
      }
    }

    /** The addback pass: one addback event per single held by the record,
        seeded by that single. */
    method FindAddback()
      modifies this`counts, writeEvts, gammaAbEvt
      ensures writeEvts.Value() == old(writeEvts.Value()).(addback := old(writeEvts.gammaAbEvent) + Gamma.Addback(writeEvts.gammaEvent))
      ensures counts == old(counts).(gammaAb := old(counts.gammaAb) + |writeEvts.gammaEvent|)
    {
      ghost var singles := writeEvts.gammaEvent;
      var i := 0;
      while i < writeEvts.GetGammaRayMultiplicity()
        invariant i <= |singles|
        invariant writeEvts.Value() == old(writeEvts.Value()).(addback := old(writeEvts.gammaAbEvent) + Gamma.AddbackUpTo(singles, i))
        invariant counts == old(counts).(gammaAb := old(counts.gammaAb) + i)
      {
        var abSumEnergy, maxCryId, maxSegId, maxTime := AddbackSearch(i);
        var seed := writeEvts.GetGammaRayEvt(i).value;
        counts := counts.(gammaAb := counts.gammaAb + 1);
        gammaAbEvt.SetEnergy(abSumEnergy);
        gammaAbEvt.SetCluster(seed.cluster);
        gammaAbEvt.SetCrystal(maxCryId);
        gammaAbEvt.SetSegment(maxSegId);
        gammaAbEvt.SetTime(maxTime);
        writeEvts.AddGammaRayAddbackEvt(gammaAbEvt);
        i := i + 1;
      }
    }

    /** The segment search for core hit i: over every other hit of the same
        crystal of the same cluster, the segment of the first one of strictly
        largest energy above 0, or 0. */
    method SegmentSearch(i: nat) returns (maxSegId: nat)
      requires i < |mbList|
      ensures maxSegId == Gamma.SegScan(mbList, i, |mbList|).segment
    {
      maxSegId := 0;
      var maxEnergy: real := 0.0;
      var segSumEnergy: real := 0.0;  // summed but never used
      var segMul: nat := 0;           // counted but never used
      for j := 0 to |mbList|
        invariant Gamma.SegMax(maxEnergy, maxSegId) == Gamma.SegScan(mbList, i, j)
      {
        if mbList[i].cluster != mbList[j].cluster || mbList[i].crystal != mbList[j].crystal {
          continue;
        }
        if i == j {
          continue;
        }
        segMul := segMul + 1;
        segSumEnergy := segSumEnergy + mbList[j].energy;
        if mbList[j].energy > maxEnergy {
          maxEnergy := mbList[j].energy;
          maxSegId := mbList[j].segment;
        }
      }
    }

    /** The addback search seeded by single i of the record: from index i+i
        on, every single of the seed's cluster not in the (never filled) list
        of used events adds its energy, and the first one of strictly largest
        energy gives crystal, segment and time. */
    method AddbackSearch(i: nat) returns (abSumEnergy: real, maxCryId: nat, maxSegId: nat, maxTime: nat)
      requires i < writeEvts.GetGammaRayMultiplicity()
      ensures var a := Gamma.AbScan(writeEvts.gammaEvent, i, |writeEvts.gammaEvent|);
        abSumEnergy == a.sum && maxCryId == a.crystal && maxSegId == a.segment && maxTime == a.time
    {
      ghost var singles := writeEvts.gammaEvent;
      var seed := writeEvts.GetGammaRayEvt(i).value;
      abSumEnergy := seed.energy;
      maxCryId := seed.crystal;
      maxSegId := seed.segment;
      var maxEnergy := abSumEnergy;
      maxTime := seed.time;
      var abMul: nat := 1;  // counted but never used
      var abIndex: seq<nat> := [];  // the events already used: never filled
      var j := i + i;
      while j < writeEvts.GetGammaRayMultiplicity()
        invariant i + i <= j && (j <= |singles| || j == i + i)
        invariant Gamma.AbAcc(abSumEnergy, maxEnergy, maxCryId, maxSegId, maxTime)
                  == Gamma.AbScan(singles, i, if j <= |singles| then j else |singles|)
      {
        var other := writeEvts.GetGammaRayEvt(j).value;
        if seed.cluster == other.cluster {
          var skipEvent := j in abIndex;
          if !skipEvent {
            abMul := abMul + 1;
            abSumEnergy := abSumEnergy + other.energy;
            if other.energy > maxEnergy {
              maxEnergy := other.energy;
              maxCryId := other.crystal;
              maxSegId := other.segment;
              maxTime := other.time;
            }
          }
        }
        j := j + 1;
      }
    }

    /** Adds the particle events of every (detector, sector) cell to the record. */
    method ParticleFinder()
      modifies this`counts, writeEvts`particleEvent
      ensures var found := Particles.Particles(cdList, settings.nCdDet, settings.nCdSec);
        && writeEvts.particleEvent == old(writeEvts.particleEvent) + found
        && counts == old(counts).(particle := old(counts.particle) + |found|)
    {
      for i := 0 to settings.nCdDet
        invariant var found := Particles.Particles(cdList, i, settings.nCdSec);
          && writeEvts.particleEvent == old(writeEvts.particleEvent) + found
          && counts == old(counts).(particle := old(counts.particle) + |found|)
      {
        FindSectors(i);
        assert Particles.Particles(cdList, i + 1, settings.nCdSec)
          == Particles.Particles(cdList, i, settings.nCdSec) + Particles.SectorEvents(cdList, i, settings.nCdSec);
      }
    }

    /** The inner loop of the particle finder: the cells of detector i,
        sector by sector. */
    method FindSectors(i: nat)
      modifies this`counts, writeEvts`particleEvent
      ensures var found := Particles.SectorEvents(cdList, i, settings.nCdSec);
        && writeEvts.particleEvent == old(writeEvts.particleEvent) + found
        && counts == old(counts).(particle := old(counts.particle) + |found|)
    {
      for j := 0 to settings.nCdSec
        invariant var found := Particles.SectorEvents(cdList, i, j);
          && writeEvts.particleEvent == old(writeEvts.particleEvent) + found
          && counts == old(counts).(particle := old(counts.particle) + |found|)
      {
        FindCell(i, j);
      }
    }

    /** The body of the inner loop: cell (i, j) gets an event when the window
        has exactly one p-side and one n-side hit. */
    method FindCell(i: nat, j: nat)
      modifies this`counts, writeEvts`particleEvent
      ensures var found := Particles.CellEvent(cdList, i, j);
        && writeEvts.particleEvent == old(writeEvts.particleEvent) + found
        && counts == old(counts).(particle := old(counts.particle) + |found|)
    {
      var pIndex, nIndex := SideSearch();
      if |pIndex| == 1 && |nIndex| == 1 {
        counts := counts.(particle := counts.particle + 1);
        var p, n := pIndex[0], nIndex[0];
        writeEvts.AddParticleEvt(ParticleEvt(i, j, cdList[p].energy, cdList[n].energy,
                                             cdList[p].time, cdList[n].time, cdList[p].strip, cdList[n].strip));
      }
    }

    method SideSearch() returns (pIndex: seq<nat>, nIndex: seq<nat>)
      ensures pIndex == Particles.SideIndices(cdList, 0, |cdList|)
      ensures nIndex == Particles.SideIndices(cdList, 1, |cdList|)
    {
      pIndex, nIndex := [], [];
      for k := 0 to |cdList|
        invariant pIndex == Particles.SideIndices(cdList, 0, k)
        invariant nIndex == Particles.SideIndices(cdList, 1, k)
      {
        if cdList[k].side == 0 {
          pIndex := pIndex + [k % 256];
        } else if cdList[k].side == 1 {
          nIndex := nIndex + [k % 256];
        }
      }
    }

    /** Runs both finders on the open window, stamps the record with the last
        EBIS and T1 times, and writes it to the output when it holds a
        gamma-ray single or addback event. */
    method WriteEvent()
      requires Cleared()
      modifies this`counts, this`output, writeEvts, gammaEvt, gammaAbEvt
      ensures var r := Emit(settings, old(Abs())); counts == r.counts && output == r.output
    {
      FillRecord();
      if writeEvts.GetGammaRayMultiplicity() != 0 || writeEvts.GetGammaRayAddbackMultiplicity() != 0 {
        output := output + [writeEvts.Value()];
      }
    }

    /** Both finders and the EBIS and T1 stamps: the record becomes the one
        the window calls for, and the gamma-ray, addback and particle
        counters grow by its event counts. */
    method FillRecord()
      requires Cleared()
      modifies this`counts, writeEvts, gammaEvt, gammaAbEvt
      ensures writeEvts.Value() == RecordOf(settings, old(Abs()))
      ensures counts == Emit(settings, old(Abs())).counts
    {
      ghost var rec := RecordOf(settings, Abs());
      Gamma.AddbackLength(rec.gamma);
      GammaRayFinder();
      assert writeEvts.gammaEvent == rec.gamma;
      ParticleFinder();
      writeEvts.SetEBIS(ebis.time);
      writeEvts.SetT1(t1.time);
      assert writeEvts.gammaAbEvent == rec.addback;
      assert writeEvts.particleEvent == rec.particles;
    }

    /** Closes the window: writes its event when it is open, then clears it. */
    method CloseEvent()
      requires Cleared()
      modifies this`counts, this`output, this`flagCloseEvent, this`eventOpen, this`hitCtr, this`mbList, this`cdList
      modifies writeEvts, gammaEvt, gammaAbEvt
      ensures Abs() == Initialised(if old(eventOpen) then Emit(settings, old(Abs())) else old(Abs()))
      ensures Cleared()
    {
      if eventOpen {
        WriteEvent();
      }
      Initialise();
    }

    /** Builds the events of one input tree: nothing for an empty tree;
        otherwise every entry is read, and after each one the look-ahead
        decides whether the window closes, in which case both finders run on
        an open window, the record is written when it holds a gamma ray, and
        the window is cleared. Returns the number of entries. */
    method BuildEvents(entries: seq<Entry>) returns (nEntries: nat)
      requires Shaped(modules, settings.nSfp, settings.nBoard) && AllInRange(settings, entries)
      modifies this, writeEvts, gammaEvt, gammaAbEvt
      ensures nEntries == |entries|
      ensures Abs() == Built(settings, old(Abs()), entries)
      ensures entries != [] ==> Cleared()
    {
      if |entries| == 0 {
        return 0;
      }
      Initialise();
      nEntries := |entries|;
      ReadEntries(entries);
    }

    /** The loop over the entries of the tree, from a cleared window. */
    method ReadEntries(entries: seq<Entry>)
      requires Fits(settings, Abs()) && AllInRange(settings, entries) && !flagCloseEvent && Cleared()
      modifies this, writeEvts, gammaEvt, gammaAbEvt
      ensures Abs() == Run(settings, old(Abs()), entries, |entries|) && Cleared()
    {
      ghost var start := Abs();
      for i := 0 to |entries|
        invariant Abs() == Run(settings, start, entries, i) && !flagCloseEvent && Cleared()
      {
        StepEntry(entries, i, start);
      }
    }

    /** One pass of the loop body: read entry i, look ahead, and close the
        window when it is flagged or entry i is the last one. */
    method StepEntry(entries: seq<Entry>, i: nat, ghost start: State)
      requires i < |entries| && Fits(settings, start) && AllInRange(settings, entries)
      requires Abs() == Run(settings, start, entries, i) && !flagCloseEvent && Cleared()
      modifies this, writeEvts, gammaEvt, gammaAbEvt
      ensures Abs() == Run(settings, start, entries, i + 1) && !flagCloseEvent && Cleared()
    {
      ReadEntry(entries[i]);
      LookAhead(entries, i);
      if flagCloseEvent || i + 1 == |entries| {
        CloseEvent();
      }
    }

    /** The look-ahead after entry i: when there is a next entry and its time
        minus the anchor is greater than the build window or negative, the
        window is flagged to close. */
    method LookAhead(entries: seq<Entry>, i: nat)
      requires i < |entries|
      modifies this`flagCloseEvent
      ensures Abs() == Flagged(settings, old(Abs()), NextTime(entries, i))
    {
      if i + 1 < |entries| {
        var timeDiff: int := entries[i + 1].time - timeFirst;
        if timeDiff > settings.buildWindow {
          flagCloseEvent := true;
        } else if timeDiff < 0 {
          flagCloseEvent := true;
        }
      }
    }
  }
}
