/** The output record of the event builder: gamma-ray singles, addback
    gamma rays and particle events of one closed window, with the EBIS and T1
    times. The builder sets the fields of a scratch gamma-ray object and then
    adds a copy of it to the record, so the record holds values. */
module Evts {
  import opened Hits

  /** The value of one gamma-ray event. An addback event has exactly these
      fields (its class adds none), so both vectors hold this type. */
  datatype GammaRay = GammaRay(energy: real, time: nat, cluster: nat, crystal: nat, segment: nat)

  /** The value of one particle event: the (detector, sector) cell and the
      energy, time and strip of its p-side and n-side hits. */
  datatype ParticleEvt = ParticleEvt(
    detector: nat, sector: nat, energyP: real, energyN: real,
    timeP: nat, timeN: nat, stripP: nat, stripN: nat)

  /** The value of the whole record, as written to the output tree. */
  datatype Record = Record(
    ebis: nat, t1: nat, gamma: seq<GammaRay>, addback: seq<GammaRay>, particles: seq<ParticleEvt>)

  /** A gamma-ray event object whose fields are set one by one. */
  class GammaRayEvt {
    var energy: real
    var time: nat
    var cluster: nat
    var crystal: nat
    var segment: nat

    function Value(): GammaRay
      reads this
    {
      GammaRay(energy, time, cluster, crystal, segment)
    }

    constructor ()
      ensures Value() == GammaRay(0.0, 0, 0, 0, 0)
    {
      energy, time, cluster, crystal, segment := 0.0, 0, 0, 0, 0;
    }

    method SetEnergy(e: real)
      modifies this`energy
      ensures GetEnergy() == e
      ensures Value() == old(Value()).(energy := e)
    {
      energy := e;
    }

    method SetTime(t: nat)
      modifies this`time
      ensures GetTime() == t
      ensures Value() == old(Value()).(time := t)
    {
      time := t;
    }

    method SetCluster(c: nat)
      modifies this`cluster
      ensures GetCluster() == c
      ensures Value() == old(Value()).(cluster := c)
    {
      cluster := c;
    }

    method SetCrystal(c: nat)
      modifies this`crystal
      ensures GetCrystal() == c
      ensures Value() == old(Value()).(crystal := c)
    {
      crystal := c;
    }

    method SetSegment(s: nat)
      modifies this`segment
      ensures GetSegment() == s
      ensures Value() == old(Value()).(segment := s)
    {
      segment := s;
    }

    /** The getters read back the fields of the event's value. */
    function GetEnergy(): (r: real) reads this ensures r == Value().energy { energy }
    function GetTime(): (r: nat) reads this ensures r == Value().time { time }
    function GetCluster(): (r: nat) reads this ensures r == Value().cluster { cluster }
    function GetCrystal(): (r: nat) reads this ensures r == Value().crystal { crystal }
    function GetSegment(): (r: nat) reads this ensures r == Value().segment { segment }
  }

  /** The record the finders fill for the window being closed. */
  class MiniballEvts {
    var ebis: nat
    var t1: nat
    var gammaEvent: seq<GammaRay>
    var gammaAbEvent: seq<GammaRay>
    var particleEvent: seq<ParticleEvt>

    function Value(): Record
      reads this
    {
      Record(ebis, t1, gammaEvent, gammaAbEvent, particleEvent)
    }

    constructor ()
      ensures Value() == Record(0, 0, [], [], [])
    {
      ebis, t1 := 0, 0;
      gammaEvent, gammaAbEvent, particleEvent := [], [], [];
    }

    /** Appends a copy of the gamma-ray event. */
    method AddGammaRayEvt(evt: GammaRayEvt)
      modifies this`gammaEvent
      ensures Value() == old(Value()).(gamma := old(gammaEvent) + [evt.Value()])
    {
      gammaEvent := gammaEvent + [evt.Value()];
    }

    /** Appends a copy of the addback event. */
    method AddGammaRayAddbackEvt(evt: GammaRayEvt)
      modifies this`gammaAbEvent
      ensures Value() == old(Value()).(addback := old(gammaAbEvent) + [evt.Value()])
    {
      gammaAbEvent := gammaAbEvent + [evt.Value()];
    }

    /** Appends a copy of the particle event. */
    method AddParticleEvt(evt: ParticleEvt)
      modifies this`particleEvent
      ensures Value() == old(Value()).(particles := old(particleEvent) + [evt])
    {
      particleEvent := particleEvent + [evt];
    }

    /** Empties the three event vectors; the EBIS and T1 times stay. */
    method ClearEvt()
      modifies this`gammaEvent, this`gammaAbEvent, this`particleEvent
      ensures Value() == old(Value()).(gamma := [], addback := [], particles := [])
    {
      gammaEvent, gammaAbEvent, particleEvent := [], [], [];
    }

    function GetGammaRayMultiplicity(): (m: nat)
      reads this
      ensures m == |gammaEvent|
    {
      |gammaEvent|
    }

    function GetGammaRayAddbackMultiplicity(): (m: nat)
      reads this
      ensures m == |gammaAbEvent|
    {
      |gammaAbEvent|
    }

    /** The i-th gamma-ray single, or None (a null pointer) past the end. */
    function GetGammaRayEvt(i: nat): (r: Option<GammaRay>)
      reads this
      ensures r.Some? <==> i < GetGammaRayMultiplicity()
      ensures r.Some? ==> r.value == gammaEvent[i]
    {
      if i < |gammaEvent| then Some(gammaEvent[i]) else None
    }

    /** The i-th addback gamma ray, or None (a null pointer) past the end. */
    function GetGammaRayAddbackEvt(i: nat): (r: Option<GammaRay>)
      reads this
      ensures r.Some? <==> i < GetGammaRayAddbackMultiplicity()
      ensures r.Some? ==> r.value == gammaAbEvent[i]
    {
      if i < |gammaAbEvent| then Some(gammaAbEvent[i]) else None
    }

    method SetEBIS(t: nat)
      modifies this`ebis
      ensures GetEBIS() == t
      ensures Value() == old(Value()).(ebis := t)
    {
      ebis := t;
    }

    method SetT1(t: nat)
      modifies this`t1
      ensures GetT1() == t
      ensures Value() == old(Value()).(t1 := t)
    {
      t1 := t;
    }

    /** The EBIS and T1 stamps of the record's value. */
    function GetEBIS(): (r: nat) reads this ensures r == Value().ebis { ebis }
    function GetT1(): (r: nat) reads this ensures r == Value().t1 { t1 }
  }
}
