/** What the gamma-ray finder computes for one closed window, as functions of
    the Miniball hits of the window: the singles pass over core hits and the
    addback pass over the singles. The finder's loops are proved against
    these functions in module Builder. */
module Gamma {
  import opened Hits
  import opened Evts

  // ---------------------------------------------------------------------
  // Singles pass
  // ---------------------------------------------------------------------

  /** Hit j is another hit of the same crystal of the same cluster as hit i. */
  predicate Companion(mb: seq<MbHit>, i: nat, j: nat)
    requires i < |mb| && j < |mb|
  {
    mb[i].cluster == mb[j].cluster && mb[i].crystal == mb[j].crystal && i != j
  }

  /** Running maximum of the segment search: the largest energy seen so far
      and the segment of the hit that brought it. */
  datatype SegMax = SegMax(energy: real, segment: nat)

  /** The segment search for core hit i after hits 0 .. n-1 have been visited:
      starts at energy 0 and segment 0 (the core), and moves to a companion
      only when its energy is strictly larger. */
  function SegScan(mb: seq<MbHit>, i: nat, n: nat): (r: SegMax)
    requires i < |mb| && n <= |mb|
  {
    if n == 0 then SegMax(0.0, 0)
    else
      var m := SegScan(mb, i, n - 1);
      if Companion(mb, i, n - 1) && mb[n - 1].energy > m.energy
      then SegMax(mb[n - 1].energy, mb[n - 1].segment)
      else m
  }

  /** The single gamma ray of core hit i: the core's energy, time, cluster and
      crystal, and the segment the search settled on. */
  function Single(mb: seq<MbHit>, i: nat): (r: GammaRay)
    requires i < |mb|
  {
    GammaRay(mb[i].energy, mb[i].time, mb[i].cluster, mb[i].crystal, SegScan(mb, i, |mb|).segment)
  }

  /** The singles built from hits 0 .. n-1: one per core (segment 0) hit. */
  function SinglesUpTo(mb: seq<MbHit>, n: nat): (r: seq<GammaRay>)
    requires n <= |mb|
  {
    if n == 0 then []
    else SinglesUpTo(mb, n - 1) + (if mb[n - 1].segment == 0 then [Single(mb, n - 1)] else [])
  }

  function Singles(mb: seq<MbHit>): (r: seq<GammaRay>)
  {
    SinglesUpTo(mb, |mb|)
  }

  /** Indices of the core hits among hits 0 .. n-1, in order. */
  function Cores(mb: seq<MbHit>, n: nat): (r: seq<nat>)
    requires n <= |mb|
  {
    if n == 0 then []
    else Cores(mb, n - 1) + (if mb[n - 1].segment == 0 then [n - 1] else [])
  }

  /** The search ends on the first companion of strictly maximal, positive
      energy, or on the core's segment 0 when no companion has energy above 0. */
  lemma {:induction false} SegScanIsFirstMax(mb: seq<MbHit>, i: nat, n: nat)
    requires i < |mb| && n <= |mb|
    ensures var m := SegScan(mb, i, n);
      && 0.0 <= m.energy
      && (forall j :: 0 <= j < n && Companion(mb, i, j) ==> mb[j].energy <= m.energy)
      && (m.energy == 0.0 ==> m.segment == 0)
      && (m.energy > 0.0 ==>
            exists k :: 0 <= k < n && Companion(mb, i, k) && mb[k].energy == m.energy
                        && mb[k].segment == m.segment
                        && forall j :: 0 <= j < k && Companion(mb, i, j) ==> mb[j].energy < m.energy)
  {
    if n > 0 {
      SegScanIsFirstMax(mb, i, n - 1);
      var m := SegScan(mb, i, n - 1);
      if Companion(mb, i, n - 1) && mb[n - 1].energy > m.energy {
        var k := n - 1;
        assert forall j :: 0 <= j < k && Companion(mb, i, j) ==> mb[j].energy < mb[k].energy;
      }
    }
  }

  /** Each core hit gives exactly one single, in input order, and only core hits do. */
  lemma {:induction false} SinglesFollowCores(mb: seq<MbHit>, n: nat)
    requires n <= |mb|
    ensures var c, s := Cores(mb, n), SinglesUpTo(mb, n);
      && |s| == |c|
      && (forall k :: 0 <= k < |c| ==> c[k] < n && mb[c[k]].segment == 0 && s[k] == Single(mb, c[k]))
      && (forall i :: 0 <= i < n && mb[i].segment == 0 ==> i in c)
      && (forall k, l :: 0 <= k < l < |c| ==> c[k] < c[l])
  {
    if n > 0 {
      SinglesFollowCores(mb, n - 1);
      var c', s' := Cores(mb, n - 1), SinglesUpTo(mb, n - 1);
      var c, s := Cores(mb, n), SinglesUpTo(mb, n);
      if mb[n - 1].segment == 0 {
        assert c == c' + [n - 1];
        assert s == s' + [Single(mb, n - 1)];
        forall k | 0 <= k < |c|
          ensures c[k] < n && mb[c[k]].segment == 0 && s[k] == Single(mb, c[k])
        {
          if k < |c'| {
            assert c[k] == c'[k] && s[k] == s'[k];
          }
        }
        forall i | 0 <= i < n && mb[i].segment == 0
          ensures i in c
        {
          if i < n - 1 {
            assert i in c';
          } else {
            assert c[|c'|] == i;
          }
        }
      } else {
        assert c == c';
        assert s == s';
      }
    }
  }

  /** The single of core hit i copies the core's energy, time, cluster and
      crystal; its segment is that of the first companion hit of strictly
      maximal energy, or 0 when no companion has energy above 0. The summed
      segment energy plays no part. */
  lemma SingleOfCore(mb: seq<MbHit>, i: nat)
    requires i < |mb|
    ensures var g := Single(mb, i);
      && g.energy == mb[i].energy && g.time == mb[i].time
      && g.cluster == mb[i].cluster && g.crystal == mb[i].crystal
      && ((forall j :: 0 <= j < |mb| && Companion(mb, i, j) ==> mb[j].energy <= 0.0) ==> g.segment == 0)
      && ((exists j :: 0 <= j < |mb| && Companion(mb, i, j) && mb[j].energy > 0.0) ==>
            exists k :: 0 <= k < |mb| && Companion(mb, i, k) && mb[k].energy > 0.0
                        && g.segment == mb[k].segment
                        && (forall j :: 0 <= j < |mb| && Companion(mb, i, j) ==> mb[j].energy <= mb[k].energy)
                        && (forall j :: 0 <= j < k && Companion(mb, i, j) ==> mb[j].energy < mb[k].energy))
  {
    SegScanIsFirstMax(mb, i, |mb|);
  }

  /** A core hit of 500 keV and a 50 keV hit in segment 3 of the same crystal
      give one single: the core's energy and time, segment 3, and the segment
      energy is not added. */
  lemma CoreWithOneSegment()
    ensures var mb := [MbHit(500.0, 1000, 1, 0, 0), MbHit(50.0, 1000, 1, 0, 3)];
      Singles(mb) == [GammaRay(500.0, 1000, 1, 0, 3)]
  {
    var mb := [MbHit(500.0, 1000, 1, 0, 0), MbHit(50.0, 1000, 1, 0, 3)];
    assert SegScan(mb, 0, 2) == SegMax(50.0, 3);
  }

  // ---------------------------------------------------------------------
  // Addback pass
  // ---------------------------------------------------------------------

  /** Running state of the addback of seed i: the summed energy, the largest
      energy seen and the crystal, segment and time of the event that brought it. */
  datatype AbAcc = AbAcc(sum: real, maxEnergy: real, crystal: nat, segment: nat, time: nat)

  /** The addback of seed i after the members j with i+i <= j < n have been
      visited. The inner loop starts at i+i, not i+1, and the list of used
      events it consults is never filled, so no event is ever skipped. */
  function AbScan(s: seq<GammaRay>, i: nat, n: nat): (r: AbAcc)
    requires i < |s| && n <= |s|
  {
    if n <= i + i then AbAcc(s[i].energy, s[i].energy, s[i].crystal, s[i].segment, s[i].time)
    else
      var a := AbScan(s, i, n - 1);
      if s[n - 1].cluster != s[i].cluster then a
      else if s[n - 1].energy > a.maxEnergy then
        AbAcc(a.sum + s[n - 1].energy, s[n - 1].energy, s[n - 1].crystal, s[n - 1].segment, s[n - 1].time)
      else a.(sum := a.sum + s[n - 1].energy)
  }

  /** The addback gamma ray seeded by single i. */
  function AddbackOf(s: seq<GammaRay>, i: nat): (r: GammaRay)
    requires i < |s|
  {
    var a := AbScan(s, i, |s|);
    GammaRay(a.sum, a.time, s[i].cluster, a.crystal, a.segment)
  }

  /** The addback events seeded by singles 0 .. n-1. */
  function AddbackUpTo(s: seq<GammaRay>, n: nat): (r: seq<GammaRay>)
    requires n <= |s|
  {
    if n == 0 then [] else AddbackUpTo(s, n - 1) + [AddbackOf(s, n - 1)]
  }

  function Addback(s: seq<GammaRay>): (r: seq<GammaRay>)
  {
    AddbackUpTo(s, |s|)
  }

  /** Sum of the energies of the events lo .. hi-1 that lie in cluster c. */
  function ClusterSum(s: seq<GammaRay>, c: nat, lo: nat, hi: nat): (r: real)
    requires hi <= |s|
  {
    if hi <= lo then 0.0
    else ClusterSum(s, c, lo, hi - 1) + (if s[hi - 1].cluster == c then s[hi - 1].energy else 0.0)
  }

  /** Every single seeds exactly one addback event, in order. */
  lemma {:induction false} AddbackOnePerSingle(s: seq<GammaRay>, n: nat)
    requires n <= |s|
    ensures |AddbackUpTo(s, n)| == n
    ensures forall k :: 0 <= k < n ==> AddbackUpTo(s, n)[k] == AddbackOf(s, k)
  {
    if n > 0 {
      AddbackOnePerSingle(s, n - 1);
    }
  }

  /** There are as many addback events as singles. */
  lemma AddbackLength(s: seq<GammaRay>)
    ensures |Addback(s)| == |s|
  {
    AddbackOnePerSingle(s, |s|);
  }

  /** The addback scan sums the seed with every same-cluster event from i+i on. */
  lemma {:induction false} AbScanSum(s: seq<GammaRay>, i: nat, n: nat)
    requires i < |s| && n <= |s|
    ensures AbScan(s, i, n).sum == s[i].energy + ClusterSum(s, s[i].cluster, i + i, n)
  {
    if n > i + i {
      AbScanSum(s, i, n - 1);
    }
  }

  /** The addback scan sums the seed with every same-cluster event from i+i on,
      and takes crystal, segment and time from the first member whose energy
      is the strict maximum above the seed's, or from the seed when none is. */
  lemma {:induction false} AbScanSpec(s: seq<GammaRay>, i: nat, n: nat)
    requires i < |s| && n <= |s|
    ensures var a := AbScan(s, i, n);
      && a.sum == s[i].energy + ClusterSum(s, s[i].cluster, i + i, n)
      && s[i].energy <= a.maxEnergy
      && (forall j :: i + i <= j < n && s[j].cluster == s[i].cluster ==> s[j].energy <= a.maxEnergy)
      && (a.maxEnergy == s[i].energy ==>
            a.crystal == s[i].crystal && a.segment == s[i].segment && a.time == s[i].time)
      && (a.maxEnergy > s[i].energy ==>
            exists k :: i + i <= k < n && s[k].cluster == s[i].cluster && s[k].energy == a.maxEnergy
                        && a.crystal == s[k].crystal && a.segment == s[k].segment && a.time == s[k].time
                        && forall j :: i + i <= j < k && s[j].cluster == s[i].cluster ==> s[j].energy < a.maxEnergy)
  {
    AbScanSum(s, i, n);
    if n > i + i {
      AbScanSpec(s, i, n - 1);
      var a := AbScan(s, i, n - 1);
      if s[n - 1].cluster == s[i].cluster && s[n - 1].energy > a.maxEnergy {
        var k := n - 1;
        assert forall j :: i + i <= j < k && s[j].cluster == s[i].cluster ==> s[j].energy < s[k].energy;
      }
    }
  }

  /** The addback event of seed i: its energy is the seed's plus every
      same-cluster single from index i+i on, its cluster is the seed's, and
      crystal, segment and time come from the first strictly larger member,
      or from the seed. */
  lemma AddbackOfSeed(s: seq<GammaRay>, i: nat)
    requires i < |s|
    ensures var g := AddbackOf(s, i);
      && g.energy == s[i].energy + ClusterSum(s, s[i].cluster, i + i, |s|)
      && g.cluster == s[i].cluster
      && ((forall j :: i + i <= j < |s| && s[j].cluster == s[i].cluster ==> s[j].energy <= s[i].energy) ==>
            g.crystal == s[i].crystal && g.segment == s[i].segment && g.time == s[i].time)
      && ((exists j :: i + i <= j < |s| && s[j].cluster == s[i].cluster && s[j].energy > s[i].energy) ==>
            exists k :: i + i <= k < |s| && s[k].cluster == s[i].cluster && s[k].energy > s[i].energy
                        && g.crystal == s[k].crystal && g.segment == s[k].segment && g.time == s[k].time
                        && (forall j :: i + i <= j < |s| && s[j].cluster == s[i].cluster ==> s[j].energy <= s[k].energy)
                        && (forall j :: i + i <= j < k && s[j].cluster == s[i].cluster ==> s[j].energy < s[k].energy))
  {
    AbScanSpec(s, i, |s|);
  }

  /** Splitting the first event off a cluster sum. */
  lemma {:induction false} ClusterSumFirst(s: seq<GammaRay>, c: nat, lo: nat, hi: nat)
    requires lo < hi <= |s|
    ensures ClusterSum(s, c, lo, hi)
         == (if s[lo].cluster == c then s[lo].energy else 0.0) + ClusterSum(s, c, lo + 1, hi)
  {
    if hi > lo + 1 {
      ClusterSumFirst(s, c, lo, hi - 1);
    }
  }

  /** Seed 0 starts its inner loop at index 0 and so adds its own energy a
      second time. */
  lemma SeedZeroCountedTwice(s: seq<GammaRay>)
    requires |s| > 0
    ensures Addback(s)[0].energy == 2.0 * s[0].energy + ClusterSum(s, s[0].cluster, 1, |s|)
  {
    AddbackOnePerSingle(s, |s|);
    assert Addback(s)[0] == AddbackOf(s, 0);
    AbScanSum(s, 0, |s|);
    ClusterSumFirst(s, s[0].cluster, 0, |s|);
    assert AddbackOf(s, 0).energy == AbScan(s, 0, |s|).sum;
  }

  /** Two singles of one cluster with 500 and 300 keV: the first addback event
      carries 1300 keV (500 twice plus 300), and the second single still seeds
      its own event of 300 keV. */
  lemma AddbackOfTwoSingles()
    ensures var s := [GammaRay(500.0, 7, 1, 0, 2), GammaRay(300.0, 9, 1, 1, 4)];
      Addback(s) == [GammaRay(1300.0, 7, 1, 0, 2), GammaRay(300.0, 9, 1, 1, 4)]
  {
    var s := [GammaRay(500.0, 7, 1, 0, 2), GammaRay(300.0, 9, 1, 1, 4)];
    assert AbScan(s, 0, 1) == AbAcc(1000.0, 500.0, 0, 2, 7);
    assert AbScan(s, 0, 2) == AbAcc(1300.0, 500.0, 0, 2, 7);
    assert AbScan(s, 1, 2) == AbAcc(300.0, 300.0, 1, 4, 9);
  }
}
