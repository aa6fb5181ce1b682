/**
 Searching the edges of cache-level plateaus by bisection over data sizes.

 Level k of m miss metrics is the range of sizes at which metric k-1 says "always missing"
 and metric k says "hardly missing"; the first level has no lower metric, the last no upper one.
 */
module Sweep {
  const PLATEAU_THRESHOLD: real := 0.95
  const NEXT_PLATEAU_THRESHOLD: real := 0.05

  /** Measurements: for each measured size, the m metrics. */
  type Frame = map<nat, seq<real>>

  ghost predicate ValidFrame(df: Frame, m: nat) {
    0 !in df && forall s :: s in df ==> |df[s]| == m
  }

  predicate InPlateau(metrics: seq<real>, k: nat)
  {
    (0 < k <= |metrics| ==> metrics[k - 1] >= PLATEAU_THRESHOLD) &&
    (k < |metrics| ==> metrics[k] < NEXT_PLATEAU_THRESHOLD)
  }

  /** The first level has hardly any misses, the last always misses, and one between misses below and not above. */
  lemma LevelsMean(x: real, y: real)
    ensures InPlateau([x], 0) <==> x < 0.05
    ensures InPlateau([x], 1) <==> x >= 0.95
    ensures InPlateau([x, y], 1) <==> x >= 0.95 && y < 0.05
  {
  }

  function Plateau(df: Frame, k: nat): set<nat> {
    set s | s in df && InPlateau(df[s], k)
  }

  lemma {:induction false} LeastExists(s: set<nat>) returns (x: nat)
    requires s != {}
    ensures x in s && forall y :: y in s ==> x <= y
    decreases |s|
  {
    x :| x in s;
    assert forall y :: y in s ==> y == x || y in s - {x};
    if s - {x} != {} {
      var rest := LeastExists(s - {x});
      x := if x < rest then x else rest;
    }
  }

  lemma {:induction false} GreatestExists(s: set<nat>) returns (x: nat)
    requires s != {}
    ensures x in s && forall y :: y in s ==> y <= x
    decreases |s|
  {
    x :| x in s;
    assert forall y :: y in s ==> y == x || y in s - {x};
    if s - {x} != {} {
      var rest := GreatestExists(s - {x});
      x := if x > rest then x else rest;
    }
  }

  function Min(s: set<nat>): (x: nat)
    requires s != {}
    ensures x in s && forall y :: y in s ==> x <= y
  {
    assert exists x :: x in s && forall y :: y in s ==> x <= y by {
      var x := LeastExists(s);
    }
    var x :| x in s && forall y :: y in s ==> x <= y;
    x
  }

  function Max(s: set<nat>): (x: nat)
    requires s != {}
    ensures x in s && forall y :: y in s ==> y <= x
  {
    assert exists x :: x in s && forall y :: y in s ==> y <= x by {
      var x := GreatestExists(s);
    }
    var x :| x in s && forall y :: y in s ==> y <= x;
    x
  }

  /** The largest size measured below a plateau, or 0. */
  function TooSmall(df: Frame, lb: nat): nat {
    var below := set s | s in df && s < lb;
    if below != {} then Max(below) else 0
  }

  /** The smallest size measured above a plateau, or the largest size allowed. */
  function TooLarge(df: Frame, ub: nat, maxSize: nat): nat {
    var above := set s | s in df && s > ub;
    if above != {} then Min(above) else maxSize
  }

  datatype Bounds = Bounds(lb: nat, ub: nat)

  function LowProposal(df: Frame, k: nat): seq<nat> {
    var p := Plateau(df, k);
    if p == {} || k == 0 then []
    else
      var lb := Min(p);
      if TooSmall(df, lb) + 1 < lb then [(lb + TooSmall(df, lb)) / 2] else []
  }

  function HighProposal(df: Frame, k: nat, m: nat, maxSize: nat): seq<nat> {
    var p := Plateau(df, k);
    if p == {} || k >= m then []
    else
      var ub := Max(p);
      if TooLarge(df, ub, maxSize) > ub + 1 then [(ub + TooLarge(df, ub, maxSize)) / 2] else []
  }

  function BoundsOf(df: Frame, k: nat, m: nat, minSize: nat, maxSize: nat): Bounds {
    var p := Plateau(df, k);
    Bounds(if p != {} && k > 0 then Min(p) else minSize, if p != {} && k < m then Max(p) else maxSize)
  }

  /** Append the sizes that one level wants to see measured, and report the level's bounds so far. */
  method ExplorePlateau(df: Frame, newSizes: seq<nat>, bounds: map<nat, Bounds>, k: nat, m: nat, minSize: nat, maxSize: nat)
    returns (sizes: seq<nat>, newBounds: map<nat, Bounds>)
    ensures sizes == newSizes + LowProposal(df, k) + HighProposal(df, k, m, maxSize)
    ensures newBounds == bounds[k := BoundsOf(df, k, m, minSize, maxSize)]
  {
    sizes := newSizes;
    var lb, ub := minSize, maxSize;
    var plateau := Plateau(df, k);
    if plateau != {} && k > 0 {
      lb := Min(plateau);
      var tooSmall := TooSmall(df, lb);
      if tooSmall + 1 < lb {
        sizes := sizes + [(lb + tooSmall) / 2];
      }
    }
    if plateau != {} && k < m {
      ub := Max(plateau);
      var tooLarge := TooLarge(df, ub, maxSize);
      if tooLarge > ub + 1 {
        sizes := sizes + [(ub + tooLarge) / 2];
      }
    }
    newBounds := bounds[k := Bounds(lb, ub)];
  }

  ghost function Proposals(df: Frame, levels: nat, m: nat, maxSize: nat): seq<nat> {
    if levels == 0 then []
    else Proposals(df, levels - 1, m, maxSize) + LowProposal(df, levels - 1) + HighProposal(df, levels - 1, m, maxSize)
  }

  /** One round: the proposals of all levels. */
  method ComputeNewSizes(df: Frame, levels: nat, m: nat, minSize: nat, maxSize: nat)
    returns (sizes: seq<nat>, bounds: map<nat, Bounds>)
    ensures sizes == Proposals(df, levels, m, maxSize)
    ensures forall k :: 0 <= k < levels ==> k in bounds && bounds[k] == BoundsOf(df, k, m, minSize, maxSize)
  {
    sizes, bounds := [], map[];
    for k := 0 to levels
      invariant sizes == Proposals(df, k, m, maxSize)
      invariant forall j :: 0 <= j < k ==> j in bounds && bounds[j] == BoundsOf(df, j, m, minSize, maxSize)
    {
      sizes, bounds := ExplorePlateau(df, sizes, bounds, k, m, minSize, maxSize);
    }
  }

  // ---------------------------------------------------------------- every proposal is news

  lemma GapBelow(df: Frame, lb: nat)
    ensures forall t :: t in df && t < lb ==> t <= TooSmall(df, lb)
    ensures TooSmall(df, lb) == 0 || (TooSmall(df, lb) in df && TooSmall(df, lb) < lb)
  {
    var below := set t | t in df && t < lb;
    assert forall t :: t in df && t < lb ==> t in below;
  }

  lemma GapAbove(df: Frame, ub: nat, maxSize: nat)
    ensures forall t :: t in df && t > ub ==> t >= TooLarge(df, ub, maxSize)
    ensures (TooLarge(df, ub, maxSize) in df && TooLarge(df, ub, maxSize) > ub)
         || (TooLarge(df, ub, maxSize) == maxSize && forall t :: t in df ==> t <= ub)
  {
    var above := set t | t in df && t > ub;
    assert forall t :: t in df && t > ub ==> t in above;
  }

  /** A proposed size lies strictly inside a gap next to the plateau in which nothing has been measured. */
  lemma ProposalIsNew(df: Frame, k: nat, m: nat, maxSize: nat, s: nat)
    requires ValidFrame(df, m)
    requires s in LowProposal(df, k) + HighProposal(df, k, m, maxSize)
    ensures s !in df && s > 0
    ensures s < maxSize || exists t :: t in df && s < t
    ensures s in LowProposal(df, k) ==>
              var lb := Min(Plateau(df, k));
              TooSmall(df, lb) < s < lb && forall t :: t in df ==> t <= TooSmall(df, lb) || lb <= t
    ensures s in HighProposal(df, k, m, maxSize) ==>
              var ub := Max(Plateau(df, k));
              ub < s < TooLarge(df, ub, maxSize) && forall t :: t in df ==> t <= ub || TooLarge(df, ub, maxSize) <= t
  {
    hide TooSmall, TooLarge;
    var p := Plateau(df, k);
    GapBelow(df, Min(p));
    GapAbove(df, Max(p), maxSize);
    assert Min(p) in df;
  }

  lemma {:induction false} AllProposalsAreNew(df: Frame, levels: nat, m: nat, maxSize: nat, s: nat)
    requires ValidFrame(df, m) && s in Proposals(df, levels, m, maxSize)
    ensures s !in df && s > 0 && (s < maxSize || exists t :: t in df && s < t)
  {
    var k := levels - 1;
    if s in Proposals(df, k, m, maxSize) {
      AllProposalsAreNew(df, k, m, maxSize, s);
    } else {
      ProposalIsNew(df, k, m, maxSize, s);
    }
  }

  ghost function Upto(n: nat): (s: set<nat>)
    ensures forall x :: x in s <==> 0 < x <= n
  {
    if n == 0 then {} else Upto(n - 1) + {n}
  }

  /** The values of a program's metrics depend on the size alone. */
  type Metrics = nat -> seq<real>

  ghost predicate Measures(df: Frame, f: Metrics, m: nat) {
    ValidFrame(df, m) && forall s :: s in df ==> df[s] == f(s)
  }

  /** A lower edge: the smallest measured size of the plateau, or the least size allowed where there is none to find. */
  ghost predicate IsLowerEdge(df: Frame, k: nat, minSize: nat, lb: nat) {
    if k > 0 && exists s :: s in df && InPlateau(df[s], k) then
      lb in df && InPlateau(df[lb], k) && forall s :: s in df && InPlateau(df[s], k) ==> lb <= s
    else lb == minSize
  }

  /** An upper edge: the largest measured size of the plateau, or the largest size allowed. */
  ghost predicate IsUpperEdge(df: Frame, k: nat, m: nat, maxSize: nat, ub: nat) {
    if k < m && exists s :: s in df && InPlateau(df[s], k) then
      ub in df && InPlateau(df[ub], k) && forall s :: s in df && InPlateau(df[s], k) ==> s <= ub
    else ub == maxSize
  }

  lemma BoundsAreEdges(df: Frame, k: nat, m: nat, minSize: nat, maxSize: nat)
    ensures var b := BoundsOf(df, k, m, minSize, maxSize);
            IsLowerEdge(df, k, minSize, b.lb) && IsUpperEdge(df, k, m, maxSize, b.ub)
  {
    hide InPlateau;
    var p := Plateau(df, k);
    assert forall s :: s in df && InPlateau(df[s], k) <==> s in p;
  }

  /** Measured or not: no size of the level's plateau lies outside the bounds, but above those that reach the largest size. */
  ghost predicate BoundsAreExact(f: Metrics, m: nat, maxSize: nat, k: nat, b: Bounds) {
    forall s :: s > 0 && InPlateau(f(s), k) ==>
      (k > 0 ==> b.lb <= s) && (k < m ==> s <= b.ub || b.ub + 1 >= maxSize)
  }

  /** For monotone metrics the edges found when nothing more is proposed bound all sizes, not just those measured. */
  lemma EdgesBoundAll(f: Metrics, df: Frame, levels: nat, m: nat, minSize: nat, maxSize: nat, k: nat, b: Bounds)
    requires Measures(df, f, m) && Monotone(f, m) && k < levels <= m + 1 && Proposals(df, levels, m, maxSize) == []
    requires IsLowerEdge(df, k, minSize, b.lb) && IsUpperEdge(df, k, m, maxSize, b.ub)
    ensures (exists s :: s in df && InPlateau(df[s], k)) ==> BoundsAreExact(f, m, maxSize, k, b)
  {
    if exists s :: s in df && InPlateau(df[s], k) {
      var p := Plateau(df, k);
      var s0 :| s0 in df && InPlateau(df[s0], k);
      assert s0 in p;
      hide InPlateau, Monotone, Proposals;
      forall s | s > 0 && InPlateau(f(s), k)
        ensures (k > 0 ==> b.lb <= s) && (k < m ==> s <= b.ub || b.ub + 1 >= maxSize)
      {
        EdgesAreExact(f, df, levels, m, maxSize, k, s);
        assert Min(p) in p && Max(p) in p;
      }
    }
  }

  /** Measure what is proposed until nothing is.  This ends for any metrics whatever. */
  method SearchEdges(f: Metrics, start: Frame, levels: nat, m: nat, minSize: nat, maxSize: nat)
    returns (df: Frame, bounds: map<nat, Bounds>)
    requires Measures(start, f, m) && forall s :: |f(s)| == m
    ensures Measures(df, f, m) && start.Keys <= df.Keys
    ensures Proposals(df, levels, m, maxSize) == []
    ensures forall k :: 0 <= k < levels ==> k in bounds
    ensures forall k :: 0 <= k < levels ==> IsLowerEdge(df, k, minSize, bounds[k].lb) && IsUpperEdge(df, k, m, maxSize, bounds[k].ub)
    ensures Monotone(f, m) && levels <= m + 1 ==>
              forall k :: 0 <= k < levels && (exists s :: s in df && InPlateau(df[s], k)) ==> BoundsAreExact(f, m, maxSize, k, bounds[k])
  {
    hide Proposals, BoundsOf, Monotone, IsLowerEdge, IsUpperEdge, BoundsAreExact, InPlateau;
    df := start;
    ghost var limit := if start == map[] then maxSize else if Max(start.Keys) > maxSize then Max(start.Keys) else maxSize;
    var sizes: seq<nat>;
    sizes, bounds := ComputeNewSizes(df, levels, m, minSize, maxSize);
    while sizes != []
      invariant Measures(df, f, m) && start.Keys <= df.Keys && df.Keys <= Upto(limit)
      invariant sizes == Proposals(df, levels, m, maxSize)
      invariant forall k :: 0 <= k < levels ==> k in bounds && bounds[k] == BoundsOf(df, k, m, minSize, maxSize)
      decreases Upto(limit) - df.Keys
    {
      forall s | s in sizes
        ensures s !in df && 0 < s <= limit
      {
        AllProposalsAreNew(df, levels, m, maxSize, s);
      }
      assert sizes[0] in sizes;
      ghost var before := df.Keys;
      df := df + map s | s in sizes :: f(s);
      assert sizes[0] in df.Keys && sizes[0] !in before && sizes[0] in Upto(limit);
      sizes, bounds := ComputeNewSizes(df, levels, m, minSize, maxSize);
    }
    forall k | 0 <= k < levels
      ensures IsLowerEdge(df, k, minSize, bounds[k].lb) && IsUpperEdge(df, k, m, maxSize, bounds[k].ub)
    {
      BoundsAreEdges(df, k, m, minSize, maxSize);
    }
    if Monotone(f, m) && levels <= m + 1 {
      forall k | 0 <= k < levels && exists s :: s in df && InPlateau(df[s], k)
        ensures BoundsAreExact(f, m, maxSize, k, bounds[k])
      {
        EdgesBoundAll(f, df, levels, m, minSize, maxSize, k, bounds[k]);
      }
    }
  }

  // ---------------------------------------------------------------- exact edges for monotone metrics

  /** Larger sizes do not miss less. */
  ghost predicate Monotone(f: Metrics, m: nat) {
    (forall s :: |f(s)| == m) &&
    forall j, s, t :: 0 <= j < m && s <= t ==> f(s)[j] <= f(t)[j]
  }

  /** Sizes between two sizes of the plateau are on it; below it the lower metric fails, above it the upper one. */
  lemma PlateauIsInterval(f: Metrics, m: nat, k: nat, a: nat, s: nat, b: nat)
    requires Monotone(f, m) && k <= m
    ensures a <= s <= b && InPlateau(f(a), k) && InPlateau(f(b), k) ==> InPlateau(f(s), k)
    ensures a <= s && InPlateau(f(s), k) && !InPlateau(f(a), k) ==> k > 0 && f(a)[k - 1] < PLATEAU_THRESHOLD
    ensures s <= b && InPlateau(f(s), k) && !InPlateau(f(b), k) ==> k < m && f(b)[k] >= NEXT_PLATEAU_THRESHOLD
  {
    if k > 0 {
      assert a <= s ==> f(a)[k - 1] <= f(s)[k - 1];
      assert s <= b ==> f(s)[k - 1] <= f(b)[k - 1];
    }
    if k < m {
      assert a <= s ==> f(a)[k] <= f(s)[k];
      assert s <= b ==> f(s)[k] <= f(b)[k];
    }
  }

  /** A size below the plateau that is not on it has no size of the plateau below it; and the same above. */
  lemma OffPlateau(f: Metrics, m: nat, k: nat, off: nat, p: nat, s: nat)
    requires Monotone(f, m) && k <= m && InPlateau(f(p), k) && !InPlateau(f(off), k)
    ensures s <= off <= p ==> !InPlateau(f(s), k)
    ensures p <= off <= s ==> !InPlateau(f(s), k)
  {
    hide InPlateau, Monotone;
    PlateauIsInterval(f, m, k, s, off, p);
    PlateauIsInterval(f, m, k, p, off, s);
  }

  lemma {:induction false} NoProposalsAtLevel(df: Frame, levels: nat, m: nat, maxSize: nat, k: nat)
    requires Proposals(df, levels, m, maxSize) == [] && k < levels
    ensures LowProposal(df, k) == [] && HighProposal(df, k, m, maxSize) == []
  {
    hide LowProposal, HighProposal;
    if k < levels - 1 {
      NoProposalsAtLevel(df, levels - 1, m, maxSize, k);
    }
  }

  /**
   When nothing more is proposed, a level's lower edge is the smallest size of its plateau, and its
   upper edge the largest, unless the search has come within one of the largest size allowed.
   */
  lemma EdgesAreExact(f: Metrics, df: Frame, levels: nat, m: nat, maxSize: nat, k: nat, s: nat)
    requires Measures(df, f, m) && Monotone(f, m) && k < levels <= m + 1
    requires Proposals(df, levels, m, maxSize) == [] && Plateau(df, k) != {}
    requires s > 0 && InPlateau(f(s), k)
    ensures k > 0 ==> Min(Plateau(df, k)) <= s
    ensures k < m ==> s <= Max(Plateau(df, k)) ||
                      (Max(Plateau(df, k)) + 1 >= maxSize && forall t :: t in df ==> t <= Max(Plateau(df, k)))
  {
    NoProposalsAtLevel(df, levels, m, maxSize, k);
    hide InPlateau, TooSmall, TooLarge, Monotone;
    var p := Plateau(df, k);
    var lb, ub := Min(p), Max(p);
    GapBelow(df, lb);
    GapAbove(df, ub, maxSize);
    var below, above := TooSmall(df, lb), TooLarge(df, ub, maxSize);
    if k > 0 && s < lb {
      assert below in df && below !in p;
      OffPlateau(f, m, k, below, lb, s);
    }
    if k < m && s > ub && above in df && above > ub {
      assert above !in p;
      OffPlateau(f, m, k, above, ub, s);
    }
  }

  // ---------------------------------------------------------------- bisection halves the gap

  ghost predicate Extends(df: Frame, more: Frame, maxSize: nat) {
    df.Keys <= more.Keys &&
    forall t :: t in more && t !in df ==> t < maxSize || exists u :: u in df && t < u
  }

  lemma LowerGapHalves(f: Metrics, df: Frame, more: Frame, m: nat, maxSize: nat, k: nat)
    requires Measures(df, f, m) && Measures(more, f, m) && Monotone(f, m) && k <= m
    requires LowProposal(df, k) != [] && LowProposal(df, k)[0] in more && Extends(df, more, maxSize)
    ensures Plateau(more, k) != {}
    ensures var gap := Min(Plateau(df, k)) - TooSmall(df, Min(Plateau(df, k)));
            var lb := Min(Plateau(more, k));
            lb - TooSmall(more, lb) <= (gap + 1) / 2
  {
    hide InPlateau, TooSmall, TooLarge, Monotone;
    var p, q := Plateau(df, k), Plateau(more, k);
    var old_lb := Min(p);
    assert old_lb in q;
    var old_below, mid, lb := TooSmall(df, old_lb), LowProposal(df, k)[0], Min(q);
    GapBelow(df, old_lb);
    GapBelow(more, lb);
    if lb <= old_below {
      // a size on the plateau at or below one that is not
      assert old_below in df && old_below !in p;
      OffPlateau(f, m, k, old_below, old_lb, lb);
    }
    if mid < lb {
      assert mid <= TooSmall(more, lb);
    } else {
      if mid !in q {
        OffPlateau(f, m, k, mid, old_lb, lb);
      }
      assert old_below == 0 || old_below <= TooSmall(more, lb);
    }
  }

  lemma UpperGapHalves(f: Metrics, df: Frame, more: Frame, m: nat, maxSize: nat, k: nat)
    requires Measures(df, f, m) && Measures(more, f, m) && Monotone(f, m) && k <= m
    requires HighProposal(df, k, m, maxSize) != [] && HighProposal(df, k, m, maxSize)[0] in more && Extends(df, more, maxSize)
    ensures Plateau(more, k) != {}
    ensures var gap := TooLarge(df, Max(Plateau(df, k)), maxSize) - Max(Plateau(df, k));
            var ub := Max(Plateau(more, k));
            TooLarge(more, ub, maxSize) - ub <= (gap + 1) / 2
  {
    hide InPlateau, TooSmall, TooLarge, Monotone;
    var p, q := Plateau(df, k), Plateau(more, k);
    var old_ub := Max(p);
    assert old_ub in q;
    var old_above, mid, ub := TooLarge(df, old_ub, maxSize), HighProposal(df, k, m, maxSize)[0], Max(q);
    GapAbove(df, old_ub, maxSize);
    GapAbove(more, ub, maxSize);
    if old_above in df && old_above > old_ub && ub >= old_above {
      assert old_above !in p;
      OffPlateau(f, m, k, old_above, old_ub, ub);
    }
    if mid > ub {
      assert mid >= TooLarge(more, ub, maxSize);
    } else if mid !in q {
      OffPlateau(f, m, k, mid, old_ub, ub);
    }
  }
}
