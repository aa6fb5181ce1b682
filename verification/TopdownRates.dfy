/**
 Rate accounting in top-down analysis: measured rates are added to categories, with signs and
 multipliers, for the whole system, split by port, or per mesh.  Rates are reals.
 */
module TopdownRates {
  import opened Options
  import PerfEvents

  datatype Action = Add(cat: string) | Subtract(cat: string) | Scale(factor: real)

  const BASELINE := "#all"

  predicate IsInternal(cat: string) {
    |cat| > 0 && cat[0] == '#'
  }

  // ---------------------------------------------------------------- what one measurement contributes

  /** The change of a category; a multiplier holds for the actions after it, up to the next one. */
  function Delta(actions: seq<Action>, mult: real, rate: real, cat: string): real {
    if actions == [] then 0.0
    else
      match actions[0]
      case Scale(f) => Delta(actions[1..], f, rate, cat)
      case Add(c) => (if c == cat then rate * mult else 0.0) + Delta(actions[1..], mult, rate, cat)
      case Subtract(c) => (if c == cat then -rate * mult else 0.0) + Delta(actions[1..], mult, rate, cat)
  }

  /** What single actions mean: a rate is added, subtracted, or multiplied first. */
  lemma ActionsMean(cat: string, rate: real, factor: real)
    ensures Delta([Add(cat)], 1.0, rate, cat) == rate
    ensures Delta([Subtract(cat)], 1.0, rate, cat) == -rate
    ensures Delta([Scale(factor), Add(cat)], 1.0, rate, cat) == rate * factor
  {
    var scaled := [Scale(factor), Add(cat)];
    assert scaled[1..] == [Add(cat)];
    assert Delta(scaled, 1.0, rate, cat) == Delta([Add(cat)], factor, rate, cat);
  }

  predicate Names(actions: seq<Action>, cat: string) {
    exists i :: 0 <= i < |actions| && !actions[i].Scale? && actions[i].cat == cat
  }

  lemma {:induction false} DeltaAdds(actions: seq<Action>, mult: real, r: real, s: real, cat: string)
    ensures Delta(actions, mult, r + s, cat) == Delta(actions, mult, r, cat) + Delta(actions, mult, s, cat)
  {
    if actions != [] {
      var m := if actions[0].Scale? then actions[0].factor else mult;
      DeltaAdds(actions[1..], m, r, s, cat);
      assert (r + s) * mult == r * mult + s * mult;
      assert -(r + s) * mult == -r * mult + -s * mult;
    }
  }

  lemma {:induction false} DeltaOfZero(actions: seq<Action>, mult: real, cat: string)
    ensures Delta(actions, mult, 0.0, cat) == 0.0
  {
    if actions != [] {
      DeltaOfZero(actions[1..], if actions[0].Scale? then actions[0].factor else mult, cat);
    }
  }

  /** The multiplier that holds at an action: that of the last one before it, or 1. */
  function MultiplierAt(actions: seq<Action>, i: nat): real
    requires i <= |actions|
  {
    if i == 0 then 1.0
    else if actions[i - 1].Scale? then actions[i - 1].factor
    else MultiplierAt(actions, i - 1)
  }

  /** The signed weight that the first n actions give a category. */
  function Weight(actions: seq<Action>, n: nat, cat: string): real
    requires n <= |actions|
  {
    if n == 0 then 0.0
    else
      var m := MultiplierAt(actions, n - 1);
      Weight(actions, n - 1, cat)
      + match actions[n - 1]
        case Scale(_) => 0.0
        case Add(c) => if c == cat then m else 0.0
        case Subtract(c) => if c == cat then -m else 0.0
  }

  /** What the first n actions make of a rate for a category. */
  function Share(actions: seq<Action>, n: nat, rate: real, cat: string): real
    requires n <= |actions|
  {
    rate * Weight(actions, n, cat)
  }

  lemma DeltaStep(actions: seq<Action>, n: nat, rate: real, cat: string)
    requires n < |actions|
    ensures Share(actions, n, rate, cat) + Delta(actions[n..], MultiplierAt(actions, n), rate, cat)
         == Share(actions, n + 1, rate, cat) + Delta(actions[n + 1..], MultiplierAt(actions, n + 1), rate, cat)
  {
    var m, w := MultiplierAt(actions, n), Weight(actions, n, cat);
    assert actions[n..][1..] == actions[n + 1..];
    MultiplierStep(actions, n);
    Distribute(rate, w, m);
    hide MultiplierAt;
  }

  lemma Distribute(r: real, w: real, m: real)
    ensures r * (w + m) == r * w + r * m && r * (w + -m) == r * w + -r * m
  {
  }

  lemma MultiplierStep(actions: seq<Action>, n: nat)
    requires n < |actions|
    ensures MultiplierAt(actions, n + 1) == if actions[n].Scale? then actions[n].factor else MultiplierAt(actions, n)
  {
  }

  /** The running multiplier gives each action the weight of the last multiplier before it. */
  lemma {:induction false} DeltaIsShare(actions: seq<Action>, n: nat, rate: real, cat: string)
    requires n <= |actions|
    ensures Share(actions, n, rate, cat) + Delta(actions[n..], MultiplierAt(actions, n), rate, cat)
         == Share(actions, |actions|, rate, cat)
    decreases |actions| - n
  {
    hide Share, MultiplierAt;
    if n == |actions| {
      assert actions[n..] == [];
    } else {
      DeltaIsShare(actions, n + 1, rate, cat);
      DeltaStep(actions, n, rate, cat);
    }
  }

  /** A measurement changes a category by its rate times the category's weight. */
  lemma DeltaIsRateTimesWeight(actions: seq<Action>, rate: real, cat: string)
    ensures Delta(actions, 1.0, rate, cat) == rate * Weight(actions, |actions|, cat)
  {
    hide Delta;
    NoShareYet(actions, rate, cat);
    hide Weight, MultiplierAt;
    assert actions[0..] == actions;
    DeltaIsShare(actions, 0, rate, cat);
  }

  lemma NoShareYet(actions: seq<Action>, rate: real, cat: string)
    ensures Share(actions, 0, rate, cat) == 0.0 && MultiplierAt(actions, 0) == 1.0
  {
  }

  // ---------------------------------------------------------------- the analysis object

  datatype Metric = Metric(actions: seq<Action>, scope: Scope)

  /** One event of the whole system, one event counted mesh by mesh, one counted by CPU node, one of a mesh. */
  datatype Scope = SystemWide | EachMesh | EachNode | OnMesh(mesh: nat)

  /** What measured rates add up to in a category. */
  function Total(metrics: seq<Metric>, rates: seq<real>, cat: string): real
    requires |metrics| == |rates|
  {
    if metrics == [] then 0.0
    else
      var n := |metrics| - 1;
      Total(metrics[..n], rates[..n], cat) + Delta(metrics[n].actions, 1.0, rates[n], cat)
  }

  /** The sum over the categories that are not internal, in list order. */
  function External(categories: seq<string>, rate: map<Option<string>, real>): real
    requires forall c :: c in categories ==> Some(c) in rate
  {
    if categories == [] then 0.0
    else
      var n := |categories| - 1;
      External(categories[..n], rate) + if IsInternal(categories[n]) then 0.0 else rate[Some(categories[n])]
  }

  function TotalOf(categories: seq<string>, rate: map<Option<string>, real>): real
    requires None in rate && forall c :: c in categories ==> Some(c) in rate
  {
    if BASELINE in categories then rate[Some(BASELINE)] else External(categories, rate) + rate[None]
  }

  /** What a total is made of: the baseline's rate if there is one, else the external categories' and that of none. */
  lemma TotalGrows(categories: seq<string>, cat: string, rate: map<Option<string>, real>)
    requires None in rate && Some(cat) in rate && forall c :: c in categories ==> Some(c) in rate
    ensures TotalOf([], rate) == rate[None]
    ensures "#all" in categories ==> TotalOf(categories, rate) == rate[Some("#all")]
    ensures "#all" !in categories && cat != "#all" ==>
              TotalOf(categories + [cat], rate)
              == TotalOf(categories, rate) + if |cat| > 0 && cat[0] == '#' then 0.0 else rate[Some(cat)]
  {
    assert (categories + [cat])[..|categories|] == categories;
  }

  predicate Dominates(categories: seq<string>, rate: map<Option<string>, real>, total: real, level: real, cat: string)
    requires total > 0.0 && forall c :: c in categories ==> Some(c) in rate
  {
    cat in categories && !IsInternal(cat) && rate[Some(cat)] / total >= level
  }

  datatype DominatorError = BadLevel | NoTotal

  class Topdown {
    var categories: seq<string>
    /** The entry for None is the rate of no category. */
    var rate: map<Option<string>, real>
    var totalRate: Option<real>
    const dominanceLevel: real

    ghost predicate Valid()
      reads this
    {
      None in rate && forall c :: Some(c) in rate <==> c in categories
    }

    constructor (categories: seq<string>, dominanceLevel: real)
      ensures Valid() && this.categories == categories && this.dominanceLevel == dominanceLevel
      ensures totalRate == None && forall c :: c in rate ==> rate[c] == 0.0
    {
      this.categories, this.dominanceLevel, totalRate := categories, dominanceLevel, None;
      rate := (map x: string | x in categories :: Some(x) := 0.0)[None := 0.0];
    }

    method AddCategory(cat: string)
      requires Valid()
      modifies this`categories, this`rate
      ensures Valid() && Some(cat) in rate
      ensures categories == if cat in old(categories) then old(categories) else old(categories) + [cat]
      ensures rate == if cat in old(categories) then old(rate) else old(rate)[Some(cat) := 0.0]
    {
      if Some(cat) !in rate {
        categories := categories + [cat];
        rate := rate[Some(cat) := 0.0];
      }
    }

    method Accumulate(cat: string, r: real)
      requires Valid() && Some(cat) in rate
      modifies this`rate
      ensures Valid() && rate == old(rate)[Some(cat) := old(rate)[Some(cat)] + r]
    {
      rate := rate[Some(cat) := rate[Some(cat)] + r];
    }

    /** One measured rate goes to the categories that its actions name. */
    method Apply(actions: seq<Action>, r: real)
      requires Valid() && forall c :: Names(actions, c) ==> Some(c) in rate
      modifies this`rate
      ensures Valid() && rate.Keys == old(rate.Keys) && rate[None] == old(rate)[None]
      ensures forall c :: Some(c) in rate ==> rate[Some(c)] == old(rate)[Some(c)] + Delta(actions, 1.0, r, c)
    {
      var mult := 1.0;
      for i := 0 to |actions|
        invariant Valid() && rate.Keys == old(rate.Keys) && rate[None] == old(rate)[None]
        invariant forall c :: Some(c) in rate ==>
          rate[Some(c)] + Delta(actions[i..], mult, r, c) == old(rate)[Some(c)] + Delta(actions, 1.0, r, c)
      {
        assert actions[i..][1..] == actions[i + 1..];
        assert !actions[i].Scale? ==> Names(actions, actions[i].cat);
        match actions[i]
        case Scale(f) => mult := f;
        case Add(c) => Accumulate(c, r * mult);
        case Subtract(c) => Accumulate(c, -r * mult);
      }
    }

    /** Make the categories that a metric names. */
    method AddCategories(actions: seq<Action>)
      requires Valid()
      modifies this`categories, this`rate
      ensures Valid() && old(rate.Keys) <= rate.Keys
      ensures forall c :: Some(c) in rate <==> Some(c) in old(rate) || Names(actions, c)
      ensures forall c :: c in rate ==> rate[c] == if c in old(rate) then old(rate)[c] else 0.0
    {
      for i := 0 to |actions|
        invariant Valid() && old(rate.Keys) <= rate.Keys
        invariant forall c :: Some(c) in rate <==> Some(c) in old(rate) || Names(actions[..i], c)
        invariant forall c :: c in rate ==> rate[c] == if c in old(rate) then old(rate)[c] else 0.0
      {
        NamesStep(actions, i);
        if !actions[i].Scale? {
          AddCategory(actions[i].cat);
        }
      }
      assert actions[..|actions|] == actions;
    }

    /** Negative rates become zero if asked for; the total is the baseline's rate or the sum of the external categories'. */
    method Finalize(adjust: bool) returns (ok: bool)
      requires Valid()
      modifies this`rate, this`totalRate
      ensures Valid() && rate.Keys == old(rate.Keys)
      ensures forall c :: c in rate ==> rate[c] == if adjust && old(rate)[c] < 0.0 then 0.0 else old(rate)[c]
      ensures totalRate == Some(TotalOf(categories, rate)) && ok == (TotalOf(categories, rate) > 0.0)
    {
      rate := map c | c in rate :: if adjust && rate[c] < 0.0 then 0.0 else rate[c];
      var total := 0.0;
      if BASELINE in categories {
        total := rate[Some(BASELINE)];
      } else {
        assert categories[..0] == [];
        for i := 0 to |categories|
          invariant total == External(categories[..i], rate)
        {
          assert categories[..i + 1][..i] == categories[..i];
          if !IsInternal(categories[i]) {
            total := total + rate[Some(categories[i])];
          }
        }
        assert categories[..|categories|] == categories;
        total := total + rate[None];
      }
      totalRate := Some(total);
      ok := total > 0.0;
    }

    /** The first category that dominates, if any does. */
    method Dominator() returns (r: Result<Option<string>, DominatorError>)
      requires Valid()
      ensures dominanceLevel <= 0.5 <==> r == Err(BadLevel)
      ensures r == Err(NoTotal) <==>
                dominanceLevel > 0.5 && (totalRate == None || totalRate.value <= 0.0) && exists c :: c in categories && !IsInternal(c)
      ensures r.Ok? && r.value.Some? ==>
                totalRate.Some? && totalRate.value > 0.0 && Dominates(categories, rate, totalRate.value, dominanceLevel, r.value.value)
      ensures r.Ok? && r.value.Some? ==>
                exists i :: 0 <= i < |categories| && categories[i] == r.value.value &&
                  forall k :: 0 <= k < i ==> !Dominates(categories, rate, totalRate.value, dominanceLevel, categories[k])
      ensures r.Ok? && r.value == None && totalRate.Some? && totalRate.value > 0.0 ==>
                forall c :: !Dominates(categories, rate, totalRate.value, dominanceLevel, c)
    {
      if dominanceLevel <= 0.5 {
        return Err(BadLevel);
      }
      for i := 0 to |categories|
        invariant totalRate == None || totalRate.value <= 0.0 ==> forall k :: 0 <= k < i ==> IsInternal(categories[k])
        invariant totalRate.Some? && totalRate.value > 0.0 ==>
          forall k :: 0 <= k < i ==> !Dominates(categories, rate, totalRate.value, dominanceLevel, categories[k])
      {
        if !IsInternal(categories[i]) {
          if totalRate == None || totalRate.value <= 0.0 {
            return Err(NoTotal);
          }
          if rate[Some(categories[i])] / totalRate.value >= dominanceLevel {
            return Ok(Some(categories[i]));
          }
        }
      }
      return Ok(None);
    }
  }

  lemma NamesStep(actions: seq<Action>, i: nat)
    requires i < |actions|
    ensures forall c :: Names(actions[..i + 1], c) <==> Names(actions[..i], c) || (!actions[i].Scale? && actions[i].cat == c)
  {
    forall c
      ensures Names(actions[..i + 1], c) <==> Names(actions[..i], c) || (!actions[i].Scale? && actions[i].cat == c)
    {
      if Names(actions[..i], c) {
        var k :| 0 <= k < i && !actions[..i][k].Scale? && actions[..i][k].cat == c;
        assert actions[..i + 1][k].cat == c;
      } else if !actions[i].Scale? && actions[i].cat == c {
        assert actions[..i + 1][i].cat == c;
      }
    }
  }

  // ---------------------------------------------------------------- measuring a plan

  datatype MeasureError = NotCollected | WrongNodeCount | WrongRateCount

  predicate Collected(rates: seq<Option<real>>) {
    forall i :: 0 <= i < |rates| ==> rates[i].Some?
  }

  function Values(rates: seq<Option<real>>): (values: seq<real>)
    requires Collected(rates)
    ensures |values| == |rates|
  {
    seq(|rates|, i requires 0 <= i < |rates| => rates[i].value)
  }

  ghost predicate IsCategory(categories: seq<string>, metrics: seq<Metric>, cat: string) {
    cat in categories || exists i :: 0 <= i < |metrics| && Names(metrics[i].actions, cat)
  }

  lemma IsCategoryStep(categories: seq<string>, metrics: seq<Metric>, i: nat)
    requires i < |metrics|
    ensures forall c :: IsCategory(categories, metrics[..i + 1], c) <==>
                        IsCategory(categories, metrics[..i], c) || Names(metrics[i].actions, c)
  {
    hide Names;
    forall c
      ensures IsCategory(categories, metrics[..i + 1], c) <==> IsCategory(categories, metrics[..i], c) || Names(metrics[i].actions, c)
    {
      if c !in categories && IsCategory(categories, metrics[..i], c) {
        var k :| 0 <= k < i && Names(metrics[..i][k].actions, c);
        assert Names(metrics[..i + 1][k].actions, c);
      } else if Names(metrics[i].actions, c) {
        assert Names(metrics[..i + 1][i].actions, c);
      }
    }
  }

  lemma TotalStep(metrics: seq<Metric>, rates: seq<real>, i: nat, cat: string)
    requires |metrics| == |rates| && i < |metrics|
    ensures Total(metrics[..i + 1], rates[..i + 1], cat)
         == Total(metrics[..i], rates[..i], cat) + Delta(metrics[i].actions, 1.0, rates[i], cat)
  {
    hide Delta;
    assert metrics[..i + 1][..i] == metrics[..i] && rates[..i + 1][..i] == rates[..i];
  }

  /** A new analysis with the categories of a plan and of its metrics' actions. */
  method NewAnalysis(categories: seq<string>, level: real, metrics: seq<Metric>) returns (a: Topdown)
    ensures fresh(a) && a.Valid() && a.dominanceLevel == level && a.totalRate == None
    ensures forall c :: Some(c) in a.rate <==> IsCategory(categories, metrics, c)
    ensures forall c :: c in a.rate ==> a.rate[c] == 0.0
  {
    a := new Topdown(categories, level);
    hide Names, IsCategory;
    assert forall c :: IsCategory(categories, [], c) <==> c in categories by {
      NoMetrics(categories);
    }
    assert metrics[..0] == [];
    for i := 0 to |metrics|
      invariant fresh(a) && a.Valid() && a.dominanceLevel == level && a.totalRate == None
      invariant forall c :: Some(c) in a.rate <==> IsCategory(categories, metrics[..i], c)
      invariant forall c :: c in a.rate ==> a.rate[c] == 0.0
    {
      a.AddCategories(metrics[i].actions);
      IsCategoryStep(categories, metrics, i);
    }
    assert metrics[..|metrics|] == metrics;
  }

  lemma NoMetrics(categories: seq<string>)
    ensures forall c :: IsCategory(categories, [], c) <==> c in categories
  {
  }

  lemma NamedIsCategory(categories: seq<string>, metrics: seq<Metric>, i: nat)
    requires i < |metrics|
    ensures forall c :: Names(metrics[i].actions, c) ==> IsCategory(categories, metrics, c)
  {
  }

  /** The rates of some metrics go to one analysis. */
  method ApplyMetrics(a: Topdown, metrics: seq<Metric>, rates: seq<Option<real>>) returns (ok: bool)
    requires a.Valid() && |rates| == |metrics|
    requires forall i, c :: 0 <= i < |metrics| && Names(metrics[i].actions, c) ==> Some(c) in a.rate
    modifies a`rate
    ensures a.Valid() && ok == Collected(rates) && a.rate.Keys == old(a.rate.Keys) && a.rate[None] == old(a.rate)[None]
    ensures ok ==> forall c :: Some(c) in a.rate ==> a.rate[Some(c)] == old(a.rate)[Some(c)] + Total(metrics, Values(rates), c)
  {
    hide Names, Total, Delta, Values;
    ghost var values := seq(|rates|, i requires 0 <= i < |rates| => if rates[i].Some? then rates[i].value else 0.0);
    assert forall c :: Total([], [], c) == 0.0 by {
      NoTotal();
    }
    assert metrics[..0] == [] && values[..0] == [];
    for i := 0 to |metrics|
      invariant a.Valid() && a.rate.Keys == old(a.rate.Keys) && a.rate[None] == old(a.rate)[None]
      invariant forall k :: 0 <= k < i ==> rates[k].Some?
      invariant forall c :: Some(c) in a.rate ==> a.rate[Some(c)] == old(a.rate)[Some(c)] + Total(metrics[..i], values[..i], c)
    {
      if rates[i] == None {
        return false;
      }
      a.Apply(metrics[i].actions, rates[i].value);
      forall c {:trigger Total(metrics[..i + 1], values[..i + 1], c)}
        ensures Total(metrics[..i + 1], values[..i + 1], c)
             == Total(metrics[..i], values[..i], c) + Delta(metrics[i].actions, 1.0, values[i], c)
      {
        TotalStep(metrics, values, i, c);
      }
      forall c | Some(c) in a.rate
        ensures a.rate[Some(c)] == old(a.rate)[Some(c)] + Total(metrics[..i + 1], values[..i + 1], c)
      {
        TotalStep(metrics, values, i, c);
      }
    }
    assert metrics[..|metrics|] == metrics && values[..|metrics|] == values;
    if Collected(rates) {
      ValuesAre(rates);
      assert values == Values(rates);
    }
    return true;
  }

  /** How far two lists go together. */
  function Zipped(m: nat, n: nat): nat {
    if m < n then m else n
  }

  /** The rates are the metrics' in order; what one list has beyond the other is ignored. */
  method MeasurePlan(categories: seq<string>, level: real, metrics: seq<Metric>, rates: seq<Option<real>>)
    returns (r: Result<Topdown, MeasureError>)
    ensures r.Ok? == Collected(rates[..Zipped(|metrics|, |rates|)]) && (r.Err? ==> r.error == NotCollected)
    ensures r.Ok? ==> fresh(r.value) && r.value.Valid() && r.value.rate[None] == 0.0
    ensures r.Ok? ==> forall c :: Some(c) in r.value.rate <==> IsCategory(categories, metrics, c)
    ensures r.Ok? ==>
              var n := Zipped(|metrics|, |rates|);
              forall c :: Some(c) in r.value.rate ==> r.value.rate[Some(c)] == Total(metrics[..n], Values(rates[..n]), c)
  {
    hide Names, IsCategory, Total, Values, Collected;
    var a := NewAnalysis(categories, level, metrics);
    var n := Zipped(|metrics|, |rates|);
    forall i | 0 <= i < |metrics|
      ensures forall c :: Names(metrics[i].actions, c) ==> IsCategory(categories, metrics, c)
    {
      NamedIsCategory(categories, metrics, i);
    }
    var ok := ApplyMetrics(a, metrics[..n], rates[..n]);
    return if ok then Ok(a) else Err(NotCollected);
  }

  lemma NoTotal()
    ensures forall c :: Total([], [], c) == 0.0
  {
  }

  lemma ValuesAre(rates: seq<Option<real>>)
    requires Collected(rates)
    ensures |Values(rates)| == |rates| && forall i :: 0 <= i < |rates| ==> Values(rates)[i] == rates[i].value
  {
  }

  // ---------------------------------------------------------------- measuring mesh by mesh

  /** A perf event of the mesh-by-mesh measurement: what it is for, and the mesh that it counts on. */
  datatype MeshEvent = MeshEvent(actions: seq<Action>, mesh: nat)

  function EventsOf(m: Metric, n: nat): seq<MeshEvent> {
    match m.scope
    case EachMesh => seq(n, k requires 0 <= k < n => MeshEvent(m.actions, k))
    case OnMesh(k) => [MeshEvent(m.actions, k)]
    case _ => []
  }

  function Events(metrics: seq<Metric>, n: nat): seq<MeshEvent> {
    if metrics == [] then []
    else Events(metrics[..|metrics| - 1], n) + EventsOf(metrics[|metrics| - 1], n)
  }

  /** The metrics that CPU nodes count, in order. */
  function NodeMetrics(metrics: seq<Metric>): seq<Metric> {
    if metrics == [] then []
    else
      var m := metrics[|metrics| - 1];
      NodeMetrics(metrics[..|metrics| - 1]) + if m.scope.EachNode? then [m] else []
  }

  function EventTotal(events: seq<MeshEvent>, rates: seq<real>, mesh: nat, cat: string): real
    requires |events| == |rates|
  {
    if events == [] then 0.0
    else
      var n := |events| - 1;
      EventTotal(events[..n], rates[..n], mesh, cat)
      + if events[n].mesh == mesh then Delta(events[n].actions, 1.0, rates[n], cat) else 0.0
  }

  lemma EventTotalStep(events: seq<MeshEvent>, rates: seq<real>, i: nat, mesh: nat, cat: string)
    requires |events| == |rates| && i < |events|
    ensures EventTotal(events[..i + 1], rates[..i + 1], mesh, cat)
         == EventTotal(events[..i], rates[..i], mesh, cat)
            + if events[i].mesh == mesh then Delta(events[i].actions, 1.0, rates[i], cat) else 0.0
  {
    hide Delta;
    assert events[..i + 1][..i] == events[..i] && rates[..i + 1][..i] == rates[..i];
  }

  ghost predicate AllValid(analyses: seq<Topdown>)
    reads analyses
  {
    forall k :: 0 <= k < |analyses| ==> analyses[k].Valid()
  }

  predicate AllDistinct(analyses: seq<Topdown>) {
    forall i, j :: 0 <= i < j < |analyses| ==> analyses[i] != analyses[j]
  }

  /** The meshes' events go to their own analyses. */
  method ApplyEvents(analyses: seq<Topdown>, events: seq<MeshEvent>, rates: seq<Option<real>>) returns (ok: bool)
    requires AllValid(analyses) && AllDistinct(analyses) && |rates| == |events|
    requires forall i :: 0 <= i < |events| ==> events[i].mesh < |analyses|
    requires forall i, k, c :: 0 <= i < |events| && 0 <= k < |analyses| && Names(events[i].actions, c) ==> Some(c) in analyses[k].rate
    modifies set a | a in analyses :: a`rate
    ensures AllValid(analyses) && ok == Collected(rates)
    ensures forall k :: 0 <= k < |analyses| ==> analyses[k].rate.Keys == old(analyses[k].rate.Keys)
    ensures forall k :: 0 <= k < |analyses| ==> analyses[k].rate[None] == old(analyses[k].rate)[None]
    ensures ok ==> forall k, c :: 0 <= k < |analyses| && Some(c) in analyses[k].rate ==>
              analyses[k].rate[Some(c)] == old(analyses[k].rate)[Some(c)] + EventTotal(events, Values(rates), k, c)
  {
    hide Names, EventTotal, Delta, Values;
    ghost var values := seq(|rates|, i requires 0 <= i < |rates| => if rates[i].Some? then rates[i].value else 0.0);
    assert forall k: nat, c :: EventTotal([], [], k, c) == 0.0 by {
      NoEventTotal();
    }
    assert events[..0] == [] && values[..0] == [];
    for i := 0 to |events|
      invariant AllValid(analyses)
      invariant forall j :: 0 <= j < i ==> rates[j].Some?
      invariant forall k :: 0 <= k < |analyses| ==> analyses[k].rate.Keys == old(analyses[k].rate.Keys)
      invariant forall k :: 0 <= k < |analyses| ==> analyses[k].rate[None] == old(analyses[k].rate)[None]
      invariant forall k, c :: 0 <= k < |analyses| && Some(c) in analyses[k].rate ==>
        analyses[k].rate[Some(c)] == old(analyses[k].rate)[Some(c)] + EventTotal(events[..i], values[..i], k, c)
    {
      if rates[i] == None {
        return false;
      }
      assert analyses[events[i].mesh] in analyses;
      analyses[events[i].mesh].Apply(events[i].actions, rates[i].value);
      forall k: nat, c {:trigger EventTotal(events[..i + 1], values[..i + 1], k, c)}
        ensures EventTotal(events[..i + 1], values[..i + 1], k, c)
             == EventTotal(events[..i], values[..i], k, c)
                + if events[i].mesh == k then Delta(events[i].actions, 1.0, values[i], c) else 0.0
      {
        EventTotalStep(events, values, i, k, c);
      }
      forall k, c | 0 <= k < |analyses| && Some(c) in analyses[k].rate
        ensures analyses[k].rate[Some(c)]
             == old(analyses[k].rate)[Some(c)] + EventTotal(events[..i + 1], values[..i + 1], k, c)
      {
        EventTotalStep(events, values, i, k, c);
      }
    }
    assert events[..|events|] == events && values[..|events|] == values;
    if Collected(rates) {
      ValuesAre(rates);
      assert values == Values(rates);
    }
    return true;
  }

  lemma NoEventTotal()
    ensures forall k: nat, c :: EventTotal([], [], k, c) == 0.0
  {
  }

  /** A rate of every metric from every node. */
  predicate NodesCollected(nodeRates: seq<seq<Option<real>>>, nodes: nat, metrics: nat) {
    |nodeRates| == nodes &&
    forall k :: 0 <= k < |nodeRates| ==> |nodeRates[k]| == metrics && Collected(nodeRates[k])
  }

  /** Each CPU node's rates go to the mesh of the same number. */
  method ApplyNodes(analyses: seq<Topdown>, metrics: seq<Metric>, nodeRates: seq<seq<Option<real>>>)
    returns (failure: Option<MeasureError>)
    requires AllValid(analyses) && AllDistinct(analyses)
    requires forall i, k, c :: 0 <= i < |metrics| && 0 <= k < |analyses| && Names(metrics[i].actions, c) ==> Some(c) in analyses[k].rate
    modifies set a | a in analyses :: a`rate
    ensures AllValid(analyses)
    ensures |nodeRates| != |analyses| ==> failure == Some(WrongNodeCount)
    ensures failure == None <==> NodesCollected(nodeRates, |analyses|, |metrics|)
    ensures failure == None ==> forall k :: 0 <= k < |analyses| ==>
              analyses[k].rate.Keys == old(analyses[k].rate.Keys) && analyses[k].rate[None] == old(analyses[k].rate)[None]
    ensures failure == None ==> forall k, c :: 0 <= k < |analyses| && Some(c) in analyses[k].rate ==>
              analyses[k].rate[Some(c)] == old(analyses[k].rate)[Some(c)] + Total(metrics, Values(nodeRates[k]), c)
  {
    hide Names, Total, Values, Collected;
    if |nodeRates| != |analyses| {
      return Some(WrongNodeCount);
    }
    for n := 0 to |nodeRates|
      invariant AllValid(analyses)
      invariant forall k :: 0 <= k < n ==> |nodeRates[k]| == |metrics| && Collected(nodeRates[k])
      invariant forall k :: 0 <= k < |analyses| ==>
        analyses[k].rate.Keys == old(analyses[k].rate.Keys) && analyses[k].rate[None] == old(analyses[k].rate)[None]
      invariant forall k :: n <= k < |analyses| ==> analyses[k].rate == old(analyses[k].rate)
      invariant forall k, c :: 0 <= k < n && Some(c) in analyses[k].rate ==>
        analyses[k].rate[Some(c)] == old(analyses[k].rate)[Some(c)] + Total(metrics, Values(nodeRates[k]), c)
    {
      if |nodeRates[n]| != |metrics| {
        return Some(WrongRateCount);
      }
      assert analyses[n] in analyses;
      var ok := ApplyMetrics(analyses[n], metrics, nodeRates[n]);
      if !ok {
        return Some(NotCollected);
      }
    }
    return None;
  }

  ghost predicate MetricsFit(metrics: seq<Metric>, meshes: nat) {
    forall i :: 0 <= i < |metrics| ==> metrics[i].scope != SystemWide && (metrics[i].scope.OnMesh? ==> metrics[i].scope.mesh < meshes)
  }

  /** Events and node metrics name only what the plan names. */
  lemma {:induction false} EventsFit(categories: seq<string>, metrics: seq<Metric>, prefix: nat, n: nat)
    requires prefix <= |metrics| && MetricsFit(metrics, n)
    ensures forall i :: 0 <= i < |Events(metrics[..prefix], n)| ==> Events(metrics[..prefix], n)[i].mesh < n
    ensures forall i, c :: 0 <= i < |Events(metrics[..prefix], n)| && Names(Events(metrics[..prefix], n)[i].actions, c) ==>
              IsCategory(categories, metrics, c)
    ensures forall i, c :: 0 <= i < |NodeMetrics(metrics[..prefix])| && Names(NodeMetrics(metrics[..prefix])[i].actions, c) ==>
              IsCategory(categories, metrics, c)
  {
    hide Names, IsCategory;
    if prefix > 0 {
      EventsFit(categories, metrics, prefix - 1, n);
      assert metrics[..prefix][..prefix - 1] == metrics[..prefix - 1];
      NamedIsCategory(categories, metrics, prefix - 1);
    }
  }

  /** The analyses of all meshes; not called for plans with system-wide metrics. */
  method MeasurePerMesh(categories: seq<string>, level: real, metrics: seq<Metric>, n: nat,
                        rates: seq<Option<real>>, nodeRates: seq<seq<Option<real>>>)
    returns (r: Result<seq<Topdown>, MeasureError>)
    requires MetricsFit(metrics, n)
    ensures r.Ok? ==> Collected(rates[..Zipped(|Events(metrics, n)|, |rates|)])
    ensures r.Ok? && NodeMetrics(metrics) != [] ==> NodesCollected(nodeRates, n, |NodeMetrics(metrics)|)
    ensures r.Err? ==> Collected(rates[..Zipped(|Events(metrics, n)|, |rates|)]) ==>
              NodeMetrics(metrics) != [] && !NodesCollected(nodeRates, n, |NodeMetrics(metrics)|)
    ensures r.Ok? ==> |r.value| == n && AllValid(r.value)
    ensures r.Ok? ==> forall k, c :: 0 <= k < n ==> (Some(c) in r.value[k].rate <==> IsCategory(categories, metrics, c))
    ensures r.Ok? ==> forall k, c :: 0 <= k < n && Some(c) in r.value[k].rate ==>
              var z := Zipped(|Events(metrics, n)|, |rates|);
              r.value[k].rate[Some(c)]
              == EventTotal(Events(metrics, n)[..z], Values(rates[..z]), k, c)
                 + if NodeMetrics(metrics) == [] then 0.0 else Total(NodeMetrics(metrics), Values(nodeRates[k]), c)
    ensures r.Ok? ==> forall table, k, c :: MadeFrom(rates, nodeRates, metrics, table, n) && 0 <= k < n && Some(c) in r.value[k].rate ==>
              r.value[k].rate[Some(c)] == MeshRate(metrics, table, n, k, c)
  {
    hide Names, IsCategory, Total, EventTotal, Values, Collected, Events, NodeMetrics, MetricsFit, IsTable, Measured, MeshRate;
    var analyses: seq<Topdown> := [];
    for k := 0 to n
      invariant |analyses| == k && AllValid(analyses) && AllDistinct(analyses)
      invariant forall i :: 0 <= i < k ==> fresh(analyses[i])
      invariant forall i, c :: 0 <= i < k ==> (Some(c) in analyses[i].rate <==> IsCategory(categories, metrics, c))
      invariant forall i, c :: 0 <= i < k && c in analyses[i].rate ==> analyses[i].rate[c] == 0.0
    {
      var a := NewAnalysis(categories, level, metrics);
      analyses := analyses + [a];
    }
    EventsFit(categories, metrics, |metrics|, n);
    assert metrics[..|metrics|] == metrics;
    var z := Zipped(|Events(metrics, n)|, |rates|);
    var ok := ApplyEvents(analyses, Events(metrics, n)[..z], rates[..z]);
    if !ok {
      return Err(NotCollected);
    }
    if NodeMetrics(metrics) != [] {
      var failure := ApplyNodes(analyses, NodeMetrics(metrics), nodeRates);
      if failure.Some? {
        return Err(failure.value);
      }
    }
    forall table, k, c | MadeFrom(rates, nodeRates, metrics, table, n) && 0 <= k < n && Some(c) in analyses[k].rate
      ensures analyses[k].rate[Some(c)] == MeshRate(metrics, table, n, k, c)
    {
      RateOfTable(rates, nodeRates, metrics, table, n, k, c);
    }
    return Ok(analyses);
  }

  // ---------------------------------------------------------------- meshes add up to the system

  /** What metric i counts on mesh k is table[i][k]; an event of one mesh counts nothing elsewhere. */
  ghost predicate IsTable(metrics: seq<Metric>, table: seq<seq<real>>, n: nat) {
    |table| == |metrics| && MetricsFit(metrics, n) && (forall i :: 0 <= i < |table| ==> |table[i]| == n) &&
    forall i, k :: 0 <= i < |table| && 0 <= k < n && metrics[i].scope.OnMesh? && metrics[i].scope.mesh != k ==> table[i][k] == 0.0
  }

  function EventRates(m: Metric, row: seq<real>): seq<real> {
    match m.scope
    case EachMesh => row
    case OnMesh(k) => if k < |row| then [row[k]] else []
    case _ => []
  }

  /** The rates that the events of the mesh-by-mesh measurement then have. */
  function RatesOf(metrics: seq<Metric>, table: seq<seq<real>>): seq<real>
    requires |metrics| == |table|
  {
    if metrics == [] then []
    else
      var n := |metrics| - 1;
      RatesOf(metrics[..n], table[..n]) + EventRates(metrics[n], table[n])
  }

  /** The rates that CPU node k then reports. */
  function NodeRatesOf(metrics: seq<Metric>, table: seq<seq<real>>, k: nat): seq<real>
    requires |metrics| == |table| && forall i :: 0 <= i < |table| ==> k < |table[i]|
  {
    if metrics == [] then []
    else
      var n := |metrics| - 1;
      NodeRatesOf(metrics[..n], table[..n], k) + if metrics[n].scope.EachNode? then [table[n][k]] else []
  }

  lemma {:induction false} RatesFit(metrics: seq<Metric>, table: seq<seq<real>>, n: nat)
    requires IsTable(metrics, table, n)
    ensures |RatesOf(metrics, table)| == |Events(metrics, n)|
    ensures forall k :: 0 <= k < n ==> |NodeRatesOf(metrics, table, k)| == |NodeMetrics(metrics)|
  {
    if metrics != [] {
      RatesFit(metrics[..|metrics| - 1], table[..|metrics| - 1], n);
    }
  }

  lemma {:induction false} EventTotalConcat(a: seq<MeshEvent>, p: seq<real>, b: seq<MeshEvent>, q: seq<real>, mesh: nat, cat: string)
    requires |a| == |p| && |b| == |q|
    ensures EventTotal(a + b, p + q, mesh, cat) == EventTotal(a, p, mesh, cat) + EventTotal(b, q, mesh, cat)
    decreases |b|
  {
    hide Delta;
    if b == [] {
      assert a + b == a && p + q == p;
    } else {
      var n := |b| - 1;
      EventTotalConcat(a, p, b[..n], q[..n], mesh, cat);
      assert (a + b)[..|a| + n] == a + b[..n] && (p + q)[..|p| + n] == p + q[..n];
    }
  }

  /** Of one metric's events, only the mesh's own contributes. */
  lemma {:induction false} EachMeshTotal(actions: seq<Action>, row: seq<real>, mesh: nat, cat: string)
    requires mesh <= |row|
    ensures var events := seq(|row|, k requires 0 <= k < |row| => MeshEvent(actions, k));
            EventTotal(events, row, mesh, cat) == if mesh < |row| then Delta(actions, 1.0, row[mesh], cat) else 0.0
    decreases |row|
  {
    hide Delta;
    if row != [] {
      var n := |row| - 1;
      var events := seq(|row|, k requires 0 <= k < |row| => MeshEvent(actions, k));
      assert events[..n] == seq(n, k requires 0 <= k < n => MeshEvent(actions, k));
      if mesh <= n {
        EachMeshTotal(actions, row[..n], mesh, cat);
      } else {
        NoEventsOn(events[..n], row[..n], mesh, cat);
      }
    }
  }

  lemma {:induction false} NoEventsOn(events: seq<MeshEvent>, rates: seq<real>, mesh: nat, cat: string)
    requires |events| == |rates| && forall i :: 0 <= i < |events| ==> events[i].mesh != mesh
    ensures EventTotal(events, rates, mesh, cat) == 0.0
  {
    if events != [] {
      NoEventsOn(events[..|events| - 1], rates[..|events| - 1], mesh, cat);
    }
  }

  function Column(table: seq<seq<real>>, k: nat): seq<real>
    requires forall i :: 0 <= i < |table| ==> k < |table[i]|
  {
    seq(|table|, i requires 0 <= i < |table| => table[i][k])
  }

  lemma MetricTotal(m: Metric, row: seq<real>, k: nat, cat: string)
    requires k < |row| && m.scope != SystemWide && (m.scope.OnMesh? ==> m.scope.mesh < |row|)
    requires m.scope.OnMesh? && m.scope.mesh != k ==> row[k] == 0.0
    ensures |EventsOf(m, |row|)| == |EventRates(m, row)|
    ensures EventTotal(EventsOf(m, |row|), EventRates(m, row), k, cat)
            + (if m.scope.EachNode? then Delta(m.actions, 1.0, row[k], cat) else 0.0)
         == Delta(m.actions, 1.0, row[k], cat)
  {
    hide Delta;
    match m.scope
    case EachMesh => EachMeshTotal(m.actions, row, k, cat);
    case OnMesh(_) => DeltaOfZero(m.actions, 1.0, cat);
    case _ =>
  }

  lemma NodeTotalStep(metrics: seq<Metric>, table: seq<seq<real>>, n: nat, k: nat, cat: string)
    requires IsTable(metrics, table, n) && k < n && metrics != []
    ensures var last := |metrics| - 1;
            && IsTable(metrics[..last], table[..last], n)
            && |NodeRatesOf(metrics, table, k)| == |NodeMetrics(metrics)|
            && |NodeRatesOf(metrics[..last], table[..last], k)| == |NodeMetrics(metrics[..last])|
            && Total(NodeMetrics(metrics), NodeRatesOf(metrics, table, k), cat)
               == Total(NodeMetrics(metrics[..last]), NodeRatesOf(metrics[..last], table[..last], k), cat)
                  + if metrics[last].scope.EachNode? then Delta(metrics[last].actions, 1.0, table[last][k], cat) else 0.0
  {
    hide Delta;
    var last := |metrics| - 1;
    RatesFit(metrics, table, n);
    RatesFit(metrics[..last], table[..last], n);
    var before, rates := NodeMetrics(metrics[..last]), NodeRatesOf(metrics[..last], table[..last], k);
    assert (before + [metrics[last]])[..|before|] == before && (rates + [table[last][k]])[..|before|] == rates;
    assert before + [] == before && rates + [] == rates;
  }

  lemma EventTotalsStep(metrics: seq<Metric>, table: seq<seq<real>>, n: nat, k: nat, cat: string)
    requires IsTable(metrics, table, n) && k < n && metrics != []
    ensures var last := |metrics| - 1;
            && |RatesOf(metrics, table)| == |Events(metrics, n)|
            && |RatesOf(metrics[..last], table[..last])| == |Events(metrics[..last], n)|
            && |EventsOf(metrics[last], n)| == |EventRates(metrics[last], table[last])|
            && EventTotal(Events(metrics, n), RatesOf(metrics, table), k, cat)
               == EventTotal(Events(metrics[..last], n), RatesOf(metrics[..last], table[..last]), k, cat)
                  + EventTotal(EventsOf(metrics[last], n), EventRates(metrics[last], table[last]), k, cat)
  {
    hide Delta, EventTotal;
    var last := |metrics| - 1;
    RatesFit(metrics, table, n);
    RatesFit(metrics[..last], table[..last], n);
    EventTotalConcat(Events(metrics[..last], n), RatesOf(metrics[..last], table[..last]),
                     EventsOf(metrics[last], n), EventRates(metrics[last], table[last]), k, cat);
  }

  lemma LastOfTable(metrics: seq<Metric>, table: seq<seq<real>>, n: nat, k: nat)
    requires IsTable(metrics, table, n) && k < n && metrics != []
    ensures var m, row := metrics[|metrics| - 1], table[|metrics| - 1];
            |row| == n && m.scope != SystemWide && (m.scope.OnMesh? ==> m.scope.mesh < n && (m.scope.mesh != k ==> row[k] == 0.0))
    ensures Column(table, k)[..|metrics| - 1] == Column(table[..|metrics| - 1], k)
    ensures Column(table, k)[|metrics| - 1] == table[|metrics| - 1][k]
  {
  }

  /** A mesh's analysis is as if its own counts were the rates of the metrics. */
  lemma {:induction false} MeshTotal(metrics: seq<Metric>, table: seq<seq<real>>, n: nat, k: nat, cat: string)
    requires IsTable(metrics, table, n) && k < n
    ensures |RatesOf(metrics, table)| == |Events(metrics, n)| && |NodeRatesOf(metrics, table, k)| == |NodeMetrics(metrics)|
    ensures EventTotal(Events(metrics, n), RatesOf(metrics, table), k, cat) + Total(NodeMetrics(metrics), NodeRatesOf(metrics, table, k), cat)
         == Total(metrics, Column(table, k), cat)
  {
    RatesFit(metrics, table, n);
    if metrics == [] {
      assert Column(table, k) == [];
    } else {
      var last := |metrics| - 1;
      assert |Column(table, k)| == |metrics|;
      hide Total, EventTotal, RatesOf, NodeRatesOf, Events, NodeMetrics, EventsOf, EventRates, Delta, MetricsFit;
      NodeTotalStep(metrics, table, n, k, cat);
      EventTotalsStep(metrics, table, n, k, cat);
      LastOfTable(metrics, table, n, k);
      TotalStep(metrics, Column(table, k), last, cat);
      hide *;
      assert metrics[..last + 1] == metrics && Column(table, k)[..last + 1] == Column(table, k);
      MetricTotal(metrics[last], table[last], k, cat);
      MeshTotal(metrics[..last], table[..last], n, k, cat);
    }
  }

  lemma {:induction false} TotalAdds(metrics: seq<Metric>, p: seq<real>, q: seq<real>, r: seq<real>, cat: string)
    requires |metrics| == |p| == |q| == |r| && forall i :: 0 <= i < |r| ==> r[i] == p[i] + q[i]
    ensures Total(metrics, r, cat) == Total(metrics, p, cat) + Total(metrics, q, cat)
  {
    hide Delta;
    if metrics != [] {
      var n := |metrics| - 1;
      TotalAdds(metrics[..n], p[..n], q[..n], r[..n], cat);
      DeltaAdds(metrics[n].actions, 1.0, p[n], q[n], cat);
    }
  }

  lemma {:induction false} TotalOfZeros(metrics: seq<Metric>, rates: seq<real>, cat: string)
    requires |metrics| == |rates| && forall i :: 0 <= i < |rates| ==> rates[i] == 0.0
    ensures Total(metrics, rates, cat) == 0.0
  {
    hide Delta;
    if metrics != [] {
      var n := |metrics| - 1;
      TotalOfZeros(metrics[..n], rates[..n], cat);
      DeltaOfZero(metrics[n].actions, 1.0, cat);
    }
  }

  function Sum(s: seq<real>): real {
    if s == [] then 0.0 else Sum(s[..|s| - 1]) + s[|s| - 1]
  }

  /** What the metrics count on the first n meshes together. */
  function RowSums(table: seq<seq<real>>, n: nat): seq<real>
    requires forall i :: 0 <= i < |table| ==> n <= |table[i]|
  {
    seq(|table|, i requires 0 <= i < |table| => Sum(table[i][..n]))
  }

  /** A category's rate, as the analysis of each mesh has it. */
  function MeshRates(metrics: seq<Metric>, table: seq<seq<real>>, n: nat, cat: string): seq<real>
    requires |metrics| == |table| && forall i :: 0 <= i < |table| ==> n <= |table[i]|
  {
    seq(n, k requires 0 <= k < n => Total(metrics, Column(table, k), cat))
  }

  /**
   If each metric counts on the whole system what it counts on its meshes together, then every
   category's rate in the one analysis of the system is the sum of its rates in the meshes'.
   */
  lemma {:induction false} MeshesAddUp(metrics: seq<Metric>, table: seq<seq<real>>, n: nat, cat: string)
    requires |metrics| == |table| && forall i :: 0 <= i < |table| ==> n <= |table[i]|
    ensures Sum(MeshRates(metrics, table, n, cat)) == Total(metrics, RowSums(table, n), cat)
  {
    hide Total;
    if n == 0 {
      assert forall i :: 0 <= i < |table| ==> table[i][..0] == [];
      TotalOfZeros(metrics, RowSums(table, 0), cat);
    } else {
      MeshesAddUp(metrics, table, n - 1, cat);
      assert MeshRates(metrics, table, n, cat)[..n - 1] == MeshRates(metrics, table, n - 1, cat);
      assert forall i :: 0 <= i < |table| ==> table[i][..n][..n - 1] == table[i][..n - 1];
      TotalAdds(metrics, RowSums(table, n - 1), Column(table, n - 1), RowSums(table, n), cat);
    }
  }

  /** A category's rate in the analysis that MeasurePerMesh makes of mesh k. */
  ghost function MeshRate(metrics: seq<Metric>, table: seq<seq<real>>, n: nat, k: nat, cat: string): real
    requires IsTable(metrics, table, n) && k < n
  {
    RatesFit(metrics, table, n);
    EventTotal(Events(metrics, n), RatesOf(metrics, table), k, cat)
    + Total(NodeMetrics(metrics), NodeRatesOf(metrics, table, k), cat)
  }

  function Measured(values: seq<real>): (rates: seq<Option<real>>)
    ensures Collected(rates) && |rates| == |values|
  {
    seq(|values|, i requires 0 <= i < |values| => Some(values[i]))
  }

  /** The measured rates are those that a table gives. */
  ghost predicate MadeFrom(rates: seq<Option<real>>, nodeRates: seq<seq<Option<real>>>, metrics: seq<Metric>,
                           table: seq<seq<real>>, n: nat)
  {
    IsTable(metrics, table, n) && rates == Measured(RatesOf(metrics, table)) && |nodeRates| == n &&
    forall k :: 0 <= k < n ==> nodeRates[k] == Measured(NodeRatesOf(metrics, table, k))
  }

  lemma ValuesOfMeasured(values: seq<real>)
    ensures Values(Measured(values)) == values && Measured(values)[..|values|] == Measured(values)
  {
  }

  lemma RateOfTable(rates: seq<Option<real>>, nodeRates: seq<seq<Option<real>>>, metrics: seq<Metric>,
                    table: seq<seq<real>>, n: nat, k: nat, c: string)
    requires MadeFrom(rates, nodeRates, metrics, table, n) && k < n
    ensures IsTable(metrics, table, n)
    ensures var z := Zipped(|Events(metrics, n)|, |rates|);
            && |rates[..z]| == |Events(metrics, n)[..z]| && Collected(rates[..z])
            && |nodeRates[k]| == |NodeMetrics(metrics)| && Collected(nodeRates[k])
            && MeshRate(metrics, table, n, k, c)
               == EventTotal(Events(metrics, n)[..z], Values(rates[..z]), k, c)
                  + if NodeMetrics(metrics) == [] then 0.0 else Total(NodeMetrics(metrics), Values(nodeRates[k]), c)
  {
    RatesFit(metrics, table, n);
    ValuesOfMeasured(RatesOf(metrics, table));
    ValuesOfMeasured(NodeRatesOf(metrics, table, k));
    NoTotal();
    hide Measured, RatesOf, NodeRatesOf, Values, EventTotal, Total, Events, NodeMetrics, Collected;
    var z := Zipped(|Events(metrics, n)|, |rates|);
    assert Events(metrics, n)[..z] == Events(metrics, n) && rates[..z] == rates;
  }

  /** The analyses of the meshes add up to the system's, MeasurePlan's. */
  lemma MeshAnalysesAddUp(metrics: seq<Metric>, table: seq<seq<real>>, n: nat, cat: string)
    requires IsTable(metrics, table, n)
    ensures Sum(seq(n, k requires 0 <= k < n => MeshRate(metrics, table, n, k, cat))) == Total(metrics, RowSums(table, n), cat)
  {
    MeshesAddUp(metrics, table, n, cat);
    var rates := seq(n, k requires 0 <= k < n => MeshRate(metrics, table, n, k, cat));
    forall k | 0 <= k < n
      ensures rates[k] == MeshRates(metrics, table, n, cat)[k]
    {
      MeshTotal(metrics, table, n, k, cat);
    }
    assert rates == MeshRates(metrics, table, n, cat);
  }

  // ---------------------------------------------------------------- one dominant category

  lemma {:induction false} ExternalBounds(categories: seq<string>, rate: map<Option<string>, real>, c: string, d: string)
    requires forall x :: x in categories ==> Some(x) in rate && (!IsInternal(x) ==> rate[Some(x)] >= 0.0)
    ensures External(categories, rate) >= 0.0
    ensures c in categories && !IsInternal(c) ==> External(categories, rate) >= rate[Some(c)]
    ensures d in categories && !IsInternal(d) ==> External(categories, rate) >= rate[Some(d)]
    ensures c != d && c in categories && d in categories && !IsInternal(c) && !IsInternal(d) ==>
              External(categories, rate) >= rate[Some(c)] + rate[Some(d)]
  {
    if categories != [] {
      ExternalBounds(categories[..|categories| - 1], rate, c, d);
    }
  }

  /** Without a baseline, and after negative rates are cleared, no two categories dominate. */
  lemma AtMostOneDominates(categories: seq<string>, rate: map<Option<string>, real>, level: real, c: string, d: string)
    requires BASELINE !in categories && level > 0.5
    requires Adjusted(categories, rate) && BothDominate(categories, rate, level, c, d)
    ensures c == d
  {
    ExternalBounds(categories, rate, c, d);
    var total := TotalOf(categories, rate);
    ShareMeans(rate[Some(c)], total, level);
    ShareMeans(rate[Some(d)], total, level);
  }

  lemma ShareMeans(part: real, total: real, level: real)
    requires total > 0.0 && level > 0.5
    ensures part / total >= level ==> part > 0.5 * total
  {
    if part / total >= level {
      assert part == (part / total) * total;
      assert (part / total - 0.5) * total > 0.0;
    }
  }

  /** Rates that are not negative and have a total. */
  ghost predicate Adjusted(categories: seq<string>, rate: map<Option<string>, real>) {
    None in rate && rate[None] >= 0.0 && (forall x :: x in categories ==> Some(x) in rate && rate[Some(x)] >= 0.0) &&
    TotalOf(categories, rate) > 0.0
  }

  ghost predicate BothDominate(categories: seq<string>, rate: map<Option<string>, real>, level: real, c: string, d: string)
    requires None in rate && (forall x :: x in categories ==> Some(x) in rate) && TotalOf(categories, rate) > 0.0
  {
    Dominates(categories, rate, TotalOf(categories, rate), level, c) && Dominates(categories, rate, TotalOf(categories, rate), level, d)
  }

  /** No two dominant categories, whatever is measured. */
  ghost predicate NeverTwo(categories: seq<string>, level: real) {
    forall rate, c, d :: Adjusted(categories, rate) && BothDominate(categories, rate, level, c, d) ==> c == d
  }

  /** With a baseline, parts of it are not disjoint, so two can dominate as soon as there are two. */
  lemma NeverTwoIff(categories: seq<string>, level: real)
    requires level > 0.5
    ensures NeverTwo(categories, level) <==>
            BASELINE !in categories ||
            forall c, d :: c in categories && d in categories && !IsInternal(c) && !IsInternal(d) ==> c == d
  {
    if BASELINE !in categories {
      forall rate, c, d | Adjusted(categories, rate) && BothDominate(categories, rate, level, c, d)
        ensures c == d
      {
        AtMostOneDominates(categories, rate, level, c, d);
      }
    } else if c, d :| c in categories && d in categories && !IsInternal(c) && !IsInternal(d) && c != d {
      var rate := (map x: string | x in categories :: Some(x) := level)[None := 0.0][Some(BASELINE) := 1.0];
      assert c != BASELINE && d != BASELINE;
      assert rate[Some(c)] == level && rate[Some(d)] == level;
      assert TotalOf(categories, rate) == 1.0;
      assert Adjusted(categories, rate) && BothDominate(categories, rate, level, c, d);
    }
  }

  // ---------------------------------------------------------------- without adjustment

  /** Rates as they are accumulated, of either sign: nothing goes to no category, and there is a total. */
  ghost predicate Unadjusted(categories: seq<string>, rate: map<Option<string>, real>) {
    None in rate && rate[None] == 0.0 && (forall x :: x in categories ==> Some(x) in rate) && TotalOf(categories, rate) > 0.0
  }

  ghost predicate UnadjustedNeverTwo(categories: seq<string>, level: real) {
    forall rate, c, d :: Unadjusted(categories, rate) && BothDominate(categories, rate, level, c, d) ==> c == d
  }

  ghost predicate AtMostOneExternal(categories: seq<string>) {
    forall c, d :: c in categories && d in categories && !IsInternal(c) && !IsInternal(d) ==> c == d
  }

  ghost predicate AtMostTwoExternal(categories: seq<string>) {
    forall c, d, e ::
      c in categories && d in categories && e in categories && !IsInternal(c) && !IsInternal(d) && !IsInternal(e) ==>
      c == d || d == e || c == e
  }

  /** The sum over a list in which one category counts r each time it is listed, and all others nothing. */
  function Listed(categories: seq<string>, c: string, r: real): real {
    if categories == [] then 0.0
    else Listed(categories[..|categories| - 1], c, r) + if categories[|categories| - 1] == c then r else 0.0
  }

  lemma {:induction false} ListedScales(categories: seq<string>, c: string, r: real)
    ensures Listed(categories, c, r) == r * Listed(categories, c, 1.0)
    ensures Listed(categories, c, 1.0) >= if c in categories then 1.0 else 0.0
  {
    if categories != [] {
      var before := categories[..|categories| - 1];
      ListedScales(before, c, r);
      OneMore(r, Listed(before, c, 1.0));
    }
  }

  lemma OneMore(r: real, n: real)
    ensures r * (n + 1.0) == r * n + r
  {
  }

  /** If all external categories but three have rate zero, the sum is theirs, each as often as it is listed. */
  lemma {:induction false} ExternalOfThree(categories: seq<string>, rate: map<Option<string>, real>, c: string, d: string, e: string)
    requires c != d && d != e && c != e && !IsInternal(c) && !IsInternal(d) && !IsInternal(e)
    requires Some(c) in rate && Some(d) in rate && Some(e) in rate
    requires forall x :: x in categories ==> Some(x) in rate && (IsInternal(x) || x == c || x == d || x == e || rate[Some(x)] == 0.0)
    ensures External(categories, rate)
         == Listed(categories, c, rate[Some(c)]) + Listed(categories, d, rate[Some(d)]) + Listed(categories, e, rate[Some(e)])
  {
    if categories != [] {
      ExternalOfThree(categories[..|categories| - 1], rate, c, d, e);
    }
  }

  /** With three external categories, two can be large and the third negative enough. */
  lemma ThreeAllowTwo(categories: seq<string>, level: real, c: string, d: string, e: string)
    requires BASELINE !in categories && c != d && d != e && c != e && c in categories && d in categories && e in categories
    requires !IsInternal(c) && !IsInternal(d) && !IsInternal(e)
    ensures !UnadjustedNeverTwo(categories, level)
  {
    var two, ne := Listed(categories, c, level) + Listed(categories, d, level), Listed(categories, e, 1.0);
    ListedScales(categories, e, 1.0);
    var rest := (1.0 - two) / ne;
    ListedScales(categories, e, rest);
    DivideBack(1.0 - two, ne);
    hide Listed;
    var rate := (map x: string | x in categories :: Some(x) := if x == c || x == d then level else if x == e then rest else 0.0)[None := 0.0];
    assert rate[Some(c)] == level && rate[Some(d)] == level && rate[Some(e)] == rest;
    ExternalOfThree(categories, rate, c, d, e);
    hide External;
    assert TotalOf(categories, rate) == 1.0;
    assert Unadjusted(categories, rate) && BothDominate(categories, rate, level, c, d);
  }

  lemma DivideBack(a: real, b: real)
    requires b > 0.0
    ensures (a / b) * b == a
  {
  }

  /** Two external categories cannot both dominate: no third one can make up for them. */
  lemma TwoAreTooMuch(categories: seq<string>, rate: map<Option<string>, real>, level: real, c: string, d: string)
    requires BASELINE !in categories && AtMostTwoExternal(categories) && level > 0.5
    requires Unadjusted(categories, rate) && BothDominate(categories, rate, level, c, d)
    ensures c == d
  {
    var total := TotalOf(categories, rate);
    ShareMeans(rate[Some(c)], total, level);
    ShareMeans(rate[Some(d)], total, level);
    if c != d {
      assert forall x :: x in categories && !IsInternal(x) ==> x == c || x == d;
      ExternalBounds(categories, rate, c, d);
    }
  }

  /** With a baseline, two external categories are enough, whatever their signs. */
  lemma BaselineAllowsTwo(categories: seq<string>, level: real, c: string, d: string)
    requires BASELINE in categories && c != d && c in categories && d in categories && !IsInternal(c) && !IsInternal(d)
    ensures !UnadjustedNeverTwo(categories, level)
  {
    var rate := (map x: string | x in categories :: Some(x) := level)[None := 0.0][Some(BASELINE) := 1.0];
    assert c != BASELINE && d != BASELINE;
    assert rate[Some(c)] == level && rate[Some(d)] == level;
    assert TotalOf(categories, rate) == 1.0;
    assert Unadjusted(categories, rate) && BothDominate(categories, rate, level, c, d);
  }

  /**
   If negative rates stay, no two categories dominate, whatever is measured, exactly if there
   are at most two external ones, or at most one with a baseline.
   */
  lemma UnadjustedNeverTwoIff(categories: seq<string>, level: real)
    requires level > 0.5
    ensures UnadjustedNeverTwo(categories, level) <==>
            if BASELINE in categories then AtMostOneExternal(categories) else AtMostTwoExternal(categories)
  {
    if BASELINE in categories {
      if c, d :| c in categories && d in categories && !IsInternal(c) && !IsInternal(d) && c != d {
        BaselineAllowsTwo(categories, level, c, d);
      }
    } else if c, d, e :| c in categories && d in categories && e in categories &&
                         !IsInternal(c) && !IsInternal(d) && !IsInternal(e) && c != d && d != e && c != e {
      ThreeAllowTwo(categories, level, c, d, e);
    } else {
      forall rate, c, d | Unadjusted(categories, rate) && BothDominate(categories, rate, level, c, d)
        ensures c == d
      {
        TwoAreTooMuch(categories, rate, level, c, d);
      }
    }
  }

  /** If negative rates stay, two can dominate without a baseline: three categories show it. */
  lemma UnadjustedCanHaveTwo()
    ensures var rate := map[None := 0.0, Some("a") := 10.0, Some("b") := 10.0, Some("c") := -10.0];
            var categories := ["a", "b", "c"];
            && (forall x :: x in categories ==> Some(x) in rate)
            && TotalOf(categories, rate) == 10.0
            && Dominates(categories, rate, 10.0, 0.95, "a") && Dominates(categories, rate, 10.0, 0.95, "b")
  {
    var rate := map[None := 0.0, Some("a") := 10.0, Some("b") := 10.0, Some("c") := -10.0];
    var categories := ["a", "b", "c"];
    assert categories[..2] == ["a", "b"] && categories[..2][..1] == ["a"] && categories[..2][..1][..0] == [];
    assert External(["a"], rate) == 10.0;
    assert External(["a", "b"], rate) == 20.0;
    assert External(categories, rate) == 10.0;
  }

  // ---------------------------------------------------------------- splitting by port

  /** A port as it is named in split categories. */
  datatype PortName = PortName(mesh: nat, base: nat)

  /** Python's %u. */
  function Decimal(n: nat): (s: string)
    ensures |s| > 0
  {
    if n < 10 then ["0123456789"[n]] else Decimal(n / 10) + ["0123456789"[n % 10]]
  }

  /** The mesh is named if there are several. */
  function Suffix(several: bool, p: PortName): string {
    (if several then ":M" + Decimal(p.mesh) else "") + ":" + PerfEvents.Hex(p.base)
  }

  function SplitAction(a: Action, suffix: string): Action {
    match a
    case Scale(f) => a
    case Add(c) => Add(c + suffix)
    case Subtract(c) => Subtract(c + suffix)
  }

  function SplitActions(actions: seq<Action>, suffix: string): seq<Action> {
    seq(|actions|, i requires 0 <= i < |actions| => SplitAction(actions[i], suffix))
  }

  predicate NoColon(s: string) {
    forall i :: 0 <= i < |s| ==> s[i] != ':'
  }

  /** Where the last colon is, the parts before and after it are determined. */
  lemma LastColon(a: string, u: string, b: string, v: string)
    requires NoColon(u) && NoColon(v) && a + ":" + u == b + ":" + v
    ensures a == b && u == v
  {
    var s, t := a + ":" + u, b + ":" + v;
    assert s[|a|] == ':' && t[|b|] == ':';
    assert forall k :: |a| < k < |s| ==> s[k] == u[k - |a| - 1];
    assert forall k :: |b| < k < |t| ==> t[k] == v[k - |b| - 1];
    assert a == s[..|a|] && b == t[..|b|];
    assert u == s[|a| + 1..] && v == t[|b| + 1..];
  }

  function DecimalValue(s: string): nat
    requires forall i :: 0 <= i < |s| ==> '0' <= s[i] <= '9'
  {
    if s == "" then 0 else 10 * DecimalValue(s[..|s| - 1]) + (s[|s| - 1] as int - '0' as int)
  }

  lemma {:induction false} DecimalReads(n: nat)
    ensures forall i :: 0 <= i < |Decimal(n)| ==> '0' <= Decimal(n)[i] <= '9'
    ensures DecimalValue(Decimal(n)) == n
  {
    var d := n % 10;
    DecimalDigit(d);
    if n >= 10 {
      DecimalReads(n / 10);
      var before, digit := Decimal(n / 10), "0123456789"[d];
      assert Decimal(n) == before + [digit];
      hide Decimal;
      DecimalAppend(before, digit);
      assert n == 10 * (n / 10) + d;
    } else {
      assert Decimal(n) == ["0123456789"[d]] && Decimal(n)[..0] == "";
    }
  }

  lemma DecimalDigit(d: nat)
    requires d < 10
    ensures '0' <= "0123456789"[d] <= '9' && "0123456789"[d] as int - '0' as int == d
  {
  }

  lemma DecimalAppend(s: string, c: char)
    requires '0' <= c <= '9' && forall i :: 0 <= i < |s| ==> '0' <= s[i] <= '9'
    ensures forall i :: 0 <= i < |s + [c]| ==> '0' <= (s + [c])[i] <= '9'
    ensures DecimalValue(s + [c]) == 10 * DecimalValue(s) + (c as int - '0' as int)
  {
    assert (s + [c])[..|s + [c]| - 1] == s;
  }

  lemma HexHasNoColon(n: nat)
    ensures NoColon(PerfEvents.Hex(n))
  {
    PerfEvents.DigitsAreHex(n);
  }

  lemma HexIsInjective(m: nat, n: nat)
    requires PerfEvents.Hex(m) == PerfEvents.Hex(n)
    ensures m == n
  {
    PerfEvents.DigitsAreHex(m);
    PerfEvents.DigitsAreHex(n);
    assert PerfEvents.Hex(m)[2..] == PerfEvents.HexDigits(m) && PerfEvents.Hex(n)[2..] == PerfEvents.HexDigits(n);
  }

  /** A split category tells which category and which port it is for. */
  lemma SplitNamesDiffer(several: bool, c: string, p: PortName, d: string, q: PortName)
    requires !several ==> p.mesh == q.mesh
    requires c + Suffix(several, p) == d + Suffix(several, q)
    ensures c == d && p == q
  {
    HexHasNoColon(p.base);
    HexHasNoColon(q.base);
    var x, y := if several then c + ":" + ("M" + Decimal(p.mesh)) else c, if several then d + ":" + ("M" + Decimal(q.mesh)) else d;
    assert c + Suffix(several, p) == x + ":" + PerfEvents.Hex(p.base);
    assert d + Suffix(several, q) == y + ":" + PerfEvents.Hex(q.base);
    hide PerfEvents.Hex;
    LastColon(x, PerfEvents.Hex(p.base), y, PerfEvents.Hex(q.base));
    HexIsInjective(p.base, q.base);
    if several {
      DecimalReads(p.mesh);
      DecimalReads(q.mesh);
      LastColon(c, "M" + Decimal(p.mesh), d, "M" + Decimal(q.mesh));
      assert ("M" + Decimal(p.mesh))[1..] == Decimal(p.mesh) && ("M" + Decimal(q.mesh))[1..] == Decimal(q.mesh);
    }
  }

  /** A port's split actions do to its own split category what the actions do to the category, and nothing to other ports'. */
  lemma {:induction false} SplitDelta(actions: seq<Action>, mult: real, rate: real, several: bool, p: PortName, q: PortName, cat: string)
    requires !several ==> p.mesh == q.mesh
    ensures Delta(SplitActions(actions, Suffix(several, p)), mult, rate, cat + Suffix(several, q))
         == if p == q then Delta(actions, mult, rate, cat) else 0.0
    decreases |actions|
  {
    hide Suffix;
    if actions != [] {
      var split := SplitActions(actions, Suffix(several, p));
      assert split[1..] == SplitActions(actions[1..], Suffix(several, p));
      SplitDelta(actions[1..], if actions[0].Scale? then actions[0].factor else mult, rate, several, p, q, cat);
      if !actions[0].Scale? && split[0].cat == cat + Suffix(several, q) {
        SplitNamesDiffer(several, actions[0].cat, p, cat, q);
      }
    }
  }

  /** A watchpoint metric gives one metric for each port. */
  function PortMetrics(actions: seq<Action>, ports: seq<PortName>): seq<Metric> {
    seq(|ports|, i requires 0 <= i < |ports| => Metric(actions, OnMesh(ports[i].mesh)))
  }

  function SplitMetrics(actions: seq<Action>, several: bool, ports: seq<PortName>): seq<Metric> {
    seq(|ports|, i requires 0 <= i < |ports| =>
      Metric(SplitActions(actions, Suffix(several, ports[i])), OnMesh(ports[i].mesh)))
  }

  /** Different ports, and one mesh unless there are several. */
  ghost predicate PortsDiffer(several: bool, ports: seq<PortName>) {
    (forall i, j :: 0 <= i < j < |ports| ==> ports[i] != ports[j]) &&
    (!several ==> forall i, j :: 0 <= i < |ports| && 0 <= j < |ports| ==> ports[i].mesh == ports[j].mesh)
  }

  /** What the split metrics of the first n ports give port q. */
  lemma {:induction false} SplitPortTotal(actions: seq<Action>, several: bool, ports: seq<PortName>, rates: seq<real>, q: nat, n: nat, cat: string)
    requires |ports| == |rates| && PortsDiffer(several, ports) && q < |ports| && n <= |ports|
    ensures Total(SplitMetrics(actions, several, ports)[..n], rates[..n], cat + Suffix(several, ports[q]))
         == if q < n then Delta(actions, 1.0, rates[q], cat) else 0.0
    decreases n
  {
    hide Suffix, SplitActions, Delta;
    if n > 0 {
      SplitPortTotal(actions, several, ports, rates, q, n - 1, cat);
      TotalStep(SplitMetrics(actions, several, ports), rates, n - 1, cat + Suffix(several, ports[q]));
      SplitDelta(actions, 1.0, rates[n - 1], several, ports[n - 1], ports[q], cat);
    }
  }

  /** A category's rate, split by port. */
  function SplitRates(actions: seq<Action>, several: bool, ports: seq<PortName>, rates: seq<real>, cat: string): seq<real>
    requires |ports| == |rates|
  {
    seq(|ports|, q requires 0 <= q < |ports| => Total(SplitMetrics(actions, several, ports), rates, cat + Suffix(several, ports[q])))
  }

  lemma {:induction false} DeltasAddUp(actions: seq<Action>, ports: seq<PortName>, rates: seq<real>, deltas: seq<real>, cat: string, n: nat)
    requires |ports| == |rates| == |deltas| && n <= |ports|
    requires forall q :: 0 <= q < |deltas| ==> deltas[q] == Delta(actions, 1.0, rates[q], cat)
    ensures Sum(deltas[..n]) == Total(PortMetrics(actions, ports)[..n], rates[..n], cat)
    decreases n
  {
    hide Delta;
    if n > 0 {
      DeltasAddUp(actions, ports, rates, deltas, cat, n - 1);
      TotalStep(PortMetrics(actions, ports), rates, n - 1, cat);
      assert deltas[..n][..n - 1] == deltas[..n - 1];
    }
  }

  /** Split by port, a category's parts sum to the category measured without splitting. */
  lemma SplitAddsUp(actions: seq<Action>, several: bool, ports: seq<PortName>, rates: seq<real>, cat: string)
    requires |ports| == |rates| && PortsDiffer(several, ports)
    ensures Sum(SplitRates(actions, several, ports, rates, cat)) == Total(PortMetrics(actions, ports), rates, cat)
  {
    hide Total, Delta, Suffix, SplitActions, Sum;
    var parts := SplitRates(actions, several, ports, rates, cat);
    var n := |ports|;
    assert SplitMetrics(actions, several, ports)[..n] == SplitMetrics(actions, several, ports) && rates[..n] == rates;
    forall q | 0 <= q < n
      ensures parts[q] == Delta(actions, 1.0, rates[q], cat)
    {
      SplitPortTotal(actions, several, ports, rates, q, n, cat);
    }
    DeltasAddUp(actions, ports, rates, parts, cat, n);
    assert PortMetrics(actions, ports)[..n] == PortMetrics(actions, ports) && parts[..n] == parts;
  }
}
