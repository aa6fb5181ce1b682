/**
 Sharing a monitor's two physical watchpoints per direction between any number of logical ones.
 */
module Rotation {
  import opened Arithmetic
  import opened Options
  import opened DtmRegisters

  datatype Group = Group(val: bv64, mask: bv64, grp: bv64, exclusive: bool)

  /** A watchpoint bound to a port.  `serial` stands for the object's identity. */
  datatype Bind = Bind(serial: nat, groups: seq<Group>, chn: bv64, port: bv64, format: bv64, format2: Option<bv64>,
                       cc: bool, ctrig: bool, dbgtrig: bool, tag: bool)
  {
    /** What construction guarantees: one or two groups, and a second format only with one. */
    predicate Valid() {
      1 <= |groups| <= 2 && (format2.Some? ==> |groups| == 1)
    }

    /** How many physical watchpoints are needed. */
    function NGroups(): nat {
      if |groups| == 1 && format2.Some? then 2 else |groups|
    }

    predicate CanShare() {
      NGroups() <= 1
    }

    function Gen(n: nat): Watchpoint
      requires n < |groups|
    {
      var g := groups[n];
      Watchpoint(Some(g.val), g.mask, Some(chn), Some(port), Some(g.grp), Some(format),
                 true, cc, g.exclusive, |groups| > 1 && n == 0, ctrig, dbgtrig)
    }
  }

  ghost predicate ValidList(l: seq<Bind>) {
    forall i :: 0 <= i < |l| ==> l[i].Valid()
  }

  function Next(n: nat, i: nat): nat
    requires i < n
  {
    if i + 1 == n then 0 else i + 1
  }

  /** Two different one-slot binds with the same tag setting may be programmed together. */
  predicate Share(a: Bind, b: Bind) {
    a != b && a.CanShare() && b.CanShare() && a.tag == b.tag
  }

  /** The binds that one configuration programs, from position i of the list. */
  function Step(l: seq<Bind>, i: nat): (s: seq<Bind>)
    requires i < |l|
    ensures 1 <= |s| <= 2
  {
    var j := Next(|l|, i);
    if Share(l[i], l[j]) then [l[i], l[j]] else [l[i]]
  }

  /** The position from which the next configuration goes on. */
  function After(l: seq<Bind>, i: nat): (r: nat)
    requires i < |l|
    ensures r < |l|
  {
    var j := Next(|l|, i);
    if Share(l[i], l[j]) then Next(|l|, j) else j
  }

  class WatchRotation {
    var bindList: seq<Bind>
    var index: nat

    ghost predicate Valid()
      reads this
    {
      ValidList(bindList) && (bindList == [] ==> index == 0) && (bindList != [] ==> index < |bindList|)
    }

    constructor ()
      ensures Valid() && bindList == []
    {
      bindList, index := [], 0;
    }

    predicate IsEmpty()
      reads this
    {
      bindList == []
    }

    method Append(b: Bind)
      requires Valid() && b.Valid()
      modifies this`bindList
      ensures Valid() && bindList == old(bindList) + [b]
    {
      bindList := bindList + [b];
    }

    /** The bind whose turn it is; None if there are no binds. */
    function Current(): (b: Option<Bind>)
      requires Valid()
      reads this
      ensures b.Some? ==> b.value in bindList && b.value.Valid()
    {
      if bindList == [] then None else Some(bindList[index])
    }

    method Advance()
      requires Valid() && bindList != []
      modifies this`index
      ensures Valid() && index == Next(|bindList|, old(index))
    {
      index := index + 1;
      if index == |bindList| {
        index := 0;
      }
    }
  }

  /** Two binds go together exactly if they differ, fit the two slots between them, and set tags alike. */
  lemma StepFillsSlots(l: seq<Bind>, i: nat)
    requires i < |l| && ValidList(l)
    ensures var s, j := Step(l, i), Next(|l|, i);
            && s[0] == l[i] && (|s| == 2 ==> s[1] == l[j])
            && (|s| == 2 <==> l[i] != l[j] && l[i].NGroups() + l[j].NGroups() <= 2 && l[i].tag == l[j].tag)
  {
    assert l[i].Valid() && l[Next(|l|, i)].Valid();
  }

  // ---------------------------------------------------------------- any number of configurations

  /** All binds programmed by k configurations in a row, in order. */
  function Schedule(l: seq<Bind>, i: nat, k: nat): seq<Bind>
    requires i < |l|
    decreases k
  {
    if k == 0 then [] else Step(l, i) + Schedule(l, After(l, i), k - 1)
  }

  /** The list position reached by k configurations. */
  function AfterMany(l: seq<Bind>, i: nat, k: nat): (r: nat)
    requires i < |l|
    ensures r < |l|
    decreases k
  {
    if k == 0 then i else AfterMany(l, After(l, i), k - 1)
  }

  lemma {:induction false} OneMore(l: seq<Bind>, i: nat, k: nat)
    requires i < |l|
    ensures Schedule(l, i, k + 1) == Schedule(l, i, k) + Step(l, AfterMany(l, i, k))
    ensures AfterMany(l, i, k + 1) == After(l, AfterMany(l, i, k))
    decreases k
  {
    hide Step, After;
    if k > 0 {
      OneMore(l, After(l, i), k - 1);
    }
  }

  /** Going round the list from position i: the j-th bind. */
  function Round(l: seq<Bind>, i: nat, j: nat): Bind
    requires i < |l|
  {
    l[(i + j) % |l|]
  }

  lemma RoundFromNext(l: seq<Bind>, i: nat, j: nat)
    requires i < |l|
    ensures Round(l, Next(|l|, i), j) == Round(l, i, j + 1)
  {
    if i + 1 == |l| {
      ModAddsMultiple(j, |l|);
    }
  }

  lemma RoundStarts(l: seq<Bind>, i: nat)
    requires i < |l|
    ensures Round(l, i, 0) == l[i]
  {
  }

  /** One configuration programs the next binds of the round, and moves on by as many. */
  lemma StepIsRound(l: seq<Bind>, i: nat, j: nat)
    requires i < |l|
    ensures j < |Step(l, i)| ==> Step(l, i)[j] == Round(l, i, j)
    ensures Round(l, After(l, i), j) == Round(l, i, j + |Step(l, i)|)
  {
    hide Round, Share;
    var next := Next(|l|, i);
    RoundStarts(l, i);
    RoundStarts(l, next);
    RoundFromNext(l, i, 0);
    RoundFromNext(l, i, j);
    RoundFromNext(l, i, j + 1);
    RoundFromNext(l, next, j);
  }

  /** Whatever is shared along the way, the binds come up in the list's cyclic order. */
  lemma {:induction false} ScheduleIsRoundRobin(l: seq<Bind>, i: nat, k: nat)
    requires i < |l|
    ensures k <= |Schedule(l, i, k)| <= 2 * k
    ensures forall j :: 0 <= j < |Schedule(l, i, k)| ==> Schedule(l, i, k)[j] == Round(l, i, j)
    ensures l[AfterMany(l, i, k)] == Round(l, i, |Schedule(l, i, k)|)
    decreases k
  {
    hide Round, Step, After;
    RoundStarts(l, i);
    if k > 0 {
      var s, t := Step(l, i), After(l, i);
      var rest := Schedule(l, t, k - 1);
      ScheduleIsRoundRobin(l, t, k - 1);
      StepIsRound(l, i, |rest|);
      forall j | 0 <= j < |s + rest|
        ensures (s + rest)[j] == Round(l, i, j)
      {
        if j < |s| {
          StepIsRound(l, i, j);
        } else {
          StepIsRound(l, i, j - |s|);
          assert rest[j - |s|] == Round(l, t, j - |s|);
        }
      }
    }
  }

  // ---------------------------------------------------------------- fairness

  /** One turn round the list, from position i. */
  function Turn(l: seq<Bind>, i: nat): (t: seq<Bind>)
    requires i < |l|
    ensures |t| == |l| && multiset(t) == multiset(l)
  {
    assert l == l[..i] + l[i..];
    l[i..] + l[..i]
  }

  lemma TurnIsRound(l: seq<Bind>, i: nat, j: nat)
    requires i < |l| && j < |l|
    ensures Turn(l, i)[j] == Round(l, i, j)
  {
    if i + j < |l| {
      DivModUnique(i + j, |l|, 0, i + j);
    } else {
      DivModUnique(i + j, |l|, 1, i + j - |l|);
    }
  }

  ghost predicate FollowsRound(l: seq<Bind>, i: nat, s: seq<Bind>)
    requires i < |l|
  {
    forall j :: 0 <= j < |s| ==> s[j] == Round(l, i, j)
  }

  lemma RoundRepeats(l: seq<Bind>, i: nat, j: nat)
    requires i < |l|
    ensures Round(l, i, j + |l|) == Round(l, i, j)
  {
    ModAddsMultiple(i + j, |l|);
  }

  /** What follows the round is whole turns, then the start of one. */
  lemma RoundIsTurns(l: seq<Bind>, i: nat, s: seq<Bind>)
    requires i < |l| && FollowsRound(l, i, s)
    ensures |s| < |l| ==> s == Turn(l, i)[..|s|]
    ensures |s| >= |l| ==> s == Turn(l, i) + s[|l|..] && FollowsRound(l, i, s[|l|..])
  {
    hide Round, Turn;
    forall j | 0 <= j < |s|
      ensures j < |l| ==> s[j] == Turn(l, i)[j]
      ensures j >= |l| ==> s[|l|..][j - |l|] == Round(l, i, j - |l|)
    {
      if j < |l| {
        TurnIsRound(l, i, j);
      } else {
        RoundRepeats(l, i, j - |l|);
      }
    }
  }

  /** Counted as often as listed in each of some turns, and at most that often in one more. */
  predicate InTurns(turns: nat, listed: nat, count: nat) {
    turns * listed <= count <= (turns + 1) * listed
  }

  lemma InTurnsOnce(turns: nat, m: nat, n: nat)
    requires InTurns(turns, 1, m) && InTurns(turns, 1, n)
    ensures m <= n + 1 && n <= m + 1
  {
  }

  /** A bind comes up as often as it is listed in every whole turn, and at most that often in the last, partial one. */
  lemma {:induction false} CountInRound(l: seq<Bind>, i: nat, s: seq<Bind>, b: Bind)
    requires i < |l| && FollowsRound(l, i, s)
    ensures InTurns(|s| / |l|, multiset(l)[b], multiset(s)[b])
    decreases |s|
  {
    hide Round, Turn, FollowsRound;
    RoundIsTurns(l, i, s);
    var turn := Turn(l, i);
    if |s| < |l| {
      assert turn == s + turn[|s|..];
      assert multiset(turn)[b] == multiset(s)[b] + multiset(turn[|s|..])[b];
      DivModUnique(|s|, |l|, 0, |s|);
    } else {
      CountInRound(l, i, s[|l|..], b);
      ModAddsMultiple(|s| - |l|, |l|);
      assert multiset(s)[b] == multiset(turn)[b] + multiset(s[|l|..])[b];
      OneTurnMore((|s| - |l|) / |l|, multiset(l)[b]);
    }
  }

  lemma ScheduleFollowsRound(l: seq<Bind>, i: nat, k: nat)
    requires i < |l|
    ensures FollowsRound(l, i, Schedule(l, i, k))
  {
    hide Round, Schedule, AfterMany;
    ScheduleIsRoundRobin(l, i, k);
  }

  lemma OneTurnMore(turns: nat, m: nat)
    ensures (turns + 1) * m == turns * m + m && (turns + 1 + 1) * m == (turns + 1) * m + m
  {
  }

  /**
   After any number of configurations there is a number of turns that every bind has been
   programmed in, once for each time it is listed, and none in more than one turn more.  So
   binds that are listed once are never programmed two times more often than one another.
   */
  lemma RotationIsFair(l: seq<Bind>, i: nat, k: nat, b: Bind, c: Bind) returns (turns: nat)
    requires i < |l|
    ensures turns == |Schedule(l, i, k)| / |l|
    ensures var s, m := multiset(Schedule(l, i, k)), multiset(l);
            InTurns(turns, m[b], s[b]) && InTurns(turns, m[c], s[c])
    ensures var s, m := multiset(Schedule(l, i, k)), multiset(l);
            m[b] == 1 && m[c] == 1 ==> s[b] <= s[c] + 1 && s[c] <= s[b] + 1
  {
    hide *;
    ScheduleFollowsRound(l, i, k);
    turns := |Schedule(l, i, k)| / |l|;
    CountInRound(l, i, Schedule(l, i, k), b);
    CountInRound(l, i, Schedule(l, i, k), c);
    if multiset(l)[b] == 1 && multiset(l)[c] == 1 {
      InTurnsOnce(turns, multiset(Schedule(l, i, k))[b], multiset(Schedule(l, i, k))[c]);
    }
  }

  /** As many configurations as there are binds program them all, wherever they start. */
  lemma RotationCoversAll(l: seq<Bind>, i: nat, b: Bind)
    requires i < |l| && b in l
    ensures b in Schedule(l, i, |l|)
  {
    var s := Schedule(l, i, |l|);
    ScheduleIsRoundRobin(l, i, |l|);
    CountInRound(l, i, s, b);
    AtLeastOnce(|s|, |l|);
    AtLeastAsListed(|s| / |l|, multiset(l)[b]);
    assert b in multiset(l) && b in multiset(s);
  }

  lemma AtLeastAsListed(turns: nat, m: nat)
    requires turns >= 1
    ensures turns * m >= m
  {
  }

  lemma AtLeastOnce(m: nat, n: nat)
    requires m >= n > 0
    ensures m / n >= 1
  {
    ModAddsMultiple(m - n, n);
  }

  // ---------------------------------------------------------------- when rotation is not needed

  function NGroups(l: seq<Bind>): nat {
    if l == [] then 0 else NGroups(l[..|l| - 1]) + l[|l| - 1].NGroups()
  }

  predicate NeedsRotation(l: seq<Bind>) {
    NGroups(l) > 2
  }

  ghost predicate AllEveryTime(l: seq<Bind>) {
    forall i, b :: 0 <= i < |l| && b in l ==> b in Step(l, i)
  }

  lemma {:induction false} EveryBindNeedsAGroup(l: seq<Bind>)
    requires ValidList(l)
    ensures NGroups(l) >= |l|
  {
    if l != [] {
      EveryBindNeedsAGroup(l[..|l| - 1]);
    }
  }

  /**
   The warning about rotation counts slots only.  Without it every bind is still programmed
   by every configuration exactly when the tag settings agree.
   */
  lemma NoRotationIffSameTags(l: seq<Bind>)
    requires ValidList(l) && !NeedsRotation(l)
    ensures AllEveryTime(l) <==> forall i, j :: 0 <= i < |l| && 0 <= j < |l| ==> l[i].tag == l[j].tag
  {
    EveryBindNeedsAGroup(l);
    if |l| == 2 {
      assert l[..1][..0] == [];
      assert l[0].CanShare() && l[1].CanShare();
      assert l[0] in l && l[1] in l;
      if l[0].tag != l[1].tag {
        assert l[1] !in Step(l, 0);
      }
    }
  }
}
