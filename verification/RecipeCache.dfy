/**
 The recipe cache: a directory that holds, for each recipe, its results and a file whose name is
 the fingerprint of the results file.  A recipe is available only with a matching fingerprint.

 The class does what one process does.  The state machine below it interleaves the single
 file operations of a save or a clear with crashes, and with other programs that change or
 remove cached files.
 */
module RecipeCache {
  import opened Options

  /** One version of a file: what it holds, and what stat() says about it. */
  datatype Version = Version(content: string, mtime: nat, size: nat)

  /** The hash of modification time and size; different pairs are taken to have different hashes. */
  datatype Fingerprint = Fingerprint(mtime: nat, size: nat)

  /** What a fingerprint file holds does not matter; its name does. */
  const PRINT_FILE := Version("fingerprint", 0, 0)

  function PrintOf(v: Version): Fingerprint {
    Fingerprint(v.mtime, v.size)
  }

  /** A file name: a recipe's results, or "recipe.fingerprint". */
  datatype Name = Results(recipe: string) | Print(recipe: string, fp: Fingerprint)

  type Directory = map<Name, Version>

  predicate StartsWithDot(s: string, recipe: string) {
    |s| > |recipe| && s[..|recipe|] == recipe && s[|recipe|] == '.'
  }

  /** The names that start with "recipe.": its fingerprints, and all files of recipes whose name goes on after the dot. */
  predicate HasPrefix(n: Name, recipe: string) {
    (n.Print? && n.recipe == recipe) || StartsWithDot(n.recipe, recipe)
  }

  function Cleared(d: Directory, recipe: string): Directory {
    map n | n in d && n != Results(recipe) && !HasPrefix(n, recipe) :: d[n]
  }

  /** Two versions of a file have one fingerprint exactly if they agree in time and size. */
  lemma PrintTellsTimeAndSize(u: Version, v: Version)
    ensures PrintOf(u) == PrintOf(v) <==> u.mtime == v.mtime && u.size == v.size
  {
  }

  lemma StartsWithDotIff(s: string, recipe: string)
    ensures StartsWithDot(s, recipe) <==> exists rest: string :: s == recipe + "." + rest
  {
    if StartsWithDot(s, recipe) {
      assert s == recipe + "." + s[|recipe| + 1..];
    }
  }

  /** What clearing a recipe removes: its own files, and those of recipes named after it with a dot; nothing else. */
  lemma ClearedIff(d: Directory, recipe: string, n: Name)
    ensures n in Cleared(d, recipe) <==>
            n in d && n.recipe != recipe && !exists rest: string :: n.recipe == recipe + "." + rest
    ensures n in Cleared(d, recipe) ==> Cleared(d, recipe)[n] == d[n]
  {
    StartsWithDotIff(n.recipe, recipe);
  }

  predicate Available(d: Directory, recipe: string) {
    Results(recipe) in d && Print(recipe, PrintOf(d[Results(recipe)])) in d
  }

  // ---------------------------------------------------------------- one process

  class Cache {
    const useCache: bool
    const writeable: bool
    var dir: Directory

    constructor (useCache: bool, writeable: bool, dir: Directory)
      ensures this.useCache == useCache && this.writeable == writeable && this.dir == dir
    {
      this.useCache, this.writeable, this.dir := useCache, writeable, dir;
    }

    method ClearRecipeCache(recipe: string)
      modifies this`dir
      ensures dir == if useCache && writeable then Cleared(old(dir), recipe) else old(dir)
    {
      if !useCache || !writeable {
        return;
      }
      if Results(recipe) in dir {
        dir := dir - {Results(recipe)};
      }
      var entries := dir.Keys;
      while entries != {}
        invariant entries <= dir.Keys
        invariant forall n :: n in dir ==> n in old(dir) && dir[n] == old(dir)[n] && n != Results(recipe)
        invariant forall n :: n in old(dir) && n != Results(recipe) && !HasPrefix(n, recipe) ==> n in dir
        invariant forall n :: n in dir && HasPrefix(n, recipe) ==> n in entries
        decreases |entries|
      {
        var n :| n in entries;
        entries := entries - {n};
        if HasPrefix(n, recipe) {
          dir := dir - {n};
        }
      }
    }

    /** Save results; `written` is the version that writing them leaves in the directory. */
    method Save(recipe: string, written: Version)
      modifies this`dir
      ensures !useCache || !writeable ==> dir == old(dir)
      ensures useCache && writeable ==>
                && dir == Cleared(old(dir), recipe)[Results(recipe) := written][Print(recipe, PrintOf(written)) := PRINT_FILE]
                && Available(dir, recipe)
    {
      if !useCache || !writeable {
        return;
      }
      ClearRecipeCache(recipe);
      dir := dir[Results(recipe) := written];
      var fp := PrintOf(dir[Results(recipe)]);
      dir := dir[Print(recipe, fp) := PRINT_FILE];
    }

    /** A results file without its fingerprint is not only refused but removed. */
    method IsCacheAvailable(recipe: string) returns (available: bool)
      modifies this`dir
      ensures available <==> useCache && Available(old(dir), recipe)
      ensures dir == if useCache && writeable && Results(recipe) in old(dir) && !available then Cleared(old(dir), recipe) else old(dir)
    {
      if !useCache || Results(recipe) !in dir {
        return false;
      }
      if Print(recipe, PrintOf(dir[Results(recipe)])) !in dir {
        ClearRecipeCache(recipe);
        return false;
      }
      return true;
    }
  }

  // ---------------------------------------------------------------- crashes and other programs

  /** What the process is doing; a save goes through all of these, a clear through the first two. */
  datatype Pc =
    | Idle
    | RemoveResults(recipe: string, save: Option<Version>)
    | RemovePrints(recipe: string, save: Option<Version>)
    | Write(recipe: string, v: Version)
    | Written(recipe: string, v: Version)                         // before stat()
    | Stamp(recipe: string, v: Version, fp: Fingerprint)       // after stat()

  /** `saved` is the version that the last completed save of each recipe wrote; `known` all versions there ever were. */
  datatype State = State(dir: Directory, pc: Pc, saved: map<string, Version>, known: set<Version>)

  datatype Action =
    | StartSave(recipe: string, v: Version)
    | StartClear(recipe: string)
    | Proceed(n: Name, partial: Option<Version>)   // the file to remove, or a write cut short
    | Crash
    | Overwrite(recipe: string, v: Version)        // another program writes or restores a results file
    | Vanish(n: Name)                              // another program removes a file

  /** Versions that differ differ in modification time or size. */
  predicate Distinguishable(known: set<Version>, v: Version) {
    forall u :: u in known && PrintOf(u) == PrintOf(v) ==> u == v
  }

  predicate Can(s: State, a: Action) {
    match a
    case StartSave(_, v) => s.pc == Idle && Distinguishable(s.known, v)
    case StartClear(_) => s.pc == Idle
    case Crash => true
    case Overwrite(_, v) => Distinguishable(s.known, v)
    case Vanish(n) => true
    case Proceed(n, partial) =>
      match s.pc
      case Idle => false
      case RemovePrints(recipe, _) => (n in s.dir && HasPrefix(n, recipe)) || !exists m :: m in s.dir && HasPrefix(m, recipe)
      case Write(_, v) => Distinguishable(s.known, v) && (partial.Some? ==> Distinguishable(s.known, partial.value))
      case _ => true
  }

  function Next(s: State, a: Action): State
    requires Can(s, a)
  {
    match a
    case StartSave(recipe, v) => s.(pc := RemoveResults(recipe, Some(v)))
    case StartClear(recipe) => s.(pc := RemoveResults(recipe, None))
    case Crash => s.(pc := Idle)
    case Overwrite(recipe, v) => s.(dir := s.dir[Results(recipe) := v], known := s.known + {v})
    case Vanish(n) => s.(dir := s.dir - {n})
    case Proceed(n, partial) =>
      match s.pc
      case RemoveResults(recipe, save) => s.(dir := s.dir - {Results(recipe)}, pc := RemovePrints(recipe, save))
      case RemovePrints(recipe, save) =>
        if exists m :: m in s.dir && HasPrefix(m, recipe) then s.(dir := s.dir - {n})
        else s.(pc := if save.Some? then Write(recipe, save.value) else Idle)
      case Write(recipe, v) =>
        if partial.Some? then
          s.(dir := s.dir[Results(recipe) := partial.value], known := s.known + {partial.value})
        else
          s.(dir := s.dir[Results(recipe) := v], known := s.known + {v}, pc := Written(recipe, v))
      case Written(recipe, v) =>
        if Results(recipe) in s.dir then s.(pc := Stamp(recipe, v, PrintOf(s.dir[Results(recipe)])))
        else s.(pc := Idle)   // stat() raises
      case Stamp(recipe, v, fp) =>
        s.(dir := s.dir[Print(recipe, fp) := PRINT_FILE], pc := Idle, saved := s.saved[recipe := v])
  }

  predicate Init(s: State) {
    s.dir == map[] && s.pc == Idle && s.saved == map[] && s.known == {}
  }

  /** The one moment at which another program must keep off: between a save's write and its stat(). */
  predicate InWindow(s: State, a: Action) {
    s.pc.Written? && a.Overwrite? && a.recipe == s.pc.recipe && a.v != s.pc.v
  }

  // ---------------------------------------------------------------- the invariant

  predicate PrintsOfSaved(s: State, recipe: string) {
    forall n :: n in s.dir && n.Print? && n.recipe == recipe ==> recipe in s.saved && n.fp == PrintOf(s.saved[recipe])
  }

  predicate NoPrints(d: Directory, recipe: string) {
    forall n :: n in d && n.Print? ==> n.recipe != recipe
  }

  ghost predicate Inv(s: State) {
    && (forall recipe :: PrintsOfSaved(s, recipe))
    && (forall recipe :: Results(recipe) in s.dir ==> s.dir[Results(recipe)] in s.known)
    && (forall recipe :: recipe in s.saved ==> s.saved[recipe] in s.known)
    && (forall u, v :: u in s.known && v in s.known && PrintOf(u) == PrintOf(v) ==> u == v)
    && (match s.pc
        case Write(recipe, _) => NoPrints(s.dir, recipe)
        case Written(recipe, v) => NoPrints(s.dir, recipe) && v in s.known && (Results(recipe) in s.dir ==> s.dir[Results(recipe)] == v)
        case Stamp(recipe, v, fp) => NoPrints(s.dir, recipe) && v in s.known && fp == PrintOf(v)
        case _ => true)
  }

  lemma StepKeepsInv(s: State, a: Action)
    requires Inv(s) && Can(s, a) && !InWindow(s, a)
    ensures Inv(Next(s, a))
  {
    var t := Next(s, a);
    forall recipe
      ensures PrintsOfSaved(t, recipe)
    {
      assert PrintsOfSaved(s, recipe);
    }
  }

  ghost predicate IsRun(run: seq<State>, actions: seq<Action>) {
    |run| == |actions| + 1 && Init(run[0]) &&
    forall k :: 0 <= k < |actions| ==> Can(run[k], actions[k]) && run[k + 1] == Next(run[k], actions[k])
  }

  lemma {:induction false} RunKeepsInv(run: seq<State>, actions: seq<Action>, k: nat)
    requires IsRun(run, actions) && k < |run|
    requires forall j :: 0 <= j < k ==> !InWindow(run[j], actions[j])
    ensures Inv(run[k])
  {
    hide Inv, Can, Next, InWindow;
    if k == 0 {
      assert Inv(run[0]) by {
        InitInv(run[0]);
      }
    } else {
      RunKeepsInv(run, actions, k - 1);
      StepKeepsInv(run[k - 1], actions[k - 1]);
    }
  }

  lemma InitInv(s: State)
    requires Init(s)
    ensures Inv(s)
  {
  }

  /**
   Over any run of saves, clears, crashes and changes by other programs outside the window, a recipe
   is available only if its file is exactly what the last completed save wrote.
   */
  lemma AvailableIsLastSaved(run: seq<State>, actions: seq<Action>, k: nat, recipe: string)
    requires IsRun(run, actions) && k < |run|
    requires forall j :: 0 <= j < k ==> !InWindow(run[j], actions[j])
    ensures Available(run[k].dir, recipe) ==>
              recipe in run[k].saved && run[k].dir[Results(recipe)] == run[k].saved[recipe]
  {
    RunKeepsInv(run, actions, k);
    var s := run[k];
    if Available(s.dir, recipe) {
      assert PrintsOfSaved(s, recipe);
    }
  }

  /** Inside the window it takes one overwrite: the save then vouches for the other program's file. */
  lemma WindowIsNeeded(s: State, v: Version)
    requires Inv(s) && s.pc.Written? && Distinguishable(s.known, v)
    ensures var recipe := s.pc.recipe;
            var n := Results(recipe);
            var t := Next(Next(Next(s, Overwrite(recipe, v)), Proceed(n, None)), Proceed(n, None));
            && t.pc == Idle && Available(t.dir, recipe) && recipe in t.saved
            && (t.dir[Results(recipe)] == t.saved[recipe] <==> !InWindow(s, Overwrite(recipe, v)))
  {
  }

  /**
   From the empty cache: while a recipe is saved, another program replaces the results after they
   are written.  The cache is then available, and holds what was never saved.
   */
  lemma RunThroughWindow(recipe: string, v: Version, w: Version) returns (run: seq<State>, actions: seq<Action>)
    requires PrintOf(v) != PrintOf(w)
    ensures IsRun(run, actions) && |actions| == 7 && InWindow(run[4], actions[4])
    ensures forall k :: 0 <= k < 7 && k != 4 ==> !InWindow(run[k], actions[k])
    ensures Available(run[7].dir, recipe) && recipe in run[7].saved
    ensures run[7].saved[recipe] == v && run[7].dir[Results(recipe)] == w
  {
    var n := Results(recipe);
    var p := Proceed(n, None);
    actions := [StartSave(recipe, v), p, p, p, Overwrite(recipe, w), p, p];
    var s0 := State(map[], Idle, map[], {});
    var s1 := s0.(pc := RemoveResults(recipe, Some(v)));
    var s2 := s0.(pc := RemovePrints(recipe, Some(v)));
    var s3 := s0.(pc := Write(recipe, v));
    var s4 := State(map[n := v], Written(recipe, v), map[], {v});
    var s5 := State(map[n := w], Written(recipe, v), map[], {v, w});
    var s6 := s5.(pc := Stamp(recipe, v, PrintOf(w)));
    var s7 := State(map[n := w, Print(recipe, PrintOf(w)) := PRINT_FILE], Idle, map[recipe := v], {v, w});
    run := [s0, s1, s2, s3, s4, s5, s6, s7];
    assert Next(s1, p) == s2;
    assert Next(s4, actions[4]) == s5;
  }
}
