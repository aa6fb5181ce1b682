/**
 The checkpoint of CPU discovery: a log to which every discovery is appended, and its replay
 when discovery is started again.
 */
module Progress {
  import opened Options

  /** The system description and the discovery method that a run is for. */
  datatype Key = Key(json: string, method_: string)

  datatype Port = Port(mesh: int, xp: int, number: int)

  /** A line of the log; Ignored is blank, too short or of a kind that is not known. */
  datatype Record = Meta(key: Key) | Rnf(cpu: int, port: Port) | Lpid(cpu: int, lpid: int) | Srcid(cpu: int, id: int) | Ignored

  datatype Maps = Maps(rnf: map<int, Port>, lpid: map<int, int>, srcid: map<int, int>)

  const NOTHING := Maps(map[], map[], map[])

  function Put(m: Maps, r: Record): Maps {
    match r
    case Rnf(cpu, port) => m.(rnf := m.rnf[cpu := port])
    case Lpid(cpu, lpid) => m.(lpid := m.lpid[cpu := lpid])
    case Srcid(cpu, id) => m.(srcid := m.srcid[cpu := id])
    case _ => m
  }

  // ---------------------------------------------------------------- replay

  /** While reading: is the section for this run's key, and what is in the maps? */
  datatype Reading = Reading(current: bool, maps: Maps)

  function ReadLine(key: Key, r: Reading, line: Record): Reading {
    match line
    case Meta(k) => if k == key then Reading(true, NOTHING) else Reading(false, r.maps)
    case _ => if r.current then Reading(true, Put(r.maps, line)) else r
  }

  function Replay(key: Key, log: seq<Record>): Reading {
    if log == [] then Reading(false, NOTHING)
    else ReadLine(key, Replay(key, log[..|log| - 1]), log[|log| - 1])
  }

  // ---------------------------------------------------------------- the last write wins

  datatype Value = IsPort(port: Port) | IsNumber(n: int)

  datatype Kind = RNF | LPID | SRCID

  function Lookup(m: Maps, kind: Kind, cpu: int): Option<Value> {
    match kind
    case RNF => if cpu in m.rnf then Some(IsPort(m.rnf[cpu])) else None
    case LPID => if cpu in m.lpid then Some(IsNumber(m.lpid[cpu])) else None
    case SRCID => if cpu in m.srcid then Some(IsNumber(m.srcid[cpu])) else None
  }

  /** What a record says of a CPU, if it is of the kind and for the CPU. */
  function Says(r: Record, kind: Kind, cpu: int): Option<Value> {
    match r
    case Rnf(c, port) => if kind == RNF && c == cpu then Some(IsPort(port)) else None
    case Lpid(c, lpid) => if kind == LPID && c == cpu then Some(IsNumber(lpid)) else None
    case Srcid(c, id) => if kind == SRCID && c == cpu then Some(IsNumber(id)) else None
    case _ => None
  }

  ghost predicate IsLastMeta(log: seq<Record>, m: int) {
    0 <= m < |log| && log[m].Meta? && forall j :: m < j < |log| ==> !log[j].Meta?
  }

  /** Record i is the last after m that says something of a kind about a CPU. */
  ghost predicate IsLastWord(log: seq<Record>, m: int, kind: Kind, cpu: int, i: int) {
    0 <= m < i < |log| && Says(log[i], kind, cpu).Some? && forall j :: i < j < |log| ==> Says(log[j], kind, cpu) == None
  }

  lemma PutLookup(m: Maps, r: Record, kind: Kind, cpu: int)
    ensures Lookup(Put(m, r), kind, cpu) == if Says(r, kind, cpu).Some? then Says(r, kind, cpu) else Lookup(m, kind, cpu)
  {
  }

  /** A log is for the key exactly if its last meta line is. */
  lemma {:induction false} CurrentIffLastMetaMatches(key: Key, log: seq<Record>)
    ensures Replay(key, log).current <==> exists m :: IsLastMeta(log, m) && log[m].key == key
  {
    if log != [] {
      var before := log[..|log| - 1];
      var last := |log| - 1;
      CurrentIffLastMetaMatches(key, before);
      hide Replay;
      assert Replay(key, log) == ReadLine(key, Replay(key, before), log[last]) by {
        ReplayStep(key, log);
      }
      if log[last].Meta? {
        assert IsLastMeta(log, last);
      } else {
        assert forall m :: IsLastMeta(log, m) <==> IsLastMeta(before, m);
      }
    }
  }

  lemma ReplayStep(key: Key, log: seq<Record>)
    requires log != []
    ensures Replay(key, log) == ReadLine(key, Replay(key, log[..|log| - 1]), log[|log| - 1])
  {
  }

  /**
   If the last meta line matches, the maps hold, of each kind and for each CPU, what the last
   record after that line says, and nothing that no record after it says.
   */
  lemma {:induction false} ReplayIsLastWrite(key: Key, log: seq<Record>, m: int, kind: Kind, cpu: int)
    requires IsLastMeta(log, m) && log[m].key == key
    ensures Replay(key, log).current
    ensures forall i :: IsLastWord(log, m, kind, cpu, i) ==> Lookup(Replay(key, log).maps, kind, cpu) == Says(log[i], kind, cpu)
    ensures (forall i :: m < i < |log| ==> Says(log[i], kind, cpu) == None) ==> Lookup(Replay(key, log).maps, kind, cpu) == None
  {
    var before, last := log[..|log| - 1], |log| - 1;
    ReplayStep(key, log);
    hide Replay, Lookup, Says, Put, IsLastWord;
    if m == last {
      NothingSaid(kind, cpu);
      forall i
        ensures !IsLastWord(log, m, kind, cpu, i)
      {
        LastWordIsAfter(log, m, kind, cpu, i);
      }
    } else {
      assert IsLastMeta(before, m) && !log[last].Meta?;
      ReplayIsLastWrite(key, before, m, kind, cpu);
      PutLookup(Replay(key, before).maps, log[last], kind, cpu);
      forall i | IsLastWord(log, m, kind, cpu, i)
        ensures Lookup(Replay(key, log).maps, kind, cpu) == Says(log[i], kind, cpu)
      {
        LastWordBefore(log, m, kind, cpu, i);
      }
      if forall i :: m < i < |log| ==> Says(log[i], kind, cpu) == None {
        assert forall i :: m < i < |before| ==> Says(before[i], kind, cpu) == Says(log[i], kind, cpu);
      }
    }
  }

  lemma LastWordIsAfter(log: seq<Record>, m: int, kind: Kind, cpu: int, i: int)
    ensures IsLastWord(log, m, kind, cpu, i) ==> m < i < |log|
  {
  }

  /** The last word of a log is its last record, or the last word without that record, which says nothing. */
  lemma LastWordBefore(log: seq<Record>, m: int, kind: Kind, cpu: int, i: int)
    requires IsLastWord(log, m, kind, cpu, i)
    ensures Says(log[i], kind, cpu).Some?
    ensures i < |log| - 1 ==> Says(log[|log| - 1], kind, cpu) == None && IsLastWord(log[..|log| - 1], m, kind, cpu, i)
  {
    hide Says;
  }

  // ---------------------------------------------------------------- what an older run leaves behind

  predicate IsDiscovery(r: Record) {
    r.Rnf? || r.Lpid? || r.Srcid?
  }

  /** Discovery j was recorded in the key's last section, which starts at line m. */
  ghost predicate InLastSection(key: Key, log: seq<Record>, m: int, j: int) {
    0 <= m < j < |log| && log[m] == Meta(key) && IsDiscovery(log[j]) &&
    (forall i :: m < i < |log| ==> log[i] != Meta(key)) &&
    forall i :: m < i < j ==> !log[i].Meta?
  }

  /** The key's last section in the log, wherever it is, has a discovery. */
  ghost predicate LeavesOver(key: Key, log: seq<Record>) {
    exists m, j :: InLastSection(key, log, m, j)
  }

  /** A last line that is neither the key's meta line nor a discovery in its section changes nothing. */
  lemma LeftBefore(key: Key, log: seq<Record>)
    requires log != [] && log[|log| - 1] != Meta(key)
    requires IsDiscovery(log[|log| - 1]) ==> !Replay(key, log[..|log| - 1]).current
    ensures LeavesOver(key, log) <==> LeavesOver(key, log[..|log| - 1])
  {
    CurrentIffLastMetaMatches(key, log[..|log| - 1]);
    hide Replay;
    LeftStays(key, log);
    LeftWasThere(key, log);
  }

  lemma LeftStays(key: Key, log: seq<Record>)
    requires log != [] && log[|log| - 1] != Meta(key)
    ensures LeavesOver(key, log[..|log| - 1]) ==> LeavesOver(key, log)
  {
    var before := log[..|log| - 1];
    if LeavesOver(key, before) {
      var m, j :| InLastSection(key, before, m, j);
      assert InLastSection(key, log, m, j);
    }
  }

  lemma LeftWasThere(key: Key, log: seq<Record>)
    requires log != [] && var before := log[..|log| - 1];
             IsDiscovery(log[|log| - 1]) ==> !exists m :: IsLastMeta(before, m) && before[m].key == key
    ensures LeavesOver(key, log) ==> LeavesOver(key, log[..|log| - 1])
  {
    var before, last := log[..|log| - 1], |log| - 1;
    if LeavesOver(key, log) {
      var m, j :| InLastSection(key, log, m, j);
      assert j == last ==> IsLastMeta(before, m);
      assert InLastSection(key, before, m, j);
    }
  }

  lemma LeftInCurrent(key: Key, log: seq<Record>)
    requires log != [] && IsDiscovery(log[|log| - 1]) && Replay(key, log[..|log| - 1]).current
    ensures LeavesOver(key, log)
  {
    var before, last := log[..|log| - 1], |log| - 1;
    CurrentIffLastMetaMatches(key, before);
    hide Replay;
    var m :| IsLastMeta(before, m) && before[m].key == key;
    assert InLastSection(key, log, m, last);
  }

  lemma PutIsSomething(m: Maps, r: Record)
    requires IsDiscovery(r)
    ensures Put(m, r) != NOTHING
  {
    match r
    case Rnf(cpu, _) => assert cpu in Put(m, r).rnf;
    case Lpid(cpu, _) => assert cpu in Put(m, r).lpid;
    case Srcid(cpu, _) => assert cpu in Put(m, r).srcid;
  }

  /** The maps come out of the log empty exactly if the key's last section has no discovery. */
  lemma {:induction false} NothingLeftIff(key: Key, log: seq<Record>)
    ensures Replay(key, log).maps == NOTHING <==> !LeavesOver(key, log)
  {
    if log != [] {
      var before, line := log[..|log| - 1], log[|log| - 1];
      ReplayStep(key, log);
      NothingLeftIff(key, before);
      if IsDiscovery(line) && Replay(key, before).current {
        LeftInCurrent(key, log);
        PutIsSomething(Replay(key, before).maps, line);
      } else if line != Meta(key) {
        LeftBefore(key, log);
      } else {
        hide Replay;
      }
    }
  }

  lemma NothingSaid(kind: Kind, cpu: int)
    ensures Lookup(NOTHING, kind, cpu) == None
  {
  }

  // ---------------------------------------------------------------- the progress object

  /** The checkpoint file. */
  class Log {
    var lines: Option<seq<Record>>

    constructor ()
      ensures lines == None
    {
      lines := None;
    }

    method Append(r: Record)
      modifies this
      ensures lines == Some((if old(lines).Some? then old(lines).value else []) + [r])
    {
      lines := Some((if lines.Some? then lines.value else []) + [r]);
    }
  }

  class DetectProgress {
    const log: Log
    const key: Key
    var rnf: map<int, Port>
    var lpid: map<int, int>
    var srcid: map<int, int>
    var haveMatchingRun: bool

    function Known(): Maps
      reads this
    {
      Maps(rnf, lpid, srcid)
    }

    constructor (log: Log, key: Key)
      ensures this.log == log && this.key == key && Known() == NOTHING && !haveMatchingRun
    {
      this.log, this.key := log, key;
      rnf, lpid, srcid, haveMatchingRun := map[], map[], map[], false;
    }

    /** Read the log; the result tells whether this run continues the one that wrote it. */
    method Load() returns (resume: bool)
      modifies this
      ensures log.lines == None ==> !resume && Known() == old(Known()) && haveMatchingRun == old(haveMatchingRun)
      ensures log.lines.Some? ==>
                Reading(resume, Known()) == Replay(key, log.lines.value) && haveMatchingRun == resume
    {
      if log.lines == None {
        return false;
      }
      var lines := log.lines.value;
      resume := false;
      rnf, lpid, srcid := map[], map[], map[];
      for i := 0 to |lines|
        invariant Reading(resume, Known()) == Replay(key, lines[..i])
        invariant log.lines == Some(lines)
      {
        assert lines[..i + 1][..i] == lines[..i];
        match lines[i] {
          case Meta(k) =>
            resume := k == key;
            if resume {
              rnf, lpid, srcid := map[], map[], map[];
            }
          case Rnf(cpu, port) =>
            if resume {
              rnf := rnf[cpu := port];
            }
          case Lpid(cpu, n) =>
            if resume {
              lpid := lpid[cpu := n];
            }
          case Srcid(cpu, id) =>
            if resume {
              srcid := srcid[cpu := id];
            }
          case Ignored =>
        }
      }
      assert lines[..|lines|] == lines;
      haveMatchingRun := resume;
    }

    method Begin(resume: bool)
      modifies log
      ensures log.lines == if resume then old(log.lines) else Some(Written(old(log.lines)) + [Meta(key)])
    {
      if resume {
        return;
      }
      log.Append(Meta(key));
    }

    method RecordRnf(cpu: int, port: Port)
      modifies this, log
      ensures Known() == Put(old(Known()), Rnf(cpu, port))
      ensures log.lines == Some(Written(old(log.lines)) + [Rnf(cpu, port)])
    {
      rnf := rnf[cpu := port];
      log.Append(Rnf(cpu, port));
    }

    method RecordLpid(cpu: int, n: int)
      modifies this, log
      ensures Known() == Put(old(Known()), Lpid(cpu, n))
      ensures log.lines == Some(Written(old(log.lines)) + [Lpid(cpu, n)])
    {
      lpid := lpid[cpu := n];
      log.Append(Lpid(cpu, n));
    }

    method RecordSrcid(cpu: int, id: int)
      modifies this, log
      ensures Known() == Put(old(Known()), Srcid(cpu, id))
      ensures log.lines == Some(Written(old(log.lines)) + [Srcid(cpu, id)])
    {
      srcid := srcid[cpu := id];
      log.Append(Srcid(cpu, id));
    }
  }

  function Written(lines: Option<seq<Record>>): seq<Record> {
    if lines.Some? then lines.value else []
  }

  // ---------------------------------------------------------------- runs that crash and are started again

  /**
   A process: its key, the maps it holds, and what it knows, which is what it took over from
   the log and has discovered since.
   */
  datatype Process = Process(key: Key, maps: Maps, known: Maps)

  datatype World = World(disk: Option<seq<Record>>, process: Option<Process>)

  /** Crash is the end of a process at any moment; a file from before the last boot is removed. */
  datatype Event =
    | Start(key: Key, useCheckpoint: bool, stale: bool)
    | Discover(r: Record)
    | Switch(method_: string)
    | Crash
    | Complete

  function Started(disk: Option<seq<Record>>, key: Key, useCheckpoint: bool, stale: bool): World {
    if !useCheckpoint then World(Some(Written(disk) + [Meta(key)]), Some(Process(key, NOTHING, NOTHING)))
    else if stale && disk.Some? then World(Some([Meta(key)]), Some(Process(key, NOTHING, NOTHING)))
    else
      var r := if disk.Some? then Replay(key, disk.value) else Reading(false, NOTHING);
      if r.current then World(disk, Some(Process(key, r.maps, r.maps)))
      else World(Some(Written(disk) + [Meta(key)]), Some(Process(key, r.maps, NOTHING)))
  }

  function Step(w: World, e: Event): World {
    match e
    case Start(key, use, stale) => Started(w.disk, key, use, stale)
    case Discover(r) =>
      if w.process.Some? && IsDiscovery(r) then
        var p := w.process.value;
        World(Some(Written(w.disk) + [r]), Some(p.(maps := Put(p.maps, r), known := Put(p.known, r))))
      else w
    case Switch(m) =>
      if w.process.Some? then
        var key := Key(w.process.value.key.json, m);
        World(Some(Written(w.disk) + [Meta(key)]), Some(Process(key, NOTHING, NOTHING)))
      else w
    case Crash => World(w.disk, None)
    case Complete => if w.process.Some? then World(None, None) else w
  }

  function Run(w: World, events: seq<Event>): World {
    if events == [] then w else Step(Run(w, events[..|events| - 1]), events[|events| - 1])
  }

  /** The log always holds exactly what the live process knows. */
  ghost predicate Inv(w: World) {
    w.process.Some? ==>
      w.disk.Some? && Replay(w.process.value.key, w.disk.value) == Reading(true, w.process.value.known)
  }

  lemma AppendReplays(key: Key, log: seq<Record>, r: Record)
    ensures Replay(key, log + [r]) == ReadLine(key, Replay(key, log), r)
  {
    assert (log + [r])[..|log + [r]| - 1] == log;
  }

  lemma StepKeepsInv(w: World, e: Event)
    requires Inv(w)
    ensures Inv(Step(w, e))
  {
    hide Replay, Put;
    match e
    case Start(key, use, stale) =>
      AppendReplays(key, Written(w.disk), Meta(key));
      AppendReplays(key, [], Meta(key));
      assert [] + [Meta(key)] == [Meta(key)];
    case Discover(r) =>
      if w.process.Some? {
        AppendReplays(w.process.value.key, Written(w.disk), r);
      }
    case Switch(m) =>
      if w.process.Some? {
        var key := Key(w.process.value.key.json, m);
        AppendReplays(key, Written(w.disk), Meta(key));
      }
    case Crash =>
    case Complete =>
  }

  lemma {:induction false} RunKeepsInv(w: World, events: seq<Event>)
    requires Inv(w)
    ensures Inv(Run(w, events))
  {
    if events != [] {
      RunKeepsInv(w, events[..|events| - 1]);
      StepKeepsInv(Run(w, events[..|events| - 1]), events[|events| - 1]);
    }
  }

  /**
   Whatever runs, methods and crashes came before, a process that crashes is restored: the
   next start with its key takes up exactly what it knew, and writes nothing to the log.
   */
  lemma {:induction false} CrashedRunIsRestored(disk: Option<seq<Record>>, events: seq<Event>)
    ensures var w := Run(World(disk, None), events);
            w.process.Some? ==>
              var p := w.process.value;
              Step(Step(w, Crash), Start(p.key, true, false)) == World(w.disk, Some(Process(p.key, p.known, p.known)))
  {
    RunKeepsInv(World(disk, None), events);
    hide Replay, Run, Put;
  }

  /**
   The maps in the object are what the process knows exactly if it did not load, or found no
   log, or the log's last section is its own, or its key's last section holds no discovery:
   the maps of such a section are not cleared when the load reports no match.
   */
  lemma StartedInSyncIff(disk: Option<seq<Record>>, key: Key, useCheckpoint: bool, stale: bool)
    ensures var p := Started(disk, key, useCheckpoint, stale).process.value;
            p.maps == p.known <==>
            !useCheckpoint || stale || disk == None ||
            (exists m :: IsLastMeta(disk.value, m) && disk.value[m].key == key) || !LeavesOver(key, disk.value)
  {
    if disk.Some? {
      CurrentIffLastMetaMatches(key, disk.value);
      NothingLeftIff(key, disk.value);
    }
    hide Replay, LeavesOver, IsLastMeta;
  }

  lemma RunAppends(w: World, events: seq<Event>, e: Event)
    ensures Run(w, events + [e]) == Step(Run(w, events), e)
  {
    assert (events + [e])[..|events + [e]| - 1] == events;
  }

  /** A completed run leaves nothing to resume: whoever starts next, with whatever options, starts afresh. */
  lemma CompletedIsForgotten(disk: Option<seq<Record>>, events: seq<Event>, key: Key, useCheckpoint: bool, stale: bool)
    requires Run(World(disk, None), events).process.Some?
    ensures Step(Step(Run(World(disk, None), events), Complete), Start(key, useCheckpoint, stale))
         == World(Some([Meta(key)]), Some(Process(key, NOTHING, NOTHING)))
  {
    hide Run, Replay;
    assert [] + [Meta(key)] == [Meta(key)];
  }

  /** Nor is a log from before the last boot resumed, or one that is not asked for. */
  lemma StaleIsForgotten(disk: Option<seq<Record>>, key: Key, useCheckpoint: bool, stale: bool)
    requires stale || !useCheckpoint
    ensures Started(disk, key, useCheckpoint, stale).process == Some(Process(key, NOTHING, NOTHING))
  {
  }

  /** Such maps exist: a run for one key, then one for another, then the first again. */
  lemma StaleMapsRemain(a: Key, b: Key, port: Port)
    requires a != b
    ensures var w := Run(World(None, None), [Start(a, true, false)] + [Discover(Rnf(0, port))] + [Crash] + [Start(b, true, false)] + [Crash]);
            var p := Step(w, Start(a, true, false)).process.value;
            p.known == NOTHING && p.maps == Maps(map[0 := port], map[], map[])
  {
    var w := World(None, None);
    var e1 := [Start(a, true, false)];
    var e2 := e1 + [Discover(Rnf(0, port))];
    var e3 := e2 + [Crash];
    var e4 := e3 + [Start(b, true, false)];
    RunAppends(w, [], Start(a, true, false));
    assert [] + e1 == e1;
    RunAppends(w, e1, Discover(Rnf(0, port)));
    RunAppends(w, e2, Crash);
    RunAppends(w, e3, Start(b, true, false));
    RunAppends(w, e4, Crash);
    var first := [Meta(a)];
    assert [] + first == first;
    ReplayAfterFirst(a, a, b, port);
    ReplayAfterFirst(b, a, b, port);
    assert Run(w, []) == w;
    hide Run, Replay;
    assert Run(w, e1).disk == Some(first);
    assert Run(w, e2).disk == Some(first + [Rnf(0, port)]);
    assert Run(w, e4).disk == Some(first + [Rnf(0, port)] + [Meta(b)]);
  }

  lemma ReplayAfterFirst(k: Key, a: Key, b: Key, port: Port)
    ensures var found := Replay(k, [Meta(a)] + [Rnf(0, port)]);
            found == (if k == a then Reading(true, Maps(map[0 := port], map[], map[])) else Reading(false, NOTHING)) &&
            Replay(k, [Meta(a)] + [Rnf(0, port)] + [Meta(b)])
            == if k == b then Reading(true, NOTHING) else Reading(false, found.maps)
  {
    AppendReplays(k, [], Meta(a));
    assert [] + [Meta(a)] == [Meta(a)];
    AppendReplays(k, [Meta(a)], Rnf(0, port));
    AppendReplays(k, [Meta(a)] + [Rnf(0, port)], Meta(b));
  }
}
