/**
 The list of perf events that the benchmark driver (Python) prints into an environment
 variable and the instrumentation library (C) parses.
 */
module PerfEvents {
  import opened Options

  const MAX_EVENTS := 7

  // ---------------------------------------------------------------- printing

  function HexDigits(n: nat): (s: string)
    ensures |s| > 0
  {
    if n < 16 then ["0123456789abcdef"[n]] else HexDigits(n / 16) + ["0123456789abcdef"[n % 16]]
  }

  /** Python's hex(). */
  function Hex(n: nat): string {
    "0x" + HexDigits(n)
  }

  function Join(ids: seq<nat>): string {
    if ids == [] then ""
    else if |ids| == 1 then Hex(ids[0])
    else Hex(ids[0]) + "," + Join(ids[1..])
  }

  /** The first occurrence of each name, in order. */
  function Unique(names: seq<string>): seq<string> {
    if names == [] then []
    else
      var u := Unique(names[..|names| - 1]);
      if names[|names| - 1] in u then u else u + [names[|names| - 1]]
  }

  datatype SetupError = TooManyEvents | UnknownEvent

  /** The ids of some names. */
  function Ids(names: seq<string>, table: map<string, nat>): seq<nat>
    requires forall n :: n in names ==> n in table
  {
    seq(|names|, i requires 0 <= i < |names| => table[names[i]])
  }

  /** The value of the environment variable for a list of event names, given the table of event ids. */
  function EventList(names: seq<string>, table: map<string, nat>): Result<string, SetupError> {
    var u := Unique(names);
    if |u| > MAX_EVENTS then Err(TooManyEvents)
    else if exists n :: n in u && n !in table then Err(UnknownEvent)
    else Ok(Join(Ids(u, table)))
  }

  // ---------------------------------------------------------------- strtoull, base 16

  predicate IsSpace(c: char) {
    c == ' ' || '\t' <= c <= '\r'
  }

  predicate IsHex(c: char) {
    '0' <= c <= '9' || 'a' <= c <= 'f' || 'A' <= c <= 'F'
  }

  function DigitOf(c: char): (d: nat)
    requires IsHex(c)
    ensures d < 16
  {
    if '0' <= c <= '9' then c as int - '0' as int
    else if 'a' <= c <= 'f' then c as int - 'a' as int + 10
    else c as int - 'A' as int + 10
  }

  function Spaces(t: string): (n: nat)
    ensures n <= |t|
  {
    if t == "" || !IsSpace(t[0]) then 0 else 1 + Spaces(t[1..])
  }

  /** How many characters from the start are hexadecimal digits. */
  function HexLen(t: string): (n: nat)
    ensures n <= |t|
    ensures forall i :: 0 <= i < n ==> IsHex(t[i])
  {
    if t == "" || !IsHex(t[0]) then 0 else 1 + HexLen(t[1..])
  }

  function HexValue(t: string): nat
    requires forall i :: 0 <= i < |t| ==> IsHex(t[i])
  {
    if t == "" then 0 else 16 * HexValue(t[..|t| - 1]) + DigitOf(t[|t| - 1])
  }

  /** What a conversion returns: the value, how much it consumed, and whether the value was out of range. */
  datatype Scan = Scan(value: nat, used: nat, outOfRange: bool)

  const TWO_64: nat := 0x1_0000_0000_0000_0000

  function Strtoull(t: string): (r: Scan)
    ensures r.used <= |t|
  {
    var i := Spaces(t);
    var negative := i < |t| && t[i] == '-';
    var j := if i < |t| && (t[i] == '-' || t[i] == '+') then i + 1 else i;
    var k := if j + 2 < |t| && t[j] == '0' && (t[j + 1] == 'x' || t[j + 1] == 'X') && IsHex(t[j + 2]) then j + 2 else j;
    var n := HexLen(t[k..]);
    if n == 0 then Scan(0, 0, false)
    else
      assert forall m :: 0 <= m < n ==> t[k..][..n][m] == t[k..][m];
      var v := HexValue(t[k..][..n]);
      if v >= TWO_64 then Scan(TWO_64 - 1, k + n, true)
      else Scan(if negative && v > 0 then TWO_64 - v else v, k + n, false)
  }

  // ---------------------------------------------------------------- parsing

  datatype Code = Success | OutOfRange | Invalid | TooBig

  /** The result of parsing: a code, and the events stored so far. */
  datatype Parsed = Parsed(code: Code, events: seq<nat>)

  /** The character that ends a C string is read where the string ends. */
  function CharAt(s: string, i: nat): char {
    if i < |s| then s[i] else '\0'
  }

  function ParseFrom(s: string, start: nat, events: seq<nat>): (p: Parsed)
    requires start <= |s| && |events| <= MAX_EVENTS
    ensures |p.events| <= MAX_EVENTS
    decreases |s| - start
  {
    var r := Strtoull(s[start..]);
    var end := start + r.used;
    if r.outOfRange || r.value > 0xFFFF then Parsed(OutOfRange, events)
    else if r.used == 0 || r.value == 0 then Parsed(Invalid, events)
    else if |events| == MAX_EVENTS then Parsed(TooBig, events)
    else
      var more := events + [r.value];
      if CharAt(s, end) == ',' then ParseFrom(s, end + 1, more)
      else Parsed(if CharAt(s, end) == '\0' then Success else Invalid, more)
  }

  /** The C loop.  The array is the fixed-size list of the context; only its first seven places are ever written. */
  method ParseEventList(s: string, evlist: array<nat>) returns (code: Code, nEvents: nat)
    requires evlist.Length == MAX_EVENTS
    modifies evlist
    ensures var p := ParseFrom(s, 0, []);
            && code == p.code
            && evlist[..|p.events|] == p.events
            && nEvents == if code == TooBig then MAX_EVENTS + 1 else |p.events|
  {
    hide Strtoull;
    var start := 0;
    nEvents := 0;
    while true
      invariant start <= |s| && nEvents <= MAX_EVENTS
      invariant ParseFrom(s, start, evlist[..nEvents]) == ParseFrom(s, 0, [])
      decreases |s| - start
    {
      var r := Strtoull(s[start..]);
      var end := start + r.used;
      if r.outOfRange || r.value > 0xFFFF {
        return OutOfRange, nEvents;
      }
      if r.used == 0 || r.value == 0 {
        return Invalid, nEvents;
      }
      nEvents := nEvents + 1;
      if nEvents > MAX_EVENTS {
        return TooBig, nEvents;
      }
      ghost var before := evlist[..nEvents - 1];
      evlist[nEvents - 1] := r.value;
      assert evlist[..nEvents] == before + [r.value];
      if CharAt(s, end) == ',' {
        start := end + 1;
      } else if CharAt(s, end) == '\0' {
        return Success, nEvents;
      } else {
        return Invalid, nEvents;
      }
    }
  }

  /** Whatever the string, an accepted list has one to seven nonzero 16-bit events. */
  lemma {:induction false} AcceptedIsInRange(s: string, start: nat, events: seq<nat>)
    requires start <= |s| && |events| <= MAX_EVENTS
    requires forall i :: 0 <= i < |events| ==> 0 < events[i] <= 0xFFFF
    ensures var p := ParseFrom(s, start, events);
            && events <= p.events && |p.events| <= MAX_EVENTS
            && (forall i :: 0 <= i < |p.events| ==> 0 < p.events[i] <= 0xFFFF)
            && (p.code == Success ==> |p.events| > |events|)
    decreases |s| - start
  {
    hide Strtoull;
    var r := Strtoull(s[start..]);
    var end := start + r.used;
    if !r.outOfRange && 0 < r.value <= 0xFFFF && r.used > 0 && |events| < MAX_EVENTS && CharAt(s, end) == ',' {
      AcceptedIsInRange(s, end + 1, events + [r.value]);
    }
  }

  // ---------------------------------------------------------------- printing, then parsing

  lemma {:induction false} DigitsAreHex(n: nat)
    ensures forall i :: 0 <= i < |HexDigits(n)| ==> IsHex(HexDigits(n)[i])
    ensures HexValue(HexDigits(n)) == n
  {
    DigitChar(n % 16);
    if n >= 16 {
      DigitsAreHex(n / 16);
      var s := HexDigits(n);
      assert s[..|s| - 1] == HexDigits(n / 16);
    } else {
      assert HexDigits(n)[..0] == "";
    }
  }

  lemma DigitChar(d: nat)
    requires d < 16
    ensures IsHex("0123456789abcdef"[d]) && DigitOf("0123456789abcdef"[d]) == d
  {
  }

  lemma {:induction false} HexLenStops(a: string, b: string)
    requires forall i :: 0 <= i < |a| ==> IsHex(a[i])
    requires b == "" || !IsHex(b[0])
    ensures HexLen(a + b) == |a|
  {
    if a == "" {
      assert a + b == b;
    } else {
      HexLenStops(a[1..], b);
      assert (a + b)[1..] == a[1..] + b;
    }
  }

  /** A printed id converts back to itself, up to the comma or the end of the string. */
  lemma StrtoullOfHex(n: nat, rest: string)
    requires n < TWO_64 && (rest == "" || rest[0] == ',')
    ensures Strtoull(Hex(n) + rest) == Scan(n, |Hex(n)|, false)
  {
    var t, d := Hex(n) + rest, HexDigits(n);
    DigitsAreHex(n);
    HexLenStops(d, rest);
    assert t[0] == '0' && t[1] == 'x' && t[2] == d[0];
    assert t[2..] == d + rest;
    assert (d + rest)[..|d|] == d;
    hide HexDigits, HexLen, HexValue, Hex;
    StrtoullPrefixed(t, |d|);
  }

  /** A string that starts with 0x and digits converts as those digits. */
  lemma StrtoullPrefixed(t: string, n: nat)
    requires |t| > 2 && t[0] == '0' && t[1] == 'x' && IsHex(t[2]) && HexLen(t[2..]) == n && n > 0
    requires HexValue(t[2..][..n]) < TWO_64
    ensures Strtoull(t) == Scan(HexValue(t[2..][..n]), 2 + n, false)
  {
    hide HexLen, HexValue, IsHex;
    assert Spaces(t) == 0;
  }

  /** A number of more than 64 bits is out of range. */
  lemma StrtoullOfWide(n: nat, rest: string)
    requires n >= TWO_64 && (rest == "" || rest[0] == ',')
    ensures Strtoull(Hex(n) + rest).outOfRange
  {
    var t, d := Hex(n) + rest, HexDigits(n);
    DigitsAreHex(n);
    HexLenStops(d, rest);
    assert t[0] == '0' && t[1] == 'x' && t[2] == d[0];
    assert t[2..] == d + rest;
    assert (d + rest)[..|d|] == d;
    hide HexDigits, HexLen, HexValue, Hex, IsHex;
    assert Spaces(t) == 0;
  }

  lemma ParseOne(s: string, start: nat, events: seq<nat>, n: nat, rest: string)
    requires start <= |s| && |events| < MAX_EVENTS && 0 < n <= 0xFFFF
    requires s[start..] == Hex(n) + rest && (rest == "" || rest[0] == ',')
    ensures var end := start + |Hex(n)|;
            ParseFrom(s, start, events)
            == if rest == "" then Parsed(Success, events + [n]) else ParseFrom(s, end + 1, events + [n])
  {
    hide Strtoull, HexDigits;
    StrtoullOfHex(n, rest);
    var end := start + |Hex(n)|;
    assert rest != "" ==> s[end] == s[start..][|Hex(n)|] == rest[0];
  }

  lemma {:induction false} ParsePrinted(pre: string, ids: seq<nat>, events: seq<nat>)
    requires 0 < |ids| && |events| + |ids| <= MAX_EVENTS
    requires forall i :: 0 <= i < |ids| ==> 0 < ids[i] <= 0xFFFF
    ensures ParseFrom(pre + Join(ids), |pre|, events) == Parsed(Success, events + ids)
    decreases |ids|
  {
    hide ParseFrom, Hex;
    var s := pre + Join(ids);
    var hex := Hex(ids[0]);
    var rest := if |ids| == 1 then "" else "," + Join(ids[1..]);
    assert Join(ids) == hex + rest;
    assert s[|pre|..] == hex + rest;
    ParseOne(s, |pre|, events, ids[0], rest);
    assert events + [ids[0]] + ids[1..] == events + ids;
    if |ids| > 1 {
      assert s == (pre + hex + ",") + Join(ids[1..]);
      ParsePrinted(pre + hex + ",", ids[1..], events + [ids[0]]);
    }
  }

  /** Printing and parsing undo each other for exactly the lists that the library can hold: one to seven nonzero 16-bit ids. */
  lemma PrintThenParseIff(ids: seq<nat>)
    ensures ParseFrom(Join(ids), 0, []) == Parsed(Success, ids)
            <==> 0 < |ids| <= 7 && forall i :: 0 <= i < |ids| ==> 0 < ids[i] <= 0xFFFF
  {
    hide Join, ParseFrom;
    AcceptedIsInRange(Join(ids), 0, []);
    if 0 < |ids| <= MAX_EVENTS && forall i :: 0 <= i < |ids| ==> 0 < ids[i] <= 0xFFFF {
      ParsePrinted("", ids, []);
      assert "" + Join(ids) == Join(ids);
      assert [] + ids == ids;
    }
  }

  /** De-duplication keeps one of each name. */
  lemma {:induction false} UniqueKeepsOne(names: seq<string>)
    ensures forall n :: n in Unique(names) <==> n in names
    ensures forall i, j :: 0 <= i < j < |Unique(names)| ==> Unique(names)[i] != Unique(names)[j]
  {
    if names != [] {
      UniqueKeepsOne(names[..|names| - 1]);
      assert names == names[..|names| - 1] + [names[|names| - 1]];
    }
  }

  /** The verdict on an id that cannot be stored: zero, too wide, or beyond the seventh. */
  function Refusal(id: nat): Code {
    if id == 0 then Invalid else if id > 0xFFFF then OutOfRange else TooBig
  }

  /** The library stops at the first id that it cannot store, and keeps those before it. */
  lemma {:induction false} ParseToRefused(pre: string, ids: seq<nat>, events: seq<nat>, i: nat)
    requires i < |ids| && |events| + i <= 7 && (Refusal(ids[i]) == TooBig ==> |events| + i == 7)
    requires forall j :: 0 <= j < i ==> 0 < ids[j] <= 0xFFFF
    ensures ParseFrom(pre + Join(ids), |pre|, events) == Parsed(Refusal(ids[i]), events + ids[..i])
    decreases i
  {
    hide ParseFrom, Hex;
    var s := pre + Join(ids);
    var hex := Hex(ids[0]);
    var rest := if |ids| == 1 then "" else "," + Join(ids[1..]);
    assert Join(ids) == hex + rest;
    assert s[|pre|..] == hex + rest;
    if i == 0 {
      ParseRefused(s, |pre|, events, ids[0], rest);
      assert events + ids[..0] == events;
    } else {
      ParseOne(s, |pre|, events, ids[0], rest);
      assert s == (pre + hex + ",") + Join(ids[1..]);
      ParseToRefused(pre + hex + ",", ids[1..], events + [ids[0]], i - 1);
      assert events + [ids[0]] + ids[1..][..i - 1] == events + ids[..i];
    }
  }

  lemma ParseRefused(s: string, start: nat, events: seq<nat>, n: nat, rest: string)
    requires start <= |s| && |events| <= 7 && (Refusal(n) == TooBig ==> |events| == 7)
    requires s[start..] == Hex(n) + rest && (rest == "" || rest[0] == ',')
    ensures ParseFrom(s, start, events) == Parsed(Refusal(n), events)
  {
    hide Strtoull;
    if n < TWO_64 {
      StrtoullOfHex(n, rest);
    } else {
      StrtoullOfWide(n, rest);
    }
  }

  /** So every printed list is either stored whole, or refused at its first id that is zero, too wide or one too many. */
  lemma PrintThenParse(ids: seq<nat>)
    ensures var p := ParseFrom(Join(ids), 0, []);
            if ids == [] then p == Parsed(Invalid, [])
            else if |ids| <= 7 && forall i :: 0 <= i < |ids| ==> 0 < ids[i] <= 0xFFFF then p == Parsed(Success, ids)
            else
              exists i :: 0 <= i < |ids| && i <= 7 && p == Parsed(Refusal(ids[i]), ids[..i]) &&
                          (i == 7 || ids[i] == 0 || ids[i] > 0xFFFF) && forall j :: 0 <= j < i ==> 0 < ids[j] <= 0xFFFF
  {
    hide Join, ParseFrom, Refusal;
    if ids == [] {
      ParseNothing();
    } else if |ids| <= 7 && forall i :: 0 <= i < |ids| ==> 0 < ids[i] <= 0xFFFF {
      PrintThenParseIff(ids);
    } else {
      var i := FirstRefused(ids);
      RefusalOf(ids[i]);
      ParseToRefused("", ids, [], i);
      assert "" + Join(ids) == Join(ids);
      assert [] + ids[..i] == ids[..i];
    }
  }

  lemma RefusalOf(id: nat)
    ensures Refusal(id) == TooBig <==> 0 < id <= 0xFFFF
  {
  }

  lemma ParseNothing()
    ensures ParseFrom(Join([]), 0, []) == Parsed(Invalid, [])
  {
  }

  lemma FirstRefused(ids: seq<nat>) returns (i: nat)
    requires |ids| > 7 || exists k :: 0 <= k < |ids| && !(0 < ids[k] <= 0xFFFF)
    ensures i < |ids| && i <= 7 && (i == 7 || ids[i] == 0 || ids[i] > 0xFFFF) && forall j :: 0 <= j < i ==> 0 < ids[j] <= 0xFFFF
  {
    i := 0;
    while i < 7 && 0 < ids[i] <= 0xFFFF
      invariant 0 <= i <= 7 && i < |ids|
      invariant forall j :: 0 <= j < i ==> 0 < ids[j] <= 0xFFFF
    {
      i := i + 1;
    }
  }

  /** Python prints a lower-case hexadecimal number with its prefix. */
  lemma {:induction false} HexIsLowerCase(n: nat)
    ensures forall i :: 0 <= i < |HexDigits(n)| ==> '0' <= HexDigits(n)[i] <= '9' || 'a' <= HexDigits(n)[i] <= 'f'
  {
    if n >= 16 {
      HexIsLowerCase(n / 16);
    }
  }

  /** Names are kept in the order in which each first occurs. */
  lemma {:induction false} UniqueKeepsOrder(names: seq<string>, i: nat, j: nat)
    requires i < j < |Unique(names)|
    ensures exists a :: 0 <= a < |names| && names[a] == Unique(names)[i] &&
                        forall b :: 0 <= b < |names| && names[b] == Unique(names)[j] ==> a < b
  {
    var n := |names| - 1;
    UniqueKeepsOne(names[..n]);
    var u := Unique(names[..n]);
    if j < |u| {
      UniqueKeepsOrder(names[..n], i, j);
      var a :| 0 <= a < n && names[..n][a] == u[i] && forall b :: 0 <= b < n && names[..n][b] == u[j] ==> a < b;
      assert names[a] == Unique(names)[i];
      assert forall b :: 0 <= b < n ==> names[b] == names[..n][b];
    } else {
      assert u[i] in names[..n];
      var a :| 0 <= a < n && names[..n][a] == u[i];
      assert names[a] == Unique(names)[i];
      assert forall b :: 0 <= b < n ==> names[b] == names[..n][b] && names[..n][b] in names[..n];
    }
  }

  /** A list fails to be printed exactly for more than seven different names, or else for one that the table lacks. */
  lemma EventListFailsIff(names: seq<string>, table: map<string, nat>)
    ensures EventList(names, table) == Err(TooManyEvents) <==> |set n | n in names| > 7
    ensures EventList(names, table) == Err(UnknownEvent) <==> |set n | n in names| <= 7 && exists n :: n in names && n !in table
  {
    UniqueKeepsOne(names);
    var u := Unique(names);
    DistinctCounts(u);
    assert (set n | n in names) == set n | n in u;
    hide Unique, Join;
  }

  lemma {:induction false} DistinctCounts(s: seq<string>)
    requires forall i, j :: 0 <= i < j < |s| ==> s[i] != s[j]
    ensures |set n | n in s| == |s|
  {
    if s != [] {
      var init, last := s[..|s| - 1], s[|s| - 1];
      DistinctCounts(init);
      assert (set n | n in s) == (set n | n in init) + {last};
    }
  }

  lemma EventListIs(names: seq<string>, table: map<string, nat>)
    requires EventList(names, table).Ok?
    ensures var u := Unique(names);
            |u| <= MAX_EVENTS && (forall n :: n in u ==> n in table) && EventList(names, table).value == Join(Ids(u, table))
  {
    hide Unique, Join, Ids;
  }

  predicate Fits(id: nat) {
    0 < id <= 0xFFFF
  }

  lemma IdsFitIff(names: seq<string>, table: map<string, nat>)
    requires forall n :: n in names ==> n in table
    ensures (forall n :: n in names ==> Fits(table[n])) <==> forall i :: 0 <= i < |names| ==> Fits(Ids(names, table)[i])
  {
    if forall i :: 0 <= i < |names| ==> Fits(Ids(names, table)[i]) {
      forall n | n in names
        ensures Fits(table[n])
      {
        var i :| 0 <= i < |names| && names[i] == n;
        assert Fits(Ids(names, table)[i]);
      }
    }
  }

  /**
   From names to the library's list: what is printed arrives unchanged exactly if there is an
   event, and all of them have ids that are not zero and fit 16 bits.
   */
  lemma EventListArrivesIff(names: seq<string>, table: map<string, nat>)
    requires EventList(names, table).Ok?
    ensures forall n :: n in Unique(names) <==> n in names
    ensures forall n :: n in names ==> n in table
    ensures ParseFrom(EventList(names, table).value, 0, []) == Parsed(Success, Ids(Unique(names), table))
            <==> names != [] && forall n :: n in names ==> Fits(table[n])
  {
    var u := Unique(names);
    UniqueKeepsOne(names);
    EventListIs(names, table);
    IdsFitIff(u, table);
    PrintThenParseIff(Ids(u, table));
    hide Unique, Join, ParseFrom, EventList;
    assert |Ids(u, table)| == |u|;
    assert names != [] ==> names[0] in u;
    assert u != [] ==> u[0] in names;
  }

  /** An event whose id is zero, as that of SW_INCR is, is printed, and refused together with all that follow it. */
  lemma ZeroEventIsRefused(names: seq<string>, table: map<string, nat>, i: nat)
    requires EventList(names, table).Ok? && i < |Unique(names)|
    requires forall n :: n in Unique(names) ==> n in table
    requires table[Unique(names)[i]] == 0 && forall j :: 0 <= j < i ==> Fits(table[Unique(names)[j]])
    ensures ParseFrom(EventList(names, table).value, 0, []) == Parsed(Invalid, Ids(Unique(names)[..i], table))
  {
    var u := Unique(names);
    EventListIs(names, table);
    hide Unique, Join, ParseFrom, EventList, Fits;
    var ids := Ids(u, table);
    IdsAre(u, table);
    forall j | 0 <= j < i
      ensures 0 < ids[j] <= 0xFFFF
    {
      assert Fits(table[u[j]]);
      FitsMeans(table[u[j]]);
    }
    ParseToRefused("", ids, [], i);
    assert "" + Join(ids) == Join(ids);
    IdsPrefix(u, table, i);
    assert [] + ids[..i] == ids[..i];
  }

  lemma IdsAre(names: seq<string>, table: map<string, nat>)
    requires forall n :: n in names ==> n in table
    ensures |Ids(names, table)| == |names| && forall i :: 0 <= i < |names| ==> Ids(names, table)[i] == table[names[i]]
  {
  }

  lemma IdsPrefix(names: seq<string>, table: map<string, nat>, i: nat)
    requires i <= |names| && forall n :: n in names ==> n in table
    ensures Ids(names[..i], table) == Ids(names, table)[..i]
  {
  }

  lemma FitsMeans(id: nat)
    ensures Fits(id) <==> 0 < id <= 0xFFFF
  {
  }

  const SW_INCR := "SW_INCR"

  /** That event alone. */
  lemma SwIncrIsRefused(table: map<string, nat>)
    requires SW_INCR in table && table[SW_INCR] == 0
    ensures EventList([SW_INCR], table) == Ok("0x0") && ParseFrom("0x0", 0, []) == Parsed(Invalid, [])
  {
    assert Unique([SW_INCR]) == [SW_INCR] by {
      assert [SW_INCR][..0] == [];
    }
    assert Hex(0) == "0x0";
    ParseRefused("0x0", 0, [], 0, "");
  }
}
