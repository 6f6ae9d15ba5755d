/** What the ledger counts, said of the bytes and lines of the files and not of keys. */
module LedgerLaws {
  import opened Prelude
  import opened LedgerSpec
  import opened LedgerTotals

  // Lines.

  /** Lines written one after another, each with the byte 10 after it, and then the rest. */
  function Written(lines: seq<Bytes>, tail: Bytes): Bytes {
    if |lines| == 0 then tail else Written(lines[..|lines| - 1], lines[|lines| - 1] + [10] + tail)
  }

  lemma {:induction false} WrittenTail(lines: seq<Bytes>, tail: Bytes, more: Bytes)
    ensures Written(lines, tail + more) == Written(lines, tail) + more
  {
    if |lines| > 0 {
      var last := lines[|lines| - 1];
      assert last + [10] + (tail + more) == (last + [10] + tail) + more;
      WrittenTail(lines[..|lines| - 1], last + [10] + tail, more);
    }
  }

  /** Splitting takes bytes apart at every byte 10: no piece holds one, and written out again they are the bytes. */
  lemma {:induction false} LinesRejoin(data: Bytes)
    ensures Written(Lines(data), Tail(data)) == data && 10 !in Tail(data)
    ensures forall n :: 0 <= n < |Lines(data)| ==> 10 !in Lines(data)[n]
  {
    LinesWhole(data);
    if |data| > 0 {
      var before, b := data[..|data| - 1], data[|data| - 1];
      LinesRejoin(before);
      LastByte(data);
      hide Split, Lines, Tail, Written;
      assert data == before + [b];
      WrittenTail(Lines(before), Tail(before), [b]);
      if b == 10 {
        LineEnds(Lines(before), Tail(before));
      }
    }
  }

  lemma {:induction false} LastByte(data: Bytes)
    requires |data| > 0
    ensures var before, b := data[..|data| - 1], data[|data| - 1];
      if b == 10 then Lines(data) == Lines(before) + [Tail(before)] && Tail(data) == []
      else Lines(data) == Lines(before) && Tail(data) == Tail(before) + [b]
  {
  }

  lemma {:induction false} LineEnds(lines: seq<Bytes>, tail: Bytes)
    ensures Written(lines + [tail], []) == Written(lines, tail + [10])
  {
    assert (lines + [tail])[..|lines|] == lines;
    assert tail + [10] + [] == tail + [10];
  }

  lemma {:induction false} LinesWhole(data: Bytes)
    ensures 10 !in Tail(data)
    ensures forall n :: 0 <= n < |Lines(data)| ==> 10 !in Lines(data)[n]
  {
    if |data| > 0 {
      LinesWhole(data[..|data| - 1]);
      LastByte(data);
      hide Split, Lines, Tail;
    }
  }

  /** A line is skipped exactly when every byte of it is one of these. */
  lemma {:induction false} BlankMeans(raw: Bytes)
    ensures Blank(raw) <==> forall i :: 0 <= i < |raw| ==> raw[i] in [9, 10, 11, 12, 13, 32]
  {
  }

  // Places.

  /** The number a string of digits writes. */
  function NumberOf(digits: string): int {
    if |digits| == 0 then 0 else 10 * NumberOf(digits[..|digits| - 1]) + (digits[|digits| - 1] as int - '0' as int)
  }

  predicate AllDigits(s: string) {
    forall i :: 0 <= i < |s| ==> '0' <= s[i] <= '9'
  }

  lemma {:induction false} DigitWrites(d: nat)
    requires d < 10
    ensures '0' <= Digit(d) <= '9' && Digit(d) as int - '0' as int == d
  {
    assert d == 0 || d == 1 || d == 2 || d == 3 || d == 4 || d == 5 || d == 6 || d == 7 || d == 8 || d == 9;
  }

  lemma {:induction false} DecimalWrites(n: nat)
    ensures AllDigits(Decimal(n)) && |Decimal(n)| > 0 && NumberOf(Decimal(n)) == n
  {
    if n < 10 {
      DigitWrites(n);
      assert Decimal(n)[..0] == [];
    } else {
      DecimalWrites(n / 10);
      DigitWrites(n % 10);
      assert Decimal(n)[..|Decimal(n)| - 1] == Decimal(n / 10);
    }
  }

  lemma {:induction false} ColonLast(p: string, a: string, w: string, k: nat)
    requires w == p + ":" + a && AllDigits(a) && k < |w| && w[k] == ':'
    ensures k <= |p|
  {
    assert forall j :: |p| < j < |w| ==> w[j] == a[j - |p| - 1];
  }

  /** A place names its file and line: no two lines have the same. */
  lemma {:induction false} PlacesDiffer(p: string, m: nat, q: string, n: nat)
    requires Where(p, m) == Where(q, n)
    ensures p == q && m == n
  {
    DecimalWrites(m);
    DecimalWrites(n);
    var a, b, w := Decimal(m), Decimal(n), Where(p, m);
    assert w == p + ":" + a && w == q + ":" + b;
    ColonLast(p, a, w, |q|);
    ColonLast(q, b, w, |p|);
    assert p == w[..|p|] == q;
    assert a == w[|p| + 1..] == b;
  }

  // Which responses are counted.

  /** Line `n` of the bytes is a usable response that counts under `k`: by its id, or without one by its place. */
  ghost predicate Reports(parse: Parser, path: string, c: Bytes, n: nat, k: string, u: Usage) {
    n < |Lines(c)| && Says(parse, path, n + 1, Lines(c)[n], k, u)
  }

  ghost predicate Says(parse: Parser, path: string, line: nat, raw: Bytes, k: string, u: Usage) {
    && (exists i :: 0 <= i < |raw| && raw[i] !in [9, 10, 11, 12, 13, 32])
    && match parse(raw)
       case Response(Some(id), Some(usage)) => usage == u && k == if id == "" then path + ":" + Decimal(line) else id
       case Response(None, Some(usage)) => usage == u && k == path + ":" + Decimal(line)
       case _ => false
  }

  lemma {:induction false} SaysIs(parse: Parser, path: string, line: nat, raw: Bytes, k: string, u: Usage)
    ensures Says(parse, path, line, raw, k, u) <==> ReportsAt(parse, path, line, raw, k, u)
  {
    BlankMeans(raw);
    hide Decimal;
  }

  lemma {:induction false} ReportsIs(parse: Parser, path: string, c: Bytes, n: nat, k: string, u: Usage)
    requires n < |Lines(c)|
    ensures Reports(parse, path, c, n, k, u) <==> ReportsAt(parse, path, n + 1, Lines(c)[n], k, u)
  {
    SaysIs(parse, path, n + 1, Lines(c)[n], k, u);
    hide Says, ReportsAt;
  }

  lemma {:induction false} KeysInIs(parse: Parser, path: string, lines: seq<Bytes>, k: string)
    ensures k in KeysIn(parse, path, 0, lines) <==> exists u :: ReportedIn(parse, path, 0, lines, k, u)
  {
    if |lines| > 0 {
      var before, last := lines[..|lines| - 1], |lines| - 1;
      KeysInIs(parse, path, before, k);
      var r := Report(parse, lines[last]);
      hide Report, KeysIn;
      KeysInStep(parse, path, lines);
      if k in KeyIn(path, |lines|, r) {
        assert ReportsAt(parse, path, 0 + last + 1, lines[last], k, r.usage.value);
        assert ReportedIn(parse, path, 0, lines, k, r.usage.value);
      }
      if u :| ReportedIn(parse, path, 0, before, k, u) {
        var n :| 0 <= n < |before| && ReportsAt(parse, path, 0 + n + 1, before[n], k, u);
        assert lines[n] == before[n];
        assert ReportedIn(parse, path, 0, lines, k, u);
      }
      if u :| ReportedIn(parse, path, 0, lines, k, u) {
        var n :| 0 <= n < |lines| && ReportsAt(parse, path, 0 + n + 1, lines[n], k, u);
        if n < last {
          assert before[n] == lines[n];
          assert ReportedIn(parse, path, 0, before, k, u);
        }
      }
    }
  }

  lemma {:induction false} KeysInStep(parse: Parser, path: string, lines: seq<Bytes>)
    requires |lines| > 0
    ensures KeysIn(parse, path, 0, lines) ==
      KeysIn(parse, path, 0, lines[..|lines| - 1]) + KeyIn(path, |lines|, Report(parse, lines[|lines| - 1]))
  {
  }

  lemma {:induction false} KeysAre(parse: Parser, path: string, c: Bytes, k: string)
    ensures k in Keys(parse, path, c) <==> exists n: nat, u :: Reports(parse, path, c, n, k, u)
  {
    KeysInIs(parse, path, Lines(c), k);
    hide KeysIn, Lines, Decimal;
    if u :| ReportedIn(parse, path, 0, Lines(c), k, u) {
      var n :| 0 <= n < |Lines(c)| && ReportsAt(parse, path, 0 + n + 1, Lines(c)[n], k, u);
      ReportsIs(parse, path, c, n, k, u);
    }
    if n: nat, u :| Reports(parse, path, c, n, k, u) {
      ReportsIs(parse, path, c, n, k, u);
      assert ReportsAt(parse, path, 0 + n + 1, Lines(c)[n], k, u);
      assert ReportedIn(parse, path, 0, Lines(c), k, u);
    }
  }

  /** Some line of a known file counts under `k`. */
  ghost predicate Reported(parse: Parser, files: seq<FileState>, disk: map<string, Bytes>, k: string, u: Usage) {
    exists i, n: nat :: 0 <= i < |files| && files[i].path in disk &&
      Reports(parse, files[i].path, disk[files[i].path], n, k, u)
  }

  /** After every append-only run the counted responses are those the known files report, with a usage one reports. */
  lemma {:induction false} CountedAre(parse: Parser, schedule: seq<Snapshot>, k: string)
    requires |schedule| > 0 && AppendOnly(schedule)
    ensures var s, disk := Run(parse, schedule), schedule[|schedule| - 1].disk;
      && (k in s.seen <==> exists u :: Reported(parse, s.files, disk, k, u))
      && (k in UsageMap(s.files) <==> k in s.seen)
      && (k in s.seen ==> Reported(parse, s.files, disk, k, UsageMap(s.files)[k]))
  {
    var s, disk := Run(parse, schedule), schedule[|schedule| - 1].disk;
    RunMirrors(parse, schedule);
    RunSources(parse, schedule);
    ResponsesOwnedOnce(parse, schedule);
    UsageMapKeys(s);
    KeysOfMember(parse, s.files, disk, |s.files|, k);
    hide Run, OwnedOnce, Keys, KeysOf, Reports;
    if k in s.seen {
      var i := UsageMapOwner(s.files, k);
      var _ := SourcedReports(parse, s.files[i], disk[s.files[i].path], k);
      assert Reported(parse, s.files, disk, k, UsageMap(s.files)[k]);
    }
    if u :| Reported(parse, s.files, disk, k, u) {
      var i, n: nat :| 0 <= i < |s.files| && s.files[i].path in disk &&
        Reports(parse, s.files[i].path, disk[s.files[i].path], n, k, u);
      KeysAre(parse, s.files[i].path, disk[s.files[i].path], k);
    }
  }

  lemma {:induction false} SourcedReports(parse: Parser, f: FileState, c: Bytes, k: string) returns (n: nat)
    requires Sourced(parse, f, c) && k in f.responses
    ensures Reports(parse, f.path, c, n, k, f.responses[k])
  {
    n :| 0 <= n < |Lines(c)| && ReportsAt(parse, f.path, 0 + n + 1, Lines(c)[n], k, f.responses[k]);
    ReportsIs(parse, f.path, c, n, k, f.responses[k]);
  }

  // Responses without an id.

  /** Line `n` of the bytes is a usable response that states no id. */
  predicate Unnamed(parse: Parser, c: Bytes, n: nat) {
    && n < |Lines(c)| && !Blank(Lines(c)[n])
    && var r := parse(Lines(c)[n]); r.Response? && r.usage.Some? && (r.id == None || r.id == Some(""))
  }

  /** No line of a known file states the place of line `n` as its id. */
  ghost predicate Unstated(parse: Parser, files: seq<FileState>, disk: map<string, Bytes>, path: string, n: nat) {
    forall i, m :: 0 <= i < |files| && files[i].path in disk && 0 <= m < |Lines(disk[files[i].path])| ==>
      StatedAt(parse, disk[files[i].path], m) != Some(path + ":" + Decimal(n + 1))
  }

  function StatedAt(parse: Parser, c: Bytes, m: nat): Option<string>
    requires m < |Lines(c)|
  {
    match parse(Lines(c)[m])
    case Response(id, _) => id
    case _ => None
  }

  /** A response without an id is counted where it stands, with its own usage. */
  lemma {:induction false} UnnamedCounted(parse: Parser, schedule: seq<Snapshot>, i: nat, n: nat)
    requires |schedule| > 0 && AppendOnly(schedule)
    requires var s, disk := Run(parse, schedule), schedule[|schedule| - 1].disk;
      && i < |s.files| && s.files[i].path in disk && Unnamed(parse, disk[s.files[i].path], n)
      && Unstated(parse, s.files, disk, s.files[i].path, n)
    ensures var f := Run(parse, schedule).files[i];
      var place, c := f.path + ":" + Decimal(n + 1), schedule[|schedule| - 1].disk[f.path];
      && place in f.responses
      && f.responses[place] == parse(Lines(c)[n]).usage.value
  {
    var s, disk := Run(parse, schedule), schedule[|schedule| - 1].disk;
    var f := s.files[i];
    var c, place := disk[f.path], f.path + ":" + Decimal(n + 1);
    var u := parse(Lines(c)[n]).usage.value;
    UnnamedReports(parse, f.path, c, n);
    CountedAre(parse, schedule, place);
    RunSources(parse, schedule);
    ResponsesOwnedOnce(parse, schedule);
    hide Run, Reports, Unnamed, UsageMap, Unstated, Sourced, Decimal, Lines;
    assert Reported(parse, s.files, disk, place, u);
    var j := UsageMapOwner(s.files, place);
    var m := SourcedReports(parse, s.files[j], disk[s.files[j].path], place);
    PlaceReportedOnce(parse, s.files, disk, f.path, n, j, m, s.files[j].responses[place]);
    assert s.files[j].path == f.path;
    assert j == i;
    SameLineSameUsage(parse, f.path, c, n, place, u, f.responses[place]);
  }

  lemma {:induction false} UnnamedReports(parse: Parser, path: string, c: Bytes, n: nat)
    requires Unnamed(parse, c, n)
    ensures Reports(parse, path, c, n, path + ":" + Decimal(n + 1), parse(Lines(c)[n]).usage.value)
  {
    BlankMeans(Lines(c)[n]);
    hide Lines, Decimal;
  }

  lemma {:induction false} SameLineSameUsage(
    parse: Parser, path: string, c: Bytes, n: nat, k: string, u: Usage, v: Usage)
    requires Reports(parse, path, c, n, k, u) && Reports(parse, path, c, n, k, v)
    ensures u == v
  {
    hide Lines, Decimal;
  }

  /** Only the line itself reports under its place when no line states the place. */
  lemma {:induction false} PlaceReportedOnce(
    parse: Parser, files: seq<FileState>, disk: map<string, Bytes>, path: string, n: nat, j: nat, m: nat, u: Usage)
    requires j < |files| && files[j].path in disk && Unstated(parse, files, disk, path, n)
    requires Reports(parse, files[j].path, disk[files[j].path], m, path + ":" + Decimal(n + 1), u)
    ensures files[j].path == path && m == n
  {
    var q, c, place := files[j].path, disk[files[j].path], path + ":" + Decimal(n + 1);
    assert StatedAt(parse, c, m) != Some(place);
    assert place == q + ":" + Decimal(m + 1) by {
      hide Decimal, Lines;
    }
    PlacesDiffer(path, n + 1, q, m + 1);
  }

  function FieldOf(usage: Usage, d: Field): int {
    match d
    case Input => usage.input
    case Cached => usage.cached
    case CacheWrite => usage.cacheWrite
    case Output => usage.output
    case Reasoning => usage.reasoning
  }

  lemma {:induction false} GetIs(usage: Usage, d: Field)
    ensures usage.Get(d) == FieldOf(usage, d)
  {
  }

  /** The usages of the responses among the first `n` lines, added up line by line. */
  function LineSum(parse: Parser, c: Bytes, n: nat, d: Field): int
    requires n <= |Lines(c)|
  {
    if n == 0 then 0 else
      var rest, raw := LineSum(parse, c, n - 1, d), Lines(c)[n - 1];
      if Blank(raw) then rest else
        match parse(raw)
        case Response(_, Some(usage)) => rest + FieldOf(usage, d)
        case _ => rest
  }

  /** The responses among the first `n` lines, each under its place. */
  ghost function PlaceMap(parse: Parser, path: string, c: Bytes, n: nat): map<string, Usage>
    requires n <= |Lines(c)|
  {
    if n == 0 then map[] else
      var rest := PlaceMap(parse, path, c, n - 1);
      if Unnamed(parse, c, n - 1) then rest[path + ":" + Decimal(n) := parse(Lines(c)[n - 1]).usage.value] else rest
  }

  lemma {:induction false} PlaceMapHas(parse: Parser, path: string, c: Bytes, n: nat, m: nat)
    requires n <= |Lines(c)|
    ensures Where(path, m + 1) in PlaceMap(parse, path, c, n) <==> m < n && Unnamed(parse, c, m)
    ensures m < n && Unnamed(parse, c, m) ==>
      PlaceMap(parse, path, c, n)[Where(path, m + 1)] == parse(Lines(c)[m]).usage.value
  {
    hide Unnamed, Lines, Decimal;
    if n > 0 {
      PlaceMapHas(parse, path, c, n - 1, m);
      if Where(path, m + 1) == Where(path, n) {
        PlacesDiffer(path, m + 1, path, n);
      }
    }
  }

  lemma {:induction false} PlaceMapFrom(parse: Parser, path: string, c: Bytes, n: nat, k: string) returns (m: nat)
    requires n <= |Lines(c)| && k in PlaceMap(parse, path, c, n)
    ensures m < n && Unnamed(parse, c, m) && k == Where(path, m + 1)
  {
    hide Unnamed, Lines, Decimal;
    if Unnamed(parse, c, n - 1) && k == Where(path, n) {
      m := n - 1;
    } else {
      m := PlaceMapFrom(parse, path, c, n - 1, k);
    }
  }

  lemma {:induction false} ResponseSumInsert(m: map<string, Usage>, k: string, u: Usage, d: Field)
    requires k !in m
    ensures ResponseSum(m[k := u], d) == ResponseSum(m, d) + u.Get(d)
  {
    ResponseSumTake(m[k := u], k, d);
    assert m[k := u] - {k} == m;
  }

  /** No response of the file states an id. */
  ghost predicate AllUnnamed(parse: Parser, c: Bytes) {
    forall n :: 0 <= n < |Lines(c)| && Report(parse, Lines(c)[n]).Response? ==> Unnamed(parse, c, n)
  }

  lemma {:induction false} PlaceMapSum(parse: Parser, path: string, c: Bytes, n: nat, d: Field)
    requires n <= |Lines(c)| && AllUnnamed(parse, c)
    ensures ResponseSum(PlaceMap(parse, path, c, n), d) == LineSum(parse, c, n, d)
  {
    hide ResponseSum, Lines, Decimal;
    if n == 0 {
      EmptyResponses(d);
    } else {
      PlaceMapSum(parse, path, c, n - 1, d);
      if Unnamed(parse, c, n - 1) {
        PlaceMapHas(parse, path, c, n - 1, n - 1);
        GetIs(parse(Lines(c)[n - 1]).usage.value, d);
        ResponseSumInsert(
          PlaceMap(parse, path, c, n - 1), Where(path, n), parse(Lines(c)[n - 1]).usage.value, d);
      }
    }
  }

  /** A file whose responses state no id, under places no line states, adds to the totals the plain sum of its lines. */
  lemma {:induction false} UnnamedFileSums(parse: Parser, schedule: seq<Snapshot>, i: nat, d: Field)
    requires |schedule| > 0 && AppendOnly(schedule) && i < |Run(parse, schedule).files|
    requires var s, disk := Run(parse, schedule), schedule[|schedule| - 1].disk;
      && s.files[i].path in disk && AllUnnamed(parse, disk[s.files[i].path])
      && (forall n: nat :: Unnamed(parse, disk[s.files[i].path], n) ==>
            Unstated(parse, s.files, disk, s.files[i].path, n))
    ensures var f := Run(parse, schedule).files[i]; var c := schedule[|schedule| - 1].disk[f.path];
      ResponseSum(f.responses, d) == LineSum(parse, c, |Lines(c)|, d)
  {
    var s, disk := Run(parse, schedule), schedule[|schedule| - 1].disk;
    var f := s.files[i];
    var c := disk[f.path];
    var places := PlaceMap(parse, f.path, c, |Lines(c)|);
    RunSources(parse, schedule);
    forall k | k in places
      ensures k in f.responses && f.responses[k] == places[k]
    {
      var n := PlaceMapFrom(parse, f.path, c, |Lines(c)|, k);
      PlaceMapHas(parse, f.path, c, |Lines(c)|, n);
      UnnamedCounted(parse, schedule, i, n);
    }
    forall k | k in f.responses
      ensures k in places
    {
      OwnedIsPlace(parse, f, c, k);
    }
    assert places == f.responses;
    PlaceMapSum(parse, f.path, c, |Lines(c)|, d);
  }

  lemma {:induction false} OwnedIsPlace(parse: Parser, f: FileState, c: Bytes, k: string)
    requires Sourced(parse, f, c) && AllUnnamed(parse, c) && k in f.responses
    ensures k in PlaceMap(parse, f.path, c, |Lines(c)|)
  {
    var n := SourcedReports(parse, f, c, k);
    ReportsIs(parse, f.path, c, n, k, f.responses[k]);
    PlaceMapHas(parse, f.path, c, |Lines(c)|, n);
    hide Lines, Decimal;
  }

  // Problems.

  /** Line `n` is one the ledger could not use: no JSON, or a usage it cannot read of a response not yet counted. */
  ghost predicate Unusable(parse: Parser, f: FileState, seen: set<string>, lines: seq<Bytes>, n: nat) {
    && n < |lines| && (exists i :: 0 <= i < |lines[n]| && lines[n][i] !in [9, 10, 11, 12, 13, 32])
    && match parse(lines[n])
       case NotJson => true
       case Count(usage) => usage == None
       case Response(id, usage) =>
         var line := f.line + n + 1;
         usage == None && (if id == None || id == Some("") then f.path + ":" + Decimal(line) else id.value)
           !in seen + KeysIn(parse, f.path, f.line, lines[..n])
       case Other => false
  }

  /** The problems of a read are the places of its unusable lines. */
  lemma {:induction false} ProblemsAre(parse: Parser, f: FileState, seen: set<string>, lines: seq<Bytes>, x: string)
    ensures x in LineProblems(parse, f, seen, lines) <==>
      exists n: nat :: Unusable(parse, f, seen, lines, n) && x == f.path + ":" + Decimal(f.line + n + 1)
  {
    hide Unusable, Decimal, RecordAll;
    if |lines| > 0 {
      var before, last := lines[..|lines| - 1], |lines| - 1;
      ProblemsAre(parse, f, seen, before, x);
      LastProblem(parse, f, seen, lines);
      hide LineProblems;
      forall n: nat | n < last
        ensures Unusable(parse, f, seen, lines, n) <==> Unusable(parse, f, seen, before, n)
      {
        UnusableBefore(parse, f, seen, lines, n);
      }
      UnusableInside(parse, f, seen, lines);
      UnusableInside(parse, f, seen, before);
    } else {
      UnusableInside(parse, f, seen, lines);
    }
  }

  lemma {:induction false} UnusableInside(parse: Parser, f: FileState, seen: set<string>, lines: seq<Bytes>)
    ensures forall n: nat :: Unusable(parse, f, seen, lines, n) ==> n < |lines|
  {
  }

  lemma {:induction false} UnusableBefore(parse: Parser, f: FileState, seen: set<string>, lines: seq<Bytes>, n: nat)
    requires n < |lines| - 1
    ensures Unusable(parse, f, seen, lines, n) <==> Unusable(parse, f, seen, lines[..|lines| - 1], n)
  {
    var before := lines[..|lines| - 1];
    assert lines[n] == before[n] && lines[..n] == before[..n];
    hide KeysIn, Decimal;
  }

  lemma {:induction false} LastProblem(parse: Parser, f: FileState, seen: set<string>, lines: seq<Bytes>)
    requires |lines| > 0
    ensures LineProblems(parse, f, seen, lines) == LineProblems(parse, f, seen, lines[..|lines| - 1])
      + if Unusable(parse, f, seen, lines, |lines| - 1) then [f.path + ":" + Decimal(f.line + |lines|)] else []
  {
    var before, raw := lines[..|lines| - 1], lines[|lines| - 1];
    var (g, more) := RecordAll(parse, f, seen, before);
    var placed := g.(line := g.line + 1);
    assert LineProblems(parse, f, seen, lines) == LineProblems(parse, f, seen, before)
      + if !Blank(raw) && Troubles(parse, placed, more, raw) then [Where(placed.path, placed.line)] else [];
    hide *;
    RecordAllReports(parse, f, seen, before);
    TroublesWhen(parse, f, seen, lines, placed);
    WhereIs(f.path, f.line + |lines|);
  }

  lemma {:induction false} WhereIs(path: string, line: nat)
    ensures Where(path, line) == path + ":" + Decimal(line)
  {
    hide Decimal;
  }

  lemma {:induction false} TroublesWhen(
    parse: Parser, f: FileState, seen: set<string>, lines: seq<Bytes>, placed: FileState)
    requires |lines| > 0 && placed.path == f.path && placed.line == f.line + |lines|
    ensures var before, raw := lines[..|lines| - 1], lines[|lines| - 1];
      (!Blank(raw) && Troubles(parse, placed, seen + KeysIn(parse, f.path, f.line, before), raw)) <==>
        Unusable(parse, f, seen, lines, |lines| - 1)
  {
    BlankMeans(lines[|lines| - 1]);
    hide Blank, KeysIn, Decimal;
  }
}
