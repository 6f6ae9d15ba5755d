/** The usage ledger over growing session files, as a function of what was read. */
module LedgerSpec {
  import opened Prelude

  newtype Byte = b: int | 0 <= b < 256

  type Bytes = seq<Byte>

  const NEWLINE: Byte := 10

  datatype Field = Input | Cached | CacheWrite | Output | Reasoning

  datatype Usage = Usage(input: int, cached: int, cacheWrite: int, output: int, reasoning: int) {
    function Get(d: Field): int {
      match d
      case Input => input
      case Cached => cached
      case CacheWrite => cacheWrite
      case Output => output
      case Reasoning => reasoning
    }

    function Plus(other: Usage): Usage {
      Usage(
        input + other.input, cached + other.cached, cacheWrite + other.cacheWrite,
        output + other.output, reasoning + other.reasoning)
    }
  }

  const NoUsage := Usage(0, 0, 0, 0, 0)

  /** What one line holds; a usage of None is one the reader cannot parse. */
  datatype Reading =
    | NotJson
    | Other
    | Response(id: Option<string>, usage: Option<Usage>)
    | Count(usage: Option<Usage>)

  type Parser = Bytes -> Reading

  /** Tab, newline, vertical tab, form feed, carriage return and space. */
  predicate Whitespace(b: Byte) {
    9 <= b <= 13 || b == 32
  }

  predicate Blank(raw: Bytes) {
    forall i :: 0 <= i < |raw| ==> Whitespace(raw[i])
  }

  /** What a line reports: one of whitespace alone is not recorded, whatever the parser would make of it. */
  function Report(parse: Parser, raw: Bytes): Reading {
    if Blank(raw) then Other else parse(raw)
  }

  function Digit(d: nat): char
    requires d < 10
  {
    "0123456789"[d]
  }

  function Decimal(n: nat): string {
    if n < 10 then [Digit(n)] else Decimal(n / 10) + [Digit(n % 10)]
  }

  function Where(path: string, line: nat): string {
    path + ":" + Decimal(line)
  }

  /** The key a response counts under: its id, or its file and line when it has none or an empty one. */
  function KeyOf(path: string, line: nat, id: Option<string>): string {
    if id.Some? && id.value != "" then id.value else Where(path, line)
  }

  datatype FileState = FileState(
    path: string,
    offset: nat,
    partial: Bytes,
    line: nat,
    responses: map<string, Usage>,
    counted: Usage,
    countMessages: nat)

  function NewFile(path: string): FileState {
    FileState(path, 0, [], 0, map[], NoUsage, 0)
  }

  /** The complete lines of some bytes and the rest after the last newline. */
  function Split(data: Bytes): (seq<Bytes>, Bytes) {
    if |data| == 0 then ([], []) else
      var (lines, tail) := Split(data[..|data| - 1]);
      if data[|data| - 1] == NEWLINE then (lines + [tail], []) else (lines, tail + [data[|data| - 1]])
  }

  function Lines(data: Bytes): seq<Bytes> {
    Split(data).0
  }

  function Tail(data: Bytes): Bytes {
    Split(data).1
  }

  /** Records one line of a file whose line count already includes it. */
  function RecordLine(parse: Parser, g: FileState, seen: set<string>, raw: Bytes): (FileState, set<string>) {
    match parse(raw)
    case Response(id, usage) =>
      var key := KeyOf(g.path, g.line, id);
      if key in seen || usage.None? then (g, seen) else (g.(responses := g.responses[key := usage.value]), seen + {key})
    case Count(Some(usage)) => (g.(counted := g.counted.Plus(usage), countMessages := g.countMessages + 1), seen)
    case _ => (g, seen)
  }

  /** The line is one the ledger could not use. */
  predicate Troubles(parse: Parser, g: FileState, seen: set<string>, raw: Bytes) {
    match parse(raw)
    case NotJson => true
    case Response(id, None) => KeyOf(g.path, g.line, id) !in seen
    case Count(None) => true
    case _ => false
  }

  function RecordStep(parse: Parser, f: FileState, seen: set<string>, raw: Bytes): (FileState, set<string>) {
    var g := f.(line := f.line + 1);
    if Blank(raw) then (g, seen) else RecordLine(parse, g, seen, raw)
  }

  function RecordAll(parse: Parser, f: FileState, seen: set<string>, lines: seq<Bytes>): (FileState, set<string>) {
    if |lines| == 0 then (f, seen) else
      var (g, more) := RecordAll(parse, f, seen, lines[..|lines| - 1]);
      RecordStep(parse, g, more, lines[|lines| - 1])
  }

  /** A file shorter than what was read of it is read again from its start; the responses it owns stay. */
  function Rewound(f: FileState, size: nat): FileState {
    if size < f.offset then f.(offset := 0, partial := [], line := 0, counted := NoUsage, countMessages := 0) else f
  }

  /** The places of the lines the ledger could not use. */
  function LineProblems(parse: Parser, f: FileState, seen: set<string>, lines: seq<Bytes>): seq<string> {
    if |lines| == 0 then [] else
      var before, raw := lines[..|lines| - 1], lines[|lines| - 1];
      var (g, more) := RecordAll(parse, f, seen, before);
      var placed := g.(line := g.line + 1);
      LineProblems(parse, f, seen, before)
      + if !Blank(raw) && Troubles(parse, placed, more, raw) then [Where(placed.path, placed.line)] else []
  }

  /** What one read of a file reports: that the file shrank, and the lines it could not use. */
  function ReadProblems(parse: Parser, f: FileState, seen: set<string>, content: Option<Bytes>): seq<string> {
    match content
    case None => []
    case Some(c) =>
      var g := Rewound(f, |c|);
      (if |c| < f.offset then [f.path] else [])
      + if |c| == g.offset then [] else
          var data := g.partial + c[g.offset..];
          LineProblems(parse, g.(offset := |c|, partial := Tail(data)), seen, Lines(data))
  }

  function ReadStep(parse: Parser, f: FileState, seen: set<string>, content: Option<Bytes>): (FileState, set<string>) {
    match content
    case None => (f, seen)
    case Some(c) =>
      var g := Rewound(f, |c|);
      if |c| == g.offset then (g, seen) else
        var data := g.partial + c[g.offset..];
        RecordAll(parse, g.(offset := |c|, partial := Tail(data)), seen, Lines(data))
  }

  // Chunks: reading on from where the last read ended is reading from the start.

  lemma {:induction false} TailIsLine(data: Bytes)
    ensures NEWLINE !in Tail(data)
  {
    if |data| > 0 {
      TailIsLine(data[..|data| - 1]);
    }
  }

  lemma {:induction false} NoNewline(data: Bytes)
    requires NEWLINE !in data
    ensures Lines(data) == [] && Tail(data) == data
  {
    if |data| > 0 {
      NoNewline(data[..|data| - 1]);
      assert data == data[..|data| - 1] + [data[|data| - 1]];
    }
  }

  lemma {:induction false} SplitOn(read: Bytes, chunk: Bytes)
    ensures Lines(read + chunk) == Lines(read) + Lines(Tail(read) + chunk)
    ensures Tail(read + chunk) == Tail(Tail(read) + chunk)
  {
    var partial := Tail(read);
    if |chunk| == 0 {
      assert read + chunk == read && partial + chunk == partial;
      TailIsLine(read);
      NoNewline(partial);
    } else {
      var rest := chunk[..|chunk| - 1];
      SplitOn(read, rest);
      assert (read + chunk)[..|read + chunk| - 1] == read + rest;
      assert (partial + chunk)[..|partial + chunk| - 1] == partial + rest;
    }
  }

  // What a file's lines report, apart from who counted them first.

  function CountOf(r: Reading): Usage {
    match r
    case Count(Some(usage)) => usage
    case _ => NoUsage
  }

  function CountedIn(parse: Parser, lines: seq<Bytes>): Usage {
    if |lines| == 0 then NoUsage else
      CountedIn(parse, lines[..|lines| - 1]).Plus(CountOf(Report(parse, lines[|lines| - 1])))
  }

  function MessagesIn(parse: Parser, lines: seq<Bytes>): nat {
    if |lines| == 0 then 0 else
      MessagesIn(parse, lines[..|lines| - 1])
        + (var r := Report(parse, lines[|lines| - 1]); if r.Count? && r.usage.Some? then 1 else 0)
  }

  /** The key a line's usable response counts under, if it reports one. */
  function KeyIn(path: string, line: nat, r: Reading): set<string> {
    match r
    case Response(id, Some(_)) => {KeyOf(path, line, id)}
    case _ => {}
  }

  /** The keys of the usable responses among `lines`, which follow line `start` of the file. */
  function KeysIn(parse: Parser, path: string, start: nat, lines: seq<Bytes>): set<string> {
    if |lines| == 0 then {} else
      KeysIn(parse, path, start, lines[..|lines| - 1]) + KeyIn(path, start + |lines|, Report(parse, lines[|lines| - 1]))
  }

  lemma {:induction false} PlusAssociates(a: Usage, b: Usage, c: Usage)
    ensures a.Plus(b).Plus(c) == a.Plus(b.Plus(c)) && a.Plus(NoUsage) == a
  {
  }

  lemma {:induction false} CountedConcat(parse: Parser, xs: seq<Bytes>, ys: seq<Bytes>)
    ensures CountedIn(parse, xs + ys) == CountedIn(parse, xs).Plus(CountedIn(parse, ys))
    ensures MessagesIn(parse, xs + ys) == MessagesIn(parse, xs) + MessagesIn(parse, ys)
  {
    hide CountOf, Usage.Plus;
    if |ys| == 0 {
      assert xs + ys == xs;
      PlusAssociates(CountedIn(parse, xs), NoUsage, NoUsage);
    } else {
      assert (xs + ys)[..|xs + ys| - 1] == xs + ys[..|ys| - 1];
      CountedConcat(parse, xs, ys[..|ys| - 1]);
      PlusAssociates(CountedIn(parse, xs), CountedIn(parse, ys[..|ys| - 1]), CountOf(Report(parse, ys[|ys| - 1])));
    }
  }

  lemma {:induction false} KeysConcat(parse: Parser, path: string, xs: seq<Bytes>, ys: seq<Bytes>)
    ensures KeysIn(parse, path, 0, xs + ys) == KeysIn(parse, path, 0, xs) + KeysIn(parse, path, |xs|, ys)
  {
    hide KeyIn;
    if |ys| == 0 {
      assert xs + ys == xs;
    } else {
      assert (xs + ys)[..|xs + ys| - 1] == xs + ys[..|ys| - 1];
      KeysConcat(parse, path, xs, ys[..|ys| - 1]);
    }
  }

  lemma {:induction false} RecordStepReports(parse: Parser, f: FileState, seen: set<string>, raw: Bytes)
    ensures var (g, more) := RecordStep(parse, f, seen, raw);
      && g.path == f.path && g.offset == f.offset && g.partial == f.partial
      && g.line == f.line + 1
      && g.counted == f.counted.Plus(CountOf(Report(parse, raw)))
      && g.countMessages == f.countMessages + (var r := Report(parse, raw); if r.Count? && r.usage.Some? then 1 else 0)
      && more == seen + KeyIn(f.path, f.line + 1, Report(parse, raw))
  {
    PlusAssociates(f.counted, NoUsage, NoUsage);
  }

  lemma {:induction false} RecordAllReports(parse: Parser, f: FileState, seen: set<string>, lines: seq<Bytes>)
    ensures var (g, more) := RecordAll(parse, f, seen, lines);
      && g.path == f.path && g.offset == f.offset && g.partial == f.partial
      && g.line == f.line + |lines|
      && g.counted == f.counted.Plus(CountedIn(parse, lines))
      && g.countMessages == f.countMessages + MessagesIn(parse, lines)
      && more == seen + KeysIn(parse, f.path, f.line, lines)
  {
    hide RecordStep, CountOf, KeyOf, Usage.Plus;
    PlusAssociates(f.counted, NoUsage, NoUsage);
    if |lines| > 0 {
      var before, raw := lines[..|lines| - 1], lines[|lines| - 1];
      RecordAllReports(parse, f, seen, before);
      var (g, more) := RecordAll(parse, f, seen, before);
      RecordStepReports(parse, g, more, raw);
      PlusAssociates(f.counted, CountedIn(parse, before), CountOf(Report(parse, raw)));
    }
  }

  /** What the ledger holds of a file is what one read of `c` leaves, apart from the responses it owns. */
  ghost predicate Reflects(parse: Parser, f: FileState, c: Bytes) {
    && f.offset == |c|
    && f.partial == Tail(c)
    && f.line == |Lines(c)|
    && f.counted == CountedIn(parse, Lines(c))
    && f.countMessages == MessagesIn(parse, Lines(c))
  }

  function Keys(parse: Parser, path: string, c: Bytes): set<string> {
    KeysIn(parse, path, 0, Lines(c))
  }

  lemma {:induction false} NewFileReflects(parse: Parser, path: string)
    ensures Reflects(parse, NewFile(path), []) && Keys(parse, path, []) == {}
  {
  }

  /** Whether a file grew or was cut, one refresh brings the ledger up to what one read would hold. */
  lemma {:induction false} ReadReflects(parse: Parser, f: FileState, seen: set<string>, c: Bytes, next: Bytes)
    requires Reflects(parse, f, c) && (c <= next || |next| < |c|) && Keys(parse, f.path, c) <= seen
    ensures var (g, more) := ReadStep(parse, f, seen, Some(next));
      g.path == f.path && Reflects(parse, g, next) && more == seen + Keys(parse, f.path, next)
  {
    var g := Rewound(f, |next|);
    var read := if |next| < |c| then [] else c;
    NewFileReflects(parse, f.path);
    assert Reflects(parse, g, read);
    var chunk := next[|read|..];
    assert next == read + chunk;
    if |next| == g.offset {
      assert next == read;
    } else {
      var data := g.partial + chunk;
      SplitOn(read, chunk);
      CountedConcat(parse, Lines(read), Lines(data));
      KeysConcat(parse, f.path, Lines(read), Lines(data));
      RecordAllReports(parse, g.(offset := |next|, partial := Tail(data)), seen, Lines(data));
      assert CountedIn(parse, Lines(next)) == g.counted.Plus(CountedIn(parse, Lines(data)));
    }
  }

  // The whole ledger.

  datatype Ledger = Ledger(files: seq<FileState>, seen: set<string>)

  /** What one refresh finds: the session files the listing names, and the bytes each path holds. */
  datatype Snapshot = Snapshot(listing: seq<string>, disk: map<string, Bytes>)

  const Empty := Ledger([], {})

  predicate Knows(files: seq<FileState>, path: string) {
    exists i :: 0 <= i < |files| && files[i].path == path
  }

  function Discover(files: seq<FileState>, listing: seq<string>, disk: map<string, Bytes>): seq<FileState> {
    if |listing| == 0 then files else
      var before, path := Discover(files, listing[..|listing| - 1], disk), listing[|listing| - 1];
      if !Knows(before, path) && path in disk then before + [NewFile(path)] else before
  }

  function OnDisk(disk: map<string, Bytes>, path: string): Option<Bytes> {
    if path in disk then Some(disk[path]) else None
  }

  /** Reads the first `n` files, in the order they were found. */
  function ReadFiles(parse: Parser, s: Ledger, disk: map<string, Bytes>, n: nat): (r: Ledger)
    requires n <= |s.files|
    ensures |r.files| == |s.files|
  {
    if n == 0 then s else
      var before := ReadFiles(parse, s, disk, n - 1);
      var f := before.files[n - 1];
      var (g, seen) := ReadStep(parse, f, before.seen, OnDisk(disk, f.path));
      Ledger(before.files[n - 1 := g], seen)
  }

  /** What reading the first `n` files reports. */
  function FileProblems(parse: Parser, s: Ledger, disk: map<string, Bytes>, n: nat): seq<string>
    requires n <= |s.files|
  {
    if n == 0 then [] else
      var before := ReadFiles(parse, s, disk, n - 1);
      var f := before.files[n - 1];
      FileProblems(parse, s, disk, n - 1) + ReadProblems(parse, f, before.seen, OnDisk(disk, f.path))
  }

  function RefreshStep(parse: Parser, s: Ledger, shot: Snapshot): Ledger {
    var found := Discover(s.files, shot.listing, shot.disk);
    ReadFiles(parse, Ledger(found, s.seen), shot.disk, |found|)
  }

  function Run(parse: Parser, schedule: seq<Snapshot>): Ledger {
    if |schedule| == 0 then Empty else
      RefreshStep(parse, Run(parse, schedule[..|schedule| - 1]), schedule[|schedule| - 1])
  }

  // Every response is counted once, whatever the files do.

  ghost predicate PathsDistinct(files: seq<FileState>) {
    forall i, j :: 0 <= i < j < |files| ==> files[i].path != files[j].path
  }

  ghost predicate Disjoint(files: seq<FileState>) {
    forall i, j :: 0 <= i < j < |files| ==> files[i].responses.Keys !! files[j].responses.Keys
  }

  ghost predicate OnlySeen(files: seq<FileState>, seen: set<string>) {
    forall i :: 0 <= i < |files| ==> files[i].responses.Keys <= seen
  }

  ghost predicate AllOwned(files: seq<FileState>, seen: set<string>) {
    forall k :: k in seen ==> exists i :: 0 <= i < |files| && k in files[i].responses
  }

  ghost predicate OwnedOnce(s: Ledger) {
    PathsDistinct(s.files) && Disjoint(s.files) && OnlySeen(s.files, s.seen) && AllOwned(s.files, s.seen)
  }

  /** A read only adds responses no file has counted, and adds them to the file that was read. */
  ghost predicate AddsNew(f: FileState, seen: set<string>, g: FileState, more: set<string>) {
    && g.path == f.path
    && f.responses.Keys <= g.responses.Keys
    && (forall k :: k in f.responses ==> g.responses[k] == f.responses[k])
    && (forall k :: k in g.responses && k !in f.responses ==> k !in seen)
    && more == seen + g.responses.Keys
  }

  lemma {:induction false} RecordAllAdds(parse: Parser, f: FileState, seen: set<string>, lines: seq<Bytes>)
    requires f.responses.Keys <= seen
    ensures var (g, more) := RecordAll(parse, f, seen, lines); AddsNew(f, seen, g, more)
  {
    hide KeyOf;
    if |lines| > 0 {
      RecordAllAdds(parse, f, seen, lines[..|lines| - 1]);
    }
  }

  lemma {:induction false} ReadAdds(parse: Parser, f: FileState, seen: set<string>, content: Option<Bytes>)
    requires f.responses.Keys <= seen
    ensures var (g, more) := ReadStep(parse, f, seen, content); AddsNew(f, seen, g, more)
  {
    hide AddsNew;
    NothingAdded(f, seen, f);
    if content.Some? {
      var g := Rewound(f, |content.value|);
      NothingAdded(f, seen, g);
      var data := g.partial + content.value[g.offset..];
      var read := g.(offset := |content.value|, partial := Tail(data));
      RecordAllAdds(parse, read, seen, Lines(data));
      var (h, more) := RecordAll(parse, read, seen, Lines(data));
      SameOwner(f, read, seen, h, more);
    }
  }

  lemma {:induction false} NothingAdded(f: FileState, seen: set<string>, g: FileState)
    requires f.responses.Keys <= seen && g.path == f.path && g.responses == f.responses
    ensures AddsNew(f, seen, g, seen)
  {
  }

  lemma {:induction false} SameOwner(f: FileState, g: FileState, seen: set<string>, h: FileState, more: set<string>)
    requires g.path == f.path && g.responses == f.responses
    ensures AddsNew(g, seen, h, more) ==> AddsNew(f, seen, h, more)
  {
  }

  lemma {:induction false} FoundOwns(files: seq<FileState>, seen: set<string>, path: string)
    requires OwnedOnce(Ledger(files, seen)) && !Knows(files, path)
    ensures OwnedOnce(Ledger(files + [NewFile(path)], seen))
  {
    FoundCovers(files, seen, NewFile(path));
    FoundDisjoint(files, seen, NewFile(path));
    hide Disjoint, OnlySeen, AllOwned;
    assert PathsDistinct(files + [NewFile(path)]);
  }

  lemma {:induction false} FoundCovers(files: seq<FileState>, seen: set<string>, f: FileState)
    requires AllOwned(files, seen)
    ensures AllOwned(files + [f], seen)
  {
    var found := files + [f];
    forall k | k in seen
      ensures exists i :: 0 <= i < |found| && k in found[i].responses
    {
      var i :| 0 <= i < |files| && k in files[i].responses;
      assert k in found[i].responses;
    }
  }

  lemma {:induction false} FoundDisjoint(files: seq<FileState>, seen: set<string>, f: FileState)
    requires Disjoint(files) && OnlySeen(files, seen) && f.responses == map[]
    ensures Disjoint(files + [f]) && OnlySeen(files + [f], seen)
  {
  }

  lemma {:induction false} DiscoverOwns(
    files: seq<FileState>, seen: set<string>, listing: seq<string>, disk: map<string, Bytes>)
    requires OwnedOnce(Ledger(files, seen))
    ensures files <= Discover(files, listing, disk)
    ensures OwnedOnce(Ledger(Discover(files, listing, disk), seen))
  {
    hide OwnedOnce, Knows;
    if |listing| > 0 {
      var before, path := Discover(files, listing[..|listing| - 1], disk), listing[|listing| - 1];
      DiscoverOwns(files, seen, listing[..|listing| - 1], disk);
      if !Knows(before, path) {
        FoundOwns(before, seen, path);
      }
    }
  }

  lemma {:induction false} ReplaceCovers(
    files: seq<FileState>, seen: set<string>, i: nat, g: FileState, more: set<string>)
    requires AllOwned(files, seen) && i < |files| && AddsNew(files[i], seen, g, more)
    ensures AllOwned(files[i := g], more)
  {
    var after := files[i := g];
    forall k | k in more
      ensures exists j :: 0 <= j < |after| && k in after[j].responses
    {
      if k in g.responses {
        assert k in after[i].responses;
      } else {
        var j :| 0 <= j < |files| && k in files[j].responses;
        assert k in after[j].responses;
      }
    }
  }

  lemma {:induction false} ReplaceDisjoint(
    files: seq<FileState>, seen: set<string>, i: nat, g: FileState, more: set<string>)
    requires Disjoint(files) && OnlySeen(files, seen) && i < |files| && AddsNew(files[i], seen, g, more)
    ensures Disjoint(files[i := g]) && OnlySeen(files[i := g], more)
  {
    var after := files[i := g];
    forall a, b | 0 <= a < b < |after|
      ensures after[a].responses.Keys !! after[b].responses.Keys
    {
      assert files[a].responses.Keys !! files[b].responses.Keys;
      if a == i || b == i {
        var o := if a == i then b else a;
        assert files[o].responses.Keys <= seen && files[o].responses.Keys !! files[i].responses.Keys;
      }
    }
  }

  lemma {:induction false} ReplaceOwns(s: Ledger, i: nat, g: FileState, more: set<string>)
    requires OwnedOnce(s) && i < |s.files| && AddsNew(s.files[i], s.seen, g, more)
    ensures OwnedOnce(Ledger(s.files[i := g], more))
  {
    ReplaceCovers(s.files, s.seen, i, g, more);
    ReplaceDisjoint(s.files, s.seen, i, g, more);
    hide Disjoint, OnlySeen, AllOwned;
    assert PathsDistinct(s.files[i := g]);
  }

  lemma {:induction false} ReadFilesOwn(parse: Parser, s: Ledger, disk: map<string, Bytes>, n: nat)
    requires n <= |s.files| && OwnedOnce(s)
    ensures OwnedOnce(ReadFiles(parse, s, disk, n))
  {
    hide AddsNew, ReadStep;
    if n > 0 {
      ReadFilesOwn(parse, s, disk, n - 1);
      var before := ReadFiles(parse, s, disk, n - 1);
      var f := before.files[n - 1];
      ReadAdds(parse, f, before.seen, OnDisk(disk, f.path));
      var (g, more) := ReadStep(parse, f, before.seen, OnDisk(disk, f.path));
      ReplaceOwns(before, n - 1, g, more);
    }
  }

  /** At every reachable state the files own disjoint responses, and between them all that were counted. */
  lemma {:induction false} ResponsesOwnedOnce(parse: Parser, schedule: seq<Snapshot>)
    ensures OwnedOnce(Run(parse, schedule))
  {
    hide OwnedOnce;
    if |schedule| == 0 {
      EmptyOwned();
    } else {
      var before, shot := Run(parse, schedule[..|schedule| - 1]), schedule[|schedule| - 1];
      ResponsesOwnedOnce(parse, schedule[..|schedule| - 1]);
      assert Ledger(before.files, before.seen) == before;
      DiscoverOwns(before.files, before.seen, shot.listing, shot.disk);
      var found := Discover(before.files, shot.listing, shot.disk);
      ReadFilesOwn(parse, Ledger(found, before.seen), shot.disk, |found|);
    }
  }

  lemma {:induction false} EmptyOwned()
    ensures OwnedOnce(Empty)
  {
  }

  // Schedules over files that only grow end where one read of the last snapshot ends.

  ghost predicate Grows(before: map<string, Bytes>, after: map<string, Bytes>) {
    forall p :: p in before ==> p in after && before[p] <= after[p]
  }

  /** The ledger has read the first `n` files up to `disk` and the others up to `read`. */
  ghost predicate ReadTo(parse: Parser, files: seq<FileState>, read: seq<Bytes>, disk: map<string, Bytes>, n: nat)
    requires n <= |files| == |read|
  {
    && (forall i :: 0 <= i < |files| ==> files[i].path in disk && read[i] <= disk[files[i].path])
    && (forall i :: 0 <= i < n ==> Reflects(parse, files[i], disk[files[i].path]))
    && (forall i :: n <= i < |files| ==> Reflects(parse, files[i], read[i]))
  }

  /** The keys of the usable responses the first `n` files hold. */
  function KeysOf(parse: Parser, paths: seq<string>, contents: seq<Bytes>, n: nat): set<string>
    requires n <= |paths| == |contents|
  {
    if n == 0 then {} else KeysOf(parse, paths, contents, n - 1) + Keys(parse, paths[n - 1], contents[n - 1])
  }

  function PathsOf(files: seq<FileState>): seq<string> {
    seq(|files|, i requires 0 <= i < |files| => files[i].path)
  }

  function ContentsOf(files: seq<FileState>, disk: map<string, Bytes>): seq<Bytes> {
    seq(|files|, i requires 0 <= i < |files| => if files[i].path in disk then disk[files[i].path] else [])
  }

  lemma {:induction false} KeysWithin(parse: Parser, paths: seq<string>, contents: seq<Bytes>, n: nat, i: nat)
    requires i < n <= |paths| == |contents|
    ensures Keys(parse, paths[i], contents[i]) <= KeysOf(parse, paths, contents, n)
  {
    if i < n - 1 {
      KeysWithin(parse, paths, contents, n - 1, i);
    }
  }

  lemma {:induction false} KeysGrow(parse: Parser, path: string, before: Bytes, after: Bytes)
    requires before <= after
    ensures Keys(parse, path, before) <= Keys(parse, path, after)
  {
    var chunk := after[|before|..];
    assert after == before + chunk;
    SplitOn(before, chunk);
    KeysConcat(parse, path, Lines(before), Lines(Tail(before) + chunk));
  }

  lemma {:induction false} KeysOfGrow(parse: Parser, paths: seq<string>, before: seq<Bytes>, after: seq<Bytes>, n: nat)
    requires n <= |paths| == |before| == |after| && forall i :: 0 <= i < n ==> before[i] <= after[i]
    ensures KeysOf(parse, paths, before, n) <= KeysOf(parse, paths, after, n)
  {
    if n > 0 {
      KeysOfGrow(parse, paths, before, after, n - 1);
      KeysGrow(parse, paths[n - 1], before[n - 1], after[n - 1]);
    }
  }

  lemma {:induction false} ReadToStep(
    parse: Parser, files: seq<FileState>, read: seq<Bytes>, disk: map<string, Bytes>, n: nat, g: FileState)
    requires n < |files| == |read| && ReadTo(parse, files, read, disk, n)
    requires g.path == files[n].path && Reflects(parse, g, disk[g.path])
    ensures ReadTo(parse, files[n := g], read, disk, n + 1)
    ensures PathsOf(files[n := g]) == PathsOf(files)
  {
    hide Reflects;
    assert forall i :: 0 <= i < |files| ==> files[n := g][i].path == files[i].path;
  }

  lemma {:induction false} ReadFilesReflect(
    parse: Parser, s: Ledger, read: seq<Bytes>, disk: map<string, Bytes>, n: nat)
    requires n <= |s.files| == |read| && ReadTo(parse, s.files, read, disk, 0)
    requires s.seen == KeysOf(parse, PathsOf(s.files), read, |s.files|)
    ensures var r := ReadFiles(parse, s, disk, n);
      && PathsOf(r.files) == PathsOf(s.files)
      && ReadTo(parse, r.files, read, disk, n)
      && r.seen == s.seen + KeysOf(parse, PathsOf(s.files), ContentsOf(s.files, disk), n)
  {
    hide Reflects, Keys, ReadStep;
    if n > 0 {
      ReadFilesReflect(parse, s, read, disk, n - 1);
      var r := ReadFiles(parse, s, disk, n - 1);
      var paths, f := PathsOf(s.files), r.files[n - 1];
      assert f.path == PathsOf(r.files)[n - 1] == paths[n - 1];
      KeysWithin(parse, paths, read, |s.files|, n - 1);
      ReadReflects(parse, f, r.seen, read[n - 1], disk[f.path]);
      assert ContentsOf(s.files, disk)[n - 1] == disk[f.path];
      hide PathsOf, ContentsOf, KeysOf;
      ReadToStep(parse, r.files, read, disk, n - 1, ReadStep(parse, f, r.seen, Some(disk[f.path])).0);
      hide ReadTo;
      KeysOfStep(parse, paths, ContentsOf(s.files, disk), n);
    }
  }

  lemma {:induction false} KeysOfStep(parse: Parser, paths: seq<string>, contents: seq<Bytes>, n: nat)
    requires 0 < n <= |paths| == |contents|
    ensures KeysOf(parse, paths, contents, n) ==
      KeysOf(parse, paths, contents, n - 1) + Keys(parse, paths[n - 1], contents[n - 1])
  {
  }

  /** The ledger is what one read of every file it knows leaves, apart from which file owns which response. */
  ghost predicate Mirrors(parse: Parser, s: Ledger, disk: map<string, Bytes>) {
    && (forall i :: 0 <= i < |s.files| ==>
      s.files[i].path in disk && Reflects(parse, s.files[i], disk[s.files[i].path]))
    && s.seen == KeysOf(parse, PathsOf(s.files), ContentsOf(s.files, disk), |s.files|)
  }

  lemma {:induction false} KeysOfPrefix(
    parse: Parser, paths: seq<string>, more: seq<string>, contents: seq<Bytes>, rest: seq<Bytes>, n: nat)
    requires n <= |paths| == |contents| && |more| == |rest|
    ensures KeysOf(parse, paths + more, contents + rest, n) == KeysOf(parse, paths, contents, n)
  {
    if n > 0 {
      KeysOfPrefix(parse, paths, more, contents, rest, n - 1);
    }
  }

  lemma {:induction false} FoundReads(
    parse: Parser, files: seq<FileState>, read: seq<Bytes>, seen: set<string>, disk: map<string, Bytes>, path: string)
    requires |files| == |read| && ReadTo(parse, files, read, disk, 0) && path in disk
    requires seen == KeysOf(parse, PathsOf(files), read, |files|)
    ensures var found := files + [NewFile(path)];
      ReadTo(parse, found, read + [[]], disk, 0) && seen == KeysOf(parse, PathsOf(found), read + [[]], |found|)
  {
    NewFileReflects(parse, path);
    hide Reflects, Keys;
    var found := files + [NewFile(path)];
    assert PathsOf(found) == PathsOf(files) + [path];
    KeysOfPrefix(parse, PathsOf(files), [path], read, [[]], |files|);
  }

  lemma {:induction false} DiscoverReads(
    parse: Parser, files: seq<FileState>, read: seq<Bytes>, seen: set<string>, listing: seq<string>,
    disk: map<string, Bytes>)
    returns (all: seq<Bytes>)
    requires |files| == |read| && ReadTo(parse, files, read, disk, 0)
    requires seen == KeysOf(parse, PathsOf(files), read, |files|)
    ensures var found := Discover(files, listing, disk);
      |all| == |found| && ReadTo(parse, found, all, disk, 0) && seen == KeysOf(parse, PathsOf(found), all, |found|)
  {
    hide ReadTo, KeysOf, Knows;
    all := read;
    if |listing| > 0 {
      all := DiscoverReads(parse, files, read, seen, listing[..|listing| - 1], disk);
      var before, path := Discover(files, listing[..|listing| - 1], disk), listing[|listing| - 1];
      if !Knows(before, path) && path in disk {
        FoundReads(parse, before, all, seen, disk, path);
        all := all + [[]];
      }
    }
  }

  lemma {:induction false} SamePaths(files: seq<FileState>, others: seq<FileState>, disk: map<string, Bytes>)
    requires PathsOf(files) == PathsOf(others)
    ensures |files| == |others| && forall i :: 0 <= i < |files| ==> files[i].path == others[i].path
    ensures ContentsOf(files, disk) == ContentsOf(others, disk)
  {
    assert |PathsOf(files)| == |files| && |PathsOf(others)| == |others|;
    assert forall i :: 0 <= i < |files| ==> files[i].path == PathsOf(files)[i];
  }

  lemma {:induction false} AllReadMirrors(parse: Parser, r: Ledger, read: seq<Bytes>, disk: map<string, Bytes>)
    requires |read| == |r.files| && ReadTo(parse, r.files, read, disk, |r.files|)
    requires r.seen ==
      KeysOf(parse, PathsOf(r.files), read, |r.files|)
        + KeysOf(parse, PathsOf(r.files), ContentsOf(r.files, disk), |r.files|)
    ensures Mirrors(parse, r, disk)
  {
    hide Reflects, Keys;
    KeysOfGrow(parse, PathsOf(r.files), read, ContentsOf(r.files, disk), |r.files|);
  }

  lemma {:induction false} RefreshMirrors(parse: Parser, s: Ledger, disk: map<string, Bytes>, shot: Snapshot)
    requires Mirrors(parse, s, disk) && Grows(disk, shot.disk)
    ensures Mirrors(parse, RefreshStep(parse, s, shot), shot.disk)
  {
    hide Reflects, Keys, KeysOf;
    var all := DiscoverReads(parse, s.files, ContentsOf(s.files, disk), s.seen, shot.listing, shot.disk);
    var found := Discover(s.files, shot.listing, shot.disk);
    ReadFilesReflect(parse, Ledger(found, s.seen), all, shot.disk, |found|);
    hide ReadTo, Mirrors, Grows;
    var r := RefreshStep(parse, s, shot);
    SamePaths(r.files, found, shot.disk);
    AllReadMirrors(parse, r, all, shot.disk);
  }

  /** Each snapshot of a schedule keeps what the one before it held, and only adds to the files' ends. */
  ghost predicate AppendOnly(schedule: seq<Snapshot>) {
    forall i :: 0 < i < |schedule| ==> Grows(schedule[i - 1].disk, schedule[i].disk)
  }

  lemma {:induction false} RunMirrors(parse: Parser, schedule: seq<Snapshot>)
    requires |schedule| > 0 && AppendOnly(schedule)
    ensures Mirrors(parse, Run(parse, schedule), schedule[|schedule| - 1].disk)
  {
    hide Mirrors, RefreshStep;
    var n := |schedule| - 1;
    if n == 0 {
      EmptyMirrors(parse);
      assert schedule[..0] == [];
      RefreshMirrors(parse, Empty, map[], schedule[0]);
    } else {
      RunMirrors(parse, schedule[..n]);
      RefreshMirrors(parse, Run(parse, schedule[..n]), schedule[n - 1].disk, schedule[n]);
    }
  }

  lemma {:induction false} EmptyMirrors(parse: Parser)
    ensures Mirrors(parse, Empty, map[])
  {
  }

  function Found(files: seq<FileState>): set<string> {
    set i | 0 <= i < |files| :: files[i].path
  }

  function Present(shot: Snapshot): set<string> {
    set p | p in shot.listing && p in shot.disk
  }

  function EverListed(schedule: seq<Snapshot>): set<string> {
    if |schedule| == 0 then {} else EverListed(schedule[..|schedule| - 1]) + Present(schedule[|schedule| - 1])
  }

  lemma {:induction false} DiscoverFinds(files: seq<FileState>, listing: seq<string>, disk: map<string, Bytes>)
    ensures Found(Discover(files, listing, disk)) == Found(files) + Present(Snapshot(listing, disk))
  {
    if |listing| > 0 {
      var rest, path := listing[..|listing| - 1], listing[|listing| - 1];
      DiscoverFinds(files, rest, disk);
      var before := Discover(files, rest, disk);
      assert Present(Snapshot(listing, disk)) == Present(Snapshot(rest, disk)) + (if path in disk then {path} else {});
      FoundAppend(before, NewFile(path));
    }
  }

  lemma {:induction false} FoundAppend(files: seq<FileState>, f: FileState)
    ensures Found(files + [f]) == Found(files) + {f.path}
  {
    var more := files + [f];
    assert more[|files|] == f && forall i :: 0 <= i < |files| ==> more[i] == files[i];
  }

  lemma {:induction false} ReadFilesPaths(parse: Parser, s: Ledger, disk: map<string, Bytes>, n: nat)
    requires n <= |s.files|
    ensures forall i :: 0 <= i < |s.files| ==> ReadFiles(parse, s, disk, n).files[i].path == s.files[i].path
  {
    if n > 0 {
      ReadFilesPaths(parse, s, disk, n - 1);
      var before := ReadFiles(parse, s, disk, n - 1);
      ReadKeepsPath(parse, before.files[n - 1], before.seen, OnDisk(disk, before.files[n - 1].path));
    }
  }

  lemma {:induction false} ReadKeepsPath(parse: Parser, f: FileState, seen: set<string>, content: Option<Bytes>)
    ensures ReadStep(parse, f, seen, content).0.path == f.path
  {
    if content.Some? {
      var g := Rewound(f, |content.value|);
      var data := g.partial + content.value[g.offset..];
      RecordAllReports(parse, g.(offset := |content.value|, partial := Tail(data)), seen, Lines(data));
    }
  }

  lemma {:induction false} RunFinds(parse: Parser, schedule: seq<Snapshot>)
    ensures Found(Run(parse, schedule).files) == EverListed(schedule)
  {
    if |schedule| > 0 {
      var before, shot := Run(parse, schedule[..|schedule| - 1]), schedule[|schedule| - 1];
      RunFinds(parse, schedule[..|schedule| - 1]);
      DiscoverFinds(before.files, shot.listing, shot.disk);
      var found := Discover(before.files, shot.listing, shot.disk);
      ReadFilesPaths(parse, Ledger(found, before.seen), shot.disk, |found|);
    }
  }

  lemma {:induction false} KeysOfMember(
    parse: Parser, files: seq<FileState>, disk: map<string, Bytes>, n: nat, k: string)
    requires n <= |files| && forall i :: 0 <= i < |files| ==> files[i].path in disk
    ensures k in KeysOf(parse, PathsOf(files), ContentsOf(files, disk), n) <==>
      exists i :: 0 <= i < n && k in Keys(parse, files[i].path, disk[files[i].path])
  {
    hide Keys;
    if n > 0 {
      KeysOfMember(parse, files, disk, n - 1, k);
    }
  }

  lemma {:induction false} SeenBySet(parse: Parser, s: Ledger, t: Ledger, disk: map<string, Bytes>)
    requires Mirrors(parse, s, disk) && Mirrors(parse, t, disk) && Found(s.files) <= Found(t.files)
    ensures s.seen <= t.seen
  {
    hide Keys, Reflects;
    forall k | k in s.seen
      ensures k in t.seen
    {
      KeysOfMember(parse, s.files, disk, |s.files|, k);
      KeysOfMember(parse, t.files, disk, |t.files|, k);
      var i :| 0 <= i < |s.files| && k in Keys(parse, s.files[i].path, disk[s.files[i].path]);
      assert s.files[i].path in Found(s.files);
      var j :| 0 <= j < |t.files| && t.files[j].path == s.files[i].path;
      assert k in Keys(parse, t.files[j].path, disk[t.files[j].path]);
    }
  }

  ghost predicate SameReading(f: FileState, g: FileState) {
    && f.offset == g.offset && f.partial == g.partial && f.line == g.line
    && f.counted == g.counted && f.countMessages == g.countMessages
  }

  /**
   * However the growth of the files is cut into refreshes, the ledger ends with the same files, the same
   * reading of each and the same counted responses as one read of the last snapshot.
   */
  lemma {:induction false} ChunksDoNotMatter(parse: Parser, schedule: seq<Snapshot>)
    requires |schedule| > 0 && AppendOnly(schedule) && EverListed(schedule) == Present(schedule[|schedule| - 1])
    ensures var many, one := Run(parse, schedule), Run(parse, [schedule[|schedule| - 1]]);
      && Found(many.files) == Found(one.files)
      && many.seen == one.seen
      && (forall i, j :: 0 <= i < |many.files| && 0 <= j < |one.files| && many.files[i].path == one.files[j].path ==>
            SameReading(many.files[i], one.files[j]))
  {
    hide RefreshStep, Keys;
    var last := schedule[|schedule| - 1];
    RunMirrors(parse, schedule);
    RunMirrors(parse, [last]);
    RunFinds(parse, schedule);
    RunFinds(parse, [last]);
    assert EverListed([last]) == Present(last) by {
      assert [last][..0] == [];
    }
    var many, one := Run(parse, schedule), Run(parse, [last]);
    SeenBySet(parse, many, one, last.disk);
    SeenBySet(parse, one, many, last.disk);
  }

  // The usage each response is counted with.

  ghost predicate ReportsAt(parse: Parser, path: string, line: nat, raw: Bytes, k: string, u: Usage) {
    var r := Report(parse, raw);
    r.Response? && r.usage == Some(u) && KeyOf(path, line, r.id) == k
  }

  ghost predicate ReportedIn(parse: Parser, path: string, start: nat, lines: seq<Bytes>, k: string, u: Usage) {
    exists n :: 0 <= n < |lines| && ReportsAt(parse, path, start + n + 1, lines[n], k, u)
  }

  /** Every response the file owns carries the usage one of its lines reports. */
  ghost predicate Sourced(parse: Parser, f: FileState, c: Bytes) {
    forall k :: k in f.responses ==> ReportedIn(parse, f.path, 0, Lines(c), k, f.responses[k])
  }

  lemma {:induction false} ReportedPrefix(
    parse: Parser, path: string, xs: seq<Bytes>, ys: seq<Bytes>, k: string, u: Usage)
    requires ReportedIn(parse, path, 0, xs, k, u) || ReportedIn(parse, path, |xs|, ys, k, u)
    ensures ReportedIn(parse, path, 0, xs + ys, k, u)
  {
    hide ReportsAt;
    if ReportedIn(parse, path, 0, xs, k, u) {
      var n :| 0 <= n < |xs| && ReportsAt(parse, path, 0 + n + 1, xs[n], k, u);
      assert (xs + ys)[n] == xs[n];
    } else {
      var n :| 0 <= n < |ys| && ReportsAt(parse, path, |xs| + n + 1, ys[n], k, u);
      assert (xs + ys)[|xs| + n] == ys[n];
      assert ReportsAt(parse, path, 0 + (|xs| + n) + 1, (xs + ys)[|xs| + n], k, u);
    }
  }

  lemma {:induction false} RecordAllSources(parse: Parser, f: FileState, seen: set<string>, lines: seq<Bytes>)
    ensures var g := RecordAll(parse, f, seen, lines).0;
      forall k :: k in g.responses ==>
        (k in f.responses && g.responses[k] == f.responses[k]) ||
          ReportedIn(parse, f.path, f.line, lines, k, g.responses[k])
  {
    if |lines| > 0 {
      var before, raw := lines[..|lines| - 1], lines[|lines| - 1];
      RecordAllSources(parse, f, seen, before);
      RecordAllReports(parse, f, seen, before);
      var (h, more) := RecordAll(parse, f, seen, before);
      var g := RecordAll(parse, f, seen, lines).0;
      RecordStepSources(parse, h, more, raw);
      hide RecordAll, RecordStep, ReportsAt, KeysIn, CountedIn, MessagesIn;
      forall k | k in g.responses
        ensures (k in f.responses && g.responses[k] == f.responses[k]) ||
          ReportedIn(parse, f.path, f.line, lines, k, g.responses[k])
      {
        if k in h.responses && h.responses[k] == g.responses[k] {
          if ReportedIn(parse, f.path, f.line, before, k, h.responses[k]) {
            var n :| 0 <= n < |before| && ReportsAt(parse, f.path, f.line + n + 1, before[n], k, h.responses[k]);
            assert lines[n] == before[n];
          }
        } else {
          var n := |lines| - 1;
          assert ReportsAt(parse, f.path, f.line + n + 1, lines[n], k, g.responses[k]);
        }
      }
    }
  }

  lemma {:induction false} RecordStepSources(parse: Parser, f: FileState, seen: set<string>, raw: Bytes)
    ensures var g := RecordStep(parse, f, seen, raw).0;
      forall k :: k in g.responses ==>
        (k in f.responses && g.responses[k] == f.responses[k]) ||
          ReportsAt(parse, f.path, f.line + 1, raw, k, g.responses[k])
  {
  }

  lemma {:induction false} ReadSources(parse: Parser, f: FileState, seen: set<string>, c: Bytes, next: Bytes)
    requires Reflects(parse, f, c) && c <= next && Sourced(parse, f, c)
    ensures Sourced(parse, ReadStep(parse, f, seen, Some(next)).0, next)
  {
    hide ReportedIn;
    var chunk := next[|c|..];
    assert next == c + chunk;
    SplitOn(c, chunk);
    var data := f.partial + chunk;
    var g := ReadStep(parse, f, seen, Some(next)).0;
    if |next| != f.offset {
      var read := f.(offset := |next|, partial := Tail(data));
      RecordAllSources(parse, read, seen, Lines(data));
      RecordAllReports(parse, read, seen, Lines(data));
      forall k | k in g.responses
        ensures ReportedIn(parse, g.path, 0, Lines(next), k, g.responses[k])
      {
        ReportedPrefix(parse, f.path, Lines(c), Lines(data), k, g.responses[k]);
      }
    } else {
      assert next == c;
    }
  }
}
