/** What one refresh of the ledger does, said of the lines it reads and the paths it is given. */
module LedgerReads {
  import opened Prelude
  import opened LedgerSpec
  import opened LedgerTotals
  import opened LedgerLaws

  // Token counts.

  /** The token counts among the first `n` lines, added up line by line. */
  function CountSum(parse: Parser, c: Bytes, n: nat, d: Field): int
    requires n <= |Lines(c)|
  {
    if n == 0 then 0 else
      var rest, raw := CountSum(parse, c, n - 1, d), Lines(c)[n - 1];
      if Blank(raw) then rest else
        match parse(raw)
        case Count(Some(usage)) => rest + FieldOf(usage, d)
        case _ => rest
  }

  lemma {:induction false} CountedSums(parse: Parser, c: Bytes, n: nat, d: Field)
    requires n <= |Lines(c)|
    ensures FieldOf(CountedIn(parse, Lines(c)[..n]), d) == CountSum(parse, c, n, d)
  {
    hide Lines, Blank;
    if n > 0 {
      CountedSums(parse, c, n - 1, d);
      assert Lines(c)[..n][..n - 1] == Lines(c)[..n - 1];
    }
  }

  /** After every append-only run a file that is still there has the plain sum of the counts its lines state. */
  lemma {:induction false} CountsAre(parse: Parser, schedule: seq<Snapshot>, i: nat, d: Field)
    requires |schedule| > 0 && AppendOnly(schedule) && i < |Run(parse, schedule).files|
    ensures var f, disk := Run(parse, schedule).files[i], schedule[|schedule| - 1].disk;
      f.path in disk && FieldOf(f.counted, d) == CountSum(parse, disk[f.path], |Lines(disk[f.path])|, d)
  {
    RunMirrors(parse, schedule);
    hide Run, CountedIn, Lines, CountSum, FieldOf;
    var f, disk := Run(parse, schedule).files[i], schedule[|schedule| - 1].disk;
    var c := disk[f.path];
    CountedSums(parse, c, |Lines(c)|, d);
    assert Lines(c)[..|Lines(c)|] == Lines(c);
  }

  // One read.

  /** The lines a read of the content comes to, and the number of lines before them. */
  function Unread(f: FileState, content: Option<Bytes>): seq<Bytes> {
    match content
    case None => []
    case Some(c) =>
      if |c| < f.offset then Lines(c) else if |c| == f.offset then [] else Lines(f.partial + c[f.offset..])
  }

  function Before(f: FileState, content: Option<Bytes>): nat {
    if content.Some? && |content.value| < f.offset then 0 else f.line
  }

  /** Line `n` of the lines, which follow `start` others, counts under `k`. */
  ghost predicate SaysAt(parse: Parser, path: string, start: nat, lines: seq<Bytes>, n: nat, k: string, u: Usage) {
    n < |lines| && Says(parse, path, start + n + 1, lines[n], k, u)
  }

  /** It is the first that does. */
  ghost predicate FirstSays(parse: Parser, path: string, start: nat, lines: seq<Bytes>, n: nat, k: string, u: Usage) {
    && SaysAt(parse, path, start, lines, n, k, u)
    && forall m: nat, v :: m < n ==> !SaysAt(parse, path, start, lines, m, k, v)
  }

  ghost predicate NoneSays(parse: Parser, path: string, start: nat, lines: seq<Bytes>, k: string) {
    forall m: nat, v :: !SaysAt(parse, path, start, lines, m, k, v)
  }

  lemma {:induction false} StepCounts(
    parse: Parser, f: FileState, seen: set<string>, raw: Bytes, k: string, line: nat)
    requires line == f.line + 1
    ensures var (g, more) := RecordStep(parse, f, seen, raw);
      && g.path == f.path && g.line == line
      && (forall u :: k !in seen && Says(parse, f.path, line, raw, k, u) ==>
            k in more && k in g.responses && g.responses[k] == u)
      && (k in seen || (forall u :: !Says(parse, f.path, line, raw, k, u)) ==>
            && (k in more <==> k in seen)
            && (k in g.responses <==> k in f.responses)
            && (k in f.responses ==> g.responses[k] == f.responses[k]))
  {
    BlankMeans(raw);
    hide Decimal;
    match parse(raw)
    case Response(id, Some(usage)) =>
      assert KeyOf(f.path, line, id) == k ==> Blank(raw) || Says(parse, f.path, line, raw, k, usage);
    case _ =>
  }

  /** A read counts a response it has not seen with the usage of the first line that reports it, and no other. */
  lemma {:induction false} RecordCounts(parse: Parser, f: FileState, seen: set<string>, lines: seq<Bytes>, k: string)
    ensures var (g, more) := RecordAll(parse, f, seen, lines);
      && g.path == f.path && g.line == f.line + |lines|
      && (forall n: nat, u :: k !in seen && FirstSays(parse, f.path, f.line, lines, n, k, u) ==>
            k in more && k in g.responses && g.responses[k] == u)
      && (k in seen || NoneSays(parse, f.path, f.line, lines, k) ==>
            && (k in more <==> k in seen)
            && (k in g.responses <==> k in f.responses)
            && (k in f.responses ==> g.responses[k] == f.responses[k]))
  {
    if |lines| > 0 {
      var last := |lines| - 1;
      var before := lines[..last];
      RecordCounts(parse, f, seen, before, k);
      var (g, more) := RecordAll(parse, f, seen, before);
      StepCounts(parse, g, more, lines[last], k, g.line + 1);
      hide RecordStep, Says;
      SaysBefore(parse, f.path, f.line, lines, k, f.line + |lines|);
    }
  }

  /** What is said among the lines is said before the last or by the last. */
  lemma {:induction false} SaysBefore(
    parse: Parser, path: string, start: nat, lines: seq<Bytes>, k: string, line: nat)
    requires |lines| > 0 && line == start + |lines|
    ensures var last := |lines| - 1;
      && (NoneSays(parse, path, start, lines, k) <==>
            NoneSays(parse, path, start, lines[..last], k) &&
            forall u :: !Says(parse, path, line, lines[last], k, u))
      && forall n: nat, u :: FirstSays(parse, path, start, lines, n, k, u) <==>
           FirstSays(parse, path, start, lines[..last], n, k, u)
           || (n == last && NoneSays(parse, path, start, lines[..last], k) &&
               Says(parse, path, line, lines[last], k, u))
  {
    var last := |lines| - 1;
    hide Says;
    forall m: nat, v
      ensures SaysAt(parse, path, start, lines[..last], m, k, v) <==>
        m < last && SaysAt(parse, path, start, lines, m, k, v)
    {
    }
    forall v
      ensures SaysAt(parse, path, start, lines, last, k, v) <==> Says(parse, path, line, lines[last], k, v)
    {
    }
    forall m: nat, v | SaysAt(parse, path, start, lines, m, k, v)
      ensures m <= last
    {
    }
    hide SaysAt;
  }

  lemma {:induction false} ReadCounts(parse: Parser, f: FileState, seen: set<string>, content: Option<Bytes>, k: string)
    ensures var (g, more) := ReadStep(parse, f, seen, content);
      && g.path == f.path
      && (forall n: nat, u ::
            k !in seen && FirstSays(parse, f.path, Before(f, content), Unread(f, content), n, k, u) ==>
              k in more && k in g.responses && g.responses[k] == u)
      && (k in seen || NoneSays(parse, f.path, Before(f, content), Unread(f, content), k) ==>
            && (k in more <==> k in seen)
            && (k in g.responses <==> k in f.responses)
            && (k in f.responses ==> g.responses[k] == f.responses[k]))
  {
    if content.Some? {
      var c, g := content.value, Rewound(f, |content.value|);
      if |c| != g.offset {
        var data := g.partial + c[g.offset..];
        assert Lines(data) == Unread(f, content) by {
          assert [] + c[0..] == c;
        }
        RecordCounts(parse, g.(offset := |c|, partial := Tail(data)), seen, Lines(data), k);
      }
    }
    hide RecordAll, Says;
  }

  // One refresh.

  /** The files before `n` are read, and file `i` is as the ledger had it when its turn comes. */
  lemma {:induction false} TurnComes(parse: Parser, s: Ledger, disk: map<string, Bytes>, n: nat, i: nat)
    requires n <= i < |s.files|
    ensures ReadFiles(parse, s, disk, n).files[i] == s.files[i]
  {
    if n > 0 {
      TurnComes(parse, s, disk, n - 1, i);
    }
  }

  /** Once read, a file stays as it is until the next refresh. */
  lemma {:induction false} TurnPasses(parse: Parser, s: Ledger, disk: map<string, Bytes>, n: nat, i: nat)
    requires i < n <= |s.files|
    ensures ReadFiles(parse, s, disk, n).files[i] == ReadFiles(parse, s, disk, i + 1).files[i]
  {
    if i + 1 < n {
      TurnPasses(parse, s, disk, n - 1, i);
    }
  }

  function UnreadOf(s: Ledger, disk: map<string, Bytes>, j: nat): seq<Bytes>
    requires j < |s.files|
  {
    Unread(s.files[j], OnDisk(disk, s.files[j].path))
  }

  function BeforeOf(s: Ledger, disk: map<string, Bytes>, j: nat): nat
    requires j < |s.files|
  {
    Before(s.files[j], OnDisk(disk, s.files[j].path))
  }

  /** No unread line of the first `n` files counts under `k`. */
  ghost predicate Silent(parse: Parser, s: Ledger, disk: map<string, Bytes>, n: nat, k: string)
    requires n <= |s.files|
  {
    forall j :: 0 <= j < n ==> NoneSays(parse, s.files[j].path, BeforeOf(s, disk, j), UnreadOf(s, disk, j), k)
  }

  lemma {:induction false} SilentAdds(parse: Parser, s: Ledger, disk: map<string, Bytes>, n: nat, k: string)
    requires n <= |s.files| && k !in s.seen && Silent(parse, s, disk, n, k)
    ensures k !in ReadFiles(parse, s, disk, n).seen
  {
    hide NoneSays;
    if n > 0 {
      SilentAdds(parse, s, disk, n - 1, k);
      TurnComes(parse, s, disk, n - 1, n - 1);
      ReadCounts(
        parse, s.files[n - 1], ReadFiles(parse, s, disk, n - 1).seen, OnDisk(disk, s.files[n - 1].path), k);
      hide ReadStep, FirstSays, UnreadOf, BeforeOf;
      assert NoneSays(parse, s.files[n - 1].path, BeforeOf(s, disk, n - 1), UnreadOf(s, disk, n - 1), k);
    }
  }

  /**
   * A refresh counts a response that was not counted before in the first file that reports it unread, in the order the
   * files were found, and with the usage of the first line there.
   */
  lemma {:induction false} FirstCounts(
    parse: Parser, s: Ledger, disk: map<string, Bytes>, i: nat, n: nat, k: string, u: Usage)
    requires i < |s.files| && k !in s.seen && Silent(parse, s, disk, i, k)
    requires FirstSays(parse, s.files[i].path, BeforeOf(s, disk, i), UnreadOf(s, disk, i), n, k, u)
    ensures var f := ReadFiles(parse, s, disk, |s.files|).files[i]; k in f.responses && f.responses[k] == u
  {
    hide FirstSays, ReadStep, Silent;
    SilentAdds(parse, s, disk, i, k);
    TurnComes(parse, s, disk, i, i);
    TurnPasses(parse, s, disk, |s.files|, i);
    ReadCounts(parse, s.files[i], ReadFiles(parse, s, disk, i).seen, OnDisk(disk, s.files[i].path), k);
  }

  /** A refresh leaves a file that is gone as it was. */
  lemma {:induction false} GoneKeeps(parse: Parser, schedule: seq<Snapshot>, i: nat)
    requires |schedule| > 0
    requires var s, last := Run(parse, schedule[..|schedule| - 1]), schedule[|schedule| - 1];
      i < |s.files| && s.files[i].path !in last.disk
    ensures var s, after := Run(parse, schedule[..|schedule| - 1]), Run(parse, schedule);
      i < |after.files| && after.files[i] == s.files[i]
  {
    var s, last := Run(parse, schedule[..|schedule| - 1]), schedule[|schedule| - 1];
    DiscoverKeeps(s.files, last.listing, last.disk);
    var found := Ledger(Discover(s.files, last.listing, last.disk), s.seen);
    hide Discover;
    TurnComes(parse, found, last.disk, i, i);
    TurnPasses(parse, found, last.disk, |found.files|, i);
  }

  lemma {:induction false} DiscoverKeeps(files: seq<FileState>, listing: seq<string>, disk: map<string, Bytes>)
    ensures files <= Discover(files, listing, disk)
  {
    if |listing| > 0 {
      DiscoverKeeps(files, listing[..|listing| - 1], disk);
    }
  }

  /** The path is listed before `other` first is. */
  ghost predicate ListedFirst(listing: seq<string>, path: string, other: string) {
    exists p :: 0 <= p < |listing| && listing[p] == path && other !in listing[..p + 1]
  }

  lemma {:induction false} ListedStill(listing: seq<string>, more: string, path: string, other: string)
    requires ListedFirst(listing, path, other)
    ensures ListedFirst(listing + [more], path, other)
  {
    var p :| 0 <= p < |listing| && listing[p] == path && other !in listing[..p + 1];
    assert (listing + [more])[..p + 1] == listing[..p + 1] && (listing + [more])[p] == path;
  }

  /** New files are added unread, each once, in the order in which the listing first names them. */
  lemma {:induction false} DiscoverOrders(files: seq<FileState>, listing: seq<string>, disk: map<string, Bytes>)
    ensures var found := Discover(files, listing, disk);
      && files <= found
      && (forall i :: |files| <= i < |found| ==>
            found[i] == NewFile(found[i].path) && found[i].path in listing && found[i].path in disk)
      && (forall i, j :: |files| <= i < j < |found| ==> ListedFirst(listing, found[i].path, found[j].path))
  {
    if |listing| > 0 {
      var before, last := listing[..|listing| - 1], listing[|listing| - 1];
      DiscoverOrders(files, before, disk);
      DiscoverKnows(files, before, disk);
      assert listing == before + [last];
      var known, found := Discover(files, before, disk), Discover(files, listing, disk);
      hide Discover;
      forall i, j | |files| <= i < j < |found|
        ensures ListedFirst(listing, found[i].path, found[j].path)
      {
        if j < |known| {
          ListedStill(before, last, found[i].path, found[j].path);
        } else {
          NewlyListed(before, known, found[i].path, last, disk);
        }
      }
    }
  }

  lemma {:induction false} DiscoverKnows(files: seq<FileState>, listing: seq<string>, disk: map<string, Bytes>)
    ensures forall path :: path in listing && path in disk ==> Knows(Discover(files, listing, disk), path)
  {
    if |listing| > 0 {
      var before, last := listing[..|listing| - 1], listing[|listing| - 1];
      DiscoverKnows(files, before, disk);
      var known, found := Discover(files, before, disk), Discover(files, listing, disk);
      assert found == known || found == known + [NewFile(last)];
      assert found != known ==> found[|known|].path == last;
      hide Discover;
      forall path | Knows(known, path)
        ensures Knows(found, path)
      {
        var i :| 0 <= i < |known| && known[i].path == path;
        assert found[i].path == path;
      }
      assert listing == before + [last];
    }
  }

  /** A path that is new at the end of the listing was not named before. */
  lemma {:induction false} NewlyListed(
    before: seq<string>, known: seq<FileState>, path: string, last: string, disk: map<string, Bytes>)
    requires path in before && last in disk && !Knows(known, last)
    requires forall p :: p in before && p in disk ==> Knows(known, p)
    ensures ListedFirst(before + [last], path, last)
  {
    var p :| 0 <= p < |before| && before[p] == path;
    assert (before + [last])[..p + 1] == before[..p + 1] && (before + [last])[p] == path;
  }

  // Problems of a refresh.

  /** What one read reports: the path of a file that shrank, and the places of the lines it could not use. */
  lemma {:induction false} ReadProblemsAre(
    parse: Parser, f: FileState, seen: set<string>, content: Option<Bytes>, x: string)
    ensures x in ReadProblems(parse, f, seen, content) <==>
      || (content.Some? && |content.value| < f.offset && x == f.path)
      || exists n: nat ::
           Unusable(parse, f.(line := Before(f, content)), seen, Unread(f, content), n)
           && x == f.path + ":" + Decimal(Before(f, content) + n + 1)
  {
    var read := ReadFrom(f, content);
    var lines := Unread(f, content);
    ReadProblemsIs(parse, f, seen, content);
    ProblemsAre(parse, read, seen, lines, x);
    forall n: nat
      ensures Unusable(parse, read, seen, lines, n) <==>
        Unusable(parse, f.(line := Before(f, content)), seen, lines, n)
    {
      SameUnusable(parse, read, f.(line := Before(f, content)), seen, lines, n);
    }
    hide *;
    assert read.path == f.path && read.line == Before(f, content);
  }

  /** The file as a read of the content takes its lines. */
  function ReadFrom(f: FileState, content: Option<Bytes>): (g: FileState)
    ensures g.path == f.path && g.line == Before(f, content)
  {
    match content
    case None => f
    case Some(c) =>
      var g := Rewound(f, |c|);
      if |c| == g.offset then g else g.(offset := |c|, partial := Tail(g.partial + c[g.offset..]))
  }

  lemma {:induction false} SameUnusable(
    parse: Parser, f: FileState, g: FileState, seen: set<string>, lines: seq<Bytes>, n: nat)
    requires f.path == g.path && f.line == g.line
    ensures Unusable(parse, f, seen, lines, n) <==> Unusable(parse, g, seen, lines, n)
  {
    hide KeysIn, Decimal;
  }

  lemma {:induction false} ReadProblemsIs(parse: Parser, f: FileState, seen: set<string>, content: Option<Bytes>)
    ensures ReadProblems(parse, f, seen, content)
        == (if content.Some? && |content.value| < f.offset then [f.path] else [])
           + LineProblems(parse, ReadFrom(f, content), seen, Unread(f, content))
  {
    if content.Some? {
      var c, g := content.value, Rewound(f, |content.value|);
      if |c| == g.offset {
        assert Unread(f, content) == [];
      } else {
        assert |c| < f.offset ==> g.partial + c[g.offset..] == c;
      }
    }
    hide LineProblems, Split;
  }

  /** A refresh reports what the reads of its files report, each with what the reads before it had counted. */
  lemma {:induction false} FileProblemsAre(parse: Parser, s: Ledger, disk: map<string, Bytes>, n: nat, x: string)
    requires n <= |s.files|
    ensures x in FileProblems(parse, s, disk, n) <==>
      exists i :: 0 <= i < n &&
        x in ReadProblems(parse, s.files[i], ReadFiles(parse, s, disk, i).seen, OnDisk(disk, s.files[i].path))
  {
    hide ReadProblems, ReadFiles;
    if n > 0 {
      FileProblemsAre(parse, s, disk, n - 1, x);
      TurnComes(parse, s, disk, n - 1, n - 1);
    }
  }
}
