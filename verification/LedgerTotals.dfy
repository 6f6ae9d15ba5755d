/** What the ledger's totals say: which usage each response carries, and how the sum meets the documented rules. */
module LedgerTotals {
  import opened Prelude
  import opened LedgerSpec

  ghost predicate AllSourced(parse: Parser, files: seq<FileState>, read: seq<Bytes>)
    requires |files| == |read|
  {
    forall i :: 0 <= i < |files| ==> Sourced(parse, files[i], read[i])
  }

  lemma {:induction false} ReadFilesSource(parse: Parser, s: Ledger, read: seq<Bytes>, disk: map<string, Bytes>, n: nat)
    requires n <= |s.files| == |read| && ReadTo(parse, s.files, read, disk, 0) && AllSourced(parse, s.files, read)
    requires s.seen == KeysOf(parse, PathsOf(s.files), read, |s.files|)
    ensures var r := ReadFiles(parse, s, disk, n);
      && ReadTo(parse, r.files, read, disk, n)
      && (forall i :: 0 <= i < n ==> Sourced(parse, r.files[i], disk[r.files[i].path]))
      && (forall i :: n <= i < |s.files| ==> Sourced(parse, r.files[i], read[i]))
  {
    hide Reflects, Keys, KeysOf, Sourced, ReadStep;
    ReadFilesReflect(parse, s, read, disk, n);
    if n > 0 {
      ReadFilesSource(parse, s, read, disk, n - 1);
      var r := ReadFiles(parse, s, disk, n - 1);
      var f := r.files[n - 1];
      ReadSources(parse, f, r.seen, read[n - 1], disk[f.path]);
      ReadKeepsPath(parse, f, r.seen, Some(disk[f.path]));
    }
  }

  lemma {:induction false} DiscoverSources(
    parse: Parser, files: seq<FileState>, read: seq<Bytes>, seen: set<string>, listing: seq<string>,
    disk: map<string, Bytes>)
    returns (all: seq<Bytes>)
    requires |files| == |read| && ReadTo(parse, files, read, disk, 0) && AllSourced(parse, files, read)
    requires seen == KeysOf(parse, PathsOf(files), read, |files|)
    ensures var found := Discover(files, listing, disk);
      && |all| == |found| && ReadTo(parse, found, all, disk, 0) && AllSourced(parse, found, all)
      && seen == KeysOf(parse, PathsOf(found), all, |found|)
  {
    hide ReadTo, KeysOf, Knows;
    all := read;
    if |listing| > 0 {
      all := DiscoverSources(parse, files, read, seen, listing[..|listing| - 1], disk);
      var before, path := Discover(files, listing[..|listing| - 1], disk), listing[|listing| - 1];
      if !Knows(before, path) && path in disk {
        FoundReads(parse, before, all, seen, disk, path);
        all := all + [[]];
      }
    }
  }

  /** Every response in the ledger carries a usage that a line of its file reports. */
  ghost predicate UsageSourced(parse: Parser, s: Ledger, disk: map<string, Bytes>) {
    forall i :: 0 <= i < |s.files| ==> s.files[i].path in disk && Sourced(parse, s.files[i], disk[s.files[i].path])
  }

  lemma {:induction false} RefreshSources(parse: Parser, s: Ledger, disk: map<string, Bytes>, shot: Snapshot)
    requires Mirrors(parse, s, disk) && UsageSourced(parse, s, disk) && Grows(disk, shot.disk)
    ensures UsageSourced(parse, RefreshStep(parse, s, shot), shot.disk)
  {
    hide Reflects, Keys, KeysOf, Sourced;
    var read := ContentsOf(s.files, disk);
    var all := DiscoverSources(parse, s.files, read, s.seen, shot.listing, shot.disk);
    var found := Discover(s.files, shot.listing, shot.disk);
    ReadFilesSource(parse, Ledger(found, s.seen), all, shot.disk, |found|);
  }

  lemma {:induction false} RunSources(parse: Parser, schedule: seq<Snapshot>)
    requires |schedule| > 0 && AppendOnly(schedule)
    ensures UsageSourced(parse, Run(parse, schedule), schedule[|schedule| - 1].disk)
  {
    hide Mirrors, RefreshStep, UsageSourced;
    var n := |schedule| - 1;
    if n == 0 {
      EmptyMirrors(parse);
      EmptySourced(parse);
      assert schedule[..0] == [];
      RefreshSources(parse, Empty, map[], schedule[0]);
    } else {
      RunSources(parse, schedule[..n]);
      RunMirrors(parse, schedule[..n]);
      RefreshSources(parse, Run(parse, schedule[..n]), schedule[n - 1].disk, schedule[n]);
    }
  }

  lemma {:induction false} EmptySourced(parse: Parser)
    ensures UsageSourced(parse, Empty, map[])
  {
  }

  /** Equal response ids carry equal usage, wherever they are reported. */
  ghost predicate Consistent(parse: Parser, disk: map<string, Bytes>) {
    forall p, q, k, u, v ::
      (p in disk && q in disk && ReportedIn(parse, p, 0, Lines(disk[p]), k, u) &&
        ReportedIn(parse, q, 0, Lines(disk[q]), k, v))
      ==> u == v
  }

  /** The counted responses with their usage, whichever file owns them. */
  function UsageMap(files: seq<FileState>): map<string, Usage> {
    if |files| == 0 then map[] else UsageMap(files[..|files| - 1]) + files[|files| - 1].responses
  }

  lemma {:induction false} UsageMapOwner(files: seq<FileState>, k: string) returns (i: nat)
    requires k in UsageMap(files)
    ensures i < |files| && k in files[i].responses && UsageMap(files)[k] == files[i].responses[k]
  {
    var n := |files| - 1;
    if k in files[n].responses {
      i := n;
    } else {
      i := UsageMapOwner(files[..n], k);
    }
  }

  lemma {:induction false} UsageMapKeys(s: Ledger)
    requires OwnedOnce(s)
    ensures UsageMap(s.files).Keys == s.seen
  {
    forall k | k in UsageMap(s.files)
      ensures k in s.seen
    {
      var i := UsageMapOwner(s.files, k);
      assert s.files[i].responses.Keys <= s.seen;
    }
    forall k | k in s.seen
      ensures k in UsageMap(s.files)
    {
      var i :| 0 <= i < |s.files| && k in s.files[i].responses;
      UsageMapHas(s.files, i, k);
    }
  }

  lemma {:induction false} UsageMapHas(files: seq<FileState>, i: nat, k: string)
    requires i < |files| && k in files[i].responses
    ensures k in UsageMap(files)
  {
    if i < |files| - 1 {
      UsageMapHas(files[..|files| - 1], i, k);
    }
  }

  /** When equal ids carry equal usage, the counted responses and their usage do not depend on the schedule. */
  lemma {:induction false} UsageDoesNotMatterWhen(parse: Parser, schedule: seq<Snapshot>)
    requires |schedule| > 0 && AppendOnly(schedule) && EverListed(schedule) == Present(schedule[|schedule| - 1])
    requires Consistent(parse, schedule[|schedule| - 1].disk)
    ensures UsageMap(Run(parse, schedule).files) == UsageMap(Run(parse, [schedule[|schedule| - 1]]).files)
  {
    hide RefreshStep, OwnedOnce, ReportedIn, SameReading, Present;
    var last := schedule[|schedule| - 1];
    var many, one := Run(parse, schedule), Run(parse, [last]);
    ChunksDoNotMatter(parse, schedule);
    ResponsesOwnedOnce(parse, schedule);
    ResponsesOwnedOnce(parse, [last]);
    UsageMapKeys(many);
    UsageMapKeys(one);
    RunSources(parse, schedule);
    RunSources(parse, [last]);
    forall k | k in UsageMap(many.files)
      ensures UsageMap(many.files)[k] == UsageMap(one.files)[k]
    {
      var i := UsageMapOwner(many.files, k);
      var j := UsageMapOwner(one.files, k);
      assert Sourced(parse, many.files[i], last.disk[many.files[i].path]);
      assert Sourced(parse, one.files[j], last.disk[one.files[j].path]);
    }
  }

  // The totals and the documented rules.

  ghost function ResponseSum(responses: map<string, Usage>, d: Field): int {
    SumMap(map k | k in responses :: responses[k].Get(d))
  }

  /** What one file adds to the totals: the responses it owns, or its running count when it owns none. */
  ghost function FileTotal(f: FileState, d: Field): int {
    if f.responses != map[] then ResponseSum(f.responses, d) else f.counted.Get(d)
  }

  ghost function TotalOf(files: seq<FileState>, d: Field): int {
    if |files| == 0 then 0 else TotalOf(files[..|files| - 1], d) + FileTotal(files[|files| - 1], d)
  }

  /** The file holds a usage record, whether or not this ledger counted it there. */
  predicate Holds(parse: Parser, c: Bytes) {
    exists n :: 0 <= n < |Lines(c)| && Report(parse, Lines(c)[n]).Response?
  }

  /** Rules 2 and 3: a file contributes its token counts only when it holds no usage record. */
  ghost function CountRule(parse: Parser, files: seq<FileState>, disk: map<string, Bytes>, d: Field): int
    requires forall i :: 0 <= i < |files| ==> files[i].path in disk
  {
    if |files| == 0 then 0 else
      CountRule(parse, files[..|files| - 1], disk, d) +
      (var c := disk[files[|files| - 1].path]; if Holds(parse, c) then 0 else CountedIn(parse, Lines(c)).Get(d))
  }

  /** Rule 1 and the count rules together, said of the responses counted and the bytes on disk. */
  ghost function Documented(parse: Parser, files: seq<FileState>, disk: map<string, Bytes>, d: Field): int
    requires forall i :: 0 <= i < |files| ==> files[i].path in disk
  {
    ResponseSum(UsageMap(files), d) + CountRule(parse, files, disk, d)
  }

  /** The file holds a usage record and owns no response, so its token counts are summed all the same. */
  predicate Bereft(parse: Parser, f: FileState, c: Bytes) {
    Holds(parse, c) && f.responses == map[]
  }

  ghost function BereftCounts(parse: Parser, files: seq<FileState>, disk: map<string, Bytes>, d: Field): int
    requires forall i :: 0 <= i < |files| ==> files[i].path in disk
  {
    if |files| == 0 then 0 else
      BereftCounts(parse, files[..|files| - 1], disk, d) +
      (var f := files[|files| - 1]; if Bereft(parse, f, disk[f.path]) then f.counted.Get(d) else 0)
  }

  lemma {:induction false} ResponseSumUnion(a: map<string, Usage>, b: map<string, Usage>, d: Field)
    requires a.Keys !! b.Keys
    ensures ResponseSum(a + b, d) == ResponseSum(a, d) + ResponseSum(b, d)
  {
    hide SumMap;
    var ours, theirs := map k | k in a :: a[k].Get(d), map k | k in b :: b[k].Get(d);
    SumMapUnion(ours, theirs);
    var u := a + b;
    assert (map k | k in u :: u[k].Get(d)) == ours + theirs;
  }

  lemma {:induction false} ResponseSumTake(m: map<string, Usage>, k: string, d: Field)
    requires k in m
    ensures ResponseSum(m, d) == m[k].Get(d) + ResponseSum(m - {k}, d)
  {
    var values := map i | i in m :: m[i].Get(d);
    SumMapRemove(values, k);
    assert values - {k} == map i | i in m - {k} :: (m - {k})[i].Get(d);
  }

  /** A file that owns a response holds a usage record. */
  lemma {:induction false} OwnerHolds(parse: Parser, f: FileState, c: Bytes)
    requires Sourced(parse, f, c) && f.responses != map[]
    ensures Holds(parse, c)
  {
    var k :| k in f.responses;
    var n :| 0 <= n < |Lines(c)| && ReportsAt(parse, f.path, 0 + n + 1, Lines(c)[n], k, f.responses[k]);
    assert Report(parse, Lines(c)[n]).Response?;
  }

  ghost predicate FilesFollow(parse: Parser, files: seq<FileState>, disk: map<string, Bytes>) {
    && Disjoint(files)
    && (forall i :: 0 <= i < |files| ==>
          files[i].path in disk && Sourced(parse, files[i], disk[files[i].path]) &&
          files[i].counted == CountedIn(parse, Lines(disk[files[i].path])))
  }

  lemma {:induction false} UsageMapApart(files: seq<FileState>)
    requires |files| > 0 && Disjoint(files)
    ensures UsageMap(files[..|files| - 1]).Keys !! files[|files| - 1].responses.Keys
  {
    var n := |files| - 1;
    forall k | k in UsageMap(files[..n])
      ensures k !in files[n].responses
    {
      var i := UsageMapOwner(files[..n], k);
      assert files[i].responses.Keys !! files[n].responses.Keys;
    }
  }

  /** The totals are what the documented rules say, and the counts of bereft files besides. */
  lemma {:induction false} TotalsMeetRules(parse: Parser, files: seq<FileState>, disk: map<string, Bytes>, d: Field)
    requires FilesFollow(parse, files, disk)
    ensures TotalOf(files, d) == Documented(parse, files, disk, d) + BereftCounts(parse, files, disk, d)
  {
    hide ResponseSum, Holds, Sourced;
    if |files| == 0 {
      EmptyResponses(d);
    } else {
      var n := |files| - 1;
      TotalsMeetRules(parse, files[..n], disk, d);
      UsageMapApart(files);
      ResponseSumUnion(UsageMap(files[..n]), files[n].responses, d);
      EmptyResponses(d);
      if files[n].responses != map[] {
        OwnerHolds(parse, files[n], disk[files[n].path]);
      }
    }
  }

  lemma {:induction false} EmptyResponses(d: Field)
    ensures ResponseSum(map[], d) == 0
  {
    var none: map<string, Usage> := map[];
    assert (map k | k in none :: none[k].Get(d)).Keys == {};
  }

  /** After every run over files that only grow, each file's counts and owned responses are those of its contents. */
  lemma {:induction false} RunFollows(parse: Parser, schedule: seq<Snapshot>)
    requires |schedule| > 0 && AppendOnly(schedule)
    ensures FilesFollow(parse, Run(parse, schedule).files, schedule[|schedule| - 1].disk)
  {
    hide Keys, Sourced, RefreshStep;
    RunMirrors(parse, schedule);
    RunSources(parse, schedule);
    ResponsesOwnedOnce(parse, schedule);
  }

  /** No file bereft of its records has counted tokens. */
  ghost predicate CountsCovered(parse: Parser, files: seq<FileState>, disk: map<string, Bytes>, d: Field)
    requires forall i :: 0 <= i < |files| ==> files[i].path in disk
  {
    forall i :: 0 <= i < |files| ==> Bereft(parse, files[i], disk[files[i].path]) ==> files[i].counted.Get(d) == 0
  }

  lemma {:induction false} SurplusSign(parse: Parser, files: seq<FileState>, disk: map<string, Bytes>, d: Field)
    requires forall i :: 0 <= i < |files| ==> files[i].path in disk && files[i].counted.Get(d) >= 0
    ensures BereftCounts(parse, files, disk, d) >= 0
    ensures BereftCounts(parse, files, disk, d) == 0 <==> CountsCovered(parse, files, disk, d)
  {
    hide Bereft;
    if |files| > 0 {
      SurplusSign(parse, files[..|files| - 1], disk, d);
    }
  }

  /** The totals meet the documented rules exactly when no file bereft of its records has counted tokens. */
  lemma {:induction false} TotalsMeetRulesWhen(parse: Parser, schedule: seq<Snapshot>, d: Field)
    requires |schedule| > 0 && AppendOnly(schedule)
    requires forall i :: 0 <= i < |Run(parse, schedule).files| ==> Run(parse, schedule).files[i].counted.Get(d) >= 0
    ensures var files, disk := Run(parse, schedule).files, schedule[|schedule| - 1].disk;
      && FilesFollow(parse, files, disk)
      && (TotalOf(files, d) == Documented(parse, files, disk, d) <==> CountsCovered(parse, files, disk, d))
  {
    RunFollows(parse, schedule);
    var files, disk := Run(parse, schedule).files, schedule[|schedule| - 1].disk;
    TotalsMeetRules(parse, files, disk, d);
    SurplusSign(parse, files, disk, d);
  }

  // A cut that is undone leaves no trace.

  lemma {:induction false} NothingNew(parse: Parser, f: FileState, seen: set<string>, lines: seq<Bytes>)
    requires KeysIn(parse, f.path, f.line, lines) <= seen
    ensures RecordAll(parse, f, seen, lines).0.responses == f.responses
    ensures RecordAll(parse, f, seen, lines).1 == seen
  {
    hide RecordStep, KeyIn;
    if |lines| > 0 {
      var before, raw := lines[..|lines| - 1], lines[|lines| - 1];
      NothingNew(parse, f, seen, before);
      RecordAllReports(parse, f, seen, before);
      KnownKeyKeeps(parse, RecordAll(parse, f, seen, before).0, seen, raw);
    }
  }

  lemma {:induction false} KnownKeyKeeps(parse: Parser, g: FileState, seen: set<string>, raw: Bytes)
    requires KeyIn(g.path, g.line + 1, Report(parse, raw)) <= seen
    ensures RecordStep(parse, g, seen, raw).0.responses == g.responses && RecordStep(parse, g, seen, raw).1 == seen
  {
  }

  /** A file cut back, or restored, gains no response when all its keys are counted. */
  lemma {:induction false} RereadKeeps(parse: Parser, f: FileState, seen: set<string>, c: Bytes, next: Bytes)
    requires Reflects(parse, f, c) && (c <= next || (next <= c && |next| < |c|))
    requires Keys(parse, f.path, c) <= seen && Keys(parse, f.path, next) <= seen
    ensures var (g, more) := ReadStep(parse, f, seen, Some(next));
      g.path == f.path && Reflects(parse, g, next) && g.responses == f.responses && more == seen
  {
    ReadReflects(parse, f, seen, c, next);
    var g := Rewound(f, |next|);
    var read := if |next| < |c| then [] else c;
    NewFileReflects(parse, f.path);
    var chunk := next[|read|..];
    assert next == read + chunk && Reflects(parse, g, read);
    SplitOn(read, chunk);
    var data := g.partial + chunk;
    KeysConcat(parse, f.path, Lines(read), Lines(data));
    NothingNew(parse, g.(offset := |next|, partial := Tail(data)), seen, Lines(data));
  }

  /** The ledger that read `from` is brought to `to` without gaining a response. */
  lemma {:induction false} ReadFilesKeep(
    parse: Parser, s: Ledger, from: map<string, Bytes>, to: map<string, Bytes>, n: nat)
    requires n <= |s.files|
    requires forall i :: 0 <= i < |s.files| ==> s.files[i].path in to && Rereads(parse, s.files[i], s.seen, from, to)
    ensures var r := ReadFiles(parse, s, to, n);
      && r.seen == s.seen
      && (forall i :: 0 <= i < |s.files| ==>
        r.files[i].path == s.files[i].path && r.files[i].responses == s.files[i].responses)
      && (forall i :: 0 <= i < n ==> Reflects(parse, r.files[i], to[s.files[i].path]))
      && (forall i :: n <= i < |s.files| ==> r.files[i] == s.files[i])
  {
    hide Reflects, Keys, ReadStep;
    if n > 0 {
      ReadFilesKeep(parse, s, from, to, n - 1);
      var f := s.files[n - 1];
      RereadKeeps(parse, f, s.seen, from[f.path], to[f.path]);
    }
  }

  ghost predicate Rereads(
    parse: Parser, f: FileState, seen: set<string>, from: map<string, Bytes>, to: map<string, Bytes>) {
    && f.path in from && f.path in to
    && Reflects(parse, f, from[f.path])
    && (from[f.path] <= to[f.path] || (to[f.path] <= from[f.path] && |to[f.path]| < |from[f.path]|))
    && Keys(parse, f.path, from[f.path]) <= seen && Keys(parse, f.path, to[f.path]) <= seen
  }

  lemma {:induction false} ReflectsOnce(parse: Parser, f: FileState, g: FileState, c: Bytes)
    requires Reflects(parse, f, c) && Reflects(parse, g, c) && f.path == g.path && f.responses == g.responses
    ensures f == g
  {
  }

  lemma {:induction false} DiscoverNothing(files: seq<FileState>, listing: seq<string>, disk: map<string, Bytes>)
    requires forall p :: p in listing ==> Knows(files, p)
    ensures Discover(files, listing, disk) == files
  {
    hide Knows;
    if |listing| > 0 {
      DiscoverNothing(files, listing[..|listing| - 1], disk);
    }
  }

  // Files that grow or are cut.

  /** Each file the ledger knows is as one read of `disk` leaves it, and the responses it holds are counted. */
  ghost predicate CaughtUp(parse: Parser, s: Ledger, disk: map<string, Bytes>) {
    forall i :: 0 <= i < |s.files| ==>
      var f := s.files[i];
      f.path in disk && Reflects(parse, f, disk[f.path]) && Keys(parse, f.path, disk[f.path]) <= s.seen
  }

  predicate Follows(c: Bytes, next: Bytes) {
    c <= next || |next| < |c|
  }

  /** Each snapshot of a schedule keeps the files of the one before it, and adds to the end of each or cuts it. */
  ghost predicate GrowOrCut(schedule: seq<Snapshot>) {
    forall i :: 0 < i < |schedule| ==> AllFollow(schedule[i - 1].disk, schedule[i].disk)
  }

  ghost predicate AllFollow(before: map<string, Bytes>, after: map<string, Bytes>) {
    forall p :: p in before ==> p in after && Follows(before[p], after[p])
  }

  /** What was read of the file is such that a read of `next` catches up. */
  ghost predicate Pending(parse: Parser, f: FileState, seen: set<string>, next: Bytes) {
    exists c :: Reflects(parse, f, c) && Follows(c, next) && Keys(parse, f.path, c) <= seen
  }

  ghost predicate AllPending(parse: Parser, files: seq<FileState>, seen: set<string>, disk: map<string, Bytes>) {
    forall i :: 0 <= i < |files| ==> files[i].path in disk && Pending(parse, files[i], seen, disk[files[i].path])
  }

  lemma {:induction false} NewFilePends(parse: Parser, path: string, seen: set<string>, next: Bytes)
    ensures Pending(parse, NewFile(path), seen, next)
  {
    NewFileReflects(parse, path);
    var none: Bytes := [];
    assert Reflects(parse, NewFile(path), none) && Follows(none, next) && Keys(parse, NewFile(path).path, none) <= seen;
  }

  lemma {:induction false} DiscoverPends(
    parse: Parser, files: seq<FileState>, seen: set<string>, listing: seq<string>, disk: map<string, Bytes>)
    requires AllPending(parse, files, seen, disk)
    ensures AllPending(parse, Discover(files, listing, disk), seen, disk)
  {
    hide Pending, Knows;
    if |listing| > 0 {
      DiscoverPends(parse, files, seen, listing[..|listing| - 1], disk);
      var path := listing[|listing| - 1];
      if path in disk {
        NewFilePends(parse, path, seen, disk[path]);
      }
    }
  }

  lemma {:induction false} PendingRead(parse: Parser, f: FileState, seen: set<string>, more: set<string>, next: Bytes)
    requires Pending(parse, f, seen, next) && seen <= more
    ensures var (g, all) := ReadStep(parse, f, more, Some(next));
      g.path == f.path && Reflects(parse, g, next) && all == more + Keys(parse, f.path, next)
  {
    hide Reflects, Keys, ReadStep;
    var c :| Reflects(parse, f, c) && Follows(c, next) && Keys(parse, f.path, c) <= seen;
    ReadReflects(parse, f, more, c, next);
  }

  lemma {:induction false} ReadFilesCatchUp(parse: Parser, s: Ledger, disk: map<string, Bytes>, n: nat)
    requires n <= |s.files| && AllPending(parse, s.files, s.seen, disk)
    ensures var r := ReadFiles(parse, s, disk, n);
      && s.seen <= r.seen
      && CaughtUp(parse, Ledger(r.files[..n], r.seen), disk)
      && r.files[n..] == s.files[n..]
  {
    hide Reflects, Keys, Pending, ReadStep;
    if n > 0 {
      ReadFilesCatchUp(parse, s, disk, n - 1);
      var before := ReadFiles(parse, s, disk, n - 1);
      var f := before.files[n - 1];
      assert f == before.files[n - 1..][0] == s.files[n - 1..][0];
      PendingRead(parse, f, s.seen, before.seen, disk[f.path]);
      var r := ReadFiles(parse, s, disk, n);
      assert r.files[..n] == before.files[..n - 1] + [r.files[n - 1]];
      assert r.files[n..] == before.files[n - 1..][1..];
    }
  }

  lemma {:induction false} RefreshCatchesUp(parse: Parser, s: Ledger, disk: map<string, Bytes>, shot: Snapshot)
    requires CaughtUp(parse, s, disk)
    requires AllFollow(disk, shot.disk)
    ensures CaughtUp(parse, RefreshStep(parse, s, shot), shot.disk)
  {
    hide Reflects, Keys, Follows;
    assert AllPending(parse, s.files, s.seen, shot.disk);
    hide Pending;
    DiscoverPends(parse, s.files, s.seen, shot.listing, shot.disk);
    var found := Discover(s.files, shot.listing, shot.disk);
    ReadFilesCatchUp(parse, Ledger(found, s.seen), shot.disk, |found|);
    var r := RefreshStep(parse, s, shot);
    assert r.files[..|found|] == r.files;
  }

  /** After any run whose files grow or are cut, the ledger has caught up with the last snapshot. */
  lemma {:induction false} RunCatchesUp(parse: Parser, schedule: seq<Snapshot>)
    requires |schedule| > 0 && GrowOrCut(schedule)
    ensures CaughtUp(parse, Run(parse, schedule), schedule[|schedule| - 1].disk)
  {
    hide CaughtUp, AllFollow, RefreshStep;
    var n := |schedule| - 1;
    if n == 0 {
      NothingCaughtUp(parse, map[]);
      NothingFollows(schedule[0].disk);
      assert schedule[..0] == [];
      RefreshCatchesUp(parse, Empty, map[], schedule[0]);
    } else {
      RunCatchesUp(parse, schedule[..n]);
      RefreshCatchesUp(parse, Run(parse, schedule[..n]), schedule[n - 1].disk, schedule[n]);
    }
  }

  lemma {:induction false} NothingCaughtUp(parse: Parser, disk: map<string, Bytes>)
    ensures CaughtUp(parse, Empty, disk)
  {
  }

  lemma {:induction false} NothingFollows(disk: map<string, Bytes>)
    ensures AllFollow(map[], disk)
  {
  }

  /**
   * Files that shrink to a prefix of what was read and are then restored leave the ledger as it was, when
   * a refresh sees both: the responses are not counted again, and the running counts are summed anew.
   */
  lemma {:induction false} CutAndRestored(parse: Parser, s: Ledger, whole: Snapshot, cut: Snapshot)
    requires CaughtUp(parse, s, whole.disk)
    requires forall p :: p in whole.listing || p in cut.listing ==> Knows(s.files, p)
    requires forall p :: p in whole.disk ==> p in cut.disk && cut.disk[p] <= whole.disk[p]
    ensures RefreshStep(parse, RefreshStep(parse, s, cut), whole) == s
  {
    hide Reflects, Keys;
    forall i | 0 <= i < |s.files|
      ensures Rereads(parse, s.files[i], s.seen, whole.disk, cut.disk)
      ensures Keys(parse, s.files[i].path, whole.disk[s.files[i].path]) <= s.seen
      ensures Keys(parse, s.files[i].path, cut.disk[s.files[i].path]) <= s.seen
    {
      var p := s.files[i].path;
      KeysGrow(parse, p, cut.disk[p], whole.disk[p]);
      assert whole.disk[p] <= cut.disk[p] || |cut.disk[p]| < |whole.disk[p]|;
    }
    DiscoverNothing(s.files, cut.listing, cut.disk);
    ReadFilesKeep(parse, s, whole.disk, cut.disk, |s.files|);
    var t := RefreshStep(parse, s, cut);
    SamePathsKnown(s.files, t.files);
    forall i | 0 <= i < |t.files|
      ensures Rereads(parse, t.files[i], t.seen, cut.disk, whole.disk)
    {
      assert t.files[i].path == s.files[i].path;
    }
    DiscoverNothing(t.files, whole.listing, whole.disk);
    ReadFilesKeep(parse, t, cut.disk, whole.disk, |t.files|);
    var u := RefreshStep(parse, t, whole);
    forall i | 0 <= i < |u.files|
      ensures u.files[i] == s.files[i]
    {
      ReflectsOnce(parse, u.files[i], s.files[i], whole.disk[s.files[i].path]);
    }
  }

  lemma {:induction false} SamePathsKnown(files: seq<FileState>, others: seq<FileState>)
    requires |files| == |others| && forall i :: 0 <= i < |files| ==> others[i].path == files[i].path
    ensures forall p :: Knows(files, p) ==> Knows(others, p)
  {
    forall p | Knows(files, p)
      ensures Knows(others, p)
    {
      var i :| 0 <= i < |files| && files[i].path == p;
      assert others[i].path == p;
    }
  }

  // A run whose totals exceed the documented rules.

  /** The line 1 is the one response, and any other line a token count. */
  function TwoRecords(raw: Bytes): Reading {
    if raw == [1] then Response(Some("r"), Some(Usage(7, 0, 0, 0, 0))) else Count(Some(Usage(5, 0, 0, 0, 0)))
  }

  /** Both files hold the one response; the second also counts it, and is read after the first. */
  function SharedResponse(): Snapshot {
    Snapshot(["a", "b"], map["a" := [1, 10], "b" := [1, 10, 2, 10]])
  }

  lemma {:induction false} SplitSnoc(data: Bytes, b: Byte)
    ensures Lines(data + [b]) == if b == NEWLINE then Lines(data) + [Tail(data)] else Lines(data)
    ensures Tail(data + [b]) == if b == NEWLINE then [] else Tail(data) + [b]
  {
    assert (data + [b])[..|data|] == data;
  }

  lemma {:induction false} SharedLines(a: Bytes, b: Bytes)
    requires a == [1, 10] && b == [1, 10, 2, 10]
    ensures Tail(a) == [] && Lines(a) == [[1]]
    ensures Tail(b) == [] && |Lines(b)| == 2 && Lines(b)[0] == [1] && Lines(b)[1] == [2]
    ensures !Blank([1]) && !Blank([2])
  {
    hide Split;
    NoNewline([1]);
    SplitSnoc([1], 10);
    assert [1] + [10] == a;
    SplitSnoc(a, 2);
    SplitSnoc(a + [2], 10);
    assert a + [2] + [10] == b && [] + [2] == [2];
    var one, two: Bytes := [1], [2];
    assert !Whitespace(one[0]) && !Whitespace(two[0]);
  }

  lemma {:induction false} RecordAllSnoc(parse: Parser, f: FileState, seen: set<string>, lines: seq<Bytes>)
    requires |lines| > 0
    ensures RecordAll(parse, f, seen, lines) ==
      var (g, more) := RecordAll(parse, f, seen, lines[..|lines| - 1]); RecordStep(parse, g, more, lines[|lines| - 1])
  {
  }

  function FileA(): FileState {
    FileState("a", 2, [], 1, map["r" := Usage(7, 0, 0, 0, 0)], NoUsage, 0)
  }

  function FileB(): FileState {
    FileState("b", 4, [], 2, map[], Usage(5, 0, 0, 0, 0), 1)
  }

  lemma {:induction false} SharedReadA(a: Bytes)
    requires a == [1, 10]
    ensures ReadStep(TwoRecords, NewFile("a"), {}, Some(a)) == (FileA(), {"r"})
  {
    SharedLines(a, [1, 10, 2, 10]);
    assert [] + a[0..] == a;
    hide Split, RecordAll;
    var f := NewFile("a").(offset := 2);
    RecordAllSnoc(TwoRecords, f, {}, Lines(a));
    RecordNone(TwoRecords, f, {}, Lines(a)[..0]);
    var none: set<string> := {};
    assert none + {"r"} == {"r"};
    assert f.responses["r" := Usage(7, 0, 0, 0, 0)] == FileA().responses;
  }

  lemma {:induction false} RecordNone(parse: Parser, f: FileState, seen: set<string>, lines: seq<Bytes>)
    requires |lines| == 0
    ensures RecordAll(parse, f, seen, lines) == (f, seen)
  {
  }

  lemma {:induction false} SharedReadB(b: Bytes)
    requires b == [1, 10, 2, 10]
    ensures ReadStep(TwoRecords, NewFile("b"), {"r"}, Some(b)) == (FileB(), {"r"})
  {
    SharedLines([1, 10], b);
    assert [] + b[0..] == b;
    hide Split, RecordAll;
    var f := NewFile("b").(offset := 4);
    RecordAllSnoc(TwoRecords, f, {"r"}, Lines(b));
    RecordAllSnoc(TwoRecords, f, {"r"}, Lines(b)[..1]);
    RecordNone(TwoRecords, f, {"r"}, Lines(b)[..1][..0]);
  }

  lemma {:induction false} SharedFinds()
    ensures Discover([], SharedResponse().listing, SharedResponse().disk) == [NewFile("a"), NewFile("b")]
  {
    var shot := SharedResponse();
    var none: seq<FileState> := [];
    assert shot.listing[..1] == ["a"] && ["a"][..0] == [];
    assert Discover(none, ["a"], shot.disk) == [NewFile("a")];
  }

  lemma {:induction false} SharedRun()
    ensures Run(TwoRecords, [SharedResponse()]) == Ledger([FileA(), FileB()], {"r"})
  {
    var shot := SharedResponse();
    SharedReadA(shot.disk["a"]);
    SharedReadB(shot.disk["b"]);
    SharedFinds();
    hide ReadStep, Discover;
    assert [shot][..0] == [];
    var s := Ledger([NewFile("a"), NewFile("b")], {});
    assert ReadFiles(TwoRecords, s, shot.disk, 0) == s;
    assert ReadFiles(TwoRecords, s, shot.disk, 1) == Ledger([FileA(), NewFile("b")], {"r"});
    assert ReadFiles(TwoRecords, s, shot.disk, 2) == Ledger([FileA(), FileB()], {"r"});
  }

  lemma {:induction false} SharedSurplus(files: seq<FileState>, disk: map<string, Bytes>)
    requires files == [FileA(), FileB()] && disk == SharedResponse().disk
    ensures BereftCounts(TwoRecords, files, disk, Input) == 5
  {
    SharedLines(disk["a"], disk["b"]);
    assert TwoRecords(Lines(disk["b"])[0]).Response?;
    assert Bereft(TwoRecords, FileB(), disk["b"]);
    var first := files[..1];
    assert first == [FileA()] && first[..0] == [];
    assert BereftCounts(TwoRecords, first[..0], disk, Input) == 0;
    assert BereftCounts(TwoRecords, first, disk, Input) == 0;
  }

  lemma {:induction false} SharedTotal(files: seq<FileState>)
    requires files == [FileA(), FileB()]
    ensures TotalOf(files, Input) == 12
  {
    var first := files[..1];
    assert first == [FileA()] && first[..0] == [];
    ResponseSumTake(FileA().responses, "r", Input);
    EmptyResponses(Input);
    assert FileA().responses - {"r"} == map[];
    assert TotalOf(first[..0], Input) == 0;
    assert TotalOf(first, Input) == 7;
  }

  /** The shared response is counted once, but the second file's token counts are summed although it holds a record. */
  lemma {:induction false} SharedResponseExceeds()
    ensures var files, disk := Run(TwoRecords, [SharedResponse()]).files, SharedResponse().disk;
      && FilesFollow(TwoRecords, files, disk)
      && TotalOf(files, Input) == 12
      && Documented(TwoRecords, files, disk, Input) == 7
  {
    var schedule := [SharedResponse()];
    RunFollows(TwoRecords, schedule);
    SharedRun();
    var files, disk := Run(TwoRecords, schedule).files, SharedResponse().disk;
    hide Run, FilesFollow, TotalOf, Documented, BereftCounts;
    TotalsMeetRules(TwoRecords, files, disk, Input);
    SharedSurplus(files, disk);
    SharedTotal(files);
  }
}
