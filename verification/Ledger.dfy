/** The incremental ledger itself: session files whose state each refresh updates in place. */
module LedgerModel {
  import opened Prelude
  import opened LedgerSpec
  import opened LedgerTotals

  class SessionFile {
    const path: string
    var offset: nat
    var partial: Bytes
    var line: nat
    var responses: map<string, Usage>
    var counted: Usage
    var countMessages: nat

    constructor (path: string)
      ensures View() == NewFile(path)
    {
      this.path := path;
      offset, partial, line := 0, [], 0;
      responses, counted, countMessages := map[], NoUsage, 0;
    }

    function View(): FileState
      reads this
    {
      FileState(path, offset, partial, line, responses, counted, countMessages)
    }
  }

  class UsageLedger {
    const parse: Parser
    var files: seq<SessionFile>
    var responses: set<string>
    var problems: seq<string>

    ghost predicate Valid()
      reads this
    {
      forall i, j :: 0 <= i < j < |files| ==> files[i] != files[j]
    }

    function Views(): seq<FileState>
      reads this, files
    {
      seq(|files|, i requires 0 <= i < |files| reads this, files => files[i].View())
    }

    ghost function View(): Ledger
      reads this, files
    {
      Ledger(Views(), responses)
    }

    constructor (parse: Parser)
      ensures Valid() && this.parse == parse && View() == Empty
    {
      this.parse := parse;
      files, responses, problems := [], {}, [];
    }

    method Record(session: SessionFile, raw: Bytes)
      modifies session, this`responses, this`problems
      ensures (session.View(), responses) == RecordLine(parse, old(session.View()), old(responses), raw)
      ensures problems == old(problems) +
        (if Troubles(parse, old(session.View()), old(responses), raw)
         then [Where(session.path, old(session.line))] else [])
    {
      var place := Where(session.path, session.line);
      match parse(raw) {
        case NotJson =>
          problems := problems + [place];
        case Response(id, usage) =>
          var key := if id.None? || id.value == "" then place else id.value;
          if key in responses {
            return;
          }
          if usage.None? {
            problems := problems + [place];
          } else {
            session.responses := session.responses[key := usage.value];
            responses := responses + {key};
          }
        case Count(usage) =>
          if usage.None? {
            problems := problems + [place];
          } else {
            session.counted := session.counted.Plus(usage.value);
            session.countMessages := session.countMessages + 1;
          }
        case _ =>
      }
    }

    method ReadLines(session: SessionFile, lines: seq<Bytes>)
      modifies session, this`responses, this`problems
      ensures (session.View(), responses) == RecordAll(parse, old(session.View()), old(responses), lines)
      ensures problems == old(problems) + LineProblems(parse, old(session.View()), old(responses), lines)
    {
      hide RecordLine, Troubles;
      ghost var start, seen := session.View(), responses;
      for i := 0 to |lines|
        invariant (session.View(), responses) == RecordAll(parse, start, seen, lines[..i])
        invariant problems == old(problems) + LineProblems(parse, start, seen, lines[..i])
      {
        assert lines[..i + 1][..i] == lines[..i];
        ghost var before := session.View();
        session.line := session.line + 1;
        assert session.View() == before.(line := before.line + 1);
        if !Blank(lines[i]) {
          Record(session, lines[i]);
        }
      }
      assert lines[..|lines|] == lines;
    }

    method Read(session: SessionFile, content: Option<Bytes>)
      modifies session, this`responses, this`problems
      ensures (session.View(), responses) == ReadStep(parse, old(session.View()), old(responses), content)
      ensures problems == old(problems) + ReadProblems(parse, old(session.View()), old(responses), content)
    {
      hide RecordAll, LineProblems, Split, NoUsage;
      if content.None? {
        return;
      }
      ghost var rewound := Rewound(session.View(), |content.value|);
      var size := |content.value|;
      if size < session.offset {
        problems := problems + [session.path];
        session.offset, session.partial, session.line := 0, [], 0;
        session.counted, session.countMessages := NoUsage, 0;
      }
      assert session.View() == rewound;
      if size == session.offset {
        return;
      }
      var chunk := content.value[session.offset..];
      session.offset := session.offset + |chunk|;
      var data := session.partial + chunk;
      var (lines, tail) := Split(data);
      session.partial := tail;
      assert session.View() == rewound.(offset := size, partial := Tail(data));
      ReadLines(session, lines);
    }

    method Find(listing: seq<string>, disk: map<string, Bytes>)
      requires Valid()
      modifies this`files
      ensures Valid() && old(files) <= files
      ensures forall i :: |old(files)| <= i < |files| ==> fresh(files[i])
      ensures Views() == Discover(old(Views()), listing, disk)
    {
      for i := 0 to |listing|
        invariant Valid() && old(files) <= files
        invariant forall j :: |old(files)| <= j < |files| ==> fresh(files[j])
        invariant Views() == Discover(old(Views()), listing[..i], disk)
      {
        assert listing[..i + 1][..i] == listing[..i];
        var known := exists j :: 0 <= j < |files| && files[j].path == listing[i];
        assert known <==> Knows(Views(), listing[i]) by {
          assert forall j :: 0 <= j < |files| ==> Views()[j].path == files[j].path;
        }
        if !known && listing[i] in disk {
          ghost var before := Views();
          var session := new SessionFile(listing[i]);
          files := files + [session];
          assert Views() == before + [NewFile(listing[i])];
        }
      }
      assert listing[..|listing|] == listing;
    }

    method Refresh(listing: seq<string>, disk: map<string, Bytes>)
      requires Valid()
      modifies this, files
      ensures Valid() && old(files) <= files
      ensures forall i :: |old(files)| <= i < |files| ==> fresh(files[i])
      ensures View() == RefreshStep(parse, old(View()), Snapshot(listing, disk))
      ensures problems == old(problems) + FileProblems(
        parse, Ledger(Discover(old(Views()), listing, disk), old(responses)), disk, |files|)
    {
      hide ReadStep, ReadProblems, Discover, ReadFiles, FileProblems;
      Find(listing, disk);
      ghost var found := View();
      assert found == Ledger(Discover(old(Views()), listing, disk), old(responses));
      NoneRead(parse, found, disk);
      for i := 0 to |files|
        modifies this`responses, this`problems, files
        invariant View() == ReadFiles(parse, found, disk, i)
        invariant problems == old(problems) + FileProblems(parse, found, disk, i)
      {
        var session := files[i];
        ghost var before := View();
        var content := if session.path in disk then Some(disk[session.path]) else None;
        assert before.files[i] == session.View();
        FileStep(parse, found, disk, i);
        Read(session, content);
        assert Views() == before.files[i := session.View()];
      }
    }

    method Totals() returns (total: Usage)
      ensures forall d: Field :: total.Get(d) == TotalOf(Views(), d)
    {
      total := NoUsage;
      ghost var views := Views();
      for i := 0 to |files|
        invariant forall d: Field :: total.Get(d) == TotalOf(views[..i], d)
      {
        assert views[..i + 1][..i] == views[..i] && views[i] == files[i].View();
        ghost var before := total;
        if files[i].responses != map[] {
          var sum := SumResponses(files[i].responses);
          total := total.Plus(sum);
          assert forall d: Field :: total.Get(d) == before.Get(d) + ResponseSum(files[i].responses, d);
        } else {
          total := total.Plus(files[i].counted);
          assert forall d: Field :: total.Get(d) == before.Get(d) + files[i].counted.Get(d);
        }
      }
      assert views[..|files|] == views;
    }
  }

  lemma {:induction false} NoneRead(parse: Parser, s: Ledger, disk: map<string, Bytes>)
    ensures ReadFiles(parse, s, disk, 0) == s && FileProblems(parse, s, disk, 0) == []
  {
  }

  lemma {:induction false} FileStep(parse: Parser, s: Ledger, disk: map<string, Bytes>, i: nat)
    requires i < |s.files|
    ensures var before := ReadFiles(parse, s, disk, i);
      var content := OnDisk(disk, before.files[i].path);
      var (g, seen) := ReadStep(parse, before.files[i], before.seen, content);
      && ReadFiles(parse, s, disk, i + 1) == Ledger(before.files[i := g], seen)
      && FileProblems(parse, s, disk, i + 1)
           == FileProblems(parse, s, disk, i) + ReadProblems(parse, before.files[i], before.seen, content)
  {
    hide ReadStep, ReadProblems;
  }

  method SumResponses(responses: map<string, Usage>) returns (sum: Usage)
    ensures forall d: Field :: sum.Get(d) == ResponseSum(responses, d)
  {
    sum := NoUsage;
    var rest := responses;
    forall d: Field ensures ResponseSum(map[], d) == 0 {
      EmptyResponses(d);
    }
    while rest != map[]
      invariant forall d: Field :: sum.Get(d) + ResponseSum(rest, d) == ResponseSum(responses, d)
      decreases |rest|
    {
      var key :| key in rest;
      forall d: Field ensures ResponseSum(rest, d) == rest[key].Get(d) + ResponseSum(rest - {key}, d) {
        ResponseSumTake(rest, key, d);
      }
      ghost var before := sum;
      sum := sum.Plus(rest[key]);
      assert forall d: Field :: sum.Get(d) == before.Get(d) + rest[key].Get(d);
      rest := rest - {key};
    }
  }
}
