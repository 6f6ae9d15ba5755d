/** What a log that passes the compaction check is, by the positions of its events and the calls of its messages. */
module CompactionLaws {
  import opened Prelude
  import opened EpisodeLog
  import opened SortedNames
  import opened CompactionCheck
  import opened CompactionCases

  // Files.

  /** The result of the call is an error, anywhere in the log. */
  ghost predicate Fails(events: seq<Event>, id: Option<string>) {
    exists r :: 0 <= r < |events| && events[r].body.ToolResult? && events[r].body.isError &&
      events[r].body.settles == id
  }

  /** Entry `x` of the message at `i`, inside the span, calls the tool on the path and does not fail. */
  ghost predicate Uses(events: seq<Event>, span: Span, tool: string, path: string, i: nat, x: nat) {
    && i < |events| && events[i].body.AssistantMessage?
    && events[i].seqNo.Some? && span.first <= events[i].seqNo.value <= span.last
    && x < |events[i].body.toolCalls|
    && match events[i].body.toolCalls[x] {
         case Call(id, name, target) => name == Some(tool) && target == Some(path) && !Fails(events, id)
         case NotAnObject => false
       }
  }

  ghost predicate Used(events: seq<Event>, span: Span, tool: string, path: string) {
    exists i: nat, x: nat :: Uses(events, span, tool, path, i, x)
  }

  function Tool(access: Access): string {
    match access
    case Read => "read"
    case Written => "write"
    case Edited => "edit"
  }

  lemma {:induction false} FailedIs(events: seq<Event>, id: Option<string>)
    ensures id in Failed(events) <==> Fails(events, id)
  {
  }

  lemma {:induction false} TouchesIs(events: seq<Event>, call: Entry, access: Access)
    ensures Touches(call, Failed(events), access) <==>
      call.Call? && call.name == Some(Tool(access)) && call.path.Some? && !Fails(events, call.id)
  {
    if call.Call? {
      FailedIs(events, call.id);
    }
    hide Failed, Fails;
  }

  lemma {:induction false} PathsOfAre(events: seq<Event>, calls: seq<Entry>, access: Access, path: string)
    ensures path in PathsOf(calls, Failed(events), access) <==>
      exists x: nat :: x < |calls| && CallsOn(events, calls[x], Tool(access), path)
  {
    if |calls| > 0 {
      var before, last := calls[..|calls| - 1], calls[|calls| - 1];
      PathsOfAre(events, before, access, path);
      TouchesIs(events, last, access);
      hide Failed, Fails, Touches;
      if path in PathsOf(calls, Failed(events), access) && path !in PathsOf(before, Failed(events), access) {
        assert CallsOn(events, calls[|calls| - 1], Tool(access), path);
      }
      if x: nat :| x < |before| && CallsOn(events, before[x], Tool(access), path) {
        assert CallsOn(events, calls[x], Tool(access), path);
      }
      if x: nat :| x < |calls| && CallsOn(events, calls[x], Tool(access), path) {
        assert x < |before| ==> before[x] == calls[x];
      }
    }
  }

  ghost predicate CallsOn(events: seq<Event>, call: Entry, tool: string, path: string) {
    call.Call? && call.name == Some(tool) && call.path == Some(path) && !Fails(events, call.id)
  }

  lemma {:induction false} PathsUpTo(events: seq<Event>, n: nat, access: Access, span: Span, path: string)
    requires n <= |events|
    ensures path in Paths(events[..n], Failed(events), access, span) <==>
      exists i: nat, x: nat :: i < n && Uses(events, span, Tool(access), path, i, x)
  {
    if n > 0 {
      PathsUpTo(events, n - 1, access, span, path);
      assert events[..n][..n - 1] == events[..n - 1];
      if events[n - 1].body.AssistantMessage? {
        PathsOfAre(events, events[n - 1].body.toolCalls, access, path);
      }
      UsesAt(events, span, Tool(access), path, n - 1);
      hide Failed, Fails, Uses, PathsOf, CallsOn;
      if i: nat, x: nat :| i < n && Uses(events, span, Tool(access), path, i, x) {
        assert i == n - 1 || i < n - 1;
      }
    }
  }

  lemma {:induction false} UsesAt(events: seq<Event>, span: Span, tool: string, path: string, i: nat)
    requires i < |events|
    ensures (exists x: nat :: Uses(events, span, tool, path, i, x)) <==>
      events[i].body.AssistantMessage? && InSpan(events[i], span) &&
      exists x: nat :: x < |events[i].body.toolCalls| && CallsOn(events, events[i].body.toolCalls[x], tool, path)
  {
    hide Fails;
    if events[i].body.AssistantMessage? && InSpan(events[i], span) {
      if x: nat :| x < |events[i].body.toolCalls| && CallsOn(events, events[i].body.toolCalls[x], tool, path) {
        assert Uses(events, span, tool, path, i, x);
      }
      if x: nat :| Uses(events, span, tool, path, i, x) {
        assert CallsOn(events, events[i].body.toolCalls[x], tool, path);
      }
    }
  }

  /** The paths of a span are those its successful calls of the tool name. */
  lemma {:induction false} PathsAre(events: seq<Event>, access: Access, span: Span, path: string)
    ensures path in Paths(events, Failed(events), access, span) <==> Used(events, span, Tool(access), path)
  {
    PathsUpTo(events, |events|, access, span, path);
    assert events[..|events|] == events;
    hide Failed, Fails;
    if i: nat, x: nat :| Uses(events, span, Tool(access), path, i, x) {
      assert i < |events|;
    }
  }

  /** The lists hold, in ascending order, what was carried and what the successful calls of the span name. */
  ghost predicate FilesSound(events: seq<Event>, span: Span, carried: Files, files: Files) {
    && Ascending(files.read) && Ascending(files.written) && Ascending(files.edited)
    && (forall path :: path in files.read <==> path in carried.read || Used(events, span, "read", path))
    && (forall path :: path in files.written <==> path in carried.written || Used(events, span, "write", path))
    && (forall path :: path in files.edited <==> path in carried.edited || Used(events, span, "edit", path))
  }

  lemma {:induction false} CompactedHas(
    events: seq<Event>, span: Span, carried: Files, access: Access, path: string)
    ensures Ascending(Compacted(events, span, carried, access))
    ensures path in Compacted(events, span, carried, access) <==>
      path in Listed(carried, access) || Used(events, span, Tool(access), path)
  {
    PathsAre(events, access, span, path);
    hide Paths, Failed, Used;
    var all := Listed(carried, access) + Paths(events, Failed(events), access, span);
    SortedSetSorts(all);
    assert path in SortedSet(all) <==> path in Elements(SortedSet(all));
    assert path in all <==> path in Elements(all);
  }

  lemma {:induction false} CompactedSound(events: seq<Event>, span: Span, carried: Files)
    ensures FilesSound(events, span, carried, CompactedFiles(events, span, carried))
  {
    forall path
      ensures path in Compacted(events, span, carried, Read) <==>
        path in carried.read || Used(events, span, "read", path)
      ensures path in Compacted(events, span, carried, Written) <==>
        path in carried.written || Used(events, span, "write", path)
      ensures path in Compacted(events, span, carried, Edited) <==>
        path in carried.edited || Used(events, span, "edit", path)
    {
      CompactedHas(events, span, carried, Read, path);
      CompactedHas(events, span, carried, Written, path);
      CompactedHas(events, span, carried, Edited, path);
    }
    CompactedHas(events, span, carried, Read, "");
    CompactedHas(events, span, carried, Written, "");
    CompactedHas(events, span, carried, Edited, "");
    hide Compacted, Used;
  }

  lemma {:induction false} SameElements(xs: seq<string>, ys: seq<string>)
    requires Ascending(xs) && Ascending(ys) && forall path :: path in xs <==> path in ys
    ensures xs == ys
  {
    assert Elements(xs) == Elements(ys);
    AscendingUnique(xs, ys);
  }

  /** The checker's lists are the only ones that hold this in order. */
  lemma {:induction false} FilesMean(events: seq<Event>, span: Span, carried: Files, files: Files)
    ensures files == CompactedFiles(events, span, carried) <==> FilesSound(events, span, carried, files)
  {
    CompactedSound(events, span, carried);
    hide CompactedFiles, Used;
    var computed := CompactedFiles(events, span, carried);
    if FilesSound(events, span, carried, files) {
      SameElements(files.read, computed.read);
      SameElements(files.written, computed.written);
      SameElements(files.edited, computed.edited);
    }
  }

  /** A span of the first rounds that succeeded has the tool used on the path. */
  ghost predicate UsedSoFar(events: seq<Event>, summaries: seq<Summary>, tool: string, path: string) {
    exists n :: 0 <= n < |summaries| && Used(events, summaries[n].covered, tool, path)
  }

  lemma {:induction false} UsedStep(
    events: seq<Event>, before: seq<Summary>, last: Summary, tool: string, path: string)
    ensures UsedSoFar(events, before + [last], tool, path) <==>
      UsedSoFar(events, before, tool, path) || Used(events, last.covered, tool, path)
  {
    hide Used;
    var summaries := before + [last];
    if n :| 0 <= n < |summaries| && Used(events, summaries[n].covered, tool, path) {
      assert n < |before| ==> before[n] == summaries[n];
    }
    if n :| 0 <= n < |before| && Used(events, before[n].covered, tool, path) {
      assert summaries[n] == before[n];
    }
    assert summaries[|before|] == last;
  }

  lemma {:induction false} InConcat<T>(x: T, a: seq<T>, b: seq<T>)
    ensures x in a + b <==> x in a || x in b
  {
  }

  lemma {:induction false} SpanPathsStep(
    events: seq<Event>, before: seq<Summary>, last: Summary, access: Access, path: string)
    requires path in SpanPaths(events, Spans(before), access) <==> UsedSoFar(events, before, Tool(access), path)
    ensures path in SpanPaths(events, Spans(before + [last]), access) <==>
      UsedSoFar(events, before + [last], Tool(access), path)
  {
    hide *;
    PathsAre(events, access, last.covered, path);
    SpansSnoc(before, last);
    SpanPathsSnoc(events, Spans(before), last.covered, access);
    InConcat(path, SpanPaths(events, Spans(before), access), Paths(events, Failed(events), access, last.covered));
    UsedStep(events, before, last, Tool(access), path);
  }

  lemma {:induction false} SpanPathsAre(events: seq<Event>, summaries: seq<Summary>, access: Access, path: string)
    ensures path in SpanPaths(events, Spans(summaries), access) <==> UsedSoFar(events, summaries, Tool(access), path)
  {
    hide *;
    if |summaries| > 0 {
      var before, last := summaries[..|summaries| - 1], summaries[|summaries| - 1];
      SpanPathsAre(events, before, access, path);
      SpanPathsStep(events, before, last, access, path);
      assert summaries == before + [last];
    } else {
      SpanPathsNone(events, Spans(summaries), access);
      NothingUsed(events, summaries, Tool(access), path);
    }
  }

  lemma {:induction false} NothingUsed(events: seq<Event>, summaries: seq<Summary>, tool: string, path: string)
    ensures |summaries| == 0 ==> !UsedSoFar(events, summaries, tool, path)
    ensures |Spans(summaries)| == |summaries|
  {
  }

  /**
   * After any number of rounds the lists recorded last hold just the paths that the successful calls of the covered
   * events name: in the list of paths read those of `read`, and so on.
   */
  lemma {:induction false} RecordedFilesAre(log: Log, n: nat, path: string)
    requires Continuous(log) && exists i :: 0 <= i < |log.events| && Compacts(log.events[i])
    requires n <= |Starts(log.events)| && |Successes(log.events, n)| > 0
    ensures var events, summaries := log.events, Successes(log.events, n);
      var files := summaries[|summaries| - 1].files;
      && (path in files.read <==> UsedSoFar(events, summaries, "read", path))
      && (path in files.written <==> UsedSoFar(events, summaries, "write", path))
      && (path in files.edited <==> UsedSoFar(events, summaries, "edit", path))
  {
    var events, start := log.events, log.Started().value;
    RoundsBefore(events, start, |Starts(events)|, n);
    var summaries := Successes(events, n);
    hide Successes, Starts, RoundsOk, Continuous, UsedSoFar, SpanPaths;
    forall access: Access
      ensures path in Listed(summaries[|summaries| - 1].files, access) <==>
        UsedSoFar(events, summaries, Tool(access), path)
    {
      FilesAccumulate(events, start, n, access);
      SpanPathsAre(events, summaries, access, path);
      var all := SpanPaths(events, Spans(summaries), access);
      SortedSetSorts(all);
      assert path in SortedSet(all) <==> path in Elements(SortedSet(all));
      assert path in all <==> path in Elements(all);
    }
    assert Listed(summaries[|summaries| - 1].files, Read) == summaries[|summaries| - 1].files.read;
    assert Listed(summaries[|summaries| - 1].files, Written) == summaries[|summaries| - 1].files.written;
    assert Listed(summaries[|summaries| - 1].files, Edited) == summaries[|summaries| - 1].files.edited;
    assert Tool(Read) == "read" && Tool(Written) == "write" && Tool(Edited) == "edit";
  }
}
