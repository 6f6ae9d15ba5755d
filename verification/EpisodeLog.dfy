/** An episode log as the trace checker sees it once its JSON lines are decoded. */
module EpisodeLog {
  import opened Prelude

  /** A `request_id` field: the checker tells an absent field from one that holds no string. */
  datatype RequestId = Absent | NotText | Named(name: string) {
    /** Absent counts as the empty string, so it belongs to the episode rather than to a summarization. */
    predicate Ordinary() {
      match this
      case Absent => true
      case NotText => false
      case Named(s) => !IsSummarization(s)
    }
  }

  predicate IsSummarization(id: string) {
    "cmp_" <= id
  }

  /** A token count as JSON: the checker's `isinstance(x, int)` also admits a boolean. */
  datatype Count = NoCount | Whole(n: int) | Flag(b: bool)

  datatype Usage = Usage(input: Count, output: Count)

  /** One entry of `tool_calls`. */
  datatype Entry = NotAnObject | Call(id: Option<string>, name: Option<string>, path: Option<string>)

  datatype Message =
    | User(content: seq<string>)
    | Assistant(text: string, toolCalls: seq<Entry>, thinking: seq<string>)
    | Tool(callId: string, name: string, rendered: string, isError: bool)

  /** Whole amounts under the three names a reservation or a release may state. */
  datatype Amounts = Amounts(calls: Option<int>, input: Option<int>, output: Option<int>)

  datatype Span = Span(first: int, last: int)

  datatype Files = Files(read: seq<string>, written: seq<string>, edited: seq<string>)

  /** `rendering` stands for the continuation text, which is a function of the summary alone. */
  datatype Summary = Summary(
    task: string,
    rendering: string,
    narrative: string,
    doneWhen: string,
    covered: Span,
    files: Files,
    firstKept: Option<int>,
    requestSeq: Option<int>)

  /** A cap of the contract's budget: absent, a number, or something that is not a number. */
  datatype Cap = Default | Limit(n: int) | NotANumber

  datatype Budget = Budget(totals: Amounts, maxConcurrent: Cap, maxEpisodes: Cap)

  datatype Start = Start(
    id: Option<string>,
    parentId: Option<string>,
    task: string,
    doneWhen: string,
    compact: bool,
    budget: Option<Budget>)

  /** `consumed` is None when it is no list; an absent one is the empty list. */
  datatype Body =
    | EpisodeStart(start: Start)
    | EpisodeEnd(outcome: Option<string>)
    | RequestHeader(provider: Option<string>)
    | ModelRequest(id: RequestId, headerSeq: Option<int>, consumed: Option<seq<Option<int>>>, messages: seq<Message>)
    | AssistantMessage(id: RequestId, text: string, toolCalls: seq<Entry>, thinking: seq<string>, usage: Option<Usage>)
    | AssistantChunk(id: RequestId)
    | InnerCall(outerId: Option<string>, callId: Option<string>, callName: Option<string>, index: Option<int>)
    | ToolResult(settles: Option<string>, resultName: Option<string>, rendered: string, isError: bool)
    | InboxItem(content: Option<seq<string>>)
    | CompactionStart(covered: Span)
    | CompactionSummary(summary: Summary)
    | CompactionEnd(ok: bool)
    | BudgetReserve(childId: Option<string>, reserved: Option<Amounts>)
    | BudgetRelease(childId: Option<string>, spent: Option<Amounts>)
    | SpawnStart(childId: Option<string>)
    | SpawnEnd(childId: Option<string>, childOutcome: Option<string>)
    | Unread

  /** `enveloped` says the line carries an integer time, a string type and an object as data. */
  datatype Event = Event(seqNo: Option<int>, enveloped: bool, body: Body)

  datatype Log = Log(path: string, events: seq<Event>) {
    function Started(): Option<Start> {
      if |events| > 0 && events[0].body.EpisodeStart? then Some(events[0].body.start) else None
    }

    function EpisodeId(): string {
      match Started()
      case Some(Start(Some(id), _, _, _, _, _)) => id
      case _ => path
    }

    function ParentId(): Option<string> {
      match Started()
      case Some(start) => start.parentId
      case None => None
    }
  }

  /** Every event's `seq` is its position. */
  predicate Contiguous(events: seq<Event>) {
    forall i :: 0 <= i < |events| ==> events[i].seqNo == Some(i)
  }
}
