# Accounts over append-only logs: a Dafny model of the evaluation scripts

The evaluation scripts of this repository judge agent runs after the fact. They read append-only records - episode
logs, session files, relayed responses - and either check them or keep an account of them. This project models the
five parts of that code where an invariant has to hold across a whole run, and proves the invariant for every run.

| part of the system | source | files |
|---|---|---|
| conformance of episode logs: pairing of calls and results, the derived message list, budgets over the episode tree, compaction | `evals/trace_quality.py` | `Evaluation`, `EpisodeLog`, `Pairing`, `PairedRuns`, `PairLaws`, `Messages`, `MessageLaws`, `Evidence`, `EvidenceLaws`, `EvidenceCases`, `EvidenceWitness`, `Budgets`, `BudgetLaws`, `BudgetRuns`, `BudgetTree`, `BudgetCases`, `BudgetTwins`, `Walks`, `Compaction`, `CompactionLaws`, `CompactionMeans`, `CompactionCases`, `CompactionWitness`, `SortedNames` |
| exact statistics: the two-sided binomial probability, the sign test, the fewest significant units, the cluster bootstrap | `evals/cross_harness/report.py` | `Binomial`, `Significance`, `Bootstrap`, `BootstrapLaws` |
| the incremental usage ledger over growing session files | `evals/cross_harness/codex_budget_watcher.py` | `LedgerSpec`, `LedgerTotals`, `LedgerLaws`, `LedgerReads`, `Ledger` |
| the concurrent meter and the relay that holds one chunk back | `evals/cross_harness/metering_proxy.py` | `Meter`, `MeterLaws`, `Relay` |
| the session tree, the second account of an episode tree, and the launch order | `evals/cross_harness/normalize_codex.py`, `normalize_foe.py`, `trajectory.py`, `run.py` | `Sessions`, `Accounts`, `AccountTree`, `AccountLaws`, `AccountsAgree`, `AccountCases`, `AccountTrees`, `Schedule` |

`Prelude` holds options and finite sums.

## How the model is put together

A checker or an account that the source updates step by step is a method or a class here, with loops and invariants,
and its contract ties it to a predicate or a function of its input. The theorems are lemmas about that predicate or
function. For the log checks the predicate says what an accepted log is (`Conforms`, `Balanced`, `Continuous`), and the
method's contract says that the report stays clean exactly when it holds; an `IndexError` that the source raises on a
negative number is an out-parameter `raised`. For the ledger and the meter the functions are `Run` and `After`, the
state after any schedule of refreshes and after any interleaving of atomic steps.

The functions that specify the loops are stated a second time, in the files named `Laws`, `Means` and `Reads`. There the
same answer is told by positions of events, lines and draws and by plain sums, without the tables the code keeps, and
lemmas show that the two agree: a log is accepted exactly when it is sound in that reading
(`EvidenceLaws.ConformsMeans`, `BudgetLaws.BalancedMeans`, `CompactionMeans.ContinuousMeans`), and a list, a sum or a
decision is the only one that meets its law.

JSON values are typed records whose options stand for values of the wrong type. Parsing, rendering of the continuation
text, clocks and file contents are parameters. Statistics are over exact reals. The generator of the bootstrap is an
arbitrary function, so what is proved holds for every seed and for every generator.

## What the code does not promise

Where the checks leave a case open, a lemma gives a concrete input that is accepted and shows the case, and another says
for every input exactly when, or by how much, the property fails.

- A request may consume an inbox item by a negative number, which counts from the end of the log. Such a number passes
  the check a second time for the same item, and delivers nothing (`EvidenceCases.NegativeNumberRepeats`). No item is
  named twice exactly when none is consumed both ways (`EvidenceCheck.DeliveredOnce`).
- `first_kept_seq` may lie beyond its own summary, and then the conversation is cut (`EvidenceCases.ConversationCut`).
  `EvidenceCheck.ConversationGrows` says exactly when it is not.
- `covered.last_seq` may lie before `covered.first_seq`, and then a span keeps events an earlier one covered
  (`CompactionCases.SpansOverlap`). The spans tile the log exactly when each runs forward
  (`CompactionCheck.CompactionTiles`).
- The budget checks do not ask that a child id be reserved once, that a reservation be spawned, that a release state all
  three amounts, or that ids be distinct. A child may be booked twice (`BudgetCases.BookedTwice`) or not at all
  (`BudgetCases.BookedNever`), and of two children with one id only one is booked (`BudgetTwins.TwinBookedOnce`).
  `BudgetTree.BudgetDifference` gives the difference for every accepted log; it is nothing when the log meets the first
  three conditions and each of its children is the log recorded under its id (`BudgetTree.BudgetConserved`), as it is
  when ids are distinct (`BudgetTree.DistinctRecorded`).
- A reservation may be negative, and a release that states no model calls then lets committed spend rise above its bound
  (`BudgetCases.CommittedRises`). In every dimension a release lifts committed spend by what it states beyond the
  reservation it closes, an amount left out counting nothing, and no other event but a reservation makes it rise
  (`BudgetRuns.CommittedFalls`). The bound gives way by just what was lifted since the last reservation
  (`BudgetRuns.CommittedFits`). Where a reservation bounds its child only a negative reservation closed in silence and
  an amount stated where none was reserved lift (`BudgetRuns.LiftsWhen`); input tokens, and output tokens on a route
  that ignores the cap, are not so bounded.
- A file all of whose responses were counted elsewhere owns none, so `totals` adds its token counts although the file
  holds a usage record. The documented rules say such a file contributes nothing
  (`LedgerTotals.SharedResponseExceeds`). `totals` exceeds the documented sum by exactly those counts
  (`LedgerTotals.TotalsMeetRules`).
- The trajectory drops the usage of a message that answers no open request, which the subtree spend counts. Acceptance
  as evidence does not rule out a second answer to one request (`AccountCases.SecondAnswerFallsShort`). A stated total
  falls short by exactly the dropped usage and what the walk repeats (`AccountsAgree.AccountantsAgree`).
- Collecting a directory tree checks neither that ids are stated nor that they are distinct. The walk over parent links
  may then never end (`AccountTrees.RepeatedIdLoops`), count a log twice (`AccountTrees.SharedIdCountsTwice`) or leave
  one out (`AccountTrees.UnnamedIdCountsNone`). It ends exactly when no chain of child links below it is as long as
  there are logs (`Walks.WalkEndsWhen`), and then sums each log as often as it comes to it (`Walks.SubtreeVisits`),
  which in a tree whose logs state their ids is once each exactly when no parent's id is had by two logs
  (`AccountsAgree.VisitedOnceWhen`).
- An interval may be a single value for every generator without being marked degenerate (`Bootstrap.CollapsedUnmarked`).
  It is a single value for every generator exactly when the cluster means are equal (`Bootstrap.CollapsesWhen`).

## Model

| member | source | states |
|---|---|---|
| `Evaluations.Evaluation.Check` | evals/trace_quality.py:98-119 | a failed check adds one violation with its dimension, episode and place, a passed one adds none; only the named dimension's counters move, and its applicable episodes gain this one |
| `Evaluations.Evaluation.ValidReport` | evals/trace_quality.py:121-144 | the report is valid exactly when every dimension passed as many checks as it made |
| `Pairing.TwoPassIsOnePass` | evals/trace_quality.py:455-622 | collecting calls and results and matching them afterwards accepts exactly the runs that a one-pass monitor with a set of open calls accepts |
| `PairedRuns.AcceptedRunsPair` | evals/trace_quality.py:523-622 | acceptance is equivalent to: call ids are distinct, every call has one later result of its name, every result settles one earlier call, and inner calls open while their outer call is unsettled and count from zero within it |
| `PairedRuns.MonitorKnows` | evals/trace_quality.py:455-461 | after any watched run the open calls are the opened ones less the settled ones, and the next inner index of each call is the number of its inner calls |
| `Pairing.TablesPersist` | evals/trace_quality.py:538-577 | in an accepted run what the tables record of a call or a result at any point is what they record at the end |
| `PairLaws.PairingMeans` | evals/trace_quality.py:523-622 | the checks on calls and results pass exactly when, event by event, every entry and inner call is named and its id made once, each has one later result of its name, each result settles one, and each inner call names a call of an earlier message with no earlier result and states how many inner calls of it came before |
| `Messages.MessagesForRequest` | evals/trace_quality.py:199-281 | the loops over the log compute the derived list: preface from the latest summary, contributions from `first_kept_seq` on, then the request's consumed items |
| `Messages.AddConsumed` | evals/trace_quality.py:238-246 | the content of the consumed items, in the order named, is one user message, or none when it is empty |
| `Messages.ClassifiedOnce` | evals/trace_quality.py:212-217 | in a paired log no later event changes whether a result counts as that of an inner call |
| `Messages.WalkIsSaid` | evals/trace_quality.py:248-279 | the walk over a paired, contiguous log between two positions yields what each event says judged by the events up to it alone |
| `Messages.DeriveIsSaid` | evals/trace_quality.py:199-281 | an ordinary request's derived list is the preface, what was said from the boundary up to it, and what it consumes |
| `MessageLaws.SaidIs` | evals/trace_quality.py:248-279 | an event puts one message into the list or none: an ordinary message its text, calls and thinking; a result its four fields exactly when no earlier inner call states its id; an earlier ordinary request the content of its items in the order named; nothing else |
| `MessageLaws.SaidIsListed` | evals/trace_quality.py:248-279 | what is said between two positions is the only list that corresponds in order to the events there that tell a message |
| `MessageLaws.DerivedCarries` | evals/trace_quality.py:199-281 | in a paired log the derived list of an ordinary request is the only one made of the opening of the latest summary, one message for each telling event from the boundary to the request, and what it consumes |
| `EvidenceCheck.CheckEnvelopes` | evals/trace_quality.py:425-436 | clean exactly when every `seq` is its position and every envelope is complete |
| `EvidenceCheck.CheckBrackets` | evals/trace_quality.py:438-453 | clean exactly when the first event is the only start and the last the only end |
| `EvidenceCheck.CheckConsumed` | evals/trace_quality.py:485-497 | valid exactly when every number is below the request's place, not consumed before it or earlier in the list, and names an inbox item; every number is recorded as consumed either way; raises exactly when the check reaches a number below minus the length |
| `EvidenceCheck.CheckRequest` | evals/trace_quality.py:467-513 | clean exactly when the id is new, the header is the one in effect, the consumed numbers are valid and an ordinary request carries the derived list; the id table and consumed set advance by this event |
| `EvidenceCheck.CheckToolCalls` | evals/trace_quality.py:523-539 | the calls of one message enter the tables in order; clean exactly when each id is new and named |
| `EvidenceCheck.CheckInnerCall` | evals/trace_quality.py:540-577 | clean exactly when the outer call was issued by a message and is unsettled, the id is new and named, and the index is the next one |
| `EvidenceCheck.CheckCalls` | evals/trace_quality.py:602-614 | clean exactly when every recorded call has one later result of the same name |
| `EvidenceCheck.CheckResults` | evals/trace_quality.py:615-622 | clean exactly when every settled id is a recorded call with one result |
| `EvidenceCheck.CheckEvent` | evals/trace_quality.py:462-600 | one event keeps the header in effect, request ids, consumed numbers and call tables those of the prefix read, and is clean exactly when the event meets its checks |
| `EvidenceCheck.CheckEvidence` | evals/trace_quality.py:414-622 | without an index error the report stays clean exactly when the log conforms; an index error is raised only by a log that does not |
| `EvidenceLaws.ConformsMeans` | evals/trace_quality.py:414-622 | a log conforms exactly when it is numbered from 0, starts once and first, ends once and last, its calls and results correspond, and each event meets its law: a request a new id, the latest header, items named once and the list just described, a message or chunk an earlier request |
| `EvidenceLaws.AcceptedListCarries` | evals/trace_quality.py:199-281 | in an accepted log the recorded list of an ordinary request is that list |
| `EvidenceCheck.RecordedList` | evals/trace_quality.py:199-281 | in an accepted log the recorded list of an ordinary request is preface, conversation since the boundary, consumed items |
| `EvidenceCheck.ConversationGrows` | evals/trace_quality.py:199-281 | between two ordinary requests with no summary between them the later list is the earlier one, the messages in between and the newly consumed items, exactly when the boundary in force cuts off nothing said after the earlier request |
| `EvidenceCheck.CompactionKeepsSuffix` | evals/trace_quality.py:218-279 | after a summary the list is task, continuation, the uncompacted derivation from `first_kept_seq` on, and what is consumed; a `first_kept_seq` beyond the request leaves none of that derivation |
| `EvidenceCheck.ConsumedOnce` | evals/trace_quality.py:485-504 | in an accepted log no number is consumed twice, by one request or by two |
| `EvidenceCheck.ConsumedNames` | evals/trace_quality.py:485-504 | a consumed number names an earlier inbox item exactly when it is not negative, and it delivers content exactly when besides the item's content is a list |
| `EvidenceCheck.SameItemWhen` | evals/trace_quality.py:485-504 | two consumed numbers stand for the same inbox item exactly when one is the other less the length of the log |
| `EvidenceCheck.DeliveredOnce` | evals/trace_quality.py:485-504 | an accepted log names no inbox item twice exactly when no item is consumed both by its number and from the end |
| `EvidenceCases.NegativeNumberRepeats` | evals/trace_quality.py:489-497 | an accepted log in which two requests consume the one inbox item |
| `EvidenceCases.ConversationCut` | evals/trace_quality.py:218-279 | an accepted log whose boundary lies beyond its summary, so that the later request drops an answer although no compaction lies between |
| `EvidenceWitness.NestedConforms` | evals/trace_quality.py:248-279 | an accepted log with a call, an inner call and both results, whose second request records the outer result and not the inner one |
| `BudgetCheck.OwnSpend` | evals/trace_quality.py:826-837 | the loop over one log's events counts its requests and the tokens of its messages |
| `BudgetCheck.SubtreeSpend` | evals/trace_quality.py:825-843 | the recursive walk sums own spend over the whole subtree; it needs that no loop of parent links lies below this log |
| `BudgetCheck.CountEpisodes` | evals/trace_quality.py:1030-1035 | the walk with an explicit stack counts what the recursive size of the subtree is |
| `BudgetCheck.CheckReserve` | evals/trace_quality.py:899-928 | clean exactly when the reservation names an inactive child and in every bounded dimension own, released and reserved spend fit the total |
| `BudgetCheck.CheckSpawnStart` | evals/trace_quality.py:929-949 | clean exactly when the child is reserved and not running and the running children fit the cap |
| `BudgetCheck.CheckSpawnEnd` | evals/trace_quality.py:950-978 | clean exactly when the child runs, its log names this parent, and the outcomes agree |
| `BudgetCheck.CheckRelease` | evals/trace_quality.py:979-1018 | clean exactly when the child is reserved, each bounded amount fits its reservation and each stated amount is what the child's subtree spent where a log records the child; the reservation is closed and the stated amounts are booked |
| `BudgetCheck.CheckLog` | evals/trace_quality.py:866-1041 | the account follows the events and the report stays clean exactly when the log is balanced |
| `BudgetCheck.CheckBudgets` | evals/trace_quality.py:857-1041 | the report stays clean exactly when every log is balanced; it needs that the walks the checks make end |
| `BudgetLaws.BalancedMeans` | evals/trace_quality.py:857-1041 | a log is balanced exactly when by positions each reservation finds none open for its child and own, released and open reserved sums within each stated total, each start an open reservation and room under the cap, each end a running child whose log names this parent and ended so, each release an open reservation and amounts that fit it and the child's log, and in the end nothing is open, nothing runs, the started ids are the children's and the subtree fits its cap |
| `BudgetLaws.ReservationsFit` | evals/trace_quality.py:917-928 | at every reservation of an accepted log, in every dimension with a stated total, the sums of own spend, of released amounts and of the open reservations, this one included, are together at most the total |
| `BudgetRuns.CommittedFalls` | evals/trace_quality.py:899-1018 | in every dimension, apart from a reservation, an event lets released and still reserved spend rise only when it is a release that states more than its reservation, an amount left out counting nothing, and then by just that much |
| `BudgetRuns.CommittedFits` | evals/trace_quality.py:899-1018 | at every event of an accepted log and in every dimension with a stated total they are at most the total less the parent's own spend at the last reservation, and what was so lifted since |
| `BudgetRuns.NothingLifted` | evals/trace_quality.py:899-1018 | in a dimension nothing was lifted exactly when no event since the last reservation lifts |
| `BudgetRuns.LiftsWhen` | evals/trace_quality.py:979-1010 | where a reservation bounds its child an accepted release lifts exactly when it states nothing and closes a negative reservation, or states some and closes one that stated none |
| `BudgetRuns.RunningFits` | evals/trace_quality.py:929-1021 | the running children never exceed `max_concurrent`, and none is running or reserved at the end |
| `BudgetTree.BookedSum` | evals/trace_quality.py:979-1018 | in an accepted prefix what is booked for children is, over all ids, how often a release states the amount times what the id's subtree spent, and the amounts stated for ids that no log records |
| `BudgetTree.ChildrenMeasure` | evals/trace_quality.py:838-842 | summing, over all child ids, what the children with that id spent is summing over the child logs, whether or not ids repeat |
| `BudgetTree.BudgetDifference` | evals/trace_quality.py:857-1041 | for every accepted log, own plus booked spend less the subtree's spend is, summed over all ids, the spend measured under the id times the releases that state it, less what the children with that id spent, plus what is stated for ids that no log records |
| `BudgetTree.BudgetConserved` | evals/trace_quality.py:857-1041 | in an accepted log whose ids are reserved once, whose reservations are spawned, whose releases state all amounts and whose children are the logs recorded under their ids, own plus released spend is the subtree's spend |
| `BudgetCases.BookedTwice` | evals/trace_quality.py:899-1018 | an accepted log that reserves and releases its one child twice and accounts for two calls where the subtree made one |
| `BudgetCases.BookedNever` | evals/trace_quality.py:979-1018 | an accepted log whose release states nothing and that accounts for no call where the subtree made one |
| `BudgetCases.CommittedRises` | evals/trace_quality.py:899-1018 | an accepted log in which a silent release of a negative reservation lifts committed calls above their bound |
| `BudgetTwins.TwinBookedOnce` | evals/trace_quality.py:857-1041 | an accepted log with two children of one id that accounts for one call where the subtree made two |
| `Walks.WalkEndsWhen` | evals/trace_quality.py:825-843 | a walk over any set of logs ends exactly when no chain of child links below its log is as long as there are logs |
| `Walks.HeightsExist` | evals/trace_quality.py:838-842 | every set of logs has the heights the walks take, positive for just the logs whose walk ends |
| `Walks.SubtreeVisits` | evals/trace_quality.py:825-843 | the subtree spend is the sum of every log's own spend times how often the walk comes to it, whatever ids the logs have |
| `Walks.VisitsFromParents` | evals/trace_quality.py:858-863 | the walk comes to a log as often as to all logs whose id it names as its parent, and once more where it starts |
| `Walks.SizeVisits` | evals/trace_quality.py:1030-1035 | the episodes of a subtree are counted as often as the walk comes to their logs |
| `CompactionCheck.CompactFiles` | evals/trace_quality.py:1171-1201 | the file lists are the sorted sets of the carried paths and of the paths of the span's calls that did not fail |
| `CompactionLaws.FilesMean` | evals/trace_quality.py:1171-1201 | the lists are the only ascending ones that hold the carried paths and, for `read`, `write` and `edit` each, the paths of the calls of that name in messages of the span whose id no error result of the log settles |
| `CompactionCheck.PathsMeet` | evals/trace_quality.py:1186-1200 | two spans that meet list the paths of the span they make |
| `CompactionCheck.CheckState` | evals/trace_quality.py:1246-1281 | clean exactly when the span begins where the last one said, the summary repeats it, the task and the completion condition, and the next span begins right after it |
| `CompactionCheck.CheckExchange` | evals/trace_quality.py:1282-1307 | clean exactly when the summary text is the one recorded answer in this round to a summarization request of this round |
| `CompactionCheck.CheckRound` | evals/trace_quality.py:1219-1321 | clean exactly when the round meets its checks; the summary carried on is this round's when it succeeded and the previous one otherwise |
| `CompactionCheck.CheckCompaction` | evals/trace_quality.py:1204-1321 | without an index error the report stays clean exactly when the log is continuous |
| `CompactionMeans.ContinuousMeans` | evals/trace_quality.py:1204-1321 | a log is continuous exactly when, from each compaction start to the next, one end follows, and where it succeeded one summary with the span, task, condition, boundary, answered request and file lists that the start, the episode and the latest success before it call for |
| `CompactionCheck.SuccessesLink` | evals/trace_quality.py:1246-1281 | the summaries of the successful rounds of an accepted log each begin where the one before said |
| `CompactionCheck.CompactionTiles` | evals/trace_quality.py:1246-1281 | the successful spans tile the events from 1, without gap or overlap after every success, exactly when each runs forward |
| `CompactionCases.SpansOverlap` | evals/trace_quality.py:1246-1281 | an accepted log whose second span runs from 6 to 2, so that its spans do not tile and events it has covered are kept |
| `CompactionCheck.FilesAccumulate` | evals/trace_quality.py:1308-1321 | each recorded list, built on the one before it, is the sorted set of the paths of all spans so far |
| `CompactionCheck.FilesInOnePass` | evals/trace_quality.py:1308-1321 | after any number of rounds whose spans run forward, the lists recorded last are what one pass over events 1 to the last covered one would list |
| `CompactionLaws.RecordedFilesAre` | evals/trace_quality.py:1308-1321 | after any number of rounds a path is in a recorded list exactly when a span of a success so far holds a call of the literal name on the path that no error result settles |
| `CompactionWitness.FailedCallUnlisted` | evals/trace_quality.py:1186-1200 | an accepted log with a successful read and a failed write, whose summary lists the one path alone |
| `SortedNames.AscendingUnique` | evals/trace_quality.py:1201 | a set has one ascending list |
| `SortedNames.SortedSetCarries` | evals/trace_quality.py:1179-1201 | sorting a list that begins with a sorted set is sorting everything at once |
| `SortedNames.SortedKeys` | evals/cross_harness/report.py:1158 | the names of a set in ascending order, each once |
| `SortedNames.LessMeans` | evals/cross_harness/report.py:1158 | a name comes before those it begins and those with the greater character where the two first differ |
| `LedgerSpec.SplitOn` | evals/cross_harness/codex_budget_watcher.py:188-190 | splitting what was read so far and then a chunk after the kept tail is splitting the whole |
| `LedgerLaws.LinesRejoin` | evals/cross_harness/codex_budget_watcher.py:188-190 | the lines, each with the newline after it, and the kept tail are the bytes again, and no line or tail holds a newline |
| `LedgerSpec.ReadReflects` | evals/cross_harness/codex_budget_watcher.py:171-194 | one read brings offset, tail, line count and token counts of a file that grew or was cut to those of one read of its contents |
| `LedgerSpec.ResponsesOwnedOnce` | evals/cross_harness/codex_budget_watcher.py:162-215 | after any schedule of refreshes over any files, the files own disjoint responses and together all that were counted |
| `LedgerSpec.RunMirrors` | evals/cross_harness/codex_budget_watcher.py:162-222 | over files that only grow, every refresh leaves each file as one read of it would and has counted the keys of all their usable responses |
| `LedgerSpec.RunFinds` | evals/cross_harness/codex_budget_watcher.py:163-167 | the ledger knows exactly the files some refresh listed |
| `LedgerSpec.ChunksDoNotMatter` | evals/cross_harness/codex_budget_watcher.py:162-222 | however the growth is cut into refreshes, files, readings and counted responses are those of one read of the last contents |
| `LedgerTotals.UsageDoesNotMatterWhen` | evals/cross_harness/codex_budget_watcher.py:209-215 | when equal ids carry equal usage, the map from id to usage does not depend on the schedule either |
| `LedgerTotals.TotalsMeetRules` | evals/cross_harness/codex_budget_watcher.py:17-28 | `totals` is the sum the documented rules name, plus the token counts of files that hold a record and own no response |
| `LedgerTotals.TotalsMeetRulesWhen` | evals/cross_harness/codex_budget_watcher.py:224-233 | after every append-only run with counts that are not negative, `totals` is the documented sum exactly when no such file has counted tokens |
| `LedgerTotals.RunCatchesUp` | evals/cross_harness/codex_budget_watcher.py:171-194 | after every run whose files grow or are cut, each file is as one read of its contents leaves it and the responses it holds have been counted |
| `LedgerTotals.CutAndRestored` | evals/cross_harness/codex_budget_watcher.py:176-183 | files cut to a prefix, seen by a refresh and then restored leave as it was any ledger that has caught up with them |
| `LedgerTotals.SharedResponseExceeds` | evals/cross_harness/codex_budget_watcher.py:224-233 | two files that share one response, the second with a token count besides, where `totals` is 12 and the documented sum 7 |
| `LedgerLaws.PlacesDiffer` | evals/cross_harness/codex_budget_watcher.py:196-197 | no two lines have the same place, so two records without an id have different keys |
| `LedgerLaws.CountedAre` | evals/cross_harness/codex_budget_watcher.py:209-222 | after every append-only run the counted responses are those that lines of the known files report, by id or by place, each with a usage one of them reports |
| `LedgerLaws.UnnamedCounted` | evals/cross_harness/codex_budget_watcher.py:209-215 | a record without an id, whose place no line states as an id, is counted where it stands and with its own usage |
| `LedgerLaws.UnnamedFileSums` | evals/cross_harness/codex_budget_watcher.py:19-22 | a file of such records alone contributes the plain sum of their usages, line by line |
| `LedgerLaws.ProblemsAre` | evals/cross_harness/codex_budget_watcher.py:196-222 | the problems of some lines are the places of those that are no JSON, or a usage that cannot be read of a count or of a response not counted yet |
| `LedgerReads.CountsAre` | evals/cross_harness/codex_budget_watcher.py:216-222 | after every append-only run a file has the plain sum of the token counts its lines state |
| `LedgerReads.FirstCounts` | evals/cross_harness/codex_budget_watcher.py:209-215 | a refresh counts a new response in the first file, in the order found, with an unread line that reports it, and with the usage of the first such line |
| `LedgerReads.GoneKeeps` | evals/cross_harness/codex_budget_watcher.py:171-175 | a refresh leaves a file that is gone as it was |
| `LedgerReads.DiscoverOrders` | evals/cross_harness/codex_budget_watcher.py:163-167 | new files are added unread, each once, in the order in which the listing first names them |
| `LedgerReads.ReadProblemsAre` | evals/cross_harness/codex_budget_watcher.py:171-194 | one read reports the path of a file that shrank and the places of the lines it could not use, counted from the start of such a file and otherwise from the last read |
| `LedgerModel.UsageLedger.Record` | evals/cross_harness/codex_budget_watcher.py:196-222 | one line adds a new response, adds to the counts, or adds a problem naming the file and line |
| `LedgerModel.UsageLedger.Read` | evals/cross_harness/codex_budget_watcher.py:171-194 | reading a file in place is the read step, a missing or unchanged file included; the problems gained name a file that shrank and then each line that could not be used |
| `LedgerModel.UsageLedger.Find` | evals/cross_harness/codex_budget_watcher.py:163-167 | listed files the ledger does not know are added in order, the others keep their state |
| `LedgerModel.UsageLedger.Refresh` | evals/cross_harness/codex_budget_watcher.py:162-169 | a refresh of the objects is one step of the run over their abstract state; the problems gained are those of its reads, in the order of the files |
| `LedgerModel.UsageLedger.Totals` | evals/cross_harness/codex_budget_watcher.py:224-233 | the loops over files and responses sum in every field what each file contributes |
| `MeterModel.CountIsFirst` | evals/cross_harness/metering_proxy.py:96-104 | a count is read exactly when the first value that is not null is a whole number that is not negative |
| `MeterModel.NoCount` | evals/cross_harness/metering_proxy.py:96-104 | when every value is absent or null there is no count, which is the error |
| `MeterModel.BudgetFromDocument` | evals/cross_harness/metering_proxy.py:176-187 | a document is refused or applied as a whole, item by item |
| `MeterModel.WithItemsUnnamed` | evals/cross_harness/metering_proxy.py:180-187 | a dimension the document does not name keeps its limit |
| `MeterModel.WithItemsNamed` | evals/cross_harness/metering_proxy.py:180-187 | a dimension it names takes the last value named, null lifting the limit |
| `MeterLaws.DocumentSets` | evals/cross_harness/metering_proxy.py:176-187 | a document is taken exactly when every item is under `input_tokens` or `output_tokens` and null or a whole number from 0, and then each limit is the value of the last item under its key |
| `MeterModel.Meter.SetBudget` | evals/cross_harness/metering_proxy.py:242-246 | the control step of the run; a refused document leaves the budget |
| `MeterModel.Meter.OpenRequest` | evals/cross_harness/metering_proxy.py:252-264 | the arrival step of the run; the number is the count of arrivals and the refusal names the exhausted dimension of the state before |
| `MeterModel.Meter.Charge` | evals/cross_harness/metering_proxy.py:266-274 | the settling step of the run |
| `MeterModel.Independent` | evals/cross_harness/metering_proxy.py:228-274 | after any interleaving an attempt is as its own steps alone leave it |
| `MeterModel.AccountRecords` | evals/cross_harness/metering_proxy.py:228-274 | forwarded, refused, metered, unmetered and used are the counts and the sum of the attempt's steps |
| `MeterLaws.AttemptHolds` | evals/cross_harness/metering_proxy.py:228-274 | after any run an attempt holds the limits its accepted documents left and the plain sums, field by field, of the usages charged to it |
| `MeterLaws.ForwardedWhen` | evals/cross_harness/metering_proxy.py:207-261 | an arriving request is forwarded exactly when in each dimension no limit is in force or it exceeds the plain sum of the usages settled before; a refusal names the first dimension that fails this |
| `MeterModel.NumbersInOrder` | evals/cross_harness/metering_proxy.py:252-264 | the number a request receives is its place in the order of arrival |
| `MeterModel.RequestsBalance` | evals/cross_harness/metering_proxy.py:197-205 | forwarded requests are metered, unmetered, unsuccessful or in flight |
| `MeterModel.RefusedUntilSet` | evals/cross_harness/metering_proxy.py:207-261 | once an attempt is exhausted every later request of it is refused until its budget is set |
| `MeterModel.OverrunBounded` | evals/cross_harness/metering_proxy.py:207-274 | from any step at which a limit is in force, however it was set, until it is set anew: with at most c requests in flight and at most m reported by each, used plus m for each in flight stays within limit - 1 + c * m once it is |
| `MeterModel.OverrunSinceSet` | evals/cross_harness/metering_proxy.py:207-274 | a limit set above what has been used, or in force from the start, is exceeded by less than what c requests report |
| `RelayModel.Connection.Send` | evals/cross_harness/metering_proxy.py:494-502 | an open client receives the chunk, or part of it and is closed; a closed one receives nothing |
| `RelayModel.Pump` | evals/cross_harness/metering_proxy.py:505-517 | while the client is open it has received every chunk but the held one |
| `RelayModel.RelayEnds` | evals/cross_harness/metering_proxy.py:518-525 | one charge between the held-back writes and the last write leaves a proper prefix before it and the whole body, or a prefix for a client that left, after it |
| `RelayModel.Relay` | evals/cross_harness/metering_proxy.py:491-525 | the attempt is charged once, with the whole body that arrived and whether it ended early, before the client has a complete non-empty body; in the end the client has the body, or a prefix when it left |
| `SessionTree.CheckDistinct` | evals/cross_harness/normalize_codex.py:237-241 | refuses exactly repeated ids, naming the earliest head whose id one before it has, and otherwise maps every id to its head |
| `SessionTree.ByStartSorts` | evals/cross_harness/normalize_codex.py:265 | siblings come in order of start, none lost or repeated, and those that started together keep their order |
| `SessionTree.WalkStep` | evals/cross_harness/normalize_codex.py:258-265 | visiting one head keeps: visited heads have handed out exactly their children, each head handed out once, parents first |
| `SessionTree.RepeatIsCycle` | evals/cross_harness/normalize_codex.py:260-261 | a head met a second time is the root, and the root is its own descendant |
| `SessionTree.WalkComplete` | evals/cross_harness/normalize_codex.py:255-266 | when the queue is empty every descendant of the root has been visited |
| `SessionTree.RunSessions` | evals/cross_harness/normalize_codex.py:229-266 | ends on every finite set of heads; refuses exactly repeated ids, a missing root and a root that is its own descendant; otherwise returns the root and exactly its descendants, each once, in breadth-first order: depth never falls, children of an earlier thread come first, siblings by start and then as the heads stand, whatever cycles other threads form |
| `SessionTree.RunOrderUnique` | evals/cross_harness/normalize_codex.py:255-266 | only one list is in that order |
| `Accounts.ModelCallsOf` | evals/cross_harness/normalize_foe.py:252-274 | the loop with its table of open requests computes the calls of the log and which message answered each |
| `AccountLaws.CallsMean` | evals/cross_harness/normalize_foe.py:252-274 | there is one call for each request, in order; it ends at the first later message with the request's id before the id is asked again, and has the whole numbers that message states, and otherwise has no end and no tokens |
| `Accounts.SumOrNone` | evals/cross_harness/trajectory.py:517-523 | the sum, or None as soon as one value is missing |
| `Accounts.TotalStated` | evals/cross_harness/trajectory.py:517-523 | a total is stated exactly when every call has the count, and is then the sum of the counts |
| `Accounts.CallsAccount` | evals/cross_harness/normalize_foe.py:252-274 | when every answered call has the count, a log's own spend is what its calls state plus what messages that answer no open request state |
| `Accounts.DropsWhen` | evals/cross_harness/normalize_foe.py:268-270 | in a log accepted as evidence a message is left out exactly when an earlier message answered the same request |
| `Accounts.AcceptedDropsNothing` | evals/cross_harness/normalize_foe.py:268-270 | an accepted log that answers no request twice leaves nothing out |
| `AccountTree.Roster.Collect` | evals/cross_harness/normalize_foe.py:552-569 | appends the agents of a directory tree, parents first, exactly when every log names the directory above it as its parent |
| `AccountLaws.GatheredMeans` | evals/cross_harness/normalize_foe.py:552-569 | the agents are those of the ways down the directory tree, in order: each is as deep as its way is long and has the id, parent and calls of the log there |
| `AccountLaws.WaysAre` | evals/cross_harness/normalize_foe.py:552-569 | every way down is among them once, and nothing else |
| `AccountLaws.WaysDown` | evals/cross_harness/normalize_foe.py:552-569 | a directory's way comes before those that go on from it |
| `AccountTree.TotalsOf` | evals/cross_harness/trajectory.py:473-514 | calls, calls with usage, token totals, agents and greatest depth; every call has usage exactly when both token totals are stated |
| `AccountLaws.UsageCountIs` | evals/cross_harness/trajectory.py:500 | the calls with usage are those that state both counts |
| `AccountsAgree.WalkIsSum` | evals/trace_quality.py:825-843 | when no parent's id is had by two logs, what the walk below a collected directory sums is the sum over the logs it holds, in whatever order the files were found |
| `AccountsAgree.GatheredIsSum` | evals/cross_harness/normalize_foe.py:552-569 | what the collected agents' calls state is the sum over the same logs |
| `AccountsAgree.AccountantsAgree` | evals/cross_harness/trajectory.py:488-502 | for every collected tree whose walk ends, whatever its ids, a stated total and the subtree spend differ by exactly what messages that answer no open request state and what the walk counts beyond once |
| `AccountsAgree.ModelCallsAgree` | evals/cross_harness/trajectory.py:498-499 | for every such tree the walk's model calls are the trajectory's and those it counts beyond once; when every log states its id the two are equal exactly when each log with a request is come to once |
| `AccountsAgree.AcceptedAgree` | evals/cross_harness/trajectory.py:498-502 | when every log is accepted as evidence and answers no request twice, a stated total differs by exactly what the walk counts beyond once, and by nothing when it comes to every log once |
| `AccountsAgree.VisitedOnceWhen` | evals/trace_quality.py:858-863 | the walk over a collected tree whose logs state their ids comes to every log once exactly when no parent's id is had by two logs |
| `AccountTrees.RepeatedIdLoops` | evals/cross_harness/normalize_foe.py:552-569 | a tree that is collected although a child has its parent's id, over which the walk never ends |
| `AccountTrees.SharedIdCountsTwice` | evals/cross_harness/normalize_foe.py:552-569 | a tree that is collected although two children share an id, where the walk counts one model call twice |
| `AccountTrees.UnnamedIdCountsNone` | evals/cross_harness/normalize_foe.py:507-523 | a tree that is collected although its root states no id, where the walk leaves out the one model call |
| `AccountCases.SecondAnswerFallsShort` | evals/cross_harness/normalize_foe.py:252-274 | a log accepted as evidence whose request is answered twice, where the stated total is 3 and the subtree spent 8 |
| `AccountsAgree.TreeFounded` | evals/trace_quality.py:838-842 | when ids are stated and no parent's id is had by two logs, the walk over a collected tree ends exactly when the root's parent is no log of the tree, and then the walk below every log of it ends |
| `Binomial.ChooseCounts` | evals/cross_harness/report.py:1029 | a binomial coefficient is the number of strings of n bits with k ones |
| `Binomial.RowMirrors` | evals/cross_harness/report.py:1028-1029 | the upper tail of a row is its lower tail |
| `Binomial.WholeRow` | evals/cross_harness/report.py:1029 | a row adds up to two to the n |
| `Binomial.UnevenCounts` | evals/cross_harness/report.py:1017-1030 | the strings whose smaller side has at most m bits number twice the tail, or all strings when m is half of n |
| `Binomial.DoubledTail` | evals/cross_harness/report.py:1030 | twice the tail exceeds the number of strings exactly when the split is even |
| `Binomial.TwoSidedCounts` | evals/cross_harness/report.py:1017-1030 | the two-sided probability is the share of strings at least as uneven as the split, and the cap at one is met only by an even split |
| `Significance.MostUneven` | evals/cross_harness/report.py:1056-1058 | no split of n units is less probable than all of them on one side |
| `Significance.OneSided` | evals/cross_harness/report.py:1056-1057 | the most uneven split of k units has probability two over two to the k |
| `Significance.SmallestSignificant` | evals/cross_harness/report.py:1053-1065 | the least number of units of which any split reaches the level; an error exactly when the level is not between 0 and 1 or no split of 64 units reaches it |
| `Significance.FewestAtReportedLevel` | evals/cross_harness/report.py:307-308 | at the level the report uses the fewest units are six |
| `Significance.SignedCounts` | evals/cross_harness/report.py:1038-1050 | positive, negative and tied constructions are all of them, the listed ones are those that differ, and the probability is that of their split |
| `Significance.SignedAdds` | evals/cross_harness/report.py:1038-1050 | one more construction adds to the side of its sign alone and is listed exactly when it differs |
| `Significance.SignedReverses` | evals/cross_harness/report.py:1038-1050 | exchanging the arms exchanges the sides and keeps the probability |
| `Significance.DetectableDifference` | evals/cross_harness/report.py:1068-1090 | reachable exactly when some sign test over that many constructions reaches the level, and then the difference is the least share of discordant constructions of any such test |
| `Bootstrap.ClusterBootstrap` | evals/cross_harness/report.py:1145-1197 | the errors are fewer than one resample and a cluster without pairs; otherwise the numbers of clusters and pairs, bounds exactly when there is a cluster, and a reason exactly when there is no cluster, one cluster, or one difference that every pair shows |
| `Bootstrap.Positions` | evals/cross_harness/report.py:1179-1180 | both sort positions are in range and in order, and as many draws lie before the lower as after the upper |
| `Bootstrap.SortedAt` | evals/cross_harness/report.py:1178-1180 | the value taken at a position has at most that many draws below it and more than that many at most it |
| `Bootstrap.PositionUnique` | evals/cross_harness/report.py:1178-1180 | only one value has that place |
| `Bootstrap.IntervalHolds` | evals/cross_harness/report.py:1172-1180 | for every generator lower <= upper, both and the observed difference lie within any bounds of the cluster means, and each bound is the draw at its position |
| `BootstrapLaws.BoundsMean` | evals/cross_harness/report.py:1145-1197 | a draw is the mean, over as many choices as there are clusters, of the mean gap of the cluster that the generator's number counts round to, a cluster once for each choice; the bounds are the draws with the nearest whole fortieth of the other draws before and after them; the observed difference is the mean of the mean gaps |
| `Bootstrap.DegenerateCollapses` | evals/cross_harness/report.py:1181-1186 | an interval marked degenerate has lower = observed = upper for every generator |
| `Bootstrap.CollapsesWhen` | evals/cross_harness/report.py:1172-1186 | every generator gives lower = observed = upper exactly when the cluster means are all equal |
| `Bootstrap.CollapsedUnmarked` | evals/cross_harness/report.py:1181-1186 | two clusters whose interval is a single value for every generator and number of resamples and carries no reason |
| `Schedule.RotatedAt` | evals/cross_harness/run.py:818-828 | the arm in a position is the one as many places on as attempt, task and position say, counted round |
| `Schedule.EveryTripleOnce` | evals/cross_harness/run.py:831-833 | with distinct tasks and arms every (attempt, task, arm) is launched once and nothing else is; the division by zero is raised exactly when there are launches and no arms |
| `Schedule.LaunchedAt` | evals/cross_harness/run.py:831-833 | the planned launches are attempts * tasks * arms, and attempt a, task i, position p stands at place (a - 1) * tasks * arms + i * arms + p, with the arm shifted by a - 1 + i + p, counted round |
| `Schedule.TakesTurns` | evals/cross_harness/run.py:818-828 | over as many consecutive tasks, or attempts of one task, as there are arms, each arm takes each position exactly once |
| `Schedule.PlacedEvenly` | evals/cross_harness/run.py:821-825 | over the tasks of one attempt each arm takes each position the rounded-down or the rounded-up share of times |

## Left out

- BudgetConserved: proved under the four conditions named above, which the checks do not enforce; `BudgetDifference` says what remains without them.
- FilesInOnePass: proved when the spans run forward; for other spans `FilesAccumulate` says what the lists hold.
- SubtreeSpend: takes heights that fall along parent links below the log it walks; the source recurses without end when they form a loop there. Logs elsewhere may form loops. `HeightsExist` gives such heights for any set of logs.
- CountEpisodes: takes the same heights, for the same reason.
- CheckRelease: takes them for the walk over a released child that a log records, which the source makes for every such release.
- CheckLog: takes them for those walks and for the one over its own subtree, which the source makes when the parent caps its episodes.
- CheckBudgets: takes them for the same walks of all logs.
- Evaluation.Check: the message of a violation.
- UsageLedger.Record: the wording of a problem; a problem is the place it names.
- CheckEvent: without the artifact references and team messages that the source checks in the same loop.
- CheckEvidence: without those, the rendering archive, and lines that did not parse.
- TotalsOf: calls, token sums, agents and depth; not wall time, cache and reasoning tokens, commands and tool calls.
- RunCatchesUp: for files that keep their names; a file that disappears keeps what was read of it, which `Read` says, and one rewritten at greater length is read on from where the last read ended.
- AccountantsAgree: the log checker is given just the logs of the collected tree, each held by one directory; walks that never end have no spend to compare.
- Roster.Collect: reads each child log when it descends into it, where the source reads all logs of a directory first; a refused tree may leave other agents behind, and is refused all the same.
- AddConsumed: inbox content is a list of strings, standing for any list of JSON values.
- Artifact references, rendering archives, team messages, permissions, outcomes, schemas and workflows are separate checks of the log checker and are not part of this model; the evidence check stands here without its artifact and team-message parts.
- Reading and decoding log lines, parse errors and the command line of the log checker.
- JSON beyond the typed records: a field of a type the model has no value for is taken as the nearest one that the checks treat alike, a missing or null one; a request id that is no string is taken as null where it is turned into text; a boolean is kept apart from a whole number only for token counts and in control documents, and stands for 0 or 1 elsewhere, as the source has it.
- An episode start whose data is empty, which the log checker takes for no start.
- The order in which child directories started and the sort by it; the tree is given in that order and no total depends on it.
- Times, cache-read and reasoning tokens, commands, tool calls, file changes and compactions of a trajectory, and its attribution of shell writes.
- Session file parsing, path order and the depth and agent path of a thread; a session file that cannot be parsed.
- The watcher's polling, limits, signals and threads; its ledger is what this model keeps.
- The header part of the relay, HTTP framing, record files and reading of usage from bodies; a response's usage is a parameter of the settling step.
- Locks: each locked section of the meter is one atomic step.
- Floating-point rounding in probabilities, means, sort positions and the level; NaN differences.
- Pairing of records into clusters, discordance tables and the task-level line, which count in one pass.
- The rest of the run driver; the schedule stands alone.
