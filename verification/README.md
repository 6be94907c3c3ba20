# Verified model of Loro's protocols

Loro is an agent harness: it runs a language model in a bounded loop, lets it call tools under policy and approval,
keeps an audit trail, and shows the run in a browser. This project models the small protocols inside it on which
its guarantees rest, and proves those guarantees for all inputs, all runs and, where several parties act at once,
all interleavings.

`dafny verify dfyconfig.toml` checks the whole project. Each module is one component:

- **Approvals**, **ApprovalInterleaving**, **ApprovalStores**, **Authorization**: approval records are granted,
  then spent by a read, check, change and compare-and-swap cycle. Any number of managers interleave over the JSON
  store; the in-memory store is modelled with real aliasing; a ledger follows whole sequences of protected calls.
- **EventStream** (with **Decimal** and **Strings**): the browser's chunked event stream, resumed from a cursor after
  each drop. The wire format is the subset of section 9.2.6 of the WHATWG HTML Living Standard that client and
  server use.
- **Redaction**: interval merging and right-to-left splicing, against a left-to-right reference.
- **Context** (with **Messages**): compaction of history to a token budget, the bounded summary, and the rendering
  that makes any history acceptable to providers.
- **Budgets**, **AgentLoop**, **Delegation**: running totals, the bounded step loop, and sub-agents that only narrow.
- **Capture**: two drain threads sharing one byte limit.
- **Evidence**: the hash-chained audit log as it is written and verified, the segment exported for a run, and its
  verification.
- **ProviderStream**: retry before the first event, and reassembly of streamed tool calls.
- **ConfigMerge**: recursive merging of configuration layers and the order of loading.
- **PolarisArgs**: the read-only normal form of an argument list, and the policy resource read back from it.
- **Mailbox** (with **MessageRecord**): messages between sessions, delivered by one run and acknowledged once a record
  names them, and the size of the records they are stored as.
- **KeyCache**: the signing-key cache of the identity provider, with its cooldown.

Components that change state step by step are classes and methods with loops, each proved against a function or a
relation on values; the properties are lemmas about those. Failures of the environment (a dropped connection, a
failed write, a provider error, a clock reading) are parameters, so a statement for all parameters covers a failure at
any point. Hashes are abstracted to the values they bind, which makes them collision-free.

Where the code does less than it says, the exact condition is proved:

- Retained history need not start at a user turn (src/loro/context.py:79): `StartsAtUserTurnExactlyWhen`,
  `HistoryCanStartWithReply`.
- The joined summary can exceed its token budget: `SummaryInBudgetExactlyWhen`, `SummaryCanOvershoot`; by how much at
  most: `BoundedSummaryTokens`.
- Normalizing Polaris arguments is not idempotent, and the tool path does it twice, so every call with a positional is
  refused: `NormalizingAgain`, `NormalizingCanRefuse`, `ToolPathRunsExactlyWhen`. The policy resource of a call without a positional takes the
  first option's value for its target: `ResourceReadsBack`.
- Merging layers is not associative: `AssociativeExactlyWhen`, `GroupingCanMatter`.
- Sending bounds a message's text in UTF-8 and reading bounds its record in escaped JSON, so one accepted message can
  make every delivery to its recipient fail (src/loro/session_messages.py:82, 159): `StaysReadableExactlyWhen`,
  `AcceptedCanBeUnreadable`, `AcceptedCanBlockDelivery`.
- A session record replaces the session's earlier one (src/loro/sessions.py:69-80), so a record that named a message
  was saved but need not be the one now on disk: `HistoryKeeps` speaks of all records saved so far.

## Model

| member | source | states |
|---|---|---|
| Approvals.ConsumeSucceedsExactlyWhen | src/loro/approvals.py:444-490 | An approval authorizes a request if and only if the request is the manager's own, the record exists and has not lapsed, the fingerprints agree, and it is active (or, for a session record, used); and consuming keeps every record under its own id and identity |
| Approvals.ConsumeChanges | src/loro/approvals.py:444-490 | What an accepted consume changes in the one record (one use more, the time, and the status of its scope) and in no other; that a lapsed record is marked expired and nothing else; and that a refusal changes nothing and gives its reason |
| Approvals.GrantRefusedFor | src/loro/approvals.py:408-439 | What a new record holds, and for each refused grant the reason it gives |
| Approvals.FingerprintBinds | src/loro/approvals.py:58-72 | An approval granted for one request fits another exactly when action, target, arguments, identity and policy are all the same; ids and reasons do not matter |
| Approvals.LifeOfAnApproval | src/loro/approvals.py:408-490 | An approval authorizes the very request it was granted for and no other, only within the lifetime of its scope, and after its first use exactly if it was granted for the session |
| Approvals.FirstLiveDecides | src/loro/approvals.py:492-500 | The search for a session approval finds nothing exactly when no record is live when its turn comes; otherwise the first live one decides |
| ApprovalInterleaving.SwapIsAtomic | src/loro/approvals.py:456-490 | The second half of a consume, run on a copy read earlier, has an effect only if the stored record still is that copy, and then exactly the effect of an indivisible consume |
| ApprovalInterleaving.CopiesSurvive | src/loro/approvals.py:263-279 | Whatever another caller stores, a copy someone holds stays an earlier version of the record, and equals it whenever status and use count still match |
| ApprovalInterleaving.StepPreserves | src/loro/approvals.py:237-279 | Every grant, read or swap by any caller keeps records consistent, copies sound, and the store equal to the replay of the effects so far |
| ApprovalInterleaving.Serializable | src/loro/approvals.py:444-490 | After any interleaving of any number of managers the store is what the stored effects give when done one at a time |
| ApprovalInterleaving.ReplayAccounts | src/loro/approvals.py:478-488 | In any such history a record's use count is its number of successful consumes, and a stored expiry leaves it expired |
| ApprovalInterleaving.NoneAfterExpiry | src/loro/approvals.py:457-469 | No successful consume comes after the expiry of the same record was stored |
| ApprovalInterleaving.AtMostOnce | src/loro/approvals.py:444-490 | Over every interleaving: use counts equal successful consumes, a one-time record is consumed at most once, and nothing is consumed after its expiry was stored |
| ApprovalInterleaving.InterleavedConsume | src/loro/approvals.py:444-490 | From any reachable state, with any steps of other callers between reading and swapping: a consume by that manager changes the store and the log as one indivisible consume does at the time of the swap, provided the record is still as it was read and the store fits; otherwise it changes nothing |
| ApprovalInterleaving.UndisturbedConsume | src/loro/approvals.py:444-490 | With nobody in between, reading and swapping together are the indivisible consume, and the log grows exactly when that takes effect |
| ApprovalInterleaving.GrantTakesEffect | src/loro/approvals.py:408-439 | A grant stores and logs one new record exactly when it may, and otherwise changes nothing |
| ApprovalStores.InMemoryApprovalStore.Get | src/loro/approvals.py:204-206 | Hands out the stored object itself |
| ApprovalStores.InMemoryApprovalStore.Create | src/loro/approvals.py:212-216 | Adds a record unless its id is taken, keeping insertion order |
| ApprovalStores.InMemoryApprovalStore.List | src/loro/approvals.py:208-210 | The stored objects in insertion order |
| ApprovalStores.InMemoryApprovalStore.Update | src/loro/approvals.py:218-234 | Replaces the record if it is the very object stored, or if status and use count match |
| ApprovalStores.InMemoryManager.Grant | src/loro/approvals.py:408-439 | Granting through heap objects changes the contents and answers as the indivisible grant does |
| ApprovalStores.InMemoryManager.ConsumeStored | src/loro/approvals.py:455-490 | On the aliased object, the update is never refused, so the decision taken on the old value is what is stored |
| ApprovalStores.InMemoryManager.Consume | src/loro/approvals.py:444-490 | Consuming in place, with the update comparing nothing, changes the contents and answers as the indivisible consume does |
| ApprovalStores.InMemoryManager.ConsumeMatchingSession | src/loro/approvals.py:492-500 | The first matching session record that has not lapsed decides, with lapsed ones stored as expired on the way |
| ApprovalStores.JsonApprovalStore.Get | src/loro/approvals.py:247-249 | Hands out a copy |
| ApprovalStores.JsonApprovalStore.Create | src/loro/approvals.py:255-261 | Adds a record unless its id is taken; an oversized store is refused and left as it was |
| ApprovalStores.JsonApprovalStore.Update | src/loro/approvals.py:263-279 | Compare status and use count, then replace; an oversized store is refused and left as it was |
| ApprovalStores.JsonManager.Grant | src/loro/approvals.py:408-439 | As the indivisible grant, including the refusal of a store that would grow too large |
| ApprovalStores.JsonManager.Consume | src/loro/approvals.py:444-490 | As the indivisible consume, including that refusal |
| ApprovalStores.SameBehaviour | src/loro/approvals.py:199-279 | For one caller and any sequence of grants and consumes, the aliasing store and the copying store both answer every call, and both end with the records, as if each call were one indivisible operation |
| ApprovalStores.PerformAllConsistent | src/loro/approvals.py:408-490 | After any such sequence every record is under its own id and belongs to the identity its fingerprint names |
| Authorization.AuthorizedExactlyWhen | src/loro/tool_runtime.py:1241-1296 | An `ask` call is authorized exactly by the first live session approval, or failing that by the user's own `approved` argument where enabled, or by the interactive answer; a model's `approved` argument never counts |
| Authorization.PolicyDecides | src/loro/tool_runtime.py:1241-1296 | A call that policy denies is rejected and one that it allows is let through, neither touching the store; and being allowed by policy is the verdict on no other call |
| Authorization.VerdictsFollowPolicy | src/loro/tool_runtime.py:1241-1296 | The same of every verdict over any sequence of calls |
| Authorization.ToolRegistry.Authorize | src/loro/tool_runtime.py:1241-1296 | Policy first, then a matching session approval, then a grant for the user's own `approved` argument or the interactive answer, each spent at once; the store's records, verdict and listing order are those of the reference, and the store is ready for the next call |
| Authorization.ToolRegistry.AuthorizeAll | src/loro/tool_runtime.py:1241-1296 | Over any sequence of calls on a store that starts empty, records, listing order and verdicts are those of the ledger, every denied call is rejected and exactly the calls policy allows are let through by policy, and the stored use counts add up to the number of calls allowed by an approval |
| Authorization.ToolRegistry.GrantThenConsume | src/loro/tool_runtime.py:1269-1286 | Grants a record and spends it in the same call, appending its id to the listing exactly when it was created |
| Authorization.ConsumeMoves | src/loro/approvals.py:478-488 | Consuming changes status and last use only, and adds one use to the spent record and to no other |
| Authorization.MatchMoves | src/loro/approvals.py:492-500 | The same over a whole search for a session approval, which spends at most one record, one with the request's fingerprint |
| Authorization.LedgerInvariant | src/loro/tool_runtime.py:1241-1296 | Over any sequence of calls from an empty store the books balance after every call |
| Authorization.EveryUseIsAccountedFor | src/loro/tool_runtime.py:1241-1296 | Each record's use count is the number of `ask` calls it authorized, so over the records, each counted once, they add up to those calls; each spent a record with the call's own fingerprint, and no non-interactive record is ever spent by a model's call |
| Authorization.BooksBalance | src/loro/tool_runtime.py:1241-1296 | For a store that lists its records as they were created, the use counts add up to the number of verdicts that allowed a call by an approval |
| Decimal.ValueOfDigits | webui/src/api.ts:214-215 | Reading a printed sequence number gives the number back |
| EventStream.ReplaysPastCursor | src/loro/webui/server.py:1000-1007 | The replay starts at the first event numbered past the cursor, and at the very first for a cursor of -1 |
| EventStream.FieldIsFirstMatch | webui/src/api.ts:211-212 | A field is what follows its name on the first line that starts with it and goes on |
| EventStream.IdIsFirstNumber | webui/src/api.ts:213-214 | The cursor of a block is the number on its first line that is an id and digits |
| EventStream.BlocksAppend | webui/src/api.ts:206-218 | More text leaves the complete blocks as they are and continues only the remainder |
| EventStream.ParseBlock | src/loro/webui/server.py:1008-1011 | Parsing a block the server wrote gives back its sequence, event name and data; a keep-alive gives nothing |
| EventStream.BlockIsClosed | src/loro/webui/server.py:1008-1011 | The first blank line after a written block is the one that ends it |
| EventStream.BlocksOfWire | webui/src/api.ts:206-218 | Splitting what the server sends gives back exactly the blocks sent, with nothing left over |
| EventStream.PrefixBlocks | webui/src/api.ts:203-219 | In any prefix of the server's text the complete blocks are the first blocks sent |
| EventStream.PrefixDelivers | webui/src/api.ts:212-216 | Handling the first blocks delivers the next so many events of the log and leaves the cursor on the last of them |
| EventStream.ConnectionDelivers | webui/src/api.ts:189-220 | One connection, cut anywhere and in any chunks, delivers the next so many events past the cursor, and all of them if it is not cut |
| EventStream.Watcher.StreamRun | webui/src/api.ts:203-219 | However the text is chunked, exactly the complete blocks of the whole are handled, in order |
| EventStream.Watcher.Connect | webui/src/App.tsx:296-331 | A connection extends what was delivered by the next stretch of the log |
| EventStream.Watcher.Watch | webui/src/App.tsx:289-343 | Over all reconnections the delivered events are the first so many of those numbered past the starting cursor, each once and in order; all of them when it ends without an error, so the whole log from a cursor of -1; and it does so unless six connections drop |
| Redaction.SortSorts | src/loro/data_protection.py:287 | Sorting by start and end orders the findings and loses none |
| Redaction.StepMerges | src/loro/data_protection.py:288-291 | Each merge step keeps the intervals strictly separated, covering exactly the findings' union, and starting where their blocks start |
| Redaction.MergeIntervals | src/loro/data_protection.py:286-291 | The merged intervals are separated, in range, and cover exactly the union of the findings |
| Redaction.Splice | src/loro/data_protection.py:292-295 | Replacing from right to left gives the left-to-right rendering of the intervals |
| Redaction.RenderIsReference | src/loro/data_protection.py:292-295 | That rendering keeps every uncovered character in order, drops every covered one, and writes one marker per block of findings |
| Redaction.ReferenceByMembers | src/loro/data_protection.py:283-295 | The result depends on the findings only as a set, not on their order |
| Redaction.Redact | src/loro/data_protection.py:283-295 | The whole of it: the reference rendering of the findings, or the bare marker when there are none |
| Redaction.Evaluate | src/loro/data_protection.py:193-255 | The whole decision: with protection off the text, no findings and the declared or default level; otherwise exactly when a text is allowed or falls under the surface's action, the highest level found, and the content that leaves: unchanged unless masked, and then the reference rendering |
| Context.RecentTurnStart | src/loro/context.py:137-146 | Where the last so many user turns start, in full; the beginning when there are fewer |
| Context.BoundSummary | src/loro/context.py:156-168 | Keeps the longest suffix of lines whose summed cost fits, behind a line with the exact number dropped |
| Context.SummaryInBudgetExactlyWhen | src/loro/context.py:97-104 | The joined summary is within the token budget if and only if its characters and line breaks, the marker's among them, are within four to a token |
| Context.SummaryCanOvershoot | src/loro/context.py:156-168 | Two lines of four characters fit a budget of two tokens and cost three when joined |
| Context.BoundedSummaryTokens | src/loro/context.py:156-168 | The joined summary exceeds the budget by at most a quarter of the kept lines, rounded up, and the marker line |
| Context.SummaryLineIsLine | src/loro/context.py:149-153 | Whatever a message contains, its summary line is a single line and not blank |
| Context.WordsAre | src/loro/context.py:150 | White space divides words, and text without any is one word |
| Context.SummaryLineKeepsText | src/loro/context.py:149-153 | A summary line names the role and gives all words of the message apart by single spaces, or if that is over 240 characters its first 237, less a space at their end, and three dots |
| Context.SummaryLinesAre | src/loro/context.py:84 | A line break divides lines, and text without one is a line unless it is blank |
| Context.SummaryReadsBack | src/loro/context.py:84-100 | The summary a compaction writes is read back by the next one line for line, the marker included |
| Context.OldestTurn | src/loro/context.py:89-91 | The length of the oldest turn, stopping at the protected ones |
| Context.FoldOldTurns | src/loro/context.py:84-96 | Whole turns are folded oldest first, none that need not be and none that is protected |
| Context.TokensAreTextCost | src/loro/context.py:63-64 | The tokens counted are a quarter, rounded up, of the summary and of each message, so four times as many cover all the characters |
| Context.CutIsInBudget | src/loro/context.py:82-96 | Short of the protected turns, the unbounded summary and the retained messages have at most four characters to each token of the budget; and from every earlier turn start their cost, summary included, would have been over it |
| Context.CompactHistory | src/loro/context.py:67-104 | A suffix of the history with the protected turns in full, cut at the first turn start whose text, the summary and each message at a quarter of its characters rounded up, is within budget, or at the protected turns; the rest accounted for in the summary and the count; and what the text cost before and after |
| Context.CutIsUnique | src/loro/context.py:84-96 | Those conditions determine the cut |
| Context.StartsAtUserTurnExactlyWhen | src/loro/context.py:77-96 | The retained history starts at a user turn if and only if the input did, or was empty, or was over budget with turns that may be dropped; the docstring promises it always |
| Context.HistoryCanStartWithReply | src/loro/context.py:77-96 | A history within budget that starts with a reply is retained as it is |
| Context.MergeRunsShape | src/loro/context.py:123-134 | Merging runs of one role gives alternating roles with the same first and last role |
| Context.MergeRunsAppend | src/loro/context.py:123-134 | Merging from the left, message by message, equals merging from the right |
| Context.MergingKeepsText | src/loro/context.py:123-134 | Merging runs changes no text and no order |
| Context.FromFirstUserIs | src/loro/context.py:124-126 | What precedes the first user message is dropped, and nothing else |
| Context.RenderingKeepsText | src/loro/context.py:107-134 | The rendered text is the summary under its heading, if there is one, every earlier message (without a summary, from the first user turn on) and the current one, in order |
| Context.RenderHistory | src/loro/context.py:107-134 | For any history: a user turn first, alternating roles, the current message last, and nothing but the merged runs from the first user turn on |
| Context.PayloadRoundTrip | src/loro/context.py:41-60 | Whatever is stored, reading gives plain text turns, and storing and reading those again changes nothing |
| Context.SavedReadsBack | src/loro/context.py:41-60 | Saving a conversation and reading it gives back its user and assistant messages that have text, in order |
| Budgets.LetThroughExactlyWhen | src/loro/budgets.py:49-90 | A response is let through if and only if it fits in bytes and leaves every total within its limit |
| Budgets.CallLetThroughExactlyWhen | src/loro/budgets.py:26-47 | A call is let through exactly when its bytes fit and its estimated input could be charged within the limits |
| Budgets.RefusalsTellWhy | src/loro/budgets.py:26-63 | Which budget a refusal names is one that would be, or has been, exceeded: bytes before tokens, tokens before cost |
| Budgets.ChargeGoesToItsTotal | src/loro/budgets.py:49-63 | Input tokens are added to the input total and output tokens to the output total, estimated where they are not reported, and the cost grows by their price |
| Budgets.ChargesArePriced | src/loro/budgets.py:53-62 | The cost stays the price of all tokens counted: no charge is lost or made twice |
| Budgets.UsageBudget.BeforeModel | src/loro/budgets.py:26-47 | Which budget refuses a call, if any, with its own input counted; totals stay |
| Budgets.UsageBudget.AfterModel | src/loro/budgets.py:49-63 | Charges the response, with the estimate for an unreported input, and says which budget it exceeds, if any |
| Budgets.UsageBudget.AddToolCalls | src/loro/budgets.py:65-68 | Counts the calls and complains exactly when they exceed the limit |
| AgentLoop.InitialMessages | src/loro/runtime.py:316-333 | For any earlier messages, tool turns and native calls among them, the conversation a run starts from is acceptable: a user turn first, adjacent roles different, the current message last, no results without calls; and the two sides take turns unless tool turns were supplied |
| AgentLoop.ContinuedIsSendable | src/loro/runtime.py:451-470 | The two messages after a response keep the conversation acceptable: results answer the calls in number, order and id, on the tool side exactly when there are any |
| AgentLoop.OneStep | src/loro/runtime.py:373-529 | One pass: refused exactly when the budgets refuse the input; otherwise the totals are charged with the response and its calls, and the run goes on with the continued conversation or ends for the stated reason |
| AgentLoop.Pass | src/loro/runtime.py:373-529 | A pass extends the record of model calls by one, or ends the run with its outcome |
| AgentLoop.Run | src/loro/runtime.py:283-532 | The outcome, with every model call in order, is that of the run: each call continues the conversation and the totals of the one before it, and the end is the one the budgets and the responses force |
| AgentLoop.FirstCallIsStart | src/loro/runtime.py:283-333 | The first model call is made with the run's start, before anything but the initial tool calls is counted |
| AgentLoop.TextOfNextCall | src/loro/runtime.py:451-529 | In every run a later call is sent all that was sent before, then the response's protected text with its native calls, then the outputs of its textual calls and a result for each native one; after directives that could not be read, no calls, and the error |
| AgentLoop.TotalsOfNextCall | src/loro/runtime.py:403-476 | And it finds charged the tokens of the response before it, each to its own total, and its tool calls |
| AgentLoop.RunIsUnique | src/loro/runtime.py:283-532 | Limits, start, responses and tool outputs determine the whole run |
| AgentLoop.EveryCallIsProper | src/loro/runtime.py:373-529 | In every run each model call is made with an acceptable conversation and every total within its limit, its input included; every response but the last was accepted and left the totals within limits, so only the last one can overshoot |
| AgentLoop.RunStaysWithinLimits | src/loro/runtime.py:283-532 | In every run executed tool calls never exceed `max_tool_calls`, nor model calls the steps, nor steps `max_steps` |
| AgentLoop.StopTellsWhy | src/loro/runtime.py:369-532 | The run completed exactly when the last response was accepted and asked for no tool call, and each other stop reason has its own condition |
| Delegation.GrantedExactlyWhen | src/loro/runtime.py:646-650 | A delegation is granted exactly when the agent has a profile that names the delegate and allows one level more |
| Delegation.DelegateHasWhatBothAllow | src/loro/runtime.py:656-674 | The delegate has every capability that both profiles give it, and no other, one level down |
| Delegation.ChainGrantedExactlyWhen | src/loro/runtime.py:646-674 | A chain of delegations is granted exactly when at each link every profile passed so far names the delegate and allows its depth; at its end stands exactly what all of those profiles give |
| Delegation.ChainsOnlyNarrow | src/loro/runtime.py:646-674 | Nothing at the end of a chain can do what the root could not, every delegate was named by the root, and a chain from depth 0 is no longer than the root's depth limit |
| Capture.Shared.Accept | src/loro/sandbox.py:570-576 | One critical section keeps both buffers prefixes of what was handed over, together exactly the smaller of that and the limit, and truncation set exactly beyond it |
| Capture.Tick | src/loro/sandbox.py:565-576 | Any scheduling of either thread keeps this and makes progress |
| Capture.RunBounded | src/loro/sandbox.py:543-606 | Under every interleaving and chunking: prefixes of both streams, never over the limit, truncation reported exactly when there was more, nothing lost otherwise, and a truncated run never reports return code 0 |
| Evidence.VerifyLog | src/loro/audit/sinks.py:296-401 | A log is accepted if and only if unchained events come first and every later event chains from the one before it |
| Evidence.HashFixesHistory | src/loro/audit/sinks.py:404-431 | Two verified logs that share one event hash share every event up to it and the same unchained prefix |
| Evidence.WritingKeepsChain | src/loro/audit/sinks.py:404-450 | Writing an event to a log that verifies, or that holds only unchained events, gives a log that verifies |
| Evidence.WritingVerifiesExactlyWhen | src/loro/audit/sinks.py:404-450 | A log verifies after writing an event if and only if it did before, so writing on hides no tampering |
| Evidence.JsonlAuditSink.Deliver | src/loro/audit/sinks.py:47-56 | Appends one line, chained to the state of the log before it |
| Evidence.JsonlAuditSink.DeliverAll | src/loro/audit/sinks.py:47-56 | After any number of events the log still verifies and holds what it held before and then those events, in order |
| Evidence.ChainSegment | src/loro/evidence.py:207-251 | Exports the run's events and a link for every line from its first to its last event, or fails exactly when there are none or one of them predates chaining |
| Evidence.VerifyChain | src/loro/evidence.py:663-701 | Reports no issue if and only if record and slice agree, link by link and event by event |
| Evidence.ExportAgrees | src/loro/evidence.py:207-251 | What is exported from a chained log agrees with itself |
| Evidence.OnlyOneSliceAgrees | src/loro/evidence.py:663-701 | With the chain record fixed, no other slice of events verifies |
| Evidence.GapIsReported | src/loro/evidence.py:684-701 | A record with links left out between two others does not verify, whatever events come with it |
| Evidence.RunHashesOfLinks | src/loro/evidence.py:688-694 | The links marked as the run's carry its events' hashes in order |
| Evidence.ExportIsFound | src/loro/evidence.py:723-745 | An exported segment is found in its own log |
| Evidence.FoundSegmentPinsHistory | src/loro/evidence.py:723-745 | A segment found in any verified log pins that log's history up to the segment's end, event by event |
| Evidence.ExportThenVerify | src/loro/evidence.py:207-251 | Every run whose events are all chained exports, and the export verifies, alone and against the log |
| ProviderStream.StreamEvents | src/loro/models.py:264-305 | All emitted events come from one attempt, at most `max_retries + 1` are made, earlier ones emitted nothing, and k retries pause `backoff * (2^k - 1)` in all |
| ProviderStream.AddFragment | src/loro/models.py:473-488 | One fragment extends the call at its index and no other |
| ProviderStream.Collect | src/loro/models.py:496 | The pending calls in increasing order of index |
| ProviderStream.StreamComplete | src/loro/models.py:447-505 | The text is the chunks joined, the tokens handed on are exactly that text, and the calls are the per-index joins of all fragments; a malformed delta is reported at the first one, after its text |
| ProviderStream.InterleavingDoesNotMatter | src/loro/models.py:473-488 | Streams that agree index by index give the same calls however they interleave |
| ProviderStream.SplittingDoesNotMatter | src/loro/models.py:473-488 | Cutting any fragment in two gives the same calls |
| ConfigMerge.MergeInto | src/loro/config.py:1154-1161 | The loop that fills the merged table computes the merge, key by key, whatever order the keys come in |
| ConfigMerge.LeafWins | src/loro/config.py:1154-1161 | A setting of the merged configuration is the override's, or the base's where the override says nothing about the path, and nothing else |
| ConfigMerge.LastToSpeakWins | src/loro/config.py:1295-1328 | Over any number of layers a setting has the value given by the last layer that is not silent about it, and there is none if no layer gives one |
| ConfigMerge.MergeIdempotent | src/loro/config.py:1154-1161 | Merging a layer with itself gives the layer |
| ConfigMerge.CoveredExactlyWhenAbsorbed | src/loro/config.py:1154-1161 | A layer vanishes under another if and only if the other sets all its keys |
| ConfigMerge.AssociativeExactlyWhen | src/loro/config.py:1154-1161 | Three layers can be grouped either way if and only if no table that the middle one replaces by a plain value, and the last makes a table again, has keys the last does not set |
| ConfigMerge.GroupingCanMatter | src/loro/config.py:1154-1161 | Three layers for which the grouping matters |
| ConfigMerge.ManagedFirstIsSame | src/loro/config.py:1315-1328 | When the layers agree on which paths are tables, merging the managed sources first changes nothing |
| ConfigMerge.LoadConfig | src/loro/config.py:1295-1329 | A setting of the last managed source always holds; when the layers agree on which paths are tables the result is all of them merged in order |
| PolarisArgs.ReadsWhatIsSpelled | src/loro/polaris.py:47-74 | Reading the tokens of any legal pieces gives those pieces back |
| PolarisArgs.SpellsWhatIsRead | src/loro/polaris.py:47-74 | What is read is legal, and spells the tokens it was read from |
| PolarisArgs.AcceptedExactlyWhen | src/loro/polaris.py:28-82 | An argument list is accepted, and as which normal form, exactly when it spells a read-only resource and action, allowed options with proper values, and at most one positional |
| PolarisArgs.SpellingIsUnique | src/loro/polaris.py:47-74 | No argument list can be read in two ways |
| PolarisArgs.Normalize | src/loro/polaris.py:28-82 | The loop with its early refusals accepts, refuses and rewrites as that |
| PolarisArgs.NormalizingAgain | src/loro/polaris.py:28-82 | Normalizing a normal form again is the identity exactly when it has no positional; otherwise its own separator is refused |
| PolarisArgs.NormalizingCanRefuse | src/loro/polaris.py:28-82 | A table named on its own is accepted, and its normal form is refused |
| PolarisArgs.ToolPathRunsExactlyWhen | src/loro/tool_runtime.py:913-934 | The tool path, which normalizes twice, runs exactly the acceptable calls without a positional, and runs the argument list that was authorized |
| PolarisArgs.OptionValues | src/loro/resources.py:284-300 | The loop over option tokens fills the dictionary it should |
| PolarisArgs.ValuesAreLastOptions | src/loro/resources.py:284-300 | On a normal form the dictionary holds the last value of each option |
| PolarisArgs.SpellingKeepsValues | src/loro/resources.py:284-300 | Whether an option is written with an equals sign or as two tokens makes no difference to the values read, nor do positionals |
| PolarisArgs.ResourceOfAnySpelling | src/loro/resources.py:145-173 | For arguments as given, with any options however spelled: every field of the policy resource has the last value of its option, a catalog role before a principal role, and the target falls back to the first token that is not an option |
| PolarisArgs.ResourceReadsBack | src/loro/resources.py:145-173 | The policy resource of a normal form names the last catalog and namespace given, and as its target the `--resource` value, or the positional, or without either the first option's value |
| MessageRecord.LongestRecord | src/loro/session_messages.py:34-47 | The size of a message's record at its largest, over all later stages |
| MessageRecord.RecordIsThisText | src/loro/session_messages.py:34-47 | The size counted is that of the record's text, line by line with its keys and values |
| MessageRecord.StaysReadableExactlyWhen | src/loro/session_messages.py:158-193 | An accepted message can be read at every later stage if and only if its text, escaped for JSON, and what surrounds it fit the record limit |
| MessageRecord.PlainTextStaysReadable | src/loro/session_messages.py:158-193 | Accepted text in printable ASCII without quotes and backslashes always stays readable |
| MessageRecord.AcceptedCanBeUnreadable | src/loro/session_messages.py:82-83 | Under the default limit 18000 letters with an acute accent are accepted, and no record of them can be read |
| Mailbox.SessionMailbox.Send | src/loro/session_messages.py:71-98 | Refuses blank, oversized and protected text and unknown sessions, in this order, and stores the message under a new id as sent and queued; a failed write leaves the messages as they were |
| Mailbox.SendsExactlyWhen | src/loro/session_messages.py:71-98 | Exactly when a message is sent, what is stored then under an id no message has, and for each failure its reason; only a send that gets as far as the write takes one |
| Mailbox.SessionMailbox.Deliver | src/loro/session_messages.py:100-125 | Exactly when it succeeds, and that it then returns every message not acknowledged, once each, now stored as delivered; when a write fails, the messages it had not reached are unchanged |
| Mailbox.SessionMailbox.DeliverAll | src/loro/session_messages.py:118-125 | The loop takes one write for each queued message and fails at the first write that fails |
| Mailbox.SessionMailbox.AcknowledgeMessage | src/loro/session_messages.py:127-139 | Refuses a queued message, repeats harmlessly, and changes nothing but the one message |
| Mailbox.AcknowledgesExactlyWhen | src/loro/session_messages.py:127-139 | Exactly when an acknowledgement succeeds, the one message it changes, and for each failure its reason |
| Mailbox.DeliveryReturnsUnread | src/loro/session_messages.py:116-125 | A delivery keeps content, acknowledges nothing, and when it completes returns exactly the recipient's messages not acknowledged |
| Mailbox.DeliveryCompletesExactlyWhen | src/loro/session_messages.py:100-125 | A delivery completes exactly when the session is known, all its messages can be read and the next writes, one for each queued message, succeed |
| Mailbox.AcksAreOnward | src/loro/runtime.py:582-590 | Acknowledging inbound messages one by one touches only those, and all of them unless it fails |
| Mailbox.FinishKeeps | src/loro/runtime.py:545-590 | Nothing is acknowledged unless the record naming it has been saved |
| Mailbox.RunKeeps | src/loro/runtime.py:213-590 | One run, stopped anywhere: messages only move forward, and what it acknowledges was named by the record it saved, which names exactly the messages not acknowledged before |
| Mailbox.FailedWorkLeavesNoRecord | src/loro/runtime.py:213-590 | A run whose own work fails saves no record and acknowledges nothing |
| Mailbox.RunSucceedsExactlyWhen | src/loro/runtime.py:213-590 | Where no write fails and the session's messages stay readable, a run succeeds exactly when its own work does |
| Mailbox.AcceptedCanBlockDelivery | src/loro/session_messages.py:158-160 | Under the default limit there is a message that is accepted and then makes every delivery to its recipient fail |
| Mailbox.HistoryKeeps | src/loro/session_messages.py:71-139 | Over any sequence of sends, runs and acknowledgements by hand, whichever writes fail: no message is lost or altered, each only moves forward, and every acknowledged one was named by a saved record of its recipient or acknowledged by hand |
| Mailbox.DeliveredUntilAcknowledged | src/loro/session_messages.py:116-125 | At any point of such a sequence a completed delivery returns every message sent earlier and not yet acknowledged, with its content |
| Mailbox.Runtime.Run | src/loro/runtime.py:213-590 | Delivers, works, saves the record and acknowledges as the reference run does, and says whether it got through |
| Mailbox.Runtime.Live | src/loro/runtime.py:213-590 | Carries out any sequence of steps, each from the state the one before it left |
| Mailbox.StepsTakeEffect | src/loro/session_messages.py:71-139 | In a history a send adds its message and an acknowledgement by hand acknowledges it, where nothing stands in the way |
| KeyCache.KeySetHoldsLast | src/loro/oidc.py:155-158 | The key set holds, under each name, the last signing key of that name |
| KeyCache.KeyNamedByItsId | src/loro/oidc.py:155-158 | A key id picks a key exactly when a signing key has it, and picks one that does |
| KeyCache.UnnamedKeyIsNumbered | src/loro/oidc.py:155-158 | A signing key without an id goes by its place in the document |
| KeyCache.ReadKeys | src/loro/oidc.py:155-158 | The loop over the document builds that key set |
| KeyCache.RefreshKeepsValid | src/loro/oidc.py:143-162 | A refresh keeps the fetches spaced, and under force leaves keys less than a cooldown old |
| KeyCache.YoungCacheFetchesExactlyWhen | src/loro/oidc.py:143-179 | While the cache is young a verification fetches if and only if it names a key the cache does not hold and the cooldown has passed, and which keys it then goes by |
| KeyCache.OldCacheFetchesFirst | src/loro/oidc.py:143-179 | An old or empty cache is fetched first, whatever the token names; without an answer no key is found |
| KeyCache.UnknownOnlyByRecentKeys | src/loro/oidc.py:164-179 | A key is only called unknown by a key set fetched less than the cooldown ago |
| KeyCache.ChoiceIsUnique | src/loro/oidc.py:169-179 | Keys and token determine the answer: the key named, or the only one of its type, or which error |
| KeyCache.OnlyKeyOfItsType | src/loro/oidc.py:173-179 | Without a key id the answer is a key exactly when it is the only one of its type |
| KeyCache.FetchesTakeTime | src/loro/oidc.py:143-162 | In a spaced log the fetches that follow a non-empty key set take a cooldown each |
| KeyCache.FetchesAreSpaced | src/loro/oidc.py:143-179 | Over any sequence of verifications fetches after a non-empty key set start at least the cooldown apart, so n of them take n cooldowns |
| KeyCache.OIDCProvider.RefreshKeys | src/loro/oidc.py:143-162 | Answers from the cache exactly while it is young (under force: within the cooldown); a failed fetch changes nothing, a successful one stores the new keys and the time |
| KeyCache.OIDCProvider.KeyFor | src/loro/oidc.py:164-179 | The answer is the one the keys give, and no key can be had exactly when a needed fetch fails |
| KeyCache.OIDCProvider.VerifyAll | src/loro/oidc.py:143-179 | Carries out any sequence of verifications on one cache, each with the answer its keys give |

## Left out

- The in-memory approval store under concurrency: it does not give at-most-once there, so it is treated for one caller.
- Order of listing: `Authorization` takes the order in which a store lists its records as a parameter for histories;
  the in-memory store's own order is modelled in `ApprovalStores`.
- Approval events, `deny` (which only emits one), the JSON form of approval records with its validation, file locking
  and atomic replacement. Each store operation is one atomic step, and whether a rewritten store is within its size
  limit is a parameter.
- Policy evaluation, the interactive approval dialogue (their answers are parameters of a call), and the refusal of a
  request with an empty action or target.
- UTF-8 decoding of the event stream, JSON parsing of event data, errors raised by event handlers, and cancellation;
  the server is assumed to replay exactly the events past the cursor, and to close only when all have been sent.
- Scanning text for sensitive data, and `enforce`: findings are arbitrary in-range intervals.
- What tools do, the content of native tool results, messages in roles other than user, assistant and tool, what a
  response's text parses to, and data protection that stops a run by raising an error: the loop
  takes the model's responses and the tool outputs as given.
- Provider-side floating-point cost: prices and costs are exact integers.
- Starting, timing and cleaning up the captured process, the notice appended to truncated text, and decoding of the
  captured bytes.
- Redaction, manifest, archive and consistency checks of an evidence bundle; malformed link entries; integrity fields that
  the hash does not bind, such as `algorithm`; the optional external anchor of a log. Writers take the
  file lock, so each delivery is one step; the log's last line is taken to be ended by a line break.
- Streamed tool-call entries that are not tables or whose index is not an integer, which the code skips, and the fall back
  to a plain request when nothing was streamed. Other providers' stream formats.
- Reading, migrating and validating configuration, and the integrity check of managed sources.
- Running the Polaris client, and argument lists with items that are not strings.
- Checks on message and session ids (taken to be proper, so in ASCII), and on records tampered with on disk; the order in
  which a delivery returns messages; concurrent use of one mailbox.
- Discovery, token signature and claim checks, and concurrent refreshes of the key cache, which may fetch at the same time.
- The database-backed and graph runtimes, network clients, user interface and telemetry.
