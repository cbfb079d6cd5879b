# MQTT gear server clients: a Dafny model

This project models the two peers of an MQTT measurement workflow and two
tools around them:

- the **controller** (`a_client.py`, peer A);
- the **executor** (`Program.cs`, peer B);
- the controller's **batch tool** (`a_tool.py`);
- the **monitor** (`monitor.py`).

All topics of one deployment live under `v1/{ID}/`. The executor announces
itself and publishes `ctrl/start`. The controller then sends `move_point`
commands on `cmd/point`, each with a fresh `req_id`. It waits for the
`result_feature_set` on `telemetry/result` that echoes that id, and republishes
the same command (same `req_id`) when a wait times out. The executor answers
repeated ids from a cache capped at 100 entries. The controller ends the run
with an END summary on `ctrl/end`. Both peers publish a retained presence
snapshot on `status`.

The modules follow the programs:

- `Wire` (`wire.dfy`): decoded JSON values, Python truthiness, the topic space,
  the publish log that stands in for the broker, and `str()` of integers.
- `Correlation` (`correlation.dfy`): the controller.
  - `Client` is a class with the connection flag, the pending table
    (`req_id` to result slot) and the publish log.
  - Each `send_point_and_wait` is proved against the function `Await`, which
    is the retry loop stated on values.
  - `Call` packages one complete call. A call replies exactly when a result
    for its id arrives during one of its attempts, and times out otherwise.
  - `run_algorithm`'s loop is proved against `IsWorkflow`. Each point's call
    starts from the table the previous call left. The log gains exactly the
    commands of those calls.
  - A reply whose `features` cannot be counted by `len()` raises and ends the
    run before END. Results built by the executor never do.
- `Executor` (`executor.dfy`): the executor.
  - `Executor` is a class with the idempotency cache and the publish log.
  - The routing of the message handler and the reads of a command are
    functions.
- `BatchTool` (`batch_tool.dfy`): the batch mode.
  - The parse loop is proved against `Scan`.
  - The send loop records, for each point, the entry made from its call's
    outcome. The batch's calls form a workflow from an empty table.
  - The file that `generate_sample_points` writes is proved to parse to its 13
    points.
- `Monitor` (`monitor.dfy`): the one-line display of a
  message, and the `MessageMonitor` class with its message count and latest
  record per topic.
- `Interop` (`interop.dfy`): how the peers read each other's messages.
  - The controller's command reaches the executor as the same point.
  - The executor's result resolves exactly the waiting slot; its error reply
    does not.
  - The monitor shows these messages as stated.

Waiting and the network are modelled by oracles:

- A blocking wait becomes a batch of inbound messages. The network loop
  delivers them through the real handler while the caller waits. The wait
  succeeds exactly when the caller's slot has been filled once the batch is
  delivered.
- `uuid4()`, the GUID, the clock, the generated feature values, and whether
  the executor's processing throws are parameters.
- Python's `float()` on a text field is a parameter
  `float: string -> Option<real>`.
- Python's `str()` of a decoded value that is not a string is a parameter `show`; a string shows as itself.

## Model

| member | source | states |
|---|---|---|
| Wire.StatusTraceAppend | client-python-A/a_client.py:75-81 | the presence states on the status topic of two logs in a row are those of the first followed by those of the second |
| Wire.PresenceExtendsTrace | client-python-A/a_client.py:180-186 | a retained presence publish adds exactly its state to the end of the presence trace |
| Wire.CopiesHaveNoStatus | client-python-A/a_client.py:153-157 | any number of publishes on a topic other than the status topic leave the presence trace unchanged |
| Wire.NatToStringRoundTrip | client-python-A/a_client.py:173 | the decimal text of a number (as the timeout message prints the attempt count) reads back as that number |
| Correlation.Deliver | client-python-A/a_client.py:91-128 | one inbound message keeps the set of pending ids, and keeps every filled slot paired with a result that echoes its own id |
| Correlation.StoresOnlyCorrelatedReplies | client-python-A/a_client.py:107-124 | a message is stored exactly when it is on the result topic, is a decoded `result_feature_set`, and carries a non-empty string req_id that is pending; it then overwrites that slot; every other message (undecodable, start, setting, unknown or missing id) leaves the table unchanged |
| Correlation.LateReplyIsDropped | client-python-A/a_client.py:113-124 | a reply for an id that is no longer pending (late duplicate, or after a timeout) changes nothing |
| Correlation.RedeliveryIsHarmless | client-python-A/a_client.py:116-121 | delivering the same message twice has the effect of delivering it once |
| Correlation.DeliverAll | client-python-A/a_client.py:91-128 | a run of inbound messages keeps the set of pending ids and the pairing of slots with their own ids |
| Correlation.Await | client-python-A/a_client.py:152-173 | the retry loop removes the caller's slot; a reply comes after at most `retries + 1` publishes; a timeout reports the id and comes after exactly `retries + 1` publishes |
| Correlation.AwaitReturnsOwnReply | client-python-A/a_client.py:161-166 | the result handed back is the reply that echoes the caller's own req_id, and every slot left stays paired with its own id |
| Correlation.SilenceTimesOut | client-python-A/a_client.py:152-173 | when no reply ever arrives, every one of the `retries + 1` attempts publishes, then the call times out and its slot is gone |
| Correlation.Call | client-python-A/a_client.py:139-173 | one connected call registers an empty slot and then settles: it gives the reply echoing its id, or a timeout after `max(0, retries + 1)` publishes; the table afterwards has the same ids as before and stays correlated |
| Correlation.SlotFilledAfter | client-python-A/a_client.py:107-122 | after a run of messages, a pending non-empty id's slot is filled exactly when it was filled before or one of the messages is a result on the result topic that echoes that id |
| Correlation.ReplyEndsTheWait | client-python-A/a_client.py:152-166 | a result for the caller's id that arrives during attempt k, within the retries, ends the wait with a reply after at most k + 1 publishes |
| Correlation.AwaitRepliesIffReplyArrives | client-python-A/a_client.py:152-173 | from an empty slot, the wait ends with a reply exactly when a result for its id arrives during one of the remaining attempts, and times out otherwise |
| Correlation.CallRepliesIffReplyArrives | client-python-A/a_client.py:139-173 | a connected call replies exactly when a result for its id arrives during one of its `retries + 1` attempts, and times out exactly when none does |
| Correlation.FilledSlotHoldsArrival | client-python-A/a_client.py:107-122 | a slot that was empty is filled after a run of messages only with the document of one of them that is a result for its id |
| Correlation.ReplyIsAnArrival | client-python-A/a_client.py:152-166 | the result a wait returns is the document of a result for the caller's id that arrived during one of its attempts |
| Correlation.SizedArrivalsDoNotAbort | client-python-A/a_client.py:196-202 | a call whose arriving results all have a countable `features` field (absent, a string, a list or an object) never yields an outcome on which `len(features)` raises |
| Correlation.CallAnswers | client-python-A/a_client.py:139-173 | a call with 2 retries is settled for its id and not NotConnected, and replies exactly when a result for its id arrives |
| Correlation.WorkflowExtends | client-python-A/a_client.py:192-209 | the call for the next point, made from the table the run left, extends the workflow |
| Correlation.WorkflowStep | client-python-A/a_client.py:192-209 | the next call extends the workflow, appends its outcome to the run's outcomes, and its table is the one the run leaves |
| Correlation.WorkflowPrefix | client-python-A/a_client.py:192-209 | every prefix of a workflow is a workflow: the calls made so far do not depend on the ones still to come |
| Correlation.WorkflowIsUnique | client-python-A/a_client.py:192-209 | two workflows of the same length from the same table, ids and arrivals are the same run, so a workflow is determined by its inputs |
| Correlation.WorkflowOutcomes | client-python-A/a_client.py:192-209 | every call of a workflow is settled for its own request, whatever the calls before it ended with, and replies exactly when a result for that request arrives during its attempts |
| Correlation.OutcomesAt | client-python-A/a_client.py:192-198 | outcome j of a run is the outcome of its call j |
| Correlation.OutcomesAppend | client-python-A/a_client.py:192-198 | one more call appends its outcome to the run's outcomes |
| Correlation.CommandLogAppend | client-python-A/a_client.py:152-157 | one more call appends to the log the command for its point and id, once per attempt |
| Correlation.CommandLogKeepsTrace | client-python-A/a_client.py:152-157 | the commands a whole run publishes leave the presence trace unchanged |
| Correlation.IdempotentRetry | client-python-A/a_client.py:152-166 | two unanswered attempts and a reply to the third give exactly that reply after three publishes of the same command, with the table back as before |
| Correlation.CommandsKeepTrace | client-python-A/a_client.py:157 | any number of copies of a move_point command leave the presence trace unchanged |
| Correlation.SettledRunExtends | client-python-A/a_client.py:192-212 | recording a settled outcome for the next request keeps the whole run settled |
| Correlation.RepliesAreSuccesses | client-python-A/a_client.py:197-198 | a reply that echoes its request is always truthy, so the number of successful points equals the number of points that got a reply |
| Correlation.PassedExtends | client-python-A/a_client.py:192-209 | after a point that did not raise, the loop goes on and no point sent so far raised |
| Correlation.DisconnectedRunCompletes | client-python-A/a_client.py:192-209 | a run that was never connected gets no result, so it never raises and goes through every point |
| Correlation.SizedRunCompletes | client-python-A/a_client.py:192-209 | a workflow whose every arriving result has countable features goes through all its points without raising |
| Correlation.LoopCompletes | client-python-A/a_client.py:192-209 | the loop goes through all points without raising when never connected, and when every arriving result has countable features |
| Correlation.PartialFailureSummary | client-python-A/a_client.py:192-222 | in a workflow of three points where results arrive for A and C but never for B, B times out after 3 attempts, C is still called and replied, and the summary of the run's outcomes is 3 in all, 2 successful, 1 failed |
| Correlation.Summarize | client-python-A/a_client.py:219-223 | the total is the number of points, the successful count the number of truthy replies, and the failed count the difference, between 0 and the total |
| Correlation.Client.constructor | client-python-A/a_client.py:33-37 | a new client is disconnected, with an empty pending table and nothing published |
| Correlation.Client.OnConnect | client-python-A/a_client.py:60-84 | rc 0 marks the client connected and publishes the retained presence `idle`; any other rc changes nothing |
| Correlation.Client.OnDisconnect | client-python-A/a_client.py:86-89 | the client is no longer connected; nothing else changes (the handler's body as intended; as wired, paho's call raises first, see "## Left out") |
| Correlation.Client.Disconnect | client-python-A/a_client.py:253-264 | a connected client publishes the retained presence `disconnected`; otherwise nothing is published |
| Correlation.Client.OnMessage | client-python-A/a_client.py:91-128 | the branch taken is the source's branch chain, and the table becomes `Deliver` of the old table; the connection flag and the log are unchanged |
| Correlation.Client.Dispatch | client-python-A/a_client.py:91-128 | handing messages to the handler one by one leaves the table as `DeliverAll` of the old table |
| Correlation.Client.SendPointAndWait | client-python-A/a_client.py:130-173 | when not connected: returns None and changes nothing; when connected: the outcome and the new table are those of `Call`, and the log gains exactly as many copies of the command as `Call` counts attempts |
| Correlation.Client.SendNext | client-python-A/a_client.py:192-209 | one pass of the loop: connected, the point's call extends the workflow, its outcome is appended and the table is the one the workflow leaves; not connected, the outcome is NotConnected and the table is unchanged; the log gains the point's command copies |
| Correlation.Client.SendDemoPoints | client-python-A/a_client.py:192-212 | the loop goes on past every point whose outcome does not raise and stops right after one that does (`aborted` exactly then); connected, the outcomes are those of the workflow of calls for the points sent, from the old table, and the table is the one it leaves; not connected, every outcome is NotConnected; the log gains exactly the commands of those calls; the success counter counts truthy replies |
| Correlation.Client.PublishEnd | client-python-A/a_client.py:214-235 | the log gains the END message with the summary, then the retained presence `completed`, and the presence trace gains `completed` |
| Correlation.Client.RunAlgorithm | client-python-A/a_client.py:175-237 | connected, outcome i is that of call i of the workflow of the demo points (each call from the table the previous one left, a timeout does not stop the run); a truthy reply whose `features` cannot be counted ends the run after that point, with no END and no `completed` (`summary` is None); otherwise all four points are sent and the summary counts the successful points, which equal the replied ones; when never connected, or when every arriving result has countable features, all four points go through and END is published; the log gains exactly `running`, the commands of the calls, and then END with the summary and `completed` unless the run raised; the presence trace gains `running`, then `completed` unless the run raised |
| Executor.ReadString | client-csharp-B/Program.cs:190-191 | `GetString()` yields text exactly for a JSON string, null exactly for JSON null, and throws otherwise |
| Executor.Property | client-csharp-B/Program.cs:188-189 | `GetProperty` succeeds exactly on an object that has the property |
| Executor.ParseCommand | client-csharp-B/Program.cs:186-191 | a command is read exactly when both coordinates are numbers and neither req_id nor sender throws; the command carries those coordinates, and a req_id exactly when the document has a string req_id, which it then equals |
| Executor.RouteActsOnlyOnItsTopics | client-csharp-B/Program.cs:95-137 | a move_point is handled exactly for a decodable `move_point` on the command topic whose command reads, and as that command; END is handled exactly for a decodable `end` on the end topic |
| Executor.ReqIdValue | client-csharp-B/Program.cs:233 | the reply carries a string req_id exactly when the command had one |
| Executor.ResultMessage | client-csharp-B/Program.cs:220-241 | the result is a `result_feature_set` that echoes the command's req_id (null when it had none) and carries the command's point |
| Executor.ErrorMessage | client-csharp-B/Program.cs:266-283 | the error reply is a `result_error` (never a `result_feature_set`) that echoes the req_id and carries the exception text |
| Executor.StoreKeepsCapacity | client-csharp-B/Program.cs:244-257 | storing one result into a cache within the cap of 100 and then enforcing the cap keeps it within the cap; every entry left is the stored one or an old one, unchanged; at most one key is lost, and a full cache given a new key stays full |
| Executor.StoreKeepsPairing | client-csharp-B/Program.cs:244-257 | storing the result for a non-empty req_id keeps every cached result paired with its own key |
| Executor.StartMessage | client-csharp-B/Program.cs:83-91 | the START message has type `start` |
| Executor.Executor.constructor | client-csharp-B/Program.cs:25 | the cache starts empty and nothing is published |
| Executor.Executor.OnConnected | client-csharp-B/Program.cs:35-93 | connecting publishes, in order, the retained presence `ready`, the retained setting (QoS 2), and the START message with the job id |
| Executor.Executor.HandleMovePoint | client-csharp-B/Program.cs:186-284 | a cached non-empty req_id republishes the cached result and changes nothing else; otherwise a result is cached under a non-empty req_id unless the work throws before that point, and the cap is then enforced; the result is published, or the error reply if anything threw; the cap and the pairing of the cache are kept |
| Executor.Executor.OnMessage | client-csharp-B/Program.cs:95-137 | the message is handled as `Route` says; a routed move_point has exactly the effect `HandleMovePoint` states for that command (cached republish, or one reply with the result stored under its key); END publishes the retained presence `completed` and empties the cache; dropped or failed messages change nothing |
| BatchTool.StripRightCuts | client-python-A/a_tool.py:81 | right-stripping keeps a prefix that does not end in whitespace and cuts off only whitespace |
| BatchTool.StripLeftCuts | client-python-A/a_tool.py:81 | left-stripping keeps a suffix that does not start with whitespace and cuts off only whitespace |
| BatchTool.StripIsExact | client-python-A/a_tool.py:81 | `strip()` leaves text that starts and ends with a non-space and sits inside the line with only whitespace around it |
| BatchTool.StripTrimmed | client-python-A/a_tool.py:81 | a line that neither starts nor ends with whitespace strips to itself |
| BatchTool.JoinSplit | client-python-A/a_tool.py:85 | splitting on a separator and joining back with it gives the line back |
| BatchTool.SplitPair | client-python-A/a_tool.py:85 | `a,b` with no comma in either field splits into exactly `a` and `b` |
| BatchTool.FieldsLackSeparator | client-python-A/a_tool.py:85 | no field of a split holds the separator |
| BatchTool.ParseStripped | client-python-A/a_tool.py:82-88 | a line is skipped exactly when it is blank or starts with `#`; a malformed line is reported with its stripped text |
| BatchTool.ParsedIsTwoNumbers | client-python-A/a_tool.py:84-88 | a line that is not blank and not a comment gives a point exactly when it is two comma-free fields around one comma that both read as numbers, and the point is those two numbers |
| BatchTool.Verdicts | client-python-A/a_tool.py:80 | one verdict per line |
| BatchTool.WarningsCiteTheirLines | client-python-A/a_tool.py:80-88 | every warning cites the 1-based number of a malformed line with that line's text, in increasing line order |
| BatchTool.ScanAppend | client-python-A/a_tool.py:79-88 | parsing two pieces of a file in a row gives the first piece's points followed by the second's, and the second piece's warnings keep the line numbers counted from the start of the file |
| BatchTool.ScanOneMore | client-python-A/a_tool.py:80-88 | one more line: a skipped line adds nothing; a parsed line appends its point; a malformed line appends a warning with its 1-based number |
| BatchTool.ParsePoints | client-python-A/a_tool.py:79-88 | the parse loop ends with exactly the points and warnings of `Scan` of the file |
| BatchTool.ResultIsTruthy | client-python-A/a_tool.py:121 | a reply that echoes its request is truthy, so it is recorded as a success |
| BatchTool.EntryFits | client-python-A/a_tool.py:119-142 | the entry for a call holds the point and, when connected, either the reply to its own req_id or the timeout error for that req_id; when never connected it is a `timeout` |
| BatchTool.CountSuccessAppend | client-python-A/a_tool.py:127 | one more entry adds one to the success count exactly when it is a success |
| BatchTool.CallFromEmpty | client-python-A/a_client.py:148-173 | a call made from an empty pending table leaves it empty |
| BatchTool.BatchStep | client-python-A/a_tool.py:116-142 | the call for the next point, made from the empty table, extends the batch workflow and leaves the table empty |
| BatchTool.BatchCallsFormWorkflow | client-python-A/a_tool.py:116-142 | the batch's calls are a workflow from the empty table, each call leaving it empty for the next |
| BatchTool.EntrySucceedsIffReplyArrives | client-python-A/a_tool.py:119-142 | connected, a point's entry is a success exactly when a result for its req_id arrives during its attempts, and otherwise the timeout error for that req_id |
| BatchTool.RecordedExtend | client-python-A/a_tool.py:116-142 | the entry made for the next point's send keeps every entry the one recorded for its point |
| BatchTool.RecordedFits | client-python-A/a_tool.py:116-142 | every entry recorded for a batch fits its point and request |
| BatchTool.BatchLogKeepsTrace | client-python-A/a_tool.py:116-142 | the commands a batch publishes leave the presence trace unchanged, connected or not |
| BatchTool.SendOne | client-python-A/a_tool.py:119-142 | one pass of the loop: the entry is `EntryFor` of the point and its call's outcome (NotConnected when not connected) and fits its point and request; the log gains that call's command copies; nothing stays pending |
| BatchTool.SendPoints | client-python-A/a_tool.py:113-146 | entry i is `EntryFor` of point i and the outcome of the call for `ids[i]` from an empty table (NotConnected when not connected), and fits its point and request; the success counter equals the number of `success` entries; the log gains exactly the commands of those calls; no request is left pending; the presence trace is unchanged |
| BatchTool.SessionTrace | client-python-A/a_tool.py:96-151 | a session that connects, sends a batch and disconnects publishes the presence states `idle` then `disconnected` |
| BatchTool.RunSession | client-python-A/a_tool.py:96-157 | from a fresh client, entry i is `EntryFor` of point i and its call's outcome when `on_connect` succeeded (NotConnected otherwise); the summary is total / successful / failed of those entries; the log is `idle`, the commands of the calls, then `disconnected` when `on_connect` succeeded, and empty otherwise |
| BatchTool.RunBatchMode | client-python-A/a_tool.py:64-174 | no point in the file ends the run with the parse warnings; a failed connect ends it after parsing; otherwise entry i is `EntryFor` of parsed point i and its call's outcome, the summary is total / successful / failed of those entries, and the log is `idle`, the commands of the calls, then `disconnected` when `on_connect` succeeded (empty otherwise) |
| BatchTool.ReadLinesOfLine | client-python-A/a_tool.py:70 | a line without a newline followed by `\n` is read back as one line keeping its `\n` |
| BatchTool.ReadBackWritten | client-python-A/a_tool.py:200 | the text `'\n'.join(lines) + '\n'` is read back as the same lines, each with its `\n` |
| BatchTool.StripNewline | client-python-A/a_tool.py:81 | a trimmed line read back with its `\n` strips to the line |
| BatchTool.VerdictsSeeStrippedLines | client-python-A/a_tool.py:81-88 | lines that strip to the same text get the same verdicts |
| BatchTool.WrittenLinesScan | client-python-A/a_tool.py:176-204 | trimmed lines written by `generate_sample_points` are parsed by batch mode exactly as the lines themselves |
| BatchTool.NumberPair | client-python-A/a_tool.py:81-86 | a line `a,b` whose two fields read as numbers gives that point |
| BatchTool.CommentLine | client-python-A/a_tool.py:82-83 | a comment line is skipped |
| BatchTool.SampleFileParses | client-python-A/a_tool.py:176-204 | the generated sample file parses to exactly its 13 points, in the order listed, with the four comment lines skipped and no warning |
| Monitor.SegmentIsLastPart | client-python-A/monitor.py:72 | the topic column is a slash-free suffix of the topic that is the whole topic or follows a `/` |
| Monitor.SegmentAfterLastSlash | client-python-A/monitor.py:72 | a topic ending in `/` and a slash-free segment shows that segment |
| Monitor.FlattenReplaces | client-python-A/monitor.py:124 | each newline and tab becomes a space; every other character stays |
| Monitor.Truncate | client-python-A/monitor.py:125 | text of at most 50 characters is kept; longer text is cut to its first 50 and marked `...` |
| Monitor.FallbackIsOneShortLine | client-python-A/monitor.py:122-125 | the fallback display is one line (no newline or tab) of at most 53 characters; it is the flattened text when that fits in 50, and otherwise its first 50 characters and `...` |
| Monitor.Len | client-python-A/monitor.py:110 | `len()` is defined exactly on strings, lists and objects |
| Monitor.FirstEight | client-python-A/monitor.py:116 | `[:8]` of a string is its first 8 characters; it is defined exactly on strings and lists |
| Monitor.FormatContent | client-python-A/monitor.py:103-125 | the first recognised key decides the display: settings show `系統配置`; a point, a summary, a values field or a job id raise exactly when the value has the wrong kind; presence never raises; anything else shows the fallback |
| Monitor.PresenceDisplay | client-python-A/monitor.py:111-114 | a presence message shows `上線` or `離線` by the truth of its flag, then its state in brackets |
| Monitor.JobDisplay | client-python-A/monitor.py:115-116 | a start message shows the first 8 characters of its job id, followed by `...` |
| Monitor.PadRightKeepsText | client-python-A/monitor.py:80 | a padded column keeps the text in front and adds only spaces, up to the column width |
| Monitor.Column | client-python-A/monitor.py:73-80 | a column is printed exactly for strings, numbers and booleans (None or a container raises); a string is padded to the width |
| Monitor.Show | client-python-A/monitor.py:67-80 | a document is displayed only when it is an object, and then with the last topic segment padded to 25; a document without sender, type or recognised key shows `?`, `unknown` and the fallback |
| Monitor.MessageMonitor.constructor | client-python-A/monitor.py:32-36 | no message has been counted and no topic recorded |
| Monitor.MessageMonitor.OnMessage | client-python-A/monitor.py:61-101 | every message is counted; a payload that is not JSON is shown raw and records nothing; an empty payload reads as `{}`; a message that displays is recorded as the latest of its topic, and one that raises shows the error line and records nothing |
| Monitor.RememberKeepsLatest | client-python-A/monitor.py:88-94 | after a run of displayed messages, each topic's record is that of its last message, a topic with no new message keeps its record, and no other topic appears |
| Interop.CommandReachesExecutor | client-csharp-B/Program.cs:107-110 | the controller's move_point command is handled by the executor as exactly the point it was sent for, with its req_id |
| Interop.ExecutorArrivalsAreSized | client-csharp-B/Program.cs:220-229 | the executor's result always lists its features, so when every result for an id that arrives was built by the executor, none of them makes `run_algorithm` raise |
| Interop.ResultFillsTheWait | client-python-A/a_client.py:107-122 | the executor's result for a command carrying a pending non-empty req_id fills exactly that slot of the controller's table |
| Interop.ErrorLeavesTheWait | client-python-A/a_client.py:107 | the executor's error reply is not a result, so the controller's table is unchanged and the wait goes on to its next attempt |
| Interop.RoundTrip | client-csharp-B/Program.cs:220-241 | the command the controller sends is parsed by the executor, whose result resolves the controller's wait with a reply that echoes the request and carries the same point |
| Interop.StartStartsTheRun | client-python-A/a_client.py:101-104 | the executor's START message makes the controller start its workflow |
| Interop.MonitorShowsResultPoint | client-python-A/monitor.py:105-107 | the monitor shows a result by its point, although it also carries values |
| Interop.MonitorShowsEndSummary | client-python-A/monitor.py:119-121 | the monitor shows the controller's END summary as successful/total |
| Interop.MonitorCutsJobId | client-python-A/monitor.py:115-116 | with a three-character deployment id, the 8 characters shown of the job id are `job-`, the id and `-`, so no part of the GUID is displayed |

## Left out

- Transport: the broker, subscriptions, QoS delivery guarantees, reconnects,
  keep-alive, TLS and credentials are not modelled. A publish is an entry
  appended to the peer's log.
- Last-will messages: both peers register one; it is the broker's to publish
  and is not modelled. The executor's `DisconnectedAsync` handler only logs
  and waits, and is not modelled.
- Concurrency: the controller runs `run_algorithm` on its own thread, and the
  handler fills slots from the network thread under a lock. A wait is modelled
  as one batch of messages delivered between a publish and the slot check.
  The model therefore does not capture a reply that arrives between the two
  separate lock sections of `on_message` (lookup, then store), nor a reply that
  lands after the wait gave up but before the slot is popped. Each START
  starts a new `run_algorithm` thread with no guard
  (client-python-A/a_client.py:101-104), so a redelivered START runs two
  workflows over one pending table and publishes END and `completed` twice;
  overlapping runs are not modelled. The batch tool's client is the same
  `MQTTClient` (client-python-A/a_tool.py:97-98) and subscribes to the START
  topic (client-python-A/a_client.py:67-71). A START that arrives during batch
  mode therefore runs `run_algorithm` alongside the batch over the same pending
  table, and that run's END makes the executor clear its cache
  (client-csharp-B/Program.cs:125-128). `BatchTool.BatchCallsFormWorkflow`'s
  empty table before each call holds only when no such START arrives.
- Correlation.Client.SendPointAndWait: the `timeout` argument is not a
  parameter. Which messages arrive before each wait ends is an oracle
  (`batches`). `uuid4()` is an oracle too: a non-empty id that is not pending.
  The model takes `retries` as it is given, so a negative value means zero
  attempts, as the source's `while attempt <= retries` does.
- Correlation.Client.Dispatch: a message on the `Raised` route (a req_id that
  is a list or an object, which cannot be a dict key) makes `on_message`
  raise. paho passes the exception out of `loop_forever`
  (client-python-A/a_client.py:251), and `main` logs it and disconnects
  (client-python-A/a_client.py:283-286). No later message is delivered and
  every wait in progress runs out. `Dispatch` and `DeliverAll` instead leave
  the table unchanged for that message and go on delivering the next ones.
- Correlation.Client.RunAlgorithm: the one-second pause between points and
  the log lines are not modelled. Of the log line after a truthy reply
  (client-python-A/a_client.py:200-202), only `len(features)` is modelled,
  because it raises TypeError on a `features` that is null, a number or a
  bool and so ends the run (`Aborts`). The thread that runs `run_algorithm`
  then dies with the exception; that exception itself and the thread are not
  modelled.
- Correlation.Client.Disconnect: the transport's `disconnect()` is not
  modelled. `OnDisconnect` is the model of the handler that is meant to clear
  the flag afterwards. As wired, that handler does not run; see the next line.
- Correlation.Client.OnDisconnect: the model is the handler as evidently
  intended: it clears the flag and changes nothing else. As written, the client
  registers its callbacks under paho's callback API version 2
  (client-python-A/a_client.py:42). That API calls `on_disconnect` with five
  arguments (client, userdata, disconnect flags, reason code, properties), but
  the handler takes at most four (client-python-A/a_client.py:86). So the call
  raises TypeError before the flag is cleared, and `is_connected` stays true
  after a connection loss. paho passes the exception out of `loop_forever`, as
  for the `Raised` route under `Correlation.Client.Dispatch`. The model does
  not capture what follows a dropped connection. `SendPointAndWait` goes on
  publishing and times out instead of returning None. The `disconnect()` in
  `main`'s `finally` still publishes `disconnected`.
- Executor.Executor.HandleMovePoint: it holds a `lock` across an `await`.
  C# does not allow this, so the source as written does not compile. The model
  treats the cache lookup and the republish as one step.
- Executor.Executor.HandleMovePoint: the simulated movement, the vibration
  analysis and the feature generator (with its randomness and delays) become
  two oracles: the feature values, and whether the work throws and where.
  A failure of the publish call inside the catch block is not modelled.
- Executor.Evicted: the cap removes `Keys.First()`. `Dictionary` does not
  define that order, so the model only states that one existing entry is
  removed. Removing the oldest entry, which the comment intends, is not
  guaranteed by the source either. With the current .NET implementation a
  removed entry's slot is reused by the next `Add`, so from the second
  overflow on `Keys.First()` is the key just stored. That key is evicted at
  once, and a retry of it redoes the work instead of hitting the cache. The
  model's any-victim `Evicted` admits this.
- Executor: numbers are reals. `GetDouble()` range errors, serialisation of
  anonymous objects into text, and the exact text of JSON numbers are not
  modelled.
- Executor: a payload is one `Body`, and `Undecodable` covers every payload
  that is not UTF-8 JSON, for both peers. The executor decodes with
  `Encoding.UTF8.GetString` (client-csharp-B/Program.cs:100), which replaces
  invalid bytes with U+FFFD instead of throwing. A payload that is not valid
  UTF-8 but is JSON apart from those bytes is therefore parsed and handled by
  the executor, while the model's `Route` sends it to `Failed`. Byte-level
  decoding is not modelled.
- Executor: the process entry point (`Main`, the console, `ReadKey`) and the
  connection options are not modelled.
- BatchTool.RunBatchMode: these are not modelled: opening the file
  (`FileNotFoundError` and other read errors), the console output, the pause
  between points, `KeyboardInterrupt`, and writing the results file with its
  timestamp. `connect()` returning False and the `rc` that `on_connect`
  receives are parameters.
- BatchTool.ReadLines: the model reads text whose line endings are already
  `\n`. The universal-newline translation and the platform text encoding of
  `open()` are not modelled.
- BatchTool: `float()` is a parameter. Its exact grammar (underscores, `inf`,
  `nan`, exponents) and floating-point rounding are not modelled. The
  parameter is only assumed to read the sample file's numerals as their
  values.
- BatchTool: the interactive mode, `main()` with its argument parsing, and the
  printing in `generate_sample_points` are not modelled; the file it writes is.
- Monitor.MessageMonitor.OnMessage: a payload that is not UTF-8 makes the
  source's `decode()` raise `UnicodeDecodeError`, which reaches the generic
  error line. A payload that is UTF-8 but not JSON is shown raw. The model has
  a single `Undecodable` body and shows it raw. The raw line's payload text,
  the clock column, the verbose dump and the printing itself are not
  modelled; the record's timestamp is a parameter.
- Monitor.Column: a number's column text is `show` padded. Python's exact
  float formatting under a width spec is not modelled.
- Monitor: `on_connect`, `print_statistics`, and the command-line entry point
  are not modelled.
- Wire: Python's `str()` of values other than natural numbers and integers is
  a parameter (`show`). The text form of JSON numbers is not modelled.
