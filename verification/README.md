# Anertic: verified models of its stateful cores

This project models, in Dafny, the parts of the Anertic energy platform whose correctness depends on
state, interleaving or parsing, and proves what they guarantee. Nothing here runs the original program.

- **Conversations** (`Messages`, `History`, `RoundTrip`, `Window`, `Agent`, `Chat`). The agent loop grows
  a list of messages from arbitrary model streams and arbitrary tool outcomes; a chat flattens the new
  messages into typed rows; the next chat rebuilds messages from the last 50 rows and repairs what the
  limit cut apart. Saving and loading are a printer and a parser, and the limit makes the parser read
  from the middle. The main results say exactly when the round trip is the identity, exactly what a
  truncated load gives, and that every list ever sent to the model pairs each call with a result.
- **The charge point protocol** (`CallProtocol`, `Routing`, `Hub`, `LateAnswers`, `Commands`, `AnswerRules`, `Database`). Calls,
  responses, duplicates, unknown ids and timeouts interleave freely: taking an id, registering, writing,
  looking up, delivering, receiving, timing out and deleting are separate steps. The hub runs any number
  of such connections. API handlers reset a command's status, store a configuration change at once and
  publish; the hub forwards each published command and writes the tables from what the calls return.
- **Charging** (`Charging`, `ChargingRules`, `Database`, `Meter`, `Decimal`). Sessions, reservations and id tags under
  starts, stops, meter values, reservations and command responses in any order, one atomic step per
  statement or transaction, and the grouping of sampled values.
- **Placement** (`Placement`, `PlacementRules`, `PlacementTables`). The site, floor and room relations of devices.
- **Smaller cores**: the index-based merge of the charger list (`ChargerList`), the websocket topic
  index (`TopicIndex`), the chat view's steps (`ChatSteps`), the JSON highlighter (`JsonHighlight`) and
  the endpoint ids of the documentation page (`Endpoints`).

Code that changes things step by step is modelled by classes and methods with loops. Each such method is
proved equal to a function of its inputs or of the old state, and the lemmas prove what that function
guarantees. What a single operation must do is also written down apart from how it does it, with the
literal texts and numbers (`AnswerRules`, `ChargingRules`, `PlacementRules` and predicates of the other
modules), and both the method and the function are proved to keep it. Run `dafny verify dfyconfig.toml` to check everything.

## Where the code and its documentation differ

- `cmd/agentic/handler.go:346-347` promises that every tool_use has a tool_result and vice versa. That
  holds for every row sequence (`History.LoadPairs`). The stronger expectation, that a load gives back
  what the rows say, fails in two corners, and both are characterised exactly: a text-less assistant
  message right after another assistant message merges into it (`RoundTrip.SaveThenLoad`,
  `Chat.OutputsAloneCanMerge`; it cannot happen between saved chats), and a limit that separates two
  calls sharing an id within one turn keeps a result too many (`Window.LoadAfterCut`,
  `Window.SharedIdMisloads`).
- The last filter of tool results in `loadHistory` never removes anything (`History.LastFilterRemovesNothing`).
- A duplicate response can block its handler for good (`CallProtocol.DuplicateCanStick`); a handler can
  still deliver in some continuation exactly when it is not stuck (`CallProtocol.DeliversExactly`).
- An overlapping reconnect can hide a live connection (`Hub.ReconnectCanHide`); the exact condition is
  `Hub.FoundExactly`.
- A command's status can show the outcome of an earlier request as that of the newest
  (`LateAnswers.LateOutcomeShows`; `LateAnswers.AskingTwice` shows that asking twice in a row is enough).
  `LateAnswers.ShowsEarlierExactly` gives the condition on the state when the command is asked for.
- A late answer to an earlier request can cancel a reservation that was asked for again
  (`Charging.LateRejectionCancels`); `LateAnswers.CancelledByEarlierExactly` says exactly when.
- A charger's error answer is handled like a result (`Routing.ChangesNothing` says exactly when it changes
  nothing): with a string for a code it is recorded as success for two commands
  (`Routing.StringErrorRecordsNothing`), with null as a refusal (`Routing.NullErrorRefuses`), with an
  object even as an acceptance (`Routing.ObjectErrorAccepts`).
- The two meter paths take the unit of an active power sample differently, for a missing unit and for Wh,
  varh, kVA and kvar (`Meter.PathsAgree`, exactly; `Meter.UnitlessDiffers`; `Meter.ReadingAgainstSession`
  for whole lists).
- Deleting a floor that does not exist can move rooms, and deleting a room that is not the site's can empty
  it (`Placement.MissingFloorMovesRoom`, `Placement.ForeignDeleteEmptiesRoom`). These are the only error
  returns that change anything (`Placement.ErrorsChangeNothing`).
- A handler called for one site can take devices out of a room of another
  (`Placement.ForeignDeleteEmptiesRoom`); `Placement.SitesIsolated` says exactly when.
- A start answers Accepted even when its session was not stored (`Charging.StoredAfterOpen`).
- A broadcast misses a connection that left one of two topics (`TopicIndex.LeavingOneOfTwoMisses`,
  `TopicIndex.BroadcastsExactly`); the connection handler never joins two.
- Grouping endpoints throws when a tag is a name every object inherits (`Endpoints.GroupByTag`).

## Model

| member | source | states |
|---|---|---|
| `History.LoadHistory` | cmd/agentic/handler.go:279-383 | The three in-place passes compute `Load`, and whatever the rows are the result is paired. |
| `History.RebuildRows` | cmd/agentic/handler.go:298-344 | The row loop with its two id maps computes the fold of `ReadRow`. |
| `History.StripOrphans` | cmd/agentic/handler.go:346-361 | The in-place rewriting keeps, in each message, exactly the answered calls in order. |
| `History.CleanMessages` | cmd/agentic/handler.go:363-380 | The collected ids are those of the calls kept, and the filter drops exactly the messages that do not survive. |
| `History.RebuildConsistent` | cmd/agentic/handler.go:298-344 | Over every row sequence the two id maps describe the rebuilt list, results follow their calls, and no id is answered that was not called. |
| `History.LoadPairs` | cmd/agentic/handler.go:298-380 | For every row sequence: equal sets of call and result ids, each result after a message carrying its call, no empty assistant message. |
| `History.LastFilterRemovesNothing` | cmd/agentic/handler.go:375-377 | Every tool result that reaches the last filter passes it. |
| `RoundTrip.AttachCalls` | cmd/agentic/handler.go:320-330 | Any run of call rows attaches, in order, to the assistant message it follows. |
| `RoundTrip.RebuildSaved` | cmd/agentic/handler.go:219-263 | Rebuilding the rows of messages gives exactly those whose results have an earlier call, if the list stays separable. |
| `RoundTrip.LoadSaved` | cmd/agentic/handler.go:298-380 | Loading saved messages keeps exactly the matched ones when every matched call is answered: strip and clean remove nothing more. |
| `RoundTrip.SaveThenLoad` | cmd/agentic/handler.go:219-344 | For every paired list, save then load is the identity up to `IsError` if and only if no text-less assistant message directly follows an assistant message. |
| `Window.ParseLog` | cmd/agentic/handler.go:346-347 | Every well-formed log splits into sound turns that flatten back to it. |
| `Window.LogPaired` | cmd/agentic/handler.go:346-347 | Every well-formed log is paired. |
| `Window.TailRows` | cmd/agentic/handler.go:281-290 | For every log and cut, the rows after the cut are the rows of the stated tail. |
| `Window.LoadAfterCut` | cmd/agentic/handler.go:279-382 | For every log and every cut, loading the rest gives whole later turns and, of the turn cut into, just the calls left with their results, if and only if the cut separates no two calls sharing an id. |
| `Window.LoadWindow` | cmd/agentic/handler.go:281-290 | For every limit, the last rows load to what should remain if and only if the cut is clean, as it is when no turn repeats a call id. |
| `Window.SharedIdMisloads` | cmd/agentic/handler.go:332-344 | A log that repeats an id within a turn, and a cut after which it does not load to what should remain. |
| `Agent.ReadStream` | cmd/agentic/agent.go:85-100 | Text, calls and failure are those of the stream up to its first error; the full text is the text sent; on an error the one terminal event is sent last. |
| `Agent.OneMoreEvent` | cmd/agentic/agent.go:85-100 | As long as no error came, each further event adds its text or its call at the end, or nothing; an error stops. |
| `Agent.NothingAfterError` | cmd/agentic/agent.go:95-98 | Nothing after the first error is read, whatever it is. |
| `Agent.EmitPrefill` | cmd/agentic/agent.go:78-83 | Overwriting the text with the prefill is appending it, since nothing was sent before. |
| `Agent.RunTools` | cmd/agentic/agent.go:106-160 | One result per call, in call order; each is what its tool answers given the history and every message before it, the results before it included. |
| `Agent.RunTool` | cmd/agentic/agent.go:113-159 | An output is sent back as it is, a failure as the text of its error, a missing tool as the quoted not-found text; only the last two are errors, and the client is told of each. |
| `Agent.ReportsRunning` | cmd/agentic/agent.go:113-159 | Tool reports carry no text and end nothing. |
| `Agent.AfterTurnsShape` | cmd/agentic/agent.go:102-161 | After any number of iterations the new messages are tool turns only: each call answered at once, in order. |
| `Agent.AfterTurnsHeard` | cmd/agentic/agent.go:113-146 | After any number of iterations every tool result is what its tool answers, asked with all the messages before it. |
| `Agent.RunTurn` | cmd/agentic/agent.go:102-161 | The calls of a turn extend both lists by their message and its results. |
| `Agent.Iterate` | cmd/agentic/agent.go:58-173 | One iteration ends the run as promised, or leaves the working list the history and one more whole turn. |
| `Agent.RequestAt` | cmd/agentic/agent.go:58-64 | The working list of request `i` is the history followed by the new messages of the `i` turns before it. |
| `Agent.RequestsFollow` | cmd/agentic/agent.go:58-161 | The model is asked with the history, and each further time with one more turn: what its stream said, the prefill before the first text only, and what each tool answered. |
| `Agent.ReturnFollows` | cmd/agentic/agent.go:64-180 | The last stream decides the return: an error is returned as such, text without calls ends the run, and a turn with calls ends it only at the fifteenth request. |
| `Agent.ToolTurnsAppend` | cmd/agentic/agent.go:102-169 | Tool turns followed by an output form an output. |
| `Agent.Run` | cmd/agentic/agent.go:45-180 | On every return, the error and cut-off ones included: at most 15 requests, each one more turn than the one before, of what the stream said and the tools answered; the last stream decides the return; balanced new messages; and on normal returns text = text sent = contents, one terminal event, last. |
| `Chat.OutputSeparate` | cmd/agentic/agent.go:102-169 | No output of a run holds two messages its rows would merge. |
| `Chat.TranscriptRoundTrip` | cmd/agentic/handler.go:148-344 | For every sequence of chats, all saved rows load back to the same messages, `IsError` cleared. |
| `Chat.TranscriptWindow` | cmd/agentic/handler.go:148-382 | For every sequence of chats and every limit, the last rows load to exactly what should remain of the transcript if and only if the cut is clean, as it is when no turn repeats a call id. |
| `Chat.OutputsAloneCanMerge` | cmd/agentic/handler.go:320-330 | Two outputs without a user message between them, for which the round trip fails. |
| `Chat.RequestsPaired` | cmd/agentic/agent.go:45-161 | Every list sent to the model in a run is paired when the history was. |
| `Chat.Conversation.SaveAssistant` | cmd/agentic/handler.go:221-250 | Appends the rows of one assistant message: its text if any, then its calls. |
| `Chat.Conversation.SaveMessages` | cmd/agentic/handler.go:218-263 | Appends the rows of all assistant and result messages, in order. |
| `Chat.Conversation.Chat` | cmd/agentic/handler.go:148-263 | One chat keeps the rows those of a well-formed log, starts from what remains of that log within 50 rows exactly when the cut is clean, sends only paired lists, at most 15, and every tool result it saves is what the tool answered. |
| `Decimal.ValueRender` | api/charger/charger.go:518-520 | Reading the decimal digits of a number gives the number back. |
| `Decimal.RenderInjective` | ocpp/chargepoint.go:39 | Different integers never render alike. |
| `CallProtocol.RunKeepsInv` | ocpp/chargepoint.go:38-84 | Over every interleaving: pending entries are the in-flight calls, handlers hold the channel of the call with their id, and channels hold only payloads delivered under the call's id. |
| `CallProtocol.ReturnsOwnResponse` | ocpp/chargepoint.go:67-84 | A call returns only a payload that came in under its own message id. |
| `CallProtocol.PendingAreInFlight` | ocpp/chargepoint.go:39-50 | The pending keys are exactly the ids of the calls in flight, each mapped to its own call. |
| `CallProtocol.FirstResponseNeverBlocks` | ocpp/chargepoint.go:75-84 | As long as nothing was delivered to a call, a handler that found it can send. |
| `CallProtocol.BlockedWhen` | ocpp/chargepoint.go:75-84 | A handler that found a call is blocked exactly when the slot is full; then it is stuck, or the call can still read or is about to wait. |
| `CallProtocol.DeliversExactly` | ocpp/chargepoint.go:75-84 | A handler that found a call delivers in some continuation if and only if it is not stuck. |
| `CallProtocol.StuckForever` | ocpp/chargepoint.go:75-84 | A handler left behind stays blocked whatever happens next. |
| `CallProtocol.DuplicateCanStick` | ocpp/chargepoint.go:67-84 | For every waiting call there is a continuation in which a duplicate response leaves its handler stuck. |
| `CallProtocol.MayReturnBefore` | ocpp/chargepoint.go:38-84 | No step makes a response possible that was not possible before. |
| `CallProtocol.ReturnsExactly` | ocpp/chargepoint.go:38-84 | With its connection up or down, a call returns a given response in some continuation if and only if its phase, its slot and the responses in hand allow it now. |
| `CallProtocol.FailsExactly` | ocpp/chargepoint.go:67-72 | With its connection up or down, a call returns an error in some continuation if and only if it has taken no response yet, whatever waits in its slot. |
| `CallProtocol.StepOnCall` | ocpp/chargepoint.go:38-73 | No step changes a call's command, nor a finished call's result. |
| `CallProtocol.ChargePoint.NextID` | ocpp/chargepoint.go:39 | Bumping the counter is the step that starts a call; ids stay fresh. |
| `CallProtocol.ChargePoint.AddPending` | ocpp/chargepoint.go:41-44 | Registering the channel keeps the invariant. |
| `CallProtocol.ChargePoint.Written` | ocpp/chargepoint.go:57-62 | A written call waits, a failed write leaves. |
| `CallProtocol.ChargePoint.Select` | ocpp/chargepoint.go:67-72 | Either branch of the select: a timeout leaves without a response even against a full slot, a receive with the one in it. |
| `CallProtocol.ChargePoint.DeletePending` | ocpp/chargepoint.go:46-50 | The deferred delete removes the call's own entry and no other. |
| `CallProtocol.ChargePoint.LookUp` | ocpp/chargepoint.go:77-79 | The lookup under the lock finds the registered call with that id or nothing. |
| `CallProtocol.ChargePoint.Send` | ocpp/chargepoint.go:81-83 | The send outside the lock fills the one slot of the call found. |
| `Routing.HandleMessage` | ocpp/handler.go:85-132 | A message reaches the router, a waiting call or nothing, by its shape and the numbers 2, 3 and 4; only results and errors touch the connection. |
| `Routing.RoutedOnce` | ocpp/handler.go:107-131 | No message goes to two places. |
| `Routing.ChangesNothing` | ocpp/hub.go:96-562 | Any response to any command, whatever stands for the code of a call error included, changes nothing if and only if the status, version, cancellation and configuration it decodes to are there already. |
| `Routing.StringErrorRecordsNothing` | ocpp/handler.go:121-130 | An error code that is a string changes nothing if and only if the command is no firmware update or diagnostics upload, or counts as done already. |
| `Routing.NullErrorRefuses` | ocpp/handler.go:121-130 | An error with null for a code is recorded as a refusal. |
| `Routing.ObjectErrorAccepts` | ocpp/handler.go:121-130 | An error with an object for a code can store a list version. |
| `Hub.ProjectRun` | ocpp/hub.go:573-604 | Whatever the hub does, each connection runs the call protocol. |
| `Hub.WritesCorrelated` | ocpp/hub.go:573-604 | Over every run, each write is made from a response that came in on the same connection under the id of the call that carried exactly the written action and payload, forwarded from a published request of that command for that charger; no call is written twice. |
| `Hub.RunReplays` | api/charger/configuration.go:220-248 | The tables are the initial ones with every reset, anticipated change and written response applied in order. |
| `Hub.TablesFollowHistory` | api/charger/localauth.go:64-76 | After every run a charger's list version is that of the last response establishing one, and each status column the last of resets to pending and recorded outcomes. |
| `Hub.VersionOrigin` | ocpp/hub.go:98-160 | A changed list version comes from an accepted SendLocalList's own request, or from what GetLocalListVersion reported, in a call to that charger answered under its own id. |
| `LateAnswers.ColumnIsOfAction` | schema/0004_ev.sql:37-50 | Each status column belongs to one action. |
| `Hub.ConfigurationsFollowHistory` | api/charger/configuration.go:230-245 | After every run a configuration value is the last asked for, reported or accepted; a rejection leaves the value asked for. |
| `LateAnswers.OwnerShown` | ocpp/hub.go:96-562 | Once reset, a status is out of pending exactly while it has an owner, and shows a correlated response to that request. |
| `LateAnswers.LateOutcomeShows` | api/charger/cache.go:64-76 | Whenever a call has returned unhandled, asking again first makes its outcome show as the newer request's. |
| `LateAnswers.Follow` | ocpp/hub.go:594-600 | Every continuation of a connection's call protocol that its being up or down allows is one of the hub. |
| `LateAnswers.AnsweredExactly` | ocpp/hub.go:573-604 | A response is recorded for a request in some continuation if and only if the request is unpublished, or has a receiver that is up and has not started its call, or has an unhandled call that can return just that response. |
| `LateAnswers.ShowsEarlierExactly` | api/charger/cache.go:64-76 | Before a command is asked for again its status can come to show an earlier request's outcome if and only if, when it is asked for, an earlier request of that action to that charger can still be answered with an outcome. |
| `LateAnswers.AskingTwice` | api/charger/cache.go:64-76 | Asking twice in a row meets the condition. |
| `LateAnswers.CancelledByEarlierExactly` | ocpp/hub.go:428-514 | After a reservation is asked for again, an answer to an earlier request can cancel it if and only if such an answer is possible when it is asked for. |
| `Hub.RunKeepsRegistry` | ocpp/hub.go:51-67 | The registry never holds a finished connection, and each under its own identity. |
| `Hub.FoundExactly` | ocpp/hub.go:51-74 | A connection is found if and only if, since it registered, no other of its identity registered and none unregistered. |
| `Hub.ReconnectCanHide` | ocpp/hub.go:61-63 | A run after which a live connection is not registered. |
| `Hub.Registry.Register` | ocpp/hub.go:51-58 | Registering is the connect step of a hub run. |
| `Hub.Registry.Unregister` | ocpp/hub.go:61-67 | Unregistering by identity is the disconnect step, whichever connection is registered. |
| `Hub.Registry.GetLocal` | ocpp/hub.go:70-74 | Finds a connection if and only if one is registered; it is live and of that identity. |
| `Hub.Registry.ListLocal` | ocpp/hub.go:77-86 | Lists each registered charge point once, all of them live. |
| `Database.ColumnToReset` | api/charger/trigger.go:82-90 | The column each API handler resets, remote starts and stops and the rest having none. |
| `Database.Tables.ResetStatusOf` | api/charger/unlock.go:68-76 | Before publishing, each command's API handler sets its own status column to 0 and no other. |
| `Database.Tables.AnticipateChange` | api/charger/configuration.go:230-245 | A configuration change is stored at once under its key and no other, keeping the readonly flag. |
| `Database.Tables.HandleResponse` | ocpp/hub.go:96-562 | For every command: the status strings that count as success, the column that gets 1 or 2, the list version, the configuration and the reservation it changes; no other column and no other row changes, and none for an unknown charger. |
| `AnswerRules.HandledByRule` | ocpp/hub.go:96-562 | The table of commands that is replayed over runs keeps that rule, for every answer. |
| `AnswerRules.ResetByRule` | api/charger/trigger.go:82-90 | Asking for a command resets the column of that command and no other. |
| `AnswerRules.AnticipatedByRule` | api/charger/configuration.go:230-245 | Asking for a change stores the value under its key, keeping a stored readonly flag. |
| `AnswerRules.ReportRule` | ocpp/hub.go:231-273 | After a report each key it names holds its last entry, and no other key changes. |
| `Database.Tables.HandleListVersion` | ocpp/hub.go:98-117 | GetLocalListVersion: stores the reported version, with status Ok. |
| `Database.Tables.HandleSendLocalList` | ocpp/hub.go:119-160 | SendLocalList: stores the request's version only when accepted, an error status otherwise. |
| `Database.Tables.HandleGetConfiguration` | ocpp/hub.go:231-273 | GetConfiguration: upserts every reported key, later entries winning. |
| `Database.Tables.HandleChangeConfiguration` | ocpp/hub.go:275-333 | ChangeConfiguration: upserts the requested key when accepted, keeping its readonly flag, and records the status. |
| `Database.Tables.HandleAnyResponse` | ocpp/hub.go:335-357 | UpdateFirmware and GetDiagnostics: Ok whatever the response. |
| `Database.Tables.HandleStatusOnly` | ocpp/hub.go:162-229 | The commands whose response status alone decides the column. |
| `Database.Tables.HandleReserveNow` | ocpp/hub.go:428-459 | A rejected reservation is cancelled while still reserved. |
| `Database.Tables.HandleCancelReservation` | ocpp/hub.go:484-514 | An accepted cancellation cancels while still reserved. |
| `Database.Tables.ValidateIdTag` | ocpp/v16/authorize/authorize.go:47-97 | With a record of the charger's own the answer is that record's, else the global one's, else Invalid; a past expiry overrides any status. |
| `ChargingRules.CheckedByRule` | ocpp/v16/authorize/authorize.go:47-97 | Every tag check that sessions go back to keeps that order. |
| `ChargingRules.OwnRecordStands` | ocpp/v16/authorize/authorize.go:58-70 | With a record of the charger's own, no change to any other record changes the answer. |
| `ChargingRules.AskAddsExactly` | ocpp/v16/transaction/transaction.go:54-71 | A start goes on to its transaction if and only if the record that decides is accepted and has not expired. |
| `Database.Tables.StartTransaction` | ocpp/v16/transaction/transaction.go:83-166 | A committed start adds one open session with the next id, marks its connector alone and uses its reservation alone if that is still reserved; a lost one spends the id; any other changes nothing. The id returned names a stored session if and only if it was committed. |
| `Database.Tables.StopTransaction` | ocpp/v16/transaction/transaction.go:199-245 | Closes the session of that id and frees its connector, or fails and changes nothing, exactly when it is missing or a number does not fit its column. |
| `ChargingRules.StartedByRule` | ocpp/v16/transaction/transaction.go:83-156 | The start that runs are made of keeps that rule: a reserved reservation it names becomes Used. |
| `ChargingRules.StoppedByRule` | ocpp/v16/transaction/transaction.go:199-245 | So does the stop: it goes through if and only if the session is there and reading and energy fit. |
| `ChargingRules.PowerInKw` | ocpp/v16/meter/meter.go:402-430 | A power in kW, alone in a report, is compared with the maximum as it is. |
| `Database.Tables.UpdateSessionMaxPower` | ocpp/v16/meter/meter.go:384-438 | Stores the greater power on an open session only. |
| `Database.Tables.UpsertReservation` | api/charger/reservation.go:46-105 | Inserts or resets the one reservation to Reserved, exactly for a known charger, an expiry ahead and ids given. |
| `Charging.ReachableSound` | ocpp/v16/transaction/transaction.go:199-222 | In every reachable state transaction ids are distinct and each closed session's energy times 1000 is its stop minus its start reading, repeated stops included. |
| `Charging.StoredAfterOpen` | ocpp/v16/transaction/transaction.go:150-166 | The id answered to a start names a stored session if and only if its transaction was committed for a known charger. |
| `Charging.ReachablePositive` | schema/0004_ev.sql:119-128 | Every stored transaction id is positive. |
| `Charging.RowsEvolve` | ocpp/v16/transaction/transaction.go:83-222 | A session row is never removed, keeps who started it and with which reading, and once closed stays closed with its maximum power frozen. |
| `Charging.StoppedByLast` | ocpp/v16/transaction/transaction.go:199-222 | A session is closed exactly when some stop went through, with the reading of the last such stop. |
| `Charging.StepAddsRow` | ocpp/v16/transaction/transaction.go:83-118 | Only a start transaction adds a row, and it adds one, with the next id. |
| `Charging.MaxPowerIsRunningMax` | ocpp/v16/meter/meter.go:384-438 | In every reachable state a session's maximum power is the running maximum of zero and the sums reported while it was open. |
| `Charging.StoreKeepsMax` | ocpp/v16/meter/meter.go:422-430 | Rounding the greater of two values to the column is the greater of the rounded values; an overflow changes nothing. |
| `Charging.Round2Nearest` | schema/0004_ev.sql:136 | The column keeps a whole number of hundredths, within half a hundredth of the value. |
| `Charging.RunningMaxRounds` | schema/0004_ev.sql:136 | When every report fits the column, the stored value is the true maximum, rounded once. |
| `Charging.SessionAdmitted` | ocpp/v16/transaction/transaction.go:54-118 | Every session row goes back to a start of its charger at whose tag check the record that decides, the charger's own before the global one, was accepted and unexpired. |
| `Charging.SessionsApart` | ocpp/v16/transaction/transaction.go:54-118 | Different session rows go back to different starts. |
| `Charging.StatusChangesOnce` | ocpp/v16/transaction/transaction.go:136-151 | Between two upserts a reservation changes status at most once, from Reserved to Used or Cancelled, in any order of starts, rejections and cancellations. |
| `Charging.CancelsExactly` | ocpp/hub.go:442-459 | A response changes a reservation still reserved exactly when it cancels it, whichever request it answers. |
| `Charging.LateRejectionCancels` | api/charger/reservation.go:76-94 | A rejection of an earlier request for the same reservation cancels one just upserted. |
| `Meter.GroupReadings` | ocpp/v16/meter/meter.go:176-208 | One reading per phase with a valid sample. Each column holds the value of the last sample of the phase to name its measurand, in the base unit, exports negated; a sample that names none is imported energy, one without a unit in Wh. |
| `Meter.LastValueIsLast` | ocpp/v16/meter/meter.go:176-208 | For every field: the last sample with one of its measurands decides, and without any the field is null. |
| `Meter.MapSets` | ocpp/v16/meter/meter.go:262-289 | A measurand sets its own column, with its sign, and no other. |
| `Meter.NormalizesToBase` | ocpp/v16/meter/meter.go:293-314 | For every unit, missing ones included: a base unit's value is kept, one with a base unit in its pair becomes its rewriting, any other is kept; rewriting changes nothing. |
| `Meter.RewrittenReadings` | ocpp/v16/meter/meter.go:176-314 | Rewriting any samples between W and kW, Wh and kWh, varh and kvarh, VA and kVA, var and kvar changes no reading. |
| `Meter.SumPower` | ocpp/v16/meter/meter.go:384-420 | The loop sums the active import power over all phases and knows whether there was any. |
| `Meter.RescalePower` | ocpp/v16/meter/meter.go:402-410 | Rewriting one sample keeps the power it adds if and only if it is not a nonzero power sample in a unit of something else. |
| `Meter.RewrittenPower` | ocpp/v16/meter/meter.go:384-420 | Rewriting samples, active power in W or kW, leaves the session's power alone. |
| `Meter.PathsAgree` | ocpp/v16/meter/meter.go:402-410 | A power sample says to the reading what it adds to the session if and only if it is zero or its unit is not missing, Wh, varh, kVA or kvar. |
| `Meter.UnitlessDiffers` | ocpp/v16/meter/meter.go:191-194 | A sample without a unit, read as 0.001 by one path and 1 by the other. |
| `Meter.ReadingAgainstSession` | ocpp/v16/meter/meter.go:384-420 | A phase's power reading equals the session's sum exactly when the power added before its last sample is the difference the unit makes. |
| `Placement.StepKeepsIntegral` | api/floor/floor.go:376-459 | Every placement handler keeps referential integrity. |
| `Placement.RunKeepsIntegral` | api/device/device.go:517-598 | After every run each assignment names an existing floor, live room or site of the device's own site. |
| `Placement.ErrorsChangeNothing` | api/floor/floor.go:376-415 | An error return of any handler changes nothing, if and only if it is not one of those two cases. |
| `Placement.DeletingMissingFloor` | api/floor/floor.go:376-415 | Deleting a floor that is not there changes nothing if and only if it is level 0 or has no live room. |
| `Placement.DeletingMissingRoom` | api/room/room.go:405-433 | Deleting a room that is not there changes nothing if and only if it holds no device. |
| `Placement.MissingFloorMovesRoom` | api/floor/floor.go:376-415 | A run after which deleting a missing floor moves a room. |
| `Placement.ForeignDeleteEmptiesRoom` | api/room/room.go:405-433 | A run after which a failing delete for another site empties a room. |
| `Placement.SitesIsolated` | api/room/room.go:397-437 | A handler called for one site changes the placements of another if and only if it deletes a room of another site that holds devices, or unassigns a device in one. |
| `Placement.SetLocationIsExact` | api/device/device.go:538-598 | After a successful SetLocation exactly that placement exists. |
| `Placement.SetLocationLeavesOthers` | api/device/device.go:538-598 | Every other device stays where it was. |
| `Placement.OnePlaceUntilAssigned` | api/device/device.go:538-598 | From then on the device is in at most one place until a plain assignment of it, whatever else runs. |
| `Placement.AssignAddsPlace` | api/floor/floor.go:434-466 | Every plain assignment, to a site, floor or room, adds its place and removes none. |
| `Placement.LocationIsPlaced` | api/device/device.go:338-385 | Whichever joined row is read, the location given is one the device has, and none exactly when it has none. |
| `Placement.GetAfterSet` | api/device/device.go:338-385 | Reading right after setting gives the location set. |
| `PlacementRules.SucceedsExactly` | api/device/device.go:517-598 | Over every run, a handler succeeds if and only if its arguments are valid and the device, floor or room it names was created, under an id unused before, and not deleted since. |
| `PlacementRules.DeletedFloorRefused` | api/floor/floor.go:376-415 | Once a floor is deleted, nothing can be assigned or moved to it and it cannot be deleted again, until it is created. |
| `PlacementRules.DoneByRule` | api/floor/floor.go:368-419 | What each handler of a run leaves behind when it succeeds: what is gone, what is there, and that nothing else changed. |
| `PlacementRules.AnsweredByRule` | api/device/device.go:517-560 | A handler of a run refuses invalid arguments first, and succeeds exactly when the rows it needs are there. |
| `PlacementRules.LocatedByRule` | api/device/device.go:367-385 | Whichever joined row is read: a room if there is one, else a floor if there is one, else the site if there is a row, else nowhere. |
| `PlacementTables.Tables.DeleteFloor` | api/floor/floor.go:368-419 | After success the floor and its assignments are gone and no other, its live rooms are on level 0, and nothing else changed; it succeeds exactly when the floor is there. Integrity is kept. |
| `PlacementTables.Tables.DeleteRoom` | api/room/room.go:397-437 | After success the room is deleted, its assignments are gone and nothing else changed; it succeeds exactly for a live room of the site. Integrity is kept. |
| `PlacementTables.Tables.DeleteDevice` | api/device/device.go:423-451 | After success the device is deleted and nothing else changed, its assignments included; it succeeds exactly for a live device of the site. |
| `PlacementTables.Tables.AssignSite` | api/site/site.go:612-635 | Assigns a live device of the site and changes nothing else; fails exactly otherwise. |
| `PlacementTables.Tables.AssignFloor` | api/floor/floor.go:434-466 | Assigns a live device to an existing floor and changes nothing else; fails exactly otherwise. |
| `PlacementTables.Tables.AssignRoom` | api/room/room.go:453-485 | Assigns a live device to a live room of the site and changes nothing else; fails exactly otherwise. |
| `PlacementTables.Tables.UnassignSite` | api/site/site.go:649-668 | Removes one row of the site relation and nothing else. |
| `PlacementTables.Tables.UnassignFloor` | api/floor/floor.go:476-495 | Removes one row of the floor relation and nothing else. |
| `PlacementTables.Tables.UnassignRoom` | api/room/room.go:496-514 | Removes one row of the room relation and nothing else, without looking at the room's site. |
| `PlacementTables.Tables.SetLocation` | api/device/device.go:517-598 | Verifies the target, clears all three relations and inserts: the device is exactly there, or nothing changed. |
| `PlacementTables.Tables.GetLocation` | api/device/device.go:322-388 | Found exactly for a live device of the site. Gives a room it is in, else a floor it is on, else its site, else nothing: a location it has, the only one when there is only one. |
| `ChargerList.KeyInjective` | api/charger/charger.go:518-520 | Different connectors never share a key, for all strings and integers. |
| `ChargerList.FetchConnectors` | api/charger/charger.go:522-562 | The rows of the chargers asked for, in table order. |
| `ChargerList.FetchPower` | api/charger/charger.go:564-605 | The map by key agrees with a lookup by charger and connector. |
| `ChargerList.FetchSessions` | api/charger/charger.go:607-657 | The map by key agrees with a lookup by charger and connector. |
| `ChargerList.Get` | api/charger/charger.go:301-407 | Finds the charger and gives its own connectors in table order, each with the power of its last power row in kW and the session of its last session row, and its totals of today. |
| `ChargerList.List` | api/charger/charger.go:141-212 | The merge through the index gives each charger the very summary `Get` gives it alone, and lists every connector row of the listed chargers in one item, at one place, with its own power and session, and nothing else. |
| `ChargerList.MergeConnectors` | api/charger/charger.go:174-199 | Each item gets its own rows, in table order, whatever rows lie between. |
| `ChargerList.MergeTotals` | api/charger/charger.go:201-209 | Each item gets its own totals, in whatever order the map yields them. |
| `ChargerList.RowsForOne` | api/charger/charger.go:522-562 | One charger's rows among those of many are the rows it gets alone. |
| `ChargerList.SummaryHolds` | api/charger/charger.go:174-199 | A summary holds exactly the charger's own connectors, in order, and its power is their sum. |
| `ChargerList.ItemDescribes` | api/charger/charger.go:564-657 | A connector shows the last power row in kW, 0 without one, and the last session row, an empty tag naming no vehicle. |
| `ChargerList.EachConnectorOnce` | api/charger/charger.go:174-199 | Items that are the chargers' summaries hold each row of the listed chargers exactly once, under its own charger. |
| `TopicIndex.Hub.Join` | pkg/wsredis/wsredis.go:134-145 | Joining keeps the index that of the plain set of joined pairs. |
| `TopicIndex.Hub.Leave` | pkg/wsredis/wsredis.go:147-158 | Leaving does too, and leaves no empty topic set. |
| `TopicIndex.Hub.Deliver` | pkg/wsredis/wsredis.go:96-106 | A message reaches exactly the connections that joined its topic and have not left it since, or, for an empty topic, all whose last event was joining. |
| `TopicIndex.JoinedExactly` | pkg/wsredis/wsredis.go:134-158 | A pair is joined if and only if it was joined and not left since; a connection is present if and only if its last event was joining. |
| `TopicIndex.BroadcastsExactly` | pkg/wsredis/wsredis.go:138-151 | For any joins and leaves, broadcasts reach exactly the joined connections throughout if and only if none leaves a topic while joined to another. |
| `TopicIndex.HandlerBroadcasts` | pkg/wsredis/wsredis.go:110-132 | Used as the connection handler does, a broadcast always reaches exactly the joined connections. |
| `TopicIndex.LeavingOneOfTwoMisses` | pkg/wsredis/wsredis.go:147-151 | Joins and leaves after which a joined connection misses broadcasts. |
| `TopicIndex.AddIndexes` | pkg/wsredis/wsredis.go:134-145 | Adding to the index is adding the pair to the set. |
| `TopicIndex.RemoveIndexes` | pkg/wsredis/wsredis.go:147-158 | Removing from the index is removing the pair from the set. |
| `ChatSteps.ReconstructMessages` | web/app.anertic.com/app/routes/chat.tsx:33-81 | The loop with its held-apart assistant shows, after every row, the fold of the rows. |
| `ChatSteps.CloseRunning` | web/app.anertic.com/app/routes/chat.tsx:63-74 | The backward search closes the most recent running step, if any. |
| `ChatSteps.ReadRow` | web/app.anertic.com/app/routes/chat.tsx:37-77 | One row changes what is shown by that row only, whether the assistant is held apart or not. |
| `ChatSteps.ShownIds` | web/app.anertic.com/app/routes/chat.tsx:37-53 | The messages shown are the user and assistant rows, in order. |
| `ChatSteps.ShownSegment` | web/app.anertic.com/app/routes/chat.tsx:54-77 | An assistant's steps depend on its own segment only. |
| `ChatSteps.ShownExactly` | web/app.anertic.com/app/routes/chat.tsx:33-81 | Every list of rows is leading rows and groups, and shows one message per group, in order, made of its own segment; the leading rows show nothing. |
| `ChatSteps.StepsCalls` | web/app.anertic.com/app/routes/chat.tsx:54-60 | There is one step per call row of the segment, in order. |
| `ChatSteps.Balance` | web/app.anertic.com/app/routes/chat.tsx:61-76 | After a running step, calls exceed results by the running steps behind it. |
| `ChatSteps.RunningAreUnmatched` | web/app.anertic.com/app/routes/chat.tsx:61-76 | A step is still running if and only if its call is an unmatched bracket, each result closing the most recent open call. |
| `ChatSteps.ShownByRule` | web/app.anertic.com/app/routes/chat.tsx:33-81 | Each message shown has the id and the text of its row, and an assistant one step per call of its segment, named after it and running exactly while the call is unmatched. |
| `JsonHighlight.ReadString` | docs/app.js:438-447 | The loop ends where the literal ends, unterminated or not. |
| `JsonHighlight.ReadNumber` | docs/app.js:457-463 | Reads the longest run of number characters. |
| `JsonHighlight.FollowedByColon` | docs/app.js:448-451 | Tells whether a colon follows after blanks. |
| `JsonHighlight.ReadToken` | docs/app.js:430-485 | One token, by its first character: where it ends, the class of its span and the escaped text in it. |
| `JsonHighlight.Highlight` | docs/app.js:425-488 | Terminates on every string; its output is the spans of the tokens one after the other, and the text it shows is the input. |
| `JsonHighlight.Lossless` | docs/app.js:425-488 | The sources of the tokens put together are the input. |
| `JsonHighlight.StringShape` | docs/app.js:438-447 | A string token ends at the first quote no backslash takes, or at the end of the input. |
| `JsonHighlight.TokenByRule` | docs/app.js:430-485 | A string before blanks and a colon is a key and any other a string; numbers, true, false, null and punctuation get their own class; the rest stands bare. |
| `JsonHighlight.HtmlSpelled` | docs/app.js:425-488 | The whole output is spelled token by token by that rule. |
| `JsonHighlight.ShowsInput` | docs/app.js:357-362 | Dropping the tags and reading the entities back gives the input, markup characters included. |
| `Endpoints.GroupByTag` | docs/app.js:568-580 | A stable partition by tag, an empty one meaning "default": each group is all endpoints of its tag in order, the tags follow their first endpoints; throws if and only if a tag is an inherited property name. |
| `Endpoints.PartitionByRule` | docs/app.js:568-580 | In the partition every endpoint is in the group its own tag, or "default", names. |
| `Endpoints.FirstAtIsFirst` | docs/app.js:571-576 | The place of a tag in that order is its first endpoint's. |
| `Endpoints.JoinSplit` | docs/app.js:1664-1666 | Joining the parts of a split gives the text back. |
| `Endpoints.SplitId` | docs/app.js:618 | Splitting an id gives the parts of the tag and the digits. |
| `Endpoints.FindInvertsId` | docs/app.js:1663-1669 | The id of an endpoint finds that endpoint, for every tag, hyphens included. |

## Left out

- HTTP, WebSocket, Redis, MQTT and SQL transport, JSON decoding of payloads and the message-log table: tables are maps, channels are slots, and a payload is seen through what decoding each field gives.
- Saving and reading rows in insertion order, without failures: the query orders by `created_at`, and a failed insert is only logged.
- Two chats running at once on one conversation: their rows would interleave.
- `IsError`, which no column stores: the round trips clear it.
- The LLM providers and the tools: any stream and any outcome is covered, through functions of the whole working list.
- Message ids beyond 64 bits: the counter would wrap after 2^63 calls.
- How a command and its response pair survive a disconnect: a call simply times out.
- The 16-digit rounding of decimal division: values are reals, and the rounding of the power column is modelled.
- `ev_meter_values` rows, `transactionData`, resolving a meter from a phase, and the phase numbers: inserts without logic between them.
- Samples without a unit are covered as the code reads them, Wh for readings and W for the session; they have no pair to be rewritten to.
- The error of a start's transaction, which is never looked at: its outcome is a parameter of the step, a lost row included.
- Statement errors other than a number that does not fit its column.
- Connector states after status notifications, and chargers' own status derivation: not tied to sessions by the code.
- Statements of one response handled between those of another: GetConfiguration and ChangeConfiguration write in several statements (`ocpp/hub.go:254-272` and `306-329`), and each response is one step here.
- Hub runs follow chargers and configurations; the reservation that asking for ReserveNow upserts, and the sessions, are followed in `Charging`. The profile and firmware records that other requests insert are not modelled.
- Redis channels: a published command reaches, at most once each, some of the connections of its charger that are up at that moment, and nobody later. A subscription is taken to end with its connection.
- Hard deletion of chargers, and editing tags one by one: tags change arbitrarily between steps.
- The order of several open sessions or power rows of one connector: `List` and `Get` read the tables in the same order.
- Placement handlers are atomic: a floor or room deleted between check and insert is not modelled. A location of floor or room without its number or id is refused before anything else.
- Access checks of the site handlers: taken as passed.
- Signs and spaces that `parseInt` would accept in an id: ids are built from array indices.
- Pagination: arithmetic on two numbers.
- The SQL aggregates of the insight worker, and all user interface.
