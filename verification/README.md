# A verified model of ptvsd's hard logic

ptvsd is a debug adapter: it sits between an IDE and the debugged processes and speaks the
Debug Adapter Protocol to both. This project models, in Dafny, the parts of it whose
correctness depends on state, interleaving or parsing, and proves what those parts promise.

How it is built:

- Code that runs under a lock is modelled as a **state machine**: one action for each stretch
  between acquiring and releasing the lock, so that a run (`IsRun`) is an arbitrary interleaving
  of all threads. An invariant is proved for every step and every run, and the theorems are
  stated about every state of every run.
- Where the source updates an object in place there is a **class** with the source's fields;
  each method's contract says which step function of the state machine it carries out, so the
  theorems about runs are theorems about these methods.
- Where the source has a **loop** over variables there is a method with that loop, proved equal
  to a specification function about which the theorems speak.
- A **history** module beside each state machine says, over every run and in terms of its actions
  alone, what each part of the state is, without naming the functions that compute it.
- Where a promise does **not** hold of the code, the model keeps the code as it is. A lemma gives
  an input or a run on which it fails, and another says exactly when it holds: over all inputs or
  all runs, except for doubled quotes, where it is exact for lines with one run of quotes.

| File | Part of ptvsd |
|---|---|
| `Channel.dfy`, `ChannelQueue.dfy`, `ChannelTable.dfy`, `ChannelWire.dfy`, `ChannelRuns.dfy`, `ChannelOrder.dfy` | the message channel as a state machine, the parts of its invariant, the theorems |
| `ChannelHistory.dfy`, `ChannelRequests.dfy`, `ChannelThreads.dfy`, `DuplexHistory.dfy` | what was sent, asked, enqueued and awaited, from the actions of a run; what two joined channels bring to each other |
| `JsonMessageChannel.dfy` | the channel's methods, each proved to be a step of that machine |
| `Duplex.dfy` | two channels joined by first-in first-out pipes |
| `Handling.dfy` | how a request handler leads to a response |
| `Framing.dfy`, `PacketText.dfy` | reading and writing framed JSON values on byte streams; what the text of a packet and of its length means |
| `WindowsArguments.dfy`, `WindowsWords.dfy`, `DoubledQuotes.dfy` | Windows quoting, and the parser that splits a command line; blanks and backslashes; that parser and the rule in its comments |
| `SetupArguments.dfy`, `OptionLines.dfy` | pydevd's own command line, and which lines it reads |
| `PatchArguments.dfy`, `PatchedLines.dfy`, `ChildInterpreter.dfy` | rewriting the command line of a child process; which lines stay as they are; what the child's interpreter makes of them |
| `Notifications.dfy`, `NotificationLog.dfy`, `Threads.dfy`, `ThreadHistory.dfy` | pydevd's suspend/resume clock; its table of running threads |
| `Servers.dfy`, `ServerHistory.dfy`, `Sessions.dfy`, `SessionHistory.dfy`, `DeferredEvents.dfy`, `EventHistory.dfy` | the adapter's connections, the end of a session, events held back until the start response |
| `Paths.dfy`, `ConfiguredPaths.dfy`, `SourceReferences.dfy` | client/server path translation; from the configured pairs to files and names; source references |
| `Options.dfy`, `Sequences.dfy`, `Histories.dfy` | shared definitions |

What the proofs found that the code's own comments or documentation do not say:

- Sequence numbers on the wire need not increase. They do exactly if no message overtakes one
  whose number was taken before (`ChannelOrder.IncreasingIff`).
- At the end of the input inside a header line, `read_json` neither returns nor raises
  (`Framing.NeverReturnsIff`, for whatever bytes a peer sends).
- A handler that catches what `respond()` raised and goes on gets two responses sent exactly if the
  first frame was out before the error (`Handling.TwoResponsesIff`, `Handling.MayRespondTwice`).
- Of a command line, `quote_arg_win32` followed by `str_to_args_windows` loses a backslash at the
  end of an unquoted last argument, and doubles backslashes before a final newline
  (`WindowsArguments.QuoteThenSplit` says these are the only cases). A doubled quote inside
  quotes also ends the quoted part, against the rule in the comment there
  (`DoubledQuotes.OneRunAgreesIff`).
- With an interpreter-level `-c` and no port, the rewritten command line has lost the interpreter
  (`PatchArguments.StartsWithInterpreter`). The loop that looks for an archive skips the values of
  flags and the loop that rewrites does not (`PatchArguments.TwoReadings`). So with `-W ignore a.py`
  the interpreter takes the debugger for the value of `-W`, and with `-mmod -v` the module loses its
  flag; a child of a debugger that was itself told `--module` runs its script as a module.
  `ChildInterpreter.RunsTheSameIff` says exactly which children run what they should.
- A thread may be reported killed before it is reported created, since both messages are sent after
  the lock is released (`Threads.MessagesMayCross`, `Threads.CrossedIff`, `Threads.CanCrossIff`).
- The client may have been told last that the program goes on while threads are suspended
  (`Notifications.ToldEarlyIff`).
- A session may attach to a debug server that has disconnected and never be told of it. Checking
  the `disconnected` flag when attaching would not suffice (`Servers.LossIsNoticed`,
  `Servers.AttachedTooLate`, `Servers.ToldTheWrongServer`).
- The timer of a wait can take a session out of the set of sessions while its debug server is
  still connected (`Sessions.LeavesWithTheLast`, `Sessions.LeftTooEarly`).
- For a Windows client, a file of a Unix server whose name has a backslash does not come back from
  translation; nor does one whose client name an earlier mapping claims
  (`Paths.FileComesBackIff`). Nor does a client's name whose server name an earlier mapping claims
  (`Paths.NameComesBackIff`).

## Model

| member | source | states |
|---|---|---|
| ChannelRuns.RunInv | src/ptvsd/common/messaging.py:1135-1541 | the whole invariant of the channel (handler queue, request table, callbacks, waiters, wire, histories) holds in every state of every interleaving of the parser thread, handler threads and client threads |
| ChannelRuns.HandedOutOnceInOrder | src/ptvsd/common/messaging.py:1431-1506 | what was handed to handlers, the rest of the current snapshot and the queue make up the enqueue log in order; at most one handler thread is live, and one is while entries wait |
| ChannelRuns.QuitsOnlyWhenDone | src/ptvsd/common/messaging.py:1465-1488 | a handler thread quits only with the channel closed, the parser thread done and everything enqueued handed out |
| ChannelRuns.NoLostWakeup | src/ptvsd/common/messaging.py:1442-1476 | once the message loop has ended, a handler thread that waits has been notified |
| ChannelRuns.ArrivalsEnqueuedOnce | src/ptvsd/common/messaging.py:602-608 | every event and request that was parsed is in the enqueue log exactly once, and they are there in order of arrival |
| ChannelRuns.DisconnectIsLast | src/ptvsd/common/messaging.py:999-1005 | at most one Disconnect is enqueued, by the end of the message loop, and only response handlers follow it |
| ChannelRuns.HandlersRunOnce | src/ptvsd/common/messaging.py:828-879 | the callbacks given to on_response are enqueued exactly once and in order, none before the response is set, and a set response leaves none pending |
| ChannelRuns.NobodyWaitsForever | src/ptvsd/common/messaging.py:1343-1368 | after the disconnect section every request whose send_request returned has a response, set exactly once, and each wait_for_response caller has been notified |
| ChannelRuns.ResponsesAreFinal | src/ptvsd/common/messaging.py:972-989 | a response never changes once set, and none is set after the parser thread is done |
| ChannelRuns.ClosedSendsFail | src/ptvsd/common/messaging.py:299-302 | once closed, the channel stays closed and silent, and every later send_request raises |
| ChannelRuns.WireNumbersUnique | src/ptvsd/common/messaging.py:1259-1261 | no two messages on the wire have the same sequence number |
| ChannelOrder.IncreasingIff | src/ptvsd/common/messaging.py:1259-1268 | in every state of every run the numbers on the wire increase exactly if no message that went out overtook one whose smaller number was already taken and that is on the wire by now |
| ChannelOrder.OneAtATimeIncreases | src/ptvsd/common/messaging.py:1139-1144 | if each number is written, or has failed to be, before the next is taken, as for senders that hold the channel, the numbers on the wire increase |
| ChannelOrder.WireNumbersMayDecrease | src/ptvsd/common/messaging.py:1259-1268 | they need not: a run in which the second of two events goes out first |
| ChannelHistory.WireIsGiven | src/ptvsd/common/messaging.py:1244-1303 | in every state of every run a message on the wire is exactly what was given to be sent under its number: the arguments of a request, the body of an event, the body of a response and the request it was given for; numbers count from 1 |
| ChannelHistory.WriteSendsGiven | src/ptvsd/common/messaging.py:1259-1268 | a write on an open channel that does not fail before the frame is out sends the message given under its number, and nothing else is ever sent |
| ChannelHistory.DraftIff | src/ptvsd/common/messaging.py:1259-1268 | a number waits to be written exactly if a message was given under it and no write of it has come |
| ChannelHistory.ClosedIff | src/ptvsd/common/messaging.py:1174-1195 | a channel is closed exactly if close was called or the disconnect section has run |
| ChannelRequests.KnownIff | src/ptvsd/common/messaging.py:1283-1292 | a request is in the table exactly once it was written |
| ChannelRequests.ReturnedIff | src/ptvsd/common/messaging.py:1283-1292 | send_request returned exactly if the request was written, without an error, on an open channel |
| ChannelRequests.RegisteredAreGiven | src/ptvsd/common/messaging.py:828-848 | the callbacks of a request are those given when it was sent and then those given to on_response, in order |
| ChannelRequests.ReplyIff | src/ptvsd/common/messaging.py:955-992 | a request has a body as its response exactly if a response with that body was read for it and recorded, and NoMoreMessages exactly if it was pending when the message loop ended |
| ChannelRequests.PendingIs | src/ptvsd/common/messaging.py:972-981 | the pending requests are those written and not answered since, oldest first |
| ChannelRequests.DisconnectEnqueues | src/ptvsd/common/messaging.py:1345-1368 | at the end of the message loop every pending request is answered, oldest first, with its callbacks, and then the disconnect is reported |
| ChannelThreads.ReceivedIsRead | src/ptvsd/common/messaging.py:1337-1345 | what was received is what the parser thread has read, in order |
| ChannelThreads.ParserIs | src/ptvsd/common/messaging.py:955-992 | between the two parts of a response the parser holds the response it read last, known or unknown; it is done once the message loop ended |
| ChannelThreads.LogIs | src/ptvsd/common/messaging.py:1431-1458 | the handler queue got exactly what the actions enqueue, in order: events and requests when they are read, callbacks with the response that is recorded, made up or already set, responses to nothing, and the disconnect |
| ChannelThreads.QuitsIff | src/ptvsd/common/messaging.py:1473-1489 | a handler thread that comes to the queue takes all of it; if it is empty the thread quits exactly if it saw the channel closed when it last looked, and waits otherwise |
| ChannelThreads.HandsOutNext | src/ptvsd/common/messaging.py:1476-1506 | a woken thread takes the queue as it is, each hand-out is of the next entry taken, and after the last the thread looks again |
| ChannelThreads.WaitingIff | src/ptvsd/common/messaging.py:821-826 | a thread waits for a response exactly if it began to when that was not set and has not looked since when it was |
| ChannelThreads.NotifiedIff | src/ptvsd/common/messaging.py:1442-1458 | a waiting thread is notified whenever something is enqueued, and not otherwise |
| ChannelThreads.ParserNeverStuck | src/ptvsd/common/messaging.py:1337-1368 | in every reachable state the parser can read any message, meet the end of the input, or finish with the response it holds, until it is done |
| ChannelThreads.HandlersNeverStuck | src/ptvsd/common/messaging.py:1460-1506 | a handler thread can always go on, except that it waits until notified and, once it saw the channel closed, for the parser to be done |
| ChannelThreads.CallersNeverStuck | src/ptvsd/common/messaging.py:1244-1303 | callers can always send, write what they began, close, register callbacks and wait for requests they sent; a handler that was given a request can respond |
| MessageChannel.JsonMessageChannel.TakeSequenceNumber | src/ptvsd/common/messaging.py:1259-1261 | taking a number is the step that begins a message |
| MessageChannel.JsonMessageChannel.WriteJson | src/ptvsd/common/messaging.py:299-336 | a closed channel refuses the message and nothing goes out; otherwise the whole message goes out or the write raises, as the stream does; what goes out is in ChannelHistory.WriteSendsGiven |
| MessageChannel.JsonMessageChannel.SendRequest | src/ptvsd/common/messaging.py:1266-1292 | the request enters the table before it is written and stays there when writing raises, which is when the caller gets no request |
| MessageChannel.JsonMessageChannel.EnqueueHandlers | src/ptvsd/common/messaging.py:1431-1458 | appends to queue and log, notifies everyone who waits, and starts a handler thread only if there is none |
| MessageChannel.JsonMessageChannel.SnapshotHandlers | src/ptvsd/common/messaging.py:1473-1489 | waits, or takes the whole queue, or quits; it quits exactly when the channel was seen closed and the queue is empty |
| MessageChannel.JsonMessageChannel.SeeWhetherClosed | src/ptvsd/common/messaging.py:1465-1467 | a handler thread remembers whether the channel was closed when it looked |
| MessageChannel.JsonMessageChannel.WakeUp | src/ptvsd/common/messaging.py:1476-1480 | a handler thread that was notified takes the whole queue, without looking at the channel again |
| MessageChannel.JsonMessageChannel.HandOutAll | src/ptvsd/common/messaging.py:1491-1506 | the loop hands each entry of the snapshot to its handler, once and in order |
| MessageChannel.JsonMessageChannel.ParseEvent | src/ptvsd/common/messaging.py:602-608 | a parsed event is enqueued in the step that reads it |
| MessageChannel.JsonMessageChannel.ParseRequest | src/ptvsd/common/messaging.py:732-738 | likewise a request |
| MessageChannel.JsonMessageChannel.ParseResponse | src/ptvsd/common/messaging.py:955-981 | a parsed response takes its request out of the table, if it is there |
| MessageChannel.JsonMessageChannel.RecordResponse | src/ptvsd/common/messaging.py:987-992 | the response is set and its callbacks are enqueued in one step |
| MessageChannel.JsonMessageChannel.ReportUnknownResponse | src/ptvsd/common/messaging.py:977-996 | a response to no known request changes no request; what it enqueues has no callbacks |
| MessageChannel.JsonMessageChannel.WaitForResponse | src/ptvsd/common/messaging.py:821-826 | the caller waits exactly if there is no response yet |
| MessageChannel.JsonMessageChannel.LookAgain | src/ptvsd/common/messaging.py:821-826 | once notified, it returns exactly if there is a response, and else waits again |
| MessageChannel.JsonMessageChannel.EnqueueResponseHandlers | src/ptvsd/common/messaging.py:850-879 | without a response nothing happens; with one, all pending callbacks are enqueued together and none stays pending |
| MessageChannel.JsonMessageChannel.OnResponse | src/ptvsd/common/messaging.py:846-848 | registering a callback is the Register step, before and after the response is set |
| MessageChannel.JsonMessageChannel.PopRequest | src/ptvsd/common/messaging.py:972-981 | removes the one entry of the table with that number, or reports that there is none |
| MessageChannel.JsonMessageChannel.SetResponse | src/ptvsd/common/messaging.py:987-989 | setting the response and enqueueing the callbacks that wait for it is one step |
| MessageChannel.JsonMessageChannel.SynthesizeResponse | src/ptvsd/common/messaging.py:1354-1364 | a made-up response takes the request out of the table and sets its response to NoMoreMessages |
| MessageChannel.JsonMessageChannel.SynthesizeResponses | src/ptvsd/common/messaging.py:1349-1364 | the loop answers every request of the snapshot with NoMoreMessages |
| MessageChannel.JsonMessageChannel.EndMessageLoop | src/ptvsd/common/messaging.py:1367-1368 | Disconnect is enqueued and the channel is closed |
| MessageChannel.JsonMessageChannel.Disconnect | src/ptvsd/common/messaging.py:1345-1368 | the whole disconnect section is the one step LoseConnection: all pending requests answered, Disconnect enqueued, channel closed |
| Duplex.DuplexInv | src/ptvsd/common/messaging.py:1135-1541 | two channels joined by FIFO pipes: both invariants hold, nothing is lost, duplicated or reordered between them, and every response that arrived has found its request |
| Duplex.InExactlyOnePlace | src/ptvsd/common/messaging.py:1270-1292 | each request whose send_request returned is in exactly one place: in the pipe, queued at the peer, with its handler, its response in the pipe back, or its response arrived |
| Duplex.BodyIsTheOneGiven | src/ptvsd/common/messaging.py:955-996 | a response that was not made up carries exactly the body that the peer gave when it responded to that very request, whatever the interleaving and the order of responses |
| Duplex.ArrivedIsRecorded | src/ptvsd/common/messaging.py:972-989 | a response that arrived is recorded in its request, or the parser holds it and is about to |
| Duplex.SidesAreAlike | src/ptvsd/common/messaging.py:1135-1541 | swapping the sides of a run gives a run, so the theorems hold for the requests of both sides |
| DuplexHistory.ReceivedIsGiven | src/ptvsd/common/messaging.py:1244-1303 | whatever one side has received is exactly what the other was given to send under that number |
| DuplexHistory.AnsweredAsGiven | src/ptvsd/common/messaging.py:955-996 | a request answered with a body was begun under its number with some arguments; exactly that request reached the other side, and there a handler, given it, responded with exactly that body |
| Handling.ExactlyOneResponse | src/ptvsd/common/messaging.py:740-785 | handling ends without an error exactly for the handlers whose respond() calls all raise and are caught, but for the first that the stream takes while the channel is open, and that then return nothing, the same body or the same error, or without that one return NO_RESPONSE, or a body or an applicable error that the stream takes or the closed channel drops; then exactly one response with the expected body is sent, none with NO_RESPONSE or if the handler closed the channel first, besides the frames that were out when respond() raised |
| Handling.RespondedLater | src/ptvsd/common/messaging.py:757-763 | after NO_RESPONSE on a channel that stays open one later respond() sends the response, and a second one raises and sends nothing |
| Handling.NeverTwoResponses | src/ptvsd/common/messaging.py:707-730 | a handler that does not go on after a respond() that raised with its frame out gets at most one response sent, closing included |
| Handling.TwoResponsesIff | src/ptvsd/common/messaging.py:707-730 | whatever the handler and the stream do, two responses are sent exactly if a respond() raised with its frame out, the handler caught that and went on, and a later respond(), or that of _handle, put a frame out while none had returned |
| Handling.MayRespondTwice | src/ptvsd/common/messaging.py:707-785 | this happens: the handler catches the error of its respond() and returns a body |
| Handling.ClosedChannel | src/ptvsd/common/messaging.py:776-785 | on a closed channel nothing is sent, and handling ends without an error exactly if the handler catches what each of its respond() calls raises and its result is valid |
| Handling.IncomingRequest.Respond | src/ptvsd/common/messaging.py:707-730 | responds once; raises if a response is set, the channel is closed, or the stream raises, and then sets no response even if the frame is out |
| Handling.IncomingRequest.RunHandler | src/ptvsd/common/messaging.py:743-746 | the handler's calls take effect in order, up to the first that raises and is not caught |
| Handling.IncomingRequest.HandleRequest | src/ptvsd/common/messaging.py:740-792 | _handle carries out the specified handling for every handler |
| Framing.RoundTrip | src/ptvsd/common/messaging.py:201-334 | repeated read_json of what repeated write_json sent returns exactly those values and then NoMoreMessages |
| Framing.ReadCutStream | src/ptvsd/common/messaging.py:188-290 | of a stream cut anywhere, exactly the values with complete frames are read and never a partial one; then NoMoreMessages, or, if the input ends inside a header line, the reading never ends |
| Framing.NeverReturnsIff | src/ptvsd/common/messaging.py:188-247 | for every byte string: reading never returns exactly if the input ends without an error behind a header line that was begun, that is, there are bytes, none of their lines is empty, and the last does not end in CR LF |
| Framing.ParseCutFrame | src/ptvsd/common/messaging.py:188-275 | a frame cut anywhere gives no value: NoMoreMessages, or the loop that does not end |
| Framing.ExtraHeadersChangeNothing | src/ptvsd/common/messaging.py:229-257 | further header lines before and after Content-Length change nothing |
| Framing.TooLongIsRefused | src/ptvsd/common/messaging.py:250-257 | a body over 0xFFFFFF bytes is refused by the reader although the writer sends it |
| Framing.ParseIntDecimal | src/ptvsd/common/messaging.py:251 | int() of the decimal text that the writer puts behind Content-Length is the length |
| PacketText.PacketIs | src/ptvsd/common/messaging.py:229-290 | for any header lines and anything behind the empty line: the last Content-Length counts; without one, or if it is no number from 0 to 0xFFFFFF, reading fails; if less follows the messages are over; else exactly so much is decoded, or reading fails |
| PacketText.IsPacket | src/ptvsd/common/messaging.py:229-247 | every input with an empty line is header lines, the first empty line and the rest |
| PacketText.IntIff | src/ptvsd/common/messaging.py:250-253 | int() gives a number exactly for spaces, an optional sign, digits with single underscores between them, and spaces; and it is the number in base ten |
| Framing.JsonIOStream.ReadLine | src/ptvsd/common/messaging.py:188-199 | for any chunks from the reader, the line up to the first CR LF, and the rest is left unread |
| Framing.JsonIOStream.ReadHeaders | src/ptvsd/common/messaging.py:229-247 | the loop over the header lines gives the specified headers, the last value of a repeated key |
| Framing.JsonIOStream.ReadBody | src/ptvsd/common/messaging.py:259-277 | exactly the asked number of bytes, however they come, or nothing if there are fewer |
| Framing.JsonIOStream.ReadJson | src/ptvsd/common/messaging.py:201-290 | for any chunks from the reader, the specified value or error, and the rest is left unread |
| Framing.JsonIOStream.WriteJson | src/ptvsd/common/messaging.py:292-336 | for any partial writes, the whole frame when it returns, a prefix of the frame when it raises, nothing when the stream is closed |
| Framing.JsonIOStream.WriteAll | src/ptvsd/common/messaging.py:319-334 | the loop sends all bytes in order, however many each write takes, or a prefix if one raises |
| WindowsArguments.QuoteThenSplit | src/ptvsd/_vendored/pydevd/_pydev_bundle/pydev_monkey.py:171-201 | splitting the joined quoted arguments gives them back exactly if none has a backslash just before a final newline and the last is not an unquoted one ending in a backslash |
| WindowsArguments.SplitCommandLine | src/ptvsd/_vendored/pydevd/_pydev_bundle/pydev_monkey.py:171-201 | for every list of arguments, what comes back, argument by argument |
| WindowsArguments.LastBackslashIsLost | src/ptvsd/_vendored/pydevd/_pydev_bundle/pydev_monkey.py:404-407 | a last argument that is a single backslash disappears: pending backslashes are not flushed at the end |
| WindowsArguments.BackslashBeforeNewlineIsDoubled | src/ptvsd/_vendored/pydevd/_pydev_bundle/pydev_monkey.py:200 | backslashes before a final newline come back doubled |
| WindowsWords.BlanksChangeNothing | src/ptvsd/_vendored/pydevd/_pydev_bundle/pydev_monkey.py:345-402 | however many blanks and tabs stand before, between and behind quoted arguments, the same arguments come back |
| WindowsWords.LastWithoutBlank | src/ptvsd/_vendored/pydevd/_pydev_bundle/pydev_monkey.py:345-407 | and with nothing behind the last one, which loses backslashes at its end if it is unquoted |
| WindowsWords.UnitIs | src/ptvsd/_vendored/pydevd/_pydev_bundle/pydev_monkey.py:345-402 | in every state: 2n backslashes before a quote are n and the quote opens or closes, 2n + 1 are n and a quote, n before anything else are n, and a blank outside quotes ends an argument |
| WindowsWords.QuotedIff | src/ptvsd/_vendored/pydevd/_pydev_bundle/pydev_monkey.py:171-201 | an argument is passed on as it is exactly if it is not empty and has no blank, quote, tab, newline or vertical tab |
| WindowsWords.JoinedByBlanks | src/ptvsd/_vendored/pydevd/_pydev_bundle/pydev_monkey.py:204-208 | quoted arguments are joined by one blank each |
| DoubledQuotes.AgreesWithoutDoubled | src/ptvsd/_vendored/pydevd/_pydev_bundle/pydev_monkey.py:388-398 | the code splits as the comment says on every line where no quote read inside quotes is directly followed by a quote |
| DoubledQuotes.OneRunAgreesIff | src/ptvsd/_vendored/pydevd/_pydev_bundle/pydev_monkey.py:388-398 | on every line with one run of two or more quotes inside quotes, and none side by side behind it, the code splits as the comment says exactly if there are two and no blank follows |
| WindowsArguments.DoubledQuoteEndsQuoting | src/ptvsd/_vendored/pydevd/_pydev_bundle/pydev_monkey.py:388-398 | what the code makes of such a line with a blank: two arguments, because the added 1 is lost |
| WindowsArguments.StrToArgsWindows | src/ptvsd/_vendored/pydevd/_pydev_bundle/pydev_monkey.py:327-407 | the loop with its state, backslash counter and buffer computes the specified list |
| SetupArguments.ReadsBack | src/ptvsd/_vendored/pydevd/_pydevd_bundle/pydevd_command_line_handling.py:92-159 | process_command_line reads back the options that setup_to_argv wrote, with --module if it was put before them, and leaves the program's arguments; without a program it fails; Qt support and tracing are not written |
| SetupArguments.SetupToArgv | src/ptvsd/_vendored/pydevd/_pydevd_bundle/pydevd_command_line_handling.py:92-104 | the loop writes the options that are set, in the order of the handlers |
| SetupArguments.ProcessCommandLine | src/ptvsd/_vendored/pydevd/_pydevd_bundle/pydevd_command_line_handling.py:107-159 | the loop that shortens the list reads the specified options, numbers, Qt mode, file and arguments, or fails |
| OptionLines.ReadIff | src/ptvsd/_vendored/pydevd/_pydevd_bundle/pydevd_command_line_handling.py:107-159 | a line is read exactly if it is made of accepted options with valid values, --qt-support, --DEBUG, and then ends or goes on with --file and a program |
| OptionLines.ReadIs | src/ptvsd/_vendored/pydevd/_pydevd_bundle/pydevd_command_line_handling.py:107-159 | and then each of them has its effect, in order, and what stands behind --file is left |
| PatchArguments.PatchingTwice | src/ptvsd/_vendored/pydevd/_pydev_bundle/pydev_monkey.py:230-321 | unless a -c belongs to the interpreter, patching an already patched command line changes nothing |
| PatchedLines.LeftAloneIff | src/ptvsd/_vendored/pydevd/_pydev_bundle/pydev_monkey.py:230-324 | patch_args returns the line as it was exactly if it is empty, runs no Python, names an archive without a -c of its own, has nothing to rewrite (no arguments, or the debugger already), or has code behind its own -c that stays the same or is missing |
| PatchedLines.RewrittenLineIs | src/ptvsd/_vendored/pydevd/_pydev_bundle/pydev_monkey.py:270-318 | a rewritten line is the interpreter, its flags without -m and -mname, the debugger's line, with one --module for each of those, up to the first --file, the name in the last -mname, and all from the first argument that is no flag on |
| PatchArguments.ChildReads | src/ptvsd/_vendored/pydevd/_pydev_bundle/pydev_monkey.py:270-318 | the rewritten line: path and flags before the first argument that is no flag, in order but without -m; the debugger's path; and behind it what the debugger reads back as its own options and, unchanged, everything from that argument on; as a module exactly if -m was given or its options say so, and failing if there is nothing |
| ChildInterpreter.DebuggerIsRun | src/ptvsd/_vendored/pydevd/_pydev_bundle/pydev_monkey.py:282-318 | the interpreter, with its own reading of flags and their values, runs the debugger exactly if none of the flags that it keeps ends its options and the last one does not take the debugger for its value |
| ChildInterpreter.RunsTheSameIff | src/ptvsd/_vendored/pydevd/_pydev_bundle/pydev_monkey.py:251-318 | the interpreter keeps its options and the debugger runs the very program, arguments and kind that the interpreter would have run, exactly if: -m or -mname comes last among the flags or not at all, the interpreter gets to what is behind them, there is a program, and a debugger told --module has a module to run |
| ChildInterpreter.ValueIsTakenForProgram | src/ptvsd/_vendored/pydevd/_pydev_bundle/pydev_monkey.py:284-298 | for every line like python -W ignore a.py: the value is given to the debugger as the program, and the interpreter takes the debugger for the value |
| ChildInterpreter.ModuleLosesFlag | src/ptvsd/_vendored/pydevd/_pydev_bundle/pydev_monkey.py:287-298 | for every line like python -mmod -v: the module's flag becomes the interpreter's, and the debugger does not pass it on |
| PatchArguments.CodeIsWrapped | src/ptvsd/_vendored/pydevd/_pydev_bundle/pydev_monkey.py:241-249 | with an interpreter-level -c and a port, only the code is replaced |
| PatchArguments.StartsWithInterpreter | src/ptvsd/_vendored/pydevd/_pydev_bundle/pydev_monkey.py:241-318 | for all arguments: the result starts with the interpreter exactly if it is not a rewritten line with an interpreter-level -c and no port, or what stands behind the interpreter happens to be the same |
| PatchArguments.InterpreterIsLost | src/ptvsd/_vendored/pydevd/_pydev_bundle/pydev_monkey.py:241-268 | in that case the interpreter is all that is lost |
| PatchArguments.TwoReadings | src/ptvsd/_vendored/pydevd/_pydev_bundle/pydev_monkey.py:251-301 | the two loops over the flags agree on where the program is exactly if an even number of flags that take a value come right before the first argument that is not a flag, or there is none |
| PatchArguments.GetCOptionIndex | src/ptvsd/_vendored/pydevd/_pydev_bundle/pydev_monkey.py:211-227 | the first -c, if only flags come between it and the interpreter, else -1 |
| PatchArguments.FindArchive | src/ptvsd/_vendored/pydevd/_pydev_bundle/pydev_monkey.py:251-267 | the loop finds whether the first argument that is neither a flag nor the value of one names an archive |
| PatchArguments.TakeFlags | src/ptvsd/_vendored/pydevd/_pydev_bundle/pydev_monkey.py:282-300 | the loop over the interpreter's flags keeps all but -m and -mname, adds --module for each of those, and remembers the last name |
| PatchArguments.Rewrite | src/ptvsd/_vendored/pydevd/_pydev_bundle/pydev_monkey.py:270-318 | what follows the archive check puts the flags, the debugger and the program together, or returns a line that runs the debugger already |
| PatchArguments.PatchArgs | src/ptvsd/_vendored/pydevd/_pydev_bundle/pydev_monkey.py:230-324 | patch_args computes the specified command line, and returns its argument where the source catches an exception |
| Notifications.ClockIsOrdered | src/ptvsd/_vendored/pydevd/pydevd.py:282-344 | at every step: last resume <= last suspend <= requested time |
| Notifications.NotificationsAreOrdered | src/ptvsd/_vendored/pydevd/pydevd.py:311-344 | suspend notifications carry strictly increasing times, so do resume notifications, each repeats the time of an earlier suspend, and no prefix has more resumes than suspends; the delayed pause check included |
| Notifications.NotLeftPaused | src/ptvsd/_vendored/pydevd/pydevd.py:336-344 | whenever no thread is suspended, the last notification sent was a resume, of the last suspend |
| Notifications.ToldEarlyIff | src/ptvsd/_vendored/pydevd/pydevd.py:311-344 | in every state of every run, also with threads suspended: the last notification is a resume exactly if a thread went on that told so, and since then no stop and no pause check was later than the last suspend notification |
| Notifications.MayBeToldEarly | src/ptvsd/_vendored/pydevd/pydevd.py:336-344 | this happens: a run with a suspended thread whose last notification is a resume |
| Notifications.CallbacksRunOnceInOrder | src/ptvsd/_vendored/pydevd/pydevd.py:359-374 | every resumed-callback runs exactly once, in order of registration, for the first resume notification that collects callbacks after it was added |
| NotificationLog.LogIsTold | src/ptvsd/_vendored/pydevd/pydevd.py:282-344 | in every state of every run the suspend time, the pending pause, the threads that stand and the whole log of notifications are what the actions determine: a stop is told if it is later than all told before, and that the program goes on when a thread does and the last told was a stop |
| NotificationLog.FirstStopIsTold | src/ptvsd/_vendored/pydevd/pydevd.py:298-334 | after a new suspend time the first action that is to tell of a stop at that time does so, with a time later than every time in the log |
| NotificationLog.OneCheckEach | src/ptvsd/_vendored/pydevd/pydevd.py:302-318 | there is one delayed check for each pause request, with the suspend time of that moment |
| NotificationLog.RegisteredIsGiven | src/ptvsd/_vendored/pydevd/pydevd.py:359-374 | the callbacks registered are those of the actions, numbered by the collections before them |
| NotificationLog.PossibleIff | src/ptvsd/_vendored/pydevd/pydevd.py:298-344 | a thread can stop exactly if it does not stand and go on exactly if it does; a delayed check can run exactly if one is due, for a thread that stands if any does |
| Notifications.ThreadsSuspendedSingleNotification.OnPause | src/ptvsd/_vendored/pydevd/pydevd.py:302-309 | a pause request records the current time for its delayed check |
| Notifications.ThreadsSuspendedSingleNotification.IncrementSuspendTime | src/ptvsd/_vendored/pydevd/pydevd.py:298-300 | the step that takes a new suspend time; that it counts is in NotificationLog.LogIsTold |
| Notifications.ThreadsSuspendedSingleNotification.AddOnResumedCallback | src/ptvsd/_vendored/pydevd/pydevd.py:359-361 | a callback joins the end of those waiting |
| Notifications.ThreadsSuspendedSingleNotification.NotifyAfterTimeout | src/ptvsd/_vendored/pydevd/pydevd.py:311-318 | the delayed check notifies for some suspended thread if its time is newer than the last notification |
| Notifications.ThreadsSuspendedSingleNotification.EnterSuspended | src/ptvsd/_vendored/pydevd/pydevd.py:320-334 | a thread that stops is the Suspend step |
| Notifications.ThreadsSuspendedSingleNotification.ExitSuspended | src/ptvsd/_vendored/pydevd/pydevd.py:336-344 | a thread that goes on is the Resume step followed by all callbacks, before the lock is released |
| Notifications.ThreadsSuspendedSingleNotification.RunResumedCallbacks | src/ptvsd/_vendored/pydevd/pydevd.py:364-374 | collects the callbacks at once and runs each of them once, in order |
| Threads.AnnouncedOnceKilledOnce | src/ptvsd/_vendored/pydevd/pydevd.py:1354-1407 | within an enable period a thread is announced at most once; over a run it is killed at most once, after it was announced in that period, and never announced after that; each decision leads to one message |
| Threads.KilledGoesLastIff | src/ptvsd/_vendored/pydevd/pydevd.py:1354-1397 | in every reachable state: Killed(t) goes out behind every Created(t) that was decided exactly if no Created(t) is still to be sent in the step that puts it on the wire |
| Threads.CrossedIff | src/ptvsd/_vendored/pydevd/pydevd.py:1354-1397 | in every run, once Killed(t) is out: a Created(t) comes behind it exactly if one that was then still to be sent has been sent since |
| Threads.MessagesMayCross | src/ptvsd/_vendored/pydevd/pydevd.py:1354-1397 | this happens: a run in which a thread is reported killed before it is reported created |
| Threads.PromptNeverCrosses | src/ptvsd/_vendored/pydevd/pydevd.py:1354-1397 | a thread is never reported killed before created if no announcement of it is still to be sent whenever its end is decided |
| Threads.CanCrossIff | src/ptvsd/_vendored/pydevd/pydevd.py:1354-1397 | at the step that decides that a thread was killed: the run can go on so that the two messages cross exactly if its announcement is still to be sent |
| Threads.PromptIsInOrder | src/ptvsd/_vendored/pydevd/pydevd.py:1354-1397 | if every message is sent before the next decision, the wire has the order of the decisions |
| ThreadHistory.SwitchesAre | src/ptvsd/_vendored/pydevd/pydevd.py:1399-1407 | there is a writer once it was started, notifications are on exactly if they were turned on and not off since, and periods count how often they came on |
| ThreadHistory.DecidedIff | src/ptvsd/_vendored/pydevd/pydevd.py:1354-1397 | a creation is decided exactly with a writer and notifications on, if no thread with that id is known and the thread was never reported killed; a kill exactly for a known thread; and the table has exactly the known threads |
| ThreadHistory.SentAtOnceOrLater | src/ptvsd/_vendored/pydevd/pydevd.py:1354-1397 | what is decided is sent at once or left to be sent, as the caller asks, and nothing else is sent |
| Threads.TableIsReconciled | src/ptvsd/_vendored/pydevd/pydevd.py:1420-1455 | after a pass with a writer and notifications on, the table holds exactly the live program threads not marked killed |
| ThreadHistory.ReconciledIff | src/ptvsd/_vendored/pydevd/pydevd.py:1420-1455 | after a pass a thread is in the table exactly if it is alive, no daemon, none of the debugger's and not marked killed |
| Threads.NothingIsReconciled | src/ptvsd/_vendored/pydevd/pydevd.py:1354-1397 | without a writer, or with notifications off, a pass changes nothing |
| Threads.PyDB.NotifyThreadCreated | src/ptvsd/_vendored/pydevd/pydevd.py:1354-1377 | the Create step, with the message sent at once or left to be sent after the lock |
| Threads.PyDB.NotifyThreadNotAlive | src/ptvsd/_vendored/pydevd/pydevd.py:1379-1397 | the Kill step, likewise |
| Threads.PyDB.SetEnableThreadNotifications | src/ptvsd/_vendored/pydevd/pydevd.py:1399-1407 | turning notifications on clears the table and starts a new period |
| Threads.PyDB.ReconcileThreads | src/ptvsd/_vendored/pydevd/pydevd.py:1420-1455 | the pass announces the live program threads and drops exactly the ids of the table that none of them has |
| Threads.PyDB.DropDead | src/ptvsd/_vendored/pydevd/pydevd.py:1448-1455 | exactly the ids of the table that no live thread has are killed |
| Servers.ListHoldsTheConnected | src/ptvsd/adapter/servers.py:105-118 | the list holds exactly the connections that were registered and have not disconnected, oldest first; none is marked disconnected, and their pids differ |
| Servers.RemovalNeverMisses | src/ptvsd/adapter/servers.py:170-181 | when a disconnect reaches a Server, its connection is in the list, so removing it never raises |
| Servers.OneServerEach | src/ptvsd/adapter/servers.py:183-250 | no session has two Servers, no connection has two that are attached, and a connection's messages go to the one that is |
| Servers.LossIsNoticed | src/ptvsd/adapter/servers.py:170-192 | a Server that is attached when its connection disconnects is told exactly if, when it attached, the connection was in the list and the disconnect handler of another Server had not been looked up |
| Servers.AttachedTooLate | src/ptvsd/adapter/servers.py:183-192 | a run in which a session attaches to a connection that has disconnected since it was looked up, and is never told |
| Servers.ToldTheWrongServer | src/ptvsd/adapter/servers.py:332-343 | a run in which the disconnect handler of a detached Server runs and the one attached now is not told |
| Servers.LogGrows | src/ptvsd/adapter/servers.py:117 | the order of registration only grows at its end |
| ServerHistory.ConnectionsAre | src/ptvsd/adapter/servers.py:85-118 | over every run: connections are the accepted ones with their pids, settled once they came to be registered, marked as disconnected once their own handler ran; the handler that was looked up is that of whoever handled the messages then |
| ServerHistory.RegisteredAre | src/ptvsd/adapter/servers.py:104-118 | registered are exactly the connections that had not disconnected when no other in the list had their pid, in order |
| ServerHistory.ServersAre | src/ptvsd/adapter/servers.py:183-250 | a Server is made exactly when a session that never had one attaches to a connection that no Server is attached to |
| ServerHistory.FlagsAre | src/ptvsd/adapter/servers.py:332-343 | a Server is connected until it is lost or detached, detached by the end of its session, and told exactly if a disconnect handler ran that was its own or its connection's |
| ServerHistory.FinalizingIff | src/ptvsd/adapter/sessions.py:177-201 | a session finalizes exactly once finalize was called for it or its Server was lost |
| ServerHistory.PossibleIff | src/ptvsd/adapter/servers.py:85-250 | which steps are possible in every reachable state: a connection registers, is fetched and disconnects once, can be attached to once it was looked up, whatever has happened to it since |
| Servers.Adapter.Register | src/ptvsd/adapter/servers.py:104-118 | registers unless the connection has disconnected, and raises exactly if its pid is taken |
| Servers.Adapter.Remove | src/ptvsd/adapter/servers.py:341 | removes the first element that is equal |
| Servers.Adapter.Disconnect | src/ptvsd/adapter/servers.py:170-181 | the disconnect handler that was looked up, of a connection or of a Server, is the Disconnect step |
| Servers.Adapter.DisconnectServer | src/ptvsd/adapter/servers.py:339-342 | the Server's connection leaves the list |
| Servers.Adapter.AttachToSession | src/ptvsd/adapter/servers.py:183-250 | attaches exactly if the connection has no Server and the session has none; else nothing changes |
| Servers.Adapter.DetachFromSession | src/ptvsd/adapter/servers.py:332-337 | the Server is no longer connected and the connection handles its messages again |
| Servers.Adapter.WaitForConnection | src/ptvsd/adapter/servers.py:383-391 | a pass returns exactly if some connection matches or the time is up, with the one registered first, or with None exactly if none matches |
| Sessions.ListedIsAlive | src/ptvsd/adapter/sessions.py:79-96 | a session in the set has a connected component, one whose IDE is connected is in the set, and finalization runs at most once |
| Sessions.NeverReturns | src/ptvsd/adapter/sessions.py:79-96 | a session that has left the set does not come back |
| Sessions.LeavesWithTheLast | src/ptvsd/adapter/sessions.py:83-96 | a session that leaves the set has no connected component left, except exactly if a timer took it out that had started before a component was added that is connected |
| Sessions.ListedExactlyWhileConnected | src/ptvsd/adapter/sessions.py:83-96 | if no component is added while a timer is at work, the session is in the set exactly while a component is connected |
| Sessions.LeftTooEarly | src/ptvsd/adapter/sessions.py:116-129 | a run in which the timer of a wait takes a session out while its server is connected |
| SessionHistory.LinksAre | src/ptvsd/adapter/components.py:107-110 | in every state of every run a component is connected exactly if it came to the session and has not disconnected or been detached since; the session is finalizing exactly if one has disconnected or finalize was called |
| SessionHistory.AllGoneIsNotListed | src/ptvsd/adapter/sessions.py:83-96 | a session of which every component that came has gone is not in the set |
| SessionHistory.ListedIff | src/ptvsd/adapter/sessions.py:83-96 | a session is in the set exactly if it was started, and since then some component has always been connected and no timer has found none |
| SessionHistory.LooksIff | src/ptvsd/adapter/sessions.py:83-96 | a timer that looks is done exactly if it finds a connected component among those it took, or has passed all three; then alone the session leaves the set |
| SessionHistory.TimerStarted | src/ptvsd/adapter/sessions.py:83-96 | a timer has passed as many components as it has looked since it started, and took those that were there then |
| SessionHistory.PossibleIff | src/ptvsd/adapter/sessions.py:79-129 | which steps are possible in every reachable state, from what came and went |
| Sessions.Session.NotifyChanged | src/ptvsd/adapter/sessions.py:83-96 | takes this session, and no other, out of the set exactly if no component is connected |
| Sessions.Session.Start | src/ptvsd/adapter/ide.py:48-78 | the IDE is connected and the session is in the set, and no other session is affected |
| Sessions.Session.Disconnect | src/ptvsd/adapter/components.py:107-110 | a component's disconnect is the Disconnect step, after which it is not connected (SessionHistory.LinksAre) |
| Sessions.Session.Finalize | src/ptvsd/adapter/sessions.py:177-201 | only the first call does anything |
| Sessions.Session.DetachServer | src/ptvsd/adapter/sessions.py:220-235 | detaching the Server, as finalization does, ends the session if nothing else is connected |
| DeferredEvents.DeliveredExactlyOnce | src/ptvsd/adapter/ide.py:89-106 | if no send raises, no event is sent before the start response, and after it every event that arrived, before or since, has been sent exactly once and in order |
| DeferredEvents.RespondLetsAllOutIff | src/ptvsd/adapter/ide.py:99-106 | the response lets every event out exactly if it does not raise, no send of an event but the last raises, and the last raises at most after its event is out |
| DeferredEvents.PropagateLeavesAllOutIff | src/ptvsd/adapter/ide.py:89-98 | an event that arrives leaves all events out exactly if all before it are, none is deferred any more, and its own send does not raise before it is out |
| DeferredEvents.DeliveredInOrder | src/ptvsd/adapter/ide.py:89-106 | whichever sends raise, the events sent are events that arrived, in order, each at most once, all after the response |
| DeferredEvents.DeliveredIsPrefix | src/ptvsd/adapter/ide.py:99-106 | if nothing is sent after a send has raised, what was sent is a beginning of what arrived |
| DeferredEvents.StaysDeferred | src/ptvsd/adapter/ide.py:99-106 | if a send of a deferred event raises, that event and all later ones stay deferred for good |
| EventHistory.WireIs | src/ptvsd/adapter/ide.py:89-106 | in every run the wire has, in order, what each action sends with the fates of its sends; what arrived is what was handed over; events are no longer deferred once all that were went out with the response |
| EventHistory.AllGoesOut | src/ptvsd/adapter/ide.py:89-106 | with no send that raises nothing goes out before a response, and after it every event handed over has, once and in order |
| DeferredEvents.IDE.PropagateAfterStart | src/ptvsd/adapter/ide.py:89-98 | an event is deferred before the start and sent after it |
| DeferredEvents.IDE.PropagateDeferredEvents | src/ptvsd/adapter/ide.py:99-106 | the loop sends the deferred events in order, stops at the first send that raises, and forgets them only when all are sent |
| DeferredEvents.IDE.Send | src/ptvsd/adapter/ide.py:98-104 | an event goes out unless its send raised before that |
| DeferredEvents.IDE.RespondToStart | src/ptvsd/adapter/ide.py:202-207 | the response goes first, and a second response is refused |
| Paths.FileComesBackIff | src/ptvsd/_vendored/pydevd/pydevd_file_utils.py:632-742 | a file under a mapped prefix comes back from the client exactly if no mapping listed before the one used claims its client name and, for a Windows client, it has no backslash |
| Paths.FileComesBack | src/ptvsd/_vendored/pydevd/pydevd_file_utils.py:632-742 | the same way back for any normalisation that leaves the file alone |
| Paths.ApartComesBack | src/ptvsd/_vendored/pydevd/pydevd_file_utils.py:632-742 | when no client prefix, as compared, is a prefix of another, every normalised file under a mapped prefix comes back, for a Windows client exactly if it has no backslash |
| Paths.NestedDoesNotComeBack | src/ptvsd/_vendored/pydevd/pydevd_file_utils.py:646-655 | with nested client prefixes, the outer one first, a file of the inner one comes back as another file |
| Paths.NameComesBack | src/ptvsd/_vendored/pydevd/pydevd_file_utils.py:632-742 | a client's name comes back up to case and slashes of a Windows client, and unchanged for a Unix client, if the same mapping takes it back |
| Paths.NameComesBackIff | src/ptvsd/_vendored/pydevd/pydevd_file_utils.py:632-742 | without backslashes in server prefixes, a mapped client name comes back, up to case and slashes of a Windows client, exactly if the mapping that took it to the server takes it back |
| Paths.NestedNameDoesNotComeBack | src/ptvsd/_vendored/pydevd/pydevd_file_utils.py:704-713 | with nested server prefixes, the outer one first, a name under the inner one comes back as another name |
| Paths.SetUp | src/ptvsd/_vendored/pydevd/pydevd_file_utils.py:601-624 | each pair becomes a mapping with the two paths without one final slash, the client's with its own slashes, and that in its compared form |
| ConfiguredPaths.ConfiguredNameIs | src/ptvsd/_vendored/pydevd/pydevd_file_utils.py:613-665 | for the configured pairs: a client name that starts with a client prefix, up to case and slashes of a Windows client, leads to the file with the server prefix of the first such pair instead |
| ConfiguredPaths.UnderPrefix | src/ptvsd/_vendored/pydevd/pydevd_file_utils.py:613-665 | so what is under a prefix without a final slash leads to what is under the other one |
| ConfiguredPaths.OtherNameIs | src/ptvsd/_vendored/pydevd/pydevd_file_utils.py:656-675 | a name under no prefix stays as it is, and is normalised exactly if there is such a file |
| ConfiguredPaths.ConfiguredFileIs | src/ptvsd/_vendored/pydevd/pydevd_file_utils.py:613-725 | a file whose normalised name starts with a server prefix is told with the client prefix of the first such pair, as configured, and the slashes of the client |
| ConfiguredPaths.UnderServerPrefix | src/ptvsd/_vendored/pydevd/pydevd_file_utils.py:613-725 | so a normalised file under a server prefix is told under the client prefix |
| ConfiguredPaths.OtherFileIs | src/ptvsd/_vendored/pydevd/pydevd_file_utils.py:685-725 | any other file is told by its normalised name |
| ConfiguredPaths.FinalSlashMakesNoDifference | src/ptvsd/_vendored/pydevd/pydevd_file_utils.py:564-570 | one final slash, of either kind, in either path of a pair makes no difference |
| Paths.PutServerPrefix | src/ptvsd/_vendored/pydevd/pydevd_file_utils.py:643-655 | the loop finds the first mapping whose client prefix the name starts with, as compared, and swaps the prefixes |
| Paths.PutClientPrefix | src/ptvsd/_vendored/pydevd/pydevd_file_utils.py:704-718 | likewise for the server prefix, with the client's prefix as the client wrote it; a name that no mapping claims stays as it was normalised |
| Paths.TranslateToServer | src/ptvsd/_vendored/pydevd/pydevd_file_utils.py:637-677 | the loop over the mappings and what follows compute the specified translation |
| Paths.TranslateToClient | src/ptvsd/_vendored/pydevd/pydevd_file_utils.py:685-725 | normalising twice, the loop over the mappings and the separators compute the specified translation, with the debug output off |
| Paths.TablesAgree | src/ptvsd/_vendored/pydevd/pydevd_file_utils.py:632-742 | after any sequence of translations both memo tables agree with the translation without tables, although one stores under the name with changed separators |
| Paths.ReferenceLeadsBack | src/ptvsd/_vendored/pydevd/pydevd_file_utils.py:580-585 | a positive source reference belongs to one client name; the server file behind it is not mapped and translates to that name |
| Paths.ReferencesStay | src/ptvsd/_vendored/pydevd/pydevd_file_utils.py:729-739 | more translations leave a given reference, and the file behind a positive one, alone |
| Paths.EveryNameHasOne | src/ptvsd/_vendored/pydevd/pydevd_file_utils.py:729-739 | every name given to the client has a reference, positive exactly if the first file that got the name is not mapped |
| SourceReferences.ReferencesHaveNoGaps | src/ptvsd/_vendored/pydevd/pydevd_file_utils.py:729-737 | references are given out from 1 on without gaps, and a number that is no reference leads to no file |
| SourceReferences.AskingAgainChangesNothing | src/ptvsd/_vendored/pydevd/pydevd_file_utils.py:632-742 | a translation is remembered, and asking again changes nothing |
| Paths.PathTranslator.NormFileToServer | src/ptvsd/_vendored/pydevd/pydevd_file_utils.py:632-677 | with its memo table it returns the translation without one |
| Paths.PathTranslator.NormFileToClient | src/ptvsd/_vendored/pydevd/pydevd_file_utils.py:679-742 | likewise, and it gives a new name its reference |
| Paths.PathTranslator.GiveReference | src/ptvsd/_vendored/pydevd/pydevd_file_utils.py:733-739 | only a new name gets a reference: 0 if the file is mapped, else the next number |
| Paths.PathTranslator.SourceOfName | src/ptvsd/_vendored/pydevd/pydevd_file_utils.py:580-585 | the two look-ups; a positive reference leads to a file that translates to the name |

## Left out

- Sockets, stdio, subprocesses, real threads, timeouts and `os._exit`: they are nondeterministic steps, parameters or outside the runs. A handler exception that ends the process ends the run.
- JSON text and UTF-8: encoding and decoding are parameters of which only that they are inverse is used. Content-Length is read and written digit by digit; `int()` accepts underscores between digits, as Python 3.6 and later do.
- The channel keeps `_sent_requests` in order of insertion, as dictionaries of Python 3.7 and later do. OutgoingRequest objects are values in a table under their number, so aliasing of request objects is not modelled.
- An incoming request is responded to by one thread at a time. In Channel it is not responded to again after `respond()` raised; Handling covers the handlers that catch this and go on.
- A frame of which only a part went out before a write error, followed by more frames, is not modelled; such a message does not count as sent.
- A parser error other than NoMoreMessages ends the parser thread without the disconnect section (action `Crash`); no theorem about the end of the message loop applies then.
- That no event or request handler runs after `close()` is not claimed: the test at messaging.py:1497 compares a bound method with plain functions and never holds, so the model does not skip.
- `Component.message_handler`: its `propagate` raises a new exception object, which `_handle` does not recognise as the one already sent. Exactly-one-response is proved for handlers on the channel itself.
- `remove_quotes_from_args` and `quote_args` in `patch_args` are the identity, as they are away from Windows. What counts as a Python path, the code put in place of `-c` code, and the accepted options are parameters.
- ChildInterpreter.DebuggerIsRun: the same limits of the interpreter's reading as in RunsTheSameIff.
- ChildInterpreter.RunsTheSameIff: the interpreter's reading knows one option in each argument, -c, -m and a lone - as the end of the options, and -W and -X with a value; several short options in one argument (`-vm mod`), `--` and long options are not read as the interpreter reads them.
- DoubledQuotes.OneRunAgreesIff: for lines with several runs of two or more quotes inside quotes nothing is stated: what one run changes, another can undo.
- Sessions.Session.Finalize: the requests and waits of `_finalize` are other steps of the same run, or left out; see below.
- Servers.Adapter.WaitForConnection: one pass; that a waiter is woken, and by whose change, is left out.
- In Notifications, `py_db` is alive, `multi_threads_single_notification` is on, and callbacks are opaque numbers.
- In Threads, ids of threads do not change (`clear_cached_thread_id` is not modelled), and a thread that is in the table keeps its id from being given to another.
- Connections, Servers and sessions are numbers with records, not objects that refer to each other. Authentication and the requests that a connection makes before it registers, and the notification of the parent session after it, are left out.
- `wait_for_connection`, `wait_until_disconnected` and `wait_until_ended`: at most one pass of the loop, not that it ends. Several waiters share one event that each of them clears; no liveness and no freedom from deadlock between the two locks is claimed.
- `_finalize`: only the detaching of the Server. The requests to launcher and server and the waits in it are other steps of the same run.
- The initialize and attach handlers of the IDE, the error paths of `configurationDone_request`, and `notify_of_subprocess`. A start request whose handler fails leaves the events deferred, which is a state of the model.
- Paths: normalisation and the existence of files are functions that do not change during a run; case folding is that of ASCII letters; the server is not on Windows. Without any mapping the source uses other functions, which are left out.
- pydevd's stepping, frame evaluation and file filters, completion, packaging and logging are not part of this model.
