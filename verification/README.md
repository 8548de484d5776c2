# Verified models of the UDP wrappers and their vendored tools

This project models, in Dafny, the parts of the repository whose behaviour is
hardest to see from the code, and proves what they promise for all inputs and
all runs.

- **docopt pattern engine** (`DocoptPattern`, `DocoptTransform`, `DocoptMatch`,
  `DocoptComplete`, `DocoptParse`): the worklist rewrite of a pattern tree into
  one disjunction, the matcher with its fixpoint loop, sound for all patterns and
  complete for many, and the recursive-descent parser.
- **UDP server and client** (`Session`, `UdpServer`, `UdpServerLaws`, `UdpClient`,
  `UdpClientLaws`): step machines
  over the fields of the objects, a FIFO of posted handlers and completions, and
  the operations in flight. Callbacks may make further calls, so a handler is cut
  at every callback and the rest of it is kept as a frame.
- **Unicode table compressor** (`PrintableRanges`, `PrintableTables`,
  `Printable`): the pipeline of `printable.py`, from rows to tables, against the
  C++ function that reads the tables.
- **`asio::basic_streambuf`** (`Streambuf`): an array with moving positions that
  refines a bounded byte queue.
- **`asio::basic_socket_streambuf`** (`SocketStreambuf`): conservation of bytes
  through partial sends.
- **`asio::any_completion_handler`** (`CompletionHandler`): single ownership and
  single release over arbitrary runs, and the aligned allocation.
- **UUID text codec** (`Uuid`): parser, printer and order.

`dafny verify dfyconfig.toml` checks everything.

## How the environment is modelled

- Handlers of one object run one at a time, in the order in which they were
  queued; a call checks and posts in one step; closing or cancelling a socket
  queues its aborted completions before it returns. What a socket accepts, the
  errors it reports, whether it opens and binds, and when an operation completes
  are parameters of the steps.
- A callback lasts from the step that makes it until a step in which it returns;
  other calls may come in between, but no handler starts. This holds for the
  callbacks of a synchronous `Send` or `Receive` too: they hold the handlers off.
  The bracketed order of the callbacks rests on this.
- Counters are unsigned 64-bit and wrap. Buffer sizes and addresses are
  unbounded; the conversion to `int` in `pbump` and `gbump` is modelled.
- Exceptions are results: a step that throws returns a failure value.

## Where code and description differ

- `docopt.py`: an ellipsis that follows nothing it could repeat becomes a command
  of that name; `( | a)` parses as `(a)`.
- `docopt.py` refuses some argument vectors that fit the usage, `[<a>] <b>` on a
  single argument being the smallest; `DocoptComplete` says when it does not.
- `printable.py` puts an escaped run of length 1 or 2 that starts at 0x20000 into
  the table of plane 0, with an entry that does not fit its unsigned char and,
  as a number, is never found; `Printable.Generate` states the exact condition.
- `udp_server.cpp` counts a datagram as sent only for synchronous sends.
- `udp_client.cpp` keeps its send buffer over a disconnect, so bytes_pending and
  the buffer can disagree; `UdpClient.PendingBytesLost` says exactly when.
- `basic_socket_streambuf.hpp` sends part of its put area twice after a failure
  that got some bytes through; `SocketStreambuf.ConservedExactly` says when, and
  `SocketStreambuf.SentTwice` is such a run.
- `UDPServer::Restart` and `UDPClient::ReconnectAsync` called from a callback of a
  started server or connected client wait for ever.
- `basic_streambuf.hpp`: a `reserve` that throws has moved the bytes already;
  `Streambuf.ThrowSmears` is a run where that changes the contents.

## Model

| member | source | states |
|---|---|---|
| DocoptTransform.Transform | external/fmt/fmt-11.2.0/support/docopt.py:72-96 | terminates on every pattern tree; the result is one Either of Requireds of leaves whose cases, as a multiset of multisets of leaves, are those of the pattern (Required and Optional multiply, Either adds, OneOrMore multiplies twice with independent choices) |
| DocoptTransform.Round | external/fmt/fmt-11.2.0/support/docopt.py:81-95 | one round moves no case in or out: pending groups and finished ones keep the same multiset of cases, and the weight of the worklist strictly decreases |
| DocoptTransform.Expand | external/fmt/fmt-11.2.0/support/docopt.py:87-93 | the three appending branches append exactly the expansion of the chosen child |
| DocoptTransform.FirstBranch | external/fmt/fmt-11.2.0/support/docopt.py:84-85 | the position of the first branch child; only leaves stand before it |
| DocoptTransform.PullFront | external/fmt/fmt-11.2.0/support/docopt.py:85-93 | taking the first branch child out from between leaves and siblings and putting it in front does not change the cases of a group |
| DocoptTransform.ExpansionCases | external/fmt/fmt-11.2.0/support/docopt.py:87-93 | the groups that replace a group have together the cases of the child times those of the rest |
| DocoptTransform.ExpansionWeight | external/fmt/fmt-11.2.0/support/docopt.py:87-93 | the termination order: although OneOrMore copies its children and Either makes several groups, the replacing groups weigh strictly less than the replaced one |
| DocoptTransform.RepeatedLeaves | external/fmt/fmt-11.2.0/support/docopt.py:57-62 | the leaves counted more than once in some transformed case are exactly those that a sum/maximum/doubling count on the untransformed tree puts above one |
| DocoptTransform.UsesIsTop | external/fmt/fmt-11.2.0/support/docopt.py:57-62 | that count on the tree is the largest number of occurrences of the leaf in any case |
| DocoptMatch.SingleMatch | external/fmt/fmt-11.2.0/support/docopt.py:152-208 | a leaf looks only at the first item of its key: an option at the first option spelled like its long form, or its short one if it has no long one; an argument at the first positional; a command at the first positional, which must be its name |
| DocoptMatch.OptionTakes | external/fmt/fmt-11.2.0/support/docopt.py:112-130 | an option takes the first item spelled like its long form, or like its short one if it has no long one, leaves the others and records that spelling (lines 204-212) |
| DocoptMatch.OptionMisses | external/fmt/fmt-11.2.0/support/docopt.py:112-117 | without such an item it fails and changes nothing |
| DocoptMatch.ArgumentTakes | external/fmt/fmt-11.2.0/support/docopt.py:152-156 | an argument takes the first positional item and records its own name |
| DocoptMatch.CommandTakes | external/fmt/fmt-11.2.0/support/docopt.py:170-177 | a command takes the first positional item exactly if it is the command's name |
| DocoptMatch.PositionalMisses | external/fmt/fmt-11.2.0/support/docopt.py:152-177 | without a positional item both fail and change nothing |
| DocoptMatch.Match | external/fmt/fmt-11.2.0/support/docopt.py:112-279 | the loops compute the recursive specification MatchOf, for every well-formed pattern and argument list |
| DocoptMatch.MatchRequired | external/fmt/fmt-11.2.0/support/docopt.py:221-229 | children in sequence; the inputs come back on the first failure |
| DocoptMatch.MatchOptional | external/fmt/fmt-11.2.0/support/docopt.py:234-238 | every child gets one try, failures are skipped |
| DocoptMatch.MatchOneOrMore | external/fmt/fmt-11.2.0/support/docopt.py:248-265 | the fixpoint loop computes the specification and ends within |left| + 2 rounds, whatever is nested in the child |
| DocoptMatch.MatchEither | external/fmt/fmt-11.2.0/support/docopt.py:270-279 | all alternatives are tried on the same inputs and the shortest remainder wins |
| DocoptMatch.BestIsFirstShortest | external/fmt/fmt-11.2.0/support/docopt.py:277-279 | the recursive choice is the first of the shortest of all matching outcomes, or a failure that changes nothing |
| DocoptMatch.EitherTakesTheMost | external/fmt/fmt-11.2.0/support/docopt.py:270-279 | no matching alternative leaves fewer items, and no earlier one leaves as few |
| DocoptMatch.MatchMeaning | external/fmt/fmt-11.2.0/support/docopt.py:112-279 | success: the items taken form a word the pattern derives, the rest keeps its order, each key is served first come first served, the names recorded are those of the word; failure: the same items are left in the same order and the same names are collected (the question asked at line 257, as to items and names) |
| DocoptMatch.MatchSound | external/fmt/fmt-11.2.0/support/docopt.py:112-279 | gives the word: derived by the pattern (a relation that does not mention matching) and explaining which items remain and which names are recorded |
| DocoptMatch.RoundsSound | external/fmt/fmt-11.2.0/support/docopt.py:256-264 | the rounds of the loop that matched are that many words of the child, one after the other |
| DocoptMatch.CollectedIgnored | external/fmt/fmt-11.2.0/support/docopt.py:112-279 | verdict and remainder never depend on what has been collected |
| DocoptMatch.OneOrMoreExhausts | external/fmt/fmt-11.2.0/support/docopt.py:256-264 | once it has matched, its child takes nothing more from what is left |
| DocoptMatch.RequiredConcat | external/fmt/fmt-11.2.0/support/docopt.py:221-229 | children in two parts: the second part sees what the first left, and a failure of either gives the inputs back |
| DocoptMatch.OptionalConcat | external/fmt/fmt-11.2.0/support/docopt.py:234-238 | children in two parts: every one gets its turn on what the others left |
| DocoptMatch.CollectMeaning | external/fmt/fmt-11.2.0/support/docopt.py:118-130 | the recorded names: the old ones in front, then those of the word, an accumulating name never a second time |
| DocoptMatch.AcceptedIsDerived | external/fmt/fmt-11.2.0/support/docopt.py:578-580 | an accepted argument vector is a derived word of the pattern, complete, and with the items of every key in order |
| DocoptComplete.AcceptedExactly | external/fmt/fmt-11.2.0/support/docopt.py:578-580 | for patterns whose greedy nodes (Optional, OneOrMore, Either) share no keys with what follows, or whose alternatives take equally many items of each key, children of Optional and OneOrMore either settled likewise or content with any item of their key: an argument vector is accepted if and only if the pattern derives it, up to the interleaving of different keys |
| DocoptComplete.Complete | external/fmt/fmt-11.2.0/support/docopt.py:112-279 | inside such a pattern: if the items ahead are a word of the node and then others that only later nodes look at, the node matches and leaves exactly the others |
| DocoptComplete.FreeComplete | external/fmt/fmt-11.2.0/support/docopt.py:234-238 | an Optional of leaves that accept any item of their key takes all there is, also where the leaves compete for one key |
| DocoptComplete.HungryComplete | external/fmt/fmt-11.2.0/support/docopt.py:248-265 | a OneOrMore whose child takes something wherever there is an item of its keys takes them all |
| DocoptComplete.EmptyMatches | external/fmt/fmt-11.2.0/support/docopt.py:112-279 | a pattern that derives the empty word matches where there is nothing of its keys |
| DocoptComplete.SequentialIsSettled | external/fmt/fmt-11.2.0/support/docopt.py:221-229 | patterns of leaves and Required alone are such patterns |
| DocoptComplete.AlternativesSettled | external/fmt/fmt-11.2.0/support/docopt.py:270-279 | so are alternatives of them with the same keys, whatever follows, as in `(add or remove) <name>` |
| DocoptComplete.FixedComplete | external/fmt/fmt-11.2.0/support/docopt.py:270-279 | whichever of several alternatives wins, if all their words take equally many items of each key the same items are left |
| DocoptComplete.RefusedVector | external/fmt/fmt-11.2.0/support/docopt.py:221-238 | `[a] b` on one item that both leaves accept: derivable and refused |
| DocoptComplete.RefusedExactly | external/fmt/fmt-11.2.0/support/docopt.py:221-238 | `[a] b` accepts everything it derives if and only if no item fits both leaves |
| DocoptParse.Tokens.constructor | external/fmt/fmt-11.2.0/support/docopt.py:284-286 | holds the given tokens |
| DocoptParse.Tokens.Move | external/fmt/fmt-11.2.0/support/docopt.py:294-295 | pops the current token, or nothing from an empty list |
| DocoptParse.ParsePattern | external/fmt/fmt-11.2.0/support/docopt.py:369-374 | the popping parser computes the pure one: a pattern, an unmatched bracket, or an unexpected ending with the tokens left |
| DocoptParse.ParseExpr | external/fmt/fmt-11.2.0/support/docopt.py:377-387 | answer and tokens left agree with the pure parser |
| DocoptParse.ParseSeq | external/fmt/fmt-11.2.0/support/docopt.py:390-399 | answer and tokens left agree with the pure parser |
| DocoptParse.ParseAtom | external/fmt/fmt-11.2.0/support/docopt.py:402-425 | answer and tokens left agree with the pure parser |
| DocoptParse.ParseMeaning | external/fmt/fmt-11.2.0/support/docopt.py:369-425 | parsing succeeds exactly when round and square brackets nest by kind, and `flat` of the result lists the atom leaves in token order |
| DocoptParse.ErrorIsExact | external/fmt/fmt-11.2.0/support/docopt.py:369-414 | which error: the innermost bracket not closed by its own kind, or the tokens from the first bracket that closes nothing, as a scan for brackets finds them |
| DocoptParse.AngleBracketsRead | external/fmt/fmt-11.2.0/support/docopt.py:422-425 | a word in angle brackets is an argument of that name |
| DocoptParse.WordRead | external/fmt/fmt-11.2.0/support/docopt.py:422-425 | a word with an upper-case and no lower-case letter is an argument, any other word a command of that name with the value False |
| DocoptParse.OptionsRead | external/fmt/fmt-11.2.0/support/docopt.py:415-417 | the word options stands for the options of the usage |
| DocoptParse.LeadingBar | external/fmt/fmt-11.2.0/support/docopt.py:377-387 | an empty first alternative leaves no trace but that what follows the bar becomes one pattern |
| DocoptParse.DoubledBar | external/fmt/fmt-11.2.0/support/docopt.py:382-386 | an empty alternative in between leaves no trace |
| DocoptParse.EmptyAlternativeDropped | external/fmt/fmt-11.2.0/support/docopt.py:377-414 | a bar right after an opening bracket: parsed as if it were not there |
| DocoptParse.LoneEllipsis | external/fmt/fmt-11.2.0/support/docopt.py:402-425 | an ellipsis where an atom is expected becomes a command of that name |
| DocoptParse.ExprTracks | external/fmt/fmt-11.2.0/support/docopt.py:377-387 | for every stack of open brackets: an expression fails only on bad nesting, and otherwise consumes balanced tokens with the leaves of its patterns |
| DocoptParse.ParseOfShow | external/fmt/fmt-11.2.0/support/docopt.py:369-425 | a pattern in normal form printed as usage tokens and parsed again is the same pattern: brackets, bars and ellipses become the right nodes |
| DocoptParse.ParsedIsNormal | external/fmt/fmt-11.2.0/support/docopt.py:369-425 | every parse result is in that normal form, survives printing and parsing, and has exactly one child under each OneOrMore, as the assertion at line 249 wants |
| Session.CloseSteady | source/server/asio/udp_server.cpp:163-173 | closing queues the aborted completions before any later start, so everything of the session precedes every start handler |
| Session.OpenSteady | source/server/asio/udp_server.cpp:117-138 | a start handler reaches the head only after everything of earlier sessions has been handled |
| Session.PopDoneSteady | source/server/asio/udp_server.cpp:289-307 | a completion that is handled belongs to the last session; while that is open its flag was up, and goes down |
| UdpServer.AtMostOneInFlight | source/server/asio/udp_server.cpp:112-427 | in every run: while started, `_receiving` is true exactly when one receive is pending and `_sending` exactly when one send is, never more; while stopped, both are false and nothing is in flight |
| UdpServer.NoStaleCompletion | source/server/asio/udp_server.cpp:112-427 | in every run: all that is queued or in flight belongs to the last session, also after it was stopped, and then every completion precedes every start handler |
| UdpServer.StaleIsDropped | source/server/asio/udp_server.cpp:163-173 | in every run: what a stopped session left in the queue changes nothing when its turn comes |
| UdpServer.SessionsDoNotMix | source/server/asio/udp_server.cpp:112-173 | in every run: when a session begins, nothing is in flight and nothing but start handlers is queued |
| UdpServer.CallbacksAddUp | source/server/asio/udp_server.cpp:117-433 | in every run: callbacks form a prefix of (onStarted (onReceived, onSent or onError)* onStopped)*; the byte and datagram counters are the 64-bit totals since the last onStarted (datagrams_sent counts synchronous sends only); bytes_pending is the length of the send buffer |
| UdpServer.StepKeeps | source/server/asio/udp_server.cpp:112-443 | the invariant behind these is kept by every call, handler, completion and return from a callback |
| UdpServer.StopTakesEffect | source/server/asio/udp_server.cpp:158-188 | in every run, whatever is called and completes meanwhile and whatever callbacks do: once as many handlers have run as stand up to the posted stop, the server has stopped, so the wait in Restart ends |
| UdpServer.StartTakesEffect | source/server/asio/udp_server.cpp:112-144 | likewise a posted start, if the socket opens and binds |
| UdpServer.ReturnsEnd | source/server/asio/udp_server.cpp:267-427 | from every state, finitely many returns from callbacks let the next handler run |
| UdpServer.RestartInsideCallbackWaits | source/server/asio/udp_server.cpp:181-188 | as long as a callback has not returned the server stays started, whatever happens: Restart called inside one never ends |
| UdpServer.RestartIsClean | source/server/asio/udp_server.cpp:181-188 | the start that Restart posts comes after all that the stopped session left in the queue, with nothing in flight |
| UdpServer.BufferStaysWithinLimit | source/server/asio/udp_server.cpp:412-421 | under a fixed receive limit, doubling never takes the receive buffer past it |
| UdpServer.FailedBindIsFinal | source/server/asio/udp_server.cpp:119-129 | after a start handler that opened the socket but failed to bind it, no run starts the server again |
| UdpServer.UDPServer.constructor | source/server/asio/udp_server.cpp:6-36 | a stopped server with empty buffers and counters, which satisfies the invariant |
| UdpServer.UDPServer.Start | source/server/asio/udp_server.cpp:112-144 | posts a start handler exactly when not started |
| UdpServer.UDPServer.Stop | source/server/asio/udp_server.cpp:158-179 | posts a stop handler exactly when started |
| UdpServer.UDPServer.Send | source/server/asio/udp_server.cpp:205-224 | counts and reports what the socket accepted, then the error; nothing for a stopped server, size 0 or a null buffer |
| UdpServer.UDPServer.SendAsync | source/server/asio/udp_server.cpp:267-313 | accepted exactly when idle, started and empty or a non-null buffer within the limit; the whole new state |
| UdpServer.UDPServer.Receive | source/server/asio/udp_server.cpp:315-331 | counts and reports what was received, then the error |
| UdpServer.UDPServer.TryReceive | source/server/asio/udp_server.cpp:390-427 | starts one receive exactly when started and none is pending |
| UdpServer.UDPServer.OnStart | source/server/asio/udp_server.cpp:117-138 | the start handler, with its failures to open and to bind |
| UdpServer.UDPServer.OnStop | source/server/asio/udp_server.cpp:163-173 | the stop handler: aborts, flags, buffers, callback |
| UdpServer.UDPServer.OnReceiveDone | source/server/asio/udp_server.cpp:398-411 | the receive completion up to its first callback |
| UdpServer.UDPServer.OnSendDone | source/server/asio/udp_server.cpp:289-307 | the send completion up to its first callback |
| UdpServer.UDPServer.OnReturn | source/server/asio/udp_server.cpp:412-421 | what a handler or call still does after a callback, here the growth of the receive buffer |
| UdpServer.UDPServer.ClearBuffers | source/server/asio/udp_server.cpp:429-433 | empties the send buffer and bytes_pending |
| UdpServer.UDPServer.SendError | source/server/asio/udp_server.cpp:435-444 | reports every error but the five that are dropped, with what its caller does afterwards |
| UdpServer.RunServer | source/server/asio/udp_server.cpp:112-443 | any run on a server object follows the step functions and keeps the invariant |
| UdpServerLaws.Deliveries | source/server/asio/udp_server.cpp:205-427 | in every run, since the last start: onReceived and onSent report, in order, exactly the sizes of the completions without error that had their turn while started and of the synchronous calls; the byte counters are their sums modulo 2^64, datagrams_received their number, datagrams_sent the number of synchronous sends |
| UdpServerLaws.StepCounts | source/server/asio/udp_server.cpp:205-427 | the same for one step, read off the call or the head of the queue |
| UdpServerLaws.BeginsFresh | source/server/asio/udp_server.cpp:117-138 | what a start that succeeds leaves: started, receive buffer as the socket says, counters zero, onStarted |
| UdpServerLaws.FailedStart | source/server/asio/udp_server.cpp:119-129 | a start that cannot open changes nothing; one that cannot bind leaves the socket open and no run starts the server again |
| UdpServerLaws.LateStart | source/server/asio/udp_server.cpp:117-118 | a start handler of a started server does nothing |
| UdpServerLaws.ErrorIsReported | source/server/asio/udp_server.cpp:398-407 | a completion with an error, once its callbacks have returned: onError unless the error is one of the five, then a callback with size 0; the server goes on |
| UdpServerLaws.ReceiveIsReported | source/server/asio/udp_server.cpp:408-421 | a receive completion, once its callbacks have returned: onReceived with its size; a full buffer is doubled, or beyond the limit reported as an error and a receive of size 0 |
| UdpServerLaws.SendIsReported | source/server/asio/udp_server.cpp:296-307 | a send completion, once its callback has returned: onSent with its size, send buffer and bytes_pending clear |
| UdpServerLaws.CallIsReported | source/server/asio/udp_server.cpp:205-331 | a synchronous call, inside a callback or not: its callback, then its error unless it is one of the five |
| UdpServerLaws.FailedCallIsReported | source/server/asio/udp_server.cpp:205-224 | a synchronous send that sent nothing: just its error |
| UdpServerLaws.SendIsStarted | source/server/asio/udp_server.cpp:267-313 | an asynchronous send within the limit is in flight with its bytes pending; beyond it, an error and a send of size 0 are reported |
| UdpServerLaws.ReceiveIsStarted | source/server/asio/udp_server.cpp:390-397 | an asynchronous receive is in flight |
| UdpServerLaws.LimitsApply | source/server/asio/udp_server.cpp:267-421 | limits hold from the moment they are set |
| UdpServerLaws.CompletionIsQueued | source/server/asio/udp_server.cpp:289-427 | an operation that completes leaves the socket and joins the queue |
| UdpServerLaws.StopStops | source/server/asio/udp_server.cpp:158-179 | after Stop, in every run: stopped once all that was queued has run |
| UdpServerLaws.StartStarts | source/server/asio/udp_server.cpp:112-144 | after Start, in every run: started once all that was queued has run, if the socket opens and binds |
| UdpClient.AtMostOneInFlight | source/server/asio/udp_client.cpp:139-501 | in every run of ConnectAsync, DisconnectAsync, SendAsync and ReceiveAsync: while connected, at most one receive and one send are pending, as the flags say; all that is queued or in flight belongs to the last session, also after it was closed |
| UdpClient.StaleAbortIsDropped | source/server/asio/udp_client.cpp:205-232 | what a closed session left behind, aborts included, is dropped without effect, and when a session begins nothing of the one before is left |
| UdpClient.DisconnectTakesEffect | source/server/asio/udp_client.cpp:205-232 | in every run, whatever is called and completes meanwhile: once as many handlers have run as stand up to the posted disconnect, the client has disconnected, so the wait in ReconnectAsync ends |
| UdpClient.ConnectTakesEffect | source/server/asio/udp_client.cpp:51-79 | likewise a posted connect, if there is an address and a port and the socket opens and binds |
| UdpClient.ReturnsEnd | source/server/asio/udp_client.cpp:346-501 | from every state, finitely many returns from callbacks let the next handler run |
| UdpClient.ReconnectIsClean | source/server/asio/udp_client.cpp:226-232 | the connect that ReconnectAsync posts comes after all that the closed session left in the queue, with nothing in flight |
| UdpClient.ReconnectInsideCallbackWaits | source/server/asio/udp_client.cpp:226-232 | as long as a callback has not returned the client stays connected, whatever happens: ReconnectAsync called inside one never ends |
| UdpClient.CallbacksAddUp | source/server/asio/udp_client.cpp:51-131 | callbacks are bracketed by onConnected and onDisconnected and the counters are the totals since the last onConnected |
| UdpClient.PendingBytes | source/server/asio/udp_client.cpp:346-381 | bytes_pending is the length of the send buffer or 0 |
| UdpClient.PendingBytesLost | source/server/asio/udp_client.cpp:70-76 | in every run: bytes_pending differs from the length of the send buffer if and only if some connect succeeded with a non-empty send buffer and no send has been accepted since |
| UdpClient.StepParts | source/server/asio/udp_client.cpp:51-381 | for one step, read off the state before it: they part on a connect that succeeds with a non-empty buffer, stay parted, and agree again on the next accepted send |
| UdpClient.PendingBytesForgotten | source/server/asio/udp_client.cpp:121-131 | a run after which the two differ: the client, unlike the server, keeps its send buffer over a disconnect |
| UdpClient.StepKeeps | source/server/asio/udp_client.cpp:139-501 | the invariant behind these is kept by every step |
| UdpClient.UDPClient.constructor | source/server/asio/udp_client.cpp:6-14 | a disconnected client with empty buffers and counters |
| UdpClient.UDPClient.ConnectAsync | source/server/asio/udp_client.cpp:139-149 | posts a connect handler exactly when not connected |
| UdpClient.UDPClient.DisconnectInternalAsync | source/server/asio/udp_client.cpp:205-224 | cancels, then disconnects on the spot (dispatch) or posts the disconnect handler |
| UdpClient.UDPClient.DisconnectInternal | source/server/asio/udp_client.cpp:121-131 | closes, resets the flags and reports, exactly when connected |
| UdpClient.UDPClient.OnConnect | source/server/asio/udp_client.cpp:51-79 | the connect handler, with its early returns and failures; true exactly when it connected |
| UdpClient.UDPClient.SendAsync | source/server/asio/udp_client.cpp:346-389 | accepted exactly when idle, connected and empty or a non-null buffer within the limit; the whole new state |
| UdpClient.UDPClient.TryReceive | source/server/asio/udp_client.cpp:466-501 | starts one receive exactly when connected and none is pending |
| UdpClient.UDPClient.OnReceiveDone | source/server/asio/udp_client.cpp:474-485 | the receive completion up to its first callback; an error disconnects |
| UdpClient.UDPClient.OnSendDone | source/server/asio/udp_client.cpp:366-381 | the send completion; an error disconnects |
| UdpClient.UDPClient.OnReturn | source/server/asio/udp_client.cpp:486-493 | what is left after a callback: growing the buffer or disconnecting |
| UdpClient.UDPClient.SendError | source/server/asio/udp_client.cpp:504-510 | reports every error but the five that are dropped, with what its caller does afterwards |
| UdpClient.RunClient | source/server/asio/udp_client.cpp:121-510 | any run on a client object follows the step functions and keeps the invariant |
| UdpClientLaws.Deliveries | source/server/asio/udp_client.cpp:346-501 | in every run of every client, since the last connect: onReceived and onSent report, in order, exactly the sizes of the completions without error that had their turn while connected; the counters are their sums and their number |
| UdpClientLaws.StepCounts | source/server/asio/udp_client.cpp:346-501 | the same for one step, read off the head of the queue |
| UdpClientLaws.BeginsFresh | source/server/asio/udp_client.cpp:51-79 | what a connect that succeeds leaves: connected, receive buffer as the socket says, counters zero, send buffer as it was, onConnected |
| UdpClientLaws.FailedConnect | source/server/asio/udp_client.cpp:51-68 | a connect that cannot open changes nothing; one that cannot bind leaves the socket open and no run connects the client again |
| UdpClientLaws.ErrorDisconnects | source/server/asio/udp_client.cpp:366-485 | a completion of either kind with an error, once its callbacks have returned: onError unless the error is one of the five, then disconnected, with what was in flight aborted and onDisconnected called |
| UdpClientLaws.ReceiveIsReported | source/server/asio/udp_client.cpp:474-493 | a receive completion, once its callbacks have returned: onReceived with its size; a full buffer is doubled, or beyond the limit reported as an error and the client disconnected |
| UdpClientLaws.SendIsReported | source/server/asio/udp_client.cpp:366-381 | a send completion, once its callback has returned: onSent with its size, send buffer and bytes_pending clear |
| UdpClientLaws.SendIsStarted | source/server/asio/udp_client.cpp:346-389 | an asynchronous send within the limit is in flight with its bytes pending; beyond it, an error is reported |
| UdpClientLaws.ReceiveIsStarted | source/server/asio/udp_client.cpp:466-473 | an asynchronous receive is in flight |
| UdpClientLaws.CompletionIsQueued | source/server/asio/udp_client.cpp:366-501 | an operation that completes leaves the socket and joins the queue |
| UdpClientLaws.DisconnectDisconnects | source/server/asio/udp_client.cpp:205-224 | after DisconnectAsync, in every run: disconnected once all that was queued and the aborts have run |
| UdpClientLaws.ConnectConnects | source/server/asio/udp_client.cpp:139-149 | after ConnectAsync, in every run: connected once all that was queued has run, if it can |
| PrintableRanges.GetCodepoints | external/fmt/fmt-11.2.0/support/printable.py:44-71 | succeeds exactly when every First row is followed by a Last row, and then lists 0, 1, 2, ... with the category of the last row at or below each |
| PrintableRanges.Fill | external/fmt/fmt-11.2.0/support/printable.py:57-58 | the gap before a row is filled in order with the open interval's category, or none |
| PrintableRanges.EscapedMembers | external/fmt/fmt-11.2.0/support/printable.py:30-33 | the filtered list is increasing and holds exactly the escaped code points |
| PrintableRanges.EscapedExactly | external/fmt/fmt-11.2.0/support/printable.py:30-71 | escaped are the code points whose row has one of the eight categories or none, or that no row gives a category, but never the space |
| PrintableRanges.FindRow | external/fmt/fmt-11.2.0/support/printable.py:44-71 | every code point has a last row at or below it |
| PrintableRanges.ToRanges | external/fmt/fmt-11.2.0/support/printable.py:18-28 | the runs are in order, disjoint, maximal but for the cuts at 0x10000 and 0x20000 which none crosses, and cover exactly the input |
| PrintableRanges.ClassifyOne | external/fmt/fmt-11.2.0/support/printable.py:146-166 | a run goes to the one list of its kind, moved down to its plane |
| PrintableRanges.Classify | external/fmt/fmt-11.2.0/support/printable.py:145-166 | the five lists are the runs of the five kinds, in order |
| PrintableRanges.PointsMember | external/fmt/fmt-11.2.0/support/printable.py:148-159 | singletons are exactly the points of the runs of length 1 and 2 of their plane |
| PrintableRanges.PointsSparse | external/fmt/fmt-11.2.0/support/printable.py:145-159 | three consecutive points are never all singletons of one plane |
| PrintableRanges.LengthsSeparated | external/fmt/fmt-11.2.0/support/printable.py:160-166 | the longer runs of a plane are in order and apart |
| PrintableTables.AddSingleton | external/fmt/fmt-11.2.0/support/printable.py:78-85 | one round adds exactly one code point to what the tables stand for |
| PrintableTables.CompressSingletons | external/fmt/fmt-11.2.0/support/printable.py:73-87 | the tables expand back to the very list, and upper bytes strictly increase for an increasing list |
| PrintableTables.CountsFit | external/fmt/fmt-11.2.0/support/printable.py:80-84 | no count exceeds 171, so it fits an unsigned char |
| PrintableTables.UppersFit | external/fmt/fmt-11.2.0/support/printable.py:78-81 | the upper bytes of code points of one plane are bytes |
| PrintableTables.UppersFitOnly | external/fmt/fmt-11.2.0/support/printable.py:78-81 | and only of those: a code point beyond the plane has an upper entry that is no byte |
| PrintableTables.BuildEntry | external/fmt/fmt-11.2.0/support/printable.py:101-111 | one or two bytes per length |
| PrintableTables.LengthExamples | external/fmt/fmt-11.2.0/support/printable.py:90-91 | the codes that the comment names |
| PrintableTables.CompressNormal | external/fmt/fmt-11.2.0/support/printable.py:89-115 | fails exactly when a gap or a run reaches 0x8000; otherwise the flattened entries encode gaps and runs in turn |
| PrintableTables.DecodeEncode | external/fmt/fmt-11.2.0/support/printable.py:89-115 | the bytes decode, by the rule in the comment, to the original ranges |
| PrintableTables.BytesFit | external/fmt/fmt-11.2.0/support/printable.py:90-91 | lengths below 0x8000 give bytes 0 to 255 |
| PrintableTables.FindSingleton | external/fmt/fmt-11.2.0/include/fmt/format-inl.h:1767-1779 | the scan, with its early exit on larger upper bytes, finds x exactly when a block holds it |
| PrintableTables.HitIsMember | external/fmt/fmt-11.2.0/include/fmt/format-inl.h:1767-1779 | a block holds x exactly when the tables expand to a list with x |
| PrintableTables.WalkNormal | external/fmt/fmt-11.2.0/include/fmt/format-inl.h:1781-1790 | the toggling scan over one- and two-byte lengths |
| PrintableTables.WalkMeaning | external/fmt/fmt-11.2.0/include/fmt/format-inl.h:1781-1790 | the side it ends on is "printable" exactly when no range covers x |
| Printable.IsPlanePrintable | external/fmt/fmt-11.2.0/include/fmt/format-inl.h:1762-1791 | neither a singleton nor in a range of the plane |
| Printable.IsPrintable | external/fmt/fmt-11.2.0/include/fmt/format-inl.h:1794-1942 | plane by plane, then the extra ranges, then the bound 0x110000 |
| Printable.BuildPlane | external/fmt/fmt-11.2.0/support/printable.py:168-171 | both compressors: the plane reads back exactly its singletons and ranges; its entries are bytes, the upper ones exactly if all singletons lie in the plane |
| Printable.FaithfulExactly | external/fmt/fmt-11.2.0/support/printable.py:145-171 | tables made from the runs answer right on every code point if and only if no escaped run of length 1 or 2 starts at 0x20000 |
| Printable.PrintableMeaning | external/fmt/fmt-11.2.0/support/printable.py:145-171 | the only code points answered wrong are those of a short run at 0x20000 |
| Printable.AnswersExactly | external/fmt/fmt-11.2.0/support/printable.py:145-171 | the answer on every code point, the wrong ones included: escaped points at 0x20000 and 0x20001 are taken for printable exactly when they form a short run |
| Printable.TooLongExactly | external/fmt/fmt-11.2.0/support/printable.py:92-100 | the length assertion fails for a plane if and only if 0x8000 points in a row are escaped, or 0x8000 points without a run of three precede one |
| Printable.WrongAnswer | external/fmt/fmt-11.2.0/support/printable.py:145-171 | rows that pass both assertions and yet give a table with an entry too large for the unsigned char of the C++ table (line 1758 of format-inl.h) and, read as numbers, a wrong answer at 0x20000 |
| Printable.Generate | external/fmt/fmt-11.2.0/support/printable.py:133-171 | from rows to tables: when each of the two assertions fails; entries that fit the bytes of the C++ tables, the upper ones of plane 0 exactly when no short escaped run starts at 0x20000; and the answer on every code point, right on all of them in exactly the same case (line 146 tests > and line 149 only one bit) |
| Printable.GenerateAndAsk | external/fmt/fmt-11.2.0/include/fmt/format-inl.h:1794-1942 | generator and C++ reader together, on the rows: when there are tables (the names that end in First and Last; the lengths), that the space is printable, and that any other code point below 0x110000 is printable exactly when its row gives it a category other than the eight, outside a short run at 0x20000 |
| Streambuf.BasicStreambuf.constructor | external/asio/asio/include/asio/basic_streambuf.hpp:131-141 | an empty queue; positions in order, buffer of max(epptr, 1) bytes, room for 128 or max_size() if that is less |
| Streambuf.BasicStreambuf.Reserve | external/asio/asio/include/asio/basic_streambuf.hpp:308-346 | throws exactly when size() + n > max_size(); otherwise keeps the contents and makes room for n; a throwing call leaves the pointers and the contents smeared by the move at line 325 |
| Streambuf.ThrowIsHarmless | external/asio/asio/include/asio/basic_streambuf.hpp:321-340 | a throwing call keeps every contents of n bytes exactly when nothing, or at least n bytes, had been consumed |
| Streambuf.ThrowSmears | external/asio/asio/include/asio/basic_streambuf.hpp:308-346 | a run in which a prepare that throws turns the contents 2, 3 into 3, 3 |
| Streambuf.BasicStreambuf.Prepare | external/asio/asio/include/asio/basic_streambuf.hpp:214-219 | throws exactly when size() + n > max_size(); otherwise room for n and the same contents |
| Streambuf.BasicStreambuf.Commit | external/asio/asio/include/asio/basic_streambuf.hpp:233-238 | appends the first n bytes of the output sequence, or all of it, exactly when the count survives the conversion to int |
| Streambuf.BasicStreambuf.Consume | external/asio/asio/include/asio/basic_streambuf.hpp:247-254 | removes the first n bytes, or all, exactly when the count survives the conversion to int |
| Streambuf.BasicStreambuf.Underflow | external/asio/asio/include/asio/basic_streambuf.hpp:263-274 | the front of the queue without removing it, or end of file when empty |
| Streambuf.BasicStreambuf.Overflow | external/asio/asio/include/asio/basic_streambuf.hpp:283-306 | throws exactly when a character meets size() == max_size(), then leaving the contents alone; otherwise appends the character, making room for up to 128 |
| Streambuf.BasicStreambuf.ReadSizeHelper | external/asio/asio/include/asio/basic_streambuf.hpp:353-359 | the largest value within the caller's limit, max_size() and the larger of 512 and the free capacity |
| Streambuf.BasicStreambuf.PrepareRead | external/asio/asio/include/asio/basic_streambuf.hpp:353-359 | preparing that value never throws |
| Streambuf.Perform | external/asio/asio/include/asio/basic_streambuf.hpp:214-306 | every call does to contents and output sequence what it does to a bounded queue with staged bytes, and throws exactly when the queue would exceed its bound |
| Streambuf.Drive | external/asio/asio/include/asio/basic_streambuf.hpp:131-346 | every run of prepare, writes to the output sequence, commit, consume, overflow and underflow, in any order and with any counts, is a run of the bounded queue, up to the first call that exceeds the bound or moves more than INT_MAX bytes |
| Streambuf.FirstInFirstOut | external/asio/asio/include/asio/basic_streambuf.hpp:214-306 | between any two points of a run: what was removed followed by what is there is what was there followed by what was appended |
| Streambuf.StagedArrives | external/asio/asio/include/asio/basic_streambuf.hpp:221-238 | while calls only commit, remove and look, the bytes appended followed by the output sequence are the output sequence from before, however the commits are split and even past its end |
| Streambuf.FeedArrives | external/asio/asio/include/asio/basic_streambuf.hpp:214-238 | prepare, write and commit n: exactly the first n bytes written are appended |
| SocketStreambuf.BasicSocketStreambuf.constructor | external/asio/asio/include/asio/basic_socket_streambuf.hpp:525-535 | an empty put area over 512 bytes |
| SocketStreambuf.BasicSocketStreambuf.SendLoop | external/asio/asio/include/asio/basic_socket_streambuf.hpp:449-482 | the bytes that get through are a prefix, as long as the attempts of the socket, the clock and the polls let it be; and the error code that is left |
| SocketStreambuf.ThroughIsRoom | external/asio/asio/include/asio/basic_socket_streambuf.hpp:449-482 | as much gets through as the socket accepts in all before an attempt ends the loop; waiting for it costs nothing |
| SocketStreambuf.ErrorTells | external/asio/asio/include/asio/basic_socket_streambuf.hpp:449-482 | no error code if all gets through, else the one of the attempt that ended the loop |
| SocketStreambuf.BasicSocketStreambuf.Overflow | external/asio/asio/include/asio/basic_socket_streambuf.hpp:427-499 | success exactly when all that was due got through, and then the character follows it; on failure the put area is kept and what got through is on the wire |
| SocketStreambuf.BasicSocketStreambuf.Sync | external/asio/asio/include/asio/basic_socket_streambuf.hpp:501-504 | overflow without a character: on success everything pending is on the wire, on failure as overflow leaves it |
| SocketStreambuf.BasicSocketStreambuf.SetBuf | external/asio/asio/include/asio/basic_socket_streambuf.hpp:506-517 | turns buffering off exactly for a null buffer of size 0 with nothing pending; never touches wire or put area |
| SocketStreambuf.BasicSocketStreambuf.PutChar | external/asio/asio/include/asio/basic_socket_streambuf.hpp:484-495 | a character written with room left, or through overflow, in success and failure |
| SocketStreambuf.Drive | external/asio/asio/include/asio/basic_socket_streambuf.hpp:427-535 | every run on the object, in buffered and unbuffered mode and also after failures, has the wire, put area and results of the pure run; without a failure all characters are on the wire or in the put area, in order |
| SocketStreambuf.ConservedExactly | external/asio/asio/include/asio/basic_socket_streambuf.hpp:427-499 | in every run, failures included: nothing goes missing, and wire followed by put area is what successful calls handed over if and only if in each call the socket took all that was due or none of it |
| SocketStreambuf.WritesAreKept | external/asio/asio/include/asio/basic_socket_streambuf.hpp:484-535 | up to 512 characters are kept back and nothing is sent |
| SocketStreambuf.UnbufferedIsImmediate | external/asio/asio/include/asio/basic_socket_streambuf.hpp:427-517 | in every run after setbuf(0, 0) with nothing pending, a character is on the wire as soon as it is written |
| SocketStreambuf.SentTwice | external/asio/asio/include/asio/basic_socket_streambuf.hpp:449-482 | a run in which it is not conserved: a flush fails after one of two bytes, the next one succeeds, and the first byte is on the wire twice |
| SocketStreambuf.FailsExactly | external/asio/asio/include/asio/basic_socket_streambuf.hpp:427-499 | a call fails exactly when the socket does not take all that is due, and then the put area is unchanged and a prefix of it is on the wire |
| SocketStreambuf.StepConserves | external/asio/asio/include/asio/basic_socket_streambuf.hpp:427-499 | one call, seen from what was handed over before it |
| CompletionHandler.Handlers.constructor | external/asio/asio/include/asio/any_completion_handler.hpp:639-651 | no wrapper, no implementation |
| CompletionHandler.Handlers.ConstructEmpty | external/asio/asio/include/asio/any_completion_handler.hpp:639-651 | a wrapper without target |
| CompletionHandler.Handlers.Construct | external/asio/asio/include/asio/any_completion_handler.hpp:654-665 | a new implementation owned by the new wrapper; nothing kept if creation throws |
| CompletionHandler.Handlers.Free | external/asio/asio/include/asio/any_completion_handler.hpp:76-88 | only something on the heap is released, and the release is logged |
| CompletionHandler.Handlers.Destroy | external/asio/asio/include/asio/any_completion_handler.hpp:699-703 | releases what the wrapper owns, if anything |
| CompletionHandler.Handlers.MoveConstruct | external/asio/asio/include/asio/any_completion_handler.hpp:671-677 | ownership moves, the source is empty, nothing is released |
| CompletionHandler.Handlers.Swap | external/asio/asio/include/asio/any_completion_handler.hpp:718-722 | ownership is exchanged, also with itself |
| CompletionHandler.Handlers.MoveAssign | external/asio/asio/include/asio/any_completion_handler.hpp:683-689 | the old target is released by destruction, the source left empty; assigning to itself changes nothing |
| CompletionHandler.Handlers.AssignNull | external/asio/asio/include/asio/any_completion_handler.hpp:692-696 | the target is released by destruction |
| CompletionHandler.Handlers.Call | external/asio/asio/include/asio/any_completion_handler.hpp:746-756 | the target is released by the call and the wrapper empty; an empty wrapper throws |
| CompletionHandler.Drive | external/asio/asio/include/asio/any_completion_handler.hpp:91-191 | wrappers, heap, creations and releases of the objects are those of the pure run, for every sequence of operations |
| CompletionHandler.SingleOwnership | external/asio/asio/include/asio/any_completion_handler.hpp:91-191 | at every point of every run: no two wrappers hold the same implementation, the heap is exactly what the wrappers hold, and each implementation ever created is on the heap or was released, once |
| CompletionHandler.Journeys | external/asio/asio/include/asio/any_completion_handler.hpp:639-756 | in every run: there is a wrapper exactly where one was made and not destroyed, and the n-th implementation is held by exactly the wrapper its journey leads to, by moves, assignments and swaps, until a call, a reset or a destruction ends it |
| CompletionHandler.Tables | external/asio/asio/include/asio/any_completion_handler.hpp:639-756 | the function table goes where the implementation goes and stays behind only after a call |
| CompletionHandler.ReleasedOnce | external/asio/asio/include/asio/any_completion_handler.hpp:91-191 | once the wrappers are gone the heap is empty and every implementation created was released exactly once |
| CompletionHandler.ReleasedBy | external/asio/asio/include/asio/any_completion_handler.hpp:76-191 | every release has its operation: it took the implementation from the wrapper it names, by a call exactly if it was the call operator, else by destroying or overwriting the wrapper's target |
| CompletionHandler.StepKeeps | external/asio/asio/include/asio/any_completion_handler.hpp:639-756 | every operation keeps ownership and ledger |
| CompletionHandler.AssignIsMoveSwapDrop | external/asio/asio/include/asio/any_completion_handler.hpp:683-689 | move into a temporary, swap, destroy the temporary: hands over the source and destroys the old target, and is no change for self-assignment |
| CompletionHandler.ResetIsMakeSwapDrop | external/asio/asio/include/asio/any_completion_handler.hpp:692-696 | assigning nullptr through an empty temporary destroys the target |
| CompletionHandler.Allocate | external/asio/asio/include/asio/any_completion_handler.hpp:131-156 | for every size, power-of-two alignment and base: never refused, aligned, payload and stored offset inside the block |
| CompletionHandler.Deallocate | external/asio/asio/include/asio/any_completion_handler.hpp:158-176 | recovers base and length if the bytes after the payload are untouched |
| CompletionHandler.AllocationRoundTrip | external/asio/asio/include/asio/any_completion_handler.hpp:131-176 | whatever is written to the payload, deallocation gives back the original base and length |
| Uuid.Parse | include/server/uuid.h:55-77 | the outcome is that of the first 32 characters other than '-', '{' and '}' read in pairs, missing bytes zero, a bad pair an error; the closing loop that steps by two changes nothing |
| Uuid.ParseFails | include/server/uuid.h:47-70 | parsing fails exactly when a complete pair among the first 32 significant characters holds something that is not a hex digit |
| Uuid.DigitsRead | include/server/uuid.h:47-77 | without dashes and braces: any other character in a complete pair of the first 32 is an error, every byte has the value of its two digits, missing bytes are zero |
| Uuid.PunctuationIgnored | include/server/uuid.h:62 | a dash or brace anywhere changes nothing |
| Uuid.ParseIgnoresCase | include/server/uuid.h:47-52 | upper and lower case digits give the same outcome on every input |
| Uuid.ToString | source/server/uuid.cpp:10-24 | the 8-4-4-4-12 text of section 4 of RFC 9562, in lower case |
| Uuid.TextShape | source/server/uuid.cpp:10-24 | 36 characters: dashes at 8, 13, 18 and 23, lower-case hex digits elsewhere |
| Uuid.ParseText | include/server/uuid.h:55-77 | parsing what string() prints gives the same 16 bytes |
| Uuid.RoundTrip | source/server/uuid.cpp:10-24 | printer and parser one after the other are the identity on 16-byte arrays |
| Uuid.TextKeepsOrder | include/server/uuid.h:24-29 | u < v exactly when string(u) < string(v), and equal exactly when the texts are |

## Left out

- docopt: option tokens (`parse_long`, `parse_shorts`, `Option.parse`), the regular expressions that cut help text into tokens, `fix_identities`, `extras` and the final dictionary.
- docopt: values. Those accumulated in `collected` are updated in place and shared between alternatives; and an accumulating option writes its value into the very item of `left` (lines 126 and 205-207), which stays changed even if the match then fails. Only which items are left and which names are collected is modelled.
- docopt: `isupper` is modelled for ASCII letters.
- DocoptComplete.AcceptedExactly: for patterns outside its condition, other than `[a] b`, it is not said which derivable vectors are refused.
- DocoptParse.ParsePattern: tokens that the tokenizer cannot produce (the empty one and "([") and option tokens are excluded.
- UDP server and client: the timed `Send` and `Receive`, whose results depend on an interleaving inside their completion lambdas.
- UDP server: multicast endpoints and the forwarding overloads, which only choose an endpoint; the contents of the receive buffer and the buffer an in-flight receive points to.
- UDP client: the synchronous `Connect`, `Disconnect`, `Send` and `Receive`, the resolver variants and the multicast group calls.
- UdpClient.UDPClient.OnConnect: a throwing handler is modelled by its effect on the object; that it also ends the service thread is not.
- `Service`, threads, signal handling, timers, `Path`, `Flags`, `Timespan`, `Timestamp`: operating system calls and thin wrappers.
- printable.py: downloading the file, reading CSV and printing C++ text; the rows are taken in the order of UnicodeData.txt, strictly increasing from 0.
- Printable.IsPrintable: table entries are unbounded numbers; when they fit the bytes of the C++ tables is stated by Printable.BuildPlane and Printable.Generate.
- Streambuf.BasicStreambuf.Consume: the pointer sum `gptr() + n` is taken without overflow.
- Streambuf.Drive: ends at a call that would move more than INT_MAX bytes, which only a maximum size above it allows; what such a call does wrong is stated by Commit and Consume.
- `basic_socket_streambuf`: reading, connecting, closing, moving, and the expiry arithmetic.
- CompletionHandler.Allocate: sizes whose total overflows `std::size_t`; `std::align` is taken by its contract in the ISO C++ standard, clause [ptr.align].
- `any_completion_handler`: executors, cancellation slots and the function table's other entries.
- UUID: generation (`Sequential`, `Random`), hashing and formatting adapters.
