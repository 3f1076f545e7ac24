# queryperf++ in Dafny

queryperf++ sends DNS queries to a server as fast as the answers come back, and counts them. This
project models the parts of it that keep state over time and proves what their runs keep:

* the **dispatcher** (`src/lib/dispatcher.cc`): a fixed window of query events, 16-bit wrapping query
  IDs (section 4.1.1 of RFC 1035), matching of responses and timeouts by a linear search for the ID,
  re-sending until the session timer, draining after it;
* the **query repository** (`src/lib/query_repository.cc`): a line scanner with comments, per-line
  options, rewinding at the end of the input and a guard against endless empty input, and the
  preloaded vector that stands in for it;
* the **sockets** (`src/lib/asio_message_manager.cc`): the TCP socket's connect, write, read-length
  and read-data handlers with delayed cancel and self-deletion, and the UDP socket's receive flag;
* the **link** between them (`src/lib/query_context.cc`) and the **summary** over all worker threads
  (`src/bin/queryperfpp/queryperfpp.cc`).

## How it is built

Each component appears twice. A machine on values (`*_spec.dfy`, `line_reader.dfy`, `line_feed.dfy`,
`data_line.dfy`) has one function per entry point; the theorems about whole runs are about it. A class
with the source's fields (`repository.dfy`, `query_context.dfy`, `dispatcher.dfy`, `tcp_socket.dfy`,
`statistics.dfy`) has the source's loops and assignments; every method is proved to take the class
from one state of the machine to the next.

| files | subject |
|---|---|
| `decimal`, `data_line`, `line_feed` | numbers, one line, lines of a stream |
| `line_reader`, `cyclic_reader`, `data_file`, `reader_witnesses` | reading to the end, reading round and round, files |
| `repository_spec`, `repository` | requests, settings, preloading, streaming |
| `query_context` | one request per query started |
| `dispatcher_spec`, `dispatcher` | the event loop's callbacks |
| `conservation`, `distinct_ids`, `young_ids`, `armed_timers`, `attribution`, `progress`, `drain`, `churn`, `collision`, `order` | whole runs of the dispatcher |
| `query_flow` | dispatcher and repository together |
| `length_prefix`, `tcp_socket_spec`, `tcp_socket_life`, `tcp_socket` | framing and sockets |
| `tcp_run`, `tcp_answers`, `tcp_collision`, `tcp_crash` | dispatcher and TCP sockets together |
| `statistics` | the summary over workers |

## What is assumed

* A timer's `start` supersedes any earlier arming, and destroying the timer disarms it. "Punctual" runs
  are those in which nothing happens later than some fixed `lag` after the deadline of an armed timer.
* `async_connect` opens the descriptor before it returns. Without that assumption a socket can be
  freed under its pending operation: `TcpSocketLife.UnopenedReleaseIsUnsafe`, and exactly then:
  `TcpSocketLife.RunUnsafeIff`.
* A receive is filled, or reports an error or the end of the file. A successful receive of fewer than
  two length bytes makes the handler throw (`asio_message_manager.cc:276-280`), although the comment
  at lines 264-266 counts a partial message among the cases it has handled.
* The window has at least one event (the source's constant is 20, `src/lib/dispatcher.h:46`). The runs
  below that go wrong are shown for every window from 2, or from 1 for the crash, up to 65536.
* Parsing the header of a null buffer with a non-zero length crashes. A DNS library that first checks for
  the 12 bytes of a header would throw instead when the length is less; the run of `TcpCrash.CrashRun`
  reports 12 or more.
* Which names and type texts are valid is left to the DNS library, as are rendering and header
  parsing. A type text has one code, and a rendering of an SOA with a 32-bit serial always succeeds.

## Where the claims one would like to make are false

* IDs are not distinct by construction. While one query waits for its timeout, the other events can go
  through 65536 sends. Exactly that is the condition: over every run the IDs are distinct at every
  boundary of the event loop if and only if no outstanding query ever falls out of the last 65536 sent
  (`YoungIds.IdsDistinctIff`); `DistinctIds.TimedRunsAreDistinct` gives a rate and a lag under which
  that cannot happen.
* Not every outstanding query can always be ended by its own timer. In `Collision.CollisionGetsStuck`
  (UDP, any window from 2 on, punctual for any timeout) a query stays outstanding after the session with
  no timer left; only a response with its ID could still end the run. In `TcpCollision.CollisionStrands`
  (TCP) not even that: whatever happens from then on, the run never stops. `Progress.ProgressExactly` is
  the exact condition: over every run each outstanding query can be ended by its own timer, without
  touching any other, if and only if IDs are distinct throughout. `ArmedTimers.TimersArmedIff` says
  exactly when an event loses its timer; `Collision.TimeoutOwnIff`, `Collision.TcpOwnIff` and
  `Collision.ResponseOwnIff` when a callback ends the query of its own event; `Collision.LateResponseIff`
  when a late response is ignored.
* The assertion of `setTCPSocket` can fail: `TcpCollision.CollisionAborts` is such a run.
  `Collision.StepAbortsIff` says exactly which callbacks make an assertion fail, and
  `TcpRun.TcpRunAborts` which TCP runs do. The assertion of `clearTCPSocket` never fails in a TCP run,
  whatever the IDs.
* `dispatcher.cc:319` passes the list's end as the element to move, though the comment above it says
  that the matched event moves to the end; the model does what the comment says. While IDs are distinct
  no permutation of the list can be noticed (`Order.OrderUnobservable`), so that a run of the model
  stands for a run with any other order (`Order.IntendedOrderStands`). With equal IDs the order does show
  (`Collision.OrderMatters`): the three runs with colliding IDs named above have the order the comment
  intends, which the call at line 319 does not implement.
* Streaming does not always return: a text of a single word is an input on which it does not
  (`ReaderWitnesses.OneWordNeverReturns`), and `CyclicReader.StreamingHaltsIff` says on which it does.
* Streaming does not always agree with preloading. A file that loads but whose stream throws has fewer
  than 1000 blank lines on either side of its only record, but 1000 or more together
  (`ReaderWitnesses.LoadsButStreamThrows`); `RepositorySpec.StreamingAgreesIff` is the exact condition.
* White space after the last word of a line makes the line malformed: `DataLine.TrailingSpaceIgnored`.
* A cancelled socket can stay allocated for ever: `TcpSocketLife.CancelledSocketLeaks` is a run, and
  `TcpSocketLife.LeakIff` the condition.
* A failed data read can report a null buffer with a non-zero length: `TcpSocketLife.NullReported` is a
  run for every first message, and `TcpSocketLife.NullReportIff` the condition. It is the only way for a
  TCP run to crash (`TcpRun.TcpRunAborts`), and `TcpCrash.CrashRun` is a run from the start that does.

What needs no distinct IDs (`Conservation`, `Drain` up to `DrainRun`, `QueryFlow`, most of `TcpRun`) is
kept apart from what does.

## Model

| member | source | states |
|---|---|---|
| Conservation.RunConserves | src/lib/dispatcher.cc:303-329 | Over every run from the start, colliding IDs or not: the queries sent are completed, failed or outstanding, exactly one of these; the window is full while sending is on; the next ID is the number sent modulo 65536; `stop` has been called once if nothing is outstanding and not otherwise; completed never exceeds sent, even when an exception or an assertion ended the run |
| Conservation.StepGood | src/lib/dispatcher.cc:271-329 | Any one callback of the event loop keeps the partition of the queries, the distinctness of the events and the window |
| Conservation.BeginGood | src/lib/dispatcher.cc:252-269 | The pool and the initial dispatch establish that invariant, or an exception has ended the run |
| DistinctIds.TimedRunsAreDistinct | src/lib/dispatcher.cc:67-72 | If no timer is ever overdue by more than `lag` and no interval of one timeout plus `lag` holds more than 65536 sends, then in every state the outstanding IDs are pairwise distinct and each event's own timer is armed for its send time plus the timeout |
| DistinctIds.RunDistinct | src/lib/dispatcher.cc:303-319 | The mutual induction behind it, from any state with armed timers |
| YoungIds.IdsDistinctIff | src/lib/dispatcher.cc:177-193 | Over every run from the start, for every window: the outstanding IDs are distinct at every boundary of the event loop if and only if at every boundary each outstanding query is among the last 65536 sent |
| YoungIds.RunDistinctIff | src/lib/dispatcher.cc:303-319 | The same from any state whose outstanding queries are that young |
| ArmedTimers.TimersStayArmed | src/lib/dispatcher.cc:67-72 | Over every run from the start with distinct IDs, with no assumption on time, every outstanding event has its timer armed |
| ArmedTimers.TimersArmedIff | src/lib/dispatcher.cc:100-106 | Over every run from the start, colliding IDs or not: at every boundary of the event loop all outstanding events have their timers armed if and only if no timeout, unless it ends the run, comes for an event that has another with its ID ahead of it |
| Attribution.ResponseAttribution | src/lib/dispatcher.cc:271-282 | A response to a query within 65535 sends of every outstanding one completes exactly that query if it is outstanding, and otherwise, duplicate or late, changes nothing at all |
| Attribution.TimeoutAttribution | src/lib/dispatcher.cc:100-106 | With distinct IDs a timeout fails exactly the query of its own event and touches no other |
| Attribution.TcpAttribution | src/lib/dispatcher.cc:284-300 | With distinct IDs a TCP callback ends exactly the query of its own event: completed with a response, failed without |
| Attribution.RunAttribution | src/lib/dispatcher.cc:303-329 | Over a run with distinct IDs the completed counter is the number of distinct queries whose answer came while they were outstanding |
| Progress.ProgressExactly | src/lib/dispatcher.cc:100-106 | Over every run from the start: as long as it has not stopped there is an outstanding event, each of them can time out, and that ends its own query and leaves the others as they are, if and only if IDs are distinct throughout; equivalently, if and only if each outstanding query is always among the last 65536 sent |
| Drain.RunDrains | src/lib/dispatcher.cc:197-199 | After the session timer nothing is ever sent again and the list never grows, with or without colliding IDs |
| Drain.StepDrains | src/lib/dispatcher.cc:320-325 | While draining, a callback removes at most one event, and a timeout always removes one |
| Drain.DrainRun | src/lib/dispatcher.cc:303-329 | Over any draining run of responses, late responses, timeouts and TCP callbacks, colliding IDs or not, nothing is sent, each input that ends a query removes one event, and `stop` is called once, when the last is gone and not before |
| Drain.DrainByTimers | src/lib/dispatcher.cc:320-325 | After any run from the start with distinct IDs whose session is over, timeouts alone, in whatever order, bring it to its end, one event each, with one call of `stop`; until then each event left can be ended by its own timer |
| Drain.SessionEndsInTime | src/lib/dispatcher.cc:195-199 | In a punctual run with distinct IDs, once the session is over the last callback of whatever kind comes no later than one timeout and `lag` after the last send |
| Collision.CollisionGetsStuck | src/lib/dispatcher.cc:303-329 | For any window from 2 to 65536 and any timeout, a punctual run that ends with a query outstanding, the session over and no timer left |
| Collision.TimeoutOwnIff | src/lib/dispatcher.cc:305-308 | A timeout ends its own query if and only if no event ahead of it in the list has its ID |
| Collision.TcpOwnIff | src/lib/dispatcher.cc:284-300 | A TCP callback ends its own query if and only if no event ahead of it in the list has its ID |
| Collision.ResponseOwnIff | src/lib/dispatcher.cc:271-282 | A response with the ID of an outstanding event ends the query of that event if and only if no event ahead of it in the list has its ID |
| Collision.LateResponseIff | src/lib/dispatcher.cc:303-308 | A response to a query that is no longer outstanding changes nothing if and only if no outstanding query is a multiple of 65536 sends away from it |
| Collision.StepAbortsIff | src/lib/dispatcher.cc:88-97 | Exactly when any callback makes an assertion about TCP sockets fail: a TCP query goes out on a matched event that still owns a socket, or a TCP callback comes for an event that owns none |
| Collision.StepDiesIff | src/lib/dispatcher.cc:271-300 | Exactly when any callback ends the run by an exception, a bad header or a query that cannot be sent, and when by a crash |
| Collision.OrderMatters | src/lib/dispatcher.cc:318-319 | With two events of equal ID the same timeout ends different queries in the two orders of the list |
| TcpCollision.CollisionAborts | src/lib/dispatcher.cc:284-300 | For any window from 2 to 65536 and any timeout, a punctual TCP run of refused connections that ends in the failed assertion of `setTCPSocket` |
| TcpCollision.CollisionStrands | src/lib/dispatcher.cc:100-106 | For any window from 2 to 65536 and any timeout, a punctual TCP run after which a query is outstanding with no timer, no socket and no UDP receive, and which no further input of any kind could bring to its end |
| Order.StepSimulates | src/lib/dispatcher.cc:305-325 | With distinct IDs the list with its linear search takes the same step as a finite map from IDs to events |
| Order.OrderUnobservable | src/lib/dispatcher.cc:318-319 | While IDs are distinct: if a run is possible whose list is permuted at will between callbacks, then from any other order and with any other permutations the same callbacks can be taken, IDs are distinct there too, and the sends, counters, sockets and stop are the same |
| Order.IntendedOrderStands | src/lib/dispatcher.cc:318-319 | In particular a run of the model with distinct IDs stands for the runs with any other order |
| QueryFlow.QueriesInTurn | src/lib/query_context.cc:44-51 | Over any run on any repository, preloaded or streaming, the i-th query sent has ID i mod 65536 and is the i-th the repository hands out, whichever events the callbacks selected |
| QueryFlow.PreloadedInTurn | src/lib/query_repository.cc:264-272 | On a preloaded repository with a fresh cursor query i carries the name, type, class, protocol, serial and EDNS of request i mod n |
| QueryFlow.LoadedInTurn | src/lib/query_repository.cc:300-344 | After a load query i asks what valid line i mod n of the input loaded said, in the class, over the protocol and with the EDNS that were set |
| QueryFlow.StreamedInTurn | src/lib/query_repository.cc:274-278 | On a streaming repository it asks what valid line i mod n of the input said |
| QueryFlow.RunProjects | src/lib/query_context.cc:44-51 | Whatever repository feeds it, a run of dispatcher and repository is a run of the dispatcher alone, so all of the above applies |
| QueryFlow.BeginProjects | src/lib/dispatcher.cc:263-265 | The same for the initial dispatch |
| QueryContext.QueryContext.Start | src/lib/query_context.cc:43-52 | Takes exactly one request from the repository and stamps it with the ID; nothing is sent when the repository throws |
| Dispatcher.QueryEvent.Start | src/lib/dispatcher.cc:67-72 | The event has the new ID and its timer is armed before a request is taken; none is taken if the timer throws |
| Dispatcher.DispatcherImpl.SendQuery | src/lib/dispatcher.cc:177-193 | The send step of the machine on a started event: UDP or a new TCP socket with its assertion, then the counters |
| Dispatcher.DispatcherImpl.FindEvent | src/lib/dispatcher.cc:305-307 | The loop finds the first event with the ID |
| Dispatcher.DispatcherImpl.RestartQuery | src/lib/dispatcher.cc:302-329 | The objects go from one state of the dispatcher and repository machines to the next |
| Dispatcher.DispatcherImpl.ResponseCallback | src/lib/dispatcher.cc:271-282 | The same for a UDP response, with the exception on an unparsable header |
| Dispatcher.DispatcherImpl.QueryTimerCallback | src/lib/dispatcher.cc:100-106 | The same for an event's timer |
| Dispatcher.DispatcherImpl.ResponseTcpCallback | src/lib/dispatcher.cc:284-300 | The same for a TCP callback, with its assertion and the null buffer |
| Dispatcher.DispatcherImpl.SessionTimerCallback | src/lib/dispatcher.cc:195-199 | The same for the session timer |
| Dispatcher.DispatcherImpl.Begin | src/lib/dispatcher.cc:252-265 | The loops that create and dispatch the pool reach the state at the entry of the event loop |
| Dispatcher.DispatcherImpl.Run | src/lib/dispatcher.cc:236-269 | For any callbacks of the environment the object's counters add up, its window is full while sending, `stop` is called once, and the repository's requests go out in turn with consecutive IDs |
| Repository.QueryRepository.constructor | src/lib/query_repository.cc:106-124 | The defaults, and a stream at its start |
| Repository.QueryRepository.ParseQueryOptions | src/lib/query_repository.cc:157-175 | The loop over options leaves the last serial, or fails on a bad option |
| Repository.QueryRepository.ParseRequest | src/lib/query_repository.cc:212-257 | The part after the inner loop accepts the line as its field-by-field reading says |
| Repository.QueryRepository.ReadNextRequest | src/lib/query_repository.cc:177-261 | The nested loops return what the reader over lines returns, and terminate whenever that does |
| Repository.QueryRepository.GetNextQuery | src/lib/query_repository.cc:263-279 | Serves the next query of the machine, preloaded with a wrapping cursor or streamed |
| Repository.QueryRepository.Load | src/lib/query_repository.cc:300-321 | Preloads exactly the valid lines that are left, unless loaded before, empty, or stopped by the guard; which of these, in all cases |
| RepositorySpec.StreamingEqualsPreloading | src/lib/query_repository.cc:263-279 | For every input with a valid line and no cyclic run of 1000 blank or comment reads, the k-th query streamed is the k-th preloaded, for all k: element k mod n of the valid lines, with the same protocol, authority section and EDNS |
| RepositorySpec.AsksInTurn | src/lib/query_repository.cc:324-344 | On such an input the query number k, streamed or preloaded, has the name and type of valid line k mod n, the class and protocol set, its serial if any, and EDNS of 4096 bytes with the DNSSEC flag unless both flags are off or it is IXFR or AXFR |
| RepositorySpec.StreamingAgreesIff | src/lib/query_repository.cc:189-202 | On an input that loads, streaming and preloading serve the same queries for ever if and only if no 1000 blank or comment reads follow one another round its end |
| RepositorySpec.EdnsDecision | src/lib/query_repository.cc:329-344 | EDNS goes with a query unless both flags are off or it is a zone transfer; the DO bit is the DNSSEC flag; an authority section goes with IXFR only |
| CyclicReader.StreamingHaltsIff | src/lib/query_repository.cc:187-210 | Reading with rewind returns or throws if and only if the input has a valid line or a cyclic run of 1000 blank or comment reads |
| CyclicReader.OnePass | src/lib/query_repository.cc:187-258 | With a valid line it does so within one pass over the input |
| CyclicReader.BlankInputThrows | src/lib/query_repository.cc:189-194 | Input of only blank and comment lines makes it throw after exactly 1000 reads |
| ReaderWitnesses.OneWordNeverReturns | src/lib/query_repository.cc:216-220 | On the text of a single word a streaming read never returns |
| ReaderWitnesses.LoadsButStreamThrows | src/lib/query_repository.cc:189-199 | A file with one record between two stretches of fewer than 1000 blank lines, 1000 or more together, loads and serves its record once as a stream, and then the guard throws |
| CyclicReader.CyclicRunMeaning | src/lib/query_repository.cc:187-202 | Such a cyclic run is 1000 lines in a row, going on at the first after the last, that are blank or comments |
| CyclicReader.StreamingWorksIff | src/lib/query_repository.cc:189-202 | Streaming serves k requests for every k, and these round and round, if and only if there is a valid line and no such run |
| CyclicReader.StreamIsCyclic | src/lib/query_repository.cc:195-202 | The requests streamed are the valid lines, from the first one again after the last |
| LineReader.ForwardTerminates | src/lib/query_repository.cc:183-210 | Reading without rewind always ends, within one read per line left |
| LineReader.LoadMeaning | src/lib/query_repository.cc:300-315 | Loading throws if and only if 1000 blank or comment lines come in a row, and otherwise yields the valid lines in order |
| LineReader.GuardFiresIff | src/lib/query_repository.cc:187-210 | Loading a text throws if and only if 1000 of its lines in a row are empty or start with a semicolon |
| DataLine.AcceptedIff | src/lib/query_repository.cc:212-257 | A line is accepted if and only if it has two words or more, the first a valid name, the second a type that has a code once A6, ANY, AXFR and IXFR are replaced, the others good options, and no space ends it; it then asks for just that name and code, and for IXFR with the last serial given or 0 |
| DataLine.FieldsAreWords | src/lib/query_repository.cc:214-216 | The words of a line are what stands between its white space, that is spaces, tabs and the other white control characters |
| DataLine.ParseLineMeaning | src/lib/query_repository.cc:212-257 | A line is accepted if and only if its words are a valid name, a valid type after aliasing, and well-formed options, and no space follows them; it then says what these say |
| DataLine.SerialIsOwnLast | src/lib/query_repository.cc:242-249 | An IXFR request has the last serial of its own line, or 0; any other request has no authority record |
| DataLine.TrailingSpaceIgnored | src/lib/query_repository.cc:217-229 | A line with white space at its end is never accepted |
| DataFile.FileRoundTrip | src/lib/query_repository.cc:300-321 | Any list of records printed one per line, with or without a final newline and with fewer than 1000 blank or comment lines in a row anywhere, loads as the same list after aliasing |
| LineFeed.GetLineIsNextLine | src/lib/query_repository.cc:195-202 | `getline` walks the newline-separated pieces and meets the end of the file exactly with the last one |
| LineFeed.SplitJoin | src/lib/query_repository.cc:195-202 | Lines joined by newlines are read back as the same lines |
| Decimal.ParseU32Iff | src/lib/query_repository.cc:171-173 | A text is a serial if and only if it is digits after an optional sign whose value is below 2^32; a minus sign takes it modulo 2^32 |
| Decimal.DecimalRoundTrip | src/lib/query_repository.cc:171-173 | A 32-bit serial printed in decimal is parsed back |
| LengthPrefix.PrefixRoundTrip | src/lib/asio_message_manager.cc:191-194 | For every length up to 65535 the two bytes `send` writes decode to that length |
| LengthPrefix.MostSignificantFirst | src/lib/asio_message_manager.cc:191-194 | The first of the two bytes is the more significant one |
| LengthPrefix.FramesInjective | src/lib/asio_message_manager.cc:191-201 | No two lists of messages of at most 65535 bytes look the same on the wire |
| LengthPrefix.FramesSplitBack | src/lib/asio_message_manager.cc:195-201 | Concatenated sends split back into the same messages |
| LengthPrefix.UnframeIsInverse | src/lib/asio_message_manager.cc:281-282 | Whatever splits into messages is the framing of those messages and of no others |
| TcpSocketLife.Lifecycle | src/lib/asio_message_manager.cc:203-327 | Over every interleaving of completions with one release: at most one callback and none after cancel; one pending operation from `send` until completion, cancel or throw; freed at most once, as the last thing ever done to the object, with nothing pending |
| TcpSocketLife.RunUnsafeIff | src/lib/asio_message_manager.cc:203-215 | Over any run, whatever `async_connect` does: the object is freed under a pending operation if and only if its owner releases it with a connect pending on a descriptor that never opened |
| TcpSocketLife.LeakIff | src/lib/asio_message_manager.cc:149-157 | A cancelled socket is freed if and only if its pending operation reports the cancellation; after any other outcome nothing can free it |
| TcpSocketLife.OwnerHears | src/lib/asio_message_manager.cc:217-327 | What the owner hears of any completion on a live socket: the message kept when a read meets the end of the file; nothing when a connect, write, shutdown or length read fails; no buffer but the length kept when a data read fails |
| TcpSocketLife.NextOperation | src/lib/asio_message_manager.cc:217-327 | Which operation follows when it hears nothing, what the length prefix asks for, which message is kept, and when the handler throws |
| TcpSocketLife.NullReportIff | src/lib/asio_message_manager.cc:308-313 | A null buffer with a non-zero length is reported exactly when a data read fails, other than by end of file, after a first message was kept |
| TcpSocketLife.NullReported | src/lib/asio_message_manager.cc:308-313 | A run from a fresh socket, for every first message, that ends in such a report |
| TcpSocketLife.CancelledSocketLeaks | src/lib/asio_message_manager.cc:149-157 | A run from a fresh socket, cancelled while it connects, that leaves the object allocated with nothing that could free it |
| TcpSocketLife.FirstMessageDelivered | src/lib/asio_message_manager.cc:258-327 | Whatever messages of at most 65535 bytes the server frames before it closes, there is one callback, and the buffer holds the first non-empty one (length 0 if there is none) |
| TcpSocket.TcpMessageSocket.Send | src/lib/asio_message_manager.cc:191-201 | Stores the length prefix and has one connect pending |
| TcpSocket.TcpMessageSocket.Cancel | src/lib/asio_message_manager.cc:203-215 | Delayed abort on an open, uncompleted socket; otherwise the object is gone |
| TcpSocket.TcpMessageSocket.HandleConnect | src/lib/asio_message_manager.cc:217-229 | A step of the socket machine; what is handed over to be written is the prefix and the data |
| TcpSocket.TcpMessageSocket.HandleWrite | src/lib/asio_message_manager.cc:231-256 | A step of the socket machine, including the shutdown that may fail |
| TcpSocket.TcpMessageSocket.HandleReadLength | src/lib/asio_message_manager.cc:258-294 | A step of the socket machine; the buffer given to the next read is large enough |
| TcpSocket.TcpMessageSocket.HandleReadData | src/lib/asio_message_manager.cc:296-327 | A step of the socket machine; a later message never overwrites the first |
| TcpSocket.CreateMessageSocket | src/lib/asio_message_manager.cc:359-391 | The checks are exactly what a fresh TCP socket needs to start in its invariant; which socket or exception comes out, in all cases, those of the constructors included |
| TcpSocket.UdpMessageSocket.Send | src/lib/asio_message_manager.cc:105-119 | One receive is pending from the first successful send on |
| TcpSocket.UdpMessageSocket.HandleRead | src/lib/asio_message_manager.cc:121-131 | A socket that never sent never calls back |
| TcpRun.TcpRunSafe | src/lib/dispatcher.cc:284-300 | When all queries go over TCP and IDs are distinct, over any run: neither socket assertion fails; at each boundary of the event loop every outstanding event owns exactly one socket, working for it with one pending operation, and all others are retired; created = sent, released = sent minus outstanding; UDP never calls back; the run crashes if and only if a data read fails late |
| TcpAnswers.CompletionMeans | src/lib/dispatcher.cc:284-300 | With distinct IDs each completion of a live socket ends the query of its own event and no other: completed when the server closes after a first message with a header that parses, failed on any other report without data, and the run throws or crashes on a bad header or a null buffer |
| TcpAnswers.TcpRunAnswers | src/lib/dispatcher.cc:284-329 | Over any TCP run from the start with distinct IDs, however it ends: the completed queries are exactly those so answered, and the counter is their number; all others are outstanding or failed |
| TcpRun.TcpRunAborts | src/lib/dispatcher.cc:88-97 | When all queries go over TCP, over any run, colliding IDs or not: a socket calls back only the event that owns it, so the assertion of `clearTCPSocket` never fails; an assertion fails if and only if some restart finds another event ahead of the one called back, about to send and still with a socket; the run crashes if and only if a data read fails late |
| TcpRun.MoveSafe | src/lib/dispatcher.cc:88-97 | One move of a socket, a timer or the session timer keeps the links between events and sockets, colliding IDs or not; exactly which moves crash and which fail an assertion; with distinct IDs none fails and every event has a socket afterwards |
| TcpRun.BeginInv | src/lib/dispatcher.cc:181-188 | At the entry of the event loop each event owns the connecting socket created for it |
| TcpRun.TimedTcpRunIsDistinct | src/lib/dispatcher.cc:67-72 | The rate bound gives the distinct IDs that `TcpRunSafe` asks for |
| TcpCrash.CrashRun | src/lib/dispatcher.cc:284-300 | For any window up to 65536 and any timeout, any first message with a header and any length announced after it, a punctual TCP run with distinct IDs that crashes on the null buffer |
| Statistics.WorkersSound | src/bin/queryperfpp/queryperfpp.cc:50-53 | For any workers and any runs of theirs, however they ended, total completed never exceeds total sent; when all drained, the difference is the number of failed queries |
| Statistics.RunCounts | src/bin/queryperfpp/queryperfpp.cc:50-53 | A dispatcher at the end of any run, fed by any repository, has the counters of a worker that `WorkersSound` speaks of |
| Statistics.RunWorker | src/bin/queryperfpp/queryperfpp.cc:104-112 | Running a dispatcher leaves it with the counters that the summary asks for, whatever the environment does |
| Statistics.AccumulateAll | src/bin/queryperfpp/queryperfpp.cc:294-296 | The loop computes the totals in unsigned 64-bit arithmetic |
| Statistics.Summarize | src/bin/queryperfpp/queryperfpp.cc:320-324 | The unsigned lost count does not wrap while the total sent fits in 64 bits, and is the number of failed queries after a normal end |

## Left out

- The asynchronous library, operating system sockets, address parsing and socket options; only pending
  operations and their completions remain.
- The Bundy DNS library: names, types, rendering and header parsing are parameters or outcomes.
- Command line, printing, queries-per-second figures and percentages, which are floating point.
- Threads: workers share no state, so they are independent runs whose counters are added up.
- The opcode, response code and RD flag of a query message, which never vary.
- Getters, and the checks of the dispatcher against being configured after a run.
- A failed or non-seekable input stream (`query_repository.cc:203-206`), and a repository used after a
  `load` that threw part-way.
- Repository.QueryRepository.ReadNextRequest: with rewind, and GetNextQuery likewise, asks for exactly the
  inputs on which the source returns at all (`CyclicReader.StreamingHaltsIff`); on the others there is
  nothing to state but that it does not return.
- Dispatcher.DispatcherImpl.Run: the counters are unbounded per worker; the wrap-around of `size_t` is
  modelled in the summary only.
- Dispatcher.QueryEvent: TCP sockets are held by number. That the object behind the number behaves as a
  socket is the subject of `tcp_run.dfy`, on values.
- TcpSocket.TcpMessageSocket.LengthRead: the leak of an earlier auxiliary buffer when a third message
  arrives (`asio_message_manager.cc:286-288`) is not stated.
- Deletion of an event or a socket from within its own callback is safe in the model by definition; the
  lifetime of the callback object itself (`boost::function`) is not modelled.
