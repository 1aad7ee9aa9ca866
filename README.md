# hackrf_one_mqtt: a Dafny model of the capture-to-MQTT pipeline

hackrf_one_mqtt receives I/Q samples from a HackRF One and publishes them to an
MQTT broker. libhackrf calls a receive callback on its own thread. The callback
copies each transfer into a chunk and pushes it, without blocking, into a
bounded thread-safe queue. A publisher thread pops chunks with a 100 ms timeout
and hands them to the MQTT client while the client is connected. It drops them
otherwise. An operator can send `PAUSE` and `RESUME` on a control topic to
stop and restart reception. A small logger filters records by a configurable
level.

The model has five modules, one per source component:

- `Wrappers` (`wrappers.dfy`): `Option`, which stands in for `std::optional`.
- `ThreadSafeQueue` (`thread_safe_queue.dfy`): `ThreadSafeQueue<T>` as the
  class `BoundedQueue<T>`. The class holds the queue contents as a `seq` and
  the capacity `maxSize`, where 0 means unbounded. The pure functions
  `Offer` and `Run` describe what a sequence of pushes and pops does. The
  lemmas about them state the capacity bound, FIFO order and the
  fill-until-full behaviour.
- `Logger` (`logger.dfy`): the ordered `LogLevel` enum, the case-insensitive
  parser `string_to_log_level`, one translation unit's current level
  (class `LoggerState`; see "## Left out" for why there is one copy per
  source file), and the filter and stream choice inside `log`.
- `HackRF` (`hackrf_handler.dfy`): `HackRFHandler` as a guarded state machine
  over `device_`, `streaming_` and `rx_callback_context_`. Every libhackrf
  result is an integer return-code parameter. `HACKRF_SUCCESS` is 0 and
  `HACKRF_TRUE` is 1, as in libhackrf. Two ghost traces record which handler
  operations were invoked (`requests`, including the `is_streaming` query)
  and which library functions were called (`libCalls`, including
  `hackrf_is_streaming`). Every operation keeps the invariant
  `streaming_ ==> device_ != null` (`Valid`).
- `Pipeline` (`pipeline.dfy`): the glue in `src/main.cpp`. It covers the
  receive callback, one iteration of the publisher thread and the whole loop,
  and the control-command handler. The handler is split into a pure
  recogniser (`ParseCommand`), a decision table (`Decide`, `NextFlag`) and
  the imperative handler that calls into `HackRFHandler`. `Replay` runs any
  sequence of commands so that lemmas can state properties across
  consecutive commands. The MQTT client is the class `MqttTransport`. Its
  ghost trace records every `publish_message` request. Whether it is
  connected and what it returns are parameters.

Three behaviours of the code worth noting:

- Two RESUMEs in a row are not always one `start_rx` (src/main.cpp:174-178).
  When the first `start_rx` fails, `hackrf_should_be_streaming` stays false.
  The next RESUME then calls `start_rx` again (`FailedResumeIsRetried`).
  `RepeatedResumeStartsOnce` states what does hold: at most one start
  succeeds, and no stop happens.
- PAUSE asks `is_streaming`, which queries `hackrf_is_streaming`, not the
  handler's `streaming_` field (src/main.cpp:164-167). The device may report
  streaming while `streaming_` is false. In that case `stop_rx` refuses at
  its own guard, yet the flag still drops to false. The flag also drops when
  `hackrf_stop_rx` fails (`ControlCommandHandler`).
- A full queue produces one warning per dropped chunk (src/main.cpp:42-43).
  There is no rate-limited diagnostic. The model leaves logging out in any
  case.

## Model

| member | source | states |
|---|---|---|
| `ThreadSafeQueue.Offer` | include/thread_safe_queue.h:26-36 | a push never takes a queue within its capacity past it; whether a value is taken, and where, is stated by `BoundedQueue.TryPush` and the lemmas on `Run` |
| `ThreadSafeQueue.BoundedQueue.constructor` | include/thread_safe_queue.h:16 | a new queue is empty, has the given capacity and satisfies the bound |
| `ThreadSafeQueue.BoundedQueue.TryPush` | include/thread_safe_queue.h:26-36 | returns false and leaves the contents unchanged when `max_size_ > 0` and the size is at least `max_size_`; otherwise returns true and the contents become the old contents plus the value at the tail; the bound is preserved |
| `ThreadSafeQueue.BoundedQueue.Push` | include/thread_safe_queue.h:40-47 | same effect on the contents as `try_push`; on a full bounded queue the value is silently discarded |
| `ThreadSafeQueue.BoundedQueue.WaitAndPop` | include/thread_safe_queue.h:51-57 | on a non-empty queue returns the head and leaves the tail |
| `ThreadSafeQueue.BoundedQueue.TryPop` | include/thread_safe_queue.h:60-68 | an empty queue yields nothing and is unchanged; otherwise yields the head and the queue becomes its tail |
| `ThreadSafeQueue.BoundedQueue.WaitForAndPop` | include/thread_safe_queue.h:73-81 | taken sequentially: nothing and no change when empty, else exactly the head is removed and returned |
| `ThreadSafeQueue.BoundedQueue.Empty` | include/thread_safe_queue.h:83-86 | true exactly when the size is 0; changes nothing |
| `ThreadSafeQueue.BoundedQueue.Size` | include/thread_safe_queue.h:88-91 | the number of queued values, 0 exactly for the empty queue; changes nothing |
| `ThreadSafeQueue.Run` | include/thread_safe_queue.h:26-81 | a sequence of `try_push` and `try_pop` calls on one queue: every push gets exactly one verdict and no more values are taken in than offered; its contents are described by `RunConserves`, `AcceptedArePushed`, `PoppedInPushOrder`, `FillBounded` and `UnboundedTakesAll` |
| `ThreadSafeQueue.RunConserves` | include/thread_safe_queue.h:26-81 | over any sequence of pushes and pops, the initial contents followed by the accepted values equal the popped values followed by the final contents, so nothing is lost, duplicated or reordered; the capacity bound holds at the end |
| `ThreadSafeQueue.AcceptedArePushed` | include/thread_safe_queue.h:26-36 | the values the queue accepts are a subsequence of the values pushed, in push order |
| `ThreadSafeQueue.PoppedInPushOrder` | include/thread_safe_queue.h:26-81 | from an empty queue, the popped values are a prefix of the accepted values and a subsequence of the pushed values |
| `ThreadSafeQueue.FillBounded` | include/thread_safe_queue.h:28-35 | pushing N values with no pops into a bounded queue keeps the first values that fit, in push order; `try_push` returns true for exactly those and false for every later one |
| `ThreadSafeQueue.UnboundedTakesAll` | include/thread_safe_queue.h:16-35 | with `max_size_ == 0` every push succeeds and every pushed value is accepted |
| `Logger.Rank` | include/logger.h:15-21 | a rank below 5 for each level; its body gives the enumerators' underlying values, and the order they induce is stated by `LevelsTotallyOrdered` |
| `Logger.LevelsTotallyOrdered` | include/logger.h:15-21 | `>=` on levels is total and antisymmetric, with DEBUG < INFO < WARNING < ERROR < NONE |
| `Logger.AtLeast` | include/logger.h:74 | `level >= current`: every level reaches itself and DEBUG, NONE reaches every level, DEBUG reaches only DEBUG; totality and the chain are stated by `LevelsTotallyOrdered` |
| `Logger.FilterUpwardClosed` | include/logger.h:74 | a record that passes the filter at some level also passes at every higher level, and raising the current level never lets more records through |
| `Logger.UpperChar` | include/logger.h:30 | `::toupper` in the C locale: a lower-case letter becomes the upper-case letter at the same place in the alphabet; the result is never a lower-case letter, is an upper-case letter exactly for a letter of either case, and every character outside 'a'..'z' is left alone |
| `Logger.UpperCaseAlphabet` | include/logger.h:30 | against the written-out alphabets, each of 'a'..'z' becomes the upper-case letter at the same position |
| `Logger.ToUpper` | include/logger.h:29-30 | the upper-cased copy has the same length and holds the upper-cased character at every position |
| `Logger.StringToLogLevel` | include/logger.h:28-38 | any result other than INFO is the level whose name the upper-cased input spells; `ParseRecognisesNames`, `ParseDefaultsToInfo`, `ParseResultSpelled` and `ParseIgnoresCase` characterise it fully |
| `Logger.ParseRecognisesNames` | include/logger.h:28-36 | "DEBUG", "INFO", "WARNING", "ERROR" and "NONE", in any letter case, map to their level |
| `Logger.ParseDefaultsToInfo` | include/logger.h:28-37 | a string that spells no level name in any case maps to INFO |
| `Logger.ParseResultSpelled` | include/logger.h:32-36 | conversely, a result other than INFO arises only from that level's name in some letter case |
| `Logger.ParseIgnoresCase` | include/logger.h:29-30 | two strings equal up to ASCII letter case parse to the same level |
| `Logger.WarnTagIsNotALevel` | include/logger.h:85-88 | "WARN", the tag `LOG_WARN` prints, is not a level name: "WARN" and "warn" parse to INFO, not WARNING |
| `Logger.ParseMixedCaseExamples` | include/logger.h:28-36 | "debug", "Error", "none" and "Info" parse to DEBUG, ERROR, NONE and INFO |
| `Logger.ParseAlternatingCase` | include/logger.h:28-36 | "wArNiNg" parses to WARNING |
| `Logger.StreamFor` | include/logger.h:79 | never suppressed; standard error exactly for levels at least WARNING other than NONE, that is WARNING and ERROR |
| `Logger.LoggerState.constructor` | include/logger.h:25 | one translation unit's current level starts at INFO |
| `Logger.LoggerState.Init` | include/logger.h:41-43 | `init(level)` stores the level |
| `Logger.LoggerState.InitFromString` | include/logger.h:45-47 | `init(s)` leaves the current level that `string_to_log_level(s)` gives |
| `Logger.LoggerState.Log` | include/logger.h:73-82 | a record is written exactly when its level is at least the current level; it goes to standard error exactly when it is written and is an ERROR or WARNING record, otherwise to standard output; with the current level NONE, every level other than NONE is suppressed |
| `HackRF.HackRFHandler.constructor` | src/hackrf_handler.cpp:4 | no device, not streaming, no context, empty traces |
| `HackRF.HackRFHandler.Init` | src/hackrf_handler.cpp:11-31 | on an open handler returns true with no library call and no change; otherwise succeeds exactly when `hackrf_init` and `hackrf_open` succeed and yield a device, which becomes `device_`; a failed open leaves `device_` null and calls `hackrf_exit` |
| `HackRF.HackRFHandler.Deinit` | src/hackrf_handler.cpp:33-47 | afterwards there is no device and no streaming; `stop_rx` is called exactly when the handler was streaming, `hackrf_close` exactly when a device was open, and `hackrf_exit` always |
| `HackRF.HackRFHandler.StartRx` | src/hackrf_handler.cpp:136-154 | with no device or while streaming: false, no library call, no change; otherwise the context is stored, `hackrf_start_rx` is called once, and streaming becomes true exactly when it succeeds, which is also the result |
| `HackRF.HackRFHandler.StopRx` | src/hackrf_handler.cpp:156-172 | with no device or not streaming: false, no library call, no change; past the guard `hackrf_stop_rx` is called once and streaming is false afterwards even on failure; the context is cleared only on success, which is also the result |
| `HackRF.HackRFHandler.IsStreaming` | src/hackrf_handler.cpp:174-181 | false whenever there is no device; otherwise what `hackrf_is_streaming` reports; the query is recorded, `hackrf_is_streaming` is called exactly when a device is open, and no handler field changes |
| `Pipeline.RxCallback` | src/main.cpp:31-47 | with `keep_running` 0, returns -1 and leaves the queue untouched; otherwise returns 0; with a queue and `valid_length > 0` exactly one chunk equal to `buffer[0..valid_length)` is offered with one non-blocking push, with no retry on a full queue |
| `Pipeline.MqttTransport.PublishMessage` | src/mqtt_client.cpp:110-123 | records one publish request (topic, payload, qos) and returns the client's status code |
| `Pipeline.PublisherStep` | src/main.cpp:57-79 | one timed pop; nothing happens on an empty queue; a popped chunk is passed to `publish_message` on the configured topic and qos only when the client is connected, and is discarded otherwise; the status code is reported and never ends the step |
| `Pipeline.PublisherLoop` | src/main.cpp:50-82 | the loop runs exactly as many iterations as `should_run` is read true, whatever the publish status codes; with no concurrent producer it pops the first chunks in order and publishes exactly those popped while connected, in pop order |
| `Pipeline.KeptIsSubsequence` | src/main.cpp:57-79 | what the publisher publishes is a subsequence of what it popped: no reordering, no duplicates |
| `Pipeline.KeptAllWhenConnected` | src/main.cpp:63-75 | while the client stays connected every popped chunk is published |
| `Pipeline.KeptNoneWhenDisconnected` | src/main.cpp:76-78 | while the client stays disconnected no chunk is published |
| `Pipeline.ParseCommand` | src/main.cpp:163-184 | a payload is unknown exactly when it is neither "PAUSE" nor "RESUME", and an unknown command keeps the payload; `CommandsAreCaseSensitive` gives near misses |
| `Pipeline.CommandsAreCaseSensitive` | src/main.cpp:163-171 | "pause", "Pause", "resume", "STOP", "PAUSE " and "" are all unknown commands |
| `Pipeline.OnlyExactLiteralsAct` | src/main.cpp:163-184 | the device is stopped exactly for the literal "PAUSE" while the flag is set and the device reports streaming; it is started exactly for the literal "RESUME" while the flag is clear and the device reports not streaming; any other payload or state leaves the flag unchanged |
| `Pipeline.Decide` | src/main.cpp:163-184 | a stop is decided only for PAUSE with the flag set and the device streaming, a start only for RESUME with the flag clear and the device not streaming, and an unknown command is always ignored; `OnlyExactLiteralsAct` gives both directions |
| `Pipeline.NextFlag` | src/main.cpp:163-181 | the flag is raised only by a successful start, lowered only by a stop or a failed start, and kept when nothing is done |
| `Pipeline.StreamingFlag.constructor` | src/main.cpp:158 | the shared flag starts at the given value |
| `Pipeline.ControlCommandHandler` | src/main.cpp:160-185 | after a stop the flag is false even if `stop_rx` failed, after a start attempt it is the attempt's success, and an ignored command leaves it unchanged; an unknown command invokes nothing on the handler; PAUSE queries `is_streaming` exactly when the flag is set and RESUME exactly when it is clear, and an ignored PAUSE or RESUME makes that query and nothing else; a decided stop calls `stop_rx` exactly once and leaves the handler not streaming, with the context cleared exactly when the handler was streaming and `hackrf_stop_rx` succeeded; a decided start calls `start_rx` exactly once with the queue as context, which becomes the handler's context whenever a device is open and the handler was not streaming |
| `Pipeline.Replay` | src/main.cpp:160-185 | a sequence of control commands with the device's answers, giving the final flag and the stop/start effects: each command makes at most one device call, and a run with no device call leaves the flag unchanged; its effects are described by `StopsAndStartsAlternate`, `RepeatedPauseStopsOnce`, `RepeatedResumeStartsOnce` and `FailedResumeIsRetried` |
| `Pipeline.StopsAndStartsAlternate` | src/main.cpp:160-185 | over any sequence of commands and device answers, stops and successful starts alternate, starting with a stop exactly when the flag starts set, and start attempts happen only while the flag is clear |
| `Pipeline.RepeatedPauseStopsOnce` | src/main.cpp:163-170 | any run of consecutive PAUSE commands stops the device at most once, and never when the flag starts clear |
| `Pipeline.RepeatedResumeStartsOnce` | src/main.cpp:171-181 | any run of consecutive RESUME commands never stops the device and succeeds in starting it at most once, as its last device call; nothing happens when the flag starts set |
| `Pipeline.FailedResumeIsRetried` | src/main.cpp:172-178 | after a RESUME whose `start_rx` fails, a second RESUME calls `start_rx` again |

## Left out

- Locking, condition variables, blocking and timeouts in the queue are not modelled. Each queue operation is one atomic step. `WaitForAndPop` treats an empty queue as a timeout, and spurious wake-ups are not modelled.
- `ThreadSafeQueue.BoundedQueue.WaitAndPop`: modelled only on a non-empty queue. On an empty queue the source blocks until another thread pushes, and a sequential model cannot express that.
- The interleaving of the three threads is not modelled: the receive callback, the publisher thread and the MQTT network thread. `PublisherLoop` assumes no producer runs beside it.
- `Pipeline.PublisherLoop`: the atomic `should_run` is modelled as an iteration count, the number of times the flag reads true. Its change by the main thread is not modelled.
- `Pipeline.MqttTransport.PublishMessage`: the MQTT client is an oracle. Its own check that returns `MOSQ_ERR_NO_CONN` when disconnected, connection handling, subscriptions, reconnects and message callbacks are not modelled. `is_connected` is a parameter.
- Orchestration in `main` is not modelled: configuration loading from JSON, signal handlers, thread start and join, the connect wait loop, the keep-alive loop, and the startup and shutdown sequence.
- The tuning calls of `HackRFHandler` are not modelled: `set_frequency`, `set_sample_rate`, `set_baseband_filter_bandwidth`, `set_lna_gain`, `set_vga_gain` and `set_amp_enable`. Each is a one-line pass-through to libhackrf behind the same null-device guard.
- The receive-callback function pointer given to `start_rx` is not recorded. Only the context pointer is.
- `Pipeline.RxCallback`: the `hackrf_transfer` is reduced to its buffer, `valid_length` and `rx_ctx`. libhackrf's promise that `valid_length` does not exceed the buffer is taken as a precondition.
- Log output is not modelled: timestamps, message formatting and the actual stream writes. The model states only whether a record is written and to which stream. The warnings logged on a full queue, a publish failure or an unknown command are not modelled.
- `Logger.LoggerState` models a single copy of `current_log_level`. The header declares it `static` at namespace scope (include/logger.h:25), so each source file that includes the header gets its own copy: src/main.cpp, src/hackrf_handler.cpp and src/mqtt_client.cpp. The `init` calls in `main` set only main.cpp's copy. Records logged from the handler and the MQTT client are filtered against their own copies, which stay at INFO. So with level NONE, handler messages are still printed, and with level DEBUG the client's DEBUG records are still dropped. The model does not capture this per-file split.
- `Logger.ToUpper` models `::toupper` in the C locale on ASCII letters only. Other locales, and bytes above 127 (undefined behaviour for `::toupper` on a signed `char`), are not modelled.
- Fixed-width integers are not modelled: `size_t` capacities and sizes, and the `int` cast of a chunk's size before publishing. Lengths are unbounded.
- Exceptions thrown inside the control handler are not modelled. The MQTT client catches them, and that client is not part of this model.
