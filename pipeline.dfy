/**
 * The glue in `src/main.cpp`: the receive callback that turns a libhackrf
 * transfer into a queued chunk, the publisher thread that drains the queue
 * into the MQTT client, and the PAUSE/RESUME control-command handler.
 * The MQTT client is an abstract collaborator: whether it is connected and
 * what `publish_message` returns are parameters, and a ghost trace records
 * every publish it is asked for.
 */
module Pipeline {
  import opened Wrappers
  import opened ThreadSafeQueue
  import opened HackRF

  newtype byte = x: int | 0 <= x < 256

  /** One `std::vector<unsigned char>` of I/Q samples. */
  type Chunk = seq<byte>

  type DataQueue = BoundedQueue<Chunk>

  /** mosquitto's `MOSQ_ERR_SUCCESS`. */
  const MOSQ_ERR_SUCCESS: int := 0

  // ---------------------------------------------------------------------
  // Producer: hackrf_rx_callback

  /**
   * The receive callback. `keepRunning` is the signal flag, `buffer` and
   * `validLength` the transfer's data, `rxContext` the queue pointer it
   * carries. Returns -1 to ask libhackrf to stop, 0 to continue.
   */
  method RxCallback(keepRunning: int, buffer: seq<byte>, validLength: int, rxContext: BoundedQueue?<Chunk>)
    returns (rc: int)
    requires validLength <= |buffer|
    requires rxContext != null ==> rxContext.Valid()
    modifies rxContext
    ensures rxContext != null ==> rxContext.Valid()
    ensures rc == if keepRunning == 0 then -1 else 0
    ensures rxContext != null && (keepRunning == 0 || validLength <= 0) ==>
      rxContext.items == old(rxContext.items)
    ensures rxContext != null && keepRunning != 0 && validLength > 0 ==>
      rxContext.items == Offer(rxContext.maxSize, old(rxContext.items), buffer[..validLength]).1
  {
    if keepRunning == 0 {
      return -1;
    }
    if rxContext != null && validLength > 0 {
      var chunk := buffer[..validLength];
      var pushed := rxContext.TryPush(chunk);
      // a rejected chunk is dropped: no retry, no blocking
    }
    rc := 0;
  }

  // ---------------------------------------------------------------------
  // Publisher: mqtt_publisher_thread_func

  /** One `publish_message` request as the MQTT client receives it. */
  datatype PublishCall = PublishCall(topic: string, payload: Chunk, qos: int)

  /** The MQTT client, seen only through `publish_message`. */
  class MqttTransport {
    ghost var publishCalls: seq<PublishCall>

    constructor ()
      ensures publishCalls == []
    {
      publishCalls := [];
    }

    /** `publish_message`; `rc` is what the client reports. */
    method PublishMessage(topic: string, payload: Chunk, qos: int, rc: int) returns (r: int)
      modifies this
      ensures r == rc
      ensures publishCalls == old(publishCalls) + [PublishCall(topic, payload, qos)]
    {
      publishCalls := publishCalls + [PublishCall(topic, payload, qos)];
      r := rc;
    }
  }

  /** What one iteration of the publisher loop did. */
  datatype StepOutcome = Idle | Discarded(chunk: Chunk) | Published(chunk: Chunk, rc: int)

  /**
   * One iteration of the publisher loop: a timed pop, then a publish of
   * the popped chunk if the client is `connected`, else a silent discard.
   */
  method PublisherStep(queue: DataQueue, transport: MqttTransport, topic: string, qos: int,
                       connected: bool, publishRc: int)
    returns (outcome: StepOutcome)
    requires queue.Valid()
    modifies queue, transport
    ensures queue.Valid()
    ensures old(queue.items) == [] ==>
      outcome == Idle && queue.items == old(queue.items) &&
      transport.publishCalls == old(transport.publishCalls)
    ensures old(queue.items) != [] ==> queue.items == old(queue.items)[1..]
    ensures old(queue.items) != [] && !connected ==>
      outcome == Discarded(old(queue.items)[0]) &&
      transport.publishCalls == old(transport.publishCalls)
    ensures old(queue.items) != [] && connected ==>
      outcome == Published(old(queue.items)[0], publishRc) &&
      transport.publishCalls == old(transport.publishCalls) + [PublishCall(topic, old(queue.items)[0], qos)]
  {
    var popped := queue.WaitForAndPop(100);
    match popped
    case None =>
      outcome := Idle;
    case Some(chunk) =>
      if connected {
        var rc := transport.PublishMessage(topic, chunk, qos, publishRc);
        // a failing rc, connection-class or not, is only logged
        outcome := Published(chunk, rc);
      } else {
        outcome := Discarded(chunk);
      }
  }

  /** The elements of `xs` whose flag in `keep` is set, in order. */
  function Kept<T>(xs: seq<T>, keep: seq<bool>): (r: seq<T>)
    requires |keep| == |xs|
    ensures |r| <= |xs|
    decreases |xs|
  {
    if xs == [] then []
    else Kept(xs[..|xs| - 1], keep[..|keep| - 1]) + (if keep[|keep| - 1] then [xs[|xs| - 1]] else [])
  }

  /** The publish requests for `chunks`, all to `topic` with `qos`. */
  function ToCalls(topic: string, qos: int, chunks: seq<Chunk>): seq<PublishCall> {
    seq(|chunks|, i requires 0 <= i < |chunks| => PublishCall(topic, chunks[i], qos))
  }

  /** What is published is a subsequence of what was popped: no reordering, no duplicates. */
  lemma {:induction false} KeptIsSubsequence<T>(xs: seq<T>, keep: seq<bool>)
    requires |keep| == |xs|
    ensures IsSubsequence(Kept(xs, keep), xs)
    decreases |xs|
  {
    if xs != [] {
      var n := |xs| - 1;
      KeptIsSubsequence(xs[..n], keep[..n]);
      SubsequenceSnoc(Kept(xs[..n], keep[..n]), xs[..n], xs[n], keep[n]);
      assert xs[..n] + [xs[n]] == xs;
    }
  }

  /** Extending both sides by one element, kept or not, keeps a subsequence. */
  lemma {:induction false} SubsequenceSnoc<T>(a: seq<T>, b: seq<T>, x: T, take: bool)
    requires IsSubsequence(a, b)
    ensures IsSubsequence(a + (if take then [x] else []), b + [x])
    decreases |b|
  {
    var a' := a + (if take then [x] else []);
    if b == [] {
      assert a == [];
      if take {
        assert a' == [x] && (b + [x])[1..] == [];
        assert IsSubsequence(a'[1..], (b + [x])[1..]);
      } else {
        assert a' == [] && (b + [x])[1..] == [];
        assert IsSubsequence(a', (b + [x])[1..]);
      }
    } else {
      assert (b + [x])[1..] == b[1..] + [x];
      if IsSubsequence(a, b[1..]) {
        SubsequenceSnoc(a, b[1..], x, take);
      } else {
        SubsequenceSnoc(a[1..], b[1..], x, take);
        assert a'[1..] == a[1..] + (if take then [x] else []);
      }
    }
  }

  /** While the client stays connected every popped chunk is published. */
  lemma {:induction false} KeptAllWhenConnected<T>(xs: seq<T>, keep: seq<bool>)
    requires |keep| == |xs|
    requires forall i :: 0 <= i < |keep| ==> keep[i]
    ensures Kept(xs, keep) == xs
    decreases |xs|
  {
    if xs != [] {
      var n := |xs| - 1;
      KeptAllWhenConnected(xs[..n], keep[..n]);
      assert xs[..n] + [xs[n]] == xs;
    }
  }

  /** While the client stays disconnected nothing is published. */
  lemma {:induction false} KeptNoneWhenDisconnected<T>(xs: seq<T>, keep: seq<bool>)
    requires |keep| == |xs|
    requires forall i :: 0 <= i < |keep| ==> !keep[i]
    ensures Kept(xs, keep) == []
    decreases |xs|
  {
    if xs != [] {
      var n := |xs| - 1;
      KeptNoneWhenDisconnected(xs[..n], keep[..n]);
    }
  }

  /** One more popped chunk adds one publish request exactly when it was kept. */
  lemma PublishedGrows(topic: string, qos: int, items: seq<Chunk>, keep: seq<bool>, i: nat)
    requires i < |items| && i < |keep|
    ensures ToCalls(topic, qos, Kept(items[..i + 1], keep[..i + 1])) ==
      ToCalls(topic, qos, Kept(items[..i], keep[..i])) + (if keep[i] then [PublishCall(topic, items[i], qos)] else [])
  {
    assert items[..i + 1][..i] == items[..i] && keep[..i + 1][..i] == keep[..i];
    var done := Kept(items[..i], keep[..i]);
    assert Kept(items[..i + 1], keep[..i + 1]) == done + (if keep[i] then [items[i]] else []);
  }

  /** What iteration `j` of the loop does when the queue held `items` at the start. */
  function ExpectedOutcome(items: seq<Chunk>, connected: seq<bool>, publishRcs: seq<int>, j: nat): StepOutcome
    requires j < |connected| && j < |publishRcs|
  {
    if j >= |items| then Idle
    else if connected[j] then Published(items[j], publishRcs[j])
    else Discarded(items[j])
  }

  function Min(a: nat, b: nat): nat {
    if a < b then a else b
  }

  /**
   * The publisher thread, with the flag `should_run` read true `iterations`
   * times and then false. In iteration `i` the client answers
   * `connected[i]` and `publish_message` returns `publishRcs[i]`. With no
   * producer running beside it the loop pops the first `m` chunks and
   * publishes those popped while connected; the publish results do not
   * change how many iterations run.
   */
  method PublisherLoop(queue: DataQueue, transport: MqttTransport, topic: string, qos: int,
                       iterations: nat, connected: seq<bool>, publishRcs: seq<int>)
    returns (outcomes: seq<StepOutcome>)
    requires queue.Valid()
    requires |connected| >= iterations && |publishRcs| >= iterations
    modifies queue, transport
    ensures queue.Valid()
    ensures |outcomes| == iterations
    ensures var m := Min(iterations, |old(queue.items)|);
      && queue.items == old(queue.items)[m..]
      && transport.publishCalls ==
           old(transport.publishCalls) + ToCalls(topic, qos, Kept(old(queue.items)[..m], connected[..m]))
    ensures forall i :: 0 <= i < iterations ==>
      outcomes[i] == ExpectedOutcome(old(queue.items), connected, publishRcs, i)
  {
    ghost var items := queue.items;
    ghost var calls := transport.publishCalls;
    outcomes := [];
    var i := 0;
    while i < iterations
      invariant 0 <= i <= iterations
      invariant queue.Valid()
      invariant |outcomes| == i
      invariant queue.items == items[Min(i, |items|)..]
      invariant transport.publishCalls ==
        calls + ToCalls(topic, qos, Kept(items[..Min(i, |items|)], connected[..Min(i, |items|)]))
      invariant forall j :: 0 <= j < i ==> outcomes[j] == ExpectedOutcome(items, connected, publishRcs, j)
    {
      ghost var m := Min(i, |items|);
      var outcome := PublisherStep(queue, transport, topic, qos, connected[i], publishRcs[i]);
      if i < |items| {
        assert m == i && items[m..][0] == items[i] && items[m..][1..] == items[i + 1..];
        PublishedGrows(topic, qos, items, connected, i);
      }
      outcomes := outcomes + [outcome];
      i := i + 1;
    }
  }

  // ---------------------------------------------------------------------
  // Control: control_command_handler

  /** A control-topic payload, recognised by exact, case-sensitive match. */
  datatype Command = Pause | Resume | Unknown(payload: string)

  function ParseCommand(payload: string): (c: Command)
    ensures c.Unknown? <==> payload != "PAUSE" && payload != "RESUME"
    ensures c.Unknown? ==> c.payload == payload
  {
    if payload == "PAUSE" then Pause
    else if payload == "RESUME" then Resume
    else Unknown(payload)
  }

  /** Only the two exact upper-case literals are commands. */
  lemma CommandsAreCaseSensitive()
    ensures ParseCommand("pause").Unknown? && ParseCommand("Pause").Unknown?
    ensures ParseCommand("resume").Unknown? && ParseCommand("STOP").Unknown?
    ensures ParseCommand("PAUSE ").Unknown? && ParseCommand("").Unknown?
  {
  }

  /** What the handler asks of the device for one command. */
  datatype Action = StopDevice | StartDevice | Ignore

  /**
   * The dispatcher's decision from the command, the shared flag
   * `hackrf_should_be_streaming` and what `is_streaming` reports.
   */
  function Decide(cmd: Command, shouldStream: bool, deviceStreaming: bool): (a: Action)
    ensures a == StopDevice ==> cmd == Pause && shouldStream && deviceStreaming
    ensures a == StartDevice ==> cmd == Resume && !shouldStream && !deviceStreaming
    ensures cmd.Unknown? ==> a == Ignore
  {
    match cmd
    case Pause => if shouldStream && deviceStreaming then StopDevice else Ignore
    case Resume => if !shouldStream && !deviceStreaming then StartDevice else Ignore
    case Unknown(_) => Ignore
  }

  /**
   * The flag after `action`, when a start attempt reports `started`: it is
   * raised only by a successful start and lowered only by a stop or a
   * failed start.
   */
  function NextFlag(action: Action, shouldStream: bool, started: bool): (f: bool)
    ensures f && !shouldStream ==> action == StartDevice && started
    ensures !f && shouldStream ==> action == StopDevice || (action == StartDevice && !started)
    ensures action == Ignore ==> f == shouldStream
  {
    match action
    case StopDevice => false
    case StartDevice => started
    case Ignore => shouldStream
  }

  /**
   * Only the exact literals act: PAUSE can only stop, RESUME can only
   * start, and any other payload leaves the device and the flag alone.
   */
  lemma OnlyExactLiteralsAct(payload: string, shouldStream: bool, deviceStreaming: bool, started: bool)
    ensures var a := Decide(ParseCommand(payload), shouldStream, deviceStreaming);
      && (a == StopDevice <==> payload == "PAUSE" && shouldStream && deviceStreaming)
      && (a == StartDevice <==> payload == "RESUME" && !shouldStream && !deviceStreaming)
      && (a == Ignore ==> NextFlag(a, shouldStream, started) == shouldStream)
  {
  }

  /** The process-wide `hackrf_should_be_streaming` (initially true). */
  class StreamingFlag {
    var value: bool

    constructor (initial: bool)
      ensures value == initial
    {
      value := initial;
    }
  }

  /**
   * `control_command_handler`. `streamingRc` is what `hackrf_is_streaming`
   * reports when asked, `startRc`/`stopRc` what libhackrf returns if a
   * start or stop reaches it. A stop failure is ignored: the flag drops
   * anyway. A start failure leaves the flag down.
   */
  method ControlCommandHandler(payload: string, flag: StreamingFlag, handler: HackRFHandler,
                               queue: DataQueue, streamingRc: int, startRc: int, stopRc: int)
    requires handler.Valid()
    modifies flag, handler
    ensures handler.Valid()
    ensures var cmd := ParseCommand(payload);
      var hasDevice := old(handler.device) != null;
      var action := Decide(cmd, old(flag.value), hasDevice && streamingRc == HACKRF_TRUE);
      var started := hasDevice && !old(handler.streaming) && startRc == HACKRF_SUCCESS;
      var queried := (cmd == Pause && old(flag.value)) || (cmd == Resume && !old(flag.value));
      var query := if queried then [IsStreamingReq] else [];
      var libQuery := if queried && hasDevice then [LibIsStreaming] else [];
      && flag.value == NextFlag(action, old(flag.value), started)
      && handler.device == old(handler.device)
      && (action == Ignore ==> flag.value == old(flag.value))
      && (action == StopDevice ==> !flag.value)
      && (action == StartDevice ==> flag.value == started)
      && (cmd.Unknown? ==>
            handler.requests == old(handler.requests) && handler.libCalls == old(handler.libCalls))
      && (action == Ignore ==>
            && handler.requests == old(handler.requests) + query
            && handler.libCalls == old(handler.libCalls) + libQuery
            && handler.streaming == old(handler.streaming)
            && handler.rxContext == old(handler.rxContext))
      && (action == StopDevice ==>
            && handler.requests == old(handler.requests) + [IsStreamingReq, StopRxReq]
            && handler.libCalls == old(handler.libCalls) + [LibIsStreaming]
                 + (if old(handler.streaming) then [LibStopRx] else [])
            && handler.rxContext ==
                 (if old(handler.streaming) && stopRc == HACKRF_SUCCESS then null else old(handler.rxContext))
            && !handler.streaming)
      && (action == StartDevice ==>
            && handler.requests == old(handler.requests) + [IsStreamingReq, StartRxReq(queue)]
            && handler.libCalls == old(handler.libCalls) + libQuery
                 + (if hasDevice && !old(handler.streaming) then [LibStartRx(queue)] else [])
            && handler.rxContext == (if hasDevice && !old(handler.streaming) then queue else old(handler.rxContext))
            && handler.streaming == (old(handler.streaming) || started))
  {
    if payload == "PAUSE" {
      var deviceStreaming := false;
      if flag.value {
        deviceStreaming := handler.IsStreaming(streamingRc);
      }
      if flag.value && deviceStreaming {
        var _ := handler.StopRx(stopRc);
        flag.value := false;
      }
    } else if payload == "RESUME" {
      var deviceStreaming := true;
      if !flag.value {
        deviceStreaming := handler.IsStreaming(streamingRc);
      }
      if !flag.value && !deviceStreaming {
        var ok := handler.StartRx(queue, startRc);
        if ok {
          flag.value := true;
        }
      }
    }
  }

  /** One control command together with the collaborators' answers to it. */
  datatype ControlStep = ControlStep(cmd: Command, deviceStreaming: bool, started: bool)

  /** The device calls a control command led to. */
  datatype Effect = Stopped | StartSucceeded | StartFailed

  /** The device calls one control command leads to. */
  function EffectsOf(action: Action, started: bool): (es: seq<Effect>)
    ensures action == Ignore <==> es == []
    ensures |es| <= 1
  {
    match action
    case StopDevice => [Stopped]
    case StartDevice => if started then [StartSucceeded] else [StartFailed]
    case Ignore => []
  }

  /**
   * Replays control commands from flag value `shouldStream`: the final flag
   * and the device calls made. Each command makes at most one device call,
   * and a run that makes none leaves the flag as it was.
   */
  function Replay(shouldStream: bool, steps: seq<ControlStep>): (r: (bool, seq<Effect>))
    ensures |r.1| <= |steps|
    ensures r.1 == [] ==> r.0 == shouldStream
    decreases |steps|
  {
    if steps == [] then (shouldStream, [])
    else
      var s := steps[0];
      var action := Decide(s.cmd, shouldStream, s.deviceStreaming);
      var r := Replay(NextFlag(action, shouldStream, s.started), steps[1..]);
      (r.0, EffectsOf(action, s.started) + r.1)
  }

  /**
   * `es` is a run of device effects in which stops and successful starts
   * alternate, a stop expected next exactly when `stopNext`; failed starts
   * occur only where a start is expected.
   */
  ghost predicate Alternates(es: seq<Effect>, stopNext: bool)
    decreases |es|
  {
    if es == [] then true
    else match es[0]
      case Stopped => stopNext && Alternates(es[1..], false)
      case StartSucceeded => !stopNext && Alternates(es[1..], true)
      case StartFailed => !stopNext && Alternates(es[1..], false)
  }

  /**
   * Whatever the commands and the device's answers, `stop_rx` is never
   * called twice without a successful `start_rx` in between, and
   * `start_rx` is never attempted while a previous start stands.
   */
  lemma {:induction false} StopsAndStartsAlternate(shouldStream: bool, steps: seq<ControlStep>)
    ensures Alternates(Replay(shouldStream, steps).1, shouldStream)
    decreases |steps|
  {
    if steps != [] {
      var s := steps[0];
      var action := Decide(s.cmd, shouldStream, s.deviceStreaming);
      var f' := NextFlag(action, shouldStream, s.started);
      StopsAndStartsAlternate(f', steps[1..]);
      var rest := Replay(f', steps[1..]).1;
      var es := Replay(shouldStream, steps).1;
      match action
      case StopDevice =>
        assert es == [Stopped] + rest && es[1..] == rest;
      case StartDevice =>
        assert es == (if s.started then [StartSucceeded] else [StartFailed]) + rest && es[1..] == rest;
      case Ignore =>
        assert es == rest;
    }
  }

  /** Every command in `steps` is PAUSE. */
  ghost predicate AllPauses(steps: seq<ControlStep>) {
    forall i :: 0 <= i < |steps| ==> steps[i].cmd == Pause
  }

  /** Every command in `steps` is RESUME. */
  ghost predicate AllResumes(steps: seq<ControlStep>) {
    forall i :: 0 <= i < |steps| ==> steps[i].cmd == Resume
  }

  /** Any run of PAUSE commands stops the device at most once, at its first effect. */
  lemma {:induction false} RepeatedPauseStopsOnce(shouldStream: bool, steps: seq<ControlStep>)
    requires AllPauses(steps)
    ensures var es := Replay(shouldStream, steps).1;
      es == [] || es == [Stopped]
    ensures !shouldStream ==> Replay(shouldStream, steps).1 == []
    decreases |steps|
  {
    if steps != [] {
      var s := steps[0];
      var action := Decide(s.cmd, shouldStream, s.deviceStreaming);
      var f' := NextFlag(action, shouldStream, s.started);
      assert AllPauses(steps[1..]) by {
        forall i | 0 <= i < |steps[1..]| ensures steps[1..][i].cmd == Pause {
          assert steps[1..][i] == steps[i + 1];
        }
      }
      RepeatedPauseStopsOnce(f', steps[1..]);
    }
  }

  /** Only start attempts, and only the last of them may have succeeded. */
  ghost predicate StartAttemptsOnly(es: seq<Effect>) {
    forall i :: 0 <= i < |es| ==> es[i] != Stopped && (es[i] == StartSucceeded ==> i == |es| - 1)
  }

  /**
   * Any run of RESUME commands never stops the device, and starts it
   * successfully at most once, as its last effect; failed starts before
   * that are retried by the next RESUME.
   */
  lemma {:induction false} RepeatedResumeStartsOnce(shouldStream: bool, steps: seq<ControlStep>)
    requires AllResumes(steps)
    ensures StartAttemptsOnly(Replay(shouldStream, steps).1)
    ensures shouldStream ==> Replay(shouldStream, steps).1 == []
    decreases |steps|
  {
    if steps != [] {
      var s := steps[0];
      var action := Decide(s.cmd, shouldStream, s.deviceStreaming);
      var f' := NextFlag(action, shouldStream, s.started);
      assert AllResumes(steps[1..]) by {
        forall i | 0 <= i < |steps[1..]| ensures steps[1..][i].cmd == Resume {
          assert steps[1..][i] == steps[i + 1];
        }
      }
      RepeatedResumeStartsOnce(f', steps[1..]);
      var rest := Replay(f', steps[1..]).1;
      var es := Replay(shouldStream, steps).1;
      if action == StartDevice {
        assert es == (if s.started then [StartSucceeded] else [StartFailed]) + rest;
        if s.started {
          assert f' && rest == [];
          assert es == [StartSucceeded];
        } else {
          forall i | 0 <= i < |es|
            ensures es[i] != Stopped && (es[i] == StartSucceeded ==> i == |es| - 1)
          {
            if i > 0 {
              assert es[i] == rest[i - 1];
            }
          }
        }
      } else {
        assert es == rest;
      }
    }
  }

  /** A failed RESUME leaves the flag down, so a second RESUME calls `start_rx` again. */
  lemma FailedResumeIsRetried(deviceStreaming1: bool, deviceStreaming2: bool, started2: bool)
    requires !deviceStreaming1 && !deviceStreaming2
    ensures Replay(false, [ControlStep(Resume, deviceStreaming1, false), ControlStep(Resume, deviceStreaming2, started2)]).1
            == [StartFailed, if started2 then StartSucceeded else StartFailed]
  {
    var second := [ControlStep(Resume, deviceStreaming2, started2)];
    var steps := [ControlStep(Resume, deviceStreaming1, false)] + second;
    assert steps[1..] == second && second[1..] == [];
    assert Decide(Resume, false, deviceStreaming2) == StartDevice;
    assert NextFlag(StartDevice, false, started2) == started2;
    assert EffectsOf(StartDevice, started2) == [if started2 then StartSucceeded else StartFailed];
    assert Replay(started2, second[1..]).1 == [];
    assert Replay(false, second).1 == EffectsOf(StartDevice, started2) + Replay(started2, second[1..]).1;
    assert Replay(false, steps).1 == EffectsOf(StartDevice, false) + Replay(false, second).1;
  }
}
