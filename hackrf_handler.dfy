/**
 * `HackRFHandler`: the owner of one HackRF device and of its receive
 * stream, a state machine over the fields `device_`, `streaming_` and
 * `rx_callback_context_`. Every libhackrf result is a parameter (a return
 * code chosen by the library), and two ghost traces record which handler
 * operations were requested and which library functions were called.
 */
module HackRF {

  /** libhackrf's `HACKRF_SUCCESS` and `HACKRF_TRUE`. */
  const HACKRF_SUCCESS: int := 0
  const HACKRF_TRUE: int := 1

  /** An open `hackrf_device`, opaque to the handler. */
  class Device {
    constructor ()
    {
    }
  }

  /** Calls into libhackrf. */
  datatype LibCall = LibInit | LibOpen | LibClose | LibExit | LibStartRx(context: object?) | LibStopRx | LibIsStreaming

  /** Operations invoked on the handler. */
  datatype Request = InitReq | DeinitReq | StartRxReq(context: object?) | StopRxReq | IsStreamingReq

  class HackRFHandler {
    /** `device_`; null while no device is open. */
    var device: Device?
    /** `streaming_`: the handler's own record that reception is running. */
    var streaming: bool
    /** `rx_callback_context_`, the pointer handed to the receive callback. */
    var rxContext: object?
    ghost var requests: seq<Request>
    ghost var libCalls: seq<LibCall>

    /** The handler never believes it streams without an open device. */
    ghost predicate Valid()
      reads this
    {
      streaming ==> device != null
    }

    constructor ()
      ensures Valid()
      ensures device == null && !streaming && rxContext == null
      ensures requests == [] && libCalls == []
    {
      device := null;
      streaming := false;
      rxContext := null;
      requests := [];
      libCalls := [];
    }

    /**
     * `init`: a no-op success on an open handler; otherwise `hackrf_init`
     * then `hackrf_open`, undoing the library initialisation when the open
     * fails or yields no device.
     */
    method Init(initRc: int, openRc: int, openedDevice: Device?) returns (ok: bool)
      requires Valid()
      modifies this
      ensures Valid()
      ensures requests == old(requests) + [InitReq]
      ensures streaming == old(streaming) && rxContext == old(rxContext)
      ensures old(device) != null ==> ok && device == old(device) && libCalls == old(libCalls)
      ensures old(device) == null ==>
        (ok <==> initRc == HACKRF_SUCCESS && openRc == HACKRF_SUCCESS && openedDevice != null)
      ensures old(device) == null ==> device == if ok then openedDevice else null
      ensures old(device) == null ==>
        libCalls == old(libCalls) + (if initRc != HACKRF_SUCCESS then [LibInit]
                                     else if ok then [LibInit, LibOpen]
                                     else [LibInit, LibOpen, LibExit])
    {
      requests := requests + [InitReq];
      if device != null {
        return true;
      }
      libCalls := libCalls + [LibInit];
      if initRc != HACKRF_SUCCESS {
        return false;
      }
      libCalls := libCalls + [LibOpen];
      device := openedDevice;
      if openRc != HACKRF_SUCCESS || device == null {
        libCalls := libCalls + [LibExit];
        device := null;
        return false;
      }
      ok := true;
    }

    /**
     * `deinit`: stops reception if the handler streams, closes the device
     * if one is open and always calls `hackrf_exit`.
     */
    method Deinit(stopRc: int)
      requires Valid()
      modifies this
      ensures Valid()
      ensures device == null && !streaming
      ensures rxContext == if old(streaming) && stopRc == HACKRF_SUCCESS then null else old(rxContext)
      ensures requests == old(requests) + [DeinitReq] + if old(streaming) then [StopRxReq] else []
      ensures libCalls == old(libCalls)
        + (if old(streaming) then [LibStopRx] else [])
        + (if old(device) != null then [LibClose] else [])
        + [LibExit]
    {
      requests := requests + [DeinitReq];
      if streaming {
        var _ := StopRx(stopRc);
      }
      if device != null {
        libCalls := libCalls + [LibClose];
        device := null;
      }
      libCalls := libCalls + [LibExit];
    }

    /**
     * `start_rx`: refused without a device or while streaming; otherwise
     * stores the context, starts the library stream and streams exactly
     * when the library reports success.
     */
    method StartRx(context: object?, startRc: int) returns (ok: bool)
      requires Valid()
      modifies this
      ensures Valid()
      ensures requests == old(requests) + [StartRxReq(context)]
      ensures ok <==> old(device) != null && !old(streaming) && startRc == HACKRF_SUCCESS
      ensures device == old(device)
      ensures streaming <==> old(streaming) || ok
      ensures old(device) == null || old(streaming) ==>
        rxContext == old(rxContext) && libCalls == old(libCalls)
      ensures old(device) != null && !old(streaming) ==>
        rxContext == context && libCalls == old(libCalls) + [LibStartRx(context)]
    {
      requests := requests + [StartRxReq(context)];
      if device == null {
        return false;
      }
      if streaming {
        return false;
      }
      rxContext := context;
      libCalls := libCalls + [LibStartRx(context)];
      if startRc != HACKRF_SUCCESS {
        return false;
      }
      streaming := true;
      ok := true;
    }

    /**
     * `stop_rx`: refused unless a device is open and streaming; past that
     * guard the handler stops streaming even when the library call fails,
     * and forgets the context only on success.
     */
    method StopRx(stopRc: int) returns (ok: bool)
      requires Valid()
      modifies this
      ensures Valid()
      ensures requests == old(requests) + [StopRxReq]
      ensures ok <==> old(device) != null && old(streaming) && stopRc == HACKRF_SUCCESS
      ensures device == old(device) && !streaming
      ensures old(device) == null || !old(streaming) ==>
        rxContext == old(rxContext) && libCalls == old(libCalls)
      ensures old(device) != null && old(streaming) ==>
        libCalls == old(libCalls) + [LibStopRx] &&
        rxContext == if stopRc == HACKRF_SUCCESS then null else old(rxContext)
    {
      requests := requests + [StopRxReq];
      if device == null || !streaming {
        return false;
      }
      libCalls := libCalls + [LibStopRx];
      if stopRc != HACKRF_SUCCESS {
        streaming := false;
        return false;
      }
      streaming := false;
      rxContext := null;
      ok := true;
    }

    /**
     * `is_streaming`: false without a device, otherwise what
     * `hackrf_is_streaming` answers (`streamingRc`), not `streaming_`.
     */
    method IsStreaming(streamingRc: int) returns (b: bool)
      requires Valid()
      modifies this
      ensures Valid()
      ensures b <==> device != null && streamingRc == HACKRF_TRUE
      ensures device == null ==> !b
      ensures device == old(device) && streaming == old(streaming) && rxContext == old(rxContext)
      ensures requests == old(requests) + [IsStreamingReq]
      ensures libCalls == old(libCalls) + if device != null then [LibIsStreaming] else []
    {
      requests := requests + [IsStreamingReq];
      if device == null {
        return false;
      }
      libCalls := libCalls + [LibIsStreaming];
      b := streamingRc == HACKRF_TRUE;
    }
  }
}
