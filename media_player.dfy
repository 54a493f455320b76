/** MediaFoundationPlayer's playback controller: the state it reports, the
    flags that hold back a Play until the topology is ready and a Pause
    until a seek has restarted the session, and the calls it makes on the
    media session. Each session call's success is an input; the calls made
    and the listener's notifications are recorded in order. */
module MediaPlayer {
  import opened Common

  datatype PlaybackState = Idle | Opening | Playing | Paused | Stopped | Ended | Error

  /** Where IMFMediaSession::Start starts: the current position (an empty
      PROPVARIANT) or a position in 100 ns units. */
  datatype StartPosition = Resume | At(position100ns: int)

  datatype SessionCall = Start(from: StartPosition) | PauseCall | StopCall | CloseCall | ShutdownCall | BeginGetEvent

  /** The listener's callbacks. */
  datatype Notice = StateChanged(state: PlaybackState) | PlaybackError | MediaOpened(duration100ns: int) | PlaybackEnded

  /** CoInitializeEx's result: S_OK, S_FALSE, RPC_E_CHANGED_MODE or another
      failure. */
  datatype ComResult = ComOk | ComAlreadyInitialized | ComChangedMode | ComFailed

  datatype EventKind = TopologyStatus(ready: bool) | SessionStarted | SessionPaused | SessionStopped
                     | SessionEnded | SessionClosed | OtherEvent

  /** What EndGetEvent delivers: nothing (it failed), an event whose type
      cannot be read, or an event with its status. */
  datatype SessionEvent = EventReadFailed | TypeUnavailable | Event(kind: EventKind, failed: bool)

  /** Play restarts a paused session where it is, and anything else from
      the beginning. */
  function PlayFrom(state: PlaybackState): (p: StartPosition)
    ensures p.Resume? <==> state == Paused
    ensures p.At? ==> p.position100ns == 0
  {
    if state == Paused then Resume else At(0)
  }

  /** The state a session event reports, when it reports one. */
  function EventState(kind: EventKind): Option<PlaybackState>
  {
    match kind
    case SessionStarted => Some(Playing)
    case SessionPaused => Some(Paused)
    case SessionStopped => Some(Stopped)
    case SessionEnded => Some(Ended)
    case SessionClosed => Some(Idle)
    case _ => None
  }

  /** The events that report a state are exactly the five session
      transitions, each with its own state. */
  lemma EventStateMapping(kind: EventKind)
    ensures EventState(kind).Some? <==> kind in {SessionStarted, SessionPaused, SessionStopped, SessionEnded, SessionClosed}
    ensures EventState(kind).Some? ==> EventState(kind).value != Opening && EventState(kind).value != Error
    ensures forall k :: EventState(k).Some? && EventState(k) == EventState(kind) ==> k == kind
  {
  }

  /** The flags other than the state, which most notifications leave alone. */
  datatype Flags = Flags(hasSession: bool, mfInitialized: bool, comInitialized: bool, topologyReady: bool,
                         pendingPlay: bool, pendingPauseAfterStart: bool, duration100ns: int, hasListener: bool)

  class Player {
    var hasSession: bool
    var mfInitialized: bool
    var comInitialized: bool
    var topologyReady: bool
    var pendingPlay: bool
    var pendingPauseAfterStart: bool
    var state: PlaybackState
    var duration100ns: int
    var hasListener: bool
    /** The calls made on the media session, in order. */
    var calls: seq<SessionCall>
    /** The listener's notifications, in order. */
    var notices: seq<Notice>

    /** A session needs Media Foundation; a ready topology and both
        pending flags need a session; a pending Play waits for the
        topology, and a pending Pause follows a seek made with the
        topology ready. */
    ghost predicate Valid()
      reads this
    {
      && (hasSession ==> mfInitialized)
      && (topologyReady ==> hasSession)
      && (pendingPlay ==> hasSession && !topologyReady)
      && (pendingPauseAfterStart ==> hasSession && topologyReady)
    }

    function GetFlags(): Flags
      reads this
    {
      Flags(hasSession, mfInitialized, comInitialized, topologyReady, pendingPlay, pendingPauseAfterStart,
            duration100ns, hasListener)
    }

    function Notify(n: Notice): seq<Notice>
      reads this
    {
      if hasListener then [n] else []
    }

    constructor(hasListener: bool)
      ensures Valid()
      ensures !hasSession && !mfInitialized && !comInitialized && !topologyReady
      ensures !pendingPlay && !pendingPauseAfterStart && state == Idle && duration100ns == 0
      ensures this.hasListener == hasListener && calls == [] && notices == []
    {
      this.hasListener := hasListener;
      hasSession, mfInitialized, comInitialized := false, false, false;
      topologyReady, pendingPlay, pendingPauseAfterStart := false, false, false;
      state, duration100ns := Idle, 0;
      calls, notices := [], [];
    }

    /** NotifyState: the new state, and the listener told. */
    method NotifyState(s: PlaybackState)
      modifies this
      ensures state == s
      ensures notices == old(notices) + old(Notify(StateChanged(s)))
      ensures GetFlags() == old(GetFlags()) && calls == old(calls)
    {
      state := s;
      notices := notices + Notify(StateChanged(s));
    }

    /** NotifyError: the state is Error whatever it was. */
    method NotifyError()
      modifies this
      ensures state == Error
      ensures notices == old(notices) + old(Notify(PlaybackError))
      ensures GetFlags() == old(GetFlags()) && calls == old(calls)
    {
      state := Error;
      notices := notices + Notify(PlaybackError);
    }

    /** Initialize: once Media Foundation is up it succeeds at once and
        changes nothing. Otherwise a COM failure other than a changed
        apartment mode, or a failed MFStartup, is an error. COM is to be
        uninitialised later only when this call initialised it. */
    method Initialize(com: ComResult, startupOk: bool) returns (ok: bool)
      modifies this
      ensures old(mfInitialized) ==> ok && GetFlags() == old(GetFlags()) && state == old(state)
                                     && notices == old(notices)
      ensures !old(mfInitialized) ==>
                && (ok <==> com != ComFailed && startupOk)
                && mfInitialized == ok
                && comInitialized == (if com == ComFailed then old(comInitialized)
                                      else com == ComOk || com == ComAlreadyInitialized)
                && (!ok ==> state == Error)
                && (ok ==> state == old(state))
                && notices == old(notices) + (if ok then [] else old(Notify(PlaybackError)))
      ensures old(Valid()) ==> Valid()
      ensures duration100ns == old(duration100ns) && hasListener == old(hasListener)
      ensures hasSession == old(hasSession) && topologyReady == old(topologyReady)
      ensures pendingPlay == old(pendingPlay) && pendingPauseAfterStart == old(pendingPauseAfterStart)
      ensures calls == old(calls)
    {
      if mfInitialized {
        return true;
      }
      if com == ComFailed {
        NotifyError();
        return false;
      }
      comInitialized := com == ComOk || com == ComAlreadyInitialized;
      if !startupOk {
        NotifyError();
        return false;
      }
      mfInitialized := true;
      return true;
    }

    /** CloseSession: an open session is closed and shut down; every flag
        is cleared, the duration reset, and the state is Idle. */
    method CloseSession()
      modifies this
      ensures calls == old(calls) + (if old(hasSession) then [CloseCall, ShutdownCall] else [])
      ensures !hasSession && !topologyReady && !pendingPlay && !pendingPauseAfterStart
      ensures duration100ns == 0 && state == Idle
      ensures notices == old(notices) + old(Notify(StateChanged(Idle)))
      ensures mfInitialized == old(mfInitialized) && comInitialized == old(comInitialized)
      ensures hasListener == old(hasListener)
      ensures Valid()
    {
      if hasSession {
        calls := calls + [CloseCall, ShutdownCall];
      }
      hasSession := false;
      topologyReady, pendingPlay, pendingPauseAfterStart := false, false, false;
      duration100ns := 0;
      NotifyState(Idle);
    }

    /** Shutdown: the session closed, then Media Foundation and COM shut
        down. */
    method Shutdown()
      modifies this
      ensures calls == old(calls) + (if old(hasSession) then [CloseCall, ShutdownCall] else [])
      ensures !hasSession && !mfInitialized && !comInitialized && state == Idle
      ensures !topologyReady && !pendingPlay && !pendingPauseAfterStart && duration100ns == 0
      ensures notices == old(notices) + old(Notify(StateChanged(Idle)))
      ensures hasListener == old(hasListener)
      ensures Valid()
    {
      CloseSession();
      mfInitialized := false;
      comInitialized := false;
    }

    /** OpenFile: Initialize, close the old session and report Opening;
        then the source, the session and the topology must each be
        created. The session is kept, and its events requested, before the
        topology is set, so a failure to set it leaves the session open. */
    method OpenFile(com: ComResult, startupOk: bool, sourceOk: bool, sessionOk: bool,
                    topologyOk: bool, setTopologyOk: bool) returns (ok: bool)
      requires Valid()
      modifies this
      ensures Valid()
      ensures ok <==> (old(mfInitialized) || (com != ComFailed && startupOk))
                      && sourceOk && sessionOk && topologyOk && setTopologyOk
      ensures ok ==> hasSession && !topologyReady && !pendingPlay && state == Opening
      ensures hasSession <==> mfInitialized && sourceOk && sessionOk && topologyOk
      ensures !ok && mfInitialized ==> state == Error
      ensures hasSession ==> |calls| > 0 && calls[|calls| - 1] == BeginGetEvent
      ensures hasListener == old(hasListener)
      ensures comInitialized == if old(mfInitialized) || com == ComFailed then old(comInitialized)
                                else com == ComOk || com == ComAlreadyInitialized
      ensures !mfInitialized ==>
                && !ok && state == Error && calls == old(calls)
                && notices == old(notices) + old(Notify(PlaybackError))
                && hasSession == old(hasSession) && topologyReady == old(topologyReady)
                && pendingPlay == old(pendingPlay) && pendingPauseAfterStart == old(pendingPauseAfterStart)
                && duration100ns == old(duration100ns)
      ensures mfInitialized ==>
                var created := sourceOk && sessionOk && topologyOk;
                && calls == old(calls) + (if old(hasSession) then [CloseCall, ShutdownCall] else [])
                                       + (if created then [BeginGetEvent] else [])
                && notices == old(notices) + old(Notify(StateChanged(Idle))) + old(Notify(StateChanged(Opening)))
                                           + (if ok then [] else old(Notify(PlaybackError)))
                && !topologyReady && !pendingPlay && !pendingPauseAfterStart && duration100ns == 0
                && state == (if ok then Opening else Error)
    {
      var initialized := Initialize(com, startupOk);
      if !initialized {
        return false;
      }
      CloseSession();
      NotifyState(Opening);
      if !sourceOk || !sessionOk || !topologyOk {
        NotifyError();
        return false;
      }
      hasSession := true;
      calls := calls + [BeginGetEvent];
      if !setTopologyOk {
        NotifyError();
        return false;
      }
      return true;
    }

    /** Play: nothing without a session; before the topology is ready only
        a pending Play is noted; otherwise the session is started, where it
        is when paused and from 0 otherwise, and a failed start is an
        error. */
    method Play(startOk: bool)
      requires Valid()
      modifies this
      ensures Valid()
      ensures !old(hasSession) ==> GetFlags() == old(GetFlags()) && state == old(state) && calls == old(calls)
      ensures old(hasSession) && !old(topologyReady) ==>
                && pendingPlay && calls == old(calls) && state == old(state)
                && GetFlags() == old(GetFlags()).(pendingPlay := true)
      ensures old(hasSession) && old(topologyReady) ==>
                && calls == old(calls) + [Start(PlayFrom(old(state)))]
                && GetFlags() == old(GetFlags())
                && state == (if startOk then old(state) else Error)
      ensures notices == old(notices)
                         + (if old(hasSession) && old(topologyReady) && !startOk then old(Notify(PlaybackError)) else [])
    {
      if !hasSession {
        return;
      }
      if !topologyReady {
        pendingPlay := true;
        return;
      }
      calls := calls + [Start(PlayFrom(state))];
      if !startOk {
        NotifyError();
      }
    }

    /** Pause and Stop: the session call, if there is a session; a failure
        is an error. */
    method Pause(pauseOk: bool)
      modifies this
      ensures GetFlags() == old(GetFlags())
      ensures calls == old(calls) + (if old(hasSession) then [PauseCall] else [])
      ensures state == (if old(hasSession) && !pauseOk then Error else old(state))
      ensures notices == old(notices) + (if old(hasSession) && !pauseOk then old(Notify(PlaybackError)) else [])
    {
      if !hasSession {
        return;
      }
      calls := calls + [PauseCall];
      if !pauseOk {
        NotifyError();
      }
    }

    method Stop(stopOk: bool)
      modifies this
      ensures GetFlags() == old(GetFlags())
      ensures calls == old(calls) + (if old(hasSession) then [StopCall] else [])
      ensures state == (if old(hasSession) && !stopOk then Error else old(state))
      ensures notices == old(notices) + (if old(hasSession) && !stopOk then old(Notify(PlaybackError)) else [])
    {
      if !hasSession {
        return;
      }
      calls := calls + [StopCall];
      if !stopOk {
        NotifyError();
      }
    }

    /** SeekTo: refused without a session or before the topology is ready;
        otherwise the session restarts at the position, and a seek made
        while paused is followed by a Pause once it has started. */
    method SeekTo(position100ns: int, startOk: bool) returns (ok: bool)
      requires Valid()
      modifies this
      ensures Valid()
      ensures !(old(hasSession) && old(topologyReady)) ==>
                && !ok && GetFlags() == old(GetFlags()) && state == old(state) && calls == old(calls)
                && notices == old(notices)
      ensures old(hasSession) && old(topologyReady) ==>
                && calls == old(calls) + [Start(At(position100ns))]
                && (ok <==> startOk)
                && pendingPauseAfterStart == (old(pendingPauseAfterStart) || old(state) == Paused)
                && GetFlags() == old(GetFlags()).(pendingPauseAfterStart := pendingPauseAfterStart)
                && state == (if startOk then old(state) else Error)
                && notices == old(notices) + (if startOk then [] else old(Notify(PlaybackError)))
    {
      if !hasSession || !topologyReady {
        return false;
      }
      if state == Paused {
        pendingPauseAfterStart := true;
      }
      calls := calls + [Start(At(position100ns))];
      if !startOk {
        NotifyError();
        return false;
      }
      return true;
    }

    /** HandleTopologyReady: the topology is ready, the duration is read
        when the source gives one, the listener learns it, and a pending
        Play is cleared and carried out, exactly once. */
    method HandleTopologyReady(duration: Option<int>, startOk: bool)
      requires Valid() && hasSession
      modifies this
      ensures Valid()
      ensures topologyReady && !pendingPlay && hasSession
      ensures duration100ns == (if duration.Some? then duration.value else old(duration100ns))
      ensures GetFlags() == old(GetFlags()).(topologyReady := true, pendingPlay := false,
                                             duration100ns := duration100ns)
      ensures notices == old(notices) + Notify(MediaOpened(duration100ns))
                         + (if old(pendingPlay) && !startOk then old(Notify(PlaybackError)) else [])
      ensures calls == old(calls) + (if old(pendingPlay) then [Start(PlayFrom(old(state)))] else [])
      ensures state == (if old(pendingPlay) && !startOk then Error else old(state))
    {
      topologyReady := true;
      if duration.Some? {
        duration100ns := duration.value;
      }
      notices := notices + Notify(MediaOpened(duration100ns));
      if pendingPlay {
        pendingPlay := false;
        Play(startOk);
      }
    }

    /** HandleSessionEvent: a failed read is an error, and events are no
        longer requested after it. A failed status is an error; otherwise
        the session transitions report their state, a ready topology is
        handled, and a start after a seek made while paused pauses again.
        Every other case asks for the next event. */
    method HandleSessionEvent(event: SessionEvent, duration: Option<int>, startOk: bool, pauseOk: bool)
      requires Valid() && hasSession
      modifies this
      ensures Valid() && hasSession
      ensures event.EventReadFailed? ==> state == Error && calls == old(calls)
      ensures !event.EventReadFailed? ==> |calls| > 0 && calls[|calls| - 1] == BeginGetEvent
      ensures event.TypeUnavailable? ==> state == old(state) && calls == old(calls) + [BeginGetEvent]
      ensures event.Event? && event.failed ==> state == Error && calls == old(calls) + [BeginGetEvent]
      ensures event.Event? && !event.failed && EventState(event.kind).Some? ==>
                if event.kind == SessionStarted && old(pendingPauseAfterStart) then
                  && !pendingPauseAfterStart
                  && calls == old(calls) + [PauseCall, BeginGetEvent]
                  && state == (if pauseOk then Playing else Error)
                else
                  && state == EventState(event.kind).value
                  && calls == old(calls) + [BeginGetEvent]
      ensures event.Event? && !event.failed && event.kind == OtherEvent ==>
                state == old(state) && calls == old(calls) + [BeginGetEvent]
      ensures event.Event? && !event.failed && event.kind.TopologyStatus? ==>
                && topologyReady == (old(topologyReady) || event.kind.ready)
                && (event.kind.ready ==> !pendingPlay)
      ensures event.Event? && !event.failed && event.kind == TopologyStatus(false) ==>
                state == old(state) && calls == old(calls) + [BeginGetEvent]
      ensures event.Event? && !event.failed && event.kind == TopologyStatus(true) ==>
                && calls == old(calls) + (if old(pendingPlay) then [Start(PlayFrom(old(state)))] else [])
                                       + [BeginGetEvent]
                && state == (if old(pendingPlay) && !startOk then Error else old(state))
                && GetFlags() == old(GetFlags()).(topologyReady := true, pendingPlay := false,
                                                  duration100ns := if duration.Some? then duration.value
                                                                   else old(duration100ns))
                && notices == old(notices) + Notify(MediaOpened(duration100ns))
                              + (if old(pendingPlay) && !startOk then old(Notify(PlaybackError)) else [])
      ensures !(event.Event? && !event.failed && event.kind in {TopologyStatus(true), SessionStarted}) ==>
                GetFlags() == old(GetFlags())
      ensures event.Event? && !event.failed && event.kind == SessionStarted ==>
                GetFlags() == old(GetFlags()).(pendingPauseAfterStart := false)
      ensures event.EventReadFailed? || (event.Event? && event.failed) ==>
                notices == old(notices) + old(Notify(PlaybackError))
      ensures event.TypeUnavailable? || (event.Event? && !event.failed && event.kind in {OtherEvent, TopologyStatus(false)}) ==>
                notices == old(notices)
      ensures event.Event? && !event.failed && EventState(event.kind).Some? ==>
                notices == old(notices) + old(Notify(StateChanged(EventState(event.kind).value)))
                           + (if event.kind == SessionEnded then old(Notify(PlaybackEnded)) else [])
                           + (if event.kind == SessionStarted && old(pendingPauseAfterStart) && !pauseOk
                              then old(Notify(PlaybackError)) else [])
    {
      if event.EventReadFailed? {
        NotifyError();
        return;
      }
      if event.Event? {
        if event.failed {
          NotifyError();
        } else {
          HandleEventKind(event.kind, duration, startOk, pauseOk);
        }
      }
      calls := calls + [BeginGetEvent];
    }

    /** The switch on the type of an event read with a good status. */
    method HandleEventKind(kind: EventKind, duration: Option<int>, startOk: bool, pauseOk: bool)
      requires Valid() && hasSession
      modifies this
      ensures Valid() && hasSession
      ensures kind in {OtherEvent, TopologyStatus(false)} ==>
                && GetFlags() == old(GetFlags()) && state == old(state)
                && calls == old(calls) && notices == old(notices)
      ensures kind == TopologyStatus(true) ==>
                && calls == old(calls) + (if old(pendingPlay) then [Start(PlayFrom(old(state)))] else [])
                && state == (if old(pendingPlay) && !startOk then Error else old(state))
                && GetFlags() == old(GetFlags()).(topologyReady := true, pendingPlay := false,
                                                  duration100ns := if duration.Some? then duration.value
                                                                   else old(duration100ns))
                && notices == old(notices) + Notify(MediaOpened(duration100ns))
                              + (if old(pendingPlay) && !startOk then old(Notify(PlaybackError)) else [])
      ensures EventState(kind).Some? ==>
                && (if kind == SessionStarted && old(pendingPauseAfterStart) then
                      && calls == old(calls) + [PauseCall]
                      && state == (if pauseOk then Playing else Error)
                    else
                      && calls == old(calls)
                      && state == EventState(kind).value)
                && GetFlags() == (if kind == SessionStarted then old(GetFlags()).(pendingPauseAfterStart := false)
                                  else old(GetFlags()))
                && notices == old(notices) + old(Notify(StateChanged(EventState(kind).value)))
                              + (if kind == SessionEnded then old(Notify(PlaybackEnded)) else [])
                              + (if kind == SessionStarted && old(pendingPauseAfterStart) && !pauseOk
                                 then old(Notify(PlaybackError)) else [])
    {
      match kind {
        case TopologyStatus(ready) =>
          if ready {
            HandleTopologyReady(duration, startOk);
          }
        case SessionStarted =>
          NotifyState(Playing);
          if pendingPauseAfterStart {
            pendingPauseAfterStart := false;
            Pause(pauseOk);
          }
        case SessionPaused =>
          NotifyState(Paused);
        case SessionStopped =>
          NotifyState(Stopped);
        case SessionEnded =>
          NotifyState(Ended);
          notices := notices + Notify(PlaybackEnded);
        case SessionClosed =>
          NotifyState(Idle);
        case OtherEvent =>
      }
    }
  }

  /** A Play before the topology is ready is not lost: once the topology
      is reported ready, the session is started from the beginning. */
  method PlayBeforeTopologyReady(p: Player, startOk: bool)
    requires p.Valid() && p.hasSession && !p.topologyReady && p.state == Opening
    modifies p
    ensures p.Valid() && p.topologyReady && !p.pendingPlay
    ensures p.calls == old(p.calls) + [Start(At(0))]
  {
    p.Play(startOk);
    p.HandleTopologyReady(None, startOk);
  }

  /** A seek while paused restarts the session and then pauses it again
      when it reports that it has started. */
  method SeekWhilePaused(p: Player, position100ns: int)
    requires p.Valid() && p.hasSession && p.topologyReady && p.state == Paused
    modifies p
    ensures p.Valid() && !p.pendingPauseAfterStart
    ensures p.calls == old(p.calls) + [Start(At(position100ns)), PauseCall, BeginGetEvent]
    ensures p.state == Playing
  {
    var ok := p.SeekTo(position100ns, true);
    p.HandleSessionEvent(Event(SessionStarted, false), None, true, true);
  }
}
