/**
 * The connection lifecycle of the `VideoChat` component
 * (desktop_app/src/components/VideoChat.tsx): `start` opens a peer connection
 * and runs the offer/answer handshake, `stop` tears it down, and the `track`
 * listener routes each inbound media track to the video or the audio element.
 *
 * The browser's peer connection is an opaque handle with a `closed` flag. Each
 * awaited step of `start` is an input that either resolves or throws; the wait
 * for candidate gathering is given by the gathering state when the wait begins
 * and the states reported by the later `icegatheringstatechange` events.
 * React state (`isStarted`, `sessionId`) and the ref `pcRef` are fields that
 * `start` and `stop` update in sequence; the user-visible notifications are a
 * log that the methods append to.
 */
module VideoChat {

  datatype Option<T> = None | Some(value: T)

  /** `RTCPeerConnection.iceGatheringState`. */
  datatype IceGatheringState = New | Gathering | Complete

  /** How one awaited browser step ends: it resolves, or it throws with the text of its error. */
  datatype Step = Ok | Throws(error: string)

  /** The backend's reply to the offer (`OfferResponse` in desktop_app/src/api/index.ts). */
  datatype Answer = Answer(sdp: string, kind: string, sessionid: string)

  /** How `negotiateOffer` ends: with an answer, or by throwing. */
  datatype Exchange = Answered(answer: Answer) | ExchangeThrows(error: string)

  /** Everything the browser and the backend contribute to one call of `start`. */
  datatype Environment = Environment(
    createOffer: Step,
    setLocalDescription: Step,
    gatheringState: IceGatheringState,          // `pc.iceGatheringState` when the wait begins
    gatheringChanges: seq<IceGatheringState>,   // the state at each later `icegatheringstatechange` event
    negotiateOffer: Exchange,
    setRemoteDescription: Step)

  /** A toast shown through `message.success`, `message.error` or `message.info`. */
  datatype Notice = Success(text: string) | Error(text: string) | Info(text: string)

  const CONNECTED_TEXT: string := "连接成功"
  const FAILED_PREFIX: string := "连接失败: "
  const DISCONNECTED_TEXT: string := "已断开连接"

  /** The session id React state starts with. */
  const INITIAL_SESSION_ID: string := "0"

  /** How a call of `start` ends. `AwaitingGathering`: gathering never completes, so `start` never returns. */
  datatype StartOutcome = AlreadyStarted | Connected | Failed(error: string) | AwaitingGathering

  /** The two media elements a track can be attached to. */
  datatype Sink = VideoSink | AudioSink

  /** An inbound media stream (`evt.streams[0]`), by identity. */
  datatype MediaStream = MediaStream(id: nat)

  // ---------------------------------------------------------------------------
  // Pure pieces
  // ---------------------------------------------------------------------------

  /**
   * The number of `icegatheringstatechange` events after which the listener
   * sees `complete` and resolves the wait, or None when no event does.
   */
  function EventsUntilComplete(changes: seq<IceGatheringState>): (r: Option<nat>)
    ensures r.Some? <==> Complete in changes
    ensures r.Some? ==> 0 < r.value <= |changes| && changes[r.value - 1] == Complete
    ensures r.Some? ==> Complete !in changes[..r.value - 1]
  {
    if changes == [] then None
    else if changes[0] == Complete then Some(1)
    else match EventsUntilComplete(changes[1..])
      case None => None
      case Some(n) =>
        assert changes[..n + 1] == [changes[0]] + changes[1..][..n];
        Some(n + 1)
  }

  /**
   * The barrier before the offer is sent: it resolves at once (after 0 events)
   * when gathering is already complete, and otherwise at the first
   * state-change event that reports `complete`; None when it never resolves.
   */
  function GatheringWait(state: IceGatheringState, changes: seq<IceGatheringState>): (r: Option<nat>)
    ensures r == Some(0) <==> state == Complete
    ensures r.Some? <==> state == Complete || Complete in changes
    ensures r.Some? && r.value > 0 ==> r.value <= |changes| && changes[r.value - 1] == Complete
    ensures r.Some? && r.value > 0 ==> Complete !in changes[..r.value - 1]
  {
    if state == Complete then Some(0) else EventsUntilComplete(changes)
  }

  /** Every awaited step of `start` resolves. */
  predicate AllStepsSucceed(env: Environment) {
    && env.createOffer == Ok
    && env.setLocalDescription == Ok
    && GatheringWait(env.gatheringState, env.gatheringChanges).Some?
    && env.negotiateOffer.Answered?
    && env.setRemoteDescription == Ok
  }

  /** One of the steps before `setSessionId` throws (gathering never throws: it only waits). */
  predicate FailsBeforeSessionWrite(env: Environment) {
    || env.createOffer.Throws?
    || (env.createOffer == Ok && env.setLocalDescription.Throws?)
    || (&& env.createOffer == Ok && env.setLocalDescription == Ok
        && GatheringWait(env.gatheringState, env.gatheringChanges).Some?
        && env.negotiateOffer.ExchangeThrows?)
  }

  /** the error of the first step that throws, when the steps before `setSessionId` are the culprit */
  function EarlyError(env: Environment): string
    requires FailsBeforeSessionWrite(env)
  {
    if env.createOffer.Throws? then env.createOffer.error
    else if env.setLocalDescription.Throws? then env.setLocalDescription.error
    else env.negotiateOffer.error
  }

  /** What the `try` block of `start` achieves: how it ends, the session id it writes, and whether the offer was sent. */
  datatype Attempt = Attempt(outcome: StartOutcome, sessionSet: Option<string>, offerSent: bool)

  /**
   * The `try`/`catch` block of `start`, step by step: createOffer,
   * setLocalDescription, the gathering barrier, negotiateOffer, setSessionId,
   * setRemoteDescription, then success; the first step that throws ends it.
   */
  function Negotiate(env: Environment): (a: Attempt)
    ensures a.outcome != AlreadyStarted
    ensures a.outcome == Connected <==> AllStepsSucceed(env)
    ensures a.outcome == Connected ==> a.sessionSet == Some(env.negotiateOffer.answer.sessionid)
    ensures FailsBeforeSessionWrite(env) ==> a.outcome == Failed(EarlyError(env)) && a.sessionSet == None
    ensures a.offerSent <==>
      env.createOffer == Ok && env.setLocalDescription == Ok && GatheringWait(env.gatheringState, env.gatheringChanges).Some?
    ensures a.sessionSet.Some? ==> a.offerSent && a.sessionSet == Some(env.negotiateOffer.answer.sessionid)
    ensures a.sessionSet.Some? && a.outcome != Connected ==> a.outcome == Failed(env.setRemoteDescription.error)
    ensures && env.createOffer == Ok && env.setLocalDescription == Ok
            && GatheringWait(env.gatheringState, env.gatheringChanges).Some?
            && env.negotiateOffer.Answered? && env.setRemoteDescription.Throws?
            ==> a.sessionSet == Some(env.negotiateOffer.answer.sessionid) && a.outcome == Failed(env.setRemoteDescription.error)
    ensures a.outcome == AwaitingGathering <==>
      env.createOffer == Ok && env.setLocalDescription == Ok && GatheringWait(env.gatheringState, env.gatheringChanges).None?
    ensures a.outcome == AwaitingGathering ==> a.sessionSet == None && !a.offerSent
  {
    if env.createOffer.Throws? then Attempt(Failed(env.createOffer.error), None, false)
    else if env.setLocalDescription.Throws? then Attempt(Failed(env.setLocalDescription.error), None, false)
    else if GatheringWait(env.gatheringState, env.gatheringChanges).None? then Attempt(AwaitingGathering, None, false)
    else match env.negotiateOffer
      case ExchangeThrows(e) => Attempt(Failed(e), None, true)
      case Answered(answer) =>
        if env.setRemoteDescription.Throws? then Attempt(Failed(env.setRemoteDescription.error), Some(answer.sessionid), true)
        else Attempt(Connected, Some(answer.sessionid), true)
  }

  /** The notifications one call of `start` shows. */
  function StartNotices(outcome: StartOutcome): (ns: seq<Notice>)
    ensures outcome == Connected ==> ns == [Success(CONNECTED_TEXT)]
    ensures outcome.Failed? ==> ns == [Error(FAILED_PREFIX + outcome.error)]
    ensures outcome == AlreadyStarted || outcome == AwaitingGathering ==> ns == []
  {
    match outcome
    case Connected => [Success(CONNECTED_TEXT)]
    case Failed(e) => [Error(FAILED_PREFIX + e)]
    case _ => []
  }

  /** Where the `track` listener attaches a track of the given kind. */
  function Route(kind: string): (s: Sink)
    ensures s == VideoSink <==> kind == "video"
    ensures s == AudioSink <==> kind != "video"
  {
    if kind == "video" then VideoSink else AudioSink
  }

  // ---------------------------------------------------------------------------
  // The component's state
  // ---------------------------------------------------------------------------

  /** The browser's `RTCPeerConnection`, as an opaque handle that can be closed. */
  class PeerConnection {
    var closed: bool

    constructor ()
      ensures !closed
    {
      closed := false;
    }

    /** `close()`: closing an already closed connection is harmless. */
    method Close()
      modifies this
      ensures closed
    {
      closed := true;
    }
  }

  class Component {
    var sessionId: string
    var isStarted: bool
    var pcRef: PeerConnection?
    var videoSrc: Option<MediaStream>
    var audioSrc: Option<MediaStream>
    var notices: seq<Notice>

    /** A started session always holds an open peer connection. */
    ghost predicate Valid()
      reads this, pcRef
    {
      isStarted ==> pcRef != null && !pcRef.closed
    }

    /** The component when it mounts. */
    constructor ()
      ensures Valid()
      ensures sessionId == INITIAL_SESSION_ID && !isStarted && pcRef == null
      ensures videoSrc == None && audioSrc == None && notices == []
    {
      sessionId := INITIAL_SESSION_ID;
      isStarted := false;
      pcRef := null;
      videoSrc := None;
      audioSrc := None;
      notices := [];
    }

    /**
     * `start`. Returns how the call ended. A new connection is stored in
     * `pcRef` before the handshake and stays there whatever happens; the
     * session id is written before the remote description is applied, so a
     * failing `setRemoteDescription` leaves the new id with `isStarted` false.
     */
    method Start(env: Environment) returns (outcome: StartOutcome)
      requires Valid()
      modifies this
      ensures Valid()
      ensures old(isStarted) ==> outcome == AlreadyStarted
      ensures old(isStarted) ==> isStarted && pcRef == old(pcRef) && sessionId == old(sessionId) && notices == old(notices)
      ensures !old(isStarted) ==> outcome == Negotiate(env).outcome
      ensures !old(isStarted) ==> pcRef != null && fresh(pcRef) && !pcRef.closed
      ensures !old(isStarted) ==> isStarted == (outcome == Connected)
      ensures !old(isStarted) ==> sessionId == match Negotiate(env).sessionSet case Some(id) => id case None => old(sessionId)
      ensures notices == old(notices) + StartNotices(outcome)
      ensures old(pcRef) != null ==> old(pcRef).closed == old(pcRef.closed)
      ensures videoSrc == old(videoSrc) && audioSrc == old(audioSrc)
    {
      if isStarted {
        return AlreadyStarted;
      }
      var pc := new PeerConnection();
      pcRef := pc;

      // try
      if env.createOffer.Throws? {
        outcome := Failed(env.createOffer.error);
      } else if env.setLocalDescription.Throws? {
        outcome := Failed(env.setLocalDescription.error);
      } else if GatheringWait(env.gatheringState, env.gatheringChanges).None? {
        // the promise never resolves: start stays suspended here
        return AwaitingGathering;
      } else if env.negotiateOffer.ExchangeThrows? {
        outcome := Failed(env.negotiateOffer.error);
      } else {
        var answer := env.negotiateOffer.answer;
        sessionId := answer.sessionid;
        if env.setRemoteDescription.Throws? {
          outcome := Failed(env.setRemoteDescription.error);
        } else {
          isStarted := true;
          notices := notices + [Success(CONNECTED_TEXT)];
          return Connected;
        }
      }
      // catch
      notices := notices + [Error(FAILED_PREFIX + outcome.error)];
    }

    /**
     * `stop`: closes and forgets the connection if there is one, marks the
     * session stopped and says so. The session id is left as it was.
     */
    method Stop()
      requires Valid()
      modifies this, pcRef
      ensures Valid()
      ensures pcRef == null && !isStarted
      ensures old(pcRef) != null ==> old(pcRef).closed
      ensures sessionId == old(sessionId)
      ensures notices == old(notices) + [Info(DISCONNECTED_TEXT)]
      ensures videoSrc == old(videoSrc) && audioSrc == old(audioSrc)
    {
      if pcRef != null {
        pcRef.Close();
        pcRef := null;
      }
      isStarted := false;
      notices := notices + [Info(DISCONNECTED_TEXT)];
    }

    /** The `track` listener: a video track goes to the video element, any other kind to the audio element. */
    method OnTrack(kind: string, stream: MediaStream)
      requires Valid()
      modifies this
      ensures Valid()
      ensures Route(kind) == VideoSink ==> videoSrc == Some(stream) && audioSrc == old(audioSrc)
      ensures Route(kind) == AudioSink ==> audioSrc == Some(stream) && videoSrc == old(videoSrc)
      ensures sessionId == old(sessionId) && isStarted == old(isStarted) && pcRef == old(pcRef) && notices == old(notices)
    {
      match Route(kind)
      case VideoSink => videoSrc := Some(stream);
      case AudioSink => audioSrc := Some(stream);
    }
  }

  // ---------------------------------------------------------------------------
  // What callers can conclude from the contracts alone
  // ---------------------------------------------------------------------------

  /** `stop` is idempotent: a second call leaves the same state and only shows one more notice. */
  method StopTwice(c: Component)
    requires c.Valid()
    modifies c, c.pcRef
    ensures c.Valid() && c.pcRef == null && !c.isStarted && c.sessionId == old(c.sessionId)
    ensures old(c.pcRef) != null ==> old(c.pcRef).closed
    ensures c.notices == old(c.notices) + [Info(DISCONNECTED_TEXT), Info(DISCONNECTED_TEXT)]
    ensures c.videoSrc == old(c.videoSrc) && c.audioSrc == old(c.audioSrc)
  {
    c.Stop();
    ghost var once := c.notices;
    c.Stop();
    assert c.notices == once + [Info(DISCONNECTED_TEXT)];
  }

  /** A first start on a fresh component whose every step succeeds, with the backend issuing session "42". */
  method ConnectScenario() returns (c: Component)
    ensures c.sessionId == "42" && c.isStarted && c.pcRef != null && !c.pcRef.closed
    ensures c.notices == [Success(CONNECTED_TEXT)]
  {
    c := new Component();
    var env := Environment(Ok, Ok, Gathering, [Gathering, Complete], Answered(Answer("v=0", "answer", "42")), Ok);
    assert GatheringWait(Gathering, [Gathering, Complete]) == Some(2);
    var outcome := c.Start(env);
  }

  /**
   * `setRemoteDescription` throws: the session id is already the new one,
   * the session is not started, and the new connection is still held open.
   * A retry then allocates another connection without closing that one.
   */
  method RemoteFailureScenario() returns (c: Component, first: PeerConnection)
    ensures c.sessionId == "7" && !c.isStarted
    ensures !first.closed && c.pcRef != null && c.pcRef != first
    ensures c.notices == [Error(FAILED_PREFIX + "bad answer"), Error(FAILED_PREFIX + "offline")]
  {
    c := new Component();
    var env := Environment(Ok, Ok, Complete, [], Answered(Answer("v=0", "answer", "7")), Throws("bad answer"));
    var outcome := c.Start(env);
    first := c.pcRef;
    var retry := Environment(Ok, Ok, Complete, [], ExchangeThrows("offline"), Ok);
    outcome := c.Start(retry);
  }
}
