/** WebRtcService: a bound service that captures the camera, runs two
    PeerConnections (localPeer offers, remotePeer answers) connected through
    a SignalingClient, stores the local and remote tracks in WebRtcHolder and
    notifies the registered IWebRtcCallback.

    Every call the service makes into the WebRTC library, every relay send,
    every holder store and every notification is an Event appended to
    `trace`.  The library's asynchronous success callbacks (offer created,
    answer created, candidate found, track added) are step methods; each may
    only happen once the call that triggers it has been issued. */
module Service {
  import opened Media
  import Signaling
  import Holder

  datatype Peer = LocalPeer | RemotePeer

  /** Identity of an IWebRtcCallback binder object. */
  datatype CallbackRef = CallbackRef(id: nat)

  const LOCAL_TRACK: string := "localTrack"
  const REMOTE_TRACK: string := "remoteTrack"

  /** The track made by factory.createVideoTrack("localTrack", videoSource). */
  const LOCAL_VIDEO_TRACK: VideoTrack := VideoTrack(LOCAL_TRACK)

  /** The SignalingClient.Callback that initWebRTCNew registers. */
  const RELAY_HANDLER: Signaling.HandlerRef := Signaling.HandlerRef(0)

  datatype Event =
    | CreateFactory                                        // PeerConnectionFactory.initialize + builder
    | StartCapture(capturer: VideoCapturer)                // capturer.initialize + startCapture(640, 480, 30)
    | StoreTrack(key: string, track: VideoTrack)           // WebRtcHolder.putVideoTrack
    | LocalTrackCreated(cb: CallbackRef, trackId: string)  // callback.onLocalVideoTrackCreated
    | RemoteTrackCreated(cb: CallbackRef, trackId: string) // callback.onRemoteVideoTrackCreated
    | CreatePeerConnection(peer: Peer)
    | AddStream(peer: Peer, track: VideoTrack)
    | CreateOffer(peer: Peer)
    | CreateAnswer(peer: Peer)
    | SetLocalDescription(peer: Peer, sdp: SessionDescription)
    | SetRemoteDescription(peer: Peer, sdp: SessionDescription)
    | SendOffer(sdp: SessionDescription)                   // signalingClient.sendOffer
    | SendAnswer(sdp: SessionDescription)                  // signalingClient.sendAnswer
    | SendIceCandidate(candidate: IceCandidate)            // signalingClient.sendIceCandidate
    | AddIceCandidate(peer: Peer, candidate: IceCandidate)

  // ---------------------------------------------------------------------
  // Camera selection

  predicate YieldsFront(c: Camera) { c.frontFacing && c.capturer.Some? }
  predicate YieldsBack(c: Camera) { !c.frontFacing && c.capturer.Some? }

  /** The camera createCameraCapturer settles on: the first front-facing
      device (in enumeration order) whose capturer is non-null, and only when
      there is none, the first such back-facing device. */
  function ChosenCamera(cams: seq<Camera>): (r: Option<nat>)
    ensures r.None? <==> forall i | 0 <= i < |cams| :: cams[i].capturer.None?
    ensures r.Some? ==> r.value < |cams| && cams[r.value].capturer.Some?
    ensures r.Some? && cams[r.value].frontFacing ==>
              forall j | 0 <= j < r.value :: !YieldsFront(cams[j])
    ensures r.Some? && !cams[r.value].frontFacing ==>
              (forall j | 0 <= j < |cams| :: !YieldsFront(cams[j])) &&
              (forall j | 0 <= j < r.value :: !YieldsBack(cams[j]))
  {
    var f := FirstWhere(cams, YieldsFront);
    if f.Some? then f else FirstWhere(cams, YieldsBack)
  }

  function SelectedCapturer(cams: seq<Camera>): Option<VideoCapturer> {
    match ChosenCamera(cams)
    case None => None
    case Some(i) => cams[i].capturer
  }

  /** createCameraCapturer: two early-return searches, front then back. */
  method CreateCameraCapturer(cams: seq<Camera>) returns (r: Option<VideoCapturer>)
    ensures r == SelectedCapturer(cams)
  {
    for i := 0 to |cams|
      invariant forall j | 0 <= j < i :: !YieldsFront(cams[j])
    {
      if cams[i].frontFacing {
        var capturer := cams[i].capturer;
        if capturer.Some? {
          assert YieldsFront(cams[i]);
          return capturer;
        }
      }
    }
    // fallback back camera
    for i := 0 to |cams|
      invariant forall j | 0 <= j < i :: !YieldsBack(cams[j])
    {
      if !cams[i].frontFacing {
        var capturer := cams[i].capturer;
        if capturer.Some? {
          assert YieldsBack(cams[i]);
          return capturer;
        }
      }
    }
    return None;
  }

  // ---------------------------------------------------------------------
  // ICE routing

  /** onIceCandidateReceived's choice of peer: remotePeer when sdpMid is
      non-null and contains "video", localPeer otherwise.  Which peer found
      the candidate plays no part. */
  function RouteCandidate(sdpMid: Option<string>): (p: Peer)
    ensures p == RemotePeer <==>
      sdpMid.Some? && exists i :: 0 <= i <= |sdpMid.value| && StartsWith(sdpMid.value[i..], "video")
  {
    if sdpMid.Some? && Contains(sdpMid.value, "video") then RemotePeer else LocalPeer
  }

  // ---------------------------------------------------------------------
  // The events each step issues

  function InitEvents(cap: Option<VideoCapturer>, cb: Option<CallbackRef>): seq<Event> {
    [CreateFactory] +
    match cap
    case None => []
    case Some(c) =>
      [StartCapture(c), StoreTrack(LOCAL_TRACK, LOCAL_VIDEO_TRACK)]
      + (if cb.Some? then [LocalTrackCreated(cb.value, LOCAL_TRACK)] else [])
      + [CreatePeerConnection(LocalPeer), CreatePeerConnection(RemotePeer),
         AddStream(LocalPeer, LOCAL_VIDEO_TRACK), CreateOffer(LocalPeer)]
  }

  /** localPeer's offer is created; the relay delivers it to onOfferReceived. */
  function OfferEvents(offer: SessionDescription): seq<Event> {
    [SetLocalDescription(LocalPeer, offer), SendOffer(offer),
     SetRemoteDescription(RemotePeer, offer), CreateAnswer(RemotePeer)]
  }

  /** remotePeer's answer is created; the relay delivers it to onAnswerReceived. */
  function AnswerEvents(answer: SessionDescription): seq<Event> {
    [SetLocalDescription(RemotePeer, answer), SendAnswer(answer),
     SetRemoteDescription(LocalPeer, answer)]
  }

  /** A peer finds a candidate; the relay delivers it to onIceCandidateReceived. */
  function CandidateEvents(c: IceCandidate): seq<Event> {
    [SendIceCandidate(c), AddIceCandidate(RouteCandidate(c.sdpMid), c)]
  }

  /** remotePeer's onAddTrack with the receiver's track. */
  function TrackEvents(track: Option<MediaStreamTrack>, cb: Option<CallbackRef>): seq<Event> {
    if track.Some? && track.value.Video? then
      [StoreTrack(REMOTE_TRACK, track.value.video)]
      + (if cb.Some? then [RemoteTrackCreated(cb.value, REMOTE_TRACK)] else [])
    else []
  }

  // ---------------------------------------------------------------------
  // Ordering invariant of the trace

  /** Whether event `e` may follow the events `before`: what each call
      needs to have happened first. */
  ghost predicate Fits(before: seq<Event>, e: Event) {
    var last := if |before| > 0 then Some(before[|before| - 1]) else None;
    match e
    case SendOffer(o) => last == Some(SetLocalDescription(LocalPeer, o))
    case SendAnswer(a) => last == Some(SetLocalDescription(RemotePeer, a))
    case SetLocalDescription(p, _) =>
      (if p == LocalPeer then CreateOffer(LocalPeer) else CreateAnswer(RemotePeer)) in before
    case SetRemoteDescription(p, d) =>
      last == Some(if p == RemotePeer then SendOffer(d) else SendAnswer(d))
    case CreateOffer(p) => p == LocalPeer && last == Some(AddStream(LocalPeer, LOCAL_VIDEO_TRACK))
    case CreateAnswer(p) =>
      p == RemotePeer && last.Some? && last.value.SetRemoteDescription? && last.value.peer == RemotePeer
    case AddStream(p, _) => CreatePeerConnection(p) in before
    case AddIceCandidate(p, c) =>
      last == Some(SendIceCandidate(c)) && p == RouteCandidate(c.sdpMid) && CreatePeerConnection(p) in before
    case LocalTrackCreated(_, id) => id == LOCAL_TRACK && last == Some(StoreTrack(LOCAL_TRACK, LOCAL_VIDEO_TRACK))
    case RemoteTrackCreated(_, id) =>
      id == REMOTE_TRACK && last.Some? && last.value.StoreTrack? && last.value.key == REMOTE_TRACK
    case _ => true
  }

  /** Every event of `t` fits the events before it. */
  ghost predicate Ordered(t: seq<Event>) {
    forall i {:trigger Fits(t[..i], t[i])} | 0 <= i < |t| :: Fits(t[..i], t[i])
  }

  /** Ordered extends by one event that fits.  LoopBack states the same for
      its own action type; the two modules are kept independent. */
  lemma OrderedSnoc(t: seq<Event>, e: Event)
    requires Ordered(t) && Fits(t, e)
    ensures Ordered(t + [e])
  {
    var t' := t + [e];
    forall i | 0 <= i < |t'| ensures Fits(t'[..i], t'[i]) {
      if i < |t| {
        assert t'[..i] == t[..i] && t'[i] == t[i];
        assert Fits(t[..i], t[i]);
      } else {
        assert t'[..i] == t;
      }
    }
  }

  /** Starting a call keeps the order: "localTrack" is stored before
      onLocalVideoTrackCreated, and the offer is requested right after the
      stream is added. */
  lemma {:induction false} InitKeepsOrder(t: seq<Event>, cap: Option<VideoCapturer>, cb: Option<CallbackRef>)
    requires Ordered(t)
    ensures Ordered(t + InitEvents(cap, cb))
  {
    var t1 := t + [CreateFactory];
    OrderedSnoc(t, CreateFactory);
    if cap.Some? {
      var t2 := t1 + [StartCapture(cap.value)];
      OrderedSnoc(t1, StartCapture(cap.value));
      var t3 := t2 + [StoreTrack(LOCAL_TRACK, LOCAL_VIDEO_TRACK)];
      OrderedSnoc(t2, StoreTrack(LOCAL_TRACK, LOCAL_VIDEO_TRACK));
      var t4 := t3 + if cb.Some? then [LocalTrackCreated(cb.value, LOCAL_TRACK)] else [];
      if cb.Some? {
        OrderedSnoc(t3, LocalTrackCreated(cb.value, LOCAL_TRACK));
      } else {
        assert t4 == t3;
      }
      var t5 := t4 + [CreatePeerConnection(LocalPeer)];
      OrderedSnoc(t4, CreatePeerConnection(LocalPeer));
      var t6 := t5 + [CreatePeerConnection(RemotePeer)];
      OrderedSnoc(t5, CreatePeerConnection(RemotePeer));
      var t7 := t6 + [AddStream(LocalPeer, LOCAL_VIDEO_TRACK)];
      OrderedSnoc(t6, AddStream(LocalPeer, LOCAL_VIDEO_TRACK));
      OrderedSnoc(t7, CreateOffer(LocalPeer));
      assert t + InitEvents(cap, cb) == t7 + [CreateOffer(LocalPeer)];
    } else {
      assert t + InitEvents(cap, cb) == t1;
    }
  }

  /** The offer step keeps the order: the offer is set as localPeer's local
      description before it is sent, and remotePeer applies it before
      creating the answer. */
  lemma {:induction false} OfferKeepsOrder(t: seq<Event>, offer: SessionDescription)
    requires Ordered(t) && CreateOffer(LocalPeer) in t
    ensures Ordered(t + OfferEvents(offer))
  {
    var t1 := t + [SetLocalDescription(LocalPeer, offer)];
    OrderedSnoc(t, SetLocalDescription(LocalPeer, offer));
    var t2 := t1 + [SendOffer(offer)];
    OrderedSnoc(t1, SendOffer(offer));
    var t3 := t2 + [SetRemoteDescription(RemotePeer, offer)];
    OrderedSnoc(t2, SetRemoteDescription(RemotePeer, offer));
    OrderedSnoc(t3, CreateAnswer(RemotePeer));
    assert t + OfferEvents(offer) == t3 + [CreateAnswer(RemotePeer)];
  }

  /** The answer step keeps the order: the answer is set as remotePeer's local
      description before it is sent, and localPeer applies it on receipt. */
  lemma {:induction false} AnswerKeepsOrder(t: seq<Event>, answer: SessionDescription)
    requires Ordered(t) && CreateAnswer(RemotePeer) in t
    ensures Ordered(t + AnswerEvents(answer))
  {
    var t1 := t + [SetLocalDescription(RemotePeer, answer)];
    OrderedSnoc(t, SetLocalDescription(RemotePeer, answer));
    var t2 := t1 + [SendAnswer(answer)];
    OrderedSnoc(t1, SendAnswer(answer));
    OrderedSnoc(t2, SetRemoteDescription(LocalPeer, answer));
    assert t + AnswerEvents(answer) == t2 + [SetRemoteDescription(LocalPeer, answer)];
  }

  /** The candidate step keeps the order: each candidate is added, to the peer
      RouteCandidate picks, right after it went through the relay, once both
      peers exist. */
  lemma {:induction false} CandidateKeepsOrder(t: seq<Event>, c: IceCandidate)
    requires Ordered(t)
    requires CreatePeerConnection(LocalPeer) in t && CreatePeerConnection(RemotePeer) in t
    ensures Ordered(t + CandidateEvents(c))
  {
    var t1 := t + [SendIceCandidate(c)];
    OrderedSnoc(t, SendIceCandidate(c));
    OrderedSnoc(t1, AddIceCandidate(RouteCandidate(c.sdpMid), c));
    assert t + CandidateEvents(c) == t1 + [AddIceCandidate(RouteCandidate(c.sdpMid), c)];
  }

  /** The track step keeps the order: "remoteTrack" is stored before
      onRemoteVideoTrackCreated. */
  lemma {:induction false} TrackKeepsOrder(t: seq<Event>, track: Option<MediaStreamTrack>, cb: Option<CallbackRef>)
    requires Ordered(t)
    ensures Ordered(t + TrackEvents(track, cb))
  {
    if track.Some? && track.value.Video? {
      var t1 := t + [StoreTrack(REMOTE_TRACK, track.value.video)];
      OrderedSnoc(t, StoreTrack(REMOTE_TRACK, track.value.video));
      if cb.Some? {
        OrderedSnoc(t1, RemoteTrackCreated(cb.value, REMOTE_TRACK));
        assert t + TrackEvents(track, cb) == t1 + [RemoteTrackCreated(cb.value, REMOTE_TRACK)];
      } else {
        assert t + TrackEvents(track, cb) == t1;
      }
    } else {
      assert t + TrackEvents(track, cb) == t;
    }
  }

  /** At position k: localPeer set offer o as its local description, sent it,
      and remotePeer set it as its remote description; localPeer's
      createOffer was issued before all that. */
  ghost predicate OfferExchangedAt(t: seq<Event>, k: nat) {
    && k + 2 < |t|
    && t[k].SetLocalDescription? && t[k].peer == LocalPeer
    && t[k + 1] == SendOffer(t[k].sdp)
    && t[k + 2] == SetRemoteDescription(RemotePeer, t[k].sdp)
    && CreateOffer(LocalPeer) in t[..k]
  }

  /** In any ordered trace, an answer applied by localPeer was set as
      remotePeer's local description and sent just before, and remotePeer
      created it only after an offer had gone the whole way from localPeer
      to remotePeer. */
  lemma {:induction false} AnswerFollowsOffer(t: seq<Event>, i: nat)
    requires Ordered(t) && i < |t|
    requires t[i].SetRemoteDescription? && t[i].peer == LocalPeer
    ensures 2 <= i && t[i - 1] == SendAnswer(t[i].sdp)
    ensures t[i - 2] == SetLocalDescription(RemotePeer, t[i].sdp)
    ensures exists j :: 3 <= j < i - 2 && t[j] == CreateAnswer(RemotePeer) && OfferExchangedAt(t, j - 3)
  {
    assert Fits(t[..i], t[i]);
    assert Fits(t[..i - 1], t[i - 1]);
    assert Fits(t[..i - 2], t[i - 2]);
    var j :| 0 <= j < i - 2 && t[..i - 2][j] == CreateAnswer(RemotePeer);
    assert t[j] == CreateAnswer(RemotePeer);
    assert Fits(t[..j], t[j]);
    assert Fits(t[..j - 1], t[j - 1]);
    assert Fits(t[..j - 2], t[j - 2]);
    assert Fits(t[..j - 3], t[j - 3]);
  }

  /** In any ordered trace, every candidate a peer adds came through the
      relay just before, unchanged, and went to the peer its sdpMid picks,
      which had been created. */
  lemma {:induction false} CandidatesComeThroughRelay(t: seq<Event>, i: nat)
    requires Ordered(t) && i < |t| && t[i].AddIceCandidate?
    ensures 1 <= i && t[i - 1] == SendIceCandidate(t[i].candidate)
    ensures t[i].peer == RouteCandidate(t[i].candidate.sdpMid)
    ensures CreatePeerConnection(t[i].peer) in t[..i]
  {
    assert Fits(t[..i], t[i]);
  }

  /** The routing on sample mids: an m-line named "video" goes to
      remotePeer; "0", "audio" and a null mid go to localPeer. */
  lemma RoutingExamples()
    ensures RouteCandidate(Some("video")) == RemotePeer
    ensures RouteCandidate(Some("0")) == LocalPeer
    ensures RouteCandidate(Some("audio")) == LocalPeer
    ensures RouteCandidate(None) == LocalPeer
  {
    assert StartsWith("video"[0..], "video");
    forall i | 0 <= i <= |"audio"| ensures !StartsWith("audio"[i..], "video") {
      if i == 0 { assert "audio"[0..][..5][0] != "video"[0]; }
    }
  }

  /** Both peers' candidates go through one relay and are routed by sdpMid
      alone, so either peer can be handed back a candidate it found itself:
      remotePeer one whose mid contains "video", localPeer one whose mid is,
      say, "0". */
  lemma CandidateCanReturnToFinder(origin: Peer)
    ensures exists mid: Option<string> ::
      CandidateEvents(IceCandidate(mid, 0, "candidate"))[1]
        == AddIceCandidate(origin, IceCandidate(mid, 0, "candidate"))
  {
    RoutingExamples();
    var mid := if origin == RemotePeer then Some("video") else Some("0");
    assert CandidateEvents(IceCandidate(mid, 0, "candidate"))[1]
        == AddIceCandidate(origin, IceCandidate(mid, 0, "candidate"));
  }

  // ---------------------------------------------------------------------
  // The service

  class WebRtcService {
    var callback: Option<CallbackRef>
    var localVideoTrack: Option<VideoTrack>
    /** localPeer and remotePeer are non-null. */
    var peersCreated: bool
    var signaling: Signaling.SignalingClient?
    /** The process-wide WebRtcHolder. */
    const holder: Holder.WebRtcHolder
    var trace: seq<Event>

    ghost predicate Valid()
      reads this, signaling
    {
      && (peersCreated ==> signaling != null && signaling.callback == Some(RELAY_HANDLER))
      && (peersCreated ==> CreatePeerConnection(LocalPeer) in trace && CreatePeerConnection(RemotePeer) in trace)
      && Ordered(trace)
    }

    constructor (holder: Holder.WebRtcHolder)
      ensures Valid() && this.holder == holder
      ensures callback.None? && localVideoTrack.None? && !peersCreated
      ensures signaling == null && trace == []
    {
      this.holder := holder;
      callback := None;
      localVideoTrack := None;
      peersCreated := false;
      signaling := null;
      trace := [];
    }

    /** Binder registerCallback: last registration wins. */
    method RegisterCallback(cb: Option<CallbackRef>)
      modifies this`callback
      ensures callback == cb
    {
      callback := cb;
    }

    /** Binder unregisterCallback: clears the slot, whatever `cb` is. */
    method UnregisterCallback(cb: Option<CallbackRef>)
      modifies this`callback
      ensures callback == None
    {
      callback := None;
    }

    /** Binder startCall: runs initWebRTCNew with the device list the camera
        enumerator reports. */
    method StartCall(cams: seq<Camera>)
      requires Valid()
      modifies this`localVideoTrack, this`peersCreated, this`signaling, this`trace, holder
      ensures Valid()
      ensures trace == old(trace) + InitEvents(SelectedCapturer(cams), callback)
      ensures SelectedCapturer(cams).None? ==>
        && localVideoTrack == old(localVideoTrack) && peersCreated == old(peersCreated)
        && signaling == old(signaling) && holder.videoTrackMap == old(holder.videoTrackMap)
      ensures SelectedCapturer(cams).Some? ==>
        && localVideoTrack == Some(LOCAL_VIDEO_TRACK) && peersCreated
        && fresh(signaling) && signaling.State() == Signaling.Relay(Some(RELAY_HANDLER), [])
        && holder.videoTrackMap == old(holder.videoTrackMap)[LOCAL_TRACK := LOCAL_VIDEO_TRACK]
    {
      InitWebRtcNew(cams);
    }

    method InitWebRtcNew(cams: seq<Camera>)
      requires Valid()
      modifies this`localVideoTrack, this`peersCreated, this`signaling, this`trace, holder
      ensures Valid()
      ensures trace == old(trace) + InitEvents(SelectedCapturer(cams), callback)
      ensures SelectedCapturer(cams).None? ==>
        && localVideoTrack == old(localVideoTrack) && peersCreated == old(peersCreated)
        && signaling == old(signaling) && holder.videoTrackMap == old(holder.videoTrackMap)
      ensures SelectedCapturer(cams).Some? ==>
        && localVideoTrack == Some(LOCAL_VIDEO_TRACK) && peersCreated
        && fresh(signaling) && signaling.State() == Signaling.Relay(Some(RELAY_HANDLER), [])
        && holder.videoTrackMap == old(holder.videoTrackMap)[LOCAL_TRACK := LOCAL_VIDEO_TRACK]
    {
      ghost var t0 := trace;
      InitKeepsOrder(t0, SelectedCapturer(cams), callback);
      trace := trace + [CreateFactory];
      var capturer := CreateCameraCapturer(cams);
      if capturer.None? {
        // "No camera capturer found."
        assert trace == t0 + InitEvents(capturer, callback);
        return;
      }
      ghost var t1 := trace;
      StartLocalTrack(capturer.value);
      ghost var t2 := trace;
      CreatePeersAndOffer();
      assert trace == t0 + InitEvents(capturer, callback) by {
        assert t1 == t0 + [CreateFactory];
        assert t2 == t1 + [StartCapture(capturer.value), StoreTrack(LOCAL_TRACK, LOCAL_VIDEO_TRACK)]
          + (if callback.Some? then [LocalTrackCreated(callback.value, LOCAL_TRACK)] else []);
      }
    }

    /** Capture, the local track, its store in the holder and the
        onLocalVideoTrackCreated notification (initWebRTCNew, steps 2 and
        "store the local track"). */
    method StartLocalTrack(capturer: VideoCapturer)
      modifies this`localVideoTrack, this`trace, holder
      ensures localVideoTrack == Some(LOCAL_VIDEO_TRACK)
      ensures holder.videoTrackMap == old(holder.videoTrackMap)[LOCAL_TRACK := LOCAL_VIDEO_TRACK]
      ensures trace == old(trace) + [StartCapture(capturer), StoreTrack(LOCAL_TRACK, LOCAL_VIDEO_TRACK)]
        + (if callback.Some? then [LocalTrackCreated(callback.value, LOCAL_TRACK)] else [])
    {
      trace := trace + [StartCapture(capturer)];
      localVideoTrack := Some(LOCAL_VIDEO_TRACK);
      holder.PutVideoTrack(LOCAL_TRACK, LOCAL_VIDEO_TRACK);
      trace := trace + [StoreTrack(LOCAL_TRACK, LOCAL_VIDEO_TRACK)];
      if callback.Some? {
        trace := trace + [LocalTrackCreated(callback.value, LOCAL_TRACK)];
      }
    }

    /** The relay, both peers, the relay's handler, the local stream and
        localPeer's createOffer (initWebRTCNew, steps 3 to 7). */
    method CreatePeersAndOffer()
      modifies this`peersCreated, this`signaling, this`trace
      ensures peersCreated && fresh(signaling)
      ensures signaling.State() == Signaling.Relay(Some(RELAY_HANDLER), [])
      ensures trace == old(trace) + [CreatePeerConnection(LocalPeer), CreatePeerConnection(RemotePeer),
                                     AddStream(LocalPeer, LOCAL_VIDEO_TRACK), CreateOffer(LocalPeer)]
    {
      var client := new Signaling.SignalingClient();
      trace := trace + [CreatePeerConnection(LocalPeer), CreatePeerConnection(RemotePeer)];
      peersCreated := true;
      client.SetCallback(Some(RELAY_HANDLER));
      signaling := client;
      trace := trace + [AddStream(LocalPeer, LOCAL_VIDEO_TRACK), CreateOffer(LocalPeer)];
    }

    /** localPeer.createOffer succeeded with `offer`. */
    method OnOfferCreated(offer: SessionDescription)
      requires Valid() && peersCreated && CreateOffer(LocalPeer) in trace
      modifies this`trace, signaling
      ensures Valid()
      ensures trace == old(trace) + OfferEvents(offer)
      ensures signaling.delivered
           == old(signaling.delivered) + [Signaling.Invocation(RELAY_HANDLER, Signaling.OnOfferReceived(offer))]
    {
      OfferKeepsOrder(trace, offer);
      trace := trace + [SetLocalDescription(LocalPeer, offer), SendOffer(offer)];
      signaling.SendOffer(offer);
      // The relay has invoked onOfferReceived on the handler registered in
      // InitWebRtcNew, synchronously; the handler's body follows.
      assert signaling.callback == Some(RELAY_HANDLER);
      var received := signaling.delivered[|signaling.delivered| - 1].call.offer;
      trace := trace + [SetRemoteDescription(RemotePeer, received), CreateAnswer(RemotePeer)];
      assert trace == old(trace) + OfferEvents(offer);
    }

    /** remotePeer.createAnswer succeeded with `answer`. */
    method OnAnswerCreated(answer: SessionDescription)
      requires Valid() && peersCreated && CreateAnswer(RemotePeer) in trace
      modifies this`trace, signaling
      ensures Valid()
      ensures trace == old(trace) + AnswerEvents(answer)
      ensures signaling.delivered
           == old(signaling.delivered) + [Signaling.Invocation(RELAY_HANDLER, Signaling.OnAnswerReceived(answer))]
    {
      AnswerKeepsOrder(trace, answer);
      trace := trace + [SetLocalDescription(RemotePeer, answer), SendAnswer(answer)];
      signaling.SendAnswer(answer);
      // onAnswerReceived, run synchronously by the relay.
      assert signaling.callback == Some(RELAY_HANDLER);
      var received := signaling.delivered[|signaling.delivered| - 1].call.answer;
      trace := trace + [SetRemoteDescription(LocalPeer, received)];
      assert trace == old(trace) + AnswerEvents(answer);
    }

    /** Either peer's onIceCandidate.  Both observers forward to the same
        relay, so `origin` does not influence anything. */
    method OnIceCandidate(origin: Peer, candidate: IceCandidate)
      requires Valid() && peersCreated
      modifies this`trace, signaling
      ensures Valid()
      ensures trace == old(trace) + CandidateEvents(candidate)
      ensures signaling.delivered == old(signaling.delivered) +
        [Signaling.Invocation(RELAY_HANDLER,
           Signaling.OnIceCandidateReceived(candidate.sdpMid, candidate.sdpMLineIndex, candidate.sdp))]
    {
      CandidateKeepsOrder(trace, candidate);
      trace := trace + [SendIceCandidate(candidate)];
      signaling.SendIceCandidate(candidate.sdpMid, candidate.sdpMLineIndex, candidate.sdp);
      // onIceCandidateReceived, run synchronously by the relay.
      assert signaling.callback == Some(RELAY_HANDLER);
      var call := signaling.delivered[|signaling.delivered| - 1].call;
      var iceCandidate := IceCandidate(call.sdpMid, call.sdpMLineIndex, call.candidate);
      if call.sdpMid.Some? && Contains(call.sdpMid.value, "video") {
        trace := trace + [AddIceCandidate(RemotePeer, iceCandidate)];
      } else {
        trace := trace + [AddIceCandidate(LocalPeer, iceCandidate)];
      }
      assert trace == old(trace) + CandidateEvents(candidate);
    }

    /** remotePeer's onAddTrack, with the receiver's track (null allowed). */
    method OnAddTrack(track: Option<MediaStreamTrack>)
      requires Valid() && peersCreated
      modifies this`trace, holder
      ensures Valid()
      ensures trace == old(trace) + TrackEvents(track, callback)
      ensures holder.videoTrackMap ==
        if track.Some? && track.value.Video?
        then old(holder.videoTrackMap)[REMOTE_TRACK := track.value.video]
        else old(holder.videoTrackMap)
    {
      TrackKeepsOrder(trace, track, callback);
      if track.Some? && track.value.Video? {
        var remoteTrack := track.value.video;
        holder.PutVideoTrack(REMOTE_TRACK, remoteTrack);
        trace := trace + [StoreTrack(REMOTE_TRACK, remoteTrack)];
        if callback.Some? {
          trace := trace + [RemoteTrackCreated(callback.value, REMOTE_TRACK)];
        }
      }
      assert trace == old(trace) + TrackEvents(track, callback);
    }
  }
}
