/** LoopBackActivity: one activity that runs both ends of a call.  pc1 sends
    the camera track, pc2 receives it; descriptions are handed across
    directly and every ICE candidate one peer finds is added to the other.

    Calls into the WebRTC library and the renderers are Actions appended to
    `trace`; the library's asynchronous callbacks (offer or answer created,
    candidate found, track received) are step methods. */
module LoopBack {
  import opened Media

  const CAMERA_PERMISSION_REQUEST_CODE: int := 1
  /** PackageManager.PERMISSION_GRANTED. */
  const PERMISSION_GRANTED: int := 0
  const LOCAL_VIDEO_TRACK: VideoTrack := VideoTrack("localTrack")

  datatype Pc = Pc1 | Pc2
  datatype View = LocalView | RemoteView

  /** What an SdpObserver hears about a createOffer or createAnswer. */
  datatype SdpResult = CreateSuccess(sdp: SessionDescription) | CreateFailure(error: string)

  datatype Action =
    | RequestPermissions(requestCode: int)
    | CreateEglBase
    | InitRenderers                                      // localView.init, remoteView.init
    | CreateFactory
    | StartCapture(capturer: VideoCapturer)              // capturer.initialize + startCapture(640, 480, 30)
    | AddSink(track: VideoTrack, view: View)
    | CreatePeerConnection(pc: Pc)
    | AddSendTransceiver(pc: Pc, sendTrack: Option<VideoTrack>)  // SEND_ONLY, with localVideoTrack
    | AddRecvTransceiver(pc: Pc)                         // MEDIA_TYPE_VIDEO, RECV_ONLY
    | CreateOffer(pc: Pc)
    | CreateAnswer(pc: Pc)
    | SetLocalDescription(pc: Pc, sdp: SessionDescription)
    | SetRemoteDescription(pc: Pc, sdp: SessionDescription)
    | AddIceCandidate(pc: Pc, candidate: IceCandidate)
    | ClosePeer(pc: Pc)
    | StopCapture(capturer: VideoCapturer)
    | DisposeCapturer(capturer: VideoCapturer)
    | ReleaseEglBase

  // ---------------------------------------------------------------------
  // Decisions

  /** The onRequestPermissionsResult loop: true unless some result differs
      from PERMISSION_GRANTED (so an empty array counts as granted). */
  method PermissionsGranted(grantResults: seq<int>) returns (granted: bool)
    ensures granted <==> forall i | 0 <= i < |grantResults| :: grantResults[i] == PERMISSION_GRANTED
  {
    granted := true;
    for i := 0 to |grantResults|
      invariant granted
      invariant forall j | 0 <= j < i :: grantResults[j] == PERMISSION_GRANTED
    {
      if grantResults[i] != PERMISSION_GRANTED {
        granted := false;
        break;
      }
    }
  }

  /** The startCamera search: the first front-facing device in enumeration
      order, whether or not a capturer can be made for it. */
  method FindFrontCamera(cams: seq<Camera>) returns (front: Option<Camera>)
    ensures front.None? <==> forall i | 0 <= i < |cams| :: !cams[i].frontFacing
    ensures front.Some? ==> FirstWhere(cams, IsFrontFacing).Some? &&
                            front.value == cams[FirstWhere(cams, IsFrontFacing).value]
  {
    front := None;
    for i := 0 to |cams|
      invariant front.None?
      invariant forall j | 0 <= j < i :: !IsFrontFacing(cams[j])
    {
      if cams[i].frontFacing {
        assert IsFrontFacing(cams[i]);
        front := Some(cams[i]);
        break;
      }
    }
  }

  /** The capturer startCamera ends up with, when it finds a front camera. */
  function FrontCapturer(cams: seq<Camera>): Option<VideoCapturer> {
    match FirstWhere(cams, IsFrontFacing)
    case None => None
    case Some(i) => cams[i].capturer
  }

  /** The tag each PeerObserver is built with. */
  function TagOf(pc: Pc): string {
    if pc == Pc1 then "pc1" else "pc2"
  }

  /** PeerObserver.onIceCandidate's choice of peer: pc2 for the observer
      tagged "pc1", pc1 for any other tag. */
  function CandidateTarget(tag: string): (target: Pc)
    ensures forall pc :: tag == TagOf(pc) ==> target != pc
    ensures tag != "pc1" ==> target == Pc1
  {
    if tag == "pc1" then Pc2 else Pc1
  }

  // ---------------------------------------------------------------------
  // The actions each step issues

  function CameraActions(cams: seq<Camera>): seq<Action> {
    match FrontCapturer(cams)
    case None => []
    case Some(c) => [StartCapture(c), AddSink(LOCAL_VIDEO_TRACK, LocalView)]
  }

  /** initWebRTC, given the local track as startCamera leaves it. */
  function InitActions(cams: seq<Camera>, track: Option<VideoTrack>): seq<Action> {
    [CreateEglBase, InitRenderers, CreateFactory]
    + CameraActions(cams)
    + [CreatePeerConnection(Pc1), CreatePeerConnection(Pc2),
       AddSendTransceiver(Pc1, track), AddRecvTransceiver(Pc2), CreateOffer(Pc1)]
  }

  function OfferActions(result: SdpResult): seq<Action> {
    match result
    case CreateSuccess(offer) =>
      [SetLocalDescription(Pc1, offer), SetRemoteDescription(Pc2, offer), CreateAnswer(Pc2)]
    case CreateFailure(_) => []
  }

  function AnswerActions(result: SdpResult): seq<Action> {
    match result
    case CreateSuccess(answer) => [SetLocalDescription(Pc2, answer), SetRemoteDescription(Pc1, answer)]
    case CreateFailure(_) => []
  }

  /** onDestroy: release exactly the resources that are non-null. */
  function DestroyActions(pc1: bool, pc2: bool, capturer: Option<VideoCapturer>, eglBase: bool): seq<Action> {
    (if pc1 then [ClosePeer(Pc1)] else [])
    + (if pc2 then [ClosePeer(Pc2)] else [])
    + (if capturer.Some? then [StopCapture(capturer.value), DisposeCapturer(capturer.value)] else [])
    + (if eglBase then [ReleaseEglBase] else [])
  }

  // ---------------------------------------------------------------------
  // Ordering invariant of the trace

  /** Whether action `a` may follow the actions `before`. */
  ghost predicate Fits(before: seq<Action>, a: Action) {
    var last := if |before| > 0 then Some(before[|before| - 1]) else None;
    match a
    case CreateOffer(p) => p == Pc1 && last == Some(AddRecvTransceiver(Pc2))
    case SetLocalDescription(p, _) =>
      (if p == Pc1 then CreateOffer(Pc1) else CreateAnswer(Pc2)) in before
    case SetRemoteDescription(p, d) =>
      last == Some(if p == Pc2 then SetLocalDescription(Pc1, d) else SetLocalDescription(Pc2, d))
    case CreateAnswer(p) =>
      p == Pc2 && last.Some? && last.value.SetRemoteDescription? && last.value.pc == Pc2
    case AddIceCandidate(p, _) => CreatePeerConnection(p) in before
    case AddSink(_, v) =>
      v == RemoteView ==> CreatePeerConnection(Pc1) in before || CreatePeerConnection(Pc2) in before
    case ClosePeer(p) => CreatePeerConnection(p) in before
    case StopCapture(c) => StartCapture(c) in before
    case DisposeCapturer(c) => last == Some(StopCapture(c))
    case ReleaseEglBase => CreateEglBase in before
    case _ => true
  }

  ghost predicate Ordered(t: seq<Action>) {
    forall i {:trigger Fits(t[..i], t[i])} | 0 <= i < |t| :: Fits(t[..i], t[i])
  }

  lemma OrderedSnoc(t: seq<Action>, a: Action)
    requires Ordered(t) && Fits(t, a)
    ensures Ordered(t + [a])
  {
    var t' := t + [a];
    forall i | 0 <= i < |t'| ensures Fits(t'[..i], t'[i]) {
      if i < |t| {
        assert t'[..i] == t[..i] && t'[i] == t[i];
        assert Fits(t[..i], t[i]);
      } else {
        assert t'[..i] == t;
      }
    }
  }

  /** On offer success: pc1 sets it as local description, then pc2 as remote
      description, then pc2 creates the answer; on failure nothing happens. */
  lemma {:induction false} OfferKeepsOrder(t: seq<Action>, result: SdpResult)
    requires Ordered(t) && CreateOffer(Pc1) in t
    ensures Ordered(t + OfferActions(result))
  {
    if result.CreateSuccess? {
      var o := result.sdp;
      var t1 := t + [SetLocalDescription(Pc1, o)];
      OrderedSnoc(t, SetLocalDescription(Pc1, o));
      var t2 := t1 + [SetRemoteDescription(Pc2, o)];
      OrderedSnoc(t1, SetRemoteDescription(Pc2, o));
      OrderedSnoc(t2, CreateAnswer(Pc2));
      assert t + OfferActions(result) == t2 + [CreateAnswer(Pc2)];
    } else {
      assert t + OfferActions(result) == t;
    }
  }

  /** On answer success: pc2 sets it as local description, then pc1 as
      remote description; on failure nothing happens. */
  lemma {:induction false} AnswerKeepsOrder(t: seq<Action>, result: SdpResult)
    requires Ordered(t) && CreateAnswer(Pc2) in t
    ensures Ordered(t + AnswerActions(result))
  {
    if result.CreateSuccess? {
      var a := result.sdp;
      var t1 := t + [SetLocalDescription(Pc2, a)];
      OrderedSnoc(t, SetLocalDescription(Pc2, a));
      OrderedSnoc(t1, SetRemoteDescription(Pc1, a));
      assert t + AnswerActions(result) == t1 + [SetRemoteDescription(Pc1, a)];
    } else {
      assert t + AnswerActions(result) == t;
    }
  }

  /** Teardown keeps the order: a peer is closed only if it was created, a
      capturer stopped only if it was started and disposed right after, the
      EGL context released only if it was created. */
  lemma {:induction false} DestroyKeepsOrder(t: seq<Action>, pc1: bool, pc2: bool,
                                             capturer: Option<VideoCapturer>, eglBase: bool)
    requires Ordered(t)
    requires pc1 ==> CreatePeerConnection(Pc1) in t
    requires pc2 ==> CreatePeerConnection(Pc2) in t
    requires capturer.Some? ==> StartCapture(capturer.value) in t
    requires eglBase ==> CreateEglBase in t
    ensures Ordered(t + DestroyActions(pc1, pc2, capturer, eglBase))
  {
    var t1 := t + if pc1 then [ClosePeer(Pc1)] else [];
    if pc1 { OrderedSnoc(t, ClosePeer(Pc1)); } else { assert t1 == t; }
    var t2 := t1 + if pc2 then [ClosePeer(Pc2)] else [];
    if pc2 { OrderedSnoc(t1, ClosePeer(Pc2)); } else { assert t2 == t1; }
    var t3 := t2 + if capturer.Some? then [StopCapture(capturer.value), DisposeCapturer(capturer.value)] else [];
    if capturer.Some? {
      OrderedSnoc(t2, StopCapture(capturer.value));
      OrderedSnoc(t2 + [StopCapture(capturer.value)], DisposeCapturer(capturer.value));
      assert t3 == t2 + [StopCapture(capturer.value)] + [DisposeCapturer(capturer.value)];
    } else {
      assert t3 == t2;
    }
    var t4 := t3 + if eglBase then [ReleaseEglBase] else [];
    if eglBase { OrderedSnoc(t3, ReleaseEglBase); } else { assert t4 == t3; }
    assert t + DestroyActions(pc1, pc2, capturer, eglBase) == t4;
  }

  /** In any ordered trace, the answer pc1 applies was set as pc2's local
      description just before, and pc2 created it only after pc1's offer had
      been set as pc1's local and then pc2's remote description. */
  lemma {:induction false} AnswerFollowsOffer(t: seq<Action>, i: nat)
    requires Ordered(t) && i < |t|
    requires t[i].SetRemoteDescription? && t[i].pc == Pc1
    ensures 1 <= i && t[i - 1] == SetLocalDescription(Pc2, t[i].sdp)
    ensures exists j :: 2 <= j < i - 1 && t[j] == CreateAnswer(Pc2) &&
              t[j - 2].SetLocalDescription? && t[j - 2].pc == Pc1 &&
              t[j - 1] == SetRemoteDescription(Pc2, t[j - 2].sdp) &&
              CreateOffer(Pc1) in t[..j - 2]
  {
    assert Fits(t[..i], t[i]);
    assert Fits(t[..i - 1], t[i - 1]);
    var j :| 0 <= j < i - 1 && t[..i - 1][j] == CreateAnswer(Pc2);
    assert t[j] == CreateAnswer(Pc2);
    assert Fits(t[..j], t[j]);
    assert Fits(t[..j - 1], t[j - 1]);
    assert Fits(t[..j - 2], t[j - 2]);
  }

  /** In any ordered trace, teardown never touches what was not set up, no
      candidate is added to a peer connection that does not exist, and the
      remote view is attached only once a peer connection exists. */
  lemma {:induction false} TeardownTouchesOnlyInitialised(t: seq<Action>, i: nat)
    requires Ordered(t) && i < |t|
    ensures t[i].ClosePeer? ==> CreatePeerConnection(t[i].pc) in t[..i]
    ensures t[i].StopCapture? ==> StartCapture(t[i].capturer) in t[..i]
    ensures t[i].DisposeCapturer? ==> i > 0 && t[i - 1] == StopCapture(t[i].capturer)
    ensures t[i] == ReleaseEglBase ==> CreateEglBase in t[..i]
    ensures t[i].AddIceCandidate? ==> CreatePeerConnection(t[i].pc) in t[..i]
    ensures t[i].AddSink? && t[i].view == RemoteView ==>
              CreatePeerConnection(Pc1) in t[..i] || CreatePeerConnection(Pc2) in t[..i]
  {
    assert Fits(t[..i], t[i]);
  }

  // ---------------------------------------------------------------------
  // The activity

  class LoopBackActivity {
    /** eglBase, pc1 and pc2 are non-null. */
    var eglBase: bool
    var pc1: bool
    var pc2: bool
    var capturer: Option<VideoCapturer>
    var localVideoTrack: Option<VideoTrack>
    var trace: seq<Action>

    ghost predicate Valid()
      reads this
    {
      && (pc1 ==> CreatePeerConnection(Pc1) in trace)
      && (pc2 ==> CreatePeerConnection(Pc2) in trace)
      && (capturer.Some? ==> StartCapture(capturer.value) in trace)
      && (eglBase ==> CreateEglBase in trace)
      && Ordered(trace)
    }

    constructor ()
      ensures Valid()
      ensures !eglBase && !pc1 && !pc2 && capturer.None? && localVideoTrack.None? && trace == []
    {
      eglBase, pc1, pc2 := false, false, false;
      capturer, localVideoTrack := None, None;
      trace := [];
    }

    /** onCreate: without both permissions, request them; otherwise start. */
    method OnCreate(cameraGranted: bool, audioGranted: bool, cams: seq<Camera>)
      requires Valid()
      modifies this
      ensures Valid()
      ensures !(cameraGranted && audioGranted) ==>
        && trace == old(trace) + [RequestPermissions(CAMERA_PERMISSION_REQUEST_CODE)]
        && eglBase == old(eglBase) && pc1 == old(pc1) && pc2 == old(pc2)
        && capturer == old(capturer) && localVideoTrack == old(localVideoTrack)
      ensures cameraGranted && audioGranted ==>
        && eglBase && pc1 && pc2
        && capturer == (if FirstWhere(cams, IsFrontFacing).Some? then FrontCapturer(cams) else old(capturer))
        && localVideoTrack == (if FrontCapturer(cams).Some? then Some(LOCAL_VIDEO_TRACK) else old(localVideoTrack))
        && trace == old(trace) + InitActions(cams, localVideoTrack)
    {
      if !cameraGranted || !audioGranted {
        OrderedSnoc(trace, RequestPermissions(CAMERA_PERMISSION_REQUEST_CODE));
        trace := trace + [RequestPermissions(CAMERA_PERMISSION_REQUEST_CODE)];
      } else {
        InitWebRtc(cams);
      }
    }

    /** onRequestPermissionsResult: start only for request code 1 with every
        permission granted. */
    method OnRequestPermissionsResult(requestCode: int, grantResults: seq<int>, cams: seq<Camera>)
      requires Valid()
      modifies this
      ensures Valid()
      ensures var start := requestCode == CAMERA_PERMISSION_REQUEST_CODE &&
                           forall i | 0 <= i < |grantResults| :: grantResults[i] == PERMISSION_GRANTED;
        && (!start ==> unchanged(this))
        && (start ==>
             && eglBase && pc1 && pc2
             && capturer == (if FirstWhere(cams, IsFrontFacing).Some? then FrontCapturer(cams) else old(capturer))
             && localVideoTrack == (if FrontCapturer(cams).Some? then Some(LOCAL_VIDEO_TRACK) else old(localVideoTrack))
             && trace == old(trace) + InitActions(cams, localVideoTrack))
    {
      if requestCode == CAMERA_PERMISSION_REQUEST_CODE {
        var granted := PermissionsGranted(grantResults);
        if granted {
          InitWebRtc(cams);
        }
        // otherwise: "Camera and microphone permissions denied"
      }
    }

    method InitWebRtc(cams: seq<Camera>)
      requires Valid()
      modifies this
      ensures Valid()
      ensures eglBase && pc1 && pc2
      ensures capturer == (if FirstWhere(cams, IsFrontFacing).Some? then FrontCapturer(cams) else old(capturer))
      ensures localVideoTrack == (if FrontCapturer(cams).Some? then Some(LOCAL_VIDEO_TRACK) else old(localVideoTrack))
      ensures trace == old(trace) + InitActions(cams, localVideoTrack)
    {
      CreateEglAndFactory();
      ghost var t1 := trace;
      StartCamera(cams);
      ghost var t2 := trace;
      CreatePeerConnections();
      StartCall();
      assert trace == old(trace) + InitActions(cams, localVideoTrack) by {
        assert t1 == old(trace) + [CreateEglBase, InitRenderers, CreateFactory];
        assert t2 == t1 + CameraActions(cams);
      }
    }

    /** The part of initWebRTC before startCamera: the EGL context, the two
        renderers and the peer connection factory. */
    method CreateEglAndFactory()
      requires Valid()
      modifies this`eglBase, this`trace
      ensures Valid() && eglBase
      ensures trace == old(trace) + [CreateEglBase, InitRenderers, CreateFactory]
    {
      OrderedSnoc(trace, CreateEglBase);
      trace := trace + [CreateEglBase];
      eglBase := true;
      OrderedSnoc(trace, InitRenderers);
      trace := trace + [InitRenderers];
      OrderedSnoc(trace, CreateFactory);
      trace := trace + [CreateFactory];
    }

    /** startCamera: the first front camera; no capturer and no local track
        when there is none or when its capturer cannot be made. */
    method StartCamera(cams: seq<Camera>)
      requires Valid()
      modifies this`capturer, this`localVideoTrack, this`trace
      ensures Valid()
      ensures capturer == (if FirstWhere(cams, IsFrontFacing).Some? then FrontCapturer(cams) else old(capturer))
      ensures localVideoTrack == (if FrontCapturer(cams).Some? then Some(LOCAL_VIDEO_TRACK) else old(localVideoTrack))
      ensures trace == old(trace) + CameraActions(cams)
    {
      var frontCamera := FindFrontCamera(cams);
      if frontCamera.None? {
        // "No front camera found"
        return;
      }
      capturer := frontCamera.value.capturer;
      if capturer.None? {
        // "Failed to create camera capturer"
        return;
      }
      OrderedSnoc(trace, StartCapture(capturer.value));
      trace := trace + [StartCapture(capturer.value)];
      localVideoTrack := Some(LOCAL_VIDEO_TRACK);
      OrderedSnoc(trace, AddSink(LOCAL_VIDEO_TRACK, LocalView));
      trace := trace + [AddSink(LOCAL_VIDEO_TRACK, LocalView)];
    }

    /** createPeerConnections: pc1 sends the local track (null if the camera
        did not start), pc2 only receives video. */
    method CreatePeerConnections()
      requires Valid()
      modifies this`pc1, this`pc2, this`trace
      ensures Valid() && pc1 && pc2
      ensures trace == old(trace) + [CreatePeerConnection(Pc1), CreatePeerConnection(Pc2),
                                     AddSendTransceiver(Pc1, localVideoTrack), AddRecvTransceiver(Pc2)]
    {
      OrderedSnoc(trace, CreatePeerConnection(Pc1));
      trace := trace + [CreatePeerConnection(Pc1)];
      pc1 := true;
      OrderedSnoc(trace, CreatePeerConnection(Pc2));
      trace := trace + [CreatePeerConnection(Pc2)];
      pc2 := true;
      OrderedSnoc(trace, AddSendTransceiver(Pc1, localVideoTrack));
      trace := trace + [AddSendTransceiver(Pc1, localVideoTrack)];
      OrderedSnoc(trace, AddRecvTransceiver(Pc2));
      trace := trace + [AddRecvTransceiver(Pc2)];
    }

    /** startCall: pc1.createOffer. */
    method StartCall()
      requires Valid() && pc1 && |trace| > 0 && trace[|trace| - 1] == AddRecvTransceiver(Pc2)
      modifies this`trace
      ensures Valid()
      ensures trace == old(trace) + [CreateOffer(Pc1)]
    {
      OrderedSnoc(trace, CreateOffer(Pc1));
      trace := trace + [CreateOffer(Pc1)];
    }

    /** pc1's createOffer observer. */
    method OnOfferCreated(result: SdpResult)
      requires Valid() && CreateOffer(Pc1) in trace
      modifies this`trace
      ensures Valid()
      ensures trace == old(trace) + OfferActions(result)
    {
      OfferKeepsOrder(trace, result);
      match result
      case CreateSuccess(offer) =>
        // pc1.setLocalDescription, pc2.setRemoteDescription, pc2.createAnswer
        trace := trace + [SetLocalDescription(Pc1, offer), SetRemoteDescription(Pc2, offer), CreateAnswer(Pc2)];
      case CreateFailure(_) =>
        // "createOffer failed"
    }

    /** pc2's createAnswer observer. */
    method OnAnswerCreated(result: SdpResult)
      requires Valid() && CreateAnswer(Pc2) in trace
      modifies this`trace
      ensures Valid()
      ensures trace == old(trace) + AnswerActions(result)
    {
      AnswerKeepsOrder(trace, result);
      match result
      case CreateSuccess(answer) =>
        trace := trace + [SetLocalDescription(Pc2, answer), SetRemoteDescription(Pc1, answer)];
      case CreateFailure(_) =>
        // "createAnswer failed"
    }

    /** PeerObserver.onIceCandidate on the observer attached to `observer`. */
    method OnIceCandidate(observer: Pc, candidate: IceCandidate)
      requires Valid() && pc1 && pc2
      modifies this`trace
      ensures Valid()
      ensures trace == old(trace) + [AddIceCandidate(CandidateTarget(TagOf(observer)), candidate)]
      ensures CandidateTarget(TagOf(observer)) != observer
    {
      var tag := TagOf(observer);
      var target := if tag == "pc1" then Pc2 else Pc1;
      OrderedSnoc(trace, AddIceCandidate(target, candidate));
      trace := trace + [AddIceCandidate(target, candidate)];
    }

    /** PeerObserver.onTrack: attach the remote view only to a video track. */
    method OnTrack(observer: Pc, track: Option<MediaStreamTrack>)
      requires Valid()
      requires observer == Pc1 ==> pc1
      requires observer == Pc2 ==> pc2
      modifies this`trace
      ensures Valid()
      ensures trace == old(trace) +
        if track.Some? && track.value.Video? then [AddSink(track.value.video, RemoteView)] else []
    {
      if track.Some? && track.value.Video? {
        OrderedSnoc(trace, AddSink(track.value.video, RemoteView));
        trace := trace + [AddSink(track.value.video, RemoteView)];
      }
    }

    /** onDestroy: close or release each resource that is non-null. */
    method OnDestroy()
      requires Valid()
      modifies this`trace
      ensures Valid()
      ensures trace == old(trace) + DestroyActions(pc1, pc2, capturer, eglBase)
    {
      DestroyKeepsOrder(trace, pc1, pc2, capturer, eglBase);
      ghost var t0 := trace;
      if pc1 { trace := trace + [ClosePeer(Pc1)]; }
      if pc2 { trace := trace + [ClosePeer(Pc2)]; }
      if capturer.Some? {
        trace := trace + [StopCapture(capturer.value), DisposeCapturer(capturer.value)];
      }
      if eglBase { trace := trace + [ReleaseEglBase]; }
      assert trace == t0 + DestroyActions(pc1, pc2, capturer, eglBase);
    }
  }
}
