/** Values that the application receives from, or hands to, the WebRTC
    library.  The library itself is not modelled: a session description,
    an ICE candidate, a track or a capturer is an opaque value here, and
    only the fields the application reads are spelled out. */
module Media {

  /** A Java reference that may be null. */
  datatype Option<+T> = None | Some(value: T)

  /** org.webrtc.SessionDescription: an opaque SDP blob with its type. */
  datatype SdpType = OfferType | PrAnswerType | AnswerType
  datatype SessionDescription = SessionDescription(sdpType: SdpType, description: string)

  /** org.webrtc.IceCandidate: the three fields the application forwards.
      `sdpMid` is a Java String and may be null. */
  datatype IceCandidate = IceCandidate(sdpMid: Option<string>, sdpMLineIndex: int, sdp: string)

  /** A video track handle, known to the application by its id. */
  datatype VideoTrack = VideoTrack(id: string)

  /** org.webrtc.MediaStreamTrack: what an RtpReceiver may hand over. */
  datatype AudioTrack = AudioTrack(id: string)
  datatype MediaStreamTrack = Video(video: VideoTrack) | Audio(audio: AudioTrack)

  /** A camera capturer created by Camera2Enumerator.createCapturer. */
  datatype VideoCapturer = VideoCapturer(deviceName: string)

  /** One entry of Camera2Enumerator.getDeviceNames(), together with what
      isFrontFacing(name) and createCapturer(name, null) answer for it. */
  datatype Camera = Camera(name: string, frontFacing: bool, capturer: Option<VideoCapturer>)

  predicate IsFrontFacing(c: Camera) { c.frontFacing }

  /** The index of the first element of `s` satisfying `p`, in order. */
  function FirstWhere<T>(s: seq<T>, p: T -> bool): (r: Option<nat>)
    ensures r.None? <==> forall i | 0 <= i < |s| :: !p(s[i])
    ensures r.Some? ==> r.value < |s| && p(s[r.value])
    ensures r.Some? ==> forall j | 0 <= j < r.value :: !p(s[j])
  {
    if |s| == 0 then None
    else if p(s[0]) then Some(0)
    else match FirstWhere(s[1..], p)
      case None => None
      case Some(k) => Some(k + 1)
  }

  predicate StartsWith(s: string, prefix: string) {
    |prefix| <= |s| && s[..|prefix|] == prefix
  }

  /** java.lang.String.contains: `sub` occurs in `s` as a contiguous run. */
  function Contains(s: string, sub: string): (b: bool)
    ensures b <==> exists i :: 0 <= i <= |s| && StartsWith(s[i..], sub)
    decreases |s|
  {
    if StartsWith(s, sub) then
      assert s[0..] == s;
      true
    else if |s| == 0 then false
    else
      var b := Contains(s[1..], sub);
      assert forall i :: 0 < i <= |s| ==> s[i..] == s[1..][i - 1..];
      b
  }
}
