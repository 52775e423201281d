# WebRTC Android demo — a Dafny model of its call set-up core

The demo sets up a video call between two WebRTC peer connections on one device, in two ways:

- **WebRtcService** is a bound Android service. Its binder lets a client register an `IWebRtcCallback` and start a call. Starting a call does the following:
  - picks a camera, front-facing first and back-facing as the fallback;
  - captures it into the local video track;
  - stores that track in **WebRtcHolder**, a process-wide map from key to track with no removal;
  - connects two peer connections, `localPeer` and `remotePeer`, through **SignalingClient**.
- **SignalingClient** is an in-process relay with one callback slot. Each `send*` hands its payload to that callback synchronously, or drops it when the slot is empty.
- **LoopBackActivity** runs both ends in one activity: `pc1` sends the camera track and `pc2` receives it. Descriptions pass directly between them, each ICE candidate goes to the other peer, and the received video track is shown in the remote view.

The WebRTC library is not modelled. Every call the application makes into it is an event appended to a `trace`. These calls are: create a peer connection, set a description, add a candidate, close, and the others. Library callbacks are step methods: offer or answer created, candidate found, track received. An offer-created or answer-created callback may only run once its `createOffer` or `createAnswer` call is in the trace. A candidate or track callback needs only that the peer connection carrying its observer exists; the model does not tie it to a `setLocalDescription` or `setRemoteDescription`.

An ordering invariant `Ordered` over the trace says what must come before each call. Examples:
- a description is set locally before it is sent;
- a remote description is set before the answer is created;
- a candidate is added only to the peer chosen by routing;
- only created resources are released.

Every step method preserves this invariant.

Modules:

- `Media` (`media.dfy`): the library values the application reads or passes on. These are session descriptions, ICE candidates, tracks, capturers, and camera enumerator entries. The module also has `FirstWhere`, the first element that satisfies a predicate, and `Contains`, which is `String.contains`.
- `Signaling` (`signaling.dfy`): the `SignalingClient` class. It also has a pure model, `Relay`/`Apply`/`Run`, of its slot and the callback invocations it has made. Each class method is proved to perform one `Apply` step.
- `Holder` (`holder.dfy`): the `WebRtcHolder` class, and `PutAll`, which is a sequence of puts applied to a map.
- `Service` (`service.dfy`): the `WebRtcService` class, its binder operations, camera selection, candidate routing and the call set-up steps.
- `LoopBack` (`loopback.dfy`): the `LoopBackActivity` class, the permission check, the front camera search, and the set-up, negotiation and teardown steps.

The model follows the code, not an idealised design of it:

- `unregisterCallback` clears the slot whatever observer is passed. It does not only clear the slot when the caller matches.
- Neither the relay nor the peers queue candidates, and there are no negotiation rounds or round identifiers.
- Relay messages are not tagged with a sender. Both peers' candidates go into the same relay, and the receiving side decides where each goes from its `sdpMid` alone. So either peer can be handed back a candidate it found itself (`Service.CandidateCanReturnToFinder`).
- `onDestroy` does not null the fields it releases. A second call would close and release them again, so teardown is not idempotent.

## Model

| member | source | states |
|---|---|---|
| Media.FirstWhere | app/src/main/java/com/example/webrtcdemo/LoopBackActivity.java:134-139 | The first element, in order, that satisfies the predicate: none exists exactly when no element does, and no earlier element does |
| Media.Contains | app/src/main/java/com/example/webrtcdemo/messenger/service/WebRtcService.java:250 | `String.contains`: true exactly when `sub` occurs at some position of `s` |
| Signaling.CallFor | app/src/main/java/com/example/webrtcdemo/messenger/signaling/SignalingClient.java:23-44 | Each send* invokes the matching Callback method (offer to onOfferReceived, answer to onAnswerReceived, candidate to onIceCandidateReceived) and passes its arguments through unchanged |
| Signaling.Deliver | app/src/main/java/com/example/webrtcdemo/messenger/signaling/SignalingClient.java:27-29 | One send makes one invocation when the slot is set and none when it is null, and that invocation goes to the registered handler with the message unchanged |
| Signaling.SendsKeepSlot | app/src/main/java/com/example/webrtcdemo/messenger/signaling/SignalingClient.java:23-44 | No send changes the callback slot, and nothing already delivered is retracted |
| Signaling.SendsDeliveredInOrder | app/src/main/java/com/example/webrtcdemo/messenger/signaling/SignalingClient.java:23-44 | With a handler registered, a batch of sends invokes it once per send, in send order, with each payload unchanged |
| Signaling.DropsLeaveState | app/src/main/java/com/example/webrtcdemo/messenger/signaling/SignalingClient.java:27-29 | With no handler registered, sends leave the relay state exactly as it was |
| Signaling.DroppedNotQueued | app/src/main/java/com/example/webrtcdemo/messenger/signaling/SignalingClient.java:27-29 | Sends made while no handler is registered are dropped, not queued: what follows behaves as if they never happened |
| Signaling.LastRegisteredHandlerOnly | app/src/main/java/com/example/webrtcdemo/messenger/signaling/SignalingClient.java:19-21 | setCallback replaces the slot: until the next setCallback, every invocation goes to the last registered handler and to no earlier one |
| Signaling.SignalingClient.constructor | app/src/main/java/com/example/webrtcdemo/messenger/signaling/SignalingClient.java:17 | A new client has an empty slot and has invoked nothing |
| Signaling.SignalingClient.SetCallback | app/src/main/java/com/example/webrtcdemo/messenger/signaling/SignalingClient.java:19-21 | Replaces the slot and delivers nothing |
| Signaling.SignalingClient.SendOffer | app/src/main/java/com/example/webrtcdemo/messenger/signaling/SignalingClient.java:23-30 | One relay step: onOfferReceived(offer) on the registered handler, or nothing when there is none |
| Signaling.SignalingClient.SendAnswer | app/src/main/java/com/example/webrtcdemo/messenger/signaling/SignalingClient.java:32-37 | One relay step: onAnswerReceived(answer) on the registered handler, or nothing |
| Signaling.SignalingClient.SendIceCandidate | app/src/main/java/com/example/webrtcdemo/messenger/signaling/SignalingClient.java:39-44 | One relay step: onIceCandidateReceived(sdpMid, sdpMLineIndex, candidate) on the registered handler, or nothing |
| Holder.Lookup | app/src/main/java/com/example/webrtcdemo/messenger/utils/WebRtcHolder.java:19-21 | `get` returns the stored track exactly when the key is present, and null otherwise |
| Holder.GetAfterPuts | app/src/main/java/com/example/webrtcdemo/messenger/utils/WebRtcHolder.java:15-21 | After any sequence of puts, get returns the track of the latest put on that key, or what the map held before if there was none; puts on other keys do not interfere |
| Holder.KeysOnlyGrow | app/src/main/java/com/example/webrtcdemo/messenger/utils/WebRtcHolder.java:13-17 | There is no removal: the present keys are the old keys plus exactly the keys put |
| Holder.WebRtcHolder.constructor | app/src/main/java/com/example/webrtcdemo/messenger/utils/WebRtcHolder.java:13 | The map starts empty |
| Holder.WebRtcHolder.PutVideoTrack | app/src/main/java/com/example/webrtcdemo/messenger/utils/WebRtcHolder.java:15-17 | After a put, the key maps to the new track and every other key is unchanged |
| Holder.WebRtcHolder.GetVideoTrack | app/src/main/java/com/example/webrtcdemo/messenger/utils/WebRtcHolder.java:19-21 | Returns the stored track exactly when the key is present, and changes nothing |
| Service.ChosenCamera | app/src/main/java/com/example/webrtcdemo/messenger/service/WebRtcService.java:278-294 | No camera is chosen exactly when no device yields a capturer. A front-facing choice is the first front device that yields one. A back-facing choice happens only when no front device yields one, and is the first back device that does |
| Service.CreateCameraCapturer | app/src/main/java/com/example/webrtcdemo/messenger/service/WebRtcService.java:278-294 | The two early-return loops return the capturer of the camera ChosenCamera characterises |
| Service.RouteCandidate | app/src/main/java/com/example/webrtcdemo/messenger/service/WebRtcService.java:248-256 | A received candidate goes to remotePeer exactly when sdpMid is non-null and contains "video"; otherwise it goes to localPeer |
| Service.RoutingExamples | app/src/main/java/com/example/webrtcdemo/messenger/service/WebRtcService.java:250-255 | The mid "video" routes to remotePeer; "0", "audio" and null route to localPeer |
| Service.InitKeepsOrder | app/src/main/java/com/example/webrtcdemo/messenger/service/WebRtcService.java:116-273 | Starting a call keeps the trace ordered: "localTrack" is stored before onLocalVideoTrackCreated, and createOffer follows addStream |
| Service.OfferKeepsOrder | app/src/main/java/com/example/webrtcdemo/messenger/service/WebRtcService.java:227-272 | The offer step keeps the trace ordered: the offer is set as localPeer's local description, sent, set as remotePeer's remote description, and only then is the answer created |
| Service.AnswerKeepsOrder | app/src/main/java/com/example/webrtcdemo/messenger/service/WebRtcService.java:232-245 | The answer step keeps the trace ordered: the answer is set as remotePeer's local description, sent, and then set as localPeer's remote description |
| Service.CandidateKeepsOrder | app/src/main/java/com/example/webrtcdemo/messenger/service/WebRtcService.java:185-256 | Once both peers exist, the candidate step keeps the trace ordered: each candidate is relayed and then added to the routed peer |
| Service.TrackKeepsOrder | app/src/main/java/com/example/webrtcdemo/messenger/service/WebRtcService.java:208-221 | The track step keeps the trace ordered: "remoteTrack" is stored before onRemoteVideoTrackCreated |
| Service.AnswerFollowsOffer | app/src/main/java/com/example/webrtcdemo/messenger/service/WebRtcService.java:225-272 | In every ordered trace, an answer that localPeer applies was just before sent and set by remotePeer. remotePeer created it only after an offer had been created, set, sent and applied |
| Service.CandidatesComeThroughRelay | app/src/main/java/com/example/webrtcdemo/messenger/service/WebRtcService.java:247-256 | In every ordered trace, each added candidate came through the relay just before, unchanged, and went to the peer its sdpMid selects, which had been created |
| Service.CandidateCanReturnToFinder | app/src/main/java/com/example/webrtcdemo/messenger/service/WebRtcService.java:183-256 | For either peer there is a candidate that the routing hands back to that same peer: remotePeer for a mid containing "video", localPeer for "0" |
| Service.WebRtcService.constructor | app/src/main/java/com/example/webrtcdemo/messenger/service/WebRtcService.java:22-27 | No callback, no track, no peers and an empty trace |
| Service.WebRtcService.RegisterCallback | app/src/main/java/com/example/webrtcdemo/messenger/service/WebRtcService.java:31-33 | The last registration wins |
| Service.WebRtcService.UnregisterCallback | app/src/main/java/com/example/webrtcdemo/messenger/service/WebRtcService.java:36-38 | Clears the slot whatever observer is passed |
| Service.WebRtcService.StartCall | app/src/main/java/com/example/webrtcdemo/messenger/service/WebRtcService.java:41-44 | Runs initWebRTCNew: the same trace and new state |
| Service.WebRtcService.InitWebRtcNew | app/src/main/java/com/example/webrtcdemo/messenger/service/WebRtcService.java:116-273 | Without a capturer, only the factory is created and nothing else changes. With one: capture, store "localTrack", notify if registered, create both peers, create a fresh relay with the service's handler in its slot, add the stream and create the offer. The trace stays ordered |
| Service.WebRtcService.StartLocalTrack | app/src/main/java/com/example/webrtcdemo/messenger/service/WebRtcService.java:141-175 | Starts the capture and stores "localTrack" in the holder. onLocalVideoTrackCreated follows only when a callback is registered |
| Service.WebRtcService.CreatePeersAndOffer | app/src/main/java/com/example/webrtcdemo/messenger/service/WebRtcService.java:177-265 | Creates both peers and a fresh relay whose slot holds the service's handler with nothing delivered, then adds the stream to localPeer and requests the offer |
| Service.WebRtcService.OnOfferCreated | app/src/main/java/com/example/webrtcdemo/messenger/service/WebRtcService.java:227-272 | localPeer sets the offer and sends it. The relay invokes onOfferReceived once, on the service's handler. remotePeer then applies the offer it received and creates the answer |
| Service.WebRtcService.OnAnswerCreated | app/src/main/java/com/example/webrtcdemo/messenger/service/WebRtcService.java:232-245 | remotePeer sets the answer and sends it. The relay invokes onAnswerReceived once, and localPeer applies the received answer |
| Service.WebRtcService.OnIceCandidate | app/src/main/java/com/example/webrtcdemo/messenger/service/WebRtcService.java:185-256 | Whichever peer found it, the candidate is relayed once, rebuilt from the three delivered fields, and added to the peer RouteCandidate picks |
| Service.WebRtcService.OnAddTrack | app/src/main/java/com/example/webrtcdemo/messenger/service/WebRtcService.java:208-221 | Only a video track is stored under "remoteTrack" (notifying if registered); any other or null track changes nothing |
| LoopBack.PermissionsGranted | app/src/main/java/com/example/webrtcdemo/LoopBackActivity.java:83-89 | The result is granted exactly when every result equals PERMISSION_GRANTED, so an empty array is granted |
| LoopBack.FindFrontCamera | app/src/main/java/com/example/webrtcdemo/LoopBackActivity.java:131-143 | None exactly when no device is front-facing; otherwise the first front-facing device in enumeration order |
| LoopBack.CandidateTarget | app/src/main/java/com/example/webrtcdemo/LoopBackActivity.java:260-266 | A candidate is never added to the peer whose observer found it; any tag other than "pc1" sends it to pc1 |
| LoopBack.OfferKeepsOrder | app/src/main/java/com/example/webrtcdemo/LoopBackActivity.java:186-230 | The offer step keeps the trace ordered: pc1 sets it as local, then pc2 sets it as remote, then pc2 creates the answer. A failure adds nothing |
| LoopBack.AnswerKeepsOrder | app/src/main/java/com/example/webrtcdemo/LoopBackActivity.java:194-215 | The answer step keeps the trace ordered: pc2 sets it as local, then pc1 sets it as remote. A failure adds nothing |
| LoopBack.DestroyKeepsOrder | app/src/main/java/com/example/webrtcdemo/LoopBackActivity.java:333-347 | Teardown of the non-null resources keeps the trace ordered |
| LoopBack.AnswerFollowsOffer | app/src/main/java/com/example/webrtcdemo/LoopBackActivity.java:182-231 | In every ordered trace, the answer pc1 applies was just set by pc2. pc2 created it right after applying the offer that pc1 had set, once pc1's createOffer was issued |
| LoopBack.TeardownTouchesOnlyInitialised | app/src/main/java/com/example/webrtcdemo/LoopBackActivity.java:333-347 | In every ordered trace, only created peers are closed or receive candidates, only a started capturer is stopped, and a capturer is disposed right after it is stopped. The EGL context is released only after it was created, and the remote view gets a sink only once a peer connection exists |
| LoopBack.LoopBackActivity.constructor | app/src/main/java/com/example/webrtcdemo/LoopBackActivity.java:55-63 | Every resource field is null and the trace is empty |
| LoopBack.LoopBackActivity.OnCreate | app/src/main/java/com/example/webrtcdemo/LoopBackActivity.java:66-78 | Without both permissions, request them with code 1 and change nothing else; otherwise run initWebRTC |
| LoopBack.LoopBackActivity.OnRequestPermissionsResult | app/src/main/java/com/example/webrtcdemo/LoopBackActivity.java:81-97 | Run initWebRTC exactly when the code is 1 and every result is granted; otherwise nothing changes |
| LoopBack.LoopBackActivity.InitWebRtc | app/src/main/java/com/example/webrtcdemo/LoopBackActivity.java:99-112 | EGL, renderers, factory, camera, both peers and the offer, in that order. pc1's send transceiver carries the local track, which is null when the camera did not start |
| LoopBack.LoopBackActivity.CreateEglAndFactory | app/src/main/java/com/example/webrtcdemo/LoopBackActivity.java:103-129 | Creates the EGL context, initialises both renderers and creates the factory |
| LoopBack.LoopBackActivity.StartCamera | app/src/main/java/com/example/webrtcdemo/LoopBackActivity.java:131-159 | Capture starts, and the local track is made and shown, only when the first front camera exists and yields a capturer. With no front camera the fields are untouched; with a null capturer the field becomes null |
| LoopBack.LoopBackActivity.CreatePeerConnections | app/src/main/java/com/example/webrtcdemo/LoopBackActivity.java:161-180 | Creates pc1 and pc2, then gives pc1 a send-only transceiver for the local track and pc2 a receive-only video transceiver |
| LoopBack.LoopBackActivity.StartCall | app/src/main/java/com/example/webrtcdemo/LoopBackActivity.java:182-186 | pc1 creates the offer |
| LoopBack.LoopBackActivity.OnOfferCreated | app/src/main/java/com/example/webrtcdemo/LoopBackActivity.java:186-230 | On success: pc1 sets the offer as local, pc2 sets it as remote, then pc2 creates the answer. A failure only logs |
| LoopBack.LoopBackActivity.OnAnswerCreated | app/src/main/java/com/example/webrtcdemo/LoopBackActivity.java:194-215 | On success: pc2 sets the answer as local, then pc1 sets it as remote. A failure only logs |
| LoopBack.LoopBackActivity.OnIceCandidate | app/src/main/java/com/example/webrtcdemo/LoopBackActivity.java:259-266 | The candidate is added to the other peer, never to the one that found it |
| LoopBack.LoopBackActivity.OnTrack | app/src/main/java/com/example/webrtcdemo/LoopBackActivity.java:268-277 | Runs only on the observer of a created peer. Only a video track gets the remote view as a sink; any other or null track changes nothing |
| LoopBack.LoopBackActivity.OnDestroy | app/src/main/java/com/example/webrtcdemo/LoopBackActivity.java:333-347 | Closes each non-null peer, stops then disposes a non-null capturer and releases a non-null EGL context, keeping the trace ordered |

## Left out

- The WebRTC library: codecs, transport, ICE gathering, SDP contents, and what it does with a null track in `addTransceiver` or `addTrack`. Descriptions, candidates and tracks are opaque values, and library calls are trace events.
- `SdpObserverAdapter` and its success and failure callbacks are not part of this model. The service's `setLocalDescription` and `setRemoteDescription` results are ignored, as in the code, and only the success paths of `createOffer` and `createAnswer` are modelled, since the adapter's other callbacks are not shown.
- Threads and timing: the library's callbacks come from its own threads. Here each one runs as a separate step once the call that triggers it has been issued. Calls interleaved with it are not modelled, and neither is `runOnUiThread` in `onTrack`, which becomes a direct step.
- Logging, the `Log` calls, the "frame arrived" sink, capture parameters (640x480 at 30 fps), the STUN server, the RTC configuration, media constraints and the SurfaceTextureHelper are left out. They carry no decision.
- `initWebRTC` in the service is not modelled: it is dead code, since `startCall` calls `initWebRTCNew`.
- MainActivity, CallerActivity, EglUtils and PeerConnectionObserver are not part of this model. `onBind` only returns the binder.
- Android lifecycle plumbing is not modelled: `setContentView`, `findViewById`, the `super` calls, and the unused `dummyTrack` field. `checkSelfPermission` becomes two boolean parameters, and the camera enumerator becomes a list of `Camera` entries with each entry's facing and capturer.
- Binder callback objects and the relay handler are identified by plain values (`CallbackRef`, `HandlerRef`). A `RemoteException` from a notification is caught and printed in the code; here a notification always succeeds.
- LoopBack.LoopBackActivity.OnDestroy: assumes `stopCapture` returns normally. If it throws, the code logs and skips `dispose`.
- LoopBack.LoopBackActivity.StartCall: requires that it runs right after `createPeerConnections`, which is its only call site.
- Service.WebRtcService.StartLocalTrack: the `startCapture` exception path is not modelled separately. The code catches and logs it and carries on, so the trace is the same either way.
- Service.WebRtcService.OnIceCandidate: requires the peers to exist. In the code the observers are attached only when the peers are created.
- Candidate and track callbacks, in both the service and the loopback activity, are not tied to the `setLocalDescription` or `setRemoteDescription` that makes the library start gathering or receiving. They only require that the peers exist, since when the library fires them is outside the application code.
