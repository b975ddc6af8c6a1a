/** The threads of NuCameraHardware: one client, the preview thread and the capture thread,
    as interleaved steps. A condition variable wakes the one thread waiting on it, if any,
    and that thread still has to take the lock again. */
module CameraProtocol {

  // ---------------------------------------------------------------------
  // Where the three threads are

  /** previewThreadWrapper and previewThread. */
  datatype Preview =
    | Lock        // about to take mPreviewLock
    | Test        // holds it, at the loop test on mPreviewRunning
    | Stopping    // holds it, about to stop the stream
    | Signal      // holds it, about to signal mPreviewStoppedCondition
    | Sleep       // holds it, about to wait on mPreviewCondition
    | Parked      // waiting on mPreviewCondition
    | Woken       // signalled, about to take the lock again
    | Unlock      // holds it, told to run
    | Frame       // in previewThread, fetching a frame
    | Copy        // in previewThread, copying the frame to mPreviewHeap

  /** Who called stopPreviewInternal. */
  datatype Caller = FromStop | FromPicture | FromWindow

  datatype Client =
    | Idle
    | AwaitCapture(picture: bool)   // in waitCaptureCompletion, for takePicture or startPreview
    | StartLock                     // startPreview, with no capture in progress
    | StartTest
    | AllocHeap(window: bool)       // startPreviewInternal, for setPreviewWindow or startPreview
    | StreamOn(window: bool)
    | SignalStart(window: bool)
    | Leave(release: bool, picture: bool)   // holds the lock, about to give it up
    | SetWindow(given: bool)        // setPreviewWindow
    | WindowLock
    | WindowTest
    | WindowResume
    | StopLock(picture: bool)       // stopPreview, on its own or for takePicture
    | StopTest(caller: Caller)      // stopPreviewInternal
    | StopSignal(caller: Caller)
    | StopSleep(caller: Caller)
    | StopWaiting(caller: Caller)
    | StopWoken(caller: Caller)
    | StopReturned(caller: Caller)
    | ReleaseHeap(picture: bool)
    | ClearHeap(picture: bool)
    | AllocRaw                      // takePicture
    | StartCapture
    | RaiseFlag

  /** pictureThreadInternal and the end of its thread. */
  datatype Capture =
    | NotRunning
    | Init
    | Command      // in setSnapshotCmd
    | Shooting     // fetching, encoding and delivering the picture
    | FreeRaw      // at `out:`, about to release mRawHeap
    | Ending       // in endSnapshot
    | ClearFlag
    | Exiting      // the flag is cleared, the thread has not ended yet

  datatype Owner = Nobody | ByClient | ByPreview

  datatype Heap = Null | Live | Released

  datatype State = State(
    preview: Preview, client: Client, capture: Capture,
    lock: Owner,
    running: bool, deferred: bool, window: bool,
    heap: Heap, streaming: bool,
    flag: bool, raw: bool)

  // ---------------------------------------------------------------------
  // Steps

  /** mPreviewCondition.signal(). */
  function SignalPreview(s: State): State {
    if s.preview.Parked? then s.(preview := Woken) else s
  }

  /** mPreviewStoppedCondition.signal(). */
  function SignalStopped(s: State): State {
    if s.client.StopWaiting? then s.(client := StopWoken(s.client.caller)) else s
  }

  function AfterRelease(picture: bool): Client {
    if picture then AwaitCapture(true) else Idle
  }

  /** The client makes a call. */
  ghost predicate CallStep(s: State, s': State) {
    match s.client
    case Idle =>
      || s' == s.(client := AwaitCapture(false))
      || s' == s.(client := StopLock(false))
      || s' == s.(client := StopLock(true))
      || s' == s.(client := SetWindow(true))
      || s' == s.(client := SetWindow(false))
    case SetWindow(given) =>
      s' == s.(window := given, client := if given then WindowLock else Idle)
    case _ => false
  }

  /** The client comes out of waitCaptureCompletion, or gives the lock back. */
  ghost predicate ReturnStep(s: State, s': State) {
    match s.client
    case AwaitCapture(picture) =>
      if !s.flag then s' == s.(client := if picture then AllocRaw else StartLock)
      else s' == s.(client := Idle)                       // timed out
    case Leave(release, picture) =>
      s' == s.(lock := Nobody, client := if release then ReleaseHeap(picture) else Idle)
    case _ => false
  }

  /** startPreview, up to the call of startPreviewInternal. */
  ghost predicate StartStep(s: State, s': State) {
    match s.client
    case StartLock =>
      s.lock == Nobody && s' == s.(lock := ByClient, client := StartTest)
    case StartTest =>
      if s.running then s' == s.(client := Leave(false, false))
      else if !s.window then s' == s.(running := true, deferred := true, client := Leave(false, false))
      else s' == s.(running := true, deferred := false, client := AllocHeap(false))
    case _ => false
  }

  /** startPreviewInternal, for startPreview or setPreviewWindow, and the signal after it. */
  ghost predicate StreamStep(s: State, s': State) {
    match s.client
    case AllocHeap(w) =>
      if s.heap != Null then s' == s.(client := StreamOn(w))
      else
        || s' == s.(heap := Live, client := StreamOn(w))
        || s' == s.(client := Leave(false, false))          // allocation failed
    case StreamOn(w) =>
      || s' == s.(streaming := true, client := SignalStart(w))
      || (!s.streaming && s' == s.(client := Leave(false, false)))   // the driver refused
    case SignalStart(w) =>
      s' == SignalPreview(s.(deferred := if w then false else s.deferred, client := Leave(false, false)))
    case _ => false
  }

  /** The locked part of setPreviewWindow. */
  ghost predicate WindowStep(s: State, s': State) {
    match s.client
    case WindowLock =>
      s.lock == Nobody && s' == s.(lock := ByClient, client := WindowTest)
    case WindowTest =>
      s' == s.(client := if s.running && !s.deferred then StopTest(FromWindow) else WindowResume)
    case WindowResume =>
      s' == s.(client := if s.running && s.deferred then AllocHeap(true) else Leave(false, false))
    case _ => false
  }

  /** stopPreview and stopPreviewInternal. */
  ghost predicate StopStep(s: State, s': State) {
    match s.client
    case StopLock(picture) =>
      s.lock == Nobody && s' == s.(lock := ByClient, client := StopTest(if picture then FromPicture else FromStop))
    case StopTest(c) =>
      s' == s.(running := false, client := if s.running && !s.deferred then StopSignal(c) else StopReturned(c))
    case StopSignal(c) =>
      s' == SignalPreview(s.(client := StopSleep(c)))
    case StopSleep(c) =>
      s' == s.(lock := Nobody, client := StopWaiting(c))
    case StopWaiting(_) => false
    case StopWoken(c) =>
      s.lock == Nobody && s' == s.(lock := ByClient, client := StopReturned(c))
    case StopReturned(c) =>
      s' == s.(client := if c == FromWindow then WindowResume else Leave(true, c == FromPicture))
    case _ => false
  }

  /** The rest of stopPreview and of takePicture. */
  ghost predicate PictureStep(s: State, s': State) {
    match s.client
    case ReleaseHeap(picture) =>
      if s.heap != Null then s' == s.(heap := Released, client := ClearHeap(picture))
      else s' == s.(client := AfterRelease(picture))
    case ClearHeap(picture) =>
      s' == s.(heap := Null, client := AfterRelease(picture))
    case AllocRaw =>
      s' == s.(raw := true, client := StartCapture)
    case StartCapture =>
      if s.capture.NotRunning? then s' == s.(capture := Init, client := RaiseFlag)
      else s' == s.(client := Idle)                       // the thread is still running
    case RaiseFlag =>
      s' == s.(flag := true, client := Idle)
    case _ => false
  }

  ghost predicate ClientStep(s: State, s': State) {
    || CallStep(s, s') || ReturnStep(s, s') || StartStep(s, s') || StreamStep(s, s')
    || WindowStep(s, s') || StopStep(s, s') || PictureStep(s, s')
  }

  ghost predicate PreviewStep(s: State, s': State) {
    match s.preview
    case Lock => s.lock == Nobody && s' == s.(lock := ByPreview, preview := Test)
    case Test => s' == s.(preview := if s.running then Unlock else Stopping)
    case Stopping => s' == s.(streaming := false, preview := Signal)
    case Signal => s' == SignalStopped(s.(preview := Sleep))
    case Sleep => s' == s.(lock := Nobody, preview := Parked)
    case Parked => false
    case Woken => s.lock == Nobody && s' == s.(lock := ByPreview, preview := Test)
    case Unlock => s' == s.(lock := Nobody, preview := Frame)
    case Frame =>       // getPreviewFrame may restart the stream, and may fail
      exists on: bool :: s' == s.(streaming := on, preview := Copy) || s' == s.(streaming := on, preview := Lock)
    case Copy => s' == s.(preview := Lock)
  }

  ghost predicate CaptureStep(s: State, s': State) {
    match s.capture
    case NotRunning => false
    case Init => s' == s.(capture := Command) || s' == s.(capture := FreeRaw)
    case Command =>     // setSnapshotCmd stops a running preview stream first
      s' == s.(streaming := false, capture := Shooting) || s' == s.(streaming := false, capture := FreeRaw)
    case Shooting => s' == s.(capture := FreeRaw)
    case FreeRaw => s' == s.(raw := false, capture := Ending)
    case Ending => s' == s.(capture := ClearFlag)
    case ClearFlag => s' == s.(flag := false, capture := Exiting)
    case Exiting => s' == s.(capture := NotRunning)
  }

  ghost predicate Step(s: State, s': State) {
    ClientStep(s, s') || PreviewStep(s, s') || CaptureStep(s, s')
  }

  /** The preview thread has parked once, and nothing else has happened. */
  const START := State(Parked, Idle, NotRunning, Nobody, false, false, false, Null, false, false, false)

  ghost predicate Run(states: seq<State>) {
    && states != []
    && forall i | 0 <= i < |states| - 1 :: Step(states[i], states[i + 1])
  }

  // ---------------------------------------------------------------------
  // The invariant

  predicate ClientHolds(c: Client) {
    c.StartTest? || c.AllocHeap? || c.StreamOn? || c.SignalStart? || c.Leave? || c.WindowTest?
    || c.WindowResume? || c.StopTest? || c.StopSignal? || c.StopSleep? || c.StopReturned?
  }

  predicate PreviewHolds(p: Preview) {
    p.Test? || p.Stopping? || p.Signal? || p.Sleep? || p.Unlock?
  }

  /** The client has told the preview thread to stop, and has not been told that it has. */
  predicate Handshake(c: Client) {
    c.StopSignal? || c.StopSleep? || c.StopWaiting? || c.StopWoken?
  }

  /** The client has stopped the preview and is going to take a picture or to free the heap. */
  predicate Stopped(c: Client) {
    c.StopReturned? || (c.Leave? && c.release) || c.ReleaseHeap? || c.ClearHeap?
    || (c.AwaitCapture? && c.picture) || c.AllocRaw? || c.StartCapture? || c.RaiseFlag?
  }

  predicate Starting(c: Client) {
    c.AllocHeap? || c.StreamOn? || c.SignalStart?
  }

  /** Past a successful waitCaptureCompletion and not yet at the end of what it was for. */
  predicate PastWait(c: Client) {
    c.StartLock? || c.StartTest? || c.AllocRaw? || c.StartCapture? || c.RaiseFlag?
  }

  /** The capture thread has not cleared the flag yet. */
  predicate Capturing(c: Capture) {
    !c.NotRunning? && !c.Exiting?
  }

  ghost predicate LockInv(s: State) {
    && (s.lock == ByClient <==> ClientHolds(s.client))
    && (s.lock == ByPreview <==> PreviewHolds(s.preview))
  }

  ghost predicate HandshakeInv(s: State) {
    && (Handshake(s.client) ==> !s.running && !s.deferred)
    && (s.client.StopSleep? ==> !s.preview.Parked?)
    && (s.client.StopWaiting? ==> !s.preview.Parked? && !s.preview.Sleep? && !s.preview.Unlock?)
    && (s.client.StopWoken? ==> s.preview.Sleep? || s.preview.Parked?)
    && (s.preview.Stopping? || s.preview.Signal? ==> s.client.StopWaiting?)
    && (s.preview.Sleep? ==> s.client.StopWoken?)
    && (!s.preview.Parked? ==> Handshake(s.client) || (s.running && !s.deferred))
    && (!s.preview.Parked? ==> !Starting(s.client))
    && (Starting(s.client) ==> s.running && (s.deferred <==> s.client.window))
    && (Stopped(s.client) ==> !s.running && s.preview.Parked?)
  }

  ghost predicate HeapInv(s: State) {
    && (s.heap == Released <==> s.client.ClearHeap?)
    && (s.preview.Lock? || s.preview.Unlock? || s.preview.Frame? || s.preview.Copy? ==> s.heap == Live)
    && ((s.preview.Woken? || s.preview.Test?) && s.running ==> s.heap == Live)
    && (s.client.StreamOn? || s.client.SignalStart? ==> s.heap == Live)
    && (s.preview.Parked? && s.streaming ==> s.client.SignalStart?)
    && (s.preview.Signal? || s.preview.Sleep? ==> !s.streaming)
  }

  ghost predicate CaptureInv(s: State) {
    && (Capturing(s.capture) ==> s.flag || s.client.RaiseFlag?)
    && (Capturing(s.capture) ==> !s.running && s.preview.Parked? && !Starting(s.client))
    && (Capturing(s.capture) ==> !s.client.StartLock? && !s.client.StartTest? && !Handshake(s.client))
    && (Capturing(s.capture) ==> !s.client.AllocRaw? && !s.client.StartCapture?)
    && (s.capture.Init? || s.capture.Command? || s.capture.Shooting? || s.capture.FreeRaw? ==> s.raw)
    && (s.client.StartCapture? ==> s.raw)
    && (PastWait(s.client) ==> !s.flag)
  }

  ghost predicate Inv(s: State) {
    LockInv(s) && HandshakeInv(s) && HeapInv(s) && CaptureInv(s)
  }

  /** Between calls, and at the start of one. */
  predicate Outside(c: Client) {
    c.Idle? || (c.AwaitCapture? && !c.picture) || c.StopLock? || c.SetWindow? || c.WindowLock?
  }

  lemma OutsideKeepsInv(s: State, c: Client, window: bool)
    requires Inv(s) && Outside(s.client) && Outside(c)
    ensures Inv(s.(client := c, window := window))
  {
  }

  /** A call moves the client between places outside, and sets at most the window. */
  lemma CallMoves(s: State, s': State)
    requires CallStep(s, s')
    ensures Outside(s.client) && Outside(s'.client)
    ensures s' == s.(client := s'.client, window := s'.window)
  {
  }

  lemma CallKeepsInv(s: State, s': State)
    requires Inv(s) && CallStep(s, s')
    ensures Inv(s')
  {
    hide Inv, CallStep, Outside;
    CallMoves(s, s');
    OutsideKeepsInv(s, s'.client, s'.window);
  }

  lemma AwaitKeepsInv(s: State, s': State)
    requires Inv(s) && ReturnStep(s, s')
    requires s.client.AwaitCapture?
    ensures Inv(s')
  {
  }

  lemma LeaveKeepsInv(s: State, s': State)
    requires Inv(s) && ReturnStep(s, s')
    requires s.client.Leave?
    ensures Inv(s')
  {
  }

  lemma ReturnKeepsInv(s: State, s': State)
    requires Inv(s) && ReturnStep(s, s')
    ensures Inv(s')
  {
    hide Inv;
    match s.client
    case AwaitCapture(_) => AwaitKeepsInv(s, s');
    case Leave(_, _) => LeaveKeepsInv(s, s');
    case _ =>
  }

  lemma StartKeepsInv(s: State, s': State)
    requires Inv(s) && StartStep(s, s')
    ensures Inv(s')
  {
    match s.client
    case StartLock =>
    case StartTest =>
    case _ =>
  }

  lemma AllocHeapKeepsInv(s: State, s': State)
    requires Inv(s) && StreamStep(s, s')
    requires s.client.AllocHeap?
    ensures Inv(s')
  {
  }

  lemma StreamOnKeepsInv(s: State, s': State)
    requires Inv(s) && StreamStep(s, s')
    requires s.client.StreamOn?
    ensures Inv(s')
  {
  }

  lemma SignalStartKeepsInv(s: State, s': State)
    requires Inv(s) && StreamStep(s, s')
    requires s.client.SignalStart?
    ensures Inv(s')
  {
  }

  lemma StreamKeepsInv(s: State, s': State)
    requires Inv(s) && StreamStep(s, s')
    ensures Inv(s')
  {
    hide Inv;
    match s.client
    case AllocHeap(_) => AllocHeapKeepsInv(s, s');
    case StreamOn(_) => StreamOnKeepsInv(s, s');
    case SignalStart(_) => SignalStartKeepsInv(s, s');
    case _ =>
  }

  lemma WindowLockKeepsInv(s: State, s': State)
    requires Inv(s) && WindowStep(s, s')
    requires s.client.WindowLock?
    ensures Inv(s')
  {
  }

  lemma WindowChangeKeepsInv(s: State, s': State)
    requires Inv(s) && WindowStep(s, s')
    requires s.client.WindowTest? || s.client.WindowResume?
    ensures Inv(s')
  {
    match s.client
    case WindowTest =>
    case WindowResume =>
    case _ =>
  }

  lemma WindowKeepsInv(s: State, s': State)
    requires Inv(s) && WindowStep(s, s')
    ensures Inv(s')
  {
    hide Inv;
    match s.client
    case WindowLock => WindowLockKeepsInv(s, s');
    case WindowTest => WindowChangeKeepsInv(s, s');
    case WindowResume => WindowChangeKeepsInv(s, s');
    case _ =>
  }

  lemma StopAskKeepsInv(s: State, s': State)
    requires Inv(s) && StopStep(s, s')
    requires s.client.StopLock? || s.client.StopTest?
    ensures Inv(s')
  {
    match s.client
    case StopLock(_) =>
    case StopTest(_) =>
    case _ =>
  }

  lemma StopSignalKeepsInv(s: State, s': State)
    requires Inv(s) && StopStep(s, s')
    requires s.client.StopSignal? || s.client.StopSleep?
    ensures Inv(s')
  {
    match s.client
    case StopSignal(_) =>
    case StopSleep(_) =>
    case _ =>
  }

  lemma StopAnswerKeepsInv(s: State, s': State)
    requires Inv(s) && StopStep(s, s')
    requires s.client.StopWoken? || s.client.StopReturned?
    ensures Inv(s')
  {
    match s.client
    case StopWoken(_) =>
    case StopReturned(_) =>
    case _ =>
  }

  lemma StopKeepsInv(s: State, s': State)
    requires Inv(s) && StopStep(s, s')
    ensures Inv(s')
  {
    hide Inv;
    match s.client
    case StopLock(_) => StopAskKeepsInv(s, s');
    case StopTest(_) => StopAskKeepsInv(s, s');
    case StopSignal(_) => StopSignalKeepsInv(s, s');
    case StopSleep(_) => StopSignalKeepsInv(s, s');
    case StopWoken(_) => StopAnswerKeepsInv(s, s');
    case StopReturned(_) => StopAnswerKeepsInv(s, s');
    case _ =>
  }

  lemma ReleaseKeepsInv(s: State, s': State)
    requires Inv(s) && PictureStep(s, s')
    requires s.client.ReleaseHeap? || s.client.ClearHeap?
    ensures Inv(s')
  {
    match s.client
    case ReleaseHeap(_) =>
    case ClearHeap(_) =>
    case _ =>
  }

  lemma CaptureStartKeepsInv(s: State, s': State)
    requires Inv(s) && PictureStep(s, s')
    requires s.client.AllocRaw? || s.client.StartCapture? || s.client.RaiseFlag?
    ensures Inv(s')
  {
    match s.client
    case AllocRaw =>
    case StartCapture =>
    case RaiseFlag =>
    case _ =>
  }

  lemma PictureKeepsInv(s: State, s': State)
    requires Inv(s) && PictureStep(s, s')
    ensures Inv(s')
  {
    hide Inv;
    match s.client
    case ReleaseHeap(_) => ReleaseKeepsInv(s, s');
    case ClearHeap(_) => ReleaseKeepsInv(s, s');
    case AllocRaw => CaptureStartKeepsInv(s, s');
    case StartCapture => CaptureStartKeepsInv(s, s');
    case RaiseFlag => CaptureStartKeepsInv(s, s');
    case _ =>
  }

  lemma ClientKeepsInv(s: State, s': State)
    requires Inv(s) && ClientStep(s, s')
    ensures Inv(s')
  {
    hide Inv, CallStep, ReturnStep, StartStep, StreamStep, WindowStep, StopStep, PictureStep;
    if CallStep(s, s') {
      CallKeepsInv(s, s');
    } else if ReturnStep(s, s') {
      ReturnKeepsInv(s, s');
    } else if StartStep(s, s') {
      StartKeepsInv(s, s');
    } else if StreamStep(s, s') {
      StreamKeepsInv(s, s');
    } else if WindowStep(s, s') {
      WindowKeepsInv(s, s');
    } else if StopStep(s, s') {
      StopKeepsInv(s, s');
    } else if PictureStep(s, s') {
      PictureKeepsInv(s, s');
    }
  }

  lemma PreviewWakeKeepsInv(s: State, s': State)
    requires Inv(s) && PreviewStep(s, s')
    requires s.preview.Lock? || s.preview.Woken? || s.preview.Test?
    ensures Inv(s')
  {
    match s.preview
    case Lock =>
    case Woken =>
    case Test =>
    case _ =>
  }

  lemma PreviewStopKeepsInv(s: State, s': State)
    requires Inv(s) && PreviewStep(s, s')
    requires s.preview.Stopping? || s.preview.Signal? || s.preview.Sleep?
    ensures Inv(s')
  {
    match s.preview
    case Stopping =>
    case Signal =>
    case Sleep =>
    case _ =>
  }

  lemma PreviewFrameKeepsInv(s: State, s': State)
    requires Inv(s) && PreviewStep(s, s')
    requires s.preview.Unlock? || s.preview.Frame? || s.preview.Copy?
    ensures Inv(s')
  {
    match s.preview
    case Unlock =>
    case Frame =>
    case Copy =>
    case _ =>
  }

  lemma PreviewKeepsInv(s: State, s': State)
    requires Inv(s) && PreviewStep(s, s')
    ensures Inv(s')
  {
    hide Inv;
    match s.preview
    case Lock => PreviewWakeKeepsInv(s, s');
    case Woken => PreviewWakeKeepsInv(s, s');
    case Test => PreviewWakeKeepsInv(s, s');
    case Stopping => PreviewStopKeepsInv(s, s');
    case Signal => PreviewStopKeepsInv(s, s');
    case Sleep => PreviewStopKeepsInv(s, s');
    case Unlock => PreviewFrameKeepsInv(s, s');
    case Frame => PreviewFrameKeepsInv(s, s');
    case Copy => PreviewFrameKeepsInv(s, s');
    case Parked =>
  }

  lemma CaptureKeepsInv(s: State, s': State)
    requires Inv(s) && CaptureStep(s, s')
    ensures Inv(s')
  {
    match s.capture
    case NotRunning =>
    case Init =>
    case Command =>
    case Shooting =>
    case FreeRaw =>
    case Ending =>
    case ClearFlag =>
    case Exiting =>
  }

  lemma {:induction false} RunKeepsInv(states: seq<State>, i: nat)
    requires Run(states) && Inv(states[0])
    requires i < |states|
    ensures Inv(states[i])
  {
    hide Inv, ClientStep, PreviewStep, CaptureStep;
    if i > 0 {
      RunKeepsInv(states, i - 1);
      var s, s' := states[i - 1], states[i - 1 + 1];
      assert Step(s, s');
      if ClientStep(s, s') {
        ClientKeepsInv(s, s');
      } else if PreviewStep(s, s') {
        PreviewKeepsInv(s, s');
      } else {
        CaptureKeepsInv(s, s');
      }
    }
  }

  // ---------------------------------------------------------------------
  // What it is for

  predicate InSnapshot(c: Capture) {
    c.Command? || c.Shooting? || c.FreeRaw? || c.Ending?
  }

  /** stopPreviewInternal returns only to a parked thread and a stopped stream. */
  predicate StopMeansStopped(s: State) {
    s.client.StopReturned? ==> s.preview.Parked? && !s.streaming && !s.running
  }

  predicate DeferredMeansParked(s: State) {
    s.running && s.deferred ==> s.preview.Parked?
  }

  /** Inside previewThread the heap is there, and nobody is freeing it. */
  predicate FramesHaveHeap(s: State) {
    s.preview.Frame? || s.preview.Copy? ==> s.heap == Live
  }

  /** During a snapshot there is no preview: none running, none streaming, none starting. */
  predicate SnapshotExcludesPreview(s: State) {
    InSnapshot(s.capture) ==> s.preview.Parked? && !s.running && !s.streaming && !Starting(s.client)
  }

  /** Past a successful waitCaptureCompletion no capture is between its first command and
      the end of its snapshot. */
  predicate WaitMeansNoSnapshot(s: State) {
    s.client.StartLock? || s.client.AllocRaw? ==> !InSnapshot(s.capture)
  }

  /** The capture thread never touches a null mRawHeap. */
  predicate RawHeapThere(s: State) {
    s.capture.Shooting? || s.capture.FreeRaw? ==> s.raw
  }

  /** Client and preview thread are never both asleep waiting for each other. */
  predicate NotBothAsleep(s: State) {
    !(s.client.StopWaiting? && s.preview.Parked?)
  }

  predicate Safe(s: State) {
    && StopMeansStopped(s) && DeferredMeansParked(s) && FramesHaveHeap(s)
    && SnapshotExcludesPreview(s) && WaitMeansNoSnapshot(s) && RawHeapThere(s) && NotBothAsleep(s)
  }

  lemma InvIsSafe(s: State)
    requires Inv(s)
    ensures Safe(s)
  {
  }

  /** Every state of every interleaving is safe. */
  lemma Safety(states: seq<State>, i: nat)
    requires Run(states) && states[0] == START
    requires i < |states|
    ensures Safe(states[i])
  {
    hide Safe;
    RunKeepsInv(states, i);
    InvIsSafe(states[i]);
  }

  // ---------------------------------------------------------------------
  // stopPreviewInternal gets its answer

  /** How many steps the preview thread may still take before it signals. */
  function Distance(p: Preview): nat {
    match p
    case Unlock => 7
    case Frame => 6
    case Copy => 5
    case Lock => 4
    case Woken => 4
    case Test => 3
    case Stopping => 2
    case Signal => 1
    case Sleep => 0
    case Parked => 0
  }

  /** While the client waits for the thread to stop, the thread can always move, and each of
      its moves brings it nearer to the signal or is the signal; the capture thread does not
      interfere. */
  lemma StopProgresses(s: State)
    requires Inv(s) && s.client.StopWaiting?
    ensures 0 < Distance(s.preview) <= 6
    ensures exists s' :: PreviewStep(s, s')
    ensures forall s' | PreviewStep(s, s') ::
              s'.client.StopWoken? || (s'.client == s.client && Distance(s'.preview) < Distance(s.preview))
    ensures forall s' | CaptureStep(s, s') :: s'.client == s.client && s'.preview == s.preview
    ensures forall s' :: !ClientStep(s, s')
  {
    PreviewCanMove(s);
    forall s' | PreviewStep(s, s')
      ensures s'.client.StopWoken? || (s'.client == s.client && Distance(s'.preview) < Distance(s.preview))
    {
      match s.preview
      case Lock => case Test => case Stopping => case Signal => case Sleep => case Parked =>
      case Woken => case Unlock => case Frame => case Copy =>
    }
  }

  lemma PreviewCanMove(s: State)
    requires Inv(s) && s.client.StopWaiting?
    ensures exists s' :: PreviewStep(s, s')
  {
    hide HeapInv, CaptureInv;
    var next := match s.preview
      case Lock => s.(lock := ByPreview, preview := Test)
      case Test => s.(preview := Stopping)
      case Stopping => s.(streaming := false, preview := Signal)
      case Signal => SignalStopped(s.(preview := Sleep))
      case Woken => s.(lock := ByPreview, preview := Test)
      case Frame => s.(streaming := true, preview := Copy)
      case _ => s.(preview := Lock);
    assert PreviewStep(s, next);
  }

  /** How often the preview thread moves in a run. */
  ghost function PreviewMoves(states: seq<State>): nat
    requires states != []
  {
    var n := |states| - 1;
    if n == 0 then 0
    else PreviewMoves(states[..n]) + if PreviewStep(states[n - 1], states[n]) then 1 else 0
  }

  lemma RunPrefix(states: seq<State>, n: nat)
    requires Run(states) && 0 < n <= |states|
    ensures Run(states[..n])
  {
    hide Step;
  }

  ghost predicate GoesOnWaiting(states: seq<State>) {
    && Run(states) && Inv(states[0])
    && forall i | 0 <= i < |states| :: states[i].client.StopWaiting?
  }

  lemma {:induction false} MovesAndDistance(states: seq<State>)
    requires GoesOnWaiting(states)
    ensures PreviewMoves(states) + Distance(states[|states| - 1].preview) <= Distance(states[0].preview)
  {
    hide Inv, PreviewStep, CaptureStep, ClientStep, Distance;
    var n := |states| - 1;
    if n > 0 {
      var front, s, s' := states[..n], states[n - 1], states[n - 1 + 1];
      RunPrefix(states, n);
      MovesAndDistance(front);
      RunKeepsInv(states, n - 1);
      StopProgresses(s);
      assert Step(s, s');
    }
  }

  /** In any run in which the client goes on waiting for the preview to stop, the preview thread
      moves at most five times; it can always move, and its sixth move at the latest wakes the
      client. */
  lemma StopWaitIsShort(states: seq<State>)
    requires GoesOnWaiting(states)
    ensures PreviewMoves(states) <= 5
    ensures var last := states[|states| - 1];
            && (exists s :: PreviewStep(last, s))
            && (PreviewMoves(states) == 5 ==> forall s | PreviewStep(last, s) :: s.client.StopWoken?)
  {
    hide Inv, PreviewStep, Step, Distance;
    var n := |states| - 1;
    MovesAndDistance(states);
    RunKeepsInv(states, n);
    StopProgresses(states[0]);
    StopProgresses(states[n]);
    if PreviewMoves(states) == 5 {
      forall s | PreviewStep(states[n], s)
        ensures s.client.StopWoken?
      {
        if !s.client.StopWoken? {
          StillWaiting(states[n], s);
        }
      }
    }
  }

  lemma StillWaiting(s: State, s': State)
    requires Inv(s) && s.client.StopWaiting? && PreviewStep(s, s') && s'.client == s.client
    ensures Distance(s'.preview) > 0
  {
    hide HeapInv, CaptureInv;
    match s.preview
    case Lock => case Test => case Stopping => case Signal => case Sleep => case Parked =>
    case Woken => case Unlock => case Frame => case Copy =>
  }

  // ---------------------------------------------------------------------
  // Why the thread must have parked first

  /** A preview started before the thread has parked once, and deferred for want of a window,
      runs the thread into previewThread without a heap. */
  lemma UnparkedStartIsUnsafe()
    ensures exists states :: Run(states) && states[0] == START.(preview := Lock)
              && !FramesHaveHeap(states[|states| - 1])
  {
    var s0 := START.(preview := Lock);
    var s1 := s0.(client := AwaitCapture(false));
    var s2 := s1.(client := StartLock);
    var s3 := s2.(lock := ByClient, client := StartTest);
    var s4 := s3.(running := true, deferred := true, client := Leave(false, false));
    var s5 := s4.(lock := Nobody, client := Idle);
    var s6 := s5.(lock := ByPreview, preview := Test);
    var s7 := s6.(preview := Unlock);
    var s8 := s7.(lock := Nobody, preview := Frame);
    assert CallStep(s0, s1) && ReturnStep(s1, s2) && StartStep(s2, s3) && StartStep(s3, s4) && ReturnStep(s4, s5);
    assert PreviewStep(s5, s6) && PreviewStep(s6, s7) && PreviewStep(s7, s8);
    var states := [s0, s1, s2, s3, s4, s5, s6, s7, s8];
    assert Run(states);
  }

  // ---------------------------------------------------------------------
  // The capture flag is raised after the thread is started

  /** The flag is up although no capture is left to clear it. */
  predicate Stuck(s: State) {
    s.flag && !Capturing(s.capture) && !PastWait(s.client)
  }

  lemma CallKeepsFlag(s: State, s': State)
    requires CallStep(s, s')
    ensures s'.flag == s.flag && s'.capture == s.capture
  {
    match s.client
    case Idle =>
    case SetWindow(_) =>
    case _ =>
  }

  lemma ReturnKeepsFlag(s: State, s': State)
    requires ReturnStep(s, s')
    ensures s'.flag == s.flag && s'.capture == s.capture
  {
    match s.client
    case AwaitCapture(_) =>
    case Leave(_, _) =>
    case _ =>
  }

  lemma StartKeepsFlag(s: State, s': State)
    requires StartStep(s, s')
    ensures s'.flag == s.flag && s'.capture == s.capture
  {
    match s.client
    case StartLock =>
    case StartTest =>
    case _ =>
  }

  lemma StreamKeepsFlag(s: State, s': State)
    requires StreamStep(s, s')
    ensures s'.flag == s.flag && s'.capture == s.capture
  {
    match s.client
    case AllocHeap(_) =>
    case StreamOn(_) =>
    case SignalStart(_) =>
    case _ =>
  }

  lemma WindowKeepsFlag(s: State, s': State)
    requires WindowStep(s, s')
    ensures s'.flag == s.flag && s'.capture == s.capture
  {
    match s.client
    case WindowLock =>
    case WindowTest =>
    case WindowResume =>
    case _ =>
  }

  lemma StopKeepsFlag(s: State, s': State)
    requires StopStep(s, s')
    ensures s'.flag == s.flag && s'.capture == s.capture
  {
    match s.client
    case StopLock(_) =>
    case StopTest(_) =>
    case StopSignal(_) =>
    case StopSleep(_) =>
    case StopWoken(_) =>
    case StopReturned(_) =>
    case _ =>
  }

  lemma PictureFlag(s: State, s': State)
    requires PictureStep(s, s')
    ensures s'.flag != s.flag ==> s.client.RaiseFlag?
    ensures Capturing(s.capture) ==> s'.capture == s.capture
  {
    match s.client
    case ReleaseHeap(_) =>
    case ClearHeap(_) =>
    case AllocRaw =>
    case StartCapture =>
    case RaiseFlag =>
    case _ =>
  }

  lemma ClientFlag(s: State, s': State)
    requires ClientStep(s, s')
    ensures s'.flag != s.flag ==> s.client.RaiseFlag?
    ensures Capturing(s.capture) ==> s'.capture == s.capture
  {
    hide CallStep, ReturnStep, StartStep, StreamStep, WindowStep, StopStep, PictureStep, Capturing;
    if CallStep(s, s') {
      CallKeepsFlag(s, s');
    } else if ReturnStep(s, s') {
      ReturnKeepsFlag(s, s');
    } else if StartStep(s, s') {
      StartKeepsFlag(s, s');
    } else if StreamStep(s, s') {
      StreamKeepsFlag(s, s');
    } else if WindowStep(s, s') {
      WindowKeepsFlag(s, s');
    } else if StopStep(s, s') {
      StopKeepsFlag(s, s');
    } else {
      PictureFlag(s, s');
    }
  }

  lemma SignalKeepsFlag(s: State)
    ensures var s' := SignalStopped(s);
            && s'.flag == s.flag && s'.capture == s.capture
            && (s'.client == s.client || s.client.StopWaiting?)
  {
  }

  /** The preview thread leaves the flag and the capture alone, and the client unless it
      wakes it. */
  predicate FlagKept(s: State, s': State) {
    && s'.flag == s.flag && s'.capture == s.capture
    && (s'.client == s.client || s.client.StopWaiting?)
  }

  lemma PreviewStopFlag(s: State, s': State)
    requires PreviewStep(s, s') && (s.preview.Stopping? || s.preview.Signal? || s.preview.Sleep? || s.preview.Test?)
    ensures FlagKept(s, s')
  {
    hide SignalStopped;
    SignalKeepsFlag(s.(preview := Sleep));
  }

  lemma PreviewFlag(s: State, s': State)
    requires PreviewStep(s, s')
    ensures FlagKept(s, s')
  {
    hide SignalStopped;
    if s.preview.Stopping? || s.preview.Signal? || s.preview.Sleep? || s.preview.Test? {
      hide PreviewStep, FlagKept;
      PreviewStopFlag(s, s');
    } else {
      match s.preview
      case Lock => case Parked => case Woken => case Unlock => case Frame => case Copy =>
      case _ =>
    }
  }

  lemma CaptureFlag(s: State, s': State)
    requires CaptureStep(s, s')
    ensures s'.client == s.client && (s'.flag ==> s.flag)
    ensures Capturing(s.capture) && !Capturing(s'.capture) ==> !s'.flag
  {
    match s.capture
    case NotRunning => case Init => case Command => case Shooting =>
    case FreeRaw => case Ending => case ClearFlag => case Exiting =>
  }

  /** The camera gets stuck in exactly one way: the flag is raised when the capture it stands
      for has already cleared it. */
  lemma StuckArisesIff(s: State, s': State)
    requires Inv(s) && Step(s, s') && !Stuck(s)
    ensures Stuck(s') <==> s.client.RaiseFlag? && ClientStep(s, s') && !Capturing(s.capture)
  {
    hide LockInv, HandshakeInv, HeapInv, ClientStep, PreviewStep, CaptureStep;
    if ClientStep(s, s') {
      ClientFlag(s, s');
      if s.client.RaiseFlag? {
        Raised(s, s');
      }
    } else if PreviewStep(s, s') {
      PreviewFlag(s, s');
    } else {
      CaptureFlag(s, s');
    }
  }

  lemma Raised(s: State, s': State)
    requires s.client.RaiseFlag? && ClientStep(s, s')
    ensures s' == s.(flag := true, client := Idle)
  {
  }

  lemma StuckUnderCall(s: State, s': State)
    requires Stuck(s) && CallStep(s, s')
    ensures Stuck(s')
  {
    match s.client
    case Idle =>
    case SetWindow(_) =>
    case _ =>
  }

  lemma StuckUnderReturn(s: State, s': State)
    requires Stuck(s) && ReturnStep(s, s')
    ensures Stuck(s')
  {
    match s.client
    case AwaitCapture(_) =>
    case Leave(_, _) =>
    case _ =>
  }

  lemma NoStartWhenStuck(s: State, s': State)
    requires Stuck(s)
    ensures !StartStep(s, s')
  {
  }

  lemma StuckUnderStream(s: State, s': State)
    requires Stuck(s) && StreamStep(s, s')
    ensures Stuck(s')
  {
    match s.client
    case AllocHeap(_) =>
    case StreamOn(_) =>
    case SignalStart(_) =>
    case _ =>
  }

  lemma StuckUnderWindow(s: State, s': State)
    requires Stuck(s) && WindowStep(s, s')
    ensures Stuck(s')
  {
    match s.client
    case WindowLock =>
    case WindowTest =>
    case WindowResume =>
    case _ =>
  }

  lemma StuckUnderStop(s: State, s': State)
    requires Stuck(s) && StopStep(s, s')
    ensures Stuck(s')
  {
    match s.client
    case StopLock(_) =>
    case StopTest(_) =>
    case StopSignal(_) =>
    case StopSleep(_) =>
    case StopWaiting(_) =>
    case StopWoken(_) =>
    case StopReturned(_) =>
    case _ =>
  }

  lemma StuckUnderPicture(s: State, s': State)
    requires Stuck(s) && PictureStep(s, s')
    ensures Stuck(s')
  {
    match s.client
    case ReleaseHeap(_) =>
    case ClearHeap(_) =>
    case AllocRaw =>
    case StartCapture =>
    case RaiseFlag =>
    case _ =>
  }

  lemma StuckUnderPreview(s: State, s': State)
    requires Stuck(s) && PreviewStep(s, s')
    ensures Stuck(s')
  {
    match s.preview
    case Lock =>
    case Test =>
    case Stopping =>
    case Signal =>
    case Sleep =>
    case Parked =>
    case Woken =>
    case Unlock =>
    case Frame =>
    case Copy =>
  }

  lemma StuckUnderCapture(s: State, s': State)
    requires Stuck(s) && CaptureStep(s, s')
    ensures Stuck(s')
  {
    match s.capture
    case NotRunning =>
    case Init =>
    case Command =>
    case Shooting =>
    case FreeRaw =>
    case Ending =>
    case ClearFlag =>
    case Exiting =>
  }

  /** Once stuck, always stuck: every later startPreview and takePicture times out. */
  lemma StuckStays(s: State, s': State)
    requires Stuck(s) && Step(s, s')
    ensures Stuck(s')
    ensures s.client.AwaitCapture? && ReturnStep(s, s') ==> s'.client == Idle
  {
    hide Stuck, CallStep, StartStep, StreamStep, WindowStep, StopStep, PictureStep, PreviewStep, CaptureStep;
    NoStartWhenStuck(s, s');
    if CallStep(s, s') {
      StuckUnderCall(s, s');
    } else if ReturnStep(s, s') {
      StuckUnderReturn(s, s');
    } else if StreamStep(s, s') {
      StuckUnderStream(s, s');
    } else if WindowStep(s, s') {
      StuckUnderWindow(s, s');
    } else if StopStep(s, s') {
      StuckUnderStop(s, s');
    } else if PictureStep(s, s') {
      StuckUnderPicture(s, s');
    } else if PreviewStep(s, s') {
      StuckUnderPreview(s, s');
    } else {
      StuckUnderCapture(s, s');
    }
    StuckMeansFlag(s);
  }

  /** Stuck in every continuation. */
  lemma {:induction false} StuckForever(states: seq<State>, i: nat)
    requires Run(states) && Stuck(states[0]) && i < |states|
    ensures Stuck(states[i]) && states[i].flag
    ensures i + 1 < |states| && states[i].client.AwaitCapture? && ReturnStep(states[i], states[i + 1]) ==>
              states[i + 1].client == Idle
  {
    hide Step, ReturnStep;
    if i > 0 {
      StuckForever(states, i - 1);
      assert Step(states[i - 1], states[i - 1 + 1]);
      StuckStays(states[i - 1], states[i]);
    }
    StuckMeansFlag(states[i]);
    if i + 1 < |states| {
      assert Step(states[i], states[i + 1]);
      StuckStays(states[i], states[i + 1]);
    }
  }

  lemma StuckMeansFlag(s: State)
    requires Stuck(s)
    ensures s.flag
  {
  }

  /** The idle camera once takePicture, alone, has stopped the preview. */
  const STOPPED := START.(client := ReleaseHeap(true))

  lemma ReachStopped() returns (states: seq<State>)
    ensures states != [] && Run(states) && states[0] == START && states[|states| - 1] == STOPPED
  {
    hide StartStep, StreamStep, WindowStep, PictureStep, PreviewStep, CaptureStep, SignalPreview;
    var s1 := START.(client := StopLock(true));
    var s2 := s1.(lock := ByClient, client := StopTest(FromPicture));
    var s3 := s2.(client := StopReturned(FromPicture));
    var s4 := s3.(client := Leave(true, true));
    assert CallStep(START, s1) && StopStep(s1, s2) && StopStep(s2, s3) && StopStep(s3, s4) && ReturnStep(s4, STOPPED);
    states := [START, s1, s2, s3, s4, STOPPED];
  }

  /** From there to just before the capture thread is started. */
  lemma ReachCapture() returns (more: seq<State>)
    ensures more != [] && Run([STOPPED] + more)
    ensures more[|more| - 1] == STOPPED.(raw := true, client := StartCapture)
  {
    hide CallStep, StartStep, StreamStep, WindowStep, StopStep, PreviewStep, CaptureStep;
    var s1 := STOPPED.(client := AwaitCapture(true));
    var s2 := s1.(client := AllocRaw);
    var s3 := s2.(raw := true, client := StartCapture);
    assert PictureStep(STOPPED, s1) && ReturnStep(s1, s2) && PictureStep(s2, s3);
    more := [s1, s2, s3];
  }

  /** From there to the end of the capture, its starter raising the flag only afterwards. */
  lemma StickyCapture(s: State) returns (more: seq<State>)
    requires s.client == StartCapture && s.capture == NotRunning
    ensures Run([s] + more) && more != [] && Stuck(more[|more| - 1])
  {
    hide CallStep, ReturnStep, StartStep, StreamStep, WindowStep, StopStep, PreviewStep;
    var s1 := s.(capture := Init, client := RaiseFlag);
    var s2 := s1.(capture := FreeRaw);
    var s3 := s2.(raw := false, capture := Ending);
    var s4 := s3.(capture := ClearFlag);
    var s5 := s4.(flag := false, capture := Exiting);
    var s6 := s5.(flag := true, client := Idle);
    assert PictureStep(s, s1) && CaptureStep(s1, s2) && CaptureStep(s2, s3);
    assert CaptureStep(s3, s4) && CaptureStep(s4, s5) && PictureStep(s5, s6);
    more := [s1, s2, s3, s4, s5, s6];
  }

  /** Two runs, the second starting where the first ends. */
  lemma Join(states: seq<State>, more: seq<State>)
    requires states != [] && Run(states) && Run([states[|states| - 1]] + more)
    ensures Run(states + more)
  {
    hide Step;
    var joined, tail := states + more, [states[|states| - 1]] + more;
    forall i | 0 <= i < |joined| - 1
      ensures Step(joined[i], joined[i + 1])
    {
      var j := i - |states| + 1;
      if j < 0 {
        assert Step(states[i], states[i + 1]);
      } else {
        assert Step(tail[j], tail[j + 1]);
      }
    }
  }

  /** A capture that ends before its starter raises the flag leaves the camera stuck. */
  lemma FlagCanStick()
    ensures exists states :: states != [] && Run(states) && states[0] == START && Stuck(states[|states| - 1])
  {
    hide Run, Stuck;
    var states := ReachStopped();
    var picture := ReachCapture();
    Join(states, picture);
    var started := states + picture;
    assert started[|started| - 1] == picture[|picture| - 1];
    var more := StickyCapture(started[|started| - 1]);
    Join(started, more);
    var all := started + more;
    assert all[0] == START && all[|all| - 1] == more[|more| - 1];
  }
}
