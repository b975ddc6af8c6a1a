/** What the camera's calls achieve: how each of them ends, over all interleavings, and that
    previews and pictures come about. */
module CameraOutcomes {
  import opened CameraProtocol

  // ---------------------------------------------------------------------
  // Who changes what

  /** The other threads leave the client's variables alone. */
  predicate ClientKept(s: State, s': State) {
    && s'.client == s.client && s'.running == s.running && s'.deferred == s.deferred
    && s'.window == s.window && s'.heap == s.heap
  }

  lemma HolderLeavesClient(s: State, s': State)
    requires PreviewStep(s, s') && (s.preview.Test? || s.preview.Stopping? || s.preview.Sleep? || s.preview.Unlock?)
    ensures ClientKept(s, s') && s'.capture == s.capture && s'.flag == s.flag
  {
    match s.preview
    case Test => case Stopping => case Sleep => case Unlock => case _ =>
  }

  lemma FetcherLeavesClient(s: State, s': State)
    requires PreviewStep(s, s')
    requires s.preview.Lock? || s.preview.Parked? || s.preview.Woken? || s.preview.Frame? || s.preview.Copy?
    ensures ClientKept(s, s') && !s.preview.Parked? && s'.capture == s.capture && s'.flag == s.flag
  {
    match s.preview
    case Lock => case Parked => case Woken => case Frame => case Copy => case _ =>
  }

  /** The preview thread does so too, but for a client it wakes. */
  lemma PreviewLeavesClient(s: State, s': State)
    requires PreviewStep(s, s')
    ensures ClientKept(s, s'.(client := s.client)) && s'.capture == s.capture && s'.flag == s.flag
    ensures s'.client == s.client || (s.client.StopWaiting? && s'.client == StopWoken(s.client.caller))
    ensures !s.preview.Parked?
  {
    if s.preview.Test? || s.preview.Stopping? || s.preview.Sleep? || s.preview.Unlock? {
      hide PreviewStep;
      HolderLeavesClient(s, s');
    } else if s.preview.Signal? {
      PreviewSignals(s, s');
    } else {
      hide PreviewStep;
      FetcherLeavesClient(s, s');
    }
  }

  lemma PreviewSignals(s: State, s': State)
    requires PreviewStep(s, s') && s.preview.Signal?
    ensures s' == SignalStopped(s.(preview := Sleep))
  {
  }

  lemma CaptureKeepsClient(s: State, s': State)
    requires CaptureStep(s, s')
    ensures ClientKept(s, s') && s'.preview == s.preview && s'.lock == s.lock
  {
    match s.capture
    case NotRunning => case Init => case Command => case Shooting =>
    case FreeRaw => case Ending => case ClearFlag => case Exiting =>
  }

  lemma CaptureLeavesClient(s: State, s': State)
    requires CaptureStep(s, s')
    ensures ClientKept(s, s') && s'.preview == s.preview && s'.lock == s.lock
    ensures !Capturing(s.capture) ==> s'.streaming == s.streaming && s'.flag == s.flag && !Capturing(s'.capture)
  {
    CaptureKeepsClient(s, s');
    if !Capturing(s.capture) {
      assert s.capture.Exiting? || s.capture.NotRunning?;
    }
  }

  // ---------------------------------------------------------------------
  // startPreviewInternal

  /** The stream is on when the preview thread is about to be told. */
  predicate SignalStreams(s: State) {
    s.client.SignalStart? ==> s.streaming
  }

  ghost predicate StrongInv(s: State) {
    Inv(s) && SignalStreams(s)
  }

  lemma NoSignalFromCall(s: State, s': State)
    requires CallStep(s, s') || ReturnStep(s, s')
    ensures !s'.client.SignalStart?
  {
    match s.client
    case Idle => case SetWindow(_) => case AwaitCapture(_) => case Leave(_, _) => case _ =>
  }

  lemma NoSignalFromStart(s: State, s': State)
    requires StartStep(s, s') || WindowStep(s, s')
    ensures !s'.client.SignalStart?
  {
    match s.client
    case StartLock => case StartTest => case WindowLock => case WindowTest => case WindowResume => case _ =>
  }

  lemma NoSignalFromAsking(s: State, s': State)
    requires StopStep(s, s') && (s.client.StopLock? || s.client.StopTest? || s.client.StopSignal?)
    ensures !s'.client.SignalStart?
  {
    match s.client
    case StopLock(_) => case StopTest(_) => case StopSignal(_) => case _ =>
  }

  lemma NoSignalFromStop(s: State, s': State)
    requires StopStep(s, s')
    ensures !s'.client.SignalStart?
  {
    if s.client.StopLock? || s.client.StopTest? || s.client.StopSignal? {
      hide StopStep;
      NoSignalFromAsking(s, s');
    } else {
      match s.client
      case StopSleep(_) => case StopWaiting(_) => case StopWoken(_) => case StopReturned(_) => case _ =>
    }
  }

  lemma NoSignalFromPicture(s: State, s': State)
    requires PictureStep(s, s')
    ensures !s'.client.SignalStart?
  {
    match s.client
    case ReleaseHeap(_) => case ClearHeap(_) => case AllocRaw => case StartCapture => case RaiseFlag => case _ =>
  }

  lemma SignalComesFrom(s: State, s': State)
    requires ClientStep(s, s') && s'.client.SignalStart?
    ensures s'.streaming
  {
    hide CallStep, ReturnStep, StartStep, WindowStep, StopStep, PictureStep;
    if StreamStep(s, s') {
      match s.client
      case AllocHeap(_) => case StreamOn(_) => case SignalStart(_) => case _ =>
    } else if CallStep(s, s') || ReturnStep(s, s') {
      NoSignalFromCall(s, s');
    } else if StartStep(s, s') || WindowStep(s, s') {
      NoSignalFromStart(s, s');
    } else if StopStep(s, s') {
      NoSignalFromStop(s, s');
    } else {
      NoSignalFromPicture(s, s');
    }
  }

  /** While a preview is being started only the client moves, but for a thread that is ending. */
  lemma StartingAlone(s: State, s': State)
    requires Inv(s) && Starting(s.client) && !ClientStep(s, s') && Step(s, s')
    ensures ClientKept(s, s') && s'.streaming == s.streaming && s'.preview == s.preview
  {
    hide ClientStep, PreviewStep, CaptureStep, LockInv, HeapInv;
    if PreviewStep(s, s') {
      PreviewLeavesClient(s, s');
    } else {
      CaptureLeavesClient(s, s');
    }
  }

  lemma StreamsStep(s: State, s': State)
    requires StrongInv(s) && Step(s, s') && Inv(s')
    ensures StrongInv(s')
  {
    hide Inv, ClientStep, PreviewStep, CaptureStep;
    if s'.client.SignalStart? {
      if ClientStep(s, s') {
        SignalComesFrom(s, s');
      } else if Starting(s.client) {
        StartingAlone(s, s');
      } else if PreviewStep(s, s') {
        PreviewLeavesClient(s, s');
      } else {
        CaptureLeavesClient(s, s');
      }
    }
  }

  lemma StartInv()
    ensures StrongInv(START)
  {
  }

  lemma {:induction false} RunIsStrong(states: seq<State>, i: nat)
    requires Run(states) && states[0] == START && i < |states|
    ensures StrongInv(states[i])
  {
    hide Inv, Step;
    StartInv();
    RunKeepsInv(states, i);
    if i > 0 {
      RunIsStrong(states, i - 1);
      assert Step(states[i - 1], states[i - 1 + 1]);
      StreamsStep(states[i - 1], states[i]);
    }
  }

  /** A preview is up: its thread has been told, and will find the stream on and the heap there. */
  predicate PreviewStarted(s: State) {
    s.running && !s.deferred && s.streaming && s.heap == Live && s.preview.Woken?
  }

  /** No preview thread, no stream. */
  predicate PreviewAsleep(s: State) {
    s.preview.Parked? && !s.streaming
  }

  /** The end of startPreviewInternal: it succeeds from SignalStart, and fails before it. */
  lemma StartingEnds(s: State, s': State)
    requires StrongInv(s) && Starting(s.client) && Step(s, s') && s'.client.Leave?
    ensures if s.client.SignalStart? then PreviewStarted(s')
            else PreviewAsleep(s') && s'.running && s'.deferred == s.client.window
  {
    hide Inv, ClientStep;
    StartingIsQuiet(s);
    if ClientStep(s, s') {
      OnlyStream(s, s');
      StreamStepEnds(s, s');
    } else {
      StartingAlone(s, s');
    }
  }

  lemma StartingIsQuiet(s: State)
    requires StrongInv(s) && Starting(s.client)
    ensures s.preview.Parked? && s.running && s.deferred == s.client.window
    ensures if s.client.SignalStart? then s.streaming && s.heap == Live else !s.streaming
  {
  }

  lemma OnlyStream(s: State, s': State)
    requires Starting(s.client) && ClientStep(s, s')
    ensures StreamStep(s, s')
  {
    hide StreamStep;
  }

  lemma StreamStepEnds(s: State, s': State)
    requires Starting(s.client) && StreamStep(s, s') && s'.client.Leave?
    requires s.preview.Parked? && s.running && s.deferred == s.client.window
    requires if s.client.SignalStart? then s.streaming && s.heap == Live else !s.streaming
    ensures if s.client.SignalStart? then PreviewStarted(s')
            else PreviewAsleep(s') && s'.running && s'.deferred == s.client.window
  {
    match s.client
    case AllocHeap(_) => case StreamOn(_) => case SignalStart(_) => case _ =>
  }

  /** A step of the client inside startPreviewInternal keeps to its caller. */
  lemma StartingGoesOn(s: State, s': State)
    requires Inv(s) && Starting(s.client) && Step(s, s') && !s'.client.Leave?
    ensures Starting(s'.client) && s'.client.window == s.client.window && s'.window == s.window
  {
    hide Inv, ClientStep;
    if ClientStep(s, s') {
      OnlyStream(s, s');
      StreamStepGoesOn(s, s');
    } else {
      StartingAlone(s, s');
    }
  }

  lemma StreamStepGoesOn(s: State, s': State)
    requires StreamStep(s, s')
    ensures s'.window == s.window
    ensures !s'.client.Leave? ==> Starting(s'.client) && s'.client.window == s.client.window
  {
    match s.client
    case AllocHeap(_) => case StreamOn(_) => case SignalStart(_) => case _ =>
  }

  // ---------------------------------------------------------------------
  // startPreview

  /** Between the test and the end of the call. */
  ghost predicate InStart(s: State, t: State) {
    || (t.client == StartTest && t.running == s.running && t.deferred == s.deferred && t.window == s.window)
    || (Starting(t.client) && !t.client.window && !s.running && s.window && t.window)
  }

  lemma StartTestGoesOn(s: State, s': State)
    requires Inv(s) && s.client == StartTest && Step(s, s') && !s'.client.Leave?
    ensures InStart(s, s')
  {
    hide Inv, ClientStep, PreviewStep, CaptureStep;
    if ClientStep(s, s') {
      TestStep(s, s');
    } else if PreviewStep(s, s') {
      PreviewLeavesClient(s, s');
    } else {
      CaptureLeavesClient(s, s');
    }
  }

  lemma TestStep(s: State, s': State)
    requires s.client == StartTest && ClientStep(s, s')
    ensures if s.running then s' == s.(client := Leave(false, false))
            else if !s.window then s' == s.(running := true, deferred := true, client := Leave(false, false))
            else s' == s.(running := true, deferred := false, client := AllocHeap(false))
  {
  }

  /** startPreview holds the lock from states[i], its test, to states[j]. */
  ghost predicate IsStart(states: seq<State>, i: nat, j: nat) {
    && Run(states) && states[0] == START && i < j < |states|
    && states[i].client == StartTest && states[j].client.Leave?
    && forall k | i <= k < j :: !states[k].client.Leave?
  }

  lemma {:induction false} StillInStart(states: seq<State>, i: nat, j: nat, k: nat)
    requires IsStart(states, i, j) && i <= k < j
    ensures InStart(states[i], states[k])
    decreases k - i
  {
    hide Inv, Step, InStart;
    if k == i {
      StartsInStart(states[i]);
    } else {
      StillInStart(states, i, j, k - 1);
      RunIsStrong(states, k - 1);
      assert Step(states[k - 1], states[k - 1 + 1]);
      InStartGoesOn(states[i], states[k - 1], states[k]);
    }
  }

  lemma StartsInStart(s: State)
    requires s.client == StartTest
    ensures InStart(s, s)
  {
  }

  lemma InStartGoesOn(s: State, t: State, t': State)
    requires InStart(s, t) && StrongInv(t) && Step(t, t') && !t'.client.Leave?
    ensures InStart(s, t')
  {
    hide Inv, Step;
    if t.client == StartTest {
      StartTestGoesOn(t, t');
    } else {
      StartingGoesOn(t, t');
    }
  }

  /** How startPreview ends. It changes nothing if a preview is running. Otherwise it is deferred
      if and only if there is no window; and with a window, the thread is woken to a running
      stream and a live heap if and only if startPreviewInternal succeeded, and else sleeps on,
      the preview counting as running all the same. */
  lemma StartOutcome(states: seq<State>, i: nat, j: nat)
    requires IsStart(states, i, j)
    ensures var s, t := states[i], states[j];
            && t.running && t.window == s.window
            && (s.running ==> t.deferred == s.deferred)
            && (!s.running ==>
                  && (t.deferred <==> !s.window)
                  && if s.window && states[j - 1].client.SignalStart? then PreviewStarted(t) else PreviewAsleep(t))
  {
    hide Inv, Step;
    StillInStart(states, i, j, j - 1);
    RunIsStrong(states, j - 1);
    assert Step(states[j - 1], states[j - 1 + 1]);
    InStartEnds(states[i], states[j - 1], states[j]);
  }

  lemma InStartEnds(s: State, t: State, t': State)
    requires InStart(s, t) && StrongInv(t) && Step(t, t') && t'.client.Leave?
    ensures t'.running && t'.window == s.window
    ensures s.running ==> t'.deferred == s.deferred
    ensures !s.running ==>
              && (t'.deferred <==> !s.window)
              && if s.window && t.client.SignalStart? then PreviewStarted(t') else PreviewAsleep(t')
  {
    hide Inv, ClientStep, PreviewStep, CaptureStep;
    if t.client == StartTest {
      QuietUnlessRunning(t);
      if ClientStep(t, t') {
        TestStep(t, t');
      } else if PreviewStep(t, t') {
        PreviewLeavesClient(t, t');
      } else {
        CaptureLeavesClient(t, t');
      }
    } else {
      StartingEnds(t, t');
      WindowStays(t, t');
    }
  }

  lemma QuietUnlessRunning(s: State)
    requires Inv(s) && s.client == StartTest
    ensures !s.running ==> PreviewAsleep(s)
  {
  }

  lemma WindowStays(s: State, s': State)
    requires Inv(s) && Starting(s.client) && Step(s, s')
    ensures s'.window == s.window
  {
    hide Inv, ClientStep, StreamStep;
    if ClientStep(s, s') {
      OnlyStream(s, s');
      StreamStepGoesOn(s, s');
    } else {
      StartingAlone(s, s');
    }
  }

  // ---------------------------------------------------------------------
  // setPreviewWindow

  /** Between the locked test and the end of the call. */
  ghost predicate InWindow(s: State, t: State) {
    match t.client
    case WindowTest => t.running == s.running && t.deferred == s.deferred
    case StopTest(FromWindow) => s.running && !s.deferred && t.running && !t.deferred
    case StopSignal(FromWindow) => s.running && !s.deferred && !t.running
    case StopSleep(FromWindow) => s.running && !s.deferred && !t.running
    case StopWaiting(FromWindow) => s.running && !s.deferred && !t.running
    case StopWoken(FromWindow) => s.running && !s.deferred && !t.running
    case StopReturned(FromWindow) => s.running && !s.deferred && !t.running
    case WindowResume =>
      if s.running && !s.deferred then !t.running else t.running == s.running && t.deferred == s.deferred
    case AllocHeap(true) => s.running && s.deferred
    case StreamOn(true) => s.running && s.deferred
    case SignalStart(true) => s.running && s.deferred
    case _ => false
  }

  /** What the other threads may do to the client's side: wake it from its wait. */
  lemma OthersKeep(s: State, s': State)
    requires Step(s, s') && !ClientStep(s, s')
    ensures s'.running == s.running && s'.deferred == s.deferred && s'.window == s.window && s'.heap == s.heap
    ensures s'.client == s.client || (s.client.StopWaiting? && s'.client == StopWoken(s.client.caller))
  {
    hide ClientStep, PreviewStep, CaptureStep;
    if CaptureStep(s, s') {
      CaptureKeepsClient(s, s');
    } else {
      PreviewLeavesClient(s, s');
    }
  }

  predicate InWindowCall(c: Client) {
    c.WindowTest? || c.WindowResume?
  }

  lemma OnlyWindow(s: State, s': State)
    requires InWindowCall(s.client) && ClientStep(s, s')
    ensures WindowStep(s, s')
  {
    hide WindowStep;
  }

  lemma OnlyStop(s: State, s': State)
    requires Handshake(s.client) || s.client.StopTest? || s.client.StopReturned?
    requires ClientStep(s, s')
    ensures StopStep(s, s')
  {
    hide StopStep;
  }

  lemma StopEdgeInWindow(s: State, t: State, t': State)
    requires InWindow(s, t) && StopStep(t, t') && (t.client.StopTest? || t.client.StopReturned?)
    ensures InWindow(s, t')
  {
    match t.client
    case StopTest(_) => case StopReturned(_) => case _ =>
  }

  lemma StopInWindow(s: State, t: State, t': State)
    requires InWindow(s, t) && StopStep(t, t')
    ensures InWindow(s, t')
  {
    if t.client.StopSignal? {
      StopSignals(t, t');
    } else if t.client.StopTest? || t.client.StopReturned? {
      hide InWindow, StopStep;
      StopEdgeInWindow(s, t, t');
    } else {
      match t.client
      case StopSleep(_) => case StopWaiting(_) => case StopWoken(_) => case _ =>
    }
  }

  lemma StopSignals(t: State, t': State)
    requires t.client.StopSignal? && StopStep(t, t')
    ensures t'.client == StopSleep(t.client.caller) && t'.running == t.running
  {
  }

  lemma ClientInWindow(s: State, t: State, t': State)
    requires InWindow(s, t) && ClientStep(t, t') && !t'.client.Leave?
    ensures InWindow(s, t')
  {
    hide ClientStep, CallStep, ReturnStep, StartStep, PictureStep;
    if InWindowCall(t.client) {
      OnlyWindow(t, t');
    } else if Starting(t.client) {
      OnlyStream(t, t');
      StreamStepGoesOn(t, t');
    } else {
      OnlyStop(t, t');
      hide InWindow, StopStep;
      StopInWindow(s, t, t');
    }
  }

  lemma InWindowGoesOn(s: State, t: State, t': State)
    requires InWindow(s, t) && Step(t, t') && !t'.client.Leave?
    ensures InWindow(s, t')
  {
    if ClientStep(t, t') {
      hide ClientStep, InWindow, Step;
      ClientInWindow(s, t, t');
    } else {
      hide Step;
      OthersKeep(t, t');
    }
  }

  /** setPreviewWindow holds the lock, or waits for the preview to stop, from states[i], its
      test, to states[j]. */
  ghost predicate IsWindow(states: seq<State>, i: nat, j: nat) {
    && Run(states) && states[0] == START && i < j < |states|
    && states[i].client == WindowTest && states[j].client.Leave?
    && forall k | i <= k < j :: !states[k].client.Leave?
  }

  lemma {:induction false} StillInWindow(states: seq<State>, i: nat, j: nat, k: nat)
    requires IsWindow(states, i, j) && i <= k < j
    ensures InWindow(states[i], states[k])
    decreases k - i
  {
    if k > i {
      hide Inv, Step, InWindow;
      StillInWindow(states, i, j, k - 1);
      assert Step(states[k - 1], states[k - 1 + 1]);
      InWindowGoesOn(states[i], states[k - 1], states[k]);
    }
  }

  /** How setPreviewWindow ends. It starts a deferred preview, if startPreviewInternal succeeds,
      and leaves it deferred otherwise; a running one is stopped, and not started again; and with
      none it changes nothing. */
  lemma WindowOutcome(states: seq<State>, i: nat, j: nat)
    requires IsWindow(states, i, j)
    ensures var s, t := states[i], states[j];
            if s.running && s.deferred then
              && t.running
              && if states[j - 1].client.SignalStart? then PreviewStarted(t) else PreviewAsleep(t) && t.deferred
            else !t.running && PreviewAsleep(t)
  {
    hide Inv, Step, InWindow;
    StillInWindow(states, i, j, j - 1);
    RunIsStrong(states, j - 1);
    assert Step(states[j - 1], states[j - 1 + 1]);
    InWindowEnds(states[i], states[j - 1], states[j]);
  }

  lemma ResumeIsQuiet(t: State)
    requires Inv(t) && t.client == WindowResume
    ensures !t.running || t.deferred ==> PreviewAsleep(t)
  {
  }

  lemma InWindowEnds(s: State, t: State, t': State)
    requires InWindow(s, t) && StrongInv(t) && Step(t, t') && t'.client.Leave?
    ensures if s.running && s.deferred then
              && t'.running
              && if t.client.SignalStart? then PreviewStarted(t') else PreviewAsleep(t') && t'.deferred
            else !t'.running && PreviewAsleep(t')
  {
    if Starting(t.client) {
      hide Inv, Step;
      StartingEnds(t, t');
    } else {
      hide Inv, ClientStep, Step;
      if ClientStep(t, t') {
        LeavesFromResume(s, t, t');
        ResumeIsQuiet(t);
      } else {
        OthersKeep(t, t');
      }
    }
  }

  lemma LeavesFromResume(s: State, t: State, t': State)
    requires InWindow(s, t) && !Starting(t.client) && ClientStep(t, t') && t'.client.Leave?
    ensures t.client == WindowResume && t' == t.(client := t'.client) && !(t.running && t.deferred)
  {
    hide ClientStep, CallStep, ReturnStep, StartStep, StreamStep, PictureStep;
    if InWindowCall(t.client) {
      OnlyWindow(t, t');
    } else {
      OnlyStop(t, t');
      hide StopStep;
      StopInWindow(s, t, t');
    }
  }

  // ---------------------------------------------------------------------
  // stopPreview and takePicture

  lemma OnlyPicture(s: State, s': State)
    requires s.client.ReleaseHeap? || s.client.ClearHeap? || s.client.AllocRaw? || s.client.StartCapture?
             || s.client.RaiseFlag?
    requires ClientStep(s, s')
    ensures PictureStep(s, s')
  {
    hide PictureStep;
  }

  /** The end of stopPreview, also where takePicture calls it: nothing runs or streams, the thread
      sleeps, and the heap is gone. */
  lemma StopOutcome(states: seq<State>, i: nat)
    requires Run(states) && states[0] == START && i + 1 < |states|
    requires states[i].client.ReleaseHeap? || states[i].client.ClearHeap?
    requires states[i + 1].client != states[i].client && !states[i + 1].client.ClearHeap?
    ensures var t := states[i + 1];
            && !t.running && PreviewAsleep(t) && t.heap == Null
            && t.client == AfterRelease(states[i].client.picture)
  {
    hide Inv, Step;
    RunIsStrong(states, i);
    assert Step(states[i], states[i + 1]);
    StopEnds(states[i], states[i + 1]);
  }

  lemma StopEnds(s: State, s': State)
    requires Inv(s) && Step(s, s') && (s.client.ReleaseHeap? || s.client.ClearHeap?)
    requires s'.client != s.client && !s'.client.ClearHeap?
    ensures !s'.running && PreviewAsleep(s') && s'.heap == Null && s'.client == AfterRelease(s.client.picture)
  {
    hide ClientStep, LockInv, CaptureInv;
    if ClientStep(s, s') {
      OnlyPicture(s, s');
    } else {
      OthersKeep(s, s');
    }
  }

  /** takePicture once it has waited, from states[i] to states[j]. */
  ghost predicate IsPicture(states: seq<State>, i: nat, j: nat) {
    && Run(states) && states[0] == START && i < j < |states|
    && states[i].client == AllocRaw && states[j].client == Idle
    && forall k | i <= k < j :: states[k].client != Idle
  }

  /** The capture thread has just been started, with a heap for its picture. */
  predicate CaptureStarted(s: State) {
    s.capture == Init && s.raw && s.client == RaiseFlag
  }

  lemma PictureStepIs(s: State, s': State)
    requires Inv(s) && Step(s, s') && (s.client == AllocRaw || s.client == StartCapture || s.client == RaiseFlag)
    ensures if s'.client == s.client then true
            else if s.client == AllocRaw then s'.client == StartCapture
            else if s.client == StartCapture then
              if s.capture.NotRunning? then CaptureStarted(s') else s'.client == Idle && s.capture.Exiting? && !s'.flag
            else s'.client == Idle && s'.flag
  {
    hide ClientStep, LockInv, HandshakeInv, HeapInv;
    if ClientStep(s, s') {
      OnlyPicture(s, s');
    } else {
      OthersKeep(s, s');
    }
  }

  /** Where the capture was started, if that has happened. */
  lemma {:induction false} StillInPicture(states: seq<State>, i: nat, j: nat, k: nat) returns (m: nat)
    requires IsPicture(states, i, j) && i <= k < j
    ensures states[k].client == AllocRaw || states[k].client == StartCapture || states[k].client == RaiseFlag
    ensures states[k].client == RaiseFlag ==> i < m <= k && CaptureStarted(states[m])
    decreases k - i
  {
    hide Inv, Step;
    m := k;
    if k > i {
      var m' := StillInPicture(states, i, j, k - 1);
      RunIsStrong(states, k - 1);
      assert Step(states[k - 1], states[k - 1 + 1]);
      PictureStepIs(states[k - 1], states[k]);
      if states[k - 1].client == RaiseFlag {
        m := m';
      }
    }
  }

  /** How takePicture ends: it has started a capture with a heap for the picture and raised the
      flag; or the thread of the capture before has not ended yet, and nothing is started. */
  lemma PictureOutcome(states: seq<State>, i: nat, j: nat)
    requires IsPicture(states, i, j)
    ensures if states[j - 1].client == RaiseFlag then
              states[j].flag && exists m | i < m < j :: CaptureStarted(states[m])
            else states[j - 1].client == StartCapture && states[j - 1].capture.Exiting? && !states[j].flag
  {
    hide Inv, Step;
    var m := StillInPicture(states, i, j, j - 1);
    RunIsStrong(states, j - 1);
    assert Step(states[j - 1], states[j - 1 + 1]);
    PictureStepIs(states[j - 1], states[j]);
  }
}
