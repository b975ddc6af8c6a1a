/** That the camera works: no deadlock, and runs in which a preview and a picture come about. */
module CameraRuns {
  import opened CameraProtocol
  import opened CameraOutcomes

  // ---------------------------------------------------------------------
  // Somebody can always go on

  lemma StarterMoves(s: State)
    requires Starting(s.client)
    ensures exists s' :: ClientStep(s, s')
  {
    var next := match s.client
      case AllocHeap(w) => s.(heap := if s.heap == Null then Live else s.heap, client := StreamOn(w))
      case StreamOn(w) => s.(streaming := true, client := SignalStart(w))
      case SignalStart(w) =>
        SignalPreview(s.(deferred := if w then false else s.deferred, client := Leave(false, false)))
      case _ => s;
    assert StreamStep(s, next);
    assert ClientStep(s, next);
  }

  lemma HolderMoves(s: State)
    requires s.client.StartTest? || s.client.Leave? || InWindowCall(s.client)
    ensures exists s' :: ClientStep(s, s')
  {
    var next := match s.client
      case StartTest =>
        if s.running then s.(client := Leave(false, false))
        else if !s.window then s.(running := true, deferred := true, client := Leave(false, false))
        else s.(running := true, deferred := false, client := AllocHeap(false))
      case Leave(release, picture) => s.(lock := Nobody, client := if release then ReleaseHeap(picture) else Idle)
      case WindowTest => s.(client := if s.running && !s.deferred then StopTest(FromWindow) else WindowResume)
      case _ => s.(client := if s.running && s.deferred then AllocHeap(true) else Leave(false, false));
    assert ReturnStep(s, next) || StartStep(s, next) || WindowStep(s, next);
    assert ClientStep(s, next);
  }

  lemma StopperMoves(s: State)
    requires s.client.StopTest? || s.client.StopSignal? || s.client.StopSleep? || s.client.StopReturned?
    ensures exists s' :: ClientStep(s, s')
  {
    var next := match s.client
      case StopTest(c) =>
        s.(running := false, client := if s.running && !s.deferred then StopSignal(c) else StopReturned(c))
      case StopSignal(c) => SignalPreview(s.(client := StopSleep(c)))
      case StopSleep(c) => s.(lock := Nobody, client := StopWaiting(c))
      case StopReturned(c) => s.(client := if c == FromWindow then WindowResume else Leave(true, c == FromPicture))
      case _ => s;
    assert StopStep(s, next);
    assert ClientStep(s, next);
  }

  lemma CallerMoves(s: State)
    requires s.client.Idle? || s.client.AwaitCapture? || s.client.SetWindow?
    ensures exists s' :: ClientStep(s, s')
  {
    var next := match s.client
      case AwaitCapture(picture) =>
        if !s.flag then s.(client := if picture then AllocRaw else StartLock) else s.(client := Idle)
      case SetWindow(given) => s.(window := given, client := if given then WindowLock else Idle)
      case _ => s.(client := AwaitCapture(false));
    assert CallStep(s, next) || ReturnStep(s, next);
    assert ClientStep(s, next);
  }

  lemma FreeMoves(s: State)
    requires s.client.ReleaseHeap? || s.client.ClearHeap? || s.client.AllocRaw? || s.client.StartCapture?
             || s.client.RaiseFlag?
    ensures exists s' :: ClientStep(s, s')
  {
    var next := match s.client
      case ReleaseHeap(picture) =>
        if s.heap != Null then s.(heap := Released, client := ClearHeap(picture))
        else s.(client := AfterRelease(picture))
      case ClearHeap(picture) => s.(heap := Null, client := AfterRelease(picture))
      case AllocRaw => s.(raw := true, client := StartCapture)
      case StartCapture =>
        if s.capture.NotRunning? then s.(capture := Init, client := RaiseFlag) else s.(client := Idle)
      case _ => s.(flag := true, client := Idle);
    assert PictureStep(s, next);
    assert ClientStep(s, next);
  }

  lemma LockerMoves(s: State)
    requires s.client.StartLock? || s.client.WindowLock? || s.client.StopLock? || s.client.StopWoken?
    requires s.lock == Nobody
    ensures exists s' :: ClientStep(s, s')
  {
    var next := s.(lock := ByClient, client := match s.client
      case StartLock => StartTest
      case WindowLock => WindowTest
      case StopLock(picture) => StopTest(if picture then FromPicture else FromStop)
      case StopWoken(c) => StopReturned(c)
      case other => other);
    assert StartStep(s, next) || WindowStep(s, next) || StopStep(s, next);
    assert ClientStep(s, next);
  }

  lemma PreviewHolderMoves(s: State)
    requires PreviewHolds(s.preview)
    ensures exists s' :: PreviewStep(s, s')
  {
    var next := match s.preview
      case Test => s.(preview := if s.running then Unlock else Stopping)
      case Stopping => s.(streaming := false, preview := Signal)
      case Signal => SignalStopped(s.(preview := Sleep))
      case Sleep => s.(lock := Nobody, preview := Parked)
      case _ => s.(lock := Nobody, preview := Frame);
    assert PreviewStep(s, next);
  }

  /** There is no deadlock: in every reachable state the client can move, unless it waits for the
      lock or for the preview to stop; then the preview thread can. */
  lemma NeverBlocked(states: seq<State>, i: nat)
    requires Run(states) && states[0] == START && i < |states|
    ensures var s := states[i];
            || (exists s' :: ClientStep(s, s'))
            || (&& (s.client.StopWaiting? || (!ClientHolds(s.client) && s.lock == ByPreview))
                && exists s' :: PreviewStep(s, s'))
  {
    hide ClientStep, PreviewStep, Inv;
    var s := states[i];
    RunIsStrong(states, i);
    LockIs(s);
    if s.client.StopWaiting? {
      PreviewCanMove(s);
    } else if s.client.StartLock? || s.client.WindowLock? || s.client.StopLock? || s.client.StopWoken? {
      if s.lock == Nobody {
        LockerMoves(s);
      } else {
        PreviewHolderMoves(s);
      }
    } else if s.client.StopTest? || s.client.StopSignal? || s.client.StopSleep? || s.client.StopReturned? {
      StopperMoves(s);
    } else if Starting(s.client) {
      StarterMoves(s);
    } else if ClientHolds(s.client) {
      HolderMoves(s);
    } else if s.client.Idle? || s.client.AwaitCapture? || s.client.SetWindow? {
      CallerMoves(s);
    } else {
      FreeMoves(s);
    }
  }

  lemma LockIs(s: State)
    requires Inv(s)
    ensures (s.lock == ByClient <==> ClientHolds(s.client)) && (s.lock == ByPreview <==> PreviewHolds(s.preview))
  {
  }

  // ---------------------------------------------------------------------
  // Previews and pictures come about

  const READY := START.(window := true)

  /** Fetching frames from a running stream. */
  const PREVIEWING := READY.(preview := Frame, running := true, heap := Live, streaming := true)

  lemma OpenWindow() returns (states: seq<State>)
    ensures states != [] && Run(states) && states[0] == START && states[|states| - 1] == READY
  {
    hide StartStep, StreamStep, StopStep, PictureStep, PreviewStep, CaptureStep;
    var s1 := START.(client := SetWindow(true));
    var s2 := s1.(window := true, client := WindowLock);
    var s3 := s2.(lock := ByClient, client := WindowTest);
    var s4 := s3.(client := WindowResume);
    var s5 := s4.(client := Leave(false, false));
    assert CallStep(START, s1) && CallStep(s1, s2) && WindowStep(s2, s3) && WindowStep(s3, s4) && WindowStep(s4, s5);
    assert ReturnStep(s5, READY);
    states := [START, s1, s2, s3, s4, s5, READY];
  }

  lemma StartUp() returns (more: seq<State>)
    ensures more != [] && Run([READY] + more) && more[|more| - 1] == PREVIEWING.(preview := Woken)
  {
    hide WindowStep, StopStep, PictureStep, PreviewStep, CaptureStep;
    var s1 := READY.(client := AwaitCapture(false));
    var s2 := s1.(client := StartLock);
    var s3 := s2.(lock := ByClient, client := StartTest);
    var s4 := s3.(running := true, client := AllocHeap(false));
    var s5 := s4.(heap := Live, client := StreamOn(false));
    var s6 := s5.(streaming := true, client := SignalStart(false));
    var s7 := s6.(preview := Woken, client := Leave(false, false));
    var s8 := s7.(lock := Nobody, client := Idle);
    assert CallStep(READY, s1) && ReturnStep(s1, s2) && StartStep(s2, s3) && StartStep(s3, s4);
    assert StreamStep(s4, s5) && StreamStep(s5, s6) && StreamStep(s6, s7) && ReturnStep(s7, s8);
    more := [s1, s2, s3, s4, s5, s6, s7, s8];
  }

  lemma FirstFrame() returns (more: seq<State>)
    ensures more != [] && Run([PREVIEWING.(preview := Woken)] + more) && more[|more| - 1] == PREVIEWING
  {
    hide ClientStep, CaptureStep;
    var s0 := PREVIEWING.(preview := Woken);
    var s1 := s0.(lock := ByPreview, preview := Test);
    var s2 := s1.(preview := Unlock);
    assert PreviewStep(s0, s1) && PreviewStep(s1, s2) && PreviewStep(s2, PREVIEWING);
    more := [s1, s2, PREVIEWING];
  }

  lemma AskToStop() returns (more: seq<State>)
    ensures more != [] && Run([PREVIEWING] + more)
    ensures more[|more| - 1] == PREVIEWING.(running := false, client := StopWaiting(FromStop))
  {
    hide ReturnStep, StartStep, StreamStep, WindowStep, PictureStep, PreviewStep, CaptureStep;
    var s1 := PREVIEWING.(client := StopLock(false));
    var s2 := s1.(lock := ByClient, client := StopTest(FromStop));
    var s3 := s2.(running := false, client := StopSignal(FromStop));
    var s4 := s3.(client := StopSleep(FromStop));
    var s5 := s4.(lock := Nobody, client := StopWaiting(FromStop));
    assert CallStep(PREVIEWING, s1) && StopStep(s1, s2) && StopStep(s2, s3) && StopStep(s3, s4) && StopStep(s4, s5);
    more := [s1, s2, s3, s4, s5];
  }

  lemma ThreadStops() returns (more: seq<State>)
    ensures more != [] && Run([PREVIEWING.(running := false, client := StopWaiting(FromStop))] + more)
    ensures more[|more| - 1] == READY.(heap := Live, client := StopWoken(FromStop))
  {
    hide ClientStep, CaptureStep;
    var s0 := PREVIEWING.(running := false, client := StopWaiting(FromStop));
    var s1 := s0.(preview := Copy);
    var s2 := s1.(preview := Lock);
    var s3 := s2.(lock := ByPreview, preview := Test);
    var s4 := s3.(preview := Stopping);
    var s5 := s4.(streaming := false, preview := Signal);
    var s6 := s5.(preview := Sleep, client := StopWoken(FromStop));
    var s7 := s6.(lock := Nobody, preview := Parked);
    assert PreviewStep(s0, s1) && PreviewStep(s1, s2) && PreviewStep(s2, s3) && PreviewStep(s3, s4);
    assert PreviewStep(s4, s5) && PreviewStep(s5, s6) && PreviewStep(s6, s7);
    more := [s1, s2, s3, s4, s5, s6, s7];
  }

  lemma FreeHeap() returns (more: seq<State>)
    ensures more != [] && Run([READY.(heap := Live, client := StopWoken(FromStop))] + more)
    ensures more[|more| - 1] == READY
  {
    hide CallStep, StartStep, StreamStep, WindowStep, PreviewStep, CaptureStep, SignalPreview;
    var s0 := READY.(heap := Live, client := StopWoken(FromStop));
    var s1 := s0.(lock := ByClient, client := StopReturned(FromStop));
    var s2 := s1.(client := Leave(true, false));
    var s3 := s2.(lock := Nobody, client := ReleaseHeap(false));
    var s4 := s3.(heap := Released, client := ClearHeap(false));
    assert StopStep(s0, s1) && StopStep(s1, s2) && ReturnStep(s2, s3) && PictureStep(s3, s4) && PictureStep(s4, READY);
    more := [s1, s2, s3, s4, READY];
  }

  /** Two runs, the second starting where the first ends. */
  lemma Continue(states: seq<State>, last: State, more: seq<State>) returns (all: seq<State>)
    requires states != [] && Run(states) && states[|states| - 1] == last && more != [] && Run([last] + more)
    ensures all == states + more && Run(all) && all[0] == states[0] && all[|all| - 1] == more[|more| - 1]
  {
    hide Run;
    all := states + more;
    Join(states, more);
  }

  /** A preview comes up, fetches a frame from the running stream, and is stopped: a run that ends
      where it started, but for the window. */
  lemma PreviewCycle()
    ensures exists states, i ::
              && Run(states) && states[0] == START && 0 <= i < |states|
              && states[i] == PREVIEWING && states[|states| - 1] == READY
  {
    hide Run;
    var states := OpenWindow();
    var more := StartUp();
    states := Continue(states, READY, more);
    more := FirstFrame();
    states := Continue(states, PREVIEWING.(preview := Woken), more);
    var i := |states| - 1;
    assert states[i] == PREVIEWING;
    more := AskToStop();
    var all := Continue(states, PREVIEWING, more);
    more := ThreadStops();
    all := Continue(all, PREVIEWING.(running := false, client := StopWaiting(FromStop)), more);
    more := FreeHeap();
    all := Continue(all, READY.(heap := Live, client := StopWoken(FromStop)), more);
    assert all[i] == PREVIEWING;
  }

  lemma Shoot() returns (more: seq<State>)
    ensures |more| == 9 && Run([STOPPED.(raw := true, client := StartCapture)] + more)
    ensures more[3].capture == Shooting && more[3].raw && more[3].flag && more[8] == START
  {
    hide CallStep, ReturnStep, StartStep, StreamStep, WindowStep, StopStep, PreviewStep;
    var s0 := STOPPED.(raw := true, client := StartCapture);
    var s1 := s0.(capture := Init, client := RaiseFlag);
    var s2 := s1.(flag := true, client := Idle);
    var s3 := s2.(capture := Command);
    var s4 := s3.(capture := Shooting);
    var s5 := s4.(capture := FreeRaw);
    var s6 := s5.(raw := false, capture := Ending);
    var s7 := s6.(capture := ClearFlag);
    var s8 := s7.(flag := false, capture := Exiting);
    assert PictureStep(s0, s1) && PictureStep(s1, s2) && CaptureStep(s2, s3) && CaptureStep(s3, s4);
    assert CaptureStep(s4, s5) && CaptureStep(s5, s6) && CaptureStep(s6, s7) && CaptureStep(s7, s8);
    assert CaptureStep(s8, START);
    more := [s1, s2, s3, s4, s5, s6, s7, s8, START];
  }

  /** A picture is taken, with the flag up meanwhile: a run that ends where it started. */
  lemma PictureCycle()
    ensures exists states: seq<State>, i ::
              && Run(states) && states[0] == START && 0 <= i < |states|
              && states[i].capture == Shooting && states[i].raw && states[i].flag && states[|states| - 1] == START
  {
    hide Run;
    var states := ReachStopped();
    var more := ReachCapture();
    states := Continue(states, STOPPED, more);
    more := Shoot();
    var all := Continue(states, STOPPED.(raw := true, client := StartCapture), more);
    assert all[|states| + 3] == more[3];
  }
}
