/** What the sensor drivers' streams mean, said without their state: at every SYN, the latest
    reading on every axis, for every enabled sensor that was heard of since the SYN before. */
module LatestReadings {
  import opened SensorTypes
  import A = AmiEvents
  import P = PlainSensors

  /** The value of the last of the first n events with this code, or an initial one. */
  function Last(events: seq<InputEvent>, n: nat, code: int, initial: int): int
    requires n <= |events|
  {
    if n == 0 then initial
    else if events[n - 1].typ == EV_ABS && events[n - 1].code == code then events[n - 1].value
    else Last(events, n - 1, code, initial)
  }

  /** SENSOR_STATUS_ACCURACY_HIGH, MEDIUM and LOW, and UNRELIABLE, for the numbers of the chip. */
  function Accuracy(value: int): int {
    match value
    case 3 => 2
    case 4 => 1
    case 5 => 0
    case _ => 3
  }

  /** The same for an accuracy status, which is translated. */
  function LastStatus(events: seq<InputEvent>, n: nat, code: int, initial: int): int
    requires n <= |events|
  {
    if n == 0 then initial
    else if events[n - 1].typ == EV_ABS && events[n - 1].code == code then Accuracy(events[n - 1].value)
    else LastStatus(events, n - 1, code, initial)
  }

  // ---------------------------------------------------------------------
  // The compass driver

  function CodesOf(sensor: nat): set<int> {
    if sensor == A.ACCELEROMETER then {A.CODE_ACCEL_X, A.CODE_ACCEL_Y, A.CODE_ACCEL_Z}
    else if sensor == A.MAGNETIC_FIELD then {A.CODE_MAGV_X, A.CODE_MAGV_Y, A.CODE_MAGV_Z, A.CODE_MAGV_STATUS}
    else {A.CODE_YAW, A.CODE_PITCH, A.CODE_ROLL, A.CODE_ORIENT_STATUS}
  }

  /** Whether the sensor was heard of among the first n events since the last SYN of these. */
  predicate Heard(events: seq<InputEvent>, n: nat, sensor: nat)
    requires n <= |events|
  {
    && n > 0 && events[n - 1].typ != EV_SYN
    && ((events[n - 1].typ == EV_ABS && events[n - 1].code in CodesOf(sensor)) || Heard(events, n - 1, sensor))
  }

  /** The sensor's latest readings, from initial ones; the accelerometer has no status. */
  function Latest(initial: seq<Sample>, events: seq<InputEvent>, n: nat, sensor: nat, time: int): Sample
    requires |initial| == A.NUM_SENSORS && n <= |events| && sensor < A.NUM_SENSORS
  {
    var p := initial[sensor];
    if sensor == A.ACCELEROMETER then
      Sample(Last(events, n, A.CODE_ACCEL_X, p.x), Last(events, n, A.CODE_ACCEL_Y, p.y),
             Last(events, n, A.CODE_ACCEL_Z, p.z), p.status, time)
    else if sensor == A.MAGNETIC_FIELD then
      Sample(Last(events, n, A.CODE_MAGV_X, p.x), Last(events, n, A.CODE_MAGV_Y, p.y),
             Last(events, n, A.CODE_MAGV_Z, p.z), LastStatus(events, n, A.CODE_MAGV_STATUS, p.status), time)
    else
      Sample(Last(events, n, A.CODE_YAW, p.x), Last(events, n, A.CODE_PITCH, p.y),
             Last(events, n, A.CODE_ROLL, p.z), LastStatus(events, n, A.CODE_ORIENT_STATUS, p.status), time)
  }

  /** The reports due at the SYN that event n is, from one sensor on. */
  function Due(initial: seq<Sample>, enabled: set<nat>, events: seq<InputEvent>, n: nat, sensor: nat): seq<Report>
    requires |initial| == A.NUM_SENSORS && n < |events| && sensor <= A.NUM_SENSORS
    decreases A.NUM_SENSORS - sensor
  {
    if sensor == A.NUM_SENSORS then []
    else
      (if sensor in enabled && Heard(events, n, sensor)
       then [Report(sensor, Latest(initial, events, n, sensor, events[n].time))] else [])
      + Due(initial, enabled, events, n, sensor + 1)
  }

  /** All reports due among the first n events. */
  function Reports(initial: seq<Sample>, enabled: set<nat>, events: seq<InputEvent>, n: nat): seq<Report>
    requires |initial| == A.NUM_SENSORS && n <= |events|
  {
    if n == 0 then []
    else
      Reports(initial, enabled, events, n - 1)
      + if events[n - 1].typ == EV_SYN then Due(initial, enabled, events, n - 1, 0) else []
  }

  /** The driver's state holds the latest readings, and the sensors heard of. */
  ghost predicate Tracks(initial: seq<Sample>, st: A.State, events: seq<InputEvent>, n: nat)
    requires |initial| == A.NUM_SENSORS && n <= |events|
  {
    && st.Valid()
    && forall j | 0 <= j < A.NUM_SENSORS ::
         && st.pending[j] == Latest(initial, events, n, j, st.pending[j].time)
         && (j in st.mask <==> Heard(events, n, j))
  }

  lemma AbsTracks(initial: seq<Sample>, st: A.State, events: seq<InputEvent>, n: nat)
    requires |initial| == A.NUM_SENSORS && n < |events| && events[n].typ == EV_ABS
    requires Tracks(initial, st, events, n)
    ensures Tracks(initial, A.ProcessEvent(st, events[n].code, events[n].value), events, n + 1)
  {
    var st' := A.ProcessEvent(st, events[n].code, events[n].value);
    forall j | 0 <= j < A.NUM_SENSORS
      ensures st'.pending[j] == Latest(initial, events, n + 1, j, st'.pending[j].time)
      ensures j in st'.mask <==> Heard(events, n + 1, j)
    {
      assert j == 0 || j == 1 || j == 2;
      assert st.pending[j] == Latest(initial, events, n, j, st.pending[j].time);
    }
  }

  /** The rest of a SYN's loop: the reports of the sensors pending, and their readings stay. */
  lemma {:induction false} SynReports(initial: seq<Sample>, enabled: set<nat>, st: A.State,
                                      events: seq<InputEvent>, n: nat, j: nat)
    requires |initial| == A.NUM_SENSORS && n < |events| && j <= A.NUM_SENSORS && st.Valid()
    requires forall i | 0 <= i < A.NUM_SENSORS :: st.pending[i] == Latest(initial, events, n, i, st.pending[i].time)
    requires forall i | j <= i < A.NUM_SENSORS :: i in st.mask <==> Heard(events, n, i)
    ensures var s := A.Syn(st, enabled, events[n].time, j);
            && s.0 == Due(initial, enabled, events, n, j)
            && forall i | 0 <= i < A.NUM_SENSORS :: s.1.pending[i] == Latest(initial, events, n, i, s.1.pending[i].time)
    decreases A.NUM_SENSORS - j
  {
    hide Heard, Latest, A.Syn;
    if j == A.NUM_SENSORS {
      A.SynEnds(st, enabled, events[n].time);
    } else {
      A.SynUnfold(st, enabled, events[n].time, j);
      if j in st.mask {
        var p := st.pending[j].(time := events[n].time);
        var rest := A.State(st.mask - {j}, st.pending[j := p]);
        LatestTime(initial, events, n, j, st.pending[j].time, events[n].time);
        forall i | 0 <= i < A.NUM_SENSORS
          ensures rest.pending[i] == Latest(initial, events, n, i, rest.pending[i].time)
        {
          assert i != j ==> rest.pending[i] == st.pending[i];
        }
        SynReports(initial, enabled, rest, events, n, j + 1);
      } else {
        SynReports(initial, enabled, st, events, n, j + 1);
      }
    }
  }

  lemma LatestTime(initial: seq<Sample>, events: seq<InputEvent>, n: nat, j: nat, t: int, u: int)
    requires |initial| == A.NUM_SENSORS && n <= |events| && j < A.NUM_SENSORS
    ensures Latest(initial, events, n, j, t).(time := u) == Latest(initial, events, n, j, u)
  {
  }

  /** An event that is no reading leaves the readings alone. */
  lemma LatestKeeps(initial: seq<Sample>, events: seq<InputEvent>, n: nat, j: nat, t: int)
    requires |initial| == A.NUM_SENSORS && n < |events| && j < A.NUM_SENSORS && events[n].typ != EV_ABS
    ensures Latest(initial, events, n + 1, j, t) == Latest(initial, events, n, j, t)
  {
  }

  lemma StepReports(initial: seq<Sample>, enabled: set<nat>, st: A.State, events: seq<InputEvent>, n: nat)
    requires |initial| == A.NUM_SENSORS && n < |events| && Tracks(initial, st, events, n)
    ensures var s := A.Step(st, enabled, events[n]);
            && Tracks(initial, s.1, events, n + 1)
            && Reports(initial, enabled, events, n + 1) == Reports(initial, enabled, events, n) + s.0
  {
    if events[n].typ == EV_ABS {
      AbsTracks(initial, st, events, n);
    } else {
      hide Latest;
      forall j, t: int | 0 <= j < A.NUM_SENSORS
        ensures Latest(initial, events, n + 1, j, t) == Latest(initial, events, n, j, t)
      {
        LatestKeeps(initial, events, n, j, t);
      }
      if events[n].typ == EV_SYN {
        SynReports(initial, enabled, st, events, n, 0);
        A.SynClears(st, enabled, events[n].time, 0);
      }
    }
  }

  lemma {:induction false} PrefixReports(initial: seq<Sample>, enabled: set<nat>, events: seq<InputEvent>, n: nat)
    requires |initial| == A.NUM_SENSORS && n <= |events|
    ensures var st := A.State({}, initial);
            && A.Emit(st, enabled, events[..n]) == Reports(initial, enabled, events, n)
            && Tracks(initial, A.After(st, enabled, events[..n]), events, n)
  {
    hide Tracks, A.Step, Reports, A.Emit, A.After;
    var st := A.State({}, initial);
    if n == 0 {
      NothingYet(initial, enabled, events);
    } else {
      PrefixReports(initial, enabled, events, n - 1);
      var before := A.After(st, enabled, events[..n - 1]);
      StepReports(initial, enabled, before, events, n - 1);
      assert events[..n] == events[..n - 1] + [events[n - 1]];
      A.EmitConcat(st, enabled, events[..n - 1], [events[n - 1]]);
      OneEvent(before, enabled, events[n - 1]);
    }
  }

  lemma NothingYet(initial: seq<Sample>, enabled: set<nat>, events: seq<InputEvent>)
    requires |initial| == A.NUM_SENSORS
    ensures A.Emit(A.State({}, initial), enabled, events[..0]) == Reports(initial, enabled, events, 0)
    ensures Tracks(initial, A.After(A.State({}, initial), enabled, events[..0]), events, 0)
  {
  }

  lemma OneEvent(st: A.State, enabled: set<nat>, e: InputEvent)
    requires st.Valid()
    ensures A.Emit(st, enabled, [e]) == A.Step(st, enabled, e).0
    ensures A.After(st, enabled, [e]) == A.Step(st, enabled, e).1
  {
    hide A.Step;
    assert [e][1..] == [];
  }

  /** With nothing pending, the compass driver's stream is the list of latest readings. */
  lemma StreamIsLatest(initial: seq<Sample>, enabled: set<nat>, events: seq<InputEvent>)
    requires |initial| == A.NUM_SENSORS
    ensures A.Emit(A.State({}, initial), enabled, events) == Reports(initial, enabled, events, |events|)
  {
    PrefixReports(initial, enabled, events, |events|);
    assert events[..|events|] == events;
  }

  // ---------------------------------------------------------------------
  // The accelerometer and the light sensor

  /** The value of the last of the first n events that the light sensor takes for a reading. */
  function LastLight(events: seq<InputEvent>, n: nat, initial: int): int
    requires n <= |events|
  {
    if n == 0 then initial
    else if events[n - 1].typ == EV_ABS && events[n - 1].code == P.CODE_LIGHT && events[n - 1].value != -1
    then events[n - 1].value
    else LastLight(events, n - 1, initial)
  }

  /** The latest readings; a device mounted at 270 degrees has its x axis along the sensor's y
      and its y axis against the sensor's x. */
  function LatestOf(kind: P.Kind, p: Sample, events: seq<InputEvent>, n: nat, time: int): Sample
    requires n <= |events|
  {
    match kind
    case Light => p.(x := LastLight(events, n, p.x), time := time)
    case Accelerometer(rotation) =>
      var z := Last(events, n, P.CODE_ACCEL_Z, p.z);
      if rotation == 270 then
        Sample(Last(events, n, P.CODE_ACCEL_Y, p.x), -Last(events, n, P.CODE_ACCEL_X, -p.y), z, p.status, time)
      else
        Sample(Last(events, n, P.CODE_ACCEL_X, p.x), Last(events, n, P.CODE_ACCEL_Y, p.y), z, p.status, time)
  }

  /** One report at every SYN. */
  function ReportsOf(kind: P.Kind, p: Sample, events: seq<InputEvent>, n: nat): seq<Report>
    requires n <= |events|
  {
    if n == 0 then []
    else
      ReportsOf(kind, p, events, n - 1)
      + if events[n - 1].typ == EV_SYN then [Report(0, LatestOf(kind, p, events, n - 1, events[n - 1].time))] else []
  }

  lemma StepReportsOf(kind: P.Kind, p0: Sample, p: Sample, events: seq<InputEvent>, n: nat)
    requires n < |events| && p == LatestOf(kind, p0, events, n, p.time)
    ensures var s := P.Step(kind, true, p, events[n]);
            && s.1 == LatestOf(kind, p0, events, n + 1, s.1.time)
            && ReportsOf(kind, p0, events, n + 1) == ReportsOf(kind, p0, events, n) + s.0
  {
  }

  lemma {:induction false} PrefixReportsOf(kind: P.Kind, p: Sample, events: seq<InputEvent>, n: nat)
    requires n <= |events|
    ensures var after := P.After(kind, true, p, events[..n]);
            && P.Emit(kind, true, p, events[..n]) == ReportsOf(kind, p, events, n)
            && after == LatestOf(kind, p, events, n, after.time)
  {
    if n > 0 {
      hide P.Step, LatestOf, ReportsOf;
      PrefixReportsOf(kind, p, events, n - 1);
      var before, e := P.After(kind, true, p, events[..n - 1]), events[n - 1];
      StepReportsOf(kind, p, before, events, n - 1);
      assert events[..n] == events[..n - 1] + [e];
      P.EmitConcat(kind, true, p, events[..n - 1], [e]);
      assert [e][1..] == [];
      assert P.Emit(kind, true, before, [e]) == P.Step(kind, true, before, e).0;
    }
  }

  /** An enabled accelerometer or light sensor reports its latest readings at every SYN; one
      that is not enabled reports nothing. */
  lemma StreamIsLatestOf(kind: P.Kind, p: Sample, events: seq<InputEvent>)
    ensures P.Emit(kind, true, p, events) == ReportsOf(kind, p, events, |events|)
    ensures P.Emit(kind, false, p, events) == []
  {
    PrefixReportsOf(kind, p, events, |events|);
    assert events[..|events|] == events;
    P.DisabledIsSilent(kind, p, events);
  }

  // ---------------------------------------------------------------------
  // Which raw event stands for which reading, in the numbers of the input subsystem

  /** What one EV_ABS event makes the compass driver report at the next SYN, with all sensors
      enabled and nothing pending: ABS_X is the y axis of the accelerometer, ABS_Y its x axis. */
  lemma OneReading(p: seq<Sample>, code: int, value: int, u: int, t: int)
    requires |p| == 3
    ensures A.Emit(A.State({}, p), {0, 1, 2}, [InputEvent(3, code, value, u), InputEvent(0, 0, 0, t)]) ==
              match code
              case 0 => [Report(0, p[0].(y := value, time := t))]
              case 1 => [Report(0, p[0].(x := value, time := t))]
              case 2 => [Report(0, p[0].(z := value, time := t))]
              case 3 => [Report(2, p[2].(x := value, time := t))]
              case 4 => [Report(2, p[2].(y := value, time := t))]
              case 5 => [Report(2, p[2].(z := value, time := t))]
              case 7 => [Report(2, p[2].(status := Accuracy(value), time := t))]
              case 8 => [Report(1, p[1].(status := Accuracy(value), time := t))]
              case 10 => [Report(1, p[1].(z := value, time := t))]
              case 16 => [Report(1, p[1].(x := value, time := t))]
              case 17 => [Report(1, p[1].(y := value, time := t))]
              case _ => []
  {
    hide A.Emit;
    var st, syn := A.State({}, p), InputEvent(0, 0, 0, t);
    var abs := InputEvent(3, code, value, u);
    A.EmitConcat(st, {0, 1, 2}, [abs], [syn]);
    assert [abs] + [syn] == [abs, syn];
    OneEvent(st, {0, 1, 2}, abs);
    var st' := A.Step(st, {0, 1, 2}, abs).1;
    OneEvent(st', {0, 1, 2}, syn);
    OneSyn(st', t);
  }

  /** A SYN with at most one sensor pending. */
  lemma OneSyn(st: A.State, t: int)
    requires st.Valid() && (st.mask == {} || st.mask == {0} || st.mask == {1} || st.mask == {2})
    ensures A.Syn(st, {0, 1, 2}, t, 0).0 ==
              if st.mask == {} then []
              else
                var j := if 0 in st.mask then 0 else if 1 in st.mask then 1 else 2;
                [Report(j, st.pending[j].(time := t))]
  {
    A.SynUnfold(st, {0, 1, 2}, t, 0);
  }

  /** The same for an enabled accelerometer or light sensor. */
  lemma OneReadingOf(kind: P.Kind, p: Sample, code: int, value: int, u: int, t: int)
    ensures P.Emit(kind, true, p, [InputEvent(3, code, value, u), InputEvent(0, 0, 0, t)]) ==
              var turned := kind.Accelerometer? && kind.rotation == 270;
              var q := if kind.Light? then if code == 40 && value != -1 then p.(x := value) else p
                       else match code
                            case 0 => if turned then p.(x := value) else p.(y := value)
                            case 1 => if turned then p.(y := -value) else p.(x := value)
                            case 2 => p.(z := value)
                            case _ => p;
              [Report(0, q.(time := t))]
  {
    var abs, syn := InputEvent(3, code, value, u), InputEvent(0, 0, 0, t);
    P.EmitConcat(kind, true, p, [abs], [syn]);
    assert [abs] + [syn] == [abs, syn] && [abs][1..] == [] && [syn][1..] == [];
  }
}
