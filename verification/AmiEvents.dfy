/** The event half of AmiSensor: raw input events in, at most `count` sensor events out per
    call, with a SYN that can be interrupted and resumed. Only mEnabled is shared with the
    control half in AmiControl. */
module AmiEvents {
  import opened CircularReader
  import opened SensorTypes

  const ACCELEROMETER := 0
  const MAGNETIC_FIELD := 1
  const ORIENTATION := 2
  const NUM_SENSORS := 3

  // Input codes: ABS_X, ABS_Y, ... of the input subsystem, as nusensors.h assigns them.
  const CODE_ACCEL_X := 1
  const CODE_ACCEL_Y := 0
  const CODE_ACCEL_Z := 2
  const CODE_YAW := 3
  const CODE_PITCH := 4
  const CODE_ROLL := 5
  const CODE_ORIENT_STATUS := 7
  const CODE_MAGV_X := 16
  const CODE_MAGV_Y := 17
  const CODE_MAGV_Z := 10
  const CODE_MAGV_STATUS := 8

  /** mPendingMask, as the set of its bits, and mPendingEvents. */
  datatype State = State(mask: set<nat>, pending: seq<Sample>) {
    predicate Valid() {
      (forall j | j in mask :: j < NUM_SENSORS) && |pending| == NUM_SENSORS
    }
  }

  function AccuracyStatus(value: int): int {
    if value == 3 then 2 else if value == 4 then 1 else if value == 5 then 0 else 3
  }

  function Update(st: State, j: nat, p: Sample): (r: State)
    requires st.Valid() && j < NUM_SENSORS
    ensures r.Valid()
  {
    State(st.mask + {j}, st.pending[j := p])
  }

  function ProcessEvent(st: State, code: int, value: int): (r: State)
    requires st.Valid()
    ensures r.Valid()
  {
    var a, m, o := st.pending[ACCELEROMETER], st.pending[MAGNETIC_FIELD], st.pending[ORIENTATION];
    if code == CODE_ACCEL_X then Update(st, ACCELEROMETER, a.(x := value))
    else if code == CODE_ACCEL_Y then Update(st, ACCELEROMETER, a.(y := value))
    else if code == CODE_ACCEL_Z then Update(st, ACCELEROMETER, a.(z := value))
    else if code == CODE_MAGV_X then Update(st, MAGNETIC_FIELD, m.(x := value))
    else if code == CODE_MAGV_Y then Update(st, MAGNETIC_FIELD, m.(y := value))
    else if code == CODE_MAGV_Z then Update(st, MAGNETIC_FIELD, m.(z := value))
    else if code == CODE_MAGV_STATUS then Update(st, MAGNETIC_FIELD, m.(status := AccuracyStatus(value)))
    else if code == CODE_YAW then Update(st, ORIENTATION, o.(x := value))
    else if code == CODE_PITCH then Update(st, ORIENTATION, o.(y := value))
    else if code == CODE_ROLL then Update(st, ORIENTATION, o.(z := value))
    else if code == CODE_ORIENT_STATUS then Update(st, ORIENTATION, o.(status := AccuracyStatus(value)))
    else st
  }

  // ---------------------------------------------------------------------
  // The stream function: what the sensor emits when nothing bounds the output

  /** A SYN from sensor j on: every pending sensor is stamped and cleared, the enabled
      ones are reported, in index order. */
  function Syn(st: State, enabled: set<nat>, time: int, j: nat): (r: (seq<Report>, State))
    requires st.Valid() && j <= NUM_SENSORS
    ensures r.1.Valid()
    decreases NUM_SENSORS - j
  {
    if j == NUM_SENSORS then ([], st)
    else if j !in st.mask then Syn(st, enabled, time, j + 1)
    else
      var p := st.pending[j].(time := time);
      var rest := Syn(State(st.mask - {j}, st.pending[j := p]), enabled, time, j + 1);
      ((if j in enabled then [Report(j, p)] else []) + rest.0, rest.1)
  }

  function Step(st: State, enabled: set<nat>, e: InputEvent): (r: (seq<Report>, State))
    requires st.Valid()
    ensures r.1.Valid()
  {
    if e.typ == EV_ABS then ([], ProcessEvent(st, e.code, e.value))
    else if e.typ == EV_SYN then Syn(st, enabled, e.time, 0)
    else ([], st)
  }

  function Emit(st: State, enabled: set<nat>, events: seq<InputEvent>): seq<Report>
    requires st.Valid()
    decreases |events|
  {
    if events == [] then []
    else
      var s := Step(st, enabled, events[0]);
      s.0 + Emit(s.1, enabled, events[1..])
  }

  function After(st: State, enabled: set<nat>, events: seq<InputEvent>): (r: State)
    requires st.Valid()
    ensures r.Valid()
    decreases |events|
  {
    if events == [] then st else After(Step(st, enabled, events[0]).1, enabled, events[1..])
  }

  lemma SynUnfold(st: State, enabled: set<nat>, time: int, j: nat)
    requires st.Valid() && j < NUM_SENSORS
    ensures j !in st.mask ==> Syn(st, enabled, time, j) == Syn(st, enabled, time, j + 1)
    ensures j in st.mask ==>
              var p := st.pending[j].(time := time);
              var tail := Syn(State(st.mask - {j}, st.pending[j := p]), enabled, time, j + 1);
              Syn(st, enabled, time, j) == ((if j in enabled then [Report(j, p)] else []) + tail.0, tail.1)
  {
  }

  lemma SynEnds(st: State, enabled: set<nat>, time: int)
    requires st.Valid()
    ensures Syn(st, enabled, time, NUM_SENSORS) == ([], st)
  {
  }

  /** A whole SYN empties the mask. */
  lemma {:induction false} SynClears(st: State, enabled: set<nat>, time: int, j: nat)
    requires st.Valid() && j <= NUM_SENSORS
    requires forall i | i in st.mask :: i >= j
    ensures Syn(st, enabled, time, j).1.mask == {}
    decreases NUM_SENSORS - j
  {
    if j == NUM_SENSORS {
      assert forall i :: i !in st.mask;
    } else if j !in st.mask {
      SynClears(st, enabled, time, j + 1);
    } else {
      SynClears(State(st.mask - {j}, st.pending[j := st.pending[j].(time := time)]), enabled, time, j + 1);
    }
  }

  /** Sensors no longer pending may be skipped: an interrupted SYN resumes where it stopped. */
  lemma {:induction false} SynSkips(st: State, enabled: set<nat>, time: int, i: nat, j: nat)
    requires st.Valid() && i <= j <= NUM_SENSORS
    requires forall k | k in st.mask :: k >= j
    ensures Syn(st, enabled, time, i) == Syn(st, enabled, time, j)
    decreases j - i
  {
    if i < j {
      SynSkips(st, enabled, time, i + 1, j);
    }
  }

  lemma {:induction false} EmitConcat(st: State, enabled: set<nat>, a: seq<InputEvent>, b: seq<InputEvent>)
    requires st.Valid()
    ensures Emit(st, enabled, a + b) == Emit(st, enabled, a) + Emit(After(st, enabled, a), enabled, b)
    ensures After(st, enabled, a + b) == After(After(st, enabled, a), enabled, b)
    decreases |a|
  {
    if a == [] {
      assert a + b == b;
    } else {
      assert (a + b)[0] == a[0] && (a + b)[1..] == a[1..] + b;
      EmitConcat(Step(st, enabled, a[0]).1, enabled, a[1..], b);
    }
  }

  /** What has come out so far and what the present state will still emit for the events
      left make up the stream for the whole queue. */
  ghost predicate Balanced(enabled: set<nat>, st0: State, queue: seq<InputEvent>,
                           data: seq<Report>, st: State, unread: seq<InputEvent>)
  {
    && st0.Valid() && st.Valid()
    && data + Emit(st, enabled, unread) == Emit(st0, enabled, queue)
    && After(st, enabled, unread) == After(st0, enabled, queue)
  }

  lemma BalancedStart(enabled: set<nat>, st: State, queue: seq<InputEvent>)
    requires st.Valid()
    ensures Balanced(enabled, st, queue, [], st, queue)
  {
    assert [] + Emit(st, enabled, queue) == Emit(st, enabled, queue);
  }

  lemma BalancedEnd(enabled: set<nat>, st0: State, queue: seq<InputEvent>,
                    data: seq<Report>, st: State, unread: seq<InputEvent>)
    requires Balanced(enabled, st0, queue, data, st, unread)
    ensures st0.Valid() && st.Valid()
    ensures data + Emit(st, enabled, unread) == Emit(st0, enabled, queue)
    ensures After(st, enabled, unread) == After(st0, enabled, queue)
  {
  }

  lemma BalancedStep(enabled: set<nat>, st0: State, queue: seq<InputEvent>,
                     data: seq<Report>, st: State, unread: seq<InputEvent>)
    requires unread != [] && Balanced(enabled, st0, queue, data, st, unread)
    ensures var s := Step(st, enabled, unread[0]);
            Balanced(enabled, st0, queue, data + s.0, s.1, unread[1..])
  {
    hide Step;
    var s := Step(st, enabled, unread[0]);
    var rest := Emit(s.1, enabled, unread[1..]);
    assert data + s.0 + rest == data + (s.0 + rest);
  }

  lemma Regroup(data: seq<Report>, out: seq<Report>, rest: seq<Report>, tail: seq<Report>)
    ensures data + out + (rest + tail) == data + ((out + rest) + tail)
  {
  }

  lemma EmitSyn(st: State, enabled: set<nat>, unread: seq<InputEvent>)
    requires st.Valid() && unread != [] && unread[0].typ == EV_SYN
    ensures var s := Syn(st, enabled, unread[0].time, 0);
            && Emit(st, enabled, unread) == s.0 + Emit(s.1, enabled, unread[1..])
            && After(st, enabled, unread) == After(s.1, enabled, unread[1..])
  {
    hide Syn;
  }

  /** Part of a SYN, to be continued later. */
  lemma BalancedPartial(enabled: set<nat>, st0: State, queue: seq<InputEvent>, data: seq<Report>,
                        st: State, unread: seq<InputEvent>, out: seq<Report>, st': State)
    requires unread != [] && unread[0].typ == EV_SYN
    requires Balanced(enabled, st0, queue, data, st, unread)
    requires st'.Valid()
    requires var rest, whole := Syn(st', enabled, unread[0].time, 0), Syn(st, enabled, unread[0].time, 0);
             out + rest.0 == whole.0 && rest.1 == whole.1
    ensures Balanced(enabled, st0, queue, data + out, st', unread)
  {
    hide Syn, Emit, After;
    EmitSyn(st, enabled, unread);
    EmitSyn(st', enabled, unread);
    var rest := Syn(st', enabled, unread[0].time, 0);
    Regroup(data, out, rest.0, Emit(rest.1, enabled, unread[1..]));
  }

  /** One successful call, from the outside: what arrived, how much room there was, what
      came out. */
  datatype Call = Call(arrived: seq<InputEvent>, count: nat, out: seq<Report>)

  datatype Snapshot = Snapshot(st: State, unread: seq<InputEvent>)

  /** What ReadEvents promises of a successful call. */
  ghost predicate Reads(enabled: set<nat>, s: Snapshot, c: Call, s': Snapshot)
    requires s.st.Valid()
  {
    var queue := s.unread + c.arrived;
    && s'.st.Valid()
    && |c.out| <= c.count
    && c.out + Emit(s'.st, enabled, s'.unread) == Emit(s.st, enabled, queue)
    && After(s'.st, enabled, s'.unread) == After(s.st, enabled, queue)
    && (|c.out| < c.count ==> s'.unread == [])
  }

  // ---------------------------------------------------------------------
  // The driver

  class AmiReader {
    var enabled: set<nat>
    var st: State
    const reader: InputEventCircularReader

    ghost predicate Valid()
      reads this, reader, reader.buffer
    {
      reader.Valid() && st.Valid()
    }

    ghost function Unread(): seq<InputEvent>
      requires Valid()
      reads this, reader, reader.buffer
    {
      reader.received[reader.consumed..]
    }

    /** The sensors that the driver has active already, and the readings found for them. */
    constructor (enabled: set<nat>, initial: seq<Sample>)
      requires |initial| == NUM_SENSORS
      ensures Valid() && fresh(reader) && fresh(reader.buffer)
      ensures reader.end == 32 && Unread() == [] && st == State({}, initial) && this.enabled == enabled
    {
      this.enabled := enabled;
      st := State({}, initial);
      reader := new InputEventCircularReader(32);
    }

    /** One call: the oldest events the stream function has for the queue, at most `count`
        of them, leaving a state that emits exactly the others. */
    method ReadEvents(r: ReadOutcome, count: int) returns (n: int, data: seq<Report>)
      requires Valid() && r.Possible(reader.freeSpace)
      modifies this`st, reader, reader.buffer
      ensures Valid() && enabled == old(enabled)
      ensures count < 1 ==> n == -22 && data == [] && Unread() == old(Unread()) && st == old(st)
      ensures count >= 1 && r.Status(old(reader.freeSpace)) < 0 ==>
                n == r.Status(old(reader.freeSpace)) && data == [] && Unread() == old(Unread()) && st == old(st)
      ensures count >= 1 && r.Status(old(reader.freeSpace)) >= 0 ==>
                && n == |data|
                && Reads(enabled, Snapshot(old(st), old(Unread())),
                         Call(r.Taken(old(reader.freeSpace)), count, data), Snapshot(st, Unread()))
    {
      hide Emit, After, ProcessEvent, Balanced, InputEventCircularReader.Valid;
      data := [];
      if count < 1 {
        return -EINVAL, [];
      }
      var left := count;
      n := reader.Fill(r);
      if n < 0 {
        return;
      }
      n := 0;
      ghost var st0, queue := st, Unread();
      assert queue == old(Unread()) + r.Taken(old(reader.freeSpace));
      BalancedStart(enabled, st, queue);
      while left > 0
        invariant Valid() && enabled == old(enabled)
        invariant n == |data| && n + left == count && left >= 0
        invariant Balanced(enabled, st0, queue, data, st, Unread())
        decreases |Unread()|, left
      {
        var slot, available := reader.ReadEvent();
        if !available {
          break;
        }
        var event := reader.buffer[slot];
        ghost var unread := Unread();
        assert unread != [] && unread[0] == event;
        if event.typ == EV_ABS {
          BalancedStep(enabled, st0, queue, data, st, unread);
          st := ProcessEvent(st, event.code, event.value);
          reader.Next();
          assert Unread() == unread[1..] && data + [] == data;
        } else if event.typ == EV_SYN {
          var out := Synchronise(event, left, st0, queue, data);
          data := data + out;
          left := left - |out|;
          n := n + |out|;
        } else {
          BalancedStep(enabled, st0, queue, data, st, unread);
          reader.Next();
          assert Unread() == unread[1..] && data + [] == data;
        }
      }
      BalancedEnd(enabled, st0, queue, data, st, Unread());
    }

    /** The branch for a SYN: its event is passed only once nothing is pending. */
    method Synchronise(event: InputEvent, room: int,
                       ghost st0: State, ghost queue: seq<InputEvent>, ghost data: seq<Report>)
      returns (out: seq<Report>)
      requires Valid() && room > 0
      requires Unread() != [] && Unread()[0] == event && event.typ == EV_SYN
      requires Balanced(enabled, st0, queue, data, st, Unread())
      modifies this`st, reader
      ensures Valid() && enabled == old(enabled) && |out| <= room
      ensures Balanced(enabled, st0, queue, data + out, st, Unread())
      ensures |Unread()| < |old(Unread())| || (Unread() == old(Unread()) && |out| == room)
    {
      hide Emit, After, ProcessEvent, Balanced, InputEventCircularReader.Valid;
      ghost var before, unread := st, Unread();
      out := EmitPending(event.time, room);
      BalancedPartial(enabled, st0, queue, data, before, unread, out, st);
      if st.mask == {} {
        BalancedStep(enabled, st0, queue, data + out, st, unread);
        SynSkips(st, enabled, event.time, 0, NUM_SENSORS);
        reader.Next();
        assert Unread() == unread[1..] && data + out + [] == data + out;
      }
    }

    /** The loop over the sensors at a SYN, which stops when `room` runs out. */
    method EmitPending(time: int, room: int) returns (out: seq<Report>)
      requires st.Valid() && room > 0
      modifies this`st
      ensures st.Valid() && |out| <= room
      ensures st.mask != {} ==> |out| == room
      ensures var rest := Syn(st, enabled, time, 0); var whole := Syn(old(st), enabled, time, 0);
              out + rest.0 == whole.0 && rest.1 == whole.1
    {
      hide Syn;
      out := [];
      var j := 0;
      while |out| < room && st.mask != {} && j < NUM_SENSORS
        invariant st.Valid() && |out| <= room && j <= NUM_SENSORS
        invariant forall i | i in st.mask :: i >= j
        invariant var rest := Syn(st, enabled, time, j); var whole := Syn(old(st), enabled, time, 0);
                  out + rest.0 == whole.0 && rest.1 == whole.1
      {
        SynUnfold(st, enabled, time, j);
        if j in st.mask {
          var p := st.pending[j].(time := time);
          st := State(st.mask - {j}, st.pending[j := p]);
          ghost var tail := Syn(st, enabled, time, j + 1);
          if j in enabled {
            assert out + ([Report(j, p)] + tail.0) == out + [Report(j, p)] + tail.0;
            out := out + [Report(j, p)];
          } else {
            assert [] + tail.0 == tail.0;
          }
        }
        j := j + 1;
      }
      SynSkips(st, enabled, time, 0, j);
      if j == NUM_SENSORS {
        assert forall i :: i !in st.mask;
      }
    }
  }

  // ---------------------------------------------------------------------
  // Any run of calls

  ghost predicate Runs(enabled: set<nat>, s: Snapshot, calls: seq<Call>, states: seq<Snapshot>)
    requires s.st.Valid()
    decreases |calls|
  {
    && |states| == |calls|
    && (calls == []
        || (Reads(enabled, s, calls[0], states[0]) && Runs(enabled, states[0], calls[1..], states[1..])))
  }

  function Outputs(calls: seq<Call>): seq<Report> {
    if calls == [] then [] else calls[0].out + Outputs(calls[1..])
  }

  function Arrivals(calls: seq<Call>): seq<InputEvent> {
    if calls == [] then [] else calls[0].arrived + Arrivals(calls[1..])
  }

  /** A call returns the first `count` events of the stream, or all of them. */
  lemma CallTakesPrefix(enabled: set<nat>, s: Snapshot, c: Call, s': Snapshot)
    requires s.st.Valid() && Reads(enabled, s, c, s')
    ensures var all := Emit(s.st, enabled, s.unread + c.arrived);
            c.out == if c.count <= |all| then all[..c.count] else all
  {
    var rest := Emit(s'.st, enabled, s'.unread);
    if |c.out| < c.count {
      assert rest == [];
    } else {
      assert (c.out + rest)[..c.count] == c.out;
    }
  }

  function Last(s: Snapshot, states: seq<Snapshot>): Snapshot
    decreases |states|
  {
    if states == [] then s else Last(states[0], states[1..])
  }

  /** Chunking invariance: however the output is cut into calls, and however the input
      arrives between them, the events returned followed by those still to come are the
      stream of everything that arrived, and the state ends up the same. */
  lemma {:induction false} ChunkingInvariance(
      enabled: set<nat>, s: Snapshot, calls: seq<Call>, states: seq<Snapshot>)
    requires s.st.Valid() && Runs(enabled, s, calls, states)
    ensures Balanced(enabled, s.st, s.unread + Arrivals(calls),
                     Outputs(calls), Last(s, states).st, Last(s, states).unread)
    decreases |calls|
  {
    hide Balanced, Emit, After;
    if calls == [] {
      assert s.unread + [] == s.unread;
      BalancedStart(enabled, s.st, s.unread);
    } else {
      var c, s' := calls[0], states[0];
      var later := Arrivals(calls[1..]);
      ChunkingInvariance(enabled, s', calls[1..], states[1..]);
      assert s.unread + Arrivals(calls) == s.unread + c.arrived + later;
      BalancedJoin(enabled, s, c, s', later, Outputs(calls[1..]), Last(s', states[1..]));
    }
  }

  /** One call, and then everything that follows it. */
  lemma BalancedJoin(enabled: set<nat>, s: Snapshot, c: Call, s': Snapshot,
                     later: seq<InputEvent>, out: seq<Report>, last: Snapshot)
    requires s.st.Valid() && Reads(enabled, s, c, s')
    requires Balanced(enabled, s'.st, s'.unread + later, out, last.st, last.unread)
    ensures Balanced(enabled, s.st, s.unread + c.arrived + later, c.out + out, last.st, last.unread)
  {
    hide Emit, After;
    EmitConcat(s'.st, enabled, s'.unread, later);
    EmitConcat(s.st, enabled, s.unread + c.arrived, later);
    var tail := Emit(After(s'.st, enabled, s'.unread), enabled, later);
    var final := Emit(last.st, enabled, last.unread);
    assert c.out + out + final == c.out + (out + final);
    assert c.out + (Emit(s'.st, enabled, s'.unread) + tail) == c.out + Emit(s'.st, enabled, s'.unread) + tail;
  }

  /** Two ways of cutting the same arrivals that both drain the queue return the same. */
  lemma DrainedRunsAgree(enabled: set<nat>, s: Snapshot,
                         calls1: seq<Call>, states1: seq<Snapshot>, calls2: seq<Call>, states2: seq<Snapshot>)
    requires s.st.Valid()
    requires Runs(enabled, s, calls1, states1) && Runs(enabled, s, calls2, states2)
    requires Arrivals(calls1) == Arrivals(calls2)
    requires Last(s, states1).unread == Last(s, states2).unread == []
    ensures Outputs(calls1) == Outputs(calls2)
    ensures Last(s, states1) == Last(s, states2)
  {
    ChunkingInvariance(enabled, s, calls1, states1);
    ChunkingInvariance(enabled, s, calls2, states2);
    assert Outputs(calls1) + [] == Outputs(calls1) && Outputs(calls2) + [] == Outputs(calls2);
  }
}
