/** KionixSensor and LightSensor. Their readEvents loops differ only in what an EV_ABS
    event does to the pending event; both start with a shortcut that delivers an event
    pending since the sensor was enabled without looking at the input queue. */
module PlainSensors {
  import opened Basics
  import opened CircularReader
  import opened SensorTypes

  const CODE_ACCEL_X := 1
  const CODE_ACCEL_Y := 0
  const CODE_ACCEL_Z := 2
  const CODE_LIGHT := 40

  datatype Kind = Accelerometer(rotation: int) | Light

  const LUX_VALUES := [10, 160, 225, 320, 640, 1280, 2600, 10240]

  /** indexToValue; an index that is negative before its conversion to unsigned is too large. */
  function Lux(index: int): int {
    if 0 <= index < |LUX_VALUES| then LUX_VALUES[index] else LUX_VALUES[|LUX_VALUES| - 1]
  }

  /** Brighter light has a higher index, from 10 lux to 10240; an index out of range counts as
      the brightest. */
  lemma LuxAscends(i: int, j: int)
    ensures Lux(0) == 10 && Lux(1) == 160 && Lux(2) == 225 && Lux(3) == 320
    ensures Lux(4) == 640 && Lux(5) == 1280 && Lux(6) == 2600 && Lux(7) == 10240
    ensures 0 <= i < j <= 7 ==> Lux(i) < Lux(j)
    ensures i < 0 || i >= 7 ==> Lux(i) == 10240
  {
    assert 0 <= i <= 7 ==> i == 0 || i == 1 || i == 2 || i == 3 || i == 4 || i == 5 || i == 6 || i == 7;
  }

  /** The EV_ABS switch. The light sensor drops the readings of -1 it sometimes gets. */
  function Absorb(kind: Kind, p: Sample, code: int, value: int): Sample {
    match kind
    case Accelerometer(rotation) =>
      if code == CODE_ACCEL_X then
        if rotation == 270 then p.(y := -value) else p.(x := value)
      else if code == CODE_ACCEL_Y then
        if rotation == 270 then p.(x := value) else p.(y := value)
      else if code == CODE_ACCEL_Z then p.(z := value)
      else p
    case Light =>
      if code == CODE_LIGHT && value != -1 then p.(x := value) else p
  }

  // ---------------------------------------------------------------------
  // The stream function

  function Step(kind: Kind, enabled: bool, p: Sample, e: InputEvent): (seq<Report>, Sample) {
    if e.typ == EV_ABS then ([], Absorb(kind, p, e.code, e.value))
    else if e.typ == EV_SYN then
      var q := p.(time := e.time);
      (if enabled then [Report(0, q)] else [], q)
    else ([], p)
  }

  function Emit(kind: Kind, enabled: bool, p: Sample, events: seq<InputEvent>): seq<Report>
    decreases |events|
  {
    if events == [] then []
    else
      var s := Step(kind, enabled, p, events[0]);
      s.0 + Emit(kind, enabled, s.1, events[1..])
  }

  function After(kind: Kind, enabled: bool, p: Sample, events: seq<InputEvent>): Sample
    decreases |events|
  {
    if events == [] then p
    else After(kind, enabled, Step(kind, enabled, p, events[0]).1, events[1..])
  }

  lemma {:induction false} EmitConcat(kind: Kind, enabled: bool, p: Sample, a: seq<InputEvent>, b: seq<InputEvent>)
    ensures Emit(kind, enabled, p, a + b)
         == Emit(kind, enabled, p, a) + Emit(kind, enabled, After(kind, enabled, p, a), b)
    ensures After(kind, enabled, p, a + b) == After(kind, enabled, After(kind, enabled, p, a), b)
    decreases |a|
  {
    if a == [] {
      assert a + b == b;
    } else {
      assert (a + b)[0] == a[0] && (a + b)[1..] == a[1..] + b;
      EmitConcat(kind, enabled, Step(kind, enabled, p, a[0]).1, a[1..], b);
    }
  }

  lemma {:induction false} DisabledIsSilent(kind: Kind, p: Sample, events: seq<InputEvent>)
    ensures Emit(kind, false, p, events) == []
    decreases |events|
  {
    if events != [] {
      DisabledIsSilent(kind, Step(kind, false, p, events[0]).1, events[1..]);
    }
  }

  /** What has come out and what the rest of the queue will give make up the stream. */
  ghost predicate Balanced(kind: Kind, enabled: bool, p0: Sample, queue: seq<InputEvent>,
                           data: seq<Report>, p: Sample, unread: seq<InputEvent>)
  {
    && data + Emit(kind, enabled, p, unread) == Emit(kind, enabled, p0, queue)
    && After(kind, enabled, p, unread) == After(kind, enabled, p0, queue)
  }

  lemma BalancedStart(kind: Kind, enabled: bool, p: Sample, queue: seq<InputEvent>)
    ensures Balanced(kind, enabled, p, queue, [], p, queue)
  {
    assert [] + Emit(kind, enabled, p, queue) == Emit(kind, enabled, p, queue);
  }

  lemma BalancedStep(kind: Kind, enabled: bool, p0: Sample, queue: seq<InputEvent>,
                     data: seq<Report>, p: Sample, unread: seq<InputEvent>)
    requires unread != [] && Balanced(kind, enabled, p0, queue, data, p, unread)
    ensures var s := Step(kind, enabled, p, unread[0]);
            Balanced(kind, enabled, p0, queue, data + s.0, s.1, unread[1..])
  {
    hide Step;
    var s := Step(kind, enabled, p, unread[0]);
    var rest := Emit(kind, enabled, s.1, unread[1..]);
    assert data + s.0 + rest == data + (s.0 + rest);
  }

  // ---------------------------------------------------------------------
  // The driver

  /** A sensor's state between calls. */
  datatype Snapshot = Snapshot(enabled: bool, hasPending: bool, pending: Sample, unread: seq<InputEvent>)

  /** A successful call that found no event pending since enable. */
  ghost predicate Drains(kind: Kind, s: Snapshot, arrived: seq<InputEvent>, count: nat,
                         out: seq<Report>, s': Snapshot)
  {
    && !s'.hasPending && s'.enabled == s.enabled
    && |out| <= count
    && Balanced(kind, s.enabled, s.pending, s.unread + arrived, out, s'.pending, s'.unread)
    && (|out| < count ==> s'.unread == [])
  }

  /** A call that found one: it delivers it, if the sensor is enabled, and nothing else. */
  ghost predicate Shortcuts(s: Snapshot, now: int, out: seq<Report>, s': Snapshot) {
    && s' == s.(hasPending := false, pending := s.pending.(time := now))
    && out == if s.enabled then [Report(0, s'.pending)] else []
  }

  class PlainSensor {
    const kind: Kind
    var enabled: bool
    var hasPending: bool
    var pending: Sample
    const reader: InputEventCircularReader

    ghost predicate Valid()
      reads this, reader, reader.buffer
    {
      reader.Valid()
    }

    ghost function Snap(): Snapshot
      requires Valid()
      reads this, reader, reader.buffer
    {
      Snapshot(enabled, hasPending, pending, reader.received[reader.consumed..])
    }

    /** The device may have been enabled before; an accelerometer then starts from the
        readings it finds. */
    constructor (kind: Kind, numEvents: nat, enabled: bool, initial: Sample)
      ensures Valid() && fresh(reader) && fresh(reader.buffer)
      ensures this.kind == kind && reader.end == numEvents
      ensures Snap() == Snapshot(enabled, false, initial, [])
    {
      this.kind := kind;
      this.enabled, hasPending := enabled, false;
      pending := initial;
      reader := new InputEventCircularReader(numEvents);
    }

    /** The light sensor: one that was enabled before has its current value pending, if it can
        be read. */
    constructor LightSensor(enabled: bool, index: Option<int>)
      ensures Valid() && fresh(reader) && fresh(reader.buffer)
      ensures kind == Light && reader.end == 4
      ensures Snap() == Snapshot(enabled, enabled && index.Some?,
                                 Sample(if enabled && index.Some? then Lux(index.value) else 0, 0, 0, 0, 0), [])
    {
      this.kind := Light;
      this.enabled, hasPending := enabled, false;
      pending := Sample(0, 0, 0, 0, 0);
      reader := new InputEventCircularReader(4);
      new;
      if enabled && index.Some? {
        SetInitialState(index.value);
      }
    }

    /** The light sensor's setInitialState, when enabling it finds a current value. */
    method SetInitialState(index: int)
      requires Valid()
      modifies this`pending, this`hasPending
      ensures Valid()
      ensures Snap() == old(Snap()).(hasPending := true, pending := old(pending).(x := Lux(index)))
    {
      pending := pending.(x := Lux(index));
      hasPending := true;
    }

    method ReadEvents(r: ReadOutcome, now: int, count: int) returns (n: int, data: seq<Report>)
      requires Valid() && r.Possible(reader.freeSpace)
      modifies this`hasPending, this`pending, reader, reader.buffer
      ensures Valid()
      ensures count < 1 ==> n == -22 && data == [] && Snap() == old(Snap())
      ensures count >= 1 && old(hasPending) ==> n == |data| && Shortcuts(old(Snap()), now, data, Snap())
      ensures count >= 1 && !old(hasPending) && r.Status(old(reader.freeSpace)) < 0 ==>
                n == r.Status(old(reader.freeSpace)) && data == [] && Snap() == old(Snap())
      ensures count >= 1 && !old(hasPending) && r.Status(old(reader.freeSpace)) >= 0 ==>
                && n == |data|
                && Drains(kind, old(Snap()), r.Taken(old(reader.freeSpace)), count, data, Snap())
    {
      hide Balanced, Absorb, InputEventCircularReader.Valid;
      data := [];
      if count < 1 {
        return -EINVAL, [];
      }
      if hasPending {
        hasPending := false;
        pending := pending.(time := now);
        if enabled {
          return 1, [Report(0, pending)];
        } else {
          return 0, [];
        }
      }
      n := reader.Fill(r);
      if n < 0 {
        return;
      }
      n := 0;
      var left := count;
      ghost var p0, queue := pending, reader.received[reader.consumed..];
      assert queue == old(Snap()).unread + r.Taken(old(reader.freeSpace));
      BalancedStart(kind, enabled, pending, queue);
      while left > 0
        invariant Valid() && enabled == old(enabled) && !hasPending
        invariant n == |data| && n + left == count && left >= 0
        invariant Balanced(kind, enabled, p0, queue, data, pending, Snap().unread)
        decreases |Snap().unread|
      {
        var slot, available := reader.ReadEvent();
        if !available {
          break;
        }
        var event := reader.buffer[slot];
        ghost var unread := Snap().unread;
        assert unread[0] == event;
        BalancedStep(kind, enabled, p0, queue, data, pending, unread);
        if event.typ == EV_ABS {
          pending := Absorb(kind, pending, event.code, event.value);
          assert data + [] == data;
        } else if event.typ == EV_SYN {
          pending := pending.(time := event.time);
          if enabled {
            data := data + [Report(0, pending)];
            left := left - 1;
            n := n + 1;
          } else {
            assert data + [] == data;
          }
        } else {
          assert data + [] == data;
        }
        reader.Next();
        assert Snap().unread == unread[1..];
      }
    }
  }

  /** What one unbounded call would return, from the stream function. */
  lemma DrainTakesPrefix(kind: Kind, s: Snapshot, arrived: seq<InputEvent>, count: nat,
                         out: seq<Report>, s': Snapshot)
    requires Drains(kind, s, arrived, count, out, s')
    ensures var all := Emit(kind, s.enabled, s.pending, s.unread + arrived);
            out == if count <= |all| then all[..count] else all
  {
    var all := Emit(kind, s.enabled, s.pending, s.unread + arrived);
    if |out| < count {
      assert out + [] == out;
    } else {
      assert (out + Emit(kind, s.enabled, s'.pending, s'.unread))[..count] == out;
    }
  }
}
