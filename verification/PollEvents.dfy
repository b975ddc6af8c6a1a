/** sensors_poll_context_t::pollEvents, over the four drivers. */
module PollEvents {
  import opened Basics
  import opened CircularReader
  import opened DeliveredReadings
  import opened Multiplexer
  import opened SensorTypes
  import P = PlainSensors
  import A = AmiEvents

  /** What the constructors of the drivers find: who is enabled, and the current readings. */
  datatype Found = Found(kxtj9On: bool, kxtj9: Sample, lightOn: bool, lightIndex: Option<int>,
                         compassOn: set<nat>, compass: seq<Sample>, dmard06On: bool)

  class PollContext {
    const kxtj9: P.PlainSensor
    const light: P.PlainSensor
    const ami: A.AmiReader
    const dmard06: P.PlainSensor
    var pollin: seq<bool>                // mPollFds[i].revents & POLLIN
    var device: seq<seq<InputEvent>>     // what the kernel holds behind mPollFds[i].fd

    ghost function Footprint(): set<object> {
      {kxtj9, kxtj9.reader, kxtj9.reader.buffer, light, light.reader, light.reader.buffer,
       ami, ami.reader, ami.reader.buffer, dmard06, dmard06.reader, dmard06.reader.buffer}
    }

    ghost predicate Separate() {
      && kxtj9 != light && kxtj9 != dmard06 && light != dmard06
      && kxtj9.reader != light.reader && kxtj9.reader != dmard06.reader && light.reader != dmard06.reader
      && ami.reader != kxtj9.reader && ami.reader != light.reader && ami.reader != dmard06.reader
      && kxtj9.reader.buffer != light.reader.buffer && kxtj9.reader.buffer != dmard06.reader.buffer
      && light.reader.buffer != dmard06.reader.buffer
      && ami.reader.buffer != kxtj9.reader.buffer && ami.reader.buffer != light.reader.buffer
      && ami.reader.buffer != dmard06.reader.buffer
    }

    ghost predicate Wired()
      reads Footprint()
    {
      && Separate()
      && kxtj9.Valid() && light.Valid() && ami.Valid() && dmard06.Valid()
      && kxtj9.kind.Accelerometer? && light.kind == P.Light && dmard06.kind == P.Accelerometer(0)
      && [kxtj9.reader.end, light.reader.end, ami.reader.end, dmard06.reader.end] == CAPACITY
    }

    ghost predicate Valid()
      reads this, Footprint()
    {
      Wired() && |pollin| == |device| == NUM_DRIVERS
    }

    /** mSensors[i], seen from the outside. */
    ghost function Sensor(i: nat): (d: Driver)
      requires Wired() && i < NUM_DRIVERS
      reads Footprint()
      ensures d.Valid()
      ensures d.HasPendingEvents() <==> HasPending(i)
    {
      if i == ACCEL_KXTJ9 then Plain(kxtj9.kind, kxtj9.Snap())
      else if i == LIGHT_CM3212 then Plain(light.kind, light.Snap())
      else if i == COMPASS_AMI30X then Ami(ami.enabled, A.Snapshot(ami.st, ami.Unread()))
      else Plain(dmard06.kind, dmard06.Snap())
    }

    /** Which driver is at which index, and of which kind. */
    lemma Placed()
      requires Wired()
      ensures Sensor(0) == Plain(kxtj9.kind, kxtj9.Snap()) && kxtj9.kind.Accelerometer?
      ensures Sensor(1) == Plain(P.Light, light.Snap())
      ensures Sensor(2) == Ami(ami.enabled, A.Snapshot(ami.st, ami.Unread()))
      ensures Sensor(3) == Plain(P.Accelerometer(0), dmard06.Snap())
    {
    }

    function HasPending(i: nat): bool
      requires i < NUM_DRIVERS
      reads kxtj9, light, dmard06
    {
      if i == ACCEL_KXTJ9 then kxtj9.hasPending
      else if i == LIGHT_CM3212 then light.hasPending
      else if i == COMPASS_AMI30X then false
      else dmard06.hasPending
    }

    ghost function Drivers(): (ds: seq<Driver>)
      requires Wired()
      reads Footprint()
      ensures |ds| == NUM_DRIVERS
      ensures forall i | 0 <= i < NUM_DRIVERS :: ds[i] == Sensor(i)
    {
      [Sensor(0), Sensor(1), Sensor(2), Sensor(3)]
    }

    /** The state of a call, as a state of the machine. */
    ghost function View(taken: seq<seq<InputEvent>>, data: seq<Delivery>, left: nat, round: nat, phase: Phase): (m: Mux)
      requires Valid() && |taken| == NUM_DRIVERS && (phase.Visiting? ==> phase.i < NUM_DRIVERS)
      reads this, Footprint()
      ensures m.Valid()
    {
      Mux(Drivers(), device, pollin, taken, data, left, round, phase)
    }

    /** A light sensor that was enabled before starts with its current value pending. */
    constructor (rotation: int, found: Found, device: seq<seq<InputEvent>>)
      requires |found.compass| == A.NUM_SENSORS && |device| == NUM_DRIVERS
      ensures Valid() && this.device == device
      ensures kxtj9.kind == P.Accelerometer(rotation)
      ensures forall i | 0 <= i < NUM_DRIVERS :: SteadyAt(View([[], [], [], []], [], 0, 0, Begin), i)
      ensures kxtj9.Snap() == P.Snapshot(found.kxtj9On, false, found.kxtj9, [])
      ensures var s := light.Snap();
              && s.enabled == found.lightOn && s.unread == []
              && (s.hasPending <==> found.lightOn && found.lightIndex.Some?)
              && (s.hasPending ==> s.pending.x == P.Lux(found.lightIndex.value))
      ensures ami.Unread() == [] && ami.st == A.State({}, found.compass) && ami.enabled == found.compassOn
      ensures dmard06.Snap() == P.Snapshot(found.dmard06On, false, Sample(0, 0, 0, 0, 0), [])
      ensures pollin == [false, false, false, false]
    {
      hide InputEventCircularReader.Valid, A.State.Valid, SteadyAt, Drivers, P.Lux, P.PlainSensor.Valid,
           P.PlainSensor.Snap, A.AmiReader.Valid, A.AmiReader.Unread;
      kxtj9 := new P.PlainSensor(P.Accelerometer(rotation), 8, found.kxtj9On, found.kxtj9);
      light := new P.PlainSensor.LightSensor(found.lightOn, found.lightIndex);
      ami := new A.AmiReader(found.compassOn, found.compass);
      dmard06 := new P.PlainSensor(P.Accelerometer(0), 8, found.dmard06On, Sample(0, 0, 0, 0, 0));
      pollin := [false, false, false, false];
      this.device := device;
      new;
      EmptyIsSteady();
    }

    lemma EmptyIsSteady()
      requires Valid()
      requires kxtj9.Snap().unread == light.Snap().unread == ami.Unread() == dmard06.Snap().unread == []
      ensures forall i | 0 <= i < NUM_DRIVERS :: SteadyAt(View([[], [], [], []], [], 0, 0, Begin), i)
    {
      hide Wired;
    }

    /** The call of driver i's readEvents, with what a read of its descriptor returns. */
    method CallDriver(i: nat, events: seq<InputEvent>, now: int, count: nat) returns (nb: nat, data: seq<Report>)
      requires Valid() && i < NUM_DRIVERS && count > 0 && |events| <= FreeSpace(i)
      modifies Footprint()
      ensures Valid() && nb == |data|
      ensures Reads(old(Sensor(i)), if old(HasPending(i)) then [] else events, now, count, data, Sensor(i))
      ensures Drivers() == old(Drivers())[i := Sensor(i)]
    {
      hide InputEventCircularReader.Valid, P.Balanced, A.Balanced, A.Emit, A.After;
      var n: int;
      if i == ACCEL_KXTJ9 {
        n, data := kxtj9.ReadEvents(Whole(events), now, count);
      } else if i == LIGHT_CM3212 {
        n, data := light.ReadEvents(Whole(events), now, count);
      } else if i == COMPASS_AMI30X {
        n, data := ami.ReadEvents(Whole(events), count);
      } else {
        n, data := dmard06.ReadEvents(Whole(events), now, count);
      }
      nb := n;
    }

    /** readEvents of driver i. The kernel gives it as much as fits its ring, unless it has an
        event pending and does not ask. */
    method ReadSensor(i: nat, now: int, count: nat) returns (nb: nat, data: seq<Report>)
      requires Valid() && i < NUM_DRIVERS && count > 0
      modifies Footprint(), this`device
      ensures Valid() && nb == |data|
      ensures var taken := Taken(i, old(Sensor(i)), old(device[i]));
              && Reads(old(Sensor(i)), taken, now, count, data, Sensor(i))
              && device == old(device)[i := old(device[i])[|taken|..]]
      ensures Drivers() == old(Drivers())[i := Sensor(i)]
    {
      hide Wired, Sensor, Reads, Prefix, Room;
      RoomIs(i);
      var pending := HasPending(i);
      var events := Prefix(device[i], FreeSpace(i));
      nb, data := CallDriver(i, events, now, count);
      if !pending {
        device := device[i := device[i][|events|..]];
      }
    }

    function FreeSpace(i: nat): nat
      requires i < NUM_DRIVERS
      reads kxtj9.reader, light.reader, ami.reader, dmard06.reader
    {
      if i == ACCEL_KXTJ9 then kxtj9.reader.freeSpace
      else if i == LIGHT_CM3212 then light.reader.freeSpace
      else if i == COMPASS_AMI30X then ami.reader.freeSpace
      else dmard06.reader.freeSpace
    }

    lemma RoomIs(i: nat)
      requires Wired() && i < NUM_DRIVERS
      ensures FreeSpace(i) == Room(i, Sensor(i))
    {
      hide InputEventCircularReader.Valid;
      kxtj9.reader.RoomLeft();
      light.reader.RoomLeft();
      ami.reader.RoomLeft();
      dmard06.reader.RoomLeft();
      assert CAPACITY[0] == kxtj9.reader.end && CAPACITY[1] == light.reader.end;
      assert CAPACITY[2] == ami.reader.end && CAPACITY[3] == dmard06.reader.end;
    }

    /** One visit of the sweep. */
    method Visit(i: nat, now: int, count: nat, data: seq<Delivery>, ghost taken: seq<seq<InputEvent>>, ghost k: nat)
      returns (nb: nat, data': seq<Delivery>, ghost taken': seq<seq<InputEvent>>, ghost out: seq<Report>)
      requires Valid() && i < NUM_DRIVERS && count > 0 && |taken| == NUM_DRIVERS
      requires pollin[i] || HasPending(i)
      modifies Footprint(), this`pollin, this`device
      ensures Valid() && |taken'| == NUM_DRIVERS && nb <= count
      ensures Visited(now, old(View(taken, data, count, k, Visiting(i))), Sensor(i), out,
                      View(taken', data', count - nb, k, Multiplexer.After(i)))
    {
      hide InputEventCircularReader.Valid, P.Balanced, A.Balanced, A.Emit, A.After, Wired, Sensor, Reads, Prefix, Room;
      ghost var before, queue := Sensor(i), device[i];
      var reports;
      nb, reports := ReadSensor(i, now, count);
      ReadBounds(before, Taken(i, before, queue), now, count, reports, Sensor(i));
      if nb < count {
        pollin := pollin[i := false];
      }
      data' := data + Tag(i, reports);
      out := reports;
      taken' := taken[i := taken[i] + Taken(i, before, queue)];
    }

    /** The for loop. */
    method Sweep(rounds: seq<Round>, k: nat, count: nat, data: seq<Delivery>,
                 ghost taken: seq<seq<InputEvent>>, ghost trace: seq<Mux>)
      returns (left: nat, data': seq<Delivery>, ghost taken': seq<seq<InputEvent>>, ghost trace': seq<Mux>)
      requires Valid() && AllValid(rounds) && k < |rounds| && |taken| == NUM_DRIVERS
      requires IsRun(rounds, trace) && trace != []
      requires trace[|trace| - 1] == View(taken, data, count, k, Visiting(0))
      modifies Footprint(), this`pollin, this`device
      ensures Valid() && |taken'| == NUM_DRIVERS
      ensures IsRun(rounds, trace') && |trace'| > 0 && trace'[0] == trace[0]
      ensures trace'[|trace'| - 1] == View(taken', data', left, k, Polling)
    {
      hide InputEventCircularReader.Valid, Wired, Sensor, IsRun, Visited, Reads, Drivers, Mux.Valid;
      left, data', taken', trace' := count, data, taken, trace;
      var i := 0;
      while left > 0 && i < NUM_DRIVERS
        invariant Valid() && |taken'| == NUM_DRIVERS && i <= NUM_DRIVERS
        invariant IsRun(rounds, trace') && |trace'| > 0 && trace'[0] == trace[0]
        invariant trace'[|trace'| - 1] == View(taken', data', left, k, if i < NUM_DRIVERS then Visiting(i) else Polling)
      {
        ghost var m := View(taken', data', left, k, Visiting(i));
        if pollin[i] || HasPending(i) {
          var nb;
          ghost var out;
          nb, data', taken', out := Visit(i, rounds[k].clock[i], left, data', taken', k);
          left := left - nb;
          assert Visited(rounds[k].clock[i], m, Sensor(i), out, View(taken', data', left, k, Multiplexer.After(i)));
        }
        i := i + 1;
        ghost var m' := View(taken', data', left, k, Multiplexer.After(i - 1));
        assert Step(rounds, m, m');
        Extend(rounds, trace', m');
        trace' := trace' + [m'];
      }
      if i < NUM_DRIVERS {
        ghost var m, m' := View(taken', data', left, k, Visiting(i)), View(taken', data', left, k, Polling);
        assert Step(rounds, m, m');
        Extend(rounds, trace', m');
        trace' := trace' + [m'];
      }
    }

    /** The poll, if there is still room, and whether it ends the loop. */
    method Poll(rounds: seq<Round>, k: nat, left: nat, data: seq<Delivery>,
                ghost taken: seq<seq<InputEvent>>, ghost trace: seq<Mux>)
      returns (result: Option<int>, ghost trace': seq<Mux>)
      requires Valid() && AllValid(rounds) && k < |rounds| && |taken| == NUM_DRIVERS
      requires IsRun(rounds, trace) && trace != []
      requires trace[|trace| - 1] == View(taken, data, left, k, Polling)
      modifies this`pollin
      ensures Valid()
      ensures IsRun(rounds, trace') && |trace'| > 0 && trace'[0] == trace[0]
      ensures trace'[|trace'| - 1] == (if result.Some? then View(taken, data, left, k, Done(result.value))
                                       else View(taken, data, left, k + 1, Begin))
    {
      hide Wired, Sensor, IsRun, Drivers, Mux.Valid;
      result := None;
      assert rounds[k].Valid() && this !in Footprint();
      if left == 0 {
        result := Some(|data|);
      } else {
        match rounds[k].poll
        case PollFailed(errno) =>
          result := Some(-errno);
        case Polled(n, ready) =>
          pollin := ready;
          if n == 0 {
            result := Some(|data|);
          }
      }
      trace' := Extended(rounds, trace, if result.Some? then View(taken, data, left, k, Done(result.value))
                                        else View(taken, data, left, k + 1, Begin));
    }

    /** The do-while loop, against an environment that answers as many polls as `rounds` lists;
        when these run out the call is still waiting and `result` is None. The call is a run of
        the machine. So, whatever the state at first: what the kernel held for a driver, and what
        reached it, is what the driver has read, and what the kernel still holds; the driver has
        delivered its pending event, if any, and then what it owed for what it has read, but for
        what it still owes; and one that was steady at first stays so, and when the call ends
        with room left it has delivered its latest readings at every SYN. */
    method PollEvents(rounds: seq<Round>, count: nat)
      returns (result: Option<int>, data: seq<Delivery>, ghost trace: seq<Mux>)
      requires Valid() && AllValid(rounds)
      modifies Footprint(), this`pollin, this`device
      ensures Valid()
      ensures IsRun(rounds, trace) && trace != []
      ensures trace[0] == old(View([[], [], [], []], [], count, 0, Begin))
      ensures var m := trace[|trace| - 1];
              && m.Valid() && m == View(m.taken, data, m.left, m.round, m.phase)
              && result == (if m.phase.Done? then Some(m.phase.result) else None)
              && (result.None? ==> m.phase.Begin? && m.round == |rounds|)
      ensures |data| <= count && (result.Some? && result.value >= 0 ==> result.value == |data|)
      ensures var m := trace[|trace| - 1];
              && (forall i | 0 <= i < NUM_DRIVERS :: Kept(rounds, trace[0], m, i))
              && (forall i | 0 <= i < NUM_DRIVERS && SteadyAt(trace[0], i) :: Calm(m, i))
              && (m.phase.Done? && m.left > 0 ==> forall i | 0 <= i < NUM_DRIVERS :: Delivered(rounds, trace[0], m, i))
    {
      hide InputEventCircularReader.Valid, Wired, Sensor, IsRun, Drivers, Mux.Valid, Kept, Calm, SteadyAt,
           VisitStep, PollStep, Delivered;
      ghost var taken := [[], [], [], []];
      data, result := [], None;
      var left, k := count, 0;
      trace := [View(taken, data, left, k, Begin)];
      StartIsRun(rounds, trace[0]);
      while k < |rounds|
        invariant Valid() && result.None? && k <= |rounds| && |taken| == NUM_DRIVERS
        invariant IsRun(rounds, trace) && |trace| > 0 && trace[0] == old(View([[], [], [], []], [], count, 0, Begin))
        invariant trace[|trace| - 1] == View(taken, data, left, k, Begin)
        decreases |rounds| - k
      {
        device := Arrive(device, rounds[k].arriving);
        ghost var begun := View(taken, data, left, k, Visiting(0));
        Extend(rounds, trace, begun);
        left, data, taken, trace := Sweep(rounds, k, left, data, taken, trace + [begun]);
        result, trace := Poll(rounds, k, left, data, taken, trace);
        if result.Some? {
          break;
        }
        k := k + 1;
      }
      Conclude(rounds, trace);
    }

    lemma StartIsRun(rounds: seq<Round>, m: Mux)
      requires AllValid(rounds) && m.Valid() && m == Start(m.drivers, m.device, m.pollin, m.left)
      ensures IsRun(rounds, [m])
    {
    }

    lemma Conclude(rounds: seq<Round>, trace: seq<Mux>)
      requires AllValid(rounds) && IsRun(rounds, trace)
      ensures trace != [] && trace[0].Valid()
      ensures var m := trace[|trace| - 1];
              && m.Valid() && |m.data| + m.left == trace[0].left
              && (m.phase.Done? && m.phase.result >= 0 ==> m.phase.result == |m.data|)
      ensures var m := trace[|trace| - 1];
              && (forall i | 0 <= i < NUM_DRIVERS :: Kept(rounds, trace[0], m, i))
              && (forall i | 0 <= i < NUM_DRIVERS && SteadyAt(trace[0], i) :: Calm(m, i))
              && (m.phase.Done? && m.left > 0 ==> forall i | 0 <= i < NUM_DRIVERS :: Delivered(rounds, trace[0], m, i))
    {
      hide IsRun, Kept, SteadyAt, Calm, Step, Delivered;
      RunValid(rounds, trace);
      var n := |trace| - 1;
      RunFits(rounds, trace, n);
      forall i | 0 <= i < NUM_DRIVERS
        ensures Kept(rounds, trace[0], trace[n], i)
      {
        RunKeeps(rounds, trace, n, i);
      }
      KeptIsValid(rounds, trace[0], trace[n], 0);
      forall i | 0 <= i < NUM_DRIVERS && SteadyAt(trace[0], i)
        ensures Calm(trace[n], i)
      {
        RunSteady(rounds, trace, n, i);
      }
      if trace[n].phase.Done? && trace[n].left > 0 {
        forall i | 0 <= i < NUM_DRIVERS
          ensures Delivered(rounds, trace[0], trace[n], i)
        {
          CallDelivers(rounds, trace, i);
        }
      }
    }
  }
}
