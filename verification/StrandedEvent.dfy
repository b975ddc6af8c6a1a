/** A light event that pollEvents leaves in its ring with nothing to bring the next visit. */
module StrandedEvent {
  import opened Basics
  import opened Multiplexer
  import opened SensorTypes
  import P = PlainSensors
  import A = AmiEvents

  /** The drivers after the light sensor's setInitialState, which enabling it calls. */
  function Restarted(drivers: seq<Driver>, index: int): (ds: seq<Driver>)
    requires |drivers| == NUM_DRIVERS && drivers[LIGHT_CM3212].Plain?
    ensures |ds| == NUM_DRIVERS
  {
    var d := drivers[LIGHT_CM3212];
    drivers[LIGHT_CM3212 := d.(s := d.s.(hasPending := true, pending := d.s.pending.(x := P.Lux(index))))]
  }

  /** Nothing is read but not delivered, pending, or held by the kernel. */
  predicate Idle(m: Mux)
    requires |m.drivers| == |m.device| == NUM_DRIVERS
  {
    forall i | 0 <= i < NUM_DRIVERS ::
      m.drivers[i].Unread() == [] && !m.drivers[i].HasPendingEvents() && m.device[i] == []
  }

  /** A read event is still in driver i's ring, but neither the kernel nor the driver nor the
      flags tell pollEvents to visit it. */
  ghost predicate Stranded(m: Mux, i: nat)
    requires i < NUM_DRIVERS
  {
    && m.Valid()
    && m.drivers[i].Unread() != [] && !m.drivers[i].HasPendingEvents() && !m.pollin[i]
    && forall j | 0 <= j < NUM_DRIVERS :: m.device[j] == []
  }

  /** Two complete calls, and between them the light sensor is disabled and enabled again, when
      it finds the value `index`. */
  ghost predicate TwoCalls(rounds: seq<Round>, trace: seq<Mux>, index: int, rounds': seq<Round>, trace': seq<Mux>) {
    && AllValid(rounds) && IsRun(rounds, trace) && AllValid(rounds') && IsRun(rounds', trace')
    && trace[|trace| - 1].phase.Done? && trace'[|trace'| - 1].phase.Done?
    && var m := trace[|trace| - 1];
    && |m.drivers| == NUM_DRIVERS && m.drivers[LIGHT_CM3212].Plain?
    && trace'[0] == Start(Restarted(m.drivers, index), m.device, m.pollin, trace'[0].left)
  }

  const Z := Sample(0, 0, 0, 0, 0)
  const KXTJ9: Driver := Plain(P.Accelerometer(0), P.Snapshot(false, false, Z, []))
  const AMI30X: Driver := Ami({}, A.Snapshot(A.State({}, [Z, Z, Z]), []))
  const FIRST := InputEvent(EV_SYN, 0, 0, 1)
  const SECOND := InputEvent(EV_SYN, 0, 0, 2)

  function Light(hasPending: bool, p: Sample, unread: seq<InputEvent>): Driver {
    Plain(P.Light, P.Snapshot(true, hasPending, p, unread))
  }

  /** Only the light sensor does anything. */
  function At(light: Driver, queue: seq<InputEvent>, flag: bool, taken: seq<InputEvent>, data: seq<Delivery>,
              left: nat, round: nat, phase: Phase): Mux
  {
    Mux([KXTJ9, light, AMI30X, KXTJ9], [[], queue, [], []], [false, flag, false, false],
        [[], taken, [], []], data, left, round, phase)
  }

  function Answer(queue: seq<InputEvent>, poll: PollOutcome): Round {
    Round([[], queue, [], []], [5, 5, 5, 5], poll)
  }

  const ROUNDS := [Answer([], Polled(1, [false, true, false, false])),
                   Answer([FIRST, SECOND], Polled(0, [false, false, false, false]))]
  const ROUNDS' := [Answer([], Polled(0, [false, false, false, false]))]

  lemma Skip(rounds: seq<Round>, trace: seq<Mux>) returns (trace': seq<Mux>)
    requires AllValid(rounds) && IsRun(rounds, trace) && trace != []
    requires var m := trace[|trace| - 1];
             m.Valid() && m.phase.Visiting? && m.round < |rounds| && !IsVisited(m)
    ensures IsRun(rounds, trace') && |trace'| > 0 && trace'[0] == trace[0]
    ensures var m := trace[|trace| - 1];
            trace'[|trace'| - 1] == m.(phase := if m.left == 0 then Polling else Multiplexer.After(m.phase.i))
  {
    hide IsRun;
    var m := trace[|trace| - 1];
    trace' := Extended(rounds, trace, m.(phase := if m.left == 0 then Polling else Multiplexer.After(m.phase.i)));
  }

  lemma VisitIsStep(rounds: seq<Round>, m: Mux, d': Driver, out: seq<Report>, m': Mux)
    requires AllValid(rounds) && m.Valid() && m.round < |rounds| && m.phase.Visiting? && IsVisited(m)
    requires Visited(rounds[m.round].clock[m.phase.i], m, d', out, m')
    ensures Step(rounds, m, m')
  {
    hide Visited;
  }

  lemma ArriveLight(more: seq<InputEvent>)
    ensures Arrive([[], [], [], []], [[], more, [], []]) == [[], more, [], []]
  {
    var device := Arrive([[], [], [], []], [[], more, [], []]);
    assert [] + more == more;
    assert device[0] == [] + [] && device[1] == [] + more;
    assert device[2] == [] + [] && device[3] == [] + [];
  }

  /** Waits for the light sensor. */
  lemma FirstRound() returns (trace: seq<Mux>)
    ensures AllValid(ROUNDS) && IsRun(ROUNDS, trace) && |trace| > 0
    ensures trace[0] == At(Light(false, Z, []), [], false, [], [], 1, 0, Begin)
    ensures trace[|trace| - 1] == At(Light(false, Z, []), [], true, [], [], 1, 1, Begin)
  {
    var light := Light(false, Z, []);
    trace := [At(light, [], false, [], [], 1, 0, Begin)];
    ArriveLight([]);
    trace := Extended(ROUNDS, trace, At(light, [], false, [], [], 1, 0, Visiting(0)));
    trace := Skip(ROUNDS, trace);
    trace := Skip(ROUNDS, trace);
    trace := Skip(ROUNDS, trace);
    trace := Skip(ROUNDS, trace);
    trace := Extended(ROUNDS, trace, At(light, [], true, [], [], 1, 1, Begin));
  }

  /** The light sensor's turn with two events waiting and room for one, and what it leaves. */
  const WAITING: Mux := At(Light(false, Z, []), [FIRST, SECOND], true, [], [], 1, 1, Visiting(1))
  const CUT: Mux := At(Light(false, Z.(time := 1), [SECOND]), [], true, [FIRST, SECOND],
                       [Delivery(1, Report(0, Z.(time := 1)))], 0, 1, Visiting(2))

  lemma DeliversFirst()
    ensures AllValid(ROUNDS) && Step(ROUNDS, WAITING, CUT)
  {
    hide P.Emit, Visited;
    FirstIsVisited();
    VisitIsStep(ROUNDS, WAITING, Light(false, Z.(time := 1), [SECOND]), [Report(0, Z.(time := 1))], CUT);
  }

  lemma FirstIsVisited()
    ensures Visited(5, WAITING, Light(false, Z.(time := 1), [SECOND]), [Report(0, Z.(time := 1))], CUT)
  {
    var p, q := Z.(time := 1), Z.(time := 2);
    assert P.Emit(P.Light, true, p, [SECOND]) == [Report(0, q)];
    assert [] + [FIRST, SECOND] == [FIRST, SECOND] && [FIRST, SECOND][1..] == [SECOND];
    assert Reads(Light(false, Z, []), [FIRST, SECOND], 5, 1, [Report(0, p)], Light(false, p, [SECOND]));
  }

  /** Delivers one of the two events it reads. */
  lemma FirstCall() returns (trace: seq<Mux>)
    ensures AllValid(ROUNDS) && IsRun(ROUNDS, trace) && |trace| > 0
    ensures trace[0] == At(Light(false, Z, []), [], false, [], [], 1, 0, Begin)
    ensures trace[|trace| - 1] == CUT.(phase := Done(1))
  {
    hide IsRun, VisitStep, P.Emit;
    var light := Light(false, Z, []);
    trace := FirstRound();
    ArriveLight([FIRST, SECOND]);
    trace := Extended(ROUNDS, trace, At(light, [FIRST, SECOND], true, [], [], 1, 1, Visiting(0)));
    trace := Skip(ROUNDS, trace);
    DeliversFirst();
    trace := Extended(ROUNDS, trace, CUT);
    trace := Skip(ROUNDS, trace);
    trace := Extended(ROUNDS, trace, CUT.(phase := Done(1)));
  }

  function Enabled(p: Sample, unread: seq<InputEvent>): Mux {
    At(Light(true, p, unread), [], true, [], [], 8, 0, Visiting(1))
  }

  function Shortened(p: Sample, unread: seq<InputEvent>): Mux {
    var q := p.(time := 5);
    At(Light(false, q, unread), [], false, [], [Delivery(1, Report(0, q))], 7, 0, Visiting(2))
  }

  lemma DeliversPending(p: Sample, unread: seq<InputEvent>)
    ensures AllValid(ROUNDS') && Step(ROUNDS', Enabled(p, unread), Shortened(p, unread))
  {
    hide P.Emit, Visited;
    PendingIsVisited(p, unread);
    var q := p.(time := 5);
    VisitIsStep(ROUNDS', Enabled(p, unread), Light(false, q, unread), [Report(0, q)], Shortened(p, unread));
  }

  lemma PendingIsVisited(p: Sample, unread: seq<InputEvent>)
    ensures var q := p.(time := 5);
            Visited(5, Enabled(p, unread), Light(false, q, unread), [Report(0, q)], Shortened(p, unread))
  {
    var q := p.(time := 5);
    assert [] + Tag(1, [Report(0, q)]) == [Delivery(1, Report(0, q))];
    var none: seq<seq<InputEvent>> := [[], [], [], []];
    assert none[1] + [] == none[1] == none[1][0..];
    assert none[1 := none[1]] == none;
  }

  /** Delivers the pending event, which clears the flag. */
  lemma SecondCall(p: Sample, unread: seq<InputEvent>) returns (trace: seq<Mux>)
    ensures AllValid(ROUNDS') && IsRun(ROUNDS', trace) && |trace| > 0
    ensures trace[0] == At(Light(true, p, unread), [], true, [], [], 8, 0, Begin)
    ensures trace[|trace| - 1] == Shortened(p, unread).(phase := Done(1))
  {
    hide Visited;
    var light := Light(true, p, unread);
    trace := [At(light, [], true, [], [], 8, 0, Begin)];
    ArriveLight([]);
    trace := Extended(ROUNDS', trace, At(light, [], true, [], [], 8, 0, Visiting(0)));
    trace := Skip(ROUNDS', trace);
    DeliversPending(p, unread);
    trace := Extended(ROUNDS', trace, Shortened(p, unread));
    trace := Skip(ROUNDS', trace);
    trace := Skip(ROUNDS', trace);
    trace := Extended(ROUNDS', trace, Shortened(p, unread).(phase := Done(1)));
  }

  /** Two calls from an idle state that strand an event: the first has room for one of the two
      light events it reads; the second finds the sensor enabled again, delivers the pending
      event, has room left, and clears the flag of the ring that still holds the other. */
  lemma ShortcutStrands()
    ensures exists rounds, trace, index, rounds', trace' ::
              && TwoCalls(rounds, trace, index, rounds', trace')
              && Idle(trace[0]) && Stranded(trace'[|trace'| - 1], LIGHT_CM3212)
  {
    hide IsRun;
    var trace := FirstCall();
    var p := Z.(time := 1);
    var trace' := SecondCall(p.(x := P.Lux(0)), [SECOND]);
    assert TwoCalls(ROUNDS, trace, 0, ROUNDS', trace');
    assert Idle(trace[0]) && Stranded(trace'[|trace'| - 1], LIGHT_CM3212);
  }
}
