/** pollEvents as a state machine: four sensor drivers multiplexed into one bounded output
    buffer, with the queues the kernel holds for them and the answers of poll. */
module Multiplexer {
  import opened Basics
  import opened SensorTypes
  import P = PlainSensors
  import A = AmiEvents

  const NUM_DRIVERS := 4
  const ACCEL_KXTJ9 := 0
  const LIGHT_CM3212 := 1
  const COMPASS_AMI30X := 2

  /** The sizes of the drivers' rings. */
  const CAPACITY: seq<nat> := [8, 4, 32, 8]

  // ---------------------------------------------------------------------
  // A driver behind the SensorBase interface

  /** The state of a driver between two calls. */
  datatype Driver =
    | Plain(kind: P.Kind, s: P.Snapshot)
    | Ami(enabled: set<nat>, t: A.Snapshot)
  {
    function Unread(): seq<InputEvent> {
      if Plain? then s.unread else t.unread
    }

    predicate HasPendingEvents() {
      Plain? && s.hasPending
    }

    /** After the pending event is taken, and what that gives. */
    function Shortcut(now: int): (Driver, seq<Report>)
      requires HasPendingEvents()
    {
      var p := s.pending.(time := now);
      (Plain(kind, s.(hasPending := false, pending := p)), if s.enabled then [Report(0, p)] else [])
    }

    ghost predicate Valid() {
      Ami? ==> t.st.Valid()
    }

    /** All it would report, pending event aside, if it got these events and had room. */
    function Stream(more: seq<InputEvent>): seq<Report>
      requires Ami? ==> t.st.Valid()
    {
      match this
      case Plain(kind, s) => P.Emit(kind, s.enabled, s.pending, s.unread + more)
      case Ami(enabled, t) => A.Emit(t.st, enabled, t.unread + more)
    }
  }

  /** A readEvents call with a non-negative result. */
  ghost predicate Reads(d: Driver, arrived: seq<InputEvent>, now: int, count: nat, out: seq<Report>, d': Driver) {
    match d
    case Plain(kind, s) =>
      && d'.Plain? && d'.kind == kind
      && if s.hasPending then P.Shortcuts(s, now, out, d'.s)
         else P.Drains(kind, s, arrived, count, out, d'.s)
    case Ami(enabled, t) =>
      && d'.Ami? && d'.enabled == enabled && t.st.Valid()
      && A.Reads(enabled, t, A.Call(arrived, count, out), d'.t)
  }

  /** The events delivered so far, followed by those the driver still has, are the stream
      of the queue it started with and everything that arrived since. */
  ghost predicate Conserved(d0: Driver, arrived: seq<InputEvent>, out: seq<Report>, d: Driver) {
    match d0
    case Plain(kind, s) =>
      && d.Plain? && d.kind == kind && d.s.enabled == s.enabled && !s.hasPending && !d.s.hasPending
      && P.Balanced(kind, s.enabled, s.pending, s.unread + arrived, out, d.s.pending, d.s.unread)
    case Ami(enabled, t) =>
      && d.Ami? && d.enabled == enabled
      && A.Balanced(enabled, t.st, t.unread + arrived, out, d.t.st, d.t.unread)
  }

  lemma ConservedStart(d: Driver)
    requires d.Valid() && !d.HasPendingEvents()
    ensures Conserved(d, [], [], d)
  {
    assert d.Unread() + [] == d.Unread();
    match d
    case Plain(kind, s) => P.BalancedStart(kind, s.enabled, s.pending, s.unread);
    case Ami(enabled, t) => A.BalancedStart(enabled, t.st, t.unread);
  }

  /** Conservation survives every call. */
  lemma ConservedStep(d0: Driver, arrived: seq<InputEvent>, out: seq<Report>, d: Driver,
                      more: seq<InputEvent>, now: int, count: nat, got: seq<Report>, d': Driver)
    requires Conserved(d0, arrived, out, d)
    requires Reads(d, more, now, count, got, d')
    ensures Conserved(d0, arrived + more, out + got, d')
  {
    assert d0.Unread() + (arrived + more) == d0.Unread() + arrived + more;
    match d0
    case Plain(kind, s) =>
      PlainJoin(kind, s.enabled, s.pending, s.unread + arrived, out, d.s, more, got, d'.s);
    case Ami(enabled, t) =>
      AmiJoin(enabled, t.st, t.unread + arrived, out, d.t, more, got, d'.t);
  }

  /** The account of a driver that had an event pending at first: that event comes first, with
      the time of the driver's first visit, and from then on events are conserved. */
  ghost predicate AccountedFrom(d0: Driver, now: int, arrived: seq<InputEvent>, out: seq<Report>, d: Driver)
    requires d0.HasPendingEvents()
  {
    var first := d0.Shortcut(now);
    && first.1 <= out
    && Conserved(first.0, arrived, out[|first.1|..], d)
  }

  /** Conservation for every driver, with an event pending or not. */
  ghost predicate Accounted(d0: Driver, now: int, arrived: seq<InputEvent>, out: seq<Report>, d: Driver) {
    if !d0.HasPendingEvents() then Conserved(d0, arrived, out, d)
    else if d.HasPendingEvents() then d == d0 && arrived == [] && out == []
    else AccountedFrom(d0, now, arrived, out, d)
  }

  lemma AccountedStart(d: Driver, now: int)
    requires d.Valid()
    ensures Accounted(d, now, [], [], d)
  {
    if !d.HasPendingEvents() {
      ConservedStart(d);
    }
  }

  /** A driver with an event pending does not look at its input. */
  lemma AccountedStep(d0: Driver, first: int, arrived: seq<InputEvent>, out: seq<Report>, d: Driver,
                      more: seq<InputEvent>, now: int, count: nat, got: seq<Report>, d': Driver)
    requires Accounted(d0, first, arrived, out, d) && Reads(d, more, now, count, got, d')
    requires d.HasPendingEvents() ==> more == [] && now == first
    ensures Accounted(d0, first, arrived + more, out + got, d')
  {
    hide P.Balanced, A.Balanced, P.Emit, P.After, A.Emit, A.After;
    if !d0.HasPendingEvents() {
      ConservedStep(d0, arrived, out, d, more, now, count, got, d');
    } else if d.HasPendingEvents() {
      ShortcutAccounted(d0, now, count, got, d');
      assert [] + got == got && arrived + more == [];
    } else {
      var shortcut := d0.Shortcut(first);
      ConservedStep(shortcut.0, arrived, out[|shortcut.1|..], d, more, now, count, got, d');
      assert (out + got)[|shortcut.1|..] == out[|shortcut.1|..] + got;
    }
  }

  lemma ShortcutAccounted(d: Driver, now: int, count: nat, got: seq<Report>, d': Driver)
    requires d.HasPendingEvents() && Reads(d, [], now, count, got, d')
    ensures AccountedFrom(d, now, [], got, d') && !d'.HasPendingEvents()
  {
    var first := d.Shortcut(now);
    assert d' == first.0 && got == first.1;
    ConservedStart(d');
    assert got[|first.1|..] == [];
  }

  lemma PlainJoin(kind: P.Kind, enabled: bool, p0: Sample, queue: seq<InputEvent>, out: seq<Report>,
                  s: P.Snapshot, more: seq<InputEvent>, got: seq<Report>, s': P.Snapshot)
    requires P.Balanced(kind, enabled, p0, queue, out, s.pending, s.unread)
    requires P.Balanced(kind, enabled, s.pending, s.unread + more, got, s'.pending, s'.unread)
    ensures P.Balanced(kind, enabled, p0, queue + more, out + got, s'.pending, s'.unread)
  {
    hide P.Emit, P.After;
    P.EmitConcat(kind, enabled, p0, queue, more);
    P.EmitConcat(kind, enabled, s.pending, s.unread, more);
    Reassociate(out, got, P.Emit(kind, enabled, s'.pending, s'.unread),
                P.Emit(kind, enabled, s.pending, s.unread),
                P.Emit(kind, enabled, P.After(kind, enabled, s.pending, s.unread), more));
  }

  lemma AmiJoin(enabled: set<nat>, st0: A.State, queue: seq<InputEvent>, out: seq<Report>,
                s: A.Snapshot, more: seq<InputEvent>, got: seq<Report>, s': A.Snapshot)
    requires A.Balanced(enabled, st0, queue, out, s.st, s.unread)
    requires A.Balanced(enabled, s.st, s.unread + more, got, s'.st, s'.unread)
    ensures A.Balanced(enabled, st0, queue + more, out + got, s'.st, s'.unread)
  {
    hide A.Emit, A.After;
    A.EmitConcat(st0, enabled, queue, more);
    A.EmitConcat(s.st, enabled, s.unread, more);
    Reassociate(out, got, A.Emit(s'.st, enabled, s'.unread),
                A.Emit(s.st, enabled, s.unread),
                A.Emit(A.After(s.st, enabled, s.unread), enabled, more));
  }

  lemma Reassociate(out: seq<Report>, got: seq<Report>, rest: seq<Report>, a: seq<Report>, b: seq<Report>)
    requires got + rest == a + b
    ensures out + got + rest == out + a + b
  {
    assert out + got + rest == out + (got + rest);
    assert out + (a + b) == out + a + b;
  }

  lemma ReadBounds(d: Driver, arrived: seq<InputEvent>, now: int, count: nat, out: seq<Report>, d': Driver)
    requires count > 0 && Reads(d, arrived, now, count, out, d')
    ensures |out| <= count && !d'.HasPendingEvents()
  {
  }

  /** When a visit leaves events behind without the flag that would bring the next visit:
      exactly when it finds an event pending on top of a non-empty queue, and has room for
      more than the one event, or the sensor is disabled and gives none. */
  lemma VisitStrandsIff(d: Driver, arrived: seq<InputEvent>, now: int, count: nat,
                        out: seq<Report>, d': Driver, pollin: bool)
    requires count > 0
    requires pollin || d.HasPendingEvents()
    requires d.Unread() != [] ==> pollin
    requires Reads(d, arrived, now, count, out, d')
    ensures |out| <= count && !d'.HasPendingEvents()
    ensures var pollin' := pollin && |out| >= count;
            (d'.Unread() != [] && !pollin')
            <==> (d.HasPendingEvents() && d.Unread() != [] && (count > 1 || !d.s.enabled))
  {
  }

  // ---------------------------------------------------------------------
  // The state machine

  function Prefix<T>(s: seq<T>, n: nat): (r: seq<T>)
    ensures r <= s && |r| == if |s| <= n then |s| else n
  {
    if |s| <= n then s else s[..n]
  }

  /** An event delivered to the framework, with the driver it came from. */
  datatype Delivery = Delivery(driver: nat, report: Report)

  function Tag(i: nat, out: seq<Report>): (r: seq<Delivery>)
    ensures |r| == |out|
  {
    seq(|out|, k requires 0 <= k < |out| => Delivery(i, out[k]))
  }

  /** What driver i contributed to a delivered sequence. */
  function From(i: nat, data: seq<Delivery>): seq<Report> {
    if data == [] then []
    else
      var front, last := data[..|data| - 1], data[|data| - 1];
      From(i, front) + if last.driver == i then [last.report] else []
  }

  lemma {:induction false} FromTag(i: nat, data: seq<Delivery>, j: nat, out: seq<Report>)
    ensures From(i, data + Tag(j, out)) == if i == j then From(i, data) + out else From(i, data)
    decreases |out|
  {
    var all := data + Tag(j, out);
    if out == [] {
      assert all == data;
      assert From(i, data) + [] == From(i, data);
    } else {
      var front, last := out[..|out| - 1], out[|out| - 1];
      assert all[..|all| - 1] == data + Tag(j, front);
      assert all[|all| - 1] == Delivery(j, last);
      FromTag(i, data, j, front);
      assert From(i, data) + front + [last] == From(i, data) + (front + [last]);
      assert front + [last] == out;
      assert From(i, data) + [] == From(i, data);
    }
  }

  /** What poll may report; a positive result means that some descriptor is ready. */
  datatype PollOutcome = PollFailed(errno: int) | Polled(n: nat, ready: seq<bool>)

  /** What the environment does in one round of the loop: the events that reach each input
      device before its driver's visit, the clock at each visit, and the answer of poll. */
  datatype Round = Round(arriving: seq<seq<InputEvent>>, clock: seq<int>, poll: PollOutcome) {
    predicate Valid() {
      && |arriving| == NUM_DRIVERS && |clock| == NUM_DRIVERS
      && match poll
         case PollFailed(errno) => errno > 0
         case Polled(n, ready) => |ready| == NUM_DRIVERS && (n == 0 ==> forall i | 0 <= i < |ready| :: !ready[i])
    }
  }

  predicate AllValid(rounds: seq<Round>) {
    forall k | 0 <= k < |rounds| :: rounds[k].Valid()
  }

  datatype Phase = Begin | Visiting(i: nat) | Polling | Done(result: int)

  /** The drivers, what the kernel holds for each, the POLLIN flags, what each driver has read
      so far, the output and the room left in it. */
  datatype Mux = Mux(drivers: seq<Driver>, device: seq<seq<InputEvent>>, pollin: seq<bool>,
                     taken: seq<seq<InputEvent>>, data: seq<Delivery>, left: nat, round: nat, phase: Phase)
  {
    ghost predicate Valid() {
      && |drivers| == |device| == |pollin| == |taken| == NUM_DRIVERS
      && (phase.Visiting? ==> phase.i < NUM_DRIVERS)
      && forall i | 0 <= i < NUM_DRIVERS :: drivers[i].Valid()
    }
  }

  function Room(i: nat, d: Driver): nat
    requires i < NUM_DRIVERS
  {
    if |d.Unread()| <= CAPACITY[i] then CAPACITY[i] - |d.Unread()| else 0
  }

  /** What a visit reads from the kernel: as much as fits, and nothing with an event pending. */
  function Taken(i: nat, d: Driver, queue: seq<InputEvent>): (taken: seq<InputEvent>)
    requires i < NUM_DRIVERS
    ensures taken <= queue
  {
    if d.HasPendingEvents() then [] else Prefix(queue, Room(i, d))
  }

  function Arrive(device: seq<seq<InputEvent>>, arriving: seq<seq<InputEvent>>): (r: seq<seq<InputEvent>>)
    requires |device| == |arriving| == NUM_DRIVERS
    ensures |r| == NUM_DRIVERS
  {
    seq(NUM_DRIVERS, i requires 0 <= i < NUM_DRIVERS => device[i] + arriving[i])
  }

  function After(i: nat): Phase {
    if i + 1 < NUM_DRIVERS then Visiting(i + 1) else Polling
  }

  /** A readEvents call of driver i, and what the loop makes of it. */
  ghost predicate Visited(now: int, m: Mux, d': Driver, out: seq<Report>, m': Mux)
    requires m.Valid() && m.phase.Visiting?
  {
    var i := m.phase.i;
    var taken := Taken(i, m.drivers[i], m.device[i]);
    && Reads(m.drivers[i], taken, now, m.left, out, d') && d'.Valid() && |out| <= m.left
    && m' == m.(drivers := m.drivers[i := d'],
                device := m.device[i := m.device[i][|taken|..]],
                pollin := if |out| < m.left then m.pollin[i := false] else m.pollin,
                taken := m.taken[i := m.taken[i] + taken],
                data := m.data + Tag(i, out),
                left := m.left - |out|,
                phase := After(i))
  }

  predicate IsVisited(m: Mux)
    requires |m.pollin| == |m.drivers| == NUM_DRIVERS && m.phase.Visiting? && m.phase.i < NUM_DRIVERS
  {
    m.left > 0 && (m.pollin[m.phase.i] || m.drivers[m.phase.i].HasPendingEvents())
  }

  ghost predicate VisitStep(round: Round, m: Mux, m': Mux)
    requires round.Valid() && m.Valid() && m.phase.Visiting?
  {
    if m.left == 0 then m' == m.(phase := Polling)
    else if !IsVisited(m) then m' == m.(phase := After(m.phase.i))
    else exists d', out :: Visited(round.clock[m.phase.i], m, d', out, m')
  }

  predicate PollStep(round: Round, m: Mux, m': Mux)
    requires round.Valid()
  {
    if m.left == 0 then m' == m.(phase := Done(|m.data|))
    else
      match round.poll
      case PollFailed(errno) => m' == m.(phase := Done(-errno))
      case Polled(n, ready) =>
        if n == 0 then m' == m.(pollin := ready, phase := Done(|m.data|))
        else m' == m.(pollin := ready, phase := Begin, round := m.round + 1)
  }

  ghost predicate Step(rounds: seq<Round>, m: Mux, m': Mux)
    requires AllValid(rounds)
  {
    && m.Valid() && m.round < |rounds|
    && match m.phase
       case Begin => m' == m.(device := Arrive(m.device, rounds[m.round].arriving), phase := Visiting(0))
       case Visiting(_) => VisitStep(rounds[m.round], m, m')
       case Polling => PollStep(rounds[m.round], m, m')
       case Done(_) => false
  }

  function Start(drivers: seq<Driver>, device: seq<seq<InputEvent>>, pollin: seq<bool>, count: nat): Mux {
    Mux(drivers, device, pollin, [[], [], [], []], [], count, 0, Begin)
  }

  /** A call as a run of the machine. */
  ghost predicate IsRun(rounds: seq<Round>, trace: seq<Mux>)
    requires AllValid(rounds)
  {
    && trace != [] && trace[0].Valid()
    && trace[0] == Start(trace[0].drivers, trace[0].device, trace[0].pollin, trace[0].left)
    && forall k | 0 <= k < |trace| - 1 :: Step(rounds, trace[k], trace[k + 1])
  }

  lemma Extend(rounds: seq<Round>, trace: seq<Mux>, m: Mux)
    requires AllValid(rounds) && IsRun(rounds, trace) && Step(rounds, trace[|trace| - 1], m)
    ensures IsRun(rounds, trace + [m])
  {
    hide Step, Mux.Valid, Start;
  }

  lemma Extended(rounds: seq<Round>, trace: seq<Mux>, m: Mux) returns (trace': seq<Mux>)
    requires AllValid(rounds) && IsRun(rounds, trace) && trace != [] && Step(rounds, trace[|trace| - 1], m)
    ensures IsRun(rounds, trace') && |trace'| > 0 && trace'[0] == trace[0] && trace'[|trace'| - 1] == m
  {
    hide Step;
    Extend(rounds, trace, m);
    trace' := trace + [m];
  }

  // ---------------------------------------------------------------------
  // What every step keeps, driver by driver

  /** All that has reached the device in the first n rounds. */
  function Arrived(rounds: seq<Round>, n: nat, i: nat): seq<InputEvent>
    requires AllValid(rounds) && n <= |rounds| && i < NUM_DRIVERS
  {
    if n == 0 then [] else Arrived(rounds, n - 1, i) + rounds[n - 1].arriving[i]
  }

  /** How many rounds' events have arrived. */
  function Begun(m: Mux): nat {
    if m.phase.Begin? then m.round else m.round + 1
  }

  /** The clock at the first visit of driver i, if it has an event pending. */
  function FirstClock(rounds: seq<Round>, i: nat): int
    requires AllValid(rounds) && i < NUM_DRIVERS
  {
    if rounds == [] then 0 else rounds[0].clock[i]
  }

  /** The driver's turn in this sweep is over, or no sweep has begun since its last one. */
  predicate Behind(m: Mux, i: nat) {
    match m.phase
    case Begin => m.round > 0
    case Visiting(j) => i < j
    case Polling => true
    case Done(_) => true
  }

  /** What the kernel held and what reached it is what the driver has read, and what the kernel
      still holds; and what was read is accounted for. */
  ghost predicate Kept(rounds: seq<Round>, m0: Mux, m: Mux, i: nat)
    requires AllValid(rounds) && m0.Valid() && i < NUM_DRIVERS
  {
    && m.Valid() && Begun(m) <= |rounds|
    && m0.device[i] + Arrived(rounds, Begun(m), i) == m.taken[i] + m.device[i]
    && Accounted(m0.drivers[i], FirstClock(rounds, i), m.taken[i], From(i, m.data), m.drivers[i])
    && (m.drivers[i].HasPendingEvents() ==> m.round == 0 && (m.left > 0 ==> !Behind(m, i)))
  }

  /** The driver is flagged for the next visit if its ring is not empty, and has no event
      pending on top of a non-empty ring. */
  predicate SteadyAt(m: Mux, i: nat)
    requires |m.drivers| == |m.pollin| == NUM_DRIVERS && i < NUM_DRIVERS
  {
    && (m.drivers[i].Unread() != [] ==> m.pollin[i])
    && (m.drivers[i].HasPendingEvents() ==> m.drivers[i].Unread() == [])
  }

  ghost predicate Calm(m: Mux, i: nat)
    requires m.Valid() && i < NUM_DRIVERS
  {
    SteadyAt(m, i) && (m.left > 0 && Behind(m, i) ==> m.drivers[i].Unread() == [])
  }

  lemma StartKept(rounds: seq<Round>, m0: Mux, i: nat)
    requires AllValid(rounds) && m0.Valid() && i < NUM_DRIVERS
    requires m0 == Start(m0.drivers, m0.device, m0.pollin, m0.left)
    ensures Kept(rounds, m0, m0, i)
  {
    AccountedStart(m0.drivers[i], FirstClock(rounds, i));
    assert m0.device[i] + [] == [] + m0.device[i];
  }

  lemma BeginKeeps(rounds: seq<Round>, m0: Mux, m: Mux, m': Mux, i: nat)
    requires AllValid(rounds) && m0.Valid() && i < NUM_DRIVERS
    requires Kept(rounds, m0, m, i) && Step(rounds, m, m') && m.phase.Begin?
    ensures Kept(rounds, m0, m', i)
  {
    hide Accounted;
    BothGrow(m0.device[i], Arrived(rounds, m.round, i), m.taken[i], m.device[i], rounds[m.round].arriving[i]);
  }

  lemma BothGrow(a: seq<InputEvent>, b: seq<InputEvent>, c: seq<InputEvent>, d: seq<InputEvent>, more: seq<InputEvent>)
    requires a + b == c + d
    ensures a + (b + more) == c + (d + more)
  {
    assert a + (b + more) == a + b + more;
    assert c + (d + more) == c + d + more;
  }

  lemma PollKeeps(rounds: seq<Round>, m0: Mux, m: Mux, m': Mux, i: nat)
    requires AllValid(rounds) && m0.Valid() && i < NUM_DRIVERS
    requires Kept(rounds, m0, m, i) && Step(rounds, m, m') && m.phase.Polling?
    ensures Kept(rounds, m0, m', i)
  {
    hide Accounted;
  }

  lemma VisitKeeps(rounds: seq<Round>, m0: Mux, m: Mux, m': Mux, i: nat)
    requires AllValid(rounds) && m0.Valid() && i < NUM_DRIVERS
    requires Kept(rounds, m0, m, i) && Step(rounds, m, m') && m.phase.Visiting?
    ensures Kept(rounds, m0, m', i)
  {
    hide Accounted, Visited;
    if IsVisited(m) {
      var d', out :| Visited(rounds[m.round].clock[m.phase.i], m, d', out, m');
      if m.phase.i == i {
        OwnVisitKeeps(rounds, m0, m, d', out, m');
      } else {
        OtherVisitKeeps(rounds, m0, m, d', out, m', i);
      }
    }
  }

  lemma OwnVisitKeeps(rounds: seq<Round>, m0: Mux, m: Mux, d': Driver, out: seq<Report>, m': Mux)
    requires AllValid(rounds) && m0.Valid() && m.Valid() && m.phase.Visiting? && m.round < |rounds|
    requires Kept(rounds, m0, m, m.phase.i) && IsVisited(m)
    requires Visited(rounds[m.round].clock[m.phase.i], m, d', out, m')
    ensures Kept(rounds, m0, m', m.phase.i)
  {
    hide Accounted, Reads, Arrived, From, Tag, Room, Prefix;
    var i := m.phase.i;
    var d, taken, now := m.drivers[i], Taken(i, m.drivers[i], m.device[i]), rounds[m.round].clock[i];
    FromTag(i, m.data, i, out);
    AccountedStep(m0.drivers[i], FirstClock(rounds, i), m.taken[i], From(i, m.data), d,
                  taken, now, m.left, out, d');
    ReadBounds(d, taken, now, m.left, out, d');
    assert m.taken[i] + m.device[i] == m.taken[i] + taken + m.device[i][|taken|..];
  }

  lemma OtherVisitKeeps(rounds: seq<Round>, m0: Mux, m: Mux, d': Driver, out: seq<Report>, m': Mux, i: nat)
    requires AllValid(rounds) && m0.Valid() && m.Valid() && m.phase.Visiting? && m.round < |rounds|
    requires i < NUM_DRIVERS && i != m.phase.i && Kept(rounds, m0, m, i)
    requires Visited(rounds[m.round].clock[m.phase.i], m, d', out, m')
    ensures Kept(rounds, m0, m', i)
  {
    hide Accounted, Reads, Arrived, From, Tag, Room, Prefix, Taken;
    FromTag(i, m.data, m.phase.i, out);
  }

  lemma {:induction false} RunKeeps(rounds: seq<Round>, trace: seq<Mux>, k: nat, i: nat)
    requires AllValid(rounds) && IsRun(rounds, trace) && k < |trace| && i < NUM_DRIVERS
    ensures Kept(rounds, trace[0], trace[k], i)
  {
    hide Kept, VisitStep, PollStep, Start, Mux.Valid;
    if k == 0 {
      StartKept(rounds, trace[0], i);
    } else {
      RunKeeps(rounds, trace, k - 1, i);
      var m, m' := trace[k - 1], trace[k - 1 + 1];
      assert Step(rounds, m, m');
      match m.phase
      case Begin => BeginKeeps(rounds, trace[0], m, m', i);
      case Visiting(_) => VisitKeeps(rounds, trace[0], m, m', i);
      case Polling => PollKeeps(rounds, trace[0], m, m', i);
      case Done(_) =>
    }
  }

  /** What is delivered and the room left for more add up to the room at first. With no room left
      the call ends before any other poll, so a result is the number delivered unless a poll
      failed. */
  lemma {:induction false} RunFits(rounds: seq<Round>, trace: seq<Mux>, k: nat)
    requires AllValid(rounds) && IsRun(rounds, trace) && k < |trace|
    ensures |trace[k].data| + trace[k].left == trace[0].left
    ensures trace[k].phase.Done? ==>
              || trace[k].phase.result == |trace[k].data|
              || (k > 0 && trace[k].left > 0 && trace[k - 1].round < |rounds|
                  && rounds[trace[k - 1].round].poll == PollFailed(-trace[k].phase.result))
    ensures trace[k].phase.Begin? && trace[k].round > 0 ==> trace[k].left > 0
  {
    hide Reads;
    if k > 0 {
      RunFits(rounds, trace, k - 1);
      assert Step(rounds, trace[k - 1], trace[k - 1 + 1]);
    }
  }

  // ---------------------------------------------------------------------
  // Steady drivers

  lemma VisitCalms(round: Round, m: Mux, m': Mux, i: nat)
    requires round.Valid() && m.Valid() && m'.Valid() && m.phase.Visiting? && i < NUM_DRIVERS
    requires Calm(m, i) && VisitStep(round, m, m')
    ensures Calm(m', i)
  {
    hide Reads;
    if IsVisited(m) {
      var d', out :| Visited(round.clock[m.phase.i], m, d', out, m');
      if m.phase.i == i {
        var taken := Taken(i, m.drivers[i], m.device[i]);
        ReadBounds(m.drivers[i], taken, round.clock[i], m.left, out, d');
        VisitStrandsIff(m.drivers[i], taken, round.clock[i], m.left, out, d', m.pollin[i]);
        if |out| < m.left {
          ShortReadDrains(m.drivers[i], taken, round.clock[i], m.left, out, d');
        }
      }
    }
  }

  lemma ShortReadDrains(d: Driver, arrived: seq<InputEvent>, now: int, count: nat, out: seq<Report>, d': Driver)
    requires Reads(d, arrived, now, count, out, d') && |out| < count
    requires d.HasPendingEvents() ==> d.Unread() == []
    ensures d'.Unread() == []
  {
  }

  lemma StepCalms(rounds: seq<Round>, m: Mux, m': Mux, i: nat)
    requires AllValid(rounds) && Step(rounds, m, m') && m'.Valid() && i < NUM_DRIVERS && Calm(m, i)
    ensures Calm(m', i)
  {
    hide VisitStep;
    if m.phase.Visiting? {
      VisitCalms(rounds[m.round], m, m', i);
    }
  }

  /** A driver that is steady at first is steady all along, and its ring is empty whenever its
      turn is over and there is room left: before every poll, and after every poll. */
  lemma {:induction false} RunSteady(rounds: seq<Round>, trace: seq<Mux>, k: nat, i: nat)
    requires AllValid(rounds) && IsRun(rounds, trace) && k < |trace| && i < NUM_DRIVERS
    requires SteadyAt(trace[0], i)
    ensures trace[k].Valid() && Calm(trace[k], i)
  {
    hide Step, Kept, Calm;
    RunKeeps(rounds, trace, k, i);
    KeptIsValid(rounds, trace[0], trace[k], i);
    if k == 0 {
      StartCalm(trace[0], i);
    } else {
      RunSteady(rounds, trace, k - 1, i);
      assert Step(rounds, trace[k - 1], trace[k - 1 + 1]);
      StepCalms(rounds, trace[k - 1], trace[k], i);
    }
  }

  lemma KeptIsValid(rounds: seq<Round>, m0: Mux, m: Mux, i: nat)
    requires AllValid(rounds) && m0.Valid() && i < NUM_DRIVERS && Kept(rounds, m0, m, i)
    ensures m.Valid() && Begun(m) <= |rounds|
  {
  }

  lemma StartCalm(m: Mux, i: nat)
    requires m.Valid() && i < NUM_DRIVERS && SteadyAt(m, i)
    requires m == Start(m.drivers, m.device, m.pollin, m.left)
    ensures Calm(m, i)
  {
  }

  /** The flag of a driver is the last poll's answer until its turn comes, and down when its turn
      is over with room left. */
  ghost predicate FlagIs(rounds: seq<Round>, m: Mux, i: nat)
    requires AllValid(rounds) && i < NUM_DRIVERS
  {
    && m.Valid()
    && if m.phase.Begin? || (m.phase.Visiting? && m.phase.i <= i) then
         m.round > 0 ==>
           && m.round <= |rounds| && rounds[m.round - 1].Valid() && rounds[m.round - 1].poll.Polled?
           && m.pollin[i] == rounds[m.round - 1].poll.ready[i]
       else m.left > 0 ==> !m.pollin[i]
  }

  lemma VisitFlags(rounds: seq<Round>, m: Mux, m': Mux, i: nat)
    requires AllValid(rounds) && i < NUM_DRIVERS && FlagIs(rounds, m, i) && m'.Valid()
    requires Step(rounds, m, m') && m.phase.Visiting?
    ensures FlagIs(rounds, m', i)
  {
    hide Reads, Taken, Driver.Valid;
    var round := rounds[m.round];
    if IsVisited(m) {
      var d', out :| Visited(round.clock[m.phase.i], m, d', out, m');
    }
  }

  lemma PollFlags(rounds: seq<Round>, m: Mux, m': Mux, i: nat)
    requires AllValid(rounds) && i < NUM_DRIVERS && FlagIs(rounds, m, i) && m'.Valid()
    requires Step(rounds, m, m') && !m.phase.Visiting?
    ensures FlagIs(rounds, m', i)
  {
    hide Driver.Valid, Arrive;
    assert rounds[m.round].Valid();
  }

  lemma {:induction false} RunFlags(rounds: seq<Round>, trace: seq<Mux>, k: nat, i: nat)
    requires AllValid(rounds) && IsRun(rounds, trace) && k < |trace| && i < NUM_DRIVERS
    ensures FlagIs(rounds, trace[k], i)
  {
    hide Step, Kept, Mux.Valid;
    RunKeeps(rounds, trace, k, i);
    KeptIsValid(rounds, trace[0], trace[k], i);
    if k > 0 {
      RunFlags(rounds, trace, k - 1, i);
      assert Step(rounds, trace[k - 1], trace[k - 1 + 1]);
      hide FlagIs;
      if trace[k - 1].phase.Visiting? {
        VisitFlags(rounds, trace[k - 1], trace[k], i);
      } else {
        PollFlags(rounds, trace[k - 1], trace[k], i);
      }
    }
  }

  // ---------------------------------------------------------------------
  // Nothing is lost

  /** All that a driver owes for its unread events and more ones: its pending event, with the
      time of its first visit, and the stream. */
  function Owed(d: Driver, now: int, more: seq<InputEvent>): seq<Report>
    requires d.Ami? ==> d.t.st.Valid()
  {
    if d.HasPendingEvents() then d.Shortcut(now).1 + d.Shortcut(now).0.Stream(more) else d.Stream(more)
  }

  lemma DrainedConserved(d0: Driver, arrived: seq<InputEvent>, out: seq<Report>, d: Driver)
    requires d0.Valid() && Conserved(d0, arrived, out, d) && d.Unread() == []
    ensures out == d0.Stream(arrived)
  {
    match d0
    case Plain(kind, s) =>
      assert P.Emit(kind, d.s.enabled, d.s.pending, []) == [];
      assert out + [] == out;
    case Ami(enabled, t) =>
      assert A.Emit(d.t.st, enabled, []) == [];
      assert out + [] == out;
  }

  lemma DrainedAccounted(d0: Driver, now: int, arrived: seq<InputEvent>, out: seq<Report>, d: Driver)
    requires d0.Valid() && Accounted(d0, now, arrived, out, d) && d.Unread() == [] && !d.HasPendingEvents()
    ensures out == Owed(d0, now, arrived)
  {
    hide Conserved;
    if d0.HasPendingEvents() {
      var first := d0.Shortcut(now);
      DrainedConserved(first.0, arrived, out[|first.1|..], d);
      assert out == first.1 + out[|first.1|..];
    } else {
      DrainedConserved(d0, arrived, out, d);
    }
  }

  /** When a call ends with room left, every driver that was steady at first has delivered, in
      order and once each, exactly what it owed for its unread events and all the events it has
      read; and if the kernel then holds none for it, as a result of 0 from poll says, these are
      all that the kernel held or that have reached the device. */
  lemma EverythingDelivered(rounds: seq<Round>, trace: seq<Mux>, i: nat)
    requires AllValid(rounds) && IsRun(rounds, trace) && i < NUM_DRIVERS
    requires SteadyAt(trace[0], i)
    requires trace[|trace| - 1].phase.Done? && trace[|trace| - 1].left > 0
    ensures var m := trace[|trace| - 1];
            && m.Valid() && Begun(m) <= |rounds|
            && From(i, m.data) == Owed(trace[0].drivers[i], FirstClock(rounds, i), m.taken[i])
            && (m.device[i] == [] ==> m.taken[i] == trace[0].device[i] + Arrived(rounds, Begun(m), i))
  {
    hide Step, Accounted, Owed, IsRun;
    RunValid(rounds, trace);
    var n := |trace| - 1;
    var m := trace[n];
    RunKeeps(rounds, trace, n, i);
    RunSteady(rounds, trace, n, i);
    DrainedAccounted(trace[0].drivers[i], FirstClock(rounds, i), m.taken[i], From(i, m.data), m.drivers[i]);
    if m.device[i] == [] {
      assert m.taken[i] + [] == m.taken[i];
    }
  }

  lemma RunValid(rounds: seq<Round>, trace: seq<Mux>)
    requires AllValid(rounds) && IsRun(rounds, trace)
    ensures trace != [] && trace[0].Valid()
  {
  }
}
