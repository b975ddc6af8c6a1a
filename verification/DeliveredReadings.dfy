/** What a call of pollEvents delivers, said without the state of any driver. */
module DeliveredReadings {
  import opened Basics
  import opened SensorTypes
  import opened Multiplexer
  import opened LatestReadings
  import P = PlainSensors
  import A = AmiEvents

  /** The pending event, if there is one, and the latest readings at every SYN of these events. */
  function Readings(d: Driver, now: int, events: seq<InputEvent>): seq<Report>
    requires d.Ami? ==> d.t.st.Valid()
  {
    match d
    case Plain(kind, s) =>
      var p := if s.hasPending then s.pending.(time := now) else s.pending;
      if !s.enabled then []
      else (if s.hasPending then [Report(0, p)] else []) + ReportsOf(kind, p, events, |events|)
    case Ami(enabled, t) => Reports(t.st.pending, enabled, events, |events|)
  }

  /** No SYN of the compass driver was interrupted. */
  predicate BetweenSyns(d: Driver) {
    d.Ami? ==> d.t.st.mask == {}
  }

  lemma OwedIsReadings(d: Driver, now: int, more: seq<InputEvent>)
    requires d.Valid() && BetweenSyns(d)
    ensures Owed(d, now, more) == Readings(d, now, d.Unread() + more)
  {
    hide Reports, ReportsOf;
    match d
    case Plain(kind, s) =>
      var p := if s.hasPending then s.pending.(time := now) else s.pending;
      StreamIsLatestOf(kind, p, s.unread + more);
    case Ami(enabled, t) =>
      assert t.st == A.State({}, t.st.pending);
      StreamIsLatest(t.st.pending, enabled, t.unread + more);
  }

  /** A driver that was steady at first has delivered its pending event and then, at every SYN of
      its unread events and of those it has read, the latest readings, and nothing else. */
  ghost predicate Delivered(rounds: seq<Round>, m0: Mux, m: Mux, i: nat)
    requires AllValid(rounds) && m0.Valid() && m.Valid() && i < NUM_DRIVERS
  {
    var d := m0.drivers[i];
    SteadyAt(m0, i) && BetweenSyns(d) ==>
      From(i, m.data) == Readings(d, FirstClock(rounds, i), d.Unread() + m.taken[i])
  }

  /** So it is for every driver when a call ends with room left; and what a steady driver has
      read is all there was when the kernel then holds nothing for it. */
  lemma CallDelivers(rounds: seq<Round>, trace: seq<Mux>, i: nat)
    requires AllValid(rounds) && IsRun(rounds, trace) && i < NUM_DRIVERS
    requires trace[|trace| - 1].phase.Done? && trace[|trace| - 1].left > 0
    ensures var m := trace[|trace| - 1];
            && trace[0].Valid() && m.Valid() && Begun(m) <= |rounds|
            && Delivered(rounds, trace[0], m, i)
            && (m.device[i] == [] ==> m.taken[i] == trace[0].device[i] + Arrived(rounds, Begun(m), i))
  {
    hide IsRun, Owed, Readings, Kept;
    var n := |trace| - 1;
    RunValid(rounds, trace);
    RunKeeps(rounds, trace, n, i);
    KeptIsValid(rounds, trace[0], trace[n], i);
    AllRead(rounds, trace[0], trace[n], i);
    if SteadyAt(trace[0], i) && BetweenSyns(trace[0].drivers[i]) {
      EverythingDelivered(rounds, trace, i);
      OwedIsReadings(trace[0].drivers[i], FirstClock(rounds, i), trace[n].taken[i]);
    }
  }

  lemma AllRead(rounds: seq<Round>, m0: Mux, m: Mux, i: nat)
    requires AllValid(rounds) && m0.Valid() && i < NUM_DRIVERS && Kept(rounds, m0, m, i)
    ensures m.device[i] == [] ==> m.taken[i] == m0.device[i] + Arrived(rounds, Begun(m), i)
  {
    hide Accounted;
    assert m.taken[i] + [] == m.taken[i];
  }
}
