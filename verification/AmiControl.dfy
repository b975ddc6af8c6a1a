/** The control half of AmiSensor: activation counters, the enabled mask, the driver's
    control word and the sampling delay. */
module AmiControl {
  import opened Basics
  import opened SensorTypes

  const NUM_SENSORS := 3
  const ID_A := 0
  const ID_MAGNETIC_FIELD := 2
  const ID_ORIENTATION := 3
  const DEFAULT_POLLING_MS := 200
  const NS_PER_MS := 1_000_000
  const UINT64_MAX := 0xFFFF_FFFF_FFFF_FFFF

  /** The two words of the driver's control block that the sensor changes: the loop delay,
      and the active sensors as the set of their bits. */
  datatype Control = Control(loopDelay: int32, active: set<nat>)

  type int64 = x: int | -0x8000_0000_0000_0000 <= x < 0x8000_0000_0000_0000

  /** counters are the three ..._Activate fields, enabled is mEnabled as a set of bits. */
  datatype State = State(enabled: set<nat>, counters: seq<nat>, delays: seq<nat>, open: bool, driver: Control) {
    predicate Valid() {
      && |counters| == |delays| == NUM_SENSORS
      && forall i | 0 <= i < NUM_SENSORS :: delays[i] < 0x8000_0000_0000_0000
    }
  }

  /** Whether the GET_CONTROL and SET_CONTROL ioctls of one update succeed. */
  datatype Ioctls = Ioctls(get: bool, set_: bool)

  function Sensor(handle: int): Option<nat> {
    if handle == ID_A then Some(0)
    else if handle == ID_MAGNETIC_FIELD then Some(1)
    else if handle == ID_ORIENTATION then Some(2)
    else None
  }

  /** The compass driver's own sensors: the handles 0, 2 and 3, and no other. */
  lemma Handles(handle: int)
    ensures Sensor(handle) ==
              match handle
              case 0 => Some(0)
              case 2 => Some(1)
              case 3 => Some(2)
              case _ => None
  {
  }

  /** Conversion of a 64-bit quotient to int. */
  function ToInt32(n: int): int32 {
    Signed(Wrap32(n))
  }

  function Min(a: nat, b: nat): nat {
    if a < b then a else b
  }

  /** The smallest delay asked for by an enabled sensor from i on. */
  function Wanted(s: State, i: nat): nat
    requires s.Valid() && i <= NUM_SENSORS
    decreases NUM_SENSORS - i
  {
    if i == NUM_SENSORS then UINT64_MAX
    else if i in s.enabled then Min(s.delays[i], Wanted(s, i + 1))
    else Wanted(s, i + 1)
  }

  function NextDelay(current: int32, ms: int32): int32 {
    var d := if current == 0 || current > ms then ms else current;
    if d < 5 then 5 else d
  }

  function AfterUpdateDelay(s: State, io: Ioctls): (r: State)
    requires s.Valid()
    ensures r.Valid()
  {
    var wanted := Wanted(s, 0);
    if s.enabled == {} || wanted == UINT64_MAX || !io.get || !io.set_ then s
    else s.(driver := s.driver.(loopDelay := NextDelay(s.driver.loopDelay, ToInt32(wanted / NS_PER_MS))))
  }

  function UpdateResult(s: State, io: Ioctls): int
    requires s.Valid()
  {
    if s.enabled == {} || Wanted(s, 0) == UINT64_MAX || (io.get && io.set_) then 0 else -1
  }

  /** The active word with bits 0 to 2 set as the counters say. */
  function ActiveWord(s: State): set<nat>
    requires s.Valid()
  {
    (s.driver.active - {0, 1, 2})
    + (if s.counters[0] == 0 then {} else {0})
    + (if s.counters[1] == 0 then {} else {1})
    + (if s.counters[2] == 0 then {} else {2})
  }

  /** The activation counter follows the request; the device is open for it. */
  function Counted(s: State, what: nat, en: bool): (r: State)
    requires s.Valid() && what < NUM_SENSORS
    ensures r.Valid()
  {
    s.(open := s.open || s.enabled == {},
       counters := s.counters[what := if en then s.counters[what] + 1 else 0])
  }

  /** The counters have been passed on to the driver, as far as its ioctls succeed; with no
      sensor left the delays return to their default even if the second one fails. */
  function Activated(s: State, io: Ioctls): (r: State)
    requires s.Valid()
    ensures r.Valid()
  {
    var active := ActiveWord(s);
    var reset :=
      if io.get && active == {} then s.(delays := seq(NUM_SENSORS, _ => DEFAULT_POLLING_MS * NS_PER_MS)) else s;
    if !io.get || !io.set_ then reset
    else
      var delay := if active == {} then DEFAULT_POLLING_MS else s.driver.loopDelay;
      reset.(driver := Control(delay, active), enabled := active)
  }

  function AfterEnable(s: State, what: nat, en: bool, io: Ioctls, update: Ioctls): (r: State)
    requires s.Valid() && what < NUM_SENSORS
    ensures r.Valid()
  {
    if en == (what in s.enabled) then s
    else
      var active := Activated(Counted(s, what, en), io);
      var done := if io.get && io.set_ then AfterUpdateDelay(active, update) else active;
      if done.enabled == {} then done.(open := false) else done
  }

  class AmiSensor {
    var enabled: set<nat>
    var counters: array<nat>
    var delays: array<nat>
    var open: bool
    var driver: Control

    ghost function Abs(): State
      reads this, counters, delays
    {
      State(enabled, counters[..], delays[..], open, driver)
    }

    ghost predicate Valid()
      reads this, counters, delays
    {
      counters != delays && Abs().Valid()
    }

    /** Takes over what the driver is already doing, if its control word can be read; the device
        stays open only if that is something. Counters, mask and driver then agree; without the
        control word they agree only if the driver is doing nothing. */
    constructor (driver: Control, get: bool)
      ensures Valid() && fresh(counters) && fresh(delays)
      ensures Agree(Abs()) <==> get || driver.active * {0, 1, 2} == {}
      ensures this.driver == driver && enabled == if get then driver.active * {0, 1, 2} else {}
      ensures open == (enabled != {})
      ensures forall i | 0 <= i < NUM_SENSORS :: counters[i] == if i in enabled then 1 else 0
      ensures forall i | 0 <= i < NUM_SENSORS :: delays[i] == DEFAULT_POLLING_MS * NS_PER_MS
    {
      this.driver := driver;
      counters := new nat[NUM_SENSORS](_ => 0);
      delays := new nat[NUM_SENSORS](_ => DEFAULT_POLLING_MS * NS_PER_MS);
      open := true;
      enabled := {};
      new;
      if get {
        TakeOver();
      }
      if enabled == {} {
        open := false;
      }
      AgreeIff(get);
    }

    method TakeOver()
      requires Valid() && enabled == {} && forall j | 0 <= j < NUM_SENSORS :: counters[j] == 0
      modifies `enabled, counters
      ensures Valid() && enabled == driver.active * {0, 1, 2}
      ensures forall j | 0 <= j < NUM_SENSORS :: counters[j] == if j in enabled then 1 else 0
    {
      for i := 0 to NUM_SENSORS
        invariant enabled == set j | j in driver.active && j < i
        invariant forall j | 0 <= j < NUM_SENSORS :: counters[j] == if j in enabled then 1 else 0
      {
        if i in driver.active {
          enabled := enabled + {i};
          counters[i] := counters[i] + 1;
        }
      }
    }

    lemma AgreeIff(get: bool)
      requires Valid() && open == (enabled != {}) && enabled == if get then driver.active * {0, 1, 2} else {}
      requires forall i | 0 <= i < NUM_SENSORS :: counters[i] == if i in enabled then 1 else 0
      ensures Agree(Abs()) <==> get || driver.active * {0, 1, 2} == {}
    {
      if !get && Agree(Abs()) {
        assert 0 !in driver.active && 1 !in driver.active && 2 !in driver.active;
      }
    }

    method Enable(handle: int, en: bool, io: Ioctls, update: Ioctls) returns (err: int)
      requires Valid()
      modifies this, counters, delays
      ensures Valid() && counters == old(counters) && delays == old(delays)
      ensures Sensor(handle).None? ==> err == -22 && Abs() == old(Abs())
      ensures Sensor(handle).Some? ==>
                && Abs() == AfterEnable(old(Abs()), Sensor(handle).value, en, io, update)
                && err == if en == (Sensor(handle).value in old(enabled)) || (io.get && io.set_) then 0 else -1
    {
      hide AfterUpdateDelay, Activated, Counted;
      if Sensor(handle).None? {
        return -EINVAL;
      }
      var what := Sensor(handle).value;
      err := 0;
      if en != (what in enabled) {
        Count(what, en);
        err := Activate(io);
        if err == 0 {
          var _ := UpdateDelay(update);
        }
        if enabled == {} {
          open := false;
        }
      }
    }

    /** The first part of enable: the device and the counter. */
    method Count(what: nat, en: bool)
      requires Valid() && what < NUM_SENSORS
      modifies `open, counters
      ensures Valid() && Abs() == Counted(old(Abs()), what, en)
    {
      if enabled == {} {
        open := true;
      }
      if en {
        counters[what] := counters[what] + 1;
      } else {
        counters[what] := 0;
      }
    }

    /** The second part: the driver's control word. */
    method Activate(io: Ioctls) returns (err: int)
      requires Valid()
      modifies `driver, `enabled, delays
      ensures Valid() && Abs() == Activated(old(Abs()), io)
      ensures err == if io.get && io.set_ then 0 else -1
    {
      hide ActiveWord;
      err := if io.get then 0 else -1;
      if err == 0 {
        var active := ActiveBits();
        var control := driver.(active := active);
        if control.active == {} {
          ResetDelays();
          control := control.(loopDelay := DEFAULT_POLLING_MS);
        }
        err := if io.set_ then 0 else -1;
        if err == 0 {
          driver := control;
          enabled := control.active;
        }
      }
    }

    /** The driver's active word, with the sensor's own bits set or cleared. */
    method ActiveBits() returns (active: set<nat>)
      requires Valid()
      ensures active == ActiveWord(Abs())
    {
      active := driver.active;
      active := if counters[2] == 0 then active - {2} else active + {2};
      active := if counters[1] == 0 then active - {1} else active + {1};
      active := if counters[0] == 0 then active - {0} else active + {0};
    }

    method ResetDelays()
      requires Valid()
      modifies delays
      ensures delays[..] == seq(NUM_SENSORS, _ => DEFAULT_POLLING_MS * NS_PER_MS)
    {
      for i := 0 to NUM_SENSORS
        invariant forall j | 0 <= j < i :: delays[j] == DEFAULT_POLLING_MS * NS_PER_MS
      {
        delays[i] := DEFAULT_POLLING_MS * NS_PER_MS;
      }
    }

    method SetDelay(handle: int, ns: int64, io: Ioctls) returns (err: int)
      requires Valid()
      modifies this`driver, delays
      ensures Valid()
      ensures Sensor(handle).None? || ns < 0 ==> err == -22 && Abs() == old(Abs())
      ensures Sensor(handle).Some? && ns >= 0 ==>
                var s := old(Abs());
                var asked := s.(delays := s.delays[Sensor(handle).value := ns]);
                && Abs() == AfterUpdateDelay(asked, io)
                && err == UpdateResult(asked, io)
    {
      hide AfterUpdateDelay, UpdateResult;
      if Sensor(handle).None? || ns < 0 {
        return -EINVAL;
      }
      delays[Sensor(handle).value] := ns;
      err := UpdateDelay(io);
    }

    method UpdateDelay(io: Ioctls) returns (res: int)
      requires Valid()
      modifies this`driver
      ensures Valid() && Abs() == AfterUpdateDelay(old(Abs()), io)
      ensures res == UpdateResult(old(Abs()), io)
    {
      res := 0;
      if enabled != {} {
        var wanted := UINT64_MAX;
        var i := NUM_SENSORS;
        while i > 0
          invariant 0 <= i <= NUM_SENSORS
          invariant wanted == Wanted(Abs(), i)
        {
          i := i - 1;
          if i in enabled {
            wanted := if delays[i] < wanted then delays[i] else wanted;
          }
        }
        if wanted == UINT64_MAX {
          return;
        }
        res := if io.get then 0 else -1;
        if res == 0 {
          var setMs := ToInt32(wanted / NS_PER_MS);
          var current := driver.loopDelay;
          if current == 0 {
            current := setMs;
          } else if current > setMs {
            current := setMs;
          }
          if current < 5 {
            current := 5;
          }
          res := if io.set_ then 0 else -1;
          if res == 0 {
            driver := driver.(loopDelay := current);
          }
        }
      }
    }
  }

  // ---------------------------------------------------------------------
  // Agreement between counters, mask, driver and device

  ghost predicate Agree(s: State) {
    && s.Valid()
    && s.open == (s.enabled != {})
    && forall i | 0 <= i < NUM_SENSORS ::
         && s.counters[i] == (if i in s.enabled then 1 else 0)
         && (i in s.enabled <==> i in s.driver.active)
  }

  lemma UpdateKeepsAgree(s: State, io: Ioctls)
    requires s.Valid()
    ensures var r := AfterUpdateDelay(s, io);
            && r.enabled == s.enabled && r.counters == s.counters && r.delays == s.delays
            && r.open == s.open && r.driver.active == s.driver.active
  {
  }

  /** Agreement survives enable exactly when it changes nothing or both its ioctls succeed. */
  lemma EnableAgreesIff(s: State, what: nat, en: bool, io: Ioctls, update: Ioctls)
    requires Agree(s) && what < NUM_SENSORS
    ensures Agree(AfterEnable(s, what, en, io, update))
            <==> (en == (what in s.enabled) || (io.get && io.set_))
  {
    if en != (what in s.enabled) {
      var r := AfterEnable(s, what, en, io, update);
      assert r.counters[what] == if en then 1 else 0;
      if io.get && io.set_ {
        EnableSucceeds(s, what, en, io, update);
      }
    }
  }

  lemma EnableSucceeds(s: State, what: nat, en: bool, io: Ioctls, update: Ioctls)
    requires Agree(s) && what < NUM_SENSORS
    requires en != (what in s.enabled) && io.get && io.set_
    ensures Agree(AfterEnable(s, what, en, io, update))
    ensures what in AfterEnable(s, what, en, io, update).enabled <==> en
  {
    hide AfterUpdateDelay;
    var counted := Counted(s, what, en);
    var active := ActiveWord(counted);
    forall i | 0 <= i < NUM_SENSORS
      ensures i in active <==> counted.counters[i] != 0
    {
      assert i == 0 || i == 1 || i == 2;
    }
    UpdateKeepsAgree(Activated(counted, OK), update);
  }

  /** The bits of the driver's active word that belong to other users of the chip. */
  function Foreign(s: State): set<nat> {
    s.driver.active - {0, 1, 2}
  }

  lemma EnableKeepsForeign(s: State, what: nat, en: bool, io: Ioctls, update: Ioctls)
    requires s.Valid() && what < NUM_SENSORS
    ensures Foreign(AfterEnable(s, what, en, io, update)) == Foreign(s)
  {
    hide AfterUpdateDelay;
    var counted := Counted(s, what, en);
    var active := Activated(counted, io);
    assert ActiveWord(counted) - {0, 1, 2} == Foreign(s);
    UpdateKeepsAgree(active, update);
  }

  // ---------------------------------------------------------------------
  // The sampling delay

  /** The delay in force is fast enough for every enabled sensor, down to 5 ms. */
  ghost predicate DelayOk(s: State)
    requires s.Valid()
  {
    forall i | 0 <= i < NUM_SENSORS && i in s.enabled ::
      5 <= s.driver.loopDelay <= (if s.delays[i] / NS_PER_MS > 5 then s.delays[i] / NS_PER_MS else 5)
  }

  lemma {:induction false} WantedIsLeast(s: State, i: nat, j: nat)
    requires s.Valid() && i <= j < NUM_SENSORS && j in s.enabled
    ensures Wanted(s, i) <= s.delays[j]
    decreases j - i
  {
    if i < j {
      WantedIsLeast(s, i + 1, j);
    }
  }

  /** Truncation keeps the low 32 bits. */
  lemma ToInt32Wraps(n: int)
    ensures (n - ToInt32(n)) % 0x1_0000_0000 == 0
  {
    assert n == n / 0x1_0000_0000 * 0x1_0000_0000 + Wrap32(n);
  }

  /** Truncating a non-negative delay to an int never lengthens it. */
  lemma ToInt32Shortens(n: nat)
    ensures ToInt32(n) <= n
  {
  }

  /** Whatever the delay was, an update makes it right, even when the delay asked for does
      not fit an int; and it never lengthens a delay of at least 5 ms. */
  lemma UpdateMakesDelayOk(s: State, io: Ioctls)
    requires s.Valid() && io.get && io.set_
    ensures DelayOk(AfterUpdateDelay(s, io))
    ensures s.driver.loopDelay >= 5 ==>
              5 <= AfterUpdateDelay(s, io).driver.loopDelay <= s.driver.loopDelay
  {
    hide Wanted, ToInt32;
    var r, wanted := AfterUpdateDelay(s, io), Wanted(s, 0);
    ToInt32Shortens(wanted / NS_PER_MS);
    forall i | 0 <= i < NUM_SENSORS && i in r.enabled
      ensures 5 <= r.driver.loopDelay <= (if r.delays[i] / NS_PER_MS > 5 then r.delays[i] / NS_PER_MS else 5)
    {
      WantedIsLeast(s, 0, i);
      DivMonotone(wanted, s.delays[i]);
    }
  }

  lemma DivMonotone(a: nat, b: nat)
    requires a <= b
    ensures a / NS_PER_MS <= b / NS_PER_MS
  {
  }

  /** No enabled sensor asks for a shorter delay than this enabled one. */
  predicate AsksForLeast(s: State, i: nat)
    requires s.Valid()
  {
    i < NUM_SENSORS && i in s.enabled && forall j | 0 <= j < NUM_SENSORS && j in s.enabled :: s.delays[i] <= s.delays[j]
  }

  /** The least delay asked for, in milliseconds as an int; empty with no sensor enabled. */
  function Least(s: State): set<int>
    requires s.Valid()
  {
    set i | 0 <= i < NUM_SENSORS && AsksForLeast(s, i) :: ToInt32(s.delays[i] / NS_PER_MS)
  }

  /** The driver samples no faster than every 5 ms. */
  function Floored(ms: int): int {
    if ms < 5 then 5 else ms
  }

  /** The delay is that of the least of these, or still 0 when there are none. */
  ghost predicate IsLeastOf(delay: int, all: set<int>) {
    if all == {} then delay == 0
    else
      && delay != 0
      && (exists m :: m in all && Floored(delay) == Floored(m))
      && forall m | m in all :: Floored(delay) <= Floored(m)
  }

  lemma {:induction false} WantedIsOne(s: State, i: nat)
    requires s.Valid() && i <= NUM_SENSORS && Wanted(s, i) != UINT64_MAX
    ensures exists j | i <= j < NUM_SENSORS :: j in s.enabled && Wanted(s, i) == s.delays[j]
    decreases NUM_SENSORS - i
  {
    if i < NUM_SENSORS && !(i in s.enabled && Wanted(s, i) == s.delays[i]) {
      WantedIsOne(s, i + 1);
    }
  }

  lemma {:induction false} NothingWanted(s: State, i: nat)
    requires s.Valid() && i <= NUM_SENSORS
    ensures Wanted(s, i) == UINT64_MAX <==> forall j | i <= j < NUM_SENSORS :: j !in s.enabled
    decreases NUM_SENSORS - i
  {
    if i < NUM_SENSORS {
      NothingWanted(s, i + 1);
    }
  }

  lemma LeastIs(s: State)
    requires s.Valid()
    ensures if Wanted(s, 0) == UINT64_MAX then Least(s) == {} else Least(s) == {ToInt32(Wanted(s, 0) / NS_PER_MS)}
  {
    hide ToInt32, Wanted;
    var wanted := Wanted(s, 0);
    NothingWanted(s, 0);
    if wanted != UINT64_MAX {
      WantedIsOne(s, 0);
      var j :| 0 <= j < NUM_SENSORS && j in s.enabled && wanted == s.delays[j];
      forall i | 0 <= i < NUM_SENSORS && i in s.enabled
        ensures wanted <= s.delays[i]
      {
        WantedIsLeast(s, 0, i);
      }
      assert AsksForLeast(s, j);
      assert ToInt32(s.delays[j] / NS_PER_MS) in Least(s);
    }
  }

  /** As long as every request fits an int, the least is the least in milliseconds too. */
  lemma LeastIsLeast(s: State, i: nat)
    requires s.Valid() && i < NUM_SENSORS && i in s.enabled
    requires forall j | 0 <= j < NUM_SENSORS && j in s.enabled :: s.delays[j] / NS_PER_MS < 0x8000_0000
    ensures Least(s) != {} && forall m | m in Least(s) :: m <= s.delays[i] / NS_PER_MS
  {
    hide ToInt32, Wanted;
    LeastIs(s);
    NothingWanted(s, 0);
    WantedIsLeast(s, 0, i);
    DivMonotone(Wanted(s, 0), s.delays[i]);
    ToInt32Shortens(Wanted(s, 0) / NS_PER_MS);
  }

  /** An update that fails changes nothing, and says so unless no sensor asks for anything. */
  lemma UpdateReports(s: State, io: Ioctls)
    requires s.Valid()
    ensures UpdateResult(s, io) == if Least(s) == {} || (io.get && io.set_) then 0 else -1
    ensures !io.get || !io.set_ ==> AfterUpdateDelay(s, io) == s
  {
    hide Wanted, ToInt32;
    LeastIs(s);
    NothingWanted(s, 0);
  }

  /** A successful update takes the least request into account. */
  lemma UpdateDelayIs(s: State, io: Ioctls, all: set<int>)
    requires s.Valid() && io.get && io.set_ && IsLeastOf(s.driver.loopDelay, all)
    ensures IsLeastOf(AfterUpdateDelay(s, io).driver.loopDelay, all + Least(s))
  {
    hide ToInt32, Wanted, Least;
    LeastIs(s);
    NothingWanted(s, 0);
    if Wanted(s, 0) == UINT64_MAX {
      assert all + Least(s) == all;
    } else {
      var d, t := s.driver.loopDelay, ToInt32(Wanted(s, 0) / NS_PER_MS);
      assert t in all + Least(s);
    }
  }

  // ---------------------------------------------------------------------
  // Any run of successful calls

  datatype Op = EnableOp(what: nat, en: bool) | SetDelayOp(what: nat, ns: int64) {
    predicate Valid() {
      what < NUM_SENSORS
    }

    /** Whether the call gets as far as updating the delay. */
    predicate Effective(s: State) {
      match this
      case EnableOp(what, en) => en != (what in s.enabled)
      case SetDelayOp(_, ns) => ns >= 0
    }
  }

  const OK := Ioctls(true, true)

  function Do(s: State, op: Op): (r: State)
    requires s.Valid() && op.Valid()
    ensures r.Valid()
  {
    match op
    case EnableOp(what, en) => AfterEnable(s, what, en, OK, OK)
    case SetDelayOp(what, ns) =>
      if ns < 0 then s else AfterUpdateDelay(s.(delays := s.delays[what := ns]), OK)
  }

  function Run(s: State, ops: seq<Op>): (r: State)
    requires s.Valid() && forall k | 0 <= k < |ops| :: ops[k].Valid()
    ensures r.Valid()
    decreases |ops|
  {
    if ops == [] then s else Run(Do(s, ops[0]), ops[1..])
  }

  lemma DoKeepsAgree(s: State, op: Op)
    requires Agree(s) && op.Valid()
    ensures Agree(Do(s, op)) && Foreign(Do(s, op)) == Foreign(s)
  {
    match op
    case EnableOp(what, en) =>
      EnableAgreesIff(s, what, en, OK, OK);
      EnableKeepsForeign(s, what, en, OK, OK);
    case SetDelayOp(what, ns) =>
      if ns >= 0 {
        UpdateKeepsAgree(s.(delays := s.delays[what := ns]), OK);
      }
  }

  lemma DoDelay(s: State, op: Op)
    requires s.Valid() && op.Valid()
    ensures op.Effective(s) ==> DelayOk(Do(s, op))
    ensures !op.Effective(s) ==> Do(s, op) == s
    ensures s.driver.loopDelay >= 5 && Do(s, op).driver.active != {} ==>
              5 <= Do(s, op).driver.loopDelay <= s.driver.loopDelay
  {
    match op
    case SetDelayOp(what, ns) =>
      if ns >= 0 {
        UpdateMakesDelayOk(s.(delays := s.delays[what := ns]), OK);
      }
    case EnableOp(what, en) =>
      if en != (what in s.enabled) {
        EnableDelay(s, what, en);
      }
  }

  lemma EnableDelay(s: State, what: nat, en: bool)
    requires s.Valid() && what < NUM_SENSORS && en != (what in s.enabled)
    ensures var r := AfterEnable(s, what, en, OK, OK);
            && DelayOk(r)
            && (s.driver.loopDelay >= 5 && r.driver.active != {} ==>
                  5 <= r.driver.loopDelay <= s.driver.loopDelay)
  {
    hide AfterUpdateDelay, ActiveWord;
    var counted := Counted(s, what, en);
    var before := Activated(counted, OK);
    UpdateMakesDelayOk(before, OK);
    UpdateKeepsAgree(before, OK);
  }

  /** Over every run: counters, mask, driver word and device agree all along, and the driver's
      other bits stay. */
  lemma {:induction false} RunAgrees(s: State, ops: seq<Op>)
    requires Agree(s) && forall k | 0 <= k < |ops| :: ops[k].Valid()
    ensures Agree(Run(s, ops)) && Foreign(Run(s, ops)) == Foreign(s)
    decreases |ops|
  {
    if ops != [] {
      DoKeepsAgree(s, ops[0]);
      RunAgrees(Do(s, ops[0]), ops[1..]);
    }
  }

  ghost predicate SomeEffective(s: State, ops: seq<Op>)
    requires s.Valid() && forall k | 0 <= k < |ops| :: ops[k].Valid()
    decreases |ops|
  {
    ops != [] && (ops[0].Effective(s) || SomeEffective(Do(s, ops[0]), ops[1..]))
  }

  /** Over every run: the delay suits every enabled sensor as soon as one call has had an
      effect, whatever the driver held when the sensor object was made. */
  lemma {:induction false} RunDelayOk(s: State, ops: seq<Op>)
    requires s.Valid() && forall k | 0 <= k < |ops| :: ops[k].Valid()
    requires DelayOk(s) || SomeEffective(s, ops)
    ensures DelayOk(Run(s, ops))
    decreases |ops|
  {
    if ops != [] {
      DoDelay(s, ops[0]);
      RunDelayOk(Do(s, ops[0]), ops[1..]);
    }
  }

  /** No call of the run switches the last active sensor off. */
  ghost predicate NeverReset(s: State, ops: seq<Op>)
    requires s.Valid() && forall k | 0 <= k < |ops| :: ops[k].Valid()
    decreases |ops|
  {
    ops == [] || (Do(s, ops[0]).driver.active != {} && NeverReset(Do(s, ops[0]), ops[1..]))
  }

  /** Between resets the delay never grows once it is at least 5 ms. */
  lemma {:induction false} DelayNeverGrows(s: State, ops: seq<Op>)
    requires s.Valid() && forall k | 0 <= k < |ops| :: ops[k].Valid()
    requires s.driver.loopDelay >= 5 && NeverReset(s, ops)
    ensures 5 <= Run(s, ops).driver.loopDelay <= s.driver.loopDelay
    decreases |ops|
  {
    if ops != [] {
      DoDelay(s, ops[0]);
      DelayNeverGrows(Do(s, ops[0]), ops[1..]);
    }
  }

  /** The call switches the last active sensor off. */
  predicate Resets(s: State, op: Op)
    requires s.Valid() && op.Valid()
  {
    op.EnableOp? && op.Effective(s) && Do(s, op).driver.active == {}
  }

  /** What has been asked for by the end of a run: the delays in `all`, and after every call that
      has an effect the least one that an enabled sensor asks for; when no sensor is left, all
      of this is forgotten but for the default. */
  function AskedFor(s: State, ops: seq<Op>, all: set<int>): set<int>
    requires s.Valid() && forall k | 0 <= k < |ops| :: ops[k].Valid()
    decreases |ops|
  {
    if ops == [] then all
    else
      var s' := Do(s, ops[0]);
      AskedFor(s', ops[1..], if Resets(s, ops[0]) then {200} else if ops[0].Effective(s) then all + Least(s') else all)
  }

  /** With no sensor left the driver and every later request start from 200 ms. */
  lemma ResetForgets(s: State, op: Op)
    requires s.Valid() && op.Valid() && Resets(s, op)
    ensures var r := Do(s, op);
            && r.driver.loopDelay == 200 && r.enabled == {} && !r.open
            && forall i | 0 <= i < NUM_SENSORS :: r.delays[i] == 200_000_000
  {
    hide ActiveWord, Wanted;
    UpdateKeepsAgree(Activated(Counted(s, op.what, op.en), OK), OK);
  }

  lemma SameLeast(s: State, r: State)
    requires s.Valid() && r.Valid() && r.enabled == s.enabled && r.delays == s.delays
    ensures Least(r) == Least(s)
  {
    assert forall i: nat :: AsksForLeast(s, i) <==> AsksForLeast(r, i);
  }

  lemma DoDelayIs(s: State, op: Op, all: set<int>)
    requires s.Valid() && op.Valid() && IsLeastOf(s.driver.loopDelay, all) && !Resets(s, op)
    ensures IsLeastOf(Do(s, op).driver.loopDelay, if op.Effective(s) then all + Least(Do(s, op)) else all)
  {
    hide Least, IsLeastOf, ActiveWord, AfterUpdateDelay;
    match op
    case SetDelayOp(what, ns) =>
      if ns >= 0 {
        var asked := s.(delays := s.delays[what := ns]);
        UpdateDelayIs(asked, OK, all);
        UpdateKeepsAgree(asked, OK);
        SameLeast(asked, Do(s, op));
      }
    case EnableOp(what, en) =>
      if en != (what in s.enabled) {
        var active := Activated(Counted(s, what, en), OK);
        UpdateKeepsAgree(active, OK);
        UpdateDelayIs(active, OK, all);
        SameLeast(active, Do(s, op));
      }
  }

  /** Over every run: the driver's delay is the least of what it started with and all that the
      enabled sensors have asked for since, but for the floor of 5 ms; after the last sensor was
      switched off, of the default and all that has been asked for since. */
  lemma {:induction false} RunDelayIs(s: State, ops: seq<Op>, all: set<int>)
    requires s.Valid() && forall k | 0 <= k < |ops| :: ops[k].Valid()
    requires IsLeastOf(s.driver.loopDelay, all)
    ensures IsLeastOf(Run(s, ops).driver.loopDelay, AskedFor(s, ops, all))
    decreases |ops|
  {
    hide Least, IsLeastOf, Do, Op.Effective, Resets;
    if ops != [] {
      var op, r := ops[0], Do(s, ops[0]);
      if Resets(s, op) {
        ResetForgets(s, op);
        IsDefault();
        RunDelayIs(r, ops[1..], {200});
      } else {
        DoDelayIs(s, op, all);
        RunDelayIs(r, ops[1..], if op.Effective(s) then all + Least(r) else all);
      }
    }
  }

  lemma IsDefault()
    ensures IsLeastOf(200, {200})
  {
  }
}
