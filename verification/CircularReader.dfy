/** Raw input events, and the sensor events made of them. */
module SensorTypes {

  datatype InputEvent = InputEvent(typ: int, code: int, value: int, time: int)

  const EV_SYN := 0
  const EV_ABS := 3
  const EINVAL := 22

  /** A sensor's readings, before unit conversion. */
  datatype Sample = Sample(x: int, y: int, z: int, status: int, time: int)

  /** A sensor event as delivered, tagged with the driver-local sensor number. */
  datatype Report = Report(sensor: nat, sample: Sample)
}

/** The ring buffer between the kernel's input queue and a sensor driver. */
module CircularReader {

  import opened SensorTypes

  /** What a read system call may do to the slots it was given: fail, fill some of them
      but return a size that is not a whole number of events, or deliver whole events. */
  datatype ReadOutcome =
    | Failed(errno: int)
    | Torn(slots: seq<InputEvent>)
    | Whole(events: seq<InputEvent>)
  {
    predicate Possible(room: nat) {
      match this
      case Failed(errno) => errno > 0
      case Torn(slots) => |slots| <= room
      case Whole(events) => |events| <= room
    }

    /** The value fill returns; it does not call read when there is no room. */
    function Status(room: nat): int {
      if room == 0 then 0
      else
        match this
        case Failed(errno) => -errno
        case Torn(_) => -EINVAL
        case Whole(events) => |events|
    }

    /** The events fill takes in. */
    function Taken(room: nat): seq<InputEvent> {
      if room == 0 || !Whole? then [] else events
    }
  }

  function SlotFrom(curr: nat, end: nat, i: nat): nat {
    if curr + i < end then curr + i else curr + i - end
  }

  /** Where the head may be with n unread events from slot curr on; it may rest on the capacity
      itself, and then stays there until the next fill. */
  predicate HeadAt(head: nat, curr: nat, end: nat, n: nat) {
    && n <= end && head <= end && (curr < end || curr == end == 0)
    && if curr + n > end then head == curr + n - end
       else head == curr + n || (curr + n == 0 && head == end)
  }

  /** The buffer after n events were stored at the head and the overflow copied back. */
  predicate CopiedBack(was: seq<InputEvent>, now: seq<InputEvent>, end: nat, head: nat) {
    && |was| == |now| == 2 * end && head <= 2 * end
    && (forall i | 0 <= i < head - end :: now[i] == was[end + i])
    && forall i | 0 <= i < |now| && i >= head - end :: now[i] == was[i]
  }

  lemma TailGrows(s: seq<InputEvent>, n: nat, t: seq<InputEvent>)
    requires n <= |s|
    ensures (s + t)[n..] == s[n..] + t
  {
  }

  lemma OldKept(was: seq<InputEvent>, now: seq<InputEvent>, curr: nat, end: nat, head: nat,
                before: seq<InputEvent>, n: nat)
    requires HeadAt(head, curr, end, |before|) && |before| + n <= end && CopiedBack(was, now, end, head + n)
    requires forall i | 0 <= i < |before| :: was[SlotFrom(curr, end, i)] == before[i]
    ensures forall i | 0 <= i < |before| :: now[SlotFrom(curr, end, i)] == before[i]
  {
    forall i | 0 <= i < |before|
      ensures now[SlotFrom(curr, end, i)] == before[i]
    {
      assert was[SlotFrom(curr, end, i)] == before[i];
      assert SlotFrom(curr, end, i) >= head + n - end;
    }
  }

  lemma NewPlaced(was: seq<InputEvent>, now: seq<InputEvent>, curr: nat, end: nat, head: nat,
                  k: nat, events: seq<InputEvent>)
    requires HeadAt(head, curr, end, k) && k + |events| <= end && CopiedBack(was, now, end, head + |events|)
    requires was[head..head + |events|] == events
    ensures forall j | 0 <= j < |events| :: now[SlotFrom(curr, end, k + j)] == events[j]
  {
    forall j | 0 <= j < |events|
      ensures now[SlotFrom(curr, end, k + j)] == events[j]
    {
      assert was[head..head + |events|][j] == was[head + j];
      if head + j < end {
        assert SlotFrom(curr, end, k + j) == head + j;
      } else {
        assert SlotFrom(curr, end, k + j) == head + j - end;
      }
    }
  }

  class InputEventCircularReader {
    const buffer: array<InputEvent>   // twice the capacity
    const end: nat                    // the capacity
    var head: nat
    var curr: nat
    var freeSpace: nat

    ghost var received: seq<InputEvent>   // every event taken in so far
    ghost var consumed: nat               // how many of them were passed by next

    /** The slot of the i-th unread event. */
    ghost function Slot(i: nat): nat
      reads this
    {
      SlotFrom(curr, end, i)
    }

    ghost function Unread(): (s: seq<InputEvent>)
      requires buffer.Length == 2 * end && freeSpace <= end && curr <= end
      reads this, buffer
      ensures |s| == end - freeSpace
    {
      seq(end - freeSpace, i requires 0 <= i < end - freeSpace reads this, buffer
                             requires buffer.Length == 2 * end && freeSpace <= end && curr <= end
                           => buffer[Slot(i)])
    }

    /** The unread events are those received and not yet consumed, in order. */
    ghost predicate Valid()
      reads this, buffer
      ensures Valid() ==> consumed <= |received| && freeSpace <= end
    {
      && buffer.Length == 2 * end
      && freeSpace <= end
      && HeadAt(head, curr, end, end - freeSpace)
      && consumed <= |received|
      && Unread() == received[consumed..]
    }

    constructor (numEvents: nat)
      ensures Valid() && fresh(buffer)
      ensures end == numEvents && freeSpace == numEvents
      ensures received == [] && consumed == 0
    {
      buffer := new InputEvent[numEvents * 2];
      end := numEvents;
      head, curr, freeSpace := 0, 0, numEvents;
      received, consumed := [], 0;
    }

    lemma RoomLeft()
      requires Valid()
      ensures |received[consumed..]| == end - freeSpace
    {
    }

    /** Reads as many events as fit, linearly from the head, and moves what passed the
        capacity to the front. */
    method Fill(r: ReadOutcome) returns (status: int)
      requires Valid() && r.Possible(freeSpace)
      modifies this`head, this`freeSpace, this`received, buffer
      ensures Valid()
      ensures status == r.Status(old(freeSpace))
      ensures received == old(received) + r.Taken(old(freeSpace))
      ensures freeSpace == old(freeSpace) - |r.Taken(old(freeSpace))|
    {
      status := 0;
      if freeSpace != 0 {
        match r
        case Failed(errno) => return -errno;
        case Torn(slots) =>
          Store(slots);
          return -EINVAL;
        case Whole(events) =>
          Store(events);
          status := |events|;
          if status != 0 {
            Accept(events, |events|);
          } else {
            assert received + events == received;
          }
      }
    }

    /** Moves the head past events already stored there. */
    method Accept(ghost events: seq<InputEvent>, n: nat)
      requires Valid() && 0 < n == |events| <= freeSpace
      requires head + n <= 2 * end && buffer[head..head + n] == events
      modifies this`head, this`freeSpace, this`received, buffer
      ensures Valid()
      ensures received == old(received) + events
      ensures freeSpace == old(freeSpace) - n
    {
      hide SlotFrom, CopiedBack, Unread;
      ghost var first, was := head, buffer[..];
      UnreadSlots();
      TailGrows(received, consumed, events);
      assert was[first..first + n] == events;
      Advance(n);
      received := received + events;
      NowUnread(was, first, old(received)[consumed..], events);
    }

    /** What is unread after the head has moved past the events. */
    lemma NowUnread(was: seq<InputEvent>, first: nat, before: seq<InputEvent>, events: seq<InputEvent>)
      requires buffer.Length == 2 * end && |before| + |events| == end - freeSpace
      requires HeadAt(first, curr, end, |before|) && CopiedBack(was, buffer[..], end, first + |events|)
      requires forall i | 0 <= i < |before| :: was[SlotFrom(curr, end, i)] == before[i]
      requires was[first..first + |events|] == events
      ensures Unread() == before + events
    {
      OldKept(was, buffer[..], curr, end, first, before, |events|);
      NewPlaced(was, buffer[..], curr, end, first, |before|, events);
      Arrived(before, events);
    }

    /** The pointer arithmetic, with the copy of what passed the capacity. */
    method Advance(n: nat)
      requires buffer.Length == 2 * end && head + n <= 2 * end && n <= freeSpace && head <= end
      modifies this`head, this`freeSpace, buffer
      ensures CopiedBack(old(buffer[..]), buffer[..], end, old(head) + n)
      ensures freeSpace == old(freeSpace) - n
      ensures head == if old(head) + n > end then old(head) + n - end else old(head) + n
    {
      head := head + n;
      freeSpace := freeSpace - n;
      if head > end {
        CopyBack(head - end);
        head := head - end;
      }
    }

    lemma UnreadSlots()
      requires Valid()
      ensures |received[consumed..]| == end - freeSpace
      ensures forall i | 0 <= i < end - freeSpace :: SlotFrom(curr, end, i) < |buffer[..]|
      ensures forall i | 0 <= i < end - freeSpace :: buffer[..][SlotFrom(curr, end, i)] == received[consumed..][i]
    {
    }

    /** The memcpy of the overflow, onto slots that hold nothing unread. */
    method CopyBack(s: nat)
      requires buffer.Length == 2 * end && s <= end
      modifies buffer
      ensures CopiedBack(old(buffer[..]), buffer[..], end, end + s)
    {
      forall i | 0 <= i < s {
        buffer[i] := buffer[end + i];
      }
    }

    lemma Arrived(before: seq<InputEvent>, events: seq<InputEvent>)
      requires buffer.Length == 2 * end && freeSpace <= end && curr <= end
      requires |before| + |events| == end - freeSpace
      requires forall i | 0 <= i < |before| :: buffer[..][SlotFrom(curr, end, i)] == before[i]
      requires forall i | 0 <= i < |events| :: buffer[..][SlotFrom(curr, end, |before| + i)] == events[i]
      ensures Unread() == before + events
    {
      forall i | 0 <= i < end - freeSpace
        ensures buffer[Slot(i)] == (before + events)[i]
      {
        if i >= |before| {
          assert buffer[..][SlotFrom(curr, end, |before| + (i - |before|))] == events[i - |before|];
        } else {
          assert buffer[..][SlotFrom(curr, end, i)] == before[i];
        }
      }
    }

    /** The stores of a read call, into free slots at the head. */
    method Store(events: seq<InputEvent>)
      requires Valid() && |events| <= freeSpace
      modifies buffer
      ensures Valid()
      ensures head + |events| <= 2 * end
      ensures buffer[head..head + |events|] == events
      ensures forall j | 0 <= j < 2 * end && !(head <= j < head + |events|) ::
                buffer[j] == old(buffer[j])
    {
      forall i | 0 <= i < |events| {
        buffer[head + i] := events[i];
      }
      assert Unread() == old(Unread());
    }

    /** The slot of the next event; it holds one only when `available`. */
    method ReadEvent() returns (slot: nat, available: bool)
      requires Valid()
      ensures available <==> consumed < |received|
      ensures available ==> slot < buffer.Length && buffer[slot] == received[consumed]
    {
      slot := curr;
      available := end - freeSpace != 0;
      assert |Unread()| == |received| - consumed;
      if available {
        assert Unread()[0] == buffer[Slot(0)];
      }
    }

    method Next()
      requires Valid() && consumed < |received|
      modifies this`curr, this`freeSpace, this`consumed
      ensures Valid()
      ensures consumed == old(consumed) + 1
      ensures freeSpace == old(freeSpace) + 1
    {
      ghost var before := Unread();
      curr := curr + 1;
      freeSpace := freeSpace + 1;
      if curr >= end {
        curr := 0;
      }
      consumed := consumed + 1;
      assert Unread() == before[1..];
    }
  }
}
