/** The driver's buffer queue under getPreviewFrame, on the path of the built-in camera:
    take the oldest frame, drop it for the next one if that is ready, give buffers back. */
module BufferQueue {

  /** A filled buffer, with the number of the frame in it. */
  datatype Filled = Filled(index: nat, frame: nat)

  /** The buffers by their index, oldest first. */
  function Indices(s: seq<Filled>): (r: seq<nat>)
    ensures |r| == |s|
    ensures forall i | 0 <= i < |s| :: r[i] == s[i].index
  {
    seq(|s|, i requires 0 <= i < |s| => s[i].index)
  }

  /** Buffers filled one after the other, from a frame number on. */
  function FilledFrom(buffers: seq<nat>, frame: nat): (r: seq<Filled>)
    ensures |r| == |buffers|
    ensures forall i | 0 <= i < |r| :: r[i] == Filled(buffers[i], frame + i)
  {
    seq(|buffers|, i requires 0 <= i < |buffers| => Filled(buffers[i], frame + i))
  }

  lemma FilledSnoc(buffers: seq<nat>, frame: nat, k: nat)
    requires k < |buffers|
    ensures FilledFrom(buffers[..k + 1], frame) == FilledFrom(buffers[..k], frame) + [Filled(buffers[k], frame + k)]
  {
  }

  lemma IndicesSnoc(s: seq<Filled>, f: Filled, rest: seq<nat>)
    ensures Indices(s + [f]) + rest == Indices(s) + ([f.index] + rest)
  {
  }

  function Min(a: nat, b: nat): nat {
    if a < b then a else b
  }

  /** What is filled after the oldest frame is taken and the sensor has delivered n more. */
  lemma NextFilled(done: seq<Filled>, free: seq<nat>, frame: nat, n: nat)
    requires done != []
    ensures var next := done[1..] + FilledFrom(free[..Min(n, |free|)], frame);
            && (next != [] <==> |done| >= 2 || (n > 0 && free != []))
            && (next != [] ==> next[0].frame == if |done| >= 2 then done[1].frame else frame)
  {
  }

  /** `s` turned left by k places. */
  function Rotated(s: seq<nat>, k: nat): (r: seq<nat>)
    requires k <= |s|
    ensures |r| == |s|
  {
    s[k..] + s[..k]
  }

  ghost predicate IsRotation(r: seq<nat>, s: seq<nat>) {
    exists k | 0 <= k <= |s| :: r == Rotated(s, k)
  }

  lemma RotateOnce(r: seq<nat>, s: seq<nat>)
    requires IsRotation(r, s) && r != []
    ensures IsRotation(r[1..] + [r[0]], s)
  {
    var k :| 0 <= k <= |s| && r == Rotated(s, k);
    var j := if k == |s| then 0 else k;
    assert r == Rotated(s, j);
    assert r[1..] + [r[0]] == Rotated(s, j + 1);
  }

  ghost predicate Increasing(s: seq<Filled>) {
    forall i, j | 0 <= i < j < |s| :: s[i].frame < s[j].frame
  }

  ghost predicate InOrder(s: seq<nat>, last: int) {
    && (forall i | 0 <= i < |s| :: s[i] <= last)
    && forall i, j | 0 <= i < j < |s| :: s[i] < s[j]
  }

  /** Taking the first and giving it back. */
  lemma OneTurn(order: seq<nat>, all: seq<nat>, a: nat, rest: seq<nat>)
    requires IsRotation(all, order) && all == [a] + rest
    ensures rest + [a] == Rotated(all, 1) && IsRotation(rest + [a], order)
  {
    RotateOnce(all, order);
    assert all[1..] + [all[0]] == rest + [a];
  }

  /** Taking two and giving both back, in order. */
  lemma TwoTurns(order: seq<nat>, all: seq<nat>, a: nat, b: nat, rest: seq<nat>)
    requires IsRotation(all, order) && all == [a] + rest && rest != [] && rest[0] == b
    ensures |all| >= 2 && all[1] == b
    ensures rest[1..] + [a] + [b] == Rotated(all, 2) && IsRotation(rest[1..] + [a] + [b], order)
  {
    OneTurn(order, all, a, rest);
    assert rest + [a] == [b] + (rest[1..] + [a]);
    OneTurn(order, rest + [a], b, rest[1..] + [a]);
  }

  lemma InOrderSnoc(s: seq<nat>, last: int, n: nat)
    requires InOrder(s, last) && last < n
    ensures InOrder(s + [n], n)
  {
  }

  class Driver {
    var done: seq<Filled>     // filled buffers, oldest frame first
    var free: seq<nat>        // buffers waiting to be filled
    var nextFrame: nat        // the number of the next frame the sensor delivers

    var current: nat          // m_current

    ghost const order: seq<nat>          // the order in which the buffers were first queued
    ghost var last: int                  // the last frame taken out of the driver
    ghost var returned: seq<nat>         // frames handed to the preview, in order
    ghost var dropped: seq<nat>          // frames given back unseen

    /** The filled buffers hold frames in the order of capture, all of them later than the
        last one taken out. */
    ghost predicate Ordered()
      reads `done, `last, `nextFrame
    {
      && Increasing(done)
      && last < nextFrame
      && forall f | f in done :: last < f.frame < nextFrame
    }

    /** The driver owns every buffer, in a rotation of the original order, and the preview
        has been given frames in the order of capture. */
    ghost predicate Valid()
      reads this
    {
      && Ordered()
      && IsRotation(Indices(done) + free, order)
      && InOrder(returned, last)
    }

    constructor (buffers: seq<nat>)
      ensures Valid() && order == buffers && free == buffers && done == [] && returned == []
    {
      done, free, nextFrame, current := [], buffers, 0, 0;
      order := buffers;
      last, returned, dropped := -1, [], [];
      new;
      assert Indices(done) + free == Rotated(order, 0);
    }

    /** The sensor delivers n frames: the first ones fill the free buffers in their order, and
        once there is none left frames are lost. */
    method Capture(n: nat)
      requires Ordered()
      modifies this`done, this`free, this`nextFrame
      ensures Ordered()
      ensures Indices(done) + free == old(Indices(done) + free)
      ensures var m := Min(n, |old(free)|);
              && done == old(done) + FilledFrom(old(free)[..m], old(nextFrame))
              && free == old(free)[m..]
              && nextFrame == old(nextFrame) + n
    {
      hide Indices, FilledFrom;
      ghost var done0, free0, frame0 := done, free, nextFrame;
      var k := 0;
      while k < n
        invariant Ordered() && k <= n
        invariant Indices(done) + free == old(Indices(done) + free)
        invariant nextFrame == frame0 + k
        invariant var m := Min(k, |free0|);
                  done == done0 + FilledFrom(free0[..m], frame0) && free == free0[m..]
      {
        if free != [] {
          var filled := Filled(free[0], nextFrame);
          FilledSnoc(free0, frame0, k);
          IndicesSnoc(done, filled, free[1..]);
          assert [free[0]] + free[1..] == free;
          done, free := done + [filled], free[1..];
        }
        nextFrame := nextFrame + 1;
        k := k + 1;
      }
    }

    /** VIDIOC_DQBUF: the oldest filled buffer. */
    method Dequeue() returns (b: Filled)
      requires Ordered() && done != []
      modifies this`done, this`last
      ensures Ordered() && last == b.frame > old(last)
      ensures b == old(done)[0] && done == old(done)[1..]
      ensures old(Indices(done) + free) == [b.index] + (Indices(done) + free)
    {
      b := done[0];
      done := done[1..];
      last := b.frame;
      assert old(Indices(done)) == [b.index] + Indices(done);
    }

    /** VIDIOC_QBUF. */
    method Enqueue(index: nat)
      requires Ordered()
      modifies this`free
      ensures Ordered()
      ensures Indices(done) + free == old(Indices(done) + free) + [index]
      ensures free == old(free) + [index]
    {
      free := free + [index];
    }

    /** Whether a second frame is ready when the first has been taken and the sensor has
        delivered `gap` more. */
    predicate SecondReady(gap: nat)
      reads `done, `free
    {
      |done| >= 2 || (gap > 0 && free != [])
    }

    /** Another frame is ready: it is taken, and the buffer of the older one given back. */
    method DropForNext(first: Filled, gap: nat) returns (index: nat)
      requires Ordered() && done != []
      modifies `done, `free, `nextFrame, `last, `dropped
      ensures Ordered()
      ensures index == old(done)[0].index && last == old(done)[0].frame > old(last)
      ensures dropped == old(dropped) + [first.frame] && nextFrame == old(nextFrame) + gap
      ensures old(Indices(done) + free) != [] && old(Indices(done) + free)[0] == index
      ensures Indices(done) + free == old(Indices(done) + free)[1..] + [first.index]
    {
      hide Ordered, Indices;
      DoneIsHead();
      var second := Dequeue();
      assert ([second.index] + (Indices(done) + free))[1..] == Indices(done) + free;
      Capture(gap);
      Enqueue(first.index);
      dropped := dropped + [first.frame];
      index := second.index;
    }

    /** The oldest frame is taken, and the sensor goes on. */
    method TakeOldest(gap: nat) returns (first: Filled)
      requires Ordered() && done != []
      modifies `done, `free, `nextFrame, `last
      ensures Ordered() && nextFrame == old(nextFrame) + gap
      ensures first == old(done)[0] && last == first.frame > old(last)
      ensures [first.index] + (Indices(done) + free) == old(Indices(done) + free)
      ensures done != [] <==> old(SecondReady(gap))
      ensures done != [] ==> done[0].frame == if old(|done|) >= 2 then old(done)[1].frame else old(nextFrame)
    {
      hide Ordered, Indices, FilledFrom, Min;
      NextFilled(done, free, nextFrame, gap);
      first := Dequeue();
      Capture(gap);
    }

    /** As far as the buffer in hand. */
    method TakeFrame(gap1: nat, gap2: nat) returns (index: nat)
      requires Ordered() && done != [] && IsRotation(Indices(done) + free, order)
      modifies `done, `free, `nextFrame, `last, `dropped
      ensures Ordered() && IsRotation(Indices(done) + free + [index], order)
      ensures last > old(last)
      ensures nextFrame == old(nextFrame) + gap1 + (if old(SecondReady(gap1)) then gap2 else 0)
      ensures var all := old(Indices(done) + free); var oldest := old(done)[0].frame;
              if old(SecondReady(gap1)) then
                && dropped == old(dropped) + [oldest]
                && last == (if old(|done|) >= 2 then old(done)[1].frame else old(nextFrame)) > oldest
                && |all| >= 2 && index == all[1]
                && Indices(done) + free + [index] == Rotated(all, 2)
              else
                && dropped == old(dropped) && last == oldest && |all| >= 1 && index == all[0]
                && Indices(done) + free + [index] == Rotated(all, 1)
    {
      hide Ordered, Indices, IsRotation, Rotated, SecondReady;
      ghost var all := Indices(done) + free;
      var first := TakeOldest(gap1);
      index := first.index;
      ghost var rest := Indices(done) + free;
      if done != [] {
        index := DropForNext(first, gap2);
        TwoTurns(order, all, first.index, index, rest);
      } else {
        OneTurn(order, all, index, rest);
      }
    }

    /** getPreviewFrame, once previewPoll has seen a frame. The sensor goes on filling buffers
        between its ioctls. One frame is returned; the oldest one is dropped for the next if
        and only if that is ready, and the buffers come back in the order they were taken. */
    method GetPreviewFrame(gap1: nat, gap2: nat, gap3: nat) returns (index: nat)
      requires Valid() && done != []
      modifies this
      ensures Valid()
      ensures current == index
      ensures returned == old(returned) + [last]
      ensures nextFrame == old(nextFrame) + gap1 + (if old(SecondReady(gap1)) then gap2 else 0) + gap3
      ensures var all := old(Indices(done) + free); var oldest := old(done)[0].frame;
              if old(SecondReady(gap1)) then
                && dropped == old(dropped) + [oldest]
                && last == (if old(|done|) >= 2 then old(done)[1].frame else old(nextFrame)) > oldest
                && |all| >= 2 && index == all[1]
                && Indices(done) + free == Rotated(all, 2)
              else
                && dropped == old(dropped) && last == oldest && index == all[0]
                && Indices(done) + free == Rotated(all, 1)
    {
      hide Ordered, Indices, IsRotation, InOrder, Rotated, FilledFrom, Min, SecondReady;
      index := TakeFrame(gap1, gap2);
      current := index;
      Capture(gap3);
      Enqueue(index);
      InOrderSnoc(returned, old(last), last);
      returned := returned + [last];
    }

    lemma DoneIsHead()
      requires done != []
      ensures Indices(done) + free != [] && (Indices(done) + free)[0] == done[0].index
    {
    }
  }
}
