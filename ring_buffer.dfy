/** `OrderRingBuffer`: a fixed-capacity circular buffer of orders with a write
    cursor (`head`) and a read cursor (`tail`), all cursor arithmetic masked by
    `capacity - 1`. One slot always stays empty, so at most `capacity - 1`
    orders are live. The cursors are atomics in the C++ `OrderRingBuffer`; here
    they are plain fields and calls are taken one at a time. */
module RingBuffer {
  import opened Wrappers
  import opened Orders
  import opened Bits

  /** The live slots of s: from tail up to (not including) head, wrapping at the end. */
  ghost function Window(s: seq<Order>, tail: nat, head: nat): seq<Order>
    requires tail <= |s| && head <= |s|
  {
    if tail <= head then s[tail..head] else s[tail..] + s[..head]
  }

  /** The number of live slots is the cursor distance modulo the capacity. */
  lemma WindowLength(s: seq<Order>, tail: nat, head: nat)
    requires tail < |s| && head < |s|
    ensures |Window(s, tail, head)| == (head - tail) % |s|
  {
    if tail <= head {
      ModUnique(head - tail, |s|, 0, head - tail);
    } else {
      ModUnique(head - tail, |s|, -1, head - tail + |s|);
    }
  }

  /** Advancing head would meet tail exactly when the cursor distance is capacity - 1. */
  lemma FullWhenOneSlotLeft(cap: nat, tail: nat, head: nat)
    requires tail < cap && head < cap
    ensures (head + 1) % cap == tail <==> (head - tail) % cap == cap - 1
  {
    if head + 1 < cap {
      ModUnique(head + 1, cap, 0, head + 1);
    } else {
      ModUnique(head + 1, cap, 1, 0);
    }
    if tail <= head {
      ModUnique(head - tail, cap, 0, head - tail);
    } else {
      ModUnique(head - tail, cap, -1, head - tail + cap);
    }
  }

  /** Writing slot head and advancing head appends to the live window. */
  lemma WindowPush(s: seq<Order>, tail: nat, head: nat, x: Order)
    requires tail < |s| && head < |s| && (head + 1) % |s| != tail
    ensures Window(s[head := x], tail, (head + 1) % |s|) == Window(s, tail, head) + [x]
  {
    var s' := s[head := x];
    if head + 1 < |s| {
      ModUnique(head + 1, |s|, 0, head + 1);
      if tail <= head {
        assert s'[tail..head + 1] == s[tail..head] + [x];
      } else {
        assert s'[tail..] == s[tail..];
        assert s'[..head + 1] == s[..head] + [x];
      }
    } else {
      ModUnique(head + 1, |s|, 1, 0);
      assert s'[tail..] == s[tail..head] + [x];
    }
  }

  /** Reading slot tail and advancing tail removes the oldest live element. */
  lemma WindowPop(s: seq<Order>, tail: nat, head: nat)
    requires tail < |s| && head < |s| && head != tail
    ensures Window(s, tail, head) != [] && Window(s, tail, head)[0] == s[tail]
    ensures Window(s, (tail + 1) % |s|, head) == Window(s, tail, head)[1..]
  {
    if tail + 1 < |s| {
      ModUnique(tail + 1, |s|, 0, tail + 1);
      if tail > head {
        assert (s[tail..] + s[..head])[1..] == s[tail + 1..] + s[..head];
      }
    } else {
      ModUnique(tail + 1, |s|, 1, 0);
      assert s[tail..] == [s[tail]];
      assert (s[tail..] + s[..head])[1..] == s[..head];
    }
  }

  /** The constructor's check `(capacity & (capacity - 1)) == 0`, in `size_t` arithmetic. */
  predicate CapacityCheck(c: nat)
  {
    BitAnd(c, Sub64(c, 1)) == 0
  }

  /** The slot `try_push` writes, computed as the code does for any capacity
      (None when it reports full). */
  function PushSlotAsWritten(c: nat, head: nat, tail: nat): (r: Option<nat>)
  {
    if BitAnd(head + 1, Sub64(c, 1)) == tail then None else Some(head)
  }

  /** Capacity 0 passes the constructor's check, and the first `try_push` on the
      empty buffer then goes ahead and writes slot 0 of a zero-length array. */
  lemma ZeroCapacityPushOutOfBounds()
    ensures CapacityCheck(0) && !IsPow2(0)
    ensures PushSlotAsWritten(0, 0, 0) == Some(0)
  {
    var m := Sub64(0, 1);
    assert m == TWO64 - 1;
    assert m % 2 == 1;
    assert BitAnd(1, m) == 1;
  }

  /** With zero ruled out, the check admits exactly the powers of two. */
  lemma NonZeroCapacityCheck(c: nat)
    requires 0 < c < TWO64
    ensures CapacityCheck(c) <==> IsPow2(c)
  {
    ModUnique(c - 1, TWO64, 0, c - 1);
    PowerOfTwoTest(c);
  }

  class OrderRingBuffer {
    const buffer: array<Order>
    const capacity: nat
    var head: nat
    var tail: nat
    /** The orders pushed and not yet popped, oldest first. */
    ghost var Contents: seq<Order>

    ghost predicate Valid()
      reads this, buffer
    {
      && buffer.Length == capacity
      && IsPow2(capacity) && capacity < TWO64
      && head < capacity && tail < capacity
      && Contents == Window(buffer[..], tail, head)
    }

    /** `OrderRingBuffer(capacity)`: the code's power-of-two check, with the
        capacity 0 that it lets through excluded. Every slot holds `Order()`. */
    constructor (capacity: nat)
      requires 0 < capacity < TWO64 && CapacityCheck(capacity)
      ensures Valid() && fresh(buffer)
      ensures this.capacity == capacity && head == 0 && tail == 0 && Contents == []
      ensures buffer[..] == seq(capacity, _ => DefaultOrder())
    {
      NonZeroCapacityCheck(capacity);
      this.capacity := capacity;
      buffer := new Order[capacity](_ => DefaultOrder());
      head, tail := 0, 0;
      Contents := [];
    }

    /** `try_push(item)`: fails, changing nothing, exactly when advancing head
        would meet tail, i.e. when `capacity - 1` orders are live; otherwise
        writes slot head, advances head and appends the item. */
    method TryPush(item: Order) returns (ok: bool)
      requires Valid()
      modifies this, buffer
      ensures Valid()
      ensures ok <==> (old(head) + 1) % capacity != old(tail)
      ensures ok <==> |old(Contents)| < capacity - 1
      ensures ok ==> Contents == old(Contents) + [item]
      ensures ok ==> buffer[..] == old(buffer[..])[old(head) := item] && head == (old(head) + 1) % capacity
      ensures !ok ==> Contents == old(Contents) && buffer[..] == old(buffer[..]) && head == old(head)
      ensures tail == old(tail)
    {
      WindowLength(buffer[..], tail, head);
      FullWhenOneSlotLeft(capacity, tail, head);
      var h := head;
      MaskIsMod(h + 1, capacity);
      var next := BitAnd(h + 1, capacity - 1);
      var t := tail;
      if next == t {
        return false;
      }
      ghost var s := buffer[..];
      WindowPush(s, t, h, item);
      buffer[h] := item;
      assert buffer[..] == s[h := item];
      head := next;
      Contents := Contents + [item];
      ok := true;
    }

    /** `try_pop(item)`: fails, changing nothing and leaving `item` as it was,
        exactly when head equals tail; otherwise yields the oldest live order
        (the one in slot tail) and advances tail. */
    method TryPop(item: Order) returns (ok: bool, popped: Order)
      requires Valid()
      modifies this
      ensures Valid()
      ensures ok <==> old(head) != old(tail)
      ensures ok <==> old(Contents) != []
      ensures ok ==> popped == old(Contents)[0] && Contents == old(Contents)[1..]
      ensures ok ==> popped == buffer[old(tail)] && tail == (old(tail) + 1) % capacity
      ensures !ok ==> popped == item && Contents == old(Contents) && tail == old(tail)
      ensures head == old(head)
    {
      var t := tail;
      var h := head;
      if t == h {
        return false, item;
      }
      WindowPop(buffer[..], t, h);
      popped := buffer[t];
      MaskIsMod(t + 1, capacity);
      tail := BitAnd(t + 1, capacity - 1);
      Contents := Contents[1..];
      ok := true;
    }

    /** `empty()`. */
    function Empty(): (b: bool)
      reads this, buffer
      requires Valid()
      ensures b <==> Contents == []
    {
      WindowLength(buffer[..], tail, head);
      head == tail
    }

    /** `full()`: exactly `capacity - 1` orders are live. */
    function Full(): (b: bool)
      reads this, buffer
      requires Valid()
      ensures b <==> |Contents| == capacity - 1
    {
      WindowLength(buffer[..], tail, head);
      FullWhenOneSlotLeft(capacity, tail, head);
      MaskIsMod(head + 1, capacity);
      BitAnd(head + 1, capacity - 1) == tail
    }

    /** `size()`: `(head - tail) & (capacity - 1)` in `size_t` arithmetic, which
        is the number of live orders and never more than `capacity - 1`. */
    function Size(): (n: nat)
      reads this, buffer
      requires Valid()
      ensures n == |Contents| && n == (head - tail) % capacity && n <= capacity - 1
    {
      WindowLength(buffer[..], tail, head);
      MaskIsMod(Sub64(head, tail), capacity);
      ModTWO64ThenPow2(head - tail, capacity);
      BitAnd(Sub64(head, tail), capacity - 1)
    }

    /** `capacity()`. */
    function Capacity(): (c: nat)
      reads this, buffer
      requires Valid()
      ensures c == buffer.Length && |Contents| < c
    {
      WindowLength(buffer[..], tail, head);
      capacity
    }

    /** `clear()`: both cursors back to 0, so nothing is live; the slots keep their contents. */
    method Clear()
      requires Valid()
      modifies this
      ensures Valid()
      ensures head == 0 && tail == 0 && Contents == []
    {
      head := 0;
      tail := 0;
      Contents := [];
    }
  }

  /** The capacity-4 scenario: three pushes fit, the fourth reports full, the
      three come back out in push order, and a further pop reports empty. */
  method CapacityFourScenario(a: Order, b: Order, c: Order, d: Order)
    returns (pushedD: bool, first: Order, second: Order, third: Order, poppedPastEmpty: bool)
    ensures !pushedD && first == a && second == b && third == c && !poppedPastEmpty
  {
    assert IsPow2(4) && BitAnd(4, 3) == 0;
    var rb := new OrderRingBuffer(4);
    var ok := rb.TryPush(a);
    assert ok;
    ok := rb.TryPush(b);
    assert ok;
    ok := rb.TryPush(c);
    assert ok;
    pushedD := rb.TryPush(d);
    ok, first := rb.TryPop(DefaultOrder());
    ok, second := rb.TryPop(DefaultOrder());
    ok, third := rb.TryPop(DefaultOrder());
    var unused;
    poppedPastEmpty, unused := rb.TryPop(DefaultOrder());
  }
}
