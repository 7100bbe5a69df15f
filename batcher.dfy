/** `Batcher`: a two-state machine, idle (nothing pending) or accumulating
    (orders pending since `firstTime`). Orders are appended to a pending list;
    the list is flushed to the registered sink when it reaches `batchSize`, on
    timeout, or on a forced flush. The clock is the `now` parameter, in
    microseconds, and never goes backwards. The sink's calls are recorded in
    the ghost log `SinkCalls` instead of being dispatched. */
module Batching {
  import opened Orders

  /** One call of the sink: the batch handed over and its latency in microseconds. */
  datatype SinkCall = SinkCall(batch: seq<Order>, latencyUs: nat)

  /** The batches, concatenated in order. */
  function Concat(bs: seq<seq<Order>>): seq<Order>
  {
    if bs == [] then [] else bs[0] + Concat(bs[1..])
  }

  /** Flushing one more batch appends its orders to the concatenation. */
  lemma {:induction false} ConcatAppend(bs: seq<seq<Order>>, b: seq<Order>)
    ensures Concat(bs + [b]) == Concat(bs) + b
  {
    if bs != [] {
      ConcatAppend(bs[1..], b);
      assert (bs + [b])[1..] == bs[1..] + [b];
    }
  }

  /** The batches handed to the sink, in call order. */
  function BatchesOf(calls: seq<SinkCall>): (bs: seq<seq<Order>>)
    ensures |bs| == |calls|
    ensures forall i :: 0 <= i < |calls| ==> bs[i] == calls[i].batch
  {
    if calls == [] then [] else [calls[0].batch] + BatchesOf(calls[1..])
  }

  /** The sink calls a flush of `batch` makes: one when a sink is set, none otherwise. */
  function SinkLog(hasSink: bool, batch: seq<Order>, latencyUs: nat): (log: seq<SinkCall>)
    ensures |log| <= 1
    ensures hasSink ==> BatchesOf(log) == [batch]
  {
    if hasSink then [SinkCall(batch, latencyUs)] else []
  }

  /** Appending one order to both the pending list and the added log keeps them in step. */
  lemma AppendConserves(flushed: seq<Order>, pending: seq<Order>, added: seq<Order>, o: Order)
    requires flushed + pending == added
    ensures flushed + (pending + [o]) == added + [o]
  {
    assert flushed + (pending + [o]) == (flushed + pending) + [o];
  }

  class Batcher {
    /** The pending orders, in insertion order. */
    var buffer: seq<Order>
    const batchSize: nat
    const timeoutUs: nat
    /** The time the first pending order arrived. */
    var firstTime: nat
    var started: bool
    /** Whether a sink is registered (the code tests `if (send_)`). */
    const hasSink: bool

    /** The latest `now` seen. */
    ghost var clock: nat
    /** Every order added so far. */
    ghost var Added: seq<Order>
    /** Every batch flushed so far, whether or not a sink received it. */
    ghost var Flushed: seq<seq<Order>>
    /** Every sink call made so far. */
    ghost var SinkCalls: seq<SinkCall>

    /** Everything but the size bound: what holds between appending and flushing. */
    ghost predicate Consistent()
      reads this
    {
      && (started <==> buffer != [])
      && firstTime <= clock
      && Concat(Flushed) + buffer == Added
      && (forall i :: 0 <= i < |Flushed| ==> Flushed[i] != [])
      && (hasSink ==> BatchesOf(SinkCalls) == Flushed)
      && (!hasSink ==> SinkCalls == [])
    }

    ghost predicate Valid()
      reads this
    {
      Consistent() && (buffer == [] || |buffer| < batchSize)
    }

    /** `Batcher(batch_size, timeout, send)`: idle, nothing pending. */
    constructor (batchSize: nat, timeoutUs: nat, hasSink: bool)
      ensures Valid()
      ensures this.batchSize == batchSize && this.timeoutUs == timeoutUs && this.hasSink == hasSink
      ensures buffer == [] && !started && Added == [] && Flushed == [] && SinkCalls == []
      ensures clock == 0
    {
      this.batchSize := batchSize;
      this.timeoutUs := timeoutUs;
      this.hasSink := hasSink;
      buffer := [];
      firstTime := 0;
      started := false;
      clock := 0;
      Added := [];
      Flushed := [];
      SinkCalls := [];
    }

    /** `flush()`: with orders pending, hands them to the sink (when set) with
        latency `now - firstTime`, then empties the list and goes idle,
        whatever the sink did. With nothing pending it does nothing. */
    method Flush(now: nat)
      requires Consistent() && clock <= now
      modifies this
      ensures Valid()
      ensures clock == old(clock) && Added == old(Added) && firstTime == old(firstTime)
      ensures old(buffer) == [] ==> buffer == [] && Flushed == old(Flushed) && SinkCalls == old(SinkCalls)
      ensures old(buffer) != [] ==>
        && buffer == [] && !started
        && Flushed == old(Flushed) + [old(buffer)]
        && SinkCalls == old(SinkCalls) + SinkLog(hasSink, old(buffer), now - old(firstTime))
    {
      if buffer == [] {
        return;
      }
      var latency := now - firstTime;
      ConcatAppend(Flushed, buffer);
      SinkCalls := SinkCalls + SinkLog(hasSink, buffer, latency);
      Flushed := Flushed + [buffer];
      buffer := [];
      started := false;
    }

    /** `add_order(o)`: an idle batcher records `now` as the batch start; the
        order goes to the end of the pending list; reaching `batchSize` flushes. */
    method AddOrder(o: Order, now: nat)
      requires Valid() && clock <= now
      modifies this
      ensures Valid() && clock == now
      ensures Added == old(Added) + [o]
      ensures firstTime == if old(started) then old(firstTime) else now
      ensures |old(buffer)| + 1 >= batchSize ==>
        && buffer == [] && !started
        && Flushed == old(Flushed) + [old(buffer) + [o]]
        && SinkCalls == old(SinkCalls) + SinkLog(hasSink, old(buffer) + [o], now - firstTime)
      ensures |old(buffer)| + 1 < batchSize ==>
        buffer == old(buffer) + [o] && started && Flushed == old(Flushed) && SinkCalls == old(SinkCalls)
      ensures batchSize >= 1 ==> |buffer| < batchSize
    {
      clock := now;
      if !started {
        firstTime := now;
        started := true;
      }
      AppendConserves(Concat(Flushed), buffer, Added, o);
      buffer := buffer + [o];
      Added := Added + [o];
      assert Consistent();
      if |buffer| < batchSize {
        return;
      }
      Flush(now);
    }

    /** `check_timeout()`: when accumulating for at least `timeoutUs`, flushes
        and reports true; otherwise reports false and changes nothing. */
    method CheckTimeout(now: nat) returns (fired: bool)
      requires Valid() && clock <= now
      modifies this
      ensures Valid() && clock == now
      ensures fired <==> old(started) && now - old(firstTime) >= timeoutUs
      ensures Added == old(Added) && firstTime == old(firstTime)
      ensures fired ==>
        && buffer == [] && !started
        && Flushed == old(Flushed) + [old(buffer)]
        && SinkCalls == old(SinkCalls) + SinkLog(hasSink, old(buffer), now - old(firstTime))
      ensures !fired ==>
        buffer == old(buffer) && started == old(started) && Flushed == old(Flushed) && SinkCalls == old(SinkCalls)
    {
      clock := now;
      if !started || buffer == [] {
        return false;
      }
      if now - firstTime >= timeoutUs {
        Flush(now);
        return true;
      }
      return false;
    }

    /** `force_flush()`: flushes whatever is pending; with nothing pending it
        makes no sink call. */
    method ForceFlush(now: nat)
      requires Valid() && clock <= now
      modifies this
      ensures Valid() && clock == now
      ensures buffer == [] && !started
      ensures Added == old(Added) && firstTime == old(firstTime)
      ensures Concat(Flushed) == Added
      ensures old(buffer) == [] ==> Flushed == old(Flushed) && SinkCalls == old(SinkCalls)
      ensures old(buffer) != [] ==>
        && Flushed == old(Flushed) + [old(buffer)]
        && SinkCalls == old(SinkCalls) + SinkLog(hasSink, old(buffer), now - old(firstTime))
    {
      clock := now;
      if buffer != [] {
        Flush(now);
      }
    }
  }

  /** With a sink set, the batches it has received followed by the pending
      orders are exactly the orders added, in order. */
  lemma SinkReceivesAddedInOrder(b: Batcher)
    requires b.Valid() && b.hasSink
    ensures Concat(BatchesOf(b.SinkCalls)) + b.buffer == b.Added
    ensures forall i :: 0 <= i < |b.SinkCalls| ==> b.SinkCalls[i].batch != []
  {
  }

  /** Size threshold 3: three adds make exactly one sink call carrying all
      three in insertion order and leave the batcher idle. */
  method ThresholdScenario(x: Order, y: Order, z: Order) returns (pending: nat)
    ensures pending == 0
  {
    var b := new Batcher(3, 1000, true);
    b.AddOrder(x, 10);
    b.AddOrder(y, 20);
    assert b.buffer == [x, y] && b.SinkCalls == [] && b.firstTime == 10;
    b.AddOrder(z, 30);
    assert [x, y] + [z] == [x, y, z];
    assert b.SinkCalls == [SinkCall([x, y, z], 20)];
    pending := |b.buffer|;
  }

  /** Two adds with threshold 3: a timeout check before the timeout does
      nothing; one after it flushes exactly those two. */
  method TimeoutScenario(x: Order, y: Order) returns (early: bool, late: bool)
    ensures !early && late
  {
    var b := new Batcher(3, 1000, true);
    b.AddOrder(x, 0);
    b.AddOrder(y, 5);
    assert b.buffer == [x, y] && b.SinkCalls == [] && b.firstTime == 0;
    early := b.CheckTimeout(999);
    assert b.SinkCalls == [];
    late := b.CheckTimeout(1000);
    assert b.SinkCalls == [SinkCall([x, y], 1000)];
  }
}
