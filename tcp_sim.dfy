/** `TCPSimulator`: a reliable transport that retries lost attempts. Each
    random loss draw is replaced by an entry of the loss oracle `losses`
    (true: that attempt is lost); delays and sleeps are left out. */
module TcpSim {
  import opened Orders
  import opened NetworkStats

  /** Whether attempt i is lost. Attempts past the end of the oracle are delivered. */
  predicate Lost(losses: seq<bool>, i: nat)
  {
    i < |losses| && losses[i]
  }

  /** The index of the first delivered attempt among the first n, or n when all n are lost. */
  function FirstDelivered(losses: seq<bool>, n: nat): (k: nat)
    ensures k <= n
    ensures forall i :: 0 <= i < k ==> Lost(losses, i)
    ensures k < n ==> !Lost(losses, k)
  {
    if n == 0 then 0
    else
      var k := FirstDelivered(losses, n - 1);
      if k < n - 1 then k else if Lost(losses, n - 1) then n else n - 1
  }

  /** The number of attempts the retry loop may make: `max_retries + 1`, none when negative. */
  function Attempts(maxRetries: int): (n: nat)
    ensures maxRetries >= 0 ==> n == maxRetries + 1
  {
    if maxRetries < 0 then 0 else maxRetries + 1
  }

  /** Whether `send_reliable` succeeds: some attempt within the limit is delivered. */
  predicate ReliableDelivers(maxRetries: int, losses: seq<bool>)
  {
    FirstDelivered(losses, Attempts(maxRetries)) < Attempts(maxRetries)
  }

  /** The lost attempts `send_reliable` counts as dropped packets: those before
      the first delivered one, or all permitted attempts when none gets through. */
  function LostAttempts(maxRetries: int, losses: seq<bool>): (k: nat)
    ensures k <= Attempts(maxRetries)
    ensures forall i :: 0 <= i < k ==> Lost(losses, i)
    ensures k < Attempts(maxRetries) <==> ReliableDelivers(maxRetries, losses)
  {
    FirstDelivered(losses, Attempts(maxRetries))
  }

  /** The retransmissions `send_reliable` counts: one per lost attempt except
      the last permitted one. */
  function Retransmitted(maxRetries: int, losses: seq<bool>): (r: nat)
    ensures ReliableDelivers(maxRetries, losses) ==> r == LostAttempts(maxRetries, losses)
    ensures !ReliableDelivers(maxRetries, losses) ==> r == if maxRetries < 0 then 0 else maxRetries
    ensures r <= LostAttempts(maxRetries, losses)
  {
    var k := LostAttempts(maxRetries, losses);
    if maxRetries < 0 then 0 else if k <= maxRetries then k else maxRetries
  }

  /** Success means exactly that not every permitted attempt was lost. */
  lemma DeliversIffSomeAttemptGetsThrough(maxRetries: int, losses: seq<bool>)
    ensures ReliableDelivers(maxRetries, losses) <==>
      exists i :: 0 <= i < Attempts(maxRetries) && !Lost(losses, i)
  {
    var n := Attempts(maxRetries);
    var k := FirstDelivered(losses, n);
    if k < n {
      assert !Lost(losses, k);
    }
  }

  class TCPSimulator {
    const dropRate: real
    const baseDelayMs: int
    const maxRetries: int
    var droppedPackets: int
    var retransmissions: int

    /** Every retransmission follows a lost attempt. */
    ghost predicate Valid()
      reads this
    {
      0 <= retransmissions <= droppedPackets
    }

    /** `TCPSimulator(drop_rate, base_delay_ms, max_retries)`: counters at zero. */
    constructor (dropRate: real, baseDelayMs: int, maxRetries: int)
      ensures Valid()
      ensures this.dropRate == dropRate && this.baseDelayMs == baseDelayMs && this.maxRetries == maxRetries
      ensures droppedPackets == 0 && retransmissions == 0
    {
      this.dropRate := dropRate;
      this.baseDelayMs := baseDelayMs;
      this.maxRetries := maxRetries;
      droppedPackets := 0;
      retransmissions := 0;
    }

    /** `send_reliable(orders, latency)`: tries up to `max_retries + 1` times and
        succeeds at the first attempt that is not lost. Each lost attempt counts
        one dropped packet, and one retransmission unless it was the last. */
    method SendReliable(orders: seq<Order>, latencyUs: nat, losses: seq<bool>) returns (ok: bool)
      requires Valid()
      modifies this
      ensures Valid()
      ensures ok == ReliableDelivers(maxRetries, losses)
      ensures ok ==> var k := FirstDelivered(losses, Attempts(maxRetries));
        droppedPackets == old(droppedPackets) + k && retransmissions == old(retransmissions) + k
      ensures !ok ==>
        && droppedPackets == old(droppedPackets) + Attempts(maxRetries)
        && retransmissions == old(retransmissions) + (if maxRetries < 0 then 0 else maxRetries)
      ensures droppedPackets == old(droppedPackets) + LostAttempts(maxRetries, losses)
      ensures retransmissions == old(retransmissions) + Retransmitted(maxRetries, losses)
      ensures droppedPackets >= old(droppedPackets) && retransmissions >= old(retransmissions)
    {
      var retries := 0;
      while retries <= maxRetries
        invariant 0 <= retries <= Attempts(maxRetries)
        invariant forall i :: 0 <= i < retries ==> Lost(losses, i)
        invariant droppedPackets == old(droppedPackets) + retries
        invariant retransmissions == old(retransmissions) +
          (if retries <= maxRetries then retries else if maxRetries < 0 then 0 else maxRetries)
        invariant Valid()
      {
        if !Lost(losses, retries) {
          return true;
        }
        droppedPackets := droppedPackets + 1;
        if retries < maxRetries {
          retransmissions := retransmissions + 1;
        }
        retries := retries + 1;
      }
      return false;
    }

    /** `get_stats()`: the current counters and the configuration. */
    function GetStats(): (s: TCPStats)
      reads this
      requires Valid()
      ensures s.droppedPackets == droppedPackets && s.retransmissions == retransmissions
      ensures s.baseDelayMs == baseDelayMs && s.dropRate == dropRate
      ensures 0 <= s.retransmissions <= s.droppedPackets
    {
      TCPStats(droppedPackets, retransmissions, baseDelayMs, dropRate)
    }
  }

  /** `tcp_send_orders`: false when no simulator has been initialised (null). */
  method TcpSendOrders(sim: TCPSimulator?, orders: seq<Order>, latencyUs: nat, losses: seq<bool>) returns (ok: bool)
    requires sim != null ==> sim.Valid()
    modifies sim
    ensures sim != null ==> sim.Valid()
    ensures sim == null ==> !ok
    ensures sim != null ==> ok == ReliableDelivers(sim.maxRetries, losses)
    ensures sim != null ==>
      && sim.droppedPackets == old(sim.droppedPackets) + LostAttempts(sim.maxRetries, losses)
      && sim.retransmissions == old(sim.retransmissions) + Retransmitted(sim.maxRetries, losses)
    ensures sim != null && ok ==> var k := FirstDelivered(losses, Attempts(sim.maxRetries));
      sim.droppedPackets == old(sim.droppedPackets) + k && sim.retransmissions == old(sim.retransmissions) + k
    ensures sim != null && !ok ==>
      && sim.droppedPackets == old(sim.droppedPackets) + Attempts(sim.maxRetries)
      && sim.retransmissions == old(sim.retransmissions) + (if sim.maxRetries < 0 then 0 else sim.maxRetries)
  {
    if sim == null {
      return false;
    }
    ok := sim.SendReliable(orders, latencyUs, losses);
  }

  /** `get_tcp_stats`: all zeros when no simulator has been initialised. */
  function GetTcpStats(sim: TCPSimulator?): (s: TCPStats)
    reads sim
    requires sim != null ==> sim.Valid()
    ensures sim == null ==> s == TCP_STATS_ZERO
    ensures sim != null ==> s.droppedPackets == sim.droppedPackets && s.retransmissions == sim.retransmissions
    ensures 0 <= s.retransmissions <= s.droppedPackets
  {
    if sim == null then TCP_STATS_ZERO else sim.GetStats()
  }
}
