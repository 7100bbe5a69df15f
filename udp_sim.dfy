/** `UDPSimulator`: a lossy transport with a single attempt per send. The
    random loss draw becomes the oracle `lost`, and the jittered delay the
    oracle `jitteredDelayUs`; the sleep is reported as `delayUs`. */
module UdpSim {
  import opened Orders
  import opened NetworkStats

  class UDPSimulator {
    const dropRate: real
    const baseDelayUs: int
    const enableJitter: bool
    var packetsSent: int
    var packetsDropped: int

    /** Every dropped packet was sent. */
    ghost predicate Valid()
      reads this
    {
      0 <= packetsDropped <= packetsSent
    }

    /** `UDPSimulator(drop_rate, base_delay_us, enable_jitter)`: counters at zero. */
    constructor (dropRate: real, baseDelayUs: int, enableJitter: bool)
      ensures Valid()
      ensures this.dropRate == dropRate && this.baseDelayUs == baseDelayUs && this.enableJitter == enableJitter
      ensures packetsSent == 0 && packetsDropped == 0
    {
      this.dropRate := dropRate;
      this.baseDelayUs := baseDelayUs;
      this.enableJitter := enableJitter;
      packetsSent := 0;
      packetsDropped := 0;
    }

    /** `send_fast(orders, latency)`: counts the packet; a lost draw counts a
        drop and fails at once, with no retry and no sleep; otherwise it sleeps
        the base delay (jittered when enabled) and succeeds. */
    method SendFast(orders: seq<Order>, latencyUs: nat, lost: bool, jitteredDelayUs: int)
      returns (ok: bool, delayUs: int)
      requires Valid()
      modifies this
      ensures Valid()
      ensures ok == !lost
      ensures packetsSent == old(packetsSent) + 1
      ensures packetsDropped == old(packetsDropped) + (if lost then 1 else 0)
      ensures lost ==> delayUs == 0
      ensures ok && !enableJitter ==> delayUs == baseDelayUs
      ensures ok && enableJitter ==> delayUs == jitteredDelayUs
    {
      packetsSent := packetsSent + 1;
      if lost {
        packetsDropped := packetsDropped + 1;
        return false, 0;
      }
      delayUs := baseDelayUs;
      if enableJitter {
        delayUs := jitteredDelayUs;
      }
      ok := true;
    }

    /** `get_stats()`: the current counters and the configuration. */
    function GetStats(): (s: UDPStats)
      reads this
      requires Valid()
      ensures s.packetsSent == packetsSent && s.packetsDropped == packetsDropped
      ensures s.baseDelayUs == baseDelayUs && s.dropRate == dropRate
      ensures 0 <= s.packetsDropped <= s.packetsSent
    {
      UDPStats(packetsSent, packetsDropped, baseDelayUs, dropRate)
    }
  }

  /** `udp_send_orders`: false when no simulator has been initialised (null). */
  method UdpSendOrders(sim: UDPSimulator?, orders: seq<Order>, latencyUs: nat, lost: bool, jitteredDelayUs: int)
    returns (ok: bool)
    requires sim != null ==> sim.Valid()
    modifies sim
    ensures sim != null ==> sim.Valid()
    ensures ok <==> sim != null && !lost
    ensures sim != null ==>
      && sim.packetsSent == old(sim.packetsSent) + 1
      && sim.packetsDropped == old(sim.packetsDropped) + (if lost then 1 else 0)
  {
    if sim == null {
      return false;
    }
    var delayUs;
    ok, delayUs := sim.SendFast(orders, latencyUs, lost, jitteredDelayUs);
  }

  /** `get_udp_stats`: all zeros when no simulator has been initialised. */
  function GetUdpStats(sim: UDPSimulator?): (s: UDPStats)
    reads sim
    requires sim != null ==> sim.Valid()
    ensures sim == null ==> s == UDP_STATS_ZERO
    ensures sim != null ==> s.packetsSent == sim.packetsSent && s.packetsDropped == sim.packetsDropped
    ensures 0 <= s.packetsDropped <= s.packetsSent
  {
    if sim == null then UDP_STATS_ZERO else sim.GetStats()
  }
}
