/** `SHMSimulator`: a near-instant local transport that always succeeds. The
    random noise draw becomes the oracle `noiseDrawNs`; the sleep is reported
    as `sleptNs`. */
module ShmSim {
  import opened Orders
  import opened NetworkStats

  class SHMSimulator {
    const enableNoise: bool
    const noiseRangeNs: int
    var messagesSent: int

    ghost predicate Valid()
      reads this
    {
      messagesSent >= 0
    }

    /** `SHMSimulator(enable_noise, noise_range_ns)`: no messages sent yet. */
    constructor (enableNoise: bool, noiseRangeNs: int)
      ensures Valid()
      ensures this.enableNoise == enableNoise && this.noiseRangeNs == noiseRangeNs && messagesSent == 0
    {
      this.enableNoise := enableNoise;
      this.noiseRangeNs := noiseRangeNs;
      messagesSent := 0;
    }

    /** `send_instant(orders, latency)`: counts the message and succeeds; the
        noise is the draw when enabled and 0 otherwise, and only a strictly
        positive noise is slept. */
    method SendInstant(orders: seq<Order>, latencyUs: nat, noiseDrawNs: int) returns (ok: bool, sleptNs: int)
      requires Valid()
      modifies this
      ensures Valid()
      ensures ok
      ensures messagesSent == old(messagesSent) + 1
      ensures sleptNs >= 0
      ensures !enableNoise ==> sleptNs == 0
      ensures enableNoise && noiseDrawNs > 0 ==> sleptNs == noiseDrawNs
      ensures noiseDrawNs <= 0 ==> sleptNs == 0
    {
      messagesSent := messagesSent + 1;
      var noiseNs := if enableNoise then noiseDrawNs else 0;
      sleptNs := 0;
      if noiseNs > 0 {
        sleptNs := noiseNs;
      }
      ok := true;
    }

    /** `get_stats()`: messages sent and the configured noise range. */
    function GetStats(): (s: SHMStats)
      reads this
      requires Valid()
      ensures s.messagesSent == messagesSent && s.noiseRangeNs == noiseRangeNs
      ensures s.messagesSent >= 0
    {
      SHMStats(messagesSent, noiseRangeNs)
    }
  }

  /** `shm_send_orders`: false when no simulator has been initialised (null),
      and otherwise always true. */
  method ShmSendOrders(sim: SHMSimulator?, orders: seq<Order>, latencyUs: nat, noiseDrawNs: int) returns (ok: bool)
    requires sim != null ==> sim.Valid()
    modifies sim
    ensures sim != null ==> sim.Valid()
    ensures ok <==> sim != null
    ensures sim != null ==> sim.messagesSent == old(sim.messagesSent) + 1
  {
    if sim == null {
      return false;
    }
    var sleptNs;
    ok, sleptNs := sim.SendInstant(orders, latencyUs, noiseDrawNs);
  }

  /** `get_shm_stats`: all zeros when no simulator has been initialised. */
  function GetShmStats(sim: SHMSimulator?): (s: SHMStats)
    reads sim
    requires sim != null ==> sim.Valid()
    ensures sim == null ==> s == SHM_STATS_ZERO
    ensures sim != null ==> s.messagesSent == sim.messagesSent
    ensures s.messagesSent >= 0
  {
    if sim == null then SHM_STATS_ZERO else sim.GetStats()
  }
}
