/** The statistics snapshots the three simulators report, with the fields
    their `get_stats()` fills in. Drop rates are configuration values that are
    only carried and reported, so they stay `real`. */
module NetworkStats {

  datatype TCPStats = TCPStats(droppedPackets: int, retransmissions: int, baseDelayMs: int, dropRate: real)

  datatype UDPStats = UDPStats(packetsSent: int, packetsDropped: int, baseDelayUs: int, dropRate: real)

  datatype SHMStats = SHMStats(messagesSent: int, noiseRangeNs: int)

  /** The value-initialised snapshots (`{}`) returned when no simulator exists. */
  const TCP_STATS_ZERO := TCPStats(0, 0, 0, 0.0)
  const UDP_STATS_ZERO := UDPStats(0, 0, 0, 0.0)
  const SHM_STATS_ZERO := SHMStats(0, 0)
}
