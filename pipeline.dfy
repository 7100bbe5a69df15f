/** The send path of the trading loop: `simulate_network_send`, which
    dispatches a batch to the configured transport and accounts for it in
    the global counters, and one step of the consumer loop with batching
    switched off. The global singletons become parameters; each transport
    handle is null when that simulator was never initialised. */
module Pipeline {
  import opened Orders
  import opened Bits
  import opened RingBuffer
  import opened TcpSim
  import opened UdpSim
  import opened ShmSim

  datatype NetworkType = TCP | UDP | SHM

  /** The fields of `RuntimeConfig` that the send path reads. */
  datatype RuntimeConfig = RuntimeConfig(enableBatching: bool, enableNetworkSimulation: bool, networkType: NetworkType)

  /** The random draws one send may consume: the TCP loss oracle, the UDP loss
      draw and jittered delay, and the SHM noise. Only the chosen transport's are used. */
  datatype NetworkDraws = NetworkDraws(tcpLosses: seq<bool>, udpLost: bool, udpJitteredDelayUs: int, shmNoiseNs: int)

  /** `Stats`: the global counters, each a `uint64_t`. */
  class Stats {
    var ordersProduced: nat
    var ordersConsumed: nat
    var batchesSent: nat
    var totalLatencyUs: nat

    ghost predicate Valid()
      reads this
    {
      ordersProduced < TWO64 && ordersConsumed < TWO64 && batchesSent < TWO64 && totalLatencyUs < TWO64
    }

    constructor ()
      ensures Valid()
      ensures ordersProduced == 0 && ordersConsumed == 0 && batchesSent == 0 && totalLatencyUs == 0
    {
      ordersProduced, ordersConsumed, batchesSent, totalLatencyUs := 0, 0, 0, 0;
    }
  }

  /** Whether the configured transport reports success for these draws; an
      uninitialised transport reports failure. */
  predicate TransportDelivers(networkType: NetworkType, tcp: TCPSimulator?, udp: UDPSimulator?,
                              shm: SHMSimulator?, draws: NetworkDraws)
  {
    match networkType
    case TCP => tcp != null && ReliableDelivers(tcp.maxRetries, draws.tcpLosses)
    case UDP => udp != null && !draws.udpLost
    case SHM => shm != null
  }

  /** Whether `simulate_network_send` succeeds: always when simulation is off,
      otherwise as the configured transport reports. */
  predicate SendSucceeds(config: RuntimeConfig, tcp: TCPSimulator?, udp: UDPSimulator?,
                         shm: SHMSimulator?, draws: NetworkDraws)
  {
    !config.enableNetworkSimulation || TransportDelivers(config.networkType, tcp, udp, shm, draws)
  }

  /** Shared memory and disabled simulation cannot fail once the simulator
      exists; TCP and UDP fail for some draws even then. */
  lemma WhichSendsCanFail(config: RuntimeConfig, tcp: TCPSimulator?, udp: UDPSimulator?,
                          shm: SHMSimulator?, draws: NetworkDraws)
    ensures !config.enableNetworkSimulation ==> SendSucceeds(config, tcp, udp, shm, draws)
    ensures config.networkType == SHM ==> (SendSucceeds(config, tcp, udp, shm, draws) <==>
      !config.enableNetworkSimulation || shm != null)
    ensures config.enableNetworkSimulation && config.networkType == UDP && draws.udpLost ==>
      !SendSucceeds(config, tcp, udp, shm, draws)
    ensures (&& config.enableNetworkSimulation && config.networkType == TCP && tcp != null
             && forall i :: 0 <= i < Attempts(tcp.maxRetries) ==> Lost(draws.tcpLosses, i))
      ==> !SendSucceeds(config, tcp, udp, shm, draws)
  {
    if config.enableNetworkSimulation && config.networkType == TCP && tcp != null {
      DeliversIffSomeAttemptGetsThrough(tcp.maxRetries, draws.tcpLosses);
    }
  }

  /** The effect of one send on the transports: with simulation on, the
      configured transport, when it exists, makes exactly one send with its
      own draws; every other transport is left alone. */
  twostate predicate TransportCalledOnce(config: RuntimeConfig, tcp: TCPSimulator?, udp: UDPSimulator?,
                                         shm: SHMSimulator?, draws: NetworkDraws)
    reads tcp, udp, shm
  {
    var on := config.enableNetworkSimulation;
    && (tcp != null ==> if on && config.networkType == TCP then
          && tcp.droppedPackets == old(tcp.droppedPackets) + LostAttempts(tcp.maxRetries, draws.tcpLosses)
          && tcp.retransmissions == old(tcp.retransmissions) + Retransmitted(tcp.maxRetries, draws.tcpLosses)
        else unchanged(tcp))
    && (udp != null ==> if on && config.networkType == UDP then
          && udp.packetsSent == old(udp.packetsSent) + 1
          && udp.packetsDropped == old(udp.packetsDropped) + (if draws.udpLost then 1 else 0)
        else unchanged(udp))
    && (shm != null ==> if on && config.networkType == SHM then
          shm.messagesSent == old(shm.messagesSent) + 1
        else unchanged(shm))
  }

  /** `simulate_network_send(batch, latency_us)`: with simulation on, makes one
      call to exactly the configured transport and takes its result; with it
      off, calls nothing and succeeds. Only a success counts one more batch,
      `latency_us` more total latency and `batch.size()` more consumed orders,
      in 64-bit unsigned arithmetic. */
  method SimulateNetworkSend(stats: Stats, config: RuntimeConfig, tcp: TCPSimulator?, udp: UDPSimulator?,
                             shm: SHMSimulator?, batch: seq<Order>, latencyUs: nat, draws: NetworkDraws)
    returns (success: bool)
    requires stats.Valid()
    requires tcp != null ==> tcp.Valid()
    requires udp != null ==> udp.Valid()
    requires shm != null ==> shm.Valid()
    modifies stats, tcp, udp, shm
    ensures stats.Valid()
    ensures tcp != null ==> tcp.Valid()
    ensures udp != null ==> udp.Valid()
    ensures shm != null ==> shm.Valid()
    ensures success == SendSucceeds(config, tcp, udp, shm, draws)
    ensures TransportCalledOnce(config, tcp, udp, shm, draws)
    // the accounting
    ensures success ==>
      && stats.batchesSent == Add64(old(stats.batchesSent), 1)
      && stats.totalLatencyUs == Add64(old(stats.totalLatencyUs), latencyUs)
      && stats.ordersConsumed == Add64(old(stats.ordersConsumed), |batch|)
      && stats.ordersProduced == old(stats.ordersProduced)
    ensures !success ==> unchanged(stats)
  {
    success := true;
    if config.enableNetworkSimulation {
      match config.networkType
      case TCP =>
        success := TcpSendOrders(tcp, batch, latencyUs, draws.tcpLosses);
      case UDP =>
        success := UdpSendOrders(udp, batch, latencyUs, draws.udpLost, draws.udpJitteredDelayUs);
      case SHM =>
        success := ShmSendOrders(shm, batch, latencyUs, draws.shmNoiseNs);
    }
    if success {
      stats.batchesSent := Add64(stats.batchesSent, 1);
      stats.totalLatencyUs := Add64(stats.totalLatencyUs, latencyUs);
      stats.ordersConsumed := Add64(stats.ordersConsumed, |batch|);
    }
  }

  /** One pass of `consumer_thread` with batching off: pops an order if one is
      live and sends it alone with latency 0. An empty buffer changes nothing. */
  method ConsumeUnbatched(rb: OrderRingBuffer, stats: Stats, config: RuntimeConfig, tcp: TCPSimulator?,
                          udp: UDPSimulator?, shm: SHMSimulator?, draws: NetworkDraws)
    returns (popped: bool, sent: bool)
    requires !config.enableBatching
    requires rb.Valid() && stats.Valid()
    requires tcp != null ==> tcp.Valid()
    requires udp != null ==> udp.Valid()
    requires shm != null ==> shm.Valid()
    modifies rb, stats, tcp, udp, shm
    ensures rb.Valid() && stats.Valid()
    ensures tcp != null ==> tcp.Valid()
    ensures udp != null ==> udp.Valid()
    ensures shm != null ==> shm.Valid()
    ensures popped <==> old(rb.Contents) != []
    ensures popped ==> rb.Contents == old(rb.Contents)[1..]
    ensures popped ==> sent == SendSucceeds(config, tcp, udp, shm, draws) && TransportCalledOnce(config, tcp, udp, shm, draws)
    ensures popped && sent ==>
      && stats.ordersConsumed == Add64(old(stats.ordersConsumed), 1)
      && stats.batchesSent == Add64(old(stats.batchesSent), 1)
      && stats.totalLatencyUs == old(stats.totalLatencyUs)
      && stats.ordersProduced == old(stats.ordersProduced)
    ensures popped && !sent ==> unchanged(stats)
    ensures !popped ==>
      && !sent && rb.Contents == old(rb.Contents) && unchanged(stats)
      && (tcp != null ==> unchanged(tcp)) && (udp != null ==> unchanged(udp)) && (shm != null ==> unchanged(shm))
  {
    var order;
    popped, order := rb.TryPop(DefaultOrder());
    if !popped {
      return false, false;
    }
    Add64Zero(stats.totalLatencyUs);
    sent := SimulateNetworkSend(stats, config, tcp, udp, shm, [order], 0, draws);
  }
}
