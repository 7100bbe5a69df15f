# Low-latency order pipeline, modelled in Dafny

The system is a small trading pipeline. Producer threads create fixed-layout
`Order` records and push them into a lock-free single-producer/single-consumer
ring buffer (`OrderRingBuffer`). Consumer threads pop them. With batching on,
a consumer hands each order to a `Batcher`, which accumulates orders and
flushes them to a sink when a size threshold or a timeout is reached. With
batching off, each order is sent alone. The sink (`simulate_network_send`)
passes a batch to one of three simulated transports and counts batches,
orders and latency when the transport reports success:

- TCP retries lost attempts up to a limit;
- UDP tries once and may lose the packet;
- shared memory always succeeds.

This project models that core sequentially, one call at a time:

- `bits.dfy` (`Bits`): `size_t` arithmetic, bitwise AND, and the
  power-of-two mask that stands in for `% capacity`.
- `order.dfy` (`Orders`): the `Order` record as a datatype, its C-string symbol
  field, predicates, value, comparisons, and a field-by-field binary encoding
  with both round trips.
- `ring_buffer.dfy` (`RingBuffer`): `OrderRingBuffer` as a class over an array
  with two cursors. A ghost FIFO sequence `Contents` gives the abstract view.
- `batcher.dfy` (`Batching`): `Batcher` as a class. The clock is an explicit
  `now` parameter. Ghost logs record every order added, every batch flushed
  and every sink call, so conservation and FIFO order can be stated.
- `network_stats.dfy`, `tcp_sim.dfy`, `udp_sim.dfy`, `shm_sim.dfy`: the three
  transport simulators as classes with counters. Each random draw becomes an
  input: a loss oracle (`seq<bool>` for TCP, `bool` for UDP) and a noise value
  for shared memory.
- `pipeline.dfy` (`Pipeline`): `simulate_network_send` and the unbatched step
  of `consumer_thread`. The global singletons become parameters; a transport
  handle is `null` when that simulator was never initialised.
- `wrappers.dfy`: the `Option` type.

Two consequences of the code are worth stating up front:

- With capacity 4 the fourth push fails, because one slot always stays empty
  (`RingBuffer.CapacityFourScenario`).
- A batch size of 0 is accepted, and every `add_order` then flushes
  (`Batching.Batcher.AddOrder` covers it).

## Model

| member | source | states |
|---|---|---|
| Bits.MaskIsMod | ring_buffer.hpp:22 | for a power-of-two capacity, `x & (capacity - 1)` equals `x mod capacity` |
| Bits.PowerOfTwoTest | ring_buffer.hpp:17 | for n >= 1, `(n & (n - 1)) == 0` holds exactly when n is a power of two |
| RingBuffer.ZeroCapacityPushOutOfBounds | ring_buffer.hpp:17-25 | capacity 0 passes the constructor's check, and the first `try_push` then writes slot 0 of an empty array |
| RingBuffer.NonZeroCapacityCheck | ring_buffer.hpp:17 | for a capacity that is not 0, the check admits exactly the powers of two |
| RingBuffer.WindowPush | ring_buffer.hpp:25-26 | writing slot head and advancing head appends the item to the live window |
| RingBuffer.WindowPop | ring_buffer.hpp:33-35 | slot tail holds the oldest live item, and advancing tail removes it from the window |
| RingBuffer.OrderRingBuffer.constructor | ring_buffer.hpp:15-19 | both cursors at 0, nothing live, every slot holds the default order `Order()` |
| RingBuffer.CapacityCheck | ring_buffer.hpp:17 | the constructor's test `(capacity & (capacity - 1)) == 0`, evaluated in `size_t` arithmetic |
| RingBuffer.OrderRingBuffer.TryPush | ring_buffer.hpp:20-28 | fails with no change exactly when `(head + 1) mod capacity == tail`, i.e. when capacity - 1 orders are live; otherwise writes slot head, advances head mod capacity and appends the item to the FIFO |
| RingBuffer.OrderRingBuffer.TryPop | ring_buffer.hpp:29-37 | fails with no change exactly when head equals tail, i.e. the FIFO is empty; otherwise returns the oldest order, which is `buffer[tail]`, removes it and advances tail mod capacity |
| RingBuffer.OrderRingBuffer.Empty | ring_buffer.hpp:38 | true exactly when no order is live |
| RingBuffer.OrderRingBuffer.Full | ring_buffer.hpp:39 | true exactly when capacity - 1 orders are live |
| RingBuffer.OrderRingBuffer.Size | ring_buffer.hpp:40 | `(head - tail) & (capacity - 1)` in `size_t` is the number of live orders, equals `(head - tail) mod capacity`, and is at most capacity - 1 |
| RingBuffer.OrderRingBuffer.Capacity | ring_buffer.hpp:41 | the array length, always more than the number of live orders |
| RingBuffer.OrderRingBuffer.Clear | ring_buffer.hpp:42 | both cursors at 0 and nothing live |
| RingBuffer.CapacityFourScenario | ring_buffer.hpp:20-37 | with capacity 4, three pushes fit and the fourth fails; the three pop in push order; a further pop fails |
| Batching.ConcatAppend | batcher.hpp:38 | flushing one more batch appends its orders to everything flushed before |
| Batching.SinkLog | batcher.hpp:38 | a flush calls the sink once with the batch when a sink is set, and not at all otherwise |
| Batching.Batcher.constructor | batcher.hpp:16-17 | idle, nothing pending, no sink call made |
| Batching.Batcher.Flush | batcher.hpp:34-41 | with nothing pending, no change; otherwise one sink call with the pending orders in insertion order and latency `now - first_time`, then the list is empty and the batcher idle, whether or not a sink is set |
| Batching.Batcher.AddOrder | batcher.hpp:18-22 | an idle batcher records `now` as the batch start and a started one keeps it; the order is appended; reaching the threshold flushes the whole list including the new order; afterwards fewer than `batch_size` orders are pending when the threshold is at least 1 |
| Batching.Batcher.CheckTimeout | batcher.hpp:23-31 | flushes and returns true exactly when started and `now - first_time >= timeout`; otherwise returns false with no change |
| Batching.Batcher.ForceFlush | batcher.hpp:32 | with nothing pending, no sink call; otherwise flushes; afterwards the flushed batches together are exactly the orders added |
| Batching.SinkReceivesAddedInOrder | batcher.hpp:18-41 | with a sink set, the batches it received followed by the pending orders are exactly the orders added, in order, and no batch it received is empty |
| Batching.ThresholdScenario | batcher.hpp:18-21 | with threshold 3, three adds make one sink call carrying the three orders in order, and nothing stays pending |
| Batching.TimeoutScenario | batcher.hpp:23-31 | with timeout 1000 us, a check 999 us after the first add does nothing and one at 1000 us flushes the two pending orders |
| Orders.SymbolField | order.hpp:51-52 | the symbol array after `strncpy` of at most 15 bytes and the NUL written to byte 15 (the same two statements as order.hpp:90-91) |
| Orders.CString | order.hpp:84-86 | the bytes before the first NUL: a prefix of the input holding no NUL, followed in the input by a NUL when shorter |
| Orders.SymbolRoundTrip | order.hpp:89-92 | reading back a stored symbol gives the input up to its first NUL, cut to 15 bytes, and byte 15 is NUL |
| Orders.SymbolRoundTripNulFree | order.hpp:84-92 | for a symbol without an embedded NUL, `get_symbol` after `set_symbol` gives the symbol cut to 15 bytes |
| Orders.DefaultOrder | order.hpp:37-40 | the default order is not valid, is a pending buy, has an all-NUL symbol, an empty `get_symbol` and value 0 |
| Orders.NewOrder | order.hpp:43-56 | the symbol is stored truncated with byte 15 NUL; the order is pending with the given side; it is valid exactly when id, quantity and price are nonzero and the symbol is not empty |
| Orders.GetSymbol | order.hpp:84-86 | empty exactly when the first symbol byte is NUL, and at most 15 bytes when byte 15 is NUL |
| Orders.SetSymbol | order.hpp:89-92 | the new symbol reads back truncated, byte 15 is NUL, and every other field is unchanged |
| Orders.IsValid | order.hpp:107-110 | `is_valid()`: nonzero id, quantity and price, a first symbol byte that is not NUL, and `reserved` 0 |
| Orders.IsBuy | order.hpp:113-115 | `is_buy()`: the side is BUY |
| Orders.IsPending | order.hpp:123-125 | `is_pending()`: the status is PENDING |
| Orders.IsFilled | order.hpp:128-130 | `is_filled()`: the status is FILLED |
| Orders.IsCancelled | order.hpp:133-135 | `is_cancelled()`: the status is CANCELLED |
| Orders.IsRejected | order.hpp:138-140 | `is_rejected()`: the status is REJECTED |
| Orders.ValidateOrder | order.hpp:241-246 | true exactly when `is_valid()` holds |
| Orders.IsSell | order.hpp:113-120 | every order is exactly one of buy and sell |
| Orders.GetStatusString | order.hpp:161-169 | each status maps to its own name, and the name identifies which status predicate holds; "UNKNOWN" is never returned |
| Orders.ValueCents | order.hpp:192-194 | the 64-bit product of quantity and price equals the exact product, since it never wraps |
| Orders.Less | order.hpp:202-204 | `operator<`: compares order ids only |
| Orders.Equal | order.hpp:206-208 | `operator==`: compares order ids only |
| Orders.NotEqual | order.hpp:210-212 | `!=` is the negation of `==` |
| Orders.IdOrderTotal | order.hpp:202-208 | `<` is a strict total order on ids and `==` is its equivalence |
| Orders.EqualIgnoresPayload | order.hpp:206-208 | two different records can compare equal, because only the id is compared |
| Orders.TypeOfCode | order.hpp:10-13 | a decoded side byte re-encodes to the same byte |
| Orders.StatusOfCode | order.hpp:15-20 | a decoded status byte re-encodes to the same byte |
| Orders.Serialize | order.hpp:177-179 | the encoding has a fixed length |
| Orders.Deserialize | order.hpp:182-184 | decoding succeeds only on a buffer at least as long as the encoding |
| Orders.SerializeRoundTrip | order.hpp:177-184 | deserializing a serialized order gives back every field |
| Orders.DeserializeInverse | order.hpp:177-184 | a buffer that decodes is, on its first 44 bytes, the encoding of the decoded order |
| TcpSim.FirstDelivered | src/network_sim/tcp_sim.cpp:28-31 | the index of the first attempt that is not lost, or the attempt limit when all are lost |
| TcpSim.LostAttempts | src/network_sim/tcp_sim.cpp:28-32 | the number of lost attempts is within the attempt limit, and below it exactly when the send succeeds |
| TcpSim.Retransmitted | src/network_sim/tcp_sim.cpp:33 | on success, as many retransmissions as lost attempts; on failure, `max_retries` of them |
| TcpSim.DeliversIffSomeAttemptGetsThrough | src/network_sim/tcp_sim.cpp:28-36 | `send_reliable` succeeds exactly when some attempt within `max_retries + 1` is not lost |
| TcpSim.TCPSimulator.constructor | src/network_sim/tcp_sim.cpp:22-24 | the configuration as given, both counters at 0 |
| TcpSim.TCPSimulator.SendReliable | src/network_sim/tcp_sim.cpp:25-37 | succeeds exactly when some attempt gets through; a success after k losses adds k to both counters; a failure adds `max_retries + 1` drops and `max_retries` retransmissions; the counters never decrease and retransmissions never exceed drops |
| TcpSim.TCPSimulator.GetStats | src/network_sim/tcp_sim.cpp:38-40 | the current counters and configuration, with retransmissions at most drops |
| TcpSim.TcpSendOrders | src/network_sim/tcp_sim.cpp:52-55 | false when not initialised; otherwise the result and counter changes of `send_reliable` |
| TcpSim.GetTcpStats | src/network_sim/tcp_sim.cpp:57-60 | all zeros when not initialised; otherwise the simulator's counters |
| UdpSim.UDPSimulator.constructor | src/network_sim/udp_sim.cpp:25-27 | the configuration as given, both counters at 0 |
| UdpSim.UDPSimulator.SendFast | src/network_sim/udp_sim.cpp:30-38 | every call counts one packet sent; a lost draw counts one drop and fails with no delay; otherwise it succeeds with drops unchanged and a delay of exactly the base delay when jitter is off; drops never exceed sends |
| UdpSim.UDPSimulator.GetStats | src/network_sim/udp_sim.cpp:39-41 | the current counters and configuration, with drops at most sends |
| UdpSim.UdpSendOrders | src/network_sim/udp_sim.cpp:53-56 | false when not initialised; otherwise the result and counter changes of `send_fast` |
| UdpSim.GetUdpStats | src/network_sim/udp_sim.cpp:58-61 | all zeros when not initialised; otherwise the simulator's counters |
| ShmSim.SHMSimulator.constructor | src/network_sim/shm_sim.cpp:19-21 | the configuration as given, nothing sent |
| ShmSim.SHMSimulator.SendInstant | src/network_sim/shm_sim.cpp:23-29 | always succeeds and counts one message; the noise is 0 when disabled, and a delay happens only for a strictly positive noise |
| ShmSim.SHMSimulator.GetStats | src/network_sim/shm_sim.cpp:30-32 | messages sent and the configured noise range |
| ShmSim.ShmSendOrders | src/network_sim/shm_sim.cpp:46-53 | false exactly when not initialised; otherwise true and one more message counted |
| ShmSim.GetShmStats | src/network_sim/shm_sim.cpp:55-58 | all zeros when not initialised; otherwise the message count |
| Pipeline.Stats.constructor | main.cpp:43-48 | every counter starts at 0 |
| Pipeline.WhichSendsCanFail | main.cpp:60-81 | with simulation off a send always succeeds; with shared memory it succeeds exactly when the simulator exists; a lost UDP draw, or TCP losing every permitted attempt, makes it fail |
| Pipeline.SimulateNetworkSend | main.cpp:60-81 | with simulation off, no transport is called and the send succeeds; with it on, exactly the configured transport is called once and its result returned, the others unchanged; a success adds 1 to `batches_sent`, `latency_us` to `total_latency_us` and the batch size to `orders_consumed`, modulo 2^64; a failure changes no counter |
| Pipeline.ConsumeUnbatched | main.cpp:110-118 | with batching off, an empty buffer changes nothing; otherwise the oldest order is popped and sent alone with latency 0, and a success adds 1 to `orders_consumed` and `batches_sent` and leaves `total_latency_us` unchanged |

## Left out

- Atomics and memory ordering in `OrderRingBuffer`, thread interleavings, and
  the use of one single-producer/single-consumer buffer by several consumers:
  the model takes calls one at a time.
- Thread loops, signal handling, command-line parsing, the telemetry logger,
  console output, `initialize_system`, `shutdown_system` and the producer
  loop in main.cpp. The consumer loop is modelled as one step.
- Console output in src/network_sim/shm_sim.cpp: the message printed by
  `init_shm_simulator` (line 41) and the error printed by `shm_send_orders`
  when the simulator is not initialised (line 48). The model keeps only the
  `false` result.
- The batched branch of `consumer_thread` (main.cpp:113-115) is not composed
  with the pipeline. `Batcher` is modelled on its own, and its sink calls are
  recorded in a ghost log rather than passed to `SimulateNetworkSend`.
- `init_tcp_simulator`, `init_udp_simulator`, `init_shm_simulator`: modelled by
  the simulator constructors; the global handle they set is the nullable
  parameter. TCP's congestion-control flag is ignored by the code and is not
  modelled.
- Randomness: every `drop_dist_(rng_) < drop_rate_` comparison is replaced by
  a loss oracle, the UDP jitter multiplier by a jittered-delay input, and the
  shared-memory noise draw by a noise input. The drop rates are carried as
  `real` and only reported.
- Sleeps and clock reads. The TCP per-attempt delay is not modelled. The UDP
  and shared-memory sleep lengths are returned as outputs. `Batcher` reads
  the clock twice per flush (at the start and inside `flush`); the model uses
  one `now` per call.
- Batching.Batcher.AddOrder, Batching.Batcher.CheckTimeout,
  Batching.Batcher.ForceFlush, Batching.Batcher.Flush: each requires `now` to
  be no earlier than any time passed before, i.e. a clock that never goes
  backwards.
  `high_resolution_clock` (batcher.hpp:12,19,36) need not be steady. If it
  stepped back, `latency.count()` would be negative and would wrap when passed
  as the `uint64_t` latency (batcher.hpp:38). The model does not cover that
  case.
- Floating point: `get_price`, `set_price`, `get_value`, and the conversion of
  the constructor's `double` price to cents. `NewOrder` takes the price
  already in cents.
- `set_timestamp`, `get_timestamp` and `create_order_now` (clock
  conversions), `create_buy_order` and `create_sell_order` (these are
  `NewOrder` with a fixed side), `get_type_string`, `print`, `to_string`,
  `operator<<`.
- The `memcpy` byte layout of `serialize`/`deserialize`, `sizeof(Order)` and
  `serialized_size()`. The model uses its own packed little-endian field
  encoding; its length of 44 is the sum of the field widths, not a claim about
  `sizeof(Order)`.
- Orders.Deserialize: returns None for a side or status byte that names no
  enumerator, where `memcpy` would store the out-of-range value. For the same
  reason the "UNKNOWN" branch of `get_status_string` cannot be reached.
- Orders.Deserialize: also returns None for a buffer shorter than the
  encoding, where the code would read past its end.
- Orders.GetSymbol: returns all 16 bytes when the symbol field holds no NUL.
  `set_symbol` and the constructor always write a NUL to byte 15, but
  `deserialize` copies the field unchecked, so `Orders.Deserialize` can
  produce such an order. On it, `std::string(symbol)` (order.hpp:85) reads
  past the array, which is undefined behaviour and is not modelled.
- TcpSim.TCPSimulator.SendReliable, UdpSim.UDPSimulator.SendFast,
  ShmSim.SHMSimulator.SendInstant: the `int` counters are unbounded here;
  signed overflow is not modelled. It would come once a counter passes
  2^31 - 1 drops, retransmissions, packets or messages; a single TCP call can
  add up to `max_retries + 1` drops.
- main.cpp:15,20,25 redeclares `TCPStats`, `UDPStats` and `SHMStats` with
  fields different from the structs the simulators return. The model follows
  the simulators' structs, and the reporting that reads them is not modelled.
- Python telemetry and plotting scripts: reporting only.

## Findings

| source | as written | input that shows it | evidently intended | confidence | as-written member | corrected member |
|---|---|---|---|---|---|---|
| ring_buffer.hpp:17 | the power-of-two check `(capacity & (capacity - 1)) == 0` also accepts 0, since `0 - 1` wraps to all ones in `size_t` and `0 & x == 0`; the first `try_push` then masks with all ones, finds `next != tail` and writes `buffer_[0]` of a zero-length array | `OrderRingBuffer(0)` followed by one `try_push` | capacity 0 rejected, so only nonzero powers of two are accepted | high, not executed | RingBuffer.ZeroCapacityPushOutOfBounds | RingBuffer.NonZeroCapacityCheck |
