# MQ-ECN software schedulers in Dafny

This project models the two Linux queueing disciplines of the MQ-ECN
software prototype and proves properties about them. `sch_dwrr/main.c` is
the first scheduler and `sch_dwrr2/main.c` is its refactored successor. Both
serve a switch port with eight classes of service. Within each class they
run deficit round robin (DRR) or, optionally, weighted round robin (WRR).
A token-bucket shaper sits behind the round robin and limits the port to the
configured rate. Each scheduler marks packets with ECN in one of three
ways:

- per queue;
- per port;
- MQ-ECN, where each class's threshold is the port threshold scaled by the
  class's share of the line rate, and that share is estimated from its
  quantum and a moving average of the round time.

The model has six modules:

| module | file | contents |
|---|---|---|
| `Wire` | `wire.dfy` | What both schedulers share: the on-wire size of a packet, the fixed-point conversion from length to time, the parameter constants and enumerations, and C's truncating division. |
| `Classifier` | `classifier.dfy` | The DSCP classifier, as a specification function plus the source's linear scan as a method. |
| `SchDwrr` | `sch_dwrr.dfy` | The first scheduler as a state machine over values. The port (`Port`) is a datatype; enqueue and dequeue are the functions `EnqueueSpec` and `DequeueSpec`. |
| `SchDwrrProps` | `sch_dwrr_props.dfy` | The first scheduler's guarantees, proved about those functions. |
| `SchDwrrQdisc` | `sch_dwrr_qdisc.dfy` | The first scheduler's private data as a class updated in place: the classes live in an array and the counters are fields. Every method is proved to perform exactly the step the pure model specifies. |
| `SchDwrr2`, `SchDwrr2Props`, `SchDwrr2Qdisc` | `sch_dwrr2*.dfy` | The same three layers for the second scheduler. |

Inputs from outside the scheduler become parameters:

- The clock is read once per call and passed in as `now`.
- The verdict of a class's child byte FIFO is the parameter `childAccepts`.
- The sysctl tunables form a `Config` value, fixed for the lifetime of the
  port. `ConfigValid` holds the ranges that the sysctl table enforces.

A packet is reduced to its length and, when it has an IPv4 header, its TOS
byte. A class's FIFO is kept as the on-wire sizes of its packets.

Invariant proofs: `PortValid` (in each of the two scheduler modules) is the
invariant between calls. It says:

- The active list holds each class with queued packets exactly once, and no
  other class.
- Each class's byte count is the sum of its FIFO, and the port total is the
  sum of the class counts.
- Every queued packet is between 84 and 1538 bytes on the wire.
- Deficits stay below MTU + maximum quantum.
- The token balance stays between 0 and the bucket depth.
- (First scheduler only) The round-time estimate is never negative.

Initialisation establishes `PortValid`, and enqueue and dequeue preserve it.
From the invariant the proofs derive:

- Dequeue terminates: every class that yields becomes able to send, so the
  loop passes over each class at most once.
- A sent packet is the head of the class being served.
- A throttled dequeue moves no packet and no token. The charges and yields
  made while choosing the class remain. A retry at the same instant is
  throttled again and changes nothing.

## Model

| member | source | states |
|---|---|---|
| `Wire.SkbSize` | sch_dwrr/main.c:59-62 | The on-wire size is the length plus 4 FCS bytes, padded to the 64-byte minimum frame, plus 20 bytes of preamble and gap. So it is at least 84 bytes and at least len + 24, with equality exactly when the frame needs no padding. |
| `Wire.SkbSizeMonotone` | sch_dwrr2/main.c:88-91 | A longer packet never occupies fewer bytes on the wire. |
| `Wire.PrecomputeRateData` | sch_dwrr/main.c:65-75 | The corrected rate data. An unshaped port (rate 0) gets mult 1, shift 0. Otherwise shift is 15 and mult is the full-width floor of 8e9·2^15 / rate, i.e. mult·rate ≤ 8e9·2^15 < (mult+1)·rate. |
| `Wire.PrecomputeRateDataAsWritten` | sch_dwrr2/main.c:94-105 | The rate data as written. The 64-bit quotient is stored into the u32 `mult` field, which keeps only its low 32 bits. |
| `Wire.RateFromBytes` | sch_dwrr2/main.c:528-529 | The tc rate in bytes per second is shifted left by 3 into bits per second before the rate data is computed. |
| `Wire.L2tMonotone` | sch_dwrr/main.c:78-81 | `l2t_ns` is monotone: a longer packet never costs less time. |
| `Wire.L2tUnshaped` | sch_dwrr2/main.c:107-110 | On an unshaped port a byte costs exactly one nanosecond. |
| `Wire.L2tNeverOvercharges` | sch_dwrr/main.c:78-81 | The fixed-point cost of len bytes never exceeds the exact cost len·8e9/rate. |
| `Wire.L2tNearlyExact` | sch_dwrr2/main.c:107-110 | The fixed-point cost falls short of the exact cost by less than 1 ns + len/2^15. |
| `Wire.RateDataAsWrittenAgrees` | sch_dwrr/main.c:65-75 | For every rate above 8e9·2^15/2^32 bit/s, the truncated multiplier equals the full-width one. |
| `Wire.MultTruncationUndercharges` | sch_dwrr/main.c:73 | At 8000 bit/s, the multiplier as written charges a 1538-byte frame less than a tenth of what the full-width multiplier charges. |
| `Wire.CDiv` | sch_dwrr2/main.c:420 | Signed division truncates toward zero, as in C: \|q·b\| ≤ \|a\| < \|q·b\| + b, and q has the sign of a. |
| `Wire.FloorDivBetween` | sch_dwrr2/main.c:79 | The arithmetic right shift of the EWMA keeps any bounds that hold of the scaled value. |
| `Classifier.Dscp` | sch_dwrr2/main.c:187 | The DSCP is the TOS byte shifted right by 2: a value of at most 63 with 4·d ≤ tos < 4·d + 4. |
| `Classifier.FirstMatch` | sch_dwrr/main.c:105-111 | The result is the least index at or after i whose DSCP entry matches, or 0 when none matches. |
| `Classifier.ClassOfIsFirstMatch` | sch_dwrr2/main.c:175-197 | The class is the first in index order whose configured DSCP matches the packet's. Class 0 takes every unmatched packet and every packet without an IP header. |
| `Classifier.Classify` | sch_dwrr2/main.c:189-196 | The loop returns a class below 8, and it is exactly the class `ClassOf` specifies. |
| `SchDwrr.RoundEwmaBetween` | sch_dwrr/main.c:222 | The round-time average (α·rt + (1000−α)·sample)/1000, truncated, lies between the old estimate and the sample. |
| `SchDwrr.DecayTimesBounds` | sch_dwrr/main.c:295-298 | n idle decays rt·α/1000 keep a non-negative estimate between 0 and its old value. |
| `SchDwrr.MqEcnThreshold` | sch_dwrr/main.c:196-201 | The MQ-ECN threshold never exceeds the port threshold. It is the port threshold when there is no round-time sample or the port is unshaped. |
| `SchDwrr.MqEcnThresholdAsWritten` | sch_dwrr/main.c:198-199 | The threshold as written divides by the rate and has no result exactly when a round-time sample exists on an unshaped port. |
| `SchDwrr.ChargeHeadValid` | sch_dwrr/main.c:138-144 | Granting the head class its quantum on its first visit in a round keeps the invariant, the active list and every FIFO. It marks the head class as visited and keeps every class that could send able to send. |
| `SchDwrr.YieldValid` | sch_dwrr/main.c:252-268 | A head class whose deficit does not cover its head packet yields. The invariant holds afterwards, the class moves to the tail, and after its next charge its head packet fits. |
| `SchDwrr.Rotate` | sch_dwrr/main.c:134-272 | The yields of the dequeue loop end with a head class that can send, after visiting each class at most once. They keep the invariant and move no packet. |
| `SchDwrr.RotateStep` | sch_dwrr/main.c:252-268 | The class that yields has not yielded before in this call, and every class that yielded still fits. |
| `SchDwrr.Schedule` | sch_dwrr/main.c:133-159 | The dequeue loop leaves a port whose head class can send its head packet, with every FIFO and the bucket unchanged. |
| `SchDwrrProps.InitialPortValid` | sch_dwrr/main.c:447-494 | Initialisation yields an empty, valid port. |
| `SchDwrrProps.IdleIffNoActiveClass` | sch_dwrr/main.c:129-131 | The port total is zero exactly when the active list is empty. |
| `SchDwrrProps.IdleAgeNeverRaises` | sch_dwrr/main.c:285-311 | The idle check never raises the estimate or makes it negative. It leaves the estimate unchanged unless an MQ-ECN port is empty. |
| `SchDwrrProps.IdleAgeResetsAfterLongIdle` | sch_dwrr/main.c:299-302 | An idle period of more than 10 intervals resets the estimate to 0. |
| `SchDwrrProps.EnqueuePreservesValid` | sch_dwrr/main.c:278-381 | Enqueue keeps the port invariant. |
| `SchDwrrProps.EnqueueVerdict` | sch_dwrr/main.c:313-327 | The packet goes to its classified class. It is dropped exactly when the buffer would overfill, dropped when the child refuses it, and accepted otherwise. |
| `SchDwrrProps.EnqueueDropKeepsQueues` | sch_dwrr/main.c:316-327 | A drop changes nothing but the idle decay of the estimate. |
| `SchDwrrProps.EnqueueAcceptedAppends` | sch_dwrr/main.c:329-343 | An accepted packet is appended to its class's FIFO and counted once in the class and port totals, and no other class changes. An inactive class joins the tail of the active list with deficit 0. |
| `SchDwrrProps.MarkedAtOneEndOnly` | sch_dwrr/main.c:345-346 | A packet is marked at enqueue only when dequeue marking is off, and at dequeue only when it is on. |
| `SchDwrrProps.EnqueueMarksIncludingArrival` | sch_dwrr/main.c:345-366 | With dequeue marking off, an accepted packet is marked exactly when the backlog including it exceeds the threshold of the scheme. Per-queue: the class bytes against the class threshold. Per-port: the port bytes against the port threshold. MQ-ECN: the class bytes against the MQ-ECN threshold of the class quantum under the idle-aged round time. With dequeue marking on, or ECN disabled, enqueue never marks. |
| `SchDwrrProps.SendOrThrottleGate` | sch_dwrr/main.c:162-250 | The bucket releases the head packet exactly when the available tokens exceed its transmission time. It then keeps min(tokens − cost, bucket depth) and takes the packet out of the deficit, which WRR empties when the class drains. Otherwise it arms the watchdog at exactly now + cost − tokens and changes nothing. |
| `SchDwrrProps.SendOrThrottlePreservesValid` | sch_dwrr/main.c:159-250 | The token-bucket step keeps the invariant. |
| `SchDwrrProps.DequeuePreservesValid` | sch_dwrr/main.c:120-276 | Dequeue keeps the port invariant. |
| `SchDwrrProps.DequeueNoPacketIffIdle` | sch_dwrr/main.c:129-131 | Dequeue returns nothing exactly when the port is empty, and then changes nothing. |
| `SchDwrrProps.DequeueSentPopsHead` | sch_dwrr/main.c:168-238 | A sent packet is the head of an active class's FIFO and leaves that FIFO and the port total; every other FIFO is unchanged. Its class stays on the list exactly when it still holds packets. The bucket keeps min(tokens − cost, bucket depth). The packet is taken out of the deficit its class held when chosen, except that WRR empties the deficit of a class that drains. |
| `SchDwrrProps.DequeueMarksExcludingDeparture` | sch_dwrr/main.c:184-209 | With dequeue marking on, a sent packet is marked exactly when the backlog it leaves behind exceeds the threshold of the scheme. Per-queue and per-port as at enqueue, without the departing packet. MQ-ECN: the class bytes left against the MQ-ECN threshold under the round-time estimate of the moment the class was chosen. With dequeue marking off, or ECN disabled, dequeue never marks. |
| `SchDwrrProps.DequeueThrottledMovesNothing` | sch_dwrr/main.c:244-250 | A throttled dequeue arms the watchdog at exactly now + cost − tokens, where cost is the transmission time of the chosen head packet; that is no earlier than now. It moves no packet and no token. |
| `SchDwrrProps.DequeueThrottledIsStable` | sch_dwrr/main.c:140-166 | A dequeue retried at the same instant after a throttle returns the same verdict and leaves the state unchanged. |
| `SchDwrrProps.MqEcnThresholdFallsWithRoundTime` | sch_dwrr/main.c:196-201 | A longer round time never raises the threshold. |
| `SchDwrrProps.MqEcnThresholdGrowsWithQuantum` | sch_dwrr/main.c:196-201 | A larger quantum never lowers the threshold. |
| `SchDwrrProps.MqEcnThresholdFullShare` | sch_dwrr/main.c:196-201 | A class whose estimated rate reaches the line rate gets the whole port threshold. |
| `SchDwrrProps.MqEcnMarksAbovePortThreshold` | sch_dwrr/main.c:196-204 | Under MQ-ECN, a class holding more than the port threshold is always marked. |
| `SchDwrrProps.MqEcnAsWrittenAgrees` | sch_dwrr/main.c:196-201 | The threshold as written equals the corrected one on every shaped port and whenever there is no sample. On an unshaped port with a sample it divides by zero. |
| `SchDwrrQdisc.Scheduler.constructor` | sch_dwrr/main.c:447-494 | The new object is valid and stands for the initial port. |
| `SchDwrrQdisc.Scheduler.AgedRoundTime` | sch_dwrr/main.c:285-311 | The loop of up to 10 idle decays computes exactly `IdleAge`. |
| `SchDwrrQdisc.Scheduler.Enqueue` | sch_dwrr/main.c:278-381 | The in-place enqueue keeps the object valid and performs `EnqueueSpec`. |
| `SchDwrrQdisc.Scheduler.AppendPacket` | sch_dwrr/main.c:329-343 | The in-place append performs `Append`. |
| `SchDwrrQdisc.Scheduler.ScheduleHead` | sch_dwrr/main.c:134-159 | The in-place charge-and-yield loop performs `Schedule`. |
| `SchDwrrQdisc.Scheduler.YieldHead` | sch_dwrr/main.c:252-268 | The in-place yield performs `Yield`, and then the charge of the next head class. |
| `SchDwrrQdisc.Scheduler.SendHead` | sch_dwrr/main.c:159-250 | The in-place token-bucket step performs `SendOrThrottle`. |
| `SchDwrrQdisc.Scheduler.Dequeue` | sch_dwrr/main.c:120-276 | The in-place dequeue keeps the object valid and performs `DequeueSpec`. |
| `SchDwrr2.S64EwmaBetween` | sch_dwrr2/main.c:75-80 | `s64_ewma` with any weight up to 2^shift lies between the old value and the sample, with the shift rounding toward minus infinity. |
| `SchDwrr2.DecayTimesTowardZero` | sch_dwrr2/main.c:423-429 | n decays toward 0 move the estimate toward zero, never past it, whatever its sign. |
| `SchDwrr2.MqEcnThreshold` | sch_dwrr2/main.c:114-132 | The corrected MQ-ECN threshold, with full-width divisions, never exceeds the port threshold and is the port threshold on an unshaped port. |
| `SchDwrr2.DivU64` | sch_dwrr2/main.c:120-121 | `div_u64` truncates its divisor to 32 bits and has no result exactly when the truncated divisor is 0. |
| `SchDwrr2.MqEcnThresholdAsWritten` | sch_dwrr2/main.c:114-132 | The threshold as written has no result whenever the rate is a multiple of 2^32. |
| `SchDwrr2.YieldValid` | sch_dwrr2/main.c:364-385 | A yield keeps the invariant, moves the class to the tail, and leaves its head packet fitting its new deficit. |
| `SchDwrr2.Rotate` | sch_dwrr2/main.c:301-386 | The yields of the dequeue loop end with a head class that can send, after visiting each class at most once. They move no packet. |
| `SchDwrr2.RotateStep` | sch_dwrr2/main.c:364-385 | The class that yields has not yielded before in this call, and every class that yielded still fits. |
| `SchDwrr2.Schedule` | sch_dwrr2/main.c:301-317 | The dequeue loop leaves a port whose head class can send, with every FIFO and the bucket unchanged. |
| `SchDwrr2Props.InitialPortValid` | sch_dwrr2/main.c:538-584 | Initialisation yields an empty, valid port. |
| `SchDwrr2Props.IdleIffNoActiveClass` | sch_dwrr2/main.c:297-299 | The port total is zero exactly when the active list is empty. |
| `SchDwrr2Props.IdleAgeTowardZero` | sch_dwrr2/main.c:415-433 | The idle check moves the estimate toward zero and never past it. It leaves the estimate unchanged unless an MQ-ECN port is empty. |
| `SchDwrr2Props.IdleAgeResetsAfterLongIdle` | sch_dwrr2/main.c:430-433 | An idle period of more than 10 intervals resets the estimate to 0. |
| `SchDwrr2Props.EnqueuePreservesValid` | sch_dwrr2/main.c:407-472 | Enqueue keeps the port invariant. |
| `SchDwrr2Props.EnqueueVerdict` | sch_dwrr2/main.c:435-455 | The packet goes to its classified class. It is dropped exactly when the buffer would overfill, dropped when the child refuses it, and accepted otherwise. |
| `SchDwrr2Props.EnqueueDropKeepsQueues` | sch_dwrr2/main.c:437-455 | A drop changes nothing but the idle decay of the estimate. |
| `SchDwrr2Props.EnqueueAcceptedAppends` | sch_dwrr2/main.c:457-468 | An accepted packet is appended and counted once, and no other class changes. A class that was empty joins the tail with its quantum as deficit and a round starting now. |
| `SchDwrr2Props.EnqueueMarksIncludingArrival` | sch_dwrr2/main.c:470 | Every accepted packet is judged for ECN at enqueue, whatever the dequeue setting, against the backlog including it, exactly when that backlog exceeds the threshold of the scheme. Under MQ-ECN that is the threshold of the class quantum under the idle-aged round time. |
| `SchDwrr2Props.SendOrThrottleGate` | sch_dwrr2/main.c:264-275 | The bucket releases the head packet exactly when the balance after paying for it is ≥ 0. It then keeps that balance, capped at the depth, and charges the deficit by the packet size. Otherwise it arms the watchdog exactly when the shortfall will be made up, and changes nothing. |
| `SchDwrr2Props.SendOrThrottlePreservesValid` | sch_dwrr2/main.c:317-362 | The token-bucket step keeps the invariant. |
| `SchDwrr2Props.DequeuePreservesValid` | sch_dwrr2/main.c:287-389 | Dequeue keeps the port invariant. |
| `SchDwrr2Props.DequeueNoPacketIffIdle` | sch_dwrr2/main.c:297-299 | Dequeue returns nothing exactly when the port is empty, and then changes nothing. |
| `SchDwrr2Props.DequeueSentPopsHead` | sch_dwrr2/main.c:331-357 | A sent packet is the head of an active class's FIFO and leaves that FIFO and the port total; every other FIFO is unchanged. Its class stays listed exactly when it still holds packets. |
| `SchDwrr2Props.DequeueMarksExcludingDeparture` | sch_dwrr2/main.c:361-362 | Dequeue marks only when dequeue marking is on. It marks exactly when the backlog that the departing packet leaves behind exceeds the threshold of the scheme. Under MQ-ECN that is the threshold of the class quantum under the round-time estimate after this dequeue's own update, since the source marks last. |
| `SchDwrr2Props.DequeueThrottledMovesNothing` | sch_dwrr2/main.c:321-329 | A throttled dequeue arms the watchdog strictly after now and moves no packet and no token. |
| `SchDwrr2Props.DequeueThrottledIsStable` | sch_dwrr2/main.c:301-329 | A dequeue retried at the same instant after a throttle returns the same verdict and leaves the state unchanged. |
| `SchDwrr2Props.MqEcnThresholdFallsWithRoundTime` | sch_dwrr2/main.c:119-127 | A longer round time never raises the threshold. |
| `SchDwrr2Props.MqEcnThresholdGrowsWithQuantum` | sch_dwrr2/main.c:119-127 | A larger quantum never lowers the threshold. |
| `SchDwrr2Props.MqEcnThresholdFullShare` | sch_dwrr2/main.c:119-127 | A class whose estimated rate reaches the line rate gets the whole port threshold, and so does every class before the first sample. |
| `SchDwrr2Props.MqEcnMarksAbovePortThreshold` | sch_dwrr2/main.c:119-130 | Under MQ-ECN, a class holding more than the port threshold is always marked. |
| `SchDwrr2Props.MqEcnAsWrittenAgrees` | sch_dwrr2/main.c:119-127 | The threshold as written equals the corrected one whenever the rate and the round time both fit in 32 bits. |
| `SchDwrr2Props.MqEcnAsWrittenExceedsPortThreshold` | sch_dwrr2/main.c:125-127 | At 10 Gbit/s and a 32000-byte port threshold, the threshold as written is 226939 bytes where the corrected one is 32000. At a rate of 2^32 bit/s it divides by zero. |
| `SchDwrr2Qdisc.Scheduler.constructor` | sch_dwrr2/main.c:538-584 | The new object is valid and stands for the initial port. |
| `SchDwrr2Qdisc.Scheduler.AgedRoundTime` | sch_dwrr2/main.c:415-433 | The loop of up to 10 EWMA steps toward 0 computes exactly `IdleAge`. |
| `SchDwrr2Qdisc.Scheduler.Enqueue` | sch_dwrr2/main.c:407-472 | The in-place enqueue keeps the object valid and performs `EnqueueSpec`. |
| `SchDwrr2Qdisc.Scheduler.AppendPacket` | sch_dwrr2/main.c:457-468 | The in-place append performs `Append`. |
| `SchDwrr2Qdisc.Scheduler.ScheduleHead` | sch_dwrr2/main.c:301-317 | The in-place yield loop performs `Schedule`. |
| `SchDwrr2Qdisc.Scheduler.YieldHead` | sch_dwrr2/main.c:364-385 | The in-place yield performs `Yield`. |
| `SchDwrr2Qdisc.Scheduler.SendHead` | sch_dwrr2/main.c:317-362 | The in-place token-bucket step performs `SendOrThrottle`. |
| `SchDwrr2Qdisc.Scheduler.Dequeue` | sch_dwrr2/main.c:287-389 | The in-place dequeue keeps the object valid and performs `DequeueSpec`. |

## Left out

- Kernel registration, the qdisc ops tables, netlink attribute parsing,
  the sysctl table, statistics counters, debug `printk`s, `peek`, `drop`,
  `dump` and `destroy`. None of them takes part in scheduling.
- Child FIFO contents beyond the packet sizes. The child `bfifo` verdict
  is the parameter `childAccepts`.
- Clock reads. The first scheduler reads the clock several times within one
  enqueue or dequeue; the model uses one instant `now` per call.
- Packets longer than the MTU. The source only logs them. Enqueue requires
  `SkbSize(len) ≤ 1538`, which is what makes the dequeue loop terminate,
  because every quantum is at least the MTU. Without that bound the source
  can loop forever: with WRR on, a yield sets the deficit to 0 (first
  scheduler) or to the quantum (second scheduler), so a head packet larger
  than its class's quantum never fits, and when every active class is
  blocked that way the `while (1)` loop of dequeue never ends.
- The NULL-class branch of enqueue. The classifier returns NULL only before
  the class array is allocated, which the model rules out by construction.
- Wrap-around of the u32 byte counters, the u32 deficit and the s64 times.
  Integers are unbounded in the model. The only truncations modelled are the
  two in the Findings.
- Overflow of the u64 products in the MQ-ECN thresholds:
  `min(...) * DWRR_QDISC_PORT_THRESH_BYTES` (sch_dwrr/main.c:199) and
  `estimate_rate_bps * dwrr_port_thresh_bytes` (sch_dwrr2/main.c:125). The
  model computes them unbounded. They overflow only for port thresholds far
  beyond any real buffer.
- Rate changes after initialisation (`dwrr_change` on a live port). The
  rate is fixed when the object is built.
- Negative or out-of-range sysctl values. `ConfigValid` holds the ranges
  the sysctl table enforces; the idle interval may be any integer. The
  second scheduler ages the estimate only when the interval is positive;
  the first one resets the estimate to 0 on an empty MQ-ECN port when the
  interval is not positive.
- The commented-out `dwrr_schedule` of the second scheduler, which is dead
  code.
- `SchDwrr.MqEcnThreshold`, `SchDwrr2.MqEcnThreshold`: these are the
  corrected thresholds, not the ones as written. The model marks with them;
  the as-written versions are kept next to them for the Findings.
- `Wire.PrecomputeRateData`: this is the corrected rate data, not the one as
  written. Every later step uses it.
- `SchDwrrQdisc.Scheduler.Enqueue`, `SchDwrr2Qdisc.Scheduler.Enqueue`: these
  take the packet's on-wire size and TOS byte only. Setting the CE bit in
  the packet header becomes the returned `mark`.

The code differs from the design description on these points; the model
follows the code:

- The first scheduler's MQ-ECN rate estimate multiplies by 8e9. The second
  scheduler's uses `quantum << 33`, i.e. 8.59e9.
- The second scheduler's token test accepts a zero balance. The first
  scheduler's requires a strictly positive remainder.
- The second scheduler always marks at enqueue, and marks again at dequeue
  when dequeue marking is on. The first scheduler marks at one end only.

## Findings

| source | as written | input that shows it | evidently intended | confidence | as-written member | corrected member |
|---|---|---|---|---|---|---|
| sch_dwrr/main.c:73 (also sch_dwrr2/main.c:101-102) | The u64 quotient 8e9·2^15/rate is stored in the u32 field `mult`, so it keeps only its low 32 bits. | tc rate 1000 bytes/s (8000 bit/s). The quotient 32768000000 is truncated to 2703228928, and a 1538-byte frame is charged under a tenth of its transmission time. | `mult` holds the full quotient, so the cost of a packet never exceeds, and nearly equals, its exact transmission time. | high, not executed | `Wire.MultTruncationUndercharges` | `Wire.L2tNearlyExact` |
| sch_dwrr/main.c:198-199 | The MQ-ECN threshold divides by `rate_bps` whenever a round-time sample exists. | An unshaped port (rate 0) with round time 1 ns: the division is by zero. | On an unshaped port, the port threshold is used, as it is without a sample. | high, not executed | `SchDwrrProps.MqEcnAsWrittenAgrees` | `SchDwrr.MqEcnThreshold` |
| sch_dwrr2/main.c:120-127 | `div_u64` takes a u32 divisor, so `round_time` and `rate_bps` are truncated to their low 32 bits. | Rate 10^10 bit/s, no sample, port threshold 32000 bytes. The divisor becomes 1410065408, so the threshold is 226939 bytes instead of at most 32000. A rate of 2^32 bit/s divides by zero. | Divide at full width, as `div64_u64` does, so the threshold never exceeds the port threshold. | high, not executed | `SchDwrr2Props.MqEcnAsWrittenExceedsPortThreshold` | `SchDwrr2.MqEcnThreshold` |
