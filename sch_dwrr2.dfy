/**
 * The second scheduler, sch_dwrr2/main.c, as a state machine over values.
 *
 * The refactored scheduler keeps the structure of the first one (eight
 * classes, an active list served by deficit or weighted round robin behind
 * a token bucket, three ECN schemes) but differs in its arithmetic and its
 * bookkeeping: a class is charged its quantum when it joins the list and
 * each time it yields, there is no per-visit flag; the token test accepts a
 * zero balance; the bucket depth is given in bytes; the round-time average
 * is a shift-based EWMA whose sample is the time between the start of a
 * round and the end of the class's last transmission; and enqueue always
 * marks, dequeue marking coming on top when enabled.
 *
 * The class Scheduler in sch_dwrr2_qdisc.dfy performs the same steps in
 * place.
 */
module SchDwrr2 {
  import opened Wire
  import Classifier

  /** dwrr_round_alpha_shift: the EWMA weight is a fraction of 2^10. */
  const AlphaShift: nat := 10
  const AlphaScale: nat := 1024

  /** The tunables of params.c that the datapath reads. */
  datatype Config = Config(
    bufferMode: BufferMode,
    sharedBufferBytes: nat,
    bucketBytes: nat,
    portThreshBytes: nat,
    ecnScheme: EcnScheme,
    roundAlpha: nat,
    idleIntervalNs: int,
    enableWrr: bool,
    enableDequeueEcn: bool,
    queueThreshBytes: seq<nat>,
    queueDscp: seq<int>,
    queueQuantum: seq<nat>,
    queueBufferBytes: seq<nat>)

  /** The ranges the sysctl table enforces, and one entry per class. */
  predicate ConfigValid(cfg: Config)
  {
    cfg.roundAlpha <= AlphaScale
    && |cfg.queueThreshBytes| == MaxQueues
    && |cfg.queueDscp| == MaxQueues
    && |cfg.queueQuantum| == MaxQueues
    && |cfg.queueBufferBytes| == MaxQueues
    && (forall i :: 0 <= i < MaxQueues ==> MtuBytes <= cfg.queueQuantum[i] <= QuantumMax)
    && (forall i :: 0 <= i < MaxQueues ==> 0 <= cfg.queueDscp[i] <= DscpMax)
  }

  /** struct dwrr_class; the child FIFO is kept as the on-wire sizes of its
      packets, head first. */
  datatype ClassState = ClassState(
    fifo: seq<nat>,
    deficit: nat,
    lenBytes: nat,
    startTime: int,
    lastPktTime: int,
    quantum: nat)

  /** struct dwrr_sched_data without its constant parts. */
  datatype Port = Port(
    queues: seq<ClassState>,
    activeList: seq<nat>,
    tokens: int,
    timeNs: int,
    sumLenBytes: nat,
    roundTime: int,
    lastIdleTime: int)

  datatype DropReason = BufferFull | ChildRejected

  /** The verdict of enqueue: the class chosen, and whether the packet was
      marked Congestion Experienced. */
  datatype Enqueued = Accepted(id: nat, mark: bool) | Dropped(id: nat, reason: DropReason)

  /** The outcome of dequeue: a packet of the given on-wire size left class
      id; or the watchdog was armed for time wakeAt; or nothing is queued. */
  datatype Dequeued = Sent(id: nat, size: nat, mark: bool) | Throttled(wakeAt: int) | NoPacket

  // ---------------------------------------------------------------------
  // Invariant
  // ---------------------------------------------------------------------

  function SumLen(qs: seq<ClassState>): nat
  {
    if qs == [] then 0 else qs[0].lenBytes + SumLen(qs[1..])
  }

  lemma {:induction false} SumLenUpdate(qs: seq<ClassState>, i: nat, q: ClassState)
    requires i < |qs|
    ensures SumLen(qs[i := q]) + qs[i].lenBytes == SumLen(qs) + q.lenBytes
  {
    if i == 0 {
      assert qs[i := q][1..] == qs[1..];
    } else {
      assert qs[i := q][1..] == qs[1..][i - 1 := q];
      SumLenUpdate(qs[1..], i - 1, q);
    }
  }

  lemma {:induction false} SumLenBound(qs: seq<ClassState>, i: nat)
    requires i < |qs|
    ensures qs[i].lenBytes <= SumLen(qs)
  {
    if i > 0 {
      SumLenBound(qs[1..], i - 1);
    }
  }

  lemma {:induction false} SumLenZero(qs: seq<ClassState>)
    ensures SumLen(qs) == 0 <==> forall i :: 0 <= i < |qs| ==> qs[i].lenBytes == 0
  {
    if qs != [] {
      SumLenZero(qs[1..]);
      assert forall i :: 1 <= i < |qs| ==> qs[i] == qs[1..][i - 1];
    }
  }

  /** What the source keeps true of one class between calls. */
  predicate ClassValid(cfg: Config, c: nat, q: ClassState)
    requires ConfigValid(cfg) && c < MaxQueues
  {
    q.lenBytes == Total(q.fifo)
    && (forall k :: 0 <= k < |q.fifo| ==> MinPktBytes + 20 <= q.fifo[k] <= MtuBytes)
    && (q.fifo != [] ==> q.quantum == cfg.queueQuantum[c])
    && q.deficit < MtuBytes + QuantumMax
  }

  /** The active list holds exactly the classes with queued packets, each
      once. */
  predicate ListValid(p: Port)
  {
    |p.queues| == MaxQueues
    && NoDup(p.activeList)
    && (forall i :: 0 <= i < |p.activeList| ==> p.activeList[i] < MaxQueues)
    && (forall c: nat :: c < MaxQueues ==> (c in p.activeList <==> p.queues[c].fifo != []))
  }

  /** Depth of the token bucket in nanoseconds (bucket_ns). */
  function BucketNs(cfg: Config, rate: RateCfg): nat
  {
    L2tNs(rate, cfg.bucketBytes)
  }

  /** The port invariant: the list is consistent, every class is, the port
      total is the sum of the class totals, and the bucket never holds
      more than its depth. */
  predicate PortValid(cfg: Config, rate: RateCfg, p: Port)
  {
    ConfigValid(cfg)
    && ListValid(p)
    && (forall c: nat :: c < MaxQueues ==> ClassValid(cfg, c, p.queues[c]))
    && p.sumLenBytes == SumLen(p.queues)
    && 0 <= p.tokens <= BucketNs(cfg, rate)
  }

  /** Replacing one class and updating the list and the port counters
      consistently with it keeps the invariant. */
  lemma ReplaceClassValid(cfg: Config, rate: RateCfg, p: Port, c: nat, q: ClassState, p': Port)
    requires PortValid(cfg, rate, p) && c < MaxQueues
    requires p'.queues == p.queues[c := q]
    requires ClassValid(cfg, c, q)
    requires NoDup(p'.activeList)
    requires forall d :: d in p'.activeList <==> (d in p.activeList && d != c) || (d == c && q.fifo != [])
    requires p'.sumLenBytes + p.queues[c].lenBytes == p.sumLenBytes + q.lenBytes
    requires 0 <= p'.tokens <= BucketNs(cfg, rate)
    ensures PortValid(cfg, rate, p')
  {
    SumLenUpdate(p.queues, c, q);
    forall i | 0 <= i < |p'.activeList| ensures p'.activeList[i] < MaxQueues {
      assert p'.activeList[i] in p'.activeList;
    }
    forall d: nat | d < MaxQueues
      ensures ClassValid(cfg, d, p'.queues[d]) && (d in p'.activeList <==> p'.queues[d].fifo != [])
    {
      if d != c {
        assert p'.queues[d] == p.queues[d];
      }
    }
  }

  // ---------------------------------------------------------------------
  // Round-time estimate
  // ---------------------------------------------------------------------

  /** s64_ewma: weight/2^shift on the old value, the rest on the sample;
      the arithmetic right shift rounds toward minus infinity. */
  function S64Ewma(smooth: int, sample: int, weight: nat, shift: nat): int
    requires weight <= Pow2(shift)
  {
    (smooth * weight + sample * (Pow2(shift) - weight)) / Pow2(shift)
  }

  /** A weighted sum with weights adding up to d lies between d times the
      smaller and d times the larger term. */
  lemma WeightedSumBetween(x: int, y: int, w: nat, d: nat)
    requires w <= d
    ensures d * Min(x, y) <= x * w + y * (d - w) <= d * Max(x, y)
  {
    var lo, hi := Min(x, y), Max(x, y);
    MulLeft(w, lo, x);
    MulLeft(w, x, hi);
    MulLeft(d - w, lo, y);
    MulLeft(d - w, y, hi);
    assert d * lo == w * lo + (d - w) * lo;
    assert d * hi == w * hi + (d - w) * hi;
  }

  /** The average lies between the old value and the sample. */
  lemma S64EwmaBetween(smooth: int, sample: int, weight: nat, shift: nat)
    requires weight <= Pow2(shift)
    ensures Min(smooth, sample) <= S64Ewma(smooth, sample, weight, shift) <= Max(smooth, sample)
  {
    var d := Pow2(shift);
    WeightedSumBetween(smooth, sample, weight, d);
    FloorDivBetween(smooth * weight + sample * (d - weight), d, Min(smooth, sample), Max(smooth, sample));
  }

  lemma AlphaScaleIsPow2()
    ensures Pow2(AlphaShift) == AlphaScale
  {
    assert Pow2(0) == 1;
    assert Pow2(5) == 32;
  }

  /** The round-time update of this scheduler. */
  function RoundEwma(alpha: nat, rt: int, sample: int): int
    requires alpha <= AlphaScale
  {
    AlphaScaleIsPow2();
    S64Ewma(rt, sample, alpha, AlphaShift)
  }

  /** The estimate after n idle intervals, each an EWMA step toward 0. */
  function DecayTimes(alpha: nat, rt: int, n: int): int
    requires alpha <= AlphaScale
    decreases n
  {
    if n <= 0 then rt else RoundEwma(alpha, DecayTimes(alpha, rt, n - 1), 0)
  }

  /** Decay moves the estimate toward zero and never past it. */
  lemma {:induction false} DecayTimesTowardZero(alpha: nat, rt: int, n: int)
    requires alpha <= AlphaScale
    ensures Min(rt, 0) <= DecayTimes(alpha, rt, n) <= Max(rt, 0)
    decreases n
  {
    if n > 0 {
      DecayTimesTowardZero(alpha, rt, n - 1);
      AlphaScaleIsPow2();
      S64EwmaBetween(DecayTimes(alpha, rt, n - 1), 0, alpha, AlphaShift);
    }
  }

  /** The round-time estimate after the idle check of dwrr_enqueue: on an
      empty MQ-ECN port with a positive idle interval, n whole intervals
      since the port went idle decay it n times when 0 < n <= MaxIteration
      and reset it when n > MaxIteration; otherwise it is kept. */
  function IdleAge(cfg: Config, p: Port, now: int): int
    requires ConfigValid(cfg)
  {
    var n := if p.sumLenBytes == 0 && cfg.ecnScheme == MqEcn && cfg.idleIntervalNs > 0
             then CDiv(now - p.lastIdleTime, cfg.idleIntervalNs) else 0;
    if 0 < n <= MaxIteration then DecayTimes(cfg.roundAlpha, p.roundTime, n)
    else if n > MaxIteration then 0
    else p.roundTime
  }

  // ---------------------------------------------------------------------
  // ECN marking
  // ---------------------------------------------------------------------

  /** 1 << 33, which stands in for 8 * NSEC_PER_SEC in the estimate. */
  const EstimateFactor: nat := 0x2_0000_0000

  /** The rate estimate of a class: quantum bytes per round time, the
      factor 8e9 approximated by 2^33; the line rate when there is no
      round-time estimate. */
  function RateEstimate(quantum: nat, roundTime: int, rateBps: nat): nat
  {
    if roundTime > 0 then CDiv(quantum * EstimateFactor, roundTime) else rateBps
  }

  /** MQ-ECN threshold of a class: the port threshold scaled by the class's
      estimated rate over the line rate, the estimate capped at the line
      rate. Divisions are at full width; an unshaped port uses the port
      threshold. */
  function MqEcnThreshold(quantum: nat, roundTime: int, rateBps: nat, portThresh: nat): (t: nat)
    ensures t <= portThresh
    ensures rateBps == 0 ==> t == portThresh
  {
    if rateBps == 0 then portThresh
    else
      var estimate := RateEstimate(quantum, roundTime, rateBps);
      var share: nat := if estimate < rateBps then estimate else rateBps;
      Scale(share, rateBps, portThresh)
  }

  /** div_u64: a 64-bit dividend over a divisor truncated to its low 32
      bits; None stands for a division by zero. */
  function DivU64(a: nat, divisor: int): (q: Option<nat>)
    ensures q.None? <==> divisor % U32Range == 0
  {
    var d: nat := divisor % U32Range;
    if d == 0 then None else Some(a / d)
  }

  /** The threshold as the source computes it: div_u64 takes a 32-bit
      divisor, so both the round time and the rate are truncated to their
      low 32 bits before dividing. None stands for a division by zero. */
  function MqEcnThresholdAsWritten(quantum: nat, roundTime: int, rateBps: nat, portThresh: nat)
    : (t: Option<nat>)
    ensures rateBps % U32Range == 0 ==> t.None?
  {
    var estimate: Option<nat> :=
      if roundTime > 0 then DivU64(quantum * EstimateFactor, roundTime) else Some(rateBps);
    if estimate.None? then None
    else DivU64(Min(estimate.value, rateBps) * portThresh, rateBps)
  }

  /** dwrr_ecn_marking: whether a packet is marked, given its class after
      the length update and the port total and round time of the moment. */
  predicate EcnMark(cfg: Config, rate: RateCfg, c: nat, q: ClassState, sum: nat, rt: int)
    requires ConfigValid(cfg) && c < MaxQueues
  {
    match cfg.ecnScheme
    case QueueEcn => q.lenBytes > cfg.queueThreshBytes[c]
    case PortEcn => sum > cfg.portThreshBytes
    case MqEcn => q.lenBytes > MqEcnThreshold(q.quantum, rt, rate.rateBps, cfg.portThreshBytes)
    case DisableEcn => false
  }

  // ---------------------------------------------------------------------
  // Dequeue
  // ---------------------------------------------------------------------

  /** The head class's deficit covers its head packet. */
  predicate HeadFits(p: Port)
    requires |p.queues| == MaxQueues && p.activeList != [] && p.activeList[0] < MaxQueues
  {
    Fits(p.queues[p.activeList[0]])
  }

  predicate Fits(q: ClassState)
  {
    q.fifo != [] && q.fifo[0] <= q.deficit
  }

  /** The head class cannot send: a round-time sample is taken, a new round
      starts at the end of its last transmission, the class moves to the
      tail with its configured quantum, and its deficit becomes the quantum
      (WRR) or grows by it (DRR). */
  function Yield(cfg: Config, p: Port): Port
    requires ConfigValid(cfg) && ListValid(p) && p.activeList != []
  {
    var c := p.activeList[0];
    var q := p.queues[c];
    var quantum := cfg.queueQuantum[c];
    p.(queues := p.queues[c := q.(startTime := q.lastPktTime, quantum := quantum,
                                   deficit := if cfg.enableWrr then quantum else q.deficit + quantum)],
       activeList := p.activeList[1..] + [c],
       roundTime := RoundEwma(cfg.roundAlpha, p.roundTime, q.lastPktTime - q.startTime))
  }

  lemma YieldValid(cfg: Config, rate: RateCfg, p: Port)
    requires PortValid(cfg, rate, p) && p.activeList != [] && !HeadFits(p)
    ensures PortValid(cfg, rate, Yield(cfg, p))
    ensures Yield(cfg, p).activeList != []
    ensures Fits(Yield(cfg, p).queues[p.activeList[0]])
    ensures forall y :: 0 <= y < MaxQueues && y != p.activeList[0] ==>
              Yield(cfg, p).queues[y] == p.queues[y]
    ensures forall y :: 0 <= y < MaxQueues ==> Yield(cfg, p).queues[y].fifo == p.queues[y].fifo
  {
    var c := p.activeList[0];
    var q := p.queues[c];
    assert c in p.activeList;
    assert ClassValid(cfg, c, q);
    var p' := Yield(cfg, p);
    RotateKeepsNoDup(p.activeList);
    assert ClassValid(cfg, c, p'.queues[c]);
    ReplaceClassValid(cfg, rate, p, c, p'.queues[c], p');
  }

  /** The yields of the dequeue loop: while the head class cannot send, it
      yields. Every class in yielded was visited this call and now fits,
      so none is passed over twice. */
  function Rotate(cfg: Config, rate: RateCfg, p: Port, yielded: set<nat>): (p': Port)
    requires PortValid(cfg, rate, p) && p.activeList != []
    requires forall y :: y in yielded ==> y < MaxQueues && Fits(p.queues[y])
    ensures PortValid(cfg, rate, p') && p'.activeList != [] && HeadFits(p')
    ensures forall y :: 0 <= y < MaxQueues ==> p'.queues[y].fifo == p.queues[y].fifo
    ensures p'.sumLenBytes == p.sumLenBytes && p'.tokens == p.tokens
    ensures p'.timeNs == p.timeNs && p'.lastIdleTime == p.lastIdleTime
    decreases ClassIds() - yielded
  {
    if HeadFits(p) then p
    else
      RotateStep(cfg, rate, p, yielded);
      Rotate(cfg, rate, Yield(cfg, p), yielded + {p.activeList[0]})
  }

  /** One yield keeps the invariant and the readiness of every class
      already visited, and the class that yields had not been visited. */
  lemma RotateStep(cfg: Config, rate: RateCfg, p: Port, yielded: set<nat>)
    requires PortValid(cfg, rate, p) && p.activeList != []
    requires forall y :: y in yielded ==> y < MaxQueues && Fits(p.queues[y])
    requires !HeadFits(p)
    ensures p.activeList[0] !in yielded && p.activeList[0] in ClassIds()
    ensures var p1 := Yield(cfg, p);
      PortValid(cfg, rate, p1) && p1.activeList != []
      && (forall y :: y in yielded + {p.activeList[0]} ==> y < MaxQueues && Fits(p1.queues[y]))
  {
    var c := p.activeList[0];
    if c in yielded {
      assert false;
    }
    YieldValid(cfg, rate, p);
  }

  /** The class a dequeue serves: classes yield until the head one can
      send. */
  function Schedule(cfg: Config, rate: RateCfg, p: Port): (p': Port)
    requires PortValid(cfg, rate, p) && p.activeList != []
    ensures PortValid(cfg, rate, p') && p'.activeList != [] && HeadFits(p')
    ensures forall y :: 0 <= y < MaxQueues ==> p'.queues[y].fifo == p.queues[y].fifo
    ensures p'.sumLenBytes == p.sumLenBytes && p'.tokens == p.tokens
    ensures p'.timeNs == p.timeNs && p'.lastIdleTime == p.lastIdleTime
  {
    Rotate(cfg, rate, p, {})
  }

  /** tbf_schedule: the token balance after sending len bytes now; the
      bucket refills one token per nanosecond up to its depth. */
  function TbfSchedule(cfg: Config, rate: RateCfg, p: Port, len: nat, now: int): int
  {
    Min(now - p.timeNs, BucketNs(cfg, rate)) + p.tokens - L2tNs(rate, len)
  }

  /** The class emptied by the packet just sent leaves the list, takes a
      round-time sample and, when the whole port is now empty, records the
      start of an idle period. Its deficit is kept. */
  function Drain(cfg: Config, p: Port, c: nat, now: int): Port
    requires ConfigValid(cfg) && |p.queues| == MaxQueues && c < MaxQueues && p.activeList != []
  {
    var q := p.queues[c];
    p.(activeList := p.activeList[1..],
       roundTime := RoundEwma(cfg.roundAlpha, p.roundTime, q.lastPktTime - q.startTime),
       lastIdleTime := if p.sumLenBytes == 0 then now else p.lastIdleTime)
  }

  /** The head class can send: the token bucket releases its head packet
      or arms the watchdog; the dequeue mark is taken after all updates. */
  function SendOrThrottle(cfg: Config, rate: RateCfg, p: Port, now: int): (Dequeued, Port)
    requires PortValid(cfg, rate, p) && p.activeList != [] && HeadFits(p)
  {
    var c := p.activeList[0];
    var q := p.queues[c];
    var len := q.fifo[0];
    var result := TbfSchedule(cfg, rate, p, len, now);
    if result < 0 then
      (Throttled(now - result), p)
    else
      SumLenBound(p.queues, c);
      var sent := q.(fifo := q.fifo[1..], lenBytes := q.lenBytes - len, deficit := q.deficit - len,
                     lastPktTime := now + L2tNs(rate, len));
      var p1 := p.(queues := p.queues[c := sent], sumLenBytes := p.sumLenBytes - len);
      var p2 := if sent.fifo == [] then Drain(cfg, p1, c, now) else p1;
      var p3 := p2.(timeNs := now, tokens := Min(result, BucketNs(cfg, rate)));
      var mark := cfg.enableDequeueEcn && EcnMark(cfg, rate, c, sent, p3.sumLenBytes, p3.roundTime);
      (Sent(c, len, mark), p3)
  }

  /** dwrr_dequeue at time now. */
  function DequeueSpec(cfg: Config, rate: RateCfg, p: Port, now: int): (Dequeued, Port)
    requires PortValid(cfg, rate, p)
  {
    if p.activeList == [] then (NoPacket, p)
    else SendOrThrottle(cfg, rate, Schedule(cfg, rate, p), now)
  }

  // ---------------------------------------------------------------------
  // Enqueue
  // ---------------------------------------------------------------------

  /** dwrr_buffer_overfill. */
  predicate Overfilled(cfg: Config, p: Port, c: nat, len: nat)
    requires ConfigValid(cfg) && |p.queues| == MaxQueues && c < MaxQueues
  {
    match cfg.bufferMode
    case SharedBuffer => p.sumLenBytes + len > cfg.sharedBufferBytes
    case StaticBuffer => p.queues[c].lenBytes + len > cfg.queueBufferBytes[c]
  }

  /** An admitted packet joins its class's FIFO and both byte counts; a
      class that was empty starts a round now with its configured quantum
      as deficit and joins the tail of the active list. */
  function Append(cfg: Config, p: Port, c: nat, len: nat, now: int): Port
    requires ConfigValid(cfg) && |p.queues| == MaxQueues && c < MaxQueues
  {
    var q := p.queues[c];
    var grown := q.(fifo := q.fifo + [len], lenBytes := q.lenBytes + len);
    var quantum := cfg.queueQuantum[c];
    var q1 := if q.fifo != [] then grown
              else grown.(startTime := now, quantum := quantum, deficit := quantum);
    p.(queues := p.queues[c := q1], sumLenBytes := p.sumLenBytes + len,
       activeList := if q.fifo != [] then p.activeList else p.activeList + [c])
  }

  /** dwrr_enqueue at time now; childAccepts is the verdict of the class's
      child byte FIFO. */
  function EnqueueSpec(cfg: Config, rate: RateCfg, p: Port, pkt: Packet, now: int, childAccepts: bool)
    : (Enqueued, Port)
    requires PortValid(cfg, rate, p)
    requires pkt.tos.Some? ==> pkt.tos.value < 256
  {
    var len := SkbSize(pkt.len);
    var p0 := p.(roundTime := IdleAge(cfg, p, now));
    var c := Classifier.ClassOf(cfg.queueDscp, pkt.tos);
    if Overfilled(cfg, p0, c, len) then (Dropped(c, BufferFull), p0)
    else if !childAccepts then (Dropped(c, ChildRejected), p0)
    else
      var p1 := Append(cfg, p0, c, len, now);
      (Accepted(c, EcnMark(cfg, rate, c, p1.queues[c], p1.sumLenBytes, p1.roundTime)), p1)
  }

  // ---------------------------------------------------------------------
  // Initialisation
  // ---------------------------------------------------------------------

  function IdleClass(now: int): ClassState
  {
    ClassState([], 0, 0, now, now, 0)
  }

  /** dwrr_init: every class empty, an empty bucket, a zero round-time
      estimate, the idle period starting now. */
  function InitialPort(now: int): Port
  {
    Port(seq(MaxQueues, _ => IdleClass(now)), [], 0, now, 0, 0, now)
  }
}
