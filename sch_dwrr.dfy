/**
 * The first scheduler, sch_dwrr/main.c, as a state machine over values.
 *
 * A port owns MaxQueues classes, each a FIFO of on-wire packet sizes with a
 * deficit counter, and an active list of the classes that hold packets.
 * Dequeue serves the head class of the active list under deficit round
 * robin (or weighted round robin) behind a token-bucket shaper; enqueue
 * classifies by DSCP, admits against a shared or per-queue buffer and marks
 * ECN under one of three schemes, MQ-ECN scaling the threshold of a class by
 * its share of the estimated round time.
 *
 * Every function here is the specification of one step of the source; the
 * class Scheduler in sch_dwrr_qdisc.dfy performs the same steps in place.
 */
module SchDwrr {
  import opened Wire
  import Classifier

  /** round_alpha is a fraction of 1000 (params.c: range 0 .. 1000). */
  const AlphaScale: nat := 1000

  /** The tunables of params.c that the datapath reads. */
  datatype Config = Config(
    bufferMode: BufferMode,
    sharedBufferBytes: nat,
    bucketNs: nat,
    portThreshBytes: nat,
    ecnScheme: EcnScheme,
    roundAlpha: nat,
    idleIntervalNs: int,
    enableWrr: bool,
    enableDequeueEcn: bool,
    queueThreshBytes: seq<nat>,
    queueDscp: seq<int>,
    queueQuantum: seq<nat>,
    queueBufferBytes: seq<nat>)

  /** The ranges the sysctl table enforces, and one entry per class. */
  predicate ConfigValid(cfg: Config)
  {
    cfg.roundAlpha <= AlphaScale
    && |cfg.queueThreshBytes| == MaxQueues
    && |cfg.queueDscp| == MaxQueues
    && |cfg.queueQuantum| == MaxQueues
    && |cfg.queueBufferBytes| == MaxQueues
    && (forall i :: 0 <= i < MaxQueues ==> MtuBytes <= cfg.queueQuantum[i] <= QuantumMax)
    && (forall i :: 0 <= i < MaxQueues ==> 0 <= cfg.queueDscp[i] <= DscpMax)
  }

  /** struct dwrr_class: the child FIFO is kept as the on-wire sizes of its
      packets, head first. */
  datatype ClassState = ClassState(
    fifo: seq<nat>,
    deficit: nat,
    active: bool,
    curr: bool,
    lenBytes: nat,
    startTime: int,
    lastPktTime: int,
    lastPktLenNs: int,
    quantum: nat)

  /** struct dwrr_sched_data without its constant parts (rate, tunables). */
  datatype Port = Port(
    queues: seq<ClassState>,
    activeList: seq<nat>,
    tokens: int,
    timeNs: int,
    sumLenBytes: nat,
    roundTimeNs: int,
    lastIdleTimeNs: int)

  datatype DropReason = BufferFull | ChildRejected

  /** The verdict of enqueue: the class chosen, and whether the packet was
      marked Congestion Experienced. */
  datatype Enqueued = Accepted(id: nat, mark: bool) | Dropped(id: nat, reason: DropReason)

  /** The outcome of dequeue: a packet of the given on-wire size left class
      id; or the shaper armed its watchdog for time wakeAt; or nothing is
      queued. */
  datatype Dequeued = Sent(id: nat, size: nat, mark: bool) | Throttled(wakeAt: int) | NoPacket

  // ---------------------------------------------------------------------
  // Invariant
  // ---------------------------------------------------------------------

  function SumLen(qs: seq<ClassState>): nat
  {
    if qs == [] then 0 else qs[0].lenBytes + SumLen(qs[1..])
  }

  lemma {:induction false} SumLenUpdate(qs: seq<ClassState>, i: nat, q: ClassState)
    requires i < |qs|
    ensures SumLen(qs[i := q]) + qs[i].lenBytes == SumLen(qs) + q.lenBytes
  {
    if i == 0 {
      assert qs[i := q][1..] == qs[1..];
    } else {
      assert qs[i := q][1..] == qs[1..][i - 1 := q];
      SumLenUpdate(qs[1..], i - 1, q);
    }
  }

  lemma {:induction false} SumLenBound(qs: seq<ClassState>, i: nat)
    requires i < |qs|
    ensures qs[i].lenBytes <= SumLen(qs)
  {
    if i > 0 {
      SumLenBound(qs[1..], i - 1);
    }
  }

  lemma {:induction false} SumLenZero(qs: seq<ClassState>)
    ensures SumLen(qs) == 0 <==> forall i :: 0 <= i < |qs| ==> qs[i].lenBytes == 0
  {
    if qs != [] {
      SumLenZero(qs[1..]);
      assert forall i :: 1 <= i < |qs| ==> qs[i] == qs[1..][i - 1];
    }
  }

  /** What the source keeps true of one class between calls. */
  predicate ClassValid(cfg: Config, c: nat, q: ClassState)
    requires ConfigValid(cfg) && c < MaxQueues
  {
    (q.active <==> q.fifo != [])
    && (q.curr ==> q.active)
    && q.lenBytes == Total(q.fifo)
    && (forall k :: 0 <= k < |q.fifo| ==> MinPktBytes + 20 <= q.fifo[k] <= MtuBytes)
    && (q.active ==> q.quantum == cfg.queueQuantum[c])
    && (q.active && !q.curr ==> q.deficit < MtuBytes)
    && q.deficit < MtuBytes + QuantumMax
    && q.lastPktLenNs >= 0
  }

  /** The active list holds exactly the active classes, each once. */
  predicate ListValid(p: Port)
  {
    |p.queues| == MaxQueues
    && NoDup(p.activeList)
    && (forall i :: 0 <= i < |p.activeList| ==> p.activeList[i] < MaxQueues)
    && (forall c: nat :: c < MaxQueues ==> (c in p.activeList <==> p.queues[c].active))
  }

  /** The port invariant: the list is consistent, every class is, the port
      total is the sum of the class totals, the bucket never holds more
      than its depth, and the round-time estimate is never negative. */
  predicate PortValid(cfg: Config, p: Port)
  {
    ConfigValid(cfg)
    && ListValid(p)
    && (forall c: nat :: c < MaxQueues ==> ClassValid(cfg, c, p.queues[c]))
    && p.sumLenBytes == SumLen(p.queues)
    && 0 <= p.tokens <= cfg.bucketNs
    && p.roundTimeNs >= 0
  }

  /** Replacing one class and updating the list and the port counters
      consistently with it keeps the invariant. */
  lemma ReplaceClassValid(cfg: Config, p: Port, c: nat, q: ClassState, p': Port)
    requires PortValid(cfg, p) && c < MaxQueues
    requires p'.queues == p.queues[c := q]
    requires ClassValid(cfg, c, q)
    requires NoDup(p'.activeList)
    requires forall d :: d in p'.activeList <==> (d in p.activeList && d != c) || (d == c && q.active)
    requires p'.sumLenBytes + p.queues[c].lenBytes == p.sumLenBytes + q.lenBytes
    requires 0 <= p'.tokens <= cfg.bucketNs && p'.roundTimeNs >= 0
    ensures PortValid(cfg, p')
  {
    SumLenUpdate(p.queues, c, q);
    forall i | 0 <= i < |p'.activeList| ensures p'.activeList[i] < MaxQueues {
      assert p'.activeList[i] in p'.activeList;
    }
    forall d: nat | d < MaxQueues
      ensures ClassValid(cfg, d, p'.queues[d]) && (d in p'.activeList <==> p'.queues[d].active)
    {
      if d != c {
        assert p'.queues[d] == p.queues[d];
      }
    }
  }

  // ---------------------------------------------------------------------
  // Round-time estimate
  // ---------------------------------------------------------------------

  /** One round-time sample of a class: the time since it joined the
      round, but at least the transmission time of its last packet. */
  function RoundSample(q: ClassState): int
  {
    Max(q.lastPktTime - q.startTime, q.lastPktLenNs)
  }

  /** The moving average of the round time, weight alpha/1000 on the old
      estimate, with C's truncating division. */
  function RoundEwma(alpha: nat, rt: int, sample: int): int
    requires alpha <= AlphaScale
  {
    CDiv(alpha * rt + (AlphaScale - alpha) * sample, AlphaScale)
  }

  /** The new estimate lies between the old one and the sample. */
  lemma RoundEwmaBetween(alpha: nat, rt: int, sample: int)
    requires alpha <= AlphaScale
    ensures Min(rt, sample) <= RoundEwma(alpha, rt, sample) <= Max(rt, sample)
  {
    var lo, hi := Min(rt, sample), Max(rt, sample);
    var v := alpha * rt + (AlphaScale - alpha) * sample;
    MulLeft(alpha, lo, rt);
    MulLeft(alpha, rt, hi);
    MulLeft(AlphaScale - alpha, lo, sample);
    MulLeft(AlphaScale - alpha, sample, hi);
    assert AlphaScale * lo <= v <= AlphaScale * hi;
  }

  /** One idle interval scales the estimate by alpha/1000. */
  function IdleDecay(alpha: nat, rt: int): int
    requires alpha <= AlphaScale
  {
    CDiv(rt * alpha, AlphaScale)
  }

  /** The estimate after n idle intervals. */
  function DecayTimes(alpha: nat, rt: int, n: int): int
    requires alpha <= AlphaScale
    decreases n
  {
    if n <= 0 then rt else IdleDecay(alpha, DecayTimes(alpha, rt, n - 1))
  }

  /** Decay keeps a non-negative estimate non-negative and never raises it. */
  lemma {:induction false} DecayTimesBounds(alpha: nat, rt: int, n: int)
    requires alpha <= AlphaScale && rt >= 0
    ensures 0 <= DecayTimes(alpha, rt, n) <= rt
    decreases n
  {
    if n > 0 {
      DecayTimesBounds(alpha, rt, n - 1);
      var r: nat := DecayTimes(alpha, rt, n - 1);
      MulMonotone(alpha, AlphaScale, r);
      assert r * alpha == alpha * r && r * AlphaScale == AlphaScale * r;
      FloorDivBetween(r * alpha, AlphaScale, 0, r);
    }
  }

  /** The round-time estimate after the idle check at the head of enqueue:
      on an empty MQ-ECN port it decays once per idle interval elapsed since
      the port went idle, and is reset once more than MaxIteration intervals
      (or a non-positive interval) have passed. */
  function IdleAge(cfg: Config, p: Port, now: int): int
    requires ConfigValid(cfg)
  {
    if p.sumLenBytes == 0 && cfg.ecnScheme == MqEcn then
      if cfg.idleIntervalNs > 0 then
        var n := CDiv(now - p.lastIdleTimeNs, cfg.idleIntervalNs);
        if n <= MaxIteration then DecayTimes(cfg.roundAlpha, p.roundTimeNs, n) else 0
      else 0
    else p.roundTimeNs
  }

  // ---------------------------------------------------------------------
  // ECN marking
  // ---------------------------------------------------------------------

  /** MQ-ECN threshold of a class: the port threshold scaled by the class's
      share of the line rate, quantum per round time, capped at 1. The
      estimate applies only on a shaped port with a positive round time. */
  /** 8 * NSEC_PER_SEC: bits per byte times nanoseconds per second. */
  const BitNs: nat := 8000000000

  function MqEcnThreshold(quantum: nat, roundTime: int, rateBps: nat, portThresh: nat): (t: nat)
    ensures t <= portThresh
    ensures roundTime <= 0 || rateBps == 0 ==> t == portThresh
  {
    if roundTime <= 0 || rateBps == 0 then portThresh
    else
      var estimate := RateEstimate(quantum, roundTime);
      var share: nat := if estimate < rateBps then estimate else rateBps;
      Scale(share, rateBps, portThresh)
  }

  /** The rate of a class that sends quantum bytes per round, in bit/s. */
  function RateEstimate(quantum: nat, roundTime: int): nat
    requires roundTime > 0
  {
    CDiv(quantum * BitNs, roundTime)
  }

  /** The threshold as the source computes it: with a positive round time
      it divides by the rate, which is zero on an unshaped port. None stands
      for that division by zero. */
  function MqEcnThresholdAsWritten(quantum: nat, roundTime: int, rateBps: nat, portThresh: nat)
    : (t: Option<nat>)
    ensures roundTime > 0 && rateBps == 0 <==> t.None?
  {
    if roundTime > 0 then
      if rateBps == 0 then None
      else
        var estimate := RateEstimate(quantum, roundTime);
        var share: nat := if estimate < rateBps then estimate else rateBps;
        Some(share * portThresh / rateBps)
    else Some(portThresh)
  }

  /** Whether a packet is marked, given its class after the length update,
      the port total and the round-time estimate. */
  predicate EcnMark(cfg: Config, rate: RateCfg, c: nat, q: ClassState, sum: nat, rt: int)
    requires ConfigValid(cfg) && c < MaxQueues
  {
    match cfg.ecnScheme
    case QueueEcn => q.lenBytes > cfg.queueThreshBytes[c]
    case PortEcn => sum > cfg.portThreshBytes
    case MqEcn => q.lenBytes > MqEcnThreshold(q.quantum, rt, rate.rateBps, cfg.portThreshBytes)
    case DisableEcn => false
  }

  // ---------------------------------------------------------------------
  // Dequeue
  // ---------------------------------------------------------------------

  /** The quantum is granted once per visit: curr records that it was. */
  function Charge(q: ClassState): ClassState
  {
    if q.curr then q else q.(curr := true, deficit := q.deficit + q.quantum)
  }

  function ChargeHead(p: Port): Port
    requires |p.queues| == MaxQueues && p.activeList != [] && p.activeList[0] < MaxQueues
  {
    p.(queues := p.queues[p.activeList[0] := Charge(p.queues[p.activeList[0]])])
  }

  /** The head class's deficit covers its head packet. */
  predicate HeadFits(p: Port)
    requires |p.queues| == MaxQueues && p.activeList != [] && p.activeList[0] < MaxQueues
  {
    var q := p.queues[p.activeList[0]];
    q.fifo != [] && q.fifo[0] <= q.deficit
  }

  /** At its next visit the class will send its head packet. */
  predicate Ready(q: ClassState)
  {
    q.fifo != [] && q.fifo[0] <= (if q.curr then q.deficit else q.deficit + q.quantum)
  }

  /** The head class cannot send: its visit ends, a round-time sample is
      taken, the class starts a new round at the tail of the list with its
      configured quantum and, under WRR, an empty deficit. */
  function Yield(cfg: Config, p: Port, now: int): Port
    requires ConfigValid(cfg) && ListValid(p) && p.activeList != []
  {
    var c := p.activeList[0];
    var q := p.queues[c];
    p.(queues := p.queues[c := q.(curr := false, startTime := now, quantum := cfg.queueQuantum[c],
                                   deficit := if cfg.enableWrr then 0 else q.deficit)],
       activeList := p.activeList[1..] + [c],
       roundTimeNs := RoundEwma(cfg.roundAlpha, p.roundTimeNs, RoundSample(q)))
  }

  lemma ChargeHeadValid(cfg: Config, p: Port)
    requires PortValid(cfg, p) && p.activeList != []
    ensures PortValid(cfg, ChargeHead(p))
    ensures ChargeHead(p).activeList == p.activeList
    ensures ChargeHead(p).queues[p.activeList[0]].curr
    ensures forall y :: 0 <= y < MaxQueues ==> ChargeHead(p).queues[y].fifo == p.queues[y].fifo
    ensures forall y :: 0 <= y < MaxQueues && Ready(p.queues[y]) ==> Ready(ChargeHead(p).queues[y])
  {
    var c := p.activeList[0];
    assert c in p.activeList;
    SumLenUpdate(p.queues, c, Charge(p.queues[c]));
    assert ClassValid(cfg, c, p.queues[c]);
    assert ClassValid(cfg, c, Charge(p.queues[c]));
  }

  lemma YieldValid(cfg: Config, p: Port, now: int)
    requires PortValid(cfg, p) && p.activeList != [] && !HeadFits(p)
    ensures PortValid(cfg, Yield(cfg, p, now))
    ensures Yield(cfg, p, now).activeList != []
    ensures Ready(Yield(cfg, p, now).queues[p.activeList[0]])
    ensures forall y :: 0 <= y < MaxQueues && y != p.activeList[0] ==>
              Yield(cfg, p, now).queues[y] == p.queues[y]
    ensures forall y :: 0 <= y < MaxQueues ==> Yield(cfg, p, now).queues[y].fifo == p.queues[y].fifo
  {
    var c := p.activeList[0];
    var q := p.queues[c];
    assert c in p.activeList;
    assert ClassValid(cfg, c, q);
    var p' := Yield(cfg, p, now);
    RotateKeepsNoDup(p.activeList);
    SumLenUpdate(p.queues, c, p'.queues[c]);
    RoundEwmaBetween(cfg.roundAlpha, p.roundTimeNs, RoundSample(q));
    assert ClassValid(cfg, c, p'.queues[c]);
    forall i | 0 <= i < |p'.activeList| ensures p'.activeList[i] < MaxQueues {
      assert p'.activeList[i] in p.activeList;
    }
  }

  /** The yields of the source's dequeue loop: while the head class cannot
      send, it yields and the next head is charged. The classes in yielded
      have been visited this call; each of them will send at its next
      visit, so none is passed over twice. */
  function Rotate(cfg: Config, p: Port, now: int, yielded: set<nat>): (p': Port)
    requires PortValid(cfg, p) && p.activeList != [] && p.queues[p.activeList[0]].curr
    requires forall y :: y in yielded ==> y < MaxQueues && Ready(p.queues[y])
    ensures PortValid(cfg, p') && p'.activeList != []
    ensures p'.queues[p'.activeList[0]].curr && HeadFits(p')
    ensures forall y :: 0 <= y < MaxQueues ==> p'.queues[y].fifo == p.queues[y].fifo
    ensures p'.sumLenBytes == p.sumLenBytes && p'.tokens == p.tokens
    ensures p'.timeNs == p.timeNs && p'.lastIdleTimeNs == p.lastIdleTimeNs
    decreases ClassIds() - yielded
  {
    if HeadFits(p) then p
    else
      RotateStep(cfg, p, now, yielded);
      Rotate(cfg, ChargeHead(Yield(cfg, p, now)), now, yielded + {p.activeList[0]})
  }

  /** One yield followed by the charge of the next head keeps the invariant
      and the readiness of every class already visited, and the class that
      yields had not been visited. */
  lemma RotateStep(cfg: Config, p: Port, now: int, yielded: set<nat>)
    requires PortValid(cfg, p) && p.activeList != [] && p.queues[p.activeList[0]].curr
    requires forall y :: y in yielded ==> y < MaxQueues && Ready(p.queues[y])
    requires !HeadFits(p)
    ensures p.activeList[0] !in yielded && p.activeList[0] in ClassIds()
    ensures PortValid(cfg, Yield(cfg, p, now)) && Yield(cfg, p, now).activeList != []
    ensures var p2 := ChargeHead(Yield(cfg, p, now));
      PortValid(cfg, p2) && p2.activeList != [] && p2.queues[p2.activeList[0]].curr
      && (forall y :: y in yielded + {p.activeList[0]} ==> y < MaxQueues && Ready(p2.queues[y]))
      && (forall y :: 0 <= y < MaxQueues ==> p2.queues[y].fifo == p.queues[y].fifo)
      && p2.sumLenBytes == p.sumLenBytes && p2.tokens == p.tokens
      && p2.timeNs == p.timeNs && p2.lastIdleTimeNs == p.lastIdleTimeNs
  {
    var c := p.activeList[0];
    if c in yielded {
      assert false;
    }
    YieldValid(cfg, p, now);
    var p1 := Yield(cfg, p, now);
    ChargeHeadValid(cfg, p1);
  }

  /** The class emptied by the packet just sent leaves the list, takes a
      round-time sample and, when the whole port is now empty, records the
      start of an idle period. */
  function Drain(cfg: Config, p: Port, c: nat, now: int): Port
    requires ConfigValid(cfg) && |p.queues| == MaxQueues && c < MaxQueues && p.activeList != []
  {
    var q := p.queues[c];
    p.(queues := p.queues[c := q.(active := false, curr := false,
                                   deficit := if cfg.enableWrr then 0 else q.deficit)],
       activeList := p.activeList[1..],
       roundTimeNs := RoundEwma(cfg.roundAlpha, p.roundTimeNs, RoundSample(q)),
       lastIdleTimeNs := if p.sumLenBytes == 0 then now else p.lastIdleTimeNs)
  }

  /** Tokens available at time now: the bucket refills at one token per
      nanosecond for at most its depth since the last send. */
  function Tokens(cfg: Config, p: Port, now: int): int
  {
    Min(now - p.timeNs, cfg.bucketNs) + p.tokens
  }

  /** The head class can send: the token bucket either releases its head
      packet or arms the watchdog for when it will hold enough tokens. */
  function SendOrThrottle(cfg: Config, rate: RateCfg, p: Port, now: int): (Dequeued, Port)
    requires PortValid(cfg, p) && p.activeList != [] && HeadFits(p)
  {
    var c := p.activeList[0];
    var q := p.queues[c];
    var len := q.fifo[0];
    var toks := Tokens(cfg, p, now);
    var pktNs := L2tNs(rate, len);
    if toks > pktNs then
      SumLenBound(p.queues, c);
      var sent := q.(fifo := q.fifo[1..], lenBytes := q.lenBytes - len, deficit := q.deficit - len,
                     lastPktLenNs := pktNs, lastPktTime := now);
      var sum := p.sumLenBytes - len;
      var mark := cfg.enableDequeueEcn && EcnMark(cfg, rate, c, sent, sum, p.roundTimeNs);
      var p1 := p.(queues := p.queues[c := sent], sumLenBytes := sum);
      var p2 := if sent.fifo == [] then Drain(cfg, p1, c, now) else p1;
      (Sent(c, len, mark), p2.(timeNs := now, tokens := Min(toks - pktNs, cfg.bucketNs)))
    else
      (Throttled(now + pktNs - toks), p)
  }

  /** The class a dequeue serves: the head class is charged and classes
      yield until the head one can send. */
  function Schedule(cfg: Config, p: Port, now: int): (p': Port)
    requires PortValid(cfg, p) && p.activeList != []
    ensures PortValid(cfg, p') && p'.activeList != []
    ensures p'.queues[p'.activeList[0]].curr && HeadFits(p')
    ensures forall y :: 0 <= y < MaxQueues ==> p'.queues[y].fifo == p.queues[y].fifo
    ensures p'.sumLenBytes == p.sumLenBytes && p'.tokens == p.tokens
    ensures p'.timeNs == p.timeNs && p'.lastIdleTimeNs == p.lastIdleTimeNs
  {
    ChargeHeadValid(cfg, p);
    Rotate(cfg, ChargeHead(p), now, {})
  }

  /** dwrr_qdisc_dequeue with every clock read taken as now. */
  function DequeueSpec(cfg: Config, rate: RateCfg, p: Port, now: int): (Dequeued, Port)
    requires PortValid(cfg, p)
  {
    if p.activeList == [] then (NoPacket, p)
    else SendOrThrottle(cfg, rate, Schedule(cfg, p, now), now)
  }

  // ---------------------------------------------------------------------
  // Enqueue
  // ---------------------------------------------------------------------

  /** The buffer admission test: the shared port buffer, or the static
      buffer of the class. */
  predicate Overfilled(cfg: Config, p: Port, c: nat, len: nat)
    requires ConfigValid(cfg) && |p.queues| == MaxQueues && c < MaxQueues
  {
    match cfg.bufferMode
    case SharedBuffer => p.sumLenBytes + len > cfg.sharedBufferBytes
    case StaticBuffer => p.queues[c].lenBytes + len > cfg.queueBufferBytes[c]
  }

  /** dwrr_qdisc_enqueue with every clock read taken as now; childAccepts
      is the verdict of the class's child byte FIFO. */
  function EnqueueSpec(cfg: Config, rate: RateCfg, p: Port, pkt: Packet, now: int, childAccepts: bool)
    : (Enqueued, Port)
    requires PortValid(cfg, p)
    requires pkt.tos.Some? ==> pkt.tos.value < 256
  {
    var len := SkbSize(pkt.len);
    var p0 := p.(roundTimeNs := IdleAge(cfg, p, now));
    var c := Classifier.ClassOf(cfg.queueDscp, pkt.tos);
    if Overfilled(cfg, p0, c, len) then (Dropped(c, BufferFull), p0)
    else if !childAccepts then (Dropped(c, ChildRejected), p0)
    else
      var p1 := Append(cfg, p0, c, len, now);
      var mark := !cfg.enableDequeueEcn
                  && EcnMark(cfg, rate, c, p1.queues[c], p1.sumLenBytes, p1.roundTimeNs);
      (Accepted(c, mark), p1)
  }

  /** An admitted packet joins its class's FIFO and both byte counts; an
      inactive class is activated with an empty deficit and the configured
      quantum, and joins the tail of the active list. */
  function Append(cfg: Config, p: Port, c: nat, len: nat, now: int): Port
    requires ConfigValid(cfg) && |p.queues| == MaxQueues && c < MaxQueues
  {
    var q := p.queues[c];
    var grown := q.(fifo := q.fifo + [len], lenBytes := q.lenBytes + len);
    var q1 := if q.active then grown
              else grown.(deficit := 0, active := true, curr := false, startTime := now,
                          quantum := cfg.queueQuantum[c]);
    p.(queues := p.queues[c := q1], sumLenBytes := p.sumLenBytes + len,
       activeList := if q.active then p.activeList else p.activeList + [c])
  }

  // ---------------------------------------------------------------------
  // Initialisation
  // ---------------------------------------------------------------------

  function IdleClass(now: int): ClassState
  {
    ClassState([], 0, false, false, 0, now, now, 0, 0)
  }

  /** dwrr_qdisc_init: every class idle and empty, an empty bucket, a zero
      round-time estimate, the idle period starting now. */
  function InitialPort(now: int): Port
  {
    Port(seq(MaxQueues, _ => IdleClass(now)), [], 0, now, 0, 0, now)
  }
}
