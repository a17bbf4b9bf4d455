/**
 * What the second scheduler (sch_dwrr2/main.c) guarantees, proved about
 * the step functions of module SchDwrr2: the port invariant holds from
 * initialisation on, enqueue and dequeue move exactly one packet, the token
 * bucket releases a packet exactly when its balance covers it, the
 * round-time estimate decays toward zero while the port is idle, and the
 * MQ-ECN threshold behaves as the design describes.
 */
module SchDwrr2Props {
  import opened Wire
  import Classifier
  import opened SchDwrr2

  // ---------------------------------------------------------------------
  // Initialisation
  // ---------------------------------------------------------------------

  /** A freshly initialised port satisfies the invariant and is idle. */
  lemma InitialPortValid(cfg: Config, rate: RateCfg, now: int)
    requires ConfigValid(cfg)
    ensures PortValid(cfg, rate, InitialPort(now))
    ensures InitialPort(now).activeList == [] && InitialPort(now).sumLenBytes == 0
  {
    var p := InitialPort(now);
    SumLenZero(p.queues);
    forall c: nat | c < MaxQueues ensures ClassValid(cfg, c, p.queues[c]) {
      assert p.queues[c] == IdleClass(now);
    }
  }

  /** The port is empty exactly when no class is on the active list. */
  lemma IdleIffNoActiveClass(cfg: Config, rate: RateCfg, p: Port)
    requires PortValid(cfg, rate, p)
    ensures p.sumLenBytes == 0 <==> p.activeList == []
  {
    SumLenZero(p.queues);
    if p.activeList != [] {
      var c := p.activeList[0];
      assert c in p.activeList;
      assert ClassValid(cfg, c, p.queues[c]);
      assert p.queues[c].lenBytes >= p.queues[c].fifo[0] > 0;
    } else {
      forall c: nat | c < MaxQueues ensures p.queues[c].lenBytes == 0 {
        assert ClassValid(cfg, c, p.queues[c]);
      }
    }
  }

  // ---------------------------------------------------------------------
  // Enqueue
  // ---------------------------------------------------------------------

  /** The idle check moves the estimate toward zero and never past it, and
      leaves it alone unless an MQ-ECN port is empty. */
  lemma IdleAgeTowardZero(cfg: Config, p: Port, now: int)
    requires ConfigValid(cfg)
    ensures Min(p.roundTime, 0) <= IdleAge(cfg, p, now) <= Max(p.roundTime, 0)
    ensures p.sumLenBytes != 0 || cfg.ecnScheme != MqEcn ==> IdleAge(cfg, p, now) == p.roundTime
  {
    if p.sumLenBytes == 0 && cfg.ecnScheme == MqEcn && cfg.idleIntervalNs > 0 {
      DecayTimesTowardZero(cfg.roundAlpha, p.roundTime, CDiv(now - p.lastIdleTime, cfg.idleIntervalNs));
    }
  }

  /** An idle period longer than MaxIteration intervals resets the
      estimate. */
  lemma IdleAgeResetsAfterLongIdle(cfg: Config, p: Port, now: int)
    requires ConfigValid(cfg)
    requires p.sumLenBytes == 0 && cfg.ecnScheme == MqEcn && cfg.idleIntervalNs > 0
    requires now - p.lastIdleTime >= (MaxIteration + 1) * cfg.idleIntervalNs
    ensures IdleAge(cfg, p, now) == 0
  {
    var n := CDiv(now - p.lastIdleTime, cfg.idleIntervalNs);
    assert (n + 1) * cfg.idleIntervalNs == n * cfg.idleIntervalNs + cfg.idleIntervalNs;
    MulCancel(MaxIteration + 1, n + 1, cfg.idleIntervalNs);
  }

  /** Enqueue keeps the port invariant. */
  lemma EnqueuePreservesValid(cfg: Config, rate: RateCfg, p: Port, pkt: Packet, now: int,
                              childAccepts: bool)
    requires PortValid(cfg, rate, p)
    requires pkt.tos.Some? ==> pkt.tos.value < 256
    requires SkbSize(pkt.len) <= MtuBytes
    ensures PortValid(cfg, rate, EnqueueSpec(cfg, rate, p, pkt, now, childAccepts).1)
  {
    var (r, p') := EnqueueSpec(cfg, rate, p, pkt, now, childAccepts);
    if r.Accepted? {
      var len := SkbSize(pkt.len);
      var c := Classifier.ClassOf(cfg.queueDscp, pkt.tos);
      var q := p.queues[c];
      assert ClassValid(cfg, c, q);
      TotalAppend(q.fifo, len);
      assert ClassValid(cfg, c, p'.queues[c]);
      if q.fifo == [] {
        AppendKeepsNoDup(p.activeList, c);
      }
      ReplaceClassValid(cfg, rate, p, c, p'.queues[c], p');
    }
  }

  /** The verdict: the packet goes to the class the classifier picks, is
      dropped when that class or the port buffer would overflow, is dropped
      when the child FIFO refuses it, and is accepted otherwise. */
  lemma EnqueueVerdict(cfg: Config, rate: RateCfg, p: Port, pkt: Packet, now: int,
                       childAccepts: bool)
    requires PortValid(cfg, rate, p)
    requires pkt.tos.Some? ==> pkt.tos.value < 256
    ensures var r := EnqueueSpec(cfg, rate, p, pkt, now, childAccepts).0;
      var c := Classifier.ClassOf(cfg.queueDscp, pkt.tos);
      r.id == c
      && (r == Dropped(c, BufferFull) <==> Overfilled(cfg, p, c, SkbSize(pkt.len)))
      && (r == Dropped(c, ChildRejected) <==> !Overfilled(cfg, p, c, SkbSize(pkt.len)) && !childAccepts)
      && (r.Accepted? <==> !Overfilled(cfg, p, c, SkbSize(pkt.len)) && childAccepts)
  {
  }

  /** A dropped packet changes nothing but the idle decay of the
      round-time estimate. */
  lemma EnqueueDropKeepsQueues(cfg: Config, rate: RateCfg, p: Port, pkt: Packet, now: int,
                               childAccepts: bool)
    requires PortValid(cfg, rate, p)
    requires pkt.tos.Some? ==> pkt.tos.value < 256
    ensures var (r, p') := EnqueueSpec(cfg, rate, p, pkt, now, childAccepts);
      r.Dropped? ==> p' == p.(roundTime := IdleAge(cfg, p, now))
  {
  }

  /** An accepted packet is appended to its class, counted once in the
      class and port totals, and a class that was empty joins the tail of
      the active list with its configured quantum as deficit and a round
      starting now; no other class changes. */
  lemma EnqueueAcceptedAppends(cfg: Config, rate: RateCfg, p: Port, pkt: Packet, now: int,
                               childAccepts: bool)
    requires PortValid(cfg, rate, p)
    requires pkt.tos.Some? ==> pkt.tos.value < 256
    ensures var (r, p') := EnqueueSpec(cfg, rate, p, pkt, now, childAccepts);
      r.Accepted? ==>
        var c := r.id;
        c < MaxQueues
        && p'.queues[c].fifo == p.queues[c].fifo + [SkbSize(pkt.len)]
        && p'.queues[c].lenBytes == p.queues[c].lenBytes + SkbSize(pkt.len)
        && p'.sumLenBytes == p.sumLenBytes + SkbSize(pkt.len)
        && (forall d :: 0 <= d < MaxQueues && d != c ==> p'.queues[d] == p.queues[d])
        && (c in p.activeList ==> p'.activeList == p.activeList
                                  && p'.queues[c].deficit == p.queues[c].deficit)
        && (c !in p.activeList ==> p'.activeList == p.activeList + [c]
                                   && p'.queues[c].deficit == cfg.queueQuantum[c]
                                   && p'.queues[c].startTime == now)
  {
    var c := Classifier.ClassOf(cfg.queueDscp, pkt.tos);
    assert c in p.activeList <==> p.queues[c].fifo != [];
  }

  /** Enqueue judges every accepted packet for ECN, whatever the dequeue
      setting, and the arriving packet counts toward its class's and the
      port's backlog: per-queue and per-port marking compare the backlog
      including it with the static threshold, and MQ-ECN compares its
      class's bytes with the class threshold scaled by the quantum over the
      idle-aged round time. */
  lemma EnqueueMarksIncludingArrival(cfg: Config, rate: RateCfg, p: Port, pkt: Packet, now: int,
                                     childAccepts: bool)
    requires PortValid(cfg, rate, p)
    requires pkt.tos.Some? ==> pkt.tos.value < 256
    ensures var r := EnqueueSpec(cfg, rate, p, pkt, now, childAccepts).0;
      var len := SkbSize(pkt.len);
      r.Accepted? ==>
        r.id < MaxQueues
        && (cfg.ecnScheme == DisableEcn ==> !r.mark)
        && (cfg.ecnScheme == QueueEcn ==>
              (r.mark <==> p.queues[r.id].lenBytes + len > cfg.queueThreshBytes[r.id]))
        && (cfg.ecnScheme == PortEcn ==> (r.mark <==> p.sumLenBytes + len > cfg.portThreshBytes))
        && (cfg.ecnScheme == MqEcn ==>
              (r.mark <==> p.queues[r.id].lenBytes + len
                           > MqEcnThreshold(cfg.queueQuantum[r.id], IdleAge(cfg, p, now), rate.rateBps,
                                            cfg.portThreshBytes)))
  {
    var (r, p') := EnqueueSpec(cfg, rate, p, pkt, now, childAccepts);
    if r.Accepted? {
      var c := Classifier.ClassOf(cfg.queueDscp, pkt.tos);
      var len := SkbSize(pkt.len);
      var p0 := p.(roundTime := IdleAge(cfg, p, now));
      assert p' == Append(cfg, p0, c, len, now);
      assert p'.queues[c].lenBytes == p.queues[c].lenBytes + len;
      assert p'.sumLenBytes == p.sumLenBytes + len;
      assert r.mark == EcnMark(cfg, rate, c, p'.queues[c], p'.sumLenBytes, p'.roundTime);
      assert p'.queues[c].quantum == cfg.queueQuantum[c] by {
        assert ClassValid(cfg, c, p.queues[c]);
      }
    }
  }

  // ---------------------------------------------------------------------
  // Dequeue
  // ---------------------------------------------------------------------

  /** The token bucket releases the head packet exactly when the balance
      after paying for it is not negative; it then keeps that balance, up
      to the bucket depth, and otherwise arms the watchdog for the moment
      the balance will have been made up. */
  lemma SendOrThrottleGate(cfg: Config, rate: RateCfg, p: Port, now: int)
    requires PortValid(cfg, rate, p) && p.activeList != [] && HeadFits(p)
    ensures var (r, p') := SendOrThrottle(cfg, rate, p, now);
      var c := p.activeList[0];
      var balance := Min(now - p.timeNs, BucketNs(cfg, rate)) + p.tokens
                     - L2tNs(rate, p.queues[c].fifo[0]);
      (r.Sent? <==> balance >= 0)
      && (r.Sent? ==> r.id == c && 0 <= p'.tokens <= BucketNs(cfg, rate)
                      && p'.tokens == Min(balance, BucketNs(cfg, rate))
                      && p'.queues[c].deficit + r.size == p.queues[c].deficit)
      && (r.Throttled? ==> r.wakeAt > now && r.wakeAt - now == -balance && p' == p)
  {
  }

  /** Sending or throttling keeps the port invariant. */
  lemma SendOrThrottlePreservesValid(cfg: Config, rate: RateCfg, p: Port, now: int)
    requires PortValid(cfg, rate, p) && p.activeList != [] && HeadFits(p)
    ensures PortValid(cfg, rate, SendOrThrottle(cfg, rate, p, now).1)
  {
    var c := p.activeList[0];
    var q := p.queues[c];
    assert c in p.activeList;
    assert ClassValid(cfg, c, q);
    var len := q.fifo[0];
    if TbfSchedule(cfg, rate, p, len, now) >= 0 {
      var sent := q.(fifo := q.fifo[1..], lenBytes := q.lenBytes - len, deficit := q.deficit - len,
                     lastPktTime := now + L2tNs(rate, len));
      SumLenBound(p.queues, c);
      assert forall k :: 0 <= k < |sent.fifo| ==> sent.fifo[k] == q.fifo[k + 1];
      assert ClassValid(cfg, c, sent);
      var p' := SendOrThrottle(cfg, rate, p, now).1;
      if sent.fifo == [] {
        TailKeepsNoDup(p.activeList);
      }
      ReplaceClassValid(cfg, rate, p, c, sent, p');
    }
  }

  /** Dequeue keeps the port invariant. */
  lemma DequeuePreservesValid(cfg: Config, rate: RateCfg, p: Port, now: int)
    requires PortValid(cfg, rate, p)
    ensures PortValid(cfg, rate, DequeueSpec(cfg, rate, p, now).1)
  {
    if p.activeList != [] {
      SendOrThrottlePreservesValid(cfg, rate, Schedule(cfg, rate, p), now);
    }
  }

  /** Nothing comes out of an idle port, and only of an idle port. */
  lemma DequeueNoPacketIffIdle(cfg: Config, rate: RateCfg, p: Port, now: int)
    requires PortValid(cfg, rate, p)
    ensures var (r, p') := DequeueSpec(cfg, rate, p, now);
      (r == NoPacket <==> p.sumLenBytes == 0) && (r == NoPacket ==> p' == p)
  {
    IdleIffNoActiveClass(cfg, rate, p);
  }

  /** A sent packet is the head of its class's FIFO, fits the deficit its
      class holds at that moment, leaves that FIFO and the port total,
      leaves every other FIFO as it was, and its class is on the active
      list afterwards exactly when it still holds packets. */
  lemma DequeueSentPopsHead(cfg: Config, rate: RateCfg, p: Port, now: int)
    requires PortValid(cfg, rate, p)
    ensures var (r, p') := DequeueSpec(cfg, rate, p, now);
      r.Sent? ==>
        var c := r.id;
        c < MaxQueues && c in p.activeList
        && p.queues[c].fifo != [] && r.size == p.queues[c].fifo[0]
        && p'.queues[c].fifo == p.queues[c].fifo[1..]
        && (forall d :: 0 <= d < MaxQueues && d != c ==> p'.queues[d].fifo == p.queues[d].fifo)
        && p'.sumLenBytes + r.size == p.sumLenBytes
        && p'.timeNs == now
        && (c in p'.activeList <==> p'.queues[c].fifo != [])
  {
    DequeuePreservesValid(cfg, rate, p, now);
    if p.activeList != [] {
      var p1 := Schedule(cfg, rate, p);
      var c := p1.activeList[0];
      assert c in p1.activeList;
      assert ClassValid(cfg, c, p1.queues[c]);
    }
  }

  /** With dequeue marking on, the departing packet is judged against the
      backlog it leaves behind: per-queue and per-port marking exclude it,
      and MQ-ECN compares what is left of its class with the class
      threshold under the round-time estimate after this dequeue's own
      update (the source marks last). With dequeue marking off, no packet
      is marked on its way out. */
  lemma DequeueMarksExcludingDeparture(cfg: Config, rate: RateCfg, p: Port, now: int)
    requires PortValid(cfg, rate, p)
    ensures var (r, p') := DequeueSpec(cfg, rate, p, now);
      r.Sent? ==>
        r.id < MaxQueues
        && (!cfg.enableDequeueEcn || cfg.ecnScheme == DisableEcn ==> !r.mark)
        && (cfg.enableDequeueEcn && cfg.ecnScheme == QueueEcn ==>
              (r.mark <==> p.queues[r.id].lenBytes - r.size > cfg.queueThreshBytes[r.id]))
        && (cfg.enableDequeueEcn && cfg.ecnScheme == PortEcn ==>
              (r.mark <==> p.sumLenBytes - r.size > cfg.portThreshBytes))
        && (cfg.enableDequeueEcn && cfg.ecnScheme == MqEcn ==>
              (r.mark <==> p.queues[r.id].lenBytes - r.size
                           > MqEcnThreshold(cfg.queueQuantum[r.id], p'.roundTime, rate.rateBps,
                                            cfg.portThreshBytes)))
  {
    DequeueSentPopsHead(cfg, rate, p, now);
    if p.activeList != [] {
      var p1 := Schedule(cfg, rate, p);
      var c := p1.activeList[0];
      assert c in p1.activeList;
      assert ClassValid(cfg, c, p1.queues[c]);
      assert p1.queues[c].fifo == p.queues[c].fifo;
      assert ClassValid(cfg, c, p.queues[c]);
      assert p1.queues[c].lenBytes == p.queues[c].lenBytes;
    }
  }

  /** A throttled dequeue arms the watchdog strictly after now, moves no
      packet and leaves the bucket alone. */
  lemma DequeueThrottledMovesNothing(cfg: Config, rate: RateCfg, p: Port, now: int)
    requires PortValid(cfg, rate, p)
    ensures var (r, p') := DequeueSpec(cfg, rate, p, now);
      r.Throttled? ==>
        r.wakeAt > now
        && (forall d :: 0 <= d < MaxQueues ==> p'.queues[d].fifo == p.queues[d].fifo)
        && p'.sumLenBytes == p.sumLenBytes
        && p'.tokens == p.tokens && p'.timeNs == p.timeNs
  {
  }

  /** A dequeue retried at the same instant after a throttle is throttled
      again with the same wake-up time and changes nothing: the head class
      that fitted still fits and the list does not rotate. */
  lemma DequeueThrottledIsStable(cfg: Config, rate: RateCfg, p: Port, now: int)
    requires PortValid(cfg, rate, p)
    ensures var (r, p') := DequeueSpec(cfg, rate, p, now);
      r.Throttled? ==> PortValid(cfg, rate, p') && DequeueSpec(cfg, rate, p', now) == (r, p')
  {
    var (r, p') := DequeueSpec(cfg, rate, p, now);
    if r.Throttled? {
      var p1 := Schedule(cfg, rate, p);
      assert p' == p1;
      assert Schedule(cfg, rate, p1) == p1;
    }
  }

  // ---------------------------------------------------------------------
  // MQ-ECN threshold
  // ---------------------------------------------------------------------

  /** The longer the round, the smaller a class's share of the line and
      the lower its threshold. */
  lemma MqEcnThresholdFallsWithRoundTime(quantum: nat, rt1: int, rt2: int, rateBps: nat,
                                         portThresh: nat)
    requires 0 < rt1 <= rt2
    ensures MqEcnThreshold(quantum, rt2, rateBps, portThresh)
            <= MqEcnThreshold(quantum, rt1, rateBps, portThresh)
  {
    if rateBps > 0 {
      var a := quantum * EstimateFactor;
      DivBounds(a, rt1);
      DivBounds(a, rt2);
      DivByLarger(a, rt1, rt2);
      var e1, e2 := RateEstimate(quantum, rt1, rateBps), RateEstimate(quantum, rt2, rateBps);
      var s1 := if e1 < rateBps then e1 else rateBps;
      var s2 := if e2 < rateBps then e2 else rateBps;
      MulMonotone(s2, s1, portThresh);
      DivMonotone(s2 * portThresh, s1 * portThresh, rateBps);
    }
  }

  /** A larger quantum, a larger weight, earns a higher threshold. */
  lemma MqEcnThresholdGrowsWithQuantum(quantum1: nat, quantum2: nat, rt: int, rateBps: nat,
                                       portThresh: nat)
    requires quantum1 <= quantum2
    ensures MqEcnThreshold(quantum1, rt, rateBps, portThresh)
            <= MqEcnThreshold(quantum2, rt, rateBps, portThresh)
  {
    if rt > 0 && rateBps > 0 {
      var a1, a2 := quantum1 * EstimateFactor, quantum2 * EstimateFactor;
      MulMonotone(quantum1, quantum2, EstimateFactor);
      DivBounds(a1, rt);
      DivBounds(a2, rt);
      DivMonotone(a1, a2, rt);
      var e1, e2 := RateEstimate(quantum1, rt, rateBps), RateEstimate(quantum2, rt, rateBps);
      var s1 := if e1 < rateBps then e1 else rateBps;
      var s2 := if e2 < rateBps then e2 else rateBps;
      MulMonotone(s1, s2, portThresh);
      DivMonotone(s1 * portThresh, s2 * portThresh, rateBps);
    }
  }

  /** A class whose estimated rate reaches the line rate, and every class
      before the first round-time sample, gets the whole port threshold. */
  lemma MqEcnThresholdFullShare(quantum: nat, rt: int, rateBps: nat, portThresh: nat)
    requires RateEstimate(quantum, rt, rateBps) >= rateBps
    ensures MqEcnThreshold(quantum, rt, rateBps, portThresh) == portThresh
  {
    if rateBps > 0 {
      MulDivCancel(portThresh, rateBps);
      assert rateBps * portThresh == portThresh * rateBps;
    }
  }

  /** Under MQ-ECN a class holding more than the port threshold is always
      marked, whatever its share. */
  lemma MqEcnMarksAbovePortThreshold(cfg: Config, rate: RateCfg, c: nat, q: ClassState, sum: nat,
                                     rt: int)
    requires ConfigValid(cfg) && c < MaxQueues && cfg.ecnScheme == MqEcn
    requires q.lenBytes > cfg.portThreshBytes
    ensures EcnMark(cfg, rate, c, q, sum, rt)
  {
    var t := MqEcnThreshold(q.quantum, rt, rate.rateBps, cfg.portThreshBytes);
    assert t <= cfg.portThreshBytes;
  }

  /** The source's threshold agrees with the full-width one whenever the
      rate and the round time both fit in 32 bits. */
  lemma MqEcnAsWrittenAgrees(quantum: nat, rt: int, rateBps: nat, portThresh: nat)
    requires 0 < rateBps < U32Range && rt < U32Range
    ensures MqEcnThresholdAsWritten(quantum, rt, rateBps, portThresh)
            == Some(MqEcnThreshold(quantum, rt, rateBps, portThresh))
  {
    if rt > 0 {
      DivBounds(quantum * EstimateFactor, rt);
    }
  }

  /** On a 10 Gbps port the rate no longer fits in 32 bits: the source
      divides by its low 32 bits instead and hands a class seven times the
      port threshold, where the full-width threshold caps it at the port
      threshold. On a port whose rate is a multiple of 2^32 it divides by
      zero. */
  lemma MqEcnAsWrittenExceedsPortThreshold()
    ensures MqEcnThresholdAsWritten(MtuBytes, 0, 10000000000, 32000) == Some(226939)
    ensures MqEcnThreshold(MtuBytes, 0, 10000000000, 32000) == 32000
    ensures MqEcnThresholdAsWritten(MtuBytes, 0, U32Range, 32000).None?
  {
    MqEcnThresholdFullShare(MtuBytes, 0, 10000000000, 32000);
  }
}
