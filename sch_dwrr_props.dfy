/**
 * What the first scheduler (sch_dwrr/main.c) guarantees, proved about the
 * step functions of module SchDwrr: the port invariant holds from
 * initialisation on, enqueue and dequeue move exactly one packet, the
 * shaper never loses or invents a packet, and the MQ-ECN threshold behaves
 * as the design describes.
 */
module SchDwrrProps {
  import opened Wire
  import Classifier
  import opened SchDwrr

  // ---------------------------------------------------------------------
  // Initialisation
  // ---------------------------------------------------------------------

  /** A freshly initialised port satisfies the invariant and is idle. */
  lemma InitialPortValid(cfg: Config, now: int)
    requires ConfigValid(cfg)
    ensures PortValid(cfg, InitialPort(now))
    ensures InitialPort(now).activeList == [] && InitialPort(now).sumLenBytes == 0
  {
    var p := InitialPort(now);
    SumLenZero(p.queues);
    forall c: nat | c < MaxQueues ensures ClassValid(cfg, c, p.queues[c]) {
      assert p.queues[c] == IdleClass(now);
    }
  }

  /** The port is empty exactly when no class is on the active list. */
  lemma IdleIffNoActiveClass(cfg: Config, p: Port)
    requires PortValid(cfg, p)
    ensures p.sumLenBytes == 0 <==> p.activeList == []
  {
    SumLenZero(p.queues);
    if p.activeList != [] {
      var c := p.activeList[0];
      assert c in p.activeList;
      assert ClassValid(cfg, c, p.queues[c]);
      assert p.queues[c].lenBytes >= p.queues[c].fifo[0] > 0;
    } else {
      forall c: nat | c < MaxQueues ensures p.queues[c].lenBytes == 0 {
        assert ClassValid(cfg, c, p.queues[c]);
      }
    }
  }

  // ---------------------------------------------------------------------
  // Enqueue
  // ---------------------------------------------------------------------

  /** The idle check never raises the estimate nor makes it negative, and
      leaves it alone unless an MQ-ECN port is empty. */
  lemma IdleAgeNeverRaises(cfg: Config, p: Port, now: int)
    requires PortValid(cfg, p)
    ensures 0 <= IdleAge(cfg, p, now) <= p.roundTimeNs
    ensures p.sumLenBytes != 0 || cfg.ecnScheme != MqEcn ==> IdleAge(cfg, p, now) == p.roundTimeNs
  {
    if p.sumLenBytes == 0 && cfg.ecnScheme == MqEcn && cfg.idleIntervalNs > 0 {
      DecayTimesBounds(cfg.roundAlpha, p.roundTimeNs, CDiv(now - p.lastIdleTimeNs, cfg.idleIntervalNs));
    }
  }

  /** An idle period longer than MaxIteration intervals resets the
      estimate. */
  lemma IdleAgeResetsAfterLongIdle(cfg: Config, p: Port, now: int)
    requires ConfigValid(cfg)
    requires p.sumLenBytes == 0 && cfg.ecnScheme == MqEcn && cfg.idleIntervalNs > 0
    requires now - p.lastIdleTimeNs >= (MaxIteration + 1) * cfg.idleIntervalNs
    ensures IdleAge(cfg, p, now) == 0
  {
    var n := CDiv(now - p.lastIdleTimeNs, cfg.idleIntervalNs);
    assert (n + 1) * cfg.idleIntervalNs == n * cfg.idleIntervalNs + cfg.idleIntervalNs;
    MulCancel(MaxIteration + 1, n + 1, cfg.idleIntervalNs);
  }

  /** Enqueue keeps the port invariant. */
  lemma EnqueuePreservesValid(cfg: Config, rate: RateCfg, p: Port, pkt: Packet, now: int,
                              childAccepts: bool)
    requires PortValid(cfg, p)
    requires pkt.tos.Some? ==> pkt.tos.value < 256
    requires SkbSize(pkt.len) <= MtuBytes
    ensures PortValid(cfg, EnqueueSpec(cfg, rate, p, pkt, now, childAccepts).1)
  {
    IdleAgeNeverRaises(cfg, p, now);
    var (r, p') := EnqueueSpec(cfg, rate, p, pkt, now, childAccepts);
    if r.Accepted? {
      var len := SkbSize(pkt.len);
      var c := Classifier.ClassOf(cfg.queueDscp, pkt.tos);
      var q := p.queues[c];
      assert ClassValid(cfg, c, q);
      TotalAppend(q.fifo, len);
      assert ClassValid(cfg, c, p'.queues[c]);
      if !q.active {
        AppendKeepsNoDup(p.activeList, c);
      }
      ReplaceClassValid(cfg, p, c, p'.queues[c], p');
    }
  }

  /** The verdict: the packet goes to the class the classifier picks, is
      dropped when that class or the port buffer would overflow, is dropped
      when the child FIFO refuses it, and is accepted otherwise. */
  lemma EnqueueVerdict(cfg: Config, rate: RateCfg, p: Port, pkt: Packet, now: int,
                       childAccepts: bool)
    requires PortValid(cfg, p)
    requires pkt.tos.Some? ==> pkt.tos.value < 256
    ensures var r := EnqueueSpec(cfg, rate, p, pkt, now, childAccepts).0;
      var c := Classifier.ClassOf(cfg.queueDscp, pkt.tos);
      r.id == c
      && (r == Dropped(c, BufferFull) <==> Overfilled(cfg, p, c, SkbSize(pkt.len)))
      && (r == Dropped(c, ChildRejected) <==> !Overfilled(cfg, p, c, SkbSize(pkt.len)) && !childAccepts)
      && (r.Accepted? <==> !Overfilled(cfg, p, c, SkbSize(pkt.len)) && childAccepts)
  {
  }

  /** A dropped packet changes nothing but the idle decay of the
      round-time estimate. */
  lemma EnqueueDropKeepsQueues(cfg: Config, rate: RateCfg, p: Port, pkt: Packet, now: int,
                               childAccepts: bool)
    requires PortValid(cfg, p)
    requires pkt.tos.Some? ==> pkt.tos.value < 256
    ensures var (r, p') := EnqueueSpec(cfg, rate, p, pkt, now, childAccepts);
      r.Dropped? ==> p' == p.(roundTimeNs := IdleAge(cfg, p, now))
  {
  }

  /** An accepted packet is appended to its class, counted once in the
      class and port totals, and its class joins the tail of the active
      list unless it was already on it; no other class changes. */
  lemma EnqueueAcceptedAppends(cfg: Config, rate: RateCfg, p: Port, pkt: Packet, now: int,
                               childAccepts: bool)
    requires PortValid(cfg, p)
    requires pkt.tos.Some? ==> pkt.tos.value < 256
    ensures var (r, p') := EnqueueSpec(cfg, rate, p, pkt, now, childAccepts);
      r.Accepted? ==>
        var c := r.id;
        c < MaxQueues
        && p'.queues[c].fifo == p.queues[c].fifo + [SkbSize(pkt.len)]
        && p'.queues[c].lenBytes == p.queues[c].lenBytes + SkbSize(pkt.len)
        && p'.sumLenBytes == p.sumLenBytes + SkbSize(pkt.len)
        && (forall d :: 0 <= d < MaxQueues && d != c ==> p'.queues[d] == p.queues[d])
        && (c in p.activeList ==> p'.activeList == p.activeList)
        && (c !in p.activeList ==> p'.activeList == p.activeList + [c]
                                   && p'.queues[c].deficit == 0 && !p'.queues[c].curr)
  {
    var c := Classifier.ClassOf(cfg.queueDscp, pkt.tos);
    assert c in p.activeList <==> p.queues[c].active;
  }

  /** With dequeue marking on, enqueue never marks; with it off, dequeue
      never marks: a packet is judged for ECN at one end only. */
  lemma MarkedAtOneEndOnly(cfg: Config, rate: RateCfg, p: Port, pkt: Packet, now: int,
                           childAccepts: bool)
    requires PortValid(cfg, p)
    requires pkt.tos.Some? ==> pkt.tos.value < 256
    ensures var r := EnqueueSpec(cfg, rate, p, pkt, now, childAccepts).0;
      r.Accepted? && r.mark ==> !cfg.enableDequeueEcn
    ensures var r := DequeueSpec(cfg, rate, p, now).0;
      r.Sent? && r.mark ==> cfg.enableDequeueEcn
  {
  }

  /** With dequeue marking off, enqueue judges the accepted packet against
      the backlog that includes it: per-queue marking compares its class's
      bytes with the class threshold, per-port marking the port's bytes
      with the port threshold, and MQ-ECN its class's bytes with the class
      threshold scaled by the quantum over the idle-aged round time. */
  lemma EnqueueMarksIncludingArrival(cfg: Config, rate: RateCfg, p: Port, pkt: Packet, now: int,
                                     childAccepts: bool)
    requires PortValid(cfg, p)
    requires pkt.tos.Some? ==> pkt.tos.value < 256
    ensures var r := EnqueueSpec(cfg, rate, p, pkt, now, childAccepts).0;
      var len := SkbSize(pkt.len);
      r.Accepted? ==>
        var c := r.id;
        c < MaxQueues
        && (cfg.enableDequeueEcn || cfg.ecnScheme == DisableEcn ==> !r.mark)
        && (!cfg.enableDequeueEcn && cfg.ecnScheme == QueueEcn ==>
              (r.mark <==> p.queues[c].lenBytes + len > cfg.queueThreshBytes[c]))
        && (!cfg.enableDequeueEcn && cfg.ecnScheme == PortEcn ==>
              (r.mark <==> p.sumLenBytes + len > cfg.portThreshBytes))
        && (!cfg.enableDequeueEcn && cfg.ecnScheme == MqEcn ==>
              (r.mark <==> p.queues[c].lenBytes + len
                           > MqEcnThreshold(cfg.queueQuantum[c], IdleAge(cfg, p, now), rate.rateBps,
                                            cfg.portThreshBytes)))
  {
    var (r, p') := EnqueueSpec(cfg, rate, p, pkt, now, childAccepts);
    if r.Accepted? {
      var c := Classifier.ClassOf(cfg.queueDscp, pkt.tos);
      var len := SkbSize(pkt.len);
      var p0 := p.(roundTimeNs := IdleAge(cfg, p, now));
      assert p' == Append(cfg, p0, c, len, now);
      assert p'.queues[c].lenBytes == p.queues[c].lenBytes + len;
      assert p'.queues[c].quantum == cfg.queueQuantum[c] by {
        assert ClassValid(cfg, c, p.queues[c]);
      }
    }
  }

  // ---------------------------------------------------------------------
  // Dequeue
  // ---------------------------------------------------------------------

  /** The token bucket releases the head packet exactly when the tokens
      available now exceed its transmission time. It then keeps what is
      left, up to the bucket depth, and takes the packet out of the
      deficit (which WRR empties when the class drains); otherwise it arms
      the watchdog for the moment the missing tokens will have accrued. */
  lemma SendOrThrottleGate(cfg: Config, rate: RateCfg, p: Port, now: int)
    requires PortValid(cfg, p) && p.activeList != [] && HeadFits(p)
    ensures var (r, p') := SendOrThrottle(cfg, rate, p, now);
      var c := p.activeList[0];
      var toks := Tokens(cfg, p, now);
      var pktNs := L2tNs(rate, p.queues[c].fifo[0]);
      (r.Sent? <==> toks > pktNs)
      && (r.Sent? ==>
            r.id == c && r.size == p.queues[c].fifo[0]
            && p'.tokens == Min(toks - pktNs, cfg.bucketNs) && 0 <= p'.tokens <= cfg.bucketNs
            && p'.timeNs == now
            && (p'.queues[c].fifo != [] || !cfg.enableWrr ==>
                  p'.queues[c].deficit + r.size == p.queues[c].deficit)
            && (p'.queues[c].fifo == [] && cfg.enableWrr ==> p'.queues[c].deficit == 0))
      && (r.Throttled? ==> r.wakeAt == now + pktNs - toks && r.wakeAt >= now && p' == p)
  {
    SendOrThrottlePreservesValid(cfg, rate, p, now);
  }

  /** Sending or throttling keeps the port invariant. */
  lemma SendOrThrottlePreservesValid(cfg: Config, rate: RateCfg, p: Port, now: int)
    requires PortValid(cfg, p) && p.activeList != [] && HeadFits(p)
    ensures PortValid(cfg, SendOrThrottle(cfg, rate, p, now).1)
  {
    var c := p.activeList[0];
    var q := p.queues[c];
    assert c in p.activeList;
    assert ClassValid(cfg, c, q);
    var len := q.fifo[0];
    var toks := Tokens(cfg, p, now);
    var pktNs := L2tNs(rate, len);
    if toks > pktNs {
      var sent := q.(fifo := q.fifo[1..], lenBytes := q.lenBytes - len, deficit := q.deficit - len,
                     lastPktLenNs := pktNs, lastPktTime := now);
      SumLenBound(p.queues, c);
      assert forall k :: 0 <= k < |sent.fifo| ==> sent.fifo[k] == q.fifo[k + 1];
      var p' := SendOrThrottle(cfg, rate, p, now).1;
      if sent.fifo == [] {
        TailKeepsNoDup(p.activeList);
        RoundEwmaBetween(cfg.roundAlpha, p.roundTimeNs, RoundSample(sent));
        assert ClassValid(cfg, c, p'.queues[c]);
        ReplaceClassValid(cfg, p, c, p'.queues[c], p');
      } else {
        assert ClassValid(cfg, c, sent);
        ReplaceClassValid(cfg, p, c, sent, p');
      }
    }
  }

  /** Dequeue keeps the port invariant. */
  lemma DequeuePreservesValid(cfg: Config, rate: RateCfg, p: Port, now: int)
    requires PortValid(cfg, p)
    ensures PortValid(cfg, DequeueSpec(cfg, rate, p, now).1)
  {
    if p.activeList != [] {
      SendOrThrottlePreservesValid(cfg, rate, Schedule(cfg, p, now), now);
    }
  }

  /** Nothing comes out of an idle port, and only of an idle port. */
  lemma DequeueNoPacketIffIdle(cfg: Config, rate: RateCfg, p: Port, now: int)
    requires PortValid(cfg, p)
    ensures var (r, p') := DequeueSpec(cfg, rate, p, now);
      (r == NoPacket <==> p.sumLenBytes == 0) && (r == NoPacket ==> p' == p)
  {
    IdleIffNoActiveClass(cfg, p);
  }

  /** A sent packet is the head of its class's FIFO, leaves that FIFO and
      the port total, leaves every other FIFO as it was, and its class is
      on the active list afterwards exactly when it still holds packets.
      The bucket keeps the tokens left after paying for the packet, up to
      its depth, and the packet is taken out of the deficit its class held
      when it was chosen (WRR empties the deficit of a class that drains). */
  lemma DequeueSentPopsHead(cfg: Config, rate: RateCfg, p: Port, now: int)
    requires PortValid(cfg, p)
    ensures var (r, p') := DequeueSpec(cfg, rate, p, now);
      r.Sent? ==>
        var c := r.id;
        c < MaxQueues && c in p.activeList
        && p.queues[c].fifo != [] && r.size == p.queues[c].fifo[0]
        && p'.queues[c].fifo == p.queues[c].fifo[1..]
        && (forall d :: 0 <= d < MaxQueues && d != c ==> p'.queues[d].fifo == p.queues[d].fifo)
        && p'.sumLenBytes + r.size == p.sumLenBytes
        && p'.timeNs == now
        && p'.tokens == Min(Tokens(cfg, p, now) - L2tNs(rate, r.size), cfg.bucketNs)
        && (p'.queues[c].fifo != [] || !cfg.enableWrr ==>
              p'.queues[c].deficit + r.size == Schedule(cfg, p, now).queues[c].deficit)
        && (p'.queues[c].fifo == [] && cfg.enableWrr ==> p'.queues[c].deficit == 0)
        && (c in p'.activeList <==> p'.queues[c].fifo != [])
  {
    DequeuePreservesValid(cfg, rate, p, now);
    if p.activeList != [] {
      var p1 := Schedule(cfg, p, now);
      var c := p1.activeList[0];
      assert c in p1.activeList;
      assert ClassValid(cfg, c, p1.queues[c]);
      SendOrThrottleGate(cfg, rate, p1, now);
      var (r, p') := SendOrThrottle(cfg, rate, p1, now);
      if r.Sent? {
        assert p'.queues[c].active <==> c in p'.activeList;
        assert ClassValid(cfg, c, p'.queues[c]);
      }
    }
  }

  /** With dequeue marking on, the departing packet is judged against the
      backlog it leaves behind: per-queue and per-port marking exclude it,
      and MQ-ECN compares what is left of its class with the class
      threshold under the round-time estimate of the moment it was chosen.
      With dequeue marking off, no packet is marked on its way out. */
  lemma DequeueMarksExcludingDeparture(cfg: Config, rate: RateCfg, p: Port, now: int)
    requires PortValid(cfg, p)
    ensures var (r, p') := DequeueSpec(cfg, rate, p, now);
      r.Sent? ==>
        var c := r.id;
        c < MaxQueues && p.queues[c].fifo != [] && r.size == p.queues[c].fifo[0]
        && (!cfg.enableDequeueEcn || cfg.ecnScheme == DisableEcn ==> !r.mark)
        && (cfg.enableDequeueEcn && cfg.ecnScheme == QueueEcn ==>
              (r.mark <==> p.queues[c].lenBytes - r.size > cfg.queueThreshBytes[c]))
        && (cfg.enableDequeueEcn && cfg.ecnScheme == PortEcn ==>
              (r.mark <==> p.sumLenBytes - r.size > cfg.portThreshBytes))
        && (cfg.enableDequeueEcn && cfg.ecnScheme == MqEcn ==>
              (r.mark <==> p.queues[c].lenBytes - r.size
                           > MqEcnThreshold(cfg.queueQuantum[c], Schedule(cfg, p, now).roundTimeNs,
                                            rate.rateBps, cfg.portThreshBytes)))
  {
    DequeueSentPopsHead(cfg, rate, p, now);
    if p.activeList != [] {
      var p1 := Schedule(cfg, p, now);
      var c := p1.activeList[0];
      assert c in p1.activeList;
      assert ClassValid(cfg, c, p1.queues[c]);
      assert p1.queues[c].fifo == p.queues[c].fifo;
      assert ClassValid(cfg, c, p.queues[c]);
      assert p1.queues[c].lenBytes == p.queues[c].lenBytes;
    }
  }

  /** A throttled dequeue arms the watchdog for the moment the bucket will
      hold the transmission time of the chosen head packet, which is no
      earlier than now; it moves no packet and leaves the bucket alone. */
  lemma DequeueThrottledMovesNothing(cfg: Config, rate: RateCfg, p: Port, now: int)
    requires PortValid(cfg, p)
    ensures var (r, p') := DequeueSpec(cfg, rate, p, now);
      r.Throttled? ==>
        var c := Schedule(cfg, p, now).activeList[0];
        c < MaxQueues && p.queues[c].fifo != []
        && r.wakeAt == now + L2tNs(rate, p.queues[c].fifo[0]) - Tokens(cfg, p, now)
        && r.wakeAt >= now
        && (forall d :: 0 <= d < MaxQueues ==> p'.queues[d].fifo == p.queues[d].fifo)
        && p'.sumLenBytes == p.sumLenBytes
        && p'.tokens == p.tokens && p'.timeNs == p.timeNs
  {
    if p.activeList != [] {
      var p1 := Schedule(cfg, p, now);
      var c := p1.activeList[0];
      assert c in p1.activeList;
      SendOrThrottleGate(cfg, rate, p1, now);
    }
  }

  /** A dequeue retried at the same instant after a throttle is throttled
      again with the same wake-up time and changes nothing: the head class
      is not granted a second quantum and the list does not rotate. */
  lemma DequeueThrottledIsStable(cfg: Config, rate: RateCfg, p: Port, now: int)
    requires PortValid(cfg, p)
    ensures var (r, p') := DequeueSpec(cfg, rate, p, now);
      r.Throttled? ==> PortValid(cfg, p') && DequeueSpec(cfg, rate, p', now) == (r, p')
  {
    var (r, p') := DequeueSpec(cfg, rate, p, now);
    if r.Throttled? {
      var p1 := Schedule(cfg, p, now);
      assert p' == p1;
      var c := p1.activeList[0];
      assert p1.queues[c := Charge(p1.queues[c])] == p1.queues;
      assert ChargeHead(p1) == p1;
    }
  }

  // ---------------------------------------------------------------------
  // MQ-ECN threshold
  // ---------------------------------------------------------------------

  /** The longer the round, the smaller a class's share of the line and
      the lower its threshold. */
  lemma MqEcnThresholdFallsWithRoundTime(quantum: nat, rt1: int, rt2: int, rateBps: nat,
                                         portThresh: nat)
    requires 0 < rt1 <= rt2
    ensures MqEcnThreshold(quantum, rt2, rateBps, portThresh)
            <= MqEcnThreshold(quantum, rt1, rateBps, portThresh)
  {
    if rateBps > 0 {
      var e1, e2 := RateEstimate(quantum, rt1), RateEstimate(quantum, rt2);
      DivBounds(quantum * BitNs, rt1);
      DivBounds(quantum * BitNs, rt2);
      DivByLarger(quantum * BitNs, rt1, rt2);
      var s1 := if e1 < rateBps then e1 else rateBps;
      var s2 := if e2 < rateBps then e2 else rateBps;
      MulMonotone(s2, s1, portThresh);
      DivMonotone(s2 * portThresh, s1 * portThresh, rateBps);
    }
  }

  /** A larger quantum, a larger weight, earns a higher threshold. */
  lemma MqEcnThresholdGrowsWithQuantum(quantum1: nat, quantum2: nat, rt: int, rateBps: nat,
                                       portThresh: nat)
    requires quantum1 <= quantum2
    ensures MqEcnThreshold(quantum1, rt, rateBps, portThresh)
            <= MqEcnThreshold(quantum2, rt, rateBps, portThresh)
  {
    if rt > 0 && rateBps > 0 {
      var a1, a2 := quantum1 * BitNs, quantum2 * BitNs;
      MulMonotone(quantum1, quantum2, BitNs);
      DivBounds(a1, rt);
      DivBounds(a2, rt);
      DivMonotone(a1, a2, rt);
      var e1, e2 := RateEstimate(quantum1, rt), RateEstimate(quantum2, rt);
      var s1 := if e1 < rateBps then e1 else rateBps;
      var s2 := if e2 < rateBps then e2 else rateBps;
      MulMonotone(s1, s2, portThresh);
      DivMonotone(s1 * portThresh, s2 * portThresh, rateBps);
    }
  }

  /** A class whose quantum per round time reaches the line rate gets the
      whole port threshold. */
  lemma MqEcnThresholdFullShare(quantum: nat, rt: int, rateBps: nat, portThresh: nat)
    requires rt > 0 && rateBps > 0
    requires RateEstimate(quantum, rt) >= rateBps
    ensures MqEcnThreshold(quantum, rt, rateBps, portThresh) == portThresh
  {
    MulDivCancel(portThresh, rateBps);
    assert rateBps * portThresh == portThresh * rateBps;
  }

  /** Under MQ-ECN a class holding more than the port threshold is always
      marked, whatever its share. */
  lemma MqEcnMarksAbovePortThreshold(cfg: Config, rate: RateCfg, c: nat, q: ClassState, sum: nat,
                                     rt: int)
    requires ConfigValid(cfg) && c < MaxQueues && cfg.ecnScheme == MqEcn
    requires q.lenBytes > cfg.portThreshBytes
    ensures EcnMark(cfg, rate, c, q, sum, rt)
  {
    var t := MqEcnThreshold(q.quantum, rt, rate.rateBps, cfg.portThreshBytes);
    assert t <= cfg.portThreshBytes;
  }

  /** The source's threshold agrees with the corrected one on every shaped
      port; on an unshaped port with a positive round time it divides by
      zero. */
  lemma MqEcnAsWrittenAgrees(quantum: nat, rt: int, rateBps: nat, portThresh: nat)
    ensures rateBps > 0 || rt <= 0 ==>
      MqEcnThresholdAsWritten(quantum, rt, rateBps, portThresh)
      == Some(MqEcnThreshold(quantum, rt, rateBps, portThresh))
    ensures MqEcnThresholdAsWritten(MtuBytes, 1, 0, 30000).None?
  {
  }
}
