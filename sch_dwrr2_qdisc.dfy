/**
 * The second scheduler's private data (struct dwrr_sched_data of
 * sch_dwrr2/main.c) as an object updated in place: the classes sit in an
 * array, as the source allocates them, and the port counters are fields.
 * Each operation is proved to perform the step that module SchDwrr2
 * specifies, so every property proved there holds of the object.
 */
module SchDwrr2Qdisc {
  import opened Wire
  import Classifier
  import opened SchDwrr2
  import opened SchDwrr2Props

  class Scheduler {
    /** The tunables, read-only on the datapath. */
    const cfg: Config
    /** The shaping rate, fixed by the tc configuration at creation. */
    const rate: RateCfg
    const queues: array<ClassState>
    var activeList: seq<nat>
    var tokens: int
    var timeNs: int
    var sumLenBytes: nat
    var roundTime: int
    var lastIdleTime: int

    /** The value the object stands for. */
    function State(): Port
      reads this, queues
    {
      Port(queues[..], activeList, tokens, timeNs, sumLenBytes, roundTime, lastIdleTime)
    }

    predicate Valid()
      reads this, queues
    {
      PortValid(cfg, rate, State())
    }

    /** dwrr_init followed by dwrr_change: every class idle, the rate taken
        from the tc rate in bytes per second. */
    constructor (cfg: Config, rateBytes: nat, now: int)
      requires ConfigValid(cfg)
      ensures Valid() && fresh(queues)
      ensures this.cfg == cfg && rate == RateFromBytes(rateBytes)
      ensures State() == InitialPort(now)
    {
      var qs := new ClassState[MaxQueues];
      for i := 0 to MaxQueues
        invariant forall j :: 0 <= j < i ==> qs[j] == IdleClass(now)
      {
        qs[i] := IdleClass(now);
      }
      this.cfg := cfg;
      rate := RateFromBytes(rateBytes);
      queues := qs;
      activeList := [];
      tokens := 0;
      timeNs := now;
      sumLenBytes := 0;
      roundTime := 0;
      lastIdleTime := now;
      new;
      assert queues[..] == InitialPort(now).queues;
      InitialPortValid(cfg, rate, now);
    }

    /** The idle check at the head of dwrr_enqueue: on an empty MQ-ECN port
        the round time takes one EWMA step toward zero per idle interval
        elapsed, or is reset after a long idle period. */
    method AgedRoundTime(now: int) returns (rt: int)
      requires ConfigValid(cfg)
      ensures rt == IdleAge(cfg, State(), now)
    {
      ghost var p := State();
      assert p.sumLenBytes == sumLenBytes && p.lastIdleTime == lastIdleTime;
      var n := 0;
      if sumLenBytes == 0 && cfg.ecnScheme == MqEcn && cfg.idleIntervalNs > 0 {
        n := CDiv(now - lastIdleTime, cfg.idleIntervalNs);
      }
      rt := roundTime;
      if n > 0 && n <= MaxIteration {
        var i := 0;
        while i < n
          invariant 0 <= i <= n
          invariant rt == DecayTimes(cfg.roundAlpha, roundTime, i)
        {
          rt := RoundEwma(cfg.roundAlpha, rt, 0);
          i := i + 1;
        }
      } else if n > MaxIteration {
        rt := 0;
      }
    }

    /** dwrr_enqueue: decay the round time over an idle period, classify,
        admit or drop, append and mark. */
    method Enqueue(pkt: Packet, now: int, childAccepts: bool) returns (r: Enqueued)
      requires Valid()
      requires pkt.tos.Some? ==> pkt.tos.value < 256
      requires SkbSize(pkt.len) <= MtuBytes
      modifies this, queues
      ensures Valid()
      ensures (r, State()) == EnqueueSpec(cfg, rate, old(State()), pkt, now, childAccepts)
    {
      ghost var p := State();
      EnqueuePreservesValid(cfg, rate, p, pkt, now, childAccepts);
      var len := SkbSize(pkt.len);
      roundTime := AgedRoundTime(now);
      ghost var p0 := State();
      assert p0 == p.(roundTime := IdleAge(cfg, p, now));
      var c := Classifier.Classify(cfg.queueDscp, pkt.tos);
      if (cfg.bufferMode == SharedBuffer && sumLenBytes + len > cfg.sharedBufferBytes)
         || (cfg.bufferMode == StaticBuffer && queues[c].lenBytes + len > cfg.queueBufferBytes[c])
      {
        assert Overfilled(cfg, p0, c, len);
        return Dropped(c, BufferFull);
      }
      assert !Overfilled(cfg, p0, c, len);
      if !childAccepts {
        return Dropped(c, ChildRejected);
      }
      AppendPacket(c, len, now);
      var mark := EcnMark(cfg, rate, c, queues[c], sumLenBytes, roundTime);
      r := Accepted(c, mark);
    }

    /** The accepted branch of dwrr_enqueue: the byte counts grow, and a
        class that was empty starts a round with its quantum as deficit and
        joins the tail of the list. */
    method AppendPacket(c: nat, len: nat, now: int)
      requires ConfigValid(cfg) && queues.Length == MaxQueues && c < MaxQueues
      modifies queues, this
      ensures State() == Append(cfg, old(State()), c, len, now)
    {
      sumLenBytes := sumLenBytes + len;
      var q := queues[c];
      var wasEmpty := q.fifo == [];
      q := q.(fifo := q.fifo + [len], lenBytes := q.lenBytes + len);
      if wasEmpty {
        q := q.(startTime := now, quantum := cfg.queueQuantum[c], deficit := cfg.queueQuantum[c]);
        activeList := activeList + [c];
      }
      queues[c] := q;
    }

    /** The loop of dwrr_dequeue up to the point where the head class can
        send: a class whose deficit does not cover its head packet yields. */
    method ScheduleHead() returns (c: nat)
      requires PortValid(cfg, rate, State()) && activeList != []
      modifies queues, this
      ensures State() == Schedule(cfg, rate, old(State()))
      ensures c == activeList[0]
    {
      ghost var p0 := State();
      c := activeList[0];
      assert c in activeList && ClassValid(cfg, c, queues[c]);
      ghost var yielded: set<nat> := {};
      while queues[c].deficit < queues[c].fifo[0]
        invariant PortValid(cfg, rate, State()) && activeList != [] && c == activeList[0]
        invariant queues[c].fifo != []
        invariant forall y :: y in yielded ==> y < MaxQueues && Fits(State().queues[y])
        invariant Rotate(cfg, rate, State(), yielded) == Rotate(cfg, rate, p0, {})
        decreases ClassIds() - yielded
      {
        ghost var p := State();
        RotateStep(cfg, rate, p, yielded);
        assert Rotate(cfg, rate, p, yielded) == Rotate(cfg, rate, Yield(cfg, p), yielded + {c});
        c := YieldHead();
        yielded := yielded + {p.activeList[0]};
      }
    }

    /** The yield branch of the dequeue loop: sample the round, restart the
        class's round at its last transmission, grant its quantum and move
        it to the tail. */
    method YieldHead() returns (c: nat)
      requires PortValid(cfg, rate, State()) && activeList != [] && !HeadFits(State())
      modifies queues, this
      ensures State() == old(Yield(cfg, State()))
      ensures activeList != [] && c == activeList[0]
      ensures queues[c].fifo != []
    {
      ghost var p := State();
      YieldValid(cfg, rate, p);
      c := activeList[0];
      var q := queues[c];
      roundTime := RoundEwma(cfg.roundAlpha, roundTime, q.lastPktTime - q.startTime);
      var quantum := cfg.queueQuantum[c];
      queues[c] := q.(startTime := q.lastPktTime, quantum := quantum,
                      deficit := if cfg.enableWrr then quantum else q.deficit + quantum);
      activeList := activeList[1..] + [c];
      assert State() == Yield(cfg, p);
      c := activeList[0];
      assert c in activeList && ClassValid(cfg, c, queues[c]);
    }

    /** The token-bucket step of dwrr_dequeue for the head class. */
    method SendHead(now: int, c: nat) returns (r: Dequeued)
      requires PortValid(cfg, rate, State()) && activeList != [] && c == activeList[0]
      requires HeadFits(State())
      modifies queues, this
      ensures (r, State()) == SendOrThrottle(cfg, rate, old(State()), now)
    {
      var q := queues[c];
      var len := q.fifo[0];
      var bucketNs := L2tNs(rate, cfg.bucketBytes);
      var result := Min(now - timeNs, bucketNs) + tokens - L2tNs(rate, len);
      if result < 0 {
        return Throttled(now - result);
      }
      SumLenBound(queues[..], c);
      sumLenBytes := sumLenBytes - len;
      q := q.(fifo := q.fifo[1..], lenBytes := q.lenBytes - len, deficit := q.deficit - len,
              lastPktTime := now + L2tNs(rate, len));
      queues[c] := q;
      if q.fifo == [] {
        activeList := activeList[1..];
        roundTime := RoundEwma(cfg.roundAlpha, roundTime, q.lastPktTime - q.startTime);
        if sumLenBytes == 0 {
          lastIdleTime := now;
        }
      }
      timeNs := now;
      tokens := Min(result, bucketNs);
      var mark := cfg.enableDequeueEcn && EcnMark(cfg, rate, c, q, sumLenBytes, roundTime);
      r := Sent(c, len, mark);
    }

    /** dwrr_dequeue. */
    method Dequeue(now: int) returns (r: Dequeued)
      requires Valid()
      modifies this, queues
      ensures Valid()
      ensures (r, State()) == DequeueSpec(cfg, rate, old(State()), now)
    {
      DequeuePreservesValid(cfg, rate, State(), now);
      if activeList == [] {
        return NoPacket;
      }
      var c := ScheduleHead();
      r := SendHead(now, c);
    }
  }
}
