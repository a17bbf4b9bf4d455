/**
 * The first scheduler's private data (struct dwrr_sched_data of
 * sch_dwrr/main.c) as an object updated in place: the classes sit in an
 * array, as the source allocates them with kcalloc, and the port counters
 * are fields. Each operation is proved to perform the step that module
 * SchDwrr specifies, so every property proved there holds of the object.
 */
module SchDwrrQdisc {
  import opened Wire
  import Classifier
  import opened SchDwrr
  import opened SchDwrrProps

  class Scheduler {
    /** The tunables, read-only on the datapath. */
    const cfg: Config
    /** The shaping rate, fixed by the tc configuration at creation. */
    const rate: RateCfg
    const queues: array<ClassState>
    var activeList: seq<nat>
    var tokens: int
    var timeNs: int
    var sumLenBytes: nat
    var roundTimeNs: int
    var lastIdleTimeNs: int

    /** The value the object stands for. */
    function State(): Port
      reads this, queues
    {
      Port(queues[..], activeList, tokens, timeNs, sumLenBytes, roundTimeNs, lastIdleTimeNs)
    }

    predicate Valid()
      reads this, queues
    {
      PortValid(cfg, State())
    }

    /** dwrr_qdisc_init followed by dwrr_qdisc_change: every class idle, the
        rate taken from the tc rate in bytes per second. */
    constructor (cfg: Config, rateBytes: nat, now: int)
      requires ConfigValid(cfg)
      ensures Valid() && fresh(queues)
      ensures this.cfg == cfg && rate == RateFromBytes(rateBytes)
      ensures State() == InitialPort(now)
    {
      var qs := new ClassState[MaxQueues];
      for i := 0 to MaxQueues
        invariant forall j :: 0 <= j < i ==> qs[j] == IdleClass(now)
      {
        qs[i] := IdleClass(now);
      }
      this.cfg := cfg;
      rate := RateFromBytes(rateBytes);
      queues := qs;
      activeList := [];
      tokens := 0;
      timeNs := now;
      sumLenBytes := 0;
      roundTimeNs := 0;
      lastIdleTimeNs := now;
      new;
      assert queues[..] == InitialPort(now).queues;
      InitialPortValid(cfg, now);
    }

    /** The idle check at the head of dwrr_qdisc_enqueue: on an empty
        MQ-ECN port the round time decays once per idle interval elapsed,
        or is reset after a long idle period. */
    method AgedRoundTime(now: int) returns (rt: int)
      requires ConfigValid(cfg)
      ensures rt == IdleAge(cfg, State(), now)
    {
      ghost var p := State();
      assert p.sumLenBytes == sumLenBytes && p.lastIdleTimeNs == lastIdleTimeNs;
      rt := roundTimeNs;
      if sumLenBytes == 0 && cfg.ecnScheme == MqEcn {
        if cfg.idleIntervalNs > 0 {
          var n := CDiv(now - lastIdleTimeNs, cfg.idleIntervalNs);
          if n <= MaxIteration {
            var i := 0;
            while i < n
              invariant 0 <= i <= Max(n, 0)
              invariant rt == DecayTimes(cfg.roundAlpha, roundTimeNs, i)
            {
              rt := IdleDecay(cfg.roundAlpha, rt);
              i := i + 1;
            }
            assert rt == DecayTimes(cfg.roundAlpha, roundTimeNs, n);
          } else {
            rt := 0;
          }
        } else {
          rt := 0;
        }
      }
    }

    /** dwrr_qdisc_enqueue: decay the round time over an idle period,
        classify, admit or drop, append and mark. */
    method Enqueue(pkt: Packet, now: int, childAccepts: bool) returns (r: Enqueued)
      requires Valid()
      requires pkt.tos.Some? ==> pkt.tos.value < 256
      requires SkbSize(pkt.len) <= MtuBytes
      modifies this, queues
      ensures Valid()
      ensures (r, State()) == EnqueueSpec(cfg, rate, old(State()), pkt, now, childAccepts)
    {
      ghost var p := State();
      EnqueuePreservesValid(cfg, rate, p, pkt, now, childAccepts);
      var len := SkbSize(pkt.len);
      roundTimeNs := AgedRoundTime(now);
      ghost var p0 := State();
      assert p0 == p.(roundTimeNs := IdleAge(cfg, p, now));
      var c := Classifier.Classify(cfg.queueDscp, pkt.tos);
      if (cfg.bufferMode == SharedBuffer && sumLenBytes + len > cfg.sharedBufferBytes)
         || (cfg.bufferMode == StaticBuffer && queues[c].lenBytes + len > cfg.queueBufferBytes[c])
      {
        assert Overfilled(cfg, p0, c, len);
        return Dropped(c, BufferFull);
      }
      assert !Overfilled(cfg, p0, c, len);
      if !childAccepts {
        return Dropped(c, ChildRejected);
      }
      AppendPacket(c, len, now);
      var mark := false;
      if !cfg.enableDequeueEcn {
        mark := EcnMark(cfg, rate, c, queues[c], sumLenBytes, roundTimeNs);
      }
      r := Accepted(c, mark);
    }

    /** The accepted branch of dwrr_qdisc_enqueue: the byte counts grow and
        an inactive class is activated and listed. */
    method AppendPacket(c: nat, len: nat, now: int)
      requires ConfigValid(cfg) && queues.Length == MaxQueues && c < MaxQueues
      modifies queues, this
      ensures State() == Append(cfg, old(State()), c, len, now)
    {
      sumLenBytes := sumLenBytes + len;
      var q := queues[c];
      q := q.(fifo := q.fifo + [len], lenBytes := q.lenBytes + len);
      if !q.active {
        q := q.(deficit := 0, active := true, curr := false, startTime := now,
                quantum := cfg.queueQuantum[c]);
        activeList := activeList + [c];
      }
      queues[c] := q;
    }

    /** The loop of dwrr_qdisc_dequeue up to the point where the head class
        can send: the head class is granted its quantum once per visit, and
        a class whose deficit does not cover its head packet yields. */
    method ScheduleHead(now: int) returns (c: nat)
      requires PortValid(cfg, State()) && activeList != []
      modifies queues, this
      ensures State() == Schedule(cfg, old(State()), now)
      ensures c == activeList[0]
    {
      ghost var p0 := State();
      ChargeHeadValid(cfg, p0);
      c := activeList[0];
      queues[c] := Charge(queues[c]);
      assert State() == ChargeHead(p0);
      assert c in activeList && ClassValid(cfg, c, queues[c]);
      ghost var yielded: set<nat> := {};
      while queues[c].deficit < queues[c].fifo[0]
        invariant PortValid(cfg, State()) && activeList != [] && c == activeList[0]
        invariant queues[c].curr && queues[c].fifo != []
        invariant forall y :: y in yielded ==> y < MaxQueues && Ready(State().queues[y])
        invariant Rotate(cfg, State(), now, yielded) == Rotate(cfg, ChargeHead(p0), now, {})
        decreases ClassIds() - yielded
      {
        ghost var p := State();
        RotateStep(cfg, p, now, yielded);
        assert Rotate(cfg, p, now, yielded)
               == Rotate(cfg, ChargeHead(Yield(cfg, p, now)), now, yielded + {c});
        c := YieldHead(now);
        yielded := yielded + {p.activeList[0]};
      }
    }

    /** The yield branch of the dequeue loop, followed by the charge of the
        next head class. */
    method YieldHead(now: int) returns (c: nat)
      requires PortValid(cfg, State()) && activeList != [] && !HeadFits(State())
      modifies queues, this
      ensures PortValid(cfg, old(Yield(cfg, State(), now)))
      ensures State() == ChargeHead(old(Yield(cfg, State(), now)))
      ensures activeList != [] && c == activeList[0]
      ensures queues[c].curr && queues[c].fifo != []
    {
      ghost var p := State();
      YieldValid(cfg, p, now);
      c := activeList[0];
      var q := queues[c];
      roundTimeNs := RoundEwma(cfg.roundAlpha, roundTimeNs, RoundSample(q));
      queues[c] := q.(curr := false, startTime := now, quantum := cfg.queueQuantum[c],
                      deficit := if cfg.enableWrr then 0 else q.deficit);
      activeList := activeList[1..] + [c];
      assert State() == Yield(cfg, p, now);
      ChargeHeadValid(cfg, State());
      c := activeList[0];
      queues[c] := Charge(queues[c]);
      assert c in activeList && ClassValid(cfg, c, queues[c]);
    }

    /** The token-bucket step of dwrr_qdisc_dequeue for the head class. */
    method SendHead(now: int, c: nat) returns (r: Dequeued)
      requires PortValid(cfg, State()) && activeList != [] && c == activeList[0]
      requires HeadFits(State())
      modifies queues, this
      ensures (r, State()) == SendOrThrottle(cfg, rate, old(State()), now)
    {
      var q := queues[c];
      var len := q.fifo[0];
      var toks := Min(now - timeNs, cfg.bucketNs) + tokens;
      var pktNs := L2tNs(rate, len);
      if toks > pktNs {
        SumLenBound(queues[..], c);
        sumLenBytes := sumLenBytes - len;
        q := q.(fifo := q.fifo[1..], lenBytes := q.lenBytes - len, deficit := q.deficit - len,
                lastPktLenNs := pktNs, lastPktTime := now);
        queues[c] := q;
        var mark := cfg.enableDequeueEcn && EcnMark(cfg, rate, c, q, sumLenBytes, roundTimeNs);
        if q.fifo == [] {
          queues[c] := q.(active := false, curr := false,
                          deficit := if cfg.enableWrr then 0 else q.deficit);
          activeList := activeList[1..];
          roundTimeNs := RoundEwma(cfg.roundAlpha, roundTimeNs, RoundSample(q));
          if sumLenBytes == 0 {
            lastIdleTimeNs := now;
          }
        }
        timeNs := now;
        tokens := Min(toks - pktNs, cfg.bucketNs);
        r := Sent(c, len, mark);
      } else {
        r := Throttled(now + pktNs - toks);
      }
    }

    /** dwrr_qdisc_dequeue. */
    method Dequeue(now: int) returns (r: Dequeued)
      requires Valid()
      modifies this, queues
      ensures Valid()
      ensures (r, State()) == DequeueSpec(cfg, rate, old(State()), now)
    {
      DequeuePreservesValid(cfg, rate, State(), now);
      if activeList == [] {
        return NoPacket;
      }
      var c := ScheduleHead(now);
      r := SendHead(now, c);
    }
  }
}
