/**
 * The pieces that both copies of the scheduler (sch_dwrr/main.c and
 * sch_dwrr2/main.c) share line for line: the on-wire length of a packet,
 * the fixed-point rate configuration and its length-to-time conversion,
 * the tunable enumerations of params.h, and the C integer operations the
 * scheduler relies on.
 */
module Wire {

  datatype Option<+T> = None | Some(value: T)

  /** A packet as the scheduler sees it: skb->len and, when the packet
      carries an IPv4 header, that header's TOS byte. */
  datatype Packet = Packet(len: nat, tos: Option<nat>)

  /** Buffer management policy (params.h: shared per port, or static per queue). */
  datatype BufferMode = SharedBuffer | StaticBuffer

  /** ECN marking scheme (params.h: disabled, per queue, per port, MQ-ECN). */
  datatype EcnScheme = DisableEcn | QueueEcn | PortEcn | MqEcn

  const MaxQueues: nat := 8
  /** 1500 B MTU + 14 B Ethernet header + 4 B FCS + 8 B preamble + 12 B gap */
  const MtuBytes: nat := 1538
  /** Minimum Ethernet frame, to which shorter frames are padded */
  const MinPktBytes: nat := 64
  const MaxIteration: nat := 10
  /** Upper end of the sysctl range of a queue quantum (200 KiB) */
  const QuantumMax: nat := 200 * 1024
  const DscpMax: nat := 63
  const NsecPerSec: nat := 1000000000
  const RateShift: nat := 15
  /** 8 * NSEC_PER_SEC * (1 << 15), the dividend of the multiplier */
  const TransmitFactor: nat := 8 * NsecPerSec * 32768
  /** Number of values of a u32 */
  const U32Range: nat := 0x1_0000_0000

  function Min(a: int, b: int): int { if a <= b then a else b }
  function Max(a: int, b: int): int { if a <= b then b else a }

  function Pow2(n: nat): (p: nat)
    ensures p >= 1
  {
    if n == 0 then 1 else 2 * Pow2(n - 1)
  }

  /** Signed division as C performs it: the quotient is truncated toward zero. */
  function CDiv(a: int, b: int): (q: int)
    requires b > 0
    ensures a >= 0 ==> 0 <= q && q * b <= a < q * b + b
    ensures a < 0 ==> q <= 0 && q * b - b < a <= q * b
  {
    if a >= 0 then DivBounds(a, b); a / b
    else DivBounds(-a, b); -((-a) / b)
  }

  lemma DivBounds(a: nat, b: nat)
    requires b > 0
    ensures 0 <= a / b && (a / b) * b <= a < (a / b) * b + b
  {
    var q, m := a / b, a % b;
    assert a == q * b + m && 0 <= m < b;
  }

  /** The set of class ids 0 .. MaxQueues-1. */
  function ClassIds(): set<nat>
  {
    {0, 1, 2, 3, 4, 5, 6, 7}
  }

  /** Sum of the on-wire lengths of the packets of a FIFO. */
  function Total(s: seq<nat>): nat
  {
    if s == [] then 0 else s[0] + Total(s[1..])
  }

  lemma {:induction false} TotalAppend(s: seq<nat>, x: nat)
    ensures Total(s + [x]) == Total(s) + x
  {
    if s == [] {
      assert [] + [x] == [x];
    } else {
      assert (s + [x])[1..] == s[1..] + [x];
      TotalAppend(s[1..], x);
    }
  }

  // ---------------------------------------------------------------------
  // The active list: a sequence of class ids without repetition
  // ---------------------------------------------------------------------

  predicate NoDup(s: seq<nat>)
  {
    forall i, j :: 0 <= i < j < |s| ==> s[i] != s[j]
  }

  /** list_add_tail of a class that is not yet listed. */
  lemma AppendKeepsNoDup(s: seq<nat>, c: nat)
    requires NoDup(s) && c !in s
    ensures NoDup(s + [c])
    ensures forall d :: d in s + [c] <==> d in s || d == c
  {
  }

  /** list_del of the head. */
  lemma TailKeepsNoDup(s: seq<nat>)
    requires NoDup(s) && s != []
    ensures NoDup(s[1..])
    ensures forall d :: d in s[1..] <==> d in s && d != s[0]
  {
    forall d | d in s && d != s[0] ensures d in s[1..] {
      var i :| 0 <= i < |s| && s[i] == d;
      assert s[1..][i - 1] == d;
    }
  }

  /** list_move_tail of the head. */
  lemma RotateKeepsNoDup(s: seq<nat>)
    requires NoDup(s) && s != []
    ensures NoDup(s[1..] + [s[0]])
    ensures forall d :: d in s[1..] + [s[0]] <==> d in s
  {
    TailKeepsNoDup(s);
    AppendKeepsNoDup(s[1..], s[0]);
  }

  // ---------------------------------------------------------------------
  // On-wire length (skb_size)
  // ---------------------------------------------------------------------

  /** Bytes the packet occupies on the wire: the FCS is added, the frame is
      padded to the Ethernet minimum, and preamble plus inter-packet gap
      are added on top. */
  function SkbSize(len: nat): (size: nat)
    ensures size >= MinPktBytes + 20
    ensures size >= len + 24
    ensures len + 4 >= MinPktBytes ==> size == len + 24
    ensures len + 4 < MinPktBytes ==> size == MinPktBytes + 20
  {
    Max(len + 4, MinPktBytes) + 20
  }

  lemma SkbSizeMonotone(a: nat, b: nat)
    requires a <= b
    ensures SkbSize(a) <= SkbSize(b)
  {
  }

  // ---------------------------------------------------------------------
  // Rate configuration and length-to-time conversion
  // ---------------------------------------------------------------------

  /** struct dwrr_rate_cfg: the shaping rate in bit/s and the fixed-point
      pair that turns a length in bytes into nanoseconds. */
  datatype RateCfg = RateCfg(rateBps: nat, mult: nat, shift: nat)

  /** The multiplier/shift pair for a rate: an unshaped port (rate 0) gets
      mult 1, shift 0; otherwise shift is 15 and mult is the quotient
      8e9 * 2^15 / rate, kept at full width (see MultTruncationUndercharges). */
  function PrecomputeRateData(rateBps: nat): (r: RateCfg)
    ensures r.rateBps == rateBps
    ensures rateBps == 0 ==> r.mult == 1 && r.shift == 0
    ensures rateBps > 0 ==> r.shift == RateShift
    ensures rateBps > 0 ==> r.mult * rateBps <= TransmitFactor < (r.mult + 1) * rateBps
  {
    if rateBps == 0 then RateCfg(0, 1, 0)
    else
      var m := TransmitFactor / rateBps;
      assert TransmitFactor == m * rateBps + TransmitFactor % rateBps;
      RateCfg(rateBps, m, RateShift)
  }

  /** The rate as the source computes it, storing the 64-bit quotient into
      the 32-bit mult field, which keeps only its low 32 bits. */
  function PrecomputeRateDataAsWritten(rateBps: nat): (r: RateCfg)
    ensures r.rateBps == rateBps
    ensures r.mult < U32Range
  {
    if rateBps == 0 then RateCfg(0, 1, 0)
    else RateCfg(rateBps, (TransmitFactor / rateBps) % U32Range, RateShift)
  }

  /** The tc rate arrives in bytes per second and is shifted left by 3
      into bits per second before the multiplier is derived. */
  function RateFromBytes(rateBytes: nat): (r: RateCfg)
    ensures r.rateBps == 8 * rateBytes
    ensures r == PrecomputeRateData(8 * rateBytes)
  {
    PrecomputeRateData(rateBytes * 8)
  }

  /** Nanoseconds needed to send len bytes at the configured rate. */
  function L2tNs(r: RateCfg, len: nat): nat
  {
    var x: nat := len * r.mult;
    DivBounds(x, Pow2(r.shift));
    x / Pow2(r.shift)
  }

  lemma Pow2Shift()
    ensures Pow2(RateShift) == 32768
  {
    assert Pow2(0) == 1;
    assert Pow2(5) == 32;
    assert Pow2(10) == 1024;
  }

  lemma MulMonotone(a: nat, b: nat, m: nat)
    requires a <= b
    ensures a * m <= b * m
  {
  }

  lemma DivMonotone(a: nat, b: nat, d: nat)
    requires a <= b && d > 0
    ensures a / d <= b / d
  {
    var qa, qb := a / d, b / d;
    assert a == qa * d + a % d;
    assert b == qb * d + b % d;
    if qa > qb {
      MulMonotone(qb + 1, qa, d);
      assert false;
    }
  }

  lemma MulDivCancel(x: nat, d: nat)
    requires d > 0
    ensures x * d / d == x
  {
    DivBounds(x * d, d);
    var q := x * d / d;
    if q < x {
      MulMonotone(q + 1, x, d);
    }
  }

  /** Floor division by a positive divisor keeps bounds that hold of the
      dividend scaled by the divisor. */
  lemma FloorDivBetween(v: int, d: nat, lo: int, hi: int)
    requires d > 0 && d * lo <= v <= d * hi
    ensures lo <= v / d <= hi
  {
    var r := v / d;
    assert v == r * d + v % d && 0 <= v % d < d;
    if r < lo {
      MulLeft(d, r + 1, lo);
      assert false;
    }
    if r > hi {
      MulLeft(d, hi + 1, r);
      assert false;
    }
  }

  lemma MulLeft(a: nat, x: int, y: int)
    requires x <= y
    ensures a * x <= a * y
  {
  }

  /** Dividing by a larger divisor gives no larger quotient. */
  lemma DivByLarger(a: nat, d1: nat, d2: nat)
    requires 0 < d1 <= d2
    ensures a / d2 <= a / d1
  {
    var q1, q2 := a / d1, a / d2;
    DivBounds(a, d1);
    DivBounds(a, d2);
    if q2 > q1 {
      MulMonotone(q1 + 1, q2, d1);
      MulLeft(q2, d1, d2);
      assert false;
    }
  }

  /** x * share / rate, for a share of at most the whole rate: never more
      than x. */
  function Scale(share: nat, rate: nat, x: nat): (r: nat)
    requires 0 < rate && share <= rate
    ensures r <= x
  {
    ScaleAtMost(share, rate, x);
    share * x / rate
  }

  /** A fraction share/rate of at most one scales x to at most x. */
  lemma ScaleAtMost(share: nat, rate: nat, x: nat)
    requires 0 < rate && share <= rate
    ensures share * x / rate <= x
  {
    MulMonotone(share, rate, x);
    DivMonotone(share * x, rate * x, rate);
    MulDivCancel(x, rate);
    assert rate * x == x * rate;
  }

  /** Multiplying both sides by the same positive factor preserves a
      strict order in reverse. */
  lemma MulCancel(x: int, y: int, b: nat)
    requires b > 0 && x * b < y * b
    ensures x < y
  {
  }

  /** A longer packet never costs less time. */
  lemma L2tMonotone(r: RateCfg, a: nat, b: nat)
    requires a <= b
    ensures L2tNs(r, a) <= L2tNs(r, b)
  {
    MulMonotone(a, b, r.mult);
    DivMonotone(a * r.mult, b * r.mult, Pow2(r.shift));
  }

  /** On an unshaped port a byte costs one nanosecond. */
  lemma L2tUnshaped(len: nat)
    ensures L2tNs(PrecomputeRateData(0), len) == len
  {
  }

  lemma MulStrict(a: nat, b: nat, m: nat)
    requires a < b && m > 0
    ensures a * m < b * m
  {
  }

  /** The fixed-point cost never exceeds the exact cost len * 8e9 / rate. */
  lemma L2tNeverOvercharges(rateBps: nat, len: nat)
    requires rateBps > 0
    ensures L2tNs(PrecomputeRateData(rateBps), len) * rateBps <= len * 8 * NsecPerSec
  {
    var r := PrecomputeRateData(rateBps);
    var t := L2tNs(r, len);
    var x := len * r.mult;
    Pow2Shift();
    DivBounds(x, 32768);
    assert t == x / 32768;
    MulMonotone(t * 32768, x, rateBps);
    assert t * 32768 * rateBps <= x * rateBps;
    MulMonotone(r.mult * rateBps, TransmitFactor, len);
    assert x * rateBps == (r.mult * rateBps) * len;
    assert (t * rateBps) * 32768 <= (len * 8 * NsecPerSec) * 32768;
  }

  /** ... and falls short of it by less than one nanosecond plus len / 2^15. */
  lemma L2tNearlyExact(rateBps: nat, len: nat)
    requires rateBps > 0
    ensures len * 8 * NsecPerSec * 32768
            < ((L2tNs(PrecomputeRateData(rateBps), len) + 1) * 32768 + len) * rateBps
  {
    var r := PrecomputeRateData(rateBps);
    var t := L2tNs(r, len);
    var x := len * r.mult;
    Pow2Shift();
    DivBounds(x, 32768);
    assert t == x / 32768;
    var bound := (t + 1) * 32768;
    MulStrict(x, bound, rateBps);
    MulMonotone(TransmitFactor, (r.mult + 1) * rateBps, len);
    assert TransmitFactor * len <= ((r.mult + 1) * rateBps) * len;
    assert ((r.mult + 1) * rateBps) * len == x * rateBps + len * rateBps;
    assert (bound + len) * rateBps == bound * rateBps + len * rateBps;
    assert len * 8 * NsecPerSec * 32768 == TransmitFactor * len;
  }

  /** For every rate above 8e9 * 2^15 / 2^32 bit/s (about 61 kbit/s) the
      source's truncated multiplier equals the full-width one. */
  lemma RateDataAsWrittenAgrees(rateBps: nat)
    requires rateBps * U32Range > TransmitFactor
    ensures PrecomputeRateDataAsWritten(rateBps) == PrecomputeRateData(rateBps)
  {
    var m := TransmitFactor / rateBps;
    assert m * rateBps <= TransmitFactor;
    if m >= U32Range {
      MulMonotone(U32Range, m, rateBps);
      assert false;
    }
  }

  /** Below that rate the truncated multiplier undercharges: at 8000 bit/s
      (tc rate 1000 bytes/s) a full-size frame costs less than a tenth of
      its real transmission time, so the shaper releases traffic more than
      ten times faster than configured. */
  lemma MultTruncationUndercharges()
    ensures L2tNs(PrecomputeRateDataAsWritten(8000), MtuBytes) * 10
            < L2tNs(PrecomputeRateData(8000), MtuBytes)
  {
    Pow2Shift();
    assert TransmitFactor / 8000 == 32768000000;
    assert 32768000000 % U32Range == 2703228928;
  }
}
