/**
 * The classifier shared by both schedulers (dwrr_qdisc_classify in
 * sch_dwrr/main.c, dwrr_classify in sch_dwrr2/main.c): the DSCP of the
 * packet, the upper six bits of the IPv4 TOS byte, selects the first class
 * whose configured DSCP equals it; class 0 takes everything else.
 */
module Classifier {
  import opened Wire

  /** The DSCP of a TOS byte (tos >> 2). */
  function Dscp(tos: nat): (d: nat)
    requires tos < 256
    ensures d <= DscpMax
    ensures 4 * d <= tos < 4 * d + 4
  {
    tos / 4
  }

  /** Index of the first entry of table[i..] equal to dscp, or 0 when none is. */
  function FirstMatch(table: seq<int>, dscp: int, i: nat): (r: nat)
    requires i <= |table|
    ensures (exists k :: i <= k < |table| && table[k] == dscp) ==>
              i <= r < |table| && table[r] == dscp
              && forall k :: i <= k < r ==> table[k] != dscp
    ensures (forall k :: i <= k < |table| ==> table[k] != dscp) ==> r == 0
    decreases |table| - i
  {
    if i == |table| then 0
    else if table[i] == dscp then i
    else FirstMatch(table, dscp, i + 1)
  }

  /** The class of a packet given the per-class DSCP table; a packet without
      an IP header goes to class 0. */
  function ClassOf(table: seq<int>, tos: Option<nat>): (id: nat)
    requires |table| == MaxQueues
    requires tos.Some? ==> tos.value < 256
    ensures id < MaxQueues
  {
    match tos
    case None => 0
    case Some(t) => FirstMatch(table, Dscp(t), 0)
  }

  /** The first class, in index order, whose DSCP matches wins; class 0 is
      the default both for unmatched packets and for packets without an IP
      header. */
  lemma ClassOfIsFirstMatch(table: seq<int>, tos: Option<nat>)
    requires |table| == MaxQueues
    requires tos.Some? ==> tos.value < 256
    ensures tos.None? ==> ClassOf(table, tos) == 0
    ensures tos.Some? && Dscp(tos.value) in table ==>
              table[ClassOf(table, tos)] == Dscp(tos.value)
              && Dscp(tos.value) !in table[..ClassOf(table, tos)]
    ensures tos.Some? && Dscp(tos.value) !in table ==> ClassOf(table, tos) == 0
  {
    if tos.Some? {
      var d := Dscp(tos.value);
      var id := ClassOf(table, tos);
      if d in table {
        var k :| 0 <= k < |table| && table[k] == d;
        assert id < |table| && table[id] == d;
        assert forall j :: 0 <= j < id ==> table[..id][j] == table[j] != d;
      } else {
        assert forall k :: 0 <= k < |table| ==> table[k] != d;
      }
    }
  }

  /** The linear scan of the source: classes are tried in index order and
      the scan stops at the first one whose DSCP matches. */
  method Classify(table: seq<int>, tos: Option<nat>) returns (id: nat)
    requires |table| == MaxQueues
    requires tos.Some? ==> tos.value < 256
    ensures id < MaxQueues
    ensures id == ClassOf(table, tos)
  {
    if tos.None? {
      return 0;
    }
    var dscp := Dscp(tos.value);
    var i := 0;
    while i < MaxQueues
      invariant 0 <= i <= MaxQueues
      invariant FirstMatch(table, dscp, i) == FirstMatch(table, dscp, 0)
    {
      if dscp == table[i] {
        return i;
      }
      i := i + 1;
    }
    return 0;
  }
}
