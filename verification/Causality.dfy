/** Happened-before on a log of events, and clocks that obey the update rule. */
module Causality {
  import opened Messages
  import opened VectorClock

  /** An event as a node tags it: `src` is the log position of the send it received from, if it is a receipt. */
  datatype Event<+C> = Event(node: NodeId, src: Option<nat>, clock: C)

  type Log = seq<Event<seq<Entry>>>

  ghost predicate SourcesBefore<C>(log: seq<Event<C>>) {
    forall j :: 0 <= j < |log| && log[j].src.Some? ==> log[j].src.value < j
  }

  // ---------- happened-before ----------

  /** One event directly before another: earlier at the same node, or the send of what the other receives. */
  predicate Edge<C>(log: seq<Event<C>>, i: nat, j: nat) {
    i < j < |log| && (log[i].node == log[j].node || log[j].src == Some(i))
  }

  predicate Path<C>(log: seq<Event<C>>, p: seq<nat>) {
    p != [] && p[|p| - 1] < |log| && forall k :: 0 <= k < |p| - 1 ==> Edge(log, p[k], p[k + 1])
  }

  ghost predicate HappenedBefore<C>(log: seq<Event<C>>, i: nat, j: nat) {
    exists p :: Path(log, p) && |p| > 1 && p[0] == i && p[|p| - 1] == j
  }

  /** The position after the last event of `q` among the first `n`, or 0. */
  function Last<C>(log: seq<Event<C>>, q: NodeId, n: nat): (k: nat)
    requires n <= |log|
    ensures k <= n && (k > 0 ==> log[k - 1].node == q)
    ensures forall i :: k <= i < n ==> log[i].node != q
    decreases n
  {
    if n == 0 then 0 else if log[n - 1].node == q then n else Last(log, q, n - 1)
  }

  /** How many of the first `n` events are `q`'s. */
  function Rank<C>(log: seq<Event<C>>, q: NodeId, n: nat): nat
    requires n <= |log|
    decreases n
  {
    if n == 0 then 0 else Rank(log, q, n - 1) + if log[n - 1].node == q then 1 else 0
  }

  /** Reflexive happened-before, by recursion over the two direct predecessors. */
  predicate Upto<C>(log: seq<Event<C>>, i: nat, j: nat)
    requires SourcesBefore(log) && j < |log|
    decreases j
  {
    || i == j
    || (var k := Last(log, log[j].node, j); k > 0 && Upto(log, i, k - 1))
    || (log[j].src.Some? && Upto(log, i, log[j].src.value))
  }

  lemma {:induction false} UptoBefore<C>(log: seq<Event<C>>, i: nat, j: nat)
    requires SourcesBefore(log) && j < |log| && Upto(log, i, j) && i != j
    ensures HappenedBefore(log, i, j)
    decreases j
  {
    var k := Last(log, log[j].node, j);
    var h := if k > 0 && Upto(log, i, k - 1) then k - 1 else log[j].src.value;
    assert Edge(log, h, j) && Upto(log, i, h);
    if i == h {
      assert Path(log, [i, j]) && [i, j][0] == i && [i, j][1] == j;
    } else {
      UptoBefore(log, i, h);
      var p :| Path(log, p) && |p| > 1 && p[0] == i && p[|p| - 1] == h;
      var p' := p + [j];
      assert Path(log, p') && p'[0] == i && p'[|p'| - 1] == j;
    }
  }

  /** Everything before an earlier event of the same node is before a later one. */
  lemma {:induction false} UptoSameNode<C>(log: seq<Event<C>>, i: nat, h: nat, j: nat)
    requires SourcesBefore(log) && h < j < |log| && log[h].node == log[j].node && Upto(log, i, h)
    ensures Upto(log, i, j)
    decreases j
  {
    var k := Last(log, log[j].node, j);
    if h != k - 1 { UptoSameNode(log, i, h, k - 1); }
  }

  lemma UptoEdge<C>(log: seq<Event<C>>, i: nat, h: nat, j: nat)
    requires SourcesBefore(log) && Edge(log, h, j) && Upto(log, i, h)
    ensures Upto(log, i, j)
  {
    if log[h].node == log[j].node { UptoSameNode(log, i, h, j); }
  }

  lemma {:induction false} PathUpto<C>(log: seq<Event<C>>, p: seq<nat>)
    requires SourcesBefore(log) && Path(log, p)
    ensures p[0] <= p[|p| - 1] && (|p| > 1 ==> p[0] < p[|p| - 1])
    ensures Upto(log, p[0], p[|p| - 1])
    decreases |p|
  {
    if |p| > 1 {
      var q := p[..|p| - 1];
      assert Edge(log, p[|p| - 2], p[|p| - 1]);
      forall k | 0 <= k < |q| - 1 ensures Edge(log, q[k], q[k + 1]) {
        assert Edge(log, p[k], p[k + 1]);
      }
      PathUpto(log, q);
      UptoEdge(log, p[0], p[|p| - 2], p[|p| - 1]);
    }
  }

  lemma BeforeIsUpto<C>(log: seq<Event<C>>, i: nat, j: nat)
    requires SourcesBefore(log) && j < |log|
    ensures HappenedBefore(log, i, j) <==> i != j && Upto(log, i, j)
  {
    if HappenedBefore(log, i, j) {
      var p :| Path(log, p) && |p| > 1 && p[0] == i && p[|p| - 1] == j;
      PathUpto(log, p);
    }
    if i != j && Upto(log, i, j) { UptoBefore(log, i, j); }
  }

  // ---------- the rule, and what the entries then mean ----------

  function Entry0(log: Log, k: nat, q: NodeId): nat
    requires k <= |log|
  {
    if k == 0 then 0 else At(log[k - 1].clock, q)
  }

  function SourceEntry(log: Log, src: Option<nat>, q: NodeId): nat
    requires src.Some? ==> src.value < |log|
  {
    if src.Some? then At(log[src.value].clock, q) else 0
  }

  /** A clock is the maximum of the node's previous clock and the received one, with the own entry counted on. */
  predicate RuleOf(log: Log, j: nat, q: NodeId)
    requires j < |log| && (log[j].src.Some? ==> log[j].src.value < |log|)
  {
    At(log[j].clock, q) == Max(Entry0(log, Last(log, log[j].node, j), q), SourceEntry(log, log[j].src, q))
        + if q == log[j].node then 1 else 0
  }

  ghost predicate ByRule(log: Log) {
    SourcesBefore(log) && forall j, q :: 0 <= j < |log| && q != 0 ==> RuleOf(log, j, q)
  }

  lemma RuleAt(log: Log, j: nat, q: NodeId)
    requires ByRule(log) && j < |log| && q != 0
    ensures SourcesBefore(log) && (log[j].src.Some? ==> log[j].src.value < j)
    ensures At(log[j].clock, q) == Max(Entry0(log, Last(log, log[j].node, j), q), SourceEntry(log, log[j].src, q))
          + if q == log[j].node then 1 else 0
  {
    assert RuleOf(log, j, q);
  }

  lemma {:induction false} RankMonotone<C>(log: seq<Event<C>>, q: NodeId, m: nat, n: nat)
    requires m <= n <= |log|
    ensures Rank(log, q, m) <= Rank(log, q, n)
    decreases n
  {
    if m < n { RankMonotone(log, q, m, n - 1); }
  }

  /** The rank does not change behind the last event. */
  lemma {:induction false} RankLast<C>(log: seq<Event<C>>, q: NodeId, n: nat)
    requires n <= |log|
    ensures Rank(log, q, Last(log, q, n)) == Rank(log, q, n)
    decreases n
  {
    if n > 0 && log[n - 1].node != q { RankLast(log, q, n - 1); }
  }

  /** No clock knows of more events than there are, and an event's own entry is its rank. */
  lemma {:induction false} EntryBound(log: Log, j: nat, q: NodeId)
    requires ByRule(log) && j < |log| && q != 0
    ensures At(log[j].clock, q) <= Rank(log, q, j + 1)
    ensures q == log[j].node ==> At(log[j].clock, q) == Rank(log, q, j + 1)
    decreases j
  {
    hide ByRule, At;
    RuleAt(log, j, q);
    var k := Last(log, log[j].node, j);
    if k > 0 {
      EntryBound(log, k - 1, q);
      RankMonotone(log, q, k, j);
    }
    if log[j].src.Some? {
      EntryBound(log, log[j].src.value, q);
      RankMonotone(log, q, log[j].src.value + 1, j);
    }
    if q == log[j].node { RankLast(log, q, j); }
  }

  lemma RankStrict<C>(log: seq<Event<C>>, q: NodeId, i: nat, j: nat)
    requires i < j < |log| && log[j].node == q
    ensures Rank(log, q, i + 1) < Rank(log, q, j + 1)
  {
    RankMonotone(log, q, i + 1, j);
  }

  /** The clock condition in both directions, for the reflexive order. */
  lemma {:induction false} UptoIffEntry(log: Log, i: nat, j: nat)
    requires ByRule(log) && i < |log| && j < |log| && log[i].node != 0
    ensures SourcesBefore(log) && (Upto(log, i, j) <==> At(log[i].clock, log[i].node) <= At(log[j].clock, log[i].node))
    decreases j
  {
    hide ByRule, At, Upto;
    var q := log[i].node;
    RuleAt(log, j, q);
    if q == log[j].node {
      UptoOwn(log, i, j);
    } else {
      var k := Last(log, log[j].node, j);
      if k > 0 { UptoIffEntry(log, i, k - 1); }
      if log[j].src.Some? { UptoIffEntry(log, i, log[j].src.value); }
      OwnPositive(log, i);
      UptoOther(log, i, j);
    }
  }

  lemma UptoOther<C>(log: seq<Event<C>>, i: nat, j: nat)
    requires SourcesBefore(log) && i < |log| && j < |log| && log[i].node != log[j].node
    ensures var k := Last(log, log[j].node, j);
      Upto(log, i, j) <==> (k > 0 && Upto(log, i, k - 1)) || (log[j].src.Some? && Upto(log, i, log[j].src.value))
  {
  }

  lemma UptoOwn(log: Log, i: nat, j: nat)
    requires ByRule(log) && i < |log| && j < |log| && log[i].node == log[j].node != 0
    ensures SourcesBefore(log) && (Upto(log, i, j) <==> At(log[i].clock, log[i].node) <= At(log[j].clock, log[i].node))
  {
    hide ByRule, At;
    var q := log[i].node;
    RuleAt(log, j, q);
    EntryBound(log, i, q);
    EntryBound(log, j, q);
    if i < j {
      UptoSameNode(log, i, i, j);
      RankMonotone(log, q, i + 1, j + 1);
    } else if i > j {
      RankStrict(log, q, j, i);
      NotUpto(log, i, j);
    }
  }

  lemma OwnPositive(log: Log, i: nat)
    requires ByRule(log) && i < |log| && log[i].node != 0
    ensures At(log[i].clock, log[i].node) > 0
  {
    RuleAt(log, i, log[i].node);
  }

  lemma {:induction false} NotUpto<C>(log: seq<Event<C>>, i: nat, j: nat)
    requires SourcesBefore(log) && j < i && j < |log|
    ensures !Upto(log, i, j)
    decreases j
  {
    var k := Last(log, log[j].node, j);
    if k > 0 { NotUpto(log, i, k - 1); }
    if log[j].src.Some? { NotUpto(log, i, log[j].src.value); }
  }

  /** An event happened before another exactly when the other's clock covers it. */
  lemma Fidge(log: Log, i: nat, j: nat)
    requires ByRule(log) && i < |log| && j < |log| && i != j && log[i].node != 0
    ensures HappenedBefore(log, i, j) <==> At(log[i].clock, log[i].node) <= At(log[j].clock, log[i].node)
  {
    BeforeIsUpto(log, i, j);
    UptoIffEntry(log, i, j);
  }

  // ---------- entries count the causal past ----------

  /** The events of `q` that are `j` or happened before it. */
  ghost function Past(log: Log, q: NodeId, j: nat): set<nat> {
    set i | 0 <= i < |log| && log[i].node == q && (i == j || HappenedBefore(log, i, j))
  }

  function Early(log: Log, q: NodeId, n: nat, t: nat): set<nat>
    requires n <= |log|
  {
    set i | 0 <= i < n && log[i].node == q && Rank(log, q, i + 1) <= t
  }

  lemma {:induction false} CountEarly(log: Log, q: NodeId, n: nat, t: nat)
    requires n <= |log|
    ensures |Early(log, q, n, t)| == if t < Rank(log, q, n) then t else Rank(log, q, n)
    decreases n
  {
    if n == 0 {
      assert Early(log, q, 0, t) == {};
    } else {
      CountEarly(log, q, n - 1, t);
      EarlyStep(log, q, n - 1, t);
      RankStep(log, q, n - 1);
      hide Rank, Early;
    }
  }

  lemma RankStep<C>(log: seq<Event<C>>, q: NodeId, n: nat)
    requires n < |log|
    ensures Rank(log, q, n + 1) == Rank(log, q, n) + if log[n].node == q then 1 else 0
  {
  }

  lemma NotEarly(log: Log, q: NodeId, n: nat, t: nat)
    requires n <= |log|
    ensures n !in Early(log, q, n, t)
  {
  }

  lemma EarlyStep(log: Log, q: NodeId, n: nat, t: nat)
    requires n < |log|
    ensures |Early(log, q, n + 1, t)| == |Early(log, q, n, t)| + if log[n].node == q && Rank(log, q, n + 1) <= t then 1 else 0
  {
    hide Rank;
    var add := log[n].node == q && Rank(log, q, n + 1) <= t;
    forall i ensures i in Early(log, q, n + 1, t) <==> i in Early(log, q, n, t) || (i == n && add) {}
    hide Early;
    assert n !in Early(log, q, n, t) by { NotEarly(log, q, n, t); }
    assert Early(log, q, n + 1, t) == Early(log, q, n, t) + if add then {n} else {};
  }

  /** Every entry of an event's clock is the number of that node's events in its causal past. */
  lemma EntryCountsPast(log: Log, q: NodeId, j: nat)
    requires ByRule(log) && j < |log| && q != 0
    ensures At(log[j].clock, q) == |Past(log, q, j)|
  {
    PastIsEarly(log, q, j);
    CountEarly(log, q, |log|, At(log[j].clock, q));
    EntryBound(log, j, q);
    RankMonotone(log, q, j + 1, |log|);
  }

  lemma PastIsEarly(log: Log, q: NodeId, j: nat)
    requires ByRule(log) && j < |log| && q != 0
    ensures Past(log, q, j) == Early(log, q, |log|, At(log[j].clock, q))
  {
    hide ByRule, At, Upto, HappenedBefore, Rank;
    var t := At(log[j].clock, q);
    forall i: nat | i < |log| && log[i].node == q ensures i == j || HappenedBefore(log, i, j) <==> Rank(log, q, i + 1) <= t {
      EntryBound(log, i, q);
      UptoIffEntry(log, i, j);
      BeforeIsUpto(log, i, j);
      UptoSelf(log, j);
    }
  }

  lemma UptoSelf<C>(log: seq<Event<C>>, j: nat)
    requires SourcesBefore(log) && j < |log|
    ensures Upto(log, j, j)
  {
  }
}
