/** The Lamport-style time of the election: what a send's time says about what came before it. */
module ElectionClock {
  import opened Messages
  import opened Causality
  import opened ElectionRuns
  import E = Election

  function Time(e: Event<Mark>): nat {
    match e.clock
    case Sent(m) => m.time
    case Got(t) => t
    case Died(t) => t
  }

  /** A node counts its time up for a send, and when it declares itself dead. */
  function Cost(e: Event<Mark>): nat {
    if e.clock.Got? then 0 else 1
  }

  /** The increments made in the whole system among the first `n` events. */
  function Increments(log: ELog, n: nat): nat
    requires n <= |log|
    decreases n
  {
    if n == 0 then 0 else Increments(log, n - 1) + Cost(log[n - 1])
  }

  ghost predicate InOrder(log: ELog) {
    forall i: nat, j: nat :: Edge(log, i, j) ==> Time(log[i]) + Cost(log[j]) <= Time(log[j])
  }

  ghost predicate Covered(log: ELog, dlc: seq<nat>) {
    forall i :: 0 <= i < |log| ==> log[i].node < |dlc| && Time(log[i]) <= dlc[log[i].node]
  }

  ghost predicate Counted(log: ELog, dlc: seq<nat>) {
    && (forall i :: 0 <= i < |log| ==> Time(log[i]) <= Increments(log, i + 1))
    && (forall r :: 0 <= r < |dlc| ==> dlc[r] <= Increments(log, |log|))
  }

  ghost predicate ClockOk(log: ELog, dlc: seq<nat>) {
    InOrder(log) && Covered(log, dlc) && Counted(log, dlc)
  }

  lemma {:induction false} IncrementsPrefix(log: ELog, e: Event<Mark>, n: nat)
    requires n <= |log|
    ensures Increments(log + [e], n) == Increments(log, n)
    decreases n
  {
    if n > 0 { IncrementsPrefix(log, e, n - 1); }
  }

  /** A new event of a node: not before the node's time nor its source's, and counted on unless it is a receipt. */
  predicate Timed(log: ELog, dlc: seq<nat>, e: Event<Mark>) {
    && e.node < |dlc| && dlc[e.node] + Cost(e) <= Time(e)
    && (e.src.Some? ==> e.clock.Got? && e.src.value < |log| && Time(log[e.src.value]) <= Time(e))
    && (e.clock.Got? ==> Time(e) <= dlc[e.node] || (e.src.Some? && Time(e) == Time(log[e.src.value])))
    && (!e.clock.Got? ==> Time(e) == dlc[e.node] + 1)
  }

  lemma AppendInOrder(log: ELog, dlc: seq<nat>, e: Event<Mark>)
    requires InOrder(log) && Covered(log, dlc) && Timed(log, dlc, e)
    ensures InOrder(log + [e])
  {
    var more := log + [e];
    forall i: nat, j: nat | Edge(more, i, j) ensures Time(more[i]) + Cost(more[j]) <= Time(more[j]) {
      if j < |log| { assert Edge(log, i, j); }
    }
  }

  lemma AppendCounted(log: ELog, dlc: seq<nat>, e: Event<Mark>)
    requires Counted(log, dlc) && Timed(log, dlc, e)
    ensures Counted(log + [e], dlc[e.node := Time(e)])
  {
    var more := log + [e];
    IncrementsPrefix(log, e, |log|);
    BoundOne(log, dlc, e);
    forall i | 0 <= i < |more| ensures Time(more[i]) <= Increments(more, i + 1) {
      if i < |log| { IncrementsPrefix(log, e, i + 1); }
    }
  }

  /** One more event of a node, at its new time. */
  lemma AppendOne(log: ELog, dlc: seq<nat>, e: Event<Mark>)
    requires ClockOk(log, dlc) && Timed(log, dlc, e)
    ensures ClockOk(log + [e], dlc[e.node := Time(e)])
  {
    AppendInOrder(log, dlc, e);
    AppendCounted(log, dlc, e);
    hide InOrder, Counted;
  }

  lemma {:induction false} IncrementsMonotone(log: ELog, m: nat, n: nat)
    requires m <= n <= |log|
    ensures Increments(log, m) <= Increments(log, n)
    decreases n
  {
    if m < n { IncrementsMonotone(log, m, n - 1); }
  }

  lemma BoundOne(log: ELog, dlc: seq<nat>, e: Event<Mark>)
    requires Counted(log, dlc) && Timed(log, dlc, e)
    ensures Time(e) <= Increments(log, |log|) + Cost(e)
  {
    if e.src.Some? && e.src.value < |log| { IncrementsMonotone(log, e.src.value + 1, |log|); }
  }

  lemma {:induction false} AppendBatch(log: ELog, dlc: seq<nat>, r: nat, ms: seq<EMsg>)
    requires ClockOk(log, dlc) && r < |dlc| && forall i :: 0 <= i < |ms| ==> ms[i].time == dlc[r] + 1 + i
    ensures ClockOk(log + Sends(r, ms), dlc[r := dlc[r] + |ms|])
    decreases |ms|
  {
    hide ClockOk;
    if ms == [] {
      assert log + Sends(r, ms) == log && dlc[r := dlc[r]] == dlc;
    } else {
      var k := |ms| - 1;
      AppendBatch(log, dlc, r, ms[..k]);
      var mid := dlc[r := dlc[r] + k];
      AppendOne(log + Sends(r, ms[..k]), mid, Event(r, None, Sent(ms[k])));
      assert (log + Sends(r, ms[..k])) + [Event(r, None, Sent(ms[k]))] == log + Sends(r, ms);
      assert mid[r := ms[k].time] == dlc[r := dlc[r] + |ms|];
    }
  }

  // ---------- the nodes ----------

  function Dlcs(s: State): seq<nat> {
    seq(|s.nodes|, r requires 0 <= r < |s.nodes| => s.nodes[r].dlc)
  }

  lemma TickClock(ps: Params, s: State, r: nat, rn: nat)
    requires Inv(ps, s) && ClockOk(s.log, Dlcs(s)) && Enabled(ps, s, Tick(r, rn))
    ensures ClockOk(Next(ps, s, Tick(r, rn)).log, Dlcs(Next(ps, s, Tick(r, rn))))
  {
    assert E.NodeOk(ps, r, s.nodes[r]);
    E.TickOk(ps, r, s.nodes[r], rn);
    var (n', ms) := E.OnTick(ps, r, s.nodes[r], rn);
    hide ClockOk, Inv, E.OnTick;
    AppendBatch(s.log, Dlcs(s), r, ms);
    assert Dlcs(Next(ps, s, Tick(r, rn))) == Dlcs(s)[r := n'.dlc];
  }

  lemma DeliverClock(ps: Params, s: State, i: nat, die: bool)
    requires Inv(ps, s) && ClockOk(s.log, Dlcs(s)) && Enabled(ps, s, Deliver(i, die))
    ensures ClockOk(Next(ps, s, Deliver(i, die)).log, Dlcs(Next(ps, s, Deliver(i, die))))
  {
    var m := s.log[i].clock.m;
    var r, n := m.dst, s.nodes[m.dst];
    assert EventOk(ps, s.log, i) && E.NodeOk(ps, r, n);
    E.MessageOk(ps, r, n, m, die);
    var (n', ms) := E.OnMessage(ps, r, n, m, die);
    DeathCost(ps, r, n, m, die);
    var t := E.Max(m.time, n.dlc);
    var log2, dlc2 := s.log + Receipt(i, m, n, n'), Dlcs(s)[r := t + if n'.dead then 1 else 0];
    hide ClockOk, Inv, E.OnMessage, EventOk, E.NodeOk;
    ReceiptClock(s.log, Dlcs(s), i, n, n');
    AppendBatch(log2, dlc2, r, ms);
    assert Dlcs(Next(ps, s, Deliver(i, die))) == dlc2[r := dlc2[r] + |ms|];
  }

  lemma ReceiptClock(log: ELog, dlc: seq<nat>, i: nat, n: Node, n': Node)
    requires ClockOk(log, dlc) && i < |log| && log[i].clock.Sent?
    requires var m := log[i].clock.m; m.dst < |dlc| && n.dlc == dlc[m.dst] && (n'.dead ==> n'.dlc == E.Max(m.time, n.dlc) + 1)
    ensures var m := log[i].clock.m;
      ClockOk(log + Receipt(i, m, n, n'), dlc[m.dst := E.Max(m.time, n.dlc) + if n'.dead then 1 else 0])
  {
    hide ClockOk;
    var m := log[i].clock.m;
    var r, t := m.dst, E.Max(m.time, n.dlc);
    AppendOne(log, dlc, Event(r, Some(i), Got(t)));
    var log1, dlc1 := log + [Event(r, Some(i), Got(t))], dlc[r := t];
    if n'.dead {
      AppendOne(log1, dlc1, Event(r, None, Died(t + 1)));
      assert log1 + [Event(r, None, Died(t + 1))] == log + Receipt(i, m, n, n') && dlc1[r := t + 1] == dlc[r := t + 1];
    } else {
      assert log1 == log + Receipt(i, m, n, n');
    }
  }

  /** A death is the only increment without a send. */
  lemma DeathCost(ps: Params, r: nat, n: Node, m: EMsg, die: bool)
    requires ps.Ok() && !n.dead
    ensures var (n', ms) := E.OnMessage(ps, r, n, m, die);
      (n'.dead <==> m.kind == E.Aya && die) && (n'.dead ==> ms == [] && n'.dlc == E.Max(m.time, n.dlc) + 1)
  {
  }

  lemma StepClock(ps: Params, s: State, l: Step)
    requires Inv(ps, s) && ClockOk(s.log, Dlcs(s)) && Enabled(ps, s, l)
    ensures ClockOk(Next(ps, s, l).log, Dlcs(Next(ps, s, l)))
  {
    hide ClockOk, Inv, E.OnMessage, E.OnTick;
    match l {
      case Deliver(i, die) => DeliverClock(ps, s, i, die);
      case Lose(i) => assert Dlcs(Next(ps, s, l)) == Dlcs(s);
      case Tick(r, rn) => TickClock(ps, s, r, rn);
      case Revive(r) => assert Dlcs(Next(ps, s, l)) == Dlcs(s);
    }
  }

  lemma {:induction false} RunClock(ps: Params, s: State, ls: seq<Step>)
    requires Inv(ps, s) && ClockOk(s.log, Dlcs(s)) && ValidRun(ps, s, ls)
    ensures ClockOk(Exec(ps, s, ls).log, Dlcs(Exec(ps, s, ls)))
    decreases |ls|
  {
    hide ClockOk, Inv, Enabled, Next;
    if ls != [] {
      StepClock(ps, s, ls[0]);
      StepKeeps(ps, s, ls[0]);
      RunClock(ps, Next(ps, s, ls[0]), ls[1..]);
    }
  }

  lemma InitClock(ps: Params)
    requires ps.Ok()
    ensures ClockOk(Init(ps).log, Dlcs(Init(ps)))
  {
    var zeros := seq(ps.size, r => 0);
    var ms := E.Calls(ps, 1, E.Boot());
    E.CallsBatch(ps, 1, E.Boot());
    assert ClockOk([], zeros) && zeros[1] == 0;
    AppendBatch([], zeros, 1, ms);
    assert [] + Sends(1, ms) == Sends(1, ms);
    assert Dlcs(Init(ps)) == zeros[1 := |ms|];
  }

  lemma ReachableClock(ps: Params, s: State)
    requires Reachable(ps, s)
    ensures Inv(ps, s) && ClockOk(s.log, Dlcs(s))
  {
    hide ClockOk, Inv;
    var ls :| ValidRun(ps, Init(ps), ls) && Exec(ps, Init(ps), ls) == s;
    InitOk(ps);
    InitClock(ps);
    RunKeeps(ps, Init(ps), ls);
    RunClock(ps, Init(ps), ls);
  }

  // ---------- the theorems ----------

  /** The sends (and deaths) on a causal chain after its first event. */
  function ChainCost(log: ELog, p: seq<nat>): nat
    requires forall k :: 0 <= k < |p| ==> p[k] < |log|
    decreases |p|
  {
    if |p| <= 1 then 0 else ChainCost(log, p[..|p| - 1]) + Cost(log[p[|p| - 1]])
  }

  lemma {:induction false} ChainInOrder(log: ELog, p: seq<nat>)
    requires InOrder(log) && SourcesBefore(log) && Path(log, p)
    ensures (forall k :: 0 <= k < |p| ==> p[k] < |log|) && Time(log[p[0]]) + ChainCost(log, p) <= Time(log[p[|p| - 1]])
    decreases |p|
  {
    if |p| > 1 {
      var q := p[..|p| - 1];
      assert Edge(log, p[|p| - 2], p[|p| - 1]);
      forall k | 0 <= k < |q| - 1 ensures Edge(log, q[k], q[k + 1]) { assert Edge(log, p[k], p[k + 1]); }
      ChainInOrder(log, q);
      assert forall k :: 0 <= k < |p| - 1 ==> p[k] == q[k];
    }
  }

  /** In every run, along every causal chain the time rises by at least the number of sends on it. */
  lemma ChainsRaiseTime(ps: Params, s: State, p: seq<nat>)
    requires Reachable(ps, s) && Path(s.log, p)
    ensures (forall k :: 0 <= k < |p| ==> p[k] < |s.log|) && Time(s.log[p[0]]) + ChainCost(s.log, p) <= Time(s.log[p[|p| - 1]])
  {
    ReachableClock(ps, s);
    LogSources(ps, s.log);
    ChainInOrder(s.log, p);
  }

  lemma {:induction false} LastCosts(log: ELog, p: seq<nat>)
    requires (forall k :: 0 <= k < |p| ==> p[k] < |log|) && |p| > 1 && log[p[|p| - 1]].clock.Sent?
    ensures ChainCost(log, p) >= 1
  {
  }

  /** A send that happened before another has the smaller time. */
  lemma LamportCondition(ps: Params, s: State, i: nat, j: nat)
    requires Reachable(ps, s) && HappenedBefore(s.log, i, j) && i < |s.log| && j < |s.log|
    ensures s.log[j].clock.Sent? ==> Time(s.log[i]) < Time(s.log[j])
    ensures Time(s.log[i]) <= Time(s.log[j])
  {
    var p :| Path(s.log, p) && |p| > 1 && p[0] == i && p[|p| - 1] == j;
    ChainsRaiseTime(ps, s, p);
    if s.log[j].clock.Sent? { LastCosts(s.log, p); }
  }

  /** No time, of a node or of an event, exceeds the increments made so far in the whole run. */
  lemma TimeIsBounded(ps: Params, s: State, i: nat, r: nat)
    requires Reachable(ps, s) && i < |s.log| && r < |s.nodes|
    ensures Time(s.log[i]) <= Increments(s.log, i + 1) && s.nodes[r].dlc <= Increments(s.log, |s.log|)
  {
    ReachableClock(ps, s);
    assert Dlcs(s)[r] == s.nodes[r].dlc;
  }

  /** No step takes a node's time back, and at any point a node's time covers all its events. */
  lemma TimeNeverFalls(ps: Params, s: State, l: Step, r: nat)
    requires Reachable(ps, s) && Enabled(ps, s, l) && r < |s.nodes|
    ensures |Next(ps, s, l).nodes| == |s.nodes| && s.nodes[r].dlc <= Next(ps, s, l).nodes[r].dlc
    ensures forall i :: 0 <= i < |s.log| && s.log[i].node == r ==> Time(s.log[i]) <= s.nodes[r].dlc
  {
    ReachableClock(ps, s);
    assert Dlcs(s)[r] == s.nodes[r].dlc;
    match l {
      case Deliver(i, die) =>
        var m := s.log[i].clock.m;
        assert EventOk(ps, s.log, i) && E.NodeOk(ps, m.dst, s.nodes[m.dst]);
        E.MessageOk(ps, m.dst, s.nodes[m.dst], m, die);
      case Lose(i) =>
      case Tick(q, rn) =>
        assert E.NodeOk(ps, q, s.nodes[q]);
        E.TickOk(ps, q, s.nodes[q], rn);
      case Revive(q) =>
    }
  }
}
