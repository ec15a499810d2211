/** Without clock ticks the election falls silent: every message weighs more than all it can lead to. */
module ElectionQuiescence {
  import opened Messages
  import opened Causality
  import opened ElectionRuns
  import E = Election

  function Pow2(n: nat): nat {
    if n == 0 then 1 else 2 * Pow2(n - 1)
  }

  /** An ELECT to rank `i` when `n` is the highest rank: itself, the ANSWER, and what it makes `i` send upwards; the
      highest rank sends COORD to all others instead. */
  function ElectWeight(n: nat, i: nat): nat
    decreases n - i, 0
  {
    if i >= n then n + 1 else 2 + ElectsAbove(n, i + 1)
  }

  function ElectsAbove(n: nat, i: nat): nat
    decreases n - i, 1
  {
    if i > n then 0 else ElectWeight(n, i) + (if i == n then 0 else ElectsAbove(n, i + 1))
  }

  function Weight(ps: Params, m: EMsg): nat
    requires ps.Ok()
  {
    if m.kind == E.Elect then ElectWeight(ps.Top(), m.dst) else if m.kind == E.Aya then 2 else 1
  }

  function TotalWeight(ps: Params, ms: seq<EMsg>): nat
    requires ps.Ok()
    decreases |ms|
  {
    if ms == [] then 0 else TotalWeight(ps, ms[..|ms| - 1]) + Weight(ps, ms[|ms| - 1])
  }

  /** The weight of what is in flight among the first `n` positions of the log. */
  function Load(ps: Params, log: ELog, flying: set<nat>, n: nat): nat
    requires ps.Ok() && n <= |log|
    decreases n
  {
    if n == 0 then 0
    else Load(ps, log, flying, n - 1) + if n - 1 in flying && log[n - 1].clock.Sent? then Weight(ps, log[n - 1].clock.m) else 0
  }

  function InFlight(ps: Params, s: State): nat
    requires ps.Ok()
  {
    Load(ps, s.log, s.flying, |s.log|)
  }

  // ---------- the weight of a batch ----------

  lemma {:induction false} TotalAppend(ps: Params, a: seq<EMsg>, b: seq<EMsg>)
    requires ps.Ok()
    ensures TotalWeight(ps, a + b) == TotalWeight(ps, a) + TotalWeight(ps, b)
    decreases |b|
  {
    if b == [] {
      assert a + b == a;
    } else {
      assert (a + b)[..|a + b| - 1] == a + b[..|b| - 1];
      TotalAppend(ps, a, b[..|b| - 1]);
    }
  }

  lemma TotalOne(ps: Params, m: EMsg)
    requires ps.Ok()
    ensures TotalWeight(ps, [m]) == Weight(ps, m)
  {
    assert [m][..0] == [];
    assert TotalWeight(ps, []) == 0;
  }

  lemma {:induction false} ElectsWeigh(ps: Params, r: nat, lo: nat, t: nat)
    requires ps.Ok()
    ensures TotalWeight(ps, E.Fan(E.Elect, r, lo, ps.size, t)) == ElectsAbove(ps.Top(), lo)
    decreases ps.size - lo
  {
    if lo < ps.size {
      var m := E.Msg(E.Elect, r, lo, t + 1);
      ElectsWeigh(ps, r, lo + 1, t + 1);
      TotalAppend(ps, [m], E.Fan(E.Elect, r, lo + 1, ps.size, t + 1));
      TotalOne(ps, m);
    }
  }

  lemma {:induction false} CoordsWeigh(ps: Params, r: nat, lo: nat, t: nat)
    requires ps.Ok() && lo <= r
    ensures TotalWeight(ps, E.Fan(E.Coord, r, lo, r, t)) == r - lo
    decreases r - lo
  {
    if lo < r {
      var m := E.Msg(E.Coord, r, lo, t + 1);
      CoordsWeigh(ps, r, lo + 1, t + 1);
      TotalAppend(ps, [m], E.Fan(E.Coord, r, lo + 1, r, t + 1));
      TotalOne(ps, m);
    }
  }

  /** Whatever a message makes its receiver send weighs less than the message. */
  lemma ReplyWeighsLess(ps: Params, r: nat, n: Node, m: EMsg, die: bool)
    requires ps.Ok() && 1 <= r < ps.size && m.dst == r && E.NodeOk(ps, r, n)
    ensures TotalWeight(ps, E.OnMessage(ps, r, n, m, die).1) < Weight(ps, m)
  {
    if m.kind == E.Elect {
      ElectReplyWeighs(ps, r, n, m);
    } else if m.kind == E.Aya && !die {
      TotalOne(ps, E.OnMessage(ps, r, n, m, die).1[0]);
    }
  }

  lemma ElectReplyWeighs(ps: Params, r: nat, n: Node, m: EMsg)
    requires ps.Ok() && 1 <= r < ps.size && m.dst == r && m.kind == E.Elect
    ensures TotalWeight(ps, E.OnElect(ps, r, n, m).1) < Weight(ps, m)
  {
    var n1 := E.Heard(n, m).(dlc := E.Max(m.time, n.dlc) + 1, lastReceived := E.Elect);
    var n2 := n1.(lastSent := E.Nothing);
    var n3 := E.CallElection(ps, r, n2);
    var answer := [E.Msg(E.Answer, r, m.src, n1.dlc)];
    TotalOne(ps, answer[0]);
    ElectsWeigh(ps, r, r + 1, n2.dlc);
    CoordsWeigh(ps, r, 1, n3.dlc);
    TotalAppend(ps, answer, E.Calls(ps, r, n2));
    TotalAppend(ps, answer + E.Calls(ps, r, n2), E.Proclaims(r, n3));
  }

  // ---------- the load of the network ----------

  lemma {:induction false} LoadSame(ps: Params, log: ELog, log': ELog, f: set<nat>, g: set<nat>, n: nat)
    requires ps.Ok() && n <= |log| && n <= |log'| && (forall i :: 0 <= i < n ==> log[i] == log'[i] && (i in f <==> i in g))
    ensures Load(ps, log, f, n) == Load(ps, log', g, n)
    decreases n
  {
    if n > 0 { LoadSame(ps, log, log', f, g, n - 1); }
  }

  lemma {:induction false} LoadLess(ps: Params, log: ELog, f: set<nat>, i: nat, n: nat)
    requires ps.Ok() && n <= |log| && i in f && i < n && log[i].clock.Sent?
    ensures Load(ps, log, f - {i}, n) + Weight(ps, log[i].clock.m) == Load(ps, log, f, n)
    decreases n
  {
    if i == n - 1 {
      LoadSame(ps, log, log, f - {i}, f, n - 1);
    } else {
      LoadLess(ps, log, f, i, n - 1);
    }
  }

  /** Events that are not in flight add nothing. */
  lemma {:induction false} LoadIdle(ps: Params, log: ELog, more: ELog, f: set<nat>)
    requires ps.Ok() && forall i :: i in f ==> i < |log|
    ensures Load(ps, log + more, f, |log| + |more|) == Load(ps, log, f, |log|)
    decreases |more|
  {
    if more == [] {
      assert log + more == log;
    } else {
      var k := |more| - 1;
      LoadIdle(ps, log, more[..k], f);
      LoadSame(ps, log + more[..k], log + more, f, f, |log| + k);
    }
  }

  lemma {:induction false} LoadSends(ps: Params, log: ELog, f: set<nat>, r: nat, ms: seq<EMsg>)
    requires ps.Ok() && forall i :: i in f ==> i < |log|
    ensures Load(ps, log + Sends(r, ms), f + Positions(|log|, |ms|), |log| + |ms|) == Load(ps, log, f, |log|) + TotalWeight(ps, ms)
    decreases |ms|
  {
    if ms == [] {
      assert log + Sends(r, ms) == log && f + Positions(|log|, 0) == f;
    } else {
      var k := |ms| - 1;
      var all := log + Sends(r, ms);
      LoadSends(ps, log, f, r, ms[..k]);
      LoadSame(ps, log + Sends(r, ms[..k]), all, f + Positions(|log|, k), f + Positions(|log|, k + 1), |log| + k);
      assert all[|log| + k] == Event(r, None, Sent(ms[k]));
    }
  }

  /** A delivery, or a loss, takes away more weight than it brings. */
  lemma StepLightens(ps: Params, s: State, l: Step)
    requires Inv(ps, s) && Enabled(ps, s, l) && (l.Deliver? || l.Lose?)
    ensures InFlight(ps, Next(ps, s, l)) < InFlight(ps, s)
  {
    var i := l.i;
    var m := s.log[i].clock.m;
    hide E.OnMessage, Inv, Weight;
    InvParts(ps, s);
    LoadLess(ps, s.log, s.flying, i, |s.log|);
    if l.Deliver? {
      var n := s.nodes[m.dst];
      var (n', ms) := E.OnMessage(ps, m.dst, n, m, l.die);
      ReplyWeighsLess(ps, m.dst, n, m, l.die);
      var log1 := s.log + Receipt(i, m, n, n');
      assert forall j :: j in s.flying ==> j < |s.log| by {
        forall j | j in s.flying ensures j < |s.log| { assert Flying(s, j); }
      }
      LoadIdle(ps, s.log, Receipt(i, m, n, n'), s.flying - {i});
      LoadSends(ps, log1, s.flying - {i}, m.dst, ms);
    } else {
      PositiveWeight(ps, m);
    }
  }

  lemma PositiveWeight(ps: Params, m: EMsg)
    requires ps.Ok()
    ensures Weight(ps, m) > 0
  {
  }

  // ---------- runs without ticks ----------

  predicate NoTick(ls: seq<Step>) {
    forall l :: l in ls ==> !l.Tick?
  }

  function Deliveries(ls: seq<Step>): nat
    decreases |ls|
  {
    if ls == [] then 0 else (if ls[0].Deliver? || ls[0].Lose? then 1 else 0) + Deliveries(ls[1..])
  }

  /** In a run without ticks the deliveries, losses and receipts by the dead together are at most the weight in flight. */
  lemma {:induction false} Quiescence(ps: Params, s: State, ls: seq<Step>)
    requires Inv(ps, s) && ValidRun(ps, s, ls) && NoTick(ls)
    ensures Deliveries(ls) + InFlight(ps, Exec(ps, s, ls)) <= InFlight(ps, s)
    decreases |ls|
  {
    hide Inv, Enabled, Next, InFlight;
    if ls != [] {
      StepKeeps(ps, s, ls[0]);
      assert !ls[0].Tick?;
      if ls[0].Deliver? || ls[0].Lose? { StepLightens(ps, s, ls[0]); } else { ReviveSame(ps, s, ls[0].r); }
      Quiescence(ps, Next(ps, s, ls[0]), ls[1..]);
    }
  }

  lemma ReviveSame(ps: Params, s: State, r: nat)
    requires Enabled(ps, s, Revive(r))
    ensures InFlight(ps, Next(ps, s, Revive(r))) == InFlight(ps, s)
  {
  }

  // ---------- closed forms ----------

  lemma {:induction false} ElectClosed(n: nat, i: nat)
    requires 1 <= i < n
    ensures ElectWeight(n, i) == (n + 3) * Pow2(n - 1 - i) && ElectsAbove(n, i) == 2 * ElectWeight(n, i) - 2
    decreases n - i
  {
    if i + 1 < n {
      ElectClosed(n, i + 1);
      DoublePower(n + 3, n - 1 - i);
    } else {
      assert ElectsAbove(n, n) == n + 1;
    }
  }

  lemma DoublePower(c: nat, k: nat)
    requires k > 0
    ensures c * Pow2(k) == 2 * (c * Pow2(k - 1))
  {
  }

  lemma {:induction false} PowMonotone(a: nat, b: nat)
    requires a <= b
    ensures 1 <= Pow2(a) <= Pow2(b)
    decreases b
  {
    if a < b { PowMonotone(a, b - 1); } else if b > 0 { PowMonotone(a - 1, b - 1); }
  }

  /** The weight of a message that some node may have sent. */
  lemma WeightBound(ps: Params, m: EMsg)
    requires ps.Ok() && ps.Top() >= 2 && E.Directed(ps, m) && m.src >= 1
    ensures Weight(ps, m) <= (ps.Top() + 3) * Pow2(ps.Top() - 2)
  {
    var n := ps.Top();
    PowMonotone(0, n - 2);
    Scale(n + 3, 1, Pow2(n - 2));
    if m.kind == E.Elect && m.dst < n {
      ElectClosed(n, m.dst);
      PowMonotone(n - 1 - m.dst, n - 2);
      Scale(n + 3, Pow2(n - 1 - m.dst), Pow2(n - 2));
    }
  }

  lemma Scale(c: nat, a: nat, b: nat)
    requires a <= b
    ensures c * a <= c * b
  {
  }

  lemma {:induction false} LoadBound(ps: Params, log: ELog, f: set<nat>, n: nat)
    requires ps.Ok() && ps.Top() >= 2 && LogOk(ps, log) && n <= |log|
    ensures Load(ps, log, f, n) <= Times(|UpTo(f, n)|, (ps.Top() + 3) * Pow2(ps.Top() - 2))
    decreases n
  {
    hide Times, Pow2, Weight, LogOk;
    var c := (ps.Top() + 3) * Pow2(ps.Top() - 2);
    if n == 0 {
      TimesStep(|UpTo(f, 0)|, c);
    } else {
      LoadBound(ps, log, f, n - 1);
      UpToStep(f, n - 1);
      TimesStep(|UpTo(f, n - 1)|, c);
      if log[n - 1].clock.Sent? { EventBound(ps, log, n - 1); }
    }
  }

  function UpTo(f: set<nat>, n: nat): set<nat> {
    set i | i in f && i < n
  }

  lemma UpToStep(f: set<nat>, n: nat)
    ensures |UpTo(f, n + 1)| == |UpTo(f, n)| + if n in f then 1 else 0
  {
    assert UpTo(f, n + 1) == UpTo(f, n) + if n in f then {n} else {};
  }

  function Times(k: nat, c: nat): nat {
    k * c
  }

  lemma TimesStep(k: nat, c: nat)
    ensures Times(k + 1, c) == Times(k, c) + c
  {
  }

  lemma EventBound(ps: Params, log: ELog, i: nat)
    requires ps.Ok() && ps.Top() >= 2 && LogOk(ps, log) && i < |log| && log[i].clock.Sent?
    ensures Weight(ps, log[i].clock.m) <= (ps.Top() + 3) * Pow2(ps.Top() - 2)
  {
    assert EventOk(ps, log, i);
    WeightBound(ps, log[i].clock.m);
  }

  /** From any reachable state, without ticks: at most (n + 3) * 2^(n - 2) deliveries for each message in flight. */
  lemma {:induction false} QuiescenceBound(ps: Params, s: State, ls: seq<Step>)
    requires Reachable(ps, s) && ps.Top() >= 2 && ValidRun(ps, s, ls) && NoTick(ls)
    ensures Deliveries(ls) <= |s.flying| * ((ps.Top() + 3) * Pow2(ps.Top() - 2))
  {
    ReachableInv(ps, s);
    Quiescence(ps, s, ls);
    LoadBound(ps, s.log, s.flying, |s.log|);
    assert UpTo(s.flying, |s.log|) == s.flying by {
      forall i | i in s.flying ensures i < |s.log| { assert Flying(s, i); }
    }
  }

  /** From the start, where rank 1 has called the first election: at most (n + 3) * 2^(n - 2) - 2 deliveries. */
  lemma StartQuiescence(ps: Params, ls: seq<Step>)
    requires ps.Ok() && ps.Top() >= 2 && ValidRun(ps, Init(ps), ls) && NoTick(ls)
    ensures Deliveries(ls) <= (ps.Top() + 3) * Pow2(ps.Top() - 2) - 2
  {
    hide Inv, InFlight, ElectWeight, Pow2;
    InitOk(ps);
    InitLoad(ps);
    Quiescence(ps, Init(ps), ls);
    ElectClosed(ps.Top(), 1);
  }

  lemma InitFlight(ps: Params, ms: seq<EMsg>)
    requires ps.Ok() && ms == E.Calls(ps, 1, E.Boot())
    ensures Init(ps).log == [] + Sends(1, ms) && Init(ps).flying == {} + Positions(0, |ms|)
  {
    hide E.Fan, Positions;
  }

  /** What rank 1 sends at the start weighs as much as an ELECT to it would, less two. */
  lemma InitLoad(ps: Params)
    requires ps.Ok() && ps.Top() >= 2
    ensures InFlight(ps, Init(ps)) == ElectWeight(ps.Top(), 1) - 2
  {
    var ms := E.Calls(ps, 1, E.Boot());
    assert ElectWeight(ps.Top(), 1) == 2 + ElectsAbove(ps.Top(), 2);
    assert Load(ps, [], {}, 0) == 0;
    hide Weight, Load, TotalWeight, ElectsAbove, ElectWeight, E.Fan, Positions, Init;
    LoadSends(ps, [], {}, 1, ms);
    ElectsWeigh(ps, 1, 2, 0);
    InitFlight(ps, ms);
  }
}
