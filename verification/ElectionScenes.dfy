/** A run of the election in which nobody fails, and a node takes its coordinator for dead. */
module ElectionScenes {
  import opened Causality
  import opened ElectionRuns
  import opened Messages
  import E = Election

  lemma {:induction false} ExecAppend(ps: Params, s: State, ls: seq<Step>, l: Step)
    requires ValidRun(ps, s, ls) && Enabled(ps, Exec(ps, s, ls), l)
    ensures ValidRun(ps, s, ls + [l]) && Exec(ps, s, ls + [l]) == Next(ps, Exec(ps, s, ls), l)
    decreases |ls|
  {
    if ls == [] {
      assert (ls + [l])[1..] == [];
    } else {
      assert (ls + [l])[1..] == ls[1..] + [l];
      ExecAppend(ps, Next(ps, s, ls[0]), ls[1..], l);
    }
  }

  lemma Do(ps: Params, s: State, l: Step) returns (s': State)
    requires Reachable(ps, s) && Enabled(ps, s, l)
    ensures s' == Next(ps, s, l) && Reachable(ps, s')
  {
    var ls :| ValidRun(ps, Init(ps), ls) && Exec(ps, Init(ps), ls) == s;
    ExecAppend(ps, Init(ps), ls, l);
    s' := Next(ps, s, l);
  }

  lemma Start(ps: Params) returns (s: State)
    requires ps.Ok()
    ensures Reachable(ps, s) && s == Init(ps)
  {
    s := Init(ps);
    assert ValidRun(ps, s, []) && Exec(ps, s, []) == s;
  }

  /** A message of the batch just posted is in flight. */
  lemma PostedAt(s: State, r: nat, ms: seq<EMsg>, k: nat)
    requires k < |ms|
    ensures var s' := Posted(s, r, ms); Flying(s', |s.log| + k) && s'.log[|s.log| + k].clock.m == ms[k]
  {
    assert Sends(r, ms)[k] == Event(r, None, Sent(ms[k]));
  }

  /** Nobody has failed; `r` knows no coordinator yet and has had no tick. */
  predicate Untold(ps: Params, s: State, r: nat) {
    ps.Ok() && IsRank(ps, s, r) && (var n := s.nodes[r]; n.tick == n.ayaTick == n.ayaRate == 0 && !n.dead)
  }

  /** ELECT of rank 1 reaches the highest rank, which answers and announces itself. */
  lemma TopAnnounces(ps: Params, r: nat) returns (s: State, i: nat)
    requires ps.Ok() && 1 <= r < ps.Top()
    ensures Reachable(ps, s) && Untold(ps, s, r) && !s.nodes[ps.Top()].dead
    ensures Flying(s, i) && s.log[i].clock.m.kind == E.Coord && s.log[i].clock.m.src == ps.Top() && s.log[i].clock.m.dst == r
  {
    hide Reachable;
    var top := ps.Top();
    s := Start(ps);
    var s0, calls := s, E.Calls(ps, 1, E.Boot());
    E.FanAt(E.Elect, 1, 2, ps.size, 0);
    var k := top - 2;
    PostedAt(State(Nodes(ps), [], {}), 1, calls, k);
    assert s0.log[k].clock.m == E.Msg(E.Elect, 1, top, k + 1);
    s := Do(ps, s, Deliver(k, false));
    var m, n := s0.log[k].clock.m, s0.nodes[top];
    assert n == E.Boot();
    var (n', ms) := E.OnMessage(ps, top, n, m, false);
    TopReplies(ps, n, m, r);
    var s1 := State(s0.nodes[top := n'], s0.log + Receipt(k, m, n, n'), s0.flying - {k});
    PostedAt(s1, top, ms, r);
    i := |s1.log| + r;
  }

  lemma TopReplies(ps: Params, n: Node, m: EMsg, r: nat)
    requires ps.Ok() && 1 <= r < ps.Top() && n == E.Boot() && m.kind == E.Elect
    ensures var (n', ms) := E.OnMessage(ps, ps.Top(), n, m, false);
      !n'.dead && r < |ms| && ms[r].kind == E.Coord && ms[r].src == ps.Top() && ms[r].dst == r
  {
    var top := ps.Top();
    var n2 := E.Heard(n, m).(dlc := E.Max(m.time, n.dlc) + 1, lastReceived := E.Elect, lastSent := E.Nothing);
    E.FanAt(E.Coord, top, 1, top, n2.dlc);
    var (n', ms) := E.OnMessage(ps, top, n, m, false);
    assert E.Calls(ps, top, n2) == [];
    assert ms == [E.Msg(E.Answer, top, m.src, n2.dlc)] + E.Proclaims(top, n2);
  }

  /** `r` follows a living coordinator and has had `k` ticks since it heard of it, asking at each. */
  predicate Following(ps: Params, s: State, r: nat, k: nat) {
    && ps.Ok() && IsRank(ps, s, r) && r < ps.Top() && !s.nodes[ps.Top()].dead
    && var n := s.nodes[r]; n.coord == ps.Top() && n.tick == k && n.ayaRate == 0 && !n.dead
  }

  lemma {:induction false} Ticks(ps: Params, s0: State, r: nat, k: nat) returns (s: State)
    requires Reachable(ps, s0) && Following(ps, s0, r, k) && k < ps.timeout
    ensures Reachable(ps, s) && Following(ps, s, r, ps.timeout - 1)
    decreases ps.timeout - k
  {
    if k == ps.timeout - 1 {
      s := s0;
    } else {
      assert (k + 1) % ps.timeout != 0;
      s := Do(ps, s0, Tick(r, 0));
      hide Reachable;
      s := Ticks(ps, s, r, k + 1);
    }
  }

  lemma Told(ps: Params, s0: State, r: nat, i: nat) returns (s: State)
    requires Reachable(ps, s0) && Untold(ps, s0, r) && r < ps.Top() && !s0.nodes[ps.Top()].dead && Flying(s0, i)
    requires s0.log[i].clock.m.kind == E.Coord && s0.log[i].clock.m.src == ps.Top() && s0.log[i].clock.m.dst == r
    ensures Reachable(ps, s) && Following(ps, s, r, 0)
  {
    s := Do(ps, s0, Deliver(i, false));
    hide Reachable;
  }

  /** With three nodes or more every node below the highest rank comes, in some run, to ask its coordinator and dismiss it in the
      same turn, although the coordinator is alive and nothing has failed. */
  lemma DismissesTheLiving(ps: Params, r: nat) returns (s: State, s': State)
    requires ps.Ok() && 1 <= r < ps.Top()
    ensures Reachable(ps, s) && Reachable(ps, s') && Enabled(ps, s, Tick(r, 0)) && s' == Next(ps, s, Tick(r, 0))
    ensures E.AsksAtTimeout(ps, s.nodes[r]) && s.nodes[r].coord == ps.Top()
    ensures IsRank(ps, s', r) && !s'.nodes[ps.Top()].dead && s'.nodes[r].coord == 0 && s'.nodes[r].lastSent == E.Elect
  {
    hide Reachable;
    var i: nat;
    s, i := TopAnnounces(ps, r);
    s := Told(ps, s, r, i);
    s := Ticks(ps, s, r, 0);
    s' := Do(ps, s, Tick(r, 0));
    E.AskedAndDismissed(ps, r, s.nodes[r], 0);
  }
}
