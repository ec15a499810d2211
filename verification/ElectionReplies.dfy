/** Who follows whom, and who answers whom, over whole runs of the election. */
module ElectionReplies {
  import opened Causality
  import opened ElectionRuns
  import opened Messages
  import opened ElectionReactions
  import E = Election
  import N = ElectionNode

  // ---------- steps and turns ----------

  /** Every step of a run but a loss is a turn of one node's receive loop, on the input the step stands for. */
  lemma StepsAreTurns(ps: Params, s: State, l: Step)
    requires Inv(ps, s) && Enabled(ps, s, l) && !l.Lose?
    ensures var r := if l.Deliver? then s.log[l.i].clock.m.dst else l.r;
      var x := if l.Deliver? then N.Receive(s.log[l.i].clock.m, l.die) else if l.Tick? then N.Clock(l.rn) else N.TimeUp;
      && IsRank(ps, s, r) && Next(ps, s, l).nodes == s.nodes[r := N.OnInput(ps, r, s.nodes[r], x).0]
      && |Next(ps, s, l).log| >= |N.OnInput(ps, r, s.nodes[r], x).1|
      && Next(ps, s, l).log[|Next(ps, s, l).log| - |N.OnInput(ps, r, s.nodes[r], x).1|..] == Sends(r, N.OnInput(ps, r, s.nodes[r], x).1)
  {
    hide E.OnMessage, E.OnTick, Inv, Receipt;
  }

  // ---------- the coordinator ----------

  predicate DeliversCoord(s: State, l: Step, r: nat) {
    l.Deliver? && l.i < |s.log| && s.log[l.i].clock.Sent? && s.log[l.i].clock.m.kind == E.Coord && s.log[l.i].clock.m.dst == r
  }

  /** The step is a timeout on which `r` calls an election or announces itself. */
  predicate Forgets(ps: Params, s: State, l: Step, r: nat)
    requires ps.Ok()
  {
    l.Tick? && l.r == r && r < |s.nodes| &&
    (Calling(ps, s.nodes[r]) || Claiming(ps, s.nodes[r]))
  }

  /** The sender of the last COORD `r` has processed in the run since it last forgot its coordinator; `before` if there is neither,
      and 0 if it forgot it last. */
  ghost function Follows(ps: Params, s: State, ls: seq<Step>, r: nat, before: nat): nat
    requires ps.Ok() && ValidRun(ps, s, ls)
    decreases |ls|
  {
    if ls == [] then before
    else
      var now := if DeliversCoord(s, ls[0], r) then s.log[ls[0].i].node else if Forgets(ps, s, ls[0], r) then 0 else before;
      Follows(ps, Next(ps, s, ls[0]), ls[1..], r, now)
  }

  /** Delivering a COORD makes its sender the receiver's coordinator, whoever that was before. */
  lemma CoordInstalls(ps: Params, s: State, i: nat, die: bool)
    requires Reachable(ps, s) && Enabled(ps, s, Deliver(i, die)) && s.log[i].clock.m.kind == E.Coord
    ensures var s' := Next(ps, s, Deliver(i, die)); var r := s.log[i].clock.m.dst;
      |s'.nodes| == |s.nodes| && r < |s'.nodes| && s'.nodes[r].coord == s.log[i].node
  {
    ReachableInv(ps, s);
    assert EventOk(ps, s.log, i);
  }

  lemma CoordStep(ps: Params, s: State, l: Step, r: nat)
    requires Inv(ps, s) && Enabled(ps, s, l) && 1 <= r < ps.size
    ensures var s' := Next(ps, s, l);
      |s'.nodes| == |s.nodes| == ps.size &&
      s'.nodes[r].coord ==
        if DeliversCoord(s, l, r) then s.log[l.i].node else if Forgets(ps, s, l, r) then 0 else s.nodes[r].coord
  {
    assert E.NodeOk(ps, r, s.nodes[r]);
    match l
    case Deliver(i, die) =>
      var m := s.log[i].clock.m;
      assert EventOk(ps, s.log, i) && E.NodeOk(ps, m.dst, s.nodes[m.dst]);
      hide E.OnMessage;
      MessageLeaves(ps, m.dst, s.nodes[m.dst], m, die);
    case Tick(q, rn) =>
      hide E.OnTick;
      TickLeaves(ps, q, s.nodes[q], rn);
    case _ =>
  }

  lemma {:induction false} FollowsRun(ps: Params, s: State, ls: seq<Step>, r: nat)
    requires Inv(ps, s) && ValidRun(ps, s, ls) && 1 <= r < ps.size
    ensures var s' := Exec(ps, s, ls);
      |s.nodes| == |s'.nodes| == ps.size && s'.nodes[r].coord == Follows(ps, s, ls, r, s.nodes[r].coord)
    decreases |ls|
  {
    InvParts(ps, s);
    if ls != [] {
      CoordStep(ps, s, ls[0], r);
      StepKeeps(ps, s, ls[0]);
      hide Inv, Next, Forgets, DeliversCoord;
      FollowsRun(ps, Next(ps, s, ls[0]), ls[1..], r);
    }
  }

  /** In every run a node's coordinator is the sender of the last COORD it has processed since it last forgot one, and 0 if there
      is none. */
  lemma CoordinatorIsLast(ps: Params, ls: seq<Step>, r: nat)
    requires ps.Ok() && ValidRun(ps, Init(ps), ls) && 1 <= r < ps.size
    ensures var s := Exec(ps, Init(ps), ls); |s.nodes| == ps.size && s.nodes[r].coord == Follows(ps, Init(ps), ls, r, 0)
  {
    InitOk(ps);
    FollowsRun(ps, Init(ps), ls, r);
  }

  // ---------- replies ----------

  /** Event `j` is the receipt by `r` of a message of kind `k` that `d` sent to it. */
  predicate Heard(log: ELog, j: nat, r: nat, k: E.Kind, d: nat)
    requires j < |log|
  {
    && log[j].node == r && log[j].clock.Got? && log[j].src.Some? && log[j].src.value < j
    && var e := log[log[j].src.value];
       e.clock.Sent? && e.clock.m.kind == k && e.node == d && e.clock.m.dst == r
  }

  /** What kind of message a reply answers. */
  function Answers(k: E.Kind): E.Kind {
    if k == E.Answer then E.Elect else E.Aya
  }

  predicate IsReply(e: Event<Mark>) {
    e.clock.Sent? && (e.clock.m.kind == E.Answer || e.clock.m.kind == E.Iaa)
  }

  /** Event `i`, if it is a reply, follows a receipt of what it answers from the node it goes to. */
  ghost predicate Asked(log: ELog, i: nat)
    requires i < |log|
  {
    IsReply(log[i]) ==> exists j :: 0 <= j < i && Heard(log, j, log[i].node, Answers(log[i].clock.m.kind), log[i].clock.m.dst)
  }

  ghost predicate RepliesOk(log: ELog) {
    forall i :: 0 <= i < |log| ==> Asked(log, i)
  }

  lemma AskedStays(log: ELog, more: ELog, i: nat)
    requires i < |log| && Asked(log, i)
    ensures Asked(log + more, i)
  {
    if IsReply(log[i]) {
      var j :| 0 <= j < i && Heard(log, j, log[i].node, Answers(log[i].clock.m.kind), log[i].clock.m.dst);
      assert Heard(log + more, j, log[i].node, Answers(log[i].clock.m.kind), log[i].clock.m.dst);
    }
  }

  lemma RepliesGrow(log: ELog, more: ELog)
    requires RepliesOk(log) && forall i :: |log| <= i < |log| + |more| ==> Asked(log + more, i)
    ensures RepliesOk(log + more)
  {
    hide Asked;
    forall i | 0 <= i < |log| ensures Asked(log + more, i) { AskedStays(log, more, i); }
  }

  lemma NoReplies(log: ELog, r: nat, ms: seq<EMsg>)
    requires RepliesOk(log) && forall k: nat :: k < |ms| ==> ms[k].kind != E.Answer && ms[k].kind != E.Iaa
    ensures RepliesOk(log + Sends(r, ms))
  {
    RepliesGrow(log, Sends(r, ms));
  }

  lemma TickReplies(ps: Params, r: nat, n: Node, rn: nat, k: nat)
    requires ps.Ok() && 1 <= r < ps.size && k < |E.OnTick(ps, r, n, rn).1|
    ensures var x := E.OnTick(ps, r, n, rn).1[k]; x.kind != E.Answer && x.kind != E.Iaa
  {
    hide E.OnTick;
    var ms := E.OnTick(ps, r, n, rn).1;
    TickSends(ps, r, n, rn, ms[k].kind, ms[k].dst);
  }

  lemma ReceiptReplies(log: ELog, i: nat, m: EMsg, n: Node, n': Node)
    requires RepliesOk(log)
    ensures RepliesOk(log + Receipt(i, m, n, n'))
  {
    RepliesGrow(log, Receipt(i, m, n, n'));
  }

  /** The sends a receipt leads to: a reply among them goes to the sender of what was received. */
  lemma SendsReply(ps: Params, log: ELog, i: nat, n: Node, n': Node, ms: seq<EMsg>)
    requires i < |log| && log[i].clock.Sent? && log[i].clock.m.src == log[i].node
    requires var m := log[i].clock.m; RepliesOk(log + Receipt(i, m, n, n'))
    requires forall k: nat :: k < |ms| && (ms[k].kind == E.Answer || ms[k].kind == E.Iaa) ==>
      log[i].clock.m.kind == Answers(ms[k].kind) && ms[k].dst == log[i].clock.m.src
    ensures var m := log[i].clock.m; RepliesOk(log + Receipt(i, m, n, n') + Sends(m.dst, ms))
  {
    var m := log[i].clock.m;
    var log1 := log + Receipt(i, m, n, n');
    var all := log1 + Sends(m.dst, ms);
    forall k | |log1| <= k < |all| ensures Asked(all, k) {
      assert all[k] == Event(m.dst, None, Sent(ms[k - |log1|]));
      if IsReply(all[k]) { assert Heard(all, |log|, m.dst, m.kind, m.src); }
    }
    RepliesGrow(log1, Sends(m.dst, ms));
  }

  lemma RepliesOf(ps: Params, r: nat, n: Node, m: EMsg, die: bool, k: nat)
    requires ps.Ok() && 1 <= r < ps.size && E.NodeOk(ps, r, n) && k < |E.OnMessage(ps, r, n, m, die).1|
    ensures var x := E.OnMessage(ps, r, n, m, die).1[k];
      x.kind == E.Answer || x.kind == E.Iaa ==> m.kind == Answers(x.kind) && x.dst == m.src
  {
    hide E.OnMessage;
    var ms := E.OnMessage(ps, r, n, m, die).1;
    MessageSends(ps, r, n, m, die, ms[k].kind, ms[k].dst);
  }

  lemma DeliverReplies(ps: Params, s: State, i: nat, die: bool)
    requires Inv(ps, s) && RepliesOk(s.log) && Enabled(ps, s, Deliver(i, die))
    ensures RepliesOk(Next(ps, s, Deliver(i, die)).log)
  {
    var m := s.log[i].clock.m;
    var r, n := m.dst, s.nodes[m.dst];
    assert EventOk(ps, s.log, i) && E.NodeOk(ps, r, n);
    hide E.OnMessage, RepliesOk, Inv, EventOk, E.NodeOk, Receipt;
    var (n', ms) := E.OnMessage(ps, r, n, m, die);
    ReceiptReplies(s.log, i, m, n, n');
    forall k: nat | k < |ms| && (ms[k].kind == E.Answer || ms[k].kind == E.Iaa)
      ensures m.kind == Answers(ms[k].kind) && ms[k].dst == m.src
    {
      RepliesOf(ps, r, n, m, die, k);
    }
    SendsReply(ps, s.log, i, n, n', ms);
  }

  lemma RepliesStep(ps: Params, s: State, l: Step)
    requires Inv(ps, s) && RepliesOk(s.log) && Enabled(ps, s, l)
    ensures RepliesOk(Next(ps, s, l).log)
  {
    hide RepliesOk, Inv, E.OnTick;
    if l.Deliver? {
      DeliverReplies(ps, s, l.i, l.die);
    } else if l.Tick? {
      var ms := E.OnTick(ps, l.r, s.nodes[l.r], l.rn).1;
      forall k: nat | k < |ms| ensures ms[k].kind != E.Answer && ms[k].kind != E.Iaa {
        TickReplies(ps, l.r, s.nodes[l.r], l.rn, k);
      }
      NoReplies(s.log, l.r, ms);
    }
  }

  lemma {:induction false} RepliesRun(ps: Params, s: State, ls: seq<Step>)
    requires Inv(ps, s) && RepliesOk(s.log) && ValidRun(ps, s, ls)
    ensures RepliesOk(Exec(ps, s, ls).log)
    decreases |ls|
  {
    if ls != [] {
      RepliesStep(ps, s, ls[0]);
      StepKeeps(ps, s, ls[0]);
      hide Inv, RepliesOk, Next;
      RepliesRun(ps, Next(ps, s, ls[0]), ls[1..]);
    }
  }

  /** In every run each ANSWER goes to a node from which its sender has received an ELECT before, and each IAA to one from which it
      has received an AYA. */
  lemma RepliesAreAskedFor(ps: Params, s: State, i: nat)
    requires Reachable(ps, s) && i < |s.log| && IsReply(s.log[i])
    ensures exists j :: 0 <= j < i && Heard(s.log, j, s.log[i].node, Answers(s.log[i].clock.m.kind), s.log[i].clock.m.dst)
  {
    var ls :| ValidRun(ps, Init(ps), ls) && Exec(ps, Init(ps), ls) == s;
    InitOk(ps);
    var calls := E.Started(ps, 1).1;
    E.CallsBatch(ps, 1, E.Boot());
    NoReplies([], 1, calls);
    assert [] + Sends(1, calls) == Sends(1, calls);
    hide Inv;
    RepliesRun(ps, Init(ps), ls);
    assert Asked(s.log, i);
  }
}
