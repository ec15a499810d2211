/** Runs of the election: all nodes, and a network that loses and reorders. */
module ElectionRuns {
  import opened Messages
  import opened Causality
  import E = Election

  type Node = E.Node
  type EMsg = E.Msg
  type Params = E.Params

  /** What an event of the log was: a message sent or received, or a coordinator's death. `time` is the node's time then. */
  datatype Mark = Sent(m: EMsg) | Got(time: nat) | Died(time: nat)

  type ELog = seq<Event<Mark>>

  /** The log holds every event so far; `flying` are the positions of the sends still on their way. */
  datatype State = State(nodes: seq<Node>, log: ELog, flying: set<nat>)

  datatype Step =
    | Deliver(i: nat, die: bool)
    | Lose(i: nat)
    | Tick(r: nat, rn: nat)
    | Revive(r: nat)

  function Sends(r: nat, ms: seq<EMsg>): ELog {
    seq(|ms|, i requires 0 <= i < |ms| => Event(r, None, Sent(ms[i])))
  }

  function Positions(lo: nat, n: nat): (ps: set<nat>)
    ensures forall i :: i in ps <==> lo <= i < lo + n
  {
    if n == 0 then {} else Positions(lo, n - 1) + {lo + n - 1}
  }

  /** `r` sends `ms`. */
  function Posted(s: State, r: nat, ms: seq<EMsg>): State {
    s.(log := s.log + Sends(r, ms), flying := s.flying + Positions(|s.log|, |ms|))
  }

  function Nodes(ps: Params): seq<Node>
    requires ps.Ok()
  {
    seq(ps.size, r requires 0 <= r < ps.size => E.Started(ps, r).0)
  }

  function Init(ps: Params): State
    requires ps.Ok()
  {
    Posted(State(Nodes(ps), [], {}), 1, E.Started(ps, 1).1)
  }

  predicate IsRank(ps: Params, s: State, r: nat) {
    1 <= r < ps.size == |s.nodes|
  }

  predicate Flying(s: State, i: nat) {
    i in s.flying && i < |s.log| && s.log[i].clock.Sent?
  }

  predicate Enabled(ps: Params, s: State, l: Step) {
    ps.Ok() && match l
    case Deliver(i, die) => Flying(s, i) && IsRank(ps, s, s.log[i].clock.m.dst) && !s.nodes[s.log[i].clock.m.dst].dead
    case Lose(i) => Flying(s, i)
    case Tick(r, rn) => IsRank(ps, s, r) && !s.nodes[r].dead
    case Revive(r) => IsRank(ps, s, r) && s.nodes[r].dead
  }

  /** The events of one receipt, before the sends it leads to. */
  function Receipt(i: nat, m: EMsg, n: Node, n': Node): ELog {
    [Event(m.dst, Some(i), Got(E.Max(m.time, n.dlc)))] + if n'.dead then [Event(m.dst, None, Died(n'.dlc))] else []
  }

  function Next(ps: Params, s: State, l: Step): State
    requires Enabled(ps, s, l)
  {
    match l
    case Deliver(i, die) =>
      var m := s.log[i].clock.m;
      var n := s.nodes[m.dst];
      var (n', ms) := E.OnMessage(ps, m.dst, n, m, die);
      Posted(State(s.nodes[m.dst := n'], s.log + Receipt(i, m, n, n'), s.flying - {i}), m.dst, ms)
    case Lose(i) => s.(flying := s.flying - {i})
    case Tick(r, rn) =>
      var (n', ms) := E.OnTick(ps, r, s.nodes[r], rn);
      Posted(s.(nodes := s.nodes[r := n']), r, ms)
    case Revive(r) => s.(nodes := s.nodes[r := E.Revived(s.nodes[r])])
  }

  ghost predicate ValidRun(ps: Params, s: State, ls: seq<Step>)
    decreases |ls|
  {
    ls == [] || (Enabled(ps, s, ls[0]) && ValidRun(ps, Next(ps, s, ls[0]), ls[1..]))
  }

  ghost function Exec(ps: Params, s: State, ls: seq<Step>): State
    requires ValidRun(ps, s, ls)
    decreases |ls|
  {
    if ls == [] then s else Exec(ps, Next(ps, s, ls[0]), ls[1..])
  }

  ghost predicate Reachable(ps: Params, s: State) {
    ps.Ok() && exists ls :: ValidRun(ps, Init(ps), ls) && Exec(ps, Init(ps), ls) == s
  }

  // ---------- the invariant ----------

  predicate SentBy(log: ELog, i: nat, r: nat, k: E.Kind)
    requires i < |log|
  {
    log[i].node == r && log[i].clock.Sent? && log[i].clock.m.kind == k
  }

  /** An ANSWER that `r` has processed. */
  predicate GotAnswer(log: ELog, i: nat, r: nat)
    requires i < |log|
  {
    log[i].node == r && log[i].src.Some? && log[i].src.value < |log| && log[log[i].src.value].clock.Sent?
      && log[log[i].src.value].clock.m.kind == E.Answer
  }

  /** Among the first `n` events `r` has sent an ELECT and processed no ANSWER since. */
  ghost predicate Unanswered(log: ELog, r: nat, n: nat)
    requires n <= |log|
  {
    exists b :: 0 <= b < n && SentBy(log, b, r, E.Elect) && forall i :: b < i < n ==> !GotAnswer(log, i, r)
  }

  /** An event is in order: sends go in their direction, receipts belong to earlier sends. */
  ghost predicate EventOk(ps: Params, log: ELog, i: nat)
    requires i < |log|
  {
    var e := log[i];
    && 1 <= e.node < ps.size
    && (e.clock.Sent? ==> e.src.None? && e.clock.m.src == e.node && E.Directed(ps, e.clock.m))
    && (e.clock.Died? ==> e.src.None?)
    && (e.clock.Got? ==> e.src.Some? && e.src.value < i && log[e.src.value].clock.Sent? && log[e.src.value].clock.m.dst == e.node)
  }

  ghost predicate LogOk(ps: Params, log: ELog) {
    forall i :: 0 <= i < |log| ==> EventOk(ps, log, i)
  }

  ghost predicate CoordsJustified(ps: Params, log: ELog)
    requires ps.Ok()
  {
    forall i, r :: 0 <= i < |log| && SentBy(log, i, r, E.Coord) ==> r == ps.Top() || Unanswered(log, r, i)
  }

  ghost predicate NodesOk(ps: Params, s: State) {
    |s.nodes| == ps.size && forall r :: 1 <= r < ps.size ==> E.NodeOk(ps, r, s.nodes[r])
  }

  ghost predicate CallersUnanswered(ps: Params, s: State)
    requires |s.nodes| == ps.size
  {
    forall r :: 1 <= r < ps.size && s.nodes[r].lastSent == E.Elect ==> Unanswered(s.log, r, |s.log|)
  }

  ghost predicate FlyingOk(s: State) {
    forall i :: i in s.flying ==> Flying(s, i)
  }

  ghost predicate Inv(ps: Params, s: State) {
    ps.Ok() && NodesOk(ps, s) && LogOk(ps, s.log) && FlyingOk(s) && CallersUnanswered(ps, s) && CoordsJustified(ps, s.log)
  }

  // ---------- appending to the log ----------

  lemma UnansweredGrows(log: ELog, more: ELog, r: nat)
    requires Unanswered(log, r, |log|) && forall i :: |log| <= i < |log| + |more| ==> !GotAnswer(log + more, i, r)
    requires forall i :: 0 <= i < |log| && log[i].src.Some? ==> log[i].src.value < i
    ensures Unanswered(log + more, r, |log| + |more|)
  {
    var b :| 0 <= b < |log| && SentBy(log, b, r, E.Elect) && forall i :: b < i < |log| ==> !GotAnswer(log, i, r);
    assert SentBy(log + more, b, r, E.Elect);
    forall i | b < i < |log| + |more| ensures !GotAnswer(log + more, i, r) {
      if i < |log| { assert !GotAnswer(log, i, r); }
    }
  }

  lemma UnansweredPrefix(log: ELog, more: ELog, r: nat, n: nat)
    requires n <= |log| && forall i :: 0 <= i < |log| && log[i].src.Some? ==> log[i].src.value < i
    ensures Unanswered(log + more, r, n) <==> Unanswered(log, r, n)
  {
    forall i: nat | i < n
      ensures SentBy(log + more, i, r, E.Elect) <==> SentBy(log, i, r, E.Elect)
      ensures GotAnswer(log + more, i, r) <==> GotAnswer(log, i, r) {}
  }

  lemma LogSources(ps: Params, log: ELog)
    requires LogOk(ps, log)
    ensures forall i :: 0 <= i < |log| && log[i].src.Some? ==> log[i].src.value < i
    ensures SourcesBefore(log)
  {
    forall i | 0 <= i < |log| && log[i].src.Some? ensures log[i].src.value < i { assert EventOk(ps, log, i); }
  }

  /** One event at the end of a log in order. */
  lemma EventAppended(ps: Params, log: ELog, more: ELog)
    requires LogOk(ps, log) && forall i :: |log| <= i < |log| + |more| ==> EventOk(ps, log + more, i)
    ensures LogOk(ps, log + more)
  {
    forall i | 0 <= i < |log| ensures EventOk(ps, log + more, i) { assert EventOk(ps, log, i); }
  }

  /** New events keep every COORD justified if each new COORD is. */
  lemma JustifiedGrows(ps: Params, log: ELog, more: ELog)
    requires ps.Ok() && LogOk(ps, log) && CoordsJustified(ps, log)
    requires forall i, r :: |log| <= i < |log| + |more| && SentBy(log + more, i, r, E.Coord) ==> r == ps.Top() || Unanswered(log + more, r, i)
    ensures CoordsJustified(ps, log + more)
  {
    LogSources(ps, log);
    forall i, r | 0 <= i < |log| && SentBy(log + more, i, r, E.Coord) ensures r == ps.Top() || Unanswered(log + more, r, i) {
      assert SentBy(log, i, r, E.Coord);
      UnansweredPrefix(log, more, r, i);
    }
  }

  // ---------- sending a batch ----------

  ghost predicate Proper(ps: Params, r: nat, ms: seq<EMsg>) {
    forall i :: 0 <= i < |ms| ==> ms[i].src == r && E.Directed(ps, ms[i])
  }

  predicate HasElect(ms: seq<EMsg>) {
    exists i :: 0 <= i < |ms| && ms[i].kind == E.Elect
  }

  predicate HasCoord(ms: seq<EMsg>) {
    exists i :: 0 <= i < |ms| && ms[i].kind == E.Coord
  }

  lemma SendsAreNoAnswers(log: ELog, r: nat, ms: seq<EMsg>, q: nat)
    ensures forall i :: |log| <= i < |log| + |ms| ==> !GotAnswer(log + Sends(r, ms), i, q)
  {
  }

  lemma PostedLog(ps: Params, log: ELog, r: nat, ms: seq<EMsg>)
    requires LogOk(ps, log) && 1 <= r < ps.size && Proper(ps, r, ms)
    ensures LogOk(ps, log + Sends(r, ms))
  {
    var more := Sends(r, ms);
    forall i | |log| <= i < |log| + |more| ensures EventOk(ps, log + more, i) {
      assert (log + more)[i] == Event(r, None, Sent(ms[i - |log|]));
    }
    EventAppended(ps, log, more);
  }

  lemma PostedJustified(ps: Params, log: ELog, r: nat, ms: seq<EMsg>)
    requires ps.Ok() && LogOk(ps, log) && CoordsJustified(ps, log) && Proper(ps, r, ms)
    requires HasCoord(ms) ==> r == ps.Top() || Unanswered(log, r, |log|)
    ensures CoordsJustified(ps, log + Sends(r, ms))
  {
    var more := Sends(r, ms);
    LogSources(ps, log);
    forall i, q | |log| <= i < |log| + |more| && SentBy(log + more, i, q, E.Coord)
      ensures q == ps.Top() || Unanswered(log + more, q, i)
    {
      assert (log + more)[i] == Event(r, None, Sent(ms[i - |log|]));
      if r != ps.Top() {
        var some := Sends(r, ms[..i - |log|]);
        SendsAreNoAnswers(log, r, ms[..i - |log|], r);
        UnansweredGrows(log, some, r);
        var rest := more[i - |log|..];
        assert log + more == (log + some) + rest;
        SomeSources(ps, log, r, ms[..i - |log|]);
        UnansweredPrefix(log + some, rest, r, i);
      }
    }
    JustifiedGrows(ps, log, more);
  }

  lemma SomeSources(ps: Params, log: ELog, r: nat, ms: seq<EMsg>)
    requires forall i :: 0 <= i < |log| && log[i].src.Some? ==> log[i].src.value < i
    ensures forall i :: 0 <= i < |log + Sends(r, ms)| && (log + Sends(r, ms))[i].src.Some? ==> (log + Sends(r, ms))[i].src.value < i
  {
  }

  lemma PostedCallers(log: ELog, r: nat, ms: seq<EMsg>, q: nat)
    requires forall i :: 0 <= i < |log| && log[i].src.Some? ==> log[i].src.value < i
    requires Unanswered(log, q, |log|) || (q == r && HasElect(ms))
    ensures Unanswered(log + Sends(r, ms), q, |log| + |ms|)
  {
    var more := Sends(r, ms);
    SendsAreNoAnswers(log, r, ms, q);
    if Unanswered(log, q, |log|) {
      UnansweredGrows(log, more, q);
    } else {
      var k :| 0 <= k < |ms| && ms[k].kind == E.Elect;
      assert (log + more)[|log| + k] == Event(r, None, Sent(ms[k]));
      assert SentBy(log + more, |log| + k, r, E.Elect);
    }
  }

  /** After `r` has taken its new state and sent its messages the invariant holds again. */
  lemma PostKeeps(ps: Params, s: State, r: nat, ms: seq<EMsg>)
    requires ps.Ok() && NodesOk(ps, s) && LogOk(ps, s.log) && FlyingOk(s) && CoordsJustified(ps, s.log)
    requires 1 <= r < ps.size && Proper(ps, r, ms)
    requires forall q :: 1 <= q < ps.size && s.nodes[q].lastSent == E.Elect ==> Unanswered(s.log, q, |s.log|) || (q == r && HasElect(ms))
    requires HasCoord(ms) ==> r == ps.Top() || Unanswered(s.log, r, |s.log|)
    ensures Inv(ps, Posted(s, r, ms))
  {
    hide Unanswered, CoordsJustified, LogOk;
    var s' := Posted(s, r, ms);
    LogSources(ps, s.log);
    PostedLog(ps, s.log, r, ms);
    PostedJustified(ps, s.log, r, ms);
    forall q | 1 <= q < ps.size && s'.nodes[q].lastSent == E.Elect ensures Unanswered(s'.log, q, |s'.log|) {
      PostedCallers(s.log, r, ms, q);
    }
    forall i | i in s'.flying ensures Flying(s', i) {
      if i in s.flying { assert Flying(s, i); } else { assert s'.log[i] == Event(r, None, Sent(ms[i - |s.log|])); }
    }
  }

  // ---------- what a node sends, and its `lastSent` ----------

  lemma OnTickSends(ps: Params, r: nat, n: Node, rn: nat)
    requires ps.Ok() && 1 <= r < ps.size && E.NodeOk(ps, r, n)
    ensures var (n', ms) := E.OnTick(ps, r, n, rn);
      && Proper(ps, r, ms) && E.NodeOk(ps, r, n')
      && (n'.lastSent == E.Elect ==> n.lastSent == E.Elect || HasElect(ms))
      && (HasCoord(ms) ==> r == ps.Top() || n.lastSent == E.Elect)
  {
    E.TickOk(ps, r, n, rn);
    var (n', ms) := E.OnTick(ps, r, n, rn);
    if n'.lastSent == E.Elect && n.lastSent != E.Elect { ElectAppears(ps, r, n, rn); }
    if HasCoord(ms) {
      var i :| 0 <= i < |ms| && ms[i].kind == E.Coord;
      E.WhoProclaims(ps, r, n, ms[i], false, rn, ms[i]);
    }
  }

  lemma ElectAppears(ps: Params, r: nat, n: Node, rn: nat)
    requires ps.Ok() && 1 <= r < ps.size && E.OnTick(ps, r, n, rn).0.lastSent == E.Elect && n.lastSent != E.Elect
    ensures HasElect(E.OnTick(ps, r, n, rn).1)
  {
    var n0 := E.Ticked(n);
    var n1 := if E.AsksNow(n0) then E.Asked(ps, n0, rn) else n0;
    E.CallsBatch(ps, r, n1);
    var ms := E.OnTick(ps, r, n, rn).1;
    assert r + 1 < ps.size;
    assert ms[|ms| - 1] == E.Calls(ps, r, n1)[|E.Calls(ps, r, n1)| - 1];
  }

  lemma OnMessageSends(ps: Params, r: nat, n: Node, m: EMsg, die: bool)
    requires ps.Ok() && 1 <= r < ps.size && E.NodeOk(ps, r, n) && E.Directed(ps, m) && m.dst == r && 1 <= m.src
    ensures var (n', ms) := E.OnMessage(ps, r, n, m, die);
      && Proper(ps, r, ms) && E.NodeOk(ps, r, n')
      && (n'.lastSent == E.Elect ==> (n.lastSent == E.Elect && m.kind != E.Answer) || HasElect(ms))
      && (HasCoord(ms) ==> r == ps.Top())
  {
    E.MessageOk(ps, r, n, m, die);
    var (n', ms) := E.OnMessage(ps, r, n, m, die);
    if HasCoord(ms) {
      var i :| 0 <= i < |ms| && ms[i].kind == E.Coord;
      E.WhoProclaims(ps, r, n, m, die, 0, ms[i]);
    }
    if n'.lastSent == E.Elect && n.lastSent != E.Elect && m.kind == E.Elect {
      var n2 := E.Heard(n, m).(dlc := E.Max(m.time, n.dlc) + 1, lastReceived := E.Elect, lastSent := E.Nothing);
      E.CallsBatch(ps, r, n2);
      assert ms[1] == E.Calls(ps, r, n2)[0];
    }
  }

  // ---------- every step keeps it ----------

  lemma TickKeeps(ps: Params, s: State, r: nat, rn: nat)
    requires Inv(ps, s) && Enabled(ps, s, Tick(r, rn))
    ensures Inv(ps, Next(ps, s, Tick(r, rn)))
  {
    OnTickSends(ps, r, s.nodes[r], rn);
    var (n', ms) := E.OnTick(ps, r, s.nodes[r], rn);
    hide E.OnTick, Unanswered, CoordsJustified, LogOk, HasElect, HasCoord, Proper, Inv, E.NodeOk;
    InvParts(ps, s);
    PostKeeps(ps, s.(nodes := s.nodes[r := n']), r, ms);
  }

  lemma InvParts(ps: Params, s: State)
    requires Inv(ps, s)
    ensures ps.Ok() && NodesOk(ps, s) && LogOk(ps, s.log) && FlyingOk(s) && CallersUnanswered(ps, s) && CoordsJustified(ps, s.log)
  {
  }

  lemma ReviveKeeps(ps: Params, s: State, r: nat)
    requires Inv(ps, s) && Enabled(ps, s, Revive(r))
    ensures Inv(ps, Next(ps, s, Revive(r)))
  {
    hide Unanswered, CoordsJustified, LogOk;
  }

  lemma LoseKeeps(ps: Params, s: State, i: nat)
    requires Inv(ps, s) && Enabled(ps, s, Lose(i))
    ensures Inv(ps, Next(ps, s, Lose(i)))
  {
    hide Unanswered, CoordsJustified, LogOk;
    var s' := Next(ps, s, Lose(i));
    forall j | j in s'.flying ensures Flying(s', j) { assert Flying(s, j); }
  }

  /** The receipt itself, with whatever new state the node takes. */
  lemma ReceiptLog(ps: Params, log: ELog, i: nat, n: Node, n': Node)
    requires ps.Ok() && LogOk(ps, log) && CoordsJustified(ps, log) && i < |log| && log[i].clock.Sent?
    ensures LogOk(ps, log + Receipt(i, log[i].clock.m, n, n')) && CoordsJustified(ps, log + Receipt(i, log[i].clock.m, n, n'))
    ensures forall q :: Unanswered(log, q, |log|) && (q == log[i].clock.m.dst ==> log[i].clock.m.kind != E.Answer) ==>
      Unanswered(log + Receipt(i, log[i].clock.m, n, n'), q, |log + Receipt(i, log[i].clock.m, n, n')|)
  {
    var more := Receipt(i, log[i].clock.m, n, n');
    assert EventOk(ps, log, i);
    LogSources(ps, log);
    EventAppended(ps, log, more);
    JustifiedGrows(ps, log, more);
    forall q | Unanswered(log, q, |log|) && (q == log[i].clock.m.dst ==> log[i].clock.m.kind != E.Answer)
      ensures Unanswered(log + more, q, |log + more|)
    {
      UnansweredGrows(log, more, q);
    }
  }

  lemma DeliverKeeps(ps: Params, s: State, i: nat, die: bool)
    requires Inv(ps, s) && Enabled(ps, s, Deliver(i, die))
    ensures Inv(ps, Next(ps, s, Deliver(i, die)))
  {
    var m := s.log[i].clock.m;
    var n := s.nodes[m.dst];
    var (n', ms) := E.OnMessage(ps, m.dst, n, m, die);
    assert EventOk(ps, s.log, i);
    OnMessageSends(ps, m.dst, n, m, die);
    ReceiptLog(ps, s.log, i, n, n');
    hide E.OnMessage, Unanswered, CoordsJustified, LogOk, HasElect, HasCoord, Proper, Inv, E.NodeOk, Receipt, EventOk;
    InvParts(ps, s);
    var s1 := State(s.nodes[m.dst := n'], s.log + Receipt(i, m, n, n'), s.flying - {i});
    PostKeeps(ps, s1, m.dst, ms);
  }

  lemma InitOk(ps: Params)
    requires ps.Ok()
    ensures Inv(ps, Init(ps))
  {
    var s0 := State(Nodes(ps), [], {});
    E.CallsBatch(ps, 1, E.Boot());
    var ms := E.Calls(ps, 1, E.Boot());
    if ps.size > 2 { assert ms[0].kind == E.Elect; }
    PostKeeps(ps, s0, 1, ms);
  }

  lemma StepKeeps(ps: Params, s: State, l: Step)
    requires Inv(ps, s) && Enabled(ps, s, l)
    ensures Inv(ps, Next(ps, s, l))
  {
    hide Inv, Enabled, Next;
    match l {
      case Deliver(i, die) => DeliverKeeps(ps, s, i, die);
      case Lose(i) => LoseKeeps(ps, s, i);
      case Tick(r, rn) => TickKeeps(ps, s, r, rn);
      case Revive(r) => ReviveKeeps(ps, s, r);
    }
  }

  lemma {:induction false} RunKeeps(ps: Params, s: State, ls: seq<Step>)
    requires Inv(ps, s) && ValidRun(ps, s, ls)
    ensures Inv(ps, Exec(ps, s, ls))
    decreases |ls|
  {
    if ls != [] {
      StepKeeps(ps, s, ls[0]);
      RunKeeps(ps, Next(ps, s, ls[0]), ls[1..]);
    }
  }

  lemma ReachableInv(ps: Params, s: State)
    requires Reachable(ps, s)
    ensures Inv(ps, s)
  {
    var ls :| ValidRun(ps, Init(ps), ls) && Exec(ps, Init(ps), ls) == s;
    InitOk(ps);
    RunKeeps(ps, Init(ps), ls);
  }

  // ---------- the theorems ----------

  /** In every run: every ELECT and AYA ever sent goes to a higher rank, every ANSWER, COORD and IAA to a lower one, so that the
      highest rank has asked nobody; and every message in flight is one that was sent. */
  lemma MessagesHaveDirection(ps: Params, s: State, i: nat)
    requires Reachable(ps, s) && i < |s.log| && s.log[i].clock.Sent?
    ensures var m := s.log[i].clock.m; m.src == s.log[i].node && 1 <= m.src < ps.size && m.kind != E.Nothing
    ensures var m := s.log[i].clock.m; m.kind == E.Elect || m.kind == E.Aya ==> m.src < m.dst < ps.size
    ensures var m := s.log[i].clock.m; m.kind == E.Answer || m.kind == E.Coord || m.kind == E.Iaa ==> 1 <= m.dst < m.src
    ensures s.log[i].node == ps.Top() ==> s.log[i].clock.m.kind != E.Elect && s.log[i].clock.m.kind != E.Aya
    ensures forall k :: k in s.flying ==> k < |s.log| && s.log[k].clock.Sent?
  {
    ReachableInv(ps, s);
    assert EventOk(ps, s.log, i);
    forall k | k in s.flying ensures k < |s.log| && s.log[k].clock.Sent? { assert Flying(s, k); }
  }

  /** In every run a node's coordinator is unknown or above it. */
  lemma CoordinatorIsAbove(ps: Params, s: State, r: nat)
    requires Reachable(ps, s) && 1 <= r < ps.size
    ensures |s.nodes| == ps.size && (s.nodes[r].coord == 0 || r < s.nodes[r].coord < ps.size)
  {
    ReachableInv(ps, s);
    assert E.NodeOk(ps, r, s.nodes[r]);
  }

  /** In every run: a COORD comes from the highest rank, or from a node that has sent ELECT and processed no ANSWER since. */
  lemma CoordIsJustified(ps: Params, s: State, i: nat)
    requires Reachable(ps, s) && i < |s.log| && s.log[i].clock.Sent? && s.log[i].clock.m.kind == E.Coord
    ensures s.log[i].node == ps.Top() || Unanswered(s.log, s.log[i].node, i)
  {
    ReachableInv(ps, s);
    assert SentBy(s.log, i, s.log[i].node, E.Coord);
  }

  /** A node below the highest rank never waits with nothing sent on an ELECT received: the branch of the timeout switch
      for that state is dead code. */
  lemma NoIdleElect(ps: Params, s: State, r: nat)
    requires Reachable(ps, s) && 1 <= r < ps.Top()
    ensures |s.nodes| == ps.size && !(s.nodes[r].lastSent == E.Nothing && s.nodes[r].lastReceived == E.Elect)
  {
    ReachableInv(ps, s);
    assert E.NodeOk(ps, r, s.nodes[r]);
  }
}
