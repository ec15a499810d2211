/** One node of the bully election: what it does on a message and on a clock tick. */
module Election {
  /** Message kinds; `Nothing` is the 0 of `lastSent` and `lastReceived`. */
  datatype Kind = Nothing | Elect | Answer | Coord | Aya | Iaa

  datatype Msg = Msg(kind: Kind, src: nat, dst: nat, time: nat)

  /** `dead` is set while a coordinator that declared itself dead waits to return to life. */
  datatype Node = Node(tick: nat, ayaTick: nat, ayaRate: nat, dlc: nat, lastSent: Kind, lastReceived: Kind, coord: nat, dead: bool)

  /** Ranks 1 to size - 1 are nodes; rank 0 is the clock. */
  datatype Params = Params(size: nat, timeout: nat, ayaTime: nat) {
    predicate Ok() {
      size >= 2 && timeout > 0 && ayaTime > 0
    }

    function Top(): nat
      requires Ok()
    {
      size - 1
    }
  }

  function Max(a: nat, b: nat): nat {
    if a < b then b else a
  }

  /** One message to each rank from `lo` to `hi` - 1; the node's time goes up by one before each. */
  function Fan(k: Kind, src: nat, lo: nat, hi: nat, t: nat): seq<Msg>
    decreases hi - lo
  {
    if lo >= hi then [] else [Msg(k, src, lo, t + 1)] + Fan(k, src, lo + 1, hi, t + 1)
  }

  function CallElection(ps: Params, r: nat, n: Node): Node {
    if r + 1 < ps.size then n.(dlc := n.dlc + (ps.size - 1 - r), lastSent := Elect) else n
  }

  function Calls(ps: Params, r: nat, n: Node): seq<Msg> {
    Fan(Elect, r, r + 1, ps.size, n.dlc)
  }

  function Proclaim(r: nat, n: Node): Node {
    if 1 < r then n.(dlc := n.dlc + (r - 1), lastSent := Coord) else n
  }

  function Proclaims(r: nat, n: Node): seq<Msg> {
    Fan(Coord, r, 1, r, n.dlc)
  }

  // ---------- a message ----------

  function Heard(n: Node, m: Msg): Node {
    n.(tick := 0, dlc := Max(m.time, n.dlc))
  }

  function OnElect(ps: Params, r: nat, n: Node, m: Msg): (Node, seq<Msg>) {
    var n1 := Heard(n, m).(dlc := Max(m.time, n.dlc) + 1, lastReceived := Elect);
    var answer := [Msg(Answer, r, m.src, n1.dlc)];
    if n1.lastSent == Elect then (n1, answer)
    else
      var n2 := n1.(lastSent := Nothing);
      var n3 := CallElection(ps, r, n2);
      if n3.lastSent == Nothing then (Proclaim(r, n3), answer + Calls(ps, r, n2) + Proclaims(r, n3))
      else (n3, answer + Calls(ps, r, n2))
  }

  function OnAnswer(n: Node): Node {
    if n.lastReceived == Coord then n.(lastSent := Nothing)
    else if n.lastSent == Elect then n.(lastReceived := Answer, lastSent := Nothing)
    else n
  }

  /** `die` is the outcome of the random draw on an AYA. */
  function OnMessage(ps: Params, r: nat, n: Node, m: Msg, die: bool): (Node, seq<Msg>) {
    match m.kind
    case Elect => OnElect(ps, r, n, m)
    case Answer => (OnAnswer(Heard(n, m)), [])
    case Coord => (Heard(n, m).(lastReceived := Coord, coord := m.src), [])
    case Aya =>
      var n1 := Heard(n, m).(lastReceived := Aya, lastSent := Iaa, dlc := Max(m.time, n.dlc) + 1);
      if die then (n1.(dead := true), []) else (n1, [Msg(Iaa, r, m.src, n1.dlc)])
    case Iaa => (Heard(n, m).(lastReceived := Iaa), [])
    case Nothing => (Heard(n, m), [])
  }

  function Revived(n: Node): Node {
    n.(lastSent := Nothing, lastReceived := Nothing, dead := false)
  }

  // ---------- a clock tick ----------

  function Ticked(n: Node): Node {
    n.(tick := n.tick + 1, ayaTick := n.ayaTick + 1)
  }

  predicate AsksNow(n: Node) {
    (n.ayaRate == 0 || n.ayaTick % n.ayaRate == 0) && n.coord != 0
  }

  function Asked(ps: Params, n: Node, rn: nat): Node
    requires ps.Ok()
  {
    n.(ayaRate := rn % (2 * ps.ayaTime), lastSent := Aya, dlc := n.dlc + 1)
  }

  /** The condition under which a node without a sent message calls a new election on a timeout. */
  predicate Restarts(ps: Params, n: Node)
    requires ps.Ok()
  {
    n.lastReceived == Nothing || (n.lastReceived == Answer && (n.tick % (ps.size - 1)) * ps.timeout == 0)
  }

  function OnTimeout(ps: Params, r: nat, n: Node): (Node, seq<Msg>)
    requires ps.Ok()
  {
    match n.lastSent
    case Nothing =>
      if Restarts(ps, n) then
        var n1 := CallElection(ps, r, n);
        (n1.(lastReceived := if r + 1 < ps.size then Nothing else n.lastReceived, tick := 0, coord := 0), Calls(ps, r, n))
      else if n.lastReceived == Elect then (Proclaim(r, n).(tick := 0, coord := 0), Proclaims(r, n))
      else (n, [])
    case Elect => (Proclaim(r, n).(tick := 0, coord := 0), Proclaims(r, n))
    case Aya => (CallElection(ps, r, n).(tick := 0, coord := 0), Calls(ps, r, n))
    case _ => (n, [])
  }

  /** `rn` is the last of the random numbers drawn when the node asks its coordinator. */
  function OnTick(ps: Params, r: nat, n: Node, rn: nat): (Node, seq<Msg>)
    requires ps.Ok()
  {
    var n0 := Ticked(n);
    var n1 := if AsksNow(n0) then Asked(ps, n0, rn) else n0;
    var asks := if AsksNow(n0) then [Msg(Aya, r, n0.coord, n0.dlc + 1)] else [];
    if n1.tick % ps.timeout == 0 then
      var (n2, more) := OnTimeout(ps, r, n1);
      (n2, asks + more)
    else (n1, asks)
  }

  function Boot(): Node {
    Node(0, 0, 0, 0, Nothing, Nothing, 0, false)
  }

  function Started(ps: Params, r: nat): (Node, seq<Msg>) {
    if r == 1 then (CallElection(ps, r, Boot()), Calls(ps, r, Boot())) else (Boot(), [])
  }

  // ---------- facts about what a node sends ----------

  lemma {:induction false} FanAt(k: Kind, src: nat, lo: nat, hi: nat, t: nat)
    ensures |Fan(k, src, lo, hi, t)| == if lo < hi then hi - lo else 0
    ensures forall i :: 0 <= i < |Fan(k, src, lo, hi, t)| ==> Fan(k, src, lo, hi, t)[i] == Msg(k, src, lo + i, t + 1 + i)
    decreases hi - lo
  {
    if lo < hi { FanAt(k, src, lo + 1, hi, t + 1); }
  }

  /** ELECT and AYA go up, ANSWER, COORD and IAA go down. */
  predicate Directed(ps: Params, m: Msg) {
    match m.kind
    case Elect => m.src < m.dst < ps.size
    case Aya => m.src < m.dst < ps.size
    case Nothing => false
    case _ => 1 <= m.dst < m.src < ps.size
  }

  predicate NodeOk(ps: Params, r: nat, n: Node) {
    && (n.coord == 0 || r < n.coord < ps.size)
    && (r + 1 < ps.size && n.lastReceived == Elect ==> n.lastSent != Nothing)
    && (r + 1 == ps.size ==> n.lastSent != Elect && n.lastSent != Aya)
  }

  /** A batch of messages from `r`, each in its direction, with the times `t` + 1, `t` + 2, ... */
  ghost predicate Batch(ps: Params, r: nat, t: nat, ms: seq<Msg>) {
    forall i :: 0 <= i < |ms| ==> ms[i].src == r && ms[i].time == t + 1 + i && Directed(ps, ms[i])
  }

  lemma CallsBatch(ps: Params, r: nat, n: Node)
    requires 1 <= r < ps.size
    ensures Batch(ps, r, n.dlc, Calls(ps, r, n)) && CallElection(ps, r, n).dlc == n.dlc + |Calls(ps, r, n)|
    ensures |Calls(ps, r, n)| == ps.size - 1 - r && forall i :: 0 <= i < |Calls(ps, r, n)| ==> Calls(ps, r, n)[i].kind == Elect
  {
    FanAt(Elect, r, r + 1, ps.size, n.dlc);
  }

  lemma ProclaimsBatch(ps: Params, r: nat, n: Node)
    requires 1 <= r < ps.size
    ensures Batch(ps, r, n.dlc, Proclaims(r, n)) && Proclaim(r, n).dlc == n.dlc + |Proclaims(r, n)|
    ensures |Proclaims(r, n)| == r - 1 && forall i :: 0 <= i < |Proclaims(r, n)| ==> Proclaims(r, n)[i].kind == Coord
  {
    FanAt(Coord, r, 1, r, n.dlc);
  }

  /** On a message: the sends are in direction and timed one by one from the time heard; the node stays in order. */
  lemma MessageOk(ps: Params, r: nat, n: Node, m: Msg, die: bool)
    requires ps.Ok() && 1 <= r < ps.size && NodeOk(ps, r, n) && Directed(ps, m) && m.dst == r && 1 <= m.src
    ensures var (n', ms) := OnMessage(ps, r, n, m, die);
      && NodeOk(ps, r, n') && Batch(ps, r, Max(m.time, n.dlc), ms)
      && n'.dlc == Max(m.time, n.dlc) + |ms| + (if m.kind == Aya && die then 1 else 0)
      && (n'.dead ==> n.dead || (m.kind == Aya && die))
  {
    if m.kind == Elect {
      var n1 := Heard(n, m).(dlc := Max(m.time, n.dlc) + 1, lastReceived := Elect);
      var n2 := n1.(lastSent := Nothing);
      CallsBatch(ps, r, n2);
      ProclaimsBatch(ps, r, CallElection(ps, r, n2));
    }
  }

  /** On a tick likewise. */
  lemma TickOk(ps: Params, r: nat, n: Node, rn: nat)
    requires ps.Ok() && 1 <= r < ps.size && NodeOk(ps, r, n)
    ensures var (n', ms) := OnTick(ps, r, n, rn);
      NodeOk(ps, r, n') && Batch(ps, r, n.dlc, ms) && n'.dlc == n.dlc + |ms| && n'.dead == n.dead
  {
    hide Fan, Calls, Proclaims;
    var n0 := Ticked(n);
    var n1 := if AsksNow(n0) then Asked(ps, n0, rn) else n0;
    CallsBatch(ps, r, n1);
    ProclaimsBatch(ps, r, n1);
  }

  /** A node announces itself in two cases only: it has the highest rank and was sent an ELECT, or it times out while the
      last it sent is an ELECT. */
  lemma WhoProclaims(ps: Params, r: nat, n: Node, m: Msg, die: bool, rn: nat, x: Msg)
    requires ps.Ok() && 1 <= r < ps.size && x.kind == Coord && NodeOk(ps, r, n)
    ensures x in OnMessage(ps, r, n, m, die).1 ==> r == ps.Top() && m.kind == Elect
    ensures x in OnTick(ps, r, n, rn).1 ==> r == ps.Top() || n.lastSent == Elect
  {
    var n1 := Heard(n, m).(dlc := Max(m.time, n.dlc) + 1, lastReceived := Elect);
    var n2 := n1.(lastSent := Nothing);
    CallsBatch(ps, r, n2);
    ProclaimsBatch(ps, r, CallElection(ps, r, n2));
    var n0 := Ticked(n);
    var n3 := if AsksNow(n0) then Asked(ps, n0, rn) else n0;
    CallsBatch(ps, r, n3);
    ProclaimsBatch(ps, r, n3);
  }

  predicate HasKind(ms: seq<Msg>, k: Kind) {
    exists i :: 0 <= i < |ms| && ms[i].kind == k
  }

  /** The turn to ask comes on a timeout tick. */
  predicate AsksAtTimeout(ps: Params, n: Node)
    requires ps.Ok()
  {
    AsksNow(Ticked(n)) && (n.tick + 1) % ps.timeout == 0
  }

  /** As coded, a node below the highest rank both asks its coordinator and calls an election against it in one turn, before an
      IAA could arrive, exactly if its turn to ask comes on a timeout tick; it then no longer knows a coordinator. */
  lemma {:induction false} AskedAndDismissed(ps: Params, r: nat, n: Node, rn: nat)
    requires ps.Ok() && 1 <= r < ps.size - 1
    ensures var (n', ms) := OnTick(ps, r, n, rn);
      && (HasKind(ms, Aya) && HasKind(ms, Elect) <==> AsksAtTimeout(ps, n))
      && (AsksAtTimeout(ps, n) ==>
           && ms == [Msg(Aya, r, n.coord, n.dlc + 1)] + Fan(Elect, r, r + 1, ps.size, n.dlc + 1)
           && n'.coord == 0 && n'.lastSent == Elect)
  {
    var (n', ms) := OnTick(ps, r, n, rn);
    var n0 := Ticked(n);
    var n1 := if AsksNow(n0) then Asked(ps, n0, rn) else n0;
    CallsBatch(ps, r, n1);
    ProclaimsBatch(ps, r, n1);
    if AsksAtTimeout(ps, n) {
      assert ms == [Msg(Aya, r, n.coord, n.dlc + 1)] + Calls(ps, r, n1);
      assert ms[0].kind == Aya && ms[1] == Calls(ps, r, n1)[0];
    } else if !AsksNow(n0) {
      assert !HasKind(ms, Aya);
    } else {
      assert ms == [Msg(Aya, r, n.coord, n.dlc + 1)];
    }
  }
}
