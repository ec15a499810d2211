/** What a node sends and keeps on each input, said by kinds and addressees, apart from how the program gets there. */
module ElectionReactions {
  import opened Election

  predicate SentTo(ms: seq<Msg>, k: Kind, d: nat) {
    exists i :: 0 <= i < |ms| && ms[i].kind == k && ms[i].dst == d
  }

  /** No two messages of one kind to one node. */
  predicate NoneTwice(ms: seq<Msg>) {
    forall i, j :: 0 <= i < j < |ms| && ms[i].kind == ms[j].kind ==> ms[i].dst != ms[j].dst
  }

  // ---------- batches ----------

  lemma NothingSent(k: Kind, d: nat)
    ensures !SentTo([], k, d) && NoneTwice([])
  {
  }

  lemma OneSent(m: Msg, k: Kind, d: nat)
    ensures SentTo([m], k, d) <==> k == m.kind && d == m.dst
    ensures NoneTwice([m])
  {
    assert [m][0] == m;
  }

  lemma FanSent(f: Kind, src: nat, lo: nat, hi: nat, t: nat, k: Kind, d: nat)
    ensures SentTo(Fan(f, src, lo, hi, t), k, d) <==> k == f && lo <= d < hi
    ensures NoneTwice(Fan(f, src, lo, hi, t))
    ensures forall i :: 0 <= i < |Fan(f, src, lo, hi, t)| ==> Fan(f, src, lo, hi, t)[i].kind == f
  {
    FanAt(f, src, lo, hi, t);
    if k == f && lo <= d < hi { assert Fan(f, src, lo, hi, t)[d - lo].dst == d; }
  }

  lemma BothSent(a: seq<Msg>, b: seq<Msg>, k: Kind, d: nat)
    ensures SentTo(a + b, k, d) <==> SentTo(a, k, d) || SentTo(b, k, d)
    ensures NoneTwice(a) && NoneTwice(b) && (forall i, j :: 0 <= i < |a| && 0 <= j < |b| ==> a[i].kind != b[j].kind) ==> NoneTwice(a + b)
  {
    if SentTo(a, k, d) {
      var i :| 0 <= i < |a| && a[i].kind == k && a[i].dst == d;
      assert (a + b)[i] == a[i];
    }
    if SentTo(b, k, d) {
      var i :| 0 <= i < |b| && b[i].kind == k && b[i].dst == d;
      assert (a + b)[|a| + i] == b[i];
    }
  }

  // ---------- messages ----------

  /** Whether a message makes the node send `k` to `d`. */
  predicate SendsOnMessage(ps: Params, r: nat, n: Node, m: Msg, die: bool, k: Kind, d: nat)
    requires ps.Ok()
  {
    match k
    case Answer => m.kind == Elect && d == m.src
    case Iaa => m.kind == Aya && !die && d == m.src
    case Elect => m.kind == Elect && n.lastSent != Elect && r < d < ps.size
    case Coord => m.kind == Elect && r == ps.Top() && 1 <= d < r
    case _ => false
  }

  /** An ELECT is answered to its sender and passed on to all higher ranks, unless the node has an election of its own, or
      settled by the highest rank with a COORD to all others; an AYA is answered to its sender, unless the node dies; nothing
      else is answered; and no message goes out twice. */
  lemma MessageSends(ps: Params, r: nat, n: Node, m: Msg, die: bool, k: Kind, d: nat)
    requires ps.Ok() && 1 <= r < ps.size && NodeOk(ps, r, n)
    ensures SentTo(OnMessage(ps, r, n, m, die).1, k, d) <==> SendsOnMessage(ps, r, n, m, die, k, d)
    ensures NoneTwice(OnMessage(ps, r, n, m, die).1)
  {
    hide Fan, SentTo, NoneTwice;
    var ms := OnMessage(ps, r, n, m, die).1;
    NothingSent(k, d);
    if m.kind == Elect {
      ElectSends(ps, r, n, m, k, d);
    } else if m.kind == Aya && !die {
      OneSent(ms[0], k, d);
    }
  }

  lemma ElectSends(ps: Params, r: nat, n: Node, m: Msg, k: Kind, d: nat)
    requires ps.Ok() && 1 <= r < ps.size && NodeOk(ps, r, n) && m.kind == Elect
    ensures SentTo(OnElect(ps, r, n, m).1, k, d) <==> SendsOnMessage(ps, r, n, m, false, k, d)
    ensures NoneTwice(OnElect(ps, r, n, m).1)
  {
    hide Fan, SentTo, NoneTwice;
    var n1 := Heard(n, m).(dlc := Max(m.time, n.dlc) + 1, lastReceived := Elect);
    var answer := [Msg(Answer, r, m.src, n1.dlc)];
    OneSent(answer[0], k, d);
    if n1.lastSent != Elect {
      var n2 := n1.(lastSent := Nothing);
      var n3 := CallElection(ps, r, n2);
      var calls, claims := Calls(ps, r, n2), Proclaims(r, n3);
      FanSent(Elect, r, r + 1, ps.size, n2.dlc, k, d);
      FanSent(Coord, r, 1, r, n3.dlc, k, d);
      BothSent(answer, calls, k, d);
      if n3.lastSent == Nothing {
        FanAt(Elect, r, r + 1, ps.size, n2.dlc);
        assert calls == [] && answer + calls == answer;
        BothSent(answer, claims, k, d);
      }
    }
  }

  /** What a message leaves of the variables. */
  lemma MessageLeaves(ps: Params, r: nat, n: Node, m: Msg, die: bool)
    requires ps.Ok() && 1 <= r < ps.size && NodeOk(ps, r, n) && m.kind != Nothing
    ensures var n' := OnMessage(ps, r, n, m, die).0;
      && n'.tick == 0 && n'.ayaTick == n.ayaTick && n'.ayaRate == n.ayaRate
      && n'.coord == (if m.kind == Coord then m.src else n.coord)
      && n'.dead == (n.dead || (m.kind == Aya && die))
      && (m.kind != Answer ==> n'.lastReceived == m.kind)
      && (m.kind == Answer ==>
           n'.lastReceived == if n.lastSent == Elect && n.lastReceived != Coord then Answer else n.lastReceived)
      && (m.kind == Answer ==> n'.lastSent == if n.lastSent == Elect || n.lastReceived == Coord then Nothing else n.lastSent)
      && (m.kind == Elect ==> n'.lastSent == if r < ps.Top() then Elect else if r == 1 then Nothing else Coord)
      && (m.kind == Aya ==> n'.lastSent == Iaa)
      && (m.kind == Coord || m.kind == Iaa ==> n'.lastSent == n.lastSent)
  {
  }

  /** What is left after a dead coordinator's time is up: a node that has sent and received nothing, with the coordinator it had. */
  lemma RevivalLeaves(n: Node)
    ensures var n' := Revived(n);
      n'.lastSent == n'.lastReceived == Nothing && !n'.dead && n'.coord == n.coord && n'.dlc == n.dlc && n'.tick == n.tick
  {
  }

  // ---------- ticks ----------

  /** On a tick that is a timeout: the node asks now, or has asked and got no IAA, or was called off and has waited for a COORD long
      enough, or never heard of an election. */
  predicate Calling(ps: Params, n: Node)
    requires ps.Ok()
  {
    && (n.tick + 1) % ps.timeout == 0
    && (AsksNow(Ticked(n)) || n.lastSent == Aya
        || (n.lastSent == Nothing && (n.lastReceived == Nothing || (n.lastReceived == Answer && (n.tick + 1) % (ps.size - 1) == 0))))
  }

  /** Likewise: nobody has answered the node's election. */
  predicate Claiming(ps: Params, n: Node)
    requires ps.Ok()
  {
    && (n.tick + 1) % ps.timeout == 0 && !AsksNow(Ticked(n))
    && (n.lastSent == Elect || (n.lastSent == Nothing && n.lastReceived == Elect))
  }

  predicate SendsOnTick(ps: Params, r: nat, n: Node, k: Kind, d: nat)
    requires ps.Ok()
  {
    match k
    case Aya => AsksNow(Ticked(n)) && d == n.coord
    case Elect => Calling(ps, n) && r < d < ps.size
    case Coord => Claiming(ps, n) && 1 <= d < r
    case _ => false
  }

  /** The condition of the source multiplies by the timeout, which is not 0. */
  lemma Multiplied(a: nat, b: nat)
    requires b > 0
    ensures a * b == 0 <==> a == 0
  {
  }

  /** A tick sends AYA to the coordinator, ELECT to all higher ranks and COORD to all lower ones, each exactly when it is time, and
      never a message twice. */
  lemma TickSends(ps: Params, r: nat, n: Node, rn: nat, k: Kind, d: nat)
    requires ps.Ok() && 1 <= r < ps.size
    ensures SentTo(OnTick(ps, r, n, rn).1, k, d) <==> SendsOnTick(ps, r, n, k, d)
    ensures NoneTwice(OnTick(ps, r, n, rn).1)
  {
    hide Fan, SentTo, NoneTwice;
    var n0 := Ticked(n);
    var n1 := if AsksNow(n0) then Asked(ps, n0, rn) else n0;
    var asks := if AsksNow(n0) then [Msg(Aya, r, n0.coord, n0.dlc + 1)] else [];
    var more := if n1.tick % ps.timeout == 0 then OnTimeout(ps, r, n1).1 else [];
    assert asks + [] == asks;
    assert OnTick(ps, r, n, rn).1 == asks + more;
    Multiplied(n1.tick % (ps.size - 1), ps.timeout);
    NothingSent(k, d);
    OneSent(Msg(Aya, r, n0.coord, n0.dlc + 1), k, d);
    FanSent(Elect, r, r + 1, ps.size, n1.dlc, k, d);
    FanSent(Coord, r, 1, r, n1.dlc, k, d);
    BothSent(asks, more, k, d);
  }

  /** A tick makes a node forget its coordinator exactly if it calls or claims; asking draws the next rate, below 2 * AYATime. */
  lemma TickLeaves(ps: Params, r: nat, n: Node, rn: nat)
    requires ps.Ok() && 1 <= r < ps.size
    ensures var n' := OnTick(ps, r, n, rn).0;
      && n'.coord == (if Calling(ps, n) || Claiming(ps, n) then 0 else n.coord)
      && n'.tick == (if Calling(ps, n) || Claiming(ps, n) then 0 else n.tick + 1)
      && n'.ayaTick == n.ayaTick + 1 && n'.dead == n.dead
      && n'.ayaRate == (if AsksNow(Ticked(n)) then rn % (2 * ps.ayaTime) else n.ayaRate)
      && n'.ayaRate < (if AsksNow(Ticked(n)) then 2 * ps.ayaTime else n.ayaRate + 1)
      && n'.lastSent == (if Calling(ps, n) && r < ps.Top() then Elect
                         else if Claiming(ps, n) && 1 < r then Coord
                         else if AsksNow(Ticked(n)) then Aya else n.lastSent)
      && n'.lastReceived == (if Calling(ps, n) && r < ps.Top() && n.lastSent == Nothing && !AsksNow(Ticked(n)) then Nothing
                             else n.lastReceived)
  {
    var n0 := Ticked(n);
    var n1 := if AsksNow(n0) then Asked(ps, n0, rn) else n0;
    Multiplied(n1.tick % (ps.size - 1), ps.timeout);
  }

  /** The node after `k` more ticks that bring no timeout. */
  function Later(n: Node, k: nat): Node {
    n.(tick := n.tick + k, ayaTick := n.ayaTick + k)
  }

  /** A node with a coordinator asks it at the next tick if its rate is 0, otherwise at the next multiple of the rate: at most
      that many ticks later, and not before. */
  lemma AsksInTime(n: Node) returns (k: nat)
    requires n.coord != 0
    ensures 1 <= k <= (if n.ayaRate == 0 then 1 else n.ayaRate) && AsksNow(Later(n, k))
    ensures forall j: nat :: 1 <= j < k ==> !AsksNow(Later(n, j))
  {
    if n.ayaRate == 0 {
      k := 1;
    } else {
      var q, m := n.ayaTick / n.ayaRate, n.ayaTick % n.ayaRate;
      k := n.ayaRate - m;
      Remainder(q, m, n.ayaRate, n.ayaTick);
      forall j: nat | 1 <= j < k ensures !AsksNow(Later(n, j)) { NoMultiple(q, m, n.ayaRate, n.ayaTick, j); }
    }
  }

  lemma Remainder(q: nat, m: nat, b: nat, a: nat)
    requires b > 0 && a == b * q + m && m < b
    ensures (a + (b - m)) % b == 0
  {
    assert a + (b - m) == b * (q + 1) + 0;
    Rest(q + 1, 0, b);
  }

  lemma NoMultiple(q: nat, m: nat, b: nat, a: nat, j: nat)
    requires b > 0 && a == b * q + m && 1 <= j < b - m
    ensures (a + j) % b != 0
  {
    assert a + j == b * q + (m + j);
    Rest(q, m + j, b);
  }

  lemma Rest(q: nat, m: nat, b: nat)
    requires m < b
    ensures (b * q + m) % b == m
  {
    var x := b * q + m;
    var p, n := x / b, x % b;
    assert x == b * p + n && 0 <= n < b;
    OneQuotient(b, q, p, m, n);
  }

  lemma OneQuotient(b: nat, q: int, p: int, m: nat, n: nat)
    requires b * q + m == b * p + n && m < b && n < b
    ensures m == n
  {
    Apart(b, q, p);
    Apart(b, p, q);
  }

  lemma Apart(b: nat, q: int, p: int)
    ensures q < p ==> b * q + b <= b * p
  {
    if q < p {
      var e: nat := p - q - 1;
      assert b * p == b * (q + 1 + e) == b * q + b + b * e;
      NotNegative(b, e);
    }
  }

  lemma NotNegative(b: nat, e: nat)
    ensures b * e >= 0
  {
  }
}
