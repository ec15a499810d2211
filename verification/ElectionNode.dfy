/** handleNode of the election: the variables it updates and the loops it sends with. */
module ElectionNode {
  import opened Election

  /** What one turn of the receive loop gets: a clock tick with a random number, a message with the outcome of the draw
      on an AYA, or the end of a dead coordinator's waiting time. */
  datatype Input = Clock(rn: nat) | Receive(m: Msg, die: bool) | TimeUp

  /** A dead coordinator receives and ignores everything until its time is up. */
  function OnInput(ps: Params, r: nat, n: Node, x: Input): (Node, seq<Msg>)
    requires ps.Ok()
  {
    if n.dead then (if x.TimeUp? then Revived(n) else n, [])
    else match x
      case Clock(rn) => OnTick(ps, r, n, rn)
      case Receive(m, die) => OnMessage(ps, r, n, m, die)
      case TimeUp => (n, [])
  }

  function OnInputs(ps: Params, r: nat, n: Node, xs: seq<Input>): (Node, seq<Msg>)
    requires ps.Ok()
    decreases |xs|
  {
    if xs == [] then (n, [])
    else
      var (n1, ms) := OnInput(ps, r, n, xs[0]);
      var (n2, more) := OnInputs(ps, r, n1, xs[1..]);
      (n2, ms + more)
  }

  class Process {
    const ps: Params
    const rank: nat
    var tick: nat
    var ayaTick: nat
    var ayaRate: nat
    var dlcTime: nat
    var lastSent: Kind
    var lastReceived: Kind
    var coordNode: nat
    var coordDead: bool
    var sent: seq<Msg>

    ghost predicate Valid() {
      ps.Ok() && 1 <= rank < ps.size
    }

    ghost function View(): Node
      reads this
    {
      Node(tick, ayaTick, ayaRate, dlcTime, lastSent, lastReceived, coordNode, coordDead)
    }

    constructor (p: Params, r: nat)
      requires p.Ok() && 1 <= r < p.size
      ensures Valid() && ps == p && rank == r && (View(), sent) == Started(p, r)
    {
      ps, rank := p, r;
      tick, ayaTick, ayaRate, dlcTime := 0, 0, 0, 0;
      lastSent, lastReceived, coordNode, coordDead, sent := Nothing, Nothing, 0, false, [];
      new;
      ghost var calls := Calls(p, r, Boot());
      assert [] + calls == calls;
      if rank == 1 {
        SendElect();
      }
    }

    /** The loops over the higher ranks. */
    method SendElect()
      requires Valid()
      modifies this`dlcTime, this`lastSent, this`sent
      ensures View() == CallElection(ps, rank, old(View())) && sent == old(sent) + Calls(ps, rank, old(View()))
    {
      var i := rank + 1;
      while i < ps.size
        invariant rank + 1 <= i <= ps.size
        invariant dlcTime == old(dlcTime) + (i - rank - 1) && lastSent == if i == rank + 1 then old(lastSent) else Elect
        invariant sent + Fan(Elect, rank, i, ps.size, dlcTime) == old(sent) + Calls(ps, rank, old(View()))
      {
        dlcTime := dlcTime + 1;
        sent := sent + [Msg(Elect, rank, i, dlcTime)];
        lastSent := Elect;
        i := i + 1;
      }
    }

    /** The loops over the lower ranks. */
    method SendCoord()
      requires Valid()
      modifies this`dlcTime, this`lastSent, this`sent
      ensures View() == Proclaim(rank, old(View())) && sent == old(sent) + Proclaims(rank, old(View()))
    {
      var i := 1;
      while i < rank
        invariant 1 <= i <= rank
        invariant dlcTime == old(dlcTime) + (i - 1) && lastSent == if i == 1 then old(lastSent) else Coord
        invariant sent + Fan(Coord, rank, i, rank, dlcTime) == old(sent) + Proclaims(rank, old(View()))
      {
        dlcTime := dlcTime + 1;
        sent := sent + [Msg(Coord, rank, i, dlcTime)];
        lastSent := Coord;
        i := i + 1;
      }
    }

    method HandleElect(m: Msg)
      requires Valid() && m.kind == Elect
      modifies this
      ensures (View(), sent) == (var (n, ms) := OnMessage(ps, rank, old(View()), m, false); (n, old(sent) + ms))
    {
      tick := 0;
      dlcTime := if m.time > dlcTime then m.time else dlcTime;
      dlcTime := dlcTime + 1;
      ghost var answer := [Msg(Answer, rank, m.src, dlcTime)];
      sent := sent + [Msg(Answer, rank, m.src, dlcTime)];
      lastReceived := Elect;
      if lastSent == Elect {
        return;
      }
      lastSent := Nothing;
      ghost var n2 := View();
      SendElect();
      if lastSent == Nothing {
        SendCoord();
        assert sent == old(sent) + (answer + Calls(ps, rank, n2) + Proclaims(rank, CallElection(ps, rank, n2)));
      } else {
        assert sent == old(sent) + (answer + Calls(ps, rank, n2));
      }
    }

    /** The switch on the tag of a received message. */
    method HandleMessage(m: Msg, die: bool)
      requires Valid()
      modifies this
      ensures (View(), sent) == (var (n, ms) := OnMessage(ps, rank, old(View()), m, die); (n, old(sent) + ms))
    {
      assert sent + [] == sent;
      match m.kind {
        case Elect =>
          HandleElect(m);
        case Answer =>
          Hear(m);
          if lastReceived == Coord {
            lastSent := Nothing;
          } else if lastSent == Elect {
            lastReceived := Answer;
            lastSent := Nothing;
          }
        case Coord =>
          Hear(m);
          lastReceived := Coord;
          coordNode := m.src;
        case Aya =>
          Hear(m);
          lastReceived := Aya;
          lastSent := Iaa;
          dlcTime := dlcTime + 1;
          if !die {
            sent := sent + [Msg(Iaa, rank, m.src, dlcTime)];
          } else {
            coordDead := true;
          }
        case Iaa =>
          Hear(m);
          lastReceived := Iaa;
        case Nothing =>
          Hear(m);
      }
    }

    method Hear(m: Msg)
      modifies this`tick, this`dlcTime
      ensures View() == Heard(old(View()), m)
    {
      tick := 0;
      dlcTime := if m.time > dlcTime then m.time else dlcTime;
    }

    /** The switch on `lastSent` after a timeout. */
    method HandleTimeout()
      requires Valid() && tick != 0
      modifies this
      ensures (View(), sent) == (var (n, ms) := OnTimeout(ps, rank, old(View())); (n, old(sent) + ms))
    {
      assert sent + [] == sent;
      match lastSent {
        case Nothing =>
          if lastReceived == Nothing || (lastReceived == Answer && (tick % (ps.size - 1)) * ps.timeout == 0) {
            SendElect();
            if lastSent == Elect {
              lastReceived := Nothing;
            }
            tick := 0;
            coordNode := 0;
          }
          if lastReceived == Elect {
            SendCoord();
            tick := 0;
            coordNode := 0;
          }
        case Elect =>
          SendCoord();
          tick := 0;
          coordNode := 0;
        case Aya =>
          SendElect();
          tick := 0;
          coordNode := 0;
        case _ =>
      }
    }

    /** A clock tick, and the timeout it may bring. */
    method HandleTick(rn: nat)
      requires Valid()
      modifies this
      ensures (View(), sent) == (var (n, ms) := OnTick(ps, rank, old(View()), rn); (n, old(sent) + ms))
    {
      tick := tick + 1;
      ayaTick := ayaTick + 1;
      ghost var asks := [];
      if (ayaRate == 0 || ayaTick % ayaRate == 0) && coordNode != 0 {
        ayaRate := rn % (2 * ps.ayaTime);
        lastSent := Aya;
        dlcTime := dlcTime + 1;
        sent := sent + [Msg(Aya, rank, coordNode, dlcTime)];
        asks := [Msg(Aya, rank, coordNode, dlcTime)];
      }
      ghost var n1 := View();
      assert sent == old(sent) + asks;
      if tick % ps.timeout == 0 && tick != 0 {
        HandleTimeout();
        assert sent == old(sent) + (asks + OnTimeout(ps, rank, n1).1);
      }
    }

    /** One turn of the receive loop. */
    method HandleInput(x: Input)
      requires Valid()
      modifies this
      ensures (View(), sent) == (var (n, ms) := OnInput(ps, rank, old(View()), x); (n, old(sent) + ms))
    {
      assert sent + [] == sent;
      if coordDead {
        if x.TimeUp? {
          lastSent, lastReceived, coordDead := Nothing, Nothing, false;
        }
      } else {
        match x {
          case Clock(rn) => HandleTick(rn);
          case Receive(m, die) => HandleMessage(m, die);
          case TimeUp =>
        }
      }
    }

    /** The receive loop. */
    method HandleNode(xs: seq<Input>)
      requires Valid()
      modifies this
      ensures (View(), sent) == (var (n, ms) := OnInputs(ps, rank, old(View()), xs); (n, old(sent) + ms))
    {
      ghost var all := OnInputs(ps, rank, View(), xs);
      ghost var first := sent;
      hide OnInput, OnInputs;
      var i := 0;
      assert xs[0..] == xs;
      while i < |xs|
        invariant 0 <= i <= |xs|
        invariant OnInputs(ps, rank, View(), xs[i..]).0 == all.0
        invariant sent + OnInputs(ps, rank, View(), xs[i..]).1 == first + all.1
      {
        assert xs[i..][0] == xs[i] && xs[i..][1..] == xs[i + 1..];
        OneInput(View(), xs[i..], sent);
        HandleInput(xs[i]);
        i := i + 1;
      }
      NoInput(View(), xs[i..], sent);
    }

    lemma OneInput(n: Node, xs: seq<Input>, done: seq<Msg>)
      requires ps.Ok() && xs != []
      ensures var (n1, ms) := OnInput(ps, rank, n, xs[0]);
        OnInputs(ps, rank, n, xs).0 == OnInputs(ps, rank, n1, xs[1..]).0
        && done + OnInputs(ps, rank, n, xs).1 == (done + ms) + OnInputs(ps, rank, n1, xs[1..]).1
    {
      hide OnInput;
    }

    lemma NoInput(n: Node, xs: seq<Input>, done: seq<Msg>)
      requires ps.Ok() && xs == []
      ensures OnInputs(ps, rank, n, xs) == (n, []) && done + [] == done
    {
    }
  }

  /** A dead coordinator neither changes nor sends anything, whatever it receives and however the clock ticks, until its time is up;
      then it has sent and received nothing, and goes on. */
  lemma {:induction false} DeadIgnores(ps: Params, r: nat, n: Node, xs: seq<Input>)
    requires ps.Ok() && n.dead && forall i :: 0 <= i < |xs| ==> !xs[i].TimeUp?
    ensures OnInputs(ps, r, n, xs) == (n, [])
    ensures OnInput(ps, r, n, TimeUp) == (n.(lastSent := Nothing, lastReceived := Nothing, dead := false), [])
    decreases |xs|
  {
    if xs != [] {
      assert OnInput(ps, r, n, xs[0]) == (n, []);
      DeadIgnores(ps, r, n, xs[1..]);
      var none: seq<Msg> := [];
      assert none + none == none;
    }
  }
}
