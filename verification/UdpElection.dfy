/** The same election over UDP: one node of a group list, its start-up, its messages and its timeouts. */
module UdpElection {
  import opened Election

  datatype Send = Send(kind: Kind, to: nat, id: nat)

  /** `counter` numbers the elections the node calls. */
  datatype Peer = Peer(lastSent: Kind, lastReceived: Kind, counter: nat)

  function Higher(group: seq<nat>, port: nat): seq<nat>
    decreases |group|
  {
    if group == [] then []
    else Higher(group[..|group| - 1], port) + if group[|group| - 1] > port then [group[|group| - 1]] else []
  }

  function Lower(group: seq<nat>, port: nat): seq<nat>
    decreases |group|
  {
    if group == [] then []
    else Lower(group[..|group| - 1], port) + if group[|group| - 1] < port then [group[|group| - 1]] else []
  }

  /** An own election: one number per message. */
  function Numbered(tos: seq<nat>, c: nat): seq<Send>
    decreases |tos|
  {
    if tos == [] then [] else Numbered(tos[..|tos| - 1], c) + [Send(Elect, tos[|tos| - 1], c + |tos| - 1)]
  }

  /** The same message to several nodes. */
  function All(k: Kind, tos: seq<nat>, id: nat): seq<Send>
    decreases |tos|
  {
    if tos == [] then [] else All(k, tos[..|tos| - 1], id) + [Send(k, tos[|tos| - 1], id)]
  }

  function CallOwn(group: seq<nat>, port: nat, p: Peer): Peer {
    var n := |Higher(group, port)|;
    p.(counter := p.counter + n, lastSent := if n > 0 then Elect else p.lastSent)
  }

  function Announce(group: seq<nat>, port: nat, p: Peer): Peer {
    if Lower(group, port) != [] then p.(lastSent := Coord) else p
  }

  /** Start-up when the first wait timed out. As coded, `lastSent` is reset for every member of the list, so that it only
      remembers an ELECT to the last one. */
  function StartUp(group: seq<nat>, port: nat): (Peer, seq<Send>) {
    var tos := Higher(group, port);
    (Peer(if group != [] && group[|group| - 1] > port then Elect else Nothing, if group == [] then Nothing else Elect, 1 + |tos|),
     Numbered(tos, 1))
  }

  datatype Input = Receive(kind: Kind, from: nat, id: nat) | Timeout | Ask(to: nat)

  function OnElect(group: seq<nat>, port: nat, p: Peer, from: nat, id: nat): (Peer, seq<Send>) {
    var answer := [Send(Answer, from, id)];
    var p1 := p.(lastReceived := Elect);
    if p.lastSent == Elect then (p1, answer)
    else if Higher(group, port) != [] then (p1.(lastSent := Elect), answer + All(Elect, Higher(group, port), id))
    else (Announce(group, port, p1.(lastSent := Nothing)), answer + All(Coord, Lower(group, port), 0))
  }

  function OnTimeout(group: seq<nat>, port: nat, p: Peer): (Peer, seq<Send>) {
    if p.lastSent == Elect || (p.lastSent == Nothing && p.lastReceived == Elect) then
      (Announce(group, port, p), All(Coord, Lower(group, port), 0))
    else if p.lastSent == Aya || (p.lastSent == Nothing && p.lastReceived == Answer) then
      (CallOwn(group, port, p), Numbered(Higher(group, port), p.counter))
    else (p, [])
  }

  function OnInput(group: seq<nat>, port: nat, p: Peer, x: Input): (Peer, seq<Send>) {
    match x
    case Timeout => OnTimeout(group, port, p)
    case Ask(to) => (p.(lastSent := Aya), [Send(Aya, to, port)])
    case Receive(Elect, from, id) => OnElect(group, port, p, from, id)
    case Receive(Answer, _, _) => (if p.lastSent == Elect then p.(lastReceived := Answer, lastSent := Nothing) else p, [])
    case Receive(Coord, _, _) => (p.(lastReceived := Coord), [])
    case Receive(Aya, from, id) => (p.(lastReceived := Aya, lastSent := Iaa), [Send(Iaa, from, id)])
    case Receive(_, _, _) => (p, [])
  }

  // ---------- the loops over the group list ----------

  class Process {
    const group: seq<nat>
    const port: nat
    var lastSent: Kind
    var lastReceived: Kind
    var counter: nat
    var sent: seq<Send>

    ghost function View(): Peer
      reads this
    {
      Peer(lastSent, lastReceived, counter)
    }

    constructor (g: seq<nat>, p: nat)
      ensures group == g && port == p && View() == Peer(Nothing, Nothing, 1) && sent == []
    {
      group, port := g, p;
      lastSent, lastReceived, counter, sent := Nothing, Nothing, 1, [];
    }

    /** The loop after a first wait without a message. */
    method StartAfterTimeout()
      requires View() == Peer(Nothing, Nothing, 1) && sent == []
      modifies this
      ensures (View(), sent) == StartUp(group, port)
    {
      var i := 0;
      hide Higher, Numbered;
      NobodyYet(group, port, 1);
      while i < |group|
        invariant 0 <= i <= |group| && (View(), sent) == StartUp(group[..i], port)
      {
        lastReceived := Elect;
        lastSent := Nothing;
        HigherStep(group, port, i);
        NumberedOn([], Higher(group[..i], port), group[i], 1);
        if group[i] > port {
          sent := sent + [Send(Elect, group[i], counter)];
          counter := counter + 1;
          lastSent := Elect;
        }
        i := i + 1;
      }
      assert group[..i] == group;
    }

    /** ELECT to every higher member, each with a new number. */
    method SendOwn()
      modifies this
      ensures (View(), sent) == (CallOwn(group, port, old(View())), old(sent) + Numbered(Higher(group, port), old(counter)))
    {
      var i := 0;
      hide Higher, Numbered;
      NobodyYet(group, port, counter);
      assert sent + [] == sent;
      while i < |group|
        invariant 0 <= i <= |group| && View() == CallOwn(group[..i], port, old(View()))
        invariant sent == old(sent) + Numbered(Higher(group[..i], port), old(counter))
      {
        HigherStep(group, port, i);
        NumberedOn(old(sent), Higher(group[..i], port), group[i], old(counter));
        if group[i] > port {
          sent := sent + [Send(Elect, group[i], counter)];
          counter := counter + 1;
          lastSent := Elect;
        }
        i := i + 1;
      }
      assert group[..i] == group;
    }

    /** ELECT to every higher member, with the number of the election that reached the node. */
    method Forward(id: nat)
      modifies this`lastSent, this`sent
      ensures lastSent == if Higher(group, port) != [] then Elect else old(lastSent)
      ensures sent == old(sent) + All(Elect, Higher(group, port), id)
    {
      hide Higher, All;
      var i := 0;
      NobodyYet(group, port, id);
      assert sent + [] == sent;
      while i < |group|
        invariant 0 <= i <= |group| && lastSent == if Higher(group[..i], port) != [] then Elect else old(lastSent)
        invariant sent == old(sent) + All(Elect, Higher(group[..i], port), id)
      {
        HigherStep(group, port, i);
        AllOn(old(sent), Elect, Higher(group[..i], port), group[i], id);
        if group[i] > port {
          sent := sent + [Send(Elect, group[i], id)];
          lastSent := Elect;
        }
        i := i + 1;
      }
      assert group[..i] == group;
    }

    method SendCoord()
      modifies this`lastSent, this`sent
      ensures View() == Announce(group, port, old(View())) && sent == old(sent) + All(Coord, Lower(group, port), 0)
    {
      hide Lower, All;
      var i := 0;
      NobodyYet(group, port, 0);
      assert sent + [] == sent;
      while i < |group|
        invariant 0 <= i <= |group| && View() == Announce(group[..i], port, old(View()))
        invariant sent == old(sent) + All(Coord, Lower(group[..i], port), 0)
      {
        LowerStep(group, port, i);
        AllOn(old(sent), Coord, Lower(group[..i], port), group[i], 0);
        if group[i] < port {
          sent := sent + [Send(Coord, group[i], 0)];
          lastSent := Coord;
        }
        i := i + 1;
      }
      assert group[..i] == group;
    }

    /** handleMsg. */
    method HandleMsg(kind: Kind, from: nat, id: nat)
      modifies this
      ensures (View(), sent) == (var (p, out) := OnInput(group, port, old(View()), Receive(kind, from, id)); (p, old(sent) + out))
    {
      assert sent + [] == sent;
      match kind {
        case Elect =>
          ghost var answer := [Send(Answer, from, id)];
          sent := sent + [Send(Answer, from, id)];
          lastReceived := Elect;
          if lastSent == Elect {
            return;
          }
          lastSent := Nothing;
          Forward(id);
          if lastSent == Nothing {
            SendCoord();
            assert old(sent) + answer + [] + All(Coord, Lower(group, port), 0) == old(sent) + (answer + All(Coord, Lower(group, port), 0));
          } else {
            assert old(sent) + answer + All(Elect, Higher(group, port), id) == old(sent) + (answer + All(Elect, Higher(group, port), id));
          }
        case Answer =>
          if lastSent == Elect {
            lastReceived := Answer;
            lastSent := Nothing;
          }
        case Coord =>
          lastReceived := Coord;
        case Aya =>
          lastReceived := Aya;
          lastSent := Iaa;
          sent := sent + [Send(Iaa, from, id)];
        case _ =>
      }
    }

    /** The switch on `lastSent` when a wait timed out. */
    method HandleTimeout()
      modifies this
      ensures (View(), sent) == (var (p, out) := OnInput(group, port, old(View()), Timeout); (p, old(sent) + out))
    {
      assert sent + [] == sent;
      match lastSent {
        case Elect =>
          SendCoord();
        case Aya =>
          SendOwn();
        case Nothing =>
          if lastReceived == Answer {
            SendOwn();
          }
          if lastReceived == Elect {
            SendCoord();
          }
        case _ =>
      }
    }
  }

  lemma NobodyYet(group: seq<nat>, port: nat, c: nat)
    ensures Higher(group[..0], port) == Lower(group[..0], port) == [] && Numbered([], c) == []
    ensures forall k :: All(k, [], c) == []
  {
  }

  lemma LowerStep(group: seq<nat>, port: nat, i: nat)
    requires i < |group|
    ensures Lower(group[..i + 1], port) == if group[i] < port then Lower(group[..i], port) + [group[i]] else Lower(group[..i], port)
  {
    assert group[..i + 1][..i] == group[..i] && group[..i + 1][i] == group[i];
  }

  lemma NumberedOn(before: seq<Send>, tos: seq<nat>, to: nat, c: nat)
    ensures Numbered(tos + [to], c) == Numbered(tos, c) + [Send(Elect, to, c + |tos|)]
    ensures before + Numbered(tos + [to], c) == before + Numbered(tos, c) + [Send(Elect, to, c + |tos|)]
  {
    assert (tos + [to])[..|tos|] == tos;
  }

  lemma AllOn(before: seq<Send>, k: Kind, tos: seq<nat>, to: nat, id: nat)
    ensures before + All(k, tos + [to], id) == before + All(k, tos, id) + [Send(k, to, id)]
  {
    assert (tos + [to])[..|tos|] == tos;
  }

  lemma HigherStep(group: seq<nat>, port: nat, i: nat)
    requires i < |group|
    ensures group[..i + 1][..i] == group[..i] && group[..i + 1][i] == group[i]
    ensures Higher(group[..i + 1], port) == if group[i] > port then Higher(group[..i], port) + [group[i]] else Higher(group[..i], port)
  {
  }

  // ---------- when an announcement is justified ----------

  predicate Has(k: Kind, out: seq<Send>) {
    exists i :: 0 <= i < |out| && out[i].kind == k
  }

  /** A node under observation: has it sent an ELECT and processed no ANSWER since, and was every COORD it sent so far
      sent then, or by the highest member? */
  datatype Watch = Watch(peer: Peer, unanswered: bool, justified: bool)

  function Observe(group: seq<nat>, port: nat, w: Watch, x: Input): Watch {
    var (p, out) := OnInput(group, port, w.peer, x);
    Watch(p,
          if x.Receive? && x.kind == Answer then false else w.unanswered || Has(Elect, out),
          w.justified && (Has(Coord, out) ==> Higher(group, port) == [] || w.unanswered))
  }

  function ObserveAll(group: seq<nat>, port: nat, w: Watch, xs: seq<Input>): Watch
    decreases |xs|
  {
    if xs == [] then w else ObserveAll(group, port, Observe(group, port, w, xs[0]), xs[1..])
  }

  function Begin(group: seq<nat>, port: nat): Watch {
    Watch(StartUp(group, port).0, Has(Elect, StartUp(group, port).1), true)
  }

  predicate Sound(group: seq<nat>, port: nat, w: Watch) {
    && w.justified
    && (Higher(group, port) != [] && w.peer.lastReceived == Elect ==> w.peer.lastSent != Nothing)
    && (Higher(group, port) != [] && w.peer.lastSent == Elect ==> w.unanswered)
  }

  lemma {:induction false} KindsOf(k: Kind, tos: seq<nat>, id: nat, c: nat)
    ensures forall j :: Has(j, All(k, tos, id)) <==> tos != [] && j == k
    ensures forall j :: Has(j, Numbered(tos, c)) <==> tos != [] && j == Elect
    decreases |tos|
  {
    if tos != [] {
      var all, own := All(k, tos, id), Numbered(tos, c);
      KindsOf(k, tos[..|tos| - 1], id, c);
      assert all[|all| - 1].kind == k && own[|own| - 1].kind == Elect;
      AppendKind(All(k, tos[..|tos| - 1], id), all[|all| - 1]);
      AppendKind(Numbered(tos[..|tos| - 1], c), own[|own| - 1]);
    }
  }

  lemma AppendKind(out: seq<Send>, s: Send)
    ensures forall j :: Has(j, out + [s]) <==> Has(j, out) || j == s.kind
  {
    forall j ensures Has(j, out + [s]) <==> Has(j, out) || j == s.kind {
      assert (out + [s])[|out|] == s;
      if Has(j, out) {
        var i :| 0 <= i < |out| && out[i].kind == j;
        assert (out + [s])[i].kind == j;
      }
    }
  }

  lemma PrependKind(s: Send, out: seq<Send>)
    ensures forall j :: Has(j, [s] + out) <==> j == s.kind || Has(j, out)
  {
    forall j ensures Has(j, [s] + out) <==> j == s.kind || Has(j, out) {
      assert ([s] + out)[0] == s;
      if Has(j, out) {
        var i :| 0 <= i < |out| && out[i].kind == j;
        assert ([s] + out)[i + 1].kind == j;
      }
    }
  }

  lemma ObserveKeeps(group: seq<nat>, port: nat, w: Watch, x: Input)
    requires Sound(group, port, w)
    ensures Sound(group, port, Observe(group, port, w, x))
  {
    var out := OnInput(group, port, w.peer, x).1;
    KindsOf(Coord, Lower(group, port), 0, 0);
    KindsOf(Elect, Higher(group, port), if x.Receive? then x.id else 0, w.peer.counter);
    if x.Receive? && x.kind == Elect && w.peer.lastSent != Elect {
      PrependKind(Send(Answer, x.from, x.id), All(Elect, Higher(group, port), x.id));
      PrependKind(Send(Answer, x.from, x.id), All(Coord, Lower(group, port), 0));
    }
  }

  lemma {:induction false} ObserveAllKeeps(group: seq<nat>, port: nat, w: Watch, xs: seq<Input>)
    requires Sound(group, port, w)
    ensures Sound(group, port, ObserveAll(group, port, w, xs))
    decreases |xs|
  {
    if xs != [] {
      ObserveKeeps(group, port, w, xs[0]);
      ObserveAllKeeps(group, port, Observe(group, port, w, xs[0]), xs[1..]);
    }
  }

  /** A node whose first wait brought a message starts with nothing sent or received: it never announces itself unjustified. */
  lemma QuietStart(group: seq<nat>, port: nat, xs: seq<Input>)
    ensures ObserveAll(group, port, Watch(Peer(Nothing, Nothing, 1), false, true), xs).justified
  {
    ObserveAllKeeps(group, port, Watch(Peer(Nothing, Nothing, 1), false, true), xs);
  }

  /** The start-up loop forgets its own election unless the group list ends with a higher member. */
  predicate Remembers(group: seq<nat>, port: nat) {
    Higher(group, port) == [] || Lower(group, port) == [] || group[|group| - 1] > port
  }

  ghost predicate AlwaysJustified(group: seq<nat>, port: nat) {
    forall xs :: ObserveAll(group, port, Begin(group, port), xs).justified
  }

  /** The run in which a forgetful node announces itself over an ANSWER: it ignores the ANSWER and waits once more. */
  lemma ForgetsAnswer(group: seq<nat>, port: nat)
    requires !Remembers(group, port)
    ensures !ObserveAll(group, port, Begin(group, port), [Receive(Answer, Higher(group, port)[0], 0), Timeout]).justified
  {
    var x := Receive(Answer, Higher(group, port)[0], 0);
    var w := Begin(group, port);
    var w1 := Observe(group, port, w, x);
    assert [x, Timeout][1..] == [Timeout] && [Timeout][1..] == [];
    assert w.peer.lastSent == Nothing && w.peer.lastReceived == Elect;
    KindsOf(Coord, Lower(group, port), 0, 0);
    assert !Observe(group, port, w1, Timeout).justified;
    assert ObserveAll(group, port, w, [x, Timeout]) == ObserveAll(group, port, w1, [Timeout]);
  }

  lemma {:induction false} NobodyBelow(group: seq<nat>, port: nat, w: Watch, xs: seq<Input>)
    requires Lower(group, port) == [] && w.justified
    ensures ObserveAll(group, port, w, xs).justified
    decreases |xs|
  {
    if xs != [] {
      var x := xs[0];
      KindsOf(Coord, [], 0, 0);
      KindsOf(Elect, Higher(group, port), if x.Receive? then x.id else 0, w.peer.counter);
      if x.Receive? && x.kind == Elect && w.peer.lastSent != Elect {
        PrependKind(Send(Answer, x.from, x.id), All(Elect, Higher(group, port), x.id));
        PrependKind(Send(Answer, x.from, x.id), All(Coord, [], 0));
      }
      NobodyBelow(group, port, Observe(group, port, w, x), xs[1..]);
    }
  }

  /** After a start-up by timeout every announcement is justified, whatever happens later, exactly when the node is the
      highest or the lowest of its group or the group list ends with a higher member. */
  lemma JustifiedIff(group: seq<nat>, port: nat)
    requires group != []
    ensures AlwaysJustified(group, port) <==> Remembers(group, port)
  {
    if Remembers(group, port) {
      forall xs ensures ObserveAll(group, port, Begin(group, port), xs).justified {
        if Lower(group, port) == [] {
          NobodyBelow(group, port, Begin(group, port), xs);
        } else {
          KindsOf(Elect, Higher(group, port), 0, 1);
          ObserveAllKeeps(group, port, Begin(group, port), xs);
        }
      }
    } else {
      ForgetsAnswer(group, port);
    }
  }
}
