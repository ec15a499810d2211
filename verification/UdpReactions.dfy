/** What a node of the UDP election sends on each input, by kinds, addressees and numbers, and how it numbers its own elections. */
module UdpReactions {
  import opened Election
  import opened UdpElection

  // ---------- the loops over the group list ----------

  /** The higher members are those of the list above the node, each as often as it stands there; the lower ones likewise. */
  lemma {:induction false} MembersOf(group: seq<nat>, port: nat, x: nat)
    ensures multiset(Higher(group, port))[x] == if x > port then multiset(group)[x] else 0
    ensures multiset(Lower(group, port))[x] == if x < port then multiset(group)[x] else 0
    decreases |group|
  {
    if group != [] {
      var front, last := group[..|group| - 1], group[|group| - 1];
      assert group == front + [last];
      MembersOf(front, port, x);
    }
  }

  lemma {:induction false} AllCopies(k: Kind, tos: seq<nat>, id: nat, s: Send)
    ensures multiset(All(k, tos, id))[s] == if s.kind == k && s.id == id then multiset(tos)[s.to] else 0
    decreases |tos|
  {
    if tos != [] {
      var front, last := tos[..|tos| - 1], tos[|tos| - 1];
      assert tos == front + [last];
      AllCopies(k, front, id, s);
    }
  }

  /** The `j`-th message of an own election goes to the `j`-th addressee with the `j`-th number. */
  lemma {:induction false} NumberedAt(tos: seq<nat>, c: nat)
    ensures |Numbered(tos, c)| == |tos|
    ensures forall j :: 0 <= j < |tos| ==> Numbered(tos, c)[j] == Send(Elect, tos[j], c + j)
    decreases |tos|
  {
    if tos != [] { NumberedAt(tos[..|tos| - 1], c); }
  }

  // ---------- one input ----------

  predicate NobodyAbove(group: seq<nat>, port: nat) {
    forall i :: 0 <= i < |group| ==> group[i] <= port
  }

  predicate Claims(p: Peer, x: Input) {
    x.Timeout? && (p.lastSent == Elect || (p.lastSent == Nothing && p.lastReceived == Elect))
  }

  predicate CallsOwn(p: Peer, x: Input) {
    x.Timeout? && (p.lastSent == Aya || (p.lastSent == Nothing && p.lastReceived == Answer))
  }

  /** How many copies of `s` the input makes the node send, when it does not call an election of its own. */
  function Copies(group: seq<nat>, port: nat, p: Peer, x: Input, s: Send): nat {
    match s.kind
    case Answer => if x == Receive(Elect, s.to, s.id) then 1 else 0
    case Iaa => if x == Receive(Aya, s.to, s.id) then 1 else 0
    case Aya => if x == Ask(s.to) && s.id == port then 1 else 0
    case Elect =>
      if x.Receive? && x.kind == Elect && s.id == x.id && p.lastSent != Elect && s.to > port then multiset(group)[s.to] else 0
    case Coord =>
      if s.id == 0 && s.to < port && (Claims(p, x) || (x.Receive? && x.kind == Elect && p.lastSent != Elect && NobodyAbove(group, port)))
      then multiset(group)[s.to] else 0
    case Nothing => 0
  }

  lemma NoneHigher(group: seq<nat>, port: nat)
    ensures Higher(group, port) == [] <==> NobodyAbove(group, port)
  {
    if Higher(group, port) != [] {
      var x := Higher(group, port)[0];
      MembersOf(group, port, x);
      assert x in multiset(Higher(group, port));
      assert x in group;
      var i :| 0 <= i < |group| && group[i] == x;
    }
    if !NobodyAbove(group, port) {
      var i :| 0 <= i < |group| && group[i] > port;
      MembersOf(group, port, group[i]);
      assert group[i] in multiset(group);
      assert group[i] in multiset(Higher(group, port));
    }
  }

  lemma ElectCopies(group: seq<nat>, port: nat, p: Peer, from: nat, id: nat, s: Send)
    ensures multiset(UdpElection.OnElect(group, port, p, from, id).1)[s] == Copies(group, port, p, Receive(Elect, from, id), s)
  {
    hide Higher, Lower, All;
    NoneHigher(group, port);
    MembersOf(group, port, s.to);
    AllCopies(Elect, Higher(group, port), id, s);
    AllCopies(Coord, Lower(group, port), 0, s);
    assert multiset([Send(Answer, from, id)])[s] == if s == Send(Answer, from, id) then 1 else 0;
  }

  /** Answers go back to the sender with its number, an ELECT is passed on with its number to every higher member or settled with a
      COORD to every lower one, a timeout that announces the node tells every lower member, and nothing else is sent. */
  lemma InputSends(group: seq<nat>, port: nat, p: Peer, x: Input, s: Send)
    requires !CallsOwn(p, x)
    ensures multiset(OnInput(group, port, p, x).1)[s] == Copies(group, port, p, x, s)
  {
    hide Higher, Lower, All, Numbered;
    if x.Receive? && x.kind == Elect {
      ElectCopies(group, port, p, x.from, x.id, s);
    } else if x.Timeout? {
      MembersOf(group, port, s.to);
      AllCopies(Coord, Lower(group, port), 0, s);
    }
  }

  /** A timeout that calls an election sends one ELECT to every higher member, with the next numbers. */
  lemma OwnSends(group: seq<nat>, port: nat, p: Peer, x: Input)
    requires CallsOwn(p, x)
    ensures var (p', out) := OnInput(group, port, p, x); var tos := Higher(group, port);
      && |out| == |tos| && (forall j :: 0 <= j < |out| ==> out[j] == Send(Elect, tos[j], p.counter + j))
      && p'.counter == p.counter + |tos|
  {
    NumberedAt(Higher(group, port), p.counter);
  }

  /** What an input leaves of the variables. */
  lemma InputLeaves(group: seq<nat>, port: nat, p: Peer, x: Input)
    ensures var p' := OnInput(group, port, p, x).0; var above, below := Higher(group, port) != [], Lower(group, port) != [];
      && (!CallsOwn(p, x) ==> p'.counter == p.counter)
      && p'.lastReceived == (if x.Receive? && (x.kind == Elect || x.kind == Coord || x.kind == Aya || (x.kind == Answer && p.lastSent == Elect))
                             then x.kind else p.lastReceived)
      && p'.lastSent ==
           (if x.Ask? then Aya
            else if Claims(p, x) then (if below then Coord else p.lastSent)
            else if CallsOwn(p, x) then (if above then Elect else p.lastSent)
            else if x.Timeout? then p.lastSent
            else if x.kind == Aya then Iaa
            else if x.kind == Answer && p.lastSent == Elect then Nothing
            else if x.kind == Elect && p.lastSent != Elect then (if above then Elect else if below then Coord else Nothing)
            else p.lastSent)
  {
    hide Higher, Lower;
  }

  // ---------- the numbers of a node's own elections ----------

  /** The numbers of the ELECTs the node sends of its own over a run of inputs, in their order. */
  function OwnNumbers(group: seq<nat>, port: nat, p: Peer, xs: seq<Input>): seq<nat>
    decreases |xs|
  {
    if xs == [] then []
    else
      var (p', out) := OnInput(group, port, p, xs[0]);
      Ids(if CallsOwn(p, xs[0]) then out else []) + OwnNumbers(group, port, p', xs[1..])
  }

  function Ids(out: seq<Send>): seq<nat> {
    seq(|out|, j requires 0 <= j < |out| => out[j].id)
  }

  /** They go up by one from message to message: no number is ever used twice, whatever is received in between. */
  lemma {:induction false} NumbersCountOn(group: seq<nat>, port: nat, p: Peer, xs: seq<Input>)
    ensures forall j :: 0 <= j < |OwnNumbers(group, port, p, xs)| ==> OwnNumbers(group, port, p, xs)[j] == p.counter + j
    decreases |xs|
  {
    if xs != [] {
      var x := xs[0];
      var (p', out) := OnInput(group, port, p, x);
      if CallsOwn(p, x) { OwnSends(group, port, p, x); } else { InputLeaves(group, port, p, x); }
      hide OnInput, Higher;
      NumbersCountOn(group, port, p', xs[1..]);
    }
  }

  /** And the first ones, sent at start-up, begin with 1: the numbers of a node's own elections are 1, 2, 3 and so on. */
  lemma NumbersFromStart(group: seq<nat>, port: nat, xs: seq<Input>)
    ensures var (p, out) := StartUp(group, port); var all := Ids(out) + OwnNumbers(group, port, p, xs);
      && |out| == |Higher(group, port)| && (forall j :: 0 <= j < |out| ==> out[j].kind == Elect && out[j].to == Higher(group, port)[j])
      && forall j :: 0 <= j < |all| ==> all[j] == 1 + j
  {
    NumberedAt(Higher(group, port), 1);
    NumbersCountOn(group, port, StartUp(group, port).0, xs);
  }
}
