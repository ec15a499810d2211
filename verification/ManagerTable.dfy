/** The manager's slot array and the table it stands for (transaction_management/tmanager.h). */
module ManagerTable {
  import opened Messages
  import opened TwoPhaseCommit

  /** A member of a transaction; port 0 marks a free seat. */
  datatype Seat = Seat(nodeId: NodeId, port: nat, vote: nat)

  /** tid 0 marks an empty slot. */
  datatype Slot = Slot(tid: Tid, workers: seq<Seat>)

  const FREE := Seat(0, 0, 0)

  /** Each member has one seat, and a free seat is as cleaning leaves it. */
  predicate SeatsOk(ws: seq<Seat>) {
    && (forall j :: 0 <= j < |ws| ==> (ws[j].nodeId == 0 <==> ws[j].port == 0) && (ws[j].nodeId == 0 ==> ws[j].vote == 0))
    && (forall j, k :: 0 <= j < k < |ws| && ws[j].nodeId != 0 ==> ws[j].nodeId != ws[k].nodeId)
  }

  predicate SlotsOk(ss: seq<Slot>) {
    && (forall i :: 0 <= i < |ss| ==> |ss[i].workers| == MAX_NODES && SeatsOk(ss[i].workers))
    && (forall i, k :: 0 <= i < k < |ss| && ss[i].tid != 0 ==> ss[i].tid != ss[k].tid)
    && (forall i, j :: 0 <= i < |ss| && ss[i].tid == 0 && 0 <= j < |ss[i].workers| ==> ss[i].workers[j] == FREE)
  }

  function MembersOf(ws: seq<Seat>): Members {
    if ws == [] then map[]
    else if ws[0].nodeId == 0 then MembersOf(ws[1..])
    else MembersOf(ws[1..])[ws[0].nodeId := ws[0].vote]
  }

  /** The table of live transactions. */
  function TableOf(ss: seq<Slot>): map<Tid, Members> {
    if ss == [] then map[]
    else if ss[0].tid == 0 then TableOf(ss[1..])
    else TableOf(ss[1..])[ss[0].tid := MembersOf(ss[0].workers)]
  }

  lemma {:induction false} MembersChar(ws: seq<Seat>)
    requires SeatsOk(ws)
    ensures forall w :: w in MembersOf(ws) ==> w != 0 && exists j :: 0 <= j < |ws| && ws[j].nodeId == w
    ensures forall j :: 0 <= j < |ws| && ws[j].nodeId != 0 ==>
              ws[j].nodeId in MembersOf(ws) && MembersOf(ws)[ws[j].nodeId] == ws[j].vote
  {
    if ws != [] {
      var rest := ws[1..];
      MembersChar(rest);
      forall w | w in MembersOf(ws) ensures w != 0 && exists j :: 0 <= j < |ws| && ws[j].nodeId == w {
        if ws[0].nodeId != w {
          var j :| 0 <= j < |rest| && rest[j].nodeId == w;
          assert ws[j + 1].nodeId == w;
        }
      }
      forall j | 0 <= j < |ws| && ws[j].nodeId != 0
        ensures ws[j].nodeId in MembersOf(ws) && MembersOf(ws)[ws[j].nodeId] == ws[j].vote
      {
        if j > 0 { assert rest[j - 1] == ws[j]; }
      }
    }
  }

  lemma {:induction false} TableChar(ss: seq<Slot>)
    requires SlotsOk(ss)
    ensures forall t :: t in TableOf(ss) ==> t != 0 && exists i :: 0 <= i < |ss| && ss[i].tid == t
    ensures forall i :: 0 <= i < |ss| && ss[i].tid != 0 ==>
              ss[i].tid in TableOf(ss) && TableOf(ss)[ss[i].tid] == MembersOf(ss[i].workers)
  {
    if ss != [] {
      var rest := ss[1..];
      TableChar(rest);
      forall t | t in TableOf(ss) ensures t != 0 && exists i :: 0 <= i < |ss| && ss[i].tid == t {
        if ss[0].tid != t {
          var i :| 0 <= i < |rest| && rest[i].tid == t;
          assert ss[i + 1].tid == t;
        }
      }
      forall i | 0 <= i < |ss| && ss[i].tid != 0
        ensures ss[i].tid in TableOf(ss) && TableOf(ss)[ss[i].tid] == MembersOf(ss[i].workers)
      {
        if i > 0 { assert rest[i - 1] == ss[i]; }
      }
    }
  }

  lemma {:induction false} TableSize(ss: seq<Slot>)
    requires SlotsOk(ss)
    ensures |TableOf(ss)| <= |ss|
    ensures |TableOf(ss)| == |ss| <==> forall i :: 0 <= i < |ss| ==> ss[i].tid != 0
  {
    hide SeatsOk, MembersOf, SlotsOk;
    if ss != [] {
      var rest := ss[1..];
      SlotsTail(ss);
      TableSize(rest);
      var m := TableOf(rest);
      assert forall i :: 0 <= i < |rest| ==> rest[i] == ss[i + 1];
      assert (forall i :: 0 <= i < |rest| ==> rest[i].tid != 0) ==> forall i :: 1 <= i < |ss| ==> ss[i].tid == rest[i - 1].tid;
      if ss[0].tid != 0 {
        FreshHead(ss);
        assert m[ss[0].tid := MembersOf(ss[0].workers)].Keys == m.Keys + {ss[0].tid};
      }
    }
  }

  lemma FreshHead(ss: seq<Slot>)
    requires SlotsOk(ss) && ss != [] && ss[0].tid != 0
    ensures ss[0].tid !in TableOf(ss[1..])
  {
    SlotsTail(ss);
    TableChar(ss[1..]);
    hide SeatsOk, MembersOf, TableOf;
    assert forall k :: 0 <= k < |ss[1..]| ==> ss[1..][k] == ss[k + 1];
  }

  lemma {:induction false} MembersSize(ws: seq<Seat>)
    requires SeatsOk(ws)
    ensures |MembersOf(ws)| <= |ws|
    ensures |MembersOf(ws)| == |ws| <==> forall j :: 0 <= j < |ws| ==> ws[j].nodeId != 0
  {
    if ws != [] {
      MembersSize(ws[1..]);
      MembersChar(ws[1..]);
      var m := MembersOf(ws[1..]);
      if ws[0].nodeId != 0 {
        assert ws[0].nodeId !in m;
        assert m[ws[0].nodeId := ws[0].vote].Keys == m.Keys + {ws[0].nodeId};
      }
      if forall j :: 0 <= j < |ws[1..]| ==> ws[1..][j].nodeId != 0 {
        assert forall j :: 1 <= j < |ws| ==> ws[j] == ws[1..][j - 1];
      }
      assert forall j :: 0 <= j < |ws[1..]| ==> ws[1..][j] == ws[j + 1];
    }
  }

  /** Storing a vote, or taking a free seat, changes the table at that member only. */
  lemma {:induction false} SeatWritten(ws: seq<Seat>, j: nat, seat: Seat)
    requires SeatsOk(ws) && j < |ws| && seat.nodeId != 0
    requires ws[j].nodeId == seat.nodeId || (ws[j].nodeId == 0 && seat.nodeId !in MembersOf(ws))
    ensures MembersOf(ws[j := seat]) == SetVote(MembersOf(ws), seat.nodeId, seat.vote)
  {
    if j == 0 {
      assert ws[j := seat][1..] == ws[1..];
    } else {
      assert ws[j := seat][1..] == ws[1..][j - 1 := seat];
      assert ws[0].nodeId != seat.nodeId;
      SeatWritten(ws[1..], j - 1, seat);
    }
  }

  lemma SeatsStayOk(ws: seq<Seat>, j: nat, seat: Seat)
    requires SeatsOk(ws) && j < |ws| && seat.nodeId != 0 && seat.port != 0
    requires ws[j].nodeId == seat.nodeId || (ws[j].nodeId == 0 && seat.nodeId !in MembersOf(ws))
    ensures SeatsOk(ws[j := seat])
  {
    MembersChar(ws);
  }

  lemma {:induction false} SlotWritten(ss: seq<Slot>, i: nat, slot: Slot)
    requires SlotsOk(ss) && i < |ss| && slot.tid != 0
    requires ss[i].tid == slot.tid || (ss[i].tid == 0 && slot.tid !in TableOf(ss))
    ensures TableOf(ss[i := slot]) == TableOf(ss)[slot.tid := MembersOf(slot.workers)]
  {
    hide SeatsOk, MembersOf;
    if i == 0 {
      assert ss[i := slot][1..] == ss[1..];
    } else {
      assert ss[i := slot][1..] == ss[1..][i - 1 := slot];
      assert ss[0].tid != slot.tid;
      SlotsTail(ss);
      SlotWritten(ss[1..], i - 1, slot);
    }
  }

  lemma {:induction false} SlotCleared(ss: seq<Slot>, i: nat, slot: Slot)
    requires SlotsOk(ss) && i < |ss| && slot.tid == 0 && ss[i].tid != 0
    ensures TableOf(ss[i := slot]) == TableOf(ss) - {ss[i].tid}
  {
    SlotsTail(ss);
    hide SeatsOk, MembersOf;
    if i == 0 {
      assert ss[i := slot][1..] == ss[1..];
      FreshHead(ss);
    } else {
      assert ss[i := slot][1..] == ss[1..][i - 1 := slot];
      assert ss[0].tid != ss[i].tid;
      SlotCleared(ss[1..], i - 1, slot);
    }
  }

  lemma SlotsTail(ss: seq<Slot>)
    requires SlotsOk(ss) && ss != []
    ensures SlotsOk(ss[1..])
  {
    hide SeatsOk;
    assert forall k :: 0 <= k < |ss[1..]| ==> ss[1..][k] == ss[k + 1];
  }

  lemma SlotsStayOk(ss: seq<Slot>, i: nat, slot: Slot)
    requires SlotsOk(ss) && i < |ss| && |slot.workers| == MAX_NODES && SeatsOk(slot.workers)
    requires slot.tid == ss[i].tid || slot.tid == 0 || slot.tid !in TableOf(ss)
    requires slot.tid == 0 ==> forall j :: 0 <= j < |slot.workers| ==> slot.workers[j] == FREE
    ensures SlotsOk(ss[i := slot])
  {
    TableChar(ss);
    hide SeatsOk, MembersOf, TableOf;
  }

  /** collectVote's verdict on the seats in their order: the first abort or missing vote decides. */
  function SeatDecision(ws: seq<Seat>, commit: nat): nat {
    if ws == [] then commit
    else if ws[0].nodeId == 0 then SeatDecision(ws[1..], commit)
    else if ws[0].vote == VOTE_ABORT || ws[0].vote == ABORT then DECIDE_ABORT
    else if ws[0].vote == 0 then WAIT
    else SeatDecision(ws[1..], DECIDE_COMMIT)
  }

  predicate Decisive(seat: Seat) {
    seat.nodeId != 0 && (seat.vote == 0 || seat.vote == VOTE_ABORT || seat.vote == ABORT)
  }

  /** The first member whose vote is missing or an abort settles it; if there is none, it is commit as soon as there is a member, and
      the variable stays as it was if there is not. */
  lemma {:induction false} FirstSettles(ws: seq<Seat>, stale: nat, j: nat)
    requires j <= |ws| && (forall k :: 0 <= k < j ==> !Decisive(ws[k])) && (j < |ws| ==> Decisive(ws[j]))
    ensures j < |ws| ==> SeatDecision(ws, stale) == if ws[j].vote == 0 then WAIT else DECIDE_ABORT
    ensures j == |ws| ==>
      SeatDecision(ws, stale) == if exists k :: 0 <= k < |ws| && ws[k].nodeId != 0 then DECIDE_COMMIT else stale
  {
    if j > 0 {
      var rest := ws[1..];
      assert forall k :: 0 <= k < |rest| ==> rest[k] == ws[k + 1];
      FirstSettles(rest, if ws[0].nodeId == 0 then stale else DECIDE_COMMIT, j - 1);
      if j == |ws| && ws[0].nodeId == 0 && exists k :: 0 <= k < |ws| && ws[k].nodeId != 0 {
        var k :| 0 <= k < |ws| && ws[k].nodeId != 0;
        assert rest[k - 1].nodeId != 0;
      }
    }
  }

  /** No stored vote is an abort: VOTE_ABORT never reaches collectVote. */
  predicate NoAbortAmong(ms: Members) {
    forall w :: w in ms ==> ms[w] != VOTE_ABORT && ms[w] != ABORT
  }

  predicate NoAbortStored(table: map<Tid, Members>) {
    forall t :: t in table ==> NoAbortAmong(table[t])
  }

  /** While no abort is stored, the order of the seats does not matter. */
  lemma {:induction false} SeatOrder(ws: seq<Seat>, stale: nat)
    requires SeatsOk(ws)
    requires NoAbortAmong(MembersOf(ws))
    ensures SeatDecision(ws, stale) == MembersDecision(MembersOf(ws), stale)
    ensures SeatDecision(ws, DECIDE_COMMIT) == if AllVoted(MembersOf(ws)) then DECIDE_COMMIT else WAIT
  {
    MembersChar(ws);
    if ws != [] {
      MembersChar(ws[1..]);
      if ws[0].nodeId == 0 {
        SeatOrder(ws[1..], stale);
      } else {
        assert ws[0].nodeId !in MembersOf(ws[1..]);
        assert forall w :: w in MembersOf(ws[1..]) ==> w in MembersOf(ws) && MembersOf(ws)[w] == MembersOf(ws[1..])[w];
        SeatOrder(ws[1..], DECIDE_COMMIT);
        assert ws[0].nodeId in MembersOf(ws);
        if ws[0].vote != 0 {
          assert AllVoted(MembersOf(ws)) == AllVoted(MembersOf(ws[1..]));
        }
      }
    }
  }
}
