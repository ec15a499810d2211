/** The transaction manager: a fixed array of slots and an append-only log, changed in place
    by nested scans (transaction_management/tmanager.c, as written there). */
module ManagerProcess {
  import opened Messages
  import opened TwoPhaseCommit
  import opened ManagerTable

  /** Where saveWorkerInfo stops scanning: at the slot of `t` or at the first empty one. */
  function StopAt(ss: seq<Slot>, t: Tid): (i: nat)
    ensures i <= |ss|
    ensures i < |ss| ==> ss[i].tid == t || ss[i].tid == 0
    ensures forall k :: 0 <= k < i ==> ss[k].tid != t && ss[k].tid != 0
  {
    if ss == [] || ss[0].tid == t || ss[0].tid == 0 then 0 else 1 + StopAt(ss[1..], t)
  }

  /** The first slot with tid `t`, or the number of slots. */
  function SlotOf(ss: seq<Slot>, t: Tid): (i: nat)
    ensures i <= |ss|
    ensures i < |ss| ==> ss[i].tid == t
    ensures forall k :: 0 <= k < i ==> ss[k].tid != t
  {
    if ss == [] || ss[0].tid == t then 0 else 1 + SlotOf(ss[1..], t)
  }

  /** The seats of the slot of a live transaction. */
  function SeatsOf(ss: seq<Slot>, t: Tid): seq<Seat> {
    if t != 0 && SlotOf(ss, t) < |ss| then ss[SlotOf(ss, t)].workers else []
  }

  function SeatOf(ws: seq<Seat>, w: NodeId): (j: nat)
    ensures j <= |ws|
    ensures j < |ws| ==> ws[j].nodeId == w
    ensures forall k :: 0 <= k < j ==> ws[k].nodeId != w
  {
    if ws == [] || ws[0].nodeId == w then 0 else 1 + SeatOf(ws[1..], w)
  }

  /** The slots after the message `code` of worker `w` is stored. */
  function StoredSlots(ss: seq<Slot>, t: Tid, w: NodeId, code: nat): seq<Slot> {
    var i := SlotOf(ss, t);
    if i == |ss| || SeatOf(ss[i].workers, w) == |ss[i].workers| then ss
    else
      var ws, j := ss[i].workers, SeatOf(ss[i].workers, w);
      ss[i := ss[i].(workers := ws[j := ws[j].(vote := code)])]
  }

  /** What collectVote returns on these slots; `stale` is what its unassigned variable holds. */
  function SlotDecision(ss: seq<Slot>, mlog: seq<MRecord>, t: Tid, stale: nat): nat {
    var i := SlotOf(ss, t);
    if i < |ss| then SeatDecision(ss[i].workers, stale)
    else if Logged(mlog, MDecide(t, true)) then DECIDE_COMMIT else DECIDE_ABORT
  }

  /** The first slot whose tid has a request in the log; the tid of an empty slot is 0. */
  function FirstRequested(ss: seq<Slot>, log: seq<MRecord>): (i: nat)
    ensures i <= |ss|
    ensures i < |ss| ==> Logged(log, MCommitReq(ss[i].tid))
    ensures forall k :: 0 <= k < i ==> !Logged(log, MCommitReq(ss[k].tid))
  {
    if ss == [] || Logged(log, MCommitReq(ss[0].tid)) then 0 else 1 + FirstRequested(ss[1..], log)
  }

  /** The kinds of message sendToAllWorkers sends. */
  datatype Notice = AskAll | TellAll(commit: bool)

  function Note(n: Notice, t: Tid, w: NodeId): Msg {
    if n.AskAll? then Prepare(t, w) else Decide(t, w, n.commit)
  }

  /** What sendToAllWorkers sends to the seats of one slot, in order. */
  function Broadcast(ws: seq<Seat>, n: Notice, t: Tid): seq<Msg> {
    if ws == [] then []
    else (if ws[0].port != 0 then [Note(n, t, ws[0].nodeId)] else []) + Broadcast(ws[1..], n, t)
  }

  lemma HeadMember(ws: seq<Seat>)
    requires SeatsOk(ws) && ws != []
    ensures SeatsOk(ws[1..]) && (ws[0].nodeId == 0 <==> ws[0].port == 0)
    ensures ws[0].nodeId == 0 ==> MembersOf(ws) == MembersOf(ws[1..])
    ensures ws[0].nodeId != 0 ==> ws[0].nodeId !in MembersOf(ws[1..]) && MembersOf(ws).Keys == MembersOf(ws[1..]).Keys + {ws[0].nodeId}
  {
    MembersChar(ws[1..]);
  }

  /** Every member gets the message, and no one else. */
  lemma {:induction false} BroadcastReaches(ws: seq<Seat>, n: Notice, t: Tid)
    requires SeatsOk(ws)
    ensures forall m :: m in Broadcast(ws, n, t) <==> exists w :: w in MembersOf(ws) && m == Note(n, t, w)
    ensures |Broadcast(ws, n, t)| == |MembersOf(ws)|
  {
    hide Note;
    if ws != [] {
      BroadcastReaches(ws[1..], n, t);
      HeadMember(ws);
      hide SeatsOk, MembersOf;
      if ws[0].nodeId != 0 {
        assert Note(n, t, ws[0].nodeId) in Broadcast(ws, n, t);
        assert |MembersOf(ws).Keys| == |MembersOf(ws[1..]).Keys| + 1;
      }
    }
  }

  lemma {:induction false} BroadcastAppend(ws: seq<Seat>, seat: Seat, n: Notice, t: Tid)
    ensures Broadcast(ws + [seat], n, t) == Broadcast(ws, n, t) + Broadcast([seat], n, t)
  {
    if ws == [] {
      assert ws + [seat] == [seat];
    } else {
      assert (ws + [seat])[1..] == ws[1..] + [seat];
      BroadcastAppend(ws[1..], seat, n, t);
    }
  }

  class Manager {
    const slots: array<Slot>
    var log: seq<MRecord>
    var sent: seq<Msg>

    ghost predicate Valid()
      reads this, slots
    {
      slots.Length == MAX_TRANS && SlotsOk(slots[..])
    }

    ghost function Table(): map<Tid, Members>
      reads slots
    {
      TableOf(slots[..])
    }

    constructor ()
      ensures Valid() && fresh(slots) && Table() == map[] && log == [] && sent == []
    {
      slots := new Slot[MAX_TRANS](_ => Slot(0, seq(MAX_NODES, _ => FREE)));
      log, sent := [], [];
      new;
      TableChar(slots[..]);
      assert Table().Keys == {};
    }

    /** isCommit */
    method IsCommit(t: Tid) returns (found: bool)
      ensures found <==> Logged(log, MDecide(t, true))
    {
      var j := |log|;
      while j > 0
        invariant 0 <= j <= |log|
        invariant forall k :: j <= k < |log| ==> log[k] != MDecide(t, true)
      {
        if log[j - 1] == MDecide(t, true) {
          return true;
        }
        j := j - 1;
      }
      return false;
    }

    /** waitingForVotes as written: its test for a decision is never true. It finds the first slot whose
        tid has a request in the log; the tid of an empty slot is 0. */
    method WaitingForVotes() returns (waiting: bool, abortTid: Tid)
      requires Valid()
      ensures waiting <==> FirstRequested(slots[..], log) < MAX_TRANS
      ensures waiting ==> abortTid == slots[FirstRequested(slots[..], log)].tid
    {
      ghost var first := FirstRequested(slots[..], log);
      abortTid := 0;
      var i := 0;
      while i < MAX_TRANS
        invariant 0 <= i <= MAX_TRANS
        invariant forall k :: 0 <= k < i ==> !Logged(log, MCommitReq(slots[k].tid))
      {
        var j := |log|;
        while j > 0
          invariant 0 <= j <= |log|
          invariant forall k :: j <= k < |log| ==> log[k] != MCommitReq(slots[i].tid)
        {
          if log[j - 1] == MCommitReq(slots[i].tid) {
            assert i == first;
            return true, slots[i].tid;
          }
          j := j - 1;
        }
        i := i + 1;
      }
      return false, abortTid;
    }

    /** saveWorkerInfo for BEGIN. With every slot taken nothing is stored, yet the result is success.
        A live tid is refused only if no empty slot comes before its own; otherwise it gets a second slot. */
    method SaveBegin(t: Tid) returns (ok: bool)
      requires Valid() && t != 0
      modifies slots
      ensures t !in old(Table()) || !ok ==> Valid()
      ensures var i := StopAt(old(slots[..]), t);
        && (ok <==> i == MAX_TRANS || old(slots[..])[i].tid == 0)
        && slots[..] == if i < MAX_TRANS && ok then old(slots[..])[i := old(slots[..])[i].(tid := t)] else old(slots[..])
      ensures t !in old(Table()) ==>
        ok && Table() == if |old(Table())| < MAX_TRANS then old(Table())[t := map[]] else old(Table())
    {
      ghost var ss := slots[..];
      if t !in TableOf(ss) { BeginScan(ss, t); }
      TableSize(ss);
      hide SlotsOk, TableOf;
      var i := 0;
      while i < MAX_TRANS && slots[i].tid != t && slots[i].tid != 0
        invariant 0 <= i <= MAX_TRANS && slots[..] == ss
        invariant forall k :: 0 <= k < i ==> ss[k].tid != t && ss[k].tid != 0
      {
        i := i + 1;
      }
      StopUnique(ss, t, i);
      if i < MAX_TRANS && slots[i].tid == t {
        return false;
      }
      if i < MAX_TRANS {
        BeginSlot(ss, i, t);
        slots[i] := slots[i].(tid := t);
        assert slots[..] == ss[i := ss[i].(tid := t)];
      }
      return true;
    }

    /** saveWorkerInfo for JOIN. It fails when an empty slot comes before the one of `t`, and with every
        seat taken it reports success without storing anything. That no slot stops the scan is excluded:
        the program then indexes with an unassigned variable. */
    method SaveJoin(t: Tid, nodeId: NodeId, port: nat) returns (ok: bool)
      requires Valid() && t != 0 && nodeId != 0 && port != 0
      requires StopAt(slots[..], t) < MAX_TRANS
      requires t in Table() ==> nodeId !in Table()[t]
      modifies slots
      ensures Valid()
      ensures ok <==> old(slots[..])[StopAt(old(slots[..]), t)].tid == t
      ensures ok ==> t in old(Table())
      ensures log == old(log) && sent == old(sent)
      ensures Table() == if ok && |old(Table())[t]| < MAX_NODES
                         then old(Table())[t := SetVote(old(Table())[t], nodeId, 0)] else old(Table())
    {
      ghost var ss := slots[..];
      TableChar(ss);
      var i := 0;
      while slots[i].tid != t && slots[i].tid != 0
        invariant 0 <= i <= StopAt(ss, t) && slots[..] == ss
        invariant forall k :: 0 <= k < i ==> ss[k].tid != t && ss[k].tid != 0
        decreases MAX_TRANS - i
      {
        i := i + 1;
      }
      StopUnique(ss, t, i);
      if slots[i].tid == 0 {
        return false;
      }
      var ws := slots[i].workers;
      assert ss[i].workers == ws && SeatsOk(ws) && TableOf(ss)[t] == MembersOf(ws);
      MembersSize(ws);
      var j := 0;
      while j < MAX_NODES && ws[j].port != 0
        invariant 0 <= j <= MAX_NODES
        invariant forall k :: 0 <= k < j ==> ws[k].port != 0
      {
        j := j + 1;
      }
      if j < MAX_NODES {
        var seat := ws[j].(nodeId := nodeId, port := port);
        MemberSlot(ss, i, j, seat);
        slots[i] := slots[i].(workers := ws[j := seat]);
        assert slots[..] == ss[i := ss[i].(workers := ws[j := seat])];
      }
      return true;
    }

    /** cleanWorkerInfo */
    method CleanWorkerInfo(t: Tid)
      requires Valid()
      modifies slots
      ensures Valid() && Table() == old(Table()) - {t}
    {
      ghost var ss := slots[..];
      var i := FindSlot(t);
      NotLive(ss, t);
      if i < MAX_TRANS {
        var free := Slot(0, seq(MAX_NODES, _ => FREE));
        ClearSlot(ss, i, free);
        slots[i] := free;
        assert slots[..] == ss[i := free];
      }
    }

    /** collectVote as written: whatever the message is, its id is stored as the member's vote. */
    method CollectVote(msgId: nat, t: Tid, nodeId: NodeId, stale: nat) returns (decision: nat)
      requires Valid() && nodeId != 0
      modifies slots
      ensures Valid() && Table() == StoreVote(old(Table()), t, nodeId, msgId)
      ensures slots[..] == StoredSlots(old(slots[..]), t, nodeId, msgId)
      ensures decision == SlotDecision(slots[..], log, t, stale)
    {
      hide SlotsOk, TableOf;
      var i := FindSlot(t);
      NotLive(slots[..], t);
      if i == MAX_TRANS {
        var committed := IsCommit(t);
        return if committed then DECIDE_COMMIT else DECIDE_ABORT;
      }
      StoreSeat(i, msgId, nodeId);
      SameSlot(old(slots[..]), slots[..], t);
      decision := ScanSeats(slots[i].workers, stale);
    }

    /** The outer loop of collectVote and of cleanWorkerInfo. */
    method FindSlot(t: Tid) returns (i: nat)
      requires Valid()
      ensures i == SlotOf(slots[..], t)
    {
      i := 0;
      while i < MAX_TRANS && slots[i].tid != t
        invariant 0 <= i <= MAX_TRANS
        invariant forall k :: 0 <= k < i ==> slots[k].tid != t
      {
        i := i + 1;
      }
      ghost var j := SlotOf(slots[..], t);
    }

    /** The inner loop of collectVote: store at the member's seat. */
    method StoreSeat(i: nat, msgId: nat, nodeId: NodeId)
      requires Valid() && i < MAX_TRANS && nodeId != 0
      modifies slots
      ensures Valid() && slots[i].tid == old(slots[i].tid)
      ensures Table() == StoreVote(old(Table()), slots[i].tid, nodeId, msgId)
      ensures var ws, j := old(slots[i].workers), SeatOf(old(slots[i].workers), nodeId);
        slots[..] == if j == |ws| then old(slots[..])
                     else old(slots[..])[i := old(slots[i]).(workers := ws[j := ws[j].(vote := msgId)])]
    {
      ghost var ss := slots[..];
      TableChar(ss);
      var ws := slots[i].workers;
      assert ws == ss[i].workers && SeatsOk(ws);
      MembersChar(ws);
      var j := 0;
      while j < MAX_NODES && ws[j].nodeId != nodeId
        invariant 0 <= j <= MAX_NODES
        invariant forall k :: 0 <= k < j ==> ws[k].nodeId != nodeId
      {
        j := j + 1;
      }
      assert j == SeatOf(ws, nodeId);
      if j < MAX_NODES {
        MemberSlot(ss, i, j, ws[j].(vote := msgId));
        slots[i] := slots[i].(workers := ws[j := ws[j].(vote := msgId)]);
        assert slots[..] == ss[i := ss[i].(workers := ws[j := ws[j].(vote := msgId)])];
      }
    }

    /** The second loop of collectVote. */
    method ScanSeats(ws: seq<Seat>, stale: nat) returns (decision: nat)
      ensures decision == SeatDecision(ws, stale)
    {
      decision := stale;
      var j := 0;
      while j < |ws|
        invariant 0 <= j <= |ws|
        invariant SeatDecision(ws[j..], decision) == SeatDecision(ws, stale)
      {
        assert ws[j..][1..] == ws[j + 1..];
        if ws[j].nodeId != 0 {
          if ws[j].vote == VOTE_ABORT || ws[j].vote == ABORT {
            return DECIDE_ABORT;
          } else if ws[j].vote == 0 {
            return WAIT;
          } else {
            decision := DECIDE_COMMIT;
          }
        }
        j := j + 1;
      }
    }

    /** sendToAllWorkers: the slots' outer loop goes on after a match, but no other slot has the tid. */
    method SendToAllWorkers(n: Notice, t: Tid)
      requires Valid()
      modifies this`sent
      ensures sent == old(sent) + Broadcast(SeatsOf(slots[..], t), n, t)
    {
      ghost var at := SlotOf(slots[..], t);
      var i := 0;
      while i < MAX_TRANS
        invariant 0 <= i <= MAX_TRANS
        invariant i <= at || t == 0 ==> sent == old(sent)
        invariant at < i && t != 0 ==> sent == old(sent) + Broadcast(slots[at].workers, n, t)
      {
        if slots[i].tid == t {
          if t == 0 { FreeSeatsSilent(slots[i].workers, n, t); }
          SendToSeats(slots[i].workers, n, t);
        }
        i := i + 1;
      }
    }

    method SendToSeats(ws: seq<Seat>, n: Notice, t: Tid)
      modifies this`sent
      ensures sent == old(sent) + Broadcast(ws, n, t)
    {
      var j := 0;
      while j < |ws|
        invariant 0 <= j <= |ws|
        invariant sent == old(sent) + Broadcast(ws[..j], n, t)
      {
        assert ws[..j + 1] == ws[..j] + [ws[j]];
        BroadcastAppend(ws[..j], ws[j], n, t);
        if ws[j].port != 0 {
          sent := sent + [Note(n, t, ws[j].nodeId)];
        }
        j := j + 1;
      }
      assert ws[..|ws|] == ws;
    }
  }

  /** Storing a vote moves no slot. */
  lemma SameSlot(ss: seq<Slot>, ss': seq<Slot>, t: Tid)
    requires |ss'| == |ss| && forall i :: 0 <= i < |ss| ==> ss'[i].tid == ss[i].tid
    ensures SlotOf(ss', t) == SlotOf(ss, t)
  {
    var i, j := SlotOf(ss, t), SlotOf(ss', t);
    assert i < |ss| ==> ss'[i].tid == t;
    assert j < |ss| ==> ss[j].tid == t;
  }

  /** A tid with no slot is not in the table and leaves 0 no slot either. */
  lemma NotLive(ss: seq<Slot>, t: Tid)
    requires SlotsOk(ss)
    ensures SlotOf(ss, t) == |ss| ==> t !in TableOf(ss) && (t == 0 ==> |TableOf(ss)| == |ss|)
    ensures SlotOf(ss, t) == |ss| && t != 0 ==> forall mlog, stale ::
      Decision(TableOf(ss), mlog, t, stale) == if Logged(mlog, MDecide(t, true)) then DECIDE_COMMIT else DECIDE_ABORT
    ensures SlotOf(ss, t) < |ss| && t != 0 ==> t in TableOf(ss)
  {
    TableChar(ss);
    TableSize(ss);
  }

  /** What the unassigned variable amounts to: with no empty slot, tid 0 is a transaction that is gone. */
  function Held(ss: seq<Slot>, mlog: seq<MRecord>, t: Tid, stale: nat): nat {
    if t != 0 || SlotOf(ss, 0) < |ss| then stale
    else if Logged(mlog, MDecide(0, true)) then DECIDE_COMMIT else DECIDE_ABORT
  }

  /** While no abort is stored, the decision on the slots is the one on the table. */
  lemma SlotVerdict(ss: seq<Slot>, mlog: seq<MRecord>, t: Tid, stale: nat)
    requires SlotsOk(ss) && NoAbortStored(TableOf(ss))
    ensures SlotDecision(ss, mlog, t, stale) == Decision(TableOf(ss), mlog, t, Held(ss, mlog, t, stale))
  {
    TableChar(ss);
    NotLive(ss, t);
    var i := SlotOf(ss, t);
    if i < |ss| {
      if t == 0 { AllFree(ss[i].workers, stale); } else { SeatOrder(ss[i].workers, stale); }
    }
  }

  lemma {:induction false} AllFree(ws: seq<Seat>, stale: nat)
    requires forall j :: 0 <= j < |ws| ==> ws[j] == FREE
    ensures SeatDecision(ws, stale) == stale
  {
    if ws != [] { AllFree(ws[1..], stale); }
  }

  lemma {:induction false} FreeSeatsSilent(ws: seq<Seat>, n: Notice, t: Tid)
    requires forall j :: 0 <= j < |ws| ==> ws[j] == FREE
    ensures Broadcast(ws, n, t) == []
  {
    if ws != [] { FreeSeatsSilent(ws[1..], n, t); }
  }

  lemma StopUnique(ss: seq<Slot>, t: Tid, i: nat)
    requires i <= |ss| && (forall k :: 0 <= k < i ==> ss[k].tid != t && ss[k].tid != 0)
    requires i < |ss| ==> ss[i].tid == t || ss[i].tid == 0
    ensures StopAt(ss, t) == i
  {
    var j := StopAt(ss, t);
  }

  /** A tid that is not live makes the scan stop at an empty slot, if there is one. */
  lemma BeginScan(ss: seq<Slot>, t: Tid)
    requires SlotsOk(ss) && t != 0 && t !in TableOf(ss)
    ensures var i := StopAt(ss, t);
      (i < |ss| ==> ss[i].tid == 0) && (i == |ss| <==> |TableOf(ss)| == |ss|)
  {
    TableChar(ss);
    TableSize(ss);
  }

  lemma BeginSlot(ss: seq<Slot>, i: nat, t: Tid)
    requires SlotsOk(ss) && i < |ss| && ss[i].tid == 0 && t != 0
    ensures t !in TableOf(ss) ==> SlotsOk(ss[i := ss[i].(tid := t)]) && TableOf(ss[i := ss[i].(tid := t)]) == TableOf(ss)[t := map[]]
  {
    var slot := ss[i].(tid := t);
    MembersChar(slot.workers);
    assert MembersOf(slot.workers).Keys == {};
    if t !in TableOf(ss) {
      SlotsStayOk(ss, i, slot);
      SlotWritten(ss, i, slot);
    }
  }

  lemma MemberSlot(ss: seq<Slot>, i: nat, j: nat, seat: Seat)
    requires SlotsOk(ss) && i < |ss| && ss[i].tid != 0 && j < MAX_NODES && seat.nodeId != 0 && seat.port != 0
    requires var ws := ss[i].workers; ws[j].nodeId == seat.nodeId || (ws[j].nodeId == 0 && seat.nodeId !in MembersOf(ws))
    ensures var ss' := ss[i := ss[i].(workers := ss[i].workers[j := seat])];
      && SlotsOk(ss') && ss[i].tid in TableOf(ss)
      && TableOf(ss') == TableOf(ss)[ss[i].tid := SetVote(TableOf(ss)[ss[i].tid], seat.nodeId, seat.vote)]
  {
    var ws := ss[i].workers;
    var slot := ss[i].(workers := ws[j := seat]);
    TableChar(ss);
    SeatWritten(ws, j, seat);
    SeatsStayOk(ws, j, seat);
    SlotsStayOk(ss, i, slot);
    SlotWritten(ss, i, slot);
  }

  lemma ClearSlot(ss: seq<Slot>, i: nat, free: Slot)
    requires SlotsOk(ss) && i < |ss| && free == Slot(0, seq(MAX_NODES, _ => FREE))
    ensures SlotsOk(ss[i := free]) && TableOf(ss[i := free]) == TableOf(ss) - {ss[i].tid}
  {
    SlotsStayOk(ss, i, free);
    if ss[i].tid != 0 {
      SlotCleared(ss, i, free);
    } else {
      TableChar(ss);
      assert |ss[i].workers| == |free.workers|;
      assert ss[i].workers == free.workers;
      assert ss[i := free] == ss;
    }
  }
}
