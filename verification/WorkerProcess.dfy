/** The worker process: its handlers change the store, the log and the globals in place.
    Each handler is proved to run exactly its atomic steps of WorkerNode, one after the other. */
module WorkerProcess {
  import opened Messages
  import VectorClock
  import opened WorkerNode

  /** The steps handleManagerMsg and waitingForCoordResponse take on a message. */
  function MessageSteps(waiting: bool, m: Msg): seq<Step> {
    if m.Decide? then [Recv(m), AppendDecision]
    else if m.Prepare? && !waiting then [Recv(m), SendVote, AppendVote]
    else [Recv(m)]
  }

  function RestartSteps(log: seq<Record>): seq<Step> {
    if log != [] && AsksOnRestart(log[|log| - 1].kind) then [Restart] else [Restart, AppendAbort]
  }

  lemma OneStep(wk: Worker, s: Step)
    requires Enabled(wk, s)
    ensures ValidRun(wk, [s]) && Exec(wk, [s]) == Next(wk, s)
  {
    assert ValidRun(Next(wk, s), []);
  }

  lemma TwoSteps(wk: Worker, s: Step, s': Step)
    requires Enabled(wk, s) && Enabled(Next(wk, s), s')
    ensures ValidRun(wk, [s, s']) && Exec(wk, [s, s']) == Next(Next(wk, s), s')
  {
    assert [s, s'][1..] == [s'];
    OneStep(Next(wk, s), s');
  }

  lemma ThreeSteps(wk: Worker, s: Step, s': Step, s'': Step)
    requires Enabled(wk, s) && Enabled(Next(wk, s), s') && Enabled(Next(Next(wk, s), s'), s'')
    ensures ValidRun(wk, [s, s', s'']) && Exec(wk, [s, s', s'']) == Next(Next(Next(wk, s), s'), s'')
  {
    assert [s, s', s''][1..] == [s', s''];
    TwoSteps(Next(wk, s), s', s'');
  }

  // ---------- what the step sequences come to ----------

  lemma UpdateRun(wk: Worker, u: Update, now: int, slot: nat, tick: nat)
    requires wk.mode == Ready
    ensures ValidRun(wk, [CmdUpdate(u), WriteValue, Stamp(now, slot, tick)])
    ensures Exec(wk, [CmdUpdate(u), WriteValue, Stamp(now, slot, tick)]) ==
      wk.(log := if wk.run then wk.log + [UndoRecord(u, wk.cur, wk.store)] else wk.log,
          store := StampStore(u, Apply(u, wk.store), now, slot, tick))
  {
    ThreeSteps(wk, CmdUpdate(u), WriteValue, Stamp(now, slot, tick));
  }

  lemma AbortRun(wk: Worker)
    requires wk.mode == Ready
    ensures ValidRun(wk, [CmdAbort, AppendAbort])
    ensures Exec(wk, [CmdAbort, AppendAbort]) ==
      wk.(store := Rollback(wk.log, wk.cur, wk.store), log := wk.log + [Rec(AbortRec, wk.cur)])
  {
    TwoSteps(wk, CmdAbort, AppendAbort);
  }

  lemma DecideRun(wk: Worker, m: Msg)
    requires m.Decide? && (wk.mode == Ready || wk.mode == Waiting)
    ensures ValidRun(wk, [Recv(m), AppendDecision])
    ensures Exec(wk, [Recv(m), AppendDecision]) ==
      wk.(store := if m.commit then wk.store else Rollback(wk.log, wk.cur, wk.store), run := false, mode := Ready,
          log := wk.log + [Rec(if m.commit then DecideCommitRec else DecideAbortRec, m.t)])
  {
    TwoSteps(wk, Recv(m), AppendDecision);
  }

  lemma PrepareRun(wk: Worker, m: Msg)
    requires m.Prepare? && wk.mode == Ready
    ensures ValidRun(wk, [Recv(m), SendVote, AppendVote])
    ensures Exec(wk, [Recv(m), SendVote, AppendVote]) ==
      wk.(log := wk.log + [Rec(PrepareRec, m.t)] + [Rec(VoteRec, m.t)], refuse := false, mode := Waiting, reach := true)
    ensures VotesCommit(Next(wk, Recv(m))) <==> !HasRec(wk.log + [Rec(PrepareRec, m.t)], AbortRec, wk.cur) && !wk.refuse
  {
    ThreeSteps(wk, Recv(m), SendVote, AppendVote);
  }

  lemma RecoverRun(wk: Worker)
    requires wk.mode == Down
    ensures ValidRun(wk, RestartSteps(wk.log))
    ensures var t := if wk.log == [] then 0 else wk.log[|wk.log| - 1].tid;
      Exec(wk, RestartSteps(wk.log)) ==
        if wk.log != [] && AsksOnRestart(wk.log[|wk.log| - 1].kind)
        then wk.(cur := t, run := false, refuse := false, reach := wk.known, mode := Waiting)
        else wk.(cur := t, run := false, refuse := false, reach := wk.known, mode := Ready,
                 store := Rollback(wk.log, t, wk.store), log := wk.log + [Rec(AbortRec, t)])
  {
    if wk.log != [] && AsksOnRestart(wk.log[|wk.log| - 1].kind) {
      OneStep(wk, Restart);
    } else {
      TwoSteps(wk, Restart, AppendAbort);
    }
  }

  /** The scan stops at the start of the last transaction. */
  lemma ScanStart(log: seq<Record>, t: Tid, j: nat)
    requires j <= |log| && (forall k :: j <= k < |log| ==> log[k].tid == t)
    requires j > 0 ==> log[j - 1].tid != t
    ensures TxStart(log, t) == j
  {
    var i := TxStart(log, t);
  }

  class Process {
    const id: NodeId

    // the mapped object store
    var a: int
    var b: int
    var idString: string
    var clock: seq<Entry>
    var updated: int

    var log: seq<Record>

    // the manager's address is stored beside the log
    var known: bool

    // globals of the process
    var cur: Tid
    var run: bool
    var refuse: bool
    var waiting: bool

    // the address the wait polls is the manager's
    var reach: bool

    /** Everything sent so far. */
    var sent: seq<Msg>

    constructor (id: NodeId, clock: seq<Entry>, now: int)
      ensures this.id == id && sent == []
      ensures View() == Worker(Store(0, 0, "", clock, now), [], 0, false, false, Ready, false, false)
    {
      this.id := id;
      a, b, idString, updated := 0, 0, "", now;
      this.clock := clock;
      log, cur, run, refuse, waiting, known, reach, sent := [], 0, false, false, false, false, false, [];
    }

    function Objects(): Store
      reads this
    {
      Store(a, b, idString, clock, updated)
    }

    function View(): Worker
      reads this
    {
      Worker(Objects(), log, cur, run, refuse, if waiting then Waiting else Ready, known, reach)
    }

    /** The worker as a crash at this point leaves it. */
    function Crashed(): Worker
      reads this
    {
      Worker(Objects(), log, 0, false, false, Down, known, false)
    }

    /** readValFromRecord: one backward pass that remembers the oldest value of each field. */
    method ReadValFromRecord()
      modifies this`a, this`b, this`idString, this`clock, this`updated
      ensures Objects() == Rollback(log, cur, old(Objects()))
    {
      ghost var st := Objects();
      var oldA, oldB, oldId := a, b, idString;
      var j := |log|;
      while j > 0 && log[j - 1].tid == cur
        invariant 0 <= j <= |log|
        invariant forall k :: j <= k < |log| ==> log[k].tid == cur
        invariant oldA == OldestA(log[j..], st.a)
        invariant oldB == OldestB(log[j..], st.b)
        invariant oldId == OldestId(log[j..], st.id)
        invariant Objects() == Undo(log[j..], st)
        decreases j
      {
        var r := log[j - 1];
        assert log[j - 1..][1..] == log[j..];
        match r.kind {
          case NewARec => oldA := r.oldValue;
          case NewBRec => oldB := r.oldValue;
          case NewIdRec => oldId := r.oldId;
          case JoinRec =>
            a, b, idString := oldA, oldB, oldId;
            clock, updated := r.clock, r.time;
          case _ =>
        }
        j := j - 1;
      }
      ScanStart(log, cur, j);
    }

    /** isLocalAbort */
    method IsLocalAbort() returns (found: bool)
      ensures found <==> HasRec(log, AbortRec, cur)
    {
      var j := |log|;
      while j > 0
        invariant 0 <= j <= |log|
        invariant forall k :: j <= k < |log| ==> log[k].kind != AbortRec || log[k].tid != cur
      {
        if log[j - 1].tid == cur && log[j - 1].kind == AbortRec {
          return true;
        }
        j := j - 1;
      }
      return false;
    }

    /** The NEW_A, NEW_B and NEW_IDSTR commands. `my` is the worker's own clock: its entry counts the event, and for A and B the
        object's clock takes the new time at the same slot. */
    method HandleUpdate(u: Update, now: int, my: array<Entry>) returns (slot: nat)
      requires !waiting && id != 0 && VectorClock.Shaped(my[..])
      modifies this, my
      ensures my[..] == VectorClock.Bump(old(my[..]), id)
      ensures id in VectorClock.Ids(old(my[..])) ==>
        slot < my.Length && my[slot] == Entry(id, (old(my[..])[slot].time + 1) % VectorClock.WORD)
      ensures id !in VectorClock.Ids(old(my[..])) ==> slot == my.Length
      ensures a == if u.SetA? then u.value else old(a)
      ensures b == if u.SetB? then u.value else old(b)
      ensures idString == if u.SetId? then u.name else old(idString)
      ensures updated == now
      ensures clock == if !u.SetId? && slot < my.Length && slot < |old(clock)|
                       then old(clock)[slot := Entry(old(clock)[slot].nodeId, my[slot].time)] else old(clock)
      ensures var tick := if slot < my.Length then my[slot].time else 0;
        var steps := [CmdUpdate(u), WriteValue, Stamp(now, if slot < my.Length then slot else |old(clock)|, tick)];
        ValidRun(old(View()), steps) && View() == Exec(old(View()), steps)
      ensures sent == old(sent)
    {
      hide Next, Exec, ValidRun, VectorClock.Bump, VectorClock.Shaped, VectorClock.Ids, Apply, StampStore, UndoRecord;
      ghost var wk := View();
      LogAndWrite(u);
      slot := VectorClock.UpdateMyVectorClock(id, my);
      ghost var at, tick := if slot < my.Length then slot else |clock|, if slot < my.Length then my[slot].time else 0;
      StampObjects(u, now, if slot < my.Length then slot else |clock|, if slot < my.Length then my[slot].time else 0);
      UpdateRun(wk, u, now, at, tick);
    }

    /** The undo record, if a transaction runs, and then the value. */
    method LogAndWrite(u: Update)
      modifies this`log, this`a, this`b, this`idString
      ensures a == if u.SetA? then u.value else old(a)
      ensures b == if u.SetB? then u.value else old(b)
      ensures idString == if u.SetId? then u.name else old(idString)
      ensures log == if run then old(log) + [UndoRecord(u, cur, old(Objects()))] else old(log)
      ensures Objects() == Apply(u, old(Objects()))
    {
      if run {
        log := log + [UndoRecord(u, cur, Objects())];
      }
      WriteField(u);
    }

    /** The new value, in its field. */
    method WriteField(u: Update)
      modifies this`a, this`b, this`idString
      ensures a == if u.SetA? then u.value else old(a)
      ensures b == if u.SetB? then u.value else old(b)
      ensures idString == if u.SetId? then u.name else old(idString)
      ensures Objects() == Apply(u, old(Objects()))
    {
      match u {
        case SetA(v) => a := v;
        case SetB(v) => b := v;
        case SetId(s) => idString := s;
      }
    }

    /** The time of the update and, for A and B, the clock slot. */
    method StampObjects(u: Update, now: int, slot: nat, tick: nat)
      modifies this`updated, this`clock
      ensures updated == now
      ensures clock == if !u.SetId? && slot < |old(clock)| then old(clock)[slot := Entry(old(clock)[slot].nodeId, tick)] else old(clock)
      ensures Objects() == StampStore(u, old(Objects()), now, slot, tick)
    {
      updated := now;
      if !u.SetId? && slot < |clock| {
        clock := clock[slot := clock[slot].(time := tick)];
      }
    }

    /** The BEGIN command. */
    method HandleBegin(t: Tid)
      requires !waiting
      modifies this`sent
      ensures ValidRun(View(), [CmdBegin(t)]) && Exec(View(), [CmdBegin(t)]) == View()
      ensures sent == old(sent) + [Begin(t, id)]
    {
      OneStep(View(), CmdBegin(t));
      sent := sent + [Begin(t, id)];
    }

    /** The JOIN command. */
    method HandleJoin(t: Tid)
      requires !waiting
      modifies this`sent
      ensures ValidRun(View(), [CmdJoin(t)]) && Exec(View(), [CmdJoin(t)]) == View()
      ensures sent == old(sent) + [Join(t, id)]
    {
      OneStep(View(), CmdJoin(t));
      sent := sent + [Join(t, id)];
    }

    /** The VOTE_ABORT command: the worker is to refuse the next time it is asked. */
    method HandleVoteAbort()
      requires !waiting
      modifies this`refuse
      ensures refuse
      ensures ValidRun(old(View()), [CmdVoteAbort]) && View() == Exec(old(View()), [CmdVoteAbort])
    {
      OneStep(View(), CmdVoteAbort);
      refuse := true;
    }

    /** The ABORT and ABORT_CRASH commands. */
    method HandleAbort()
      requires !waiting
      modifies this
      ensures ValidRun(old(View()), [CmdAbort, AppendAbort])
      ensures View() == Exec(old(View()), [CmdAbort, AppendAbort]) && sent == old(sent)
    {
      hide Next, Exec, ValidRun, Rollback, Undo;
      AbortRun(View());
      ReadValFromRecord();
      log := log + [Rec(AbortRec, cur)];
    }

    /** The COMMIT and COMMIT_CRASH commands. */
    method HandleCommit()
      requires !waiting
      modifies this
      ensures ValidRun(old(View()), [CmdCommit, SendCommit])
      ensures View() == Exec(old(View()), [CmdCommit, SendCommit])
      ensures sent == old(sent) + [CommitReq(cur, id)]
    {
      ghost var wk := View();
      TwoSteps(wk, CmdCommit, SendCommit);
      log := log + [Rec(CommitRec, cur)];
      sent := sent + [CommitReq(cur, id)];
    }

    /** handleManagerMsg, or one receive of waitingForCoordResponse. */
    method HandleMessage(m: Msg)
      requires !m.ToManager()
      modifies this
      ensures ValidRun(old(View()), MessageSteps(old(waiting), m))
      ensures View() == Exec(old(View()), MessageSteps(old(waiting), m))
      ensures sent == old(sent) +
        if m.Prepare? && !old(waiting) then [if VotesCommit(Next(old(View()), Recv(m))) then VoteCommit(m.t, id) else VoteAbort(m.t, id)]
        else []
    {
      if m.Decide? {
        Decided(m);
      } else if waiting {
        OneStep(View(), Recv(m));
        waiting := false;
      } else if m.Prepare? {
        Prepared(m);
      } else {
        OneStep(View(), Recv(m));
        if m.JoinSuccess? {
          cur := m.t;
          run := true;
          known := true;
        }
        if m.JoinSuccess? || m.JoinFail? {
          log := log + [Rec(JoinRec, m.t).(clock := clock, time := updated)];
        }
      }
    }

    /** DECIDE_COMMIT or DECIDE_ABORT */
    method Decided(m: Msg)
      requires m.Decide?
      modifies this
      ensures ValidRun(old(View()), [Recv(m), AppendDecision])
      ensures View() == Exec(old(View()), [Recv(m), AppendDecision]) && sent == old(sent)
    {
      hide Next, Exec, ValidRun, Rollback, Undo;
      DecideRun(View(), m);
      if !m.commit {
        ReadValFromRecord();
      }
      log := log + [Rec(if m.commit then DecideCommitRec else DecideAbortRec, m.t)];
      run, waiting := false, false;
    }

    /** PREPARE_COMMIT: log, vote, log, then wait. */
    method Prepared(m: Msg)
      requires m.Prepare? && !waiting
      modifies this
      ensures ValidRun(old(View()), [Recv(m), SendVote, AppendVote])
      ensures View() == Exec(old(View()), [Recv(m), SendVote, AppendVote])
      ensures sent == old(sent) +
        [if VotesCommit(Next(old(View()), Recv(m))) then VoteCommit(m.t, id) else VoteAbort(m.t, id)]
    {
      hide Next, Exec, ValidRun, VotesCommit, HasRec;
      PrepareRun(View(), m);
      log := log + [Rec(PrepareRec, m.t)];
      var aborted := IsLocalAbort();
      if aborted || refuse {
        sent := sent + [VoteAbort(m.t, id)];
        refuse := false;
      } else {
        sent := sent + [VoteCommit(m.t, id)];
      }
      log := log + [Rec(VoteRec, m.t)];
      waiting, reach := true, true;
    }

    /** One turn of the wait without a message: POLL_DECISION, to whatever address the wait has. */
    method PollDecision()
      requires waiting
      modifies this`sent
      ensures ValidRun(View(), [SendPoll]) && Exec(View(), [SendPoll]) == View()
      ensures sent == old(sent) + if Output(id, View(), SendPoll).Some? then [Output(id, View(), SendPoll).value] else []
    {
      OneStep(View(), SendPoll);
      if reach {
        sent := sent + [Poll(cur, id)];
      }
    }

    /** The restart branch of main, run by a new process on the store and log the old one left. */
    method Recover()
      modifies this
      ensures ValidRun(old(Crashed()), RestartSteps(old(log)))
      ensures View() == Exec(old(Crashed()), RestartSteps(old(log))) && sent == old(sent)
    {
      hide Next, Exec, ValidRun, Rollback, Undo, AsksOnRestart;
      RecoverRun(Crashed());
      cur := if |log| > 0 then log[|log| - 1].tid else 0;
      run, refuse, reach := false, false, known;
      if |log| > 0 && AsksOnRestart(log[|log| - 1].kind) {
        waiting := true;
      } else {
        ReadValFromRecord();
        log := log + [Rec(AbortRec, cur)];
        waiting := false;
      }
    }
  }
}
