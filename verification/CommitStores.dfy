/** What becomes of a member's store in the commit system: the theorems about one worker hold for it in every run of the
    system, and two runs in which its store does not follow its transaction. */
module CommitStores {
  import opened Messages
  import opened TwoPhaseCommit
  import opened CommitInvariant
  import opened CommitScenes
  import CommitStray
  import Undo = WorkerRecovery
  import Doubt = WorkerUncertainty
  import W = WorkerNode

  // ---------- a worker in a run of the system ----------

  /** The steps of `w` in a run of the system. */
  function StepsOf(ls: seq<Label>, w: NodeId): seq<W.Step> {
    if ls == [] then []
    else (if ls[0].WorkerStep? && ls[0].w == w then [ls[0].step] else []) + StepsOf(ls[1..], w)
  }

  lemma OtherLabel(cfg: Config, s: State, l: Label, w: NodeId)
    requires Enabled(cfg, s, l) && w in s.workers && !(l.WorkerStep? && l.w == w)
    ensures w in Next(cfg, s, l).workers && Next(cfg, s, l).workers[w] == s.workers[w]
  {
    hide W.Next, W.Output, WorkerHistory, Decision, StoreMessage;
  }

  lemma OwnLabel(cfg: Config, s: State, w: NodeId, step: W.Step)
    requires Enabled(cfg, s, WorkerStep(w, step))
    ensures w in Next(cfg, s, WorkerStep(w, step)).workers
    ensures Next(cfg, s, WorkerStep(w, step)).workers[w] == W.Next(s.workers[w], step)
  {
    hide W.Next, W.Output, WorkerHistory;
  }

  /** In a run of the system every worker makes a run of its own. */
  lemma {:induction false} OwnRun(cfg: Config, s: State, ls: seq<Label>, w: NodeId)
    requires ValidRun(cfg, s, ls) && w in s.workers
    ensures W.ValidRun(s.workers[w], StepsOf(ls, w))
    ensures w in Exec(cfg, s, ls).workers && Exec(cfg, s, ls).workers[w] == W.Exec(s.workers[w], StepsOf(ls, w))
    decreases ls
  {
    if ls != [] {
      hide Next, W.Next;
      var s' := Next(cfg, s, ls[0]);
      if ls[0].WorkerStep? && ls[0].w == w {
        OwnLabel(cfg, s, w, ls[0].step);
        OwnRun(cfg, s', ls[1..], w);
        assert StepsOf(ls, w)[1..] == StepsOf(ls[1..], w);
      } else {
        OtherLabel(cfg, s, ls[0], w);
        OwnRun(cfg, s', ls[1..], w);
        assert StepsOf(ls, w) == StepsOf(ls[1..], w);
      }
    }
  }

  /** A worker that has just joined `t` and is then told to abort, after any run of the whole system: its store is the one of
      the join if it has logged nothing foreign since; else no value comes back. */
  lemma {:induction false} AbortedStore(cfg: Config, s0: State, ls: seq<Label>, t: Tid, w: NodeId, u: Tid)
    requires Enabled(cfg, s0, WorkerStep(w, W.Recv(JoinSuccess(t, w)))) && s0.workers[w].mode == W.Ready
    requires !W.HasRec(s0.workers[w].log, W.JoinRec, t)
    requires ValidRun(cfg, Next(cfg, s0, WorkerStep(w, W.Recv(JoinSuccess(t, w)))), ls)
    requires Undo.InsideRun(W.Next(s0.workers[w], W.Recv(JoinSuccess(t, w))), StepsOf(ls, w), t)
    requires Enabled(cfg, Exec(cfg, Next(cfg, s0, WorkerStep(w, W.Recv(JoinSuccess(t, w)))), ls), WorkerStep(w, W.Recv(Decide(u, w, false))))
    ensures var wk1 := W.Next(s0.workers[w], W.Recv(JoinSuccess(t, w)));
      && W.ValidRun(wk1, StepsOf(ls, w))
      && var s := Exec(cfg, Next(cfg, s0, WorkerStep(w, W.Recv(JoinSuccess(t, w)))), ls);
         var s' := Next(cfg, s, WorkerStep(w, W.Recv(Decide(u, w, false))));
         && w in s.workers && w in s'.workers
         && (Undo.NoneForeign(wk1, StepsOf(ls, w), t) ==> s'.workers[w].store == s0.workers[w].store)
         && (Undo.SameValues(s'.workers[w].store, s0.workers[w].store) <==>
             Undo.NoneForeign(wk1, StepsOf(ls, w), t) || Undo.SameValues(s.workers[w].store, s0.workers[w].store))
  {
    var join, told := W.Recv(JoinSuccess(t, w)), W.Recv(Decide(u, w, false));
    OwnLabel(cfg, s0, w, join);
    var s1 := Next(cfg, s0, WorkerStep(w, join));
    OwnRun(cfg, s1, ls, w);
    OwnLabel(cfg, Exec(cfg, s1, ls), w, told);
    hide Next, W.Next, Exec, W.Exec, ValidRun, W.ValidRun, Undo.InsideRun, Undo.NoneForeign, Undo.SameValues, StepsOf, W.HasRec;
    Undo.UndoRestoresJoin(s0.workers[w], t, w, StepsOf(ls, w), told);
  }

  /** A worker that is told to commit what it voted for, after any run of the whole system: its store is the one it voted on if it
      wrote and undid nothing in between, in particular if nothing disturbed it while the transaction was pending. */
  lemma {:induction false} CommittedStore(cfg: Config, s: State, ls: seq<Label>, t: Tid, w: NodeId)
    requires w in s.workers && Doubt.Pending(s.workers[w], t) && ValidRun(cfg, s, ls)
    requires Enabled(cfg, Exec(cfg, s, ls), WorkerStep(w, W.Recv(Decide(t, w, true))))
    ensures W.ValidRun(s.workers[w], StepsOf(ls, w))
    ensures Doubt.Undisturbed(s.workers[w], StepsOf(ls, w)) ==> Doubt.NoneTouches(s.workers[w], StepsOf(ls, w))
    ensures var s' := Next(cfg, Exec(cfg, s, ls), WorkerStep(w, W.Recv(Decide(t, w, true))));
      w in s'.workers && (Doubt.NoneTouches(s.workers[w], StepsOf(ls, w)) ==> s'.workers[w].store == s.workers[w].store)
  {
    OwnRun(cfg, s, ls, w);
    OwnLabel(cfg, Exec(cfg, s, ls), w, W.Recv(Decide(t, w, true)));
    var wk, ss := s.workers[w], StepsOf(ls, w);
    if Doubt.Undisturbed(wk, ss) { Doubt.UndisturbedTouchesNone(wk, ss, t); }
    if Doubt.NoneTouches(wk, ss) { Doubt.UntouchedRun(wk, ss); }
    hide Next, Exec, ValidRun, W.Exec, W.ValidRun, Doubt.Pending, StepsOf, Doubt.Undisturbed, Doubt.NoneTouches;
  }

  // ---------- undo cut off ----------

  /** Transaction 1 is committed and its member told; the answer to a poll of its is still on its way. */
  lemma CommittedOne(cfg: Config, w: NodeId) returns (s: State)
    requires w in cfg.workers
    ensures Reachable(cfg, s) && CommitStray.Untouched(cfg, s, w) && s.table == map[] && s.mmode == MServe({})
    ensures w in s.workers && s.net[Decide(1, w, true)] > 0 && Committed(s, 1)
    ensures s.workers[w].mode == W.Ready && CommitStray.AsNew(s.workers[w])
  {
    hide Reachable, CommitStray.Untouched;
    var s0 := CommitStray.VotedAndPolled(cfg, w);
    s := s0;
    s := CommitAlone(cfg, s, 1, w);
    assert s.mlog[|s.mlog| - 1] == MDecide(1, true);
    s := Answer(cfg, s, 1, w);
    s := Learn(cfg, s, 1, w, true);
    CommitStray.StaysUntouched(cfg, s0, s, w);
  }

  lemma JoinsTwo(cfg: Config, s0: State, w: NodeId) returns (s: State)
    requires Reachable(cfg, s0) && CommitStray.Untouched(cfg, s0, w) && w in s0.workers && s0.table == map[] && s0.mmode == MServe({})
    requires s0.net[Decide(1, w, true)] > 0 && s0.workers[w].mode == W.Ready && CommitStray.AsNew(s0.workers[w])
    ensures Reachable(cfg, s) && w in s.workers && s.net[Decide(1, w, true)] > 0 && (2, w) in s.hist.joined
    ensures var wk := s.workers[w];
      && wk.mode == W.Ready && wk.run && wk.cur == 2 && CommitStray.AsNew(wk)
      && wk.log != [] && wk.log[|wk.log| - 1] == W.Rec(W.JoinRec, 2)
  {
    hide Reachable;
    assert Free(s0, 2, w);
    s := JoinAlone(cfg, s0, 2, w);
    s := LearnJoin(cfg, s, 2, w);
  }

  lemma SetStamped(st: W.Store, v: int)
    ensures W.StampStore(W.SetA(v), W.Apply(W.SetA(v), st), 0, 0, 0).a == v
  {
  }

  /** Nothing is undone when the last record is of another transaction. */
  lemma CutOff(log: seq<W.Record>, t: Tid, st: W.Store)
    requires log != [] && log[|log| - 1].tid != t
    ensures W.Rollback(log, t, st) == st
  {
    assert log[W.TxStart(log, t)..] == [];
  }

  /** In every configuration with a worker: in `s1` it has just joined transaction 2, in `s` it has set A inside it, learnt once
      more that transaction 1 was committed, and aborted 2; A is not what it was at the join. */
  lemma UndoCutOff(cfg: Config, w: NodeId) returns (s1: State, s: State)
    requires w in cfg.workers
    ensures Reachable(cfg, s1) && Reachable(cfg, s) && w in s1.workers && w in s.workers && (2, w) in s1.hist.joined
    ensures var wk := s1.workers[w];
      wk.run && wk.cur == 2 && wk.store.a == 0 && wk.log != [] && wk.log[|wk.log| - 1] == W.Rec(W.JoinRec, 2)
    ensures s.workers[w].log == s1.workers[w].log
      + [W.UndoRecord(W.SetA(5), 2, s1.workers[w].store), W.Rec(W.DecideCommitRec, 1), W.Rec(W.AbortRec, 2)]
    ensures s.workers[w].mode == W.Ready && s.workers[w].store.a == 5
  {
    hide Reachable, CommitStray.Untouched, W.Rollback, W.StampStore, W.Apply;
    s1 := CommittedOne(cfg, w);
    s1 := JoinsTwo(cfg, s1, w);
    s := Update(cfg, s1, w, W.SetA(5));
    SetStamped(s1.workers[w].store, 5);
    s := Learn(cfg, s, 1, w, true);
    CutOff(s.workers[w].log, 2, s.workers[w].store);
    s := AbortNow(cfg, s, w);
  }

  // ---------- uncertainty lost ----------

  /** The records of the one transaction of the run below, up to the vote. */
  function VotedLog(): seq<W.Record> {
    [W.Rec(W.JoinRec, 1), W.Rec(W.NewARec, 1), W.Rec(W.CommitRec, 1), W.Rec(W.PrepareRec, 1), W.Rec(W.VoteRec, 1)]
  }

  lemma SetsFive(cfg: Config, w: NodeId) returns (s: State)
    requires w in cfg.workers
    ensures Reachable(cfg, s) && At(s, Alone(1, w), [MJoin(1)], MServe({})) && w in s.workers
    ensures (1, w) in s.hist.joined && 1 !in s.hist.requested && s.net[BeginReply(1, w, true)] > 0
    ensures var wk := s.workers[w];
      wk.mode == W.Ready && wk.cur == 1 && wk.run && !wk.refuse && wk.log == VotedLog()[..2] && wk.store == Fresh().store.(a := 5)
  {
    hide Reachable;
    var s0 := Start(cfg);
    s := JoinAlone(cfg, s0, 1, w);
    s := LearnJoin(cfg, s, 1, w);
    s := Update(cfg, s, w, W.SetA(5));
  }

  /** `w` has set A inside transaction 1 and voted to commit it; an answer to its BEGIN is still on its way. */
  lemma VotesOnFive(cfg: Config, w: NodeId) returns (s: State)
    requires w in cfg.workers
    ensures Reachable(cfg, s) && At(s, Alone(1, w), [MJoin(1), MCommitReq(1)], MServe({})) && w in s.workers
    ensures (1, w) in s.hist.joined && (1, w) in s.hist.voted
    ensures s.net[VoteCommit(1, w)] > 0 && s.net[BeginReply(1, w, true)] > 0
    ensures var wk := s.workers[w];
      wk.mode == W.Waiting && wk.cur == 1 && wk.run && wk.log == VotedLog() && wk.store == Fresh().store.(a := 5)
  {
    hide Reachable, W.HasRec;
    s := SetsFive(cfg, w);
    s := AskCommit(cfg, s, 1, w);
    s := AskAlone(cfg, s, 1, w);
    NoAbort(s.workers[w].log);
    s := Vote(cfg, s, 1, w);
  }

  lemma NoAbort(log: seq<W.Record>)
    requires forall i :: 0 <= i < |log| ==> log[i].kind != W.AbortRec
    ensures !W.HasRec(log, W.AbortRec, 1)
  {
  }

  /** A worker in transaction 1 that is waiting takes any other message for the end of the wait. */
  lemma StopsWaiting(cfg: Config, s0: State, w: NodeId) returns (s: State)
    requires Reachable(cfg, s0) && w in s0.workers && s0.workers[w].mode == W.Waiting && s0.net[BeginReply(1, w, true)] > 0
    ensures Reachable(cfg, s) && s.net == s0.net - multiset{BeginReply(1, w, true)}
    ensures Moved(s, s0, w, s0.workers[w].(mode := W.Ready))
  {
    hide Reachable, Next, Enabled, WorkerNext, W.Rollback;
    s := Act(cfg, s0, w, W.Recv(BeginReply(1, w, true)));
  }

  /** The log after the vote and one more update is undone to the join. */
  lemma UndoesAll(st: W.Store)
    ensures W.Rollback(VotedLog() + [W.Rec(W.NewBRec, 1)], 1, st.(a := 5, b := 7, updated := 0, clock := [])) ==
      st.(a := 0, b := 0, updated := 0, clock := [])
  {
    var log := VotedLog() + [W.Rec(W.NewBRec, 1)];
    assert W.TxStart(log, 1) == 0;
    assert log[0..] == log;
    var voted := VotedLog()[1..];
    assert log[1..] == voted + [W.Rec(W.NewBRec, 1)] && log[1] == voted[0];
    Undo.OldestAppend(voted, W.Rec(W.NewBRec, 1), 5, 7, st.id);
    Undo.OldestKeepsDefault(voted, 5, 0, st.id);
  }

  /** It stops waiting, makes one more update, crashes, and rolls all of it back. */
  lemma GivesUp(cfg: Config, s0: State, w: NodeId) returns (s: State)
    requires Reachable(cfg, s0) && w in s0.workers && s0.net[BeginReply(1, w, true)] > 0
    requires var wk := s0.workers[w];
      wk.mode == W.Waiting && wk.cur == 1 && wk.run && wk.log == VotedLog() && wk.store == Fresh().store.(a := 5)
    ensures Reachable(cfg, s) && w in s.workers && s.workers[w].mode == W.Ready && s.workers[w].store == Fresh().store
    ensures At(s, s0.table, s0.mlog, s0.mmode) && s0.hist.voted <= s.hist.voted
    ensures s.net == s0.net - multiset{BeginReply(1, w, true)}
    ensures s0.workers[w].log <= s.workers[w].log
  {
    hide Reachable, W.Rollback;
    s := StopsWaiting(cfg, s0, w);
    s := Update(cfg, s, w, W.SetB(7));
    UndoesAll(Fresh().store);
    s := ComeBackUndoing(cfg, s, w);
  }

  /** In every configuration with a worker: in `s0` it has voted to commit transaction 1 with A set to 5, in `s1` it has rolled
      back on its own although nothing is decided, and in `s2` the transaction is committed, logged as such by the worker, and A
      is 0. In between came the late answer to its BEGIN, one more update and a crash. */
  lemma UncertaintyLost(cfg: Config, w: NodeId) returns (s0: State, s1: State, s2: State)
    requires w in cfg.workers
    ensures Reachable(cfg, s0) && Reachable(cfg, s1) && Reachable(cfg, s2)
    ensures w in s0.workers && w in s1.workers && w in s2.workers && (1, w) in s0.hist.joined && (1, w) in s0.hist.voted
    ensures s0.workers[w].mode == W.Waiting && s0.workers[w].store.a == 5
    ensures s0.workers[w].log <= s1.workers[w].log <= s2.workers[w].log && s0.mlog == s1.mlog < s2.mlog
    ensures s1.workers[w].store.a == 0 && !Committed(s1, 1) && !Aborted(s1, 1) && (1, w) in s1.hist.voted
    ensures Committed(s2, 1) && W.HasRec(s2.workers[w].log, W.DecideCommitRec, 1) && s2.workers[w].store.a == 0
  {
    hide Reachable, W.Rollback, VotedLog;
    s0 := VotesOnFive(cfg, w);
    s1 := GivesUp(cfg, s0, w);
    s2 := CommitAlone(cfg, s1, 1, w);
    s2 := Learn(cfg, s2, 1, w, true);
    assert s2.mlog[2] == MDecide(1, true);
    assert s2.workers[w].log[|s2.workers[w].log| - 1] == W.Rec(W.DecideCommitRec, 1);
  }
}
