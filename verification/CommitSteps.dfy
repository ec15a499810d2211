/** Each part of the commit invariant survives the steps that touch what it speaks of. */
module CommitSteps {
  import opened Messages
  import opened TwoPhaseCommit
  import opened CommitInvariant
  import W = WorkerNode

  // ---------- BEGIN ----------

  lemma BeginFrame(s: State, s': State)
    requires InvBegin(s)
    requires forall t, w :: s'.net[Begin(t, w)] <= s.net[Begin(t, w)]
    requires s'.hist.beginner == s.hist.beginner && s'.hist.begun == s.hist.begun
    requires s'.table.Keys <= s.table.Keys
    ensures InvBegin(s')
  {
  }

  lemma BeginSent(s: State, s': State, t: Tid, w: NodeId)
    requires InvBegin(s) && t != 0 && t !in s.hist.beginner
    requires s'.net == s.net + multiset{Begin(t, w)}
    requires s'.hist.beginner == s.hist.beginner[t := w] && s'.hist.begun == s.hist.begun
    requires s'.table == s.table
    ensures InvBegin(s')
  {
  }

  lemma BeginTaken(s: State, s': State, t: Tid, w: NodeId, reply: Msg)
    requires InvBegin(s) && s.net[Begin(t, w)] > 0 && !reply.Begin?
    requires s'.net == s.net - multiset{Begin(t, w)} + multiset{reply}
    requires s'.hist.beginner == s.hist.beginner && s'.hist.begun == s.hist.begun + {t}
    requires s'.table.Keys <= s.table.Keys + {t}
    ensures InvBegin(s')
  {
  }

  lemma BeginByWorker(s: State, w: NodeId, step: W.Step)
    requires InvBegin(s) && w in s.workers && W.Enabled(s.workers[w], step)
    requires step.Recv? ==> s.net[step.m] > 0 && step.m.w == w
    requires step.CmdBegin? ==> step.t != 0 && step.t !in s.hist.beginner
    ensures InvBegin(WorkerNext(s, w, step))
  {
    hide W.Next, InvBegin;
    var s' := WorkerNext(s, w, step);
    if step.CmdBegin? { BeginSent(s, s', step.t, w); } else { BeginFrame(s, s'); }
  }

  // ---------- JOIN ----------

  /** No slot appears, and slots keep their members. */
  ghost predicate SameMembers(s: State, s': State) {
    forall t :: t in s'.table ==> t in s.table && s'.table[t].Keys == s.table[t].Keys
  }

  lemma JoinFrame(s: State, s': State)
    requires InvJoin(s) && SameMembers(s, s')
    requires forall t, w :: s'.net[Join(t, w)] <= s.net[Join(t, w)]
    requires s'.hist.joinSent == s.hist.joinSent && s'.hist.joinDone == s.hist.joinDone
    requires s'.hist.joined == s.hist.joined && s.hist.begun == s'.hist.begun
    ensures InvJoin(s')
  {
  }

  lemma JoinSlotAdded(s: State, s': State, t: Tid)
    requires InvJoin(s) && t !in s.hist.begun
    requires forall t, w :: s'.net[Join(t, w)] <= s.net[Join(t, w)]
    requires s'.hist.joinSent == s.hist.joinSent && s'.hist.joinDone == s.hist.joinDone
    requires s'.hist.joined == s.hist.joined && s'.hist.begun == s.hist.begun + {t}
    requires s'.table == s.table || s'.table == s.table[t := map[]]
    ensures InvJoin(s')
  {
  }

  lemma JoinSent(s: State, s': State, t: Tid, w: NodeId)
    requires InvJoin(s) && t != 0 && (t, w) !in s.hist.joinSent
    requires s'.net == s.net + multiset{Join(t, w)} && s'.table == s.table
    requires s'.hist == s.hist.(joinSent := s.hist.joinSent + {(t, w)})
    ensures InvJoin(s')
  {
  }

  lemma JoinTaken(s: State, s': State, t: Tid, w: NodeId, reply: Msg, added: bool)
    requires InvBegin(s) && InvJoin(s) && s.net[Join(t, w)] > 0 && !reply.Join?
    requires s'.net == s.net - multiset{Join(t, w)} + multiset{reply}
    requires added ==> t in s.table && s'.table == s.table[t := SetVote(s.table[t], w, 0)]
    requires !added ==> s'.table == s.table
    requires s'.hist == s.hist.(joinDone := s.hist.joinDone + {(t, w)},
                                joined := if added then s.hist.joined + {(t, w)} else s.hist.joined)
    ensures InvJoin(s')
  {
  }

  lemma JoinByWorker(s: State, w: NodeId, step: W.Step)
    requires InvJoin(s) && w in s.workers && W.Enabled(s.workers[w], step)
    requires step.Recv? ==> s.net[step.m] > 0 && step.m.w == w
    requires step.CmdJoin? ==> step.t != 0 && (step.t, w) !in s.hist.joinSent
    ensures InvJoin(WorkerNext(s, w, step))
  {
    hide W.Next, InvJoin;
    var s' := WorkerNext(s, w, step);
    if step.CmdJoin? { JoinSent(s, s', step.t, w); } else { JoinFrame(s, s'); }
  }

  // ---------- who knows a transaction ----------

  lemma KnownByManager(s: State, s': State)
    requires InvKnown(s) && s'.workers == s.workers && s.hist.joinDone <= s'.hist.joinDone
    requires forall m :: s'.net[m] > 0 && Tells(m) ==> s.net[m] > 0 || (m.t, m.w) in s'.hist.joinDone
    ensures InvKnown(s')
  {
    forall w | w in s'.workers ensures WorkerKnown(s'.hist.joinDone, w, s'.workers[w]) {
      assert WorkerKnown(s.hist.joinDone, w, s.workers[w]);
    }
  }

  lemma WorkerStaysKnown(done: set<(Tid, NodeId)>, w: NodeId, wk: W.Worker, step: W.Step)
    requires WorkerKnown(done, w, wk) && W.Enabled(wk, step)
    requires step.Recv? && Tells(step.m) ==> (step.m.t, w) in done
    ensures WorkerKnown(done, w, W.Next(wk, step))
    ensures var out := W.Output(w, wk, step);
            out.Some? ==> out.value.w == w && (Tells(out.value) ==> (out.value.t, w) in done)
  {
    W.NextLog(wk, step);
    LogStaysKnown(done, w, wk, step);
    TidsStayKnown(done, w, wk, step);
    OutputKnown(done, w, wk, step);
    hide W.Next, W.Output, W.Appended, KnownTid, Tells;
  }

  lemma LogStaysKnown(done: set<(Tid, NodeId)>, w: NodeId, wk: W.Worker, step: W.Step)
    requires WorkerKnown(done, w, wk) && W.Enabled(wk, step)
    requires step.Recv? && Tells(step.m) ==> (step.m.t, w) in done
    ensures forall i :: 0 <= i < |W.Appended(wk, step)| ==> KnownTid(done, W.Appended(wk, step)[i].tid, w)
  {
  }

  lemma TidsStayKnown(done: set<(Tid, NodeId)>, w: NodeId, wk: W.Worker, step: W.Step)
    requires WorkerKnown(done, w, wk) && W.Enabled(wk, step)
    requires step.Recv? && Tells(step.m) ==> (step.m.t, w) in done
    ensures var wk' := W.Next(wk, step);
      && KnownTid(done, wk'.cur, w)
      && (wk'.mode.Voting? || wk'.mode.Voted? || wk'.mode.Deciding? ==> KnownTid(done, wk'.mode.t, w))
  {
    hide W.Rollback, W.VotesCommit, W.Apply, W.StampStore, W.UndoRecord, W.JoinRecord, W.Rec, W.AsksOnRestart;
  }

  lemma OutputKnown(done: set<(Tid, NodeId)>, w: NodeId, wk: W.Worker, step: W.Step)
    requires WorkerKnown(done, w, wk) && W.Enabled(wk, step)
    ensures var out := W.Output(w, wk, step);
            out.Some? ==> out.value.w == w && (Tells(out.value) ==> (out.value.t, w) in done)
  {
    hide W.VotesCommit;
  }

  lemma KnownByWorker(s: State, w: NodeId, step: W.Step)
    requires InvKnown(s) && w in s.workers && W.Enabled(s.workers[w], step)
    requires step.Recv? ==> s.net[step.m] > 0 && step.m.w == w
    ensures InvKnown(WorkerNext(s, w, step))
  {
    hide W.Next, W.Output, WorkerKnown;
    WorkerStaysKnown(s.hist.joinDone, w, s.workers[w], step);
    var s' := WorkerNext(s, w, step);
    assert s'.hist.joinDone == s.hist.joinDone;
  }

  // ---------- COMMIT requests ----------

  lemma RequestByManager(s: State, s': State)
    requires InvRequest(s) && s'.workers == s.workers && s'.hist.requested == s.hist.requested
    requires forall t, w :: s'.net[CommitReq(t, w)] <= s.net[CommitReq(t, w)]
    requires forall t :: Requested(s', t) == Requested(s, t)
    ensures InvRequest(s')
  {
  }

  lemma RequestTaken(s: State, s': State, t: Tid, w: NodeId)
    requires InvRequest(s) && s'.workers == s.workers && s'.hist.requested == s.hist.requested
    requires s.net[CommitReq(t, w)] > 0 && s'.net == s.net - multiset{CommitReq(t, w)}
    requires s'.mlog == s.mlog + [MCommitReq(t)]
    ensures InvRequest(s')
  {
    assert forall u :: Requested(s', u) == (Requested(s, u) || u == t);
  }

  /** A step without COMMIT traffic. */
  lemma RequestFrame(s: State, s': State, w: NodeId)
    requires InvRequest(s) && w in s.workers && s'.workers.Keys == s.workers.Keys
    requires forall v :: v in s.workers && v != w ==> s'.workers[v] == s.workers[v]
    requires s'.workers[w].mode != W.Committing
    requires s'.hist.requested == s.hist.requested && s'.mlog == s.mlog
    requires forall t, v :: s'.net[CommitReq(t, v)] <= s.net[CommitReq(t, v)]
    ensures InvRequest(s')
  {
  }

  lemma NoRequest(w: NodeId, wk: W.Worker, step: W.Step)
    requires W.Enabled(wk, step) && !step.CmdCommit? && !step.SendCommit?
    ensures W.Next(wk, step).mode != W.Committing
    ensures W.Output(w, wk, step).Some? ==> !W.Output(w, wk, step).value.CommitReq?
  {
    hide W.Rollback, W.VotesCommit, W.Apply, W.StampStore, W.UndoRecord, W.JoinRecord, W.Rec, W.AsksOnRestart;
  }

  lemma RequestByWorker(s: State, w: NodeId, step: W.Step)
    requires InvRequest(s) && w in s.workers && W.Enabled(s.workers[w], step)
    requires step.Recv? ==> s.net[step.m] > 0 && step.m.w == w
    requires step.CmdCommit? ==> s.workers[w].cur == 0 || s.workers[w].cur !in s.hist.requested
    ensures InvRequest(WorkerNext(s, w, step))
  {
    hide W.Next, W.Output, InvRequest;
    var s' := WorkerNext(s, w, step);
    if step.CmdCommit? {
      CommitLogged(s, s', w);
    } else if step.SendCommit? {
      CommitSent(s, s', w);
    } else {
      NoRequest(w, s.workers[w], step);
      RequestFrame(s, s', w);
    }
  }

  lemma CommitLogged(s: State, s': State, w: NodeId)
    requires InvRequest(s) && w in s.workers
    requires var t := s.workers[w].cur; t == 0 || t !in s.hist.requested
    requires s.workers[w].mode == W.Ready && s' == WorkerNext(s, w, W.CmdCommit)
    ensures InvRequest(s')
  {
    assert forall t :: Requested(s', t) == Requested(s, t);
  }

  lemma CommitSent(s: State, s': State, w: NodeId)
    requires InvRequest(s) && w in s.workers && s.workers[w].mode == W.Committing
    requires s' == WorkerNext(s, w, W.SendCommit)
    ensures InvRequest(s')
  {
    assert forall t :: Requested(s', t) == Requested(s, t);
  }

  // ---------- tokens ----------

  lemma TokenFrame(s: State, s': State)
    requires InvToken(s)
    requires forall t, w :: Tokens(s', t, w) <= Tokens(s, t, w)
    requires s.hist.joined <= s'.hist.joined && s.hist.counted <= s'.hist.counted
    requires forall t :: Requested(s, t) ==> Requested(s', t)
    requires forall t :: Committed(s', t) ==> Committed(s, t)
    ensures InvToken(s')
  {
    forall t, w ensures TokenOk(s', t, w) { assert TokenOk(s, t, w); }
  }

  lemma TokenAsked(s: State, s': State, t: Tid, w: NodeId)
    requires InvToken(s) && InvJoin(s) && InvRequest(s) && InvBegin(s) && s.mmode == MServe({})
    requires s.net[CommitReq(t, w)] > 0 && s'.net == s.net - multiset{CommitReq(t, w)}
    requires Committed(s, t) ==> Requested(s, t)
    requires s'.mlog == s.mlog + [MCommitReq(t)] && s'.mmode == MAsk(t, MemberSet(s.table, t))
    requires s'.workers == s.workers && s'.hist == s.hist
    ensures InvToken(s')
  {
    forall u, v ensures TokenOk(s', u, v) {
      assert TokenOk(s, u, v);
      assert Requested(s', u) == (Requested(s, u) || u == t);
      assert Committed(s', u) == Committed(s, u);
      if u == t && v in MemberSet(s.table, t) {
        assert (t, v) in s.hist.joined;
        assert t != 0;
        assert Tokens(s, u, v) == 0;
      }
    }
  }

  lemma TokenCommitted(s: State, s': State, t: Tid)
    requires InvToken(s) && InvJoin(s) && InvStored(s) && FullyVoted(s, t)
    requires s'.mlog == s.mlog + [MDecide(t, true)] && s.mmode == MLog(t) && s'.mmode.MTell?
    requires s'.workers == s.workers && s'.hist == s.hist && s'.net == s.net
    ensures InvToken(s')
  {
    forall u, v ensures TokenOk(s', u, v) {
      assert TokenOk(s, u, v);
      assert Requested(s', u) == Requested(s, u);
      if u == t && Tokens(s, t, v) > 0 {
        assert t == 0 || (t, v) in s.hist.joined;
        assert s.table[t][v] != 0;
      }
    }
  }

  lemma TokenVoted(s: State, s': State, t: Tid, w: NodeId)
    requires InvToken(s) && s.net[VoteCommit(t, w)] > 0 && s'.net == s.net - multiset{VoteCommit(t, w)}
    requires s.mmode == MServe({}) && !s'.mmode.MAsk? && s'.mlog == s.mlog && s'.workers == s.workers
    requires s'.hist == s.hist.(counted := s.hist.counted + {(t, w)})
    ensures InvToken(s')
  {
    assert TokenOk(s, t, w);
    forall u, v ensures Tokens(s', u, v) <= Tokens(s, u, v) {}
    hide Tokens;
    TokenFrame(s, s');
  }

  lemma TokenByWorker(s: State, w: NodeId, step: W.Step)
    requires InvToken(s) && w in s.workers && W.Enabled(s.workers[w], step)
    requires step.Recv? ==> s.net[step.m] > 0 && step.m.w == w
    ensures InvToken(WorkerNext(s, w, step))
  {
    var s' := WorkerNext(s, w, step);
    TokensByWorker(s, w, step);
    TokenFrame(s, s');
  }

  /** A worker gets to vote by a PREPARE_COMMIT only, and a vote uses that up. */
  lemma VoteTraffic(w: NodeId, wk: W.Worker, step: W.Step, t: Tid)
    requires W.Enabled(wk, step)
    ensures W.Next(wk, step).mode == W.Voting(t) ==> wk.mode == W.Ready && step.Recv? && step.m.Prepare? && step.m.t == t
    ensures var out := W.Output(w, wk, step);
      && (out.Some? && (out.value == VoteCommit(t, w) || out.value == VoteAbort(t, w)) ==> wk.mode == W.Voting(t) && step.SendVote?)
      && (out.Some? ==> !out.value.Prepare?)
  {
    hide W.Rollback, W.VotesCommit, W.Apply, W.StampStore, W.UndoRecord, W.JoinRecord, W.Rec, W.AsksOnRestart;
  }

  lemma OwnTokens(s: State, w: NodeId, step: W.Step, t: Tid)
    requires w in s.workers && W.Enabled(s.workers[w], step)
    requires step.Recv? ==> s.net[step.m] > 0 && step.m.w == w
    ensures Tokens(WorkerNext(s, w, step), t, w) <= Tokens(s, t, w)
  {
    VoteTraffic(w, s.workers[w], step, t);
    hide W.Next, W.Output, WorkerHistory;
    WorkerCounted(s, w, step);
  }

  lemma WorkerCounted(s: State, w: NodeId, step: W.Step)
    requires w in s.workers
    ensures WorkerHistory(s, w, step).counted == s.hist.counted
  {
  }

  lemma OthersTokens(s: State, w: NodeId, step: W.Step, t: Tid, v: NodeId)
    requires w in s.workers && W.Enabled(s.workers[w], step) && v != w
    requires step.Recv? ==> s.net[step.m] > 0
    ensures Tokens(WorkerNext(s, w, step), t, v) <= Tokens(s, t, v)
  {
    hide W.Next, WorkerHistory, W.VotesCommit;
    WorkerCounted(s, w, step);
  }

  lemma TokensByWorker(s: State, w: NodeId, step: W.Step)
    requires w in s.workers && W.Enabled(s.workers[w], step)
    requires step.Recv? ==> s.net[step.m] > 0 && step.m.w == w
    ensures forall t, v :: Tokens(WorkerNext(s, w, step), t, v) <= Tokens(s, t, v)
  {
    hide W.Next, W.Output, Tokens;
    var s' := WorkerNext(s, w, step);
    forall t, v ensures Tokens(s', t, v) <= Tokens(s, t, v) {
      if v == w { OwnTokens(s, w, step, t); } else { OthersTokens(s, w, step, t, v); }
    }
  }

  // ---------- stored votes ----------

  lemma StoredFrame(s: State, s': State)
    requires InvStored(s) && s'.hist.counted == s.hist.counted && s.hist.voted <= s'.hist.voted
    requires forall t :: t in s'.table ==> t in s.table && s'.table[t] == s.table[t]
    requires forall t, w :: s'.net[VoteCommit(t, w)] <= s.net[VoteCommit(t, w)]
    ensures InvStored(s')
  {
  }

  lemma StoredSlotAdded(s: State, s': State, t: Tid)
    requires InvStored(s) && s'.hist.counted == s.hist.counted && s.hist.voted == s'.hist.voted
    requires s'.table == s.table || s'.table == s.table[t := map[]]
    requires forall t, w :: s'.net[VoteCommit(t, w)] <= s.net[VoteCommit(t, w)]
    ensures InvStored(s')
  {
  }

  lemma StoredJoined(s: State, s': State, t: Tid, w: NodeId)
    requires InvStored(s) && InvToken(s) && (t, w) !in s.hist.joined
    requires t in s.table && s'.table == s.table[t := SetVote(s.table[t], w, 0)] && t != 0
    requires s'.hist.counted == s.hist.counted && s.hist.voted == s'.hist.voted
    requires forall t, w :: s'.net[VoteCommit(t, w)] <= s.net[VoteCommit(t, w)]
    ensures InvStored(s')
  {
    assert TokenOk(s, t, w);
    assert (t, w) !in s.hist.counted;
  }

  lemma StoredVote(s: State, s': State, t: Tid, w: NodeId)
    requires InvStored(s) && s.net[VoteCommit(t, w)] > 0
    requires forall t, w :: s'.net[VoteCommit(t, w)] <= s.net[VoteCommit(t, w)]
    requires s'.table == StoreVote(s.table, t, w, VOTE_COMMIT) && s'.hist.voted == s.hist.voted
    requires s'.hist.counted == if t in s.table && w in s.table[t] then s.hist.counted + {(t, w)} else s.hist.counted
    ensures InvStored(s')
  {
  }

  lemma StoredByWorker(s: State, w: NodeId, step: W.Step)
    requires InvStored(s) && w in s.workers && W.Enabled(s.workers[w], step)
    requires step.Recv? ==> s.net[step.m] > 0
    ensures InvStored(WorkerNext(s, w, step))
  {
    hide W.Rollback;
  }
}
