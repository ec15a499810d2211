/** Building blocks for runs of the commit system: single steps, and the usual passages of a transaction with one member. */
module CommitScenes {
  import opened Messages
  import opened TwoPhaseCommit
  import opened CommitInvariant
  import W = WorkerNode

  // ---------- single steps ----------

  lemma Do(cfg: Config, s: State, l: Label) returns (s': State)
    requires Reachable(cfg, s) && Enabled(cfg, s, l)
    ensures s' == Next(cfg, s, l) && Reachable(cfg, s')
  {
    ReachableStep(cfg, s, l);
    s' := Next(cfg, s, l);
  }

  /** The two histories agree on who began, joined and asked for a commit. */
  predicate SameRequests(s: State, s0: State) {
    s.hist.beginner == s0.hist.beginner && s.hist.joinSent == s0.hist.joinSent && s.hist.requested == s0.hist.requested
    && s.hist.joined == s0.hist.joined && s.hist.joinDone == s0.hist.joinDone && s.hist.begun == s0.hist.begun
  }

  /** One step of worker `w` that is no BEGIN, JOIN or COMMIT command. */
  lemma Act(cfg: Config, s: State, w: NodeId, step: W.Step) returns (s': State)
    requires Reachable(cfg, s) && w in s.workers && W.Enabled(s.workers[w], step)
    requires !step.CmdBegin? && !step.CmdJoin? && !step.CmdCommit?
    requires step.Recv? ==> s.net[step.m] > 0 && step.m.w == w
    ensures Reachable(cfg, s')
    ensures s'.workers == s.workers[w := W.Next(s.workers[w], step)]
    ensures s'.net == (if step.Recv? then s.net - multiset{step.m} else s.net) +
              (var out := W.Output(w, s.workers[w], step); if out.Some? then multiset{out.value} else multiset{})
    ensures s'.table == s.table && s'.mlog == s.mlog && s'.mmode == s.mmode
    ensures s'.hist == s.hist.(voted := s'.hist.voted, overruled := s'.hist.overruled)
    ensures step.SendVote? && s.workers[w].mode.Voting? && W.VotesCommit(s.workers[w]) ==> (s.workers[w].mode.t, w) in s'.hist.voted
    ensures s.hist.voted <= s'.hist.voted
  {
    s' := Do(cfg, s, WorkerStep(w, step));
    hide Reachable, W.Next, W.Output;
  }

  lemma ActBegin(cfg: Config, s: State, w: NodeId, t: Tid) returns (s': State)
    requires Reachable(cfg, s) && w in s.workers && s.workers[w].mode == W.Ready
    requires t != 0 && t !in s.hist.beginner
    ensures Reachable(cfg, s')
    ensures s' == s.(net := s.net + multiset{Begin(t, w)}, workers := s'.workers,
                     hist := s.hist.(beginner := s.hist.beginner[t := w]))
    ensures s'.workers == s.workers
  {
    s' := Do(cfg, s, WorkerStep(w, W.CmdBegin(t)));
    hide Reachable;
  }

  lemma ActJoin(cfg: Config, s: State, w: NodeId, t: Tid) returns (s': State)
    requires Reachable(cfg, s) && w in s.workers && s.workers[w].mode == W.Ready
    requires t != 0 && (t, w) !in s.hist.joinSent
    ensures Reachable(cfg, s')
    ensures s' == s.(net := s.net + multiset{Join(t, w)}, workers := s'.workers,
                     hist := s.hist.(joinSent := s.hist.joinSent + {(t, w)}))
    ensures s'.workers == s.workers
  {
    s' := Do(cfg, s, WorkerStep(w, W.CmdJoin(t)));
    hide Reachable;
  }

  lemma ActCommit(cfg: Config, s: State, w: NodeId, t: Tid) returns (s': State)
    requires Reachable(cfg, s) && w in s.workers && s.workers[w].mode == W.Ready && s.workers[w].cur == t
    requires t != 0 && t !in s.hist.requested
    ensures Reachable(cfg, s')
    ensures s' == s.(workers := s'.workers, hist := s.hist.(requested := s.hist.requested[t := w]))
    ensures s'.workers == s.workers[w := W.Next(s.workers[w], W.CmdCommit)]
  {
    s' := Do(cfg, s, WorkerStep(w, W.CmdCommit));
    hide Reachable;
  }

  lemma Receive(cfg: Config, s: State, m: Msg) returns (s': State)
    requires Reachable(cfg, s) && s.mmode == MServe({}) && s.net[m] > 0 && m.ToManager()
    ensures s' == Handle(cfg, s, m, true, 0) && Reachable(cfg, s')
  {
    s' := Do(cfg, s, MRecv(m, true, 0));
    hide Reachable, Handle;
  }

  lemma Send(cfg: Config, s: State, w: NodeId) returns (s': State)
    requires Reachable(cfg, s) && (s.mmode.MAsk? || s.mmode.MTell?) && w in s.mmode.pending
    ensures Reachable(cfg, s')
    ensures s' == s.(net := s.net + multiset{if s.mmode.MAsk? then Prepare(s.mmode.t, w) else Decide(s.mmode.t, w, s.mmode.commit)},
                     mmode := s.mmode.(pending := s.mmode.pending - {w}))
  {
    s' := Do(cfg, s, MSendOne(w));
    hide Reachable;
  }

  /** The manager is killed and restarted. */
  lemma Bounce(cfg: Config, s: State) returns (s': State)
    requires Reachable(cfg, s) && (s.mmode == MServe({}) || (cfg.midCrash && s.mmode != MDown))
    ensures Reachable(cfg, s') && s' == s.(mmode := MServe(Undecided(s)))
  {
    s' := Do(cfg, s, MCrash);
    s' := Do(cfg, s', MRestart);
    hide Reachable;
  }

  lemma DoTimeout(cfg: Config, s: State, t: Tid) returns (s': State)
    requires Reachable(cfg, s) && s.mmode == MServe({}) && t in s.table && TimesOut(cfg, s.mlog, t)
    ensures Reachable(cfg, s')
    ensures s' == s.(mlog := s.mlog + [MDecide(t, false)], mmode := MTell(t, false, MemberSet(s.table, t), {}, false))
  {
    s' := Do(cfg, s, MTimeout(t));
    hide Reachable;
  }

  lemma DoAppendCommit(cfg: Config, s: State, t: Tid) returns (s': State)
    requires Reachable(cfg, s) && s.mmode == MLog(t)
    ensures Reachable(cfg, s')
    ensures s' == s.(mlog := s.mlog + [MDecide(t, true)], mmode := MTell(t, true, MemberSet(s.table, t), {}, false))
  {
    s' := Do(cfg, s, MAppendCommit);
    hide Reachable;
  }

  lemma DoFinish(cfg: Config, s: State) returns (s': State)
    requires Reachable(cfg, s) && (s.mmode.MAsk? || s.mmode.MTell?) && s.mmode.pending == {}
    ensures Reachable(cfg, s')
    ensures s' == s.(mmode := MServe(if s.mmode.MAsk? then {} else s.mmode.todo),
                     table := if s.mmode.MAsk? || s.mmode.silent then s.table else s.table - {s.mmode.t})
  {
    s' := Do(cfg, s, MFinish);
    hide Reachable;
  }

  lemma DoRecover(cfg: Config, s: State, t: Tid) returns (s': State)
    requires Reachable(cfg, s) && cfg.silentRestart && s.mmode.MServe? && t in s.mmode.todo
    ensures Reachable(cfg, s')
    ensures s' == s.(mmode := MTell(t, false, MemberSet(s.table, t), s.mmode.todo - {t}, true))
  {
    s' := Do(cfg, s, MRecover(t));
    hide Reachable;
  }

  function Fresh(): W.Worker {
    W.Worker(W.Store(0, 0, "", [], 0), [], 0, false, false, W.Ready, false, false)
  }

  lemma Start(cfg: Config) returns (s: State)
    ensures Reachable(cfg, s) && Init(cfg, s)
    ensures forall w :: w in cfg.workers ==> w in s.workers && s.workers[w] == Fresh()
  {
    s := State(map w | w in cfg.workers :: Fresh(), map[], [], MServe({}), multiset{},
               History(map[], {}, {}, {}, {}, map[], {}, {}, {}));
    assert ValidRun(cfg, s, []) && Exec(cfg, s, []) == s;
  }

  /** The manager's side of a state. */
  predicate At(s: State, table: map<Tid, Members>, mlog: seq<MRecord>, mmode: MMode) {
    s.table == table && s.mlog == mlog && s.mmode == mmode
  }

  // ---------- the manager, with one transaction of one member ----------

  function Alone(t: Tid, w: NodeId): map<Tid, Members> {
    map[t := map[w := 0]]
  }

  /** Nobody has heard of `t`. */
  predicate Free(s: State, t: Tid, w: NodeId) {
    t != 0 && t !in s.hist.beginner && (t, w) !in s.hist.joinSent && t !in s.hist.requested
  }

  /** `w` begins and joins `t`; both replies are on their way. */
  lemma JoinAlone(cfg: Config, s0: State, t: Tid, w: NodeId) returns (s: State)
    requires Reachable(cfg, s0) && w in s0.workers && s0.workers[w].mode == W.Ready
    requires s0.table == map[] && s0.mmode == MServe({}) && Free(s0, t, w)
    ensures Reachable(cfg, s) && s.workers == s0.workers && At(s, Alone(t, w), s0.mlog + [MJoin(t)], MServe({}))
    ensures s.net == s0.net + multiset{BeginReply(t, w, true)} + multiset{JoinSuccess(t, w)}
    ensures s.hist == s0.hist.(beginner := s0.hist.beginner[t := w], begun := s0.hist.begun + {t},
              joinSent := s0.hist.joinSent + {(t, w)}, joinDone := s0.hist.joinDone + {(t, w)},
              joined := s0.hist.joined + {(t, w)})
  {
    hide Reachable, Handle;
    s := ActBegin(cfg, s0, w, t);
    BeginAlone(cfg, s, t, w);
    s := Receive(cfg, s, Begin(t, w));
    s := ActJoin(cfg, s, w, t);
    EnterAlone(cfg, s, t, w);
    s := Receive(cfg, s, Join(t, w));
  }

  lemma BeginAlone(cfg: Config, s: State, t: Tid, w: NodeId)
    requires s.table == map[]
    ensures Handle(cfg, s, Begin(t, w), true, 0) ==
      s.(table := map[t := map[]], net := s.net - multiset{Begin(t, w)} + multiset{BeginReply(t, w, true)},
         hist := s.hist.(begun := s.hist.begun + {t}))
  {
  }

  lemma EnterAlone(cfg: Config, s: State, t: Tid, w: NodeId)
    requires s.table == map[t := map[]]
    ensures Handle(cfg, s, Join(t, w), true, 0) ==
      s.(table := Alone(t, w), mlog := s.mlog + [MJoin(t)], net := s.net - multiset{Join(t, w)} + multiset{JoinSuccess(t, w)},
         hist := s.hist.(joinDone := s.hist.joinDone + {(t, w)}, joined := s.hist.joined + {(t, w)}))
  {
    assert SetVote(map[], w, 0) == map[w := 0];
  }

  /** The request is logged and the member asked. */
  lemma AskAlone(cfg: Config, s0: State, t: Tid, w: NodeId) returns (s: State)
    requires Reachable(cfg, s0) && s0.net[CommitReq(t, w)] > 0 && s0.table == Alone(t, w) && s0.mmode == MServe({})
    ensures Reachable(cfg, s)
    ensures s == s0.(mlog := s0.mlog + [MCommitReq(t)], net := s0.net - multiset{CommitReq(t, w)} + multiset{Prepare(t, w)})
  {
    hide Reachable;
    s := Receive(cfg, s0, CommitReq(t, w));
    assert MemberSet(s.table, t) == {w};
    s := Send(cfg, s, w);
    assert s.mmode.pending == {};
    s := DoFinish(cfg, s);
  }

  /** The only vote is in: commit is logged and told, the slot cleaned. */
  lemma CommitAlone(cfg: Config, s0: State, t: Tid, w: NodeId) returns (s: State)
    requires Reachable(cfg, s0) && s0.net[VoteCommit(t, w)] > 0 && s0.table == Alone(t, w) && s0.mmode == MServe({}) && t != 0
    ensures Reachable(cfg, s) && s.workers == s0.workers && At(s, map[], s0.mlog + [MDecide(t, true)], MServe({}))
    ensures s.net == s0.net - multiset{VoteCommit(t, w)} + multiset{Decide(t, w, true)}
    ensures s.hist == s0.hist.(counted := s.hist.counted)
  {
    hide Reachable, Handle;
    CountAlone(cfg, s0, t, w);
    s := Receive(cfg, s0, VoteCommit(t, w));
    s := DoAppendCommit(cfg, s, t);
    assert MemberSet(s.table, t) == {w};
    s := Send(cfg, s, w);
    assert s.mmode.pending == {};
    s := DoFinish(cfg, s);
    assert s.table == map[];
  }

  lemma CountAlone(cfg: Config, s: State, t: Tid, w: NodeId)
    requires s.table == Alone(t, w) && t != 0
    ensures var s' := Handle(cfg, s, VoteCommit(t, w), true, 0);
      s' == s.(table := map[t := map[w := VOTE_COMMIT]], net := s.net - multiset{VoteCommit(t, w)}, mmode := MLog(t),
               hist := s.hist.(counted := s'.hist.counted))
  {
    assert SetVote(map[w := 0], w, VOTE_COMMIT) == map[w := VOTE_COMMIT];
    var table := StoreMessage(cfg, s.table, VoteCommit(t, w));
    assert table == map[t := map[w := VOTE_COMMIT]];
    assert w in table[t] && MembersDecision(table[t], 0) == DECIDE_COMMIT;
  }

  /** The vote does not come: abort is logged and told, the slot cleaned. */
  lemma TimeOutAlone(cfg: Config, s0: State, t: Tid, w: NodeId) returns (s: State)
    requires Reachable(cfg, s0) && s0.table == Alone(t, w) && s0.mmode == MServe({}) && TimesOut(cfg, s0.mlog, t)
    ensures Reachable(cfg, s)
    ensures s == s0.(table := map[], mlog := s0.mlog + [MDecide(t, false)], net := s0.net + multiset{Decide(t, w, false)})
  {
    hide Reachable, TimesOut;
    s := DoTimeout(cfg, s0, t);
    assert MemberSet(s.table, t) == {w};
    s := Send(cfg, s, w);
    assert s.mmode.pending == {};
    s := DoFinish(cfg, s);
    assert s.table == map[];
  }

  /** A request logged last times out. */
  lemma RequestTimesOut(cfg: Config, mlog: seq<MRecord>, t: Tid)
    ensures TimesOut(cfg, mlog + [MCommitReq(t)], t)
  {
    assert (mlog + [MCommitReq(t)])[|mlog|] == MCommitReq(t);
  }

  /** A poll about a transaction that is gone is answered by the log. */
  lemma Answer(cfg: Config, s0: State, t: Tid, w: NodeId) returns (s: State)
    requires Reachable(cfg, s0) && s0.net[Poll(t, w)] > 0 && t !in s0.table && t != 0 && s0.mmode == MServe({})
    ensures Reachable(cfg, s)
    ensures s == s0.(net := s0.net - multiset{Poll(t, w)} + multiset{Decide(t, w, Committed(s0, t))})
  {
    hide Reachable;
    s := Receive(cfg, s0, Poll(t, w));
  }

  // ---------- the worker ----------

  /** Only worker `w` has moved, to `wk`; the network went from `before` to `after`. */
  predicate Moved(s: State, s0: State, w: NodeId, wk: W.Worker) {
    && At(s, s0.table, s0.mlog, s0.mmode) && SameRequests(s, s0) && s0.hist.voted <= s.hist.voted
    && s.workers == s0.workers[w := wk]
  }

  lemma LearnJoin(cfg: Config, s0: State, t: Tid, w: NodeId) returns (s: State)
    requires Reachable(cfg, s0) && w in s0.workers && s0.workers[w].mode == W.Ready && s0.net[JoinSuccess(t, w)] > 0
    ensures Reachable(cfg, s) && s.net == s0.net - multiset{JoinSuccess(t, w)}
    ensures var wk := s0.workers[w];
      Moved(s, s0, w, wk.(cur := t, run := true, log := wk.log + [W.JoinRecord(wk, t)], known := true))
  {
    hide Reachable, Next, Enabled, WorkerNext, W.Rollback;
    s := Act(cfg, s0, w, W.Recv(JoinSuccess(t, w)));
  }

  lemma AskCommit(cfg: Config, s0: State, t: Tid, w: NodeId) returns (s: State)
    requires Reachable(cfg, s0) && w in s0.workers && s0.workers[w].mode == W.Ready && s0.workers[w].cur == t
    requires t != 0 && t !in s0.hist.requested
    ensures Reachable(cfg, s) && s.net == s0.net + multiset{CommitReq(t, w)}
    ensures var wk := s0.workers[w];
      Moved(s, s0.(hist := s0.hist.(requested := s0.hist.requested[t := w])), w, wk.(log := wk.log + [W.Rec(W.CommitRec, t)]))
  {
    hide Reachable, Next, Enabled, WorkerNext, W.Rollback;
    s := ActCommit(cfg, s0, w, t);
    s := Act(cfg, s, w, W.SendCommit);
  }

  /** It logs PREPARE_COMMIT, votes for commit, logs the vote and waits. */
  lemma Vote(cfg: Config, s0: State, t: Tid, w: NodeId) returns (s: State)
    requires Reachable(cfg, s0) && w in s0.workers && s0.workers[w].mode == W.Ready && s0.net[Prepare(t, w)] > 0
    requires !W.HasRec(s0.workers[w].log, W.AbortRec, s0.workers[w].cur) && !s0.workers[w].refuse
    ensures Reachable(cfg, s) && s.net == s0.net - multiset{Prepare(t, w)} + multiset{VoteCommit(t, w)} && (t, w) in s.hist.voted
    ensures var wk := s0.workers[w];
      Moved(s, s0, w, wk.(log := wk.log + [W.Rec(W.PrepareRec, t), W.Rec(W.VoteRec, t)], mode := W.Waiting, reach := true))
  {
    hide Reachable, Next, Enabled, WorkerNext, W.Rollback, W.HasRec;
    var wk := s0.workers[w];
    NoAbortAfter(wk.log, W.Rec(W.PrepareRec, t), wk.cur);
    s := Act(cfg, s0, w, W.Recv(Prepare(t, w)));
    s := Act(cfg, s, w, W.SendVote);
    s := Act(cfg, s, w, W.AppendVote);
    assert wk.log + [W.Rec(W.PrepareRec, t)] + [W.Rec(W.VoteRec, t)] == wk.log + [W.Rec(W.PrepareRec, t), W.Rec(W.VoteRec, t)];
  }

  lemma NoAbortAfter(log: seq<W.Record>, r: W.Record, t: Tid)
    requires !W.HasRec(log, W.AbortRec, t) && r.kind != W.AbortRec
    ensures !W.HasRec(log + [r], W.AbortRec, t)
  {
  }

  /** It is told a decision, undoes its current transaction if it is abort, and logs it. */
  lemma Learn(cfg: Config, s0: State, t: Tid, w: NodeId, commit: bool) returns (s: State)
    requires Reachable(cfg, s0) && w in s0.workers && s0.net[Decide(t, w, commit)] > 0
    requires s0.workers[w].mode == W.Ready || s0.workers[w].mode == W.Waiting
    ensures Reachable(cfg, s) && s.net == s0.net - multiset{Decide(t, w, commit)}
    ensures var wk := s0.workers[w];
      Moved(s, s0, w, wk.(store := if commit then wk.store else W.Rollback(wk.log, wk.cur, wk.store), run := false, mode := W.Ready,
                          log := wk.log + [W.Rec(if commit then W.DecideCommitRec else W.DecideAbortRec, t)]))
  {
    hide Reachable, Next, Enabled, WorkerNext, W.Rollback;
    s := Act(cfg, s0, w, W.Recv(Decide(t, w, commit)));
    s := Act(cfg, s, w, W.AppendDecision);
  }

  lemma PollNow(cfg: Config, s0: State, w: NodeId) returns (s: State)
    requires Reachable(cfg, s0) && w in s0.workers && s0.workers[w].mode == W.Waiting && s0.workers[w].reach
    ensures Reachable(cfg, s) && s.net == s0.net + multiset{Poll(s0.workers[w].cur, w)} && Moved(s, s0, w, s0.workers[w])
  {
    hide Reachable, Next, Enabled, WorkerNext, W.Rollback;
    s := Act(cfg, s0, w, W.SendPoll);
  }

  /** It crashes and comes back to ask for the outcome of its last transaction. */
  lemma ComeBackAsking(cfg: Config, s0: State, w: NodeId) returns (s: State)
    requires Reachable(cfg, s0) && w in s0.workers && s0.workers[w].mode != W.Down
    requires s0.workers[w].log != [] && W.AsksOnRestart(s0.workers[w].log[|s0.workers[w].log| - 1].kind)
    ensures Reachable(cfg, s) && s.net == s0.net
    ensures var wk := s0.workers[w];
      Moved(s, s0, w, wk.(cur := wk.log[|wk.log| - 1].tid, run := false, refuse := false, mode := W.Waiting, reach := wk.known))
  {
    hide Reachable, Next, Enabled, WorkerNext, W.Rollback;
    s := Act(cfg, s0, w, W.Crash);
    s := Act(cfg, s, w, W.Restart);
  }

  /** It crashes, comes back, rolls its last transaction back and logs ABORT. */
  lemma ComeBackUndoing(cfg: Config, s0: State, w: NodeId) returns (s: State)
    requires Reachable(cfg, s0) && w in s0.workers && s0.workers[w].mode != W.Down
    requires s0.workers[w].log != [] && !W.AsksOnRestart(s0.workers[w].log[|s0.workers[w].log| - 1].kind)
    ensures Reachable(cfg, s) && s.net == s0.net
    ensures var wk := s0.workers[w]; var t := wk.log[|wk.log| - 1].tid;
      Moved(s, s0, w, wk.(store := W.Rollback(wk.log, t, wk.store), cur := t, run := false, refuse := false, mode := W.Ready,
                          reach := wk.known, log := wk.log + [W.Rec(W.AbortRec, t)]))
  {
    hide Reachable, Next, Enabled, WorkerNext, W.Rollback;
    s := Act(cfg, s0, w, W.Crash);
    s := Act(cfg, s, w, W.Restart);
    s := Act(cfg, s, w, W.AppendAbort);
  }

  lemma AbortNow(cfg: Config, s0: State, w: NodeId) returns (s: State)
    requires Reachable(cfg, s0) && w in s0.workers && s0.workers[w].mode == W.Ready
    ensures Reachable(cfg, s) && s.net == s0.net
    ensures var wk := s0.workers[w];
      Moved(s, s0, w, wk.(store := W.Rollback(wk.log, wk.cur, wk.store), log := wk.log + [W.Rec(W.AbortRec, wk.cur)]))
  {
    hide Reachable, Next, Enabled, WorkerNext, W.Rollback;
    s := Act(cfg, s0, w, W.CmdAbort);
    s := Act(cfg, s, w, W.AppendAbort);
  }

  /** An update inside a running transaction. */
  lemma Update(cfg: Config, s0: State, w: NodeId, u: W.Update) returns (s: State)
    requires Reachable(cfg, s0) && w in s0.workers && s0.workers[w].mode == W.Ready && s0.workers[w].run
    ensures Reachable(cfg, s) && s.net == s0.net
    ensures var wk := s0.workers[w];
      Moved(s, s0, w, wk.(store := W.StampStore(u, W.Apply(u, wk.store), 0, 0, 0), log := wk.log + [W.UndoRecord(u, wk.cur, wk.store)]))
  {
    hide Reachable, Next, Enabled, WorkerNext, W.Rollback, W.StampStore, W.Apply;
    s := Act(cfg, s0, w, W.CmdUpdate(u));
    s := Act(cfg, s, w, W.WriteValue);
    s := Act(cfg, s, w, W.Stamp(0, 0, 0));
  }
}
