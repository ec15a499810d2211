/** A worker whose JOIN is refused can log the opposite of a member's decision, in every configuration. */
module CommitOutsider {
  import opened Messages
  import opened TwoPhaseCommit
  import opened CommitInvariant
  import opened CommitScenes
  import opened CommitStray
  import W = WorkerNode

  /** JOIN 2 arrives before BEGIN 2: the worker is refused, logs JOINTX all the same, and a restart logs ABORT of 2. */
  lemma Refused(cfg: Config, s0: State, w: NodeId) returns (s: State)
    requires Reachable(cfg, s0) && Untouched(cfg, s0, w) && w in s0.workers
    requires s0.table == map[] && s0.mmode == MServe({})
    requires var wk := s0.workers[w]; wk.mode == W.Ready && wk.known
    ensures Reachable(cfg, s) && At(s, map[], s0.mlog, MServe({})) && w in s.workers && s.workers == s0.workers[w := s.workers[w]]
    ensures (2, w) in s.hist.joinDone && s.hist.beginner == s0.hist.beginner && s.hist.requested == s0.hist.requested
    ensures s.hist.joined == s0.hist.joined && s.hist.joinSent == s0.hist.joinSent + {(2, w)}
    ensures var wk := s.workers[w]; wk.mode == W.Ready && wk.known && wk.log != [] && wk.log[|wk.log| - 1] == W.Rec(W.AbortRec, 2)
  {
    hide Reachable, W.Rollback;
    assert Free(s0, 2, w);
    s := ActJoin(cfg, s0, w, 2);
    s := Receive(cfg, s, Join(2, w));
    s := LearnRefusal(cfg, s, 2, w);
    s := ComeBackUndoing(cfg, s, w);
  }

  lemma LearnRefusal(cfg: Config, s0: State, t: Tid, w: NodeId) returns (s: State)
    requires Reachable(cfg, s0) && w in s0.workers && s0.workers[w].mode == W.Ready && s0.net[JoinFail(t, w)] > 0
    ensures Reachable(cfg, s) && s.net == s0.net - multiset{JoinFail(t, w)}
    ensures var wk := s0.workers[w]; Moved(s, s0, w, wk.(log := wk.log + [W.JoinRecord(wk, t)]))
  {
    hide Reachable, Next, Enabled, WorkerNext, W.Rollback;
    s := Act(cfg, s0, w, W.Recv(JoinFail(t, w)));
  }

  /** After a second restart it polls about 2 and is told abort. */
  lemma ToldAbort(cfg: Config, s0: State, w: NodeId) returns (s: State)
    requires Reachable(cfg, s0) && w in s0.workers && s0.table == map[] && s0.mmode == MServe({}) && !Committed(s0, 2)
    requires var wk := s0.workers[w]; wk.mode == W.Ready && wk.known && wk.log != [] && wk.log[|wk.log| - 1] == W.Rec(W.AbortRec, 2)
    ensures Reachable(cfg, s) && At(s, map[], s0.mlog, MServe({})) && w in s.workers && s.workers == s0.workers[w := s.workers[w]]
    ensures SameRequests(s, s0) && W.HasRec(s.workers[w].log, W.DecideAbortRec, 2)
  {
    hide Reachable, W.Rollback;
    s := ComeBackAsking(cfg, s0, w);
    s := PollNow(cfg, s, w);
    s := Answer(cfg, s, 2, w);
    s := Learn(cfg, s, 2, w, false);
    assert s.workers[w].log[|s.workers[w].log| - 1] == W.Rec(W.DecideAbortRec, 2);
  }

  /** Another worker enters 2 alone and asks for its commit. */
  lemma MemberAsks(cfg: Config, s0: State, w: NodeId) returns (s: State)
    requires Reachable(cfg, s0) && w in s0.workers && s0.workers[w] == Fresh()
    requires s0.table == map[] && s0.mmode == MServe({}) && Free(s0, 2, w)
    ensures Reachable(cfg, s) && w in s.workers && s.workers == s0.workers[w := s.workers[w]]
    ensures s.table == Alone(2, w) && s.mmode == MServe({}) && s.net[Prepare(2, w)] > 0
    ensures var wk := s.workers[w]; wk.mode == W.Ready && !wk.refuse && wk.cur == 2 && NoAborts(wk.log)
    ensures s.hist.joined == s0.hist.joined + {(2, w)} && s0.hist.joinDone <= s.hist.joinDone
  {
    hide Reachable, W.Rollback, Fresh, W.HasRec;
    NewLog();
    s := JoinAlone(cfg, s0, 2, w);
    s := LearnJoin(cfg, s, 2, w);
    s := AskCommit(cfg, s, 2, w);
    s := AskAlone(cfg, s, 2, w);
  }

  /** It commits 2. */
  lemma MemberCommits(cfg: Config, s0: State, w: NodeId) returns (s: State)
    requires Reachable(cfg, s0) && w in s0.workers && s0.workers[w] == Fresh()
    requires s0.table == map[] && s0.mmode == MServe({}) && Free(s0, 2, w)
    ensures Reachable(cfg, s) && w in s.workers && s.workers == s0.workers[w := s.workers[w]]
    ensures (2, w) in s.hist.joined && W.HasRec(s.workers[w].log, W.DecideCommitRec, 2)
    ensures s.hist.joined == s0.hist.joined + {(2, w)} && s0.hist.joinDone <= s.hist.joinDone
  {
    hide Reachable, W.Rollback, Fresh, W.HasRec, NoAborts;
    s := MemberAsks(cfg, s0, w);
    NoneOf(s.workers[w].log, 2);
    s := Vote(cfg, s, 2, w);
    s := CommitAlone(cfg, s, 2, w);
    s := Learn(cfg, s, 2, w, true);
    LastRec(s.workers[w].log, W.DecideCommitRec, 2);
  }

  lemma NewLog()
    ensures Fresh().log == [] && Fresh().mode == W.Ready && !Fresh().refuse
  {
  }

  lemma LastRec(log: seq<W.Record>, k: W.Kind, t: Tid)
    requires log != [] && log[|log| - 1] == W.Rec(k, t)
    ensures W.HasRec(log, k, t)
  {
  }

  /** `w1` is a member, `w2` had its JOIN processed and refused, and they have logged opposite decisions on `t`. */
  predicate Opposed(s: State, t: Tid, w1: NodeId, w2: NodeId) {
    && (t, w1) in s.hist.joined && (t, w2) in s.hist.joinDone && (t, w2) !in s.hist.joined
    && w1 in s.workers && W.HasRec(s.workers[w1].log, W.DecideCommitRec, t)
    && w2 in s.workers && W.HasRec(s.workers[w2].log, W.DecideAbortRec, t)
  }

  lemma OutsiderSplits(cfg: Config, w1: NodeId, w2: NodeId) returns (s: State)
    requires w1 != w2 && w1 in cfg.workers && w2 in cfg.workers
    ensures Reachable(cfg, s) && Opposed(s, 2, w1, w2)
  {
    hide Reachable, NoAborts, W.HasRec;
    s := DoneWithOne(cfg, w2);
    s := Refused(cfg, s, w2);
    s := ToldAbort(cfg, s, w2);
    s := MemberCommits(cfg, s, w1);
  }
}
