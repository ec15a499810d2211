/** A run in which a worker logs ABORT of a transaction, then votes to commit it and logs its commit. It is in one
    transaction at a time; only a late answer about its previous one is still on its way. */
module CommitStray {
  import opened Messages
  import opened TwoPhaseCommit
  import opened CommitInvariant
  import opened CommitOverruled
  import opened CommitScenes
  import W = WorkerNode

  predicate NoAborts(log: seq<W.Record>) {
    forall i :: 0 <= i < |log| ==> log[i].kind != W.AbortRec
  }

  /** The worker has logged ABORT of transaction 2 and of no other. */
  predicate AbortedTwo(log: seq<W.Record>) {
    W.HasRec(log, W.AbortRec, 2) && !W.HasRec(log, W.AbortRec, 1)
  }

  lemma LogKeeps(log: seq<W.Record>, r: W.Record)
    requires AbortedTwo(log) && r.kind != W.AbortRec
    ensures AbortedTwo(log + [r])
  {
    var i :| 0 <= i < |log| && log[i].kind == W.AbortRec && log[i].tid == 2;
    assert (log + [r])[i] == log[i];
  }

  lemma AbortLogged(log: seq<W.Record>)
    requires NoAborts(log)
    ensures AbortedTwo(log + [W.Rec(W.AbortRec, 2)])
  {
    assert (log + [W.Rec(W.AbortRec, 2)])[|log|].kind == W.AbortRec;
  }

  /** Nobody has heard of transaction 2, and only `w` of anything. */
  ghost predicate Untouched(cfg: Config, s: State, w: NodeId) {
    && s.workers.Keys == cfg.workers
    && (forall v :: v in cfg.workers && v != w ==> s.workers[v] == Fresh())
    && (forall v: NodeId :: Free(s, 2, v) && (2, v) !in s.hist.joined)
  }

  lemma StaysUntouched(cfg: Config, s0: State, s: State, w: NodeId)
    requires Untouched(cfg, s0, w) && w in cfg.workers && w in s.workers && s.workers == s0.workers[w := s.workers[w]]
    requires SameRequests(s, s0)
    ensures Untouched(cfg, s, w)
  {
    forall v: NodeId ensures Free(s, 2, v) && (2, v) !in s.hist.joined { assert Free(s0, 2, v); }
  }

  /** The history after transaction 1 was begun, joined and requested by `w`. */
  lemma OnlyOne(cfg: Config, s0: State, s: State, w: NodeId)
    requires Init(cfg, s0) && w in cfg.workers && w in s.workers && s.workers == s0.workers[w := s.workers[w]]
    requires forall v :: v in cfg.workers ==> s0.workers[v] == Fresh()
    requires s.hist.beginner == s0.hist.beginner[1 := w] && s.hist.joinSent == s0.hist.joinSent + {(1, w)}
    requires s.hist.requested == s0.hist.requested[1 := w] && s.hist.joined == s0.hist.joined + {(1, w)}
    ensures Untouched(cfg, s, w)
  {
  }

  // ---------- transaction 1 ends; its member is told twice ----------

  /** The member of transaction 1 has voted and polled. */
  lemma VotedAndPolled(cfg: Config, w: NodeId) returns (s: State)
    requires w in cfg.workers
    ensures Reachable(cfg, s) && Untouched(cfg, s, w) && At(s, Alone(1, w), [MJoin(1), MCommitReq(1)], MServe({}))
    ensures w in s.workers && s.net[Poll(1, w)] > 0 && s.net[VoteCommit(1, w)] > 0
    ensures var wk := s.workers[w]; wk.mode == W.Waiting && !wk.refuse && wk.cur == 1 && wk.known && NoAborts(wk.log)
    ensures AsNew(s.workers[w]) && (1, w) in s.hist.joined
  {
    hide Reachable, Moved;
    s := AskedAlone(cfg, w);
    s := Voted(cfg, s, w);
  }

  /** The store is as new. */
  predicate AsNew(wk: W.Worker) {
    wk.store == Fresh().store
  }

  lemma AskedAlone(cfg: Config, w: NodeId) returns (s: State)
    requires w in cfg.workers
    ensures Reachable(cfg, s) && Untouched(cfg, s, w) && At(s, Alone(1, w), [MJoin(1), MCommitReq(1)], MServe({}))
    ensures w in s.workers && s.net[Prepare(1, w)] > 0 && (1, w) in s.hist.joined
    ensures var wk := s.workers[w];
      wk.mode == W.Ready && !wk.refuse && wk.cur == 1 && wk.known && NoAborts(wk.log) && AsNew(wk)
  {
    hide Reachable, Handle, Untouched;
    var s0 := Start(cfg);
    s := JoinAlone(cfg, s0, 1, w);
    s := LearnJoin(cfg, s, 1, w);
    s := AskCommit(cfg, s, 1, w);
    s := AskAlone(cfg, s, 1, w);
    OnlyOne(cfg, s0, s, w);
  }

  lemma Voted(cfg: Config, s0: State, w: NodeId) returns (s: State)
    requires Reachable(cfg, s0) && Untouched(cfg, s0, w) && w in s0.workers && s0.net[Prepare(1, w)] > 0
    requires var wk := s0.workers[w]; wk.mode == W.Ready && !wk.refuse && wk.cur == 1 && wk.known && NoAborts(wk.log)
    ensures Reachable(cfg, s) && Untouched(cfg, s, w) && At(s, s0.table, s0.mlog, s0.mmode) && s.hist.joined == s0.hist.joined
    ensures w in s.workers && s.net[Poll(1, w)] > 0 && s.net[VoteCommit(1, w)] > 0
    ensures var wk := s.workers[w];
      wk.mode == W.Waiting && !wk.refuse && wk.cur == 1 && wk.known && NoAborts(wk.log) && wk.store == s0.workers[w].store
  {
    hide Reachable, W.HasRec;
    NoneOf(s0.workers[w].log, 1);
    s := Vote(cfg, s0, 1, w);
    s := PollNow(cfg, s, w);
    hide Untouched;
    StaysUntouched(cfg, s0, s, w);
  }

  lemma NoneOf(log: seq<W.Record>, t: Tid)
    requires NoAborts(log)
    ensures !W.HasRec(log, W.AbortRec, t)
  {
  }

  /** The manager times out and answers the poll; the worker learns once, the second answer is still on its way. */
  lemma DoneWithOne(cfg: Config, w: NodeId) returns (s: State)
    requires w in cfg.workers
    ensures Reachable(cfg, s) && Untouched(cfg, s, w)
    ensures At(s, map[], [MJoin(1), MCommitReq(1), MDecide(1, false)], MServe({})) && !Committed(s, 1)
    ensures w in s.workers && s.net[Decide(1, w, false)] > 0
    ensures var wk := s.workers[w]; wk.mode == W.Ready && !wk.refuse && wk.known && NoAborts(wk.log)
  {
    hide Reachable, TimesOut, AsNew, Untouched, NoAborts;
    var s0 := VotedAndPolled(cfg, w);
    s := s0;
    RequestTimesOut(cfg, [MJoin(1)], 1);
    assert [MJoin(1)] + [MCommitReq(1)] == [MJoin(1), MCommitReq(1)];
    s := TimeOutAlone(cfg, s, 1, w);
    s := Answer(cfg, s, 1, w);
    NoAbortsMore(s.workers[w].log, W.Rec(W.DecideAbortRec, 1));
    s := Learn(cfg, s, 1, w, false);
    StaysUntouched(cfg, s0, s, w);
  }

  lemma NoAbortsMore(log: seq<W.Record>, r: W.Record)
    requires NoAborts(log) && r.kind != W.AbortRec
    ensures NoAborts(log + [r])
  {
  }

  // ---------- transaction 2 is aborted by its member, which then forgets it ----------

  lemma AbortsTwo(cfg: Config, s0: State, w: NodeId) returns (s: State)
    requires Reachable(cfg, s0) && w in s0.workers && s0.net[Decide(1, w, false)] > 0
    requires s0.table == map[] && s0.mmode == MServe({}) && !Committed(s0, 1) && Free(s0, 2, w)
    requires var wk := s0.workers[w]; wk.mode == W.Ready && !wk.refuse && wk.known && NoAborts(wk.log)
    ensures Reachable(cfg, s) && w in s.workers && s.table == Alone(2, w) && s.mmode == MServe({}) && !Committed(s, 1)
    ensures s.net[Decide(1, w, false)] > 0 && s.net[Prepare(2, w)] > 0 && (2, w) in s.hist.joined
    ensures var wk := s.workers[w]; wk.mode == W.Ready && !wk.refuse && wk.known && AbortedTwo(wk.log)
  {
    hide Reachable, AbortedTwo, W.Rollback;
    s := JoinAlone(cfg, s0, 2, w);
    s := LearnJoin(cfg, s, 2, w);
    s := AskCommit(cfg, s, 2, w);
    s := AskAlone(cfg, s, 2, w);
    AbortLogged(s.workers[w].log);
    s := AbortNow(cfg, s, w);
  }

  /** A late decision on 1, a crash and a restart: the worker now takes 1 for its current transaction. */
  lemma ForgetsTwo(cfg: Config, s0: State, w: NodeId) returns (s: State)
    requires Reachable(cfg, s0) && w in s0.workers && s0.net[Decide(1, w, false)] > 0 && s0.net[Prepare(2, w)] > 0
    requires s0.table == Alone(2, w) && s0.mmode == MServe({}) && !Committed(s0, 1)
    requires var wk := s0.workers[w]; wk.mode == W.Ready && wk.known && AbortedTwo(wk.log)
    ensures Reachable(cfg, s) && w in s.workers && At(s, s0.table, s0.mlog, s0.mmode) && s.hist.joined == s0.hist.joined
    ensures s.net[Prepare(2, w)] > 0
    ensures var wk := s.workers[w]; wk.mode == W.Ready && !wk.refuse && wk.cur == 1 && AbortedTwo(wk.log)
  {
    hide Reachable, AbortedTwo, W.Rollback;
    LogKeeps(s0.workers[w].log, W.Rec(W.DecideAbortRec, 1));
    s := Learn(cfg, s0, 1, w, false);
    LogKeeps(s.workers[w].log, W.Rec(W.DecideAbortRec, 1));
    s := ComeBackAsking(cfg, s, w);
    s := PollNow(cfg, s, w);
    s := Answer(cfg, s, 1, w);
    s := Learn(cfg, s, 1, w, false);
  }

  /** Asked about 2, it looks for an ABORT of 1 and finds none. */
  lemma AskedAboutTwo(cfg: Config, s0: State, w: NodeId) returns (s: State)
    requires Reachable(cfg, s0) && w in s0.workers && s0.net[Prepare(2, w)] > 0
    requires var wk := s0.workers[w]; wk.mode == W.Ready && !wk.refuse && wk.cur == 1 && AbortedTwo(wk.log)
    ensures Reachable(cfg, s) && At(s, s0.table, s0.mlog, s0.mmode) && s.hist.joined == s0.hist.joined
    ensures w in s.workers && s.workers[w].mode == W.Voting(2) && W.HasRec(s.workers[w].log, W.AbortRec, 2)
    ensures Overlooks(s.workers[w], 2)
    ensures s.workers[w].log == s0.workers[w].log + [W.Rec(W.PrepareRec, 2)]
  {
    hide Reachable, Next, Enabled, WorkerNext, W.Rollback, W.HasRec;
    StillAborted(s0.workers[w].log);
    s := Act(cfg, s0, w, W.Recv(Prepare(2, w)));
  }

  lemma StillAborted(log: seq<W.Record>)
    requires AbortedTwo(log)
    ensures W.HasRec(log + [W.Rec(W.PrepareRec, 2)], W.AbortRec, 2) && !W.HasRec(log + [W.Rec(W.PrepareRec, 2)], W.AbortRec, 1)
  {
    LogKeeps(log, W.Rec(W.PrepareRec, 2));
  }

  lemma AbortThenCommit(log: seq<W.Record>, more: seq<W.Record>)
    requires AbortedTwo(log)
    requires more == log + [W.Rec(W.PrepareRec, 2)] + [W.Rec(W.VoteRec, 2), W.Rec(W.DecideCommitRec, 2)]
    ensures PreparedAborted(more, 2) && W.HasRec(more, W.DecideCommitRec, 2)
  {
    assert more[..|log|] == log && more[|log|] == W.Rec(W.PrepareRec, 2);
    assert more[|log| + 2] == W.Rec(W.DecideCommitRec, 2);
  }

  /** In every configuration with a worker: a member logs ABORT of a transaction, then PREPARE_COMMIT, then its commit. */
  lemma AbortedYetCommitted(cfg: Config, w: NodeId) returns (s: State)
    requires w in cfg.workers
    ensures Reachable(cfg, s) && w in s.workers && (2, w) in s.hist.joined
    ensures PreparedAborted(s.workers[w].log, 2) && W.HasRec(s.workers[w].log, W.DecideCommitRec, 2)
  {
    hide Reachable, AbortedTwo, PreparedAborted, NoAborts, Overlooks, W.HasRec;
    s := DoneWithOne(cfg, w);
    s := AbortsTwo(cfg, s, w);
    s := ForgetsTwo(cfg, s, w);
    var log := s.workers[w].log;
    s := AskedAboutTwo(cfg, s, w);
    s := GoesThrough(cfg, s, 2, w);
    AbortThenCommit(log, s.workers[w].log);
  }
}
