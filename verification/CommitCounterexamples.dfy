/** Runs of the unsound configurations that end in two opposite logged decisions. */
module CommitCounterexamples {
  import opened Messages
  import opened TwoPhaseCommit
  import opened CommitInvariant
  import opened CommitScenes
  import W = WorkerNode

  /** Two workers that entered the table logged opposite decisions on `t`. */
  ghost predicate Split(s: State, t: Tid, w1: NodeId, w2: NodeId) {
    && (t, w1) in s.hist.joined && (t, w2) in s.hist.joined
    && w1 in s.workers && w2 in s.workers
    && W.HasRec(s.workers[w1].log, W.DecideCommitRec, t)
    && W.HasRec(s.workers[w2].log, W.DecideAbortRec, t)
  }

  /** A worker of transaction 1 that will vote for commit; it has learnt of its entry. */
  predicate Member(wk: W.Worker) {
    && wk.mode == W.Ready && !wk.refuse && wk.cur == 1 && wk.known
    && (forall i :: 0 <= i < |wk.log| ==> wk.log[i].kind != W.AbortRec)
  }

  predicate Blocked(wk: W.Worker) {
    wk.mode == W.Waiting
  }

  function Pair(w1: NodeId, v1: nat, w2: NodeId, v2: nat): map<Tid, Members> {
    map[1 := map[w1 := v1, w2 := v2]]
  }

  function Requested1(): seq<MRecord> {
    [MJoin(1), MJoin(1), MCommitReq(1)]
  }

  /** Two members, both sent PREPARE_COMMIT. */
  ghost predicate BothAsked(cfg: Config, s: State, w1: NodeId, w2: NodeId) {
    && w1 != w2 && Reachable(cfg, s) && w1 in s.workers && w2 in s.workers
    && At(s, Pair(w1, 0, w2, 0), Requested1(), MServe({}))
    && Member(s.workers[w1]) && Member(s.workers[w2])
    && s.net[Prepare(1, w1)] > 0 && s.net[Prepare(1, w2)] > 0
    && (1, w1) in s.hist.joined && (1, w2) in s.hist.joined
  }

  lemma SecondJoin(cfg: Config, s0: State, w1: NodeId, w2: NodeId) returns (s: State)
    requires Reachable(cfg, s0) && w1 != w2 && w2 in s0.workers && s0.workers[w2] == Fresh()
    requires At(s0, Alone(1, w1), [MJoin(1)], MServe({})) && (1, w2) !in s0.hist.joinSent
    ensures Reachable(cfg, s)
    ensures At(s, Pair(w1, 0, w2, 0), [MJoin(1), MJoin(1)], MServe({}))
    ensures s.workers == s0.workers && s.net == s0.net + multiset{JoinSuccess(1, w2)}
    ensures s.hist.requested == s0.hist.requested && s.hist.joined == s0.hist.joined + {(1, w2)}
  {
    hide Reachable, Next, Enabled, WorkerNext;
    s := ActJoin(cfg, s0, w2, 1);
    JoinSecond(cfg, s, w1, w2);
    hide Handle;
    s := Receive(cfg, s, Join(1, w2));
    assert s.net == s0.net + multiset{JoinSuccess(1, w2)};
  }

  lemma JoinSecond(cfg: Config, s: State, w1: NodeId, w2: NodeId)
    requires w1 != w2 && s.table == Alone(1, w1)
    ensures var s' := Handle(cfg, s, Join(1, w2), true, 0);
      && At(s', Pair(w1, 0, w2, 0), s.mlog + [MJoin(1)], s.mmode) && s'.workers == s.workers
      && s'.net == s.net - multiset{Join(1, w2)} + multiset{JoinSuccess(1, w2)}
      && s'.hist.requested == s.hist.requested && s'.hist.joined == s.hist.joined + {(1, w2)}
  {
    assert SetVote(map[w1 := 0], w2, 0) == map[w1 := 0, w2 := 0];
  }

  /** Both have joined and learnt so. */
  lemma ReachBothIn(cfg: Config, w1: NodeId, w2: NodeId) returns (s: State)
    requires w1 != w2 && w1 in cfg.workers && w2 in cfg.workers
    ensures Reachable(cfg, s) && w1 in s.workers && w2 in s.workers && Member(s.workers[w1]) && Member(s.workers[w2])
    ensures At(s, Pair(w1, 0, w2, 0), [MJoin(1), MJoin(1)], MServe({})) && 1 !in s.hist.requested
    ensures (1, w1) in s.hist.joined && (1, w2) in s.hist.joined
  {
    hide Reachable, Handle;
    s := Start(cfg);
    s := JoinAlone(cfg, s, 1, w1);
    s := SecondJoin(cfg, s, w1, w2);
    s := LearnJoin(cfg, s, 1, w1);
    s := LearnJoin(cfg, s, 1, w2);
  }

  lemma ReachBothAsked(cfg: Config, w1: NodeId, w2: NodeId) returns (s: State)
    requires w1 != w2 && w1 in cfg.workers && w2 in cfg.workers
    ensures BothAsked(cfg, s, w1, w2)
  {
    hide Reachable, Handle;
    s := ReachBothIn(cfg, w1, w2);
    s := AskCommit(cfg, s, 1, w1);
    AskedPair(cfg, s, w1, w2);
    s := Receive(cfg, s, CommitReq(1, w1));
    s := Send(cfg, s, w1);
    s := Send(cfg, s, w2);
    assert s.mmode.pending == {};
    s := DoFinish(cfg, s);
  }

  lemma AskedPair(cfg: Config, s: State, w1: NodeId, w2: NodeId)
    requires s.table == Pair(w1, 0, w2, 0)
    ensures Handle(cfg, s, CommitReq(1, w1), true, 0) ==
      s.(net := s.net - multiset{CommitReq(1, w1)}, mlog := s.mlog + [MCommitReq(1)], mmode := MAsk(1, {w1, w2}))
  {
    assert MemberSet(s.table, 1) == {w1, w2};
  }

  /** A member votes for commit and blocks. */
  lemma VoteMember(cfg: Config, s0: State, w: NodeId) returns (s: State)
    requires Reachable(cfg, s0) && w in s0.workers && Member(s0.workers[w]) && s0.net[Prepare(1, w)] > 0
    ensures Reachable(cfg, s) && At(s, s0.table, s0.mlog, s0.mmode) && s.hist.joined == s0.hist.joined
    ensures w in s.workers && s.workers == s0.workers[w := s.workers[w]] && Blocked(s.workers[w])
    ensures s.net == s0.net - multiset{Prepare(1, w)} + multiset{VoteCommit(1, w)}
  {
    hide Reachable;
    s := Vote(cfg, s0, 1, w);
  }

  /** A member logs PREPARE_COMMIT, crashes before it votes, comes back uncertain and polls. */
  lemma CrashAndPoll(cfg: Config, s0: State, w: NodeId) returns (s: State)
    requires Reachable(cfg, s0) && w in s0.workers && Member(s0.workers[w]) && s0.net[Prepare(1, w)] > 0
    ensures Reachable(cfg, s) && At(s, s0.table, s0.mlog, s0.mmode) && s.hist.joined == s0.hist.joined
    ensures w in s.workers && s.workers == s0.workers[w := s.workers[w]] && Blocked(s.workers[w])
    ensures s.net == s0.net - multiset{Prepare(1, w)} + multiset{Poll(1, w)}
  {
    hide Reachable, Next, Enabled, WorkerNext, W.Rollback;
    s := Act(cfg, s0, w, W.Recv(Prepare(1, w)));
    s := ComeBackAsking(cfg, s, w);
    s := PollNow(cfg, s, w);
  }

  /** Two blocked members, told opposite decisions. */
  ghost predicate Torn(cfg: Config, s: State, wc: NodeId, wa: NodeId) {
    && wc != wa && Reachable(cfg, s) && BothBlocked(s, wc, wa)
    && s.net[Decide(1, wc, true)] > 0 && s.net[Decide(1, wa, false)] > 0
  }

  predicate BothBlocked(s: State, w1: NodeId, w2: NodeId) {
    && w1 in s.workers && w2 in s.workers && Blocked(s.workers[w1]) && Blocked(s.workers[w2])
    && (1, w1) in s.hist.joined && (1, w2) in s.hist.joined
  }

  lemma TornSplits(cfg: Config, s0: State, wc: NodeId, wa: NodeId) returns (s: State)
    requires Torn(cfg, s0, wc, wa)
    ensures Reachable(cfg, s) && Split(s, 1, wc, wa)
  {
    hide Reachable, W.Rollback;
    s := Learn(cfg, s0, 1, wc, true);
    assert s.workers[wc].log[|s.workers[wc].log| - 1] == W.Rec(W.DecideCommitRec, 1);
    s := Learn(cfg, s, 1, wa, false);
    assert s.workers[wa].log[|s.workers[wa].log| - 1] == W.Rec(W.DecideAbortRec, 1);
  }

  /** The vote of `w1` is in, that of `w2` is not; `w2` crashed before voting and polls. */
  lemma ReachPolling(cfg: Config, w1: NodeId, w2: NodeId) returns (s: State)
    requires w1 != w2 && w1 in cfg.workers && w2 in cfg.workers
    ensures Reachable(cfg, s) && BothBlocked(s, w1, w2)
    ensures s.net[VoteCommit(1, w1)] > 0 && s.net[Poll(1, w2)] > 0
    ensures At(s, Pair(w1, 0, w2, 0), Requested1(), MServe({}))
  {
    hide Reachable;
    s := ReachBothAsked(cfg, w1, w2);
    s := VoteMember(cfg, s, w1);
    s := CrashAndPoll(cfg, s, w2);
  }

  /** The poll is stored as the missing vote and answered with commit. */
  lemma StorePoll(cfg: Config, s0: State, w1: NodeId, w2: NodeId) returns (s: State)
    requires Reachable(cfg, s0) && cfg.pollCounts && w1 != w2 && s0.net[Poll(1, w2)] > 0
    requires s0.table == Pair(w1, VOTE_COMMIT, w2, 0) && s0.mmode == MServe({})
    ensures Reachable(cfg, s) && s.mlog == s0.mlog && s.mmode == s0.mmode
    ensures 1 in s.table && s.table[1].Keys == {w1, w2}
    ensures s.workers == s0.workers && s.hist.joined == s0.hist.joined
    ensures s.net == s0.net - multiset{Poll(1, w2)} + multiset{Decide(1, w2, true)}
  {
    hide Reachable, Next, Enabled, WorkerNext, Handle;
    PollCompletes(cfg, s0, w1, w2);
    s := Receive(cfg, s0, Poll(1, w2));
  }

  lemma PollCompletes(cfg: Config, s: State, w1: NodeId, w2: NodeId)
    requires cfg.pollCounts && w1 != w2 && s.table == Pair(w1, VOTE_COMMIT, w2, 0)
    ensures var s' := Handle(cfg, s, Poll(1, w2), true, 0);
      && s' == s.(table := s'.table, net := s.net - multiset{Poll(1, w2)} + multiset{Decide(1, w2, true)})
      && 1 in s'.table && s'.table[1].Keys == {w1, w2}
  {
    var all := map[w1 := VOTE_COMMIT, w2 := POLL_DECISION];
    assert SetVote(s.table[1], w2, POLL_DECISION) == all && w1 in all && all.Keys == {w1, w2};
    var table := StoreMessage(cfg, s.table, Poll(1, w2));
    assert table == map[1 := all];
    assert MembersDecision(all, 0) == DECIDE_COMMIT;
  }

  /** A stored poll completes the votes: the poller is told commit, the other member abort. */
  lemma PollTears(cfg: Config, w1: NodeId, w2: NodeId) returns (s: State)
    requires cfg.pollCounts && w1 != w2 && w1 in cfg.workers && w2 in cfg.workers
    ensures Torn(cfg, s, w2, w1)
  {
    hide Reachable, TimesOut;
    s := ReachPolling(cfg, w1, w2);
    PairTimesOut(cfg, []);
    s := StoreOneVote(cfg, s, w1, w2);
    s := StorePoll(cfg, s, w1, w2);
    s := TimeOut(cfg, s, w1, w2);
  }

  lemma PairTimesOut(cfg: Config, more: seq<MRecord>)
    ensures TimesOut(cfg, Requested1(), 1)
    ensures cfg.codedCompare ==> TimesOut(cfg, Requested1() + more, 1)
  {
    assert Requested1()[2] == MCommitReq(1) && (Requested1() + more)[2] == MCommitReq(1);
  }

  lemma FirstVote(cfg: Config, table: map<Tid, Members>, w1: NodeId, w2: NodeId)
    requires w1 != w2 && table == Pair(w1, 0, w2, 0)
    ensures var table' := StoreMessage(cfg, table, VoteCommit(1, w1));
      table' == Pair(w1, VOTE_COMMIT, w2, 0) && forall mlog :: Decision(table', mlog, 1, 0) == WAIT
  {
    assert SetVote(table[1], w1, VOTE_COMMIT) == map[w1 := VOTE_COMMIT, w2 := 0];
    var table' := StoreMessage(cfg, table, VoteCommit(1, w1));
    assert table' == Pair(w1, VOTE_COMMIT, w2, 0);
    assert table'[1][w2] == 0;
  }

  /** The vote of `w1` is stored while the one of `w2` is missing. */
  lemma StoreOneVote(cfg: Config, s0: State, w1: NodeId, w2: NodeId) returns (s: State)
    requires Reachable(cfg, s0) && w1 != w2 && s0.net[VoteCommit(1, w1)] > 0
    requires s0.table == Pair(w1, 0, w2, 0) && s0.mmode == MServe({})
    ensures Reachable(cfg, s)
    ensures At(s, Pair(w1, VOTE_COMMIT, w2, 0), s0.mlog, MServe({}))
    ensures s.workers == s0.workers && s.hist.joined == s0.hist.joined
    ensures s.net == s0.net - multiset{VoteCommit(1, w1)}
  {
    hide Reachable, Next, Enabled, WorkerNext, StoreMessage, StoreVote, Decision;
    FirstVote(cfg, s0.table, w1, w2);
    s := Receive(cfg, s0, VoteCommit(1, w1));
    assert Decision(s.table, s0.mlog, 1, 0) == WAIT;
  }

  /** The votes of both are stored: DECIDE_COMMIT is logged. */
  lemma StoreLastVote(cfg: Config, s0: State, w1: NodeId, w2: NodeId) returns (s: State)
    requires Reachable(cfg, s0) && w1 != w2 && s0.net[VoteCommit(1, w2)] > 0
    requires s0.table == Pair(w1, VOTE_COMMIT, w2, 0) && s0.mmode == MServe({})
    ensures Reachable(cfg, s)
    ensures At(s, Pair(w1, VOTE_COMMIT, w2, VOTE_COMMIT), s0.mlog + [MDecide(1, true)], MTell(1, true, {w1, w2}, {}, false))
    ensures s.workers == s0.workers && s.hist.joined == s0.hist.joined
    ensures s.net == s0.net - multiset{VoteCommit(1, w2)}
  {
    hide Reachable, Next, Enabled, WorkerNext, Handle;
    AllIn(cfg, s0, w1, w2);
    s := Receive(cfg, s0, VoteCommit(1, w2));
    s := DoAppendCommit(cfg, s, 1);
    assert MemberSet(s.table, 1) == {w1, w2};
  }

  /** The vote that completes the table. */
  lemma AllIn(cfg: Config, s: State, w1: NodeId, w2: NodeId)
    requires w1 != w2 && s.table == Pair(w1, VOTE_COMMIT, w2, 0)
    ensures var s' := Handle(cfg, s, VoteCommit(1, w2), true, 0);
      && At(s', Pair(w1, VOTE_COMMIT, w2, VOTE_COMMIT), s.mlog, MLog(1)) && s'.workers == s.workers
      && s'.hist.joined == s.hist.joined && s'.net == s.net - multiset{VoteCommit(1, w2)}
  {
    var all := map[w1 := VOTE_COMMIT, w2 := VOTE_COMMIT];
    assert SetVote(s.table[1], w2, VOTE_COMMIT) == all && w1 in all;
    var table := StoreMessage(cfg, s.table, VoteCommit(1, w2));
    assert table == map[1 := all];
    assert MembersDecision(all, 0) == DECIDE_COMMIT;
  }

  /** The timeout aborts a requested transaction and tells `w`. */
  lemma TimeOut(cfg: Config, s0: State, w: NodeId, v: NodeId) returns (s: State)
    requires Reachable(cfg, s0) && s0.mmode == MServe({}) && 1 in s0.table && s0.table[1].Keys == {w, v}
    requires TimesOut(cfg, s0.mlog, 1)
    ensures Reachable(cfg, s) && s.workers == s0.workers && s.hist.joined == s0.hist.joined
    ensures s.net == s0.net + multiset{Decide(1, w, false)}
  {
    hide Reachable, TimesOut;
    s := DoTimeout(cfg, s0, 1);
    assert w in s.mmode.pending;
    s := Send(cfg, s, w);
  }

  /** Restarted with transaction 1 undecided, the manager tells both members to abort and keeps it live. */
  lemma SilentRestart(cfg: Config, s0: State, w1: NodeId, w2: NodeId) returns (s: State)
    requires Reachable(cfg, s0) && cfg.silentRestart && w1 != w2 && s0.mmode == MServe({})
    requires s0.table.Keys == {1} && s0.table[1].Keys == {w1, w2} && !Logged(s0.mlog, MDecide(1, true))
    ensures Reachable(cfg, s)
    ensures s == s0.(net := s0.net + multiset{Decide(1, w1, false)} + multiset{Decide(1, w2, false)})
  {
    hide Reachable;
    s := Bounce(cfg, s0);
    assert Undecided(s0) == {1};
    s := DoRecover(cfg, s, 1);
    assert s.mmode == MTell(1, false, {w1, w2}, {}, true);
    s := Send(cfg, s, w1);
    s := Send(cfg, s, w2);
    assert s.mmode.pending == {};
    s := DoFinish(cfg, s);
  }

  /** Both members voted for commit; one vote is stored, the other on its way. */
  ghost predicate OneCounted(cfg: Config, s: State, w1: NodeId, w2: NodeId) {
    && w1 != w2 && Reachable(cfg, s) && BothBlocked(s, w1, w2) && s.net[VoteCommit(1, w2)] > 0
    && At(s, Pair(w1, VOTE_COMMIT, w2, 0), Requested1(), MServe({}))
  }

  lemma ReachOneCounted(cfg: Config, w1: NodeId, w2: NodeId) returns (s: State)
    requires w1 != w2 && w1 in cfg.workers && w2 in cfg.workers
    ensures OneCounted(cfg, s, w1, w2)
  {
    hide Reachable;
    s := ReachBothAsked(cfg, w1, w2);
    s := VoteMember(cfg, s, w1);
    s := VoteMember(cfg, s, w2);
    s := StoreOneVote(cfg, s, w1, w2);
  }

  /** A restart that only sends DECIDE_ABORT leaves the transaction live; the last vote then commits it. */
  lemma RestartTears(cfg: Config, w1: NodeId, w2: NodeId) returns (s: State)
    requires cfg.silentRestart && w1 != w2 && w1 in cfg.workers && w2 in cfg.workers
    ensures Torn(cfg, s, w2, w1)
  {
    hide Reachable;
    s := ReachOneCounted(cfg, w1, w2);
    s := SilentRestart(cfg, s, w1, w2);
    s := StoreLastVote(cfg, s, w1, w2);
    s := Send(cfg, s, w2);
  }

  /** Killed between logging and cleaning, the manager times out the transaction it committed. */
  lemma CompareTears(cfg: Config, w1: NodeId, w2: NodeId) returns (s: State)
    requires cfg.codedCompare && cfg.midCrash && w1 != w2 && w1 in cfg.workers && w2 in cfg.workers
    ensures Torn(cfg, s, w1, w2)
  {
    hide Reachable, TimesOut;
    s := ReachOneCounted(cfg, w1, w2);
    s := StoreLastVote(cfg, s, w1, w2);
    s := Send(cfg, s, w1);
    assert s.mlog[|s.mlog| - 1] == MDecide(1, true);
    s := Bounce(cfg, s);
    assert s.mmode == MServe({});
    PairTimesOut(cfg, [MDecide(1, true)]);
    s := TimeOut(cfg, s, w2, w1);
  }
}
