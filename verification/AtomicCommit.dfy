/** Atomic commitment over whole runs: which configurations agree, and what agreement rests on. */
module AtomicCommit {
  import opened Messages
  import opened TwoPhaseCommit
  import opened CommitInvariant
  import opened ManagerTable
  import opened ManagerProcess
  import CommitManager
  import CommitOutsider
  import CommitOverruled
  import CommitTableLog
  import CommitTame
  import CommitRuns
  import Runs = CommitCounterexamples
  import W = WorkerNode

  /** No two workers that entered the table of `t` logged opposite decisions on it. */
  ghost predicate Agreement(s: State) {
    forall t, w1, w2 :: !Runs.Split(s, t, w1, w2)
  }

  lemma AgreementHolds(cfg: Config, s: State)
    requires Sound(cfg) && Reachable(cfg, s)
    ensures Agreement(s)
  {
    CommitRuns.ReachableInv(cfg, s);
    forall t, w1, w2 ensures !Runs.Split(s, t, w1, w2) {
      if w1 in s.workers && w2 in s.workers {
        assert WorkerJustified(s, w1) && WorkerJustified(s, w2);
      }
    }
  }

  /** Every run agrees exactly when polls are not counted as votes, a restart logs and cleans
      what it aborts, and the timeout scan sees decisions or the manager is never killed inside a handler. */
  lemma AgreementIff(cfg: Config, w1: NodeId, w2: NodeId)
    requires w1 != w2 && w1 in cfg.workers && w2 in cfg.workers
    ensures (forall s :: Reachable(cfg, s) ==> Agreement(s)) <==> Sound(cfg)
  {
    if Sound(cfg) {
      forall s | Reachable(cfg, s) ensures Agreement(s) { AgreementHolds(cfg, s); }
    } else {
      var s: State;
      if cfg.pollCounts {
        s := Runs.PollTears(cfg, w1, w2);
        s := Runs.TornSplits(cfg, s, w2, w1);
      } else if cfg.silentRestart {
        s := Runs.RestartTears(cfg, w1, w2);
        s := Runs.TornSplits(cfg, s, w2, w1);
      } else {
        s := Runs.CompareTears(cfg, w1, w2);
        s := Runs.TornSplits(cfg, s, w1, w2);
      }
      assert !Agreement(s);
    }
  }

  /** In any configuration, the program as written included, a run agrees in which no poll of an unvoted member reaches its live
      transaction, no restart finds an undecided live transaction, and no kill hits a handler, as far as the switches make these matter. */
  lemma TameAgreement(cfg: Config, s0: State, ls: seq<Label>)
    requires Init(cfg, s0) && ValidRun(cfg, s0, ls) && CommitTame.TameRun(cfg, s0, ls)
    ensures Agreement(Exec(cfg, s0, ls))
  {
    hide Reachable;
    var s := Exec(cfg, s0, ls);
    CommitTame.TameReaches(cfg, s0, ls);
    AgreementHolds(CommitTame.Intended(cfg), CommitTame.Plainly(s));
    forall t, w1, w2 ensures !Runs.Split(s, t, w1, w2) { assert !Runs.Split(CommitTame.Plainly(s), t, w1, w2); }
  }

  /** Being entered into the table is needed: in every configuration some run has a member of a transaction and a worker
      whose JOIN of it was processed and refused log opposite decisions. */
  lemma RefusedWorkersDisagree(cfg: Config, w1: NodeId, w2: NodeId)
    requires w1 != w2 && w1 in cfg.workers && w2 in cfg.workers
    ensures exists s: State, t: Tid :: Reachable(cfg, s) && CommitOutsider.Opposed(s, t, w1, w2)
  {
    var s := CommitOutsider.OutsiderSplits(cfg, w1, w2);
  }

  /** A recorded decision stands: it stays in the log, the opposite is never logged, and once commit
      is logged no abort for a member is ever on its way. */
  lemma DecisionStable(cfg: Config, s: State, l: Label, t: Tid)
    requires Sound(cfg) && Reachable(cfg, s) && Enabled(cfg, s, l)
    ensures !(Committed(s, t) && Aborted(s, t))
    ensures Committed(s, t) ==> Committed(Next(cfg, s, l), t) && !Aborted(Next(cfg, s, l), t)
    ensures Aborted(s, t) ==> Aborted(Next(cfg, s, l), t) && !Committed(Next(cfg, s, l), t)
    ensures forall w :: (t, w) in s.hist.joined ==>
      (Committed(s, t) ==> s.net[Decide(t, w, false)] == 0) && (!Committed(s, t) ==> s.net[Decide(t, w, true)] == 0)
  {
    CommitRuns.ReachableInv(cfg, s);
    CommitRuns.StepKeeps(cfg, s, l);
    LogGrows(cfg, s, l);
    OneDecision(cfg, Next(cfg, s, l), t);
    OneDecision(cfg, s, t);
  }

  lemma LogGrows(cfg: Config, s: State, l: Label)
    requires Enabled(cfg, s, l)
    ensures s.mlog <= Next(cfg, s, l).mlog
  {
  }

  lemma OneDecision(cfg: Config, s: State, t: Tid)
    requires Inv(cfg, s)
    ensures !(Committed(s, t) && Aborted(s, t))
    ensures forall w :: (t, w) in s.hist.joined ==>
      (Committed(s, t) ==> s.net[Decide(t, w, false)] == 0) && (!Committed(s, t) ==> s.net[Decide(t, w, true)] == 0)
  {
  }

  /** DECIDE_COMMIT is appended only when every member in the table has sent VOTE_COMMIT. */
  lemma CommitNeedsEveryVote(cfg: Config, s: State)
    requires Sound(cfg) && Reachable(cfg, s) && Enabled(cfg, s, MAppendCommit)
    ensures var t := s.mmode.t;
      t in s.table && s.table[t] != map[] && forall w :: w in s.table[t] ==> (t, w) in s.hist.voted
  {
    CommitRuns.ReachableInv(cfg, s);
    var t := s.mmode.t;
    forall w | w in s.table[t] ensures (t, w) in s.hist.voted { assert s.table[t][w] != 0; }
  }

  /** What a poll or a late vote about a live transaction with members finds between handlers: WAIT while a vote is missing, as
      it always is while nothing is decided; and DECIDE_COMMIT, rightly, exactly if no vote is missing, which only a kill between
      logging a commit and cleaning up can bring about. */
  lemma PollWaits(cfg: Config, s: State, t: Tid, stale: nat)
    requires Sound(cfg) && Reachable(cfg, s) && s.mmode == MServe({})
    requires t in s.table && s.table[t] != map[]
    ensures Decision(s.table, s.mlog, t, stale) == if AllVoted(s.table[t]) then DECIDE_COMMIT else WAIT
    ensures AllVoted(s.table[t]) ==> Committed(s, t) && cfg.midCrash
  {
    CommitRuns.ReachableInv(cfg, s);
    CommitRuns.JoinedNonzero(cfg, s);
    LiveIn(cfg, s);
    hide Inv, Reachable, InvLog, InvStored, Decision;
    CommitManager.DecisionLive(cfg, s, t, stale);
    if AllVoted(s.table[t]) { VotedIsCommitted(cfg, s, t); }
  }

  lemma LiveIn(cfg: Config, s: State)
    requires Inv(cfg, s)
    ensures InvStored(s) && InvLog(cfg, s)
  {
  }

  lemma VotedIsCommitted(cfg: Config, s: State, t: Tid)
    requires InvLog(cfg, s) && s.mmode == MServe({}) && t in s.table && s.table[t] != map[] && AllVoted(s.table[t])
    ensures Committed(s, t) && cfg.midCrash
  {
  }

  /** And a poll is answered accordingly. */
  lemma PollOfLive(cfg: Config, s: State, t: Tid, w: NodeId, choice: bool, stale: nat)
    requires Sound(cfg) && Reachable(cfg, s) && s.mmode == MServe({}) && s.net[Poll(t, w)] > 0
    requires t in s.table && s.table[t] != map[]
    ensures Handle(cfg, s, Poll(t, w), choice, stale) ==
      s.(net := s.net - multiset{Poll(t, w)} + if AllVoted(s.table[t]) then multiset{Decide(t, w, true)} else multiset{})
  {
    PollWaits(cfg, s, t, stale);
    hide Reachable, Decision;
  }

  /** While the manager is only killed between handlers, and whatever else the configuration: no live transaction has a
      decision record, and so the timeout scan as written finds exactly what the intended scan finds. */
  lemma TableLog(cfg: Config, s: State, t: Tid)
    requires !cfg.midCrash && Reachable(cfg, s) && s.mmode == MServe({}) && t in s.table
    ensures !Committed(s, t) && !Aborted(s, t)
    ensures PendingRequest(s.mlog, t) <==> Requested(s, t)
  {
    hide InvBegin, Reachable;
    CommitTableLog.ReachableTable(cfg, s);
    assert !CommitTableLog.Decided(s, t);
    UndecidedScan(s.mlog, t);
  }

  /** So the program as written, between handlers, aborts on a timeout the first live slot whose transaction has a request
      and no decision, and none exactly if there is no such slot. Only a request logged for tid 0, from a worker without a
      transaction, makes an empty slot look like a waiting one. */
  lemma {:induction false} FirstWaiting(cfg: Config, s: State, ss: seq<Slot>, i: nat)
    requires !cfg.midCrash && Reachable(cfg, s) && s.mmode == MServe({}) && SlotsOk(ss) && s.table == TableOf(ss) && i <= |ss|
    ensures FirstRequested(ss, s.mlog) == i <==>
      (i < |ss| ==> Waits(s.mlog, ss[i].tid)) && forall k :: 0 <= k < i ==> !Waits(s.mlog, ss[k].tid)
  {
    TableChar(ss);
    forall k | 0 <= k < |ss| ensures Waits(s.mlog, ss[k].tid) <==> Logged(s.mlog, MCommitReq(ss[k].tid)) {
      if ss[k].tid != 0 { TableLog(cfg, s, ss[k].tid); }
    }
    var j := FirstRequested(ss, s.mlog);
  }

  /** A request and, unless the slot is empty, no decision. */
  predicate Waits(mlog: seq<MRecord>, t: Tid) {
    Logged(mlog, MCommitReq(t)) && (t != 0 ==> !Logged(mlog, MDecide(t, true)) && !Logged(mlog, MDecide(t, false)))
  }

  /** In any log the backward scan says yes exactly if some request for `t` has no decision on it behind. */
  lemma {:induction false} ScanFinds(mlog: seq<MRecord>, t: Tid)
    ensures PendingRequest(mlog, t) <==> exists i :: 0 <= i < |mlog| && OpenRequest(mlog, t, i)
  {
    if mlog != [] {
      var n := |mlog| - 1;
      var front := mlog[..n];
      ScanFinds(front, t);
      forall i: nat | i < n
        ensures OpenRequest(mlog, t, i) <==> OpenRequest(front, t, i) && (mlog[n].MDecide? ==> mlog[n].t != t)
      {
        assert forall k :: 0 <= k < n ==> front[k] == mlog[k];
      }
      if PendingRequest(mlog, t) {
        if mlog[n] == MCommitReq(t) {
          assert OpenRequest(mlog, t, n);
        } else {
          var i :| 0 <= i < |front| && OpenRequest(front, t, i);
          assert OpenRequest(mlog, t, i);
        }
      }
    }
  }

  /** Record `i` is a request for `t`, and no later record a decision on it. */
  predicate OpenRequest(mlog: seq<MRecord>, t: Tid, i: nat)
    requires i < |mlog|
  {
    mlog[i] == MCommitReq(t) && forall k :: i < k < |mlog| && mlog[k].MDecide? ==> mlog[k].t != t
  }

  lemma {:induction false} UndecidedScan(mlog: seq<MRecord>, t: Tid)
    requires !Logged(mlog, MDecide(t, true)) && !Logged(mlog, MDecide(t, false))
    ensures PendingRequest(mlog, t) <==> Logged(mlog, MCommitReq(t))
  {
    if mlog != [] {
      var front, last := mlog[..|mlog| - 1], mlog[|mlog| - 1];
      assert mlog == front + [last];
      assert last in mlog;
      UndecidedScan(front, t);
    }
  }

  /** Presumed abort: after a transaction left the table, or if it never was in it, a poll or late vote from whomever is
      answered, with what the log says, and nothing else happens; the answer agrees with every decision a member has logged.
      No vote comes so late that the answer would be commit. */
  lemma PresumedAbort(cfg: Config, s: State, m: Msg, choice: bool, stale: nat)
    requires Sound(cfg) && Reachable(cfg, s) && s.mmode == MServe({}) && s.net[m] > 0 && (m.Poll? || m.VoteCommit?)
    requires m.t != 0 && m.t !in s.table
    ensures var c := Committed(s, m.t);
      && Handle(cfg, s, m, choice, stale) == s.(net := s.net - multiset{m} + multiset{Decide(m.t, m.w, c)})
      && (m.VoteCommit? ==> !c)
      && forall v :: v in s.workers && (m.t, v) in s.hist.joined ==>
           && (W.HasRec(s.workers[v].log, W.DecideCommitRec, m.t) ==> c)
           && (W.HasRec(s.workers[v].log, W.DecideAbortRec, m.t) ==> !c)
  {
    CommitRuns.ReachableInv(cfg, s);
    CommitRuns.JoinedNonzero(cfg, s);
    DecidedAlike(cfg, s, m.t);
    if m.VoteCommit? { CommitRuns.VoteFacts(cfg, s, m.t, m.w); }
    hide Inv;
  }

  lemma DecidedAlike(cfg: Config, s: State, t: Tid)
    requires Inv(cfg, s)
    ensures forall v :: v in s.workers && (t, v) in s.hist.joined ==>
      && (W.HasRec(s.workers[v].log, W.DecideCommitRec, t) ==> Committed(s, t))
      && (W.HasRec(s.workers[v].log, W.DecideAbortRec, t) ==> !Committed(s, t))
  {
    forall v | v in s.workers && (t, v) in s.hist.joined
      ensures W.HasRec(s.workers[v].log, W.DecideCommitRec, t) ==> Committed(s, t)
      ensures W.HasRec(s.workers[v].log, W.DecideAbortRec, t) ==> !Committed(s, t)
    {
      assert WorkerJustified(s, v);
    }
  }

  /** A member that logs DECIDE_COMMIT had voted for it, and had logged no ABORT of the transaction before it was asked, except
      exactly if its vote was cast over one (`CommitOverruled.OverruledVote`). */
  lemma LocalAbortWins(cfg: Config, s: State, t: Tid, w: NodeId)
    requires Sound(cfg) && Reachable(cfg, s) && w in s.workers && (t, w) in s.hist.joined
    requires W.HasRec(s.workers[w].log, W.DecideCommitRec, t)
    ensures (t, w) in s.hist.voted
    ensures (t, w) !in s.hist.overruled <==> PreparedUnaborted(s.workers[w].log, t)
    ensures (t, w) in s.hist.overruled <==> PreparedAborted(s.workers[w].log, t)
  {
    CommitRuns.ReachableInv(cfg, s);
    CommitRuns.JoinedNonzero(cfg, s);
    CommitOverruled.ReachableOnce(cfg, s);
    VotedForIt(cfg, s, t, w);
    assert CommitOverruled.AskedOnce(s, t, w);
    hide Inv, PreparedUnaborted, PreparedAborted, CommitOverruled.PreparedOnce, W.HasRec, CommitOverruled.Once;
    CommitOverruled.OneOrOther(s.workers[w].log, t);
  }

  lemma VotedForIt(cfg: Config, s: State, t: Tid, w: NodeId)
    requires Inv(cfg, s) && w in s.workers && (t, w) in s.hist.joined && W.HasRec(s.workers[w].log, W.DecideCommitRec, t)
    ensures (t, w) in s.hist.voted && W.HasRec(s.workers[w].log, W.PrepareRec, t)
    ensures if (t, w) in s.hist.overruled then PreparedAborted(s.workers[w].log, t) else PreparedUnaborted(s.workers[w].log, t)
  {
    assert WorkerJustified(s, w);
  }
}
