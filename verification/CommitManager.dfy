/** The manager's own part of the commit invariant: its table, log and mode. */
module CommitManager {
  import opened Messages
  import opened TwoPhaseCommit
  import opened CommitInvariant

  lemma AppendRecord(s: State, s': State, r: MRecord)
    requires s'.mlog == s.mlog + [r]
    ensures forall t :: Committed(s', t) == (Committed(s, t) || r == MDecide(t, true))
    ensures forall t :: Aborted(s', t) == (Aborted(s, t) || r == MDecide(t, false))
    ensures forall t :: Requested(s', t) == (Requested(s, t) || r == MCommitReq(t))
    ensures forall t :: r == MDecide(t, true) || r == MDecide(t, false) ==> !PendingRequest(s'.mlog, t)
    ensures forall t :: r != MDecide(t, true) && r != MDecide(t, false) && r != MCommitReq(t) ==>
              PendingRequest(s'.mlog, t) == PendingRequest(s.mlog, t)
  {
    assert s'.mlog[..|s'.mlog| - 1] == s.mlog;
  }

  lemma ManagerFrame(cfg: Config, s: State, s': State)
    requires InvLog(cfg, s) && InvMode(s)
    requires s'.mlog == s.mlog && s'.table == s.table && s'.mmode == s.mmode
    requires s'.hist.begun == s.hist.begun && s'.hist.joined == s.hist.joined && s'.hist.counted == s.hist.counted
    ensures InvLog(cfg, s') && InvMode(s')
  {
  }

  lemma ManagerBegin(cfg: Config, s: State, s': State, t: Tid)
    requires InvLog(cfg, s) && InvMode(s) && s.mmode == MServe({}) && t !in s.hist.begun && t != 0
    requires s'.mlog == s.mlog && s'.mmode == s.mmode
    requires s'.table == s.table || s'.table == s.table[t := map[]]
    requires s'.hist.begun == s.hist.begun + {t}
    requires s'.hist.joined == s.hist.joined && s'.hist.counted == s.hist.counted
    ensures InvLog(cfg, s') && InvMode(s')
  {
  }

  lemma ManagerJoin(cfg: Config, s: State, s': State, t: Tid, w: NodeId, added: bool)
    requires InvLog(cfg, s) && InvMode(s) && s.mmode == MServe({}) && (added ==> t in s.table)
    requires s'.mmode == s.mmode && (s'.mlog == s.mlog || s'.mlog == s.mlog + [MJoin(t)])
    requires s'.table == if added then s.table[t := SetVote(s.table[t], w, 0)] else s.table
    requires s'.hist.joined == if added then s.hist.joined + {(t, w)} else s.hist.joined
    requires s'.hist.begun == s.hist.begun && s'.hist.counted == s.hist.counted
    ensures InvLog(cfg, s') && InvMode(s')
  {
    if s'.mlog != s.mlog { AppendRecord(s, s', MJoin(t)); }
    if added {
      assert s'.table[t][w] == 0;
      assert !FullyVoted(s', t);
    }
  }

  lemma ManagerAsk(cfg: Config, s: State, s': State, t: Tid)
    requires InvLog(cfg, s) && InvMode(s) && s.mmode == MServe({}) && !Committed(s, t)
    requires s'.mlog == s.mlog + [MCommitReq(t)] && s'.mmode == MAsk(t, MemberSet(s.table, t))
    requires s'.table == s.table && s'.hist == s.hist
    ensures InvLog(cfg, s') && InvMode(s')
  {
    AppendRecord(s, s', MCommitReq(t));
  }

  /** DECIDE_ABORT appended by a vote, a timeout or a restart. */
  lemma ManagerAbort(cfg: Config, s: State, s': State, t: Tid)
    requires 0 !in s.table
    requires InvLog(cfg, s) && InvMode(s) && s.mmode.MServe? && !Committed(s, t) && (t == 0 || t in s.hist.begun)
    requires s'.mlog == s.mlog + [MDecide(t, false)]
    requires s'.mmode == MTell(t, false, MemberSet(s.table, t), s.mmode.todo - {t}, false)
    requires s'.table == s.table && s'.hist == s.hist
    ensures InvLog(cfg, s') && InvMode(s')
  {
    AppendRecord(s, s', MDecide(t, false));
  }

  /** A vote stored by collectVote, which may complete the votes. */
  lemma ManagerVote(cfg: Config, s: State, s': State, t: Tid, w: NodeId)
    requires InvLog(cfg, s) && InvMode(s) && s.mmode == MServe({}) && !Committed(s, t)
    requires s'.mlog == s.mlog && s'.table == StoreVote(s.table, t, w, VOTE_COMMIT)
    requires s'.hist == s.hist ||
             s'.hist == s.hist.(counted := s.hist.counted + {(t, w)})
    requires s'.mmode == if FullyVoted(s', t) then MLog(t) else MServe({})
    ensures InvLog(cfg, s') && InvMode(s')
  {
    forall u | u != t ensures FullyVoted(s', u) == FullyVoted(s, u) {}
  }

  lemma ManagerCommit(cfg: Config, s: State, s': State, t: Tid)
    requires InvLog(cfg, s) && InvMode(s) && InvStored(s) && InvJoin(s) && InvToken(s)
    requires s.mmode == MLog(t) && t in s.hist.begun && Requested(s, t)
    requires s'.mlog == s.mlog + [MDecide(t, true)]
    requires s'.mmode == MTell(t, true, MemberSet(s.table, t), {}, false)
    requires s'.table == s.table && s'.hist == s.hist
    ensures InvLog(cfg, s') && InvMode(s')
  {
    AppendRecord(s, s', MDecide(t, true));
    forall w | (t, w) in s.hist.joined ensures (t, w) in s.hist.counted {
      assert s.table[t][w] != 0;
    }
  }

  lemma ManagerSend(cfg: Config, s: State, s': State, w: NodeId)
    requires InvLog(cfg, s) && InvMode(s) && (s.mmode.MAsk? || s.mmode.MTell?)
    requires s'.mmode == s.mmode.(pending := s.mmode.pending - {w})
    requires s'.mlog == s.mlog && s'.table == s.table && s'.hist == s.hist
    ensures InvLog(cfg, s') && InvMode(s')
  {
  }

  lemma ManagerAsked(cfg: Config, s: State, s': State)
    requires InvLog(cfg, s) && InvMode(s) && s.mmode.MAsk? && s'.mmode == MServe({})
    requires s'.mlog == s.mlog && s'.table == s.table && s'.hist == s.hist
    ensures InvLog(cfg, s') && InvMode(s')
  {
  }

  /** cleanWorkerInfo after a decision, with or without the coded crash. */
  lemma ManagerClean(cfg: Config, s: State, s': State)
    requires InvLog(cfg, s) && InvMode(s) && s.mmode.MTell?
    requires s'.mmode == MServe(s.mmode.todo) || s'.mmode == MDown
    requires s'.mlog == s.mlog && s'.table == s.table - {s.mmode.t} && s'.hist == s.hist
    ensures InvLog(cfg, s') && InvMode(s')
  {
    var t := s.mmode.t;
    forall u | u != t ensures FullyVoted(s', u) == FullyVoted(s, u) {}
    assert !FullyVoted(s', t);
  }

  lemma ManagerCrash(cfg: Config, s: State, s': State)
    requires InvLog(cfg, s) && InvMode(s) && (s.mmode == MServe({}) || cfg.midCrash) && s'.mmode == MDown
    requires s'.mlog == s.mlog && s'.table == s.table && s'.hist == s.hist
    ensures InvLog(cfg, s') && InvMode(s')
  {
  }

  lemma ManagerRestart(cfg: Config, s: State, s': State)
    requires InvLog(cfg, s) && InvMode(s) && s.mmode == MDown && s'.mmode == MServe(Undecided(s))
    requires s'.mlog == s.mlog && s'.table == s.table && s'.hist == s.hist
    ensures InvLog(cfg, s') && InvMode(s')
  {
  }

  /** With every member's vote stored or 0, collectVote on a live transaction never returns abort. */
  lemma DecisionLive(cfg: Config, s: State, t: Tid, stale: nat)
    requires InvStored(s) && t != 0 && t in s.table && s.table[t] != map[]
    ensures Decision(s.table, s.mlog, t, stale) == if FullyVoted(s, t) then DECIDE_COMMIT else WAIT
  {
  }
}
