/** Runs of any configuration, the program as written included, in which none of its peculiarities takes effect: they are runs of
    a configuration that agrees. */
module CommitTame {
  import opened Messages
  import opened TwoPhaseCommit
  import opened CommitInvariant
  import opened ManagerTable
  import CommitOverruled
  import W = WorkerNode

  /** The configuration without the peculiarities; a scan that never sees a decision is left in if nothing is killed inside a handler. */
  function Intended(cfg: Config): (c: Config)
    ensures Sound(c) && c.workers == cfg.workers
  {
    cfg.(pollCounts := false, silentRestart := false, midCrash := cfg.midCrash && !cfg.codedCompare)
  }

  /** No poll of a member that has not voted reaches its live transaction, no restart finds an undecided live one, and the manager
      is not killed inside a handler, each as far as the configuration makes it matter. */
  predicate Tame(cfg: Config, s: State, l: Label) {
    match l
    case MRecv(Poll(t, w), _, _) => cfg.pollCounts && t in s.table && w in s.table[t] ==> s.table[t][w] != 0
    case MRestart => cfg.silentRestart ==> Undecided(s) == {}
    case MCrash => cfg.codedCompare && cfg.midCrash ==> s.mmode == MServe({})
    case _ => true
  }

  ghost predicate TameRun(cfg: Config, s: State, ls: seq<Label>)
    requires ValidRun(cfg, s, ls)
    decreases ls
  {
    ls == [] || (Tame(cfg, s, ls[0]) && TameRun(cfg, Next(cfg, s, ls[0]), ls[1..]))
  }

  // ---------- states up to what a stored vote looks like ----------

  function Voted(ms: Members): Members {
    map w | w in ms :: if ms[w] == 0 then 0 else VOTE_COMMIT
  }

  function VotedTable(table: map<Tid, Members>): map<Tid, Members> {
    map t | t in table :: Voted(table[t])
  }

  function Plainly(s: State): State {
    s.(table := VotedTable(s.table))
  }

  /** No restart has anything to abort without logging it. */
  predicate Quiet(cfg: Config, s: State) {
    cfg.silentRestart ==>
      && (s.mmode.MServe? ==> s.mmode.todo == {})
      && (s.mmode.MTell? ==> s.mmode.todo == {} && !s.mmode.silent)
  }

  ghost predicate Simulates(cfg: Config, s: State, l: Label)
    requires Enabled(cfg, s, l)
  {
    && Enabled(Intended(cfg), Plainly(s), l)
    && Next(Intended(cfg), Plainly(s), l) == Plainly(Next(cfg, s, l))
    && Quiet(cfg, Next(cfg, s, l))
  }

  lemma SameDecision(table: map<Tid, Members>, mlog: seq<MRecord>, t: Tid, stale: nat)
    requires NoAbortStored(table)
    ensures Decision(VotedTable(table), mlog, t, stale) == Decision(table, mlog, t, stale)
  {
    if t in table {
      var ms := table[t];
      assert NoAbortAmong(ms) && NoAbortAmong(Voted(ms));
      assert Voted(ms).Keys == ms.Keys;
      assert ms == map[] <==> Voted(ms) == map[];
      if AllVoted(Voted(ms)) {
        forall w | w in ms ensures ms[w] != 0 { assert Voted(ms)[w] != 0; }
      }
    }
  }

  lemma SameSize(table: map<Tid, Members>, t: Tid)
    ensures VotedTable(table).Keys == table.Keys && |VotedTable(table)| == |table|
    ensures MemberSet(VotedTable(table), t) == MemberSet(table, t)
    ensures t in table ==> |VotedTable(table)[t]| == |table[t]|
  {
    assert VotedTable(table).Keys == table.Keys;
    if t in table { assert Voted(table[t]).Keys == table[t].Keys; }
  }

  lemma SameStore(table: map<Tid, Members>, t: Tid, w: NodeId, code: nat)
    ensures t in table ==> VotedTable(table[t := SetVote(table[t], w, 0)]) == VotedTable(table)[t := SetVote(VotedTable(table)[t], w, 0)]
    ensures VotedTable(table[t := map[]]) == VotedTable(table)[t := map[]]
    ensures VotedTable(table - {t}) == VotedTable(table) - {t}
  {
    if t in table { assert Voted(SetVote(table[t], w, 0)) == SetVote(Voted(table[t]), w, 0); }
  }

  lemma SameVote(table: map<Tid, Members>, t: Tid, w: NodeId)
    ensures VotedTable(StoreVote(table, t, w, VOTE_COMMIT)) == StoreVote(VotedTable(table), t, w, VOTE_COMMIT)
    ensures (t in table && w in table[t] ==> table[t][w] != 0) ==> VotedTable(StoreVote(table, t, w, POLL_DECISION)) == VotedTable(table)
  {
    if t in table && w in table[t] {
      assert Voted(SetVote(table[t], w, VOTE_COMMIT)) == SetVote(Voted(table[t]), w, VOTE_COMMIT);
      if table[t][w] != 0 { assert Voted(SetVote(table[t], w, POLL_DECISION)) == Voted(table[t]); }
    }
  }

  // ---------- one message ----------

  lemma VoteSimulates(cfg: Config, s: State, t: Tid, w: NodeId, choice: bool, stale: nat)
    requires NoAbortStored(s.table)
    ensures Handle(Intended(cfg), Plainly(s), VoteCommit(t, w), choice, stale) == Plainly(Handle(cfg, s, VoteCommit(t, w), choice, stale))
  {
    SameVote(s.table, t, w);
    SameSize(s.table, t);
    StoredNoAbort(s.table, t, w, VOTE_COMMIT);
    SameDecision(StoreVote(s.table, t, w, VOTE_COMMIT), s.mlog, t, stale);
    MemberAlike(s.table, t, w);
    hide Decision, StoreVote, NoAbortStored, VotedTable, SetVote;
  }

  lemma MemberAlike(table: map<Tid, Members>, t: Tid, w: NodeId)
    ensures t in VotedTable(table) && w in VotedTable(table)[t] <==> t in table && w in table[t]
  {
  }

  lemma StoredNoAbort(table: map<Tid, Members>, t: Tid, w: NodeId, code: nat)
    requires NoAbortStored(table) && code != VOTE_ABORT && code != ABORT
    ensures NoAbortStored(StoreVote(table, t, w, code))
  {
  }

  lemma PollSimulates(cfg: Config, s: State, t: Tid, w: NodeId, choice: bool, stale: nat)
    requires NoAbortStored(s.table) && Tame(cfg, s, MRecv(Poll(t, w), choice, stale))
    ensures Handle(Intended(cfg), Plainly(s), Poll(t, w), choice, stale) == Plainly(Handle(cfg, s, Poll(t, w), choice, stale))
  {
    SameVote(s.table, t, w);
    StoredNoAbort(s.table, t, w, POLL_DECISION);
    SameDecision(StoreMessage(cfg, s.table, Poll(t, w)), s.mlog, t, stale);
    hide Decision, StoreVote, NoAbortStored, VotedTable, SetVote;
  }

  lemma JoinSimulates(cfg: Config, s: State, t: Tid, w: NodeId, choice: bool, stale: nat)
    ensures Handle(Intended(cfg), Plainly(s), Join(t, w), choice, stale) == Plainly(Handle(cfg, s, Join(t, w), choice, stale))
  {
    SameSize(s.table, t);
    SameStore(s.table, t, w, 0);
    hide VotedTable, SetVote, MemberSet, Decision, StoreMessage;
  }

  lemma OtherSimulates(cfg: Config, s: State, m: Msg, choice: bool, stale: nat)
    requires !m.VoteCommit? && !m.Poll? && !m.Join?
    ensures Handle(Intended(cfg), Plainly(s), m, choice, stale) == Plainly(Handle(cfg, s, m, choice, stale))
  {
    SameSize(s.table, m.t);
    SameStore(s.table, m.t, m.w, 0);
    hide VotedTable, SetVote, MemberSet, Decision, StoreMessage;
  }

  // ---------- one step ----------

  lemma ReceiveSimulates(cfg: Config, s: State, m: Msg, choice: bool, stale: nat)
    requires NoAbortStored(s.table) && Tame(cfg, s, MRecv(m, choice, stale))
    ensures Handle(Intended(cfg), Plainly(s), m, choice, stale) == Plainly(Handle(cfg, s, m, choice, stale))
  {
    hide Handle, NoAbortStored, Plainly;
    if m.VoteCommit? { VoteSimulates(cfg, s, m.t, m.w, choice, stale); }
    else if m.Poll? { PollSimulates(cfg, s, m.t, m.w, choice, stale); }
    else if m.Join? { JoinSimulates(cfg, s, m.t, m.w, choice, stale); }
    else { OtherSimulates(cfg, s, m, choice, stale); }
  }

  /** Handling a message leaves nothing to be told silently. */
  lemma ReceiveQuiet(cfg: Config, s: State, m: Msg, choice: bool, stale: nat)
    requires s.mmode == MServe({})
    ensures Quiet(cfg, Handle(cfg, s, m, choice, stale))
  {
    hide Decision, StoreMessage, SetVote, MemberSet;
  }

  lemma WorkerSimulates(cfg: Config, s: State, w: NodeId, step: W.Step)
    requires Enabled(cfg, s, WorkerStep(w, step)) && Quiet(cfg, s)
    ensures Simulates(cfg, s, WorkerStep(w, step))
  {
    hide W.Next, W.Output, W.Enabled, VotedTable;
  }

  lemma FinishSimulates(cfg: Config, s: State)
    requires Enabled(cfg, s, MFinish) && Quiet(cfg, s)
    ensures Simulates(cfg, s, MFinish)
  {
    SameStore(s.table, s.mmode.t, 0, 0);
    hide VotedTable, MemberSet, Handle, WorkerNext;
  }

  lemma SendSimulates(cfg: Config, s: State, w: NodeId)
    requires Enabled(cfg, s, MSendOne(w)) && Quiet(cfg, s)
    ensures Simulates(cfg, s, MSendOne(w))
  {
    hide VotedTable, MemberSet, Handle, WorkerNext;
  }

  lemma CommitSimulates(cfg: Config, s: State)
    requires Enabled(cfg, s, MAppendCommit) && Quiet(cfg, s)
    ensures Simulates(cfg, s, MAppendCommit)
  {
    SameSize(s.table, s.mmode.t);
    hide VotedTable, MemberSet, Handle, WorkerNext;
  }

  /** The crash after a decision. */
  lemma CrashSimulates(cfg: Config, s: State)
    requires Enabled(cfg, s, MCodedCrash) && Quiet(cfg, s)
    ensures Simulates(cfg, s, MCodedCrash)
  {
    SameSize(s.table, s.mmode.t);
    SameStore(s.table, s.mmode.t, 0, 0);
    hide VotedTable, MemberSet, Handle, WorkerNext;
  }

  lemma AbortingSimulates(cfg: Config, s: State, l: Label)
    requires Enabled(cfg, s, l) && Quiet(cfg, s) && (l.MTimeout? || l.MRecover?)
    ensures Simulates(cfg, s, l)
  {
    SameSize(s.table, l.t);
    SameScan(cfg, s.mlog, l.t);
    hide VotedTable, MemberSet, TimesOut, Handle, WorkerNext;
  }

  lemma ManagerSimulates(cfg: Config, s: State, l: Label)
    requires Enabled(cfg, s, l) && Tame(cfg, s, l) && Quiet(cfg, s) && !l.MRecv? && !l.WorkerStep?
    ensures Simulates(cfg, s, l)
  {
    hide VotedTable, MemberSet, TimesOut, Handle, WorkerNext;
    match l
    case MTimeout(_) => AbortingSimulates(cfg, s, l);
    case MRecover(_) => AbortingSimulates(cfg, s, l);
    case Lose(_) =>
    case MCrash =>
    case MRestart => SameSize(s.table, 0);
    case MFinish => FinishSimulates(cfg, s);
    case MSendOne(w) => SendSimulates(cfg, s, w);
    case MAppendCommit => CommitSimulates(cfg, s);
    case MCodedCrash => CrashSimulates(cfg, s);
  }

  lemma SameScan(cfg: Config, mlog: seq<MRecord>, t: Tid)
    ensures TimesOut(Intended(cfg), mlog, t) == TimesOut(cfg, mlog, t)
  {
  }

  lemma StepSimulates(cfg: Config, s: State, l: Label)
    requires Enabled(cfg, s, l) && Tame(cfg, s, l) && Quiet(cfg, s) && NoAbortStored(s.table)
    ensures Simulates(cfg, s, l)
  {
    if l.WorkerStep? {
      WorkerSimulates(cfg, s, l.w, l.step);
    } else if l.MRecv? {
      ReceiveSimulates(cfg, s, l.m, l.choice, l.stale);
      ReceiveQuiet(cfg, s, l.m, l.choice, l.stale);
      hide Handle, VotedTable, Tame, NoAbortStored;
    } else {
      ManagerSimulates(cfg, s, l);
    }
  }

  // ---------- whole runs ----------

  /** A tame run is, step by step, a run of the intended configuration. */
  lemma {:induction false} RunSimulates(cfg: Config, s: State, ls: seq<Label>)
    requires ValidRun(cfg, s, ls) && TameRun(cfg, s, ls) && Quiet(cfg, s) && CommitOverruled.Plain(s)
    ensures ValidRun(Intended(cfg), Plainly(s), ls)
    ensures Exec(Intended(cfg), Plainly(s), ls) == Plainly(Exec(cfg, s, ls))
    decreases ls
  {
    if ls != [] {
      assert NoAbortStored(s.table);
      StepSimulates(cfg, s, ls[0]);
      CommitOverruled.PlainStep(cfg, s, ls[0]);
      hide Enabled, Next, Tame, Quiet, CommitOverruled.Plain, Plainly;
      RunSimulates(cfg, Next(cfg, s, ls[0]), ls[1..]);
    }
  }

  lemma InitSimulates(cfg: Config, s: State)
    requires Init(cfg, s)
    ensures Init(Intended(cfg), Plainly(s)) && Quiet(cfg, s) && CommitOverruled.Plain(s)
  {
    assert VotedTable(s.table) == map[];
  }

  /** So what a tame run reaches is reachable without the peculiarities, up to the code a stored vote carries. */
  lemma TameReaches(cfg: Config, s0: State, ls: seq<Label>)
    requires Init(cfg, s0) && ValidRun(cfg, s0, ls) && TameRun(cfg, s0, ls)
    ensures Reachable(Intended(cfg), Plainly(Exec(cfg, s0, ls)))
  {
    InitSimulates(cfg, s0);
    hide Init, Quiet, CommitOverruled.Plain, Plainly;
    RunSimulates(cfg, s0, ls);
  }
}
