/** The inductive invariant behind atomic commitment. */
module CommitInvariant {
  import opened Messages
  import opened TwoPhaseCommit
  import W = WorkerNode

  /** The configurations whose every run agrees. */
  predicate Sound(cfg: Config) {
    !cfg.pollCounts && !cfg.silentRestart && !(cfg.codedCompare && cfg.midCrash)
  }

  predicate Committed(s: State, t: Tid) { Logged(s.mlog, MDecide(t, true)) }
  predicate Aborted(s: State, t: Tid) { Logged(s.mlog, MDecide(t, false)) }
  predicate Requested(s: State, t: Tid) { Logged(s.mlog, MCommitReq(t)) }

  /** `t` can never commit any more. */
  predicate Dead(s: State, t: Tid) {
    t in s.hist.begun && !Committed(s, t) && (t in s.table ==> Aborted(s, t))
  }

  // ---------- BEGIN and JOIN are processed at most once ----------

  ghost predicate InvBegin(s: State) {
    && (forall t, w :: s.net[Begin(t, w)] > 0 ==>
        t != 0 && t in s.hist.beginner && s.hist.beginner[t] == w && s.net[Begin(t, w)] == 1 && t !in s.hist.begun)
    && (forall t :: t in s.hist.begun ==> t != 0 && t in s.hist.beginner)
    && (forall t :: t in s.table ==> t in s.hist.begun)
  }

  ghost predicate InvJoin(s: State) {
    && (forall t, w :: s.net[Join(t, w)] > 0 ==>
        t != 0 && (t, w) in s.hist.joinSent && s.net[Join(t, w)] == 1 && (t, w) !in s.hist.joinDone)
    && s.hist.joined <= s.hist.joinDone <= s.hist.joinSent
    && (forall t, w :: (t, w) in s.hist.joined ==> t in s.hist.begun && (t in s.table ==> w in s.table[t]))
    && (forall t, w :: t in s.table && w in s.table[t] ==> (t, w) in s.hist.joined)
  }

  /** A message about `t` that only a worker whose JOIN was processed sends or gets. */
  predicate Tells(m: Msg) {
    m.t != 0 && !m.Begin? && !m.BeginReply? && !m.Join?
  }

  predicate KnownTid(done: set<(Tid, NodeId)>, t: Tid, w: NodeId) {
    t != 0 ==> (t, w) in done
  }

  ghost predicate InvKnown(s: State) {
    && (forall m :: s.net[m] > 0 && Tells(m) ==> (m.t, m.w) in s.hist.joinDone)
    && (forall w :: w in s.workers ==> WorkerKnown(s.hist.joinDone, w, s.workers[w]))
  }

  predicate WorkerKnown(done: set<(Tid, NodeId)>, w: NodeId, wk: W.Worker) {
    && KnownTid(done, wk.cur, w)
    && (forall i :: 0 <= i < |wk.log| ==> KnownTid(done, wk.log[i].tid, w))
    && (wk.mode.Voting? || wk.mode.Voted? || wk.mode.Deciding? ==> KnownTid(done, wk.mode.t, w))
  }

  // ---------- COMMIT is processed at most once ----------

  ghost predicate InvRequest(s: State) {
    && (forall t, w :: t != 0 && s.net[CommitReq(t, w)] > 0 ==>
        && t in s.hist.requested && s.hist.requested[t] == w && s.net[CommitReq(t, w)] == 1
        && !Requested(s, t)
        && (w in s.workers && s.workers[w].mode == W.Committing ==> s.workers[w].cur != t))
    && (forall w :: w in s.workers && s.workers[w].mode == W.Committing && s.workers[w].cur != 0 ==>
        var t := s.workers[w].cur;
        t in s.hist.requested && s.hist.requested[t] == w && !Requested(s, t))
    && (forall t :: t != 0 && Requested(s, t) ==> t in s.hist.requested)
  }

  // ---------- each member is asked, votes and is counted at most once ----------

  function Asking(s: State, t: Tid, w: NodeId): nat {
    if s.mmode.MAsk? && s.mmode.t == t && w in s.mmode.pending then 1 else 0
  }

  function VotingNow(s: State, t: Tid, w: NodeId): nat {
    if w in s.workers && s.workers[w].mode == W.Voting(t) then 1 else 0
  }

  function Counted(s: State, t: Tid, w: NodeId): nat {
    if (t, w) in s.hist.counted then 1 else 0
  }

  /** Where the one permission of `w` to vote on `t` currently is. */
  function Tokens(s: State, t: Tid, w: NodeId): nat {
    s.net[Prepare(t, w)] + s.net[VoteCommit(t, w)] + s.net[VoteAbort(t, w)]
    + Asking(s, t, w) + VotingNow(s, t, w) + Counted(s, t, w)
  }

  ghost predicate TokenOk(s: State, t: Tid, w: NodeId) {
    && Tokens(s, t, w) <= 1
    && (Tokens(s, t, w) > 0 && t != 0 ==> Requested(s, t) && (t, w) in s.hist.joined)
    && (t == 0 ==> Tokens(s, t, w) == 0)
    && (Committed(s, t) && Tokens(s, t, w) > 0 ==> (t, w) in s.hist.counted)
  }

  ghost predicate InvToken(s: State) {
    forall t, w :: TokenOk(s, t, w)
  }

  ghost predicate InvStored(s: State) {
    && (forall t, w :: t in s.table && w in s.table[t] ==>
        s.table[t][w] == if (t, w) in s.hist.counted then VOTE_COMMIT else 0)
    && s.hist.counted <= s.hist.voted
    && (forall t, w :: s.net[VoteCommit(t, w)] > 0 ==> (t, w) in s.hist.voted)
  }

  // ---------- table, log and mode of the manager ----------

  predicate FullyVoted(s: State, t: Tid) {
    t in s.table && s.table[t] != map[] && AllVoted(s.table[t])
  }

  /** Transactions the manager is busy undoing. */
  predicate InRecovery(s: State, t: Tid) {
    match s.mmode
    case MDown => true
    case MServe(todo) => t in todo
    case MTell(u, c, _, todo, _) => t in todo || (u == t && !c)
    case _ => false
  }

  predicate InCommit(s: State, t: Tid) {
    s.mmode.MTell? && s.mmode.t == t && s.mmode.commit
  }

  ghost predicate InvLog(cfg: Config, s: State) {
    && (forall t :: Committed(s, t) ==>
        t in s.hist.begun && !Aborted(s, t) && Requested(s, t) && !PendingRequest(s.mlog, t))
    && (forall t :: Aborted(s, t) ==> (t != 0 ==> t in s.hist.begun) && (t in s.table ==> InRecovery(s, t)))
    && (forall t :: t in s.table && Committed(s, t) ==> cfg.midCrash || InCommit(s, t))
    && (forall t :: FullyVoted(s, t) && !Committed(s, t) ==> InRecovery(s, t) || s.mmode == MLog(t))
    && (forall t, w :: Committed(s, t) && (t, w) in s.hist.joined ==>
        (t, w) in s.hist.counted || (t in s.table && !InCommit(s, t)))
  }

  ghost predicate InvMode(s: State) {
    match s.mmode
    case MDown => true
    case MServe(todo) => forall t :: t in todo ==> t in s.table && !Committed(s, t)
    case MAsk(t, pending) => pending <= MemberSet(s.table, t)
    case MLog(t) => FullyVoted(s, t) && !Committed(s, t) && !Aborted(s, t)
    case MTell(t, c, pending, todo, silent) =>
      && !silent
      && pending <= MemberSet(s.table, t)
      && Logged(s.mlog, MDecide(t, c))
      && (c ==> t in s.table && todo == {} && AllVoted(s.table[t]))
      && (forall u :: u in todo ==> u in s.table && !Committed(s, u) && u != t)
  }

  // ---------- decisions on their way and in the workers' logs ----------

  predicate Justified(s: State, t: Tid, w: NodeId, commit: bool) {
    (t, w) in s.hist.joined ==>
      if commit then Committed(s, t) && (t, w) in s.hist.counted else Dead(s, t)
  }

  ghost predicate InvDecisions(s: State) {
    && (forall m :: s.net[m] > 0 && m.Decide? ==> Justified(s, m.t, m.w, m.commit))
    && (forall w :: w in s.workers ==> WorkerJustified(s, w))
  }

  predicate WorkerJustified(s: State, w: NodeId)
    requires w in s.workers
  {
    var wk := s.workers[w];
    && (wk.mode.Deciding? ==> Justified(s, wk.mode.t, w, wk.mode.commit))
    && (forall i :: 0 <= i < |wk.log| && wk.log[i].kind == W.DecideCommitRec ==> Justified(s, wk.log[i].tid, w, true))
    && (forall i :: 0 <= i < |wk.log| && wk.log[i].kind == W.DecideAbortRec ==> Justified(s, wk.log[i].tid, w, false))
  }

  // ---------- what a vote for commit says about the voter's log ----------

  /** PREPARE_COMMIT of `t` was logged, and no local ABORT of `t` before it. */
  predicate PreparedUnaborted(log: seq<W.Record>, t: Tid) {
    exists p :: 0 <= p < |log| && log[p].kind == W.PrepareRec && log[p].tid == t && !W.HasRec(log[..p], W.AbortRec, t)
  }

  /** PREPARE_COMMIT of `t` was logged after a local ABORT of it. */
  predicate PreparedAborted(log: seq<W.Record>, t: Tid) {
    exists p :: 0 <= p < |log| && log[p].kind == W.PrepareRec && log[p].tid == t && W.HasRec(log[..p], W.AbortRec, t)
  }

  predicate LastPrepared(log: seq<W.Record>, t: Tid) {
    log != [] && log[|log| - 1].kind == W.PrepareRec && log[|log| - 1].tid == t
  }

  ghost predicate InvVotes(s: State) {
    && (forall w, t :: w in s.workers && s.workers[w].mode == W.Voting(t) ==> LastPrepared(s.workers[w].log, t))
    && (forall t, w :: (t, w) in s.hist.voted && (t, w) !in s.hist.overruled ==>
        w in s.workers && PreparedUnaborted(s.workers[w].log, t))
    && (forall t, w :: (t, w) in s.hist.overruled ==>
        (t, w) in s.hist.voted && w in s.workers && PreparedAborted(s.workers[w].log, t))
  }

  ghost predicate Inv(cfg: Config, s: State) {
    && InvBegin(s) && InvJoin(s) && InvKnown(s) && InvRequest(s) && InvToken(s) && InvStored(s)
    && InvLog(cfg, s) && InvMode(s) && InvDecisions(s) && InvVotes(s)
  }

  lemma InitInv(cfg: Config, s: State)
    requires Init(cfg, s)
    ensures Inv(cfg, s)
  {
  }
}
