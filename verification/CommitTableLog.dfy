/** The table and the log of the manager, in every configuration whose manager is not killed inside a handler: a live
    transaction has no decision record, so the timeout scan as written finds what it is meant to find. */
module CommitTableLog {
  import opened Messages
  import opened TwoPhaseCommit
  import opened CommitInvariant
  import opened CommitSteps
  import W = WorkerNode

  predicate Begun(s: State, t: Tid) {
    t != 0 ==> t in s.hist.begun
  }

  predicate Asks(m: Msg) {
    m.Prepare? || m.VoteCommit? || m.VoteAbort?
  }

  /** PREPARE_COMMIT and votes are about transactions that were begun. */
  ghost predicate NetBegun(s: State) {
    forall m: Msg :: Asks(m) && s.net[m] > 0 ==> Begun(s, m.t)
  }

  ghost predicate VotersBegun(s: State) {
    forall w :: w in s.workers && s.workers[w].mode.Voting? ==> Begun(s, s.workers[w].mode.t)
  }

  predicate ModeBegun(s: State) {
    match s.mmode
    case MDown => true
    case MServe(todo) => todo <= s.table.Keys
    case MAsk(t, pending) => pending != {} ==> Begun(s, t)
    case MLog(t) => Begun(s, t)
    case MTell(t, _, _, todo, _) => Begun(s, t) && todo <= s.table.Keys && t !in todo
  }

  predicate Decided(s: State, t: Tid) {
    Committed(s, t) || Aborted(s, t)
  }

  predicate Telling(s: State, t: Tid) {
    s.mmode.MTell? && s.mmode.t == t && !s.mmode.silent
  }

  /** Decisions are about begun transactions; a live one has a decision only while the manager tells it. */
  ghost predicate DecidedGone(s: State) {
    forall t :: Decided(s, t) ==> Begun(s, t) && (t in s.table ==> Telling(s, t))
  }

  ghost predicate InvTable(s: State) {
    InvBegin(s) && NetBegun(s) && VotersBegun(s) && ModeBegun(s) && DecidedGone(s)
  }

  // ---------- frames ----------

  lemma NetFrame(s: State, s': State)
    requires NetBegun(s) && s.hist.begun <= s'.hist.begun
    requires forall m: Msg :: Asks(m) && s'.net[m] > 0 ==> s.net[m] > 0 || Begun(s', m.t)
    ensures NetBegun(s')
  {
  }

  lemma VotersFrame(s: State, s': State)
    requires VotersBegun(s) && s.hist.begun <= s'.hist.begun && s'.workers == s.workers
    ensures VotersBegun(s')
  {
  }

  lemma LogFrame(s: State, s': State)
    requires DecidedGone(s) && s'.mlog == s.mlog && s.hist.begun <= s'.hist.begun
    requires forall t :: t in s'.table && Decided(s, t) ==> (t in s.table && (Telling(s, t) ==> Telling(s', t)))
    ensures DecidedGone(s')
  {
    assert forall t :: Decided(s', t) <==> Decided(s, t);
  }

  /** A record that is no decision. */
  lemma RecordFrame(s: State, s': State, r: MRecord)
    requires DecidedGone(s) && s'.mlog == s.mlog + [r] && !r.MDecide? && s'.hist.begun == s.hist.begun
    requires s'.table.Keys == s.table.Keys && !s.mmode.MTell?
    ensures DecidedGone(s')
  {
    assert forall t :: Decided(s', t) <==> Decided(s, t);
  }

  lemma DecideFrame(s: State, s': State, t: Tid, c: bool)
    requires DecidedGone(s) && !s.mmode.MTell? && Begun(s, t) && Telling(s', t)
    requires s'.mlog == s.mlog + [MDecide(t, c)] && s'.table == s.table && s'.hist == s.hist
    ensures DecidedGone(s')
  {
    assert forall u :: Decided(s', u) <==> Decided(s, u) || u == t;
  }

  lemma TableBegun(s: State, t: Tid)
    requires InvBegin(s) && (t == 0 || t in s.table)
    ensures Begun(s, t)
  {
  }

  // ---------- steps of a worker ----------

  lemma VotingRecords(w: NodeId, wk: W.Worker, step: W.Step)
    requires W.Enabled(wk, step)
    ensures W.Next(wk, step).mode.Voting? ==> step.Recv? && step.m.Prepare? && W.Next(wk, step).mode == W.Voting(step.m.t)
    ensures var out := W.Output(w, wk, step); out.Some? && Asks(out.value) ==> wk.mode == W.Voting(out.value.t)
  {
    hide W.Rollback;
  }

  lemma WorkerKeeps(s: State, w: NodeId, step: W.Step)
    requires InvTable(s) && w in s.workers && W.Enabled(s.workers[w], step)
    requires step.Recv? ==> s.net[step.m] > 0 && step.m.w == w
    requires step.CmdBegin? ==> step.t != 0 && step.t !in s.hist.beginner
    ensures InvTable(WorkerNext(s, w, step))
  {
    hide WorkerNext, InvBegin, DecidedGone, NetBegun, VotersBegun;
    var s' := WorkerNext(s, w, step);
    BeginByWorker(s, w, step);
    WorkerFields(s, w, step);
    SentByWorker(s, w, step);
    VotersByWorker(s, w, step);
    LogFrame(s, s');
  }

  lemma WorkerFields(s: State, w: NodeId, step: W.Step)
    requires w in s.workers && W.Enabled(s.workers[w], step)
    ensures var s' := WorkerNext(s, w, step);
      s'.hist.begun == s.hist.begun && s'.mlog == s.mlog && s'.table == s.table && s'.mmode == s.mmode
  {
    hide W.Next, W.Output;
  }

  lemma SentByWorker(s: State, w: NodeId, step: W.Step)
    requires NetBegun(s) && VotersBegun(s) && w in s.workers && W.Enabled(s.workers[w], step)
    ensures NetBegun(WorkerNext(s, w, step))
  {
    VotingRecords(w, s.workers[w], step);
    hide W.Next, W.Output, NetBegun, WorkerHistory;
    WorkerFields(s, w, step);
    NetFrame(s, WorkerNext(s, w, step));
  }

  lemma VotersByWorker(s: State, w: NodeId, step: W.Step)
    requires NetBegun(s) && VotersBegun(s) && w in s.workers && W.Enabled(s.workers[w], step)
    requires step.Recv? ==> s.net[step.m] > 0
    ensures VotersBegun(WorkerNext(s, w, step))
  {
    hide W.Next, W.Output, WorkerHistory;
    VotingRecords(w, s.workers[w], step);
    WorkerFields(s, w, step);
    assert step.Recv? && step.m.Prepare? ==> Asks(step.m) && Begun(s, step.m.t);
  }

  // ---------- messages to the manager ----------

  lemma BeginHandled(cfg: Config, s: State, t: Tid, w: NodeId, choice: bool, stale: nat)
    requires InvTable(s) && s.mmode == MServe({}) && s.net[Begin(t, w)] > 0
    ensures InvTable(Handle(cfg, s, Begin(t, w), choice, stale))
  {
    var s' := Handle(cfg, s, Begin(t, w), choice, stale);
    assert t !in s.hist.begun && t !in s.table;
    BeginTaken(s, s', t, w, BeginReply(t, w, true));
    hide InvBegin, DecidedGone, NetBegun, VotersBegun;
    NetFrame(s, s');
    VotersFrame(s, s');
    FreshUndecided(s, t);
    assert s'.table.Keys <= s.table.Keys + {t};
    LogFrame(s, s');
  }

  lemma FreshUndecided(s: State, t: Tid)
    requires InvTable(s) && t !in s.hist.begun && t != 0
    ensures !Decided(s, t)
  {
  }

  lemma JoinHandled(cfg: Config, s: State, t: Tid, w: NodeId, choice: bool, stale: nat)
    requires InvTable(s) && s.mmode == MServe({}) && s.net[Join(t, w)] > 0
    ensures InvTable(Handle(cfg, s, Join(t, w), choice, stale))
  {
    hide InvBegin, DecidedGone, NetBegun, VotersBegun, SetVote;
    var s' := Handle(cfg, s, Join(t, w), choice, stale);
    BeginFrame(s, s');
    NetFrame(s, s');
    VotersFrame(s, s');
    assert s'.table.Keys == s.table.Keys;
    if s'.mlog == s.mlog { LogFrame(s, s'); } else { RecordFrame(s, s', MJoin(t)); }
  }

  lemma RequestHandled(cfg: Config, s: State, t: Tid, w: NodeId, choice: bool, stale: nat)
    requires InvTable(s) && s.mmode == MServe({}) && s.net[CommitReq(t, w)] > 0
    ensures InvTable(Handle(cfg, s, CommitReq(t, w), choice, stale))
  {
    hide InvBegin, DecidedGone, NetBegun, VotersBegun;
    var s' := Handle(cfg, s, CommitReq(t, w), choice, stale);
    BeginFrame(s, s');
    NetFrame(s, s');
    VotersFrame(s, s');
    RecordFrame(s, s', MCommitReq(t));
    if t in s.table { TableBegun(s, t); }
  }

  lemma AbortHandled(cfg: Config, s: State, t: Tid, w: NodeId, choice: bool, stale: nat)
    requires InvTable(s) && s.mmode == MServe({}) && s.net[VoteAbort(t, w)] > 0
    ensures InvTable(Handle(cfg, s, VoteAbort(t, w), choice, stale))
  {
    assert Asks(VoteAbort(t, w)) && Begun(s, t);
    hide InvBegin, DecidedGone, VotersBegun;
    var s' := Handle(cfg, s, VoteAbort(t, w), choice, stale);
    BeginFrame(s, s');
    NetFrame(s, s');
    VotersFrame(s, s');
    DecideFrame(s, s', t, false);
  }

  /** Votes and polls only change stored votes, and may put the manager about to log. */
  predicate Stores(s: State, s': State, m: Msg) {
    && s'.table.Keys == s.table.Keys && s'.mlog == s.mlog && s'.workers == s.workers
    && s'.hist == s.hist.(counted := s'.hist.counted)
    && (s'.mmode == MServe({}) || (s'.mmode == MLog(m.t) && m.VoteCommit?))
    && (s'.net == s.net - multiset{m} || (exists c :: s'.net == s.net - multiset{m} + multiset{Decide(m.t, m.w, c)}))
  }

  lemma PollFields(cfg: Config, s: State, t: Tid, w: NodeId, choice: bool, stale: nat)
    requires s.mmode == MServe({})
    ensures Stores(s, Handle(cfg, s, Poll(t, w), choice, stale), Poll(t, w))
  {
    hide Decision, StoreMessage;
    StoredKeys(cfg, s.table, Poll(t, w));
  }

  lemma VoteFields(cfg: Config, s: State, t: Tid, w: NodeId, choice: bool, stale: nat)
    requires s.mmode == MServe({})
    ensures Stores(s, Handle(cfg, s, VoteCommit(t, w), choice, stale), VoteCommit(t, w))
  {
    hide Decision, StoreMessage;
    StoredKeys(cfg, s.table, VoteCommit(t, w));
  }

  lemma StoredKeys(cfg: Config, table: map<Tid, Members>, m: Msg)
    ensures StoreMessage(cfg, table, m).Keys == table.Keys
  {
    hide SetVote;
  }

  lemma VoteHandled(cfg: Config, s: State, m: Msg, choice: bool, stale: nat)
    requires InvTable(s) && s.mmode == MServe({}) && s.net[m] > 0 && (m.VoteCommit? || m.Poll?)
    ensures InvTable(Handle(cfg, s, m, choice, stale))
  {
    assert m.VoteCommit? ==> Asks(m) && Begun(s, m.t);
    if m.Poll? { PollFields(cfg, s, m.t, m.w, choice, stale); } else { VoteFields(cfg, s, m.t, m.w, choice, stale); }
    hide InvBegin, DecidedGone, VotersBegun, Handle;
    var s' := Handle(cfg, s, m, choice, stale);
    BeginFrame(s, s');
    NetFrame(s, s');
    VotersFrame(s, s');
    LogFrame(s, s');
  }

  lemma ReceiveKeeps(cfg: Config, s: State, m: Msg, choice: bool, stale: nat)
    requires InvTable(s) && s.mmode == MServe({}) && s.net[m] > 0 && m.ToManager()
    ensures InvTable(Handle(cfg, s, m, choice, stale))
  {
    hide InvTable, Handle;
    match m {
      case Begin(t, w) => BeginHandled(cfg, s, t, w, choice, stale);
      case Join(t, w) => JoinHandled(cfg, s, t, w, choice, stale);
      case CommitReq(t, w) => RequestHandled(cfg, s, t, w, choice, stale);
      case VoteAbort(t, w) => AbortHandled(cfg, s, t, w, choice, stale);
      case VoteCommit(t, w) => VoteHandled(cfg, s, m, choice, stale);
      case Poll(t, w) => VoteHandled(cfg, s, m, choice, stale);
    }
  }

  // ---------- the manager's own steps ----------

  lemma LoseKeeps(s: State, s': State, m: Msg)
    requires InvTable(s) && s' == s.(net := s.net - multiset{m})
    ensures InvTable(s')
  {
    hide InvBegin, DecidedGone, NetBegun, VotersBegun;
    BeginFrame(s, s');
    NetFrame(s, s');
    VotersFrame(s, s');
    LogFrame(s, s');
  }

  /** A decision on `t` is logged, and the manager starts to tell it. */
  lemma DecideKeeps(s: State, s': State, t: Tid, c: bool)
    requires InvTable(s) && !s.mmode.MTell? && Begun(s, t) && Telling(s', t) && s'.mmode.todo <= s.table.Keys - {t}
    requires s' == s.(mlog := s.mlog + [MDecide(t, c)], mmode := s'.mmode)
    ensures InvTable(s')
  {
    hide InvBegin, DecidedGone, NetBegun, VotersBegun;
    BeginFrame(s, s');
    NetFrame(s, s');
    VotersFrame(s, s');
    DecideFrame(s, s', t, c);
  }

  /** One message of a broadcast. */
  lemma TellKeeps(cfg: Config, s: State, w: NodeId)
    requires InvTable(s) && Enabled(cfg, s, MSendOne(w))
    ensures InvTable(Next(cfg, s, MSendOne(w)))
  {
    hide InvBegin, DecidedGone, NetBegun, VotersBegun;
    var s' := Next(cfg, s, MSendOne(w));
    BeginFrame(s, s');
    NetFrame(s, s');
    VotersFrame(s, s');
    LogFrame(s, s');
  }

  /** The manager leaves its mode; what it was telling is gone from the table, unless nothing was logged. */
  lemma LeaveKeeps(s: State, s': State)
    requires InvTable(s) && s' == s.(table := s'.table, mmode := s'.mmode) && s'.table.Keys <= s.table.Keys
    requires s'.mmode == MDown || (s'.mmode.MServe? && s'.mmode.todo <= s'.table.Keys)
    requires forall t :: Telling(s, t) ==> t !in s'.table
    ensures InvTable(s')
  {
    hide InvBegin, DecidedGone, NetBegun, VotersBegun;
    BeginFrame(s, s');
    NetFrame(s, s');
    VotersFrame(s, s');
    LogFrame(s, s');
  }

  /** Nothing is logged by the silent recovery, so nothing is told. */
  lemma SilentKeeps(s: State, s': State)
    requires InvTable(s) && s.mmode.MServe? && s' == s.(mmode := s'.mmode)
    requires s'.mmode.MTell? && s'.mmode.t in s.table && s'.mmode.todo <= s.table.Keys - {s'.mmode.t}
    ensures InvTable(s')
  {
    TableBegun(s, s'.mmode.t);
    hide InvBegin, DecidedGone, NetBegun, VotersBegun;
    BeginFrame(s, s');
    NetFrame(s, s');
    VotersFrame(s, s');
    LogFrame(s, s');
  }

  /** Finishing: what is left to do stays in the table. */
  lemma FinishKeeps(cfg: Config, s: State)
    requires InvTable(s) && Enabled(cfg, s, MFinish)
    ensures InvTable(Next(cfg, s, MFinish))
  {
    hide InvBegin, DecidedGone, NetBegun, VotersBegun;
    LeaveKeeps(s, Next(cfg, s, MFinish));
  }

  // ---------- every run ----------

  lemma {:induction false} StepKeepsTable(cfg: Config, s: State, l: Label)
    requires !cfg.midCrash && InvTable(s) && Enabled(cfg, s, l)
    ensures InvTable(Next(cfg, s, l))
  {
    hide InvBegin, NetBegun, VotersBegun, DecidedGone, Handle, WorkerNext, TimesOut;
    var s' := Next(cfg, s, l);
    match l {
      case WorkerStep(w, step) => WorkerKeeps(s, w, step);
      case Lose(m) => LoseKeeps(s, s', m);
      case MRecv(m, choice, stale) => ReceiveKeeps(cfg, s, m, choice, stale);
      case MAppendCommit => DecideKeeps(s, s', s.mmode.t, true);
      case MSendOne(w) => TellKeeps(cfg, s, w);
      case MFinish => FinishKeeps(cfg, s);
      case MTimeout(t) =>
        TableBegun(s, t);
        DecideKeeps(s, s', t, false);
      case MRecover(t) =>
        TableBegun(s, t);
        if cfg.silentRestart { SilentKeeps(s, s'); } else { DecideKeeps(s, s', t, false); }
      case MCrash => LeaveKeeps(s, s');
      case MCodedCrash => LeaveKeeps(s, s');
      case MRestart => LeaveKeeps(s, s');
    }
  }

  lemma {:induction false} RunKeepsTable(cfg: Config, s: State, ls: seq<Label>)
    requires !cfg.midCrash && InvTable(s) && ValidRun(cfg, s, ls)
    ensures InvTable(Exec(cfg, s, ls))
    decreases |ls|
  {
    hide InvTable, Next, Enabled;
    if ls != [] {
      StepKeepsTable(cfg, s, ls[0]);
      RunKeepsTable(cfg, Next(cfg, s, ls[0]), ls[1..]);
    }
  }

  lemma InitTable(cfg: Config, s: State)
    requires Init(cfg, s)
    ensures InvTable(s)
  {
  }

  lemma ReachableTable(cfg: Config, s: State)
    requires !cfg.midCrash && Reachable(cfg, s)
    ensures InvTable(s)
  {
    hide InvTable, Init, ValidRun, Exec;
    var s0: State, ls: seq<Label> :| Init(cfg, s0) && ValidRun(cfg, s0, ls) && Exec(cfg, s0, ls) == s;
    InitTable(cfg, s0);
    RunKeepsTable(cfg, s0, ls);
  }
}
