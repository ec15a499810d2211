/** Votes for commit cast over an own ABORT: when the program as written casts them, that nothing stops the commit then, and
    that a member that commits had aborted before its vote exactly if its vote was one of these. */
module CommitOverruled {
  import opened Messages
  import opened TwoPhaseCommit
  import opened CommitInvariant
  import opened CommitScenes
  import opened ManagerTable
  import CommitRuns
  import W = WorkerNode

  // ---------- the vote ----------

  /** What lets a vote through although the transaction was aborted: another transaction is current, and not aborted. */
  predicate Overlooks(wk: W.Worker, t: Tid) {
    wk.cur != t && !W.HasRec(wk.log, W.AbortRec, wk.cur) && !wk.refuse
  }

  /** A worker that has logged ABORT of the transaction it is asked about votes to commit it exactly if it overlooks that. */
  lemma OverruledVote(cfg: Config, s: State, w: NodeId)
    requires w in s.workers && s.workers[w].mode.Voting? && W.HasRec(s.workers[w].log, W.AbortRec, s.workers[w].mode.t)
    ensures var s', t := Next(cfg, s, WorkerStep(w, W.SendVote)), s.workers[w].mode.t;
      && (s'.net == s.net + multiset{VoteCommit(t, w)} <==> Overlooks(s.workers[w], t))
      && (s'.net == s.net + multiset{VoteAbort(t, w)} <==> !Overlooks(s.workers[w], t))
      && (Overlooks(s.workers[w], t) ==> (t, w) in s'.hist.overruled)
  {
    var t := s.workers[w].mode.t;
    var yes, no := s.net + multiset{VoteCommit(t, w)}, s.net + multiset{VoteAbort(t, w)};
    assert yes[VoteCommit(t, w)] == s.net[VoteCommit(t, w)] + 1 && no[VoteCommit(t, w)] == s.net[VoteCommit(t, w)];
  }

  // ---------- what every configuration keeps ----------

  /** Tid 0 is not live, and no abort is stored as a vote. */
  ghost predicate Plain(s: State) {
    0 !in s.table && NoAbortStored(s.table) && forall w: NodeId :: s.net[Begin(0, w)] == 0
  }

  lemma PlainWorker(s: State, w: NodeId, step: W.Step)
    requires Plain(s) && w in s.workers && W.Enabled(s.workers[w], step) && (step.CmdBegin? ==> step.t != 0)
    requires step.Recv? ==> s.net[step.m] > 0
    ensures Plain(WorkerNext(s, w, step))
  {
    hide W.Next, WorkerHistory, W.VotesCommit, NoAbortStored;
  }

  /** What is stored for the sender of `m`, if anything. */
  function StoredCode(m: Msg): nat {
    if m.VoteCommit? then VOTE_COMMIT else if m.Poll? then POLL_DECISION else 0
  }

  lemma TableHandled(cfg: Config, s: State, m: Msg, choice: bool, stale: nat)
    ensures var table := Handle(cfg, s, m, choice, stale).table;
      || table == s.table
      || (m.Begin? && table == s.table[m.t := map[]])
      || (m.t in s.table && table == s.table[m.t := SetVote(s.table[m.t], m.w, StoredCode(m))])
  {
    hide Handle, SetVote, StoreMessage, StoredCode;
    if m.VoteCommit? {
      VoteTable(cfg, s, m.t, m.w, choice, stale);
      StoredTable(cfg, s.table, m);
    } else if m.Poll? {
      PollTable(cfg, s, m.t, m.w, choice, stale);
      StoredTable(cfg, s.table, m);
    } else {
      OtherTable(cfg, s, m, choice, stale);
    }
  }

  lemma OtherTable(cfg: Config, s: State, m: Msg, choice: bool, stale: nat)
    requires !m.VoteCommit? && !m.Poll?
    ensures var table := Handle(cfg, s, m, choice, stale).table;
      || table == s.table
      || (m.Begin? && table == s.table[m.t := map[]])
      || (m.t in s.table && table == s.table[m.t := SetVote(s.table[m.t], m.w, StoredCode(m))])
  {
    hide SetVote;
  }

  lemma StoredTable(cfg: Config, table: map<Tid, Members>, m: Msg)
    requires m.VoteCommit? || m.Poll?
    ensures var table' := StoreMessage(cfg, table, m);
      table' == table || (m.t in table && table' == table[m.t := SetVote(table[m.t], m.w, StoredCode(m))])
  {
  }

  lemma VoteTable(cfg: Config, s: State, t: Tid, w: NodeId, choice: bool, stale: nat)
    ensures Handle(cfg, s, VoteCommit(t, w), choice, stale).table == StoreMessage(cfg, s.table, VoteCommit(t, w))
  {
    hide Decision, StoreMessage;
  }

  lemma PollTable(cfg: Config, s: State, t: Tid, w: NodeId, choice: bool, stale: nat)
    ensures Handle(cfg, s, Poll(t, w), choice, stale).table == StoreMessage(cfg, s.table, Poll(t, w))
  {
    hide Decision, StoreMessage;
  }

  lemma PlainTable(cfg: Config, s: State, m: Msg, choice: bool, stale: nat)
    requires 0 !in s.table && NoAbortStored(s.table) && (m.Begin? ==> m.t != 0)
    ensures 0 !in Handle(cfg, s, m, choice, stale).table && NoAbortStored(Handle(cfg, s, m, choice, stale).table)
  {
    hide Handle;
    TableHandled(cfg, s, m, choice, stale);
  }

  lemma PlainReceive(cfg: Config, s: State, m: Msg, choice: bool, stale: nat)
    requires Plain(s) && s.net[m] > 0
    ensures Plain(Handle(cfg, s, m, choice, stale))
  {
    hide Decision, NoAbortStored, StoreMessage, SetVote;
    PlainTable(cfg, s, m, choice, stale);
  }

  lemma PlainStep(cfg: Config, s: State, l: Label)
    requires Plain(s) && Enabled(cfg, s, l)
    ensures Plain(Next(cfg, s, l))
  {
    hide WorkerNext, Handle, NoAbortAmong;
    match l
    case WorkerStep(w, step) => PlainWorker(s, w, step);
    case MRecv(m, choice, stale) => PlainReceive(cfg, s, m, choice, stale);
    case _ =>
  }

  lemma {:induction false} PlainRun(cfg: Config, s: State, ls: seq<Label>)
    requires Plain(s) && ValidRun(cfg, s, ls)
    ensures Plain(Exec(cfg, s, ls))
    decreases ls
  {
    if ls != [] {
      PlainStep(cfg, s, ls[0]);
      hide Plain, Next, Enabled;
      PlainRun(cfg, Next(cfg, s, ls[0]), ls[1..]);
    }
  }

  lemma ReachablePlain(cfg: Config, s: State)
    requires Reachable(cfg, s)
    ensures Plain(s)
  {
    var s0: State, ls: seq<Label> :| Init(cfg, s0) && ValidRun(cfg, s0, ls) && Exec(cfg, s0, ls) == s;
    PlainRun(cfg, s0, ls);
  }

  // ---------- nothing stops the commit ----------

  /** The manager can finish what it is doing without deciding `t`. */
  predicate CanServe(s: State, t: Tid) {
    match s.mmode
    case MDown => false
    case MServe(todo) => todo == {}
    case MAsk(_, _) => true
    case MLog(u) => u != t
    case MTell(u, _, _, todo, _) => u != t && todo == {}
  }

  ghost predicate Settled(s: State, s0: State, t: Tid) {
    && s.mmode == MServe({}) && s.workers == s0.workers && s.hist == s0.hist
    && t in s.table && t in s0.table && s.table[t] == s0.table[t]
  }

  lemma Tells(cfg: Config, s0: State, t: Tid) returns (s: State)
    requires Reachable(cfg, s0) && t in s0.table && CanServe(s0, t) && (s0.mmode.MAsk? || s0.mmode.MTell?)
    ensures Reachable(cfg, s) && Settled(s, s0, t)
    decreases s0.mmode.pending
  {
    hide Reachable;
    if s0.mmode.pending == {} {
      s := DoFinish(cfg, s0);
    } else {
      var v :| v in s0.mmode.pending;
      s := Send(cfg, s0, v);
      s := Tells(cfg, s, t);
    }
  }

  lemma Settle(cfg: Config, s0: State, t: Tid) returns (s: State)
    requires Reachable(cfg, s0) && t in s0.table && CanServe(s0, t)
    ensures Reachable(cfg, s) && Settled(s, s0, t)
  {
    hide Reachable;
    match s0.mmode
    case MServe(_) => s := s0;
    case MLog(u) =>
      s := DoAppendCommit(cfg, s0, u);
      s := Tells(cfg, s, t);
    case _ => s := Tells(cfg, s0, t);
  }

  /** `t` is live with `w` in it, and every other member's vote is in. */
  predicate OnlyMissing(s: State, t: Tid, w: NodeId) {
    t in s.table && w in s.table[t] && forall v :: v in s.table[t] && v != w ==> s.table[t][v] != 0
  }

  /** The vote completes the transaction. */
  lemma LastVote(cfg: Config, s: State, t: Tid, w: NodeId)
    requires OnlyMissing(s, t, w) && t != 0 && NoAbortAmong(s.table[t])
    ensures var s' := Handle(cfg, s, VoteCommit(t, w), true, 0);
      && s'.mmode == MLog(t) && s'.workers == s.workers && s'.mlog == s.mlog
      && t in s'.table && w in s'.table[t] && s'.hist.joined == s.hist.joined
  {
    var ms := SetVote(s.table[t], w, VOTE_COMMIT);
    var table := StoreMessage(cfg, s.table, VoteCommit(t, w));
    assert table == s.table[t := ms];
    assert w in ms && ms != map[];
    assert NoAbortAmong(ms) && AllVoted(ms);
    assert MembersDecision(ms, 0) == DECIDE_COMMIT;
  }

  /** It votes and logs the vote. */
  lemma CastsVote(cfg: Config, s0: State, w: NodeId, t: Tid) returns (s: State)
    requires Reachable(cfg, s0) && w in s0.workers && s0.workers[w].mode == W.Voting(t) && W.VotesCommit(s0.workers[w])
    ensures Reachable(cfg, s) && s.net[VoteCommit(t, w)] > 0
    ensures Moved(s, s0, w, s0.workers[w].(log := s0.workers[w].log + [W.Rec(W.VoteRec, t)], mode := W.Waiting))
  {
    hide Reachable, Next, Enabled, WorkerNext, W.Rollback, W.HasRec;
    s := Act(cfg, s0, w, W.SendVote);
    s := Act(cfg, s, w, W.AppendVote);
  }

  /** The missing vote is in: commit is logged, and told to its sender, which logs it. */
  lemma Completes(cfg: Config, s0: State, w: NodeId, t: Tid) returns (s: State)
    requires Reachable(cfg, s0) && w in s0.workers && s0.workers[w].mode == W.Waiting && s0.net[VoteCommit(t, w)] > 0
    requires s0.mmode == MServe({}) && OnlyMissing(s0, t, w)
    ensures Reachable(cfg, s) && w in s.workers && Committed(s, t) && s.hist.joined == s0.hist.joined
    ensures s.workers[w].log == s0.workers[w].log + [W.Rec(W.DecideCommitRec, t)]
  {
    ReachablePlain(cfg, s0);
    hide Reachable, NoAbortAmong, Handle, W.Rollback;
    LastVote(cfg, s0, t, w);
    s := Receive(cfg, s0, VoteCommit(t, w));
    s := DoAppendCommit(cfg, s, t);
    assert s.mlog[|s.mlog| - 1] == MDecide(t, true);
    s := Send(cfg, s, w);
    s := Learn(cfg, s, t, w, true);
  }

  /** In every configuration and from every reachable state: if a worker overlooks its ABORT of a live transaction it is asked
      about, and every other member's vote is in, some run goes on to log its commit at the manager and at the worker. */
  lemma GoesThrough(cfg: Config, s0: State, t: Tid, w: NodeId) returns (s: State)
    requires Reachable(cfg, s0) && w in s0.workers && s0.workers[w].mode == W.Voting(t)
    requires W.HasRec(s0.workers[w].log, W.AbortRec, t) && Overlooks(s0.workers[w], t)
    requires CanServe(s0, t) && OnlyMissing(s0, t, w)
    ensures Reachable(cfg, s) && w in s.workers && Committed(s, t) && s0.hist.joined <= s.hist.joined
    ensures s.workers[w].log == s0.workers[w].log + [W.Rec(W.VoteRec, t), W.Rec(W.DecideCommitRec, t)]
  {
    hide Reachable, W.HasRec;
    var wk := s0.workers[w];
    s := Settle(cfg, s0, t);
    s := CastsVote(cfg, s, w, t);
    s := Completes(cfg, s, w, t);
    assert wk.log + [W.Rec(W.VoteRec, t)] + [W.Rec(W.DecideCommitRec, t)] == wk.log + [W.Rec(W.VoteRec, t), W.Rec(W.DecideCommitRec, t)];
  }

  // ---------- a member is asked once ----------

  /** The log has at most one PREPARE_COMMIT of `t`. */
  predicate PreparedOnce(log: seq<W.Record>, t: Tid) {
    forall i, j :: 0 <= i < j < |log| && log[i].kind == log[j].kind == W.PrepareRec && log[i].tid == t ==> log[j].tid != t
  }

  /** A worker that has logged PREPARE_COMMIT of `t` is not asked about it again. */
  ghost predicate AskedOnce(s: State, t: Tid, w: NodeId) {
    w in s.workers && t != 0 && W.HasRec(s.workers[w].log, W.PrepareRec, t) ==>
      PreparedOnce(s.workers[w].log, t) && Requested(s, t) && Questions(s, t, w) == 0
  }

  function Questions(s: State, t: Tid, w: NodeId): nat {
    s.net[Prepare(t, w)] + Asking(s, t, w)
  }

  ghost predicate Once(s: State) {
    forall t: Tid, w: NodeId :: AskedOnce(s, t, w)
  }

  /** Handling a message asks nobody yet, unless it is a COMMIT request. */
  predicate AsksNobody(s: State, s': State, t: Tid, w: NodeId) {
    !s'.mmode.MAsk? && s'.net[Prepare(t, w)] <= s.net[Prepare(t, w)] && s'.workers == s.workers && s.mlog <= s'.mlog
  }

  lemma VoteAsks(cfg: Config, s: State, u: Tid, v: NodeId, choice: bool, stale: nat, t: Tid, w: NodeId)
    requires s.mmode == MServe({})
    ensures AsksNobody(s, Handle(cfg, s, VoteCommit(u, v), choice, stale), t, w)
  {
    hide Decision, StoreMessage;
  }

  lemma PollAsks(cfg: Config, s: State, u: Tid, v: NodeId, choice: bool, stale: nat, t: Tid, w: NodeId)
    requires s.mmode == MServe({})
    ensures AsksNobody(s, Handle(cfg, s, Poll(u, v), choice, stale), t, w)
  {
    hide Decision, StoreMessage;
  }

  lemma OtherAsks(cfg: Config, s: State, m: Msg, choice: bool, stale: nat, t: Tid, w: NodeId)
    requires s.mmode == MServe({}) && !m.VoteCommit? && !m.Poll? && !m.CommitReq?
    ensures AsksNobody(s, Handle(cfg, s, m, choice, stale), t, w)
  {
    hide Decision, StoreMessage, SetVote, MemberSet;
  }

  lemma RequestAsks(cfg: Config, s: State, u: Tid, v: NodeId, choice: bool, stale: nat, t: Tid, w: NodeId)
    requires s.mmode == MServe({}) && u != t
    ensures var s' := Handle(cfg, s, CommitReq(u, v), choice, stale); Questions(s', t, w) <= Questions(s, t, w)
  {
    hide MemberSet;
  }

  lemma QuestionsReceived(cfg: Config, s: State, m: Msg, choice: bool, stale: nat, t: Tid, w: NodeId)
    requires s.mmode == MServe({}) && (m.CommitReq? ==> m.t != t)
    ensures Questions(Handle(cfg, s, m, choice, stale), t, w) <= Questions(s, t, w)
  {
    hide Handle;
    if m.CommitReq? { RequestAsks(cfg, s, m.t, m.w, choice, stale, t, w); }
    else if m.VoteCommit? { VoteAsks(cfg, s, m.t, m.w, choice, stale, t, w); }
    else if m.Poll? { PollAsks(cfg, s, m.t, m.w, choice, stale, t, w); }
    else { OtherAsks(cfg, s, m, choice, stale, t, w); }
  }

  lemma QuestionsKept(cfg: Config, s: State, l: Label, t: Tid, w: NodeId)
    requires InvRequest(s) && Enabled(cfg, s, l) && !l.WorkerStep? && t != 0 && Requested(s, t)
    ensures Questions(Next(cfg, s, l), t, w) <= Questions(s, t, w)
  {
    hide Handle, MemberSet;
    if l.MRecv? { QuestionsReceived(cfg, s, l.m, l.choice, l.stale, t, w); }
  }

  lemma WorkersStay(cfg: Config, s: State, l: Label)
    requires Enabled(cfg, s, l) && !l.WorkerStep?
    ensures Next(cfg, s, l).workers == s.workers && s.mlog <= Next(cfg, s, l).mlog
  {
    hide Handle, MemberSet;
    if l.MRecv? && l.m.CommitReq? { RequestStays(cfg, s, l.m.t, l.m.w, l.choice, l.stale); }
    else if l.MRecv? && l.m.VoteCommit? { VoteAsks(cfg, s, l.m.t, l.m.w, l.choice, l.stale, 0, 0); }
    else if l.MRecv? && l.m.Poll? { PollAsks(cfg, s, l.m.t, l.m.w, l.choice, l.stale, 0, 0); }
    else if l.MRecv? { OtherAsks(cfg, s, l.m, l.choice, l.stale, 0, 0); }
  }

  lemma RequestStays(cfg: Config, s: State, t: Tid, w: NodeId, choice: bool, stale: nat)
    ensures var s' := Handle(cfg, s, CommitReq(t, w), choice, stale); s'.workers == s.workers && s.mlog <= s'.mlog
  {
  }

  lemma OnceByManager(cfg: Config, s: State, l: Label)
    requires Inv(cfg, s) && Once(s) && Enabled(cfg, s, l) && !l.WorkerStep?
    ensures Once(Next(cfg, s, l))
  {
    WorkersStay(cfg, s, l);
    var s' := Next(cfg, s, l);
    forall t: Tid, w: NodeId ensures AskedOnce(s', t, w) {
      assert AskedOnce(s, t, w);
      if t != 0 && Requested(s, t) { QuestionsKept(cfg, s, l, t, w); }
    }
  }

  lemma OnceByWorker(cfg: Config, s: State, w: NodeId, step: W.Step)
    requires Inv(cfg, s) && Once(s) && Enabled(cfg, s, WorkerStep(w, step))
    ensures Once(WorkerNext(s, w, step))
  {
    var s' := WorkerNext(s, w, step);
    forall t: Tid, v: NodeId ensures AskedOnce(s', t, v) {
      assert AskedOnce(s, t, v) && TokenOk(s, t, v);
      if v == w { OwnQuestions(s, w, step, t); } else { OthersQuestions(s, w, step, t, v); }
    }
  }

  lemma OthersQuestions(s: State, w: NodeId, step: W.Step, t: Tid, v: NodeId)
    requires w in s.workers && W.Enabled(s.workers[w], step) && v != w && AskedOnce(s, t, v)
    requires step.Recv? ==> s.net[step.m] > 0
    ensures AskedOnce(WorkerNext(s, w, step), t, v)
  {
    hide W.Next, WorkerHistory, W.VotesCommit, W.HasRec, PreparedOnce;
  }

  lemma OwnQuestions(s: State, w: NodeId, step: W.Step, t: Tid)
    requires w in s.workers && W.Enabled(s.workers[w], step) && AskedOnce(s, t, w) && TokenOk(s, t, w)
    requires step.Recv? ==> s.net[step.m] > 0 && step.m.w == w
    ensures AskedOnce(WorkerNext(s, w, step), t, w)
  {
    hide W.Next, WorkerHistory, W.VotesCommit;
    W.NextLog(s.workers[w], step);
  }

  lemma OnceStep(cfg: Config, s: State, l: Label)
    requires Inv(cfg, s) && Once(s) && Enabled(cfg, s, l)
    ensures Once(Next(cfg, s, l))
  {
    hide Inv, Once, WorkerNext;
    if l.WorkerStep? { OnceByWorker(cfg, s, l.w, l.step); } else { OnceByManager(cfg, s, l); }
  }

  lemma {:induction false} OnceRun(cfg: Config, s: State, ls: seq<Label>)
    requires Sound(cfg) && Inv(cfg, s) && Once(s) && ValidRun(cfg, s, ls)
    ensures Once(Exec(cfg, s, ls))
    decreases ls
  {
    if ls != [] {
      OnceStep(cfg, s, ls[0]);
      CommitRuns.StepKeeps(cfg, s, ls[0]);
      hide Inv, Once, Next, Enabled;
      OnceRun(cfg, Next(cfg, s, ls[0]), ls[1..]);
    }
  }

  lemma ReachableOnce(cfg: Config, s: State)
    requires Sound(cfg) && Reachable(cfg, s)
    ensures Once(s)
  {
    var s0: State, ls: seq<Label> :| Init(cfg, s0) && ValidRun(cfg, s0, ls) && Exec(cfg, s0, ls) == s;
    InitInv(cfg, s0);
    hide Inv;
    OnceRun(cfg, s0, ls);
  }

  /** With one PREPARE_COMMIT in the log, an ABORT came before it or it did not. */
  lemma OneOrOther(log: seq<W.Record>, t: Tid)
    requires PreparedOnce(log, t)
    ensures !(PreparedAborted(log, t) && PreparedUnaborted(log, t))
  {
  }
}
