/** The manager, its workers and the network as one step system
    (transaction_management/tmanager.c with transaction_management/tworker.c).
    The network may lose, delay and reorder messages but does not duplicate them. */
module TwoPhaseCommit {
  import opened Messages
  import WorkerNode

  /** Places where the program as written differs from what its comments describe,
      and the crashes the environment may cause. */
  datatype Config = Config(
    workers: set<NodeId>,
    pollCounts: bool,     // a poll is stored like a vote (tmanager.c:429, whose test is always true)
    silentRestart: bool,  // restart sends DECIDE_ABORT without logging or cleaning (tmanager.c:823-831)
    codedCompare: bool,   // the timeout scan never sees a decision (tmanager.c:118)
    midCrash: bool)       // the manager may be killed inside a handler, not only between handlers

  datatype MRecord = MJoin(t: Tid) | MCommitReq(t: Tid) | MDecide(t: Tid, commit: bool)

  /** Stored vote of each member; 0 until a message is stored for it. */
  type Members = map<NodeId, nat>

  datatype MMode =
    | MDown
    | MServe(todo: set<Tid>)               // todo: transactions a restart has still to abort
    | MAsk(t: Tid, pending: set<NodeId>)   // sending PREPARE_COMMIT
    | MLog(t: Tid)                         // all votes in, DECIDE_COMMIT not yet appended
    | MTell(t: Tid, commit: bool, pending: set<NodeId>, todo: set<Tid>, silent: bool)  // sending the decision

  /** History kept for the statements only; no step reads it except to exclude
      requests the environment never makes twice. */
  datatype History = History(
    beginner: map<Tid, NodeId>,      // BEGIN sent
    begun: set<Tid>,                 // BEGIN processed
    joinSent: set<(Tid, NodeId)>,
    joinDone: set<(Tid, NodeId)>,    // JOIN processed
    joined: set<(Tid, NodeId)>,      // ... and the worker entered into the table
    requested: map<Tid, NodeId>,     // COMMIT requested
    voted: set<(Tid, NodeId)>,       // VOTE_COMMIT sent
    overruled: set<(Tid, NodeId)>,   // ... although the worker had logged ABORT of it
    counted: set<(Tid, NodeId)>)     // VOTE_COMMIT stored in the table

  datatype State = State(
    workers: map<NodeId, WorkerNode.Worker>,
    table: map<Tid, Members>,
    mlog: seq<MRecord>,
    mmode: MMode,
    net: multiset<Msg>,
    hist: History)

  datatype Label =
    | WorkerStep(w: NodeId, step: WorkerNode.Step)
    | Lose(m: Msg)
    | MRecv(m: Msg, choice: bool, stale: nat)
    | MAppendCommit
    | MSendOne(w: NodeId)
    | MFinish
    | MTimeout(t: Tid)
    | MRecover(t: Tid)
    | MCrash
    | MCodedCrash
    | MRestart

  // ---------- the manager's decisions ----------

  predicate Logged(mlog: seq<MRecord>, r: MRecord) {
    r in mlog
  }

  /** Scanning backward, the first record of `t` among decisions and requests is a request. */
  predicate PendingRequest(mlog: seq<MRecord>, t: Tid) {
    if mlog == [] then false
    else
      match mlog[|mlog| - 1]
      case MDecide(u, _) => u != t && PendingRequest(mlog[..|mlog| - 1], t)
      case MCommitReq(u) => u == t || PendingRequest(mlog[..|mlog| - 1], t)
      case MJoin(_) => PendingRequest(mlog[..|mlog| - 1], t)
  }

  /** waitingForVotes for the tid of one slot; the tid of an empty slot is 0. */
  predicate TimesOut(cfg: Config, mlog: seq<MRecord>, t: Tid) {
    if cfg.codedCompare then Logged(mlog, MCommitReq(t)) else PendingRequest(mlog, t)
  }

  predicate AllVoted(ms: Members) {
    forall w :: w in ms ==> ms[w] != 0
  }

  /** The second half of collectVote on the members of one slot. With no member the
      returned variable is never assigned: `stale` is what it happens to hold. */
  function MembersDecision(ms: Members, stale: nat): nat {
    if ms == map[] then stale
    else if exists w :: w in ms && (ms[w] == VOTE_ABORT || ms[w] == ABORT) then DECIDE_ABORT
    else if AllVoted(ms) then DECIDE_COMMIT
    else WAIT
  }

  function SetVote(ms: Members, w: NodeId, code: nat): Members {
    ms[w := code]
  }

  function StoreVote(table: map<Tid, Members>, t: Tid, w: NodeId, code: nat): map<Tid, Members> {
    if t in table && w in table[t] then table[t := SetVote(table[t], w, code)] else table
  }

  /** The table after collectVote stores the message; a poll is stored only in the program as written. */
  function StoreMessage(cfg: Config, table: map<Tid, Members>, m: Msg): map<Tid, Members> {
    match m
    case VoteCommit(t, w) => StoreVote(table, t, w, VOTE_COMMIT)
    case Poll(t, w) => if cfg.pollCounts then StoreVote(table, t, w, POLL_DECISION) else table
    case _ => table
  }

  /** What collectVote returns. Tid 0 matches an empty slot, whose members are none. */
  function Decision(table: map<Tid, Members>, mlog: seq<MRecord>, t: Tid, stale: nat): nat {
    if t == 0 then stale
    else if t !in table then (if Logged(mlog, MDecide(t, true)) then DECIDE_COMMIT else DECIDE_ABORT)
    else MembersDecision(table[t], stale)
  }

  function MemberSet(table: map<Tid, Members>, t: Tid): set<NodeId> {
    if t in table then table[t].Keys else {}
  }

  // ---------- steps ----------

  ghost predicate Enabled(cfg: Config, s: State, l: Label) {
    match l
    case WorkerStep(w, step) =>
      && w in s.workers
      && WorkerNode.Enabled(s.workers[w], step)
      && (step.Recv? ==> s.net[step.m] > 0 && step.m.w == w)
      && (step.CmdBegin? ==> step.t != 0 && step.t !in s.hist.beginner)
      && (step.CmdJoin? ==> step.t != 0 && (step.t, w) !in s.hist.joinSent)
      && (step.CmdCommit? ==> s.workers[w].cur == 0 || s.workers[w].cur !in s.hist.requested)
    case Lose(m) => s.net[m] > 0
    case MRecv(m, _, _) => s.mmode == MServe({}) && s.net[m] > 0 && m.ToManager()
    case MAppendCommit => s.mmode.MLog?
    case MSendOne(w) => (s.mmode.MAsk? || s.mmode.MTell?) && w in s.mmode.pending
    case MFinish => (s.mmode.MAsk? || s.mmode.MTell?) && s.mmode.pending == {}
    case MTimeout(t) => s.mmode == MServe({}) && (t == 0 || t in s.table) && TimesOut(cfg, s.mlog, t)
    case MRecover(t) => s.mmode.MServe? && t in s.mmode.todo
    case MCrash => s.mmode == MServe({}) || (cfg.midCrash && s.mmode != MDown)
    case MCodedCrash =>
      s.mmode.MTell? && !s.mmode.silent && s.mmode.todo == {} && s.mmode.pending == MemberSet(s.table, s.mmode.t)
    case MRestart => s.mmode == MDown
  }

  function WorkerHistory(s: State, w: NodeId, step: WorkerNode.Step): History
    requires w in s.workers
  {
    var h := s.hist;
    var wk := s.workers[w];
    match step
    case CmdBegin(t) => h.(beginner := h.beginner[t := w])
    case CmdJoin(t) => h.(joinSent := h.joinSent + {(t, w)})
    case CmdCommit => if wk.cur == 0 then h else h.(requested := h.requested[wk.cur := w])
    case SendVote =>
      if !wk.mode.Voting? || !WorkerNode.VotesCommit(wk) then h
      else
        h.(voted := h.voted + {(wk.mode.t, w)},
           overruled := if WorkerNode.HasRec(wk.log, WorkerNode.AbortRec, wk.mode.t) then h.overruled + {(wk.mode.t, w)} else h.overruled)
    case _ => h
  }

  function WorkerNext(s: State, w: NodeId, step: WorkerNode.Step): State
    requires w in s.workers && WorkerNode.Enabled(s.workers[w], step)
  {
    var wk := s.workers[w];
    var out := WorkerNode.Output(w, wk, step);
    var net := if step.Recv? then s.net - multiset{step.m} else s.net;
    s.(workers := s.workers[w := WorkerNode.Next(wk, step)],
       net := if out.Some? then net + multiset{out.value} else net,
       hist := WorkerHistory(s, w, step))
  }

  /** One pass of handleWorkerMsg up to its first send or append after the receive.
      `choice`: a JOIN of a live transaction meets no empty slot before its own. */
  function Handle(cfg: Config, s0: State, m: Msg, choice: bool, stale: nat): State {
    var s := s0.(net := s0.net - multiset{m});
    match m
    case Begin(t, w) =>
      var ok := t !in s.table;
      s.(table := if ok && |s.table| < MAX_TRANS then s.table[t := map[]] else s.table,
         net := s.net + multiset{BeginReply(t, w, ok)},
         hist := s.hist.(begun := s.hist.begun + {t}))
    case Join(t, w) =>
      var h := s.hist.(joinDone := s.hist.joinDone + {(t, w)});
      if t !in s.table || !choice then s.(net := s.net + multiset{JoinFail(t, w)}, hist := h)
      else if |s.table[t]| >= MAX_NODES then
        s.(net := s.net + multiset{JoinSuccess(t, w)}, mlog := s.mlog + [MJoin(t)], hist := h)
      else
        s.(table := s.table[t := SetVote(s.table[t], w, 0)],
           mlog := s.mlog + [MJoin(t)],
           net := s.net + multiset{JoinSuccess(t, w)},
           hist := h.(joined := h.joined + {(t, w)}))
    case CommitReq(t, w) =>
      s.(mlog := s.mlog + [MCommitReq(t)], mmode := MAsk(t, MemberSet(s.table, t)))
    case VoteAbort(t, w) =>
      s.(mlog := s.mlog + [MDecide(t, false)], mmode := MTell(t, false, MemberSet(s.table, t), {}, false))
    case VoteCommit(t, w) =>
      var table := StoreMessage(cfg, s.table, m);
      var h := if t in s.table && w in s.table[t] then s.hist.(counted := s.hist.counted + {(t, w)}) else s.hist;
      var d := Decision(table, s.mlog, t, stale);
      var s1 := s.(table := table, hist := h);
      if d == DECIDE_COMMIT then s1.(mmode := MLog(t))
      else if d == DECIDE_ABORT then s1.(net := s.net + multiset{Decide(t, w, false)})
      else s1
    case Poll(t, w) =>
      var table := StoreMessage(cfg, s.table, m);
      var d := Decision(table, s.mlog, t, stale);
      var s1 := s.(table := table);
      if d == DECIDE_COMMIT then s1.(net := s.net + multiset{Decide(t, w, true)})
      else if d == DECIDE_ABORT then s1.(net := s.net + multiset{Decide(t, w, false)})
      else s1
    case _ => s
  }

  function Undecided(s: State): set<Tid> {
    set t | t in s.table && !Logged(s.mlog, MDecide(t, true))
  }

  function Next(cfg: Config, s: State, l: Label): State
    requires Enabled(cfg, s, l)
  {
    match l
    case WorkerStep(w, step) => WorkerNext(s, w, step)
    case Lose(m) => s.(net := s.net - multiset{m})
    case MRecv(m, choice, stale) => Handle(cfg, s, m, choice, stale)
    case MAppendCommit =>
      var t := s.mmode.t;
      s.(mlog := s.mlog + [MDecide(t, true)], mmode := MTell(t, true, MemberSet(s.table, t), {}, false))
    case MSendOne(w) =>
      var t := s.mmode.t;
      s.(net := s.net + multiset{if s.mmode.MAsk? then Prepare(t, w) else Decide(t, w, s.mmode.commit)},
         mmode := s.mmode.(pending := s.mmode.pending - {w}))
    case MFinish =>
      if s.mmode.MAsk? then s.(mmode := MServe({}))
      else
        s.(table := if s.mmode.silent then s.table else s.table - {s.mmode.t}, mmode := MServe(s.mmode.todo))
    case MTimeout(t) =>
      s.(mlog := s.mlog + [MDecide(t, false)], mmode := MTell(t, false, MemberSet(s.table, t), {}, false))
    case MRecover(t) =>
      s.(mlog := if cfg.silentRestart then s.mlog else s.mlog + [MDecide(t, false)],
         mmode := MTell(t, false, MemberSet(s.table, t), s.mmode.todo - {t}, cfg.silentRestart))
    case MCrash => s.(mmode := MDown)
    case MCodedCrash => s.(table := s.table - {s.mmode.t}, mmode := MDown)
    case MRestart => s.(mmode := MServe(Undecided(s)))
  }

  ghost predicate Init(cfg: Config, s: State) {
    && s.workers.Keys == cfg.workers
    && (forall w :: w in s.workers ==>
        var wk := s.workers[w];
        wk.log == [] && wk.cur == 0 && !wk.run && !wk.refuse && wk.mode == WorkerNode.Ready && !wk.known && !wk.reach)
    && s.table == map[] && s.mlog == [] && s.mmode == MServe({}) && s.net == multiset{}
    && s.hist == History(map[], {}, {}, {}, {}, map[], {}, {}, {})
  }

  // ---------- runs ----------

  ghost predicate ValidRun(cfg: Config, s: State, ls: seq<Label>)
    decreases ls
  {
    ls == [] || (Enabled(cfg, s, ls[0]) && ValidRun(cfg, Next(cfg, s, ls[0]), ls[1..]))
  }

  function Exec(cfg: Config, s: State, ls: seq<Label>): State
    requires ValidRun(cfg, s, ls)
    decreases ls
  {
    if ls == [] then s else Exec(cfg, Next(cfg, s, ls[0]), ls[1..])
  }

  /** A state some run from an initial state ends in. */
  ghost predicate Reachable(cfg: Config, s: State) {
    exists s0: State, ls: seq<Label> :: Init(cfg, s0) && ValidRun(cfg, s0, ls) && Exec(cfg, s0, ls) == s
  }

  lemma {:induction false} ExecAppend(cfg: Config, s: State, ls: seq<Label>, l: Label)
    requires ValidRun(cfg, s, ls) && Enabled(cfg, Exec(cfg, s, ls), l)
    ensures ValidRun(cfg, s, ls + [l]) && Exec(cfg, s, ls + [l]) == Next(cfg, Exec(cfg, s, ls), l)
    decreases ls
  {
    if ls == [] {
      assert (ls + [l])[1..] == [];
    } else {
      assert (ls + [l])[1..] == ls[1..] + [l];
      ExecAppend(cfg, Next(cfg, s, ls[0]), ls[1..], l);
    }
  }

  lemma ReachableStep(cfg: Config, s: State, l: Label)
    requires Reachable(cfg, s) && Enabled(cfg, s, l)
    ensures Reachable(cfg, Next(cfg, s, l))
  {
    var s0: State, ls: seq<Label> :| Init(cfg, s0) && ValidRun(cfg, s0, ls) && Exec(cfg, s0, ls) == s;
    ExecAppend(cfg, s0, ls, l);
  }
}
