/** Each pass of the manager's loop is one exact run of the step system: which steps, in which order, is a function of
    the slots, the log and the message, and log, table and sends are those of that run. */
module ManagerServes {
  import opened Messages
  import opened TwoPhaseCommit
  import opened ManagerTable
  import opened ManagerProcess

  // ---------- runs of the manager alone, with what they send ----------

  predicate ByManager(l: Label) {
    !l.WorkerStep? && !l.Lose?
  }

  /** The reply of one pass to a poll, and to a vote that does not decide. */
  function Reply(t: Tid, w: NodeId, decision: nat, commitToo: bool): seq<Msg> {
    if decision == DECIDE_COMMIT && commitToo then [Decide(t, w, true)]
    else if decision == DECIDE_ABORT then [Decide(t, w, false)] else []
  }

  /** What a step of the manager sends, in order. */
  function ManagerOutput(cfg: Config, s: State, l: Label): seq<Msg>
    requires Enabled(cfg, s, l)
  {
    match l
    case MRecv(Begin(t, w), _, _) => [BeginReply(t, w, t !in s.table)]
    case MRecv(Join(t, w), choice, _) => [if t in s.table && choice then JoinSuccess(t, w) else JoinFail(t, w)]
    case MRecv(VoteCommit(t, w), _, stale) =>
      Reply(t, w, Decision(StoreMessage(cfg, s.table, VoteCommit(t, w)), s.mlog, t, stale), false)
    case MRecv(Poll(t, w), _, stale) =>
      Reply(t, w, Decision(StoreMessage(cfg, s.table, Poll(t, w)), s.mlog, t, stale), true)
    case MSendOne(w) => [if s.mmode.MAsk? then Prepare(s.mmode.t, w) else Decide(s.mmode.t, w, s.mmode.commit)]
    case _ => []
  }

  function Outputs(cfg: Config, s: State, ls: seq<Label>): seq<Msg>
    requires ValidRun(cfg, s, ls)
    decreases |ls|
  {
    if ls == [] then [] else ManagerOutput(cfg, s, ls[0]) + Outputs(cfg, Next(cfg, s, ls[0]), ls[1..])
  }

  /** The outputs are exactly what a step adds to the network; the workers do not move. */
  lemma OutputIsNet(cfg: Config, s: State, l: Label)
    requires Enabled(cfg, s, l) && ByManager(l)
    ensures var s' := Next(cfg, s, l);
      s'.workers == s.workers
      && s'.net == (if l.MRecv? then s.net - multiset{l.m} else s.net) + multiset(ManagerOutput(cfg, s, l))
  {
    if l.MRecv? {
      HandleOutput(cfg, s, l.m, l.choice, l.stale);
    } else {
      OwnOutput(cfg, s, l);
    }
  }

  lemma OwnOutput(cfg: Config, s: State, l: Label)
    requires Enabled(cfg, s, l) && ByManager(l) && !l.MRecv?
    ensures Next(cfg, s, l).workers == s.workers && Next(cfg, s, l).net == s.net + multiset(ManagerOutput(cfg, s, l))
  {
    hide WorkerNext, Handle, Decision, StoreMessage, TimesOut, Undecided;
  }

  lemma HandleOutput(cfg: Config, s: State, m: Msg, choice: bool, stale: nat)
    requires Enabled(cfg, s, MRecv(m, choice, stale))
    ensures var s' := Handle(cfg, s, m, choice, stale);
      s'.workers == s.workers && s'.net == s.net - multiset{m} + multiset(ManagerOutput(cfg, s, MRecv(m, choice, stale)))
  {
    match m {
      case VoteCommit(t, w) => VoteOutput(cfg, s, t, w, choice, stale);
      case Poll(t, w) => PollOutput(cfg, s, t, w, choice, stale);
      case _ => PlainOutput(cfg, s, m, choice, stale);
    }
  }

  lemma PlainOutput(cfg: Config, s: State, m: Msg, choice: bool, stale: nat)
    requires Enabled(cfg, s, MRecv(m, choice, stale)) && !m.VoteCommit? && !m.Poll?
    ensures var s' := Handle(cfg, s, m, choice, stale);
      s'.workers == s.workers && s'.net == s.net - multiset{m} + multiset(ManagerOutput(cfg, s, MRecv(m, choice, stale)))
  {
    hide Decision, StoreMessage, SetVote, MemberSet, TimesOut, Next, Reply;
  }

  lemma VoteOutput(cfg: Config, s: State, t: Tid, w: NodeId, choice: bool, stale: nat)
    requires Enabled(cfg, s, MRecv(VoteCommit(t, w), choice, stale))
    ensures var s' := Handle(cfg, s, VoteCommit(t, w), choice, stale);
      s'.workers == s.workers
      && s'.net == s.net - multiset{VoteCommit(t, w)} + multiset(ManagerOutput(cfg, s, MRecv(VoteCommit(t, w), choice, stale)))
  {
    hide Decision, StoreMessage, SetVote, MemberSet, TimesOut, Next;
  }

  lemma PollOutput(cfg: Config, s: State, t: Tid, w: NodeId, choice: bool, stale: nat)
    requires Enabled(cfg, s, MRecv(Poll(t, w), choice, stale))
    ensures var s' := Handle(cfg, s, Poll(t, w), choice, stale);
      s'.workers == s.workers
      && s'.net == s.net - multiset{Poll(t, w)} + multiset(ManagerOutput(cfg, s, MRecv(Poll(t, w), choice, stale)))
  {
    hide Decision, StoreMessage, SetVote, MemberSet, TimesOut, Next;
  }

  /** The labels `ls` are a run from `s` to `s'` that sends `out`. */
  ghost predicate Runs(cfg: Config, s: State, ls: seq<Label>, s': State, out: seq<Msg>) {
    ValidRun(cfg, s, ls) && Exec(cfg, s, ls) == s' && Outputs(cfg, s, ls) == out
  }

  lemma RunsSelf(cfg: Config, s: State)
    ensures Runs(cfg, s, [], s, [])
  {
  }

  lemma {:induction false} OutputsAppend(cfg: Config, s: State, ls: seq<Label>, l: Label)
    requires ValidRun(cfg, s, ls) && Enabled(cfg, Exec(cfg, s, ls), l)
    ensures ValidRun(cfg, s, ls + [l])
    ensures Outputs(cfg, s, ls + [l]) == Outputs(cfg, s, ls) + ManagerOutput(cfg, Exec(cfg, s, ls), l)
    decreases |ls|
  {
    hide Next, Enabled, ManagerOutput;
    ExecAppend(cfg, s, ls, l);
    if ls == [] {
      assert (ls + [l])[1..] == [];
    } else {
      assert (ls + [l])[1..] == ls[1..] + [l];
      OutputsAppend(cfg, Next(cfg, s, ls[0]), ls[1..], l);
    }
  }

  lemma RunsOn(cfg: Config, s: State, ls: seq<Label>, s': State, out: seq<Msg>, l: Label)
    requires Runs(cfg, s, ls, s', out) && Enabled(cfg, s', l)
    ensures Runs(cfg, s, ls + [l], Next(cfg, s', l), out + ManagerOutput(cfg, s', l))
  {
    hide Next, Enabled, ManagerOutput;
    ExecAppend(cfg, s, ls, l);
    OutputsAppend(cfg, s, ls, l);
  }

  // ---------- sending to the seats one by one ----------

  function SendLabels(ws: seq<Seat>): seq<Label> {
    if ws == [] then [] else (if ws[0].nodeId != 0 then [MSendOne(ws[0].nodeId)] else []) + SendLabels(ws[1..])
  }

  /** What a broadcasting mode sends. */
  function ModeNotice(mode: MMode): Notice
    requires mode.MAsk? || mode.MTell?
  {
    if mode.MAsk? then AskAll else TellAll(mode.commit)
  }

  lemma {:induction false} SendAll(cfg: Config, s0: State, ls: seq<Label>, s: State, out: seq<Msg>, ws: seq<Seat>) returns (s': State)
    requires Runs(cfg, s0, ls, s, out) && SeatsOk(ws) && (s.mmode.MAsk? || s.mmode.MTell?)
    requires s.mmode.pending == MembersOf(ws).Keys
    ensures Runs(cfg, s0, ls + SendLabels(ws), s', out + Broadcast(ws, ModeNotice(s.mmode), s.mmode.t))
    ensures s' == s.(net := s'.net, mmode := s.mmode.(pending := {}))
    decreases |ws|
  {
    hide Runs, SeatsOk, MembersOf, SendLabels, Broadcast, Note;
    s' := s;
    var n, t := ModeNotice(s.mmode), s.mmode.t;
    if ws == [] {
      NoMembers();
      NoSends(n, t);
      assert ls + [] == ls && out + [] == out;
    } else {
      HeadMember(ws);
      HeadSends(ws, n, t, ls, out);
      if ws[0].nodeId == 0 {
        s' := SendAll(cfg, s0, ls, s, out, ws[1..]);
      } else {
        var w := ws[0].nodeId;
        var s1 := SendStep(cfg, s0, ls, s, out, w);
        assert s1.mmode.pending == MembersOf(ws[1..]).Keys;
        s' := SendAll(cfg, s0, ls + [MSendOne(w)], s1, out + [Note(n, t, w)], ws[1..]);
      }
    }
  }

  lemma NoSends(n: Notice, t: Tid)
    ensures SendLabels([]) == [] && Broadcast([], n, t) == []
  {
  }

  /** The first seat's share of a broadcast. */
  lemma HeadSends(ws: seq<Seat>, n: Notice, t: Tid, ls: seq<Label>, out: seq<Msg>)
    requires ws != [] && SeatsOk(ws)
    ensures ws[0].nodeId == 0 ==> SendLabels(ws) == SendLabels(ws[1..]) && Broadcast(ws, n, t) == Broadcast(ws[1..], n, t)
    ensures ws[0].nodeId != 0 ==>
      && ls + [MSendOne(ws[0].nodeId)] + SendLabels(ws[1..]) == ls + SendLabels(ws)
      && out + [Note(n, t, ws[0].nodeId)] + Broadcast(ws[1..], n, t) == out + Broadcast(ws, n, t)
  {
    assert [] + SendLabels(ws[1..]) == SendLabels(ws[1..]) && [] + Broadcast(ws[1..], n, t) == Broadcast(ws[1..], n, t);
  }

  lemma NoMembers()
    ensures MembersOf([]).Keys == {}
  {
  }

  lemma SendStep(cfg: Config, s0: State, ls: seq<Label>, s: State, out: seq<Msg>, w: NodeId) returns (s': State)
    requires Runs(cfg, s0, ls, s, out) && (s.mmode.MAsk? || s.mmode.MTell?) && w in s.mmode.pending
    ensures Runs(cfg, s0, ls + [MSendOne(w)], s', out + [Note(ModeNotice(s.mmode), s.mmode.t, w)])
    ensures s' == s.(net := s'.net, mmode := s.mmode.(pending := s.mmode.pending - {w}))
  {
    hide Runs;
    RunsOn(cfg, s0, ls, s, out, MSendOne(w));
    s' := Next(cfg, s, MSendOne(w));
  }

  lemma FinishStep(cfg: Config, s0: State, ls: seq<Label>, s: State, out: seq<Msg>) returns (s': State)
    requires Runs(cfg, s0, ls, s, out) && (s.mmode.MAsk? || s.mmode.MTell?) && s.mmode.pending == {}
    ensures Runs(cfg, s0, ls + [MFinish], s', out)
    ensures s' == s.(mmode := MServe(if s.mmode.MAsk? then {} else s.mmode.todo),
                     table := if s.mmode.MAsk? || s.mmode.silent then s.table else s.table - {s.mmode.t})
  {
    hide Runs;
    RunsOn(cfg, s0, ls, s, out, MFinish);
    s' := Next(cfg, s, MFinish);
    assert out + [] == out;
  }

  /** Broadcast to the members of the mode's transaction, then leave the mode. */
  lemma SendAndFinish(cfg: Config, s0: State, ls: seq<Label>, s: State, out: seq<Msg>, ss: seq<Slot>) returns (s': State)
    requires Runs(cfg, s0, ls, s, out) && (s.mmode.MAsk? || s.mmode.MTell?)
    requires SlotsOk(ss) && s.table == TableOf(ss) && s.mmode.pending == MemberSet(s.table, s.mmode.t)
    ensures var ws := SeatsOf(ss, s.mmode.t);
      Runs(cfg, s0, ls + (SendLabels(ws) + [MFinish]), s', out + Broadcast(ws, ModeNotice(s.mmode), s.mmode.t))
    ensures s' == s.(net := s'.net, mmode := MServe(if s.mmode.MAsk? then {} else s.mmode.todo),
                     table := if s.mmode.MAsk? || s.mmode.silent then s.table else s.table - {s.mmode.t})
  {
    hide Runs, SlotsOk, TableOf, MembersOf, SeatsOk;
    var ws := SeatsOf(ss, s.mmode.t);
    SeatsMembers(ss, s.mmode.t);
    s' := SendAll(cfg, s0, ls, s, out, ws);
    s' := FinishStep(cfg, s0, ls + SendLabels(ws), s', out + Broadcast(ws, ModeNotice(s.mmode), s.mmode.t));
    assert ls + SendLabels(ws) + [MFinish] == ls + (SendLabels(ws) + [MFinish]);
  }

  lemma SeatsMembers(ss: seq<Slot>, t: Tid)
    requires SlotsOk(ss)
    ensures SeatsOk(SeatsOf(ss, t)) && MembersOf(SeatsOf(ss, t)).Keys == MemberSet(TableOf(ss), t)
  {
    TableChar(ss);
    NotLive(ss, t);
  }

  // ---------- the steps of one pass ----------

  /** A JOIN finds its own slot before an empty one. */
  predicate JoinFinds(ss: seq<Slot>, t: Tid) {
    StopAt(ss, t) < |ss| && ss[StopAt(ss, t)].tid == t
  }

  /** After DECIDE is logged: the crash the transaction's flag asks for, or the broadcast and the cleaning. */
  function ConcludeLabels(ss: seq<Slot>, t: Tid, crash: bool): seq<Label> {
    if crash then [MCodedCrash] else SendLabels(SeatsOf(ss, t)) + [MFinish]
  }

  function Stored(ss: seq<Slot>, m: Msg): seq<Slot> {
    match m
    case VoteCommit(t, w) => StoredSlots(ss, t, w, VOTE_COMMIT)
    case Poll(t, w) => StoredSlots(ss, t, w, POLL_DECISION)
    case _ => ss
  }

  /** The pass of handleWorkerMsg on one message, as written. */
  function PassLabels(ss: seq<Slot>, mlog: seq<MRecord>, m: Msg, stale: nat, crash: bool): seq<Label> {
    var receive := [MRecv(m, m.Join? && JoinFinds(ss, m.t), Held(ss, mlog, m.t, stale))];
    match m
    case CommitReq(t, _) => receive + (SendLabels(SeatsOf(ss, t)) + [MFinish])
    case VoteAbort(t, _) => receive + ConcludeLabels(ss, t, crash)
    case VoteCommit(t, _) =>
      if SlotDecision(Stored(ss, m), mlog, t, stale) == DECIDE_COMMIT then
        receive + [MAppendCommit] + ConcludeLabels(Stored(ss, m), t, crash)
      else receive
    case _ => receive
  }

  predicate OwnSteps(ls: seq<Label>) {
    forall i :: 0 <= i < |ls| ==> ByManager(ls[i]) && !ls[i].MRecv?
  }

  lemma {:induction false} OwnRun(cfg: Config, s: State, ls: seq<Label>)
    requires ValidRun(cfg, s, ls) && OwnSteps(ls)
    ensures Exec(cfg, s, ls).workers == s.workers && Exec(cfg, s, ls).net == s.net + multiset(Outputs(cfg, s, ls))
    decreases |ls|
  {
    hide Next, Enabled, ManagerOutput;
    if ls != [] {
      OutputIsNet(cfg, s, ls[0]);
      OwnRun(cfg, Next(cfg, s, ls[0]), ls[1..]);
    }
  }

  lemma {:induction false} SendsAreOwn(ws: seq<Seat>)
    ensures OwnSteps(SendLabels(ws)) && OwnSteps(SendLabels(ws) + [MFinish])
  {
    if ws != [] { SendsAreOwn(ws[1..]); }
  }

  lemma ConcludeIsOwn(ss: seq<Slot>, t: Tid, crash: bool)
    ensures OwnSteps(ConcludeLabels(ss, t, crash)) && OwnSteps([MAppendCommit] + ConcludeLabels(ss, t, crash))
  {
    hide SendLabels, SeatsOf;
    SendsAreOwn(SeatsOf(ss, t));
  }

  lemma PassShape(ss: seq<Slot>, mlog: seq<MRecord>, m: Msg, stale: nat, crash: bool)
    ensures var ls := PassLabels(ss, mlog, m, stale, crash); ls != [] && ls[0].MRecv? && ls[0].m == m && OwnSteps(ls[1..])
  {
    hide SendLabels, ConcludeLabels, SeatsOf, SlotDecision, StoredSlots, Held, OwnSteps;
    var ls := PassLabels(ss, mlog, m, stale, crash);
    assert OwnSteps([]) by { NoSteps(); }
    match m {
      case CommitReq(t, _) =>
        SendsAreOwn(SeatsOf(ss, t));
        assert ls[1..] == SendLabels(SeatsOf(ss, t)) + [MFinish];
      case VoteAbort(t, _) =>
        ConcludeIsOwn(ss, t, crash);
        assert ls[1..] == ConcludeLabels(ss, t, crash);
      case VoteCommit(t, _) =>
        ConcludeIsOwn(Stored(ss, m), t, crash);
        assert ls[1..] == [] || ls[1..] == [MAppendCommit] + ConcludeLabels(Stored(ss, m), t, crash);
      case _ => assert ls[1..] == [];
    }
  }

  lemma NoSteps()
    ensures OwnSteps([])
  {
  }

  /** A pass takes its message from the network and adds exactly its outputs; no message is lost and no worker moves. */
  lemma {:induction false} PassNet(cfg: Config, s: State, ss: seq<Slot>, mlog: seq<MRecord>, m: Msg, stale: nat, crash: bool)
    requires ValidRun(cfg, s, PassLabels(ss, mlog, m, stale, crash))
    ensures var ls := PassLabels(ss, mlog, m, stale, crash);
      Exec(cfg, s, ls).workers == s.workers && Exec(cfg, s, ls).net == s.net - multiset{m} + multiset(Outputs(cfg, s, ls))
  {
    hide Next, Enabled, ManagerOutput, PassLabels, OwnSteps;
    var ls := PassLabels(ss, mlog, m, stale, crash);
    PassShape(ss, mlog, m, stale, crash);
    OutputIsNet(cfg, s, ls[0]);
    OwnRun(cfg, Next(cfg, s, ls[0]), ls[1..]);
  }

  ghost predicate Mirrors(mgr: Manager, s: State)
    reads mgr, mgr.slots
  {
    mgr.Valid() && s.table == mgr.Table() && s.mlog == mgr.log && NoAbortStored(s.table)
  }

  /** What the environment keeps from happening: BEGIN for a live tid behind a free slot, a second JOIN of the same worker, and a
      JOIN that finds every slot taken by other transactions. */
  ghost predicate Admissible(mgr: Manager, m: Msg)
    reads mgr, mgr.slots
  {
    && m.ToManager() && m.w != 0
    && (m.Begin? ==> m.t != 0 && (m.t in mgr.Table() ==>
          StopAt(mgr.slots[..], m.t) < |mgr.slots[..]| && mgr.slots[..][StopAt(mgr.slots[..], m.t)].tid == m.t))
    && (m.Join? ==> m.t != 0 && StopAt(mgr.slots[..], m.t) < MAX_TRANS && (m.t in mgr.Table() ==> m.w !in mgr.Table()[m.t]))
  }

  /** The receive step itself. */
  lemma Received(cfg: Config, s: State, m: Msg, choice: bool, stale: nat) returns (s': State)
    requires s.mmode == MServe({}) && s.net[m] > 0 && m.ToManager()
    ensures Enabled(cfg, s, MRecv(m, choice, stale))
    ensures Runs(cfg, s, [MRecv(m, choice, stale)], s', ManagerOutput(cfg, s, MRecv(m, choice, stale)))
    ensures s' == Handle(cfg, s, m, choice, stale)
  {
    hide Runs, Handle, ManagerOutput;
    RunsSelf(cfg, s);
    var l := MRecv(m, choice, stale);
    RunsOn(cfg, s, [], s, [], l);
    assert [] + [l] == [l] && [] + ManagerOutput(cfg, s, l) == ManagerOutput(cfg, s, l);
    s' := Next(cfg, s, l);
  }

  /** What one pass is to be: the run `ls` of the step system, with the log, the table and the sends it has. */
  twostate predicate Served(mgr: Manager, cfg: Config, s: State, ls: seq<Label>, s': State)
    reads mgr, mgr.slots
  {
    && Mirrors(mgr, s') && ValidRun(cfg, s, ls) && s' == Exec(cfg, s, ls)
    && mgr.sent == old(mgr.sent) + Outputs(cfg, s, ls)
  }

  lemma CommitAppended(cfg: Config, s0: State, ls: seq<Label>, s: State, out: seq<Msg>) returns (s': State)
    requires Runs(cfg, s0, ls, s, out) && s.mmode.MLog?
    ensures Runs(cfg, s0, ls + [MAppendCommit], s', out)
    ensures s' == s.(mlog := s.mlog + [MDecide(s.mmode.t, true)],
                     mmode := MTell(s.mmode.t, true, MemberSet(s.table, s.mmode.t), {}, false))
  {
    hide Runs;
    RunsOn(cfg, s0, ls, s, out, MAppendCommit);
    s' := Next(cfg, s, MAppendCommit);
    assert out + [] == out;
  }

  lemma CodedCrash(cfg: Config, s0: State, ls: seq<Label>, s: State, out: seq<Msg>) returns (s': State)
    requires Runs(cfg, s0, ls, s, out) && s.mmode.MTell? && !s.mmode.silent && s.mmode.todo == {}
    requires s.mmode.pending == MemberSet(s.table, s.mmode.t)
    ensures Runs(cfg, s0, ls + [MCodedCrash], s', out) && s' == s.(table := s.table - {s.mmode.t}, mmode := MDown)
  {
    hide Runs;
    RunsOn(cfg, s0, ls, s, out, MCodedCrash);
    s' := Next(cfg, s, MCodedCrash);
    assert out + [] == out;
  }

  // ---------- the handler ----------

  /** The decision is logged: crash, or tell the members; then the slot is cleaned. */
  method Conclude(mgr: Manager, t: Tid, commit: bool, crash: bool, ghost cfg: Config, ghost s0: State, ghost ls: seq<Label>,
                  ghost s: State, ghost out: seq<Msg>)
    returns (down: bool, ghost s': State)
    requires Mirrors(mgr, s) && Runs(cfg, s0, ls, s, out) && s.mmode == MTell(t, commit, MemberSet(s.table, t), {}, false)
    modifies mgr`sent, mgr.slots
    ensures Runs(cfg, s0, ls + ConcludeLabels(old(mgr.slots[..]), t, crash), s',
                 out + if crash then [] else Broadcast(SeatsOf(old(mgr.slots[..]), t), TellAll(commit), t))
    ensures Mirrors(mgr, s') && down == crash && s'.mmode == if down then MDown else MServe({})
    ensures mgr.sent == old(mgr.sent) + if crash then [] else Broadcast(SeatsOf(old(mgr.slots[..]), t), TellAll(commit), t)
  {
    hide Runs, SlotsOk, TableOf, SeatsOf, SendLabels, Broadcast;
    ghost var ss := mgr.slots[..];
    if crash {
      mgr.CleanWorkerInfo(t);
      s' := CodedCrash(cfg, s0, ls, s, out);
      assert out + [] == out && mgr.sent + [] == mgr.sent;
    } else {
      s' := SendAndFinish(cfg, s0, ls, s, out, ss);
      mgr.SendToAllWorkers(TellAll(commit), t);
      mgr.CleanWorkerInfo(t);
    }
    down := crash;
  }

  lemma AbortReceived(cfg: Config, s: State, t: Tid, w: NodeId, stale: nat) returns (s': State)
    requires s.mmode == MServe({}) && s.net[VoteAbort(t, w)] > 0
    ensures Runs(cfg, s, [MRecv(VoteAbort(t, w), false, stale)], s', [])
    ensures s' == s.(net := s'.net, mlog := s.mlog + [MDecide(t, false)], mmode := MTell(t, false, MemberSet(s.table, t), {}, false))
  {
    hide Runs;
    s' := Received(cfg, s, VoteAbort(t, w), false, stale);
  }

  /** DECIDE_ABORT for VOTE_ABORT: log, crash if so flagged, else send to all; clean either way. */
  method ServeVoteAbort(mgr: Manager, t: Tid, w: NodeId, stale: nat, crash: bool, ghost cfg: Config, ghost s: State)
    returns (down: bool, ghost s': State)
    requires Mirrors(mgr, s) && s.mmode == MServe({}) && s.net[VoteAbort(t, w)] > 0
    modifies mgr, mgr.slots
    ensures Served(mgr, cfg, s, PassLabels(old(mgr.slots[..]), old(mgr.log), VoteAbort(t, w), stale, crash), s')
    ensures s'.mmode == if down then MDown else MServe({})
  {
    hide Runs, SlotsOk, TableOf, Held, ConcludeLabels, Broadcast, SeatsOf, Outputs, NoAbortStored;
    ghost var ss := mgr.slots[..];
    ghost var held := Held(ss, mgr.log, t, stale);
    s' := AbortReceived(cfg, s, t, w, held);
    ghost var ls := [MRecv(VoteAbort(t, w), false, held)];
    mgr.log := mgr.log + [MDecide(t, false)];
    down, s' := Conclude(mgr, t, false, crash, cfg, s, ls, s', []);
    ServedBy(cfg, s, ls + ConcludeLabels(ss, t, crash), s', [] + if crash then [] else Broadcast(SeatsOf(ss, t), TellAll(false), t));
  }

  lemma ServedBy(cfg: Config, s: State, ls: seq<Label>, s': State, out: seq<Msg>)
    requires Runs(cfg, s, ls, s', out)
    ensures ValidRun(cfg, s, ls) && s' == Exec(cfg, s, ls) && Outputs(cfg, s, ls) == out
  {
  }

  method ServeBegin(mgr: Manager, t: Tid, w: NodeId, stale: nat, crash: bool, ghost cfg: Config, ghost s: State) returns (ghost s': State)
    requires Mirrors(mgr, s) && s.mmode == MServe({}) && s.net[Begin(t, w)] > 0 && Admissible(mgr, Begin(t, w))
    modifies mgr, mgr.slots
    ensures Served(mgr, cfg, s, PassLabels(old(mgr.slots[..]), old(mgr.log), Begin(t, w), stale, crash), s')
    ensures s'.mmode == MServe({})
  {
    hide Runs, SlotsOk, TableOf, MembersOf;
    ghost var held := Held(mgr.slots[..], mgr.log, t, stale);
    s' := Received(cfg, s, Begin(t, w), false, held);
    ServedBy(cfg, s, [MRecv(Begin(t, w), false, held)], s', ManagerOutput(cfg, s, MRecv(Begin(t, w), false, held)));
    var ok := mgr.SaveBegin(t);
    mgr.sent := mgr.sent + [BeginReply(t, w, ok)];
  }

  method ServeJoin(mgr: Manager, t: Tid, w: NodeId, port: nat, stale: nat, crash: bool, ghost cfg: Config, ghost s: State)
    returns (ghost s': State)
    requires Mirrors(mgr, s) && s.mmode == MServe({}) && s.net[Join(t, w)] > 0 && Admissible(mgr, Join(t, w)) && port != 0
    modifies mgr, mgr.slots
    ensures Served(mgr, cfg, s, PassLabels(old(mgr.slots[..]), old(mgr.log), Join(t, w), stale, crash), s')
    ensures s'.mmode == MServe({})
  {
    hide Runs, SlotsOk, TableOf, MembersOf;
    ghost var held, choice := Held(mgr.slots[..], mgr.log, t, stale), JoinFinds(mgr.slots[..], t);
    s' := Received(cfg, s, Join(t, w), choice, held);
    ServedBy(cfg, s, [MRecv(Join(t, w), choice, held)], s', ManagerOutput(cfg, s, MRecv(Join(t, w), choice, held)));
    var ok := mgr.SaveJoin(t, w, port);
    if ok {
      mgr.log := mgr.log + [MJoin(t)];
    }
    mgr.sent := mgr.sent + [if ok then JoinSuccess(t, w) else JoinFail(t, w)];
  }

  method ServeCommitReq(mgr: Manager, t: Tid, w: NodeId, stale: nat, crash: bool, ghost cfg: Config, ghost s: State) returns (ghost s': State)
    requires Mirrors(mgr, s) && s.mmode == MServe({}) && s.net[CommitReq(t, w)] > 0
    modifies mgr, mgr.slots
    ensures Served(mgr, cfg, s, PassLabels(old(mgr.slots[..]), old(mgr.log), CommitReq(t, w), stale, crash), s')
    ensures s'.mmode == MServe({})
  {
    hide Runs, SlotsOk, TableOf, Held, SeatsOf, SendLabels, Broadcast, ValidRun, Exec, Outputs;
    ghost var ss := mgr.slots[..];
    ghost var held := Held(ss, mgr.log, t, stale);
    s' := Received(cfg, s, CommitReq(t, w), false, held);
    ghost var ls := [MRecv(CommitReq(t, w), false, held)];
    mgr.log := mgr.log + [MCommitReq(t)];
    s' := SendAndFinish(cfg, s, ls, s', [], ss);
    mgr.SendToAllWorkers(AskAll, t);
    ServedBy(cfg, s, ls + (SendLabels(SeatsOf(ss, t)) + [MFinish]), s', [] + Broadcast(SeatsOf(ss, t), AskAll, t));
  }

  /** Storing one more vote that is no abort. */
  lemma StoredNoAbort(table: map<Tid, Members>, t: Tid, w: NodeId, code: nat)
    requires NoAbortStored(table) && code != VOTE_ABORT && code != ABORT
    ensures NoAbortStored(StoreVote(table, t, w, code))
  {
  }

  lemma HeldSame(ss: seq<Slot>, t: Tid, w: NodeId, code: nat, mlog: seq<MRecord>, stale: nat)
    ensures Held(StoredSlots(ss, t, w, code), mlog, t, stale) == Held(ss, mlog, t, stale)
  {
    SameSlot(ss, StoredSlots(ss, t, w, code), 0);
  }

  lemma PollReceived(cfg: Config, s: State, t: Tid, w: NodeId, stale: nat, decision: nat) returns (s': State)
    requires s.mmode == MServe({}) && s.net[Poll(t, w)] > 0 && cfg.pollCounts
    requires decision == Decision(StoreVote(s.table, t, w, POLL_DECISION), s.mlog, t, stale)
    ensures Runs(cfg, s, [MRecv(Poll(t, w), false, stale)], s', Reply(t, w, decision, true))
    ensures s' == s.(table := StoreVote(s.table, t, w, POLL_DECISION), net := s'.net)
  {
    hide Runs, Decision, StoreVote;
    s' := Received(cfg, s, Poll(t, w), false, stale);
  }

  lemma VoteReceived(cfg: Config, s: State, t: Tid, w: NodeId, stale: nat, decision: nat) returns (s': State)
    requires s.mmode == MServe({}) && s.net[VoteCommit(t, w)] > 0
    requires decision == Decision(StoreVote(s.table, t, w, VOTE_COMMIT), s.mlog, t, stale)
    ensures Runs(cfg, s, [MRecv(VoteCommit(t, w), false, stale)], s', Reply(t, w, decision, false))
    ensures s' == s.(table := StoreVote(s.table, t, w, VOTE_COMMIT), net := s'.net, hist := s'.hist,
                     mmode := if decision == DECIDE_COMMIT then MLog(t) else MServe({}))
  {
    hide Runs, Decision, StoreVote;
    s' := Received(cfg, s, VoteCommit(t, w), false, stale);
  }

  method ServePoll(mgr: Manager, t: Tid, w: NodeId, stale: nat, crash: bool, ghost cfg: Config, ghost s: State) returns (ghost s': State)
    requires Mirrors(mgr, s) && s.mmode == MServe({}) && s.net[Poll(t, w)] > 0 && w != 0 && cfg.pollCounts
    modifies mgr, mgr.slots
    ensures Served(mgr, cfg, s, PassLabels(old(mgr.slots[..]), old(mgr.log), Poll(t, w), stale, crash), s')
    ensures s'.mmode == MServe({})
  {
    hide Runs, Decision, NoAbortStored, StoreVote, SlotsOk, TableOf, SlotDecision, Held, StoredSlots;
    ghost var held := Held(mgr.slots[..], mgr.log, t, stale);
    StoredNoAbort(s.table, t, w, POLL_DECISION);
    HeldSame(mgr.slots[..], t, w, POLL_DECISION, mgr.log, stale);
    var decision := mgr.CollectVote(POLL_DECISION, t, w, stale);
    SlotVerdict(mgr.slots[..], mgr.log, t, stale);
    s' := PollReceived(cfg, s, t, w, held, decision);
    ServedBy(cfg, s, [MRecv(Poll(t, w), false, held)], s', Reply(t, w, decision, true));
    mgr.sent := mgr.sent + Reply(t, w, decision, true);
  }

  method CollectCommit(mgr: Manager, t: Tid, w: NodeId, stale: nat, ghost cfg: Config, ghost s: State)
    returns (decision: nat, ghost s': State)
    requires Mirrors(mgr, s) && s.mmode == MServe({}) && s.net[VoteCommit(t, w)] > 0 && w != 0
    modifies mgr.slots
    ensures Mirrors(mgr, s') && mgr.slots[..] == StoredSlots(old(mgr.slots[..]), t, w, VOTE_COMMIT)
    ensures decision == SlotDecision(mgr.slots[..], mgr.log, t, stale)
    ensures Runs(cfg, s, [MRecv(VoteCommit(t, w), false, Held(old(mgr.slots[..]), mgr.log, t, stale))], s', Reply(t, w, decision, false))
    ensures s'.mmode == if decision == DECIDE_COMMIT then MLog(t) else MServe({})
  {
    hide Runs, Decision, NoAbortStored, StoreVote, SlotsOk, TableOf, SlotDecision, Held, StoredSlots;
    ghost var held := Held(mgr.slots[..], mgr.log, t, stale);
    StoredNoAbort(s.table, t, w, VOTE_COMMIT);
    HeldSame(mgr.slots[..], t, w, VOTE_COMMIT, mgr.log, stale);
    decision := mgr.CollectVote(VOTE_COMMIT, t, w, stale);
    SlotVerdict(mgr.slots[..], mgr.log, t, stale);
    s' := VoteReceived(cfg, s, t, w, held, decision);
  }

  lemma PassOfVote(ss: seq<Slot>, mlog: seq<MRecord>, t: Tid, w: NodeId, stale: nat, crash: bool)
    ensures var ss', receive := StoredSlots(ss, t, w, VOTE_COMMIT), [MRecv(VoteCommit(t, w), false, Held(ss, mlog, t, stale))];
      PassLabels(ss, mlog, VoteCommit(t, w), stale, crash) ==
        if SlotDecision(ss', mlog, t, stale) == DECIDE_COMMIT then receive + [MAppendCommit] + ConcludeLabels(ss', t, crash) else receive
  {
  }

  method ServeVoteCommit(mgr: Manager, t: Tid, w: NodeId, stale: nat, crash: bool, ghost cfg: Config, ghost s: State)
    returns (down: bool, ghost s': State)
    requires Mirrors(mgr, s) && s.mmode == MServe({}) && s.net[VoteCommit(t, w)] > 0 && w != 0
    modifies mgr, mgr.slots
    ensures Served(mgr, cfg, s, PassLabels(old(mgr.slots[..]), old(mgr.log), VoteCommit(t, w), stale, crash), s')
    ensures s'.mmode == if down then MDown else MServe({})
  {
    hide Runs, NoAbortStored, SlotsOk, TableOf, MembersOf, SlotDecision, Held, StoredSlots, ConcludeLabels, Broadcast, PassLabels,
      ValidRun, Exec, Outputs, SeatsOf;
    PassOfVote(mgr.slots[..], mgr.log, t, w, stale, crash);
    ghost var receive := [MRecv(VoteCommit(t, w), false, Held(mgr.slots[..], mgr.log, t, stale))];
    var decision;
    decision, s' := CollectCommit(mgr, t, w, stale, cfg, s);
    ghost var out := Reply(t, w, decision, false);
    down := false;
    if decision == DECIDE_COMMIT {
      ghost var ss := mgr.slots[..];
      s' := CommitAppended(cfg, s, receive, s', out);
      mgr.log := mgr.log + [MDecide(t, true)];
      down, s' := Conclude(mgr, t, true, crash, cfg, s, receive + [MAppendCommit], s', out);
      ServedBy(cfg, s, receive + [MAppendCommit] + ConcludeLabels(ss, t, crash), s',
               out + if crash then [] else Broadcast(SeatsOf(ss, t), TellAll(true), t));
    } else {
      ServedBy(cfg, s, receive, s', out);
      mgr.sent := mgr.sent + Reply(t, w, decision, false);
    }
  }

  /** handleWorkerMsg on one message. `crash` is the transaction's crash flag. */
  method HandleWorkerMsg(mgr: Manager, m: Msg, port: nat, stale: nat, crash: bool, ghost cfg: Config, ghost s: State)
    returns (down: bool, ghost s': State)
    requires Mirrors(mgr, s) && s.mmode == MServe({}) && s.net[m] > 0 && Admissible(mgr, m) && port != 0 && cfg.pollCounts
    modifies mgr, mgr.slots
    ensures Served(mgr, cfg, s, PassLabels(old(mgr.slots[..]), old(mgr.log), m, stale, crash), s')
    ensures s'.mmode == if down then MDown else MServe({})
  {
    down := false;
    match m {
      case Begin(t, w) => s' := ServeBegin(mgr, t, w, stale, crash, cfg, s);
      case Join(t, w) => s' := ServeJoin(mgr, t, w, port, stale, crash, cfg, s);
      case CommitReq(t, w) => s' := ServeCommitReq(mgr, t, w, stale, crash, cfg, s);
      case Poll(t, w) => s' := ServePoll(mgr, t, w, stale, crash, cfg, s);
      case VoteCommit(t, w) => down, s' := ServeVoteCommit(mgr, t, w, stale, crash, cfg, s);
      case VoteAbort(t, w) => down, s' := ServeVoteAbort(mgr, t, w, stale, crash, cfg, s);
    }
  }

  // ---------- the timeout branch ----------

  function TimeoutLabels(ss: seq<Slot>, mlog: seq<MRecord>): seq<Label> {
    var i := FirstRequested(ss, mlog);
    if i < |ss| then [MTimeout(ss[i].tid)] + (SendLabels(SeatsOf(ss, ss[i].tid)) + [MFinish]) else []
  }

  /** The first slot with a request has DECIDE_ABORT logged, broadcast to its seats and its transaction cleaned; if there
      is none, nothing happens. */
  method HandleTimeout(mgr: Manager, ghost cfg: Config, ghost s: State) returns (ghost s': State)
    requires Mirrors(mgr, s) && s.mmode == MServe({}) && cfg.codedCompare
    modifies mgr, mgr.slots
    ensures Served(mgr, cfg, s, TimeoutLabels(old(mgr.slots[..]), old(mgr.log)), s') && s'.mmode == MServe({})
    ensures var ss, i := old(mgr.slots[..]), FirstRequested(old(mgr.slots[..]), old(mgr.log));
      if i < |ss| then
        && mgr.log == old(mgr.log) + [MDecide(ss[i].tid, false)] && mgr.Table() == old(mgr.Table()) - {ss[i].tid}
        && mgr.sent == old(mgr.sent) + Broadcast(SeatsOf(ss, ss[i].tid), TellAll(false), ss[i].tid)
      else mgr.log == old(mgr.log) && mgr.Table() == old(mgr.Table()) && mgr.sent == old(mgr.sent)
  {
    hide Runs, SlotsOk, TableOf, SendLabels, Broadcast, SeatsOf, ValidRun, Exec, Outputs;
    ghost var ss := mgr.slots[..];
    RunsSelf(cfg, s);
    var waiting, t := mgr.WaitingForVotes();
    s' := s;
    if waiting {
      TimesOutHere(cfg, s, ss);
      s' := TimedOut(cfg, s, t);
      mgr.log := mgr.log + [MDecide(t, false)];
      s' := SendAndFinish(cfg, s, [MTimeout(t)], s', [], ss);
      mgr.SendToAllWorkers(TellAll(false), t);
      mgr.CleanWorkerInfo(t);
      ghost var out := Broadcast(SeatsOf(ss, t), TellAll(false), t);
      assert [] + out == out;
      ServedBy(cfg, s, [MTimeout(t)] + (SendLabels(SeatsOf(ss, t)) + [MFinish]), s', out);
    } else {
      ServedBy(cfg, s, [], s, []);
      assert mgr.sent + [] == mgr.sent;
    }
  }

  lemma TimesOutHere(cfg: Config, s: State, ss: seq<Slot>)
    requires cfg.codedCompare && SlotsOk(ss) && s.table == TableOf(ss) && FirstRequested(ss, s.mlog) < |ss|
    ensures var t := ss[FirstRequested(ss, s.mlog)].tid; (t == 0 || t in s.table) && TimesOut(cfg, s.mlog, t)
  {
    TableChar(ss);
  }

  lemma TimedOut(cfg: Config, s: State, t: Tid) returns (s': State)
    requires s.mmode == MServe({}) && (t == 0 || t in s.table) && TimesOut(cfg, s.mlog, t)
    ensures Runs(cfg, s, [MTimeout(t)], s', [])
    ensures s' == s.(mlog := s.mlog + [MDecide(t, false)], mmode := MTell(t, false, MemberSet(s.table, t), {}, false))
  {
    hide Runs, TimesOut;
    RunsSelf(cfg, s);
    RunsOn(cfg, s, [], s, [], MTimeout(t));
    s' := Next(cfg, s, MTimeout(t));
    var none: seq<Msg> := [];
    assert [] + [MTimeout(t)] == [MTimeout(t)] && none + ManagerOutput(cfg, s, MTimeout(t)) == none;
  }

  // ---------- the restart branch of main ----------

  /** Undecided transactions whose slot is not before `k`. */
  function TodoFrom(s: State, ss: seq<Slot>, k: nat): set<Tid> {
    set t | t in Undecided(s) && SlotOf(ss, t) >= k
  }

  predicate Open(ss: seq<Slot>, mlog: seq<MRecord>, k: nat)
    requires k < |ss|
  {
    ss[k].tid != 0 && !Logged(mlog, MDecide(ss[k].tid, true))
  }

  function SlotLabels(ss: seq<Slot>, mlog: seq<MRecord>, k: nat): seq<Label>
    requires k < |ss|
  {
    if Open(ss, mlog, k) then [MRecover(ss[k].tid)] + (SendLabels(ss[k].workers) + [MFinish]) else []
  }

  function SlotOutput(ss: seq<Slot>, mlog: seq<MRecord>, k: nat): seq<Msg>
    requires k < |ss|
  {
    if Open(ss, mlog, k) then Broadcast(ss[k].workers, TellAll(false), ss[k].tid) else []
  }

  /** The restart's steps for the first `n` slots. */
  function RestartLabels(ss: seq<Slot>, mlog: seq<MRecord>, n: nat): seq<Label>
    requires n <= |ss|
  {
    if n == 0 then [MRestart] else RestartLabels(ss, mlog, n - 1) + SlotLabels(ss, mlog, n - 1)
  }

  /** What it sends: DECIDE_ABORT to the seats of every undecided transaction, slot by slot. */
  function RestartOutput(ss: seq<Slot>, mlog: seq<MRecord>, n: nat): seq<Msg>
    requires n <= |ss|
  {
    if n == 0 then [] else RestartOutput(ss, mlog, n - 1) + SlotOutput(ss, mlog, n - 1)
  }

  lemma SlotOfLive(ss: seq<Slot>, k: nat)
    requires SlotsOk(ss) && k < |ss| && ss[k].tid != 0
    ensures SlotOf(ss, ss[k].tid) == k && ss[k].tid in TableOf(ss) && SeatsOf(ss, ss[k].tid) == ss[k].workers
  {
    TableChar(ss);
    var i := SlotOf(ss, ss[k].tid);
  }

  lemma TodoStep(s: State, ss: seq<Slot>, k: nat)
    requires SlotsOk(ss) && k < |ss| && s.table == TableOf(ss)
    ensures if Open(ss, s.mlog, k) then ss[k].tid in TodoFrom(s, ss, k) && TodoFrom(s, ss, k + 1) == TodoFrom(s, ss, k) - {ss[k].tid}
      else TodoFrom(s, ss, k + 1) == TodoFrom(s, ss, k)
  {
    TableChar(ss);
    var t := ss[k].tid;
    if t != 0 { SlotOfLive(ss, k); }
    forall u | u in Undecided(s) && SlotOf(ss, u) == k ensures u == t {}
  }

  lemma Restarted(cfg: Config, s: State) returns (s': State)
    requires s.mmode == MDown
    ensures Runs(cfg, s, [MRestart], s', []) && s' == s.(mmode := MServe(Undecided(s)))
  {
    hide Runs, Undecided;
    RunsSelf(cfg, s);
    RunsOn(cfg, s, [], s, [], MRestart);
    s' := Next(cfg, s, MRestart);
    var none: seq<Msg> := [];
    assert [] + [MRestart] == [MRestart] && none + ManagerOutput(cfg, s, MRestart) == none;
  }

  lemma Recovering(cfg: Config, s0: State, ls: seq<Label>, s: State, out: seq<Msg>, t: Tid) returns (s': State)
    requires Runs(cfg, s0, ls, s, out) && cfg.silentRestart && s.mmode.MServe? && t in s.mmode.todo
    ensures Runs(cfg, s0, ls + [MRecover(t)], s', out)
    ensures s' == s.(mmode := MTell(t, false, MemberSet(s.table, t), s.mmode.todo - {t}, true))
  {
    hide Runs;
    RunsOn(cfg, s0, ls, s, out, MRecover(t));
    s' := Next(cfg, s, MRecover(t));
    assert out + [] == out;
  }

  /** The silent abort of one transaction. */
  lemma AbortSilently(cfg: Config, s0: State, ls: seq<Label>, s: State, out: seq<Msg>, ss: seq<Slot>, k: nat) returns (s': State)
    requires Runs(cfg, s0, ls, s, out) && cfg.silentRestart && SlotsOk(ss) && s.table == TableOf(ss) && k < |ss| && ss[k].tid != 0
    requires s.mmode.MServe? && ss[k].tid in s.mmode.todo
    ensures Runs(cfg, s0, ls + ([MRecover(ss[k].tid)] + (SendLabels(ss[k].workers) + [MFinish])), s',
                 out + Broadcast(ss[k].workers, TellAll(false), ss[k].tid))
    ensures s' == s.(net := s'.net, mmode := MServe(s.mmode.todo - {ss[k].tid}))
  {
    hide Runs, SlotsOk, TableOf, SendLabels;
    var t := ss[k].tid;
    SlotOfLive(ss, k);
    s' := Recovering(cfg, s0, ls, s, out, t);
    s' := SendAndFinish(cfg, s0, ls + [MRecover(t)], s', out, ss);
    assert ls + [MRecover(t)] + (SendLabels(ss[k].workers) + [MFinish]) == ls + ([MRecover(t)] + (SendLabels(ss[k].workers) + [MFinish]));
  }

  /** The steps and sends of the slots before `k`, as a run from the crash. */
  ghost predicate RestartedTo(cfg: Config, s0: State, ss: seq<Slot>, k: nat, s: State)
    requires k <= |ss|
  {
    && Runs(cfg, s0, RestartLabels(ss, s0.mlog, k), s, RestartOutput(ss, s0.mlog, k))
    && s == s0.(net := s.net, mmode := MServe(TodoFrom(s0, ss, k)))
  }

  /** One slot of the restart, on the model's side. */
  lemma RestartStep(cfg: Config, s0: State, ss: seq<Slot>, k: nat, s: State) returns (s': State)
    requires cfg.silentRestart && SlotsOk(ss) && s0.table == TableOf(ss) && k < |ss| && RestartedTo(cfg, s0, ss, k, s)
    ensures RestartedTo(cfg, s0, ss, k + 1, s')
  {
    hide Runs, SlotsOk, TableOf, TodoFrom, SendLabels, Broadcast;
    TodoStep(s0, ss, k);
    if Open(ss, s0.mlog, k) {
      s' := AbortSilently(cfg, s0, RestartLabels(ss, s0.mlog, k), s, RestartOutput(ss, s0.mlog, k), ss, k);
    } else {
      s' := s;
      assert RestartLabels(ss, s0.mlog, k) + [] == RestartLabels(ss, s0.mlog, k);
      assert RestartOutput(ss, s0.mlog, k) + [] == RestartOutput(ss, s0.mlog, k);
    }
  }

  lemma {:induction false} RestartRun(cfg: Config, s0: State, ss: seq<Slot>, k: nat) returns (s: State)
    requires cfg.silentRestart && s0.mmode == MDown && SlotsOk(ss) && s0.table == TableOf(ss) && k <= |ss|
    ensures RestartedTo(cfg, s0, ss, k, s)
  {
    if k == 0 {
      hide Runs, TodoFrom, Undecided;
      NoneBefore(s0, ss);
      s := Restarted(cfg, s0);
    } else {
      hide RestartedTo, SlotsOk, TableOf;
      s := RestartRun(cfg, s0, ss, k - 1);
      s := RestartStep(cfg, s0, ss, k - 1, s);
    }
  }

  lemma RestartDone(cfg: Config, s0: State, ss: seq<Slot>) returns (s: State)
    requires cfg.silentRestart && s0.mmode == MDown && SlotsOk(ss) && s0.table == TableOf(ss)
    ensures ValidRun(cfg, s0, RestartLabels(ss, s0.mlog, |ss|)) && s == Exec(cfg, s0, RestartLabels(ss, s0.mlog, |ss|))
    ensures Outputs(cfg, s0, RestartLabels(ss, s0.mlog, |ss|)) == RestartOutput(ss, s0.mlog, |ss|)
    ensures s == s0.(net := s.net, mmode := MServe({}))
  {
    s := RestartRun(cfg, s0, ss, |ss|);
    NoneAfter(s0, ss);
    hide SlotsOk, TableOf, ValidRun, Exec, Outputs, RestartLabels, RestartOutput, TodoFrom;
  }

  /** As written: every member of every undecided transaction is sent DECIDE_ABORT, and nobody else anything; log and
      table stay as they are. */
  method Restart(mgr: Manager, ghost cfg: Config, ghost s: State) returns (ghost s': State)
    requires Mirrors(mgr, s) && s.mmode == MDown && cfg.silentRestart
    modifies mgr`sent
    ensures Served(mgr, cfg, s, RestartLabels(mgr.slots[..], mgr.log, MAX_TRANS), s') && s'.mmode == MServe({})
    ensures mgr.sent == old(mgr.sent) + RestartOutput(mgr.slots[..], mgr.log, MAX_TRANS)
  {
    hide SlotsOk, TableOf, ValidRun, Exec, Outputs, RestartLabels, SlotOutput, NoAbortStored;
    ghost var ss := mgr.slots[..];
    s' := RestartDone(cfg, s, ss);
    assert mgr.sent + [] == mgr.sent;
    var k := 0;
    while k < MAX_TRANS
      invariant 0 <= k <= MAX_TRANS && mgr.sent == old(mgr.sent) + RestartOutput(ss, s.mlog, k)
    {
      RestartSlot(mgr, k);
      k := k + 1;
    }
  }

  /** One slot of the restart loop: nothing, or DECIDE_ABORT to every member of an undecided transaction. */
  method RestartSlot(mgr: Manager, k: nat)
    requires mgr.Valid() && k < MAX_TRANS
    modifies mgr`sent
    ensures mgr.sent == old(mgr.sent) + SlotOutput(mgr.slots[..], mgr.log, k)
  {
    hide SlotsOk, TableOf, Broadcast;
    var t := mgr.slots[k].tid;
    var committed := mgr.IsCommit(t);
    if t != 0 { SlotOfLive(mgr.slots[..], k); }
    assert mgr.sent + [] == mgr.sent;
    if !committed {
      SilentSeats(t);
      mgr.SendToAllWorkers(TellAll(false), t);
    }
  }

  lemma SilentSeats(t: Tid)
    ensures Broadcast([], TellAll(false), t) == []
  {
  }

  lemma NoneBefore(s: State, ss: seq<Slot>)
    ensures TodoFrom(s, ss, 0) == Undecided(s)
  {
  }

  lemma NoneAfter(s: State, ss: seq<Slot>)
    requires SlotsOk(ss) && s.table == TableOf(ss)
    ensures TodoFrom(s, ss, |ss|) == {}
  {
    TableChar(ss);
    forall t | t in s.table ensures SlotOf(ss, t) < |ss| {
      var i :| 0 <= i < |ss| && ss[i].tid == t;
    }
  }
}
