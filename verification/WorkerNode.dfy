/** One transaction worker as a sequence of atomic steps: every log append, store
    write and send is a step of its own, and the worker may crash between any two
    (transaction_management/tworker.c). */
module WorkerNode {
  import opened Messages

  datatype Kind =
    | JoinRec | NewARec | NewBRec | NewIdRec | CommitRec | AbortRec
    | PrepareRec | VoteRec | DecideCommitRec | DecideAbortRec

  /** A log record. `oldValue` matters for NewARec and NewBRec, `oldId` for NewIdRec,
      `clock` and `time` for JoinRec; the program leaves the others stale. */
  datatype Record = Record(kind: Kind, tid: Tid, oldValue: int, oldId: string, clock: seq<Entry>, time: int)

  /** The durable object store. */
  datatype Store = Store(a: int, b: int, id: string, clock: seq<Entry>, updated: int)

  datatype Update = SetA(value: int) | SetB(value: int) | SetId(name: string)

  /** Where the worker stands between two atomic steps. */
  datatype Mode =
    | Ready                             // waiting for a command or a manager message
    | Waiting                           // blocked in waitingForCoordResponse
    | Down                              // crashed
    | Writing(u: Update)                // undo record appended (inside a transaction), value not yet written
    | Stamping(u: Update)               // value written, time and clock not yet
    | Aborting                          // rolled back, ABORT not yet appended
    | Committing                        // COMMIT appended, request not yet sent
    | Voting(t: Tid)                    // PREPARE_COMMIT appended, vote not yet sent
    | Voted(t: Tid)                     // vote sent, VOTE_COMMIT not yet appended
    | Deciding(t: Tid, commit: bool)    // decision received (and undone if abort), not yet appended

  /** `cur`, `run`, `refuse`, `mode` and `reach` are volatile; `store`, `log` and `known` survive a crash.
      `known`: the manager's address is stored, which happens on JOIN_SUCCESS. `reach`: a poll goes to the manager. */
  datatype Worker = Worker(store: Store, log: seq<Record>, cur: Tid, run: bool, refuse: bool, mode: Mode, known: bool, reach: bool)

  datatype Step =
    | CmdBegin(t: Tid)
    | CmdJoin(t: Tid)
    | CmdUpdate(u: Update)
    | WriteValue
    | Stamp(now: int, slot: nat, tick: nat)
    | CmdAbort
    | AppendAbort
    | CmdCommit
    | SendCommit
    | CmdVoteAbort
    | Recv(m: Msg)
    | SendVote
    | AppendVote
    | AppendDecision
    | SendPoll
    | Crash
    | Restart

  function Rec(k: Kind, t: Tid): Record {
    Record(k, t, 0, [], [], 0)
  }

  predicate HasRec(log: seq<Record>, k: Kind, t: Tid) {
    exists i :: 0 <= i < |log| && log[i].kind == k && log[i].tid == t
  }

  // ---------- the undo scan, by what it finds ----------

  /** Where the maximal run of records of `t` at the end of the log starts. */
  function TxStart(log: seq<Record>, t: Tid): (i: nat)
    ensures i <= |log|
    ensures forall k :: i <= k < |log| ==> log[k].tid == t
    ensures i > 0 ==> log[i - 1].tid != t
  {
    if log == [] || log[|log| - 1].tid != t then |log| else TxStart(log[..|log| - 1], t)
  }

  /** The value field A had before its first update among `recs`, `dflt` if there is none. */
  function OldestA(recs: seq<Record>, dflt: int): int {
    if recs == [] then dflt else if recs[0].kind == NewARec then recs[0].oldValue else OldestA(recs[1..], dflt)
  }

  function OldestB(recs: seq<Record>, dflt: int): int {
    if recs == [] then dflt else if recs[0].kind == NewBRec then recs[0].oldValue else OldestB(recs[1..], dflt)
  }

  function OldestId(recs: seq<Record>, dflt: string): string {
    if recs == [] then dflt else if recs[0].kind == NewIdRec then recs[0].oldId else OldestId(recs[1..], dflt)
  }

  /** The store a rollback of the records `tx` leaves: what the store held at the first JOINTX of `tx`. */
  function Undo(tx: seq<Record>, st: Store): Store {
    if tx == [] then st
    else if tx[0].kind == JoinRec then
      Store(OldestA(tx[1..], st.a), OldestB(tx[1..], st.b), OldestId(tx[1..], st.id), tx[0].clock, tx[0].time)
    else Undo(tx[1..], st)
  }

  /** readValFromRecord as a function: undo the records of `t` at the end of the log. */
  function Rollback(log: seq<Record>, t: Tid, st: Store): Store {
    Undo(log[TxStart(log, t)..], st)
  }

  // ---------- the steps ----------

  function FieldKind(u: Update): Kind {
    match u
    case SetA(_) => NewARec
    case SetB(_) => NewBRec
    case SetId(_) => NewIdRec
  }

  /** The undo record written before `u` overwrites its field. */
  function UndoRecord(u: Update, t: Tid, st: Store): Record {
    match u
    case SetA(_) => Rec(NewARec, t).(oldValue := st.a)
    case SetB(_) => Rec(NewBRec, t).(oldValue := st.b)
    case SetId(_) => Rec(NewIdRec, t).(oldId := st.id)
  }

  function Apply(u: Update, st: Store): Store {
    match u
    case SetA(v) => st.(a := v)
    case SetB(v) => st.(b := v)
    case SetId(s) => st.(id := s)
  }

  function StampStore(u: Update, st: Store, now: int, slot: nat, tick: nat): Store {
    var s := st.(updated := now);
    if u.SetId? || slot >= |s.clock| then s else s.(clock := s.clock[slot := s.clock[slot].(time := tick)])
  }

  /** After a restart these last records mean that the worker must ask for the outcome. */
  predicate AsksOnRestart(k: Kind) {
    k == AbortRec || k == DecideAbortRec || k == PrepareRec || k == VoteRec || k == DecideCommitRec
  }

  /** The vote: abort on a local ABORT record of the current transaction or on command. */
  predicate VotesCommit(wk: Worker) {
    !HasRec(wk.log, AbortRec, wk.cur) && !wk.refuse
  }

  predicate Enabled(wk: Worker, s: Step) {
    match s
    case CmdBegin(_) => wk.mode == Ready
    case CmdJoin(_) => wk.mode == Ready
    case CmdUpdate(_) => wk.mode == Ready
    case WriteValue => wk.mode.Writing?
    case Stamp(_, _, _) => wk.mode.Stamping?
    case CmdAbort => wk.mode == Ready
    case AppendAbort => wk.mode == Aborting
    case CmdCommit => wk.mode == Ready
    case SendCommit => wk.mode == Committing
    case CmdVoteAbort => wk.mode == Ready
    case Recv(m) => (wk.mode == Ready || wk.mode == Waiting) && !m.ToManager()
    case SendVote => wk.mode.Voting?
    case AppendVote => wk.mode.Voted?
    case AppendDecision => wk.mode.Deciding?
    case SendPoll => wk.mode == Waiting
    case Crash => wk.mode != Down
    case Restart => wk.mode == Down
  }

  /** A manager message; while waiting, any message that is no decision just ends the wait. */
  function Receive(wk: Worker, m: Msg): Worker {
    match m
    case Decide(t, _, true) => wk.(mode := Deciding(t, true))
    case Decide(t, _, false) =>
      wk.(store := Rollback(wk.log, wk.cur, wk.store), mode := Deciding(t, false))
    case _ =>
      if wk.mode == Waiting then wk.(mode := Ready)
      else
        match m
        case JoinSuccess(t, _) =>
          wk.(cur := t, run := true, log := wk.log + [JoinRecord(wk, t)], known := true)
        case JoinFail(t, _) => wk.(log := wk.log + [JoinRecord(wk, t)])
        case Prepare(t, _) => wk.(log := wk.log + [Rec(PrepareRec, t)], mode := Voting(t), reach := true)
        case _ => wk
  }

  function JoinRecord(wk: Worker, t: Tid): Record {
    Rec(JoinRec, t).(clock := wk.store.clock, time := wk.store.updated)
  }

  /** The restart branch of main. */
  function Recover(wk: Worker): Worker {
    var t := if wk.log == [] then 0 else wk.log[|wk.log| - 1].tid;
    var w := wk.(cur := t, run := false, refuse := false, reach := wk.known);
    if wk.log != [] && AsksOnRestart(wk.log[|wk.log| - 1].kind) then w.(mode := Waiting)
    else w.(store := Rollback(w.log, t, w.store), mode := Aborting)
  }

  function Next(wk: Worker, s: Step): Worker
    requires Enabled(wk, s)
  {
    match s
    case CmdBegin(_) => wk
    case CmdJoin(_) => wk
    case CmdUpdate(u) =>
      var log := if wk.run then wk.log + [UndoRecord(u, wk.cur, wk.store)] else wk.log;
      wk.(log := log, mode := Writing(u))
    case WriteValue => wk.(store := Apply(wk.mode.u, wk.store), mode := Stamping(wk.mode.u))
    case Stamp(now, slot, tick) =>
      wk.(store := StampStore(wk.mode.u, wk.store, now, slot, tick), mode := Ready)
    case CmdAbort => wk.(store := Rollback(wk.log, wk.cur, wk.store), mode := Aborting)
    case AppendAbort => wk.(log := wk.log + [Rec(AbortRec, wk.cur)], mode := Ready)
    case CmdCommit => wk.(log := wk.log + [Rec(CommitRec, wk.cur)], mode := Committing)
    case SendCommit => wk.(mode := Ready)
    case CmdVoteAbort => wk.(refuse := true)
    case Recv(m) => Receive(wk, m)
    case SendVote => wk.(refuse := VotesCommit(wk) && wk.refuse, mode := Voted(wk.mode.t))
    case AppendVote => wk.(log := wk.log + [Rec(VoteRec, wk.mode.t)], mode := Waiting)
    case AppendDecision =>
      var k := if wk.mode.commit then DecideCommitRec else DecideAbortRec;
      wk.(log := wk.log + [Rec(k, wk.mode.t)], run := false, mode := Ready)
    case SendPoll => wk
    case Crash => wk.(run := false, refuse := false, cur := 0, reach := false, mode := Down)
    case Restart => Recover(wk)
  }

  /** What the step appends to the log. */
  function Appended(wk: Worker, s: Step): seq<Record>
    requires Enabled(wk, s)
  {
    match s
    case CmdUpdate(u) => if wk.run then [UndoRecord(u, wk.cur, wk.store)] else []
    case AppendAbort => [Rec(AbortRec, wk.cur)]
    case CmdCommit => [Rec(CommitRec, wk.cur)]
    case Recv(m) =>
      if wk.mode == Waiting then []
      else if m.JoinSuccess? || m.JoinFail? then [JoinRecord(wk, m.t)]
      else if m.Prepare? then [Rec(PrepareRec, m.t)]
      else []
    case AppendVote => [Rec(VoteRec, wk.mode.t)]
    case AppendDecision => [Rec(if wk.mode.commit then DecideCommitRec else DecideAbortRec, wk.mode.t)]
    case _ => []
  }

  lemma NextLog(wk: Worker, s: Step)
    requires Enabled(wk, s)
    ensures Next(wk, s).log == wk.log + Appended(wk, s)
  {
    hide Rollback, VotesCommit, UndoRecord, JoinRecord, Rec, Apply, StampStore, AsksOnRestart;
  }

  /** What the step sends; `id` is the worker's own node id. */
  function Output(id: NodeId, wk: Worker, s: Step): Option<Msg>
    requires Enabled(wk, s)
  {
    match s
    case CmdBegin(t) => Some(Begin(t, id))
    case CmdJoin(t) => Some(Join(t, id))
    case SendCommit => Some(CommitReq(wk.cur, id))
    case SendVote => Some(if VotesCommit(wk) then VoteCommit(wk.mode.t, id) else VoteAbort(wk.mode.t, id))
    case SendPoll => if wk.reach then Some(Poll(wk.cur, id)) else None
    case _ => None
  }

  predicate ValidRun(wk: Worker, ss: seq<Step>)
    decreases ss
  {
    ss == [] || (Enabled(wk, ss[0]) && ValidRun(Next(wk, ss[0]), ss[1..]))
  }

  function Exec(wk: Worker, ss: seq<Step>): Worker
    requires ValidRun(wk, ss)
    decreases ss
  {
    if ss == [] then wk else Exec(Next(wk, ss[0]), ss[1..])
  }
}
