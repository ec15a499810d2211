/** What the commands given to a worker come to over its runs: an update is what the store holds until the field is written or
    undone again, and a command to refuse decides the next vote and no other. */
module WorkerCommands {
  import opened Messages
  import opened WorkerNode
  import opened WorkerRecovery

  // ---------- updates ----------

  /** The store has the value of `u` in the field of `u`. */
  predicate Holds(st: Store, u: Update) {
    match u
    case SetA(v) => st.a == v
    case SetB(v) => st.b == v
    case SetId(s) => st.id == s
  }

  predicate SameField(u: Update, v: Update) {
    (u.SetA? && v.SetA?) || (u.SetB? && v.SetB?) || (u.SetId? && v.SetId?)
  }

  /** The field of `u` is the same in both stores. */
  predicate FieldKept(u: Update, st: Store, st': Store) {
    match u
    case SetA(_) => st.a == st'.a
    case SetB(_) => st.b == st'.b
    case SetId(_) => st.id == st'.id
  }

  /** The three steps of an update write its value to its field, keep the other two fields, and set time and clock slot. */
  lemma UpdateWrites(wk: Worker, u: Update, now: int, slot: nat, tick: nat)
    requires wk.mode == Ready
    ensures var wk' := Next(Next(Next(wk, CmdUpdate(u)), WriteValue), Stamp(now, slot, tick));
      && Holds(wk'.store, u) && wk'.store.updated == now
      && (forall v: Update :: !SameField(u, v) ==> FieldKept(v, wk'.store, wk.store))
      && |wk'.store.clock| == |wk.store.clock|
      && (forall i :: 0 <= i < |wk.store.clock| ==>
            wk'.store.clock[i] == wk.store.clock[i].(time := if i == slot && !u.SetId? then tick else wk.store.clock[i].time))
  {
  }

  /** A step that could change the field of `u`: a write to it, or an undoing step. */
  predicate Rewrites(wk: Worker, s: Step, u: Update) {
    (s.WriteValue? && wk.mode.Writing? && SameField(wk.mode.u, u)) || Undoes(wk, s)
  }

  predicate NoneRewrites(wk: Worker, ss: seq<Step>, u: Update)
    requires ValidRun(wk, ss)
    decreases ss
  {
    ss == [] || (!Rewrites(wk, ss[0], u) && NoneRewrites(Next(wk, ss[0]), ss[1..], u))
  }

  lemma NothingToUndo(st: Store)
    ensures Rollback([], 0, st) == st
  {
  }

  lemma KeepsField(wk: Worker, s: Step, u: Update)
    requires Enabled(wk, s) && !Rewrites(wk, s, u)
    ensures FieldKept(u, Next(wk, s).store, wk.store)
  {
    NothingToUndo(wk.store);
    hide VotesCommit, UndoRecord, JoinRecord, Rec, AsksOnRestart, Rollback;
  }

  lemma {:induction false} KeepsFieldRun(wk: Worker, ss: seq<Step>, u: Update)
    requires ValidRun(wk, ss) && NoneRewrites(wk, ss, u)
    ensures FieldKept(u, Exec(wk, ss).store, wk.store)
    decreases ss
  {
    if ss != [] {
      KeepsField(wk, ss[0], u);
      hide Next, Rewrites;
      KeepsFieldRun(Next(wk, ss[0]), ss[1..], u);
    }
  }

  /** Over any run, with crashes and messages anywhere: the last update of a field is what the store holds, as long as nothing
      was undone since. */
  lemma LastUpdateHolds(wk: Worker, u: Update, ss: seq<Step>)
    requires wk.mode == Writing(u) && ValidRun(Next(wk, WriteValue), ss) && NoneRewrites(Next(wk, WriteValue), ss, u)
    ensures Holds(Exec(Next(wk, WriteValue), ss).store, u)
  {
    KeepsFieldRun(Next(wk, WriteValue), ss, u);
  }

  // ---------- refusing ----------

  /** Whether the worker has been told to refuse, and has neither voted nor crashed since. */
  function Told(before: bool, ss: seq<Step>): bool
    decreases |ss|
  {
    if ss == [] then before
    else
      var last := ss[|ss| - 1];
      if last.CmdVoteAbort? then true
      else if last.SendVote? || last.Crash? || last.Restart? then false
      else Told(before, ss[..|ss| - 1])
  }

  lemma RefuseStep(wk: Worker, s: Step)
    requires Enabled(wk, s)
    ensures Next(wk, s).refuse ==
      if s.CmdVoteAbort? then true else if s.SendVote? || s.Crash? || s.Restart? then false else wk.refuse
  {
    hide Rollback, UndoRecord, JoinRecord, Rec, AsksOnRestart, Apply, StampStore, HasRec;
  }

  lemma {:induction false} RefuseIsTold(wk: Worker, ss: seq<Step>)
    requires ValidRun(wk, ss)
    ensures Exec(wk, ss).refuse == Told(wk.refuse, ss)
    decreases |ss|
  {
    if ss != [] {
      var front, last := ss[..|ss| - 1], ss[|ss| - 1];
      assert ss == front + [last];
      RunSplit(wk, front, last);
      RefuseIsTold(wk, front);
      RefuseStep(Exec(wk, front), last);
    }
  }

  lemma {:induction false} RunSplit(wk: Worker, ss: seq<Step>, s: Step)
    requires ValidRun(wk, ss + [s])
    ensures ValidRun(wk, ss) && Enabled(Exec(wk, ss), s) && Exec(wk, ss + [s]) == Next(Exec(wk, ss), s)
    decreases |ss|
  {
    hide Next, Enabled;
    if ss == [] {
      assert (ss + [s])[1..] == [];
    } else {
      assert (ss + [s])[1..] == ss[1..] + [s];
      RunSplit(Next(wk, ss[0]), ss[1..], s);
    }
  }

  /** After any run the vote is for commit exactly if the current transaction has no ABORT in the log and the worker was not told
      to refuse since its last vote or crash; and it is about the transaction the worker is asked about. */
  lemma VoteFollows(wk: Worker, ss: seq<Step>, id: NodeId)
    requires ValidRun(wk, ss) && Exec(wk, ss).mode.Voting?
    ensures var wk' := Exec(wk, ss);
      Output(id, wk', SendVote) ==
        Some(if !HasRec(wk'.log, AbortRec, wk'.cur) && !Told(wk.refuse, ss) then VoteCommit(wk'.mode.t, id)
             else VoteAbort(wk'.mode.t, id))
  {
    RefuseIsTold(wk, ss);
    hide Exec, ValidRun, Told;
  }

  /** A command to refuse decides the next vote, whatever comes in between but a crash. */
  lemma RefusesNext(wk: Worker, ss: seq<Step>, id: NodeId)
    requires Enabled(wk, CmdVoteAbort) && ValidRun(Next(wk, CmdVoteAbort), ss) && Exec(Next(wk, CmdVoteAbort), ss).mode.Voting?
    requires forall i :: 0 <= i < |ss| ==> !ss[i].SendVote? && !ss[i].Crash? && !ss[i].Restart?
    ensures var wk' := Exec(Next(wk, CmdVoteAbort), ss); Output(id, wk', SendVote) == Some(VoteAbort(wk'.mode.t, id))
  {
    RefuseStep(wk, CmdVoteAbort);
    TellingLasts(true, ss);
    VoteFollows(Next(wk, CmdVoteAbort), ss, id);
  }

  /** And no other: after a vote the next one follows the log alone, unless there was a further command. */
  lemma RefusesOnce(wk: Worker, ss: seq<Step>, id: NodeId)
    requires Enabled(wk, SendVote) && ValidRun(Next(wk, SendVote), ss) && Exec(Next(wk, SendVote), ss).mode.Voting?
    requires forall i :: 0 <= i < |ss| ==> !ss[i].CmdVoteAbort?
    ensures var wk' := Exec(Next(wk, SendVote), ss);
      Output(id, wk', SendVote) == Some(VoteCommit(wk'.mode.t, id)) <==> !HasRec(wk'.log, AbortRec, wk'.cur)
  {
    RefuseStep(wk, SendVote);
    NotTold(ss);
    VoteFollows(Next(wk, SendVote), ss, id);
  }

  lemma {:induction false} TellingLasts(before: bool, ss: seq<Step>)
    requires forall i :: 0 <= i < |ss| ==> !ss[i].SendVote? && !ss[i].Crash? && !ss[i].Restart?
    ensures before ==> Told(before, ss)
    decreases |ss|
  {
    if ss != [] { TellingLasts(before, ss[..|ss| - 1]); }
  }

  lemma {:induction false} NotTold(ss: seq<Step>)
    requires forall i :: 0 <= i < |ss| ==> !ss[i].CmdVoteAbort?
    ensures !Told(false, ss)
    decreases |ss|
  {
    if ss != [] { NotTold(ss[..|ss| - 1]); }
  }
}
