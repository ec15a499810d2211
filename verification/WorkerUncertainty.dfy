/** What a worker guarantees between its vote and the decision: exactly which steps end its uncertainty, and exactly when a
    crash makes it roll back on its own. */
module WorkerUncertainty {
  import opened Messages
  import opened WorkerNode

  // ---------- pending ----------

  predicate Idle(wk: Worker, t: Tid) {
    wk.mode == Ready || wk.mode == Voted(t) || wk.mode == Waiting || wk.mode == Down
  }

  /** The last record is PREPARE_COMMIT or VOTE_COMMIT of `t`, and no step that follows from it is under way but the vote's
      own record. The worker may have stopped waiting, since any message ends the wait. */
  predicate Pending(wk: Worker, t: Tid) {
    && Idle(wk, t)
    && wk.log != []
    && var last := wk.log[|wk.log| - 1];
       last.tid == t && (last.kind == PrepareRec || last.kind == VoteRec)
  }

  /** A decision, a command that changes store or log, and while no longer waiting an answer to a JOIN or a PREPARE_COMMIT. */
  predicate Disturbs(wk: Worker, s: Step) {
    || (s.Recv? && s.m.Decide?)
    || s.CmdUpdate? || s.CmdCommit? || s.CmdAbort?
    || (s.Recv? && wk.mode == Ready && (s.m.JoinSuccess? || s.m.JoinFail? || s.m.Prepare?))
  }

  /** The pending state is left exactly by these steps; every other one, crashes and restarts and stray messages included,
      leaves the store untouched and the log as it is but for the vote's record. */
  lemma {:induction false} PendingEnds(wk: Worker, s: Step, t: Tid)
    requires Pending(wk, t) && Enabled(wk, s)
    ensures Pending(Next(wk, s), t) <==> !Disturbs(wk, s)
    ensures !Disturbs(wk, s) ==> Next(wk, s).store == wk.store
    ensures !Disturbs(wk, s) ==> Next(wk, s).log == wk.log || Next(wk, s).log == wk.log + [Rec(VoteRec, t)]
  {
    NextLog(wk, s);
    PendingMode(wk, s, t);
    hide Next, VotesCommit;
  }

  lemma PendingMode(wk: Worker, s: Step, t: Tid)
    requires Pending(wk, t) && Enabled(wk, s)
    ensures !Disturbs(wk, s) ==> Idle(Next(wk, s), t) && Next(wk, s).store == wk.store
    ensures Disturbs(wk, s) && Idle(Next(wk, s), t) ==> Appended(wk, s) != []
  {
    hide Rollback, VotesCommit, UndoRecord, JoinRecord, Rec, Apply, StampStore;
  }

  /** `t` is pending at every point of the run. */
  predicate PendingThroughout(wk: Worker, ss: seq<Step>, t: Tid)
    requires ValidRun(wk, ss)
    decreases ss
  {
    Pending(wk, t) && (ss == [] || PendingThroughout(Next(wk, ss[0]), ss[1..], t))
  }

  predicate Undisturbed(wk: Worker, ss: seq<Step>)
    requires ValidRun(wk, ss)
    decreases ss
  {
    ss == [] || (!Disturbs(wk, ss[0]) && Undisturbed(Next(wk, ss[0]), ss[1..]))
  }

  /** Uncertainty is durable, exactly: over any run of a worker that has voted, `t` stays pending at every point if and only
      if no step disturbs it, and then the store is the one voted on and only votes for `t` were logged. */
  lemma {:induction false} PendingIff(wk: Worker, ss: seq<Step>, t: Tid)
    requires Pending(wk, t) && ValidRun(wk, ss)
    ensures PendingThroughout(wk, ss, t) <==> Undisturbed(wk, ss)
    ensures Undisturbed(wk, ss) ==> Pending(Exec(wk, ss), t) && Exec(wk, ss).store == wk.store
    ensures Undisturbed(wk, ss) ==> forall r :: r in Exec(wk, ss).log ==> r in wk.log || r == Rec(VoteRec, t)
    decreases ss
  {
    if ss != [] {
      PendingEnds(wk, ss[0], t);
      hide Pending, Disturbs, Next;
      if !Disturbs(wk, ss[0]) { PendingIff(Next(wk, ss[0]), ss[1..], t); }
    }
  }

  // ---------- what happens to the store ----------

  /** The steps that write the store: an update's two writes, and the undoing ones. */
  predicate Touches(wk: Worker, s: Step) {
    || s.WriteValue? || s.Stamp? || s == CmdAbort
    || (s.Recv? && s.m.Decide? && !s.m.commit)
    || (s == Restart && Unsafe(wk.log))
  }

  lemma TouchStep(wk: Worker, s: Step)
    requires Enabled(wk, s) && !Touches(wk, s)
    ensures Next(wk, s).store == wk.store
  {
    hide Rollback, VotesCommit, UndoRecord, JoinRecord, Rec;
  }

  predicate NoneTouches(wk: Worker, ss: seq<Step>)
    requires ValidRun(wk, ss)
    decreases ss
  {
    ss == [] || (!Touches(wk, ss[0]) && NoneTouches(Next(wk, ss[0]), ss[1..]))
  }

  lemma {:induction false} UntouchedRun(wk: Worker, ss: seq<Step>)
    requires ValidRun(wk, ss) && NoneTouches(wk, ss)
    ensures Exec(wk, ss).store == wk.store
    decreases ss
  {
    if ss != [] {
      TouchStep(wk, ss[0]);
      hide Next, Touches;
      UntouchedRun(Next(wk, ss[0]), ss[1..]);
    }
  }

  /** A pending worker that is not disturbed writes nothing. */
  lemma {:induction false} UndisturbedTouchesNone(wk: Worker, ss: seq<Step>, t: Tid)
    requires Pending(wk, t) && ValidRun(wk, ss) && Undisturbed(wk, ss)
    ensures NoneTouches(wk, ss)
    decreases ss
  {
    if ss != [] {
      PendingEnds(wk, ss[0], t);
      hide Next;
      UndisturbedTouchesNone(Next(wk, ss[0]), ss[1..], t);
    }
  }

  /** The vote itself makes its transaction pending. */
  lemma VotingPends(wk: Worker, id: NodeId)
    requires wk.mode == Ready && wk.cur != 0 && VotesCommit(wk)
    ensures var wk1 := Next(wk, Recv(Prepare(wk.cur, id)));
      Output(id, wk1, SendVote) == Some(VoteCommit(wk.cur, id)) && Pending(Next(wk1, SendVote), wk.cur)
  {
    AppendHas(wk.log, Rec(PrepareRec, wk.cur), AbortRec, wk.cur);
  }

  lemma AppendHas(log: seq<Record>, r: Record, k: Kind, t: Tid)
    ensures HasRec(log + [r], k, t) <==> HasRec(log, k, t) || (r.kind == k && r.tid == t)
  {
    if HasRec(log, k, t) {
      var i :| 0 <= i < |log| && log[i].kind == k && log[i].tid == t;
      assert (log + [r])[i] == log[i];
    }
    assert (log + [r])[|log|] == r;
  }

  // ---------- rolling back without a decision ----------

  /** With this log a crash and restart roll back without asking. */
  predicate Unsafe(log: seq<Record>) {
    log == [] || !AsksOnRestart(log[|log| - 1].kind)
  }

  /** A crash at any point makes the restart roll back its last transaction exactly if the log is unsafe; otherwise the
      worker waits with its store untouched. */
  lemma CrashRollsBack(wk: Worker)
    requires Enabled(wk, Crash)
    ensures var wk' := Next(Next(wk, Crash), Restart);
      if Unsafe(wk.log) then
        wk'.mode == Aborting && wk'.store == Rollback(wk.log, if wk.log == [] then 0 else wk.log[|wk.log| - 1].tid, wk.store)
      else wk'.mode == Waiting && wk'.store == wk.store && wk'.cur == wk.log[|wk.log| - 1].tid
  {
    hide Rollback;
  }

  /** The steps that log something a restart takes for unfinished: an update inside a transaction, a COMMIT request, and
      while not waiting an answer to a JOIN. */
  predicate Risky(wk: Worker, s: Step) {
    || (s.CmdUpdate? && wk.run)
    || s.CmdCommit?
    || (s.Recv? && wk.mode == Ready && (s.m.JoinSuccess? || s.m.JoinFail?))
  }

  /** After a step the log is unsafe exactly if the step is risky, or it was unsafe and the step logs nothing. */
  lemma SafetyStep(wk: Worker, s: Step)
    requires Enabled(wk, s)
    ensures var wk' := Next(wk, s);
      Unsafe(wk'.log) <==> Risky(wk, s) || (Unsafe(wk.log) && wk'.log == wk.log)
  {
    NextLog(wk, s);
    hide Next, VotesCommit;
  }

  /** A crash at no point of the run would make the worker roll back on its own. */
  predicate NeverUnsafe(wk: Worker, ss: seq<Step>)
    requires ValidRun(wk, ss)
    decreases ss
  {
    !Unsafe(wk.log) && (ss == [] || NeverUnsafe(Next(wk, ss[0]), ss[1..]))
  }

  predicate NoneRisky(wk: Worker, ss: seq<Step>)
    requires ValidRun(wk, ss)
    decreases ss
  {
    ss == [] || (!Risky(wk, ss[0]) && NoneRisky(Next(wk, ss[0]), ss[1..]))
  }

  /** Some step is risky and none after it logs anything. */
  predicate EndsRisky(wk: Worker, ss: seq<Step>)
    requires ValidRun(wk, ss)
    decreases ss
  {
    ss != [] && (EndsRisky(Next(wk, ss[0]), ss[1..]) || (Risky(wk, ss[0]) && Exec(wk, ss).log == Next(wk, ss[0]).log))
  }

  lemma {:induction false} LogOnlyGrows(wk: Worker, ss: seq<Step>)
    requires ValidRun(wk, ss)
    ensures wk.log <= Exec(wk, ss).log
    decreases ss
  {
    if ss != [] {
      LogStep(wk, ss[0]);
      hide Next;
      LogOnlyGrows(Next(wk, ss[0]), ss[1..]);
    }
  }

  lemma LogStep(wk: Worker, s: Step)
    requires Enabled(wk, s)
    ensures wk.log <= Next(wk, s).log
  {
    NextLog(wk, s);
    hide Next;
  }

  /** From a safe log, in particular once a worker has voted: after any run a crash makes it roll back on its own if and only
      if the last step that logged anything was risky; and no crash at any point of the run would, if and only if no step of
      the run is risky. */
  lemma {:induction false} RollsBackIff(wk: Worker, ss: seq<Step>)
    requires ValidRun(wk, ss) && !Unsafe(wk.log)
    ensures Unsafe(Exec(wk, ss).log) <==> EndsRisky(wk, ss)
    ensures NeverUnsafe(wk, ss) <==> NoneRisky(wk, ss)
    decreases ss
  {
    UnsafeIff(wk, ss);
    if ss != [] {
      SafetyStep(wk, ss[0]);
      hide Next, Risky, Unsafe;
      if !Risky(wk, ss[0]) { RollsBackIff(Next(wk, ss[0]), ss[1..]); }
    }
  }

  lemma {:induction false} UnsafeIff(wk: Worker, ss: seq<Step>)
    requires ValidRun(wk, ss)
    ensures Unsafe(Exec(wk, ss).log) <==> EndsRisky(wk, ss) || (Unsafe(wk.log) && Exec(wk, ss).log == wk.log)
    decreases ss
  {
    if ss != [] {
      SafetyStep(wk, ss[0]);
      LogStep(wk, ss[0]);
      hide Next, Risky, Unsafe;
      LogOnlyGrows(Next(wk, ss[0]), ss[1..]);
      UnsafeIff(Next(wk, ss[0]), ss[1..]);
    }
  }
}
