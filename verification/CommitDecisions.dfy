/** The parts of the commit invariant about decisions under way, logged decisions and votes. */
module CommitDecisions {
  import opened Messages
  import opened TwoPhaseCommit
  import opened CommitInvariant
  import W = WorkerNode

  /** What a decision rests on is never taken back. */
  ghost predicate Stable(s: State, s': State) {
    && (forall t :: Committed(s, t) ==> Committed(s', t))
    && (forall t :: Dead(s, t) ==> Dead(s', t))
    && s.hist.counted <= s'.hist.counted
    && (forall t, w :: (t, w) in s'.hist.joined ==> t != 0 && ((t, w) in s.hist.joined || (t, w) !in s.hist.joinDone))
  }

  lemma JustifiedStable(s: State, s': State, t: Tid, w: NodeId, commit: bool)
    requires Stable(s, s') && Justified(s, t, w, commit) && KnownTid(s.hist.joinDone, t, w)
    ensures Justified(s', t, w, commit)
  {
  }

  lemma DecisionsByManager(s: State, s': State)
    requires InvDecisions(s) && InvKnown(s) && Stable(s, s') && s'.workers == s.workers
    requires forall m: Msg :: m.Decide? && s'.net[m] > 0 ==> s.net[m] > 0 || Justified(s', m.t, m.w, m.commit)
    ensures InvDecisions(s')
  {
    forall m: Msg | s'.net[m] > 0 && m.Decide? ensures Justified(s', m.t, m.w, m.commit) {
      if s.net[m] > 0 {
        assert KnownTid(s.hist.joinDone, m.t, m.w) by { assert m.t != 0 ==> Tells(m); }
        JustifiedStable(s, s', m.t, m.w, m.commit);
      }
    }
    forall w | w in s'.workers ensures WorkerJustified(s', w) {
      WorkerStaysJustified(s, s', w);
    }
  }

  lemma WorkerStaysJustified(s: State, s': State, w: NodeId)
    requires InvDecisions(s) && InvKnown(s) && Stable(s, s') && s'.workers == s.workers && w in s.workers
    ensures WorkerJustified(s', w)
  {
    var wk := s.workers[w];
    assert WorkerJustified(s, w) && WorkerKnown(s.hist.joinDone, w, wk);
    if wk.mode.Deciding? { JustifiedStable(s, s', wk.mode.t, w, wk.mode.commit); }
    forall i | 0 <= i < |wk.log| && wk.log[i].kind == W.DecideCommitRec
      ensures Justified(s', wk.log[i].tid, w, true)
    {
      JustifiedStable(s, s', wk.log[i].tid, w, true);
    }
    forall i | 0 <= i < |wk.log| && wk.log[i].kind == W.DecideAbortRec
      ensures Justified(s', wk.log[i].tid, w, false)
    {
      JustifiedStable(s, s', wk.log[i].tid, w, false);
    }
  }

  /** A worker step leaves untouched everything a decision rests on. */
  lemma JustifiedSame(s: State, w: NodeId, step: W.Step, t: Tid, v: NodeId, commit: bool)
    requires w in s.workers && W.Enabled(s.workers[w], step)
    ensures Justified(WorkerNext(s, w, step), t, v, commit) == Justified(s, t, v, commit)
  {
    hide W.Next, W.Output;
  }

  /** What one worker step may append and decide. */
  lemma DecisionRecords(w: NodeId, wk: W.Worker, step: W.Step)
    requires W.Enabled(wk, step)
    ensures var wk' := W.Next(wk, step);
      && wk.log <= wk'.log
      && (forall i :: |wk.log| <= i < |wk'.log| && (wk'.log[i].kind == W.DecideCommitRec || wk'.log[i].kind == W.DecideAbortRec) ==>
          wk.mode == W.Deciding(wk'.log[i].tid, wk'.log[i].kind == W.DecideCommitRec))
      && (wk'.mode.Deciding? ==> step.Recv? && step.m.Decide? && wk'.mode == W.Deciding(step.m.t, step.m.commit))
    ensures var out := W.Output(w, wk, step); out.Some? ==> !out.value.Decide?
  {
    W.NextLog(wk, step);
    DecidingComes(wk, step);
    hide W.Next, W.VotesCommit;
  }

  lemma DecidingComes(wk: W.Worker, step: W.Step)
    requires W.Enabled(wk, step)
    ensures var wk' := W.Next(wk, step);
      wk'.mode.Deciding? ==> step.Recv? && step.m.Decide? && wk'.mode == W.Deciding(step.m.t, step.m.commit)
  {
    hide W.Rollback, W.VotesCommit, W.Apply, W.StampStore, W.UndoRecord, W.JoinRecord, W.Rec;
  }

  /** The acting worker, given what its step may append and decide. */
  lemma ActorJustified(s: State, s': State, w: NodeId, wk: W.Worker, wk': W.Worker)
    requires forall t, c :: Justified(s', t, w, c) == Justified(s, t, w, c)
    requires w in s.workers && wk == s.workers[w] && WorkerJustified(s, w) && wk.log <= wk'.log
    requires w in s'.workers && wk' == s'.workers[w]
    requires forall i :: |wk.log| <= i < |wk'.log| && (wk'.log[i].kind == W.DecideCommitRec || wk'.log[i].kind == W.DecideAbortRec) ==>
               wk.mode == W.Deciding(wk'.log[i].tid, wk'.log[i].kind == W.DecideCommitRec)
    requires wk'.mode.Deciding? ==> Justified(s, wk'.mode.t, w, wk'.mode.commit)
    ensures WorkerJustified(s', w)
  {
    hide Justified;
    forall i | 0 <= i < |wk.log| ensures wk'.log[i] == wk.log[i] {}
  }

  lemma DecisionsByWorker(s: State, w: NodeId, step: W.Step)
    requires InvDecisions(s) && w in s.workers && W.Enabled(s.workers[w], step)
    requires step.Recv? ==> s.net[step.m] > 0 && step.m.w == w
    ensures InvDecisions(WorkerNext(s, w, step))
  {
    var s' := WorkerNext(s, w, step);
    var wk, wk' := s.workers[w], W.Next(s.workers[w], step);
    DecisionRecords(w, wk, step);
    forall t, v, c ensures Justified(s', t, v, c) == Justified(s, t, v, c) { JustifiedSame(s, w, step, t, v, c); }
    hide W.Next, W.Output, Justified, WorkerHistory;
    ActorJustified(s, s', w, wk, wk');
    forall v | v in s'.workers && v != w ensures WorkerJustified(s', v) { assert WorkerJustified(s, v); }
  }

  // ---------- votes ----------

  lemma VotesFrame(s: State, s': State)
    requires InvVotes(s) && s'.workers == s.workers && s'.hist.voted == s.hist.voted && s'.hist.overruled == s.hist.overruled
    ensures InvVotes(s')
  {
  }

  lemma PreparedKept(log: seq<W.Record>, log': seq<W.Record>, t: Tid)
    requires log <= log'
    ensures PreparedUnaborted(log, t) ==> PreparedUnaborted(log', t)
    ensures PreparedAborted(log, t) ==> PreparedAborted(log', t)
  {
    if PreparedUnaborted(log, t) {
      var p :| 0 <= p < |log| && log[p].kind == W.PrepareRec && log[p].tid == t && !W.HasRec(log[..p], W.AbortRec, t);
      assert log'[..p] == log[..p];
    }
    if PreparedAborted(log, t) {
      var p :| 0 <= p < |log| && log[p].kind == W.PrepareRec && log[p].tid == t && W.HasRec(log[..p], W.AbortRec, t);
      assert log'[..p] == log[..p];
    }
  }

  lemma VoteRecords(wk: W.Worker, step: W.Step)
    requires W.Enabled(wk, step)
    ensures wk.log <= W.Next(wk, step).log
    ensures W.Next(wk, step).mode.Voting? ==> LastPrepared(W.Next(wk, step).log, W.Next(wk, step).mode.t)
  {
    W.NextLog(wk, step);
    VotingComes(wk, step);
    hide W.Next, W.VotesCommit;
  }

  lemma VotingComes(wk: W.Worker, step: W.Step)
    requires W.Enabled(wk, step)
    ensures W.Next(wk, step).mode.Voting? ==> step == W.Recv(Prepare(W.Next(wk, step).mode.t, step.m.w)) && wk.mode != W.Waiting
  {
    hide W.Rollback, W.VotesCommit, W.Apply, W.StampStore, W.UndoRecord, W.JoinRecord, W.Rec;
  }

  lemma VotesByWorker(s: State, w: NodeId, step: W.Step)
    requires InvVotes(s) && w in s.workers && W.Enabled(s.workers[w], step)
    ensures InvVotes(WorkerNext(s, w, step))
  {
    var s' := WorkerNext(s, w, step);
    var wk, wk' := s.workers[w], W.Next(s.workers[w], step);
    VoteRecords(wk, step);
    hide W.Next, W.Output, PreparedUnaborted, PreparedAborted, LastPrepared, W.HasRec;
    forall t, v | (t, v) in s'.hist.voted && (t, v) !in s'.hist.overruled
      ensures v in s'.workers && PreparedUnaborted(s'.workers[v].log, t)
    {
      if (t, v) !in s.hist.voted { VotedNow(wk.log, t); }
      if v == w { PreparedKept(wk.log, wk'.log, t); }
    }
    forall t, v | (t, v) in s'.hist.overruled
      ensures (t, v) in s'.hist.voted && v in s'.workers && PreparedAborted(s'.workers[v].log, t)
    {
      if (t, v) !in s.hist.overruled { VotedNow(wk.log, t); }
      if v == w { PreparedKept(wk.log, wk'.log, t); }
    }
  }

  /** Just before the vote the log ends with its PREPARE_COMMIT. */
  lemma VotedNow(log: seq<W.Record>, t: Tid)
    requires LastPrepared(log, t)
    ensures if W.HasRec(log, W.AbortRec, t) then PreparedAborted(log, t) else PreparedUnaborted(log, t)
  {
    var p := |log| - 1;
    if W.HasRec(log, W.AbortRec, t) {
      var i :| 0 <= i < |log| && log[i].kind == W.AbortRec && log[i].tid == t;
      assert log[..p][i] == log[i];
    }
  }
}
