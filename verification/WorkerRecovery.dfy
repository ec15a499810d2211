/** What a worker's undo log guarantees across crashes: exactly when undo gives back the store of the join. */
module WorkerRecovery {
  import opened Messages
  import opened WorkerNode

  // ---------- the undo scan ----------

  predicate HasKind(recs: seq<Record>, k: Kind) {
    exists i :: 0 <= i < |recs| && recs[i].kind == k
  }

  /** The records after the first JOINTX. */
  function AfterJoin(tx: seq<Record>): seq<Record> {
    if tx == [] then [] else if tx[0].kind == JoinRec then tx[1..] else AfterJoin(tx[1..])
  }

  /** The records of `t` at the end of the log. */
  function Tail(log: seq<Record>, t: Tid): seq<Record> {
    log[TxStart(log, t)..]
  }

  lemma {:induction false} OldestKeepsDefault(recs: seq<Record>, a: int, b: int, id: string)
    ensures HasKind(recs, NewARec) ==> forall a' :: OldestA(recs, a') == OldestA(recs, a)
    ensures HasKind(recs, NewBRec) ==> forall b' :: OldestB(recs, b') == OldestB(recs, b)
    ensures HasKind(recs, NewIdRec) ==> forall id' :: OldestId(recs, id') == OldestId(recs, id)
    ensures !HasKind(recs, NewARec) ==> OldestA(recs, a) == a
    ensures !HasKind(recs, NewBRec) ==> OldestB(recs, b) == b
    ensures !HasKind(recs, NewIdRec) ==> OldestId(recs, id) == id
  {
    if recs != [] {
      OldestKeepsDefault(recs[1..], a, b, id);
      forall k ensures HasKind(recs, k) <==> recs[0].kind == k || HasKind(recs[1..], k) {
        KindSplit(recs, k);
      }
    }
  }

  lemma KindSplit(recs: seq<Record>, k: Kind)
    requires recs != []
    ensures HasKind(recs, k) <==> recs[0].kind == k || HasKind(recs[1..], k)
  {
    if HasKind(recs, k) {
      var i :| 0 <= i < |recs| && recs[i].kind == k;
      if i > 0 { assert recs[1..][i - 1].kind == k; }
    }
    if HasKind(recs[1..], k) {
      var i :| 0 <= i < |recs[1..]| && recs[1..][i].kind == k;
      assert recs[i + 1].kind == k;
    }
  }

  /** An undo record appended last only matters when it is the first of its field. */
  lemma {:induction false} OldestAppend(recs: seq<Record>, r: Record, a: int, b: int, id: string)
    ensures OldestA(recs + [r], a) == OldestA(recs, if r.kind == NewARec then r.oldValue else a)
    ensures OldestB(recs + [r], b) == OldestB(recs, if r.kind == NewBRec then r.oldValue else b)
    ensures OldestId(recs + [r], id) == OldestId(recs, if r.kind == NewIdRec then r.oldId else id)
  {
    if recs == [] {
      assert (recs + [r])[1..] == [];
    } else {
      assert (recs + [r])[1..] == recs[1..] + [r];
      OldestAppend(recs[1..], r, a, b, id);
    }
  }

  /** Appending a record of the running transaction whose old value is the present one changes no undo. */
  lemma {:induction false} UndoAppend(tx: seq<Record>, r: Record, st: Store)
    requires HasKind(tx, JoinRec)
    requires r.kind == NewARec ==> r.oldValue == st.a
    requires r.kind == NewBRec ==> r.oldValue == st.b
    requires r.kind == NewIdRec ==> r.oldId == st.id
    ensures Undo(tx + [r], st) == Undo(tx, st)
  {
    assert (tx + [r])[1..] == tx[1..] + [r];
    if tx[0].kind == JoinRec {
      OldestAppend(tx[1..], r, st.a, st.b, st.id);
    } else {
      KindSplit(tx, JoinRec);
      UndoAppend(tx[1..], r, st);
    }
  }

  /** Overwriting a field leaves the undo alone exactly when the field already has an undo record
      in the transaction, or the value does not change. */
  lemma {:induction false} UndoOfWrite(tx: seq<Record>, u: Update, st: Store)
    requires HasKind(tx, JoinRec)
    ensures Undo(tx, Apply(u, st)) == Undo(tx, st) <==> HasKind(AfterJoin(tx), FieldKind(u)) || Apply(u, st) == st
  {
    KindSplit(tx, JoinRec);
    if tx[0].kind == JoinRec {
      var st' := Apply(u, st);
      OldestKeepsDefault(tx[1..], st.a, st.b, st.id);
      OldestKeepsDefault(tx[1..], st'.a, st'.b, st'.id);
    } else {
      UndoOfWrite(tx[1..], u, st);
    }
  }

  /** Time and clock always come from the JOINTX record. */
  lemma {:induction false} UndoOfStamp(tx: seq<Record>, st: Store, now: int, clock: seq<Entry>)
    requires HasKind(tx, JoinRec)
    ensures Undo(tx, st.(updated := now, clock := clock)) == Undo(tx, st)
  {
    KindSplit(tx, JoinRec);
    if tx[0].kind != JoinRec { UndoOfStamp(tx[1..], st, now, clock); }
  }

  lemma {:induction false} OldestIdempotent(recs: seq<Record>, a: int, b: int, id: string)
    ensures OldestA(recs, OldestA(recs, a)) == OldestA(recs, a)
    ensures OldestB(recs, OldestB(recs, b)) == OldestB(recs, b)
    ensures OldestId(recs, OldestId(recs, id)) == OldestId(recs, id)
  {
    if recs != [] { OldestIdempotent(recs[1..], a, b, id); }
  }

  lemma {:induction false} UndoTwice(tx: seq<Record>, st: Store)
    ensures Undo(tx, Undo(tx, st)) == Undo(tx, st)
  {
    if tx != [] {
      if tx[0].kind == JoinRec {
        OldestIdempotent(tx[1..], st.a, st.b, st.id);
      } else {
        UndoTwice(tx[1..], st);
      }
    }
  }

  lemma TailAppend(log: seq<Record>, r: Record, t: Tid)
    ensures r.tid == t ==> Tail(log + [r], t) == Tail(log, t) + [r]
    ensures r.tid != t ==> Tail(log + [r], t) == []
  {
    assert (log + [r])[..|log + [r]| - 1] == log;
  }

  // ---------- undo over whole runs ----------

  predicate IsUpdate(k: Kind) {
    k == NewARec || k == NewBRec || k == NewIdRec
  }

  /** The transaction `t` is the last one in the log, and every store write under way is covered by an undo record. */
  predicate InTransaction(wk: Worker, t: Tid) {
    && HasKind(Tail(wk.log, t), JoinRec)
    && (wk.mode != Down ==> wk.cur == t)
    && (wk.mode.Writing? ==> HasKind(AfterJoin(Tail(wk.log, t)), FieldKind(wk.mode.u)))
    && (wk.mode.Voting? || wk.mode.Voted? ==> wk.mode.t == t)
  }

  /** A step of a worker that is in one transaction at a time and has joined `t` once: it makes updates while a transaction
      runs, and no further JOIN is granted. Messages about other transactions may come at any time. */
  predicate Inside(wk: Worker, s: Step, t: Tid) {
    && (s.CmdUpdate? ==> wk.run)
    && (s.Recv? && wk.mode == Ready ==> !s.m.JoinSuccess? && s.m != JoinFail(t, s.m.w))
  }

  predicate InsideRun(wk: Worker, ss: seq<Step>, t: Tid)
    decreases ss
  {
    ss == [] || (Enabled(wk, ss[0]) && Inside(wk, ss[0], t) && InsideRun(Next(wk, ss[0]), ss[1..], t))
  }

  /** Record `j` is the JOINTX of `t`, the only one since; all undo records since are of `t`. */
  predicate JoinedAt(log: seq<Record>, t: Tid, j: nat) {
    && j < |log| && log[j].kind == JoinRec && log[j].tid == t
    && (forall i :: j < i < |log| && log[i].kind == JoinRec ==> log[i].tid != t)
    && (forall i :: j < i < |log| && IsUpdate(log[i].kind) ==> log[i].tid == t)
  }

  /** No record of another transaction was logged since record `j`. */
  predicate Clean(log: seq<Record>, t: Tid, j: nat) {
    forall i :: j <= i < |log| ==> log[i].tid == t
  }

  /** Where a worker stands that joined `t` with the store `st0`. */
  predicate Joined(wk: Worker, t: Tid, j: nat, st0: Store) {
    && JoinedAt(wk.log, t, j)
    && (wk.run ==> wk.mode != Down && wk.cur == t)
    && (Clean(wk.log, t, j) ==> InTransaction(wk, t) && Rollback(wk.log, t, wk.store) == st0)
  }

  /** The steps that log something about another transaction: its late decision, its PREPARE_COMMIT, a refused JOIN. */
  predicate Foreign(wk: Worker, s: Step, t: Tid) {
    || (s.AppendDecision? && wk.mode.Deciding? && wk.mode.t != t)
    || (s.Recv? && wk.mode == Ready && (s.m.Prepare? || s.m.JoinFail?) && s.m.t != t)
  }

  predicate NoneForeign(wk: Worker, ss: seq<Step>, t: Tid)
    requires ValidRun(wk, ss)
    decreases ss
  {
    ss == [] || (!Foreign(wk, ss[0], t) && NoneForeign(Next(wk, ss[0]), ss[1..], t))
  }

  predicate AppendsOne(wk: Worker, wk': Worker) {
    |wk'.log| == |wk.log| + 1 && wk'.log == wk.log + [wk'.log[|wk.log|]]
  }

  lemma {:induction false} KindKept(tx: seq<Record>, r: Record, k: Kind)
    requires HasKind(tx, JoinRec)
    ensures HasKind(tx + [r], JoinRec)
    ensures HasKind(AfterJoin(tx), k) || r.kind == k ==> HasKind(AfterJoin(tx + [r]), k)
  {
    assert (tx + [r])[1..] == tx[1..] + [r];
    KindSplit(tx, JoinRec);
    KindSplit(tx + [r], JoinRec);
    if tx[0].kind == JoinRec {
      if HasKind(tx[1..], k) {
        var i :| 0 <= i < |tx[1..]| && tx[1..][i].kind == k;
        assert (tx[1..] + [r])[i].kind == k;
      }
      if r.kind == k { assert (tx[1..] + [r])[|tx[1..]|].kind == k; }
    } else {
      KindKept(tx[1..], r, k);
    }
  }

  /** Appending a record of `t` keeps the transaction and its undo. */
  lemma AppendKeeps(log: seq<Record>, r: Record, t: Tid, st: Store)
    requires HasKind(Tail(log, t), JoinRec) && r.tid == t
    requires r.kind == NewARec ==> r.oldValue == st.a
    requires r.kind == NewBRec ==> r.oldValue == st.b
    requires r.kind == NewIdRec ==> r.oldId == st.id
    ensures HasKind(Tail(log + [r], t), JoinRec)
    ensures Rollback(log + [r], t, st) == Rollback(log, t, st)
    ensures HasKind(AfterJoin(Tail(log + [r], t)), r.kind)
  {
    TailAppend(log, r, t);
    UndoAppend(Tail(log, t), r, st);
    KindKept(Tail(log, t), r, r.kind);
  }

  lemma ConservedByAppend(wk: Worker, wk': Worker, r: Record, t: Tid)
    requires InTransaction(wk, t) && r.tid == t
    requires r.kind == NewARec ==> r.oldValue == wk.store.a
    requires r.kind == NewBRec ==> r.oldValue == wk.store.b
    requires r.kind == NewIdRec ==> r.oldId == wk.store.id
    requires wk'.log == wk.log + [r] && wk'.store == wk.store && wk'.cur == wk.cur && wk.mode != Down
    requires wk'.mode.Writing? ==> FieldKind(wk'.mode.u) == r.kind
    requires wk'.mode.Voting? || wk'.mode.Voted? ==> wk'.mode.t == t
    ensures InTransaction(wk', t)
    ensures Rollback(wk'.log, t, wk'.store) == Rollback(wk.log, t, wk.store)
  {
    hide Rollback;
    AppendKeeps(wk.log, r, t, wk.store);
  }

  lemma ConservedByWrite(wk: Worker, t: Tid)
    requires InTransaction(wk, t) && wk.mode.Writing?
    ensures InTransaction(Next(wk, WriteValue), t)
    ensures Rollback(Next(wk, WriteValue).log, t, Next(wk, WriteValue).store) == Rollback(wk.log, t, wk.store)
  {
    hide Undo, Apply, HasKind, AfterJoin;
    UndoOfWrite(Tail(wk.log, t), wk.mode.u, wk.store);
  }

  lemma ConservedByStamp(wk: Worker, s: Step, t: Tid)
    requires InTransaction(wk, t) && wk.mode.Stamping? && s.Stamp?
    ensures InTransaction(Next(wk, s), t)
    ensures Rollback(Next(wk, s).log, t, Next(wk, s).store) == Rollback(wk.log, t, wk.store)
  {
    hide Undo, HasKind, AfterJoin;
    var wk' := Next(wk, s);
    UndoOfStamp(Tail(wk.log, t), wk.store, wk'.store.updated, wk'.store.clock);
  }

  lemma ConservedByRollback(wk: Worker, wk': Worker, t: Tid)
    requires InTransaction(wk, t) && wk'.log == wk.log
    requires wk'.store == wk.store || wk'.store == Rollback(wk.log, t, wk.store)
    requires wk'.mode != Down ==> wk'.cur == t
    requires !wk'.mode.Writing?
    requires wk'.mode.Voting? || wk'.mode.Voted? ==> wk'.mode.t == t
    ensures InTransaction(wk', t)
    ensures Rollback(wk'.log, t, wk'.store) == Rollback(wk.log, t, wk.store)
  {
    UndoTwice(Tail(wk.log, t), wk.store);
  }

  /** Every step that logs nothing foreign, crashes and rollbacks included, keeps what a rollback would give. */
  lemma UndoConserved(wk: Worker, s: Step, t: Tid)
    requires InTransaction(wk, t) && Enabled(wk, s) && Inside(wk, s, t) && !Foreign(wk, s, t)
    ensures InTransaction(Next(wk, s), t)
    ensures Rollback(Next(wk, s).log, t, Next(wk, s).store) == Rollback(wk.log, t, wk.store)
  {
    if s.WriteValue? {
      ConservedByWrite(wk, t);
    } else if s.Stamp? {
      ConservedByStamp(wk, s, t);
    } else {
      ConservedByRest(wk, s, t);
    }
  }

  lemma ConservedByRest(wk: Worker, s: Step, t: Tid)
    requires InTransaction(wk, t) && Enabled(wk, s) && Inside(wk, s, t) && !Foreign(wk, s, t) && !s.WriteValue? && !s.Stamp?
    ensures InTransaction(Next(wk, s), t)
    ensures Rollback(Next(wk, s).log, t, Next(wk, s).store) == Rollback(wk.log, t, wk.store)
  {
    hide Next, InTransaction, Rollback, Foreign, Inside, Enabled;
    var wk' := Next(wk, s);
    if wk'.log == wk.log {
      QuietStep(wk, s, t);
      ConservedByRollback(wk, wk', t);
    } else {
      LoggingStep(wk, s, t);
      ConservedByAppend(wk, wk', wk'.log[|wk.log|], t);
    }
  }

  /** A step that neither logs nor overwrites undoes the transaction or leaves the store alone. */
  lemma QuietStep(wk: Worker, s: Step, t: Tid)
    requires InTransaction(wk, t) && Enabled(wk, s) && Inside(wk, s, t) && !s.WriteValue? && !s.Stamp?
    requires Next(wk, s).log == wk.log
    ensures var wk' := Next(wk, s);
      && (wk'.store == wk.store || wk'.store == Rollback(wk.log, t, wk.store))
      && (wk'.mode != Down ==> wk'.cur == t) && !(wk'.mode.Writing?)
      && (wk'.mode.Voting? || wk'.mode.Voted? ==> wk'.mode.t == t)
  {
    hide Rollback, Tail, HasKind, AfterJoin, VotesCommit, Apply, StampStore, UndoRecord, JoinRecord;
    LastTid(wk.log, t);
  }

  /** A step that logs leaves the store alone, and an undo record holds what it is about to overwrite. */
  lemma LoggingStep(wk: Worker, s: Step, t: Tid)
    requires InTransaction(wk, t) && Enabled(wk, s) && Inside(wk, s, t) && !Foreign(wk, s, t) && Next(wk, s).log != wk.log
    ensures var wk' := Next(wk, s);
      && AppendsOne(wk, wk') && wk'.store == wk.store && wk'.cur == wk.cur && wk.mode != Down
      && (wk'.mode.Voting? || wk'.mode.Voted? ==> wk'.mode.t == t)
      && (wk'.mode.Writing? ==> s == CmdUpdate(wk'.mode.u))
      && Covers(wk'.log[|wk.log|], s, t, wk.store)
  {
    NextLog(wk, s);
    LoggedCovers(wk, s, t);
    LoggingChanges(wk, s, t);
    hide Next, Rollback, Tail, HasKind, AfterJoin, VotesCommit;
  }

  lemma LoggingChanges(wk: Worker, s: Step, t: Tid)
    requires InTransaction(wk, t) && Enabled(wk, s) && Inside(wk, s, t) && Appended(wk, s) != []
    requires !Foreign(wk, s, t)
    ensures var wk' := Next(wk, s);
      && wk'.store == wk.store && wk'.cur == wk.cur && wk.mode != Down
      && (wk'.mode.Voting? || wk'.mode.Voted? ==> wk'.mode.t == t)
      && (wk'.mode.Writing? ==> s == CmdUpdate(wk'.mode.u))
  {
    hide Rollback, Tail, HasKind, AfterJoin, VotesCommit, Apply, StampStore, UndoRecord, JoinRecord, Rec, Recover;
  }

  /** `r` is about `t`, its old value is the present one, and it is of the field that `s` is about to overwrite. */
  predicate Covers(r: Record, s: Step, t: Tid, st: Store) {
    && r.tid == t
    && (r.kind == NewARec ==> r.oldValue == st.a)
    && (r.kind == NewBRec ==> r.oldValue == st.b)
    && (r.kind == NewIdRec ==> r.oldId == st.id)
    && (s.CmdUpdate? ==> FieldKind(s.u) == r.kind)
  }

  lemma LoggedCovers(wk: Worker, s: Step, t: Tid)
    requires InTransaction(wk, t) && Enabled(wk, s) && Inside(wk, s, t) && !Foreign(wk, s, t)
    ensures Appended(wk, s) == [] || (|Appended(wk, s)| == 1 && Covers(Appended(wk, s)[0], s, t, wk.store))
  {
    hide Rollback, Tail, HasKind, AfterJoin;
  }

  lemma LastTid(log: seq<Record>, t: Tid)
    requires HasKind(Tail(log, t), JoinRec)
    ensures log != [] && log[|log| - 1].tid == t
  {
  }

  /** What one step inside the transaction may append. */
  lemma InsideAppends(wk: Worker, s: Step, t: Tid)
    requires Enabled(wk, s) && Inside(wk, s, t) && (wk.run ==> wk.cur == t)
    ensures var wk' := Next(wk, s);
      wk'.log == wk.log ||
      (AppendsOne(wk, wk') && var r := wk'.log[|wk.log|]; (r.kind == JoinRec ==> r.tid != t) && (IsUpdate(r.kind) ==> r.tid == t))
  {
    NextLog(wk, s);
    hide Next, VotesCommit;
  }

  /** It does not start another transaction. */
  lemma InsideRuns(wk: Worker, s: Step, t: Tid)
    requires Enabled(wk, s) && Inside(wk, s, t) && (wk.run ==> wk.mode != Down && wk.cur == t)
    ensures Next(wk, s).run ==> Next(wk, s).mode != Down && Next(wk, s).cur == t
  {
    hide Rollback, VotesCommit, Apply, StampStore, UndoRecord, JoinRecord, Rec;
  }

  lemma JoinedAtKept(log: seq<Record>, r: Record, t: Tid, j: nat)
    requires JoinedAt(log, t, j) && (r.kind == JoinRec ==> r.tid != t) && (IsUpdate(r.kind) ==> r.tid == t)
    ensures JoinedAt(log + [r], t, j)
    ensures Clean(log + [r], t, j) <==> Clean(log, t, j) && r.tid == t
  {
    var more := log + [r];
    forall i | j < i < |more|
      ensures more[i].kind == JoinRec ==> more[i].tid != t
      ensures IsUpdate(more[i].kind) ==> more[i].tid == t
    {
      assert i < |log| ==> more[i] == log[i];
    }
    if Clean(more, t, j) {
      forall i | j <= i < |log| ensures log[i].tid == t { assert more[i] == log[i]; }
      assert more[|log|] == r;
    }
  }

  /** In a transaction whose log is clean, exactly the foreign steps break it. */
  lemma ForeignAppends(wk: Worker, s: Step, t: Tid)
    requires InTransaction(wk, t) && Enabled(wk, s) && Inside(wk, s, t)
    ensures var wk' := Next(wk, s);
      if Foreign(wk, s, t) then AppendsOne(wk, wk') && wk'.log[|wk.log|].tid != t
      else wk'.log == wk.log || (AppendsOne(wk, wk') && wk'.log[|wk.log|].tid == t)
  {
    NextLog(wk, s);
    hide Next, VotesCommit, Tail, HasKind, AfterJoin;
  }

  lemma JoinedStep(wk: Worker, s: Step, t: Tid, j: nat, st0: Store)
    requires Joined(wk, t, j, st0) && Enabled(wk, s) && Inside(wk, s, t)
    ensures Joined(Next(wk, s), t, j, st0)
    ensures Clean(Next(wk, s).log, t, j) <==> Clean(wk.log, t, j) && !Foreign(wk, s, t)
  {
    hide Next, Rollback, InTransaction, JoinedAt, Clean, IsUpdate, Inside, Foreign;
    var wk' := Next(wk, s);
    InsideAppends(wk, s, t);
    InsideRuns(wk, s, t);
    if wk'.log != wk.log {
      JoinedAtKept(wk.log, wk'.log[|wk.log|], t, j);
    }
    if Clean(wk.log, t, j) {
      ForeignAppends(wk, s, t);
      if !Foreign(wk, s, t) { UndoConserved(wk, s, t); }
    }
  }

  /** Over any run inside the transaction the log stays clean exactly if no step is foreign, and as long as it is clean,
      what a rollback would give does not change. */
  lemma {:induction false} UndoConservedRun(wk: Worker, ss: seq<Step>, t: Tid, j: nat, st0: Store)
    requires Joined(wk, t, j, st0) && InsideRun(wk, ss, t)
    ensures ValidRun(wk, ss)
    ensures Joined(Exec(wk, ss), t, j, st0)
    ensures Clean(Exec(wk, ss).log, t, j) <==> Clean(wk.log, t, j) && NoneForeign(wk, ss, t)
    decreases ss
  {
    if ss != [] {
      hide Joined, Clean, Inside, Foreign, Next;
      JoinedStep(wk, ss[0], t, j, st0);
      UndoConservedRun(Next(wk, ss[0]), ss[1..], t, j, st0);
    }
  }

  /** Joining `t` for the first time makes the present store the one a rollback restores. */
  lemma JoinSnapshot(wk: Worker, t: Tid, w: NodeId)
    requires wk.mode == Ready && !HasRec(wk.log, JoinRec, t)
    ensures var wk' := Next(wk, Recv(JoinSuccess(t, w)));
      InTransaction(wk', t) && Rollback(wk'.log, t, wk'.store) == wk.store
  {
    var r := JoinRecord(wk, t);
    TailAppend(wk.log, r, t);
    var tx := Tail(wk.log, t);
    assert forall i :: 0 <= i < |tx| ==> tx[i].kind != JoinRec;
    SkipToJoin(tx, r, wk.store);
    assert (tx + [r])[|tx|].kind == JoinRec;
  }

  lemma {:induction false} SkipToJoin(tx: seq<Record>, r: Record, st: Store)
    requires forall i :: 0 <= i < |tx| ==> tx[i].kind != JoinRec
    requires r.kind == JoinRec && r.clock == st.clock && r.time == st.updated
    ensures Undo(tx + [r], st) == st
  {
    if tx == [] {
      assert (tx + [r])[1..] == [];
    } else {
      assert (tx + [r])[1..] == tx[1..] + [r];
      SkipToJoin(tx[1..], r, st);
    }
  }

  lemma JoinStarts(wk: Worker, t: Tid, w: NodeId)
    requires wk.mode == Ready && !HasRec(wk.log, JoinRec, t)
    ensures Joined(Next(wk, Recv(JoinSuccess(t, w))), t, |wk.log|, wk.store)
    ensures Clean(Next(wk, Recv(JoinSuccess(t, w))).log, t, |wk.log|)
  {
    JoinSnapshot(wk, t, w);
    hide InTransaction, Rollback, Tail;
  }

  // ---------- undoing ----------

  /** The steps that undo: a local ABORT, a DECIDE_ABORT whatever it is about, and a restart that does not have to ask. */
  predicate Undoes(wk: Worker, s: Step) {
    || s == CmdAbort
    || (s.Recv? && s.m.Decide? && !s.m.commit)
    || (s == Restart && wk.log != [] && !AsksOnRestart(wk.log[|wk.log| - 1].kind))
  }

  /** The transaction an undoing step undoes. */
  function Undone(wk: Worker, s: Step): Tid {
    if s == Restart && wk.log != [] then wk.log[|wk.log| - 1].tid else wk.cur
  }

  lemma UndoingStep(wk: Worker, s: Step)
    requires Enabled(wk, s) && Undoes(wk, s)
    ensures Next(wk, s).store == Rollback(wk.log, Undone(wk, s), wk.store)
  {
    hide Rollback;
  }

  predicate SameValues(st: Store, st': Store) {
    st.a == st'.a && st.b == st'.b && st.id == st'.id
  }

  lemma {:induction false} NoJoinNoUndo(tx: seq<Record>, st: Store)
    requires forall i :: 0 <= i < |tx| ==> tx[i].kind != JoinRec
    ensures Undo(tx, st) == st
  {
    if tx != [] { NoJoinNoUndo(tx[1..], st); }
  }

  lemma {:induction false} NoUpdateNoUndo(tx: seq<Record>, st: Store)
    requires forall i :: 0 <= i < |tx| ==> !IsUpdate(tx[i].kind)
    ensures SameValues(Undo(tx, st), st)
  {
    if tx != [] {
      if tx[0].kind == JoinRec {
        OldestKeepsDefault(tx[1..], st.a, st.b, st.id);
      } else {
        NoUpdateNoUndo(tx[1..], st);
      }
    }
  }

  predicate NoJoinSince(log: seq<Record>, j: nat) {
    forall i :: j < i < |log| ==> log[i].kind != JoinRec
  }

  /** Once a record of another transaction was logged, no rollback of any transaction brings a value back. */
  lemma BrokenUndo(log: seq<Record>, t: Tid, j: nat, c: Tid, st: Store)
    requires JoinedAt(log, t, j) && !Clean(log, t, j)
    ensures SameValues(Rollback(log, c, st), st)
    ensures NoJoinSince(log, j) || c == t ==> Rollback(log, c, st) == st
  {
    var k := TxStart(log, c);
    var tx := log[k..];
    var i :| j <= i < |log| && log[i].tid != t;
    assert k > j;
    assert forall n :: 0 <= n < |tx| ==> tx[n] == log[k + n];
    if c == t {
      NoJoinNoUndo(tx, st);
    } else {
      NoUpdateNoUndo(tx, st);
      if NoJoinSince(log, j) { NoJoinNoUndo(tx, st); }
    }
  }

  lemma UndoesJoined(wk: Worker, s: Step, t: Tid, j: nat, st0: Store)
    requires Joined(wk, t, j, st0) && Enabled(wk, s) && Undoes(wk, s)
    ensures Clean(wk.log, t, j) ==> Next(wk, s).store == st0
    ensures !Clean(wk.log, t, j) ==> SameValues(Next(wk, s).store, wk.store)
    ensures !Clean(wk.log, t, j) && NoJoinSince(wk.log, j) ==> Next(wk, s).store == wk.store
  {
    UndoingStep(wk, s);
    if Clean(wk.log, t, j) {
      LastTid(wk.log, t);
    } else {
      BrokenUndo(wk.log, t, j, Undone(wk, s), wk.store);
    }
  }

  /** Crash-safe undo, exactly: after any run inside the transaction, with crashes, earlier rollbacks and messages about
      other transactions anywhere, an undoing step gives back the whole store as it was at the join if nothing foreign was
      logged since. If something was, it brings no value back, so that it restores the join's values if and only if they are
      already there. */
  lemma {:induction false} UndoRestoresJoin(wk0: Worker, t: Tid, w: NodeId, ss: seq<Step>, s: Step)
    requires wk0.mode == Ready && !HasRec(wk0.log, JoinRec, t)
    requires InsideRun(Next(wk0, Recv(JoinSuccess(t, w))), ss, t)
    ensures var wk1 := Next(wk0, Recv(JoinSuccess(t, w)));
      && ValidRun(wk1, ss)
      && var wk := Exec(wk1, ss);
         (Enabled(wk, s) && Undoes(wk, s) ==>
           && (NoneForeign(wk1, ss, t) ==> Next(wk, s).store == wk0.store)
           && (!NoneForeign(wk1, ss, t) ==> SameValues(Next(wk, s).store, wk.store))
           && (!NoneForeign(wk1, ss, t) && NoJoinSince(wk.log, |wk0.log|) ==> Next(wk, s).store == wk.store)
           && (SameValues(Next(wk, s).store, wk0.store) <==> NoneForeign(wk1, ss, t) || SameValues(wk.store, wk0.store)))
  {
    hide InsideRun, Exec, Next, Undoes, Joined, Clean, NoJoinSince, NoneForeign;
    var wk1 := Next(wk0, Recv(JoinSuccess(t, w)));
    JoinStarts(wk0, t, w);
    UndoConservedRun(wk1, ss, t, |wk0.log|, wk0.store);
    if Enabled(Exec(wk1, ss), s) && Undoes(Exec(wk1, ss), s) {
      UndoesJoined(Exec(wk1, ss), s, t, |wk0.log|, wk0.store);
    }
  }

  /** A write made while no transaction runs is undone by the next rollback exactly when it
      changed nothing or its field had been updated inside the transaction before. */
  lemma UnloggedWrite(wk: Worker, u: Update, t: Tid)
    requires InTransaction(wk, t) && wk.mode == Ready && !wk.run
    ensures var wk' := Next(Next(wk, CmdUpdate(u)), WriteValue);
      Rollback(wk'.log, t, wk'.store) == Rollback(wk.log, t, wk.store)
      <==> HasKind(AfterJoin(Tail(wk.log, t)), FieldKind(u)) || Apply(u, wk.store) == wk.store
  {
    UndoOfWrite(Tail(wk.log, t), u, wk.store);
  }
}
