/** The nodes' clocks over whole runs: counted and merged in memory, saved, sent, lost in a crash and restored. */
module ClockRuns {
  import opened Messages
  import opened VectorClock
  import opened Causality

  /** The nodes, and which of them count a receipt before they merge (the manager does). */
  datatype Setup = Setup(nodes: set<NodeId>, countsFirst: set<NodeId>) {
    ghost predicate Ok() {
      0 !in nodes && |nodes| <= MAX_NODES
    }
  }

  /** A clock in memory is as saved, or already ahead by an event that is not saved yet. */
  datatype Pend = Calm | Dirty(src: Option<nat>)

  /** Everything ever sent stays in `net`: it may be received late, in any order, or never. */
  datatype Letter = Letter(event: nat, clock: seq<Entry>)

  /** An event that was tagged when the log had `at` events, and whose clock was lost before it was saved. */
  datatype Lost = Lost(at: nat, event: Event<seq<Entry>>)

  datatype State = State(vol: map<NodeId, seq<Entry>>, sav: map<NodeId, seq<Entry>>, pend: map<NodeId, Pend>,
                         net: seq<Letter>, log: Log, lost: seq<Lost>)

  datatype Step =
    | Start(p: NodeId)
    | Tick(p: NodeId)
    | Take(p: NodeId, k: nat)
    | Save(p: NodeId)
    | Emit(p: NodeId)
    | Crash(p: NodeId)
    | CrashTagged(p: NodeId)   // as for an ABORT, whose event is tagged before its clock is saved

  function Init(): State {
    State(map[], map[], map[], [], [], [])
  }

  /** The array of a node that starts for the first time. */
  function Fresh(p: NodeId): seq<Entry> {
    seq(MAX_NODES, i requires 0 <= i < MAX_NODES => if i == 0 then Entry(p, 1) else Entry(0, 0))
  }

  ghost predicate Enabled(c: Setup, s: State, l: Step) {
    match l
    case Start(p) => p in c.nodes && p !in s.sav
    case Tick(p) => Up(s, p) && s.pend[p].Calm? && At(s.vol[p], p) + 1 < WORD
    case Take(p, k) => Up(s, p) && s.pend[p].Calm? && At(s.vol[p], p) + 1 < WORD && k < |s.net|
    case Save(p) => Up(s, p) && s.pend[p].Dirty?
    case Emit(p) => Up(s, p) && s.pend[p].Calm? && Last(s.log, p, |s.log|) > 0
    case Crash(p) => Up(s, p)
    case CrashTagged(p) => Up(s, p) && s.pend[p] == Dirty(None)
  }

  predicate Up(s: State, p: NodeId) {
    p in s.vol && p in s.sav && p in s.pend
  }

  function Received(c: Setup, v: seq<Entry>, m: seq<Entry>, p: NodeId): seq<Entry> {
    if p in c.countsFirst then Merge(Bump(v, p), m) else Bump(Merge(v, m), p)
  }

  function Next(c: Setup, s: State, l: Step): State
    requires Enabled(c, s, l)
  {
    match l
    case Start(p) =>
      s.(vol := s.vol[p := Fresh(p)], sav := s.sav[p := Fresh(p)], pend := s.pend[p := Calm],
         log := s.log + [Event(p, None, Fresh(p))])
    case Tick(p) => s.(vol := s.vol[p := Bump(s.vol[p], p)], pend := s.pend[p := Dirty(None)])
    case Take(p, k) =>
      s.(vol := s.vol[p := Received(c, s.vol[p], s.net[k].clock, p)], pend := s.pend[p := Dirty(Some(s.net[k].event))])
    case Save(p) =>
      s.(sav := s.sav[p := s.vol[p]], pend := s.pend[p := Calm], log := s.log + [Event(p, s.pend[p].src, s.vol[p])])
    case Emit(p) => s.(net := s.net + [Letter(Last(s.log, p, |s.log|) - 1, s.vol[p])])
    case Crash(p) => s.(vol := s.vol[p := s.sav[p]], pend := s.pend[p := Calm])
    case CrashTagged(p) =>
      s.(vol := s.vol[p := s.sav[p]], pend := s.pend[p := Calm], lost := s.lost + [Lost(|s.log|, Event(p, None, s.vol[p]))])
  }

  ghost predicate ValidRun(c: Setup, s: State, ls: seq<Step>)
    decreases |ls|
  {
    ls == [] || (Enabled(c, s, ls[0]) && ValidRun(c, Next(c, s, ls[0]), ls[1..]))
  }

  ghost function Exec(c: Setup, s: State, ls: seq<Step>): State
    requires ValidRun(c, s, ls)
    decreases |ls|
  {
    if ls == [] then s else Exec(c, Next(c, s, ls[0]), ls[1..])
  }

  ghost predicate Reachable(c: Setup, s: State) {
    exists ls :: ValidRun(c, Init(), ls) && Exec(c, Init(), ls) == s
  }

  // ---------- the invariant ----------

  ghost predicate Good(c: Setup, v: seq<Entry>) {
    Shaped(v) && |v| == MAX_NODES && Ids(v) <= c.nodes
  }

  ghost predicate KeysOk(c: Setup, s: State) {
    s.vol.Keys == s.sav.Keys == s.pend.Keys && s.sav.Keys <= c.nodes
  }

  ghost predicate LogOk(c: Setup, s: State) {
    ByRule(s.log) && forall j :: 0 <= j < |s.log| ==> s.log[j].node in s.sav && Good(c, s.log[j].clock)
  }

  ghost predicate SavedAt(log: Log, v: seq<Entry>, p: NodeId) {
    p in Ids(v) && Last(log, p, |log|) > 0 && v == log[Last(log, p, |log|) - 1].clock
  }

  ghost predicate SavedOk(s: State) {
    forall p :: p in s.sav ==> SavedAt(s.log, s.sav[p], p)
  }

  ghost predicate Ahead(log: Log, sav: seq<Entry>, src: Option<nat>, p: NodeId, v: seq<Entry>) {
    && (src.Some? ==> src.value < |log|)
    && forall q :: q != 0 ==> At(v, q) == Max(At(sav, q), SourceEntry(log, src, q)) + if q == p then 1 else 0
  }

  ghost predicate VolatileAt(c: Setup, log: Log, sav: seq<Entry>, pend: Pend, v: seq<Entry>, p: NodeId) {
    if pend.Calm? then v == sav else Good(c, v) && p in Ids(v) && Ahead(log, sav, pend.src, p, v)
  }

  ghost predicate VolatileOk(c: Setup, s: State)
    requires KeysOk(c, s)
  {
    forall p :: p in s.vol ==> VolatileAt(c, s.log, s.sav[p], s.pend[p], s.vol[p], p)
  }

  ghost predicate NetOk(s: State) {
    forall k :: 0 <= k < |s.net| ==> s.net[k].event < |s.log| && s.net[k].clock == s.log[s.net[k].event].clock
  }

  /** A lost event obeys the rule where it was tagged. */
  ghost predicate LostAt(log: Log, g: Lost) {
    g.at <= |log| && g.event.node != 0 && g.event.src.None? && ByRule(log[..g.at] + [g.event])
  }

  ghost predicate LostOk(s: State) {
    forall k :: 0 <= k < |s.lost| ==> LostAt(s.log, s.lost[k])
  }

  ghost predicate Inv(c: Setup, s: State) {
    c.Ok() && KeysOk(c, s) && LogOk(c, s) && SavedOk(s) && VolatileOk(c, s) && NetOk(s) && LostOk(s)
  }

  // ---------- the log grows ----------

  lemma {:induction false} LastPrefix(log: Log, e: Event<seq<Entry>>, q: NodeId, n: nat)
    requires n <= |log|
    ensures Last(log + [e], q, n) == Last(log, q, n)
    decreases n
  {
    if n > 0 && log[n - 1].node != q { LastPrefix(log, e, q, n - 1); }
  }

  lemma AppendRule(log: Log, e: Event<seq<Entry>>)
    requires ByRule(log) && (e.src.Some? ==> e.src.value < |log|)
    requires forall q :: q != 0 ==>
      At(e.clock, q) == Max(Entry0(log, Last(log, e.node, |log|), q), SourceEntry(log, e.src, q)) + if q == e.node then 1 else 0
    ensures ByRule(log + [e])
  {
    hide RuleOf;
    var more := log + [e];
    forall j: nat, q: nat | j < |more| && q != 0 ensures RuleOf(more, j, q) {
      if j < |log| { RuleKept(log, e, j, q); } else { RuleNew(log, e, q); }
    }
  }

  lemma RuleKept(log: Log, e: Event<seq<Entry>>, j: nat, q: nat)
    requires j < |log| && (log[j].src.Some? ==> log[j].src.value < |log|) && RuleOf(log, j, q)
    ensures RuleOf(log + [e], j, q)
  {
    hide At, Last;
    LastPrefix(log, e, log[j].node, j);
  }

  lemma RuleNew(log: Log, e: Event<seq<Entry>>, q: nat)
    requires e.src.Some? ==> e.src.value < |log|
    requires At(e.clock, q) == Max(Entry0(log, Last(log, e.node, |log|), q), SourceEntry(log, e.src, q)) + if q == e.node then 1 else 0
    ensures RuleOf(log + [e], |log|, q)
  {
    hide At, Last;
    LastPrefix(log, e, e.node, |log|);
  }

  /** The last event of `q` after one more event. */
  lemma LastAppend(log: Log, e: Event<seq<Entry>>, q: NodeId)
    ensures Last(log + [e], q, |log| + 1) == if e.node == q then |log| + 1 else Last(log, q, |log|)
  {
    LastPrefix(log, e, q, |log|);
  }

  // ---------- what the invariant says of one node, one message ----------

  lemma NodeAt(c: Setup, s: State, p: NodeId)
    requires Inv(c, s) && p in s.sav
    ensures ByRule(s.log) && p in c.nodes && p != 0 && Up(s, p)
    ensures SavedAt(s.log, s.sav[p], p) && Good(c, s.sav[p])
    ensures VolatileAt(c, s.log, s.sav[p], s.pend[p], s.vol[p], p)
  {
    hide ByRule, Good, Last, Ids, Ahead;
  }

  lemma LetterAt(c: Setup, s: State, k: nat)
    requires Inv(c, s) && k < |s.net|
    ensures s.net[k].event < |s.log| && s.net[k].clock == s.log[s.net[k].event].clock && Good(c, s.net[k].clock)
  {
    hide ByRule, Good, SavedOk, VolatileOk;
  }

  // ---------- own-clock dominance ----------

  /** No saved event knows of more events of `p` than `p` itself has saved. */
  lemma LogDominated(log: Log, v: seq<Entry>, p: NodeId, j: nat)
    requires ByRule(log) && SavedAt(log, v, p) && p != 0 && j < |log|
    ensures At(log[j].clock, p) <= At(v, p)
  {
    hide At, ByRule, Ids, Rank;
    EntryBound(log, j, p);
    RankMonotone(log, p, j + 1, |log|);
    EntryBound(log, Last(log, p, |log|) - 1, p);
    RankLast(log, p, |log|);
  }

  /** What `q` has in memory is, for another node `p`, something that was saved once. */
  lemma VolatileDominated(c: Setup, s: State, p: NodeId, q: NodeId)
    requires Inv(c, s) && p in s.sav && q in s.sav
    ensures Up(s, p) && Up(s, q) && At(s.sav[q], p) <= At(s.sav[p], p)
    ensures At(s.vol[q], p) <= At(s.sav[p], p) + if q == p && s.pend[p].Dirty? then 1 else 0
    ensures q == p && s.pend[p].Dirty? ==> At(s.vol[q], p) == At(s.sav[p], p) + 1
  {
    NodeAt(c, s, p);
    NodeAt(c, s, q);
    hide At, ByRule, Ids, Inv, Good, Last, VolatileAt;
    SavedDominated(s.log, s.sav[q], q, s.sav[p], p);
    AheadDominated(c, s.log, s.sav[q], s.pend[q], s.vol[q], q, s.sav[p], p);
  }

  lemma SavedDominated(log: Log, w: seq<Entry>, q: NodeId, v: seq<Entry>, p: NodeId)
    requires ByRule(log) && SavedAt(log, v, p) && SavedAt(log, w, q) && p != 0
    ensures At(w, p) <= At(v, p)
  {
    hide At, ByRule, Ids;
    LogDominated(log, v, p, Last(log, q, |log|) - 1);
  }

  lemma AheadDominated(c: Setup, log: Log, sav: seq<Entry>, pend: Pend, w: seq<Entry>, q: NodeId, v: seq<Entry>, p: NodeId)
    requires ByRule(log) && SavedAt(log, v, p) && p != 0 && At(sav, p) <= At(v, p) && VolatileAt(c, log, sav, pend, w, q)
    requires p == q ==> sav == v
    ensures At(w, p) <= At(v, p) + if q == p && pend.Dirty? then 1 else 0
    ensures q == p && pend.Dirty? ==> At(w, p) == At(v, p) + 1
  {
    hide At, ByRule, Ids, Good, SavedAt;
    if pend.Dirty? && pend.src.Some? { LogDominated(log, v, p, pend.src.value); }
  }

  // ---------- every step keeps the invariant ----------

  lemma FreshAt(p: NodeId, q: NodeId)
    requires p != 0 && q != 0
    ensures Shaped(Fresh(p)) && |Fresh(p)| == MAX_NODES && Ids(Fresh(p)) == {p}
    ensures At(Fresh(p), q) == if q == p then 1 else 0
  {
    var v := Fresh(p);
    assert v[0].nodeId == p;
    KnownSlot(v, q);
    SlotOfId(v, 0);
  }

  lemma StartKeeps(c: Setup, s: State, p: NodeId)
    requires Inv(c, s) && Enabled(c, s, Start(p))
    ensures Inv(c, Next(c, s, Start(p)))
  {
    var e := Event(p, None, Fresh(p));
    hide At, Shaped, Ids, Fresh, Last, ByRule;
    FreshAt(p, p);
    var k := Last(s.log, p, |s.log|);
    assert k == 0 by {
      assert forall i :: 0 <= i < |s.log| ==> s.log[i].node != p;
    }
    forall q: NodeId | q != 0 ensures At(e.clock, q) == Max(Entry0(s.log, k, q), 0) + if q == p then 1 else 0 {
      FreshAt(p, q);
    }
    AppendRule(s.log, e);
    Logged(c, s, Next(c, s, Start(p)), e);
  }

  /** A step that appends the event `e` with the clock it saves. */
  lemma Logged(c: Setup, s: State, s': State, e: Event<seq<Entry>>)
    requires Inv(c, s) && e.node in c.nodes && Good(c, e.clock) && e.node in Ids(e.clock) && ByRule(s.log + [e])
    requires s' == s.(vol := s.vol[e.node := e.clock], sav := s.sav[e.node := e.clock], pend := s.pend[e.node := Calm],
                      log := s.log + [e])
    ensures Inv(c, s')
  {
    hide Good, Ids, Last, ByRule, SavedAt, VolatileAt, LostAt;
    forall k: nat | k < |s'.lost| ensures LostAt(s'.log, s'.lost[k]) { LostAppend(s.log, e, s.lost[k]); }
    forall q | q in s'.sav ensures SavedAt(s'.log, s'.sav[q], q) { SavedAppend(s.log, e, q, s'.sav[q]); }
    forall q | q in s'.vol ensures VolatileAt(c, s'.log, s'.sav[q], s'.pend[q], s'.vol[q], q) {
      VolatileAppend(c, s.log, e, s'.sav[q], s'.pend[q], s'.vol[q], q);
    }
  }

  lemma LostAppend(log: Log, e: Event<seq<Entry>>, g: Lost)
    requires LostAt(log, g)
    ensures LostAt(log + [e], g)
  {
    hide ByRule;
    assert (log + [e])[..g.at] == log[..g.at];
  }

  lemma SavedAppend(log: Log, e: Event<seq<Entry>>, q: NodeId, v: seq<Entry>)
    requires if q == e.node then v == e.clock && q in Ids(v) else SavedAt(log, v, q)
    ensures SavedAt(log + [e], v, q)
  {
    hide Ids, Last;
    LastAppend(log, e, q);
  }

  lemma VolatileAppend(c: Setup, log: Log, e: Event<seq<Entry>>, sav: seq<Entry>, pend: Pend, v: seq<Entry>, q: NodeId)
    requires VolatileAt(c, log, sav, pend, v, q) || (pend.Calm? && v == sav)
    ensures VolatileAt(c, log + [e], sav, pend, v, q)
  {
    hide Ids, At, Good;
    if pend.Dirty? {
      forall r: NodeId | r != 0 ensures SourceEntry(log + [e], pend.src, r) == SourceEntry(log, pend.src, r) {}
    }
  }

  lemma AheadAppends(c: Setup, log: Log, sav: seq<Entry>, src: Option<nat>, p: NodeId, v: seq<Entry>)
    requires ByRule(log) && SavedAt(log, sav, p) && Ahead(log, sav, src, p, v)
    ensures ByRule(log + [Event(p, src, v)])
  {
    hide At, Ids, Last, ByRule;
    AppendRule(log, Event(p, src, v));
  }

  lemma SaveKeeps(c: Setup, s: State, p: NodeId)
    requires Inv(c, s) && Enabled(c, s, Save(p))
    ensures Inv(c, Next(c, s, Save(p)))
  {
    hide Good, Ids, ByRule, Inv, SavedAt, Ahead;
    NodeAt(c, s, p);
    assert Good(c, s.vol[p]) && p in Ids(s.vol[p]) && Ahead(s.log, s.sav[p], s.pend[p].src, p, s.vol[p]);
    AheadAppends(c, s.log, s.sav[p], s.pend[p].src, p, s.vol[p]);
    hide VolatileAt;
    Logged(c, s, Next(c, s, Save(p)), Event(p, s.pend[p].src, s.vol[p]));
  }

  /** A step that only puts the clock in memory ahead of the saved one, or back to it. */
  lemma AheadKeeps(c: Setup, s: State, p: NodeId, v: seq<Entry>, pend: Pend)
    requires Inv(c, s) && Up(s, p) && VolatileAt(c, s.log, s.sav[p], pend, v, p)
    ensures Inv(c, s.(vol := s.vol[p := v], pend := s.pend[p := pend]))
  {
    hide VolatileAt, LogOk, SavedOk, NetOk, LostOk;
    var s' := s.(vol := s.vol[p := v], pend := s.pend[p := pend]);
    forall q | q in s'.vol ensures VolatileAt(c, s'.log, s'.sav[q], s'.pend[q], s'.vol[q], q) {}
    SameLog(c, s, s');
  }

  lemma SameLog(c: Setup, s: State, s': State)
    requires LogOk(c, s) && SavedOk(s) && NetOk(s) && LostOk(s)
    requires s'.log == s.log && s'.sav == s.sav && s'.net == s.net && s'.lost == s.lost
    ensures LogOk(c, s') && SavedOk(s') && NetOk(s') && LostOk(s')
  {
    hide ByRule, Good, SavedAt, LostAt;
  }

  lemma TickAhead(c: Setup, log: Log, v: seq<Entry>, p: NodeId)
    requires Good(c, v) && p in Ids(v) && p != 0 && At(v, p) + 1 < WORD
    ensures VolatileAt(c, log, v, Dirty(None), Bump(v, p), p)
  {
    hide Shaped, Ids, At, Bump;
    forall q: NodeId | q != 0 ensures At(Bump(v, p), q) == At(v, q) + if q == p then 1 else 0 {
      BumpAt(v, p, q);
    }
    BumpAt(v, p, p);
  }

  lemma TickKeeps(c: Setup, s: State, p: NodeId)
    requires Inv(c, s) && Enabled(c, s, Tick(p))
    ensures Inv(c, Next(c, s, Tick(p)))
  {
    NodeAt(c, s, p);
    hide Inv, Good, Ids, ByRule, At, Bump, Ahead, Last;
    assert s.vol[p] == s.sav[p] && p in Ids(s.vol[p]);
    TickAhead(c, s.log, s.vol[p], p);
    AheadKeeps(c, s, p, Bump(s.vol[p], p), Dirty(None));
  }

  /** Counting first and merging first come to the same, because no message is ahead of its receiver's own count. */
  lemma EitherOrder(c: Setup, s: State, p: NodeId, k: nat)
    requires Inv(c, s) && Enabled(c, s, Take(p, k))
    ensures At(s.net[k].clock, p) <= At(s.vol[p], p)
    ensures Merge(Bump(s.vol[p], p), s.net[k].clock) == Bump(Merge(s.vol[p], s.net[k].clock), p)
  {
    NodeAt(c, s, p);
    LetterAt(c, s, k);
    hide Inv, ByRule, At, Ids, Shaped, Last;
    LogDominated(s.log, s.sav[p], p, s.net[k].event);
    CountFirstOrLast(s.vol[p], s.net[k].clock, p);
  }

  lemma TakeAhead(c: Setup, log: Log, v: seq<Entry>, p: NodeId, e: nat)
    requires c.Ok() && e < |log| && Good(c, v) && Good(c, log[e].clock) && p in Ids(v) && p != 0
    requires At(log[e].clock, p) <= At(v, p) && At(v, p) + 1 < WORD
    ensures VolatileAt(c, log, v, Dirty(Some(e)), Bump(Merge(v, log[e].clock), p), p)
  {
    hide Shaped, Ids, At, Bump, Merge, Good;
    ReceivedAt(c, v, log[e].clock, p);
  }

  lemma TakeKeeps(c: Setup, s: State, p: NodeId, k: nat)
    requires Inv(c, s) && Enabled(c, s, Take(p, k))
    ensures Inv(c, Next(c, s, Take(p, k)))
  {
    EitherOrder(c, s, p, k);
    NodeAt(c, s, p);
    LetterAt(c, s, k);
    InvOk(c, s);
    hide Inv, Good, Ids, ByRule, At, Bump, Merge, Ahead, Last;
    assert s.vol[p] == s.sav[p] && p in Ids(s.vol[p]);
    TakeAhead(c, s.log, s.vol[p], p, s.net[k].event);
    AheadKeeps(c, s, p, Bump(Merge(s.vol[p], s.net[k].clock), p), Dirty(Some(s.net[k].event)));
  }

  lemma InvOk(c: Setup, s: State)
    requires Inv(c, s)
    ensures c.Ok()
  {
  }

  lemma FitsNodes(c: Setup, a: set<nat>)
    requires c.Ok() && a <= c.nodes
    ensures |a| <= MAX_NODES
  {
    assert |c.nodes - a| == |c.nodes| - |a|;
  }

  lemma ReceivedAt(c: Setup, v: seq<Entry>, m: seq<Entry>, p: NodeId)
    requires c.Ok() && Good(c, v) && Good(c, m) && p in Ids(v) && p != 0 && At(m, p) <= At(v, p) && At(v, p) + 1 < WORD
    ensures var r := Bump(Merge(v, m), p);
      Good(c, r) && p in Ids(r) && forall q :: q != 0 ==> At(r, q) == Max(At(v, q), At(m, q)) + if q == p then 1 else 0
  {
    hide Shaped, Ids, At, Bump, Merge;
    FitsNodes(c, Ids(v) + Ids(m));
    MergeIsMax(v, m);
    MergeChar(v, m);
    var w := Merge(v, m);
    BumpAt(w, p, p);
    forall q: NodeId | q != 0 ensures At(Bump(w, p), q) == Max(At(v, q), At(m, q)) + if q == p then 1 else 0 {
      BumpAt(w, p, q);
    }
  }

  lemma EmitKeeps(c: Setup, s: State, p: NodeId)
    requires Inv(c, s) && Enabled(c, s, Emit(p))
    ensures Inv(c, Next(c, s, Emit(p)))
  {
    hide At, Shaped, Ids, ByRule;
  }

  lemma CrashKeeps(c: Setup, s: State, p: NodeId)
    requires Inv(c, s) && Enabled(c, s, Crash(p))
    ensures Inv(c, Next(c, s, Crash(p)))
  {
    hide Inv;
    AheadKeeps(c, s, p, s.sav[p], Calm);
  }

  lemma CrashTaggedKeeps(c: Setup, s: State, p: NodeId)
    requires Inv(c, s) && Enabled(c, s, CrashTagged(p))
    ensures Inv(c, Next(c, s, CrashTagged(p)))
  {
    hide Inv, Ahead, SavedAt, Good, ByRule, Ids;
    NodeAt(c, s, p);
    AheadAppends(c, s.log, s.sav[p], None, p, s.vol[p]);
    AheadKeeps(c, s, p, s.sav[p], Calm);
    OneMoreLost(c, s.(vol := s.vol[p := s.sav[p]], pend := s.pend[p := Calm]), Lost(|s.log|, Event(p, None, s.vol[p])));
  }

  lemma OneMoreLost(c: Setup, s: State, g: Lost)
    requires Inv(c, s) && g.at == |s.log| && g.event.node != 0 && g.event.src.None? && ByRule(s.log + [g.event])
    ensures Inv(c, s.(lost := s.lost + [g]))
  {
    hide ByRule, Good, SavedAt, VolatileAt;
    assert s.log[..g.at] == s.log;
  }

  lemma {:induction false} StepKeeps(c: Setup, s: State, l: Step)
    requires Inv(c, s) && Enabled(c, s, l)
    ensures Inv(c, Next(c, s, l))
  {
    hide Inv, Enabled, Next;
    match l {
      case Start(p) => StartKeeps(c, s, p);
      case Tick(p) => TickKeeps(c, s, p);
      case Take(p, k) => TakeKeeps(c, s, p, k);
      case Save(p) => SaveKeeps(c, s, p);
      case Emit(p) => EmitKeeps(c, s, p);
      case Crash(p) => CrashKeeps(c, s, p);
      case CrashTagged(p) => CrashTaggedKeeps(c, s, p);
    }
  }

  lemma {:induction false} RunKeeps(c: Setup, s: State, ls: seq<Step>)
    requires Inv(c, s) && ValidRun(c, s, ls)
    ensures Inv(c, Exec(c, s, ls))
    decreases |ls|
  {
    if ls != [] {
      StepKeeps(c, s, ls[0]);
      RunKeeps(c, Next(c, s, ls[0]), ls[1..]);
    }
  }

  lemma ReachableInv(c: Setup, s: State)
    requires c.Ok() && Reachable(c, s)
    ensures Inv(c, s)
  {
    var ls :| ValidRun(c, Init(), ls) && Exec(c, Init(), ls) == s;
    RunKeeps(c, Init(), ls);
  }

  // ---------- the theorems ----------

  /** In every run, with loss, reordering, crashes and restarts: one event happened before another exactly when its own
      entry is at most the other's entry for its node. */
  lemma ClocksTellCausality(c: Setup, s: State, i: nat, j: nat)
    requires c.Ok() && Reachable(c, s) && i < |s.log| && j < |s.log| && i != j
    ensures HappenedBefore(s.log, i, j) <==> At(s.log[i].clock, s.log[i].node) <= At(s.log[j].clock, s.log[i].node)
  {
    ReachableInv(c, s);
    Fidge(s.log, i, j);
  }

  /** Each entry of each event's clock counts exactly that node's events in the causal past. */
  lemma EntriesCount(c: Setup, s: State, j: nat, q: NodeId)
    requires c.Ok() && Reachable(c, s) && j < |s.log| && q != 0
    ensures At(s.log[j].clock, q) == |Past(s.log, q, j)|
  {
    ReachableInv(c, s);
    EntryCountsPast(s.log, q, j);
  }

  /** Own-clock dominance: no clock of another node and no message knows a larger time for `p` than `p` has saved. */
  lemma OwnClockDominates(c: Setup, s: State, p: NodeId)
    requires c.Ok() && Reachable(c, s) && p in s.sav
    ensures forall k :: 0 <= k < |s.net| ==> At(s.net[k].clock, p) <= At(s.sav[p], p)
    ensures forall q :: q in s.vol && q in s.sav && q != p ==> At(s.vol[q], p) <= At(s.sav[p], p) && At(s.sav[q], p) <= At(s.sav[p], p)
    ensures p in s.vol && p in s.pend && At(s.vol[p], p) == At(s.sav[p], p) + if s.pend[p].Dirty? then 1 else 0
  {
    ReachableInv(c, s);
    NodeAt(c, s, p);
    hide Reachable, Inv, At, ByRule, SavedAt;
    forall k: nat | k < |s.net| ensures At(s.net[k].clock, p) <= At(s.sav[p], p) {
      LetterAt(c, s, k);
      LogDominated(s.log, s.sav[p], p, s.net[k].event);
    }
    forall q | q in s.vol && q in s.sav && q != p ensures At(s.vol[q], p) <= At(s.sav[p], p) && At(s.sav[q], p) <= At(s.sav[p], p) {
      VolatileDominated(c, s, p, q);
    }
    VolatileDominated(c, s, p, p);
  }

  /** So in every run the manager's order of counting and merging gives the array the worker's order gives. */
  lemma OrderOfCounting(c: Setup, s: State, p: NodeId, k: nat)
    requires c.Ok() && Reachable(c, s) && Enabled(c, s, Take(p, k))
    ensures Received(c.(countsFirst := {p}), s.vol[p], s.net[k].clock, p) == Received(c.(countsFirst := {}), s.vol[p], s.net[k].clock, p)
  {
    ReachableInv(c, s);
    EitherOrder(c, s, p, k);
  }
}
