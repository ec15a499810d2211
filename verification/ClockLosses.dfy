/** Events that are tagged before their clock is saved, when a crash comes in between: the log of tags has them, but no clock
    saved or sent knows of them. */
module ClockLosses {
  import opened Messages
  import opened VectorClock
  import opened Causality
  import opened ClockRuns

  lemma {:induction false} RankPrefix(log: Log, e: Event<seq<Entry>>, m: nat, q: NodeId, n: nat)
    requires n <= m <= |log|
    ensures Rank(log[..m] + [e], q, n) == Rank(log, q, n)
    decreases n
  {
    if n > 0 {
      RankPrefix(log, e, m, q, n - 1);
      assert (log[..m] + [e])[n - 1] == log[n - 1];
    }
  }

  /** What the entries of a lost event are. */
  lemma LostEntries(log: Log, g: Lost, q: NodeId)
    requires LostAt(log, g) && q != 0
    ensures At(g.event.clock, q) <= Rank(log, q, g.at) + if q == g.event.node then 1 else 0
    ensures q == g.event.node ==> At(g.event.clock, q) == Rank(log, q, g.at) + 1
  {
    hide ByRule, At;
    var more := log[..g.at] + [g.event];
    assert more[g.at] == g.event;
    EntryBound(more, g.at, q);
    RankStep(more, q, g.at);
    RankPrefix(log, g.event, g.at, q, g.at);
  }

  /** The first event of `q` from `m` on, given that there is one up to `j`. */
  lemma {:induction false} NextOf(log: Log, q: NodeId, m: nat, j: nat) returns (i: nat)
    requires m <= j < |log| && Rank(log, q, j + 1) > Rank(log, q, m)
    ensures m <= i <= j && log[i].node == q && Rank(log, q, i + 1) == Rank(log, q, m) + 1
    decreases j
  {
    if Rank(log, q, j) > Rank(log, q, m) { i := NextOf(log, q, m, j - 1); } else { i := j; }
  }

  /** Some event of `q` from position `m` on is `j` or happened before it. */
  ghost predicate ReachesBack(log: Log, q: NodeId, m: nat, j: nat) {
    exists i :: m <= i < |log| && log[i].node == q && (i == j || HappenedBefore(log, i, j))
  }

  lemma LaterCovers(log: Log, g: Lost, j: nat)
    requires ByRule(log) && LostAt(log, g) && g.at <= j < |log|
    ensures At(g.event.clock, g.event.node) <= At(log[j].clock, g.event.node) <==> ReachesBack(log, g.event.node, g.at, j)
  {
    hide ByRule, At, HappenedBefore, LostAt, Upto;
    var p := g.event.node;
    assert p != 0 by { LostNode(log, g); }
    LostEntries(log, g, p);
    EntryBound(log, j, p);
    if At(g.event.clock, p) <= At(log[j].clock, p) {
      var i := NextOf(log, p, g.at, j);
      EntryBound(log, i, p);
      UptoIffEntry(log, i, j);
      BeforeIsUpto(log, i, j);
    }
    if ReachesBack(log, p, g.at, j) {
      var i :| g.at <= i < |log| && log[i].node == p && (i == j || HappenedBefore(log, i, j));
      EntryBound(log, i, p);
      RankMonotone(log, p, g.at, i);
      RankStep(log, p, i);
      UptoIffEntry(log, i, j);
      BeforeIsUpto(log, i, j);
    }
  }

  lemma LostNode(log: Log, g: Lost)
    requires LostAt(log, g)
    ensures g.event.node != 0
  {
  }

  lemma EarlierCovered(log: Log, g: Lost, i: nat)
    requires ByRule(log) && LostAt(log, g) && i < g.at && log[i].node != 0
    ensures HappenedBefore(log[..g.at] + [g.event], i, g.at) <==> At(log[i].clock, log[i].node) <= At(g.event.clock, log[i].node)
    ensures At(g.event.clock, g.event.node) > At(log[i].clock, g.event.node)
  {
    hide ByRule, At, HappenedBefore, Rank;
    var more := log[..g.at] + [g.event];
    assert more[i] == log[i] && more[g.at] == g.event;
    Fidge(more, i, g.at);
    LostEntries(log, g, g.event.node);
    EntryBound(log, i, g.event.node);
    RankMonotone(log, g.event.node, i + 1, g.at);
  }

  /** A lost event against an earlier one: its clock tells causality like any other. */
  lemma LostTellsPast(c: Setup, s: State, k: nat, i: nat)
    requires c.Ok() && Reachable(c, s) && k < |s.lost| && i < s.lost[k].at
    ensures var g := s.lost[k];
      && g.at <= |s.log|
      && (HappenedBefore(s.log[..g.at] + [g.event], i, g.at) <==> At(s.log[i].clock, s.log[i].node) <= At(g.event.clock, s.log[i].node))
      && At(g.event.clock, g.event.node) > At(s.log[i].clock, g.event.node)
  {
    ReachableInv(c, s);
    LostInRun(c, s, k);
    hide Inv, ByRule, At, HappenedBefore, Reachable, LostAt;
    LostPlace(s.log, s.lost[k]);
    EarlierCovered(s.log, s.lost[k], i);
  }

  lemma LostPlace(log: Log, g: Lost)
    requires LostAt(log, g)
    ensures g.at <= |log|
  {
  }

  lemma LostInRun(c: Setup, s: State, k: nat)
    requires Inv(c, s) && k < |s.lost|
    ensures LostAt(s.log, s.lost[k]) && ByRule(s.log)
    ensures forall i :: 0 <= i < |s.log| ==> s.log[i].node != 0
  {
    hide ByRule, Good, SavedAt, VolatileAt;
  }

  lemma LaterRepeats(log: Log, g: Lost, j: nat)
    requires ByRule(log) && LostAt(log, g) && g.at <= j < |log| && log[j].node != 0
    ensures At(log[j].clock, log[j].node) <= At(g.event.clock, log[j].node) <==>
      log[j].node == g.event.node && Rank(log, g.event.node, j) == Rank(log, g.event.node, g.at)
  {
    hide ByRule, At, LostAt;
    var q := log[j].node;
    LostEntries(log, g, q);
    EntryBound(log, j, q);
    RankStep(log, q, j);
    RankMonotone(log, q, g.at, j);
  }

  /** A lost event against a later one: the later one's clock covers it exactly if its node's next event is that one or
      happened before it, as it should. But the lost event's clock covers a later one as well, and wrongly so, exactly if that
      is its node's next event: the two carry the same own entry. */
  lemma LostRepeats(c: Setup, s: State, k: nat, j: nat)
    requires c.Ok() && Reachable(c, s) && k < |s.lost| && s.lost[k].at <= j < |s.log|
    ensures var g := s.lost[k]; var p := g.event.node;
      && (At(g.event.clock, p) <= At(s.log[j].clock, p) <==> ReachesBack(s.log, p, g.at, j))
      && (At(s.log[j].clock, s.log[j].node) <= At(g.event.clock, s.log[j].node) <==>
          s.log[j].node == p && Rank(s.log, p, j) == Rank(s.log, p, g.at))
  {
    ReachableInv(c, s);
    LostInRun(c, s, k);
    hide Inv, ByRule, At, HappenedBefore, Reachable, LostAt;
    LaterCovers(s.log, s.lost[k], j);
    LaterRepeats(s.log, s.lost[k], j);
  }
}
