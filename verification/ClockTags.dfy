/** Causality among all events a run has tagged, those with a lost clock included: happened-before over tags, and exactly where
    the clocks tell it wrongly. */
module ClockTags {
  import opened Messages
  import opened VectorClock
  import opened Causality
  import opened ClockRuns
  import opened ClockLosses

  /** A tagged event: one in the log, or one whose clock was lost. */
  datatype Tag = Saved(i: nat) | Gone(k: nat)

  predicate IsTag(s: State, x: Tag) {
    match x
    case Saved(i) => i < |s.log|
    case Gone(k) => k < |s.lost| && s.lost[k].at <= |s.log|
  }

  function EventOf(s: State, x: Tag): Event<seq<Entry>>
    requires IsTag(s, x)
  {
    match x
    case Saved(i) => s.log[i]
    case Gone(k) => s.lost[k].event
  }

  /** How many events the log had when `x` was tagged. */
  function When(s: State, x: Tag): (n: nat)
    requires IsTag(s, x)
    ensures n <= |s.log|
  {
    match x
    case Saved(i) => i
    case Gone(k) => s.lost[k].at
  }

  predicate Earlier(s: State, x: Tag, y: Tag)
    requires IsTag(s, x) && IsTag(s, y)
  {
    || When(s, x) < When(s, y)
    || (When(s, x) == When(s, y) && x.Gone? && (y.Saved? || x.k < y.k))
  }

  /** One tagged event directly before another: earlier at the same node, or the send of what the other receives. */
  predicate TagEdge(s: State, x: Tag, y: Tag) {
    && IsTag(s, x) && IsTag(s, y) && Earlier(s, x, y)
    && (EventOf(s, x).node == EventOf(s, y).node || (x.Saved? && EventOf(s, y).src == Some(x.i)))
  }

  predicate TagPath(s: State, p: seq<Tag>) {
    p != [] && IsTag(s, p[|p| - 1]) && forall n :: 0 <= n < |p| - 1 ==> TagEdge(s, p[n], p[n + 1])
  }

  ghost predicate TaggedBefore(s: State, x: Tag, y: Tag) {
    exists p :: TagPath(s, p) && |p| > 1 && p[0] == x && p[|p| - 1] == y
  }

  /** The clock of `y` covers `x`. */
  predicate Covers(s: State, y: Tag, x: Tag)
    requires IsTag(s, x) && IsTag(s, y)
  {
    At(EventOf(s, x).clock, EventOf(s, x).node) <= At(EventOf(s, y).clock, EventOf(s, x).node)
  }

  /** `x` carries the own entry of the lost `y` again: it comes later at the same node, and nothing of that node was saved in
      between. */
  predicate Repeats(s: State, x: Tag, y: Tag)
    requires IsTag(s, x) && IsTag(s, y)
  {
    && y.Gone? && Earlier(s, y, x) && EventOf(s, x).node == EventOf(s, y).node
    && Rank(s.log, EventOf(s, y).node, When(s, x)) == Rank(s.log, EventOf(s, y).node, When(s, y))
  }

  // ---------- clocks grow along happened-before ----------

  lemma {:induction false} SameNodeGrows(log: Log, i: nat, j: nat, q: NodeId)
    requires ByRule(log) && i < j < |log| && log[i].node == log[j].node && q != 0
    ensures At(log[i].clock, q) <= At(log[j].clock, q)
    decreases j
  {
    hide ByRule, At;
    RuleAt(log, j, q);
    var k := Last(log, log[j].node, j);
    if i < k - 1 { SameNodeGrows(log, i, k - 1, q); }
  }

  lemma EdgeGrows(log: Log, i: nat, j: nat, q: NodeId)
    requires ByRule(log) && Edge(log, i, j) && q != 0
    ensures At(log[i].clock, q) <= At(log[j].clock, q)
  {
    if log[i].node == log[j].node {
      SameNodeGrows(log, i, j, q);
    } else {
      hide ByRule, At;
      RuleAt(log, j, q);
    }
  }

  lemma {:induction false} LastPrefixOf(log: Log, e: Event<seq<Entry>>, m: nat, q: NodeId, n: nat)
    requires n <= m <= |log|
    ensures Last(log[..m] + [e], q, n) == Last(log, q, n)
    decreases n
  {
    if n > 0 {
      assert (log[..m] + [e])[n - 1] == log[n - 1];
      if log[n - 1].node != q { LastPrefixOf(log, e, m, q, n - 1); }
    }
  }

  /** The lost event itself, by the rule where it was tagged. */
  lemma LostRule(log: Log, g: Lost, q: NodeId)
    requires LostAt(log, g) && q != 0
    ensures At(g.event.clock, q) == Entry0(log, Last(log, g.event.node, g.at), q) + if q == g.event.node then 1 else 0
  {
    hide ByRule, At;
    var more := log[..g.at] + [g.event];
    assert more[g.at] == g.event;
    RuleAt(more, g.at, q);
    LastPrefixOf(log, g.event, g.at, g.event.node, g.at);
  }

  /** A lost event's clock is below that of every later event of its node. */
  lemma {:induction false} LostGrows(log: Log, g: Lost, j: nat, q: NodeId)
    requires ByRule(log) && LostAt(log, g) && g.at <= j < |log| && log[j].node == g.event.node && q != 0
    ensures At(g.event.clock, q) <= At(log[j].clock, q)
    decreases j
  {
    hide ByRule, At, LostAt;
    var k := Last(log, g.event.node, j);
    RuleAt(log, j, q);
    if k > g.at {
      LostGrows(log, g, k - 1, q);
    } else {
      LostRule(log, g, q);
      SameLast(log, g.event.node, g.at, j);
    }
  }

  lemma {:induction false} SameLast(log: Log, q: NodeId, m: nat, n: nat)
    requires m <= n <= |log| && Last(log, q, n) <= m
    ensures Last(log, q, m) == Last(log, q, n)
    decreases n
  {
    if m < n { SameLast(log, q, m, n - 1); }
  }

  /** Another lost event, seen from where `g` was tagged. */
  lemma LostWithin(log: Log, g: Lost, h: Lost)
    requires LostAt(log, g) && LostAt(log, h) && g.at <= h.at
    ensures var more := log[..h.at] + [h.event]; LostAt(more, g) && ByRule(more) && more[h.at] == h.event
  {
    var more := log[..h.at] + [h.event];
    assert more[..g.at] == log[..g.at];
  }

  lemma GrowsToLost(log: Log, i: nat, g: Lost, q: NodeId)
    requires LostAt(log, g) && i < g.at && log[i].node == g.event.node && q != 0
    ensures At(log[i].clock, q) <= At(g.event.clock, q)
  {
    LostWithin(log, g, g);
    hide LostAt, ByRule, At;
    SameNodeGrows(log[..g.at] + [g.event], i, g.at, q);
  }

  lemma LostToLost(log: Log, g: Lost, h: Lost, q: NodeId)
    requires LostAt(log, g) && LostAt(log, h) && g.at <= h.at && g.event.node == h.event.node && q != 0
    ensures At(g.event.clock, q) <= At(h.event.clock, q)
  {
    LostWithin(log, g, h);
    hide LostAt, ByRule, At;
    LostGrows(log[..h.at] + [h.event], g, h.at, q);
  }

  lemma TagEdgeGrows(c: Setup, s: State, x: Tag, y: Tag, q: NodeId)
    requires Inv(c, s) && TagEdge(s, x, y) && q != 0
    ensures At(EventOf(s, x).clock, q) <= At(EventOf(s, y).clock, q)
  {
    TagIn(c, s, x);
    TagIn(c, s, y);
    hide Inv, ByRule, At, LostAt;
    match (x, y)
    case (Saved(i), Saved(j)) => EdgeGrows(s.log, i, j, q);
    case (Saved(i), Gone(k)) => GrowsToLost(s.log, i, s.lost[k], q);
    case (Gone(k), Saved(j)) => LostGrows(s.log, s.lost[k], j, q);
    case (Gone(k), Gone(l)) => LostToLost(s.log, s.lost[k], s.lost[l], q);
  }

  lemma TagIn(c: Setup, s: State, x: Tag)
    requires Inv(c, s) && IsTag(s, x)
    ensures ByRule(s.log) && EventOf(s, x).node != 0
    ensures x.Gone? ==> LostAt(s.log, s.lost[x.k]) && EventOf(s, x).src.None?
  {
    hide ByRule, Good, SavedAt, VolatileAt;
  }

  lemma {:induction false} PathGrows(c: Setup, s: State, p: seq<Tag>, q: NodeId)
    requires Inv(c, s) && TagPath(s, p) && q != 0
    ensures IsTag(s, p[0]) && At(EventOf(s, p[0]).clock, q) <= At(EventOf(s, p[|p| - 1]).clock, q)
    ensures |p| > 1 ==> Earlier(s, p[0], p[|p| - 1])
    decreases |p|
  {
    if |p| > 1 {
      assert TagEdge(s, p[0], p[1]);
      hide Inv, At, TagEdge;
      TagEdgeGrows(c, s, p[0], p[1], q);
      assert EdgeTags(s, p[0], p[1]) by { TagEdgeTags(s, p[0], p[1]); }
      var rest := p[1..];
      forall n | 0 <= n < |rest| - 1 ensures TagEdge(s, rest[n], rest[n + 1]) { assert TagEdge(s, p[n + 1], p[n + 2]); }
      PathGrows(c, s, rest, q);
    }
  }

  predicate EdgeTags(s: State, x: Tag, y: Tag) {
    IsTag(s, x) && IsTag(s, y) && Earlier(s, x, y)
  }

  lemma TagEdgeTags(s: State, x: Tag, y: Tag)
    requires TagEdge(s, x, y)
    ensures EdgeTags(s, x, y)
  {
  }

  // ---------- paths in the log are paths over tags ----------

  /** An event of the log up to `at`, or the lost event tagged there. */
  function TagOf(at: nat, k: nat, i: nat): Tag {
    if i < at then Saved(i) else Gone(k)
  }

  lemma LogPath(s: State, p: seq<nat>)
    requires Path(s.log, p)
    ensures TagPath(s, seq(|p|, n requires 0 <= n < |p| => Saved(p[n])))
  {
    var tags := seq(|p|, n requires 0 <= n < |p| => Saved(p[n]));
    forall n | 0 <= n < |tags| - 1 ensures TagEdge(s, tags[n], tags[n + 1]) { assert Edge(s.log, p[n], p[n + 1]); }
  }

  lemma LostEdge(s: State, k: nat, a: nat, b: nat)
    requires IsTag(s, Gone(k)) && s.lost[k].event.src.None?
    requires Edge(s.log[..s.lost[k].at] + [s.lost[k].event], a, b)
    ensures TagEdge(s, TagOf(s.lost[k].at, k, a), TagOf(s.lost[k].at, k, b))
  {
    var more := s.log[..s.lost[k].at] + [s.lost[k].event];
    assert a < s.lost[k].at && more[a] == s.log[a];
    assert b < s.lost[k].at ==> more[b] == s.log[b];
  }

  /** The tags of a path that ends, or does not, in the lost event. */
  function Tags(at: nat, k: nat, p: seq<nat>): seq<Tag> {
    seq(|p|, n requires 0 <= n < |p| => TagOf(at, k, p[n]))
  }

  lemma LostPath(s: State, k: nat, p: seq<nat>)
    requires IsTag(s, Gone(k)) && s.lost[k].event.src.None?
    requires Path(s.log[..s.lost[k].at] + [s.lost[k].event], p)
    ensures TagPath(s, Tags(s.lost[k].at, k, p))
  {
    hide TagEdge, Edge;
    var tags := Tags(s.lost[k].at, k, p);
    forall n | 0 <= n < |tags| - 1 ensures TagEdge(s, tags[n], tags[n + 1]) { LostEdge(s, k, p[n], p[n + 1]); }
  }

  lemma LogBefore(s: State, i: nat, j: nat)
    requires HappenedBefore(s.log, i, j)
    ensures TaggedBefore(s, Saved(i), Saved(j))
  {
    var p :| Path(s.log, p) && |p| > 1 && p[0] == i && p[|p| - 1] == j;
    LogPath(s, p);
    var tags := seq(|p|, n requires 0 <= n < |p| => Saved(p[n]));
    assert tags[0] == Saved(i) && tags[|tags| - 1] == Saved(j);
  }

  lemma LostBefore(c: Setup, s: State, i: nat, k: nat)
    requires Inv(c, s) && k < |s.lost| && i < s.lost[k].at <= |s.log|
    requires HappenedBefore(s.log[..s.lost[k].at] + [s.lost[k].event], i, s.lost[k].at)
    ensures TaggedBefore(s, Saved(i), Gone(k))
  {
    var g := s.lost[k];
    var p :| Path(s.log[..g.at] + [g.event], p) && |p| > 1 && p[0] == i && p[|p| - 1] == g.at;
    TagIn(c, s, Gone(k));
    LostPath(s, k, p);
    var tags := Tags(g.at, k, p);
    assert tags[0] == Saved(i) && tags[|tags| - 1] == Gone(k);
  }

  lemma EdgeBefore(s: State, x: Tag, y: Tag)
    requires TagEdge(s, x, y)
    ensures TaggedBefore(s, x, y)
  {
    var p := [x, y];
    assert TagPath(s, p) && p[0] == x && p[|p| - 1] == y;
  }

  lemma EdgeThenBefore(s: State, x: Tag, y: Tag, z: Tag)
    requires TagEdge(s, x, y) && TaggedBefore(s, y, z)
    ensures TaggedBefore(s, x, z)
  {
    var p :| TagPath(s, p) && |p| > 1 && p[0] == y && p[|p| - 1] == z;
    var more := [x] + p;
    forall n | 0 <= n < |more| - 1 ensures TagEdge(s, more[n], more[n + 1]) {
      if n > 0 { assert TagEdge(s, p[n - 1], p[n]); }
    }
    assert TagPath(s, more) && more[0] == x && more[|more| - 1] == z;
  }

  // ---------- what a clock that covers another means ----------

  lemma SavedGone(s: State, i: nat, k: nat)
    requires i < |s.log| && IsTag(s, Gone(k))
    ensures var e, g := s.log[i], s.lost[k];
      && (Covers(s, Gone(k), Saved(i)) <==> At(e.clock, e.node) <= At(g.event.clock, e.node))
      && (Repeats(s, Saved(i), Gone(k)) <==>
          g.at <= i && e.node == g.event.node && Rank(s.log, g.event.node, i) == Rank(s.log, g.event.node, g.at))
  {
    hide At, Rank;
  }

  lemma SavedCoversGone(c: Setup, s: State, i: nat, k: nat)
    requires Inv(c, s) && i < |s.log| && IsTag(s, Gone(k))
    ensures Covers(s, Gone(k), Saved(i)) ==> TaggedBefore(s, Saved(i), Gone(k)) || Repeats(s, Saved(i), Gone(k))
    ensures Repeats(s, Saved(i), Gone(k)) ==> Covers(s, Gone(k), Saved(i))
  {
    TagIn(c, s, Gone(k));
    TagIn(c, s, Saved(i));
    SavedGone(s, i, k);
    hide Inv, ByRule, At, HappenedBefore, TaggedBefore, LostAt, Rank, Covers, Repeats;
    var g := s.lost[k];
    if i < g.at {
      EarlierCovered(s.log, g, i);
      if Covers(s, Gone(k), Saved(i)) { LostBefore(c, s, i, k); }
    } else {
      LaterRepeats(s.log, g, i);
    }
  }

  lemma SavedCovers(c: Setup, s: State, i: nat, y: Tag)
    requires Inv(c, s) && i < |s.log| && IsTag(s, y) && y != Saved(i)
    ensures Covers(s, y, Saved(i)) ==> TaggedBefore(s, Saved(i), y) || Repeats(s, Saved(i), y)
    ensures Repeats(s, Saved(i), y) ==> Covers(s, y, Saved(i))
  {
    TagIn(c, s, Saved(i));
    hide Inv, ByRule, At, HappenedBefore, TaggedBefore, LostAt, Rank;
    match y
    case Saved(j) =>
      Fidge(s.log, i, j);
      if Covers(s, y, Saved(i)) { LogBefore(s, i, j); }
    case Gone(k) => SavedCoversGone(c, s, i, k);
  }

  lemma GoneCoversSaved(c: Setup, s: State, k: nat, j: nat)
    requires Inv(c, s) && j < |s.log| && IsTag(s, Gone(k)) && Covers(s, Saved(j), Gone(k))
    ensures TaggedBefore(s, Gone(k), Saved(j))
  {
    TagIn(c, s, Gone(k));
    TagIn(c, s, Saved(j));
    hide Inv, ByRule, At, ReachesBack, TaggedBefore, LostAt;
    var g := s.lost[k];
    if j < g.at {
      EarlierCovered(s.log, g, j);
    } else {
      LaterCovers(s.log, g, j);
      GoneReachesSaved(s, k, j);
    }
  }

  lemma GoneReachesSaved(s: State, k: nat, j: nat)
    requires IsTag(s, Gone(k)) && j < |s.log| && ReachesBack(s.log, s.lost[k].event.node, s.lost[k].at, j)
    ensures TaggedBefore(s, Gone(k), Saved(j))
  {
    hide HappenedBefore, TaggedBefore;
    var g := s.lost[k];
    var i :| g.at <= i < |s.log| && s.log[i].node == g.event.node && (i == j || HappenedBefore(s.log, i, j));
    if i == j {
      EdgeBefore(s, Gone(k), Saved(j));
    } else {
      LogBefore(s, i, j);
      EdgeThenBefore(s, Gone(k), Saved(i), Saved(j));
    }
  }

  /** Two lost events by how many events of the one's node had been saved before each. */
  lemma LostPair(log: Log, g: Lost, h: Lost)
    requires LostAt(log, g) && LostAt(log, h)
    ensures var p := g.event.node;
      && (h.event.node == p ==>
            (At(g.event.clock, p) <= At(h.event.clock, p) <==> Rank(log, p, g.at) <= Rank(log, p, h.at)))
      && (h.event.node != p && At(g.event.clock, p) <= At(h.event.clock, p) ==> Rank(log, p, g.at) < Rank(log, p, h.at))
  {
    LostNode(log, g);
    hide LostAt, At, Rank;
    LostEntries(log, g, g.event.node);
    LostEntries(log, h, g.event.node);
  }

  lemma GonePair(s: State, k: nat, l: nat)
    requires IsTag(s, Gone(k)) && IsTag(s, Gone(l))
    ensures var g, h := s.lost[k], s.lost[l]; var p := g.event.node;
      && (Covers(s, Gone(l), Gone(k)) <==> At(g.event.clock, p) <= At(h.event.clock, p))
      && (Repeats(s, Gone(k), Gone(l)) <==>
          h.event.node == p && (h.at < g.at || (h.at == g.at && l < k)) && Rank(s.log, p, g.at) == Rank(s.log, p, h.at))
  {
    hide At, Rank;
  }

  lemma GoneCoversGone(c: Setup, s: State, k: nat, l: nat)
    requires Inv(c, s) && IsTag(s, Gone(k)) && IsTag(s, Gone(l)) && k != l
    ensures Covers(s, Gone(l), Gone(k)) ==> TaggedBefore(s, Gone(k), Gone(l)) || Repeats(s, Gone(k), Gone(l))
    ensures Repeats(s, Gone(k), Gone(l)) ==> Covers(s, Gone(l), Gone(k))
  {
    TagIn(c, s, Gone(k));
    TagIn(c, s, Gone(l));
    GonePair(s, k, l);
    hide Inv, ByRule, At, TaggedBefore, LostAt, Rank, Covers, Repeats;
    var g, h := s.lost[k], s.lost[l];
    LostPair(s.log, g, h);
    if g.at > h.at {
      RankMonotone(s.log, g.event.node, h.at, g.at);
    } else if Covers(s, Gone(l), Gone(k)) {
      GoneCoversLater(c, s, k, l);
    }
  }

  lemma GoneCoversLater(c: Setup, s: State, k: nat, l: nat)
    requires Inv(c, s) && IsTag(s, Gone(k)) && IsTag(s, Gone(l)) && k != l && s.lost[k].at <= s.lost[l].at
    requires Covers(s, Gone(l), Gone(k))
    ensures TaggedBefore(s, Gone(k), Gone(l)) || Repeats(s, Gone(k), Gone(l))
  {
    TagIn(c, s, Gone(k));
    TagIn(c, s, Gone(l));
    hide Inv, ByRule, At, ReachesBack, TaggedBefore, LostAt, Rank, Repeats;
    var g, h := s.lost[k], s.lost[l];
    LostWithin(s.log, g, h);
    LaterCovers(s.log[..h.at] + [h.event], g, h.at);
    GoneReaches(c, s, k, l);
  }

  lemma GoneReaches(c: Setup, s: State, k: nat, l: nat)
    requires Inv(c, s) && IsTag(s, Gone(k)) && IsTag(s, Gone(l)) && k != l && s.lost[k].at <= s.lost[l].at
    requires var h := s.lost[l]; ReachesBack(s.log[..h.at] + [h.event], s.lost[k].event.node, s.lost[k].at, h.at)
    ensures TaggedBefore(s, Gone(k), Gone(l)) || Repeats(s, Gone(k), Gone(l))
  {
    hide Inv, At, HappenedBefore, TaggedBefore, Rank;
    var g, h := s.lost[k], s.lost[l];
    var more := s.log[..h.at] + [h.event];
    var i :| g.at <= i < |more| && more[i].node == g.event.node && (i == h.at || HappenedBefore(more, i, h.at));
    if i < h.at {
      LostBefore(c, s, i, l);
      EdgeThenBefore(s, Gone(k), Saved(i), Gone(l));
    } else if Earlier(s, Gone(k), Gone(l)) {
      EdgeBefore(s, Gone(k), Gone(l));
    }
  }

  // ---------- the theorems ----------

  /** In every run, for any two tagged events: the one's clock covers the other exactly if the other happened before it, or, and
      then wrongly, repeats it. */
  lemma TagsTellCausality(c: Setup, s: State, x: Tag, y: Tag)
    requires c.Ok() && Reachable(c, s) && IsTag(s, x) && IsTag(s, y) && x != y
    ensures Covers(s, y, x) <==> TaggedBefore(s, x, y) || Repeats(s, x, y)
    ensures !(TaggedBefore(s, x, y) && Repeats(s, x, y))
  {
    ReachableInv(c, s);
    TagIn(c, s, x);
    hide Inv, Reachable, At, Rank;
    if TaggedBefore(s, x, y) {
      var p :| TagPath(s, p) && |p| > 1 && p[0] == x && p[|p| - 1] == y;
      PathGrows(c, s, p, EventOf(s, x).node);
    }
    if x.Saved? {
      SavedCovers(c, s, x.i, y);
    } else if y.Saved? {
      if Covers(s, y, x) { GoneCoversSaved(c, s, x.k, y.i); }
    } else {
      GoneCoversGone(c, s, x.k, y.k);
    }
  }

  /** No event of the node was tagged after a lost one. */
  ghost predicate LossesLast(s: State) {
    forall k: nat, x: Tag :: IsTag(s, Gone(k)) && IsTag(s, x) && Earlier(s, Gone(k), x) ==>
      EventOf(s, x).node != s.lost[k].event.node
  }

  ghost predicate ClocksRight(s: State) {
    forall x, y :: IsTag(s, x) && IsTag(s, y) && x != y ==> (Covers(s, y, x) <==> TaggedBefore(s, x, y))
  }

  /** Some event repeats a lost one that is followed by another of its node. */
  lemma SomeRepeats(s: State, k: nat, x: Tag) returns (y: Tag)
    requires IsTag(s, Gone(k)) && IsTag(s, x) && Earlier(s, Gone(k), x) && EventOf(s, x).node == s.lost[k].event.node
    ensures IsTag(s, y) && Repeats(s, y, Gone(k))
  {
    hide Rank;
    var p, at := s.lost[k].event.node, s.lost[k].at;
    RankMonotone(s.log, p, at, When(s, x));
    if Rank(s.log, p, When(s, x)) == Rank(s.log, p, at) {
      y := x;
    } else {
      var i := NextOf(s.log, p, at, When(s, x) - 1);
      RankStep(s.log, p, i);
      y := Saved(i);
    }
  }

  /** So over all tagged events of a run the clocks tell causality if and only if no node has tagged an event after losing one. */
  lemma RightIffLossesLast(c: Setup, s: State)
    requires c.Ok() && Reachable(c, s)
    ensures ClocksRight(s) <==> LossesLast(s)
  {
    hide Reachable, At, Rank, TaggedBefore;
    if LossesLast(s) {
      forall x, y | IsTag(s, x) && IsTag(s, y) && x != y ensures Covers(s, y, x) <==> TaggedBefore(s, x, y) {
        TagsTellCausality(c, s, x, y);
      }
    } else {
      var k: nat, x: Tag :| IsTag(s, Gone(k)) && IsTag(s, x) && Earlier(s, Gone(k), x) && EventOf(s, x).node == s.lost[k].event.node;
      var y := SomeRepeats(s, k, x);
      TagsTellCausality(c, s, y, Gone(k));
    }
  }

  /** It does go wrong: a node that crashes between a tag and its save, and then tags its next event, has two events each of which
      covers the other. */
  lemma LossHappens(c: Setup, p: NodeId) returns (s: State)
    requires c.Ok() && p in c.nodes
    ensures Reachable(c, s) && |s.lost| == 1 && s.lost[0].event.node == p && IsTag(s, Gone(0)) && IsTag(s, Saved(1))
    ensures Repeats(s, Saved(1), Gone(0)) && Covers(s, Gone(0), Saved(1)) && Covers(s, Saved(1), Gone(0))
  {
    FreshAt(p, p);
    var v := Bump(Fresh(p), p);
    var one := [Event(p, None, Fresh(p))];
    var s1 := State(map[p := Fresh(p)], map[p := Fresh(p)], map[p := Calm], [], one, []);
    var s2 := s1.(vol := map[p := v], pend := map[p := Dirty(None)]);
    var s3 := s1.(lost := [Lost(1, Event(p, None, v))]);
    var s4 := s2.(lost := s3.lost);
    s := State(map[p := v], map[p := v], map[p := Calm], [], one + [Event(p, None, v)], s3.lost);
    hide Fresh, Bump, At;
    assert Enabled(c, Init(), Start(p)) && Next(c, Init(), Start(p)) == s1;
    assert Enabled(c, s1, Tick(p)) && Next(c, s1, Tick(p)) == s2;
    assert Enabled(c, s2, CrashTagged(p)) && Next(c, s2, CrashTagged(p)) == s3;
    assert Enabled(c, s3, Tick(p)) && Next(c, s3, Tick(p)) == s4;
    assert Enabled(c, s4, Save(p)) && Next(c, s4, Save(p)) == s;
    Five(c, Start(p), s1, Tick(p), s2, CrashTagged(p), s3, Tick(p), s4, Save(p), s);
    assert Rank(s.log, p, 1) == Rank(s.log, p, 1);
  }

  /** A run of five steps from the start. */
  lemma Five(c: Setup, l1: Step, s1: State, l2: Step, s2: State, l3: Step, s3: State, l4: Step, s4: State, l5: Step, s5: State)
    requires Enabled(c, Init(), l1) && Next(c, Init(), l1) == s1
    requires Enabled(c, s1, l2) && Next(c, s1, l2) == s2
    requires Enabled(c, s2, l3) && Next(c, s2, l3) == s3
    requires Enabled(c, s3, l4) && Next(c, s3, l4) == s4
    requires Enabled(c, s4, l5) && Next(c, s4, l5) == s5
    ensures Reachable(c, s5)
  {
    hide Enabled, Next;
    var none: seq<Step> := [];
    assert ValidRun(c, s5, none) && Exec(c, s5, none) == s5;
    Prepend(c, s4, l5, none);
    Prepend(c, s3, l4, [l5] + none);
    Prepend(c, s2, l3, [l4] + ([l5] + none));
    Prepend(c, s1, l2, [l3] + ([l4] + ([l5] + none)));
    Prepend(c, Init(), l1, [l2] + ([l3] + ([l4] + ([l5] + none))));
  }

  lemma Prepend(c: Setup, s: State, l: Step, ls: seq<Step>)
    requires Enabled(c, s, l) && ValidRun(c, Next(c, s, l), ls)
    ensures ValidRun(c, s, [l] + ls) && Exec(c, s, [l] + ls) == Exec(c, Next(c, s, l), ls)
  {
    assert ([l] + ls)[1..] == ls;
  }
}
