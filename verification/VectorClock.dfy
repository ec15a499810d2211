/** Vector clocks as the nodes keep them: arrays of id and time, searched from the front. */
module VectorClock {
  import opened Messages

  const WORD: nat := 0x1_0000_0000

  /** A prefix of slots with distinct ids; behind it every slot is zero. */
  ghost predicate Shaped(v: seq<Entry>) {
    && (forall i :: 0 <= i < |v| && v[i].nodeId == 0 ==> v[i].time == 0)
    && (forall i, j :: 0 <= i < j < |v| && v[i].nodeId == 0 ==> v[j].nodeId == 0)
    && (forall i, j :: 0 <= i < j < |v| && v[j].nodeId != 0 ==> v[i].nodeId != v[j].nodeId)
  }

  /** The ids an array knows. */
  function Ids(v: seq<Entry>): set<nat> {
    set i | 0 <= i < |v| && v[i].nodeId != 0 :: v[i].nodeId
  }

  /** The slot of `id`: where it stands, otherwise the first free slot, otherwise the length. */
  function Slot(v: seq<Entry>, id: nat): (i: nat)
    ensures i <= |v|
    ensures i < |v| ==> v[i].nodeId == id || v[i].nodeId == 0
    ensures forall j :: 0 <= j < i ==> v[j].nodeId != id && v[j].nodeId != 0
    decreases |v|
  {
    if v == [] || v[0].nodeId == id || v[0].nodeId == 0 then 0 else 1 + Slot(v[1..], id)
  }

  /** The time an array has for `id`; 0 for an id it does not know. */
  function At(v: seq<Entry>, id: nat): nat {
    var i := Slot(v, id);
    if i < |v| && v[i].nodeId == id then v[i].time else 0
  }

  function Max(a: nat, b: nat): nat {
    if a < b then b else a
  }

  // ---------- the operations on values ----------

  /** One turn of the outer merging loop. */
  function InsertOrMax(v: seq<Entry>, e: Entry): seq<Entry> {
    var i := Slot(v, e.nodeId);
    if i == |v| then v
    else if v[i].nodeId == e.nodeId then v[i := Entry(e.nodeId, Max(v[i].time, e.time))]
    else v[i := e]
  }

  function Merge(v: seq<Entry>, m: seq<Entry>): seq<Entry>
    decreases |m|
  {
    if m == [] || m[0].nodeId == 0 then v else Merge(InsertOrMax(v, m[0]), m[1..])
  }

  /** The node's own entry, in 32 bits; `id` is not 0. */
  function Bump(v: seq<Entry>, id: nat): seq<Entry> {
    var i := Slot(v, id);
    if i < |v| && v[i].nodeId == id then v[i := Entry(id, (v[i].time + 1) % WORD)] else v
  }

  // ---------- the operations in place ----------

  /** The inner loop for one received entry. */
  method MergeEntry(my: array<Entry>, e: Entry)
    modifies my
    ensures my[..] == InsertOrMax(old(my[..]), e)
  {
    var j := 0;
    while j < my.Length
      invariant 0 <= j <= my.Length && my[..] == old(my[..])
      invariant forall k :: 0 <= k < j ==> my[k].nodeId != e.nodeId && my[k].nodeId != 0
    {
      if my[j].nodeId == e.nodeId {
        assert j == Slot(my[..], e.nodeId);
        if e.time > my[j].time {
          my[j] := Entry(my[j].nodeId, e.time);
        }
        return;
      } else if my[j].nodeId == 0 {
        assert j == Slot(my[..], e.nodeId);
        my[j] := e;
        return;
      }
      j := j + 1;
    }
    assert my[..][Slot(my[..], e.nodeId)..] == [];
  }

  /** mergeVectorClock of the manager and of the worker. */
  method MergeVectorClock(my: array<Entry>, m: array<Entry>)
    requires my != m
    modifies my
    ensures my[..] == Merge(old(my[..]), m[..])
  {
    var i := 0;
    while i < m.Length
      invariant 0 <= i <= m.Length
      invariant Merge(my[..], m[i..]) == Merge(old(my[..]), m[..])
    {
      if m[i].nodeId == 0 {
        break;
      }
      assert m[i..][1..] == m[i + 1..] && m[i..][0] == m[i];
      MergeEntry(my, m[i]);
      i := i + 1;
    }
    assert i < m.Length ==> m[i..][0] == m[i];
  }

  /** updateMyVectorClock: the slot of the node's own id counts one more event, and is the result; without such a slot the result
      is the length and nothing changes. */
  method UpdateMyVectorClock(id: nat, my: array<Entry>) returns (i: nat)
    requires id != 0 && Shaped(my[..])
    modifies my
    ensures my[..] == Bump(old(my[..]), id)
    ensures id in Ids(old(my[..])) ==> i < my.Length && my[i] == Entry(id, (old(my[..])[i].time + 1) % WORD)
    ensures id in Ids(old(my[..])) ==> my[..] == old(my[..])[i := my[i]] && old(my[..])[i].nodeId == id
    ensures id !in Ids(old(my[..])) ==> i == my.Length && my[..] == old(my[..])
  {
    i := 0;
    while i < my.Length
      invariant 0 <= i <= my.Length && my[..] == old(my[..])
      invariant forall k :: 0 <= k < i ==> my[k].nodeId != id
    {
      if my[i].nodeId == id {
        SlotOfId(my[..], i);
        my[i] := Entry(id, (my[i].time + 1) % WORD);
        break;
      }
      i := i + 1;
    }
  }

  /** saveVectorTime and restoreVectorTime: slot by slot, from one array to the other. */
  method CopyClock(from: array<Entry>, to: array<Entry>)
    requires from != to && from.Length == to.Length
    modifies to
    ensures to[..] == from[..]
  {
    var i := 0;
    while i < from.Length
      invariant 0 <= i <= from.Length && to[..i] == from[..i]
    {
      to[i] := from[i];
      i := i + 1;
    }
  }

  // ---------- what a slot holds ----------

  lemma SlotOfId(v: seq<Entry>, i: nat)
    requires Shaped(v) && i < |v| && v[i].nodeId != 0
    ensures Slot(v, v[i].nodeId) == i && At(v, v[i].nodeId) == v[i].time
  {
  }

  lemma KnownSlot(v: seq<Entry>, id: nat)
    requires Shaped(v) && id != 0
    ensures id in Ids(v) <==> Slot(v, id) < |v| && v[Slot(v, id)].nodeId == id
    ensures id !in Ids(v) ==> At(v, id) == 0
  {
    if id in Ids(v) {
      var i :| 0 <= i < |v| && v[i].nodeId == id;
      SlotOfId(v, i);
    }
  }

  function IdsTo(v: seq<Entry>, n: nat): set<nat>
    requires n <= |v|
  {
    set i | 0 <= i < n :: v[i].nodeId
  }

  /** As many ids as slots in use. */
  lemma {:induction false} CountIds(v: seq<Entry>, n: nat)
    requires n <= |v| && (forall i, j :: 0 <= i < j < n ==> v[i].nodeId != v[j].nodeId)
    ensures |IdsTo(v, n)| == n
    decreases n
  {
    if n == 0 {
      assert IdsTo(v, 0) == {};
    } else {
      CountIds(v, n - 1);
      assert v[n - 1].nodeId !in IdsTo(v, n - 1);
      assert IdsTo(v, n) == IdsTo(v, n - 1) + {v[n - 1].nodeId};
    }
  }

  lemma IdsInUse(v: seq<Entry>, n: nat)
    requires Shaped(v) && n <= |v| && (n < |v| ==> v[n].nodeId == 0) && (forall i :: 0 <= i < n ==> v[i].nodeId != 0)
    ensures Ids(v) == IdsTo(v, n) && |Ids(v)| == n
  {
    CountIds(v, n);
  }

  /** No free slot and no slot of its own: the array holds as many other ids as it is long. */
  lemma NoRoom(v: seq<Entry>, id: nat)
    requires Shaped(v) && id != 0 && Slot(v, id) == |v|
    ensures id !in Ids(v) && |Ids(v)| == |v|
  {
    KnownSlot(v, id);
    IdsInUse(v, |v|);
  }

  lemma AtMost(v: seq<Entry>)
    requires Shaped(v)
    ensures |Ids(v)| <= |v|
  {
    IdsInUse(v, Slot(v, 0));
  }

  // ---------- insertion ----------

  /** Ids keep their slots. */
  ghost predicate Keeps(v: seq<Entry>, r: seq<Entry>) {
    |r| == |v| && forall i :: 0 <= i < |v| && v[i].nodeId != 0 ==> r[i].nodeId == v[i].nodeId
  }

  lemma InsertShape(v: seq<Entry>, e: Entry)
    requires Shaped(v) && e.nodeId != 0
    ensures var r := InsertOrMax(v, e); Shaped(r) && Keeps(v, r)
    ensures Ids(InsertOrMax(v, e)) == if Slot(v, e.nodeId) == |v| then Ids(v) else Ids(v) + {e.nodeId}
  {
    var i := Slot(v, e.nodeId);
    var r := InsertOrMax(v, e);
    if i < |v| {
      forall id ensures id in Ids(r) <==> id in Ids(v) + {e.nodeId} {
        if id in Ids(v) {
          var j :| 0 <= j < |v| && v[j].nodeId == id && id != 0;
          assert r[j].nodeId == id;
        }
        if id == e.nodeId { assert r[i].nodeId == id; }
        if id in Ids(r) {
          var j :| 0 <= j < |r| && r[j].nodeId == id && id != 0;
          assert j != i ==> v[j].nodeId == id;
        }
      }
    }
  }

  lemma InsertAt(v: seq<Entry>, e: Entry, id: nat)
    requires Shaped(v) && e.nodeId != 0 && id != 0 && Slot(v, e.nodeId) < |v|
    ensures At(InsertOrMax(v, e), id) == if id == e.nodeId then Max(At(v, id), e.time) else At(v, id)
  {
    InsertShape(v, e);
    var r := InsertOrMax(v, e);
    var i := Slot(v, e.nodeId);
    SlotOfId(r, i);
    KnownSlot(v, id);
    KnownSlot(r, id);
    if id != e.nodeId && id in Ids(v) {
      SlotOfId(r, Slot(v, id));
    }
  }

  // ---------- merging is the pointwise maximum ----------

  /** What an array `r` is that came from `v` by merging `m`: it keeps the shape and every slot of `v`, knows no id from
      elsewhere, forgets none, and has the maximum for each id it knows. It learns all ids, or is full. */
  ghost predicate Merged(v: seq<Entry>, m: seq<Entry>, r: seq<Entry>) {
    && Shaped(r) && Keeps(v, r)
    && Ids(v) <= Ids(r) <= Ids(v) + Ids(m)
    && (forall id :: id in Ids(r) ==> At(r, id) == Max(At(v, id), At(m, id)))
    && (Ids(r) == Ids(v) + Ids(m) || |Ids(r)| == |v|)
  }

  lemma {:induction false} MergeChar(v: seq<Entry>, m: seq<Entry>)
    requires Shaped(v) && Shaped(m)
    ensures Merged(v, m, Merge(v, m))
    decreases |m|
  {
    if m == [] {
      assert forall id :: id in Ids(v) ==> At(m, id) == 0;
    } else if m[0].nodeId == 0 {
      NothingKnown(m);
    } else {
      TailShaped(m);
      InsertShape(v, m[0]);
      MergeChar(InsertOrMax(v, m[0]), m[1..]);
      if Slot(v, m[0].nodeId) < |v| {
        MergedRoom(v, m, Merge(v, m));
      } else {
        MergedFull(v, m, Merge(v, m));
      }
    }
  }

  lemma TailShaped(m: seq<Entry>)
    requires Shaped(m) && m != []
    ensures Shaped(m[1..])
  {
  }

  lemma MergedRoom(v: seq<Entry>, m: seq<Entry>, r: seq<Entry>)
    requires Shaped(v) && Shaped(m) && m != [] && m[0].nodeId != 0 && Slot(v, m[0].nodeId) < |v|
    requires Merged(InsertOrMax(v, m[0]), m[1..], r)
    ensures Merged(v, m, r)
  {
    var e := m[0];
    var w := InsertOrMax(v, e);
    InsertShape(v, e);
    HeadIds(m);
    assert Ids(w) + Ids(m[1..]) == Ids(v) + Ids(m);
    forall id | id in Ids(r) ensures At(r, id) == Max(At(v, id), At(m, id)) {
      HeadAt(m, id);
      InsertAt(v, e, id);
    }
    KeepsTrans(v, w, r);
  }

  lemma KeepsTrans(v: seq<Entry>, w: seq<Entry>, r: seq<Entry>)
    requires Keeps(v, w) && Keeps(w, r)
    ensures Keeps(v, r)
  {
  }

  lemma MergedFull(v: seq<Entry>, m: seq<Entry>, r: seq<Entry>)
    requires Shaped(v) && Shaped(m) && m != [] && m[0].nodeId != 0 && Slot(v, m[0].nodeId) == |v|
    requires Merged(v, m[1..], r)
    ensures Merged(v, m, r)
  {
    HeadIds(m);
    NoRoom(v, m[0].nodeId);
    FullStays(v, r);
    forall id | id in Ids(r) ensures At(r, id) == Max(At(v, id), At(m, id)) {
      HeadAt(m, id);
    }
  }

  lemma NothingKnown(m: seq<Entry>)
    requires Shaped(m) && m != [] && m[0].nodeId == 0
    ensures Ids(m) == {} && forall id :: At(m, id) == 0
  {
  }

  lemma HeadIds(m: seq<Entry>)
    requires m != [] && m[0].nodeId != 0
    ensures Ids(m) == {m[0].nodeId} + Ids(m[1..])
  {
    forall id | id in Ids(m[1..]) ensures id in Ids(m) {
      var i :| 0 <= i < |m| - 1 && m[1..][i].nodeId == id;
      assert m[i + 1].nodeId == id;
    }
  }

  lemma HeadAt(m: seq<Entry>, id: nat)
    requires Shaped(m) && m != [] && m[0].nodeId != 0 && id != 0
    ensures At(m, id) == if id == m[0].nodeId then m[0].time else At(m[1..], id)
    ensures At(m[1..], m[0].nodeId) == 0
  {
    var t := m[1..];
    assert Shaped(t);
    KnownSlot(t, m[0].nodeId);
    assert forall i :: 0 <= i < |t| ==> t[i] == m[i + 1];
  }

  /** A full array has no id to gain. */
  lemma FullStays(v: seq<Entry>, r: seq<Entry>)
    requires Shaped(v) && Shaped(r) && |r| == |v| && Ids(v) <= Ids(r) && |Ids(v)| == |v|
    ensures Ids(r) == Ids(v)
  {
    AtMost(r);
    assert |Ids(r) - Ids(v)| == |Ids(r)| - |Ids(v)|;
  }

  /** Exactly when the ids of both fit in, merging is the pointwise maximum of the two. */
  lemma {:induction false} MergeIsMax(v: seq<Entry>, m: seq<Entry>)
    requires Shaped(v) && Shaped(m)
    ensures var r := Merge(v, m);
      (Ids(r) == Ids(v) + Ids(m) && forall id :: id != 0 ==> At(r, id) == Max(At(v, id), At(m, id)))
      <==> |Ids(v) + Ids(m)| <= |v|
  {
    MergeChar(v, m);
    var r := Merge(v, m);
    AtMost(r);
    if |Ids(v) + Ids(m)| <= |v| {
      assert |(Ids(v) + Ids(m)) - Ids(r)| == |Ids(v) + Ids(m)| - |Ids(r)|;
      forall id | id != 0 ensures At(r, id) == Max(At(v, id), At(m, id)) {
        KnownSlot(r, id);
        KnownSlot(v, id);
        KnownSlot(m, id);
      }
    }
  }

  /** Two arrays that say the same, in whatever order of slots. */
  ghost predicate Same(v: seq<Entry>, w: seq<Entry>) {
    Ids(v) == Ids(w) && forall id :: id != 0 ==> At(v, id) == At(w, id)
  }

  ghost predicate Below(v: seq<Entry>, w: seq<Entry>) {
    Ids(v) <= Ids(w) && forall id :: id != 0 ==> At(v, id) <= At(w, id)
  }

  lemma {:induction false} MergeCommutes(a: seq<Entry>, b: seq<Entry>)
    requires Shaped(a) && Shaped(b) && |a| == |b| && |Ids(a) + Ids(b)| <= |a|
    ensures Same(Merge(a, b), Merge(b, a))
  {
    hide At, Merge, Slot, Ids;
    assert Ids(a) + Ids(b) + {} == Ids(a) + Ids(b) == Ids(b) + Ids(a) + {};
    FitMerge(a, b, {});
    FitMerge(b, a, {});
  }

  lemma {:induction false} MergeAssociates(a: seq<Entry>, b: seq<Entry>, c: seq<Entry>)
    requires Shaped(a) && Shaped(b) && Shaped(c) && |a| == |b| == |c| && |Ids(a) + Ids(b) + Ids(c)| <= |a|
    ensures Same(Merge(Merge(a, b), c), Merge(a, Merge(b, c)))
  {
    hide At, Merge, Slot, Ids;
    assert Ids(b) + Ids(c) + Ids(a) == Ids(a) + Ids(b) + Ids(c) == Ids(a) + (Ids(b) + Ids(c));
    FitMerge(a, b, Ids(c));
    FitMerge(b, c, Ids(a));
    assert Ids(Merge(a, b)) + Ids(c) + {} == Ids(a) + Ids(Merge(b, c)) + {} == Ids(a) + Ids(b) + Ids(c);
    FitMerge(Merge(a, b), c, {});
    FitMerge(a, Merge(b, c), {});
  }

  /** Merging the same again changes nothing. */
  lemma {:induction false} MergeTwice(a: seq<Entry>, b: seq<Entry>)
    requires Shaped(a) && Shaped(b) && |a| == |b| && |Ids(a) + Ids(b)| <= |a|
    ensures Merge(a, a) == a && Same(Merge(Merge(a, b), b), Merge(a, b))
  {
    MergeSelf(a);
    hide At, Merge, Slot, Ids;
    assert Ids(a) + Ids(b) + {} == Ids(a) + Ids(b);
    FitMerge(a, b, {});
    assert Ids(Merge(a, b)) + Ids(b) + {} == Ids(a) + Ids(b);
    FitMerge(Merge(a, b), b, {});
  }

  /** The merge is the least array above both, and it grows with what is merged. */
  lemma {:induction false} MergeLeast(a: seq<Entry>, b: seq<Entry>, c: seq<Entry>)
    requires Shaped(a) && Shaped(b) && Shaped(c) && |a| == |b| == |c| && |Ids(a) + Ids(b) + Ids(c)| <= |a|
    ensures Below(a, Merge(a, b)) && Below(b, Merge(a, b)) && (Below(a, c) && Below(b, c) ==> Below(Merge(a, b), c))
    ensures Below(a, b) ==> Below(Merge(a, c), Merge(b, c))
  {
    hide At, Merge, Slot, Ids;
    assert Ids(b) + Ids(c) + Ids(a) == Ids(a) + Ids(b) + Ids(c) == Ids(a) + Ids(c) + Ids(b);
    FitMerge(a, b, Ids(c));
    FitMerge(a, c, Ids(b));
    FitMerge(b, c, Ids(a));
  }

  lemma FitMerge(v: seq<Entry>, m: seq<Entry>, more: set<nat>)
    requires Shaped(v) && Shaped(m) && |Ids(v) + Ids(m) + more| <= |v|
    ensures var r := Merge(v, m);
      Shaped(r) && |r| == |v| && Ids(r) == Ids(v) + Ids(m) && forall id :: id != 0 ==> At(r, id) == Max(At(v, id), At(m, id))
  {
    assert Ids(v) + Ids(m) <= Ids(v) + Ids(m) + more;
    var rest := (Ids(v) + Ids(m) + more) - (Ids(v) + Ids(m));
    assert |rest| == |Ids(v) + Ids(m) + more| - |Ids(v) + Ids(m)|;
    MergeIsMax(v, m);
    MergeChar(v, m);
  }

  lemma MergeSelf(v: seq<Entry>)
    requires Shaped(v)
    ensures Merge(v, v) == v
  {
    hide Merge, Ids, At;
    MergeChar(v, v);
    SameIdsSameSlots(v, Merge(v, v));
  }

  lemma SameIdsSameSlots(v: seq<Entry>, r: seq<Entry>)
    requires Shaped(v) && Shaped(r) && Keeps(v, r) && Ids(r) == Ids(v) && forall id :: id in Ids(v) ==> At(r, id) == At(v, id)
    ensures r == v
  {
    hide IdsTo;
    var n := Slot(v, 0);
    IdsInUse(v, n);
    IdsInUse(r, Slot(r, 0));
    forall i | 0 <= i < |v| ensures r[i] == v[i] {
      if i < n {
        SlotOfId(v, i);
        SlotOfId(r, i);
        assert v[i].nodeId in Ids(v);
      }
    }
  }

  // ---------- counting an own event before or after a merge ----------

  lemma BumpAt(v: seq<Entry>, p: nat, id: nat)
    requires Shaped(v) && p != 0 && id != 0 && p in Ids(v) && At(v, p) + 1 < WORD
    ensures Shaped(Bump(v, p)) && Keeps(v, Bump(v, p)) && Ids(Bump(v, p)) == Ids(v)
    ensures At(Bump(v, p), id) == At(v, id) + if id == p then 1 else 0
  {
    KnownSlot(v, p);
    var r := Bump(v, p);
    assert forall i :: 0 <= i < |v| ==> r[i].nodeId == v[i].nodeId;
    KnownSlot(v, id);
    if id in Ids(v) { SlotOfId(r, Slot(v, id)); } else { KnownSlot(r, id); }
  }

  /** The manager counts its event before it merges, the worker after. Both come to the same array exactly when the
      message does not know more of the node than the node itself. */
  lemma {:induction false} CountFirstOrLast(v: seq<Entry>, m: seq<Entry>, p: nat)
    requires Shaped(v) && Shaped(m) && p != 0 && p in Ids(v) && At(v, p) + 1 < WORD && At(m, p) + 1 < WORD
    ensures Merge(Bump(v, p), m) == Bump(Merge(v, m), p) <==> At(m, p) <= At(v, p)
  {
    BumpAt(v, p, p);
    MergeChar(v, m);
    MergeChar(Bump(v, p), m);
    var r, q := Merge(v, m), Merge(Bump(v, p), m);
    BumpAt(r, p, p);
    BumpedIds(v, p, m);
    KnownSlot(r, p);
    KnownSlot(q, p);
    if At(m, p) <= At(v, p) {
      assert At(q, p) == At(v, p) + 1 == At(Bump(r, p), p);
      SameSlots(q, Bump(r, p), p);
    }
  }

  lemma SameSlots(q: seq<Entry>, r: seq<Entry>, p: nat)
    requires Shaped(q) && Shaped(r) && |q| == |r| && At(q, p) == At(r, p) && p != 0
    requires forall i :: 0 <= i < |q| ==> q[i].nodeId == r[i].nodeId && (q[i].nodeId != p ==> q[i].time == r[i].time)
    ensures q == r
  {
    forall i | 0 <= i < |q| ensures q[i] == r[i] {
      if q[i].nodeId == p {
        SlotOfId(q, i);
        SlotOfId(r, i);
      }
    }
  }

  /** Merging treats two arrays that differ in the time of `p` alike, except for the time of `p`. */
  lemma BumpedIds(v: seq<Entry>, p: nat, m: seq<Entry>)
    requires Shaped(v) && Shaped(m) && p != 0 && p in Ids(v) && At(v, p) + 1 < WORD
    ensures var r, q := Merge(v, m), Merge(Bump(v, p), m);
      |r| == |q| == |v| && forall i :: 0 <= i < |v| ==> q[i].nodeId == r[i].nodeId && (q[i].nodeId != p ==> q[i].time == r[i].time)
  {
    MergeAlike(v, Bump(v, p), p, m);
  }

  lemma {:induction false} MergeAlike(v: seq<Entry>, w: seq<Entry>, p: nat, m: seq<Entry>)
    requires |v| == |w| && forall i :: 0 <= i < |v| ==> w[i].nodeId == v[i].nodeId && (w[i].nodeId != p ==> w[i].time == v[i].time)
    ensures var r, q := Merge(v, m), Merge(w, m);
      |r| == |q| == |v| && forall i :: 0 <= i < |v| ==> q[i].nodeId == r[i].nodeId && (q[i].nodeId != p ==> q[i].time == r[i].time)
    decreases |m|
  {
    if m != [] && m[0].nodeId != 0 {
      SlotAlike(v, w, m[0].nodeId);
      MergeAlike(InsertOrMax(v, m[0]), InsertOrMax(w, m[0]), p, m[1..]);
    }
  }

  lemma SlotAlike(v: seq<Entry>, w: seq<Entry>, id: nat)
    requires |v| == |w| && forall i :: 0 <= i < |v| ==> w[i].nodeId == v[i].nodeId
    ensures Slot(v, id) == Slot(w, id)
  {
    var i, j := Slot(v, id), Slot(w, id);
    assert i < |v| ==> w[i].nodeId == v[i].nodeId;
    assert j < |v| ==> w[j].nodeId == v[j].nodeId;
  }

  // ---------- the election's positional clocks ----------

  /** Every node uses the slots in the order of the same group list. */
  ghost predicate Aligned(v: seq<Entry>, group: seq<nat>) {
    |v| >= |group| && forall i :: 0 <= i < |v| ==>
      v[i] == Entry(0, 0) || (i < |group| && v[i].nodeId == group[i] && v[i].time > 0)
  }

  function MergeByPosition(v: seq<Entry>, m: seq<Entry>): seq<Entry>
    requires |m| == |v|
  {
    seq(|v|, i requires 0 <= i < |v| => if m[i].time > v[i].time then m[i] else v[i])
  }

  /** mergeVectorClock of the election. */
  method MergePositional(my: array<Entry>, m: array<Entry>)
    requires my != m && my.Length == m.Length
    modifies my
    ensures my[..] == MergeByPosition(old(my[..]), m[..])
  {
    var i := 0;
    while i < my.Length
      invariant 0 <= i <= my.Length
      invariant forall k :: 0 <= k < i ==> my[k] == MergeByPosition(old(my[..]), m[..])[k]
      invariant forall k :: i <= k < my.Length ==> my[k] == old(my[k])
    {
      if m[i].time > my[i].time {
        my[i] := m[i];
      }
      i := i + 1;
    }
  }

  ghost predicate DistinctIds(group: seq<nat>) {
    (forall i :: 0 <= i < |group| ==> group[i] != 0) && forall i, j :: 0 <= i < j < |group| ==> group[i] != group[j]
  }

  /** On arrays aligned with one group list the two merges say the same of every member: by position, and by id from
      whatever order of slots the other two arrays have. */
  lemma {:induction false} PositionalAgrees(v: seq<Entry>, m: seq<Entry>, x: seq<Entry>, y: seq<Entry>, group: seq<nat>, k: nat)
    requires Aligned(v, group) && Aligned(m, group) && |m| == |v| && DistinctIds(group) && k < |group|
    requires Shaped(x) && Shaped(y) && |Ids(x) + Ids(y)| <= |x|
    requires forall i :: 0 <= i < |group| ==> At(x, group[i]) == v[i].time && At(y, group[i]) == m[i].time
    ensures Aligned(MergeByPosition(v, m), group)
    ensures At(Merge(x, y), group[k]) == MergeByPosition(v, m)[k].time
  {
    MergeIsMax(x, y);
  }
}
