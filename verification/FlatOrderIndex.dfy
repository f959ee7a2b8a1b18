/** The pooled book's order-id index: open addressing with linear probing and tombstones,
    proved to behave as a finite map. */
module FlatOrderIndexes {
  import opened Types

  datatype Entry = Vacant | Occupied(id: nat, node: nat) | Deleted

  type Hash = nat -> nat

  // ----- circular probing: capacities are powers of two, so masking is taking the remainder

  function Next(i: nat, n: nat): (j: nat)
    requires i < n
    ensures j == if i + 1 < n then i + 1 else 0
  {
    (i + 1) % n
  }

  function Bucket(hash: Hash, id: nat, n: nat): (b: nat)
    requires n > 0
    ensures b < n
  {
    hash(id) % n
  }

  /** The slot probed after `t` steps from bucket `b`. */
  function Slot(b: nat, t: nat, n: nat): (j: nat)
    requires b < n && t <= n
    ensures j < n
  {
    if b + t < n then b + t else b + t - n
  }

  /** The number of steps after which slot `j` is probed from bucket `b`. */
  function Distance(b: nat, j: nat, n: nat): (t: nat)
    requires b < n && j < n
    ensures t < n && Slot(b, t, n) == j
  {
    if j >= b then j - b else j - b + n
  }

  ghost predicate PowerOfTwo(n: nat) {
    n == 1 || (n > 1 && n % 2 == 0 && PowerOfTwo(n / 2))
  }

  lemma PowerDoubles(n: nat)
    requires PowerOfTwo(n)
    ensures PowerOfTwo(n * 2)
  {
    assert n * 2 % 2 == 0 && n * 2 / 2 == n;
  }

  lemma SixteenIsPower()
    ensures PowerOfTwo(16)
  {
    PowerDoubles(1);
    PowerDoubles(2);
    PowerDoubles(4);
    PowerDoubles(8);
  }

  function OccupiedCount(es: seq<Entry>): (c: nat)
    ensures c <= |es|
  {
    if es == [] then 0 else OccupiedCount(es[..|es| - 1]) + if es[|es| - 1].Occupied? then 1 else 0
  }

  lemma {:induction false} CountUpdate(es: seq<Entry>, i: nat, e: Entry)
    requires i < |es|
    ensures OccupiedCount(es[i := e]) == OccupiedCount(es) - (if es[i].Occupied? then 1 else 0) + (if e.Occupied? then 1 else 0)
  {
    var last := |es| - 1;
    if i == last {
      assert es[i := e][..last] == es[..last];
    } else {
      CountUpdate(es[..last], i, e);
      assert es[i := e][..last] == es[..last][i := e];
    }
  }

  lemma {:induction false} CountFull(es: seq<Entry>)
    requires forall i :: 0 <= i < |es| ==> es[i].Occupied?
    ensures OccupiedCount(es) == |es|
  {
    if es != [] {
      CountFull(es[..|es| - 1]);
    }
  }

  lemma {:induction false} CountNone(es: seq<Entry>)
    requires forall i :: 0 <= i < |es| ==> !es[i].Occupied?
    ensures OccupiedCount(es) == 0
  {
    if es != [] {
      CountNone(es[..|es| - 1]);
    }
  }

  // ----- what a table stores

  ghost predicate Holds(es: seq<Entry>, j: int, id: nat) {
    0 <= j < |es| && es[j].Occupied? && es[j].id == id
  }

  /** No probe for the entry in slot `j` meets a vacant slot before reaching it. */
  ghost predicate Reachable(es: seq<Entry>, hash: Hash, j: nat)
    requires j < |es| && es[j].Occupied?
  {
    var b := Bucket(hash, es[j].id, |es|);
    forall t :: 0 <= t < Distance(b, j, |es|) ==> !es[Slot(b, t, |es|)].Vacant?
  }

  /** The table stores exactly the map `m`, each id once and where probing finds it. */
  ghost predicate Stores(es: seq<Entry>, hash: Hash, m: map<nat, nat>) {
    && (forall j :: 0 <= j < |es| && es[j].Occupied? ==>
          es[j].id != INVALID_ID && es[j].id in m && m[es[j].id] == es[j].node && Reachable(es, hash, j))
    && (forall id :: id in m ==> exists j :: Holds(es, j, id))
    && (forall i, j, id :: Holds(es, i, id) && Holds(es, j, id) ==> i == j)
    && OccupiedCount(es) == |m|
  }

  lemma PathTo(es: seq<Entry>, hash: Hash, m: map<nat, nat>, id: nat, j: nat)
    requires Stores(es, hash, m) && Holds(es, j, id)
    ensures var b := Bucket(hash, id, |es|); var d := Distance(b, j, |es|);
      Slot(b, d, |es|) == j && forall t :: 0 <= t < d ==> !es[Slot(b, t, |es|)].Vacant?
  {
    assert Reachable(es, hash, j);
  }

  /** A probe that has passed `t` slots without meeting the id, and now stands at a vacant slot
      or has been all the way round, proves the id absent. */
  lemma ProbeMiss(es: seq<Entry>, hash: Hash, m: map<nat, nat>, id: nat, t: nat)
    requires Stores(es, hash, m) && 0 < |es| && t <= |es|
    requires var b := Bucket(hash, id, |es|);
      && (forall u :: 0 <= u < t ==> !Holds(es, Slot(b, u, |es|), id))
      && (t == |es| || es[Slot(b, t, |es|)].Vacant?)
    ensures id !in m
  {
    if id in m {
      var j :| Holds(es, j, id);
      PathTo(es, hash, m, id, j);
      assert false;
    }
  }

  /** Writing an absent id into the first usable slot of its probe path. */
  lemma PlaceStores(es: seq<Entry>, hash: Hash, m: map<nat, nat>, id: nat, node: nat, t: nat)
    requires Stores(es, hash, m) && id != INVALID_ID && id !in m && t < |es|
    requires var b := Bucket(hash, id, |es|);
      && (forall u :: 0 <= u < t ==> !es[Slot(b, u, |es|)].Vacant?)
      && !es[Slot(b, t, |es|)].Occupied?
    ensures var b := Bucket(hash, id, |es|); Stores(es[Slot(b, t, |es|) := Occupied(id, node)], hash, m[id := node])
  {
    var b := Bucket(hash, id, |es|);
    var s := Slot(b, t, |es|);
    var es' := es[s := Occupied(id, node)];
    CountUpdate(es, s, Occupied(id, node));
    forall j | 0 <= j < |es'| && es'[j].Occupied? ensures Reachable(es', hash, j) {
      if j != s {
        assert es[j].Occupied? && Reachable(es, hash, j);
      }
    }
    assert Holds(es', s, id);
    forall id' | id' in m ensures exists j :: Holds(es', j, id') {
      var j :| Holds(es, j, id');
      assert Holds(es', j, id');
    }
    forall i, j, id' | Holds(es', i, id') && Holds(es', j, id') ensures i == j {
      if i != s && j != s {
        assert Holds(es, i, id') && Holds(es, j, id');
      }
    }
  }

  /** Turning an entry into a tombstone. */
  lemma EraseStores(es: seq<Entry>, hash: Hash, m: map<nat, nat>, s: nat)
    requires Stores(es, hash, m) && s < |es| && es[s].Occupied?
    ensures Stores(es[s := Deleted], hash, m - {es[s].id})
  {
    var id, es' := es[s].id, es[s := Deleted];
    assert Holds(es, s, id) && id in m;
    CountUpdate(es, s, Deleted);
    RemoveSize(m, id);
    forall j | 0 <= j < |es'| && es'[j].Occupied?
      ensures es'[j].id != INVALID_ID && es'[j].id in m - {id} && m[es'[j].id] == es'[j].node && Reachable(es', hash, j)
    {
      assert es[j].Occupied? && Reachable(es, hash, j) && Holds(es, j, es[j].id);
      StillReachable(es, hash, s, j);
    }
    HoldsAfterErase(es, es', m, s);
  }

  /** A tombstone does not stop a probe. */
  lemma StillReachable(es: seq<Entry>, hash: Hash, s: nat, j: nat)
    requires s < |es| && j < |es| && s != j && es[s].Occupied? && es[j].Occupied? && Reachable(es, hash, j)
    ensures Reachable(es[s := Deleted], hash, j)
  {
  }

  lemma HoldsAfterErase(es: seq<Entry>, es': seq<Entry>, m: map<nat, nat>, s: nat)
    requires s < |es| && es[s].Occupied? && es' == es[s := Deleted]
    requires (forall id :: id in m ==> exists j :: Holds(es, j, id)) && (forall i, j, id :: Holds(es, i, id) && Holds(es, j, id) ==> i == j)
    ensures forall id :: id in m - {es[s].id} ==> exists j :: Holds(es', j, id)
    ensures forall i, j, id :: Holds(es', i, id) && Holds(es', j, id) ==> i == j
  {
    forall id | id in m - {es[s].id} ensures exists j :: Holds(es', j, id) {
      var j :| Holds(es, j, id);
      assert Holds(es', j, id);
    }
    forall i, j, id | Holds(es', i, id) && Holds(es', j, id) ensures i == j {
      assert Holds(es, i, id) && Holds(es, j, id);
    }
  }

  /** With fewer occupied slots than slots, a full round of probing meets a free one. */
  lemma SomeSlotFree(es: seq<Entry>, b: nat)
    requires b < |es| && OccupiedCount(es) < |es|
    ensures exists t :: 0 <= t < |es| && !es[Slot(b, t, |es|)].Occupied?
  {
    if forall t :: 0 <= t < |es| ==> es[Slot(b, t, |es|)].Occupied? {
      forall j | 0 <= j < |es| ensures es[j].Occupied? {
        assert es[Slot(b, Distance(b, j, |es|), |es|)].Occupied?;
      }
      CountFull(es);
    }
  }

  /** Keys stored so far while a table is being rebuilt are a part of the whole map. */
  ghost predicate PartOf(part: map<nat, nat>, m: map<nat, nat>, es: seq<Entry>, i: nat)
    requires i <= |es|
  {
    && (forall id :: id in part ==> id in m && m[id] == part[id])
    && (forall id :: id in part ==> exists j :: 0 <= j < i && Holds(es, j, id))
    && (forall j :: 0 <= j < i && es[j].Occupied? ==> es[j].id in part)
  }

  /** The part moved so far does not contain the next entry, and leaves room for it. */
  lemma PartSize(hash: Hash, part: map<nat, nat>, m: map<nat, nat>, es: seq<Entry>, i: nat)
    requires Stores(es, hash, m) && i < |es| && es[i].Occupied? && PartOf(part, m, es, i)
    ensures es[i].id !in part && |part| < |m|
    ensures PartOf(part[es[i].id := es[i].node], m, es, i + 1)
  {
    var id := es[i].id;
    assert Holds(es, i, id);
    assert forall j :: 0 <= j < i ==> !Holds(es, j, id);
    forall id' | id' in part ensures exists j :: 0 <= j < i + 1 && Holds(es, j, id') {
      var j :| 0 <= j < i && Holds(es, j, id');
    }
    SubmapSize(part, m, id);
  }

  lemma PartSkips(part: map<nat, nat>, m: map<nat, nat>, es: seq<Entry>, i: nat)
    requires i < |es| && !es[i].Occupied? && PartOf(part, m, es, i)
    ensures PartOf(part, m, es, i + 1)
  {
    forall id | id in part ensures exists j :: 0 <= j < i + 1 && Holds(es, j, id) {
      var j :| 0 <= j < i && Holds(es, j, id);
    }
  }

  /** Once every slot has been moved, the part is the whole. */
  lemma PartIsWhole(hash: Hash, part: map<nat, nat>, m: map<nat, nat>, es: seq<Entry>)
    requires Stores(es, hash, m) && PartOf(part, m, es, |es|)
    ensures part == m
  {
    forall id | id in m ensures id in part {
      var j :| Holds(es, j, id);
    }
  }

  lemma VacantStores(hash: Hash, n: nat)
    ensures Stores(seq(n, _ => Vacant), hash, map[])
  {
    CountNone(seq(n, _ => Vacant));
  }

  lemma SubmapSize(part: map<nat, nat>, m: map<nat, nat>, id: nat)
    requires forall k :: k in part ==> k in m
    requires id in m && id !in part
    ensures |part| < |m|
  {
    assert m.Keys == part.Keys + (m.Keys - part.Keys);
    assert id in m.Keys - part.Keys;
  }

  class FlatOrderIndex {
    const hash: Hash
    var entries: seq<Entry>
    var size: nat
    ghost var contents: map<nat, nat>
    ghost var rehashes: nat  // how often the table has been reallocated

    ghost predicate Valid()
      reads this
    {
      && Stores(entries, hash, contents)
      && size == |contents|
      && 2 * size <= |entries|
      && (|entries| == 0 || (|entries| >= 8 && PowerOfTwo(|entries|)))
    }

    constructor (hash: Hash)
      ensures Valid() && contents == map[] && entries == []
    {
      this.hash := hash;
      entries, size, contents, rehashes := [], 0, map[], 0;
    }

    method Clear()
      requires Valid()
      modifies this
      ensures Valid() && contents == map[] && |entries| == |old(entries)| && rehashes == old(rehashes)
    {
      entries := seq(|entries|, _ => Vacant);
      size, contents := 0, map[];
      VacantStores(hash, |entries|);
    }

    static method NextCapacity(expectedSize: nat) returns (capacity: nat)
      ensures capacity >= 8 && capacity >= 4 * expectedSize && PowerOfTwo(capacity)
      ensures capacity == 8 || capacity < 8 * expectedSize
    {
      capacity := 8;
      assert PowerOfTwo(4) && PowerOfTwo(8);
      var target := if expectedSize * 4 < 8 then 8 else expectedSize * 4;
      while capacity < target
        invariant capacity >= 8 && PowerOfTwo(capacity)
        invariant capacity == 8 || (target == 4 * expectedSize && capacity < 2 * target)
      {
        capacity := capacity * 2;
        assert capacity / 2 * 2 == capacity;
      }
    }

    method Reserve(expectedSize: nat)
      requires Valid()
      modifies this
      ensures Valid() && contents == old(contents)
      ensures |entries| >= 4 * expectedSize && |entries| >= |old(entries)| && |entries| > 0
      ensures |old(entries)| >= 8 * expectedSize && |old(entries)| > 0 ==> rehashes == old(rehashes)
    {
      var required := NextCapacity(expectedSize);
      if |entries| >= required {
        return;
      }
      Rehash(required);
    }

    method Find(id: nat) returns (node: Option<nat>)
      requires Valid()
      ensures node == if id in contents then Some(contents[id]) else None
    {
      if |entries| == 0 || id == INVALID_ID {
        return None;
      }
      var n := |entries|;
      ghost var b := Bucket(hash, id, n);
      var index := Bucket(hash, id, n);
      for probes := 0 to n
        invariant index == Slot(b, probes, n)
        invariant forall u :: 0 <= u < probes ==> !Holds(entries, Slot(b, u, n), id)
      {
        var entry := entries[index];
        if entry.Vacant? {
          ProbeMiss(entries, hash, contents, id, probes);
          return None;
        }
        if entry.Occupied? && entry.id == id {
          return Some(entry.node);
        }
        index := Next(index, n);
      }
      ProbeMiss(entries, hash, contents, id, n);
      return None;
    }

    method Erase(id: nat) returns (found: bool)
      requires Valid()
      modifies this
      ensures Valid() && |entries| == |old(entries)| && rehashes == old(rehashes)
      ensures found == (id in old(contents)) && contents == old(contents) - {id}
    {
      if |entries| == 0 || id == INVALID_ID {
        assert contents - {id} == contents;
        return false;
      }
      var n := |entries|;
      ghost var b := Bucket(hash, id, n);
      var index := Bucket(hash, id, n);
      for probes := 0 to n
        invariant index == Slot(b, probes, n)
        invariant forall u :: 0 <= u < probes ==> !Holds(entries, Slot(b, u, n), id)
        invariant entries == old(entries) && size == old(size) && contents == old(contents) && rehashes == old(rehashes)
      {
        var entry := entries[index];
        if entry.Vacant? {
          ProbeMiss(entries, hash, contents, id, probes);
          assert contents - {id} == contents;
          return false;
        }
        if entry.Occupied? && entry.id == id {
          EraseStores(entries, hash, contents, index);
          entries := entries[index := Deleted];
          RemoveSize(contents, id);
          contents := contents - {id};
          size := size - 1;
          return true;
        }
        index := Next(index, n);
      }
      ProbeMiss(entries, hash, contents, id, n);
      assert contents - {id} == contents;
      return false;
    }

    /** Puts an absent id into the first slot of its probe path that is not occupied. */
    method InsertRehashed(id: nat, node: nat)
      requires Stores(entries, hash, contents) && size == |contents| < |entries|
      requires id != INVALID_ID && id !in contents
      modifies this
      ensures Stores(entries, hash, contents) && |entries| == |old(entries)|
      ensures contents == old(contents)[id := node] && size == old(size) + 1
    {
      var n := |entries|;
      ghost var b, probes := Bucket(hash, id, n), 0;
      SomeSlotFree(entries, b);
      ghost var free :| 0 <= free < n && !entries[Slot(b, free, n)].Occupied?;
      var index := Bucket(hash, id, n);
      while entries[index].Occupied?
        invariant 0 <= probes <= free && index == Slot(b, probes, n)
        invariant forall u :: 0 <= u < probes ==> entries[Slot(b, u, n)].Occupied?
        decreases free - probes
      {
        index := Next(index, n);
        probes := probes + 1;
      }
      PlaceStores(entries, hash, contents, id, node, probes);
      entries := entries[index := Occupied(id, node)];
      contents := contents[id := node];
      size := size + 1;
    }

    method MoveEntry(id: nat, node: nat, ghost m: map<nat, nat>, ghost previous: seq<Entry>, ghost i: nat)
      requires Stores(entries, hash, contents) && size == |contents| && |m| <= |entries|
      requires Stores(previous, hash, m) && i < |previous| && previous[i] == Occupied(id, node)
      requires PartOf(contents, m, previous, i)
      modifies this
      ensures Stores(entries, hash, contents) && |entries| == |old(entries)| && size == |contents|
      ensures PartOf(contents, m, previous, i + 1)
    {
      PartSize(hash, contents, m, previous, i);
      InsertRehashed(id, node);
    }

    /** Moves every entry into a fresh table, leaving the tombstones behind. */
    method Rehash(capacity: nat)
      requires Stores(entries, hash, contents) && size == |contents|
      requires 8 <= capacity && PowerOfTwo(capacity) && 2 * size <= capacity
      modifies this
      ensures Valid() && contents == old(contents) && |entries| == capacity
    {
      var previous := entries;
      rehashes := rehashes + 1;
      ghost var m := contents;
      VacantStores(hash, capacity);
      entries := seq(capacity, _ => Vacant);
      size, contents := 0, map[];
      for i := 0 to |previous|
        invariant Stores(entries, hash, contents) && |entries| == capacity && size == |contents|
        invariant PartOf(contents, m, previous, i)
      {
        if previous[i].Occupied? {
          MoveEntry(previous[i].id, previous[i].node, m, previous, i);
        } else {
          PartSkips(contents, m, previous, i);
        }
      }
      PartIsWhole(hash, contents, m, previous);
    }

    method Insert(id: nat, node: nat) returns (ok: bool)
      requires Valid()
      modifies this
      ensures Valid()
      ensures ok == (id != INVALID_ID && id !in old(contents))
      ensures contents == if ok then old(contents)[id := node] else old(contents)
      ensures |old(entries)| > 0 && |old(entries)| >= 2 * (old(size) + 1) ==>
                |entries| == |old(entries)| && rehashes == old(rehashes)
      ensures |entries| >= |old(entries)|
    {
      if id == INVALID_ID {
        return false;
      }
      if |entries| == 0 || (size + 1) * 2 > |entries| {
        var capacity := NextCapacity(size + 1);
        Rehash(capacity);
      }
      ok := Place(id, node);
    }

    /** The probing part of an insertion, once the table is known to have room. */
    method Place(id: nat, node: nat) returns (ok: bool)
      requires Valid() && 2 * (size + 1) <= |entries| && id != INVALID_ID
      modifies this
      ensures Valid() && |entries| == |old(entries)| && rehashes == old(rehashes)
      ensures ok == (id !in old(contents))
      ensures contents == if ok then old(contents)[id := node] else old(contents)
    {
      var n := |entries|;
      ghost var b := Bucket(hash, id, n);
      ghost var firstProbe := 0;
      var firstDeleted: Option<nat> := None;
      var index := Bucket(hash, id, n);
      for probes := 0 to n
        invariant index == Slot(b, probes, n)
        invariant forall u :: 0 <= u < probes ==> !entries[Slot(b, u, n)].Vacant? && !Holds(entries, Slot(b, u, n), id)
        invariant firstDeleted == None ==> forall u :: 0 <= u < probes ==> entries[Slot(b, u, n)].Occupied?
        invariant firstDeleted != None ==> 0 <= firstProbe < probes && firstDeleted.value == Slot(b, firstProbe, n)
                                           && entries[firstDeleted.value].Deleted?
        invariant entries == old(entries) && size == old(size) && contents == old(contents) && rehashes == old(rehashes)
      {
        var entry := entries[index];
        if entry.Occupied? {
          if entry.id == id {
            return false;
          }
        } else if entry.Deleted? {
          if firstDeleted == None {
            firstDeleted := Some(index);
            firstProbe := probes;
          }
        } else {
          ProbeMiss(entries, hash, contents, id, probes);
          var target := if firstDeleted == None then index else firstDeleted.value;
          Write(target, id, node, if firstDeleted == None then probes else firstProbe);
          return true;
        }
        index := Next(index, n);
      }
      ProbeMiss(entries, hash, contents, id, n);
      // The C++ code would double the table here when it has met no tombstone either; at most
      // half of the slots are occupied, so that never happens.
      SomeSlotFree(entries, b);
      Write(firstDeleted.value, id, node, firstProbe);
      return true;
    }

    method Write(target: nat, id: nat, node: nat, ghost t: nat)
      requires Valid() && 2 * (size + 1) <= |entries| && id != INVALID_ID && id !in contents
      requires t < |entries| && target == Slot(Bucket(hash, id, |entries|), t, |entries|)
      requires forall u :: 0 <= u < t ==> !entries[Slot(Bucket(hash, id, |entries|), u, |entries|)].Vacant?
      requires !entries[target].Occupied?
      modifies this
      ensures Valid() && |entries| == |old(entries)| && contents == old(contents)[id := node]
      ensures rehashes == old(rehashes)
    {
      PlaceStores(entries, hash, contents, id, node, t);
      entries := entries[target := Occupied(id, node)];
      contents := contents[id := node];
      size := size + 1;
    }
  }
}
