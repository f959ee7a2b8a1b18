/** The risk gateway's set of accepted client order ids: open addressing without tombstones, whose
    probe loops have no bound of their own. */
module ClientOrderIds {
  import opened Types
  import opened FlatOrderIndexes

  /** The buckets as an index table that maps every stored id to zero. */
  function Table(buckets: seq<nat>): (es: seq<Entry>)
    ensures |es| == |buckets|
  {
    seq(|buckets|, i requires 0 <= i < |buckets| => if buckets[i] == INVALID_ID then Vacant else Occupied(buckets[i], 0))
  }

  class ClientOrderIdSet {
    const hash: Hash
    var buckets: seq<nat>
    var size: nat
    var containsZero: bool
    ghost var stored: map<nat, nat>

    /** At most half of the buckets are taken. */
    ghost predicate Valid()
      reads this
    {
      && Stores(Table(buckets), hash, stored)
      && size == |stored| + (if containsZero then 1 else 0)
      && 2 * |stored| <= |buckets|
      && (|buckets| == 0 || PowerOfTwo(|buckets|))
    }

    ghost function View(): set<nat>
      reads this
    {
      stored.Keys + if containsZero then {INVALID_ID} else {}
    }

    constructor (hash: Hash)
      ensures Valid() && View() == {}
    {
      this.hash := hash;
      buckets, size, containsZero, stored := [], 0, false, map[];
    }

    /** The smallest power of two from 16 up that keeps the set at most half full. */
    static method BucketCountFor(expectedSize: nat) returns (count: nat)
      ensures count >= 16 && count >= 2 * expectedSize && PowerOfTwo(count)
      ensures count == 16 || count < 4 * expectedSize
    {
      count := 16;
      SixteenIsPower();
      var target := if expectedSize < 8 then 16 else expectedSize * 2;
      while count < target
        invariant count >= 16 && PowerOfTwo(count)
        invariant count == 16 || (target == 2 * expectedSize && count < 2 * target)
      {
        PowerDoubles(count);
        count := count * 2;
      }
    }

    /** Probes to the id's bucket or to an empty one. One is always met: at least half are empty. */
    method Probe(id: nat) returns (index: nat, ghost probes: nat)
      requires Stores(Table(buckets), hash, stored) && |stored| < |buckets| && id != INVALID_ID
      ensures probes < |buckets| && index == FlatOrderIndexes.Slot(Bucket(hash, id, |buckets|), probes, |buckets|)
      ensures buckets[index] == id || buckets[index] == INVALID_ID
      ensures (buckets[index] == id) == (id in stored)
      ensures forall u :: 0 <= u < probes ==> !Table(buckets)[FlatOrderIndexes.Slot(Bucket(hash, id, |buckets|), u, |buckets|)].Vacant?
    {
      var n := |buckets|;
      ghost var b, es := Bucket(hash, id, n), Table(buckets);
      SomeSlotFree(es, b);
      ghost var free :| 0 <= free < n && !es[FlatOrderIndexes.Slot(b, free, n)].Occupied?;
      index, probes := Bucket(hash, id, n), 0;
      while buckets[index] != id && buckets[index] != INVALID_ID
        invariant 0 <= probes <= free && index == FlatOrderIndexes.Slot(b, probes, n)
        invariant forall u :: 0 <= u < probes ==> es[FlatOrderIndexes.Slot(b, u, n)].Occupied? && !Holds(es, FlatOrderIndexes.Slot(b, u, n), id)
        decreases free - probes
      {
        index := Next(index, n);
        probes := probes + 1;
      }
      if buckets[index] == id {
        assert Holds(es, index, id);
      } else {
        ProbeMiss(es, hash, stored, id, probes);
      }
    }

    method Contains(id: nat) returns (found: bool)
      requires Valid()
      ensures found == (id in View())
    {
      StoredIdsAreSet(Table(buckets), hash, stored);
      if id == INVALID_ID {
        return containsZero;
      }
      if |buckets| == 0 {
        return false;
      }
      var index, _ := Probe(id);
      return buckets[index] == id;
    }

    /** Writes an id that is not stored. */
    method Place(id: nat)
      requires Stores(Table(buckets), hash, stored) && |stored| < |buckets| && id != INVALID_ID && id !in stored
      modifies this`buckets, this`stored, this`size
      ensures Stores(Table(buckets), hash, stored) && |buckets| == |old(buckets)|
      ensures stored == old(stored)[id := 0] && size == old(size) + 1
    {
      var index, probes := Probe(id);
      PlaceStores(Table(buckets), hash, stored, id, 0, probes);
      assert Table(buckets[index := id]) == Table(buckets)[index := Occupied(id, 0)];
      buckets := buckets[index := id];
      stored := stored[id := 0];
      size := size + 1;
    }

    method MoveId(id: nat, ghost all: map<nat, nat>, ghost previous: seq<nat>, ghost i: nat)
      requires Stores(Table(buckets), hash, stored) && |all| <= |buckets|
      requires Stores(Table(previous), hash, all) && i < |previous| && previous[i] == id != INVALID_ID
      requires PartOf(stored, all, Table(previous), i)
      modifies this`buckets, this`stored, this`size
      ensures Stores(Table(buckets), hash, stored) && |buckets| == |old(buckets)|
      ensures PartOf(stored, all, Table(previous), i + 1) && size - |stored| == old(size - |stored|)
    {
      assert Table(previous)[i] == Occupied(id, 0);
      PartSize(hash, stored, all, Table(previous), i);
      Place(id);
    }

    method Rehash(count: nat)
      requires Valid() && 2 * |stored| <= count && PowerOfTwo(count)
      modifies this
      ensures Valid() && stored == old(stored) && containsZero == old(containsZero) && |buckets| == count
    {
      var previous := buckets;
      ghost var all := stored;
      buckets := seq(count, _ => INVALID_ID);
      assert Table(buckets) == seq(count, _ => Vacant);
      VacantStores(hash, count);
      size, stored := if containsZero then 1 else 0, map[];
      for i := 0 to |previous|
        invariant Stores(Table(buckets), hash, stored) && |buckets| == count
        invariant size == |stored| + (if containsZero then 1 else 0) && containsZero == old(containsZero)
        invariant PartOf(stored, all, Table(previous), i)
      {
        if previous[i] == INVALID_ID {
          PartSkips(stored, all, Table(previous), i);
          continue;
        }
        MoveId(previous[i], all, previous, i);
      }
      PartIsWhole(hash, stored, all, Table(previous));
    }

    method Reserve(expectedSize: nat)
      requires Valid()
      modifies this
      ensures Valid() && View() == old(View())
    {
      var count := BucketCountFor(expectedSize);
      if count > |buckets| {
        Rehash(count);
      }
    }

    method Insert(id: nat)
      requires Valid()
      modifies this
      ensures Valid() && View() == old(View()) + {id}
    {
      StoredIdsAreSet(Table(buckets), hash, stored);
      if id == INVALID_ID {
        InsertZero();
      } else {
        MakeRoom();
        InsertRoomy(id);
      }
    }

    /** The unset id is kept apart from the buckets. */
    method InsertZero()
      requires Valid()
      modifies this`containsZero, this`size
      ensures Valid() && View() == old(View()) + {INVALID_ID}
    {
      if !containsZero {
        containsZero := true;
        size := size + 1;
      }
    }

    /** Rehashes when one more id would take more than half of the buckets. */
    method MakeRoom()
      requires Valid() && INVALID_ID !in stored
      modifies this
      ensures Valid() && 2 * (|stored| + 1) <= |buckets|
      ensures stored == old(stored) && containsZero == old(containsZero)
    {
      if |buckets| == 0 || (size + 1) * 2 >= |buckets| {
        var count := BucketCountFor(size + 1);
        Rehash(count);
      }
    }

    /** Stores an id that fits, unless it is stored already. */
    method InsertRoomy(id: nat)
      requires Valid() && 2 * (|stored| + 1) <= |buckets| && id != INVALID_ID
      modifies this`buckets, this`stored, this`size
      ensures Valid() && View() == old(View()) + {id}
    {
      var index, _ := Probe(id);
      if buckets[index] == id {
        return;
      }
      ghost var zero: set<nat> := if containsZero then {INVALID_ID} else {};
      AddKey(stored, id, zero);
      Place(id);
    }
  }

  lemma AddKey(m: map<nat, nat>, id: nat, zero: set<nat>)
    requires id !in m
    ensures m[id := 0].Keys + zero == m.Keys + zero + {id} && |m[id := 0]| == |m| + 1
  {
    InsertSize(m, id, 0);
  }

  lemma StoredIdsAreSet(es: seq<Entry>, hash: Hash, m: map<nat, nat>)
    requires Stores(es, hash, m)
    ensures INVALID_ID !in m && (es == [] ==> m == map[])
  {
    forall id | id in m ensures id != INVALID_ID && es != [] {
      var j :| Holds(es, j, id);
    }
    assert es == [] ==> m == map[];
  }
}
