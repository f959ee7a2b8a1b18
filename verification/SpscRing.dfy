/** The bounded single-producer single-consumer ring buffer, with one slot always left free. */
module SpscRings {
  import opened Types

  // ----- positions in a ring

  /** Where a counter stands in a ring of `n` slots. */
  function Slot(k: nat, n: nat): (s: nat)
    requires n > 0
    ensures s < n
  {
    if k == 0 then 0 else if Slot(k - 1, n) + 1 == n then 0 else Slot(k - 1, n) + 1
  }

  /** Going `d` positions on wraps around at most once. */
  lemma {:induction false} SlotOffset(k: nat, d: nat, n: nat)
    requires n > 0 && d <= n
    ensures Slot(k + d, n) == if Slot(k, n) + d < n then Slot(k, n) + d else Slot(k, n) + d - n
    decreases d
  {
    if d > 0 {
      SlotOffset(k, d - 1, n);
      assert k + d - 1 == k + (d - 1);
    }
  }

  lemma SmallMod(x: nat, n: nat)
    requires 0 < n && x < 2 * n
    ensures x % n == if x < n then x else x - n
  {
    if x < n {
      assert x / n == 0;
    } else {
      DivMod(x, n);
      Product(x / n, n);
    }
  }

  lemma DivMod(x: nat, n: nat)
    requires n > 0
    ensures x == x / n * n + x % n && 0 <= x % n < n
  {
  }

  lemma Product(q: nat, n: nat)
    ensures q == 0 ==> q * n == 0
    ensures q == 1 ==> q * n == n
    ensures q >= 2 ==> q * n >= 2 * n
  {
    if q >= 2 {
      assert q * n == 2 * n + (q - 2) * n;
    }
  }

  function Queued<T>(slots: seq<T>, first: nat, count: nat): seq<T>
    requires slots != []
  {
    seq(count, k requires 0 <= k < count => slots[Slot(first + k, |slots|)])
  }

  /** Writing the free slot adds the item behind the others. */
  lemma WriteAdds<T>(slots: seq<T>, first: nat, count: nat, item: T)
    requires count + 1 < |slots|
    ensures Queued(slots[Slot(first + count, |slots|) := item], first, count + 1) == Queued(slots, first, count) + [item]
  {
    var written := Queued(slots[Slot(first + count, |slots|) := item], first, count + 1);
    var was := Queued(slots, first, count);
    forall k | 0 <= k < count ensures written[k] == was[k] {
      SlotOffset(first + k, count - k, |slots|);
      assert first + k + (count - k) == first + count;
    }
  }

  lemma ReadTakesFirst<T>(slots: seq<T>, first: nat, count: nat)
    requires 0 < count && slots != []
    ensures Queued(slots, first, count) == [slots[Slot(first, |slots|)]] + Queued(slots, first + 1, count - 1)
  {
    var all, rest := Queued(slots, first, count), Queued(slots, first + 1, count - 1);
    forall k | 0 < k < count ensures all[k] == rest[k - 1] {
      assert first + k == first + 1 + (k - 1);
    }
  }

  class SpscRingBuffer<T> {
    const slots: array<T>
    const capacity: nat
    var head: nat
    var tail: nat
    ghost var popped: nat
    ghost var pushed: nat

    /** Head and tail are the counters of items popped and pushed, wrapped around. */
    ghost predicate Valid()
      reads this
    {
      && slots.Length == capacity + 1
      && head == Slot(popped, slots.Length) && tail == Slot(pushed, slots.Length)
      && popped <= pushed <= popped + capacity
    }

    /** The queued items, oldest first. */
    ghost function Contents(): seq<T>
      requires Valid()
      reads this, slots
    {
      Queued(slots[..], popped, pushed - popped)
    }

    constructor (capacity: nat, blank: T)
      ensures Valid() && fresh(slots) && this.capacity == capacity && Contents() == []
    {
      this.capacity := capacity;
      slots := new T[capacity + 1](_ => blank);
      head, tail, popped, pushed := 0, 0, 0, 0;
    }

    method Increment(index: nat) returns (next: nat)
      requires Valid() && index < slots.Length
      ensures next == if index + 1 == slots.Length then 0 else index + 1
    {
      SmallMod(index + 1, slots.Length);
      next := (index + 1) % slots.Length;
    }

    /** Refused, with nothing changed, exactly when `capacity` items wait. */
    method TryPush(item: T) returns (ok: bool)
      requires Valid()
      modifies this`tail, this`pushed, slots
      ensures Valid() && ok == (|old(Contents())| < capacity)
      ensures Contents() == if ok then old(Contents()) + [item] else old(Contents())
    {
      SlotOffset(popped, pushed - popped, slots.Length);
      var next := Increment(tail);
      if next == head {
        return false;
      }
      WriteAdds(slots[..], popped, pushed - popped, item);
      slots[tail] := item;
      tail := next;
      pushed := pushed + 1;
      return true;
    }

    /** Takes the oldest item, or nothing when none waits. */
    method TryPop() returns (item: Option<T>)
      requires Valid()
      modifies this`head, this`popped
      ensures Valid()
      ensures match item
              case None => old(Contents()) == [] && Contents() == []
              case Some(x) => old(Contents()) == [x] + Contents()
    {
      SlotOffset(popped, pushed - popped, slots.Length);
      if head == tail {
        return None;
      }
      ReadTakesFirst(slots[..], popped, pushed - popped);
      item := Some(slots[head]);
      head := Increment(head);
      popped := popped + 1;
    }

    method SizeApprox() returns (n: nat)
      requires Valid()
      ensures n == |Contents()|
    {
      SlotOffset(popped, pushed - popped, slots.Length);
      SmallMod(tail + slots.Length - head, slots.Length);
      n := (tail + slots.Length - head) % slots.Length;
    }
  }
}
