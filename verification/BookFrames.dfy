/** What one book operation leaves unchanged: every other order, with all its fields. */
module BookFrames {
  import opened Types
  import opened Books

  lemma PushFinds(b: Book, o: Order)
    requires Sound(b) && ValidRestingOrder(o) && o.symbolId == b.symbol && !Has(b, o.orderId)
    ensures Has(Push(b, o), o.orderId) && Find(Push(b, o), o.orderId) == o
    ensures forall id :: Has(b, id) ==> Has(Push(b, o), id) && Find(Push(b, o), id) == Find(b, id)
  {
    var b', n := Push(b, o), |QueueAt(On(b, o.side), o.price)|;
    PushSound(b, o);
    assert In(b', o.side, o.price, n) && Get(b', o.side, o.price, n) == o;
    FindIs(b', o.side, o.price, n);
    forall id | Has(b, id) ensures Has(b', id) && Find(b', id) == Find(b, id) {
      var s, p, i :| In(b, s, p, i) && Get(b, s, p, i).orderId == id;
      FindIs(b, s, p, i);
      assert In(b', s, p, i) && Get(b', s, p, i) == Get(b, s, p, i);
      FindIs(b', s, p, i);
    }
  }

  lemma DropFinds(b: Book, id: nat)
    requires Sound(b) && Has(b, id)
    ensures forall id' :: Has(b, id') && id' != id ==> Has(Drop(b, id), id') && Find(Drop(b, id), id') == Find(b, id')
  {
    DropSound(b, id);
    var b' := Drop(b, id);
    var s0, p0, i0 :| In(b, s0, p0, i0) && Get(b, s0, p0, i0).orderId == id;
    DropIs(b, s0, p0, i0);
    forall id' | Has(b, id') && id' != id ensures Has(b', id') && Find(b', id') == Find(b, id') {
      var s, p, i :| In(b', s, p, i) && Get(b', s, p, i).orderId == id';
      var j := Origin(s0, p0, i0, s, p, i);
      assert In(b, s, p, j) && Get(b', s, p, i) == Get(b, s, p, j);
      FindIs(b, s, p, j);
      FindIs(b', s, p, i);
    }
  }

  lemma ShrinkFinds(b: Book, id: nat, n: int)
    requires Sound(b) && Has(b, id) && 0 < n < Find(b, id).quantity
    ensures Has(Shrink(b, id, n), id)
    ensures Find(Shrink(b, id, n), id) == Find(b, id).(quantity := Find(b, id).quantity - n)
    ensures forall id' :: Has(b, id') && id' != id ==> Has(Shrink(b, id, n), id') && Find(Shrink(b, id, n), id') == Find(b, id')
  {
    ShrinkSound(b, id, n);
    var b' := Shrink(b, id, n);
    var s0, p0, i0 :| In(b, s0, p0, i0) && Get(b, s0, p0, i0).orderId == id;
    FindIs(b, s0, p0, i0);
    ShrinkIs(b, s0, p0, i0, n);
    assert In(b', s0, p0, i0) && Get(b', s0, p0, i0) == Find(b, id).(quantity := Find(b, id).quantity - n);
    FindIs(b', s0, p0, i0);
    forall id' | Has(b, id') && id' != id ensures Has(b', id') && Find(b', id') == Find(b, id') {
      var s, p, i :| In(b, s, p, i) && Get(b, s, p, i).orderId == id';
      FindIs(b, s, p, i);
      assert In(b', s, p, i) && Get(b', s, p, i) == Get(b, s, p, i);
      FindIs(b', s, p, i);
    }
  }

  /** A replaced order keeps its identity and side, takes its new terms, and disturbs no other order. */
  lemma ReplaceFinds(b: Book, id: nat, price: int, quantity: int, timestamp: int, sequence: nat)
    requires Sound(b) && Has(b, id) && price > 0 && quantity > 0
    ensures var b' := Replace(b, id, price, quantity, timestamp, sequence).0;
      && Has(b', id)
      && Find(b', id) == Find(b, id).(price := price, quantity := quantity, timestamp := timestamp, sequence := sequence)
      && forall id' :: Has(b, id') && id' != id ==> Has(b', id') && Find(b', id') == Find(b, id')
  {
    FoundFits(b, id);
    DropSound(b, id);
    DropFinds(b, id);
    PushFinds(Drop(b, id),
              Find(b, id).(price := price, quantity := quantity, timestamp := timestamp, sequence := sequence));
  }
}
