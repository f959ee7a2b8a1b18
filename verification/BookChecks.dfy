/** The run-time invariant check of the default book: what it accepts, and that it never finds
    anything to complain about in a book the operations can reach. */
module BookChecks {
  import opened Types
  import opened Ranking
  import opened Books
  import opened OrderBooks

  datatype Violation =
    | EmptyLevel | KeyDiffers | QuantityNotPositive | DuplicateId | Misfiled | NotIndexed | BadLocator | WrongTotal
    | IndexSizeDiffers | IndexedNotQueued | LocatorLevelMissing | BestLevelEmpty

  function IdsIn(nodes: seq<ListNode>): seq<nat> {
    seq(|nodes|, i requires 0 <= i < |nodes| => nodes[i].order.orderId)
  }

  /** The ids queued at the listed prices, in order. */
  function IdsAlong(levels: Levels, ps: seq<int>): seq<nat>
    requires forall i :: 0 <= i < |ps| ==> ps[i] in levels
  {
    if ps == [] then [] else IdsAlong(levels, ps[..|ps| - 1]) + IdsIn(levels[ps[|ps| - 1]].orders)
  }

  /** No id twice, and none that was seen before. */
  predicate DistinctFrom(ids: seq<nat>, seen: set<nat>) {
    (forall i, j :: 0 <= i < j < |ids| ==> ids[i] != ids[j]) && (forall i :: 0 <= i < |ids| ==> ids[i] !in seen)
  }

  function Seen(ids: seq<nat>): set<nat> {
    set i | 0 <= i < |ids| :: ids[i]
  }

  lemma DistinctConcat(a: seq<nat>, b: seq<nat>, seen: set<nat>)
    ensures DistinctFrom(a + b, seen) == (DistinctFrom(a, seen) && DistinctFrom(b, seen + Seen(a)))
    ensures Seen(a + b) == Seen(a) + Seen(b)
  {
    var c := a + b;
    forall i | 0 <= i < |a| ensures a[i] == c[i] && a[i] in Seen(a) {}
    forall i | 0 <= i < |b| ensures b[i] == c[|a| + i] {}
    forall i | 0 <= i < |c| ensures c[i] in Seen(a) + Seen(b) {}
    if DistinctFrom(c, seen) {
      forall i, j | 0 <= i < |a| && 0 <= j < |b| ensures b[j] != a[i] {
        assert c[i] != c[|a| + j];
      }
    }
  }

  /** The list node a locator denotes carries the id. */
  predicate Points(nodes: seq<ListNode>, handle: nat, id: nat) {
    exists j :: 0 <= j < |nodes| && nodes[j].handle == handle && nodes[j].order.orderId == id
  }

  predicate Filed(index: map<nat, Locator>, side: Side, price: int, level: PriceLevel, o: Order) {
    && o.quantity > 0 && o.side == side && o.price == price
    && o.orderId in index && var l := index[o.orderId];
    l.side == side && l.price == price && Points(level.orders, l.node, o.orderId)
  }

  ghost predicate LevelConsistent(index: map<nat, Locator>, side: Side, price: int, level: PriceLevel) {
    && level.orders != [] && level.price == price
    && (forall i :: 0 <= i < |level.orders| ==> Filed(index, side, price, level, level.orders[i].order))
    && level.total == Total(OrdersOf(level.orders))
  }

  method CheckQueue(index: map<nat, Locator>, side: Side, price: int, level: PriceLevel, before: set<nat>)
    returns (found: seq<Violation>, seen: set<nat>)
    ensures found == [] <==> LevelConsistent(index, side, price, level) && DistinctFrom(IdsIn(level.orders), before)
    ensures seen == before + Seen(IdsIn(level.orders))
  {
    found, seen := [], before;
    if level.orders == [] { found := found + [EmptyLevel]; }
    if level.price != price { found := found + [KeyDiffers]; }
    var childSum := 0;
    ghost var ids, queue := IdsIn(level.orders), OrdersOf(level.orders);
    for i := 0 to |level.orders|
      invariant found == [] <==>
        && level.orders != [] && level.price == price
        && (forall k :: 0 <= k < i ==> Filed(index, side, price, level, level.orders[k].order))
        && DistinctFrom(ids[..i], before)
      invariant seen == before + Seen(ids[..i])
      invariant childSum == Total(queue[..i])
    {
      var o := level.orders[i].order;
      DistinctConcat(ids[..i], [o.orderId], before);
      assert ids[..i + 1] == ids[..i] + [o.orderId];
      assert queue[..i + 1][..i] == queue[..i];
      assert [o.orderId][0] == o.orderId && Seen([o.orderId]) == {o.orderId};
      if o.quantity <= 0 { found := found + [QuantityNotPositive]; }
      if o.orderId in seen { found := found + [DuplicateId]; }
      seen := seen + {o.orderId};
      if o.side != side || o.price != price { found := found + [Misfiled]; }
      if o.orderId !in index {
        found := found + [NotIndexed];
      } else {
        var l := index[o.orderId];
        if l.side != side || l.price != price || !Points(level.orders, l.node, o.orderId) {
          found := found + [BadLocator];
        }
      }
      childSum := childSum + o.quantity;
    }
    assert ids[..|ids|] == ids && queue[..|queue|] == queue;
    if childSum != level.total { found := found + [WrongTotal]; }
  }

  ghost predicate LevelsConsistent(index: map<nat, Locator>, side: Side, levels: Levels, ps: seq<int>)
    requires forall i :: 0 <= i < |ps| ==> ps[i] in levels
  {
    forall i :: 0 <= i < |ps| ==> LevelConsistent(index, side, ps[i], levels[ps[i]])
  }

  lemma OneMoreLevel(index: map<nat, Locator>, side: Side, levels: Levels, ps: seq<int>, i: nat, before: set<nat>)
    requires (forall i :: 0 <= i < |ps| ==> ps[i] in levels) && i < |ps|
    ensures LevelsConsistent(index, side, levels, ps[..i + 1])
      == (LevelsConsistent(index, side, levels, ps[..i]) && LevelConsistent(index, side, ps[i], levels[ps[i]]))
    ensures var ids, more := IdsAlong(levels, ps[..i]), IdsIn(levels[ps[i]].orders);
      && IdsAlong(levels, ps[..i + 1]) == ids + more && Seen(ids + more) == Seen(ids) + Seen(more)
      && DistinctFrom(ids + more, before) == (DistinctFrom(ids, before) && DistinctFrom(more, before + Seen(ids)))
  {
    assert ps[..i + 1][..i] == ps[..i];
    DistinctConcat(IdsAlong(levels, ps[..i]), IdsIn(levels[ps[i]].orders), before);
    forall k | 0 <= k < i + 1 ensures ps[..i + 1][k] == ps[k] {}
    if LevelsConsistent(index, side, levels, ps[..i + 1]) {
      assert LevelConsistent(index, side, ps[..i + 1][i], levels[ps[i]]);
      forall k | 0 <= k < i ensures LevelConsistent(index, side, ps[..i][k], levels[ps[..i][k]]) {
        assert ps[..i + 1][k] == ps[..i][k];
      }
    }
  }

  method CheckLevels(index: map<nat, Locator>, side: Side, levels: Levels, ps: seq<int>, before: set<nat>)
    returns (found: seq<Violation>, seen: set<nat>)
    requires forall i :: 0 <= i < |ps| ==> ps[i] in levels
    ensures (found == []) == (LevelsConsistent(index, side, levels, ps) && DistinctFrom(IdsAlong(levels, ps), before))
    ensures seen == before + Seen(IdsAlong(levels, ps))
  {
    found, seen := [], before;
    for i := 0 to |ps|
      invariant (found == []) == (LevelsConsistent(index, side, levels, ps[..i]) && DistinctFrom(IdsAlong(levels, ps[..i]), before))
      invariant seen == before + Seen(IdsAlong(levels, ps[..i]))
    {
      OneMoreLevel(index, side, levels, ps, i, before);
      var more;
      more, seen := CheckQueue(index, side, ps[i], levels[ps[i]], seen);
      found := found + more;
    }
    assert ps[..|ps|] == ps;
  }

  /** The index entries of the listed ids that the check accepts. */
  predicate IndexConsistent(st: Store, ids: set<nat>, seen: set<nat>)
    requires ids <= st.index.Keys
  {
    forall id :: id in ids ==> id in seen && LocatorLevel(st, st.index[id])
  }

  method CheckIndex(st: Store, seen: set<nat>) returns (found: seq<Violation>)
    ensures (found == []) == (|seen| == |st.index| && IndexConsistent(st, st.index.Keys, seen))
  {
    found := [];
    if |seen| != |st.index| { found := found + [IndexSizeDiffers]; }
    var left := st.index.Keys;
    while left != {}
      invariant left <= st.index.Keys
      invariant (found == []) == (|seen| == |st.index| && IndexConsistent(st, st.index.Keys - left, seen))
      decreases |left|
    {
      var id := PickOne(left);
      assert st.index.Keys - (left - {id}) == st.index.Keys - left + {id};
      left := left - {id};
      var l := st.index[id];
      if id !in seen { found := found + [IndexedNotQueued]; }
      if l.side == Buy && l.price !in st.bids { found := found + [LocatorLevelMissing]; }
      if l.side == Sell && l.price !in st.asks { found := found + [LocatorLevelMissing]; }
    }
    assert st.index.Keys - left == st.index.Keys;
  }

  method CheckBest(levels: Levels, ps: seq<int>, ghost index: map<nat, Locator>, ghost side: Side)
    returns (found: seq<Violation>)
    requires Lists(ps, levels.Keys)
    ensures LevelsConsistent(index, side, levels, ps) ==> found == []
  {
    if ps != [] && levels[ps[0]].orders == [] {
      return [BestLevelEmpty];
    }
    return [];
  }

  /** The verdict on the queues, side by side or all at once. */
  lemma QueuesDecide(bidIds: seq<nat>, askIds: seq<nat>)
    ensures DistinctFrom(bidIds + askIds, {}) == (DistinctFrom(bidIds, {}) && DistinctFrom(askIds, Seen(bidIds)))
    ensures Seen(bidIds + askIds) == Seen(bidIds) + Seen(askIds)
  {
    DistinctConcat(bidIds, askIds, {});
    assert {} + Seen(bidIds) == Seen(bidIds);
  }

  ghost predicate Located(st: Store) {
    forall id :: id in st.index ==> LocatorLevel(st, st.index[id])
  }

  /** The verdict on the index: as many ids as were queued, each of them queued, means exactly the queued ones. */
  lemma IndexDecides(st: Store, seen: set<nat>)
    ensures (|seen| == |st.index| && IndexConsistent(st, st.index.Keys, seen)) == (seen == st.index.Keys && Located(st))
  {
    Equinumerous(seen, st.index.Keys);
    assert |st.index| == |st.index.Keys|;
    if |seen| == |st.index| && IndexConsistent(st, st.index.Keys, seen) {
      forall id | id in st.index.Keys ensures id in seen && LocatorLevel(st, st.index[id]) {}
    }
  }

  /** The verdict of the whole check, from the verdicts of its parts. */
  lemma PartsDecide(st: Store, first: set<nat>, seen: set<nat>)
    requires first == Seen(IdsAlong(st.bids, PricesOf(st, Buy)))
    requires seen == first + Seen(IdsAlong(st.asks, PricesOf(st, Sell)))
    ensures Consistent(st) == (BidsPass(st) && AsksPass(st, first) && |seen| == |st.index| && IndexConsistent(st, st.index.Keys, seen))
  {
    QueuesDecide(IdsAlong(st.bids, PricesOf(st, Buy)), IdsAlong(st.asks, PricesOf(st, Sell)));
    IndexDecides(st, seen);
  }

  ghost predicate BidsPass(st: Store) {
    LevelsConsistent(st.index, Buy, st.bids, PricesOf(st, Buy)) && DistinctFrom(IdsAlong(st.bids, PricesOf(st, Buy)), {})
  }

  ghost predicate AsksPass(st: Store, first: set<nat>) {
    LevelsConsistent(st.index, Sell, st.asks, PricesOf(st, Sell)) && DistinctFrom(IdsAlong(st.asks, PricesOf(st, Sell)), first)
  }

  /** The whole check finds nothing exactly in a consistent store, whatever the fields hold. */
  method CheckInvariants(st: Store) returns (found: seq<Violation>)
    ensures (found == []) == Consistent(st)
  {
    var bidPrices, askPrices := PricesOf(st, Buy), PricesOf(st, Sell);
    var onBids, first := CheckLevels(st.index, Buy, st.bids, bidPrices, {});
    var onAsks, seen := CheckLevels(st.index, Sell, st.asks, askPrices, first);
    PartsDecide(st, first, seen);
    var onIndex := CheckIndex(st, seen);
    var bestBid := CheckBest(st.bids, bidPrices, st.index, Buy);
    var bestAsk := CheckBest(st.asks, askPrices, st.index, Sell);
    return onBids + onAsks + onIndex + bestBid + bestAsk;
  }

  /** Sets of one size, one inside the other, are equal. */
  lemma Equinumerous(a: set<nat>, b: set<nat>)
    ensures b <= a && |a| == |b| ==> a == b
  {
    if b <= a && |a| == |b| {
      assert a == b + (a - b);
      assert |a - b| == 0;
    }
  }

  /** What the check accepts: consistent levels, no id queued twice, and an index of exactly the queued ids. */
  ghost predicate Consistent(st: Store) {
    && LevelsConsistent(st.index, Buy, st.bids, PricesOf(st, Buy))
    && LevelsConsistent(st.index, Sell, st.asks, PricesOf(st, Sell))
    && DistinctFrom(QueuedIds(st), {})
    && Seen(QueuedIds(st)) == st.index.Keys
    && Located(st)
  }

  predicate LocatorLevel(st: Store, l: Locator) {
    (l.side == Buy ==> l.price in st.bids) && (l.side == Sell ==> l.price in st.asks)
  }

  function PricesOf(st: Store, side: Side): (ps: seq<int>)
    ensures Lists(ps, st.On(side).Keys)
  {
    RankedLists(side, st.On(side).Keys);
    Ranked(side, st.On(side).Keys)
  }

  function QueuedIds(st: Store): seq<nat> {
    IdsAlong(st.bids, PricesOf(st, Buy)) + IdsAlong(st.asks, PricesOf(st, Sell))
  }

  // ----- a reachable book always passes

  ghost predicate QueuedAt(st: Store, side: Side, ps: seq<int>, id: nat) {
    exists k, j :: 0 <= k < |ps| && st.At(side, ps[k], j) && st.Node(side, ps[k], j).order.orderId == id
  }

  ghost predicate QueuedHere(st: Store, side: Side, p: int, id: nat) {
    exists j :: st.At(side, p, j) && st.Node(side, p, j).order.orderId == id
  }

  /** Positions and ids of the abstract book, read off the store. */
  lemma PositionOf(st: Store, s: Side, p: int, j: int)
    ensures st.At(s, p, j) == In(st.View(), s, p, j)
    ensures st.At(s, p, j) ==> Get(st.View(), s, p, j) == st.Node(s, p, j).order
  {
  }

  lemma SameIdSamePlace(st: Store, s: Side, p: int, j: int, s': Side, p': int, j': int)
    requires Sound(st.View()) && st.At(s, p, j) && st.At(s', p', j')
    requires st.Node(s, p, j).order.orderId == st.Node(s', p', j').order.orderId
    ensures (s, p, j) == (s', p', j')
  {
    PositionOf(st, s, p, j);
    PositionOf(st, s', p', j');
  }

  lemma {:induction false} AlongFacts(st: Store, side: Side, ps: seq<int>)
    requires Sound(st.View()) && ValidSide(side) && StrictlyRanked(side, ps)
    requires forall k :: 0 <= k < |ps| ==> ps[k] in st.On(side)
    ensures DistinctFrom(IdsAlong(st.On(side), ps), {})
    ensures forall id :: id in Seen(IdsAlong(st.On(side), ps)) <==> QueuedAt(st, side, ps, id)
  {
    if ps != [] {
      var init, last := ps[..|ps| - 1], ps[|ps| - 1];
      AlongFacts(st, side, init);
      var ids, more := IdsAlong(st.On(side), init), IdsIn(st.On(side)[last].orders);
      DistinctConcat(ids, more, {});
      forall i, j | 0 <= i < j < |more| ensures more[i] != more[j] {
        assert st.At(side, last, i) && st.At(side, last, j);
        if more[i] == more[j] { SameIdSamePlace(st, side, last, i, side, last, j); }
      }
      forall j | 0 <= j < |more| ensures more[j] !in {} + Seen(ids) {
        assert st.At(side, last, j);
        if more[j] in Seen(ids) {
          var k, j' :| 0 <= k < |init| && st.At(side, init[k], j') && st.Node(side, init[k], j').order.orderId == more[j];
          SameIdSamePlace(st, side, last, j, side, init[k], j');
        }
      }
      QueuedExtends(st, side, ps);
      forall id ensures id in Seen(more) <==> QueuedHere(st, side, last, id) {
        if QueuedHere(st, side, last, id) {
          var j :| st.At(side, last, j) && st.Node(side, last, j).order.orderId == id;
          assert more[j] == id;
        }
        if id in Seen(more) {
          var j :| 0 <= j < |more| && more[j] == id;
          assert st.At(side, last, j);
        }
      }
    }
  }

  lemma QueuedExtends(st: Store, side: Side, ps: seq<int>)
    requires ps != []
    ensures forall id :: QueuedAt(st, side, ps, id) == (QueuedAt(st, side, ps[..|ps| - 1], id) || QueuedHere(st, side, ps[|ps| - 1], id))
  {
    var init := ps[..|ps| - 1];
    forall id | QueuedAt(st, side, init, id) ensures QueuedAt(st, side, ps, id) {
      var k, j :| 0 <= k < |init| && st.At(side, init[k], j) && st.Node(side, init[k], j).order.orderId == id;
      assert ps[k] == init[k];
    }
    forall id | QueuedAt(st, side, ps, id)
      ensures QueuedAt(st, side, init, id) || QueuedHere(st, side, ps[|ps| - 1], id)
    {
      var k, j :| 0 <= k < |ps| && st.At(side, ps[k], j) && st.Node(side, ps[k], j).order.orderId == id;
      assert k < |init| ==> init[k] == ps[k];
    }
  }

  lemma LevelsPass(st: Store, side: Side)
    requires st.Ok() && ValidSide(side)
    ensures LevelsConsistent(st.index, side, st.On(side), PricesOf(st, side))
  {
    forall p | p in st.On(side) ensures LevelConsistent(st.index, side, p, st.On(side)[p]) {
      var level := st.On(side)[p];
      assert LevelOk(level, p, st.nextHandle);
      assert On(st.View(), side)[p] == OrdersOf(level.orders) != [];
      forall i | 0 <= i < |level.orders| ensures Filed(st.index, side, p, level, level.orders[i].order) {
        PositionOf(st, side, p, i);
        assert st.At(side, p, i) && st.Indexes(side, p, i);
        assert Fits(Get(st.View(), side, p, i), st.symbol, side, p);
      }
    }
  }

  /** The ids queued on each side, listed once each. */
  lemma SideIds(st: Store, side: Side) returns (ids: seq<nat>)
    requires Sound(st.View()) && ValidSide(side)
    ensures ids == IdsAlong(st.On(side), PricesOf(st, side)) && DistinctFrom(ids, {})
    ensures forall id :: id in Seen(ids) <==> QueuedAt(st, side, PricesOf(st, side), id)
  {
    RankedLists(side, st.On(side).Keys);
    AlongFacts(st, side, PricesOf(st, side));
    ids := IdsAlong(st.On(side), PricesOf(st, side));
  }

  lemma IdsPass(st: Store)
    requires Sound(st.View())
    ensures DistinctFrom(QueuedIds(st), {})
    ensures forall id :: id in Seen(QueuedIds(st)) <==> QueuedAt(st, Buy, PricesOf(st, Buy), id) || QueuedAt(st, Sell, PricesOf(st, Sell), id)
  {
    var bidIds := SideIds(st, Buy);
    var askIds := SideIds(st, Sell);
    DistinctConcat(bidIds, askIds, {});
    forall j | 0 <= j < |askIds| ensures askIds[j] !in {} + Seen(bidIds) {
      assert askIds[j] in Seen(askIds);
      SidesApart(st, askIds[j]);
    }
  }

  lemma IndexPasses(st: Store)
    requires st.Ok()
    ensures Seen(QueuedIds(st)) == st.index.Keys && Located(st)
  {
    IdsPass(st);
    forall id ensures id in Seen(QueuedIds(st)) <==> id in st.index.Keys {
      IndexedIffQueued(st, id);
    }
    forall id | id in st.index ensures LocatorLevel(st, st.index[id]) {
      LocatorLeadsTo(st, id);
    }
  }

  /** The check finds nothing wrong in any book the operations can reach. */
  lemma ReachableIsConsistent(st: Store)
    requires st.Ok()
    ensures Consistent(st)
  {
    LevelsPass(st, Buy);
    LevelsPass(st, Sell);
    IdsPass(st);
    IndexPasses(st);
  }

  lemma SidesApart(st: Store, id: nat)
    requires Sound(st.View())
    ensures !(QueuedAt(st, Buy, PricesOf(st, Buy), id) && QueuedAt(st, Sell, PricesOf(st, Sell), id))
  {
    var ps, qs := PricesOf(st, Buy), PricesOf(st, Sell);
    if QueuedAt(st, Buy, ps, id) && QueuedAt(st, Sell, qs, id) {
      var k, j :| 0 <= k < |ps| && st.At(Buy, ps[k], j) && st.Node(Buy, ps[k], j).order.orderId == id;
      var k', j' :| 0 <= k' < |qs| && st.At(Sell, qs[k'], j') && st.Node(Sell, qs[k'], j').order.orderId == id;
      SameIdSamePlace(st, Buy, ps[k], j, Sell, qs[k'], j');
    }
  }

  lemma IndexedIffQueued(st: Store, id: nat)
    requires st.IndexOk()
    ensures id in st.index <==> QueuedAt(st, Buy, PricesOf(st, Buy), id) || QueuedAt(st, Sell, PricesOf(st, Sell), id)
  {
    if id in st.index {
      var s, p, j :| st.At(s, p, j) && st.Node(s, p, j).order.orderId == id;
      var ps := PricesOf(st, s);
      var k :| 0 <= k < |ps| && ps[k] == p;
      assert st.At(s, ps[k], j);
    }
    forall s, p, j | st.At(s, p, j) && st.Node(s, p, j).order.orderId == id ensures id in st.index {
      assert st.Indexes(s, p, j);
    }
  }
}
