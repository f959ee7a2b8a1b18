/** The default book: one ordered map of price levels per side, a linked list of orders in
    each level, and an index from order id to the place where the order rests. */
module OrderBooks {
  import opened Types
  import opened Ranking
  import opened Checksum
  import opened Books

  // A list node keeps its identity while its neighbours come and go; `handle` is that
  // identity, and it is what a list iterator denotes.
  datatype ListNode = ListNode(handle: nat, order: Order)
  datatype PriceLevel = PriceLevel(price: int, total: int, orders: seq<ListNode>)
  datatype Locator = Locator(side: Side, price: int, node: nat)

  type Levels = map<int, PriceLevel>

  function OrdersOf(nodes: seq<ListNode>): Queue {
    seq(|nodes|, i requires 0 <= i < |nodes| => nodes[i].order)
  }

  function LadderOf(levels: Levels): Ladder {
    map p | p in levels :: OrdersOf(levels[p].orders)
  }

  ghost predicate HandlesDistinct(nodes: seq<ListNode>) {
    forall i, j :: 0 <= i < j < |nodes| ==> nodes[i].handle != nodes[j].handle
  }

  /** Each level stores its own key, and its cached total is the sum of its queue. */
  ghost predicate LevelOk(level: PriceLevel, price: int, nextHandle: nat) {
    && level.price == price
    && level.total == Total(OrdersOf(level.orders))
    && HandlesDistinct(level.orders)
    && forall i :: 0 <= i < |level.orders| ==> level.orders[i].handle < nextHandle
  }

  /** The fields of a book, as one value. */
  datatype Store = Store(symbol: nat, bids: Levels, asks: Levels, index: map<nat, Locator>, nextHandle: nat) {
    function On(side: Side): Levels {
      if side == Buy then bids else asks
    }

    function With(side: Side, levels: Levels): Store {
      if side == Buy then this.(bids := levels) else this.(asks := levels)
    }

    function View(): Book {
      Book(symbol, LadderOf(bids), LadderOf(asks))
    }

    predicate At(side: Side, price: int, i: int) {
      ValidSide(side) && price in On(side) && 0 <= i < |On(side)[price].orders|
    }

    function Node(side: Side, price: int, i: int): ListNode
      requires At(side, price, i)
    {
      On(side)[price].orders[i]
    }

    /** The index entry of the order at a position names that position's list node. */
    predicate Indexes(side: Side, price: int, i: int)
      requires At(side, price, i)
    {
      var node := Node(side, price, i);
      node.order.orderId in index && index[node.order.orderId] == Locator(side, price, node.handle)
    }

    /** The index holds exactly the resting ids. */
    ghost predicate IndexOk() {
      && (forall s, p, i :: At(s, p, i) ==> Indexes(s, p, i))
      && (forall id :: id in index ==> exists s, p, i :: At(s, p, i) && Node(s, p, i).order.orderId == id)
    }

    ghost predicate LevelsOk() {
      forall s, p :: ValidSide(s) && p in On(s) ==> LevelOk(On(s)[p], p, nextHandle)
    }

    ghost predicate Ok() {
      Sound(View()) && LevelsOk() && IndexOk()
    }
  }

  // ----- storing a new order at the back of its level

  const NEW_LEVEL := PriceLevel(0, 0, [])

  function LevelAt(st: Store, side: Side, price: int): PriceLevel {
    if price in st.On(side) then st.On(side)[price] else NEW_LEVEL
  }

  function Pushed(level: PriceLevel, node: ListNode): PriceLevel {
    PriceLevel(node.order.price, level.total + node.order.quantity, level.orders + [node])
  }

  function Stored(st: Store, o: Order): Store {
    var level := Pushed(LevelAt(st, o.side, o.price), ListNode(st.nextHandle, o));
    st.With(o.side, st.On(o.side)[o.price := level]).(index := st.index[o.orderId := Locator(o.side, o.price, st.nextHandle)],
                                                      nextHandle := st.nextHandle + 1)
  }

  lemma PushedOk(level: PriceLevel, node: ListNode)
    requires LevelOk(level, node.order.price, node.handle) || level == NEW_LEVEL
    ensures LevelOk(Pushed(level, node), node.order.price, node.handle + 1)
    ensures OrdersOf(Pushed(level, node).orders) == OrdersOf(level.orders) + [node.order]
  {
    assert OrdersOf(level.orders + [node]) == OrdersOf(level.orders) + [node.order];
    TotalPush(OrdersOf(level.orders), node.order);
  }

  lemma StoredView(st: Store, o: Order)
    requires st.LevelsOk() && ValidSide(o.side)
    ensures Stored(st, o).View() == Push(st.View(), o)
  {
    PushedOk(LevelAt(st, o.side, o.price), ListNode(st.nextHandle, o));
    assert OrdersOf(LevelAt(st, o.side, o.price).orders) == QueueAt(On(st.View(), o.side), o.price);
    assert LadderOf(Stored(st, o).On(o.side)) == On(Push(st.View(), o), o.side);
  }

  /** One level after storing: the order's own level got longer, every other one is what it was. */
  lemma StoredLevel(st: Store, o: Order, s: Side, p: int)
    requires ValidSide(o.side) && ValidSide(s) && p in Stored(st, o).On(s)
    requires p in st.On(s) ==> LevelOk(st.On(s)[p], p, st.nextHandle)
    ensures LevelOk(Stored(st, o).On(s)[p], p, st.nextHandle + 1)
  {
    if (s, p) == (o.side, o.price) {
      PushedOk(LevelAt(st, s, p), ListNode(st.nextHandle, o));
    } else {
      assert Stored(st, o).On(s)[p] == st.On(s)[p];
    }
  }

  lemma StoredLevels(st: Store, o: Order)
    requires st.LevelsOk() && ValidSide(o.side)
    ensures Stored(st, o).LevelsOk()
  {
    forall s, p | ValidSide(s) && p in Stored(st, o).On(s)
      ensures LevelOk(Stored(st, o).On(s)[p], p, st.nextHandle + 1)
    {
      StoredLevel(st, o, s, p);
    }
  }

  /** Storing keeps every node in its place and adds one, at the back of its level. */
  lemma StoredNodes(st: Store, o: Order, s: Side, p: int, i: nat)
    requires ValidSide(o.side)
    ensures var n := |LevelAt(st, o.side, o.price).orders|;
      Stored(st, o).At(s, p, i) == (st.At(s, p, i) || (s, p, i) == (o.side, o.price, n))
    ensures st.At(s, p, i) ==> Stored(st, o).At(s, p, i) && Stored(st, o).Node(s, p, i) == st.Node(s, p, i)
    ensures Stored(st, o).At(s, p, i) && !st.At(s, p, i) ==> Stored(st, o).Node(s, p, i) == ListNode(st.nextHandle, o)
  {
  }

  lemma StoredIndex(st: Store, o: Order)
    requires st.IndexOk() && ValidSide(o.side) && o.orderId !in st.index
    ensures Stored(st, o).IndexOk()
  {
    var st', n := Stored(st, o), |LevelAt(st, o.side, o.price).orders|;
    StoredNodes(st, o, o.side, o.price, n);
    forall s, p, i | st'.At(s, p, i) ensures st'.Indexes(s, p, i) {
      StoredNodes(st, o, s, p, i);
      assert st.At(s, p, i) ==> st.Indexes(s, p, i);
    }
    forall id | id in st'.index && id != o.orderId
      ensures exists s, p, i :: st'.At(s, p, i) && st'.Node(s, p, i).order.orderId == id
    {
      var s, p, i :| st.At(s, p, i) && st.Node(s, p, i).order.orderId == id;
      StoredNodes(st, o, s, p, i);
    }
  }

  lemma IndexedIffResting(st: Store, id: nat)
    requires st.IndexOk()
    ensures id in st.index <==> Has(st.View(), id)
  {
    if id in st.index {
      var s, p, i :| st.At(s, p, i) && st.Node(s, p, i).order.orderId == id;
      assert In(st.View(), s, p, i) && Get(st.View(), s, p, i).orderId == id;
    }
    if Has(st.View(), id) {
      var s, p, i :| In(st.View(), s, p, i) && Get(st.View(), s, p, i).orderId == id;
      assert st.At(s, p, i) && st.Indexes(s, p, i);
    }
  }

  lemma StoredOk(st: Store, o: Order)
    requires st.Ok() && ValidRestingOrder(o) && o.symbolId == st.symbol && o.orderId !in st.index
    ensures Stored(st, o).Ok() && (Stored(st, o).View(), true) == Add(st.View(), o)
  {
    StoredView(st, o);
    StoredLevels(st, o);
    StoredIndex(st, o);
    IndexedIffResting(st, o.orderId);
    PushSound(st.View(), o);
  }

  // ----- erasing the order at a position

  function Pulled(level: PriceLevel, i: nat): PriceLevel
    requires i < |level.orders|
  {
    level.(total := level.total - level.orders[i].order.quantity, orders := level.orders[..i] + level.orders[i + 1..])
  }

  function Erased(st: Store, side: Side, price: int, i: nat): Store
    requires st.At(side, price, i)
  {
    var level := Pulled(st.On(side)[price], i);
    var levels := if level.orders == [] then st.On(side) - {price} else st.On(side)[price := level];
    st.With(side, levels).(index := st.index - {st.Node(side, price, i).order.orderId})
  }

  lemma PulledOk(level: PriceLevel, price: int, nextHandle: nat, i: nat)
    requires LevelOk(level, price, nextHandle) && i < |level.orders|
    ensures LevelOk(Pulled(level, i), price, nextHandle)
    ensures OrdersOf(Pulled(level, i).orders) == RemoveAt(OrdersOf(level.orders), i)
  {
    assert OrdersOf(Pulled(level, i).orders) == RemoveAt(OrdersOf(level.orders), i);
    TotalRemoveAt(OrdersOf(level.orders), i);
  }

  lemma ErasedView(st: Store, s: Side, p: int, i: nat)
    requires Sound(st.View()) && st.LevelsOk() && st.At(s, p, i)
    ensures Erased(st, s, p, i).View() == Drop(st.View(), st.Node(s, p, i).order.orderId)
  {
    var b := st.View();
    PulledOk(st.On(s)[p], p, st.nextHandle, i);
    assert In(b, s, p, i) && Get(b, s, p, i) == st.Node(s, p, i).order;
    DropIs(b, s, p, i);
    assert LadderOf(Erased(st, s, p, i).On(s)) == SetQueue(On(b, s), p, RemoveAt(On(b, s)[p], i));
  }

  lemma ErasedLevels(st: Store, s: Side, p: int, i: nat)
    requires st.LevelsOk() && st.At(s, p, i)
    ensures Erased(st, s, p, i).LevelsOk()
  {
    PulledOk(st.On(s)[p], p, st.nextHandle, i);
    var st' := Erased(st, s, p, i);
    forall s', p' | ValidSide(s') && p' in st'.On(s') ensures LevelOk(st'.On(s')[p'], p', st'.nextHandle) {
      if (s', p') != (s, p) {
        assert LevelOk(st.On(s')[p'], p', st.nextHandle);
      }
    }
  }

  /** Every node left after erasing position `i` stood at its origin before, and conversely. */
  lemma ErasedNodes(st: Store, s: Side, p: int, i: nat, s': Side, p': int, j: int)
    requires st.At(s, p, i)
    ensures Erased(st, s, p, i).At(s', p', j) ==>
      st.At(s', p', Origin(s, p, i, s', p', j)) && Erased(st, s, p, i).Node(s', p', j) == st.Node(s', p', Origin(s, p, i, s', p', j))
    ensures st.At(s', p', j) && (s', p', j) != (s, p, i) ==>
      var k := if (s', p') == (s, p) && j > i then j - 1 else j;
      Erased(st, s, p, i).At(s', p', k) && Erased(st, s, p, i).Node(s', p', k) == st.Node(s', p', j)
  {
  }

  lemma ErasedIndex(st: Store, s: Side, p: int, i: nat)
    requires st.LevelsOk() && st.IndexOk() && st.At(s, p, i)
    ensures Erased(st, s, p, i).IndexOk()
  {
    var st' := Erased(st, s, p, i);
    assert st.Indexes(s, p, i);
    assert LevelOk(st.On(s)[p], p, st.nextHandle);
    forall s', p', j | st'.At(s', p', j) ensures st'.Indexes(s', p', j) {
      ErasedNodes(st, s, p, i, s', p', j);
      assert st.Indexes(s', p', Origin(s, p, i, s', p', j));
    }
    forall id | id in st'.index
      ensures exists s', p', j :: st'.At(s', p', j) && st'.Node(s', p', j).order.orderId == id
    {
      var s', p', k :| st.At(s', p', k) && st.Node(s', p', k).order.orderId == id;
      ErasedNodes(st, s, p, i, s', p', k);
    }
  }

  lemma ErasedOk(st: Store, s: Side, p: int, i: nat)
    requires st.Ok() && st.At(s, p, i)
    ensures Erased(st, s, p, i).Ok()
    ensures (Erased(st, s, p, i).View(), true) == Cancel(st.View(), st.Node(s, p, i).order.orderId)
  {
    ErasedView(st, s, p, i);
    ErasedLevels(st, s, p, i);
    ErasedIndex(st, s, p, i);
    assert st.Indexes(s, p, i);
    IndexedIffResting(st, st.Node(s, p, i).order.orderId);
    DropSound(st.View(), st.Node(s, p, i).order.orderId);
  }

  // ----- taking part of the order at a position

  function Trimmed(st: Store, side: Side, price: int, i: nat, quantity: int): Store
    requires st.At(side, price, i)
  {
    var level, node := st.On(side)[price], st.Node(side, price, i);
    var nodes := level.orders[i := node.(order := node.order.(quantity := node.order.quantity - quantity))];
    st.With(side, st.On(side)[price := level.(total := level.total - quantity, orders := nodes)])
  }

  lemma TrimmedView(st: Store, s: Side, p: int, i: nat, n: int)
    requires Sound(st.View()) && st.At(s, p, i)
    ensures Trimmed(st, s, p, i, n).View() == Shrink(st.View(), st.Node(s, p, i).order.orderId, n)
  {
    var b, o := st.View(), st.Node(s, p, i).order;
    assert In(b, s, p, i) && Get(b, s, p, i) == o;
    ShrinkIs(b, s, p, i, n);
    var q := On(b, s)[p][i := o.(quantity := o.quantity - n)];
    assert OrdersOf(Trimmed(st, s, p, i, n).On(s)[p].orders) == q;
    assert LadderOf(Trimmed(st, s, p, i, n).On(s)) == On(b, s)[p := q];
  }

  lemma TrimmedLevels(st: Store, s: Side, p: int, i: nat, n: int)
    requires st.LevelsOk() && st.At(s, p, i)
    ensures Trimmed(st, s, p, i, n).LevelsOk()
  {
    var st', o := Trimmed(st, s, p, i, n), st.Node(s, p, i).order;
    var q := OrdersOf(st.On(s)[p].orders);
    assert LevelOk(st.On(s)[p], p, st.nextHandle);
    assert OrdersOf(st'.On(s)[p].orders) == q[i := o.(quantity := o.quantity - n)];
    TotalUpdate(q, i, o.(quantity := o.quantity - n));
    assert LevelOk(st'.On(s)[p], p, st'.nextHandle);
    forall s', p' | ValidSide(s') && p' in st'.On(s') ensures LevelOk(st'.On(s')[p'], p', st'.nextHandle) {
      if (s', p') != (s, p) {
        assert LevelOk(st.On(s')[p'], p', st.nextHandle);
      }
    }
  }

  lemma TrimmedIndex(st: Store, s: Side, p: int, i: nat, n: int)
    requires st.IndexOk() && st.At(s, p, i)
    ensures Trimmed(st, s, p, i, n).IndexOk()
  {
    var st' := Trimmed(st, s, p, i, n);
    forall s', p', j
      ensures st'.At(s', p', j) <==> st.At(s', p', j)
      ensures st'.At(s', p', j) ==> st'.Node(s', p', j).order.orderId == st.Node(s', p', j).order.orderId
      ensures st'.At(s', p', j) ==> st'.Node(s', p', j).handle == st.Node(s', p', j).handle
    {
    }
    forall s', p', j | st'.At(s', p', j) ensures st'.Indexes(s', p', j) {
      assert st.Indexes(s', p', j);
    }
  }

  lemma TrimmedOk(st: Store, s: Side, p: int, i: nat, n: int)
    requires st.Ok() && st.At(s, p, i) && 0 < n < st.Node(s, p, i).order.quantity
    ensures Trimmed(st, s, p, i, n).Ok()
    ensures (Trimmed(st, s, p, i, n).View(), true) == Reduce(st.View(), st.Node(s, p, i).order.orderId, n)
  {
    TrimmedView(st, s, p, i, n);
    TrimmedLevels(st, s, p, i, n);
    TrimmedIndex(st, s, p, i, n);
    NodeIsFound(st, s, p, i);
    ShrinkSound(st.View(), st.Node(s, p, i).order.orderId, n);
  }

  lemma NodeIsFound(st: Store, s: Side, p: int, i: nat)
    requires Sound(st.View()) && st.At(s, p, i)
    ensures var o := st.Node(s, p, i).order; Has(st.View(), o.orderId) && Find(st.View(), o.orderId) == o
  {
    assert In(st.View(), s, p, i) && Get(st.View(), s, p, i) == st.Node(s, p, i).order;
    FindIs(st.View(), s, p, i);
  }

  /** Each level holds an order of its own, so there are at least as many indexed orders as levels. */
  lemma LevelsWithinOrders(st: Store, s: Side)
    requires st.Ok() && ValidSide(s)
    ensures |On(st.View(), s)| <= |st.index|
  {
    forall p, i | In(st.View(), s, p, i) ensures Get(st.View(), s, p, i).orderId in st.index {
      assert st.At(s, p, i) && st.Indexes(s, p, i);
    }
    LadderSize(st.View(), s, st.index.Keys);
  }

  /** Following an index entry leads to the order it is kept for. */
  lemma LocatorLeadsTo(st: Store, id: nat)
    requires st.LevelsOk() && st.IndexOk() && id in st.index
    ensures var l := st.index[id];
      && ValidSide(l.side) && l.price in st.On(l.side) && HandlesDistinct(st.On(l.side)[l.price].orders)
      && exists i :: st.At(l.side, l.price, i) && st.Node(l.side, l.price, i).handle == l.node && st.Node(l.side, l.price, i).order.orderId == id
  {
    var s, p, i :| st.At(s, p, i) && st.Node(s, p, i).order.orderId == id;
    assert st.Indexes(s, p, i);
    assert LevelOk(st.On(s)[p], p, st.nextHandle);
  }

  /** Dereferencing an iterator: the position of the node it denotes. */
  function Position(nodes: seq<ListNode>, handle: nat): (i: nat)
    requires HandlesDistinct(nodes)
    requires exists i :: 0 <= i < |nodes| && nodes[i].handle == handle
    ensures i < |nodes| && nodes[i].handle == handle
  {
    var i :| 0 <= i < |nodes| && nodes[i].handle == handle;
    i
  }

  // ----- L2 views and checksums, read from the cached totals

  ghost predicate TotalsCached(levels: Levels) {
    forall p :: p in levels ==> levels[p].total == Total(OrdersOf(levels[p].orders))
  }

  lemma CachedTotals(st: Store)
    requires st.LevelsOk()
    ensures TotalsCached(st.bids) && TotalsCached(st.asks)
  {
    forall p | p in st.bids ensures LevelOk(st.bids[p], p, st.nextHandle) { assert p in st.On(Buy); }
    forall p | p in st.asks ensures LevelOk(st.asks[p], p, st.nextHandle) { assert p in st.On(Sell); }
  }

  /** The first `depth` levels of one side. */
  method FillSide(side: Side, levels: Levels, depth: nat) returns (shown: seq<L2Level>)
    requires TotalsCached(levels)
    ensures shown == LevelsOf(LadderOf(levels), Take(Prices(LadderOf(levels), side), depth))
  {
    shown := [];
    assert LadderOf(levels).Keys == levels.Keys;
    var prices := Prices(LadderOf(levels), side);
    for i := 0 to |prices|
      invariant |shown| == i <= depth
      invariant forall k :: 0 <= k < i ==> shown[k] == L2Level(prices[k], Total(LadderOf(levels)[prices[k]]))
    {
      if |shown| >= depth {
        return;
      }
      shown := shown + [L2Level(prices[i], levels[prices[i]].total)];
    }
  }

  method ChecksumOrders(mix: Mix, seed: int, orders: seq<ListNode>) returns (c: int)
    ensures c == Fold(mix, seed, QueueValues(OrdersOf(orders)))
  {
    ghost var q := OrdersOf(orders);
    c := seed;
    for i := 0 to |orders|
      invariant c == Fold(mix, seed, QueueValues(q[..i]))
    {
      FoldOrder(mix, seed, q, i);
      var order := orders[i].order;
      c := mix(mix(mix(mix(mix(mix(c, order.orderId), order.clientOrderId), order.symbolId), order.quantity), order.timestamp), order.sequence);
    }
    assert q[..|q|] == q;
  }

  method ChecksumLevels(mix: Mix, seed: int, side: Side, levels: Levels) returns (c: int)
    requires TotalsCached(levels)
    ensures c == Fold(mix, seed, SideValues(LadderOf(levels), side))
  {
    ghost var ladder := LadderOf(levels);
    assert ladder.Keys == levels.Keys;
    var prices := Prices(LadderOf(levels), side);
    ghost var head := [SideCode(side), |levels|];
    assert head + LadderValues(ladder, prices[..0]) == head;
    FoldTwo(mix, seed, SideCode(side), |levels|);
    c := mix(mix(seed, SideCode(side)), |levels|);
    for i := 0 to |prices|
      invariant c == Fold(mix, seed, head + LadderValues(ladder, prices[..i]))
    {
      var p, level := prices[i], levels[prices[i]];
      FoldLevel(mix, seed, head, ladder, prices, i);
      c := mix(mix(mix(c, p), level.total), |level.orders|);
      c := ChecksumOrders(mix, c, level.orders);
    }
    assert prices[..|prices|] == prices;
  }

  class OrderBook {
    const symbolId: nat
    var bids: Levels
    var asks: Levels
    var orderIndex: map<nat, Locator>
    var nextHandle: nat

    function LevelsOn(side: Side): Levels
      reads this
    {
      if side == Buy then bids else asks
    }

    function Fields(): Store
      reads this
    {
      Store(symbolId, bids, asks, orderIndex, nextHandle)
    }

    function View(): Book
      reads this
    {
      Fields().View()
    }

    ghost predicate Valid()
      reads this
    {
      Fields().Ok()
    }

    constructor (symbolId: nat)
      ensures Valid() && this.symbolId == symbolId && View() == Empty(symbolId)
    {
      this.symbolId := symbolId;
      bids, asks, orderIndex, nextHandle := map[], map[], map[], 0;
    }

    method Clear()
      modifies this
      ensures Valid() && View() == Empty(symbolId)
    {
      bids, asks, orderIndex := map[], map[], map[];
    }

    /** The level at a price, created empty when it does not exist yet. */
    method MutableLevel(side: Side, price: int) returns (level: PriceLevel)
      requires ValidSide(side)
      modifies this`bids, this`asks
      ensures level == if price in old(LevelsOn(side)) then old(LevelsOn(side))[price] else PriceLevel(0, 0, [])
      ensures LevelsOn(side) == old(LevelsOn(side))[price := level]
      ensures LevelsOn(Opposite(side)) == old(LevelsOn(Opposite(side)))
    {
      if side == Buy {
        if price !in bids { bids := bids[price := PriceLevel(0, 0, [])]; }
        level := bids[price];
      } else {
        if price !in asks { asks := asks[price := PriceLevel(0, 0, [])]; }
        level := asks[price];
      }
    }

    /** Writing through a level pointer. */
    method StoreLevel(side: Side, price: int, level: PriceLevel)
      requires ValidSide(side)
      modifies this`bids, this`asks
      ensures LevelsOn(side) == old(LevelsOn(side))[price := level]
      ensures LevelsOn(Opposite(side)) == old(LevelsOn(Opposite(side)))
    {
      if side == Buy { bids := bids[price := level]; } else { asks := asks[price := level]; }
    }

    method EraseLevelIfEmpty(side: Side, price: int)
      requires ValidSide(side)
      modifies this`bids, this`asks
      ensures LevelsOn(side) == if price in old(LevelsOn(side)) && old(LevelsOn(side))[price].orders == []
                                then old(LevelsOn(side)) - {price} else old(LevelsOn(side))
      ensures LevelsOn(Opposite(side)) == old(LevelsOn(Opposite(side)))
    {
      if side == Buy {
        if price in bids && bids[price].orders == [] { bids := bids - {price}; }
      } else {
        if price in asks && asks[price].orders == [] { asks := asks - {price}; }
      }
    }

    /** The part of adding an order that changes the book. */
    method StoreOrder(order: Order)
      requires ValidSide(order.side)
      modifies this
      ensures Fields() == Stored(old(Fields()), order)
    {
      var level := MutableLevel(order.side, order.price);
      var node := ListNode(nextHandle, order);
      nextHandle := nextHandle + 1;
      StoreLevel(order.side, order.price, PriceLevel(order.price, level.total + order.quantity, level.orders + [node]));
      orderIndex := orderIndex[order.orderId := Locator(order.side, order.price, node.handle)];
      assert LevelsOn(order.side) == Stored(old(Fields()), order).On(order.side);
    }

    method AddOrder(order: Order) returns (ok: bool)
      requires Valid()
      modifies this
      ensures Valid() && (View(), ok) == Add(old(View()), order)
    {
      IndexedIffResting(Fields(), order.orderId);
      if !ValidRestingOrder(order) || order.symbolId != symbolId {
        return false;
      }
      if order.orderId in orderIndex {
        return false;
      }
      StoredOk(Fields(), order);
      StoreOrder(order);
      return true;
    }
  
    /** The part of cancelling that changes the book. */
    method EraseOrder(locator: Locator, id: nat) returns (ghost i: nat)
      requires ValidSide(locator.side) && locator.price in LevelsOn(locator.side)
      requires HandlesDistinct(LevelsOn(locator.side)[locator.price].orders)
      requires exists i :: Fields().At(locator.side, locator.price, i) && Fields().Node(locator.side, locator.price, i).handle == locator.node
                           && Fields().Node(locator.side, locator.price, i).order.orderId == id
      modifies this
      ensures old(Fields()).At(locator.side, locator.price, i)
      ensures old(Fields()).Node(locator.side, locator.price, i).order.orderId == id
      ensures Fields() == Erased(old(Fields()), locator.side, locator.price, i)
    {
      var level := MutableLevel(locator.side, locator.price);
      var at := Position(level.orders, locator.node);
      i := at;
      level := level.(total := level.total - level.orders[at].order.quantity, orders := level.orders[..at] + level.orders[at + 1..]);
      StoreLevel(locator.side, locator.price, level);
      orderIndex := orderIndex - {id};
      EraseLevelIfEmpty(locator.side, locator.price);
      assert LevelsOn(locator.side) == Erased(old(Fields()), locator.side, locator.price, i).On(locator.side);
    }

    method CancelOrder(id: nat) returns (ok: bool)
      requires Valid()
      modifies this
      ensures Valid() && (View(), ok) == Cancel(old(View()), id)
    {
      IndexedIffResting(Fields(), id);
      if id !in orderIndex {
        return false;
      }
      LocatorLeadsTo(Fields(), id);
      ghost var before := Fields();
      ghost var i := EraseOrder(orderIndex[id], id);
      ErasedOk(before, before.index[id].side, before.index[id].price, i);
      return true;
    }
  
    /** Writing a smaller quantity through an order's iterator. */
    method TrimOrder(locator: Locator, quantity: int, ghost i: nat)
      requires Fields().At(locator.side, locator.price, i)
      requires Fields().Node(locator.side, locator.price, i).handle == locator.node
      requires HandlesDistinct(LevelsOn(locator.side)[locator.price].orders)
      modifies this
      ensures Fields() == Trimmed(old(Fields()), locator.side, locator.price, i, quantity)
    {
      var level := MutableLevel(locator.side, locator.price);
      var at := Position(level.orders, locator.node);
      var node := level.orders[at];
      level := level.(orders := level.orders[at := node.(order := node.order.(quantity := node.order.quantity - quantity))],
                      total := level.total - quantity);
      StoreLevel(locator.side, locator.price, level);
      assert LevelsOn(locator.side) == Trimmed(old(Fields()), locator.side, locator.price, i, quantity).On(locator.side);
    }

    /** Following a resting order's index entry to its list node. */
    method Locate(id: nat) returns (locator: Locator, at: nat)
      requires Valid() && id in orderIndex
      ensures locator == orderIndex[id] && Fields().At(locator.side, locator.price, at)
      ensures Fields().Node(locator.side, locator.price, at).handle == locator.node
      ensures Fields().Node(locator.side, locator.price, at).order.orderId == id
      ensures HandlesDistinct(LevelsOn(locator.side)[locator.price].orders)
    {
      LocatorLeadsTo(Fields(), id);
      locator := orderIndex[id];
      at := Position(LevelsOn(locator.side)[locator.price].orders, locator.node);
    }

    method FindOrder(id: nat) returns (order: Option<Order>)
      requires Valid()
      ensures order == if Has(View(), id) then Some(Find(View(), id)) else None
    {
      IndexedIffResting(Fields(), id);
      if id !in orderIndex {
        return None;
      }
      var locator, at := Locate(id);
      NodeIsFound(Fields(), locator.side, locator.price, at);
      return Some(LevelsOn(locator.side)[locator.price].orders[at].order);
    }

    method ReduceOrder(id: nat, quantity: int) returns (ok: bool)
      requires Valid()
      modifies this
      ensures Valid() && (View(), ok) == Reduce(old(View()), id, quantity)
    {
      if quantity <= 0 {
        return false;
      }
      IndexedIffResting(Fields(), id);
      if id !in orderIndex {
        return false;
      }
      var locator, at := Locate(id);
      NodeIsFound(Fields(), locator.side, locator.price, at);
      if quantity >= LevelsOn(locator.side)[locator.price].orders[at].order.quantity {
        ok := CancelOrder(id);
        return ok;
      }
      TrimmedOk(Fields(), locator.side, locator.price, at, quantity);
      TrimOrder(locator, quantity, at);
      return true;
    }

    method ReplaceOrder(id: nat, price: int, quantity: int, timestamp: int, sequence: nat) returns (ok: bool)
      requires Valid()
      modifies this
      ensures Valid() && (View(), ok) == Replace(old(View()), id, price, quantity, timestamp, sequence)
    {
      if price <= 0 || quantity <= 0 {
        return false;
      }
      var existing := FindOrder(id);
      if existing == None {
        return false;
      }
      var replacement := existing.value.(price := price, quantity := quantity, timestamp := timestamp, sequence := sequence);
      FoundFits(View(), id);
      DropSound(View(), id);
      ok := CancelOrder(id);
      if !ok {
        return false;
      }
      ok := AddOrder(replacement);
    }

    method OrderCount() returns (n: nat)
      requires Valid()
      ensures n == |orderIndex|
      ensures forall side :: ValidSide(side) ==> |On(View(), side)| <= n
    {
      LevelsWithinOrders(Fields(), Buy);
      LevelsWithinOrders(Fields(), Sell);
      return |orderIndex|;
    }
  
    method BestBid() returns (price: Option<int>)
      ensures price == BestPrice(View(), Buy)
    {
      assert View().bids.Keys == bids.Keys;
      return if |bids| == 0 then None else Some(Best(Buy, bids.Keys));
    }

    method BestAsk() returns (price: Option<int>)
      ensures price == BestPrice(View(), Sell)
    {
      assert View().asks.Keys == asks.Keys;
      return if |asks| == 0 then None else Some(Best(Sell, asks.Keys));
    }

    /** The front order of the best level of a side. */
    method BestOrder(side: Side) returns (order: Option<Order>)
      requires Valid()
      ensures order == Books.BestOrder(View(), side)
    {
      if !ValidSide(side) {
        return None;
      }
      assert On(View(), side).Keys == LevelsOn(side).Keys;
      if |LevelsOn(side)| == 0 {
        return None;
      }
      var p := Best(side, LevelsOn(side).Keys);
      assert On(View(), side)[p] == OrdersOf(LevelsOn(side)[p].orders) != [];
      return Some(LevelsOn(side)[p].orders[0].order);
    }

    method TotalQuantityAt(side: Side, price: int) returns (quantity: int)
      requires Valid()
      ensures quantity == if ValidSide(side) then Total(QueueAt(On(View(), side), price)) else 0
    {
      if !ValidSide(side) || price !in LevelsOn(side) {
        return 0;
      }
      assert LevelOk(Fields().On(side)[price], price, nextHandle);
      return LevelsOn(side)[price].total;
    }

    method L2(depth: nat) returns (view: L2View)
      requires Valid()
      ensures view == Books.L2(View(), depth)
    {
      view := L2View(symbolId, [], []);
      if depth == 0 {
        return;
      }
      CachedTotals(Fields());
      assert View() == Book(symbolId, LadderOf(bids), LadderOf(asks));
      var levels := FillSide(Buy, bids, depth);
      view := view.(bids := levels);
      levels := FillSide(Sell, asks, depth);
      view := view.(asks := levels);
    }

    method Checksum(mix: Mix) returns (c: int)
      requires Valid()
      ensures c == BookChecksum(mix, View())
    {
      ghost var v := View();
      assert v == Book(symbolId, LadderOf(bids), LadderOf(asks));
      CachedTotals(Fields());
      FoldConcat(mix, FNV_OFFSET_BASIS, [v.symbol], SideValues(v.bids, Buy));
      FoldConcat(mix, FNV_OFFSET_BASIS, [v.symbol] + SideValues(v.bids, Buy), SideValues(v.asks, Sell));
      c := mix(FNV_OFFSET_BASIS, symbolId);
      c := ChecksumLevels(mix, c, Buy, bids);
      c := ChecksumLevels(mix, c, Sell, asks);
    }
  }
}
