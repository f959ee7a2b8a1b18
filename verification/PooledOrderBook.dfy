/** The pooled book: sorted level vectors, order queues and a free list threaded through one node
    vector, and a flat id index. Every operation is proved to do to the abstract book exactly
    what the default book does, and to allocate nothing once enough capacity is reserved. */
module PooledOrderBooks {
  import opened Types
  import opened Ranking
  import opened Checksum
  import opened Books
  import opened Pools
  import opened PoolSteps
  import opened FlatOrderIndexes

  // ----- locating levels

  /** The first level not better than a bid price, or where that price has to go. */
  method FindBidLevel(levels: seq<LevelNode>, price: int) returns (k: nat)
    requires Sorted(levels, Buy)
    ensures Located(levels, Buy, price, k)
  {
    k := 0;
    while k < |levels| && !(levels[k].price <= price)
      invariant k <= |levels| && forall j :: 0 <= j < k ==> levels[j].price > price
    {
      k := k + 1;
    }
  }

  method FindAskLevel(levels: seq<LevelNode>, price: int) returns (k: nat)
    requires Sorted(levels, Sell)
    ensures Located(levels, Sell, price, k)
  {
    k := 0;
    while k < |levels| && !(levels[k].price >= price)
      invariant k <= |levels| && forall j :: 0 <= j < k ==> levels[j].price < price
    {
      k := k + 1;
    }
  }

  method FindLevel(levels: seq<LevelNode>, price: int) returns (k: Option<nat>)
    ensures k == None ==> forall j :: 0 <= j < |levels| ==> levels[j].price != price
    ensures k != None ==> k.value < |levels| && levels[k.value].price == price
  {
    for i := 0 to |levels|
      invariant forall j :: 0 <= j < i ==> levels[j].price != price
    {
      if levels[i].price == price {
        return Some(i);
      }
    }
    return None;
  }

  // ----- linking and unlinking one node

  method AppendOrder(level: LevelNode, nodes: seq<OrderNode>, n: nat)
    returns (level': LevelNode, nodes': seq<OrderNode>)
    requires n < |nodes| && NO_INDEX <= level.tail < |nodes| && level.tail != n
    ensures nodes' == Appended(nodes, level.tail, n)
    ensures level' == Joined(level, nodes[n].order.(price := level.price), n)
  {
    level', nodes' := level, nodes;
    nodes' := nodes'[n := nodes'[n].(previous := level.tail, next := NO_INDEX)];
    if level.tail != NO_INDEX {
      nodes' := nodes'[level.tail := nodes'[level.tail].(next := n)];
    } else {
      level' := level'.(head := n);
    }
    level' := level'.(tail := n, total := level'.total + nodes'[n].order.quantity, orderCount := level'.orderCount + 1);
  }

  method UnlinkOrder(level: LevelNode, nodes: seq<OrderNode>, n: nat)
    returns (level': LevelNode, nodes': seq<OrderNode>)
    requires n < |nodes| && NO_INDEX <= nodes[n].previous < |nodes| && NO_INDEX <= nodes[n].next < |nodes|
    requires nodes[n].previous != n && nodes[n].next != n
    ensures nodes' == Unlinked(nodes, n)
    ensures level'.(total := level'.total - nodes[n].order.quantity) == Left(level, nodes[n])
  {
    level', nodes' := level, nodes;
    if nodes'[n].previous != NO_INDEX {
      nodes' := nodes'[nodes'[n].previous := nodes'[nodes'[n].previous].(next := nodes'[n].next)];
    } else {
      level' := level'.(head := nodes'[n].next);
    }
    if nodes'[n].next != NO_INDEX {
      nodes' := nodes'[nodes'[n].next := nodes'[nodes'[n].next].(previous := nodes'[n].previous)];
    } else {
      level' := level'.(tail := nodes'[n].previous);
    }
    level' := level'.(orderCount := level'.orderCount - 1);
  }

  ghost function EmptyPool(symbol: nat): Pool {
    Pool(symbol, [], [], [], NO_INDEX, map[], map[], map[], [])
  }

  lemma EmptyPoolOk(symbol: nat)
    ensures EmptyPool(symbol).Ok() && EmptyPool(symbol).View() == Empty(symbol)
  {
    assert EmptyPool(symbol).View() == Empty(symbol);
  }

  /** What storing an order relies on. */
  ghost predicate ReadyFor(p: Pool, o: Order) {
    && ValidSide(o.side) && Sorted(p.Levels(o.side), o.side)
    && FreeLinked(p.nodes, p.free, p.freeHead) && p.freeHead < |p.nodes|
    && forall k :: Located(p.Levels(o.side), o.side, o.price, k) ==> ReadyAt(p, o, k)
  }

  ghost predicate ReadyAt(p: Pool, o: Order, k: nat)
    requires p.freeHead < |p.nodes| && k <= |p.Levels(o.side)|
  {
    var (p', n) := Acquired(p, o);
    var level := LevelFor(p.Levels(o.side), o.price, k);
    NO_INDEX <= level.tail < |p'.nodes| && level.tail != n && n < |p'.nodes| && p'.nodes[n].order == o
  }

  lemma ReadyHere(p: Pool, o: Order, k: nat)
    requires p.StorageOk() && ValidSide(o.side) && Located(p.Levels(o.side), o.side, o.price, k)
    ensures p.freeHead < |p.nodes| && ReadyAt(p, o, k)
  {
    AcquiredOk(p, o);
    LevelForOk(p, o.side, o.price, k);
    var q := p.QueueAt(o.side, o.price);
    if q != [] {
      assert LinkOk(p.nodes, q, |q| - 1);
    }
  }

  lemma Ready(p: Pool, o: Order)
    requires p.StorageOk() && ValidSide(o.side)
    ensures ReadyFor(p, o)
  {
    LevelsMeet(p, o.side);
    FreeHeadInPool(p);
    forall k | Located(p.Levels(o.side), o.side, o.price, k) ensures ReadyAt(p, o, k) {
      ReadyHere(p, o, k);
    }
  }

  /** What an add finds before it starts. */
  lemma BeforeAdd(p: Pool, o: Order)
    requires p.Ok() && ValidSide(o.side)
    ensures ReadyFor(p, o)
    ensures |p.Levels(o.side)| <= |p.index| && |p.nodes| == |p.index| + |p.free|
  {
    Ready(p, o);
    LevelsWithinOrders(p, o.side);
  }

  /** What an add leaves. */
  lemma AfterAdd(p: Pool, o: Order, k: nat)
    requires p.Ok() && ValidRestingOrder(o) && o.symbolId == p.symbol && o.orderId !in p.index
    requires Located(p.Levels(o.side), o.side, o.price, k) && p.freeHead < |p.nodes|
    ensures AddedAt(p, o, k).Ok() && AddedAt(p, o, k).View() == Push(p.View(), o)
    ensures |AddedAt(p, o, k).index| == |p.index| + 1
  {
    AddedOk(p, o, k);
    InsertSize(p.index, o.orderId, Acquired(p, o).1);
  }

  /** The pool when the level exists and the node is acquired, but they are not linked yet. */
  ghost function Halfway(p: Pool, o: Order, k: nat): Pool
    requires p.freeHead < |p.nodes| && k <= |p.Levels(o.side)|
  {
    Acquired(p, o).0.WithSide(o.side, Put(p.Levels(o.side), o.price, k, LevelFor(p.Levels(o.side), o.price, k)), p.Queues(o.side))
  }

  ghost function Linking(p: Pool, side: Side, k: nat, n: nat): Pool
    requires k < |p.Levels(side)| && n < |p.nodes| && p.Levels(side)[k].tail < |p.nodes|
  {
    var level := p.Levels(side)[k];
    p.(nodes := Appended(p.nodes, level.tail, n))
      .WithSide(side, p.Levels(side)[k := Joined(level, p.nodes[n].order, n)],
                p.Queues(side)[level.price := p.QueueAt(side, level.price) + [n]])
  }

  lemma HalfwayLinked(p: Pool, o: Order, k: nat)
    requires ReadyFor(p, o) && Located(p.Levels(o.side), o.side, o.price, k)
    ensures var (h, n) := (Halfway(p, o, k), Acquired(p, o).1);
      && k < |h.Levels(o.side)| && n < |h.nodes| && h.Levels(o.side)[k] == LevelFor(p.Levels(o.side), o.price, k)
      && NO_INDEX <= h.Levels(o.side)[k].tail < |h.nodes| && h.Levels(o.side)[k].tail != n
      && h.Levels(o.side)[k].price == o.price && h.nodes[n].order == o
      && Linking(h, o.side, k, n) == AddedAt(p, o, k).(index := p.index)
  {
    assert ReadyAt(p, o, k);
    PutTwice(p.Levels(o.side), o.price, k, Joined(LevelFor(p.Levels(o.side), o.price, k), o, Acquired(p, o).1));
  }

  lemma PutTwice(levels: seq<LevelNode>, price: int, k: nat, level: LevelNode)
    requires k <= |levels|
    ensures k < |Put(levels, price, k, LevelFor(levels, price, k))|
    ensures Put(levels, price, k, LevelFor(levels, price, k))[k := level] == Put(levels, price, k, level)
  {
  }

  // ----- reading levels and queues

  /** The level vector shows the ladder: its prices in ranking order, each with its queue and totals. */
  ghost predicate Shows(levels: seq<LevelNode>, nodes: seq<OrderNode>, queues: Queues, ladder: Ladder, side: Side) {
    && LevelPrices(levels) == Prices(ladder, side)
    && forall k :: 0 <= k < |levels| ==> ShowsLevel(levels[k], nodes, queues, ladder)
  }

  ghost predicate ShowsLevel(level: LevelNode, nodes: seq<OrderNode>, queues: Queues, ladder: Ladder) {
    && level.price in queues && level.price in ladder
    && Linked(nodes, queues[level.price], level.head, level.tail)
    && OrdersAt(nodes, queues[level.price]) == ladder[level.price]
    && level.total == Total(ladder[level.price]) && level.orderCount == |ladder[level.price]|
  }

  lemma LevelsShow(p: Pool, side: Side)
    requires p.StorageOk() && ValidSide(side)
    ensures Shows(p.Levels(side), p.nodes, p.Queues(side), On(p.View(), side), side)
  {
    LevelsRanked(p, side);
    forall k | 0 <= k < |p.Levels(side)|
      ensures ShowsLevel(p.Levels(side)[k], p.nodes, p.Queues(side), On(p.View(), side))
    {
      LevelAtIndex(p, side, k);
    }
  }

  method FillSide(levels: seq<LevelNode>, depth: nat, ghost nodes: seq<OrderNode>, ghost queues: Queues,
                  ghost ladder: Ladder, ghost side: Side)
    returns (shown: seq<L2Level>)
    requires Shows(levels, nodes, queues, ladder, side)
    ensures shown == LevelsOf(ladder, Take(Prices(ladder, side), depth))
  {
    shown := [];
    ghost var prices := Prices(ladder, side);
    for i := 0 to |levels|
      invariant |shown| == i <= depth
      invariant forall k :: 0 <= k < i ==> shown[k] == L2Level(prices[k], Total(ladder[prices[k]]))
    {
      if |shown| >= depth {
        return;
      }
      assert ShowsLevel(levels[i], nodes, queues, ladder) && LevelPrices(levels)[i] == prices[i];
      shown := shown + [L2Level(levels[i].price, levels[i].total)];
    }
  }

  /** Walks a queue along its next links. */
  method ChecksumQueue(mix: Mix, seed: int, nodes: seq<OrderNode>, head: int, ghost tail: int, ghost q: seq<nat>)
    returns (c: int)
    requires Linked(nodes, q, head, tail)
    ensures c == Fold(mix, seed, QueueValues(OrdersAt(nodes, q)))
  {
    ghost var orders, i := OrdersAt(nodes, q), 0;
    c := seed;
    var n := head;
    while n != NO_INDEX
      invariant 0 <= i <= |q| && n == Neighbour(q, i)
      invariant c == Fold(mix, seed, QueueValues(orders[..i]))
      decreases |q| - i
    {
      assert LinkOk(nodes, q, i);
      FoldOrder(mix, seed, orders, i);
      var order := nodes[n].order;
      c := mix(mix(mix(mix(mix(mix(c, order.orderId), order.clientOrderId), order.symbolId), order.quantity), order.timestamp), order.sequence);
      n := nodes[n].next;
      i := i + 1;
    }
    assert orders[..i] == orders;
  }

  method ChecksumLevels(mix: Mix, seed: int, side: Side, levels: seq<LevelNode>, nodes: seq<OrderNode>,
                        ghost queues: Queues, ghost ladder: Ladder) returns (c: int)
    requires Shows(levels, nodes, queues, ladder, side)
    ensures c == Fold(mix, seed, SideValues(ladder, side))
  {
    ghost var prices, head := Prices(ladder, side), [SideCode(side), |levels|];
    assert head + LadderValues(ladder, prices[..0]) == head;
    FoldTwo(mix, seed, SideCode(side), |levels|);
    c := mix(mix(seed, SideCode(side)), |levels|);
    for i := 0 to |levels|
      invariant c == Fold(mix, seed, head + LadderValues(ladder, prices[..i]))
    {
      var level := levels[i];
      assert ShowsLevel(level, nodes, queues, ladder) && LevelPrices(levels)[i] == prices[i];
      FoldLevel(mix, seed, head, ladder, prices, i);
      c := mix(mix(mix(c, level.price), level.total), level.orderCount);
      c := ChecksumQueue(mix, c, nodes, level.head, level.tail, queues[level.price]);
    }
    assert prices[..|levels|] == prices;
  }

  /** Container capacities and the number of reallocations so far. */
  datatype Usage = Usage(bids: nat, asks: nat, nodes: nat, entries: nat, allocations: nat) {
    /** Every container has room for `n` orders. */
    predicate Holds(n: nat) {
      bids >= n && asks >= n && nodes >= n && entries > 0 && entries >= 2 * n
    }

    /** Containers only grow, and stay as they are when there was room. */
    predicate GrownFrom(before: Usage, room: bool) {
      && bids >= before.bids && asks >= before.asks && nodes >= before.nodes && entries >= before.entries
      && (room ==> allocations == before.allocations)
    }
  }

  class PooledOrderBook {
    const symbolId: nat
    const index: FlatOrderIndex
    var bids: seq<LevelNode>
    var asks: seq<LevelNode>
    var nodes: seq<OrderNode>
    var freeHead: int

    // What the links encode.
    ghost var bidQueues: Queues
    ghost var askQueues: Queues
    ghost var free: seq<nat>

    // Storage bookkeeping: vector capacities, how often a vector has grown, and the largest
    // number of orders resting at once since the last clear.
    ghost var bidCapacity: nat
    ghost var askCapacity: nat
    ghost var nodeCapacity: nat
    ghost var growths: nat
    ghost var peak: nat

    ghost function Fields(): Pool
      reads this, index
    {
      Pool(symbolId, bids, asks, nodes, freeHead, index.contents, bidQueues, askQueues, free)
    }

    ghost function View(): Book
      reads this, index
    {
      Fields().View()
    }

    /** Resting orders. */
    ghost function Live(): nat
      reads index
    {
      |index.contents|
    }

    ghost function Used(): Usage
      reads this, index
    {
      Usage(bidCapacity, askCapacity, nodeCapacity, |index.entries|, growths + index.rehashes)
    }

    ghost predicate StorageSane()
      reads this, index
    {
      && |nodes| == peak
      && |bids| <= bidCapacity && |asks| <= askCapacity && |nodes| <= nodeCapacity
    }

    ghost predicate Valid()
      reads this, index
    {
      index.Valid() && Fields().Ok() && StorageSane()
    }

    function LevelsOn(side: Side): seq<LevelNode>
      reads this
    {
      if side == Buy then bids else asks
    }

    constructor (symbolId: nat, hash: Hash)
      ensures Valid() && fresh(index) && this.symbolId == symbolId && View() == Empty(symbolId) && Live() == 0
      ensures peak == 0
    {
      this.symbolId := symbolId;
      index := new FlatOrderIndex(hash);
      bids, asks, nodes, freeHead := [], [], [], NO_INDEX;
      bidQueues, askQueues, free := map[], map[], [];
      bidCapacity, askCapacity, nodeCapacity, growths, peak := 0, 0, 0, 0, 0;
      new;
      EmptyPoolOk(symbolId);
    }

    method Clear()
      requires index.Valid()
      modifies this, index
      ensures View() == Empty(symbolId) && Live() == 0 && |nodes| == 0
      ensures Used() == old(Used())
      ensures Valid() && peak == 0
    {
      index.Clear();
      EmptyPoolOk(symbolId);
      ClearVectors();
    }

    method ClearVectors()
      requires index.contents == map[]
      modifies this`bids, this`asks, this`nodes, this`freeHead, this`bidQueues, this`askQueues, this`free, this`peak
      ensures Fields() == EmptyPool(symbolId) && peak == 0
    {
      bids, asks, nodes, freeHead := [], [], [], NO_INDEX;
      bidQueues, askQueues, free, peak := map[], map[], [], 0;
    }
  
    // ----- storage steps

    /** One side's vector grows by a level: reallocates exactly when it is full. */
    method InsertLevel(side: Side, k: nat, level: LevelNode)
      requires ValidSide(side) && k <= |LevelsOn(side)|
      modifies this`bids, this`asks, this`bidCapacity, this`askCapacity, this`growths
      ensures LevelsOn(side) == Inserted(old(LevelsOn(side)), k, level)
      ensures LevelsOn(Opposite(side)) == old(LevelsOn(Opposite(side)))
      ensures bidCapacity >= old(bidCapacity) && askCapacity >= old(askCapacity)
      ensures old(|bids| <= bidCapacity && |asks| <= askCapacity) ==> |bids| <= bidCapacity && |asks| <= askCapacity
      ensures growths == old(growths) + if old(|LevelsOn(side)| < (if side == Buy then bidCapacity else askCapacity)) then 0 else 1
    {
      if side == Buy {
        if |bids| >= bidCapacity { growths, bidCapacity := growths + 1, Max(bidCapacity, |bids| + 1); }
        bids := bids[..k] + [level] + bids[k..];
      } else {
        if |asks| >= askCapacity { growths, askCapacity := growths + 1, Max(askCapacity, |asks| + 1); }
        asks := asks[..k] + [level] + asks[k..];
      }
    }

    /** The position of a price's level, inserted empty when it does not exist yet. */
    method MutableLevel(side: Side, price: int) returns (k: nat)
      requires ValidSide(side) && Sorted(LevelsOn(side), side)
      modifies this`bids, this`asks, this`bidCapacity, this`askCapacity, this`growths
      ensures Located(old(LevelsOn(side)), side, price, k)
      ensures LevelsOn(side) == Put(old(LevelsOn(side)), price, k, LevelFor(old(LevelsOn(side)), price, k))
      ensures LevelsOn(Opposite(side)) == old(LevelsOn(Opposite(side)))
      ensures k < |LevelsOn(side)| && LevelsOn(side)[k] == LevelFor(old(LevelsOn(side)), price, k)
      ensures bidCapacity >= old(bidCapacity) && askCapacity >= old(askCapacity)
      ensures old(|bids| <= bidCapacity && |asks| <= askCapacity) ==> |bids| <= bidCapacity && |asks| <= askCapacity
      ensures growths == old(growths)
           || (growths == old(growths) + 1 && old(|LevelsOn(side)| >= (if side == Buy then bidCapacity else askCapacity)))
      ensures k < |old(LevelsOn(side))| && old(LevelsOn(side))[k].price == price ==>
                unchanged(this`bids, this`asks, this`bidCapacity, this`askCapacity, this`growths)
    {
      if side == Buy {
        k := FindBidLevel(bids, price);
      } else {
        k := FindAskLevel(asks, price);
      }
      if k < |LevelsOn(side)| && LevelsOn(side)[k].price == price {
        return;
      }
      InsertLevel(side, k, NewLevel(price));
    }

    method StoreLevel(side: Side, k: nat, level: LevelNode)
      requires ValidSide(side) && k < |LevelsOn(side)|
      modifies this`bids, this`asks
      ensures LevelsOn(side) == old(LevelsOn(side))[k := level]
      ensures LevelsOn(Opposite(side)) == old(LevelsOn(Opposite(side)))
    {
      if side == Buy { bids := bids[k := level]; } else { asks := asks[k := level]; }
    }

    /** Takes a node from the free list, or grows the pool by one. */
    method AcquireNode(order: Order) returns (n: nat)
      requires FreeLinked(nodes, free, freeHead)
      modifies this`nodes, this`freeHead, this`free, this`nodeCapacity, this`growths
      ensures old(freeHead) < |old(nodes)|
      ensures (old(Fields()).(nodes := nodes, freeHead := freeHead, free := free), n) == Acquired(old(Fields()), order)
      ensures |nodes| == |old(nodes)| + if old(free) == [] then 1 else 0
      ensures nodeCapacity >= old(nodeCapacity) && (old(|nodes| <= nodeCapacity) ==> |nodes| <= nodeCapacity)
      ensures growths == old(growths) || (growths == old(growths) + 1 && old(free) == [] && |old(nodes)| >= old(nodeCapacity))
    {
      FreeHeadInPool(Fields());
      if freeHead != NO_INDEX {
        n := freeHead;
        freeHead := nodes[n].next;
        free := free[1..];
        nodes := nodes[n := OrderNode(order, NO_INDEX, NO_INDEX, true)];
        return;
      }
      if |nodes| >= nodeCapacity { growths, nodeCapacity := growths + 1, Max(nodeCapacity, |nodes| + 1); }
      nodes := nodes + [OrderNode(order, NO_INDEX, NO_INDEX, true)];
      n := |nodes| - 1;
    }

    method ReleaseNode(n: nat)
      requires n < |nodes|
      modifies this`nodes, this`freeHead, this`free
      ensures nodes == Released(old(nodes), old(freeHead), n) && freeHead == n && free == [n] + old(free)
    {
      nodes := nodes[n := nodes[n].(active := false, previous := NO_INDEX, next := freeHead)];
      freeHead := n;
      free := [n] + free;
    }

    method EraseLevelIfEmpty(side: Side, price: int, ghost k: nat)
      requires ValidSide(side) && Sorted(LevelsOn(side), side) && k < |LevelsOn(side)|
      requires LevelsOn(side)[k].price == price
      modifies this`bids, this`asks
      ensures LevelsOn(side) == if old(LevelsOn(side))[k].orderCount == 0 then Removed(old(LevelsOn(side)), k) else old(LevelsOn(side))
      ensures LevelsOn(Opposite(side)) == old(LevelsOn(Opposite(side)))
    {
      var found := FindLevel(LevelsOn(side), price);
      if found != None {
        var i := found.value;
        assert i == k;
        if LevelsOn(side)[i].orderCount == 0 {
          if side == Buy { bids := bids[..i] + bids[i + 1..]; } else { asks := asks[..i] + asks[i + 1..]; }
        }
      }
    }
  
    // ----- adding

    /** Links an acquired node to the back of a level's queue. */
    method LinkOrder(side: Side, k: nat, n: nat)
      requires ValidSide(side) && k < |LevelsOn(side)| && n < |nodes|
      requires NO_INDEX <= LevelsOn(side)[k].tail < |nodes| && LevelsOn(side)[k].tail != n
      requires nodes[n].order.price == LevelsOn(side)[k].price
      modifies this`bids, this`asks, this`nodes, this`bidQueues, this`askQueues
      ensures Fields() == Linking(old(Fields()), side, k, n) && |nodes| == |old(nodes)|
      ensures |LevelsOn(side)| == |old(LevelsOn(side))|
      ensures LevelsOn(Opposite(side)) == old(LevelsOn(Opposite(side)))
    {
      var level, nodes' := AppendOrder(LevelsOn(side)[k], nodes, n);
      ghost var q := Fields().Queues(side)[level.price := Fields().QueueAt(side, level.price) + [n]];
      nodes := nodes';
      StoreLevel(side, k, level);
      if side == Buy { bidQueues := q; } else { askQueues := q; }
    }

    /** Finds or inserts the level and acquires the node, growing vectors only when they are full. */
    method Prepare(order: Order) returns (k: nat, n: nat)
      requires ReadyFor(Fields(), order)
      modifies this`bids, this`asks, this`nodes, this`freeHead, this`free, this`bidCapacity, this`askCapacity, this`nodeCapacity, this`growths
      ensures Located(old(LevelsOn(order.side)), order.side, order.price, k)
      ensures n == Acquired(old(Fields()), order).1 && Fields() == Halfway(old(Fields()), order, k)
      ensures |nodes| == |old(nodes)| + if old(free) == [] then 1 else 0
      ensures bidCapacity >= old(bidCapacity) && askCapacity >= old(askCapacity) && nodeCapacity >= old(nodeCapacity)
      ensures old(|bids| <= bidCapacity && |asks| <= askCapacity && |nodes| <= nodeCapacity) ==>
                |bids| <= bidCapacity && |asks| <= askCapacity && |nodes| <= nodeCapacity
      ensures old(HasRoom(order.side)) ==> growths == old(growths)
    {
      k := MutableLevel(order.side, order.price);
      n := AcquireNode(order);
    }

    /** Everything an add does except the index: a level, a node, and the links between them. */
    method StoreOrder(order: Order) returns (ghost k: nat, n: nat)
      requires ReadyFor(Fields(), order)
      modifies this
      ensures Located(old(LevelsOn(order.side)), order.side, order.price, k)
      ensures n == Acquired(old(Fields()), order).1
      ensures Fields() == AddedAt(old(Fields()), order, k).(index := index.contents)
      ensures |nodes| == |old(nodes)| + if old(free) == [] then 1 else 0
      ensures peak == old(peak)
      ensures bidCapacity >= old(bidCapacity) && askCapacity >= old(askCapacity) && nodeCapacity >= old(nodeCapacity)
      ensures old(|bids| <= bidCapacity && |asks| <= askCapacity && |nodes| <= nodeCapacity) ==>
                |bids| <= bidCapacity && |asks| <= askCapacity && |nodes| <= nodeCapacity
      ensures old(HasRoom(order.side)) ==> growths == old(growths)
    {
      ghost var before := Fields();
      var at;
      at, n := Prepare(order);
      k := at;
      HalfwayLinked(before, order, k);
      LinkOrder(order.side, at, n);
    }

    /** Neither the level vector nor the pool has to grow for one more order. */
    ghost predicate HasRoom(side: Side)
      reads this
    {
      |LevelsOn(side)| < (if side == Buy then bidCapacity else askCapacity) && (free != [] || |nodes| < nodeCapacity)
    }
  
    /** Stores an order whose id is not indexed yet, and indexes it. */
    method StoreNew(order: Order) returns (ghost k: nat)
      requires index.Valid() && ReadyFor(Fields(), order) && order.orderId != INVALID_ID
      requires order.orderId !in index.contents
      requires StorageSane() && |nodes| == Live() + |free|
      modifies this, index
      ensures index.Valid() && Located(old(LevelsOn(order.side)), order.side, order.price, k)
      ensures Fields() == AddedAt(old(Fields()), order, k) && peak == Max(old(peak), old(Live()) + 1)
      ensures StorageSane()
      ensures Used().GrownFrom(old(Used()), old(HasRoom(order.side) && |index.entries| > 0 && |index.entries| >= 2 * (Live() + 1)))
    {
      var n;
      k, n := StoreOrder(order);
      peak := Max(peak, Live() + 1);
      // A fresh id always goes into the index, so the C++ code's undo of a refused insertion never runs.
      var ok := index.Insert(order.orderId, n);
    }

    method Contains(id: nat) returns (found: bool)
      requires Valid()
      ensures found == (id in index.contents) == Has(View(), id)
    {
      IndexedIffResting(Fields(), id);
      var node := index.Find(id);
      return node != None;
    }

    /** With room for one more order in every container, storing one grows nothing. */
    lemma RoomWhenHeld(side: Side)
      requires |LevelsOn(side)| <= Live() && |nodes| == Live() + |free| && Used().Holds(Live() + 1)
      ensures HasRoom(side) && |index.entries| > 0 && |index.entries| >= 2 * (Live() + 1)
    {
    }

    /** Adds an order known to be valid and new. */
    method AddNew(order: Order)
      requires Valid() && ValidRestingOrder(order) && order.symbolId == symbolId && order.orderId !in index.contents
      modifies this, index
      ensures Valid() && View() == Push(old(View()), order)
      ensures Live() == old(Live()) + 1 && peak == Max(old(peak), Live())
      ensures Used().GrownFrom(old(Used()), old(Used().Holds(Live() + 1)))
    {
      ghost var before := Fields();
      BeforeAdd(before, order);
      if Used().Holds(Live() + 1) { RoomWhenHeld(order.side); }
      ghost var k := StoreNew(order);
      AfterAdd(before, order, k);
    }

    method AddOrder(order: Order) returns (ok: bool)
      requires Valid()
      modifies this, index
      ensures Valid() && (View(), ok) == Add(old(View()), order)
      ensures Live() == old(Live()) + (if ok then 1 else 0) && peak == Max(old(peak), Live())
      ensures Used().GrownFrom(old(Used()), !ok || old(Used().Holds(Live() + 1)))
    {
      if !ValidRestingOrder(order) || order.symbolId != symbolId {
        return false;
      }
      var found := Contains(order.orderId);
      if found {
        return false;
      }
      AddNew(order);
      return true;
    }
  
    // ----- cancelling and reducing

    /** Closes the links over a node, frees it, and drops its level when that was its last order. */
    method TakeOut(side: Side, k: nat, n: nat, ghost i: nat)
      requires Removable(Fields(), side, k, i, n)
      modifies this`bids, this`asks, this`nodes, this`freeHead, this`free, this`bidQueues, this`askQueues
      ensures Fields() == Dropped(old(Fields()), side, k, i, n).(index := index.contents)
      ensures |nodes| == |old(nodes)| && |bids| <= |old(bids)| && |asks| <= |old(asks)|
    {
      var price := LevelsOn(side)[k].price;
      Unlink(side, k, n);
      ReleaseNode(n);
      assert LevelsOn(side)[k].price == price;
      EraseLevelIfEmpty(side, price, k);
      ForgetQueued(side, price, i);
    }

    /** Takes the order's quantity off its level and closes the links over its node. */
    method Unlink(side: Side, k: nat, n: nat)
      requires ValidSide(side) && k < |LevelsOn(side)| && n < |nodes| && Sorted(LevelsOn(side), side)
      requires NO_INDEX <= nodes[n].previous < |nodes| && NO_INDEX <= nodes[n].next < |nodes|
      requires nodes[n].previous != n && nodes[n].next != n
      modifies this`bids, this`asks, this`nodes
      ensures nodes == Unlinked(old(nodes), n)
      ensures LevelsOn(side) == old(LevelsOn(side))[k := Left(old(LevelsOn(side))[k], old(nodes)[n])]
      ensures Sorted(LevelsOn(side), side)
      ensures LevelsOn(Opposite(side)) == old(LevelsOn(Opposite(side)))
    {
      var level := LevelsOn(side)[k];
      level := level.(total := level.total - nodes[n].order.quantity);
      var level', nodes' := UnlinkOrder(level, nodes, n);
      nodes := nodes';
      StoreLevel(side, k, level');
    }

    ghost method ForgetQueued(side: Side, price: int, i: nat)
      requires ValidSide(side) && i < |Fields().QueueAt(side, price)|
      modifies this`bidQueues, this`askQueues
      ensures var q := Cut(old(Fields()).QueueAt(side, price), i);
        Fields() == old(Fields()).WithSide(side, LevelsOn(side),
                      if q == [] then old(Fields()).Queues(side) - {price} else old(Fields()).Queues(side)[price := q])
    {
      var q := Cut(Fields().QueueAt(side, price), i);
      if side == Buy {
        bidQueues := if q == [] then bidQueues - {price} else bidQueues[price := q];
      } else {
        askQueues := if q == [] then askQueues - {price} else askQueues[price := q];
      }
    }

    /** Takes an indexed order out of its queue, the pool and the index. */
    method Detach(id: nat, n: nat, side: Side, k: nat, ghost i: nat)
      requires index.Valid() && Removable(Fields(), side, k, i, n) && nodes[n].order.orderId == id
      requires id in index.contents
      modifies this, index
      ensures index.Valid() && Fields() == Dropped(old(Fields()), side, k, i, n)
      ensures Used() == old(Used()) && peak == old(peak)
      ensures |nodes| == |old(nodes)| && |bids| <= |old(bids)| && |asks| <= |old(asks)|
    {
      TakeOut(side, k, n, i);
      var erased := index.Erase(id);
    }

    /** Looking up a level that is known to exist inserts nothing. */
    method ExistingLevel(side: Side, price: int, ghost k: nat) returns (level: nat)
      requires ValidSide(side) && Sorted(LevelsOn(side), side) && k < |LevelsOn(side)|
      requires LevelsOn(side)[k].price == price
      modifies this`bids, this`asks, this`bidCapacity, this`askCapacity, this`growths
      ensures level == k && unchanged(this) && Fields() == old(Fields())
    {
      level := MutableLevel(side, price);
      LocatedIs(old(LevelsOn(side)), side, price, k, level);
    }

    method Lookup(id: nat) returns (node: Option<nat>)
      requires Valid()
      ensures node == if id in index.contents then Some(index.contents[id]) else None
      ensures (node != None) == Has(View(), id)
      ensures node != None ==> node.value < |nodes| && nodes[node.value].active && nodes[node.value].order.orderId == id
    {
      IndexedIffResting(Fields(), id);
      node := index.Find(id);
    }

    method CancelOrder(id: nat) returns (ok: bool)
      requires Valid()
      modifies this, index
      ensures Valid() && (View(), ok) == Cancel(old(View()), id)
      ensures Live() == old(Live()) - (if ok then 1 else 0) && peak == old(peak)
      ensures Used() == old(Used())
    {
      var found := Lookup(id);
      if found == None {
        return false;
      }
      Remove(id, found.value);
      return true;
    }

    method Remove(id: nat, n: nat)
      requires Valid() && id in index.contents && index.contents[id] == n
      requires n < |nodes| && nodes[n].active && nodes[n].order.orderId == id
      modifies this, index
      ensures Valid() && View() == Drop(old(View()), id)
      ensures Live() == old(Live()) - 1 && peak == old(peak) && Used() == old(Used())
    {
      ghost var k, i := DropFacts(Fields(), n);
      var node := nodes[n];
      var level := ExistingLevel(node.order.side, node.order.price, k);
      Detach(id, n, node.order.side, level, i);
    }

    /** Takes part of a queued order's quantity, in its node and in its level's total. */
    method Trim(side: Side, k: nat, n: nat, quantity: int)
      requires ValidSide(side) && k < |LevelsOn(side)| && n < |nodes|
      modifies this`bids, this`asks, this`nodes
      ensures Fields() == Trimmed(old(Fields()), side, k, n, quantity)
      ensures |nodes| == |old(nodes)| && |bids| == |old(bids)| && |asks| == |old(asks)|
    {
      nodes := nodes[n := nodes[n].(order := nodes[n].order.(quantity := nodes[n].order.quantity - quantity))];
      var level := LevelsOn(side)[k];
      StoreLevel(side, k, level.(total := level.total - quantity));
    }

    method ReduceFound(id: nat, n: nat, quantity: int)
      requires Valid() && n < |nodes| && nodes[n].active && nodes[n].order.orderId == id
      requires 0 < quantity < nodes[n].order.quantity
      modifies this
      ensures Valid() && (View(), true) == Reduce(old(View()), id, quantity)
      ensures Live() == old(Live()) && peak == old(peak) && Used() == old(Used())
    {
      ghost var before := Fields();
      ghost var k := TrimFacts(before, n, quantity);
      TrimAt(n, quantity, k, Trimmed(before, before.nodes[n].order.side, k, n, quantity));
    }

    method TrimAt(n: nat, quantity: int, ghost k: nat, ghost trimmed: Pool)
      requires n < |nodes| && ValidSide(nodes[n].order.side)
      requires Sorted(LevelsOn(nodes[n].order.side), nodes[n].order.side)
      requires k < |LevelsOn(nodes[n].order.side)| && LevelsOn(nodes[n].order.side)[k].price == nodes[n].order.price
      requires StorageSane() && index.Valid() && trimmed == Trimmed(Fields(), nodes[n].order.side, k, n, quantity)
      requires trimmed.Ok()
      modifies this
      ensures Valid() && View() == trimmed.View()
      ensures Live() == old(Live()) && Used() == old(Used()) && peak == old(peak)
    {
      var node := nodes[n];
      var level := ExistingLevel(node.order.side, node.order.price, k);
      Trim(node.order.side, level, n, quantity);
    }

    method ReduceOrder(id: nat, quantity: int) returns (ok: bool)
      requires Valid()
      modifies this, index
      ensures Valid() && (View(), ok) == Reduce(old(View()), id, quantity)
      ensures Live() <= old(Live()) && peak == old(peak) && Used() == old(Used())
    {
      if quantity <= 0 {
        return false;
      }
      var found := Lookup(id);
      if found == None {
        return false;
      }
      NodeIsFound(Fields(), found.value);
      if quantity >= nodes[found.value].order.quantity {
        ok := CancelOrder(id);
        return ok;
      }
      ReduceFound(id, found.value, quantity);
      return true;
    }

    method FindOrder(id: nat) returns (order: Option<Order>)
      requires Valid()
      ensures order == if Has(View(), id) then Some(Find(View(), id)) else None
    {
      var found := Lookup(id);
      if found == None {
        return None;
      }
      NodeIsFound(Fields(), found.value);
      return if nodes[found.value].active then Some(nodes[found.value].order) else None;
    }

    method ReplaceOrder(id: nat, price: int, quantity: int, timestamp: int, sequence: nat) returns (ok: bool)
      requires Valid()
      modifies this, index
      ensures Valid() && (View(), ok) == Replace(old(View()), id, price, quantity, timestamp, sequence)
      ensures Live() == old(Live()) && peak == old(peak)
      ensures Used().GrownFrom(old(Used()), !ok || old(Used().Holds(Live())))
    {
      if price <= 0 || quantity <= 0 {
        return false;
      }
      var existing := FindOrder(id);
      if existing == None {
        return false;
      }
      var replacement := existing.value.(price := price, quantity := quantity, timestamp := timestamp, sequence := sequence);
      ReplaceFacts(View(), id);
      ok := Requeue(replacement);
    }

    /** Cancels the order with this id and adds the given one in its place. */
    method Requeue(replacement: Order) returns (ok: bool)
      requires Valid() && Has(View(), replacement.orderId)
      requires !Has(Drop(View(), replacement.orderId), replacement.orderId)
      requires ValidRestingOrder(replacement) && replacement.symbolId == symbolId
      modifies this, index
      ensures Valid() && (View(), ok) == (Push(Drop(old(View()), replacement.orderId), replacement), true)
      ensures Live() == old(Live()) && peak == old(peak)
      ensures Used().GrownFrom(old(Used()), old(Used().Holds(Live())))
    {
      ok := CancelOrder(replacement.orderId);
      if !ok {
        return false;
      }
      ok := AddOrder(replacement);
    }

    method BestPriceOn(side: Side) returns (price: Option<int>)
      requires Valid()
      ensures price == BestPrice(View(), side)
    {
      if !ValidSide(side) {
        return None;
      }
      LevelsShow(Fields(), side);
      return if LevelsOn(side) == [] then None else Some(LevelsOn(side)[0].price);
    }

    /** The front order of the best level of a side. */
    method BestOrder(side: Side) returns (order: Option<Order>)
      requires Valid()
      ensures order == Books.BestOrder(View(), side)
    {
      if !ValidSide(side) || LevelsOn(side) == [] {
        if ValidSide(side) { LevelsShow(Fields(), side); }
        return None;
      }
      FrontShows(Fields(), side);
      return Some(nodes[LevelsOn(side)[0].head].order);
    }

    method TotalQuantityAt(side: Side, price: int) returns (quantity: int)
      requires Valid()
      ensures quantity == if ValidSide(side) then Total(QueueAt(On(View(), side), price)) else 0
    {
      if !ValidSide(side) {
        return 0;
      }
      var found := FindLevel(LevelsOn(side), price);
      LevelsShow(Fields(), side);
      if found == None {
        NotListed(Fields(), side, price);
        return 0;
      }
      assert ShowsLevel(LevelsOn(side)[found.value], nodes, Fields().Queues(side), On(View(), side));
      return LevelsOn(side)[found.value].total;
    }

    method L2(depth: nat) returns (view: L2View)
      requires Valid()
      ensures view == Books.L2(View(), depth)
    {
      view := L2View(symbolId, [], []);
      if depth == 0 {
        return;
      }
      LevelsShow(Fields(), Buy);
      LevelsShow(Fields(), Sell);
      var shown := FillSide(bids, depth, nodes, bidQueues, View().bids, Buy);
      view := view.(bids := shown);
      shown := FillSide(asks, depth, nodes, askQueues, View().asks, Sell);
      view := view.(asks := shown);
    }

    method Checksum(mix: Mix) returns (c: int)
      requires Valid()
      ensures c == BookChecksum(mix, View())
    {
      ghost var v := View();
      LevelsShow(Fields(), Buy);
      LevelsShow(Fields(), Sell);
      FoldConcat(mix, FNV_OFFSET_BASIS, [v.symbol], SideValues(v.bids, Buy));
      FoldConcat(mix, FNV_OFFSET_BASIS, [v.symbol] + SideValues(v.bids, Buy), SideValues(v.asks, Sell));
      c := mix(FNV_OFFSET_BASIS, symbolId);
      c := ChecksumLevels(mix, c, Buy, bids, nodes, bidQueues, v.bids);
      c := ChecksumLevels(mix, c, Sell, asks, nodes, askQueues, v.asks);
    }

    method OrderCount() returns (n: nat)
      requires Valid()
      ensures n == Live()
    {
      return index.size;
    }

    /** Makes room for `count` orders in every container. */
    method ReserveOrderCapacity(count: nat)
      requires Valid()
      modifies this, index
      ensures Valid() && View() == old(View()) && Live() == old(Live()) && peak == old(peak)
      ensures Used().Holds(count) && Used().GrownFrom(old(Used()), false)
    {
      GrowVectors(count);
      index.Reserve(count);
    }

    ghost method GrowVectors(count: nat)
      modifies this`bidCapacity, this`askCapacity, this`nodeCapacity, this`growths
      ensures bidCapacity >= count && askCapacity >= count && nodeCapacity >= count
      ensures bidCapacity >= old(bidCapacity) && askCapacity >= old(askCapacity) && nodeCapacity >= old(nodeCapacity)
    {
      if nodeCapacity < count { nodeCapacity, growths := count, growths + 1; }
      if bidCapacity < count { bidCapacity, growths := count, growths + 1; }
      if askCapacity < count { askCapacity, growths := count, growths + 1; }
    }
  }

  /** The head of the first level is the front order of the best queue. */
  lemma FrontShows(p: Pool, side: Side)
    requires p.Ok() && ValidSide(side) && p.Levels(side) != []
    ensures var head := p.Levels(side)[0].head;
      0 <= head < |p.nodes| && Books.BestOrder(p.View(), side) == Some(p.nodes[head].order)
  {
    LevelsShow(p, side);
    var level := p.Levels(side)[0];
    assert ShowsLevel(level, p.nodes, p.Queues(side), On(p.View(), side));
    assert On(p.View(), side)[level.price] != [];
    assert LinkOk(p.nodes, p.Queues(side)[level.price], 0);
  }

  lemma NotListed(p: Pool, side: Side, price: int)
    requires p.StorageOk() && ValidSide(side)
    requires forall j :: 0 <= j < |p.Levels(side)| ==> p.Levels(side)[j].price != price
    ensures price !in On(p.View(), side)
  {
    LevelsMeet(p, side);
  }

  lemma ReplaceFacts(b: Book, id: nat)
    requires Sound(b) && Has(b, id)
    ensures !Has(Drop(b, id), id) && ValidRestingOrder(Find(b, id)) && Find(b, id).symbolId == b.symbol
  {
    FoundFits(b, id);
    DropSound(b, id);
  }

  lemma TrimFacts(p: Pool, n: nat, quantity: int) returns (k: nat)
    requires p.Ok() && n < |p.nodes| && p.nodes[n].active && 0 < quantity < p.nodes[n].order.quantity
    ensures var side := p.nodes[n].order.side;
      && ValidSide(side) && k < |p.Levels(side)| && p.Levels(side)[k].price == p.nodes[n].order.price
      && Sorted(p.Levels(side), side)
      && Trimmed(p, side, k, n, quantity).Ok()
      && (Trimmed(p, side, k, n, quantity).View(), true) == Reduce(p.View(), p.nodes[n].order.orderId, quantity)
  {
    var i;
    k, i := NodeIsQueued(p, n);
    LevelsMeet(p, p.nodes[n].order.side);
    TrimmedOk(p, p.nodes[n].order.side, k, i, n, quantity);
  }

  /** Everything taking an order out relies on. */
  ghost predicate Removable(p: Pool, side: Side, k: nat, i: nat, n: nat) {
    && Queued(p, side, k, i, n) && n < |p.nodes|
    && NO_INDEX <= p.nodes[n].previous < |p.nodes| && NO_INDEX <= p.nodes[n].next < |p.nodes|
    && p.nodes[n].previous != n && p.nodes[n].next != n
    && Sorted(p.Levels(side), side)
  }

  lemma LocatedIs(levels: seq<LevelNode>, side: Side, price: int, k: nat, k': nat)
    requires Sorted(levels, side) && k < |levels| && levels[k].price == price && Located(levels, side, price, k')
    ensures k' == k && Put(levels, price, k', LevelFor(levels, price, k')) == levels
  {
  }

  lemma DropFacts(p: Pool, n: nat) returns (k: nat, i: nat)
    requires p.Ok() && n < |p.nodes| && p.nodes[n].active
    ensures var side := p.nodes[n].order.side;
      && Removable(p, side, k, i, n) && p.Levels(side)[k].price == p.nodes[n].order.price
      && Dropped(p, side, k, i, n).Ok()
      && Dropped(p, side, k, i, n).View() == Drop(p.View(), p.nodes[n].order.orderId)
      && |Dropped(p, side, k, i, n).index| == |p.index| - 1
  {
    k, i := NodeIsQueued(p, n);
    CanRemove(p, p.nodes[n].order.side, k, i, n);
    DroppedOk(p, p.nodes[n].order.side, k, i, n);
    RemoveSize(p.index, p.nodes[n].order.orderId);
  }

  lemma CanRemove(p: Pool, side: Side, k: nat, i: nat, n: nat)
    requires p.StorageOk() && Queued(p, side, k, i, n)
    ensures Removable(p, side, k, i, n)
  {
    QueuedNode(p, side, k, i, n);
    LevelsMeet(p, side);
    var q := p.QueueAt(side, p.Levels(side)[k].price);
    if i > 0 { assert q[i - 1] != q[i]; }
    if i + 1 < |q| { assert q[i] != q[i + 1]; }
  }
}
