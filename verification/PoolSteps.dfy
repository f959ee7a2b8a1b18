/** The state changes of the pooled book on its storage, each proved to keep the storage
    well formed and to do to the abstract book what the operation should. */
module PoolSteps {
  import opened Types
  import opened Ranking
  import opened Books
  import opened Pools

  lemma LevelsMeet(p: Pool, side: Side)
    requires p.StorageOk() && ValidSide(side)
    ensures LevelsOk(p.Levels(side), p.Queues(side), p.nodes, side)
  {
  }

  /** The queue stored for a level. */
  lemma LevelAtIndex(p: Pool, side: Side, k: nat)
    requires p.StorageOk() && ValidSide(side) && k < |p.Levels(side)|
    ensures LevelFiled(p.Levels(side)[k], p.Queues(side), p.nodes, side)
  {
  }

  // ----- acquiring a node

  ghost function Acquired(p: Pool, o: Order): (Pool, nat)
    requires p.freeHead < |p.nodes|
  {
    var node := OrderNode(o, NO_INDEX, NO_INDEX, true);
    if p.freeHead >= 0 && |p.free| > 0
    then (p.(nodes := p.nodes[p.freeHead := node], freeHead := p.nodes[p.freeHead].next, free := p.free[1..]), p.freeHead)
    else (p.(nodes := p.nodes + [node]), |p.nodes|)
  }

  lemma FreeHeadInPool(p: Pool)
    requires FreeLinked(p.nodes, p.free, p.freeHead)
    ensures p.freeHead < |p.nodes| && (p.freeHead == NO_INDEX <==> p.free == [])
  {
    if p.free != [] { assert p.free[0] < |p.nodes|; }
  }

  /** The node taken was not in use, and everything else about the pool stays. */
  lemma AcquiredOk(p: Pool, o: Order)
    requires p.StorageOk()
    ensures p.freeHead < |p.nodes|
    ensures var (p', n) := Acquired(p, o);
      && n < |p'.nodes| && p'.nodes[n] == OrderNode(o, NO_INDEX, NO_INDEX, true)
      && |p.nodes| <= |p'.nodes| && (n < |p.nodes| ==> !p.nodes[n].active)
      && (forall m :: 0 <= m < |p'.nodes| && m != n ==> m < |p.nodes| && p'.nodes[m] == p.nodes[m])
      && FreeLinked(p'.nodes, p'.free, p'.freeHead)
      && (forall m :: 0 <= m < |p'.nodes| && !p'.nodes[m].active ==> m in p'.free)
      && |p'.nodes| - |p'.free| == |p.nodes| - |p.free| + 1
  {
    FreeHeadInPool(p);
    var (p', n) := Acquired(p, o);
    if p.free != [] {
      assert p.free[0] == n;
      forall m | 0 <= m < |p'.nodes| && !p'.nodes[m].active ensures m in p'.free {
        assert p.Placed(m) && m != n;
      }
      forall i | 0 <= i < |p'.free|
        ensures p'.free[i] < |p'.nodes| && !p'.nodes[p'.free[i]].active
        ensures p'.nodes[p'.free[i]].next == Neighbour(p'.free, i + 1)
      {
        assert p'.free[i] == p.free[i + 1] && p.free[i + 1] != p.free[0];
      }
    } else {
      forall m | 0 <= m < |p'.nodes| && !p'.nodes[m].active ensures m in p'.free {
        assert p.Placed(m);
      }
    }
  }

  // ----- adding an order

  ghost predicate QueueFiled(p: Pool, side: Side, price: int, head: int, tail: int) {
    var q := p.QueueAt(side, price);
    && Linked(p.nodes, q, head, tail)
    && forall i :: 0 <= i < |q| ==> p.nodes[q[i]].order.side == side && p.nodes[q[i]].order.price == price
  }

  lemma QueueSurvivesAcquire(p: Pool, o: Order, side: Side, price: int, head: int, tail: int)
    requires p.StorageOk() && QueueFiled(p, side, price, head, tail)
    ensures p.freeHead < |p.nodes|
    ensures var q := p.QueueAt(side, price); var (p', n) := Acquired(p, o);
      Linked(p'.nodes, q, head, tail) && n !in q && OrdersAt(p'.nodes, q) == OrdersAt(p.nodes, q)
  {
    AcquiredOk(p, o);
    var q := p.QueueAt(side, price);
    var (p', n) := Acquired(p, o);
    forall i | 0 <= i < |q| ensures q[i] != n && p'.nodes[q[i]] == p.nodes[q[i]] {
      assert LinkOk(p.nodes, q, i);
    }
    forall i | 0 <= i < |q| ensures LinkOk(p'.nodes, q, i) {
      assert LinkOk(p.nodes, q, i);
    }
    assert OrdersAt(p'.nodes, q) == OrdersAt(p.nodes, q);
  }

  lemma AppendedSame(nodes: seq<OrderNode>, tail: int, n: nat)
    requires n < |nodes| && tail < |nodes|
    ensures var nodes' := Appended(nodes, tail, n);
      && |nodes'| == |nodes|
      && (forall m :: 0 <= m < |nodes| ==> nodes'[m].order == nodes[m].order && nodes'[m].active == nodes[m].active)
      && (forall m :: 0 <= m < |nodes| && m != n && m != tail ==> nodes'[m] == nodes[m])
  {
  }

  /** Linking nodes that are in use leaves the free list alone. */
  lemma FreeAfterAppend(nodes: seq<OrderNode>, free: seq<nat>, freeHead: int, tail: int, n: nat)
    requires FreeLinked(nodes, free, freeHead) && n < |nodes| && nodes[n].active
    requires tail < |nodes| && (tail >= 0 ==> nodes[tail].active)
    ensures FreeLinked(Appended(nodes, tail, n), free, freeHead)
  {
  }

  lemma AppendStep(p: Pool, o: Order, head: int, tail: int)
    requires p.StorageOk() && QueueFiled(p, o.side, o.price, head, tail)
    ensures p.freeHead < |p.nodes|
    ensures var q := p.QueueAt(o.side, o.price); var (p', n) := Acquired(p, o);
      && tail < |p'.nodes| && n < |p'.nodes|
      && var nodes' := Appended(p'.nodes, tail, n);
      && OthersKept(p.nodes, nodes', o.side, o.price)
      && FreeLinked(nodes', p'.free, p'.freeHead)
      && Linked(nodes', q + [n], if tail == NO_INDEX then n else head, n)
      && OrdersAt(nodes', q + [n]) == OrdersAt(p.nodes, q) + [o]
  {
    AcquiredOk(p, o);
    QueueSurvivesAcquire(p, o, o.side, o.price, head, tail);
    var q := p.QueueAt(o.side, o.price);
    var (p', n) := Acquired(p, o);
    AppendLinked(p'.nodes, q, head, tail, n);
    if q != [] {
      assert LinkOk(p.nodes, q, |q| - 1) && LinkOk(p'.nodes, q, |q| - 1);
    }
    FreeAfterAppend(p'.nodes, p'.free, p'.freeHead, tail, n);
    AppendedSame(p'.nodes, tail, n);
  }

  ghost function AddedNodes(p: Pool, o: Order, tail: int): seq<OrderNode>
    requires p.freeHead < |p.nodes|
  {
    var (p', n) := Acquired(p, o);
    if n < |p'.nodes| && tail < |p'.nodes| then Appended(p'.nodes, tail, n) else p'.nodes
  }

  /** The pool after storing an order: the level vector, its queue, the nodes, the free list and the index. */
  ghost function Added(p: Pool, o: Order, levels: seq<LevelNode>, tail: int): Pool
    requires p.freeHead < |p.nodes|
  {
    var (p', n) := Acquired(p, o);
    p'.(nodes := AddedNodes(p, o, tail), index := p.index[o.orderId := n])
      .WithSide(o.side, levels, p.Queues(o.side)[o.price := p.QueueAt(o.side, o.price) + [n]])
  }

  /** The level a new order joins, as it looks afterwards. */
  function Joined(level: LevelNode, o: Order, n: nat): LevelNode {
    LevelNode(o.price, level.total + o.quantity, if level.tail == NO_INDEX then n else level.head, n, level.orderCount + 1)
  }

  lemma JoinedOk(p: Pool, o: Order, level: LevelNode)
    requires p.StorageOk() && level.price == o.price
    requires LevelOk(level, p.QueueAt(o.side, o.price), p.nodes, o.side)
    ensures p.freeHead < |p.nodes|
    ensures var (p', n) := Acquired(p, o); var nodes' := AddedNodes(p, o, level.tail);
      && OthersKept(p.nodes, nodes', o.side, o.price)
      && FreeLinked(nodes', p'.free, p'.freeHead)
      && LevelOk(Joined(level, o, n), p.QueueAt(o.side, o.price) + [n], nodes', o.side)
      && OrdersAt(nodes', p.QueueAt(o.side, o.price) + [n]) == OrdersAt(p.nodes, p.QueueAt(o.side, o.price)) + [o]
  {
    var q := p.QueueAt(o.side, o.price);
    assert QueueFiled(p, o.side, o.price, level.head, level.tail);
    AppendStep(p, o, level.head, level.tail);
    AcquiredOk(p, o);
    var (p', n) := Acquired(p, o);
    AppendedSame(p'.nodes, level.tail, n);
    TotalPush(OrdersAt(p.nodes, q), o);
    var nodes' := AddedNodes(p, o, level.tail);
    forall i | 0 <= i < |q + [n]|
      ensures nodes'[(q + [n])[i]].order.side == o.side && nodes'[(q + [n])[i]].order.price == o.price
    {
      if i < |q| {
        assert LinkOk(p.nodes, q, i);
      }
    }
  }

  function NewLevel(price: int): LevelNode {
    LevelNode(price, 0, NO_INDEX, NO_INDEX, 0)
  }

  /** The level of a price: the one at position `k`, or a new one to be inserted there. */
  function LevelFor(levels: seq<LevelNode>, price: int, k: nat): LevelNode
    requires k <= |levels|
  {
    if k < |levels| && levels[k].price == price then levels[k] else NewLevel(price)
  }

  function Put(levels: seq<LevelNode>, price: int, k: nat, level: LevelNode): seq<LevelNode>
    requires k <= |levels|
  {
    if k < |levels| && levels[k].price == price then levels[k := level] else Inserted(levels, k, level)
  }

  predicate Located(levels: seq<LevelNode>, side: Side, price: int, k: nat) {
    k <= |levels| && ((k < |levels| && levels[k].price == price) || Gap(levels, side, price, k))
  }

  lemma LevelForOk(p: Pool, side: Side, price: int, k: nat)
    requires p.StorageOk() && ValidSide(side) && Located(p.Levels(side), side, price, k)
    ensures LevelOk(LevelFor(p.Levels(side), price, k), p.QueueAt(side, price), p.nodes, side)
    ensures LevelFor(p.Levels(side), price, k).price == price
  {
    LevelsMeet(p, side);
    if k < |p.Levels(side)| && p.Levels(side)[k].price == price {
      assert LevelFiled(p.Levels(side)[k], p.Queues(side), p.nodes, side);
    } else {
      GapIsNew(p.Levels(side), p.Queues(side), side, price, k);
    }
  }

  lemma BothSides(p: Pool, side: Side)
    requires ValidSide(side) && LevelsOk(p.Levels(side), p.Queues(side), p.nodes, side)
    requires LevelsOk(p.Levels(Opposite(side)), p.Queues(Opposite(side)), p.nodes, Opposite(side))
    ensures LevelsOk(p.bids, p.bidQueues, p.nodes, Buy) && LevelsOk(p.asks, p.askQueues, p.nodes, Sell)
  {
  }

  /** The pool with a new order stored under the level at position `k`, found or inserted. */
  ghost function AddedAt(p: Pool, o: Order, k: nat): Pool
    requires p.freeHead < |p.nodes| && k <= |p.Levels(o.side)|
  {
    var level := LevelFor(p.Levels(o.side), o.price, k);
    Added(p, o, Put(p.Levels(o.side), o.price, k, Joined(level, o, Acquired(p, o).1)), level.tail)
  }

  lemma AddedOwn(p: Pool, o: Order, k: nat)
    requires p.StorageOk() && ValidSide(o.side) && Located(p.Levels(o.side), o.side, o.price, k)
    ensures p.freeHead < |p.nodes|
    ensures var a := AddedAt(p, o, k); LevelsOk(a.Levels(o.side), a.Queues(o.side), a.nodes, o.side)
  {
    var level, q := LevelFor(p.Levels(o.side), o.price, k), p.QueueAt(o.side, o.price);
    LevelForOk(p, o.side, o.price, k);
    JoinedOk(p, o, level);
    LevelsMeet(p, o.side);
    var n, nodes' := Acquired(p, o).1, AddedNodes(p, o, level.tail);
    if k < |p.Levels(o.side)| && p.Levels(o.side)[k].price == o.price {
      UpdateLevel(p.Levels(o.side), p.Queues(o.side), p.nodes, nodes', o.side, k, Joined(level, o, n), q + [n]);
    } else {
      InsertLevel(p.Levels(o.side), p.Queues(o.side), p.nodes, nodes', o.side, k, Joined(level, o, n), q + [n]);
    }
  }

  lemma AddedOther(p: Pool, o: Order, k: nat)
    requires p.StorageOk() && ValidSide(o.side) && Located(p.Levels(o.side), o.side, o.price, k)
    ensures p.freeHead < |p.nodes|
    ensures var a, other := AddedAt(p, o, k), Opposite(o.side);
      LevelsOk(a.Levels(other), a.Queues(other), a.nodes, other)
  {
    var level, other := LevelFor(p.Levels(o.side), o.price, k), Opposite(o.side);
    LevelForOk(p, o.side, o.price, k);
    JoinedOk(p, o, level);
    LevelsMeet(p, other);
    LevelsKept(p.Levels(other), p.Queues(other), p.nodes, AddedNodes(p, o, level.tail), other, o.side, o.price);
  }

  lemma AddedLevels(p: Pool, o: Order, k: nat)
    requires p.StorageOk() && ValidSide(o.side) && Located(p.Levels(o.side), o.side, o.price, k)
    ensures p.freeHead < |p.nodes|
    ensures var a := AddedAt(p, o, k);
      LevelsOk(a.bids, a.bidQueues, a.nodes, Buy) && LevelsOk(a.asks, a.askQueues, a.nodes, Sell)
  {
    AddedOwn(p, o, k);
    AddedOther(p, o, k);
    BothSides(AddedAt(p, o, k), o.side);
  }

  lemma AddedPlaced(p: Pool, o: Order, levels: seq<LevelNode>, tail: int)
    requires p.StorageOk() && ValidSide(o.side) && tail < |p.nodes|
    ensures p.freeHead < |p.nodes|
    ensures var a := Added(p, o, levels, tail); forall m :: 0 <= m < |a.nodes| ==> a.Placed(m)
  {
    AcquiredOk(p, o);
    AddedSame(p, o, tail);
    var a, n := Added(p, o, levels, tail), Acquired(p, o).1;
    assert n in a.QueueAt(o.side, o.price) by {
      assert a.QueueAt(o.side, o.price)[|p.QueueAt(o.side, o.price)|] == n;
    }
    forall m | 0 <= m < |a.nodes| && m != n ensures a.Placed(m) {
      StillPlaced(p, o, levels, tail, m);
    }
  }

  /** A node that an add does not take stays queued, or stays free. */
  lemma StillPlaced(p: Pool, o: Order, levels: seq<LevelNode>, tail: int, m: nat)
    requires p.StorageOk() && ValidSide(o.side) && tail < |p.nodes| && p.freeHead < |p.nodes|
    requires m < |AddedNodes(p, o, tail)| && m != Acquired(p, o).1
    ensures Added(p, o, levels, tail).Placed(m)
  {
    AddedSame(p, o, tail);
    assert p.Placed(m);
    if p.nodes[m].active {
      ConsKeeps(p.QueueAt(o.side, o.price), [Acquired(p, o).1], m);
    } else {
      AcquiredOk(p, o);
    }
  }

  lemma IndexGrows(nodes: seq<OrderNode>, nodes': seq<OrderNode>, index: map<nat, nat>, n: nat)
    requires IndexMaps(nodes, index) && n < |nodes'| && nodes'[n].active && nodes'[n].order.orderId !in index
    requires |nodes| <= |nodes'| && (n < |nodes| ==> !nodes[n].active)
    requires forall m :: 0 <= m < |nodes'| && m != n ==>
      m < |nodes| && nodes'[m].active == nodes[m].active && nodes'[m].order == nodes[m].order
    ensures IndexMaps(nodes', index[nodes'[n].order.orderId := n])
  {
  }

  lemma AddedSame(p: Pool, o: Order, tail: int)
    requires p.StorageOk() && tail < |p.nodes|
    ensures p.freeHead < |p.nodes|
    ensures var n := Acquired(p, o).1; var nodes' := AddedNodes(p, o, tail);
      && n < |nodes'| && nodes'[n].active && nodes'[n].order == o && |p.nodes| <= |nodes'| && (n < |p.nodes| ==> !p.nodes[n].active)
      && forall m :: 0 <= m < |nodes'| && m != n ==>
           m < |p.nodes| && nodes'[m].active == p.nodes[m].active && nodes'[m].order == p.nodes[m].order
    ensures |AddedNodes(p, o, tail)| - |Acquired(p, o).0.free| == |p.nodes| - |p.free| + 1
  {
    AcquiredOk(p, o);
    AppendedSame(Acquired(p, o).0.nodes, tail, Acquired(p, o).1);
  }

  lemma AddedIndex(p: Pool, o: Order, levels: seq<LevelNode>, tail: int)
    requires p.StorageOk() && p.IndexOk() && o.orderId !in p.index && tail < |p.nodes|
    ensures p.freeHead < |p.nodes| && Added(p, o, levels, tail).IndexOk()
  {
    AddedSame(p, o, tail);
    IndexGrows(p.nodes, AddedNodes(p, o, tail), p.index, Acquired(p, o).1);
    InsertSize(p.index, o.orderId, Acquired(p, o).1);
  }

  /** Queues of other levels show the same orders. */
  lemma LadderKept(p: Pool, nodes': seq<OrderNode>, side: Side, price: int, s: Side, q: int)
    requires p.StorageOk() && OthersKept(p.nodes, nodes', side, price)
    requires ValidSide(s) && q in p.Queues(s) && (s != side || q != price)
    ensures OrdersAt(nodes', p.Queues(s)[q]) == OrdersAt(p.nodes, p.Queues(s)[q])
  {
    LevelsMeet(p, s);
    var k :| 0 <= k < |p.Levels(s)| && p.Levels(s)[k].price == q;
    LevelAtIndex(p, s, k);
    LevelKept(p.Levels(s)[k], p.Queues(s)[q], p.nodes, nodes', s, side, price);
  }

  lemma LadderSame(nodes: seq<OrderNode>, nodes': seq<OrderNode>, queues: Queues)
    requires forall r :: r in queues ==> OrdersAt(nodes', queues[r]) == OrdersAt(nodes, queues[r])
    ensures LadderOf(nodes', queues) == LadderOf(nodes, queues)
  {
    var was, now := LadderOf(nodes, queues), LadderOf(nodes', queues);
    forall r | r in queues ensures now[r] == was[r] {}
    assert now.Keys == was.Keys == queues.Keys;
  }

  lemma LadderChanges(nodes: seq<OrderNode>, nodes': seq<OrderNode>, queues: Queues, price: int, q: seq<nat>,
                      orders: Queue)
    requires forall r :: r in queues && r != price ==> OrdersAt(nodes', queues[r]) == OrdersAt(nodes, queues[r])
    requires OrdersAt(nodes', q) == orders
    ensures LadderOf(nodes', if q == [] then queues - {price} else queues[price := q]) == SetQueue(LadderOf(nodes, queues), price, orders)
  {
    var queues' := if q == [] then queues - {price} else queues[price := q];
    var now, want := LadderOf(nodes', queues'), SetQueue(LadderOf(nodes, queues), price, orders);
    assert |orders| == |q|;
    forall r ensures r in now <==> r in want {}
    forall r | r in now ensures now[r] == want[r] {
      if r != price { assert queues'[r] == queues[r]; }
    }
  }

  /** When only one queue changed, only one queue of the abstract book did. */
  lemma ViewChanges(p: Pool, p': Pool, side: Side, price: int, q: seq<nat>, orders: Queue)
    requires p.StorageOk() && ValidSide(side) && OthersKept(p.nodes, p'.nodes, side, price) && p'.symbol == p.symbol
    requires p'.Queues(Opposite(side)) == p.Queues(Opposite(side))
    requires p'.Queues(side) == if q == [] then p.Queues(side) - {price} else p.Queues(side)[price := q]
    requires OrdersAt(p'.nodes, q) == orders
    ensures p'.View() == With(p.View(), side, SetQueue(On(p.View(), side), price, orders))
  {
    forall r | r in p.Queues(side) && r != price
      ensures OrdersAt(p'.nodes, p.Queues(side)[r]) == OrdersAt(p.nodes, p.Queues(side)[r])
    {
      LadderKept(p, p'.nodes, side, price, side, r);
    }
    LadderChanges(p.nodes, p'.nodes, p.Queues(side), price, q, orders);
    var other := Opposite(side);
    forall r | r in p.Queues(other)
      ensures OrdersAt(p'.nodes, p.Queues(other)[r]) == OrdersAt(p.nodes, p.Queues(other)[r])
    {
      LadderKept(p, p'.nodes, side, price, other, r);
    }
    LadderSame(p.nodes, p'.nodes, p.Queues(other));
  }

  lemma AddedView(p: Pool, o: Order, levels: seq<LevelNode>, level: LevelNode)
    requires p.StorageOk() && ValidSide(o.side) && level.price == o.price
    requires LevelOk(level, p.QueueAt(o.side, o.price), p.nodes, o.side)
    ensures p.freeHead < |p.nodes| && Added(p, o, levels, level.tail).View() == Push(p.View(), o)
  {
    JoinedOk(p, o, level);
    var n, q := Acquired(p, o).1, p.QueueAt(o.side, o.price);
    assert OrdersAt(p.nodes, q) == Books.QueueAt(On(p.View(), o.side), o.price);
    AddedQueues(p, o, levels, level.tail);
    ViewChanges(p, Added(p, o, levels, level.tail), o.side, o.price, q + [n], OrdersAt(p.nodes, q) + [o]);
  }

  lemma AddedQueues(p: Pool, o: Order, levels: seq<LevelNode>, tail: int)
    requires ValidSide(o.side) && p.freeHead < |p.nodes|
    ensures var a := Added(p, o, levels, tail);
      && a.symbol == p.symbol && a.nodes == AddedNodes(p, o, tail)
      && a.Queues(Opposite(o.side)) == p.Queues(Opposite(o.side))
      && a.Queues(o.side) == p.Queues(o.side)[o.price := p.QueueAt(o.side, o.price) + [Acquired(p, o).1]]
  {
  }

  lemma AddedOk(p: Pool, o: Order, k: nat)
    requires p.Ok() && ValidRestingOrder(o) && o.symbolId == p.symbol && o.orderId !in p.index
    requires Located(p.Levels(o.side), o.side, o.price, k)
    ensures p.freeHead < |p.nodes|
    ensures AddedAt(p, o, k).Ok() && (AddedAt(p, o, k).View(), true) == Add(p.View(), o)
  {
    FreeHeadInPool(p);
    var level := LevelFor(p.Levels(o.side), o.price, k);
    var levels := Put(p.Levels(o.side), o.price, k, Joined(level, o, Acquired(p, o).1));
    LevelForOk(p, o.side, o.price, k);
    JoinedOk(p, o, level);
    AddedLevels(p, o, k);
    AddedPlaced(p, o, levels, level.tail);
    AddedIndex(p, o, levels, level.tail);
    AddedView(p, o, levels, level);
    IndexedIffResting(p, o.orderId);
    PushSound(p.View(), o);
  }

  lemma IndexedIffResting(p: Pool, id: nat)
    requires p.StorageOk() && p.IndexOk()
    ensures id in p.index <==> Has(p.View(), id)
  {
    if id in p.index {
      var n := p.index[id];
      var o := p.nodes[n].order;
      assert p.Placed(n);
      var q := p.QueueAt(o.side, o.price);
      var i :| 0 <= i < |q| && q[i] == n;
      assert In(p.View(), o.side, o.price, i) && Get(p.View(), o.side, o.price, i) == o;
    }
    if Has(p.View(), id) {
      var s, price, i :| In(p.View(), s, price, i) && Get(p.View(), s, price, i).orderId == id;
      QueuedIsActive(p, s, price, i);
    }
  }

  /** The node at a position of the abstract book. */
  lemma QueuedIsActive(p: Pool, s: Side, price: int, i: int)
    requires p.StorageOk() && In(p.View(), s, price, i)
    ensures var n := p.QueueAt(s, price)[i];
      n < |p.nodes| && p.nodes[n].active && p.nodes[n].order == Get(p.View(), s, price, i)
  {
    LevelsMeet(p, s);
    var k :| 0 <= k < |p.Levels(s)| && p.Levels(s)[k].price == price;
    LevelAtIndex(p, s, k);
    assert LinkOk(p.nodes, p.Queues(s)[price], i);
  }

  // ----- taking an order out

  /** The node's links closed over it, and the node itself put on the free list. */
  function Released(nodes: seq<OrderNode>, freeHead: int, n: nat): seq<OrderNode>
    requires n < |nodes|
  {
    nodes[n := nodes[n].(active := false, previous := NO_INDEX, next := freeHead)]
  }

  function DroppedNodes(nodes: seq<OrderNode>, freeHead: int, n: nat): seq<OrderNode>
    requires n < |nodes| && nodes[n].previous < |nodes| && nodes[n].next < |nodes|
  {
    Released(Unlinked(nodes, n), freeHead, n)
  }

  function Left(level: LevelNode, node: OrderNode): LevelNode {
    LevelNode(level.price, level.total - node.order.quantity,
              if node.previous == NO_INDEX then node.next else level.head,
              if node.next == NO_INDEX then node.previous else level.tail, level.orderCount - 1)
  }

  /** The node at position `i` of a level's queue, with all a cancel needs to know about it. */
  ghost predicate Queued(p: Pool, side: Side, k: nat, i: nat, n: nat) {
    && ValidSide(side) && k < |p.Levels(side)|
    && i < |p.QueueAt(side, p.Levels(side)[k].price)| && p.QueueAt(side, p.Levels(side)[k].price)[i] == n
  }

  lemma QueuedNode(p: Pool, side: Side, k: nat, i: nat, n: nat)
    requires p.StorageOk() && Queued(p, side, k, i, n)
    ensures var level := p.Levels(side)[k]; var q := p.QueueAt(side, level.price);
      && level.price in p.Queues(side) && LevelOk(level, q, p.nodes, side) && LinkOk(p.nodes, q, i)
      && p.nodes[n].order.side == side && p.nodes[n].order.price == level.price
      && p.nodes[n].previous < |p.nodes| && p.nodes[n].next < |p.nodes|
  {
    LevelAtIndex(p, side, k);
    var q := p.QueueAt(side, p.Levels(side)[k].price);
    assert LinkOk(p.nodes, q, i);
  }

  lemma UnlinkedSame(nodes: seq<OrderNode>, n: nat)
    requires n < |nodes| && nodes[n].previous < |nodes| && nodes[n].next < |nodes|
    ensures var nodes' := Unlinked(nodes, n);
      && |nodes'| == |nodes|
      && (forall m :: 0 <= m < |nodes| ==> nodes'[m].order == nodes[m].order && nodes'[m].active == nodes[m].active)
      && (forall m :: 0 <= m < |nodes| && m != nodes[n].previous && m != nodes[n].next ==> nodes'[m] == nodes[m])
  {
  }

  /** Closing the links over a node and freeing it, as its own level sees it. */
  lemma DropLinks(p: Pool, side: Side, k: nat, i: nat, n: nat)
    requires p.StorageOk() && Queued(p, side, k, i, n)
    ensures n < |p.nodes| && p.nodes[n].previous < |p.nodes| && p.nodes[n].next < |p.nodes|
    ensures var level := p.Levels(side)[k]; var q := p.QueueAt(side, level.price);
            var nodes', left := DroppedNodes(p.nodes, p.freeHead, n), Left(level, p.nodes[n]);
      && Linked(nodes', Cut(q, i), left.head, left.tail) && left.orderCount == |Cut(q, i)|
      && OrdersAt(nodes', Cut(q, i)) == RemoveAt(OrdersAt(p.nodes, q), i)
  {
    QueuedNode(p, side, k, i, n);
    var level := p.Levels(side)[k];
    var q := p.QueueAt(side, level.price);
    UnlinkLinked(p.nodes, q, level.head, level.tail, i);
    CutEnds(q, i);
    ReleaseKeeps(Unlinked(p.nodes, n), p.freeHead, n, Cut(q, i), Left(level, p.nodes[n]).head,
                 Left(level, p.nodes[n]).tail);
  }

  lemma DropStep(p: Pool, side: Side, k: nat, i: nat, n: nat)
    requires p.StorageOk() && Queued(p, side, k, i, n)
    ensures n < |p.nodes| && p.nodes[n].previous < |p.nodes| && p.nodes[n].next < |p.nodes|
    ensures var level := p.Levels(side)[k]; var q := p.QueueAt(side, level.price);
            var nodes' := DroppedNodes(p.nodes, p.freeHead, n);
      && OthersKept(p.nodes, nodes', side, level.price)
      && FreeLinked(nodes', [n] + p.free, n)
      && LevelOk(Left(level, p.nodes[n]), Cut(q, i), nodes', side)
      && OrdersAt(nodes', Cut(q, i)) == RemoveAt(OrdersAt(p.nodes, q), i)
  {
    QueuedNode(p, side, k, i, n);
    DropLinks(p, side, k, i, n);
    TotalRemoveAt(OrdersAt(p.nodes, p.QueueAt(side, p.Levels(side)[k].price)), i);
    UnlinkedSame(p.nodes, n);
    NeighboursQueued(p, side, k, i, n);
    FreeSurvives(p.nodes, Unlinked(p.nodes, n), p.free, p.freeHead, n);
    LevelMembers(p, side, k, Cut(p.QueueAt(side, p.Levels(side)[k].price), i), DroppedNodes(p.nodes, p.freeHead, n));
  }

  lemma ReleaseKeeps(nodes: seq<OrderNode>, freeHead: int, n: nat, q: seq<nat>, head: int, tail: int)
    requires Linked(nodes, q, head, tail) && n < |nodes| && n !in q
    ensures Linked(Released(nodes, freeHead, n), q, head, tail)
    ensures OrdersAt(Released(nodes, freeHead, n), q) == OrdersAt(nodes, q)
  {
    forall i | 0 <= i < |q| ensures LinkOk(Released(nodes, freeHead, n), q, i) {
      assert LinkOk(nodes, q, i);
    }
    assert OrdersAt(Released(nodes, freeHead, n), q) == OrdersAt(nodes, q);
  }

  /** Unlinking touches only nodes that are in use, so the free list grows by exactly the released node. */
  lemma FreeSurvives(nodes: seq<OrderNode>, nodes': seq<OrderNode>, free: seq<nat>, freeHead: int, n: nat)
    requires FreeLinked(nodes, free, freeHead) && n < |nodes| && nodes[n].active && |nodes'| == |nodes|
    requires forall m :: 0 <= m < |nodes| && !nodes[m].active ==> nodes'[m] == nodes[m]
    ensures FreeLinked(Released(nodes', freeHead, n), [n] + free, n)
  {
    var free' := [n] + free;
    forall i | 0 <= i < |free'|
      ensures free'[i] < |nodes| && !Released(nodes', freeHead, n)[free'[i]].active
      ensures Released(nodes', freeHead, n)[free'[i]].next == Neighbour(free', i + 1)
    {
      if i > 0 {
        assert free'[i] == free[i - 1] && free[i - 1] != n;
      }
    }
  }

  lemma NeighboursQueued(p: Pool, side: Side, k: nat, i: nat, n: nat)
    requires p.StorageOk() && Queued(p, side, k, i, n)
    ensures n < |p.nodes| && p.nodes[n].active
    ensures forall m :: 0 <= m < |p.nodes| && (m == p.nodes[n].previous || m == p.nodes[n].next) ==>
      p.nodes[m].active && p.nodes[m].order.side == side && p.nodes[m].order.price == p.Levels(side)[k].price
  {
    QueuedNode(p, side, k, i, n);
    var q := p.QueueAt(side, p.Levels(side)[k].price);
    if i > 0 { assert LinkOk(p.nodes, q, i - 1); }
    if i + 1 < |q| { assert LinkOk(p.nodes, q, i + 1); }
  }

  lemma LevelMembers(p: Pool, side: Side, k: nat, q': seq<nat>, nodes': seq<OrderNode>)
    requires p.StorageOk() && ValidSide(side) && k < |p.Levels(side)| && |nodes'| == |p.nodes|
    requires forall m :: 0 <= m < |p.nodes| ==> nodes'[m].order == p.nodes[m].order
    requires forall m :: m in q' ==> m in p.QueueAt(side, p.Levels(side)[k].price)
    ensures forall j :: 0 <= j < |q'| ==> q'[j] < |nodes'| && nodes'[q'[j]].order.side == side && nodes'[q'[j]].order.price == p.Levels(side)[k].price
  {
    LevelAtIndex(p, side, k);
    var q := p.QueueAt(side, p.Levels(side)[k].price);
    forall j | 0 <= j < |q'|
      ensures q'[j] < |nodes'| && nodes'[q'[j]].order.side == side
      ensures nodes'[q'[j]].order.price == p.Levels(side)[k].price
    {
      assert q'[j] in q';
      var i :| 0 <= i < |q| && q[i] == q'[j];
      assert LinkOk(p.nodes, q, i);
    }
  }

  /** The pool after taking out the order at position `i` of level `k`. */
  ghost function Dropped(p: Pool, side: Side, k: nat, i: nat, n: nat): Pool
    requires Queued(p, side, k, i, n) && n < |p.nodes| && p.nodes[n].previous < |p.nodes| && p.nodes[n].next < |p.nodes|
  {
    var level := p.Levels(side)[k];
    var q := Cut(p.QueueAt(side, level.price), i);
    var left := Left(level, p.nodes[n]);
    p.(nodes := DroppedNodes(p.nodes, p.freeHead, n), freeHead := n, free := [n] + p.free, index := p.index - {p.nodes[n].order.orderId})
      .WithSide(side, if left.orderCount == 0 then Removed(p.Levels(side), k) else p.Levels(side)[k := left],
                if q == [] then p.Queues(side) - {level.price} else p.Queues(side)[level.price := q])
  }

  lemma DroppedLevels(p: Pool, side: Side, k: nat, i: nat, n: nat)
    requires p.StorageOk() && Queued(p, side, k, i, n)
    ensures n < |p.nodes| && p.nodes[n].previous < |p.nodes| && p.nodes[n].next < |p.nodes|
    ensures var d := Dropped(p, side, k, i, n);
      LevelsOk(d.bids, d.bidQueues, d.nodes, Buy) && LevelsOk(d.asks, d.askQueues, d.nodes, Sell) && FreeLinked(d.nodes, d.free, d.freeHead)
  {
    DropStep(p, side, k, i, n);
    var d, level := Dropped(p, side, k, i, n), p.Levels(side)[k];
    var left, q := Left(level, p.nodes[n]), Cut(p.QueueAt(side, level.price), i);
    LevelsMeet(p, side);
    LevelsMeet(p, Opposite(side));
    if left.orderCount == 0 {
      RemoveLevel(p.Levels(side), p.Queues(side), p.nodes, d.nodes, side, k);
    } else {
      UpdateLevel(p.Levels(side), p.Queues(side), p.nodes, d.nodes, side, k, left, q);
    }
    LevelsKept(p.Levels(Opposite(side)), p.Queues(Opposite(side)), p.nodes, d.nodes, Opposite(side), side, level.price);
  }

  lemma DroppedSame(p: Pool, n: nat)
    requires n < |p.nodes| && p.nodes[n].previous < |p.nodes| && p.nodes[n].next < |p.nodes|
    ensures var nodes' := DroppedNodes(p.nodes, p.freeHead, n);
      && |nodes'| == |p.nodes| && !nodes'[n].active
      && forall m :: 0 <= m < |p.nodes| ==> nodes'[m].order == p.nodes[m].order && (m != n ==> nodes'[m].active == p.nodes[m].active)
  {
    UnlinkedSame(p.nodes, n);
  }

  lemma DroppedPlaced(p: Pool, side: Side, k: nat, i: nat, n: nat)
    requires p.StorageOk() && Queued(p, side, k, i, n)
    ensures n < |p.nodes| && p.nodes[n].previous < |p.nodes| && p.nodes[n].next < |p.nodes|
    ensures var d := Dropped(p, side, k, i, n); forall m :: 0 <= m < |d.nodes| ==> d.Placed(m)
  {
    QueuedNode(p, side, k, i, n);
    DroppedSame(p, n);
    var d := Dropped(p, side, k, i, n);
    assert d.free[0] == n;
    forall m | 0 <= m < |d.nodes| && m != n ensures d.Placed(m) {
      assert p.Placed(m);
      if m in p.QueueAt(side, p.Levels(side)[k].price) {
        CutKeeps(p.QueueAt(side, p.Levels(side)[k].price), i, m);
      }
      ConsKeeps([n], p.free, m);
    }
  }

  lemma CutKeeps(q: seq<nat>, i: nat, m: nat)
    requires i < |q| && m in q && m != q[i]
    ensures m in Cut(q, i)
  {
    var j :| 0 <= j < |q| && q[j] == m;
    assert Cut(q, i)[if j < i then j else j - 1] == m;
  }

  lemma ConsKeeps(q: seq<nat>, q': seq<nat>, m: nat)
    ensures m in q || m in q' ==> m in q + q'
  {
  }

  lemma IndexShrinks(nodes: seq<OrderNode>, nodes': seq<OrderNode>, index: map<nat, nat>, n: nat)
    requires IndexMaps(nodes, index) && n < |nodes| && nodes[n].active && |nodes'| == |nodes| && !nodes'[n].active
    requires forall m :: 0 <= m < |nodes| && m != n ==> nodes'[m].active == nodes[m].active && nodes'[m].order == nodes[m].order
    ensures IndexMaps(nodes', index - {nodes[n].order.orderId})
    ensures |index - {nodes[n].order.orderId}| == |index| - 1
  {
    RemoveSize(index, nodes[n].order.orderId);
  }

  lemma DroppedOk(p: Pool, side: Side, k: nat, i: nat, n: nat)
    requires p.Ok() && Queued(p, side, k, i, n)
    ensures n < |p.nodes| && p.nodes[n].previous < |p.nodes| && p.nodes[n].next < |p.nodes|
    ensures Dropped(p, side, k, i, n).Ok()
    ensures (Dropped(p, side, k, i, n).View(), true) == Cancel(p.View(), p.nodes[n].order.orderId)
  {
    QueuedNode(p, side, k, i, n);
    DroppedLevels(p, side, k, i, n);
    DroppedPlaced(p, side, k, i, n);
    DroppedSame(p, n);
    IndexShrinks(p.nodes, DroppedNodes(p.nodes, p.freeHead, n), p.index, n);
    DroppedView(p, side, k, i, n);
    IndexedIffResting(p, p.nodes[n].order.orderId);
    DropSound(p.View(), p.nodes[n].order.orderId);
  }

  /** A queued node is at the same position of the abstract book. */
  lemma QueuedPosition(p: Pool, side: Side, k: nat, i: nat, n: nat)
    requires p.StorageOk() && Queued(p, side, k, i, n)
    ensures n < |p.nodes|
    ensures var price := p.Levels(side)[k].price;
      && In(p.View(), side, price, i) && Get(p.View(), side, price, i) == p.nodes[n].order
      && On(p.View(), side)[price] == OrdersAt(p.nodes, p.QueueAt(side, price))
  {
    QueuedNode(p, side, k, i, n);
    var price := p.Levels(side)[k].price;
    assert OrdersAt(p.nodes, p.QueueAt(side, price))[i] == p.nodes[n].order;
  }

  lemma DroppedQueues(p: Pool, side: Side, k: nat, i: nat, n: nat)
    requires Queued(p, side, k, i, n) && n < |p.nodes| && p.nodes[n].previous < |p.nodes| && p.nodes[n].next < |p.nodes|
    ensures var d, price := Dropped(p, side, k, i, n), p.Levels(side)[k].price; var q := Cut(p.QueueAt(side, price), i);
      && d.symbol == p.symbol && d.nodes == DroppedNodes(p.nodes, p.freeHead, n)
      && d.Queues(Opposite(side)) == p.Queues(Opposite(side))
      && d.Queues(side) == if q == [] then p.Queues(side) - {price} else p.Queues(side)[price := q]
  {
  }

  /** Only one queue of the abstract book changes. */
  lemma DroppedPosition(p: Pool, side: Side, k: nat, i: nat, n: nat)
    requires p.StorageOk() && Queued(p, side, k, i, n)
    ensures n < |p.nodes| && p.nodes[n].previous < |p.nodes| && p.nodes[n].next < |p.nodes|
    ensures var price := p.Levels(side)[k].price;
      Dropped(p, side, k, i, n).View()
        == With(p.View(), side, SetQueue(On(p.View(), side), price, RemoveAt(OrdersAt(p.nodes, p.QueueAt(side, price)), i)))
  {
    DropStep(p, side, k, i, n);
    DroppedQueues(p, side, k, i, n);
    var price := p.Levels(side)[k].price;
    var q := p.QueueAt(side, price);
    ViewChanges(p, Dropped(p, side, k, i, n), side, price, Cut(q, i), RemoveAt(OrdersAt(p.nodes, q), i));
  }

  lemma DroppedView(p: Pool, side: Side, k: nat, i: nat, n: nat)
    requires p.StorageOk() && Sound(p.View()) && Queued(p, side, k, i, n)
    ensures n < |p.nodes| && p.nodes[n].previous < |p.nodes| && p.nodes[n].next < |p.nodes|
    ensures Dropped(p, side, k, i, n).View() == Drop(p.View(), p.nodes[n].order.orderId)
  {
    QueuedPosition(p, side, k, i, n);
    DroppedPosition(p, side, k, i, n);
    DropIs(p.View(), side, p.Levels(side)[k].price, i);
  }

  // ----- reducing an order in place

  function TrimmedNodes(nodes: seq<OrderNode>, n: nat, quantity: int): seq<OrderNode>
    requires n < |nodes|
  {
    nodes[n := nodes[n].(order := nodes[n].order.(quantity := nodes[n].order.quantity - quantity))]
  }

  ghost function Trimmed(p: Pool, side: Side, k: nat, n: nat, quantity: int): Pool
    requires ValidSide(side) && k < |p.Levels(side)| && n < |p.nodes|
  {
    var level := p.Levels(side)[k];
    p.(nodes := TrimmedNodes(p.nodes, n, quantity))
      .WithSide(side, p.Levels(side)[k := level.(total := level.total - quantity)], p.Queues(side))
  }

  lemma TrimStep(p: Pool, side: Side, k: nat, i: nat, n: nat, quantity: int)
    requires p.StorageOk() && Queued(p, side, k, i, n)
    ensures n < |p.nodes|
    ensures var level := p.Levels(side)[k]; var q := p.QueueAt(side, level.price);
      var nodes' := TrimmedNodes(p.nodes, n, quantity);
      && OthersKept(p.nodes, nodes', side, level.price)
      && FreeLinked(nodes', p.free, p.freeHead)
      && LevelOk(level.(total := level.total - quantity), q, nodes', side)
      && OrdersAt(nodes', q) == OrdersAt(p.nodes, q)[i := nodes'[n].order]
  {
    QueuedNode(p, side, k, i, n);
    var level, nodes' := p.Levels(side)[k], TrimmedNodes(p.nodes, n, quantity);
    var q := p.QueueAt(side, level.price);
    forall j | 0 <= j < |q| ensures LinkOk(nodes', q, j) {
      assert LinkOk(p.nodes, q, j);
    }
    assert OrdersAt(nodes', q) == OrdersAt(p.nodes, q)[i := nodes'[n].order];
    TotalUpdate(OrdersAt(p.nodes, q), i, nodes'[n].order);
  }

  lemma TrimmedIndex(p: Pool, side: Side, k: nat, n: nat, quantity: int)
    requires p.IndexOk() && ValidSide(side) && k < |p.Levels(side)| && n < |p.nodes|
    ensures Trimmed(p, side, k, n, quantity).IndexOk()
  {
  }

  lemma TrimmedOk(p: Pool, side: Side, k: nat, i: nat, n: nat, quantity: int)
    requires p.Ok() && Queued(p, side, k, i, n) && n < |p.nodes| && 0 < quantity < p.nodes[n].order.quantity
    ensures Trimmed(p, side, k, n, quantity).Ok()
    ensures (Trimmed(p, side, k, n, quantity).View(), true) == Reduce(p.View(), p.nodes[n].order.orderId, quantity)
  {
    assert p.nodes[n].active by { QueuedNode(p, side, k, i, n); }
    TrimmedStorage(p, side, k, i, n, quantity);
    TrimmedIndex(p, side, k, n, quantity);
    TrimmedView(p, side, k, i, n, quantity);
    NodeIsFound(p, n);
    ShrinkSound(p.View(), p.nodes[n].order.orderId, quantity);
  }

  lemma TrimmedSide(levels: seq<LevelNode>, queues: Queues, nodes: seq<OrderNode>, nodes': seq<OrderNode>, side: Side,
                    k: nat, level: LevelNode)
    requires LevelsOk(levels, queues, nodes, side) && k < |levels| && level.price == levels[k].price
    requires level.price in queues && OthersKept(nodes, nodes', side, level.price)
    requires queues[level.price] != [] && LevelOk(level, queues[level.price], nodes', side)
    ensures LevelsOk(levels[k := level], queues, nodes', side)
  {
    UpdateLevel(levels, queues, nodes, nodes', side, k, level, queues[level.price]);
    assert queues[level.price := queues[level.price]] == queues;
  }

  lemma TrimmedLevels(p: Pool, side: Side, k: nat, i: nat, n: nat, quantity: int)
    requires p.StorageOk() && Queued(p, side, k, i, n) && n < |p.nodes|
    ensures var t := Trimmed(p, side, k, n, quantity);
      LevelsOk(t.bids, t.bidQueues, t.nodes, Buy) && LevelsOk(t.asks, t.askQueues, t.nodes, Sell)
  {
    TrimmedOwn(p, side, k, i, n, quantity);
    TrimmedOther(p, side, k, i, n, quantity);
    BothSides(Trimmed(p, side, k, n, quantity), side);
  }

  lemma TrimmedOwn(p: Pool, side: Side, k: nat, i: nat, n: nat, quantity: int)
    requires p.StorageOk() && Queued(p, side, k, i, n) && n < |p.nodes|
    ensures var t := Trimmed(p, side, k, n, quantity); LevelsOk(t.Levels(side), t.Queues(side), t.nodes, side)
  {
    LevelAtIndex(p, side, k);
    TrimStep(p, side, k, i, n, quantity);
    LevelsMeet(p, side);
    var level := p.Levels(side)[k];
    TrimmedSide(p.Levels(side), p.Queues(side), p.nodes, TrimmedNodes(p.nodes, n, quantity), side, k,
                level.(total := level.total - quantity));
  }

  lemma TrimmedOther(p: Pool, side: Side, k: nat, i: nat, n: nat, quantity: int)
    requires p.StorageOk() && Queued(p, side, k, i, n) && n < |p.nodes|
    ensures var t, other := Trimmed(p, side, k, n, quantity), Opposite(side);
      LevelsOk(t.Levels(other), t.Queues(other), t.nodes, other)
  {
    TrimStep(p, side, k, i, n, quantity);
    var other := Opposite(side);
    LevelsMeet(p, other);
    LevelsKept(p.Levels(other), p.Queues(other), p.nodes, TrimmedNodes(p.nodes, n, quantity), other, side,
               p.Levels(side)[k].price);
  }

  lemma TrimmedStorage(p: Pool, side: Side, k: nat, i: nat, n: nat, quantity: int)
    requires p.StorageOk() && Queued(p, side, k, i, n) && n < |p.nodes|
    ensures Trimmed(p, side, k, n, quantity).StorageOk()
  {
    TrimStep(p, side, k, i, n, quantity);
    TrimmedLevels(p, side, k, i, n, quantity);
    var t := Trimmed(p, side, k, n, quantity);
    forall m | 0 <= m < |t.nodes| ensures t.Placed(m) {
      assert p.Placed(m);
    }
  }

  /** Only one order of the abstract book changes, and only its quantity. */
  lemma TrimmedPosition(p: Pool, side: Side, k: nat, i: nat, n: nat, quantity: int)
    requires p.StorageOk() && Queued(p, side, k, i, n) && n < |p.nodes|
    ensures var price := p.Levels(side)[k].price; var o := p.nodes[n].order;
      Trimmed(p, side, k, n, quantity).View()
        == With(p.View(), side, SetQueue(On(p.View(), side), price, OrdersAt(p.nodes, p.QueueAt(side, price))[i := o.(quantity := o.quantity - quantity)]))
  {
    QueuedNode(p, side, k, i, n);
    TrimStep(p, side, k, i, n, quantity);
    var t, price := Trimmed(p, side, k, n, quantity), p.Levels(side)[k].price;
    var q := p.QueueAt(side, price);
    assert p.Queues(side)[price := q] == p.Queues(side);
    ViewChanges(p, t, side, price, q, OrdersAt(p.nodes, q)[i := t.nodes[n].order]);
  }

  lemma TrimmedView(p: Pool, side: Side, k: nat, i: nat, n: nat, quantity: int)
    requires p.StorageOk() && Sound(p.View()) && Queued(p, side, k, i, n) && n < |p.nodes|
    ensures Trimmed(p, side, k, n, quantity).View() == Shrink(p.View(), p.nodes[n].order.orderId, quantity)
  {
    QueuedPosition(p, side, k, i, n);
    TrimmedPosition(p, side, k, i, n, quantity);
    ShrinkIs(p.View(), side, p.Levels(side)[k].price, i, quantity);
  }

  lemma NodeIsFound(p: Pool, n: nat)
    requires p.StorageOk() && Sound(p.View()) && n < |p.nodes| && p.nodes[n].active
    ensures Has(p.View(), p.nodes[n].order.orderId) && Find(p.View(), p.nodes[n].order.orderId) == p.nodes[n].order
  {
    var o := p.nodes[n].order;
    assert p.Placed(n);
    var q := p.QueueAt(o.side, o.price);
    var i :| 0 <= i < |q| && q[i] == n;
    assert In(p.View(), o.side, o.price, i) && Get(p.View(), o.side, o.price, i) == o;
    FindIs(p.View(), o.side, o.price, i);
  }

  /** Where an active node is queued. */
  lemma NodeIsQueued(p: Pool, n: nat) returns (k: nat, i: nat)
    requires p.StorageOk() && n < |p.nodes| && p.nodes[n].active
    ensures Queued(p, p.nodes[n].order.side, k, i, n)
    ensures p.Levels(p.nodes[n].order.side)[k].price == p.nodes[n].order.price
  {
    var o := p.nodes[n].order;
    assert p.Placed(n);
    var q := p.QueueAt(o.side, o.price);
    i :| 0 <= i < |q| && q[i] == n;
    LevelsMeet(p, o.side);
    k :| 0 <= k < |p.Levels(o.side)| && p.Levels(o.side)[k].price == o.price;
  }

  // ----- the level vector against the abstract book

  function LevelPrices(levels: seq<LevelNode>): (ps: seq<int>)
    ensures |ps| == |levels| && forall i :: 0 <= i < |ps| ==> ps[i] == levels[i].price
  {
    seq(|levels|, i requires 0 <= i < |levels| => levels[i].price)
  }

  /** The level vector lists the side's prices in ranking order. */
  lemma LevelsRanked(p: Pool, side: Side)
    requires p.StorageOk() && ValidSide(side)
    ensures LevelPrices(p.Levels(side)) == Prices(On(p.View(), side), side)
  {
    LevelsMeet(p, side);
    var ps, keys := LevelPrices(p.Levels(side)), On(p.View(), side).Keys;
    forall i | 0 <= i < |ps| ensures ps[i] in keys {
      LevelAtIndex(p, side, i);
    }
    forall q | q in keys ensures q in ps {
      var k :| 0 <= k < |p.Levels(side)| && p.Levels(side)[k].price == q;
      assert ps[k] == q;
    }
    RankedIsUnique(side, keys, ps);
  }

  lemma LevelsWithinOrders(p: Pool, side: Side)
    requires p.Ok() && ValidSide(side)
    ensures |p.Levels(side)| <= |p.index|
  {
    LevelsRanked(p, side);
    forall price, i | In(p.View(), side, price, i) ensures Get(p.View(), side, price, i).orderId in p.index {
      QueuedIsActive(p, side, price, i);
    }
    LadderSize(p.View(), side, p.index.Keys);
  }
}
