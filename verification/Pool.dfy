/** The storage of the pooled book: level queues and a free list threaded through one vector of
    order nodes. Everything here is about the stored values; the class is in PooledOrderBook. */
module Pools {
  import opened Types
  import opened Ranking
  import opened Books

  // Every index is a vector position; the largest machine index stands for "none".
  const NO_INDEX := -1

  datatype LevelNode = LevelNode(price: int, total: int, head: int, tail: int, orderCount: int)
  datatype OrderNode = OrderNode(order: Order, previous: int, next: int, active: bool)

  type Queues = map<int, seq<nat>>

  // ----- doubly linked queues and the free list

  /** The node at position `i` of a queue, or none beyond its ends. */
  function Neighbour(q: seq<nat>, i: int): int {
    if 0 <= i < |q| then q[i] else NO_INDEX
  }

  ghost predicate Distinct(q: seq<nat>) {
    forall i, j :: 0 <= i < j < |q| ==> q[i] != q[j]
  }

  ghost predicate LinkOk(nodes: seq<OrderNode>, q: seq<nat>, i: int)
    requires 0 <= i < |q|
  {
    && q[i] < |nodes| && nodes[q[i]].active
    && nodes[q[i]].previous == Neighbour(q, i - 1) && nodes[q[i]].next == Neighbour(q, i + 1)
  }

  ghost predicate InPool(nodes: seq<OrderNode>, q: seq<nat>) {
    forall i :: 0 <= i < |q| ==> q[i] < |nodes|
  }

  /** Walking from `head` visits exactly the nodes of `q`, and walking back from `tail` undoes it. */
  ghost predicate Linked(nodes: seq<OrderNode>, q: seq<nat>, head: int, tail: int) {
    && head == Neighbour(q, 0) && tail == Neighbour(q, |q| - 1)
    && InPool(nodes, q) && Distinct(q)
    && forall i :: 0 <= i < |q| ==> LinkOk(nodes, q, i)
  }

  ghost predicate FreeLinked(nodes: seq<OrderNode>, free: seq<nat>, freeHead: int) {
    && freeHead == Neighbour(free, 0)
    && (forall i :: 0 <= i < |free| ==> free[i] < |nodes| && !nodes[free[i]].active && nodes[free[i]].next == Neighbour(free, i + 1))
    && Distinct(free)
  }

  const NO_ORDER := Order(0, 0, 0, NoSide, 0, 0, 0, 0)

  function OrderAt(nodes: seq<OrderNode>, n: nat): Order {
    if n < |nodes| then nodes[n].order else NO_ORDER
  }

  function OrdersAt(nodes: seq<OrderNode>, q: seq<nat>): Queue {
    seq(|q|, i requires 0 <= i < |q| => OrderAt(nodes, q[i]))
  }

  // ----- levels

  ghost predicate LevelOk(level: LevelNode, q: seq<nat>, nodes: seq<OrderNode>, side: Side) {
    && Linked(nodes, q, level.head, level.tail)
    && level.orderCount == |q|
    && level.total == Total(OrdersAt(nodes, q))
    && forall i :: 0 <= i < |q| ==> nodes[q[i]].order.side == side && nodes[q[i]].order.price == level.price
  }

  ghost predicate LevelFiled(level: LevelNode, queues: Queues, nodes: seq<OrderNode>, side: Side) {
    level.price in queues && queues[level.price] != [] && LevelOk(level, queues[level.price], nodes, side)
  }

  predicate Sorted(levels: seq<LevelNode>, side: Side) {
    forall i, j :: 0 <= i < j < |levels| ==> Better(side, levels[i].price, levels[j].price)
  }

  ghost predicate Covers(levels: seq<LevelNode>, queues: Queues) {
    forall p :: p in queues ==> exists k :: 0 <= k < |levels| && levels[k].price == p
  }

  /** The level vector is sorted best-first and holds one non-empty queue per price. */
  ghost predicate LevelsOk(levels: seq<LevelNode>, queues: Queues, nodes: seq<OrderNode>, side: Side) {
    && Sorted(levels, side)
    && (forall k :: 0 <= k < |levels| ==> LevelFiled(levels[k], queues, nodes, side))
    && Covers(levels, queues)
  }

  /** Nodes queued at other levels are untouched. */
  ghost predicate OthersKept(nodes: seq<OrderNode>, nodes': seq<OrderNode>, side: Side, price: int) {
    && |nodes| <= |nodes'|
    && forall n :: 0 <= n < |nodes| && nodes[n].active && (nodes[n].order.side != side || nodes[n].order.price != price) ==> nodes'[n] == nodes[n]
  }

  lemma LevelKept(level: LevelNode, q: seq<nat>, nodes: seq<OrderNode>, nodes': seq<OrderNode>, side: Side,
                  side': Side, price': int)
    requires LevelOk(level, q, nodes, side) && OthersKept(nodes, nodes', side', price') && (side != side' || level.price != price')
    ensures LevelOk(level, q, nodes', side)
    ensures OrdersAt(nodes', q) == OrdersAt(nodes, q)
  {
    forall i | 0 <= i < |q| ensures nodes'[q[i]] == nodes[q[i]] {
      assert LinkOk(nodes, q, i);
    }
    assert OrdersAt(nodes', q) == OrdersAt(nodes, q);
    forall i | 0 <= i < |q| ensures LinkOk(nodes', q, i) {
      assert LinkOk(nodes, q, i);
    }
  }

  lemma LevelsKept(levels: seq<LevelNode>, queues: Queues, nodes: seq<OrderNode>, nodes': seq<OrderNode>, side: Side,
                   side': Side, price': int)
    requires LevelsOk(levels, queues, nodes, side) && OthersKept(nodes, nodes', side', price') && side != side'
    ensures LevelsOk(levels, queues, nodes', side)
  {
    forall k | 0 <= k < |levels| ensures LevelFiled(levels[k], queues, nodes', side) {
      assert LevelFiled(levels[k], queues, nodes, side);
      LevelKept(levels[k], queues[levels[k].price], nodes, nodes', side, side', price');
    }
  }

  // ----- updating, inserting and removing a level

  lemma FiledKept(levels: seq<LevelNode>, queues: Queues, queues': Queues, nodes: seq<OrderNode>,
                  nodes': seq<OrderNode>,
                  side: Side, price: int, j: nat)
    requires LevelsOk(levels, queues, nodes, side) && OthersKept(nodes, nodes', side, price)
    requires j < |levels| && levels[j].price != price
    requires levels[j].price in queues' && queues'[levels[j].price] == queues[levels[j].price]
    ensures LevelFiled(levels[j], queues', nodes', side)
  {
    assert LevelFiled(levels[j], queues, nodes, side);
    LevelKept(levels[j], queues[levels[j].price], nodes, nodes', side, side, price);
  }

  lemma UpdateLevel(levels: seq<LevelNode>, queues: Queues, nodes: seq<OrderNode>, nodes': seq<OrderNode>, side: Side,
                    k: nat, level: LevelNode, q: seq<nat>)
    requires LevelsOk(levels, queues, nodes, side) && k < |levels| && levels[k].price == level.price
    requires OthersKept(nodes, nodes', side, level.price) && LevelOk(level, q, nodes', side) && q != []
    ensures LevelsOk(levels[k := level], queues[level.price := q], nodes', side)
  {
    var levels', queues' := levels[k := level], queues[level.price := q];
    forall j | 0 <= j < |levels'| ensures LevelFiled(levels'[j], queues', nodes', side) {
      if j != k {
        FiledKept(levels, queues, queues', nodes, nodes', side, level.price, j);
      }
    }
    forall p | p in queues' ensures exists j :: 0 <= j < |levels'| && levels'[j].price == p {
      var j :| 0 <= j < |levels| && levels[j].price == p;
      assert levels'[j].price == p;
    }
  }

  /** The first `k` levels are better than the price and the others worse. */
  predicate Gap(levels: seq<LevelNode>, side: Side, price: int, k: nat) {
    && k <= |levels|
    && (forall j :: 0 <= j < k ==> Better(side, levels[j].price, price))
    && (forall j :: k <= j < |levels| ==> Better(side, price, levels[j].price))
  }

  function Inserted(levels: seq<LevelNode>, k: nat, level: LevelNode): seq<LevelNode>
    requires k <= |levels|
  {
    levels[..k] + [level] + levels[k..]
  }

  lemma InsertedSorted(levels: seq<LevelNode>, side: Side, k: nat, level: LevelNode)
    requires Sorted(levels, side) && Gap(levels, side, level.price, k)
    ensures Sorted(Inserted(levels, k, level), side)
  {
  }

  lemma InsertedCovers(levels: seq<LevelNode>, queues: Queues, k: nat, level: LevelNode, q: seq<nat>)
    requires Covers(levels, queues) && k <= |levels|
    ensures Covers(Inserted(levels, k, level), queues[level.price := q])
  {
    var levels' := Inserted(levels, k, level);
    assert levels'[k].price == level.price;
    forall p | p in queues ensures exists j :: 0 <= j < |levels'| && levels'[j].price == p {
      var j :| 0 <= j < |levels| && levels[j].price == p;
      assert levels'[if j < k then j else j + 1].price == p;
    }
  }

  lemma GapIsNew(levels: seq<LevelNode>, queues: Queues, side: Side, price: int, k: nat)
    requires Covers(levels, queues) && Gap(levels, side, price, k)
    ensures price !in queues && forall j :: 0 <= j < |levels| ==> levels[j].price != price
  {
    assert forall j :: 0 <= j < |levels| ==> levels[j].price != price;
  }

  lemma InsertLevel(levels: seq<LevelNode>, queues: Queues, nodes: seq<OrderNode>, nodes': seq<OrderNode>, side: Side,
                    k: nat, level: LevelNode, q: seq<nat>)
    requires LevelsOk(levels, queues, nodes, side) && Gap(levels, side, level.price, k)
    requires OthersKept(nodes, nodes', side, level.price) && LevelOk(level, q, nodes', side) && q != []
    ensures level.price !in queues
    ensures LevelsOk(Inserted(levels, k, level), queues[level.price := q], nodes', side)
  {
    var levels', queues' := Inserted(levels, k, level), queues[level.price := q];
    GapIsNew(levels, queues, side, level.price, k);
    InsertedSorted(levels, side, k, level);
    InsertedCovers(levels, queues, k, level, q);
    forall j | 0 <= j < |levels| ensures LevelFiled(levels[j], queues', nodes', side) {
      assert LevelFiled(levels[j], queues, nodes, side);
      FiledKept(levels, queues, queues', nodes, nodes', side, level.price, j);
    }
    forall j | 0 <= j < |levels'| ensures LevelFiled(levels'[j], queues', nodes', side) {
      assert levels'[j] == if j == k then level else levels[if j < k then j else j - 1];
    }
  }

  function Removed(levels: seq<LevelNode>, k: nat): seq<LevelNode>
    requires k < |levels|
  {
    levels[..k] + levels[k + 1..]
  }

  lemma RemovedCovers(levels: seq<LevelNode>, queues: Queues, k: nat)
    requires Covers(levels, queues) && k < |levels|
    ensures Covers(Removed(levels, k), queues - {levels[k].price})
  {
    forall p | p in queues && p != levels[k].price
      ensures exists j :: 0 <= j < |levels| - 1 && Removed(levels, k)[j].price == p
    {
      var i :| 0 <= i < |levels| && levels[i].price == p;
      assert Removed(levels, k)[if i < k then i else i - 1].price == p;
    }
  }

  lemma RemovedSorted(levels: seq<LevelNode>, side: Side, k: nat)
    requires Sorted(levels, side) && k < |levels|
    ensures Sorted(Removed(levels, k), side)
  {
  }

  lemma RemoveLevel(levels: seq<LevelNode>, queues: Queues, nodes: seq<OrderNode>, nodes': seq<OrderNode>, side: Side,
                    k: nat)
    requires LevelsOk(levels, queues, nodes, side) && k < |levels| && OthersKept(nodes, nodes', side, levels[k].price)
    ensures LevelsOk(Removed(levels, k), queues - {levels[k].price}, nodes', side)
  {
    var price, queues' := levels[k].price, queues - {levels[k].price};
    RemovedSorted(levels, side, k);
    RemovedCovers(levels, queues, k);
    forall i | 0 <= i < |levels| - 1 ensures LevelFiled(Removed(levels, k)[i], queues', nodes', side) {
      var j := if i < k then i else i + 1;
      assert Removed(levels, k)[i] == levels[j] && LevelFiled(levels[j], queues, nodes, side);
      FiledKept(levels, queues, queues', nodes, nodes', side, price, j);
    }
  }

  // ----- rewiring links

  function Appended(nodes: seq<OrderNode>, tail: int, n: nat): seq<OrderNode>
    requires n < |nodes| && tail < |nodes|
  {
    var nodes' := nodes[n := nodes[n].(previous := tail, next := NO_INDEX)];
    if tail >= 0 then nodes'[tail := nodes'[tail].(next := n)] else nodes'
  }

  /** Appending a node to the back of a queue. */
  lemma AppendLinked(nodes: seq<OrderNode>, q: seq<nat>, head: int, tail: int, n: nat)
    requires Linked(nodes, q, head, tail) && n < |nodes| && nodes[n].active && n !in q
    ensures tail < |nodes| && Linked(Appended(nodes, tail, n), q + [n], if tail == NO_INDEX then n else head, n)
    ensures OrdersAt(Appended(nodes, tail, n), q + [n]) == OrdersAt(nodes, q) + [nodes[n].order]
  {
    var nodes', q' := Appended(nodes, tail, n), q + [n];
    forall i | 0 <= i < |q'| ensures LinkOk(nodes', q', i) {
      if i < |q| {
        assert LinkOk(nodes, q, i);
      }
    }
    assert OrdersAt(nodes', q') == OrdersAt(nodes, q) + [nodes[n].order];
  }

  function Cut(q: seq<nat>, i: nat): seq<nat>
    requires i < |q|
  {
    q[..i] + q[i + 1..]
  }

  function Unlinked(nodes: seq<OrderNode>, n: nat): seq<OrderNode>
    requires n < |nodes| && nodes[n].previous < |nodes| && nodes[n].next < |nodes|
  {
    var node := nodes[n];
    var nodes' := if node.previous >= 0 then nodes[node.previous := nodes[node.previous].(next := node.next)] else nodes;
    if node.next >= 0 then nodes'[node.next := nodes'[node.next].(previous := node.previous)] else nodes'
  }

  /** Rewiring around the node at position `i` gives each node that stays its new neighbours. */
  lemma UnlinkedLink(nodes: seq<OrderNode>, q: seq<nat>, head: int, tail: int, i: nat, j: nat)
    requires Linked(nodes, q, head, tail) && i < |q| && j < |Cut(q, i)|
    requires nodes[q[i]].previous < |nodes| && nodes[q[i]].next < |nodes|
    ensures LinkOk(Unlinked(nodes, q[i]), Cut(q, i), j)
    ensures Unlinked(nodes, q[i])[Cut(q, i)[j]].order == nodes[Cut(q, i)[j]].order
  {
    assert LinkOk(nodes, q, i);
    assert LinkOk(nodes, q, if j < i then j else j + 1);
  }

  /** What stays after a cut: distinct nodes of the same queue, between the ends the cut node leaves. */
  lemma CutEnds(q: seq<nat>, i: nat)
    requires Distinct(q) && i < |q|
    ensures Distinct(Cut(q, i)) && forall j :: 0 <= j < |q| - 1 ==> Cut(q, i)[j] == q[if j < i then j else j + 1]
    ensures Neighbour(Cut(q, i), 0) == if i == 0 then Neighbour(q, 1) else q[0]
    ensures Neighbour(Cut(q, i), |q| - 2) == if i == |q| - 1 then Neighbour(q, |q| - 2) else q[|q| - 1]
  {
  }

  lemma CutOrders(nodes: seq<OrderNode>, nodes': seq<OrderNode>, q: seq<nat>, i: nat)
    requires InPool(nodes, q) && i < |q| && |nodes'| == |nodes|
    requires forall m :: m in Cut(q, i) && m < |nodes| ==> nodes'[m].order == nodes[m].order
    ensures OrdersAt(nodes', Cut(q, i)) == RemoveAt(OrdersAt(nodes, q), i)
  {
    forall j | 0 <= j < |q| - 1 ensures OrdersAt(nodes', Cut(q, i))[j] == RemoveAt(OrdersAt(nodes, q), i)[j] {
      assert Cut(q, i)[j] in Cut(q, i);
    }
  }

  /** Taking the node at position `i` out of its queue. */
  lemma UnlinkLinked(nodes: seq<OrderNode>, q: seq<nat>, head: int, tail: int, i: nat)
    requires Linked(nodes, q, head, tail) && i < |q|
    ensures nodes[q[i]].previous < |nodes| && nodes[q[i]].next < |nodes|
    ensures var node := nodes[q[i]];
      Linked(Unlinked(nodes, q[i]), Cut(q, i), if node.previous == NO_INDEX then node.next else head,
             if node.next == NO_INDEX then node.previous else tail)
    ensures OrdersAt(Unlinked(nodes, q[i]), Cut(q, i)) == RemoveAt(OrdersAt(nodes, q), i)
  {
    assert LinkOk(nodes, q, i);
    var nodes', q' := Unlinked(nodes, q[i]), Cut(q, i);
    CutEnds(q, i);
    forall j | 0 <= j < |q'| ensures LinkOk(nodes', q', j) && nodes'[q'[j]].order == nodes[q'[j]].order {
      UnlinkedLink(nodes, q, head, tail, i, j);
    }
    CutOrders(nodes, nodes', q, i);
  }

  // ----- the whole pool

  function LadderOf(nodes: seq<OrderNode>, queues: Queues): Ladder {
    map p | p in queues :: OrdersAt(nodes, queues[p])
  }

  /** Active nodes and index entries correspond one to one. */
  ghost predicate IndexMaps(nodes: seq<OrderNode>, index: map<nat, nat>) {
    && (forall n :: 0 <= n < |nodes| && nodes[n].active ==> nodes[n].order.orderId in index && index[nodes[n].order.orderId] == n)
    && (forall id :: id in index ==> index[id] < |nodes| && nodes[index[id]].active && nodes[index[id]].order.orderId == id)
  }

  /** The fields of a pooled book, with the queues, the free list and the index contents they encode. */
  datatype Pool = Pool(symbol: nat, bids: seq<LevelNode>, asks: seq<LevelNode>, nodes: seq<OrderNode>, freeHead: int,
                       index: map<nat, nat>, ghost bidQueues: Queues, ghost askQueues: Queues, ghost free: seq<nat>) {
    function Levels(side: Side): seq<LevelNode> {
      if side == Buy then bids else asks
    }

    ghost function Queues(side: Side): Queues {
      if side == Buy then bidQueues else askQueues
    }

    ghost function QueueAt(side: Side, price: int): seq<nat> {
      if price in Queues(side) then Queues(side)[price] else []
    }

    ghost function WithSide(side: Side, levels: seq<LevelNode>, queues: Queues): Pool {
      if side == Buy then this.(bids := levels, bidQueues := queues) else this.(asks := levels, askQueues := queues)
    }

    ghost function View(): Book {
      Book(symbol, LadderOf(nodes, bidQueues), LadderOf(nodes, askQueues))
    }

    /** An active node is queued where its order belongs, and every other node is on the free list. */
    ghost predicate Placed(n: nat)
      requires n < |nodes|
    {
      if nodes[n].active then ValidSide(nodes[n].order.side) && n in QueueAt(nodes[n].order.side, nodes[n].order.price)
      else n in free
    }

    ghost predicate StorageOk() {
      && LevelsOk(bids, bidQueues, nodes, Buy)
      && LevelsOk(asks, askQueues, nodes, Sell)
      && FreeLinked(nodes, free, freeHead)
      && (forall n :: 0 <= n < |nodes| ==> Placed(n))
    }

    /** The index maps exactly the resting ids to their nodes. */
    ghost predicate IndexOk() {
      IndexMaps(nodes, index) && |nodes| == |index| + |free|
    }

    ghost predicate Ok() {
      StorageOk() && IndexOk() && Sound(View())
    }
  }
}
