/** The run-time invariant check of the pooled book: it walks every queue along its next links. What
    the check accepts is characterised for any stored fields whose walks end; on a cyclic chain the
    walk of the C++ code does not end either. */
module PoolChecks {
  import opened Types
  import opened Ranking
  import opened Books
  import opened Pools
  import opened PoolSteps
  import opened FlatOrderIndexes
  import opened PooledOrderBooks
  import Checks = BookChecks

  datatype PoolViolation =
    | LevelEmpty | LevelsUnsorted | NodeOutOfRange | NodeInactive | PreviousDiffers | QuantityNotPositive | DuplicateId
    | Misfiled | NotIndexed | IndexedElsewhere | TailDiffers | CountDiffers | TotalDiffers
    | IndexSizeDiffers | ActiveNotQueued | ActiveNotIndexed

  // ----- walking a queue

  /** The link followed to reach the i-th node of a walk. */
  function Reached(nodes: seq<OrderNode>, head: int, q: seq<nat>, i: nat): int
    requires i <= |q| && InPool(nodes, q)
  {
    if i == 0 then head else nodes[q[i - 1]].next
  }

  /** Following next links from the head visits exactly these nodes, then finds no node. */
  ghost predicate Walk(nodes: seq<OrderNode>, head: int, q: seq<nat>) {
    && InPool(nodes, q)
    && (forall i :: 0 <= i < |q| ==> Reached(nodes, head, q, i) == q[i])
    && !(0 <= Reached(nodes, head, q, |q|) < |nodes|)
  }

  function IdsAt(nodes: seq<OrderNode>, q: seq<nat>): seq<nat> {
    seq(|q|, i requires 0 <= i < |q| => OrderAt(nodes, q[i]).orderId)
  }

  function IdsAlong(nodes: seq<OrderNode>, walks: seq<seq<nat>>): seq<nat> {
    if walks == [] then [] else IdsAlong(nodes, walks[..|walks| - 1]) + IdsAt(nodes, walks[|walks| - 1])
  }

  // ----- what the check looks at, node by node and level by level

  ghost predicate NodeFine(nodes: seq<OrderNode>, index: map<nat, nat>, side: Side, price: int, q: seq<nat>, i: nat)
    requires i < |q| && InPool(nodes, q)
  {
    var node := nodes[q[i]];
    && node.active && node.previous == Neighbour(q, i - 1) && node.order.quantity > 0
    && node.order.side == side && node.order.price == price
    && node.order.orderId in index && index[node.order.orderId] == q[i]
  }

  ghost predicate NodesFine(nodes: seq<OrderNode>, index: map<nat, nat>, side: Side, price: int, q: seq<nat>, n: nat)
    requires n <= |q| && InPool(nodes, q)
  {
    forall i :: 0 <= i < n ==> NodeFine(nodes, index, side, price, q, i)
  }

  ghost predicate QueueFine(level: LevelNode, nodes: seq<OrderNode>, index: map<nat, nat>, side: Side, q: seq<nat>)
    requires InPool(nodes, q)
  {
    && level.orderCount != 0 && level.head != NO_INDEX && level.tail != NO_INDEX
    && NodesFine(nodes, index, side, level.price, q, |q|)
    && Reached(nodes, level.head, q, |q|) == NO_INDEX
    && level.tail == Neighbour(q, |q| - 1) && level.orderCount == |q| && level.total == Total(OrdersAt(nodes, q))
  }

  ghost predicate AllWalk(levels: seq<LevelNode>, nodes: seq<OrderNode>, walks: seq<seq<nat>>) {
    |walks| == |levels| && forall k :: 0 <= k < |levels| ==> Walk(nodes, levels[k].head, walks[k])
  }

  predicate InOrder(levels: seq<LevelNode>, side: Side, n: nat)
    requires n <= |levels|
  {
    forall k :: 0 < k < n ==> Better(side, levels[k - 1].price, levels[k].price)
  }

  ghost predicate QueuesFine(levels: seq<LevelNode>, nodes: seq<OrderNode>, index: map<nat, nat>, side: Side,
                             walks: seq<seq<nat>>, n: nat)
    requires AllWalk(levels, nodes, walks) && n <= |levels|
  {
    forall k :: 0 <= k < n ==> QueueFine(levels[k], nodes, index, side, walks[k])
  }

  // ----- the check itself

  /** One more order id of a queue. */
  lemma OneMoreId(nodes: seq<OrderNode>, q: seq<nat>, i: nat, before: set<nat>)
    requires i < |q| && InPool(nodes, q)
    ensures var id, earlier := nodes[q[i]].order.orderId, IdsAt(nodes, q[..i]);
      && Checks.DistinctFrom(IdsAt(nodes, q[..i + 1]), before)
           == (Checks.DistinctFrom(earlier, before) && id !in before + Checks.Seen(earlier))
      && Checks.Seen(IdsAt(nodes, q[..i + 1])) == Checks.Seen(earlier) + {id}
  {
    var id := nodes[q[i]].order.orderId;
    assert IdsAt(nodes, q[..i + 1]) == IdsAt(nodes, q[..i]) + [id];
    Checks.DistinctConcat(IdsAt(nodes, q[..i]), [id], before);
    assert [id][0] == id && Checks.Seen([id]) == {id};
  }

  lemma OneMoreTotal(nodes: seq<OrderNode>, q: seq<nat>, i: nat)
    requires i < |q| && InPool(nodes, q)
    ensures Total(OrdersAt(nodes, q[..i + 1])) == Total(OrdersAt(nodes, q[..i])) + nodes[q[i]].order.quantity
  {
    assert OrdersAt(nodes, q[..i + 1]) == OrdersAt(nodes, q[..i]) + [nodes[q[i]].order];
    TotalPush(OrdersAt(nodes, q[..i]), nodes[q[i]].order);
  }

  /** The first nodes of a walk pass, and no id among them was met before. */
  ghost predicate PassSoFar(nodes: seq<OrderNode>, index: map<nat, nat>, side: Side, price: int, q: seq<nat>,
                            before: set<nat>, n: nat)
    requires n <= |q| && InPool(nodes, q)
  {
    NodesFine(nodes, index, side, price, q, n) && Checks.DistinctFrom(IdsAt(nodes, q[..n]), before)
  }

  ghost function SeenTo(nodes: seq<OrderNode>, q: seq<nat>, before: set<nat>, n: nat): set<nat>
    requires n <= |q|
  {
    before + Checks.Seen(IdsAt(nodes, q[..n]))
  }

  function SumTo(nodes: seq<OrderNode>, q: seq<nat>, n: nat): int
    requires n <= |q|
  {
    Total(OrdersAt(nodes, q[..n]))
  }

  lemma OneMorePasses(nodes: seq<OrderNode>, index: map<nat, nat>, side: Side, price: int, q: seq<nat>,
                      before: set<nat>, n: nat)
    requires n < |q| && InPool(nodes, q)
    ensures PassSoFar(nodes, index, side, price, q, before, n + 1)
         == (PassSoFar(nodes, index, side, price, q, before, n) && NodeFine(nodes, index, side, price, q, n)
             && nodes[q[n]].order.orderId !in SeenTo(nodes, q, before, n))
    ensures SeenTo(nodes, q, before, n + 1) == SeenTo(nodes, q, before, n) + {nodes[q[n]].order.orderId}
    ensures SumTo(nodes, q, n + 1) == SumTo(nodes, q, n) + nodes[q[n]].order.quantity
  {
    OneMoreId(nodes, q, n, before);
    OneMoreTotal(nodes, q, n);
  }

  /** The conditions on one node of a queue, its id being new among them. */
  method CheckNode(nodes: seq<OrderNode>, index: FlatOrderIndex, side: Side, price: int, n: nat, previous: int,
                   seen: set<nat>,
                   ghost contents: map<nat, nat>, ghost q: seq<nat>, ghost i: nat) returns (found: seq<PoolViolation>)
    requires index.Valid() && index.contents == contents && n < |nodes|
    requires i < |q| && InPool(nodes, q) && q[i] == n && previous == Neighbour(q, i - 1)
    ensures (found == []) == (NodeFine(nodes, contents, side, price, q, i) && nodes[n].order.orderId !in seen)
  {
    var node := nodes[n];
    found := [];
    if !node.active { found := found + [NodeInactive]; }
    if node.previous != previous { found := found + [PreviousDiffers]; }
    if node.order.quantity <= 0 { found := found + [QuantityNotPositive]; }
    if node.order.orderId in seen { found := found + [DuplicateId]; }
    if node.order.side != side || node.order.price != price { found := found + [Misfiled]; }
    var indexed := index.Find(node.order.orderId);
    if indexed == None {
      found := found + [NotIndexed];
    } else if indexed.value != n {
      found := found + [IndexedElsewhere];
    }
  }

  /** The walk's end. */
  lemma WalkEnds(nodes: seq<OrderNode>, head: int, q: seq<nat>, before: set<nat>, i: nat)
    requires Walk(nodes, head, q) && i <= |q|
    ensures (i < |q|) == (0 <= Reached(nodes, head, q, i) < |nodes|)
    ensures SeenTo(nodes, q, before, |q|) == before + Checks.Seen(IdsAt(nodes, q))
    ensures SumTo(nodes, q, |q|) == Total(OrdersAt(nodes, q))
  {
    assert q[..|q|] == q;
  }

  /** One node of the walk. */
  method VisitNode(level: LevelNode, nodes: seq<OrderNode>, index: FlatOrderIndex, side: Side, n: nat, last: int,
                   earlier: seq<PoolViolation>, seen: set<nat>, sum: int,
                   ghost before: set<nat>, ghost contents: map<nat, nat>, ghost q: seq<nat>, ghost i: nat)
    returns (found: seq<PoolViolation>, seen': set<nat>, sum': int)
    requires index.Valid() && index.contents == contents && n < |nodes|
    requires i < |q| && InPool(nodes, q) && q[i] == n && last == Neighbour(q, i - 1)
    requires (earlier == []) == PassSoFar(nodes, contents, side, level.price, q, before, i)
    requires seen == SeenTo(nodes, q, before, i) && sum == SumTo(nodes, q, i)
    ensures (found == []) == PassSoFar(nodes, contents, side, level.price, q, before, i + 1)
    ensures seen' == SeenTo(nodes, q, before, i + 1) && sum' == SumTo(nodes, q, i + 1)
  {
    OneMorePasses(nodes, contents, side, level.price, q, before, i);
    var more := CheckNode(nodes, index, side, level.price, n, last, seen, contents, q, i);
    found := earlier + more;
    seen', sum' := seen + {nodes[n].order.orderId}, sum + nodes[n].order.quantity;
  }

  /** Walks one queue: the nodes, the ids seen on the way, and what the level says about them. */
  method CheckNodes(level: LevelNode, nodes: seq<OrderNode>, index: FlatOrderIndex, side: Side, before: set<nat>,
                    ghost contents: map<nat, nat>, ghost q: seq<nat>)
    returns (found: seq<PoolViolation>, seen: set<nat>, last: int, count: nat, sum: int)
    requires index.Valid() && index.contents == contents && Walk(nodes, level.head, q)
    ensures (found == []) == (PassSoFar(nodes, contents, side, level.price, q, before, |q|) && Reached(nodes, level.head, q, |q|) == NO_INDEX)
    ensures seen == SeenTo(nodes, q, before, |q|) && last == Neighbour(q, |q| - 1) && count == |q|
    ensures sum == SumTo(nodes, q, |q|)
  {
    found, seen, last, count, sum := [], before, NO_INDEX, 0, 0;
    var n := level.head;
    while n != NO_INDEX
      invariant count <= |q| && n == Reached(nodes, level.head, q, count) && last == Neighbour(q, count - 1)
      invariant (found == []) == PassSoFar(nodes, contents, side, level.price, q, before, count)
      invariant seen == SeenTo(nodes, q, before, count) && sum == SumTo(nodes, q, count)
      decreases |q| - count
    {
      WalkEnds(nodes, level.head, q, before, count);
      if !(0 <= n < |nodes|) {
        found := found + [NodeOutOfRange];
        return;
      }
      found, seen, sum := VisitNode(level, nodes, index, side, n, last, found, seen, sum, before, contents, q, count);
      count, last, n := count + 1, n, nodes[n].next;
    }
    WalkEnds(nodes, level.head, q, before, count);
  }

  method CheckLevel(level: LevelNode, nodes: seq<OrderNode>, index: FlatOrderIndex, side: Side, before: set<nat>,
                    ghost contents: map<nat, nat>, ghost q: seq<nat>) returns (found: seq<PoolViolation>, seen: set<nat>)
    requires index.Valid() && index.contents == contents && Walk(nodes, level.head, q)
    ensures (found == []) == (QueueFine(level, nodes, contents, side, q) && Checks.DistinctFrom(IdsAt(nodes, q), before))
    ensures seen == before + Checks.Seen(IdsAt(nodes, q))
  {
    assert q[..|q|] == q;
    WalkEnds(nodes, level.head, q, before, 0);
    var last, count, sum;
    found, seen, last, count, sum := CheckNodes(level, nodes, index, side, before, contents, q);
    if level.orderCount == 0 || level.head == NO_INDEX || level.tail == NO_INDEX { found := [LevelEmpty] + found; }
    if last != level.tail { found := found + [TailDiffers]; }
    if count != level.orderCount { found := found + [CountDiffers]; }
    if sum != level.total { found := found + [TotalDiffers]; }
  }

  lemma OneMoreWalk(nodes: seq<OrderNode>, walks: seq<seq<nat>>, k: nat, before: set<nat>)
    requires k < |walks|
    ensures var earlier, ids := IdsAlong(nodes, walks[..k]), IdsAt(nodes, walks[k]);
      && Checks.DistinctFrom(IdsAlong(nodes, walks[..k + 1]), before)
           == (Checks.DistinctFrom(earlier, before) && Checks.DistinctFrom(ids, before + Checks.Seen(earlier)))
      && Checks.Seen(IdsAlong(nodes, walks[..k + 1])) == Checks.Seen(earlier) + Checks.Seen(ids)
  {
    assert walks[..k + 1][..k] == walks[..k];
    Checks.DistinctConcat(IdsAlong(nodes, walks[..k]), IdsAt(nodes, walks[k]), before);
  }

  ghost predicate SidePassesSoFar(levels: seq<LevelNode>, nodes: seq<OrderNode>, index: map<nat, nat>, side: Side,
                                  walks: seq<seq<nat>>, before: set<nat>, n: nat)
    requires AllWalk(levels, nodes, walks) && n <= |levels|
  {
    QueuesFine(levels, nodes, index, side, walks, n) && InOrder(levels, side, n) && Checks.DistinctFrom(IdsAlong(nodes, walks[..n]), before)
  }

  lemma OneMoreLevelPasses(levels: seq<LevelNode>, nodes: seq<OrderNode>, index: map<nat, nat>, side: Side,
                           walks: seq<seq<nat>>, before: set<nat>, k: nat)
    requires AllWalk(levels, nodes, walks) && k < |levels|
    ensures SidePassesSoFar(levels, nodes, index, side, walks, before, k + 1)
         == (SidePassesSoFar(levels, nodes, index, side, walks, before, k)
             && (k > 0 ==> Better(side, levels[k - 1].price, levels[k].price)) && QueueFine(levels[k], nodes, index, side, walks[k])
             && Checks.DistinctFrom(IdsAt(nodes, walks[k]), before + Checks.Seen(IdsAlong(nodes, walks[..k]))))
  {
    OneMoreWalk(nodes, walks, k, before);
    OneMoreQueue(levels, nodes, index, side, walks, k);
    OneMoreInOrder(levels, side, k);
  }

  lemma OneMoreQueue(levels: seq<LevelNode>, nodes: seq<OrderNode>, index: map<nat, nat>, side: Side,
                     walks: seq<seq<nat>>, k: nat)
    requires AllWalk(levels, nodes, walks) && k < |levels|
    ensures QueuesFine(levels, nodes, index, side, walks, k + 1)
         == (QueuesFine(levels, nodes, index, side, walks, k) && QueueFine(levels[k], nodes, index, side, walks[k]))
  {
  }

  lemma OneMoreInOrder(levels: seq<LevelNode>, side: Side, k: nat)
    requires k < |levels|
    ensures InOrder(levels, side, k + 1) == (InOrder(levels, side, k) && (k > 0 ==> Better(side, levels[k - 1].price, levels[k].price)))
  {
  }

  /** Two neighbouring levels in the order of the side. */
  method CheckOrder(side: Side, previous: LevelNode, level: LevelNode) returns (found: seq<PoolViolation>)
    requires ValidSide(side)
    ensures (found == []) == Better(side, previous.price, level.price)
  {
    found := [];
    if side == Buy && previous.price <= level.price { found := found + [LevelsUnsorted]; }
    if side == Sell && previous.price >= level.price { found := found + [LevelsUnsorted]; }
  }

  /** Every level of one side, in order. */
  method CheckSide(side: Side, levels: seq<LevelNode>, nodes: seq<OrderNode>, index: FlatOrderIndex, before: set<nat>,
                   ghost contents: map<nat, nat>, ghost walks: seq<seq<nat>>) returns (found: seq<PoolViolation>, seen: set<nat>)
    requires ValidSide(side) && index.Valid() && index.contents == contents && AllWalk(levels, nodes, walks)
    ensures (found == []) == SidePassesSoFar(levels, nodes, contents, side, walks, before, |levels|)
    ensures seen == before + Checks.Seen(IdsAlong(nodes, walks))
  {
    found, seen := [], before;
    for k := 0 to |levels|
      invariant (found == []) == SidePassesSoFar(levels, nodes, contents, side, walks, before, k)
      invariant seen == before + Checks.Seen(IdsAlong(nodes, walks[..k]))
    {
      OneMoreLevelPasses(levels, nodes, contents, side, walks, before, k);
      OneMoreWalk(nodes, walks, k, before);
      if k > 0 {
        var unsorted := CheckOrder(side, levels[k - 1], levels[k]);
        found := found + unsorted;
      }
      var more;
      more, seen := CheckLevel(levels[k], nodes, index, side, seen, contents, walks[k]);
      found := found + more;
    }
    assert walks[..|levels|] == walks;
  }

  ghost predicate ActiveFine(nodes: seq<OrderNode>, index: map<nat, nat>, seen: set<nat>, n: nat)
    requires n <= |nodes|
  {
    forall m :: 0 <= m < n && nodes[m].active ==>
      nodes[m].order.orderId in seen && nodes[m].order.orderId in index && index[nodes[m].order.orderId] == m
  }

  /** Every active node must have been met in a queue and be where the index says. */
  method CheckActive(nodes: seq<OrderNode>, index: FlatOrderIndex, seen: set<nat>, ghost contents: map<nat, nat>)
    returns (found: seq<PoolViolation>)
    requires index.Valid() && index.contents == contents
    ensures (found == []) == (|seen| == |contents| && ActiveFine(nodes, contents, seen, |nodes|))
  {
    found := [];
    if |seen| != index.size { found := found + [IndexSizeDiffers]; }
    for n := 0 to |nodes|
      invariant (found == []) == (|seen| == |contents| && ActiveFine(nodes, contents, seen, n))
    {
      if nodes[n].active {
        if nodes[n].order.orderId !in seen { found := found + [ActiveNotQueued]; }
        var indexed := index.Find(nodes[n].order.orderId);
        if indexed == None || indexed.value != n { found := found + [ActiveNotIndexed]; }
      }
    }
  }

  // ----- what the check accepts

  /** Levels sorted best-first, each with a queue properly linked in both directions, of orders that
      belong there and have something left, counted and totalled right. */
  ghost predicate SideRight(levels: seq<LevelNode>, nodes: seq<OrderNode>, side: Side, walks: seq<seq<nat>>) {
    && Sorted(levels, side) && |walks| == |levels|
    && forall k :: 0 <= k < |levels| ==> LevelRight(levels[k], nodes, side, walks[k])
  }

  ghost predicate LevelRight(level: LevelNode, nodes: seq<OrderNode>, side: Side, q: seq<nat>) {
    q != [] && LevelOk(level, q, nodes, side) && forall i :: 0 <= i < |q| ==> nodes[q[i]].order.quantity > 0
  }

  ghost predicate QueuedIn(n: nat, walks: seq<seq<nat>>) {
    exists k :: 0 <= k < |walks| && n in walks[k]
  }

  /** Both sides right, every active node in a queue, and an index of exactly the active nodes. */
  ghost predicate Right(bids: seq<LevelNode>, asks: seq<LevelNode>, nodes: seq<OrderNode>, index: map<nat, nat>,
                        bidWalks: seq<seq<nat>>, askWalks: seq<seq<nat>>) {
    && SideRight(bids, nodes, Buy, bidWalks) && SideRight(asks, nodes, Sell, askWalks) && IndexMaps(nodes, index)
    && forall n :: 0 <= n < |nodes| && nodes[n].active ==> QueuedIn(n, bidWalks) || QueuedIn(n, askWalks)
  }

  // ----- the parts of the verdict

  lemma {:induction false} OrderedIsSorted(levels: seq<LevelNode>, side: Side)
    ensures InOrder(levels, side, |levels|) == Sorted(levels, side)
  {
    if levels != [] {
      var init := levels[..|levels| - 1];
      OrderedIsSorted(init, side);
      if InOrder(levels, side, |levels|) {
        forall k | 0 < k < |init| ensures Better(side, init[k - 1].price, init[k].price) {
          assert Better(side, levels[k - 1].price, levels[k].price);
        }
        forall i | 0 <= i < |init| ensures Better(side, levels[i].price, levels[|init|].price) {
          assert Better(side, levels[|init| - 1].price, levels[|init|].price);
          assert i < |init| - 1 ==> Better(side, init[i].price, init[|init| - 1].price);
        }
      }
    }
  }

  ghost predicate IndexedAt(nodes: seq<OrderNode>, index: map<nat, nat>, q: seq<nat>) {
    forall i :: 0 <= i < |q| ==> OrderAt(nodes, q[i]).orderId in index && index[OrderAt(nodes, q[i]).orderId] == q[i]
  }

  lemma FineLink(level: LevelNode, nodes: seq<OrderNode>, index: map<nat, nat>, side: Side, q: seq<nat>, i: nat)
    requires Walk(nodes, level.head, q) && QueueFine(level, nodes, index, side, q) && i < |q|
    ensures LinkOk(nodes, q, i) && nodes[q[i]].order.side == side && nodes[q[i]].order.price == level.price
    ensures nodes[q[i]].order.quantity > 0
    ensures nodes[q[i]].order.orderId in index && index[nodes[q[i]].order.orderId] == q[i]
  {
    assert NodeFine(nodes, index, side, level.price, q, i);
    if i + 1 < |q| {
      assert Reached(nodes, level.head, q, i + 1) == q[i + 1];
    }
  }

  /** What the walk checks is what a right level is, for a walk that meets no id twice. */
  lemma FineIsRight(level: LevelNode, nodes: seq<OrderNode>, index: map<nat, nat>, side: Side, q: seq<nat>)
    requires Walk(nodes, level.head, q) && QueueFine(level, nodes, index, side, q)
    requires Checks.DistinctFrom(IdsAt(nodes, q), {})
    ensures LevelRight(level, nodes, side, q) && IndexedAt(nodes, index, q)
  {
    var ids := IdsAt(nodes, q);
    forall i, j | 0 <= i < j < |q| ensures q[i] != q[j] {
      assert ids[i] != ids[j];
    }
    forall i | 0 <= i < |q|
      ensures LinkOk(nodes, q, i) && nodes[q[i]].order.side == side && nodes[q[i]].order.price == level.price
      ensures nodes[q[i]].order.quantity > 0
      ensures OrderAt(nodes, q[i]).orderId in index && index[OrderAt(nodes, q[i]).orderId] == q[i]
    {
      FineLink(level, nodes, index, side, q, i);
    }
    assert Reached(nodes, level.head, q, 0) == level.head;
  }

  lemma RightLink(level: LevelNode, nodes: seq<OrderNode>, index: map<nat, nat>, side: Side, q: seq<nat>, i: nat)
    requires LevelRight(level, nodes, side, q) && IndexMaps(nodes, index) && i < |q|
    ensures InPool(nodes, q) && NodeFine(nodes, index, side, level.price, q, i)
    ensures Reached(nodes, level.head, q, i) == q[i]
  {
    assert LinkOk(nodes, q, i);
    if i > 0 { assert LinkOk(nodes, q, i - 1); }
  }

  lemma RightIsFine(level: LevelNode, nodes: seq<OrderNode>, index: map<nat, nat>, side: Side, q: seq<nat>)
    requires LevelRight(level, nodes, side, q) && IndexMaps(nodes, index)
    ensures Walk(nodes, level.head, q) && QueueFine(level, nodes, index, side, q)
  {
    forall i | 0 <= i < |q|
      ensures NodeFine(nodes, index, side, level.price, q, i) && Reached(nodes, level.head, q, i) == q[i]
    {
      RightLink(level, nodes, index, side, q, i);
    }
    RightEnds(level, nodes, side, q);
  }

  lemma RightEnds(level: LevelNode, nodes: seq<OrderNode>, side: Side, q: seq<nat>)
    requires LevelRight(level, nodes, side, q)
    ensures InPool(nodes, q) && Reached(nodes, level.head, q, |q|) == NO_INDEX
    ensures level.orderCount != 0 && level.head != NO_INDEX && level.tail != NO_INDEX
  {
    assert LinkOk(nodes, q, |q| - 1);
  }

  lemma RightIsDistinct(level: LevelNode, nodes: seq<OrderNode>, index: map<nat, nat>, side: Side, q: seq<nat>)
    requires LevelRight(level, nodes, side, q) && IndexMaps(nodes, index)
    ensures Checks.DistinctFrom(IdsAt(nodes, q), {})
  {
    var ids := IdsAt(nodes, q);
    forall i, j | 0 <= i < j < |q| ensures ids[i] != ids[j] {
      assert q[i] != q[j] && LinkOk(nodes, q, i) && LinkOk(nodes, q, j);
    }
  }

  /** The id is met at some position of the walks. */
  ghost predicate Met(nodes: seq<OrderNode>, walks: seq<seq<nat>>, id: nat, n: nat) {
    QueuedIn(n, walks) && OrderAt(nodes, n).orderId == id
  }

  lemma QueuedInMore(n: nat, walks: seq<seq<nat>>)
    requires walks != []
    ensures QueuedIn(n, walks) == (QueuedIn(n, walks[..|walks| - 1]) || n in walks[|walks| - 1])
  {
    var init := walks[..|walks| - 1];
    if QueuedIn(n, init) {
      var k :| 0 <= k < |init| && n in init[k];
      assert n in walks[k];
    }
    if QueuedIn(n, walks) {
      var k :| 0 <= k < |walks| && n in walks[k];
      assert k < |init| ==> n in init[k];
    }
  }

  lemma IdsOfQueue(nodes: seq<OrderNode>, q: seq<nat>, id: nat)
    ensures id in Checks.Seen(IdsAt(nodes, q)) <==> exists n :: n in q && OrderAt(nodes, n).orderId == id
  {
    if id in Checks.Seen(IdsAt(nodes, q)) {
      var i :| 0 <= i < |q| && IdsAt(nodes, q)[i] == id;
      assert q[i] in q;
    }
    if n :| n in q && OrderAt(nodes, n).orderId == id {
      var i :| 0 <= i < |q| && q[i] == n;
      assert IdsAt(nodes, q)[i] == id;
    }
  }

  lemma {:induction false} SeenIsMet(nodes: seq<OrderNode>, walks: seq<seq<nat>>, id: nat)
    ensures id in Checks.Seen(IdsAlong(nodes, walks)) <==> exists n :: Met(nodes, walks, id, n)
  {
    if walks != [] {
      var init, q := walks[..|walks| - 1], walks[|walks| - 1];
      SeenIsMet(nodes, init, id);
      IdsOfQueue(nodes, q, id);
      Checks.DistinctConcat(IdsAlong(nodes, init), IdsAt(nodes, q), {});
      forall n
        ensures Met(nodes, walks, id, n) == (Met(nodes, init, id, n) || (n in q && OrderAt(nodes, n).orderId == id))
      {
        QueuedInMore(n, walks);
      }
    }
  }

  /** Ids met once along all walks are met once along each. */
  lemma {:induction false} EachDistinct(nodes: seq<OrderNode>, walks: seq<seq<nat>>, before: set<nat>)
    requires Checks.DistinctFrom(IdsAlong(nodes, walks), before)
    ensures forall k :: 0 <= k < |walks| ==> Checks.DistinctFrom(IdsAt(nodes, walks[k]), {})
  {
    if walks != [] {
      var init, last := walks[..|walks| - 1], walks[|walks| - 1];
      Checks.DistinctConcat(IdsAlong(nodes, init), IdsAt(nodes, last), before);
      EachDistinct(nodes, init, before);
      forall k | 0 <= k < |walks| ensures Checks.DistinctFrom(IdsAt(nodes, walks[k]), {}) {
        assert k < |init| ==> walks[k] == init[k];
      }
    }
  }

  ghost predicate SideFine(levels: seq<LevelNode>, nodes: seq<OrderNode>, index: map<nat, nat>, side: Side,
                           walks: seq<seq<nat>>) {
    AllWalk(levels, nodes, walks) && QueuesFine(levels, nodes, index, side, walks, |levels|) && InOrder(levels, side, |levels|)
  }

  ghost predicate AllIndexed(nodes: seq<OrderNode>, index: map<nat, nat>, walks: seq<seq<nat>>) {
    forall n: nat :: QueuedIn(n, walks) ==> n < |nodes| && nodes[n].active && nodes[n].order.orderId in index && index[nodes[n].order.orderId] == n
  }

  lemma SideIsRight(levels: seq<LevelNode>, nodes: seq<OrderNode>, index: map<nat, nat>, side: Side,
                    walks: seq<seq<nat>>, before: set<nat>)
    requires SideFine(levels, nodes, index, side, walks) && Checks.DistinctFrom(IdsAlong(nodes, walks), before)
    ensures SideRight(levels, nodes, side, walks) && AllIndexed(nodes, index, walks)
  {
    OrderedIsSorted(levels, side);
    EachDistinct(nodes, walks, before);
    forall k | 0 <= k < |levels|
      ensures LevelRight(levels[k], nodes, side, walks[k]) && IndexedAt(nodes, index, walks[k])
    {
      FineIsRight(levels[k], nodes, index, side, walks[k]);
    }
    forall n: nat | QueuedIn(n, walks)
      ensures n < |nodes| && nodes[n].active && nodes[n].order.orderId in index && index[nodes[n].order.orderId] == n
    {
      var k :| 0 <= k < |walks| && n in walks[k];
      var i :| 0 <= i < |walks[k]| && walks[k][i] == n;
      assert LevelRight(levels[k], nodes, side, walks[k]) && LinkOk(nodes, walks[k], i);
    }
  }

  /** Which level a queued node belongs to. */
  lemma QueuedBelongs(levels: seq<LevelNode>, nodes: seq<OrderNode>, side: Side, walks: seq<seq<nat>>, k: nat, n: nat)
    requires SideRight(levels, nodes, side, walks) && k < |walks| && n in walks[k]
    ensures n < |nodes| && nodes[n].active && nodes[n].order.side == side && nodes[n].order.price == levels[k].price
  {
    var i :| 0 <= i < |walks[k]| && walks[k][i] == n;
    assert LevelRight(levels[k], nodes, side, walks[k]) && LinkOk(nodes, walks[k], i);
  }

  lemma {:induction false} WalksDistinct(levels: seq<LevelNode>, nodes: seq<OrderNode>, index: map<nat, nat>,
                                         side: Side,
                                         walks: seq<seq<nat>>, n: nat)
    requires SideRight(levels, nodes, side, walks) && IndexMaps(nodes, index) && n <= |walks|
    ensures Checks.DistinctFrom(IdsAlong(nodes, walks[..n]), {})
    decreases n
  {
    if n > 0 {
      var m, q := n - 1, walks[n - 1];
      WalksDistinct(levels, nodes, index, side, walks, m);
      OneMoreWalk(nodes, walks, m, {});
      assert LevelRight(levels[m], nodes, side, q);
      RightIsDistinct(levels[m], nodes, index, side, q);
      var ids := IdsAt(nodes, q);
      forall i | 0 <= i < |q| ensures ids[i] !in {} + Checks.Seen(IdsAlong(nodes, walks[..m])) {
        SeenIsMet(nodes, walks[..m], ids[i]);
        if n' :| Met(nodes, walks[..m], ids[i], n') {
          var k :| 0 <= k < m && n' in walks[..m][k];
          QueuedBelongs(levels, nodes, side, walks, k, n');
          assert q[i] in q;
          QueuedBelongs(levels, nodes, side, walks, m, q[i]);
        }
      }
    }
  }

  lemma SideIsFine(levels: seq<LevelNode>, nodes: seq<OrderNode>, index: map<nat, nat>, side: Side,
                   walks: seq<seq<nat>>)
    requires SideRight(levels, nodes, side, walks) && IndexMaps(nodes, index)
    ensures SideFine(levels, nodes, index, side, walks) && Checks.DistinctFrom(IdsAlong(nodes, walks), {})
  {
    OrderedIsSorted(levels, side);
    forall k | 0 <= k < |levels|
      ensures Walk(nodes, levels[k].head, walks[k]) && QueueFine(levels[k], nodes, index, side, walks[k])
    {
      assert LevelRight(levels[k], nodes, side, walks[k]);
      RightIsFine(levels[k], nodes, index, side, walks[k]);
    }
    WalksDistinct(levels, nodes, index, side, walks, |walks|);
    assert walks[..|walks|] == walks;
  }

  /** The verdict of the whole check, from the verdicts of its parts. */
  ghost predicate PartsPass(bids: seq<LevelNode>, asks: seq<LevelNode>, nodes: seq<OrderNode>, index: map<nat, nat>,
                            bidWalks: seq<seq<nat>>, askWalks: seq<seq<nat>>, first: set<nat>, seen: set<nat>)
  {
    && SideFine(bids, nodes, index, Buy, bidWalks) && Checks.DistinctFrom(IdsAlong(nodes, bidWalks), {})
    && SideFine(asks, nodes, index, Sell, askWalks) && Checks.DistinctFrom(IdsAlong(nodes, askWalks), first)
    && |seen| == |index| && ActiveFine(nodes, index, seen, |nodes|)
  }

  ghost predicate MetOn(nodes: seq<OrderNode>, bidWalks: seq<seq<nat>>, askWalks: seq<seq<nat>>, id: nat, n: nat) {
    Met(nodes, bidWalks, id, n) || Met(nodes, askWalks, id, n)
  }

  ghost predicate SeenOn(nodes: seq<OrderNode>, bidWalks: seq<seq<nat>>, askWalks: seq<seq<nat>>, seen: set<nat>) {
    forall id :: id in seen <==> exists n :: MetOn(nodes, bidWalks, askWalks, id, n)
  }

  lemma SeenOnBoth(nodes: seq<OrderNode>, bidWalks: seq<seq<nat>>, askWalks: seq<seq<nat>>)
    ensures SeenOn(nodes, bidWalks, askWalks, Checks.Seen(IdsAlong(nodes, bidWalks)) + Checks.Seen(IdsAlong(nodes, askWalks)))
  {
    var seen := Checks.Seen(IdsAlong(nodes, bidWalks)) + Checks.Seen(IdsAlong(nodes, askWalks));
    forall id ensures id in seen <==> exists n :: MetOn(nodes, bidWalks, askWalks, id, n) {
      SeenIsMet(nodes, bidWalks, id);
      SeenIsMet(nodes, askWalks, id);
      if n :| Met(nodes, bidWalks, id, n) { assert MetOn(nodes, bidWalks, askWalks, id, n); }
      if n :| Met(nodes, askWalks, id, n) { assert MetOn(nodes, bidWalks, askWalks, id, n); }
    }
  }

  /** As many ids as the index has, each indexed at the node that carries it: the index holds just these. */
  lemma CountedIndex(nodes: seq<OrderNode>, index: map<nat, nat>, bidWalks: seq<seq<nat>>, askWalks: seq<seq<nat>>,
                     seen: set<nat>)
    requires AllIndexed(nodes, index, bidWalks) && AllIndexed(nodes, index, askWalks)
    requires SeenOn(nodes, bidWalks, askWalks, seen)
    requires |seen| == |index|
    ensures forall id :: id in index ==> index[id] < |nodes| && nodes[index[id]].active && nodes[index[id]].order.orderId == id
  {
    forall id | id in seen ensures id in index {
      var n :| MetOn(nodes, bidWalks, askWalks, id, n);
    }
    Checks.Equinumerous(index.Keys, seen);
    assert |index| == |index.Keys|;
    forall id | id in index
      ensures index[id] < |nodes| && nodes[index[id]].active && nodes[index[id]].order.orderId == id
    {
      assert id in seen;
      var n :| MetOn(nodes, bidWalks, askWalks, id, n);
    }
  }

  lemma ActiveAreQueued(nodes: seq<OrderNode>, index: map<nat, nat>, bidWalks: seq<seq<nat>>, askWalks: seq<seq<nat>>,
                        seen: set<nat>)
    requires AllIndexed(nodes, index, bidWalks) && AllIndexed(nodes, index, askWalks)
    requires SeenOn(nodes, bidWalks, askWalks, seen)
    requires ActiveFine(nodes, index, seen, |nodes|)
    ensures forall n :: 0 <= n < |nodes| && nodes[n].active ==> QueuedIn(n, bidWalks) || QueuedIn(n, askWalks)
  {
    forall n | 0 <= n < |nodes| && nodes[n].active ensures QueuedIn(n, bidWalks) || QueuedIn(n, askWalks) {
      var m :| MetOn(nodes, bidWalks, askWalks, nodes[n].order.orderId, m);
    }
  }

  lemma PassedIsRight(bids: seq<LevelNode>, asks: seq<LevelNode>, nodes: seq<OrderNode>, index: map<nat, nat>,
                      bidWalks: seq<seq<nat>>, askWalks: seq<seq<nat>>, first: set<nat>, seen: set<nat>)
    requires PartsPass(bids, asks, nodes, index, bidWalks, askWalks, first, seen)
    requires first == Checks.Seen(IdsAlong(nodes, bidWalks)) && seen == first + Checks.Seen(IdsAlong(nodes, askWalks))
    ensures Right(bids, asks, nodes, index, bidWalks, askWalks)
  {
    SideIsRight(bids, nodes, index, Buy, bidWalks, {});
    SideIsRight(asks, nodes, index, Sell, askWalks, first);
    SeenOnBoth(nodes, bidWalks, askWalks);
    CountedIndex(nodes, index, bidWalks, askWalks, seen);
    ActiveAreQueued(nodes, index, bidWalks, askWalks, seen);
  }

  lemma RightPasses(bids: seq<LevelNode>, asks: seq<LevelNode>, nodes: seq<OrderNode>, index: map<nat, nat>,
                    bidWalks: seq<seq<nat>>, askWalks: seq<seq<nat>>, first: set<nat>, seen: set<nat>)
    requires Right(bids, asks, nodes, index, bidWalks, askWalks)
    requires first == Checks.Seen(IdsAlong(nodes, bidWalks)) && seen == first + Checks.Seen(IdsAlong(nodes, askWalks))
    ensures PartsPass(bids, asks, nodes, index, bidWalks, askWalks, first, seen)
  {
    SideIsFine(bids, nodes, index, Buy, bidWalks);
    SideIsFine(asks, nodes, index, Sell, askWalks);
    SeenOnBoth(nodes, bidWalks, askWalks);
    SidesShareNone(bids, asks, nodes, index, bidWalks, askWalks, first);
    SeenIsIndexed(bids, asks, nodes, index, bidWalks, askWalks, seen);
    assert |index| == |index.Keys|;
    forall n | 0 <= n < |nodes| && nodes[n].active ensures nodes[n].order.orderId in seen {
      assert MetOn(nodes, bidWalks, askWalks, nodes[n].order.orderId, n);
    }
  }

  lemma SidesShareNone(bids: seq<LevelNode>, asks: seq<LevelNode>, nodes: seq<OrderNode>, index: map<nat, nat>,
                       bidWalks: seq<seq<nat>>, askWalks: seq<seq<nat>>, first: set<nat>)
    requires Right(bids, asks, nodes, index, bidWalks, askWalks) && first == Checks.Seen(IdsAlong(nodes, bidWalks))
    requires Checks.DistinctFrom(IdsAlong(nodes, askWalks), {})
    ensures Checks.DistinctFrom(IdsAlong(nodes, askWalks), first)
  {
    var ids := IdsAlong(nodes, askWalks);
    forall i | 0 <= i < |ids| ensures ids[i] !in first {
      assert ids[i] in Checks.Seen(ids);
      SeenIsMet(nodes, askWalks, ids[i]);
      SeenIsMet(nodes, bidWalks, ids[i]);
      var n :| Met(nodes, askWalks, ids[i], n);
      var k :| 0 <= k < |askWalks| && n in askWalks[k];
      QueuedBelongs(asks, nodes, Sell, askWalks, k, n);
      if m :| Met(nodes, bidWalks, ids[i], m) {
        var j :| 0 <= j < |bidWalks| && m in bidWalks[j];
        QueuedBelongs(bids, nodes, Buy, bidWalks, j, m);
      }
    }
  }

  lemma SeenIsIndexed(bids: seq<LevelNode>, asks: seq<LevelNode>, nodes: seq<OrderNode>, index: map<nat, nat>,
                      bidWalks: seq<seq<nat>>, askWalks: seq<seq<nat>>, seen: set<nat>)
    requires Right(bids, asks, nodes, index, bidWalks, askWalks)
    requires SeenOn(nodes, bidWalks, askWalks, seen)
    ensures seen == index.Keys
  {
    forall id ensures id in seen <==> id in index.Keys {
      if n :| MetOn(nodes, bidWalks, askWalks, id, n) {
        if QueuedIn(n, bidWalks) {
          var k :| 0 <= k < |bidWalks| && n in bidWalks[k];
          QueuedBelongs(bids, nodes, Buy, bidWalks, k, n);
        } else {
          var k :| 0 <= k < |askWalks| && n in askWalks[k];
          QueuedBelongs(asks, nodes, Sell, askWalks, k, n);
        }
      }
      if id in index {
        assert MetOn(nodes, bidWalks, askWalks, id, index[id]);
      }
    }
  }

  lemma PartsDecide(bids: seq<LevelNode>, asks: seq<LevelNode>, nodes: seq<OrderNode>, index: map<nat, nat>,
                    bidWalks: seq<seq<nat>>, askWalks: seq<seq<nat>>, first: set<nat>, seen: set<nat>)
    requires AllWalk(bids, nodes, bidWalks) && AllWalk(asks, nodes, askWalks)
    requires first == {} + Checks.Seen(IdsAlong(nodes, bidWalks))
    requires seen == first + Checks.Seen(IdsAlong(nodes, askWalks))
    ensures Right(bids, asks, nodes, index, bidWalks, askWalks)
         == (SidePassesSoFar(bids, nodes, index, Buy, bidWalks, {}, |bids|) && SidePassesSoFar(asks, nodes, index, Sell, askWalks, first, |asks|)
             && |seen| == |index| && ActiveFine(nodes, index, seen, |nodes|))
  {
    assert bidWalks[..|bids|] == bidWalks && askWalks[..|asks|] == askWalks;
    if PartsPass(bids, asks, nodes, index, bidWalks, askWalks, first, seen) {
      PassedIsRight(bids, asks, nodes, index, bidWalks, askWalks, first, seen);
    }
    if Right(bids, asks, nodes, index, bidWalks, askWalks) {
      RightPasses(bids, asks, nodes, index, bidWalks, askWalks, first, seen);
    }
  }

  /** The whole check finds nothing exactly when the stored fields are right. */
  method CheckStorage(bids: seq<LevelNode>, asks: seq<LevelNode>, nodes: seq<OrderNode>, index: FlatOrderIndex,
                      ghost bidWalks: seq<seq<nat>>, ghost askWalks: seq<seq<nat>>) returns (found: seq<PoolViolation>)
    requires index.Valid() && AllWalk(bids, nodes, bidWalks) && AllWalk(asks, nodes, askWalks)
    ensures (found == []) == Right(bids, asks, nodes, index.contents, bidWalks, askWalks)
  {
    ghost var contents := index.contents;
    var onBids, first := CheckSide(Buy, bids, nodes, index, {}, contents, bidWalks);
    var onAsks, seen := CheckSide(Sell, asks, nodes, index, first, contents, askWalks);
    var onIndex := CheckActive(nodes, index, seen, contents);
    PartsDecide(bids, asks, nodes, contents, bidWalks, askWalks, first, seen);
    return onBids + onAsks + onIndex;
  }

  // ----- a reachable book always passes

  /** The walk of each level is its queue. */
  ghost function QueuesOf(levels: seq<LevelNode>, queues: Queues): (walks: seq<seq<nat>>)
    requires forall k :: 0 <= k < |levels| ==> levels[k].price in queues
    ensures |walks| == |levels| && forall k :: 0 <= k < |levels| ==> walks[k] == queues[levels[k].price]
  {
    seq(|levels|, k requires 0 <= k < |levels| => queues[levels[k].price])
  }

  lemma ReachableSide(p: Pool, side: Side) returns (walks: seq<seq<nat>>)
    requires p.Ok() && ValidSide(side)
    ensures SideRight(p.Levels(side), p.nodes, side, walks)
    ensures forall price, n :: n in p.QueueAt(side, price) ==> QueuedIn(n, walks)
  {
    LevelsMeet(p, side);
    var levels := p.Levels(side);
    forall k | 0 <= k < |levels| ensures levels[k].price in p.Queues(side) {
      LevelAtIndex(p, side, k);
    }
    walks := QueuesOf(levels, p.Queues(side));
    forall k | 0 <= k < |levels| ensures LevelRight(levels[k], p.nodes, side, walks[k]) {
      ReachableLevel(p, side, k);
    }
    forall price, n | n in p.QueueAt(side, price) ensures QueuedIn(n, walks) {
      var k :| 0 <= k < |levels| && levels[k].price == price;
      assert n in walks[k];
    }
  }

  lemma ReachableLevel(p: Pool, side: Side, k: nat)
    requires p.Ok() && ValidSide(side) && k < |p.Levels(side)|
    ensures LevelRight(p.Levels(side)[k], p.nodes, side, p.QueueAt(side, p.Levels(side)[k].price))
  {
    LevelAtIndex(p, side, k);
    var price := p.Levels(side)[k].price;
    var q := p.QueueAt(side, price);
    forall i | 0 <= i < |q| ensures p.nodes[q[i]].order.quantity > 0 {
      assert In(p.View(), side, price, i);
      QueuedIsActive(p, side, price, i);
      assert Fits(Get(p.View(), side, price, i), p.symbol, side, price);
    }
  }

  /** Everything the check looks at is right in every pool the operations can reach. */
  lemma ReachableIsRight(p: Pool) returns (bidWalks: seq<seq<nat>>, askWalks: seq<seq<nat>>)
    requires p.Ok()
    ensures Right(p.bids, p.asks, p.nodes, p.index, bidWalks, askWalks)
  {
    bidWalks := ReachableSide(p, Buy);
    askWalks := ReachableSide(p, Sell);
    forall n | 0 <= n < |p.nodes| && p.nodes[n].active ensures QueuedIn(n, bidWalks) || QueuedIn(n, askWalks) {
      assert p.Placed(n);
    }
  }

  lemma RightWalks(levels: seq<LevelNode>, nodes: seq<OrderNode>, index: map<nat, nat>, side: Side,
                   walks: seq<seq<nat>>)
    requires SideRight(levels, nodes, side, walks) && IndexMaps(nodes, index)
    ensures AllWalk(levels, nodes, walks)
  {
    SideIsFine(levels, nodes, index, side, walks);
  }

  /** The run-time check never finds anything in a pooled book that its operations can reach. */
  method CheckInvariants(book: PooledOrderBook) returns (found: seq<PoolViolation>)
    requires book.Valid()
    ensures found == []
  {
    ghost var p := book.Fields();
    ghost var bidWalks, askWalks := ReachableIsRight(p);
    RightWalks(p.bids, p.nodes, p.index, Buy, bidWalks);
    RightWalks(p.asks, p.nodes, p.index, Sell, askWalks);
    found := CheckStorage(book.bids, book.asks, book.nodes, book.index, bidWalks, askWalks);
  }

  // ----- one place for every node

  /** Where a node can be: at a position of one level's queue, or at a position of the free list. */
  datatype Place = InQueue(side: Side, price: int, position: nat) | InFree(position: nat)

  ghost predicate IsAt(p: Pool, n: nat, place: Place) {
    match place
    case InQueue(side, price, i) => ValidSide(side) && i < |p.QueueAt(side, price)| && p.QueueAt(side, price)[i] == n
    case InFree(i) => i < |p.free| && p.free[i] == n
  }

  /** A queued node is active and stored under its own side and price; a free one is not active. */
  lemma PlaceTells(p: Pool, n: nat, place: Place)
    requires p.Ok() && IsAt(p, n, place)
    ensures n < |p.nodes| && p.nodes[n].active == place.InQueue?
    ensures place.InQueue? ==> p.nodes[n].order.side == place.side && p.nodes[n].order.price == place.price
  {
    if place.InQueue? {
      LevelsMeet(p, place.side);
      var k :| 0 <= k < |p.Levels(place.side)| && p.Levels(place.side)[k].price == place.price;
      LevelAtIndex(p, place.side, k);
      assert LinkOk(p.nodes, p.QueueAt(place.side, place.price), place.position);
    }
  }

  /** Every node of the pool is in exactly one place. */
  lemma OnePlace(p: Pool, n: nat)
    requires p.Ok() && n < |p.nodes|
    ensures exists place :: IsAt(p, n, place)
    ensures forall place, place' :: IsAt(p, n, place) && IsAt(p, n, place') ==> place == place'
  {
    assert p.Placed(n);
    var side, price := p.nodes[n].order.side, p.nodes[n].order.price;
    if p.nodes[n].active {
      var i :| 0 <= i < |p.QueueAt(side, price)| && p.QueueAt(side, price)[i] == n;
      assert IsAt(p, n, InQueue(side, price, i));
    } else {
      var i :| 0 <= i < |p.free| && p.free[i] == n;
      assert IsAt(p, n, InFree(i));
    }
    forall place, place' | IsAt(p, n, place) && IsAt(p, n, place') ensures place == place' {
      PlaceTells(p, n, place);
      PlaceTells(p, n, place');
      if place.InQueue? {
        LevelsMeet(p, place.side);
        var k :| 0 <= k < |p.Levels(place.side)| && p.Levels(place.side)[k].price == place.price;
        LevelAtIndex(p, place.side, k);
      }
    }
  }
}
