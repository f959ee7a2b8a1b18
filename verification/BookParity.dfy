/** The two order books compared over whole runs: same answers, same book, same views and
    checksums, and no allocation in the pooled book once enough room is reserved. */
module BookParity {
  import opened Types
  import opened Ranking
  import opened Checksum
  import opened Books
  import opened FlatOrderIndexes
  import opened OrderBooks
  import opened Pools
  import PoolSteps
  import opened PooledOrderBooks

  ghost function IdsOn(ladder: Ladder): set<nat> {
    set p, o | p in ladder && o in ladder[p] :: o.orderId
  }

  /** The ids of the resting orders. */
  ghost function Resting(b: Book): set<nat> {
    IdsOn(b.bids) + IdsOn(b.asks)
  }

  lemma RestingIffHas(b: Book, id: nat)
    ensures id in Resting(b) <==> Has(b, id)
  {
    if id in Resting(b) {
      var side := if id in IdsOn(b.bids) then Buy else Sell;
      var p, o :| p in On(b, side) && o in On(b, side)[p] && o.orderId == id;
      var i :| 0 <= i < |On(b, side)[p]| && On(b, side)[p][i] == o;
      assert In(b, side, p, i) && Get(b, side, p, i).orderId == id;
    }
    if Has(b, id) {
      var s, p, i :| In(b, s, p, i) && Get(b, s, p, i).orderId == id;
      assert Get(b, s, p, i) in On(b, s)[p];
    }
  }

  /** The most orders that rested at once during a run from the empty book, since its last clear. */
  ghost function Peak(symbol: nat, ops: seq<Op>): nat {
    if ops == [] || ops[|ops| - 1] == ClearOp then 0
    else Max(Peak(symbol, ops[..|ops| - 1]), |Resting(Run(Empty(symbol), ops).0)|)
  }

  method Apply(book: OrderBook, op: Op) returns (ok: bool)
    requires book.Valid()
    modifies book
    ensures book.Valid() && (book.View(), ok) == Books.Apply(old(book.View()), op)
  {
    match op
    case AddOp(order) => ok := book.AddOrder(order);
    case CancelOp(id) => ok := book.CancelOrder(id);
    case ReduceOp(id, quantity) => ok := book.ReduceOrder(id, quantity);
    case ReplaceOp(id, price, quantity, timestamp, sequence) => ok := book.ReplaceOrder(id, price, quantity, timestamp, sequence);
    case ClearOp => book.Clear(); ok := true;
  }

  method ApplyPooled(book: PooledOrderBook, op: Op) returns (ok: bool)
    requires book.Valid()
    modifies book, book.index
    ensures book.Valid() && (book.View(), ok) == Books.Apply(old(book.View()), op)
    ensures book.peak == if op == ClearOp then 0 else Max(old(book.peak), book.Live())
    ensures book.Used().GrownFrom(old(book.Used()), old(book.Used()).Holds(book.Live()))
  {
    PeakCovers(book);
    match op
    case AddOp(order) => ok := book.AddOrder(order);
    case CancelOp(id) => ok := book.CancelOrder(id);
    case ReduceOp(id, quantity) => ok := book.ReduceOrder(id, quantity);
    case ReplaceOp(id, price, quantity, timestamp, sequence) => ok := book.ReplaceOrder(id, price, quantity, timestamp, sequence);
    case ClearOp => book.Clear(); ok := true;
  }

  lemma PeakCovers(book: PooledOrderBook)
    requires book.Valid()
    ensures book.Live() <= book.peak == |book.nodes|
  {
  }

  lemma KeysAreResting(b: Book, index: map<nat, nat>)
    requires forall id: nat :: id in index <==> Has(b, id)
    ensures |index| == |Resting(b)|
  {
    forall id: nat ensures id in index <==> id in Resting(b) {
      RestingIffHas(b, id);
    }
    assert index.Keys == Resting(b);
    assert |index| == |index.Keys|;
  }

  lemma LiveIsResting(book: PooledOrderBook)
    requires book.Valid()
    ensures book.Live() == |Resting(book.View())|
  {
    var p := book.Fields();
    forall id: nat ensures id in p.index <==> Has(p.View(), id) {
      PoolSteps.IndexedIffResting(p, id);
    }
    KeysAreResting(p.View(), p.index);
  }

  /** Both books run the same operations side by side; the pool has as many nodes as orders ever
      rested at once since the last clear. */
  method RunBoth(symbol: nat, hash: Hash, ops: seq<Op>)
    returns (standard: OrderBook, pooled: PooledOrderBook, oks: seq<bool>, pooledOks: seq<bool>)
    ensures standard.Valid() && pooled.Valid()
    ensures oks == pooledOks == Run(Empty(symbol), ops).1
    ensures standard.View() == pooled.View() == Run(Empty(symbol), ops).0
    ensures |pooled.nodes| == Peak(symbol, ops)
  {
    standard := new OrderBook(symbol);
    pooled := new PooledOrderBook(symbol, hash);
    oks, pooledOks := [], [];
    for i := 0 to |ops|
      invariant standard.Valid() && pooled.Valid() && fresh(standard) && fresh(pooled) && fresh(pooled.index)
      invariant oks == pooledOks && standard.View() == pooled.View()
      invariant (standard.View(), oks) == Run(Empty(symbol), ops[..i])
      invariant pooled.peak == Peak(symbol, ops[..i])
    {
      assert ops[..i + 1][..i] == ops[..i];
      var ok := Apply(standard, ops[i]);
      var pooledOk := ApplyPooled(pooled, ops[i]);
      oks, pooledOks := oks + [ok], pooledOks + [pooledOk];
      LiveIsResting(pooled);
    }
    assert ops[..|ops|] == ops;
  }

  /** What a caller can see of a book: its checksum under a mixing function, its best prices and
      orders, one level's total, one order, and the L2 view at some depth. */
  datatype Query = Query(mix: Mix, side: Side, price: int, id: nat, depth: nat)
  datatype Snapshot = Snapshot(checksum: int, bid: Option<int>, ask: Option<int>, best: Option<Order>,
                               total: int, order: Option<Order>, view: L2View)

  ghost function Shown(b: Book, q: Query): Snapshot
    requires Sound(b)
  {
    Snapshot(BookChecksum(q.mix, b), BestPrice(b, Buy), BestPrice(b, Sell), Books.BestOrder(b, q.side),
             if ValidSide(q.side) then Total(QueueAt(On(b, q.side), q.price)) else 0,
             if Has(b, q.id) then Some(Find(b, q.id)) else None, Books.L2(b, q.depth))
  }

  method Observe(book: OrderBook, q: Query) returns (s: Snapshot)
    requires book.Valid()
    ensures s == Shown(book.View(), q)
  {
    var checksum := book.Checksum(q.mix);
    var bid := book.BestBid();
    var ask := book.BestAsk();
    var best := book.BestOrder(q.side);
    var total := book.TotalQuantityAt(q.side, q.price);
    var order := book.FindOrder(q.id);
    var view := book.L2(q.depth);
    s := Snapshot(checksum, bid, ask, best, total, order, view);
  }

  method ObservePooled(book: PooledOrderBook, q: Query) returns (s: Snapshot)
    requires book.Valid()
    ensures s == Shown(book.View(), q)
  {
    var checksum := book.Checksum(q.mix);
    var bid := book.BestPriceOn(Buy);
    var ask := book.BestPriceOn(Sell);
    var best := book.BestOrder(q.side);
    var total := book.TotalQuantityAt(q.side, q.price);
    var order := book.FindOrder(q.id);
    var view := book.L2(q.depth);
    s := Snapshot(checksum, bid, ask, best, total, order, view);
  }

  /** After any run, whatever is asked of the two books, the answers agree. */
  method CompareRun(symbol: nat, hash: Hash, ops: seq<Op>, q: Query) returns (shown: Snapshot, shownPooled: Snapshot)
    ensures Sound(Run(Empty(symbol), ops).0)
    ensures shown == shownPooled == Shown(Run(Empty(symbol), ops).0, q)
  {
    var standard, pooled, oks, pooledOks := RunBoth(symbol, hash, ops);
    shown := Observe(standard, q);
    shownPooled := ObservePooled(pooled, q);
  }

  method ApplyWithoutAllocating(book: PooledOrderBook, op: Op, n: nat) returns (ok: bool)
    requires book.Valid() && book.Used().Holds(n) && |Resting(Books.Apply(book.View(), op).0)| <= n
    modifies book, book.index
    ensures book.Valid() && (book.View(), ok) == Books.Apply(old(book.View()), op)
    ensures book.Used().Holds(n) && book.Used().allocations == old(book.Used().allocations)
  {
    ok := ApplyPooled(book, op);
    LiveIsResting(book);
  }

  /** With room for `n` orders, a run that never rests more than `n` orders allocates nothing. */
  method RunWithoutAllocating(book: PooledOrderBook, ops: seq<Op>, n: nat) returns (oks: seq<bool>)
    requires book.Valid() && book.Used().Holds(n)
    requires forall i :: 0 <= i <= |ops| ==> |Resting(Run(book.View(), ops[..i]).0)| <= n
    modifies book, book.index
    ensures book.Valid() && (book.View(), oks) == Run(old(book.View()), ops)
    ensures book.Used().allocations == old(book.Used().allocations)
  {
    ghost var start, before := book.View(), book.Used();
    oks := [];
    for i := 0 to |ops|
      invariant book.Valid() && (book.View(), oks) == Run(start, ops[..i])
      invariant book.Used().Holds(n) && book.Used().allocations == before.allocations
    {
      assert ops[..i + 1][..i] == ops[..i];
      assert |Resting(Run(start, ops[..i + 1]).0)| <= n;
      var ok := ApplyWithoutAllocating(book, ops[i], n);
      oks := oks + [ok];
    }
    assert ops[..|ops|] == ops;
  }
}
