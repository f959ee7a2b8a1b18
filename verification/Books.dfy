/** The abstract order book: for each side, a map from price to the FIFO queue of orders
    resting there. Both concrete books are proved to be this value. */
module Books {
  import opened Types
  import opened Ranking
  import opened Checksum

  type Queue = seq<Order>
  type Ladder = map<int, Queue>
  datatype Book = Book(symbol: nat, bids: Ladder, asks: Ladder)

  function On(b: Book, side: Side): Ladder {
    if side == Buy then b.bids else b.asks
  }

  function With(b: Book, side: Side, ladder: Ladder): Book {
    if side == Buy then b.(bids := ladder) else b.(asks := ladder)
  }

  function SetQueue(ladder: Ladder, price: int, q: Queue): Ladder {
    if q == [] then ladder - {price} else ladder[price := q]
  }

  function QueueAt(ladder: Ladder, price: int): Queue {
    if price in ladder then ladder[price] else []
  }

  function Empty(symbol: nat): Book {
    Book(symbol, map[], map[])
  }

  /** An order rests at position `i` of the queue at `price`. */
  predicate In(b: Book, side: Side, price: int, i: int) {
    ValidSide(side) && price in On(b, side) && 0 <= i < |On(b, side)[price]|
  }

  function Get(b: Book, side: Side, price: int, i: int): Order
    requires In(b, side, price, i)
  {
    On(b, side)[price][i]
  }

  predicate Fits(o: Order, symbol: nat, side: Side, price: int) {
    ValidRestingOrder(o) && o.symbolId == symbol && o.side == side && o.price == price
  }

  ghost predicate NoEmptyQueue(ladder: Ladder) {
    forall p :: p in ladder ==> ladder[p] != []
  }

  ghost predicate IdsUnique(b: Book) {
    forall s, p, i, s', p', i' :: In(b, s, p, i) && In(b, s', p', i') && Get(b, s, p, i).orderId == Get(b, s', p', i').orderId
      ==> s == s' && p == p' && i == i'
  }

  /** The book invariant: no empty level, every order valid and filed under its own side and
      price, and no order id resting twice. */
  ghost predicate Sound(b: Book) {
    && NoEmptyQueue(b.bids) && NoEmptyQueue(b.asks)
    && (forall s, p, i :: In(b, s, p, i) ==> Fits(Get(b, s, p, i), b.symbol, s, p))
    && IdsUnique(b)
  }

  ghost predicate Has(b: Book, id: nat) {
    exists s, p, i :: In(b, s, p, i) && Get(b, s, p, i).orderId == id
  }

  ghost function Find(b: Book, id: nat): (o: Order)
    requires Has(b, id)
    ensures o.orderId == id
  {
    var s, p, i :| In(b, s, p, i) && Get(b, s, p, i).orderId == id;
    Get(b, s, p, i)
  }

  lemma FindIs(b: Book, s: Side, p: int, i: int)
    requires Sound(b) && In(b, s, p, i)
    ensures Has(b, Get(b, s, p, i).orderId)
    ensures Find(b, Get(b, s, p, i).orderId) == Get(b, s, p, i)
  {
  }

  lemma FoundFits(b: Book, id: nat)
    requires Sound(b) && Has(b, id)
    ensures Fits(Find(b, id), b.symbol, Find(b, id).side, Find(b, id).price) && ValidSide(Find(b, id).side)
  {
    var s, p, i :| In(b, s, p, i) && Get(b, s, p, i).orderId == id;
    FindIs(b, s, p, i);
  }

  // ----- the five operations

  function Push(b: Book, o: Order): Book {
    With(b, o.side, On(b, o.side)[o.price := QueueAt(On(b, o.side), o.price) + [o]])
  }

  function Without(q: Queue, id: nat): Queue {
    if q == [] then [] else (if q[0].orderId == id then [] else [q[0]]) + Without(q[1..], id)
  }

  function LadderWithout(ladder: Ladder, id: nat): Ladder {
    map p | p in ladder && Without(ladder[p], id) != [] :: Without(ladder[p], id)
  }

  function Drop(b: Book, id: nat): Book {
    b.(bids := LadderWithout(b.bids, id), asks := LadderWithout(b.asks, id))
  }

  function Shrunk(q: Queue, id: nat, quantity: int): Queue {
    seq(|q|, i requires 0 <= i < |q| => if q[i].orderId == id then q[i].(quantity := q[i].quantity - quantity) else q[i])
  }

  function LadderShrunk(ladder: Ladder, id: nat, quantity: int): Ladder {
    map p | p in ladder :: Shrunk(ladder[p], id, quantity)
  }

  function Shrink(b: Book, id: nat, quantity: int): Book {
    b.(bids := LadderShrunk(b.bids, id, quantity), asks := LadderShrunk(b.asks, id, quantity))
  }

  ghost function Add(b: Book, o: Order): (Book, bool) {
    if !ValidRestingOrder(o) || o.symbolId != b.symbol || Has(b, o.orderId) then (b, false) else (Push(b, o), true)
  }

  ghost function Cancel(b: Book, id: nat): (Book, bool) {
    if !Has(b, id) then (b, false) else (Drop(b, id), true)
  }

  ghost function Reduce(b: Book, id: nat, quantity: int): (Book, bool) {
    if quantity <= 0 || !Has(b, id) then (b, false)
    else if quantity >= Find(b, id).quantity then (Drop(b, id), true)
    else (Shrink(b, id, quantity), true)
  }

  ghost function Replace(b: Book, id: nat, price: int, quantity: int, timestamp: int, sequence: nat): (Book, bool) {
    if price <= 0 || quantity <= 0 || !Has(b, id) then (b, false)
    else (Push(Drop(b, id), Find(b, id).(price := price, quantity := quantity, timestamp := timestamp, sequence := sequence)), true)
  }

  // ----- what the operations do, position by position

  function RemoveAt(q: Queue, i: nat): Queue
    requires i < |q|
  {
    q[..i] + q[i + 1..]
  }

  lemma {:induction false} WithoutAbsent(q: Queue, id: nat)
    requires forall i :: 0 <= i < |q| ==> q[i].orderId != id
    ensures Without(q, id) == q
  {
    if q != [] {
      WithoutAbsent(q[1..], id);
    }
  }

  lemma {:induction false} WithoutAt(q: Queue, i: nat)
    requires i < |q|
    requires forall j :: 0 <= j < |q| && j != i ==> q[j].orderId != q[i].orderId
    ensures Without(q, q[i].orderId) == RemoveAt(q, i)
  {
    if i == 0 {
      WithoutAbsent(q[1..], q[0].orderId);
    } else {
      WithoutAt(q[1..], i - 1);
      assert q[1..][i - 1] == q[i];
      assert [q[0]] + RemoveAt(q[1..], i - 1) == RemoveAt(q, i);
    }
  }

  lemma AbsentElsewhere(b: Book, s: Side, p: int, i: int, s': Side, p': int)
    requires Sound(b) && In(b, s, p, i)
    requires ValidSide(s') && p' in On(b, s') && (s, p) != (s', p')
    ensures Without(On(b, s')[p'], Get(b, s, p, i).orderId) == On(b, s')[p']
    ensures forall n :: Shrunk(On(b, s')[p'], Get(b, s, p, i).orderId, n) == On(b, s')[p']
  {
    forall j | 0 <= j < |On(b, s')[p']| ensures On(b, s')[p'][j].orderId != Get(b, s, p, i).orderId {
      assert In(b, s', p', j);
    }
    WithoutAbsent(On(b, s')[p'], Get(b, s, p, i).orderId);
  }

  lemma AbsentBeside(b: Book, s: Side, p: int, i: int, j: int)
    requires Sound(b) && In(b, s, p, i) && In(b, s, p, j) && i != j
    ensures Get(b, s, p, j).orderId != Get(b, s, p, i).orderId
  {
  }

  /** Dropping an id changes the one queue that holds it and nothing else. */
  lemma DropIs(b: Book, s: Side, p: int, i: int)
    requires Sound(b) && In(b, s, p, i)
    ensures Drop(b, Get(b, s, p, i).orderId) == With(b, s, SetQueue(On(b, s), p, RemoveAt(On(b, s)[p], i)))
  {
    var id, q := Get(b, s, p, i).orderId, On(b, s)[p];
    forall j | 0 <= j < |q| && j != i ensures q[j].orderId != q[i].orderId {
      AbsentBeside(b, s, p, i, j);
    }
    WithoutAt(q, i);
    var there := On(b, Opposite(s));
    forall p' | p' in On(b, s) && p' != p ensures Without(On(b, s)[p'], id) == On(b, s)[p'] != [] {
      AbsentElsewhere(b, s, p, i, s, p');
    }
    forall p' | p' in there ensures Without(there[p'], id) == there[p'] != [] {
      AbsentElsewhere(b, s, p, i, Opposite(s), p');
    }
    var here := LadderWithout(On(b, s), id);
    forall p' ensures p' in here <==> p' in SetQueue(On(b, s), p, RemoveAt(q, i)) {}
    assert here == SetQueue(On(b, s), p, RemoveAt(q, i));
    assert LadderWithout(there, id) == there;
  }

  lemma ShrinkIs(b: Book, s: Side, p: int, i: int, n: int)
    requires Sound(b) && In(b, s, p, i)
    ensures Shrink(b, Get(b, s, p, i).orderId, n)
         == With(b, s, On(b, s)[p := On(b, s)[p][i := Get(b, s, p, i).(quantity := Get(b, s, p, i).quantity - n)]])
  {
    var id, q := Get(b, s, p, i).orderId, On(b, s)[p];
    forall j | 0 <= j < |q| && j != i ensures q[j].orderId != q[i].orderId {
      AbsentBeside(b, s, p, i, j);
    }
    assert Shrunk(q, id, n) == q[i := q[i].(quantity := q[i].quantity - n)];
    forall s', p' | ValidSide(s') && p' in On(b, s') && (s, p) != (s', p')
      ensures Shrunk(On(b, s')[p'], id, n) == On(b, s')[p']
    {
      AbsentElsewhere(b, s, p, i, s', p');
    }
    assert LadderShrunk(On(b, s), id, n) == On(b, s)[p := q[i := q[i].(quantity := q[i].quantity - n)]];
    assert LadderShrunk(On(b, Opposite(s)), id, n) == On(b, Opposite(s));
  }

  // ----- every operation keeps the invariant

  lemma PushSound(b: Book, o: Order)
    requires Sound(b) && ValidRestingOrder(o) && o.symbolId == b.symbol && !Has(b, o.orderId)
    ensures Sound(Push(b, o))
    ensures forall id :: Has(Push(b, o), id) <==> Has(b, id) || id == o.orderId
  {
    var b', n := Push(b, o), |QueueAt(On(b, o.side), o.price)|;
    forall s, p, i | In(b', s, p, i)
      ensures if (s, p, i) == (o.side, o.price, n) then Get(b', s, p, i) == o else In(b, s, p, i) && Get(b', s, p, i) == Get(b, s, p, i)
    {
    }
    forall s, p, i | In(b, s, p, i) ensures In(b', s, p, i) && Get(b', s, p, i) == Get(b, s, p, i) {}
    assert In(b', o.side, o.price, n) && Get(b', o.side, o.price, n) == o;
    assert NoEmptyQueue(b'.bids) && NoEmptyQueue(b'.asks);
    assert IdsUnique(b');
  }

  /** Where the order at a position of the smaller book stood before the removal. */
  function Origin(s0: Side, p0: int, i0: int, s: Side, p: int, i: int): int {
    if (s, p) == (s0, p0) && i >= i0 then i + 1 else i
  }

  /** What stands at a position once the order at another one is gone, and where each order that stays goes. */
  lemma DropMoves(b: Book, s0: Side, p0: int, i0: int, s: Side, p: int, i: int)
    requires Sound(b) && In(b, s0, p0, i0)
    ensures var b', from := Drop(b, Get(b, s0, p0, i0).orderId), Origin(s0, p0, i0, s, p, i);
      In(b', s, p, i) ==> In(b, s, p, from) && Get(b', s, p, i) == Get(b, s, p, from) && (s, p, from) != (s0, p0, i0)
    ensures var b', to := Drop(b, Get(b, s0, p0, i0).orderId), if (s, p) == (s0, p0) && i > i0 then i - 1 else i;
      In(b, s, p, i) && (s, p, i) != (s0, p0, i0) ==> In(b', s, p, to) && Get(b', s, p, to) == Get(b, s, p, i)
  {
    DropIs(b, s0, p0, i0);
  }

  lemma DropSound(b: Book, id: nat)
    requires Sound(b) && Has(b, id)
    ensures Sound(Drop(b, id))
    ensures forall id' :: Has(Drop(b, id), id') <==> Has(b, id') && id' != id
  {
    var s0, p0, i0 :| In(b, s0, p0, i0) && Get(b, s0, p0, i0).orderId == id;
    var b' := Drop(b, id);
    forall s, p, i | In(b', s, p, i) ensures Get(b', s, p, i).orderId != id && Fits(Get(b', s, p, i), b.symbol, s, p) {
      DropMoves(b, s0, p0, i0, s, p, i);
    }
    forall id' | Has(b, id') && id' != id ensures Has(b', id') {
      var s, p, i :| In(b, s, p, i) && Get(b, s, p, i).orderId == id';
      DropMoves(b, s0, p0, i0, s, p, i);
    }
    forall s, p, i | In(b', s, p, i) ensures Has(b, Get(b', s, p, i).orderId) {
      DropMoves(b, s0, p0, i0, s, p, i);
    }
    DropUnique(b, s0, p0, i0);
    DropIs(b, s0, p0, i0);
  }

  lemma DropUnique(b: Book, s0: Side, p0: int, i0: int)
    requires Sound(b) && In(b, s0, p0, i0)
    ensures IdsUnique(Drop(b, Get(b, s0, p0, i0).orderId))
  {
    var b' := Drop(b, Get(b, s0, p0, i0).orderId);
    forall s, p, i, s', p', i' | In(b', s, p, i) && In(b', s', p', i') && Get(b', s, p, i).orderId == Get(b', s', p', i').orderId
      ensures s == s' && p == p' && i == i'
    {
      DropMoves(b, s0, p0, i0, s, p, i);
      DropMoves(b, s0, p0, i0, s', p', i');
      assert Origin(s0, p0, i0, s, p, i) == Origin(s0, p0, i0, s', p', i');
    }
  }

  lemma ShrinkSound(b: Book, id: nat, n: int)
    requires Sound(b) && Has(b, id) && 0 < n < Find(b, id).quantity
    ensures Sound(Shrink(b, id, n))
    ensures forall id' :: Has(Shrink(b, id, n), id') <==> Has(b, id')
  {
    var b' := Shrink(b, id, n);
    var s0, p0, i0 :| In(b, s0, p0, i0) && Get(b, s0, p0, i0).orderId == id;
    FindIs(b, s0, p0, i0);
    ShrinkIs(b, s0, p0, i0, n);
    forall s, p, i ensures In(b', s, p, i) <==> In(b, s, p, i) {}
    forall s, p, i | In(b', s, p, i)
      ensures Get(b', s, p, i).orderId == Get(b, s, p, i).orderId && Fits(Get(b', s, p, i), b.symbol, s, p)
    {
    }
    assert IdsUnique(b');
  }

  /** A side has at most as many levels as there are resting ids. */
  lemma LadderSize(b: Book, s: Side, ids: set<nat>)
    requires Sound(b) && ValidSide(s)
    requires forall p, i :: In(b, s, p, i) ==> Get(b, s, p, i).orderId in ids
    ensures |On(b, s)| <= |ids|
  {
    forall p | p in On(b, s) ensures In(b, s, p, 0) {}
    var firsts := map p | p in On(b, s) :: Get(b, s, p, 0).orderId;
    assert firsts.Keys == On(b, s).Keys;
    InjectionSize(firsts, ids);
  }

  // ----- what a book shows: totals, best prices, L2 views, checksums

  function Total(q: Queue): int {
    if q == [] then 0 else Total(q[..|q| - 1]) + q[|q| - 1].quantity
  }

  lemma {:induction false} TotalRemoveAt(q: Queue, i: nat)
    requires i < |q|
    ensures Total(RemoveAt(q, i)) == Total(q) - q[i].quantity
  {
    var last := |q| - 1;
    if i == last {
      assert RemoveAt(q, i) == q[..last];
    } else {
      TotalRemoveAt(q[..last], i);
      assert RemoveAt(q, i)[..last - 1] == RemoveAt(q[..last], i);
    }
  }

  lemma {:induction false} TotalUpdate(q: Queue, i: nat, o: Order)
    requires i < |q|
    ensures Total(q[i := o]) == Total(q) - q[i].quantity + o.quantity
  {
    var last := |q| - 1;
    if i == last {
      assert q[i := o][..last] == q[..last];
    } else {
      TotalUpdate(q[..last], i, o);
      assert q[i := o][..last] == q[..last][i := o];
    }
  }

  lemma TotalPush(q: Queue, o: Order)
    ensures Total(q + [o]) == Total(q) + o.quantity
  {
    assert (q + [o])[..|q|] == q;
  }

  datatype L2Level = L2Level(price: int, quantity: int)
  datatype L2View = L2View(symbol: nat, bids: seq<L2Level>, asks: seq<L2Level>)

  function LevelsOf(ladder: Ladder, ps: seq<int>): (ls: seq<L2Level>)
    requires forall i :: 0 <= i < |ps| ==> ps[i] in ladder
  {
    seq(|ps|, i requires 0 <= i < |ps| => L2Level(ps[i], Total(ladder[ps[i]])))
  }

  function Prices(ladder: Ladder, side: Side): (ps: seq<int>)
    ensures forall i :: 0 <= i < |ps| ==> ps[i] in ladder
    ensures |ps| == |ladder|
  {
    RankedLists(side, ladder.Keys);
    Ranked(side, ladder.Keys)
  }

  function Take<T>(s: seq<T>, n: nat): seq<T> {
    if n < |s| then s[..n] else s
  }

  /** Price and total quantity of the best `depth` levels of each side. */
  function L2(b: Book, depth: nat): L2View {
    L2View(b.symbol,
           LevelsOf(b.bids, Take(Prices(b.bids, Buy), depth)),
           LevelsOf(b.asks, Take(Prices(b.asks, Sell), depth)))
  }

  function BestPrice(b: Book, side: Side): Option<int> {
    if !ValidSide(side) || |On(b, side)| == 0 then None else Some(Best(side, On(b, side).Keys))
  }

  /** The oldest order of the best level. */
  function BestOrder(b: Book, side: Side): Option<Order>
    requires forall p :: p in On(b, side) ==> On(b, side)[p] != []
  {
    match BestPrice(b, side)
    case None => None
    case Some(p) => Some(On(b, side)[p][0])
  }

  function OrderValues(o: Order): seq<int> {
    [o.orderId, o.clientOrderId, o.symbolId, o.quantity, o.timestamp, o.sequence]
  }

  function QueueValues(q: Queue): seq<int> {
    if q == [] then [] else QueueValues(q[..|q| - 1]) + OrderValues(q[|q| - 1])
  }

  function LevelValues(price: int, q: Queue): seq<int> {
    [price, Total(q), |q|] + QueueValues(q)
  }

  function LadderValues(ladder: Ladder, ps: seq<int>): seq<int>
    requires forall i :: 0 <= i < |ps| ==> ps[i] in ladder
  {
    if ps == [] then [] else
    LadderValues(ladder, ps[..|ps| - 1]) + LevelValues(ps[|ps| - 1], ladder[ps[|ps| - 1]])
  }

  /** Folding in one more level: its price, total and count, then its orders. */
  lemma FoldLevel(mix: Mix, seed: int, head: seq<int>, ladder: Ladder, ps: seq<int>, i: nat)
    requires forall k :: 0 <= k < |ps| ==> ps[k] in ladder
    requires i < |ps|
    ensures var q := ladder[ps[i]]; var c := Fold(mix, seed, head + LadderValues(ladder, ps[..i]));
      Fold(mix, seed, head + LadderValues(ladder, ps[..i + 1])) == Fold(mix, mix(mix(mix(c, ps[i]), Total(q)), |q|), QueueValues(q))
  {
    var q, done := ladder[ps[i]], head + LadderValues(ladder, ps[..i]);
    var c := Fold(mix, seed, done);
    assert ps[..i + 1][..i] == ps[..i];
    assert head + LadderValues(ladder, ps[..i + 1]) == done + LevelValues(ps[i], q);
    FoldConcat(mix, seed, done, LevelValues(ps[i], q));
    FoldConcat(mix, c, [ps[i], Total(q), |q|], QueueValues(q));
    FoldThree(mix, c, ps[i], Total(q), |q|);
  }

  /** Folding in one more order. */
  lemma FoldOrder(mix: Mix, seed: int, q: Queue, i: nat)
    requires i < |q|
    ensures var o := q[i]; var c := Fold(mix, seed, QueueValues(q[..i]));
      Fold(mix, seed, QueueValues(q[..i + 1]))
        == mix(mix(mix(mix(mix(mix(c, o.orderId), o.clientOrderId), o.symbolId), o.quantity), o.timestamp), o.sequence)
  {
    FoldConcat(mix, seed, QueueValues(q[..i]), OrderValues(q[i]));
    FoldSix(mix, Fold(mix, seed, QueueValues(q[..i])), OrderValues(q[i]));
    assert q[..i + 1][..i] == q[..i];
  }

  function SideValues(ladder: Ladder, side: Side): seq<int> {
    [SideCode(side), |ladder|] + LadderValues(ladder, Prices(ladder, side))
  }

  /** Every value the book checksum covers, in order. */
  function BookValues(b: Book): seq<int> {
    [b.symbol] + SideValues(b.bids, Buy) + SideValues(b.asks, Sell)
  }

  function BookChecksum(mix: Mix, b: Book): int {
    Fold(mix, FNV_OFFSET_BASIS, BookValues(b))
  }

  // ----- runs of operations

  datatype Op =
    | AddOp(order: Order)
    | CancelOp(id: nat)
    | ReduceOp(id: nat, quantity: int)
    | ReplaceOp(id: nat, price: int, quantity: int, timestamp: int, sequence: nat)
    | ClearOp

  ghost function Apply(b: Book, op: Op): (Book, bool) {
    match op
    case AddOp(o) => Add(b, o)
    case CancelOp(id) => Cancel(b, id)
    case ReduceOp(id, quantity) => Reduce(b, id, quantity)
    case ReplaceOp(id, price, quantity, timestamp, sequence) => Replace(b, id, price, quantity, timestamp, sequence)
    case ClearOp => (Empty(b.symbol), true)
  }

  lemma ReplaceSound(b: Book, id: nat, price: int, quantity: int, timestamp: int, sequence: nat)
    requires Sound(b) && price > 0 && quantity > 0 && Has(b, id)
    ensures Sound(Replace(b, id, price, quantity, timestamp, sequence).0)
    ensures forall id' :: Has(Replace(b, id, price, quantity, timestamp, sequence).0, id') <==> Has(b, id')
  {
    var s, p, i :| In(b, s, p, i) && Get(b, s, p, i).orderId == id;
    FindIs(b, s, p, i);
    DropSound(b, id);
    PushSound(Drop(b, id),
              Find(b, id).(price := price, quantity := quantity, timestamp := timestamp, sequence := sequence));
  }

  /** The book invariant is inductive, and a refused operation leaves the book as it was. */
  lemma ApplySound(b: Book, op: Op)
    requires Sound(b)
    ensures Sound(Apply(b, op).0) && Apply(b, op).0.symbol == b.symbol
    ensures !Apply(b, op).1 ==> Apply(b, op).0 == b
  {
    match op
    case AddOp(o) => if Apply(b, op).1 { PushSound(b, o); }
    case CancelOp(id) => if Apply(b, op).1 { DropSound(b, id); }
    case ReduceOp(id, n) =>
      if Apply(b, op).1 {
        if n >= Find(b, id).quantity { DropSound(b, id); } else { ShrinkSound(b, id, n); }
      }
    case ReplaceOp(id, price, quantity, timestamp, sequence) =>
      if Apply(b, op).1 { ReplaceSound(b, id, price, quantity, timestamp, sequence); }
    case ClearOp =>
  }

  ghost function Run(b: Book, ops: seq<Op>): (Book, seq<bool>) {
    if ops == [] then (b, []) else
    var (b', oks) := Run(b, ops[..|ops| - 1]);
    var (b'', ok) := Apply(b', ops[|ops| - 1]);
    (b'', oks + [ok])
  }

  lemma {:induction false} RunSound(symbol: nat, ops: seq<Op>)
    ensures Sound(Run(Empty(symbol), ops).0) && Run(Empty(symbol), ops).0.symbol == symbol
  {
    if ops != [] {
      RunSound(symbol, ops[..|ops| - 1]);
      ApplySound(Run(Empty(symbol), ops[..|ops| - 1]).0, ops[|ops| - 1]);
    }
  }
}
