/** Working orders and the totals kept beside them: open quantity per symbol and, for self-trade
    prevention, quantity per client, symbol, side and price. */
module WorkingOrders {
  import opened Types
  import opened Ranking

  datatype WorkingOrder = WorkingOrder(client: nat, symbol: nat, side: Side, price: int, quantity: int, exchangeId: nat)
  type Orders = map<nat, WorkingOrder>

  // ----- what the totals are totals of

  /** Every order of a symbol, or every order a client has at one price of one side. */
  datatype Slice = OfSymbol(symbol: nat) | OfLevel(client: nat, symbol: nat, side: Side, price: int)

  predicate InSlice(o: WorkingOrder, sl: Slice) {
    match sl
    case OfSymbol(symbol) => o.symbol == symbol
    case OfLevel(client, symbol, side, price) => o.client == client && o.symbol == symbol && o.side == side && o.price == price
  }

  function Part(o: WorkingOrder, sl: Slice): int {
    if InSlice(o, sl) then o.quantity else 0
  }

  ghost function Total(m: Orders, sl: Slice): int
    decreases |m|
  {
    if m == map[] then 0 else
    var k := AnyKey(m);
    Part(m[k], sl) + Total(m - {k}, sl)
  }

  ghost function AnyKey(m: Orders): (k: nat)
    requires m != map[]
    ensures k in m
  {
    var some := Pick(m.Keys);
    some
  }

  lemma {:induction false} TotalRemove(m: Orders, k: nat, sl: Slice)
    requires k in m
    ensures Total(m, sl) == Part(m[k], sl) + Total(m - {k}, sl)
    decreases |m|
  {
    var a := AnyKey(m);
    if a != k {
      TotalRemove(m - {a}, k, sl);
      TotalRemove(m - {k}, a, sl);
      assert m - {a} - {k} == m - {k} - {a};
    }
  }

  lemma TotalAdd(m: Orders, k: nat, o: WorkingOrder, sl: Slice)
    requires k !in m
    ensures Total(m[k := o], sl) == Total(m, sl) + Part(o, sl)
  {
    TotalRemove(m[k := o], k, sl);
    assert m[k := o] - {k} == m;
  }

  lemma TotalReplace(m: Orders, k: nat, o: WorkingOrder, sl: Slice)
    requires k in m
    ensures Total(m[k := o], sl) == Total(m, sl) - Part(m[k], sl) + Part(o, sl)
  {
    TotalRemove(m, k, sl);
    TotalAdd(m - {k}, k, o, sl);
    assert m - {k} + map[k := o] == m[k := o] && (m - {k})[k := o] == m[k := o];
  }

  ghost predicate AllPositive(m: Orders) {
    forall k :: k in m ==> m[k].quantity > 0
  }

  lemma {:induction false} TotalAtLeast(m: Orders, sl: Slice)
    requires AllPositive(m)
    ensures Total(m, sl) >= 0
    ensures forall k :: k in m ==> Total(m, sl) >= Part(m[k], sl)
    decreases |m|
  {
    if m != map[] {
      var a := AnyKey(m);
      TotalAtLeast(m - {a}, sl);
      forall k | k in m ensures Total(m, sl) >= Part(m[k], sl) {
        assert k == a || k in m - {a};
      }
    }
  }

  /** A total is positive exactly when some order contributes to it. */
  lemma {:induction false} TotalPositive(m: Orders, sl: Slice)
    requires AllPositive(m)
    ensures Total(m, sl) > 0 <==> exists k :: k in m && InSlice(m[k], sl)
    decreases |m|
  {
    if m != map[] {
      var a := AnyKey(m);
      TotalPositive(m - {a}, sl);
      TotalAtLeast(m - {a}, sl);
      if exists k :: k in m && InSlice(m[k], sl) {
        var k :| k in m && InSlice(m[k], sl);
        assert k == a || (k in m - {a} && InSlice((m - {a})[k], sl));
      }
      if exists k :: k in m - {a} && InSlice((m - {a})[k], sl) {
        var k :| k in m - {a} && InSlice((m - {a})[k], sl);
        assert k in m && InSlice(m[k], sl);
      }
    }
  }

  // ----- the totals as they are kept

  datatype ClientBook = ClientBook(buys: map<int, int>, sells: map<int, int>)
  datatype Totals = Totals(open: map<nat, int>, books: map<(nat, nat), ClientBook>)

  function Lookup<K>(m: map<K, int>, k: K): int {
    if k in m then m[k] else 0
  }

  function Levels(b: ClientBook, side: Side): map<int, int> {
    if side == Buy then b.buys else b.sells
  }

  function BookOf(t: Totals, client: nat, symbol: nat): ClientBook {
    if (client, symbol) in t.books then t.books[(client, symbol)] else ClientBook(map[], map[])
  }

  function Value(t: Totals, sl: Slice): int {
    match sl
    case OfSymbol(symbol) => Lookup(t.open, symbol)
    case OfLevel(client, symbol, side, price) => Lookup(Levels(BookOf(t, client, symbol), side), price)
  }

  /** Only positive totals are stored. A client's book can be empty: an order without a side creates one. */
  ghost predicate Clean(t: Totals) {
    && (forall s :: s in t.open ==> t.open[s] > 0)
    && (forall k :: k in t.books ==> CleanBook(t.books[k]))
  }

  ghost predicate CleanBook(b: ClientBook) {
    && (forall p :: p in b.buys ==> b.buys[p] > 0) && (forall p :: p in b.sells ==> b.sells[p] > 0)
  }

  /** Client levels are kept only for self-trade prevention, and only for the two real sides. */
  predicate Kept(sl: Slice, selfTrade: bool) {
    sl.OfLevel? ==> selfTrade && ValidSide(sl.side)
  }

  /** The totals beside the orders are their sums. */
  ghost predicate Agree(m: Orders, t: Totals, selfTrade: bool) {
    && AllPositive(m) && Clean(t) && (!selfTrade ==> t.books == map[])
    && forall sl :: Kept(sl, selfTrade) ==> Value(t, sl) == Total(m, sl)
  }

  // ----- adding to and releasing from the totals

  function Bump<K>(m: map<K, int>, k: K, quantity: int): map<K, int> {
    m[k := Lookup(m, k) + quantity]
  }

  function Drain<K>(m: map<K, int>, k: K, quantity: int): map<K, int> {
    if k !in m then m else if m[k] - quantity <= 0 then m - {k} else m[k := m[k] - quantity]
  }

  function WithLevels(b: ClientBook, side: Side, levels: map<int, int>): ClientBook {
    if side == Buy then b.(buys := levels) else b.(sells := levels)
  }

  function SetBook(books: map<(nat, nat), ClientBook>, key: (nat, nat), b: ClientBook): map<(nat, nat), ClientBook> {
    if b.buys == map[] && b.sells == map[] then books - {key} else books[key := b]
  }

  function Added(t: Totals, o: WorkingOrder, quantity: int, selfTrade: bool): Totals {
    var open := Bump(t.open, o.symbol, quantity);
    if !selfTrade then Totals(open, t.books)
    else
      var b := BookOf(t, o.client, o.symbol);
      Totals(open, t.books[(o.client, o.symbol) :=
        if ValidSide(o.side) then WithLevels(b, o.side, Bump(Levels(b, o.side), o.price, quantity)) else b])
  }

  function Released(t: Totals, o: WorkingOrder, quantity: int): Totals {
    var open := Drain(t.open, o.symbol, quantity);
    if (o.client, o.symbol) !in t.books then Totals(open, t.books)
    else
      var b := t.books[(o.client, o.symbol)];
      var b' := if ValidSide(o.side) then WithLevels(b, o.side, Drain(Levels(b, o.side), o.price, quantity)) else b;
      Totals(open, SetBook(t.books, (o.client, o.symbol), b'))
  }

  lemma AddedIs(t: Totals, o: WorkingOrder, quantity: int, selfTrade: bool, sl: Slice)
    requires Clean(t) && quantity > 0 && Kept(sl, selfTrade)
    ensures Value(Added(t, o, quantity, selfTrade), sl) == Value(t, sl) + if InSlice(o, sl) then quantity else 0
  {
  }

  lemma AddedClean(t: Totals, o: WorkingOrder, quantity: int, selfTrade: bool)
    requires Clean(t) && quantity > 0
    ensures Clean(Added(t, o, quantity, selfTrade))
    ensures !selfTrade ==> Added(t, o, quantity, selfTrade).books == t.books
  {
    var t' := Added(t, o, quantity, selfTrade);
    var b := BookOf(t, o.client, o.symbol);
    if selfTrade && ValidSide(o.side) {
      var b' := t'.books[(o.client, o.symbol)];
      assert Levels(b', o.side) == Bump(Levels(b, o.side), o.price, quantity);
      assert o.price in Levels(b', o.side);
    }
  }

  lemma ReleasedIs(t: Totals, o: WorkingOrder, quantity: int, selfTrade: bool, sl: Slice)
    requires Clean(t) && quantity > 0 && Kept(sl, selfTrade)
    requires InSlice(o, sl) ==> Value(t, sl) >= quantity
    ensures Value(Released(t, o, quantity), sl) == Value(t, sl) - if InSlice(o, sl) then quantity else 0
  {
  }

  lemma ReleasedClean(t: Totals, o: WorkingOrder, quantity: int)
    requires Clean(t) && quantity > 0
    ensures Clean(Released(t, o, quantity)) && (t.books == map[] ==> Released(t, o, quantity).books == map[])
  {
  }

  // ----- orders and totals together

  lemma RegisterAgrees(m: Orders, t: Totals, k: nat, o: WorkingOrder, selfTrade: bool)
    requires Agree(m, t, selfTrade) && k !in m && o.quantity > 0
    ensures Agree(m[k := o], Added(t, o, o.quantity, selfTrade), selfTrade)
  {
    AddedClean(t, o, o.quantity, selfTrade);
    forall sl | Kept(sl, selfTrade) ensures Value(Added(t, o, o.quantity, selfTrade), sl) == Total(m[k := o], sl) {
      AddedIs(t, o, o.quantity, selfTrade, sl);
      TotalAdd(m, k, o, sl);
    }
  }

  lemma ReleaseAgrees(m: Orders, t: Totals, k: nat, selfTrade: bool)
    requires Agree(m, t, selfTrade) && k in m
    ensures Agree(m - {k}, Released(t, m[k], m[k].quantity), selfTrade)
  {
    var o := m[k];
    ReleasedClean(t, o, o.quantity);
    forall sl | Kept(sl, selfTrade) ensures Value(Released(t, o, o.quantity), sl) == Total(m - {k}, sl) {
      TotalAtLeast(m, sl);
      TotalRemove(m, k, sl);
      ReleasedIs(t, o, o.quantity, selfTrade, sl);
    }
  }

  /** Releasing an order and adding it back with new terms. */
  lemma ReplaceAgrees(m: Orders, t: Totals, k: nat, o: WorkingOrder, selfTrade: bool)
    requires Agree(m, t, selfTrade) && k in m && o.quantity > 0
    ensures Agree(m[k := o], Added(Released(t, m[k], m[k].quantity), o, o.quantity, selfTrade), selfTrade)
  {
    ReleaseAgrees(m, t, k, selfTrade);
    RegisterAgrees(m - {k}, Released(t, m[k], m[k].quantity), k, o, selfTrade);
    assert (m - {k})[k := o] == m[k := o];
  }

  /** Binding an exchange id changes no total. */
  lemma RebindAgrees(m: Orders, t: Totals, k: nat, exchangeId: nat, selfTrade: bool)
    requires Agree(m, t, selfTrade) && k in m
    ensures Agree(m[k := m[k].(exchangeId := exchangeId)], t, selfTrade)
  {
    forall sl | Kept(sl, selfTrade) ensures Value(t, sl) == Total(m[k := m[k].(exchangeId := exchangeId)], sl) {
      TotalReplace(m, k, m[k].(exchangeId := exchangeId), sl);
    }
  }

  // ----- self-trade prevention

  predicate Crosses(side: Side, market: bool, price: int, o: WorkingOrder) {
    market || (side == Buy && price >= o.price) || (side == Sell && price <= o.price)
  }

  /** A working order of the same client and symbol on the other side that the order would reach. */
  ghost predicate OwnOpposite(m: Orders, client: nat, symbol: nat, side: Side, market: bool, price: int) {
    exists k :: k in m && m[k].client == client && m[k].symbol == symbol && m[k].side == Opposite(side) && Crosses(side, market, price, m[k])
  }

  /** The best own opposing price, as the client's book shows it. */
  function OwnBest(t: Totals, client: nat, symbol: nat, side: Side): Option<int> {
    var levels := Levels(BookOf(t, client, symbol), Opposite(side));
    if levels == map[] then None else Some(Best(Opposite(side), levels.Keys))
  }

  /** Looking at the best own opposing price decides whether any own opposing order would be reached. */
  lemma BestDecides(m: Orders, t: Totals, client: nat, symbol: nat, side: Side, market: bool, price: int)
    requires Agree(m, t, true) && ValidSide(side)
    ensures OwnOpposite(m, client, symbol, side, market, price)
      <==> match OwnBest(t, client, symbol, side)
           case None => false
           case Some(best) => market || (side == Buy && price >= best) || (side == Sell && price <= best)
  {
    var opp := Opposite(side);
    var levels := Levels(BookOf(t, client, symbol), opp);
    forall p ensures p in levels <==> exists k :: k in m && InSlice(m[k], OfLevel(client, symbol, opp, p)) {
      var sl := OfLevel(client, symbol, opp, p);
      TotalPositive(m, sl);
      assert Kept(sl, true) && Value(t, sl) == Total(m, sl) == Lookup(levels, p);
    }
    if OwnOpposite(m, client, symbol, side, market, price) {
      var k :| k in m && m[k].client == client && m[k].symbol == symbol && m[k].side == opp && Crosses(side, market, price, m[k]);
      assert InSlice(m[k], OfLevel(client, symbol, opp, m[k].price));
      assert m[k].price in levels.Keys;
    }
    if levels != map[] {
      assert levels.Keys != {};
      var best := Best(opp, levels.Keys);
      assert best in levels;
      var k :| k in m && InSlice(m[k], OfLevel(client, symbol, opp, best));
    }
  }
}
