/** How a book of orders with cached quantities represents the exchange, whose quantities live only
    in the order states. */
module Bridge {
  import opened Types
  import opened Ranking
  import B = Books
  import opened Reports
  import opened Exchanges

  function Ids(q: B.Queue): seq<nat> {
    seq(|q|, i requires 0 <= i < |q| => q[i].orderId)
  }

  function IdsOf(ladder: B.Ladder): IdLadder {
    map p | p in ladder :: Ids(ladder[p])
  }

  /** Each queued order carries exactly what its state has left. */
  ghost predicate Backed(b: B.Book, states: States) {
    forall s, p, i :: B.In(b, s, p, i) ==> B.Get(b, s, p, i).orderId in states && B.Get(b, s, p, i).quantity == Remaining(states[B.Get(b, s, p, i).orderId])
  }

  ghost predicate Represents(b: B.Book, x: Exchange) {
    && b.symbol == x.symbol && x.bids == IdsOf(b.bids) && x.asks == IdsOf(b.asks)
    && B.Sound(b) && Ok(x) && Backed(b, x.states)
  }

  lemma LaddersMeet(b: B.Book, x: Exchange, side: Side)
    requires Represents(b, x) && ValidSide(side)
    ensures On(x, side) == IdsOf(B.On(b, side)) && On(x, side).Keys == B.On(b, side).Keys
  {
  }

  lemma PositionsMeet(b: B.Book, x: Exchange, s: Side, p: int, i: int)
    requires Represents(b, x)
    ensures B.In(b, s, p, i) <==> ValidSide(s) && p in On(x, s) && 0 <= i < |On(x, s)[p]|
    ensures B.In(b, s, p, i) ==> B.Get(b, s, p, i).orderId == On(x, s)[p][i]
    ensures B.In(b, s, p, i) ==> Rests(x.states, On(x, s)[p][i], s, p) && B.Get(b, s, p, i).quantity == Remaining(x.states[On(x, s)[p][i]])
  {
    if B.In(b, s, p, i) {
      LaddersMeet(b, x, s);
      assert Ids(B.On(b, s)[p])[i] == B.Get(b, s, p, i).orderId;
    }
  }

  lemma RestingIffHas(b: B.Book, x: Exchange, id: nat)
    requires Represents(b, x)
    ensures B.Has(b, id) <==> InBook(x, id)
  {
    if B.Has(b, id) {
      var s, p, i :| B.In(b, s, p, i) && B.Get(b, s, p, i).orderId == id;
      PositionsMeet(b, x, s, p, i);
    }
    if InBook(x, id) {
      var s, p := x.states[id].side, x.states[id].limit;
      RestsIn(x, id);
      var i :| 0 <= i < |QueueAt(On(x, s), p)| && QueueAt(On(x, s), p)[i] == id;
      PositionsMeet(b, x, s, p, i);
    }
  }

  /** The position of a resting order. */
  lemma RestsAt(b: B.Book, x: Exchange, id: nat) returns (i: nat)
    requires Represents(b, x) && InBook(x, id)
    ensures var st := x.states[id];
      B.In(b, st.side, st.limit, i) && B.Get(b, st.side, st.limit, i).orderId == id && On(x, st.side)[st.limit][i] == id
  {
    var s, p := x.states[id].side, x.states[id].limit;
    RestsIn(x, id);
    i :| 0 <= i < |QueueAt(On(x, s), p)| && QueueAt(On(x, s), p)[i] == id;
    PositionsMeet(b, x, s, p, i);
  }

  lemma BestMeets(b: B.Book, x: Exchange, side: Side)
    requires Represents(b, x) && ValidSide(side)
    ensures B.BestPrice(b, side) == BestPrice(x, side)
  {
    LaddersMeet(b, x, side);
    assert On(x, side) == map[] <==> On(x, side).Keys == {};
    assert |B.On(b, side)| == |B.On(b, side).Keys|;
  }

  /** The order at the front of the best level, as the book shows it. */
  lemma FrontMeets(b: B.Book, x: Exchange, side: Side)
    requires Represents(b, x) && ValidSide(side) && On(x, side) != map[]
    ensures var p := Best(side, On(x, side).Keys);
      && B.BestOrder(b, side) == Some(B.Get(b, side, p, 0)) && B.In(b, side, p, 0)
      && B.Get(b, side, p, 0).orderId == On(x, side)[p][0] && B.Get(b, side, p, 0).price == p
      && B.Get(b, side, p, 0).quantity == Remaining(x.states[On(x, side)[p][0]])
  {
    BestMeets(b, x, side);
    var p := Best(side, On(x, side).Keys);
    assert On(x, side)[p] != [];
    PositionsMeet(b, x, side, p, 0);
  }

  lemma {:induction false} TotalMeets(q: B.Queue, states: States)
    requires forall i :: 0 <= i < |q| ==> q[i].orderId in states && q[i].quantity == Remaining(states[q[i].orderId])
    ensures B.Total(q) == LevelQuantity(states, Ids(q))
  {
    if q != [] {
      var init := q[..|q| - 1];
      TotalMeets(init, states);
      assert Ids(q)[..|q| - 1] == Ids(init);
    }
  }

  lemma LevelMeets(b: B.Book, x: Exchange, side: Side, p: int)
    requires Represents(b, x) && ValidSide(side) && p in On(x, side)
    ensures p in B.On(b, side) && B.Total(B.On(b, side)[p]) == LevelQuantity(x.states, On(x, side)[p])
  {
    LaddersMeet(b, x, side);
    var q := B.On(b, side)[p];
    forall i | 0 <= i < |q| ensures q[i].orderId in x.states && q[i].quantity == Remaining(x.states[q[i].orderId]) {
      PositionsMeet(b, x, side, p, i);
    }
    TotalMeets(q, x.states);
  }

  /** The aggregate view of one side, level quantities added up from the order states. */
  function ShowLadder(states: States, ladder: IdLadder, side: Side): (levels: seq<B.L2Level>)
    ensures |levels| == |ladder.Keys|
  {
    var ps := Ranked(side, ladder.Keys);
    seq(|ps|, i requires 0 <= i < |ps| => B.L2Level(ps[i], LevelQuantity(states, QueueAt(ladder, ps[i]))))
  }

  function LevelsShown(x: Exchange, side: Side): seq<B.L2Level> {
    ShowLadder(x.states, On(x, side), side)
  }

  /** The book's cached level totals are the recomputed ones, at any depth. */
  lemma ViewShows(b: B.Book, x: Exchange, depth: nat)
    requires Represents(b, x)
    ensures B.L2(b, depth) == B.L2View(x.symbol, B.Take(LevelsShown(x, Buy), depth), B.Take(LevelsShown(x, Sell), depth))
  {
    SideShows(b, x, Buy, depth);
    SideShows(b, x, Sell, depth);
  }

  lemma SideShows(b: B.Book, x: Exchange, side: Side, depth: nat)
    requires Represents(b, x) && ValidSide(side)
    ensures B.LevelsOf(B.On(b, side), B.Take(B.Prices(B.On(b, side), side), depth)) == B.Take(LevelsShown(x, side), depth)
  {
    LaddersMeet(b, x, side);
    RankedLists(side, On(x, side).Keys);
    var ps := Ranked(side, On(x, side).Keys);
    forall i | 0 <= i < |ps|
      ensures ps[i] in On(x, side) && B.Total(B.On(b, side)[ps[i]]) == LevelQuantity(x.states, On(x, side)[ps[i]])
    {
      LevelMeets(b, x, side, ps[i]);
    }
  }

  // ----- what each change of the book means for the exchange

  /** Changing states that matter to no queued quantity. */
  lemma StatesChange(b: B.Book, x: Exchange, x': Exchange)
    requires Represents(b, x) && Ok(x') && x'.symbol == x.symbol && x'.bids == x.bids && x'.asks == x.asks
    requires forall k :: InBook(x, k) ==> k in x'.states && Remaining(x'.states[k]) == Remaining(x.states[k])
    ensures Represents(b, x')
  {
    forall s, p, i | B.In(b, s, p, i)
      ensures B.Get(b, s, p, i).orderId in x'.states
      ensures B.Get(b, s, p, i).quantity == Remaining(x'.states[B.Get(b, s, p, i).orderId])
    {
      PositionsMeet(b, x, s, p, i);
      assert On(x, s)[p][i] in On(x, s)[p];
    }
  }

  lemma {:induction false} WithoutAt(q: seq<nat>, i: nat)
    requires Distinct(q) && i < |q|
    ensures Without(q, q[i]) == q[..i] + q[i + 1..]
  {
    if i == 0 {
      WithoutAbsent(q[1..], q[0]);
    } else {
      WithoutAt(q[1..], i - 1);
      assert q[1..][i - 1] == q[i] && q[0] != q[i];
      assert [q[0]] + (q[1..][..i - 1] + q[1..][i..]) == q[..i] + q[i + 1..];
    }
  }

  lemma {:induction false} WithoutAbsent(q: seq<nat>, id: nat)
    requires id !in q
    ensures Without(q, id) == q
  {
    if q != [] {
      WithoutAbsent(q[1..], id);
    }
  }

  lemma IdsRemove(q: B.Queue, i: nat)
    requires i < |q|
    ensures Ids(B.RemoveAt(q, i)) == Ids(q)[..i] + Ids(q)[i + 1..]
  {
  }

  lemma LadderChanges(ladder: B.Ladder, price: int, q: B.Queue)
    ensures IdsOf(B.SetQueue(ladder, price, q)) == SetQueue(IdsOf(ladder), price, Ids(q))
  {
    var a, c := IdsOf(B.SetQueue(ladder, price, q)), SetQueue(IdsOf(ladder), price, Ids(q));
    assert |Ids(q)| == |q|;
    forall p ensures p in a <==> p in c {}
    forall p | p in a ensures a[p] == c[p] {}
  }

  /** Cancelling in the book is withdrawing in the exchange. */
  lemma DropMeets(b: B.Book, x: Exchange, id: nat)
    requires Represents(b, x) && InBook(x, id)
    ensures Represents(B.Drop(b, id), Unrest(x, id))
  {
    var i := RestsAt(b, x, id);
    var s, p := x.states[id].side, x.states[id].limit;
    B.DropIs(b, s, p, i);
    RestingIffHas(b, x, id);
    B.DropSound(b, id);
    UnrestKeeps(x, id);
    WithoutAt(On(x, s)[p], i);
    IdsRemove(B.On(b, s)[p], i);
    LadderChanges(B.On(b, s), p, B.RemoveAt(B.On(b, s)[p], i));
    LaddersMeet(b, x, s);
    DropBacked(b, x, id);
  }

  lemma DropBacked(b: B.Book, x: Exchange, id: nat)
    requires Represents(b, x) && InBook(x, id)
    ensures Backed(B.Drop(b, id), x.states)
  {
    var i0 := RestsAt(b, x, id);
    var s0, p0 := x.states[id].side, x.states[id].limit;
    B.DropIs(b, s0, p0, i0);
    var b' := B.Drop(b, id);
    forall s, p, i | B.In(b', s, p, i)
      ensures B.Get(b', s, p, i).orderId in x.states
      ensures B.Get(b', s, p, i).quantity == Remaining(x.states[B.Get(b', s, p, i).orderId])
    {
      var j := B.Origin(s0, p0, i0, s, p, i);
      assert B.In(b, s, p, j) && B.Get(b', s, p, i) == B.Get(b, s, p, j);
    }
  }

  /** Filling the front order completely removes it from the book. */
  lemma TakeAllMeets(b: B.Book, x: Exchange, id: nat, remaining: int, ts: int)
    requires Represents(b, x) && CanTake(x, id, remaining)
    requires Opponent(x, x.states[id].side) in x.states
    requires TakeQuantity(x, id, remaining) == Remaining(x.states[Opponent(x, x.states[id].side)])
    ensures Represents(B.Drop(b, Opponent(x, x.states[id].side)), Take(x, id, remaining, ts).0)
  {
    TakeFacts(x, id, remaining);
    TakeKeeps(x, id, remaining, ts);
    TakeAllUnrests(x, id, remaining, ts);
    var rid := Opponent(x, x.states[id].side);
    DropMeets(b, x, rid);
    StatesChange(B.Drop(b, rid), Unrest(x, rid), Take(x, id, remaining, ts).0);
  }

  lemma TakeAllUnrests(x: Exchange, id: nat, remaining: int, ts: int)
    requires CanTake(x, id, remaining)
    requires Opponent(x, x.states[id].side) in x.states
    requires TakeQuantity(x, id, remaining) == Remaining(x.states[Opponent(x, x.states[id].side)])
    ensures var x', y := Take(x, id, remaining, ts).0, Unrest(x, Opponent(x, x.states[id].side));
      && x'.symbol == y.symbol && x'.bids == y.bids && x'.asks == y.asks
      && forall k :: InBook(y, k) ==> k in x'.states && Remaining(x'.states[k]) == Remaining(y.states[k])
  {
    TakeFacts(x, id, remaining);
    TakeTouches(x, id, remaining, ts);
    var rid, opp := Opponent(x, x.states[id].side), Opposite(x.states[id].side);
    var q := On(x, opp)[x.states[rid].limit];
    UnrestKeeps(x, rid);
    WithoutAt(q, 0);
    assert Without(q, rid) == q[1..];
  }

  lemma ShrinkBacked(b: B.Book, x: Exchange, states': States, s0: Side, p0: int, n: int)
    requires Represents(b, x) && B.In(b, s0, p0, 0)
    requires var rid := On(x, s0)[p0][0];
      && rid in states' && Remaining(states'[rid]) == Remaining(x.states[rid]) - n
      && forall k :: InBook(x, k) && k != rid ==> k in states' && states'[k] == x.states[k]
    ensures Backed(B.Shrink(b, On(x, s0)[p0][0], n), states')
  {
    PositionsMeet(b, x, s0, p0, 0);
    B.ShrinkIs(b, s0, p0, 0, n);
    var b' := B.Shrink(b, On(x, s0)[p0][0], n);
    forall s, p, i | B.In(b', s, p, i)
      ensures B.Get(b', s, p, i).orderId in states'
      ensures B.Get(b', s, p, i).quantity == Remaining(states'[B.Get(b', s, p, i).orderId])
    {
      assert B.In(b, s, p, i) && B.Get(b', s, p, i).orderId == B.Get(b, s, p, i).orderId;
      PositionsMeet(b, x, s, p, i);
      assert On(x, s)[p][i] in On(x, s)[p];
    }
  }

  lemma ShrinkIds(b: B.Book, s0: Side, p0: int, n: int)
    requires B.Sound(b) && B.In(b, s0, p0, 0)
    ensures var b' := B.Shrink(b, B.Get(b, s0, p0, 0).orderId, n);
      IdsOf(b'.bids) == IdsOf(b.bids) && IdsOf(b'.asks) == IdsOf(b.asks)
  {
    B.ShrinkIs(b, s0, p0, 0, n);
    var q, o := B.On(b, s0)[p0], B.Get(b, s0, p0, 0);
    assert Ids(q[0 := o.(quantity := o.quantity - n)]) == Ids(q);
    assert IdsOf(B.On(b, s0)[p0 := q[0 := o.(quantity := o.quantity - n)]]) == IdsOf(B.On(b, s0));
  }

  /** Filling part of the front order shrinks it in the book. */
  lemma TakePartMeets(b: B.Book, x: Exchange, id: nat, remaining: int, ts: int)
    requires Represents(b, x) && CanTake(x, id, remaining)
    requires Opponent(x, x.states[id].side) in x.states
    requires TakeQuantity(x, id, remaining) < Remaining(x.states[Opponent(x, x.states[id].side)])
    ensures Represents(B.Shrink(b, Opponent(x, x.states[id].side), TakeQuantity(x, id, remaining)), Take(x, id, remaining, ts).0)
  {
    TakeFacts(x, id, remaining);
    TakeKeeps(x, id, remaining, ts);
    TakeTouches(x, id, remaining, ts);
    var rid, opp, x' := Opponent(x, x.states[id].side), Opposite(x.states[id].side), Take(x, id, remaining, ts).0;
    var p, n := Best(opp, On(x, opp).Keys), TakeQuantity(x, id, remaining);
    FrontMeets(b, x, opp);
    ShrinkIds(b, opp, p, n);
    ShrinkBacked(b, x, x'.states, opp, p, n);
    B.FindIs(b, opp, p, 0);
    B.ShrinkSound(b, rid, n);
  }

  /** One trade: the book's reduce does what the exchange's step does. */
  lemma TakeMeets(b: B.Book, x: Exchange, id: nat, remaining: int, ts: int)
    requires Represents(b, x) && CanTake(x, id, remaining)
    ensures Opponent(x, x.states[id].side) in x.states
    ensures var (b', ok) := B.Reduce(b, Opponent(x, x.states[id].side), TakeQuantity(x, id, remaining));
      ok && Represents(b', Take(x, id, remaining, ts).0)
  {
    TakeFacts(x, id, remaining);
    var rid, opp := Opponent(x, x.states[id].side), Opposite(x.states[id].side);
    var p := Best(opp, On(x, opp).Keys);
    FrontMeets(b, x, opp);
    B.FindIs(b, opp, p, 0);
    if TakeQuantity(x, id, remaining) == Remaining(x.states[rid]) {
      TakeAllMeets(b, x, id, remaining, ts);
    } else {
      TakePartMeets(b, x, id, remaining, ts);
    }
  }

  function RestingOrder(st: OrderState, remaining: int, ts: int): Order {
    Order(st.orderId, st.clientOrderId, st.symbolId, st.side, st.limit, remaining, ts, st.orderId)
  }

  /** Resting the rest of an order in the book: it is accepted exactly when the symbol is set. */
  lemma RestMeets(b: B.Book, x: Exchange, id: nat, remaining: int, ts: int)
    requires Represents(b, x) && Taking(x, id, remaining) && remaining > 0 && x.states[id].orderType == Limit
    ensures var (b', ok) := B.Add(b, RestingOrder(x.states[id], remaining, ts));
      ok == (x.symbol != INVALID_ID) && (if ok then Represents(b', Rest(x, id)) else b' == b)
  {
    RestingIffHas(b, x, id);
    if x.symbol != INVALID_ID {
      var o := RestingOrder(x.states[id], remaining, ts);
      B.PushSound(b, o);
      RestKeeps(x, id, remaining);
      LaddersMeet(b, x, o.side);
      var q := B.QueueAt(B.On(b, o.side), o.price);
      assert Ids(q + [o]) == QueueAt(On(x, o.side), o.price) + [id];
      LadderChanges(B.On(b, o.side), o.price, q + [o]);
      PushBacked(b, x, o, id, remaining);
    }
  }

  lemma PushBacked(b: B.Book, x: Exchange, o: Order, id: nat, remaining: int)
    requires Represents(b, x) && id in x.states && o.orderId == id && o.quantity == remaining == Remaining(x.states[id])
    requires ValidSide(o.side)
    ensures Backed(B.Push(b, o), x.states)
  {
    var b', n := B.Push(b, o), |B.QueueAt(B.On(b, o.side), o.price)|;
    forall s, p, i | B.In(b', s, p, i)
      ensures B.Get(b', s, p, i).orderId in x.states
      ensures B.Get(b', s, p, i).quantity == Remaining(x.states[B.Get(b', s, p, i).orderId])
    {
      if (s, p, i) != (o.side, o.price, n) {
        assert B.In(b, s, p, i) && B.Get(b', s, p, i) == B.Get(b, s, p, i);
      }
    }
  }
}
