/** What matching means: it consumes the executable front of the opposing offers, listed by price
    and then by age, and nothing else. */
module MatchingLaws {
  import opened Types
  import opened Ranking
  import opened Reports
  import opened Exchanges

  // ----- offers in price-time order

  datatype Offer = Offer(id: nat, price: int, quantity: int)

  function QueueOffers(states: States, q: seq<nat>, price: int): seq<Offer> {
    seq(|q|, i requires 0 <= i < |q| => Offer(q[i], price, if q[i] in states then Remaining(states[q[i]]) else 0))
  }

  function OffersFrom(states: States, ladder: IdLadder, ps: seq<int>): seq<Offer> {
    if ps == [] then [] else QueueOffers(states, QueueAt(ladder, ps[0]), ps[0]) + OffersFrom(states, ladder, ps[1..])
  }

  /** The resting orders of a side, best price first and oldest first within a price. */
  function Offers(x: Exchange, side: Side): seq<Offer> {
    OffersFrom(x.states, On(x, side), Ranked(side, On(x, side).Keys))
  }

  // ----- what an incoming order may take from a list of offers

  datatype Taken = Taken(id: nat, price: int, quantity: int)

  predicate Acceptable(o: Offer, side: Side, orderType: OrderType, limit: int) {
    Executable(side, orderType, limit, o.price)
  }

  /** Take offers from the front while they are acceptable and something is wanted. */
  function Fills(os: seq<Offer>, side: Side, orderType: OrderType, limit: int, wanted: int): seq<Taken> {
    if os == [] || wanted <= 0 || !Acceptable(os[0], side, orderType, limit) then []
    else [Taken(os[0].id, os[0].price, Min(wanted, os[0].quantity))]
         + Fills(os[1..], side, orderType, limit, wanted - Min(wanted, os[0].quantity))
  }

  /** The offers after taking a quantity from the front. */
  function After(os: seq<Offer>, taken: int): seq<Offer> {
    if os == [] || taken <= 0 then os
    else if taken >= os[0].quantity then After(os[1..], taken - os[0].quantity)
    else [os[0].(quantity := os[0].quantity - taken)] + os[1..]
  }

  function Sum(ts: seq<Taken>): int {
    if ts == [] then 0 else ts[0].quantity + Sum(ts[1..])
  }

  /** The quantity on offer before the first offer that is not acceptable. */
  function Depth(os: seq<Offer>, side: Side, orderType: OrderType, limit: int): int {
    if os == [] || !Acceptable(os[0], side, orderType, limit) then 0
    else os[0].quantity + Depth(os[1..], side, orderType, limit)
  }

  predicate AllPositive(os: seq<Offer>) {
    forall i :: 0 <= i < |os| ==> os[i].quantity > 0
  }

  lemma {:induction false} DepthNonNegative(os: seq<Offer>, side: Side, orderType: OrderType, limit: int)
    requires AllPositive(os)
    ensures Depth(os, side, orderType, limit) >= 0
  {
    if os != [] && Acceptable(os[0], side, orderType, limit) {
      DepthNonNegative(os[1..], side, orderType, limit);
    }
  }

  /** The fill is the smaller of what is wanted and what is acceptable, it goes to a prefix of the
      offers in order, and every offer but the last one taken is taken whole. */
  lemma {:induction false} FillsAreShortestPrefix(os: seq<Offer>, side: Side, orderType: OrderType, limit: int,
                                                  wanted: int)
    requires AllPositive(os) && wanted >= 0
    ensures var fs := Fills(os, side, orderType, limit, wanted);
      && Sum(fs) == Min(wanted, Depth(os, side, orderType, limit))
      && |fs| <= |os|
      && (forall i :: 0 <= i < |fs| ==> fs[i].id == os[i].id && fs[i].price == os[i].price && 0 < fs[i].quantity <= os[i].quantity)
      && (forall i :: 0 <= i < |fs| ==> Executable(side, orderType, limit, fs[i].price))
      && (forall i :: 0 <= i < |fs| - 1 ==> fs[i].quantity == os[i].quantity)
  {
    if os != [] && wanted > 0 && Acceptable(os[0], side, orderType, limit) {
      var q := Min(wanted, os[0].quantity);
      FillsAreShortestPrefix(os[1..], side, orderType, limit, wanted - q);
      DepthNonNegative(os[1..], side, orderType, limit);
      var fs, rest := Fills(os, side, orderType, limit, wanted), Fills(os[1..], side, orderType, limit, wanted - q);
      assert fs == [Taken(os[0].id, os[0].price, q)] + rest;
      forall i | 0 <= i < |fs| ensures fs[i] == if i == 0 then Taken(os[0].id, os[0].price, q) else rest[i - 1] {}
      forall i | 0 < i < |fs| ensures os[i] == os[1..][i - 1] {}
    } else {
      DepthNonNegative(os, side, orderType, limit);
    }
  }

  // ----- the offers of an exchange

  lemma {:induction false} OffersAgree(states: States, states': States, ladder: IdLadder, ladder': IdLadder,
                                       ps: seq<int>)
    requires forall i :: 0 <= i < |ps| ==> QueueAt(ladder', ps[i]) == QueueAt(ladder, ps[i])
    requires forall i, j :: 0 <= i < |ps| && 0 <= j < |QueueAt(ladder, ps[i])| ==>
      var k := QueueAt(ladder, ps[i])[j]; k in states && k in states' && Remaining(states[k]) == Remaining(states'[k])
    ensures OffersFrom(states', ladder', ps) == OffersFrom(states, ladder, ps)
  {
    if ps != [] {
      assert QueueOffers(states', QueueAt(ladder', ps[0]), ps[0]) == QueueOffers(states, QueueAt(ladder, ps[0]), ps[0]);
      forall i | 0 <= i < |ps[1..]| ensures ps[1..][i] == ps[i + 1] {}
      OffersAgree(states, states', ladder, ladder', ps[1..]);
    }
  }

  lemma {:induction false} OffersPositiveFrom(states: States, ladder: IdLadder, side: Side, ps: seq<int>)
    requires LadderOk(ladder, states, side) && forall i :: 0 <= i < |ps| ==> ps[i] in ladder
    ensures AllPositive(OffersFrom(states, ladder, ps))
  {
    if ps != [] {
      OffersPositiveFrom(states, ladder, side, ps[1..]);
      var q := QueueAt(ladder, ps[0]);
      forall i | 0 <= i < |q| ensures Remaining(states[q[i]]) > 0 {
        assert Rests(states, q[i], side, ps[0]);
      }
    }
  }

  lemma OffersPositive(x: Exchange, side: Side)
    requires Ok(x) && ValidSide(side)
    ensures AllPositive(Offers(x, side))
  {
    RankedLists(side, On(x, side).Keys);
    OffersPositiveFrom(x.states, On(x, side), side, Ranked(side, On(x, side).Keys));
  }

  /** The best level comes first. */
  lemma OffersFront(x: Exchange, side: Side)
    requires On(x, side) != map[]
    ensures var ladder := On(x, side); var price := Best(side, ladder.Keys);
      Offers(x, side) == QueueOffers(x.states, QueueAt(ladder, price), price)
                         + OffersFrom(x.states, ladder, Ranked(side, ladder.Keys - {price}))
  {
    var keys := On(x, side).Keys;
    assert keys != {};
    assert Ranked(side, keys) == [Best(side, keys)] + Ranked(side, keys - {Best(side, keys)});
  }

  /** Offers behind the best level are untouched by a trade. */
  lemma TailSame(x: Exchange, id: nat, remaining: int, ts: int)
    requires CanTake(x, id, remaining)
    ensures var opp := Opposite(x.states[id].side); var ladder := On(x, opp); var x' := Take(x, id, remaining, ts).0;
      ladder != map[] &&
      var ps := Ranked(opp, ladder.Keys - {Best(opp, ladder.Keys)});
      OffersFrom(x'.states, On(x', opp), ps) == OffersFrom(x.states, ladder, ps)
  {
    TakeFacts(x, id, remaining);
    TakeTouches(x, id, remaining, ts);
    var opp := Opposite(x.states[id].side);
    var ladder, x' := On(x, opp), Take(x, id, remaining, ts).0;
    var price := Best(opp, ladder.Keys);
    var ps := Ranked(opp, ladder.Keys - {price});
    RankedLists(opp, ladder.Keys - {price});
    forall i | 0 <= i < |ps|
      ensures ps[i] in ladder && ps[i] != price && QueueAt(On(x', opp), ps[i]) == QueueAt(ladder, ps[i])
    {
      assert ps[i] in ladder.Keys - {price};
    }
    forall i, j | 0 <= i < |ps| && 0 <= j < |QueueAt(ladder, ps[i])|
      ensures var k := QueueAt(ladder, ps[i])[j];
        k in x.states && k in x'.states && Remaining(x.states[k]) == Remaining(x'.states[k])
    {
      var k := QueueAt(ladder, ps[i])[j];
      assert Rests(x.states, k, opp, ps[i]);
      assert k in QueueAt(ladder, ps[i]);
      assert Rests(x.states, ladder[price][0], opp, price);
    }
    OffersAgree(x.states, x'.states, ladder, On(x', opp), ps);
  }

  /** The front level after a trade: its first offer is reduced, or gone when it was used up. */
  lemma FrontLevelAfter(x: Exchange, id: nat, remaining: int, ts: int)
    requires CanTake(x, id, remaining)
    ensures On(x, Opposite(x.states[id].side)) != map[]
    ensures Best(Opposite(x.states[id].side), On(x, Opposite(x.states[id].side)).Keys) in On(x, Opposite(x.states[id].side))
    ensures var (x', remaining', reports) := Take(x, id, remaining, ts); var opp := Opposite(x.states[id].side);
            var price := Best(opp, On(x, opp).Keys); var front := QueueOffers(x.states, On(x, opp)[price], price);
      front != [] && front[0].quantity > 0 &&
      QueueOffers(x'.states, QueueAt(On(x', opp), price), price)
        == if remaining - remaining' == front[0].quantity then front[1..]
           else [front[0].(quantity := front[0].quantity - (remaining - remaining'))] + front[1..]
  {
    TakeFacts(x, id, remaining);
    TakeTouches(x, id, remaining, ts);
    var opp := Opposite(x.states[id].side);
    var price := Best(opp, On(x, opp).Keys);
    var (x', remaining', reports) := Take(x, id, remaining, ts);
    var q, q' := On(x, opp)[price], QueueAt(On(x', opp), price);
    var front, front' := QueueOffers(x.states, q, price), QueueOffers(x'.states, q', price);
    forall i | 0 < i < |q|
      ensures q[i] != q[0] && q[i] != id && Remaining(x'.states[q[i]]) == Remaining(x.states[q[i]])
    {
      assert Rests(x.states, q[i], opp, price);
      assert q[i] in q;
    }
    if remaining - remaining' == front[0].quantity {
      assert q' == q[1..];
      assert front' == front[1..];
    } else {
      assert q' == q;
      assert front' == [front[0].(quantity := front[0].quantity - (remaining - remaining'))] + front[1..];
    }
  }

  /** One trade takes its quantity from the front offer. */
  lemma TakeTakesFront(x: Exchange, id: nat, remaining: int, ts: int)
    requires CanTake(x, id, remaining)
    ensures var (x', remaining', reports) := Take(x, id, remaining, ts);
            var side := x.states[id].side; var os := Offers(x, Opposite(side)); var q := remaining - remaining';
      && os != [] && Acceptable(os[0], side, x.states[id].orderType, x.states[id].limit)
      && q == Min(remaining, os[0].quantity) && q > 0
      && |reports| == 2 && TradeOf(reports[0], Taken(os[0].id, os[0].price, q), os[0].id)
      && TradeOf(reports[1], Taken(os[0].id, os[0].price, q), id)
  {
    TakeFacts(x, id, remaining);
    OffersFront(x, Opposite(x.states[id].side));
  }

  /** Splitting off the level at a price that is best, or was best and is gone. */
  lemma OffersSplit(x: Exchange, side: Side, prices: set<int>, price: int)
    requires prices != {} && price == Best(side, prices)
    requires On(x, side).Keys == prices || (price !in On(x, side) && On(x, side).Keys == prices - {price})
    ensures Offers(x, side) == QueueOffers(x.states, QueueAt(On(x, side), price), price)
                               + OffersFrom(x.states, On(x, side), Ranked(side, prices - {price}))
  {
    if price in On(x, side) {
      assert On(x, side).Keys == prices;
      OffersFront(x, side);
    } else {
      assert QueueOffers(x.states, QueueAt(On(x, side), price), price) == [];
    }
  }

  lemma TakeKeys(x: Exchange, id: nat, remaining: int, ts: int)
    requires CanTake(x, id, remaining)
    ensures var opp := Opposite(x.states[id].side);
      var ladder, ladder' := On(x, opp), On(Take(x, id, remaining, ts).0, opp);
      ladder.Keys != {} && var price := Best(opp, ladder.Keys);
      ladder'.Keys == ladder.Keys || (price !in ladder' && ladder'.Keys == ladder.Keys - {price})
  {
    TakeFacts(x, id, remaining);
  }

  lemma TakeLeavesRest(x: Exchange, id: nat, remaining: int, ts: int)
    requires CanTake(x, id, remaining)
    ensures var (x', remaining', reports) := Take(x, id, remaining, ts); var opp := Opposite(x.states[id].side);
            var os := Offers(x, opp); var q := remaining - remaining';
      os != [] && Offers(x', opp) == if q == os[0].quantity then os[1..] else [os[0].(quantity := os[0].quantity - q)] + os[1..]
  {
    var opp := Opposite(x.states[id].side);
    var x' := Take(x, id, remaining, ts).0;
    var price := Best(opp, On(x, opp).Keys);
    TakeKeys(x, id, remaining, ts);
    FrontLevelAfter(x, id, remaining, ts);
    TailSame(x, id, remaining, ts);
    OffersSplit(x, opp, On(x, opp).Keys, price);
    OffersSplit(x', opp, On(x, opp).Keys, price);
    var front, tail := QueueOffers(x.states, On(x, opp)[price], price), OffersFrom(x.states, On(x, opp),
                                   Ranked(opp, On(x, opp).Keys - {price}));
    FrontThenTail(front, tail, remaining - Take(x, id, remaining, ts).1);
  }

  lemma FrontThenTail(front: seq<Offer>, tail: seq<Offer>, q: int)
    requires front != []
    ensures (front + tail)[0] == front[0] && (front + tail)[1..] == front[1..] + tail
    ensures ([front[0].(quantity := front[0].quantity - q)] + front[1..]) + tail
         == [front[0].(quantity := front[0].quantity - q)] + (front + tail)[1..]
  {
  }

  /** A report of a trade of this quantity and price, for this order. */
  predicate TradeOf(r: Report, t: Taken, id: nat) {
    r.execType == Trade && r.orderId == id && r.lastQuantity == t.quantity && r.lastPrice == t.price && r.reason == NoReason
  }

  // ----- matching as a whole

  /** Trades come in pairs, resting order first, one pair for each offer taken. */
  predicate TradesMatch(reports: seq<Report>, fills: seq<Taken>, id: nat) {
    && |reports| == 2 * |fills|
    && forall i :: 0 <= i < |fills| ==> TradeOf(reports[2 * i], fills[i], fills[i].id) && TradeOf(reports[2 * i + 1], fills[i], id)
  }

  lemma TradesPrepend(a: seq<Report>, t: Taken, reports: seq<Report>, fills: seq<Taken>, id: nat)
    requires |a| == 2 && TradeOf(a[0], t, t.id) && TradeOf(a[1], t, id) && TradesMatch(reports, fills, id)
    ensures TradesMatch(a + reports, [t] + fills, id)
  {
    var all, ts := a + reports, [t] + fills;
    forall i | 0 <= i < |ts| ensures TradeOf(all[2 * i], ts[i], ts[i].id) && TradeOf(all[2 * i + 1], ts[i], id) {
      if i > 0 {
        assert ts[i] == fills[i - 1] && all[2 * i] == reports[2 * (i - 1)] && all[2 * i + 1] == reports[2 * (i - 1) + 1];
      }
    }
  }

  /** Not crossing means the front offer is not acceptable. */
  lemma NoFrontOffer(x: Exchange, id: nat, remaining: int)
    requires Taking(x, id, remaining) && !CanTake(x, id, remaining)
    ensures var st := x.states[id]; var os := Offers(x, Opposite(st.side));
      remaining == 0 || os == [] || !Acceptable(os[0], st.side, st.orderType, st.limit)
  {
    var opp := Opposite(x.states[id].side);
    if On(x, opp) != map[] {
      OffersFront(x, opp);
      assert On(x, opp)[Best(opp, On(x, opp).Keys)] != [];
    }
  }

  /** The fills priority prescribes were taken: reported pair by pair, and gone from the front of the offers. */
  ghost predicate Follows(os: seq<Offer>, side: Side, orderType: OrderType, limit: int, wanted: int,
                          left: int, reports: seq<Report>, after: seq<Offer>, id: nat) {
    var fills := Fills(os, side, orderType, limit, wanted);
    TradesMatch(reports, fills, id) && left == wanted - Sum(fills) && after == After(os, Sum(fills))
  }

  /** Matching takes exactly the fills that price-time priority prescribes, reports each as a pair
      of trades, and leaves the opposing offers shorter by exactly those fills. */
  ghost predicate FollowsPriority(x: Exchange, id: nat, remaining: int, ts: int)
    requires Taking(x, id, remaining)
  {
    var st := x.states[id];
    var (x', remaining', reports) := Match(x, id, remaining, ts);
    Follows(Offers(x, Opposite(st.side)), st.side, st.orderType, st.limit, remaining, remaining', reports, Offers(x', Opposite(st.side)), id)
  }

  lemma MatchUnfolds(x: Exchange, id: nat, remaining: int, ts: int)
    requires CanTake(x, id, remaining)
    ensures var (x', remaining', two) := Take(x, id, remaining, ts);
      && Taking(x', id, remaining') && SameTerms(x'.states[id], x.states[id])
      && Match(x, id, remaining, ts) == (Match(x', id, remaining', ts).0, Match(x', id, remaining', ts).1, two + Match(x', id, remaining', ts).2)
  {
    TakeKeeps(x, id, remaining, ts);
    TakeTouches(x, id, remaining, ts);
  }

  /** The rest of a matching after one trade, in the terms the order had before it. */
  lemma FollowsLater(x: Exchange, id: nat, remaining: int, ts: int, x': Exchange, remaining': int)
    requires CanTake(x, id, remaining) && x' == Take(x, id, remaining, ts).0
    requires remaining' == Take(x, id, remaining, ts).1
    requires Taking(x', id, remaining') && FollowsPriority(x', id, remaining', ts)
    ensures var st, opp := x.states[id], Opposite(x.states[id].side);
      var (y, left, reports) := Match(x', id, remaining', ts);
      && Follows(Offers(x', opp), st.side, st.orderType, st.limit, remaining', left, reports, Offers(y, opp), id)
      && Match(x, id, remaining, ts) == (y, left, Take(x, id, remaining, ts).2 + reports)
  {
    MatchUnfolds(x, id, remaining, ts);
  }

  /** One trade takes its quantity from the front offer, in two reports. */
  ghost predicate TakesFront(os: seq<Offer>, os': seq<Offer>, side: Side, orderType: OrderType, limit: int,
                             wanted: int, q: int,
                             two: seq<Report>, id: nat)
  {
    && os != [] && AllPositive(os) && AllPositive(os') && wanted > 0
    && Acceptable(os[0], side, orderType, limit) && q == Min(wanted, os[0].quantity)
    && os' == (if q == os[0].quantity then os[1..] else [os[0].(quantity := os[0].quantity - q)] + os[1..])
    && |two| == 2 && TradeOf(two[0], Taken(os[0].id, os[0].price, q), os[0].id)
    && TradeOf(two[1], Taken(os[0].id, os[0].price, q), id)
  }

  lemma TakeIsFromFront(x: Exchange, id: nat, remaining: int, ts: int)
    requires CanTake(x, id, remaining)
    ensures var st, opp := x.states[id], Opposite(x.states[id].side);
      var (x', remaining', two) := Take(x, id, remaining, ts);
      TakesFront(Offers(x, opp), Offers(x', opp), st.side, st.orderType, st.limit, remaining, remaining - remaining', two, id)
  {
    var opp := Opposite(x.states[id].side);
    TakeKeeps(x, id, remaining, ts);
    TakeTakesFront(x, id, remaining, ts);
    TakeLeavesRest(x, id, remaining, ts);
    OffersPositive(x, opp);
    OffersPositive(Take(x, id, remaining, ts).0, opp);
  }

  lemma FollowsStep(x: Exchange, id: nat, remaining: int, ts: int, x': Exchange, remaining': int)
    requires CanTake(x, id, remaining) && x' == Take(x, id, remaining, ts).0
    requires remaining' == Take(x, id, remaining, ts).1
    requires Taking(x', id, remaining') && FollowsPriority(x', id, remaining', ts)
    ensures FollowsPriority(x, id, remaining, ts)
  {
    var st, opp := x.states[id], Opposite(x.states[id].side);
    FollowsLater(x, id, remaining, ts, x', remaining');
    TakeIsFromFront(x, id, remaining, ts);
    var (y, left, reports) := Match(x', id, remaining', ts);
    StepGlue(Offers(x, opp), Offers(x', opp), st.side, st.orderType, st.limit, remaining, remaining - remaining',
             Take(x, id, remaining, ts).2, left, reports, Offers(y, opp), id);
  }

  /** The front offer's trade followed by the fills of what it leaves. */
  lemma StepGlue(os: seq<Offer>, os': seq<Offer>, side: Side, orderType: OrderType, limit: int, wanted: int, q: int,
                 two: seq<Report>, left: int, reports: seq<Report>, after: seq<Offer>, id: nat)
    requires TakesFront(os, os', side, orderType, limit, wanted, q, two, id)
    requires Follows(os', side, orderType, limit, wanted - q, left, reports, after, id)
    ensures Follows(os, side, orderType, limit, wanted, left, two + reports, after, id)
  {
    var rest := Fills(os', side, orderType, limit, wanted - q);
    FillsStep(os, side, orderType, limit, wanted, q);
    TradesPrepend(two, Taken(os[0].id, os[0].price, q), reports, rest, id);
    FillsNonNegative(os', side, orderType, limit, wanted - q);
    AfterStep(os, q, Sum(rest));
  }

  lemma FillsNonNegative(os: seq<Offer>, side: Side, orderType: OrderType, limit: int, wanted: int)
    requires AllPositive(os) && wanted >= 0
    ensures 0 <= Sum(Fills(os, side, orderType, limit, wanted)) <= wanted
  {
    FillsAreShortestPrefix(os, side, orderType, limit, wanted);
    DepthNonNegative(os, side, orderType, limit);
  }

  lemma {:induction false} MatchFollowsPriority(x: Exchange, id: nat, remaining: int, ts: int)
    requires Taking(x, id, remaining)
    ensures FollowsPriority(x, id, remaining, ts)
    decreases remaining
  {
    if CanTake(x, id, remaining) {
      TakeKeeps(x, id, remaining, ts);
      var (x', remaining', reports) := Take(x, id, remaining, ts);
      MatchFollowsPriority(x', id, remaining', ts);
      FollowsStep(x, id, remaining, ts, x', remaining');
    } else {
      NoFrontOffer(x, id, remaining);
    }
  }

  /** Taking from the front offer first, then from what it leaves. */
  lemma FillsStep(os: seq<Offer>, side: Side, orderType: OrderType, limit: int, wanted: int, q: int)
    requires os != [] && wanted > 0 && Acceptable(os[0], side, orderType, limit) && os[0].quantity > 0
    requires q == Min(wanted, os[0].quantity)
    ensures var left := if q == os[0].quantity then os[1..] else [os[0].(quantity := os[0].quantity - q)] + os[1..];
      Fills(os, side, orderType, limit, wanted) == [Taken(os[0].id, os[0].price, q)] + Fills(left, side, orderType, limit, wanted - q)
  {
  }

  lemma AfterStep(os: seq<Offer>, q: int, more: int)
    requires os != [] && 0 < q <= os[0].quantity && more >= 0 && (q < os[0].quantity ==> more == 0)
    ensures var left := if q == os[0].quantity then os[1..] else [os[0].(quantity := os[0].quantity - q)] + os[1..];
      After(left, more) == After(os, q + more)
  {
  }

  /** Where an order stands after a trade: only the one traded with can have left, and only once used up. */
  lemma TakeStays(x: Exchange, id: nat, remaining: int, ts: int, k: nat)
    requires CanTake(x, id, remaining) && k in x.states && k != id
    ensures var x' := Take(x, id, remaining, ts).0; var rid := Opponent(x, x.states[id].side);
      && k in x'.states
      && (k != rid ==> x'.states[k] == x.states[k] && InBook(x', k) == InBook(x, k))
      && (k == rid ==> InBook(x', k) == (Remaining(x'.states[k]) > 0)
                       && x'.states[k].status == if Remaining(x'.states[k]) > 0 then PartiallyFilled else Filled)
  {
    TakeFacts(x, id, remaining);
    var opp := Opposite(x.states[id].side);
    var rid := Opponent(x, x.states[id].side);
    var price := x.states[rid].limit;
    var q := On(x, opp)[price];
    assert q == [q[0]] + q[1..];
    assert forall j :: 0 < j < |q| ==> q[j] != q[0];
    assert rid !in q[1..];
  }
}
