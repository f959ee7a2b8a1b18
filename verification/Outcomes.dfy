/** What becomes of each request, told from the resting orders it meets: why it is refused, what it
    trades, what rests afterwards and where, and what every other order keeps. */
module Outcomes {
  import opened Types
  import opened Ranking
  import opened Reports
  import opened Exchanges
  import opened MatchingLaws
  import opened PriceLaws
  import opened ExchangeLaws

  // ----- the resting orders a request meets

  /** A resting order on the other side at a price the incoming order accepts. */
  predicate Facing(x: Exchange, side: Side, orderType: OrderType, limit: int, k: nat) {
    InBook(x, k) && x.states[k].side == Opposite(side) && Executable(side, orderType, limit, x.states[k].limit)
  }

  function FacingIds(x: Exchange, side: Side, orderType: OrderType, limit: int): set<nat> {
    set k | k in x.states && Facing(x, side, orderType, limit, k)
  }

  /** What is left to fill of these orders, all together. */
  ghost function Left(states: States, ids: set<nat>): int
    requires ids <= states.Keys
    decreases |ids|
  {
    if ids == {} then 0 else
    var k := Pick(ids);
    Remaining(states[k]) + Left(states, ids - {k})
  }

  lemma {:induction false} LeftRemove(states: States, ids: set<nat>, k: nat)
    requires ids <= states.Keys && k in ids
    ensures Left(states, ids) == Remaining(states[k]) + Left(states, ids - {k})
    decreases |ids|
  {
    var a := Pick(ids);
    if a != k {
      LeftRemove(states, ids - {a}, k);
      LeftRemove(states, ids - {k}, a);
      assert ids - {a} - {k} == ids - {k} - {a};
    }
  }

  /** An offer shows a resting order of its side, at its price, with what it has left. */
  predicate Genuine(states: States, ladder: IdLadder, side: Side, o: Offer) {
    Rests(states, o.id, side, o.price) && o.id in QueueAt(ladder, o.price) && o.quantity == Remaining(states[o.id])
  }

  predicate Offered(os: seq<Offer>, k: nat) {
    exists i :: 0 <= i < |os| && os[i].id == k
  }

  /** The list of offers shows the orders resting at these prices, none of them twice. */
  ghost predicate Listed(states: States, ladder: IdLadder, side: Side, ps: seq<int>, os: seq<Offer>) {
    && (forall i :: 0 <= i < |os| ==> Genuine(states, ladder, side, os[i]) && os[i].price in ps)
    && (forall i, j :: 0 <= i < j < |os| ==> os[i].id != os[j].id)
    && (forall p, k :: p in ps && k in QueueAt(ladder, p) ==> Offered(os, k))
  }

  lemma {:induction false} OffersListed(states: States, ladder: IdLadder, side: Side, ps: seq<int>)
    requires LadderOk(ladder, states, side) && StrictlyRanked(side, ps)
    requires forall i :: 0 <= i < |ps| ==> ps[i] in ladder
    ensures Listed(states, ladder, side, ps, OffersFrom(states, ladder, ps))
  {
    if ps != [] {
      OffersListed(states, ladder, side, ps[1..]);
      LevelThenRest(states, ladder, side, ps, OffersFrom(states, ladder, ps[1..]));
    }
  }

  lemma LevelThenRest(states: States, ladder: IdLadder, side: Side, ps: seq<int>, tail: seq<Offer>)
    requires LadderOk(ladder, states, side) && StrictlyRanked(side, ps) && ps != [] && ps[0] in ladder
    requires Listed(states, ladder, side, ps[1..], tail)
    ensures Listed(states, ladder, side, ps, QueueOffers(states, ladder[ps[0]], ps[0]) + tail)
  {
    var front := QueueOffers(states, ladder[ps[0]], ps[0]);
    LevelGenuine(states, ladder, side, ps[0]);
    TailWorse(side, ps, tail);
    LevelApart(states, ladder, side, ps[0], front, tail);
    forall i | 0 <= i < |front + tail| ensures Genuine(states, ladder, side, (front + tail)[i]) && (front + tail)[i].price in ps {
      assert (front + tail)[i] == if i < |front| then front[i] else tail[i - |front|];
    }
    forall p, k | p in ps && k in QueueAt(ladder, p) ensures Offered(front + tail, k) {
      if p != ps[0] { assert p in ps[1..]; }
      OfferedJoin(front, tail, k);
    }
  }

  /** A level's offers are its queue, each order once. */
  lemma LevelGenuine(states: States, ladder: IdLadder, side: Side, price: int)
    requires LadderOk(ladder, states, side) && price in ladder
    ensures var front := QueueOffers(states, ladder[price], price);
      && (forall i :: 0 <= i < |front| ==> Genuine(states, ladder, side, front[i]) && front[i].price == price)
      && (forall i, j :: 0 <= i < j < |front| ==> front[i].id != front[j].id)
      && (forall k :: k in ladder[price] ==> Offered(front, k))
  {
    var q, front := ladder[price], QueueOffers(states, ladder[price], price);
    forall i | 0 <= i < |q| ensures Genuine(states, ladder, side, front[i]) {
      assert Rests(states, q[i], side, price);
    }
    forall k | k in q ensures Offered(front, k) {
      var i :| 0 <= i < |q| && q[i] == k;
      assert front[i].id == k;
    }
  }

  lemma TailWorse(side: Side, ps: seq<int>, tail: seq<Offer>)
    requires StrictlyRanked(side, ps) && ps != [] && forall i :: 0 <= i < |tail| ==> tail[i].price in ps[1..]
    ensures forall i :: 0 <= i < |tail| ==> tail[i].price != ps[0] && tail[i].price in ps
  {
    forall i | 0 <= i < |tail| ensures tail[i].price != ps[0] && tail[i].price in ps {
      var k :| 0 <= k < |ps[1..]| && ps[1..][k] == tail[i].price;
      assert ps[k + 1] == tail[i].price && Better(side, ps[0], ps[k + 1]);
    }
  }

  lemma OfferedJoin(front: seq<Offer>, tail: seq<Offer>, k: nat)
    ensures Offered(front, k) || Offered(tail, k) ==> Offered(front + tail, k)
  {
    if i :| 0 <= i < |front| && front[i].id == k {
      assert (front + tail)[i].id == k;
    }
    if i :| 0 <= i < |tail| && tail[i].id == k {
      assert (front + tail)[|front| + i].id == k;
    }
  }

  /** No order is on offer at two prices. */
  lemma LevelApart(states: States, ladder: IdLadder, side: Side, price: int, front: seq<Offer>, tail: seq<Offer>)
    requires forall i :: 0 <= i < |front| ==> Genuine(states, ladder, side, front[i]) && front[i].price == price
    requires forall i :: 0 <= i < |tail| ==> Genuine(states, ladder, side, tail[i]) && tail[i].price != price
    requires forall i, j :: 0 <= i < j < |front| ==> front[i].id != front[j].id
    requires forall i, j :: 0 <= i < j < |tail| ==> tail[i].id != tail[j].id
    ensures forall i, j :: 0 <= i < j < |front + tail| ==> (front + tail)[i].id != (front + tail)[j].id
  {
    var os := front + tail;
    forall i, j | 0 <= i < j < |os| ensures os[i].id != os[j].id {
      assert os[i] == if i < |front| then front[i] else tail[i - |front|];
      assert os[j] == if j < |front| then front[j] else tail[j - |front|];
      if i < |front| <= j {
        assert Genuine(states, ladder, side, front[i]) && Genuine(states, ladder, side, tail[j - |front|]);
      }
    }
  }

  /** Adding up the acceptable offers adds up the orders they stand for. */
  lemma {:induction false} ExecutablesAre(states: States, os: seq<Offer>, side: Side, orderType: OrderType, limit: int,
                                          ids: set<nat>)
    requires ids <= states.Keys
    requires forall i :: 0 <= i < |os| ==> os[i].id in states && os[i].quantity == Remaining(states[os[i].id])
    requires forall i, j :: 0 <= i < j < |os| ==> os[i].id != os[j].id
    requires forall i :: 0 <= i < |os| ==> (os[i].id in ids <==> Acceptable(os[i], side, orderType, limit))
    requires forall k :: k in ids ==> Offered(os, k)
    ensures Executables(os, side, orderType, limit) == Left(states, ids)
    decreases |os|
  {
    if os == [] {
      assert forall k :: k in ids ==> Offered(os, k);
      assert ids == {};
    } else {
      var rest := ids - {os[0].id};
      forall k | k in rest ensures Offered(os[1..], k) {
        assert Offered(os, k);
        var i :| 0 <= i < |os| && os[i].id == k;
        assert os[1..][i - 1].id == k;
      }
      ExecutablesAre(states, os[1..], side, orderType, limit, rest);
      if os[0].id in ids {
        LeftRemove(states, ids, os[0].id);
      } else {
        assert rest == ids;
      }
    }
  }

  /** The executable quantity on offer is what is left of the orders faced. */
  lemma FacingLeft(x: Exchange, side: Side, orderType: OrderType, limit: int)
    requires Ok(x) && ValidSide(side)
    ensures Executables(Offers(x, Opposite(side)), side, orderType, limit) == Left(x.states, FacingIds(x, side, orderType, limit))
  {
    var opp, ids := Opposite(side), FacingIds(x, side, orderType, limit);
    var ladder, os := On(x, opp), Offers(x, opp);
    var ps := Ranked(opp, ladder.Keys);
    RankedLists(opp, ladder.Keys);
    OffersListed(x.states, ladder, opp, ps);
    forall k | k in ids ensures Offered(os, k) {
      assert x.states[k].limit in ladder.Keys;
    }
    ExecutablesAre(x.states, os, side, orderType, limit, ids);
  }

  /** Looking at the best opposing price decides whether any resting order is faced. */
  lemma CrossesIffFacing(x: Exchange, side: Side, orderType: OrderType, limit: int)
    requires Ok(x) && ValidSide(side)
    ensures Crosses(x, side, orderType, limit) <==> exists k :: Facing(x, side, orderType, limit, k)
  {
    var ladder := On(x, Opposite(side));
    if ladder != map[] {
      var best := Best(Opposite(side), ladder.Keys);
      var front := ladder[best][0];
      assert Rests(x.states, front, Opposite(side), best) && front in ladder[best];
      if Crosses(x, side, orderType, limit) {
        assert Facing(x, side, orderType, limit, front);
      }
    }
    if k :| Facing(x, side, orderType, limit, k) {
      assert x.states[k].limit in ladder.Keys;
      var best := Best(Opposite(side), ladder.Keys);
      assert x.states[k].limit == best || Better(Opposite(side), best, x.states[k].limit);
    }
  }

  lemma {:induction false} NoneLeft(x: Exchange, side: Side, orderType: OrderType, limit: int)
    requires !exists k :: Facing(x, side, orderType, limit, k)
    ensures Left(x.states, FacingIds(x, side, orderType, limit)) == 0
  {
    assert FacingIds(x, side, orderType, limit) == {};
  }

  // ----- why a new order is refused

  /** The kind of order this exchange takes at all. */
  predicate KnownKind(symbol: nat, r: NewRequest) {
    r.symbolId == symbol && (r.side == Buy || r.side == Sell) && (r.orderType == Limit || r.orderType == Market)
  }

  predicate GoodTerms(r: NewRequest) {
    r.quantity > 0 && (r.orderType == Limit ==> r.price > 0)
  }

  predicate GoodFlags(r: NewRequest) {
    r.tif != OtherTif && (r.postOnly ==> r.orderType == Limit && r.tif == Gtc)
  }

  predicate WellFormed(symbol: nat, r: NewRequest) {
    KnownKind(symbol, r) && GoodTerms(r) && GoodFlags(r)
  }

  /** A resting order of the request's own client that it would reach. */
  ghost predicate MeetsOwn(x: Exchange, r: NewRequest) {
    r.clientId != 0 && exists k :: Facing(x, r.side, r.orderType, r.price, k) && x.states[k].clientId == r.clientId
  }

  ghost predicate MeetsAny(x: Exchange, r: NewRequest) {
    exists k :: Facing(x, r.side, r.orderType, r.price, k)
  }

  /** What all the resting orders the request meets have left. */
  ghost function Within(x: Exchange, r: NewRequest): int {
    Left(x.states, FacingIds(x, r.side, r.orderType, r.price))
  }

  /** Well formed, under a client order id nobody used. */
  predicate Admitted(x: Exchange, r: NewRequest) {
    WellFormed(x.symbol, r) && r.clientOrderId != INVALID_ID && r.clientOrderId !in x.seen
  }

  /** The reason the only report gives for refusing a request outright. */
  function Refusal(reports: seq<Report>): Reason {
    if |reports| == 1 && reports[0].execType == ExecRejected && reports[0].orderId == INVALID_ID then reports[0].reason else NoReason
  }

  /** Which refusal meets which order: each reason exactly when its cause is there. */
  lemma SubmitRefusal(x: Exchange, r: NewRequest, canRest: bool)
    requires Ok(x)
    ensures var (x', reports) := SubmitOrder(x, r, canRest); var why := Refusal(reports);
      && (why == InvalidQuantity <==> KnownKind(x.symbol, r) && r.quantity <= 0)
      && (why == InvalidPrice <==> KnownKind(x.symbol, r) && r.quantity > 0 && r.orderType == Limit && r.price <= 0)
      && (why == Unsupported <==> !KnownKind(x.symbol, r) || (GoodTerms(r) && !GoodFlags(r)))
      && (why == DuplicateClientOrderId <==> WellFormed(x.symbol, r) && !Admitted(x, r))
      && (why == PostOnlyWouldCross <==> Admitted(x, r) && r.postOnly && MeetsAny(x, r))
      && (why == SelfTradePrevention <==> Admitted(x, r) && !r.postOnly && MeetsOwn(x, r))
      && (why == FokNotFillable <==> Admitted(x, r) && !MeetsOwn(x, r) && r.tif == Fok && Within(x, r) < r.quantity)
      && (why == NoReason <==> Admitted(x, r) && (if r.postOnly then !MeetsAny(x, r) else !MeetsOwn(x, r))
                               && (r.tif == Fok ==> Within(x, r) >= r.quantity))
      && (why != NoReason ==> x'.(seen := x.seen) == x)
  {
    var x1 := Reserved(x, r.clientOrderId);
    assert WellFormed(x.symbol, r) <==> Malformed(x, r) == NoReason;
    if Admitted(x, r) {
      ReservedOk(x, r.clientOrderId);
      RefusedFor(x, r);
      if Refused(x1, r) == NoReason {
        AcceptOpens(x1, r, canRest);
      }
    }
  }

  lemma AcceptOpens(x: Exchange, r: NewRequest, canRest: bool)
    requires Ok(x) && Malformed(x, r) == NoReason
    ensures Accept(x, r, canRest).1 != [] && Accept(x, r, canRest).1[0].execType == ExecNew
    ensures Accept(x, r, canRest).1[0].orderId == x.nextId && x.nextId != INVALID_ID
  {
    AcceptedTakes(x, r);
    MatchKeeps(Accepted(x, r), x.nextId, r.quantity, r.timestamp);
  }

  lemma RefusedFor(x: Exchange, r: NewRequest)
    requires Ok(x) && Admitted(x, r)
    ensures Refused(Reserved(x, r.clientOrderId), r) ==
      if r.postOnly then (if MeetsAny(x, r) then PostOnlyWouldCross else NoReason)
      else if MeetsOwn(x, r) then SelfTradePrevention
      else if r.tif == Fok && Within(x, r) < r.quantity then FokNotFillable
      else NoReason
  {
    ReservedSame(x, r);
    CrossesIffFacing(x, r.side, r.orderType, r.price);
    OwnIffSelfTrade(x, r);
    FillableIffCovered(x, r);
    RefusedBy(Reserved(x, r.clientOrderId), r, MeetsAny(x, r), MeetsOwn(x, r), Within(x, r) >= r.quantity);
  }

  /** Using up a client order id changes nothing the checks look at. */
  lemma ReservedSame(x: Exchange, r: NewRequest)
    ensures Crosses(Reserved(x, r.clientOrderId), r.side, r.orderType, r.price) == Crosses(x, r.side, r.orderType, r.price)
    ensures CanFullyFill(Reserved(x, r.clientOrderId), r) == CanFullyFill(x, r)
  {
  }

  /** The checks in their order, once each one's outcome is known. */
  lemma RefusedBy(x: Exchange, r: NewRequest, meetsAny: bool, meetsOwn: bool, covered: bool)
    requires Crosses(x, r.side, r.orderType, r.price) == meetsAny && CanFullyFill(x, r) == covered
    requires WouldSelfTrade(x, r.side, r.orderType, r.price, r.clientId, INVALID_ID) == meetsOwn && GoodFlags(r)
    ensures Refused(x, r) ==
      if r.postOnly then (if meetsAny then PostOnlyWouldCross else NoReason)
      else if meetsOwn then SelfTradePrevention
      else if r.tif == Fok && !covered then FokNotFillable
      else NoReason
  {
  }

  lemma OwnIffSelfTrade(x: Exchange, r: NewRequest)
    requires Ok(x)
    ensures WouldSelfTrade(Reserved(x, r.clientOrderId), r.side, r.orderType, r.price, r.clientId, INVALID_ID) <==> MeetsOwn(x, r)
  {
    var x1 := Reserved(x, r.clientOrderId);
    forall k ensures SelfTradeWith(x1, k, r.side, r.orderType, r.price, r.clientId, INVALID_ID)
                <==> Facing(x, r.side, r.orderType, r.price, k) && x.states[k].clientId == r.clientId
    {
      assert InBook(x1, k) == InBook(x, k);
    }
  }

  lemma FillableIffCovered(x: Exchange, r: NewRequest)
    requires Ok(x) && Malformed(x, r) == NoReason
    ensures CanFullyFill(x, r) <==> Within(x, r) >= r.quantity
  {
    var opp := Opposite(r.side);
    RankedLists(opp, On(x, opp).Keys);
    WalkFindsDepth(x.states, On(x, opp), opp, Ranked(opp, On(x, opp).Keys), r.side, r.orderType, r.price, r.quantity);
    OffersInOrder(x, opp);
    DepthIsExecutable(Offers(x, opp), r.side, r.orderType, r.price);
    FacingLeft(x, r.side, r.orderType, r.price);
  }
}
