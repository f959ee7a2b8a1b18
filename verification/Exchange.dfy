/** The matching contract as functions on values: queues of order ids per price, and the state of
    every accepted order. Quantities live only in the order states. */
module Exchanges {
  import opened Types
  import opened Ranking
  import opened Reports

  type IdLadder = map<int, seq<nat>>
  type States = map<nat, OrderState>

  datatype Exchange = Exchange(symbol: nat, bids: IdLadder, asks: IdLadder, states: States, seen: set<nat>, nextId: nat)

  function On(x: Exchange, side: Side): IdLadder {
    if side == Buy then x.bids else x.asks
  }

  function With(x: Exchange, side: Side, ladder: IdLadder): Exchange {
    if side == Buy then x.(bids := ladder) else x.(asks := ladder)
  }

  function QueueAt(ladder: IdLadder, price: int): seq<nat> {
    if price in ladder then ladder[price] else []
  }

  function SetQueue(ladder: IdLadder, price: int, q: seq<nat>): IdLadder {
    if q == [] then ladder - {price} else ladder[price := q]
  }

  function Fresh(symbol: nat): Exchange {
    Exchange(symbol, map[], map[], map[], {}, 1)
  }

  // ----- well-formedness

  predicate Distinct(q: seq<nat>) {
    forall i, j :: 0 <= i < j < |q| ==> q[i] != q[j]
  }

  /** A resting order has a Limit state on this side and price with something left to fill. */
  predicate Rests(states: States, id: nat, side: Side, price: int) {
    && id in states && states[id].side == side && states[id].limit == price && price > 0
    && states[id].orderType == Limit && states[id].original > states[id].filled
  }

  ghost predicate LadderOk(ladder: IdLadder, states: States, side: Side) {
    forall p :: p in ladder ==> ladder[p] != [] && Distinct(ladder[p]) && forall i :: 0 <= i < |ladder[p]| ==> Rests(states, ladder[p][i], side, p)
  }

  predicate StateOk(st: OrderState, id: nat, symbol: nat, nextId: nat) {
    && st.orderId == id && 0 < id < nextId && st.symbolId == symbol && ValidSide(st.side)
    && st.filled >= 0 && st.notional >= 0
  }

  ghost predicate StatesOk(x: Exchange) {
    x.nextId > 0 && forall id :: id in x.states ==> StateOk(x.states[id], id, x.symbol, x.nextId)
  }

  /** Every resting order has a live Limit state with its side and price; no id rests twice. */
  ghost predicate Ok(x: Exchange) {
    LadderOk(x.bids, x.states, Buy) && LadderOk(x.asks, x.states, Sell) && StatesOk(x)
  }

  /** An id rests exactly when it is queued where its state says. */
  predicate InBook(x: Exchange, id: nat) {
    id in x.states && id in QueueAt(On(x, x.states[id].side), x.states[id].limit)
  }

  // ----- prices and crossing

  function BestPrice(x: Exchange, side: Side): Option<int> {
    if On(x, side) == map[] then None else Some(Best(side, On(x, side).Keys))
  }

  predicate Executable(side: Side, orderType: OrderType, limit: int, price: int) {
    orderType == Market || (side == Buy && limit >= price) || (side == Sell && limit <= price)
  }

  predicate Crosses(x: Exchange, side: Side, orderType: OrderType, limit: int) {
    ValidSide(side) &&
    match BestPrice(x, Opposite(side))
    case None => false
    case Some(best) => Executable(side, orderType, limit, best)
  }

  /** No bid reaches an ask. */
  ghost predicate Uncrossed(x: Exchange) {
    forall b, a :: b in x.bids && a in x.asks ==> b < a
  }

  // ----- the checks a new order goes through

  function LevelQuantity(states: States, ids: seq<nat>): int {
    if ids == [] then 0
    else LevelQuantity(states, ids[..|ids| - 1]) + if ids[|ids| - 1] in states then Remaining(states[ids[|ids| - 1]]) else 0
  }

  /** Whether the levels listed hold enough executable quantity. */
  predicate CanFillFrom(states: States, ladder: IdLadder, ps: seq<int>, side: Side, orderType: OrderType, limit: int,
                        required: int) {
    ps != [] && Executable(side, orderType, limit, ps[0]) &&
    (LevelQuantity(states, QueueAt(ladder, ps[0])) >= required
     || CanFillFrom(states, ladder, ps[1..], side, orderType, limit, required - LevelQuantity(states, QueueAt(ladder, ps[0]))))
  }

  predicate CanFullyFill(x: Exchange, r: NewRequest) {
    var ladder := On(x, Opposite(r.side));
    CanFillFrom(x.states, ladder, Ranked(Opposite(r.side), ladder.Keys), r.side, r.orderType, r.price, r.quantity)
  }

  /** Whether the order could trade with a resting order of the same client. */
  ghost predicate WouldSelfTrade(x: Exchange, side: Side, orderType: OrderType, limit: int, clientId: nat,
                                 excluded: nat) {
    clientId != 0 && exists id :: SelfTradeWith(x, id, side, orderType, limit, clientId, excluded)
  }

  predicate SelfTradeWith(x: Exchange, id: nat, side: Side, orderType: OrderType, limit: int, clientId: nat,
                          excluded: nat) {
    && InBook(x, id) && id != excluded && x.states[id].clientId == clientId && x.states[id].side == Opposite(side)
    && Executable(side, orderType, limit, x.states[id].limit)
  }

  // ----- matching

  function Fill(st: OrderState, quantity: int, price: int): OrderState {
    var st' := st.(filled := st.filled + quantity, notional := st.notional + quantity * price);
    st'.(status := if Remaining(st') == 0 then Filled else PartiallyFilled)
  }

  /** The oldest order at the best opposing price. */
  function Opponent(x: Exchange, side: Side): nat
    requires On(x, Opposite(side)) != map[]
  {
    var q := QueueAt(On(x, Opposite(side)), Best(Opposite(side), On(x, Opposite(side)).Keys));
    if q == [] then 0 else q[0]
  }

  /** One order is being matched: its state holds what is left, and it is not in the book. */
  ghost predicate Taking(x: Exchange, id: nat, remaining: int) {
    && Ok(x) && id in x.states && !InBook(x, id)
    && (x.states[id].orderType == Market || (x.states[id].orderType == Limit && x.states[id].limit > 0))
    && remaining >= 0 && remaining == x.states[id].original - x.states[id].filled
  }

  ghost predicate CanTake(x: Exchange, id: nat, remaining: int) {
    Taking(x, id, remaining) && remaining > 0 && Crosses(x, x.states[id].side, x.states[id].orderType, x.states[id].limit)
  }

  function TakeQuantity(x: Exchange, id: nat, remaining: int): int
    requires id in x.states && On(x, Opposite(x.states[id].side)) != map[]
    requires Opponent(x, x.states[id].side) in x.states
  {
    Min(remaining, Remaining(x.states[Opponent(x, x.states[id].side)]))
  }

  /** One trade against the oldest order at the best price. */
  ghost function Take(x: Exchange, id: nat, remaining: int, ts: int): (r: (Exchange, int, seq<Report>))
    requires CanTake(x, id, remaining)
  {
    TakeFacts(x, id, remaining);
    var side := x.states[id].side;
    var rid := Opponent(x, side);
    var quantity, price := TakeQuantity(x, id, remaining), x.states[rid].limit;
    var resting := Fill(x.states[rid], quantity, price);
    var incoming := Fill(x.states[id], quantity, price);
    var x' := x.(states := x.states[rid := resting][id := incoming]);
    var left := On(x, Opposite(side));
    var x'' := if Remaining(resting) == 0 then With(x', Opposite(side), SetQueue(left, price, QueueAt(left, price)[1..])) else x';
    (x'', remaining - quantity,
     [MakeReport(resting, Trade, quantity, price, ts, NoReason), MakeReport(incoming, Trade, quantity, price, ts, NoReason)])
  }

  lemma TakeFacts(x: Exchange, id: nat, remaining: int)
    requires CanTake(x, id, remaining)
    ensures var side := x.states[id].side; var left := On(x, Opposite(side));
      && left != map[] && var price := Best(Opposite(side), left.Keys);
      && price in left && left[price] != [] && Opponent(x, side) == left[price][0]
      && Rests(x.states, left[price][0], Opposite(side), price) && left[price][0] != id
      && 0 < TakeQuantity(x, id, remaining) <= remaining
      && InBook(x, left[price][0])
  {
    var side := x.states[id].side;
    var left := On(x, Opposite(side));
    var price := Best(Opposite(side), left.Keys);
    assert left[price][0] in left[price];
  }

  // ----- what one trade keeps

  lemma LadderKept(ladder: IdLadder, states: States, states': States, side: Side)
    requires LadderOk(ladder, states, side)
    requires forall id :: id in states ==> id in states'
    requires forall p, i :: p in ladder && 0 <= i < |ladder[p]| ==> states'[ladder[p][i]] == states[ladder[p][i]]
    ensures LadderOk(ladder, states', side)
  {
  }

  /** Filling the front order of a queue: it leaves when nothing is left of it. */
  lemma FrontFilled(ladder: IdLadder, states: States, states': States, side: Side, price: int)
    requires LadderOk(ladder, states, side) && price in ladder
    requires var rid := ladder[price][0];
      && (forall id :: id in states ==> id in states')
      && (forall id :: id in states && id != rid && states[id].side == side && states[id].limit > 0 && Queued(ladder, states, id) ==> states'[id] == states[id])
      && states'[rid].side == side && states'[rid].limit == price && states'[rid].orderType == Limit
    ensures LadderOk(if states'[ladder[price][0]].original > states'[ladder[price][0]].filled then ladder
                     else SetQueue(ladder, price, ladder[price][1..]), states', side)
  {
    var rid := ladder[price][0];
    var ladder' := if states'[rid].original > states'[rid].filled then ladder else SetQueue(ladder, price, ladder[price][1..]);
    forall p, i | p in ladder && 0 <= i < |ladder[p]| && ladder[p][i] != rid
      ensures Rests(states', ladder[p][i], side, p)
    {
      assert Rests(states, ladder[p][i], side, p);
      assert Queued(ladder, states, ladder[p][i]);
    }
    forall p | p in ladder'
      ensures ladder'[p] != [] && Distinct(ladder'[p]) && forall i :: 0 <= i < |ladder'[p]| ==> Rests(states', ladder'[p][i], side, p)
    {
      forall i | 0 <= i < |ladder'[p]| ensures Rests(states', ladder'[p][i], side, p) {
        if p == price && ladder' != ladder {
          assert ladder'[p][i] == ladder[p][i + 1] && ladder[p][i + 1] != ladder[p][0];
        } else if p != price {
          assert Rests(states, ladder[p][i], side, p) && Rests(states, rid, side, price);
        }
      }
    }
  }

  predicate Queued(ladder: IdLadder, states: States, id: nat)
    requires id in states
  {
    id in QueueAt(ladder, states[id].limit)
  }

  lemma FillKeeps(st: OrderState, id: nat, symbol: nat, nextId: nat, quantity: int, price: int)
    requires StateOk(st, id, symbol, nextId) && quantity >= 0 && price >= 0
    ensures StateOk(Fill(st, quantity, price), id, symbol, nextId)
  {
    assert quantity * price >= 0;
  }

  lemma TakeKeepsStates(x: Exchange, id: nat, remaining: int, ts: int)
    requires CanTake(x, id, remaining)
    ensures StatesOk(Take(x, id, remaining, ts).0)
  {
    TakeFacts(x, id, remaining);
    var rid := Opponent(x, x.states[id].side);
    var quantity, price := TakeQuantity(x, id, remaining), x.states[rid].limit;
    FillKeeps(x.states[rid], rid, x.symbol, x.nextId, quantity, price);
    FillKeeps(x.states[id], id, x.symbol, x.nextId, quantity, price);
  }

  lemma TakeKeepsOpposite(x: Exchange, id: nat, remaining: int, ts: int)
    requires CanTake(x, id, remaining)
    ensures var x' := Take(x, id, remaining, ts).0; var opp := Opposite(x.states[id].side);
      LadderOk(On(x', opp), x'.states, opp)
  {
    TakeFacts(x, id, remaining);
    var opp := Opposite(x.states[id].side);
    var left := On(x, opp);
    var price := Best(opp, left.Keys);
    FrontFilled(left, x.states, Take(x, id, remaining, ts).0.states, opp, price);
  }

  lemma TakeKeepsSame(x: Exchange, id: nat, remaining: int, ts: int)
    requires CanTake(x, id, remaining)
    ensures var x' := Take(x, id, remaining, ts).0; var side := x.states[id].side;
      LadderOk(On(x', side), x'.states, side) && On(x', side) == On(x, side)
  {
    TakeFacts(x, id, remaining);
    var side, states' := x.states[id].side, Take(x, id, remaining, ts).0.states;
    forall p, i | p in On(x, side) && 0 <= i < |On(x, side)[p]|
      ensures states'[On(x, side)[p][i]] == x.states[On(x, side)[p][i]]
    {
      assert Rests(x.states, On(x, side)[p][i], side, p);
      assert On(x, side)[p][i] in On(x, side)[p];
    }
    LadderKept(On(x, side), x.states, states', side);
  }

  /** Everything about an order that matching never changes. */
  predicate SameTerms(st: OrderState, st': OrderState) {
    st.side == st'.side && st.limit == st'.limit && st.clientId == st'.clientId && st.orderType == st'.orderType && st.original == st'.original
  }

  /** The book only shrinks, and orders other than the two traded keep their states. */
  lemma TakeTouches(x: Exchange, id: nat, remaining: int, ts: int)
    requires CanTake(x, id, remaining)
    ensures var (x', remaining', reports) := Take(x, id, remaining, ts); var rid := Opponent(x, x.states[id].side);
      && rid in x.states && rid != id && InBook(x, rid) && x'.states.Keys == x.states.Keys
      && (forall k :: k in x.states && k != id && k != rid ==> x'.states[k] == x.states[k])
      && (forall k :: k in x.states ==> SameTerms(x'.states[k], x.states[k]))
      && x'.bids.Keys <= x.bids.Keys && x'.asks.Keys <= x.asks.Keys
      && (forall k :: InBook(x', k) ==> InBook(x, k))
      && 0 <= remaining' < remaining && remaining' == x'.states[id].original - x'.states[id].filled
  {
    TakeFacts(x, id, remaining);
  }

  lemma TakeKeeps(x: Exchange, id: nat, remaining: int, ts: int)
    requires CanTake(x, id, remaining)
    ensures var (x', remaining', reports) := Take(x, id, remaining, ts);
      Taking(x', id, remaining') && 0 <= remaining' < remaining
  {
    TakeKeepsStates(x, id, remaining, ts);
    TakeKeepsOpposite(x, id, remaining, ts);
    TakeKeepsSame(x, id, remaining, ts);
    TakeTouches(x, id, remaining, ts);
  }

  // ----- matching until nothing is left or nothing crosses

  ghost function Match(x: Exchange, id: nat, remaining: int, ts: int): (Exchange, int, seq<Report>)
    requires Taking(x, id, remaining)
    decreases remaining
  {
    if !CanTake(x, id, remaining) then (x, remaining, []) else
    TakeKeeps(x, id, remaining, ts);
    var (x', remaining', reports) := Take(x, id, remaining, ts);
    var (x'', remaining'', reports') := Match(x', id, remaining', ts);
    (x'', remaining'', reports + reports')
  }

  /** Matching stops only when the order is filled or no longer crosses. */
  lemma {:induction false} MatchKeeps(x: Exchange, id: nat, remaining: int, ts: int)
    requires Taking(x, id, remaining)
    ensures var (x', remaining', reports) := Match(x, id, remaining, ts);
      && Taking(x', id, remaining') && remaining' <= remaining
      && !CanTake(x', id, remaining')
      && x'.states.Keys == x.states.Keys && x'.symbol == x.symbol && x'.nextId == x.nextId && x'.seen == x.seen
      && (forall k :: k in x.states ==> SameTerms(x'.states[k], x.states[k]))
      && x'.bids.Keys <= x.bids.Keys && x'.asks.Keys <= x.asks.Keys
      && (forall k :: InBook(x', k) ==> InBook(x, k))
    decreases remaining
  {
    if CanTake(x, id, remaining) {
      TakeKeeps(x, id, remaining, ts);
      TakeTouches(x, id, remaining, ts);
      var (x', remaining', reports) := Take(x, id, remaining, ts);
      MatchKeeps(x', id, remaining', ts);
    }
  }

  // ----- resting and removing

  /** Puts what is left of an order at the back of its queue. */
  function Rest(x: Exchange, id: nat): Exchange
    requires id in x.states
  {
    var st := x.states[id];
    With(x, st.side, On(x, st.side)[st.limit := QueueAt(On(x, st.side), st.limit) + [id]])
  }

  function Without(q: seq<nat>, id: nat): seq<nat> {
    if q == [] then [] else (if q[0] == id then [] else [q[0]]) + Without(q[1..], id)
  }

  /** Takes a resting order out of its queue. */
  function Unrest(x: Exchange, id: nat): Exchange
    requires id in x.states
  {
    var st := x.states[id];
    With(x, st.side, SetQueue(On(x, st.side), st.limit, Without(QueueAt(On(x, st.side), st.limit), id)))
  }

  // ----- the three requests

  function Reserved(x: Exchange, clientOrderId: nat): Exchange {
    x.(seen := x.seen + {clientOrderId})
  }

  /** Client order ids are non-zero and never reused. */
  predicate CanReserve(x: Exchange, clientOrderId: nat) {
    clientOrderId != INVALID_ID && clientOrderId !in x.seen
  }

  /** Why a new order is refused before its client order id is even looked at. */
  function Malformed(x: Exchange, r: NewRequest): Reason {
    if r.symbolId != x.symbol || !ValidSide(r.side) then Unsupported
    else if r.orderType != Limit && r.orderType != Market then Unsupported
    else if r.quantity <= 0 then InvalidQuantity
    else if r.orderType == Limit && r.price <= 0 then InvalidPrice
    else if r.tif == OtherTif then Unsupported
    else if r.postOnly && (r.orderType != Limit || r.tif != Gtc) then Unsupported
    else NoReason
  }

  /** Why a well-formed new order is refused. */
  ghost function Refused(x: Exchange, r: NewRequest): Reason {
    if r.postOnly && Crosses(x, r.side, r.orderType, r.price) then PostOnlyWouldCross
    else if !r.postOnly && WouldSelfTrade(x, r.side, r.orderType, r.price, r.clientId, INVALID_ID) then SelfTradePrevention
    else if r.tif == Fok && !CanFullyFill(x, r) then FokNotFillable
    else NoReason
  }

  function NewState(x: Exchange, r: NewRequest): OrderState {
    OrderState(r.clientOrderId, x.nextId, r.symbolId, r.side, r.orderType, r.price, r.quantity, 0, 0, r.clientId, NewOrder, r.timestamp)
  }

  function SetStatus(x: Exchange, id: nat, status: Status): Exchange
    requires id in x.states
  {
    x.(states := x.states[id := x.states[id].(status := status)])
  }

  /** Puts the rest of an order in the book, or rejects it when the book will not take it. */
  function Settle(x: Exchange, id: nat, canRest: bool, ts: int): (Exchange, seq<Report>)
    requires id in x.states
  {
    if canRest then (Rest(x, id), [])
    else
      var x' := SetStatus(x, id, Rejected);
      (x', [MakeReport(x'.states[id], ExecRejected, 0, 0, ts, InternalError)])
  }

  lemma AcceptedTakes(x: Exchange, r: NewRequest)
    requires Ok(x) && Malformed(x, r) == NoReason
    ensures Taking(x.(states := x.states[x.nextId := NewState(x, r)], nextId := x.nextId + 1), x.nextId, r.quantity)
  {
    var x' := x.(states := x.states[x.nextId := NewState(x, r)], nextId := x.nextId + 1);
    LadderKept(x.bids, x.states, x'.states, Buy);
    LadderKept(x.asks, x.states, x'.states, Sell);
    forall p, i | p in On(x, r.side) && 0 <= i < |On(x, r.side)[p]| ensures On(x, r.side)[p][i] != x.nextId {
      assert Rests(x.states, On(x, r.side)[p][i], r.side, p);
    }
  }

  /** What becomes of the quantity a new order could not trade. */
  function FinishNew(x: Exchange, id: nat, remaining: int, r: NewRequest, canRest: bool): (Exchange, seq<Report>)
    requires id in x.states
  {
    if remaining > 0 && r.orderType == Limit && r.tif == Gtc then
      Settle(if x.states[id].filled > 0 then SetStatus(x, id, PartiallyFilled) else x, id, canRest, r.timestamp)
    else if remaining > 0 then
      var x' := SetStatus(x, id, Canceled);
      (x', [MakeReport(x'.states[id], ExecCanceled, 0, 0, r.timestamp, NoReason)])
    else (x, [])
  }

  ghost function Accept(x: Exchange, r: NewRequest, canRest: bool): (Exchange, seq<Report>)
    requires Ok(x) && Malformed(x, r) == NoReason
  {
    AcceptedTakes(x, r);
    var id := x.nextId;
    var x1 := x.(states := x.states[id := NewState(x, r)], nextId := id + 1);
    var (x2, remaining, trades) := Match(x1, id, r.quantity, r.timestamp);
    MatchKeeps(x1, id, r.quantity, r.timestamp);
    var (x3, closing) := FinishNew(x2, id, remaining, r, canRest);
    (x3, [MakeReport(NewState(x, r), ExecNew, 0, 0, r.timestamp, NoReason)] + trades + closing)
  }

  /** A new order. `canRest` says whether the book takes resting orders at all. */
  ghost function SubmitOrder(x: Exchange, r: NewRequest, canRest: bool): (Exchange, seq<Report>)
    requires Ok(x)
  {
    var bad := Malformed(x, r);
    if bad != NoReason then (x, [MakeReject(r.clientOrderId, r.symbolId, r.side, r.timestamp, bad)])
    else if !CanReserve(x, r.clientOrderId) then
      (x, [MakeReject(r.clientOrderId, r.symbolId, r.side, r.timestamp, DuplicateClientOrderId)])
    else
      var x1 := Reserved(x, r.clientOrderId);
      var why := Refused(x1, r);
      if why != NoReason then (x1, [MakeReject(r.clientOrderId, r.symbolId, r.side, r.timestamp, why)])
      else Accept(x1, r, canRest)
  }

  function CancelOrder(x: Exchange, r: CancelRequest): (Exchange, seq<Report>) {
    if !CanReserve(x, r.clientOrderId) then
      (x, [MakeReject(r.clientOrderId, x.symbol, NoSide, r.timestamp, DuplicateClientOrderId)])
    else
      var x1 := Reserved(x, r.clientOrderId);
      if !InBook(x1, r.orderId) then (x1, [MakeReject(r.clientOrderId, x.symbol, NoSide, r.timestamp, UnknownOrder)])
      else
        var x2 := SetStatus(Unrest(x1, r.orderId), r.orderId, Canceled);
        (x2, [MakeReport(x2.states[r.orderId], ExecCanceled, 0, 0, r.timestamp, NoReason)])
  }

  function Amended(st: OrderState, r: ReplaceRequest): OrderState {
    st.(limit := r.price, original := st.filled + r.quantity, status := Replaced, timestamp := r.timestamp)
  }

  function Withdrawn(x: Exchange, r: ReplaceRequest): Exchange
    requires r.orderId in x.states
  {
    var x' := Unrest(x, r.orderId);
    x'.(states := x'.states[r.orderId := Amended(x.states[r.orderId], r)])
  }

  function FinishAmend(x: Exchange, id: nat, remaining: int, r: ReplaceRequest, canRest: bool): (Exchange, seq<Report>)
    requires id in x.states
  {
    if remaining > 0 then
      Settle(if x.states[id].filled > 0 && x.states[id].status != Replaced then SetStatus(x, id, PartiallyFilled) else x,
             id, canRest, r.timestamp)
    else (x, [])
  }

  ghost function Amend(x: Exchange, r: ReplaceRequest, canRest: bool): (Exchange, seq<Report>)
    requires Ok(x) && InBook(x, r.orderId) && r.price > 0 && r.quantity > 0
  {
    WithdrawnTakes(x, r);
    var id := r.orderId;
    var x1 := Withdrawn(x, r);
    var (x2, remaining, trades) := Match(x1, id, r.quantity, r.timestamp);
    MatchKeeps(x1, id, r.quantity, r.timestamp);
    var (x3, closing) := FinishAmend(x2, id, remaining, r, canRest);
    (x3, [MakeReport(x1.states[id], ExecReplaced, 0, 0, r.timestamp, NoReason)] + trades + closing)
  }

  ghost function ReplaceOrder(x: Exchange, r: ReplaceRequest, canRest: bool): (Exchange, seq<Report>)
    requires Ok(x)
  {
    if r.quantity <= 0 then (x, [MakeReject(r.clientOrderId, x.symbol, NoSide, r.timestamp, InvalidQuantity)])
    else if r.price <= 0 then (x, [MakeReject(r.clientOrderId, x.symbol, NoSide, r.timestamp, InvalidPrice)])
    else if !CanReserve(x, r.clientOrderId) then
      (x, [MakeReject(r.clientOrderId, x.symbol, NoSide, r.timestamp, DuplicateClientOrderId)])
    else
      var x1 := Reserved(x, r.clientOrderId);
      if !InBook(x1, r.orderId) then (x1, [MakeReject(r.clientOrderId, x.symbol, NoSide, r.timestamp, UnknownOrder)])
      else
        var st := x1.states[r.orderId];
        if WouldSelfTrade(x1, st.side, st.orderType, r.price, st.clientId, st.orderId) then
          (x1, [MakeReject(r.clientOrderId, x.symbol, st.side, r.timestamp, SelfTradePrevention)])
        else Amend(x1, r, canRest)
  }

  ghost function Handle(x: Exchange, request: Request, canRest: bool): (Exchange, seq<Report>)
    requires Ok(x)
  {
    match request
    case Submit(r) => SubmitOrder(x, r, canRest)
    case Cancel(r) => CancelOrder(x, r)
    case Replace(r) => ReplaceOrder(x, r, canRest)
  }

  // ----- resting, withdrawing and accepting keep the exchange well formed

  lemma {:induction false} WithoutIs(q: seq<nat>, id: nat)
    requires Distinct(q)
    ensures Distinct(Without(q, id)) && id !in Without(q, id)
    ensures forall k :: k in Without(q, id) <==> k in q && k != id
  {
    if q != [] {
      WithoutIs(q[1..], id);
      assert forall k :: k in q <==> k == q[0] || k in q[1..];
      forall i | 0 < i < |q| ensures q[i] != q[0] {}
      var w := Without(q[1..], id);
      assert q[0] !in q[1..];
      assert Without(q, id) == (if q[0] == id then [] else [q[0]]) + w;
    }
  }

  /** Taking an id out of one queue of a side, and the queue away once it is empty. */
  lemma LadderLoses(ladder: IdLadder, states: States, side: Side, price: int, id: nat)
    requires LadderOk(ladder, states, side)
    ensures var left := SetQueue(ladder, price, Without(QueueAt(ladder, price), id));
      LadderOk(left, states, side) && left.Keys <= ladder.Keys && (forall k :: k in QueueAt(left, price) <==> k in QueueAt(ladder, price) && k != id)
  {
    var q := QueueAt(ladder, price);
    WithoutIs(q, id);
    var left := SetQueue(ladder, price, Without(q, id));
    forall i | 0 <= i < |Without(q, id)| ensures Rests(states, Without(q, id)[i], side, price) {
      assert Without(q, id)[i] in q;
    }
  }

  lemma UnrestKeeps(x: Exchange, id: nat)
    requires Ok(x) && InBook(x, id)
    ensures Ok(Unrest(x, id)) && !InBook(Unrest(x, id), id)
    ensures forall k :: InBook(Unrest(x, id), k) <==> InBook(x, k) && k != id
    ensures Unrest(x, id).bids.Keys <= x.bids.Keys && Unrest(x, id).asks.Keys <= x.asks.Keys
  {
    var st := x.states[id];
    LadderLoses(On(x, st.side), x.states, st.side, st.limit, id);
  }

  lemma WithdrawnTakes(x: Exchange, r: ReplaceRequest)
    requires Ok(x) && InBook(x, r.orderId) && r.price > 0 && r.quantity > 0
    ensures Taking(Withdrawn(x, r), r.orderId, r.quantity)
    ensures Withdrawn(x, r).bids.Keys <= x.bids.Keys && Withdrawn(x, r).asks.Keys <= x.asks.Keys
    ensures forall k :: InBook(Withdrawn(x, r), k) ==> InBook(x, k) && k != r.orderId
  {
    var id, x1, x2 := r.orderId, Unrest(x, r.orderId), Withdrawn(x, r);
    UnrestKeeps(x, id);
    NotQueued(x1, id);
    RestsIn(x, id);
    LadderKept(x1.bids, x1.states, x2.states, Buy);
    LadderKept(x1.asks, x1.states, x2.states, Sell);
  }

  /** An id that does not rest appears in no queue. */
  lemma NotQueued(x: Exchange, id: nat)
    requires Ok(x) && !InBook(x, id)
    ensures forall s, p, i :: ValidSide(s) && p in On(x, s) && 0 <= i < |On(x, s)[p]| ==> On(x, s)[p][i] != id
  {
    forall s, p, i | ValidSide(s) && p in On(x, s) && 0 <= i < |On(x, s)[p]| ensures On(x, s)[p][i] != id {
      assert Rests(x.states, On(x, s)[p][i], s, p);
      assert On(x, s)[p][i] in On(x, s)[p];
    }
  }

  lemma RestsIn(x: Exchange, id: nat)
    requires Ok(x) && InBook(x, id)
    ensures Rests(x.states, id, x.states[id].side, x.states[id].limit)
  {
    var st := x.states[id];
    var q := QueueAt(On(x, st.side), st.limit);
    var i :| 0 <= i < |q| && q[i] == id;
    assert Rests(x.states, q[i], st.side, st.limit);
  }

  lemma SetStatusKeeps(x: Exchange, id: nat, status: Status)
    requires Ok(x) && id in x.states
    ensures Ok(SetStatus(x, id, status))
    ensures forall k :: InBook(SetStatus(x, id, status), k) <==> InBook(x, k)
  {
    var states' := SetStatus(x, id, status).states;
    assert LadderOk(x.bids, states', Buy) by {
      forall p, i | p in x.bids && 0 <= i < |x.bids[p]| ensures Rests(states', x.bids[p][i], Buy, p) {
        assert Rests(x.states, x.bids[p][i], Buy, p);
      }
    }
    assert LadderOk(x.asks, states', Sell) by {
      forall p, i | p in x.asks && 0 <= i < |x.asks[p]| ensures Rests(states', x.asks[p][i], Sell, p) {
        assert Rests(x.states, x.asks[p][i], Sell, p);
      }
    }
  }

  lemma RestKeeps(x: Exchange, id: nat, remaining: int)
    requires Taking(x, id, remaining) && remaining > 0 && x.states[id].orderType == Limit
    ensures Ok(Rest(x, id))
    ensures forall k :: InBook(Rest(x, id), k) <==> InBook(x, k) || k == id
  {
    var st, x' := x.states[id], Rest(x, id);
    var q := QueueAt(On(x, st.side), st.limit);
    forall p | p in On(x', st.side)
      ensures On(x', st.side)[p] != [] && Distinct(On(x', st.side)[p])
      ensures forall i :: 0 <= i < |On(x', st.side)[p]| ==> Rests(x.states, On(x', st.side)[p][i], st.side, p)
    {
    }
    assert LadderOk(On(x', st.side), x'.states, st.side);
    assert QueueAt(On(x', st.side), st.limit)[|q|] == id;
    forall k | InBook(x, k) ensures InBook(x', k) {}
  }
}
