/** The independent reference matcher: it keeps no quantity in its queues, adds levels up from the
    order states every time, and remembers which ids rest in a separate set. */
module ReferenceMatchers {
  import opened Types
  import opened Ranking
  import opened Reports
  import opened Exchanges
  import MatchingLaws
  import opened ExchangeLaws
  import opened MatchProgress
  import opened Bridge
  import B = Books

  function RemoveFirst(q: seq<nat>, id: nat): seq<nat> {
    if q == [] then [] else if q[0] == id then q[1..] else [q[0]] + RemoveFirst(q[1..], id)
  }

  lemma {:induction false} RemoveFirstIs(q: seq<nat>, id: nat)
    requires Distinct(q)
    ensures RemoveFirst(q, id) == Without(q, id)
  {
    if q != [] {
      if q[0] == id {
        Absent(q[1..], id);
      } else {
        RemoveFirstIs(q[1..], id);
      }
    }
  }

  lemma {:induction false} Absent(q: seq<nat>, id: nat)
    requires forall i :: 0 <= i < |q| ==> q[i] != id
    ensures Without(q, id) == q
  {
    if q != [] {
      Absent(q[1..], id);
    }
  }

  /** Floor division, as the reference's language does it; it equals truncation because no notional is negative. */
  function FloorAverage(st: OrderState): int {
    if st.filled <= 0 then 0 else st.notional / st.filled
  }

  function ReportOf(st: OrderState, execType: ExecType, lastQuantity: int, lastPrice: int, timestamp: int): Report {
    var remaining := if Closed(st.status) then 0 else Remaining(st);
    Report(st.clientOrderId, st.orderId, st.symbolId, st.side, st.status, execType, st.filled, remaining, lastQuantity, lastPrice,
           FloorAverage(st), if remaining > 0 && st.orderType == Limit then st.limit else 0, timestamp, NoReason)
  }

  lemma ReportsAgree(st: OrderState, execType: ExecType, lastQuantity: int, lastPrice: int, timestamp: int)
    requires st.notional >= 0
    ensures ReportOf(st, execType, lastQuantity, lastPrice, timestamp)
         == MakeReport(st, execType, lastQuantity, lastPrice, timestamp, NoReason)
  {
  }

  function NonEmptyLevels(ladder: IdLadder): set<int> {
    set p | p in ladder && ladder[p] != []
  }

  lemma NoLevelEmpty(ladder: IdLadder, states: States, side: Side)
    requires LadderOk(ladder, states, side)
    ensures NonEmptyLevels(ladder) == ladder.Keys
  {
    forall p ensures p in NonEmptyLevels(ladder) <==> p in ladder.Keys {}
  }

  predicate PositiveLevel(ids: seq<nat>, states: States) {
    (forall i :: 0 <= i < |ids| ==> ids[i] in states) && LevelQuantity(states, ids) > 0
  }

  lemma AllPositive(ladder: IdLadder, states: States, side: Side)
    requires LadderOk(ladder, states, side)
    ensures forall p :: p in ladder ==> PositiveLevel(ladder[p], states)
  {
    forall p | p in ladder ensures PositiveLevel(ladder[p], states) {
      LevelPositive(ladder, states, side, p);
    }
  }

  /** The exchange with both states filled and the queues not yet touched. */
  ghost function BothFilled(x: Exchange, rid: nat, id: nat, quantity: int, price: int): Exchange
    requires rid in x.states && id in x.states
  {
    x.(states := x.states[rid := Fill(x.states[rid], quantity, price)][id := Fill(x.states[id], quantity, price)])
  }

  /** One trade as the reference sees it. */
  lemma TradeSeen(x: Exchange, id: nat, wanted: int, ts: int)
    requires CanTake(x, id, wanted)
    ensures var side := x.states[id].side; var rid := Opponent(x, side);
      && ValidSide(side) && On(x, Opposite(side)) != map[] && rid in x.states && rid != id
    ensures var rid := Opponent(x, x.states[id].side);
      var q, p := Min(wanted, Remaining(x.states[rid])), x.states[rid].limit;
      var y := BothFilled(x, rid, id, q, p); var (x', left, two) := Take(x, id, wanted, ts);
      && x' == (if Remaining(y.states[rid]) == 0 then Unrest(y, rid) else y) && left == wanted - q
      && two == [ReportOf(y.states[rid], Trade, q, p, ts), ReportOf(y.states[id], Trade, q, p, ts)]
      && InBook(y, rid) && Distinct(QueueAt(On(y, y.states[rid].side), p)) && y.states[rid].limit == p
  {
    TakeFacts(x, id, wanted);
    var rid := Opponent(x, x.states[id].side);
    var q, p := Min(wanted, Remaining(x.states[rid])), x.states[rid].limit;
    var y := BothFilled(x, rid, id, q, p);
    FillKeeps(x.states[rid], rid, x.symbol, x.nextId, q, p);
    FillKeeps(x.states[id], id, x.symbol, x.nextId, q, p);
    FrontLeaves(On(x, Opposite(x.states[id].side))[p]);
    ReportsAgree(y.states[rid], Trade, q, p, ts);
    ReportsAgree(y.states[id], Trade, q, p, ts);
  }

  /** A trade leaves every order where it was, except one that it used up. */
  lemma TradeLeaves(x: Exchange, id: nat, wanted: int, ts: int)
    requires CanTake(x, id, wanted)
    ensures On(x, Opposite(x.states[id].side)) != map[] && Opponent(x, x.states[id].side) in x.states
    ensures var rid := Opponent(x, x.states[id].side);
      var q, p := Min(wanted, Remaining(x.states[rid])), x.states[rid].limit;
      var y := BothFilled(x, rid, id, q, p); var x' := Take(x, id, wanted, ts).0;
      && Ok(x') && forall k :: InBook(x', k) <==> InBook(x, k) && !(k == rid && Remaining(y.states[rid]) == 0)
  {
    TakeFacts(x, id, wanted);
    TakeKeeps(x, id, wanted, ts);
    TakeTouches(x, id, wanted, ts);
    var rid := Opponent(x, x.states[id].side);
    var x' := Take(x, id, wanted, ts).0;
    forall k ensures InBook(x', k) <==> InBook(x, k) && !(k == rid && Remaining(x'.states[rid]) == 0) {
      if k in x.states && k != id { MatchingLaws.TakeStays(x, id, wanted, ts, k); }
    }
  }

  /** Withdrawing takes one id out of the book and leaves the others. */
  lemma WithdrawnRests(x: Exchange, r: ReplaceRequest)
    requires Ok(x) && InBook(x, r.orderId) && r.price > 0 && r.quantity > 0
    ensures forall k :: InBook(Withdrawn(x, r), k) <==> InBook(x, k) && k != r.orderId
  {
    UnrestKeeps(x, r.orderId);
    NotQueued(Unrest(x, r.orderId), r.orderId);
    RestsIn(x, r.orderId);
    WithdrawnTakes(x, r);
    forall k ensures InBook(Withdrawn(x, r), k) <==> InBook(x, k) && k != r.orderId {
      assert InBook(Unrest(x, r.orderId), k) ==> k != r.orderId;
    }
  }

  lemma FrontLeaves(q: seq<nat>)
    requires q != [] && Distinct(q)
    ensures Without(q, q[0]) == q[1..] && (forall k :: k in q[1..] <==> k in q && k != q[0])
  {
    Absent(q[1..], q[0]);
    assert q == [q[0]] + q[1..];
    assert forall i :: 0 < i < |q| ==> q[i] != q[0] && q[1..][i - 1] == q[i];
  }

  class ReferenceMatcher {
    const symbolId: nat
    var nextId: nat
    var states: States
    var seen: set<nat>
    var bidLevels: IdLadder
    var askLevels: IdLadder
    var inBook: set<nat>

    ghost function View(): Exchange
      reads this
    {
      Exchange(symbolId, bidLevels, askLevels, states, seen, nextId)
    }

    /** The set of resting ids is exactly what the queues hold. */
    ghost predicate Valid()
      reads this
    {
      Ok(View()) && forall id :: id in inBook <==> InBook(View(), id)
    }

    constructor (symbolId: nat)
      ensures Valid() && this.symbolId == symbolId && View() == Fresh(symbolId)
    {
      this.symbolId := symbolId;
      nextId, states, seen, bidLevels, askLevels, inBook := 1, map[], {}, map[], map[], {};
    }

    method BestBid() returns (best: Option<int>)
      requires Valid()
      ensures best == BestPrice(View(), Buy)
    {
      var prices := NonEmptyLevels(bidLevels);
      NoLevelEmpty(bidLevels, states, Buy);
      return if prices == {} then None else Some(Best(Buy, prices));
    }

    method BestAsk() returns (best: Option<int>)
      requires Valid()
      ensures best == BestPrice(View(), Sell)
    {
      var prices := NonEmptyLevels(askLevels);
      NoLevelEmpty(askLevels, states, Sell);
      return if prices == {} then None else Some(Best(Sell, prices));
    }

    method CrossesBook(side: Side, orderType: OrderType, limit: int) returns (crosses: bool)
      requires Valid()
      ensures crosses == Crosses(View(), side, orderType, limit)
    {
      if side == Buy {
        var best := BestAsk();
        return best != None && (orderType == Market || limit >= best.value);
      }
      if side == Sell {
        var best := BestBid();
        return best != None && (orderType == Market || limit <= best.value);
      }
      return false;
    }

    method SumRemaining(ids: seq<nat>) returns (quantity: int)
      requires forall i :: 0 <= i < |ids| ==> ids[i] in states
      ensures quantity == LevelQuantity(states, ids)
    {
      quantity := 0;
      for i := 0 to |ids|
        invariant quantity == LevelQuantity(states, ids[..i])
      {
        assert ids[..i + 1][..i] == ids[..i];
        quantity := quantity + Remaining(states[ids[i]]);
      }
      assert ids[..|ids|] == ids;
    }

    /** Walks the listed levels, adding each up from the order states and skipping empty ones. */
    method LevelsFill(levels: IdLadder, prices: seq<int>, r: NewRequest) returns (ok: bool)
      requires ValidSide(r.side) && forall k :: 0 <= k < |prices| ==> prices[k] in levels && PositiveLevel(levels[prices[k]], states)
      ensures ok == CanFillFrom(states, levels, prices, r.side, r.orderType, r.price, r.quantity)
    {
      var required := r.quantity;
      assert prices[0..] == prices;
      for i := 0 to |prices|
        invariant CanFillFrom(states, levels, prices[i..], r.side, r.orderType, r.price, required)
               == CanFillFrom(states, levels, prices, r.side, r.orderType, r.price, r.quantity)
      {
        var price := prices[i];
        assert prices[i..][0] == price && prices[i..][1..] == prices[i + 1..];
        assert PositiveLevel(levels[price], states);
        var quantity := SumRemaining(levels[price]);
        if quantity == 0 {
          continue;
        }
        var executable := r.orderType == Market || (r.side == Buy && price <= r.price) || (r.side == Sell && price >= r.price);
        if !executable {
          return false;
        }
        if quantity >= required {
          return true;
        }
        required := required - quantity;
      }
      return false;
    }

    /** Whether the opposing levels, best first, hold enough executable quantity. */
    method CanFullyFillFromBook(r: NewRequest) returns (ok: bool)
      requires Valid() && ValidSide(r.side)
      ensures ok == CanFullyFill(View(), r)
    {
      var levels := if r.side == Buy then askLevels else bidLevels;
      var prices := Ranked(Opposite(r.side), levels.Keys);
      RankedLists(Opposite(r.side), levels.Keys);
      AllPositive(levels, states, Opposite(r.side));
      ok := LevelsFill(levels, prices, r);
    }

    method WouldSelfTradeInBook(side: Side, orderType: OrderType, limit: int, clientId: nat, excluded: nat)
      returns (would: bool)
      requires Valid()
      ensures would == WouldSelfTrade(View(), side, orderType, limit, clientId, excluded)
    {
      if clientId == 0 {
        return false;
      }
      var left := inBook;
      while left != {}
        invariant left <= inBook
        invariant forall id :: id in inBook && id !in left ==> !SelfTradeWith(View(), id, side, orderType, limit, clientId, excluded)
        decreases |left|
      {
        var id := PickOne(left);
        left := left - {id};
        if id == excluded {
          continue;
        }
        var st := states[id];
        if st.clientId != clientId || st.side != Opposite(side) {
          continue;
        }
        if orderType == Market || (side == Buy && limit >= st.limit) || (side == Sell && limit <= st.limit) {
          assert SelfTradeWith(View(), id, side, orderType, limit, clientId, excluded);
          return true;
        }
      }
      return false;
    }

    method BestOpposingOrder(side: Side) returns (id: Option<nat>)
      requires Valid() && ValidSide(side)
      ensures id == if On(View(), Opposite(side)) == map[] then None else Some(Opponent(View(), side))
    {
      if side == Buy {
        var best := BestAsk();
        return if best == None then None else Some(askLevels[best.value][0]);
      }
      var best := BestBid();
      return if best == None then None else Some(bidLevels[best.value][0]);
    }

    method RemoveFromBook(id: nat)
      requires InBook(View(), id) && Distinct(QueueAt(On(View(), states[id].side), states[id].limit))
      modifies this`bidLevels, this`askLevels, this`inBook
      ensures View() == Unrest(old(View()), id) && inBook == old(inBook) - {id}
    {
      var st := states[id];
      var levels: IdLadder := if st.side == Buy then bidLevels else askLevels;
      if st.limit in levels && id in levels[st.limit] {
        RemoveFirstIs(levels[st.limit], id);
        var queue := RemoveFirst(levels[st.limit], id);
        levels := levels[st.limit := queue];
        if queue == [] {
          levels := levels - {st.limit};
        }
        if st.side == Buy { bidLevels := levels; } else { askLevels := levels; }
      }
      inBook := inBook - {id};
    }

    method RestLimitOrder(id: nat, ghost remaining: int)
      requires Valid() && Taking(View(), id, remaining) && remaining > 0 && states[id].orderType == Limit
      modifies this`bidLevels, this`askLevels, this`inBook
      ensures Valid() && View() == Rest(old(View()), id)
    {
      RestKeeps(View(), id, remaining);
      var st := states[id];
      if st.side == Buy {
        bidLevels := bidLevels[st.limit := QueueAt(bidLevels, st.limit) + [id]];
      } else {
        askLevels := askLevels[st.limit := QueueAt(askLevels, st.limit) + [id]];
      }
      inBook := inBook + {id};
    }

    /** One trade with the oldest order at the best opposing price; that order leaves when it is used up. */
    method TradeOnce(id: nat, wanted: int, ts: int, earlier: seq<Report>) returns (remaining: int, reports: seq<Report>)
      requires Valid() && CanTake(View(), id, wanted)
      modifies this`states, this`bidLevels, this`askLevels, this`inBook
      ensures Valid() && (View(), remaining) == (Take(old(View()), id, wanted, ts).0, Take(old(View()), id, wanted, ts).1)
      ensures reports == earlier + Take(old(View()), id, wanted, ts).2
    {
      TradeSeen(View(), id, wanted, ts);
      TradeLeaves(View(), id, wanted, ts);
      ghost var two := Take(View(), id, wanted, ts).2;
      var best := BestOpposingOrder(states[id].side);
      var resting := best.value;
      var price, quantity := states[resting].limit, Min(wanted, Remaining(states[resting]));
      remaining := wanted - quantity;
      states := states[resting := Fill(states[resting], quantity, price)];
      states := states[id := Fill(states[id], quantity, price)];
      reports := earlier + [ReportOf(states[resting], Trade, quantity, price, ts)];
      reports := reports + [ReportOf(states[id], Trade, quantity, price, ts)];
      assert reports == earlier + two;
      if Remaining(states[resting]) == 0 {
        RemoveFromBook(resting);
      }
    }

    method MatchAgainstBook(id: nat, wanted: int, ts: int, earlier: seq<Report>)
      returns (remaining: int, reports: seq<Report>)
      requires Valid() && Taking(View(), id, wanted)
      modifies this`states, this`bidLevels, this`askLevels, this`inBook
      ensures Valid() && (View(), remaining) == (Match(old(View()), id, wanted, ts).0, Match(old(View()), id, wanted, ts).1)
      ensures reports == earlier + Match(old(View()), id, wanted, ts).2
    {
      ghost var x, done := View(), [];
      remaining, reports := wanted, earlier;
      MatchStarts(x, id, wanted, ts);
      var crosses := CrossesBook(states[id].side, states[id].orderType, states[id].limit);
      while remaining > 0 && crosses
        invariant Valid() && Progress(x, id, wanted, ts, done, View(), remaining)
        invariant crosses == Crosses(View(), states[id].side, states[id].orderType, states[id].limit)
        invariant reports == earlier + done
        decreases remaining
      {
        ghost var y, left := View(), remaining;
        ghost var two := Take(y, id, left, ts).2;
        remaining, reports := TradeOnce(id, remaining, ts, reports);
        ConcatAssociates(earlier, done, two);
        MatchStep(x, id, wanted, ts, done, y, left);
        done := done + two;
        crosses := CrossesBook(states[id].side, states[id].orderType, states[id].limit);
      }
      MatchStops(x, id, wanted, ts, done, View(), remaining);
    }

    method ReserveClientOrderId(clientOrderId: nat) returns (ok: bool)
      requires Valid()
      modifies this`seen
      ensures Valid() && ok == CanReserve(old(View()), clientOrderId)
      ensures View() == if ok then Reserved(old(View()), clientOrderId) else old(View())
    {
      if clientOrderId == INVALID_ID || clientOrderId in seen {
        return false;
      }
      ReservedOk(View(), clientOrderId);
      seen := seen + {clientOrderId};
      return true;
    }

    method UpdateStatus(id: nat, status: Status)
      requires Valid() && id in states
      modifies this`states
      ensures Valid() && View() == SetStatus(old(View()), id, status)
    {
      SetStatusKeeps(View(), id, status);
      states := states[id := states[id].(status := status)];
    }

    method FinishSubmit(id: nat, remaining: int, r: NewRequest, earlier: seq<Report>) returns (reports: seq<Report>)
      requires Valid() && Taking(View(), id, remaining) && states[id].orderType == r.orderType
      modifies this`states, this`bidLevels, this`askLevels, this`inBook
      ensures Valid() && View() == FinishNew(old(View()), id, remaining, r, true).0
      ensures reports == earlier + FinishNew(old(View()), id, remaining, r, true).1
    {
      reports := earlier;
      if remaining > 0 && r.orderType == Limit && r.tif == Gtc {
        if states[id].filled > 0 {
          StatusTakes(View(), id, remaining, PartiallyFilled);
          UpdateStatus(id, PartiallyFilled);
        }
        RestLimitOrder(id, remaining);
      } else if remaining > 0 {
        UpdateStatus(id, Canceled);
        reports := reports + [ReportOf(states[id], ExecCanceled, 0, 0, r.timestamp)];
      }
    }

    method OpenOrder(r: NewRequest) returns (id: nat)
      requires Valid() && Malformed(View(), r) == NoReason
      modifies this`states, this`nextId
      ensures Valid() && id == old(nextId) && View() == Accepted(old(View()), r) && Taking(View(), id, r.quantity)
    {
      AcceptedTakes(View(), r);
      id := nextId;
      nextId := nextId + 1;
      states := states[id := OrderState(r.clientOrderId, id, r.symbolId, r.side, r.orderType, r.price, r.quantity, 0, 0, r.clientId,
                                        NewOrder, r.timestamp)];
    }

    method AcceptOrder(r: NewRequest) returns (reports: seq<Report>)
      requires Valid() && Malformed(View(), r) == NoReason
      modifies this`states, this`nextId, this`bidLevels, this`askLevels, this`inBook
      ensures Valid() && View() == Accept(old(View()), r, true).0
      ensures reports == Accept(old(View()), r, true).1
    {
      var id := OpenOrder(r);
      reports := [ReportOf(states[id], ExecNew, 0, 0, r.timestamp)];
      MatchKeeps(View(), id, r.quantity, r.timestamp);
      var remaining;
      remaining, reports := MatchAgainstBook(id, r.quantity, r.timestamp, reports);
      reports := FinishSubmit(id, remaining, r, reports);
    }

    /** The checks of a well-formed order against the book. */
    method CheckBook(r: NewRequest) returns (reason: Reason)
      requires Valid() && Malformed(View(), r) == NoReason
      ensures reason == Refused(View(), r)
    {
      if r.postOnly {
        var crosses := CrossesBook(r.side, r.orderType, r.price);
        if crosses {
          return PostOnlyWouldCross;
        }
      }
      if !r.postOnly {
        var would := WouldSelfTradeInBook(r.side, r.orderType, r.price, r.clientId, INVALID_ID);
        if would {
          return SelfTradePrevention;
        }
      }
      if r.tif == Fok {
        var fillable := CanFullyFillFromBook(r);
        if !fillable {
          return FokNotFillable;
        }
      }
      return NoReason;
    }

    method SubmitOrder(r: NewRequest) returns (reports: seq<Report>)
      requires Valid()
      modifies this
      ensures Valid() && View() == Exchanges.SubmitOrder(old(View()), r, true).0
      ensures reports == Exchanges.SubmitOrder(old(View()), r, true).1
    {
      if r.symbolId != symbolId || !ValidSide(r.side) {
        return [MakeReject(r.clientOrderId, r.symbolId, r.side, r.timestamp, Unsupported)];
      }
      if r.orderType !in {Limit, Market} {
        return [MakeReject(r.clientOrderId, r.symbolId, r.side, r.timestamp, Unsupported)];
      }
      if r.quantity <= 0 {
        return [MakeReject(r.clientOrderId, r.symbolId, r.side, r.timestamp, InvalidQuantity)];
      }
      if r.orderType == Limit && r.price <= 0 {
        return [MakeReject(r.clientOrderId, r.symbolId, r.side, r.timestamp, InvalidPrice)];
      }
      if r.tif !in {Gtc, Ioc, Fok} {
        return [MakeReject(r.clientOrderId, r.symbolId, r.side, r.timestamp, Unsupported)];
      }
      if r.postOnly && (r.orderType != Limit || r.tif != Gtc) {
        return [MakeReject(r.clientOrderId, r.symbolId, r.side, r.timestamp, Unsupported)];
      }
      var ok := ReserveClientOrderId(r.clientOrderId);
      if !ok {
        return [MakeReject(r.clientOrderId, r.symbolId, r.side, r.timestamp, DuplicateClientOrderId)];
      }
      var reason := CheckBook(r);
      if reason != NoReason {
        return [MakeReject(r.clientOrderId, r.symbolId, r.side, r.timestamp, reason)];
      }
      reports := AcceptOrder(r);
    }

    /** Takes a resting order out of its queue. */
    method Withdraw(id: nat)
      requires Valid() && InBook(View(), id)
      modifies this`bidLevels, this`askLevels, this`inBook
      ensures Valid() && View() == Unrest(old(View()), id)
    {
      UnrestKeeps(View(), id);
      RestsIn(View(), id);
      RemoveFromBook(id);
    }

    method CancelOrder(r: CancelRequest) returns (reports: seq<Report>)
      requires Valid()
      modifies this
      ensures Valid() && View() == Exchanges.CancelOrder(old(View()), r).0
      ensures reports == Exchanges.CancelOrder(old(View()), r).1
    {
      var ok := ReserveClientOrderId(r.clientOrderId);
      if !ok {
        return [MakeReject(r.clientOrderId, symbolId, NoSide, r.timestamp, DuplicateClientOrderId)];
      }
      if r.orderId !in states || r.orderId !in inBook {
        return [MakeReject(r.clientOrderId, symbolId, NoSide, r.timestamp, UnknownOrder)];
      }
      Withdraw(r.orderId);
      UpdateStatus(r.orderId, Canceled);
      return [ReportOf(states[r.orderId], ExecCanceled, 0, 0, r.timestamp)];
    }

    /** Withdraws the order and gives it its new terms. */
    method Reopen(r: ReplaceRequest)
      requires Valid() && InBook(View(), r.orderId) && r.price > 0 && r.quantity > 0
      modifies this`states, this`bidLevels, this`askLevels, this`inBook
      ensures Valid() && View() == Withdrawn(old(View()), r) && Taking(View(), r.orderId, r.quantity)
    {
      WithdrawnTakes(View(), r);
      WithdrawnRests(View(), r);
      RestsIn(View(), r.orderId);
      RemoveFromBook(r.orderId);
      var st := states[r.orderId];
      states := states[r.orderId := st.(limit := r.price, original := st.filled + r.quantity, status := Replaced, timestamp := r.timestamp)];
    }

    method FinishReplace(id: nat, remaining: int, r: ReplaceRequest)
      requires Valid() && Taking(View(), id, remaining) && states[id].orderType == Limit
      modifies this`states, this`bidLevels, this`askLevels, this`inBook
      ensures Valid() && View() == FinishAmend(old(View()), id, remaining, r, true).0
      ensures FinishAmend(old(View()), id, remaining, r, true).1 == []
    {
      if remaining > 0 {
        if states[id].filled > 0 && states[id].status != Replaced {
          StatusTakes(View(), id, remaining, PartiallyFilled);
          UpdateStatus(id, PartiallyFilled);
        }
        RestLimitOrder(id, remaining);
      }
    }

    method AmendOrder(r: ReplaceRequest) returns (reports: seq<Report>)
      requires Valid() && InBook(View(), r.orderId) && r.price > 0 && r.quantity > 0
      modifies this`states, this`bidLevels, this`askLevels, this`inBook
      ensures Valid() && View() == Amend(old(View()), r, true).0
      ensures reports == Amend(old(View()), r, true).1
    {
      RestsIn(View(), r.orderId);
      Reopen(r);
      reports := [ReportOf(states[r.orderId], ExecReplaced, 0, 0, r.timestamp)];
      MatchKeeps(View(), r.orderId, r.quantity, r.timestamp);
      var remaining;
      remaining, reports := MatchAgainstBook(r.orderId, r.quantity, r.timestamp, reports);
      FinishReplace(r.orderId, remaining, r);
      assert reports + [] == reports;
    }

    method ReplaceOrder(r: ReplaceRequest) returns (reports: seq<Report>)
      requires Valid()
      modifies this
      ensures Valid() && View() == Exchanges.ReplaceOrder(old(View()), r, true).0
      ensures reports == Exchanges.ReplaceOrder(old(View()), r, true).1
    {
      if r.quantity <= 0 {
        return [MakeReject(r.clientOrderId, symbolId, NoSide, r.timestamp, InvalidQuantity)];
      }
      if r.price <= 0 {
        return [MakeReject(r.clientOrderId, symbolId, NoSide, r.timestamp, InvalidPrice)];
      }
      var ok := ReserveClientOrderId(r.clientOrderId);
      if !ok {
        return [MakeReject(r.clientOrderId, symbolId, NoSide, r.timestamp, DuplicateClientOrderId)];
      }
      if r.orderId !in states || r.orderId !in inBook {
        return [MakeReject(r.clientOrderId, symbolId, NoSide, r.timestamp, UnknownOrder)];
      }
      var st := states[r.orderId];
      var would := WouldSelfTradeInBook(st.side, st.orderType, r.price, st.clientId, st.orderId);
      if would {
        return [MakeReject(r.clientOrderId, symbolId, st.side, r.timestamp, SelfTradePrevention)];
      }
      reports := AmendOrder(r);
    }

    /** Price and recomputed quantity of every level, bids from high to low and asks from low to high. */
    method L2Levels() returns (bids: seq<B.L2Level>, asks: seq<B.L2Level>)
      requires Valid()
      ensures bids == LevelsShown(View(), Buy) && asks == LevelsShown(View(), Sell)
    {
      bids := ShowSide(bidLevels, Buy);
      asks := ShowSide(askLevels, Sell);
    }

    method ShowSide(levels: IdLadder, side: Side) returns (shown: seq<B.L2Level>)
      requires LadderOk(levels, states, side)
      ensures shown == ShowLadder(states, levels, side)
    {
      var prices := Ranked(side, levels.Keys);
      RankedLists(side, levels.Keys);
      shown := [];
      for i := 0 to |prices|
        invariant shown == ShowLadder(states, levels, side)[..i]
      {
        LevelPositive(levels, states, side, prices[i]);
        if levels[prices[i]] != [] {
          var quantity := SumRemaining(levels[prices[i]]);
          shown := shown + [B.L2Level(prices[i], quantity)];
        }
      }
    }
  }

  /** No level is ever empty of quantity. */
  lemma LevelPositive(ladder: IdLadder, states: States, side: Side, price: int)
    requires LadderOk(ladder, states, side) && price in ladder
    ensures LevelQuantity(states, ladder[price]) > 0
    ensures forall i :: 0 <= i < |ladder[price]| ==> ladder[price][i] in states
  {
    forall i | 0 <= i < |ladder[price]| ensures ladder[price][i] in states && Remaining(states[ladder[price][i]]) > 0 {
      assert Rests(states, ladder[price][i], side, price);
    }
    SumPositive(states, ladder[price]);
  }

  lemma {:induction false} SumPositive(states: States, ids: seq<nat>)
    requires forall i :: 0 <= i < |ids| ==> ids[i] in states && Remaining(states[ids[i]]) > 0
    ensures LevelQuantity(states, ids) >= |ids|
  {
    if ids != [] {
      SumPositive(states, ids[..|ids| - 1]);
    }
  }
}
