/** The matching engine: it matches against a book that caches quantities and level totals, and
    is proved to do exactly what the matching contract says. */
module MatchingEngines {
  import opened Types
  import opened Ranking
  import opened Checksum
  import B = Books
  import opened OrderBooks
  import opened Reports
  import opened Exchanges
  import opened Bridge
  import opened MatchProgress
  import opened ExchangeLaws

  /** The level walk of the fill-or-kill check, stopping at the first level out of reach. */
  method LevelsFill(levels: seq<B.L2Level>, r: NewRequest, ghost states: States, ghost ladder: IdLadder,
                    ghost ps: seq<int>)
    returns (ok: bool)
    requires |levels| == |ps|
    requires forall i :: 0 <= i < |ps| ==> levels[i] == B.L2Level(ps[i], LevelQuantity(states, QueueAt(ladder, ps[i])))
    requires ValidSide(r.side)
    ensures ok == CanFillFrom(states, ladder, ps, r.side, r.orderType, r.price, r.quantity)
  {
    var required := r.quantity;
    assert ps[0..] == ps;
    for i := 0 to |levels|
      invariant CanFillFrom(states, ladder, ps[i..], r.side, r.orderType, r.price, required)
             == CanFillFrom(states, ladder, ps, r.side, r.orderType, r.price, r.quantity)
    {
      var level := levels[i];
      assert ps[i..][0] == ps[i] && ps[i..][1..] == ps[i + 1..];
      var executable := r.orderType == Market || (r.side == Buy && level.price <= r.price) || (r.side == Sell && level.price >= r.price);
      if !executable {
        return false;
      }
      if level.quantity >= required {
        return true;
      }
      required := required - level.quantity;
    }
    return false;
  }

  class MatchingEngine {
    const symbolId: nat
    const mix: Mix
    const book: OrderBook
    var nextId: nat
    var states: States
    var seen: set<nat>
    var reportsChecksum: int

    /** The exchange the engine stands for: queues of ids taken from the book. */
    ghost function View(): Exchange
      reads this, book
    {
      Exchange(symbolId, IdsOf(book.View().bids), IdsOf(book.View().asks), states, seen, nextId)
    }

    ghost predicate Valid()
      reads this, book
    {
      book.Valid() && book.symbolId == symbolId && Represents(book.View(), View())
    }

    constructor (symbolId: nat, mix: Mix)
      ensures Valid() && fresh(book) && this.symbolId == symbolId && this.mix == mix && View() == Fresh(symbolId)
      ensures reportsChecksum == FNV_OFFSET_BASIS
    {
      this.symbolId, this.mix := symbolId, mix;
      book := new OrderBook(symbolId);
      nextId, states, seen, reportsChecksum := 1, map[], {}, FNV_OFFSET_BASIS;
      new;
      assert View() == Fresh(symbolId);
    }

    method Record(reports: seq<Report>, report: Report) returns (reports': seq<Report>)
      modifies this`reportsChecksum
      ensures reports' == reports + [report]
      ensures reportsChecksum == ChecksumReports(mix, old(reportsChecksum), [report])
    {
      assert [report][..0] == [];
      reportsChecksum := Fold(mix, reportsChecksum, ReportValues(report));
      reports' := reports + [report];
    }

    method ReserveClientOrderId(clientOrderId: nat) returns (ok: bool)
      modifies this`seen
      ensures ok == (clientOrderId != INVALID_ID && clientOrderId !in old(seen))
      ensures seen == if ok then old(seen) + {clientOrderId} else old(seen)
    {
      if clientOrderId == INVALID_ID || clientOrderId in seen {
        return false;
      }
      seen := seen + {clientOrderId};
      return true;
    }

    method CrossesBook(side: Side, orderType: OrderType, limit: int) returns (crosses: bool)
      requires Valid()
      ensures crosses == Crosses(View(), side, orderType, limit)
    {
      if side == Buy {
        BestMeets(book.View(), View(), Sell);
        var best := book.BestAsk();
        return best != None && (orderType == Market || limit >= best.value);
      }
      if side == Sell {
        BestMeets(book.View(), View(), Buy);
        var best := book.BestBid();
        return best != None && (orderType == Market || limit <= best.value);
      }
      return false;
    }

    method CanFullyFillFromBook(r: NewRequest) returns (ok: bool)
      requires Valid() && ValidSide(r.side)
      ensures ok == CanFullyFill(View(), r)
    {
      var count := book.OrderCount();
      var view := book.L2(count);
      ViewMeets(book.View(), View(), Opposite(r.side), count);
      ghost var ladder := On(View(), Opposite(r.side));
      if r.side == Buy {
        ok := LevelsFill(view.asks, r, states, ladder, Ranked(Sell, ladder.Keys));
      } else {
        ok := LevelsFill(view.bids, r, states, ladder, Ranked(Buy, ladder.Keys));
      }
    }

    method WouldSelfTradeInBook(side: Side, orderType: OrderType, limit: int, clientId: nat, excluded: nat)
      returns (would: bool)
      requires Valid()
      ensures would == WouldSelfTrade(View(), side, orderType, limit, clientId, excluded)
    {
      if clientId == 0 {
        return false;
      }
      var left := states.Keys;
      while left != {}
        invariant left <= states.Keys
        invariant forall id :: id in states && id !in left ==> !SelfTradeWith(View(), id, side, orderType, limit, clientId, excluded)
        decreases |left|
      {
        var id := PickOne(left);
        left := left - {id};
        var st := states[id];
        RestingIffHas(book.View(), View(), id);
        var resting := book.FindOrder(id);
        if id == excluded || st.clientId != clientId || st.side != Opposite(side) || resting == None {
          continue;
        }
        if orderType == Market || (side == Buy && limit >= st.limit) || (side == Sell && limit <= st.limit) {
          assert SelfTradeWith(View(), id, side, orderType, limit, clientId, excluded);
          return true;
        }
      }
      return false;
    }

    method FillBoth(restingId: nat, id: nat, quantity: int, price: int, ts: int, reports: seq<Report>,
                    ghost two: seq<Report>)
      returns (reports': seq<Report>)
      requires restingId in states && id in states && restingId != id
      requires two == [MakeReport(Fill(states[restingId], quantity, price), Trade, quantity, price, ts, NoReason),
                       MakeReport(Fill(states[id], quantity, price), Trade, quantity, price, ts, NoReason)]
      modifies this`states, this`reportsChecksum
      ensures states == old(states)[restingId := Fill(old(states)[restingId], quantity, price)][id := Fill(old(states)[id], quantity, price)]
      ensures reports' == reports + two && reportsChecksum == ChecksumReports(mix, old(reportsChecksum), two)
    {
      states := states[restingId := Fill(states[restingId], quantity, price)];
      states := states[id := Fill(states[id], quantity, price)];
      reports' := Record(reports, MakeReport(states[restingId], Trade, quantity, price, ts, NoReason));
      reports' := Record(reports', MakeReport(states[id], Trade, quantity, price, ts, NoReason));
      PairRecorded(mix, old(reportsChecksum), two);
    }

    /** Takes the traded quantity off the resting order, once both order states are filled. */
    method ReduceResting(restingId: nat, quantity: int, ghost x': Exchange)
      requires book.Valid() && book.symbolId == symbolId
      requires B.Reduce(book.View(), restingId, quantity).1
      requires Represents(B.Reduce(book.View(), restingId, quantity).0, x')
      requires (x'.symbol, x'.states, x'.seen, x'.nextId) == (symbolId, states, seen, nextId)
      modifies book
      ensures Valid() && View() == x'
    {
      var ok := book.ReduceOrder(restingId, quantity);
    }

    /** What the next trade takes, and from which order. */
    method NextTrade(id: nat, remaining: int, ghost ts: int)
      returns (restingId: nat, price: int, quantity: int, ghost x': Exchange, ghost two: seq<Report>)
      requires Valid() && CanTake(View(), id, remaining)
      ensures (x', remaining - quantity, two) == old(Take(View(), id, remaining, ts))
      ensures restingId in states && id in states && restingId != id
      ensures two == [MakeReport(Fill(states[restingId], quantity, price), Trade, quantity, price, ts, NoReason),
                      MakeReport(Fill(states[id], quantity, price), Trade, quantity, price, ts, NoReason)]
      ensures x'.states == states[restingId := Fill(states[restingId], quantity, price)][id := Fill(states[id], quantity, price)]
      ensures x'.symbol == symbolId && x'.seen == seen && x'.nextId == nextId
      ensures B.Reduce(book.View(), restingId, quantity).1
      ensures Represents(B.Reduce(book.View(), restingId, quantity).0, x')
    {
      TradeMeets(book.View(), View(), id, remaining, ts);
      x', two := Take(View(), id, remaining, ts).0, Take(View(), id, remaining, ts).2;
      var best := book.BestOrder(Opposite(states[id].side));
      restingId, price, quantity := best.value.orderId, best.value.price, Min(remaining, best.value.quantity);
    }

    /** One trade with the oldest order at the best opposing price. */
    method TradeOnce(id: nat, remaining: int, ts: int, reports: seq<Report>)
      returns (remaining': int, reports': seq<Report>)
      requires Valid() && CanTake(View(), id, remaining)
      modifies this`states, this`reportsChecksum, book
      ensures Valid() && (View(), remaining') == (Take(old(View()), id, remaining, ts).0, Take(old(View()), id, remaining, ts).1)
      ensures reports' == reports + Take(old(View()), id, remaining, ts).2
      ensures reportsChecksum == ChecksumReports(mix, old(reportsChecksum), Take(old(View()), id, remaining, ts).2)
    {
      ghost var x', two;
      var restingId, price, quantity;
      restingId, price, quantity, x', two := NextTrade(id, remaining, ts);
      remaining' := remaining - quantity;
      reports' := FillBoth(restingId, id, quantity, price, ts, reports, two);
      ReduceResting(restingId, quantity, x');
    }

    method MatchAgainstBook(id: nat, wanted: int, ts: int, earlier: seq<Report>)
      returns (remaining: int, reports: seq<Report>)
      requires Valid() && Taking(View(), id, wanted)
      modifies this`states, this`reportsChecksum, book
      ensures Valid() && (View(), remaining) == (Match(old(View()), id, wanted, ts).0, Match(old(View()), id, wanted, ts).1)
      ensures reports == earlier + Match(old(View()), id, wanted, ts).2
      ensures reportsChecksum == ChecksumReports(mix, old(reportsChecksum), Match(old(View()), id, wanted, ts).2)
    {
      ghost var x, done, seed := View(), [], reportsChecksum;
      remaining, reports := wanted, earlier;
      MatchStarts(x, id, wanted, ts);
      var crosses := CrossesBook(states[id].side, states[id].orderType, states[id].limit);
      while remaining > 0 && crosses
        invariant Valid() && Progress(x, id, wanted, ts, done, View(), remaining)
        invariant crosses == Crosses(View(), states[id].side, states[id].orderType, states[id].limit)
        invariant reports == earlier + done && reportsChecksum == ChecksumReports(mix, seed, done)
        decreases remaining
      {
        ghost var y, left := View(), remaining;
        ghost var two := Take(y, id, left, ts).2;
        remaining, reports := TradeOnce(id, remaining, ts, reports);
        ChecksumConcat(mix, seed, done, two);
        ConcatAssociates(earlier, done, two);
        MatchStep(x, id, wanted, ts, done, y, left);
        done := done + two;
        crosses := CrossesBook(states[id].side, states[id].orderType, states[id].limit);
      }
      MatchStops(x, id, wanted, ts, done, View(), remaining);
    }

    /** Puts the rest of a limit order in the book, which refuses it exactly when the symbol is unset. */
    method RestLimitOrder(id: nat, remaining: int, ts: int) returns (ok: bool)
      requires Valid() && Taking(View(), id, remaining) && remaining > 0 && states[id].orderType == Limit
      modifies book
      ensures Valid() && ok == (symbolId != INVALID_ID)
      ensures View() == if ok then Rest(old(View()), id) else old(View())
    {
      RestMeets(book.View(), View(), id, remaining, ts);
      var st := states[id];
      ok := book.AddOrder(Order(st.orderId, st.clientOrderId, st.symbolId, st.side, st.limit, remaining, ts, st.orderId));
    }

    method UpdateStatus(id: nat, status: Status)
      requires Valid() && id in states
      modifies this`states
      ensures Valid() && View() == SetStatus(old(View()), id, status)
    {
      StatusMeets(book.View(), View(), id, status);
      states := states[id := states[id].(status := status)];
    }

    method RestOrReject(id: nat, remaining: int, ts: int, earlier: seq<Report>) returns (reports: seq<Report>)
      requires Valid() && Taking(View(), id, remaining) && remaining > 0 && states[id].orderType == Limit
      modifies this`states, this`reportsChecksum, book
      ensures Valid() && View() == Settle(old(View()), id, symbolId != INVALID_ID, ts).0
      ensures reports == earlier + Settle(old(View()), id, symbolId != INVALID_ID, ts).1
      ensures reportsChecksum == ChecksumReports(mix, old(reportsChecksum), Settle(old(View()), id, symbolId != INVALID_ID, ts).1)
    {
      var ok := RestLimitOrder(id, remaining, ts);
      reports := earlier;
      if !ok {
        UpdateStatus(id, Rejected);
        reports := Record(reports, MakeReport(states[id], ExecRejected, 0, 0, ts, InternalError));
      }
    }

    method FinishSubmit(id: nat, remaining: int, r: NewRequest, earlier: seq<Report>) returns (reports: seq<Report>)
      requires Valid() && Taking(View(), id, remaining) && states[id].orderType == r.orderType
      modifies this`states, this`reportsChecksum, book
      ensures Valid() && View() == FinishNew(old(View()), id, remaining, r, symbolId != INVALID_ID).0
      ensures reports == earlier + FinishNew(old(View()), id, remaining, r, symbolId != INVALID_ID).1
      ensures reportsChecksum == ChecksumReports(mix, old(reportsChecksum), FinishNew(old(View()), id, remaining, r, symbolId != INVALID_ID).1)
    {
      reports := earlier;
      if remaining > 0 && r.orderType == Limit && r.tif == Gtc {
        if states[id].filled > 0 {
          StatusTakes(View(), id, remaining, PartiallyFilled);
          UpdateStatus(id, PartiallyFilled);
        }
        reports := RestOrReject(id, remaining, r.timestamp, reports);
      } else if remaining > 0 {
        UpdateStatus(id, Canceled);
        reports := Record(reports, MakeReport(states[id], ExecCanceled, 0, 0, r.timestamp, NoReason));
      }
    }

    /** Opens the order's state. */
    method OpenOrder(r: NewRequest) returns (id: nat)
      requires Valid() && Malformed(View(), r) == NoReason
      modifies this`states, this`nextId
      ensures Valid() && id == old(nextId) && View() == Accepted(old(View()), r) && Taking(View(), id, r.quantity)
    {
      OpenMeets(book.View(), View(), r);
      id := nextId;
      nextId := nextId + 1;
      states := states[id := OrderState(r.clientOrderId, id, r.symbolId, r.side, r.orderType, r.price, r.quantity, 0, 0, r.clientId,
                                        NewOrder, r.timestamp)];
    }

    method AcceptOrder(r: NewRequest) returns (reports: seq<Report>)
      requires Valid() && Malformed(View(), r) == NoReason
      modifies this`states, this`nextId, this`reportsChecksum, book
      ensures Valid() && View() == Accept(old(View()), r, symbolId != INVALID_ID).0
      ensures reports == Accept(old(View()), r, symbolId != INVALID_ID).1
      ensures reportsChecksum == ChecksumReports(mix, old(reportsChecksum), reports)
    {
      ghost var x, seed := View(), reportsChecksum;
      var id := OpenOrder(r);
      reports := Record([], MakeReport(states[id], ExecNew, 0, 0, r.timestamp, NoReason));
      ghost var first := reports;
      MatchKeeps(View(), id, r.quantity, r.timestamp);
      ghost var trades := Match(View(), id, r.quantity, r.timestamp).2;
      var remaining;
      remaining, reports := MatchAgainstBook(id, r.quantity, r.timestamp, reports);
      ghost var closing := FinishNew(View(), id, remaining, r, symbolId != INVALID_ID).1;
      ChecksumThree(mix, seed, first, trades, closing);
      reports := FinishSubmit(id, remaining, r, reports);
    }

    method Reject(clientOrderId: nat, symbol: nat, side: Side, ts: int, reason: Reason) returns (reports: seq<Report>)
      modifies this`reportsChecksum
      ensures reports == [MakeReject(clientOrderId, symbol, side, ts, reason)]
      ensures reportsChecksum == ChecksumReports(mix, old(reportsChecksum), reports)
    {
      reports := Record([], MakeReject(clientOrderId, symbol, side, ts, reason));
    }

    method Reserve(clientOrderId: nat) returns (ok: bool)
      requires Valid()
      modifies this`seen
      ensures Valid() && ok == CanReserve(old(View()), clientOrderId)
      ensures View() == if ok then Reserved(old(View()), clientOrderId) else old(View())
    {
      ReserveMeets(book.View(), View(), clientOrderId);
      ok := ReserveClientOrderId(clientOrderId);
    }

    /** The checks of a well-formed order against the book. */
    method CheckBook(r: NewRequest) returns (reason: Reason)
      requires Valid() && Malformed(View(), r) == NoReason
      ensures reason == Refused(View(), r)
    {
      if r.postOnly {
        var crosses := CrossesBook(r.side, r.orderType, r.price);
        if crosses {
          return PostOnlyWouldCross;
        }
      }
      if !r.postOnly {
        var would := WouldSelfTradeInBook(r.side, r.orderType, r.price, r.clientId, INVALID_ID);
        if would {
          return SelfTradePrevention;
        }
      }
      if r.tif == Fok {
        var fillable := CanFullyFillFromBook(r);
        if !fillable {
          return FokNotFillable;
        }
      }
      return NoReason;
    }

    method SubmitOrder(r: NewRequest) returns (reports: seq<Report>)
      requires Valid()
      modifies this, book
      ensures Valid() && View() == Exchanges.SubmitOrder(old(View()), r, symbolId != INVALID_ID).0
      ensures reports == Exchanges.SubmitOrder(old(View()), r, symbolId != INVALID_ID).1
      ensures reportsChecksum == ChecksumReports(mix, old(reportsChecksum), reports)
    {
      if r.symbolId != symbolId || !ValidSide(r.side) {
        reports := Reject(r.clientOrderId, r.symbolId, r.side, r.timestamp, Unsupported);
        return;
      }
      if r.orderType != Limit && r.orderType != Market {
        reports := Reject(r.clientOrderId, r.symbolId, r.side, r.timestamp, Unsupported);
        return;
      }
      if r.quantity <= 0 {
        reports := Reject(r.clientOrderId, r.symbolId, r.side, r.timestamp, InvalidQuantity);
        return;
      }
      if r.orderType == Limit && r.price <= 0 {
        reports := Reject(r.clientOrderId, r.symbolId, r.side, r.timestamp, InvalidPrice);
        return;
      }
      if r.tif != Gtc && r.tif != Ioc && r.tif != Fok {
        reports := Reject(r.clientOrderId, r.symbolId, r.side, r.timestamp, Unsupported);
        return;
      }
      if r.postOnly && (r.orderType != Limit || r.tif != Gtc) {
        reports := Reject(r.clientOrderId, r.symbolId, r.side, r.timestamp, Unsupported);
        return;
      }
      var ok := Reserve(r.clientOrderId);
      if !ok {
        reports := Reject(r.clientOrderId, r.symbolId, r.side, r.timestamp, DuplicateClientOrderId);
        return;
      }
      var reason := CheckBook(r);
      if reason != NoReason {
        reports := Reject(r.clientOrderId, r.symbolId, r.side, r.timestamp, reason);
        return;
      }
      reports := AcceptOrder(r);
    }

    method CancelOrder(r: CancelRequest) returns (reports: seq<Report>)
      requires Valid()
      modifies this, book
      ensures Valid() && View() == Exchanges.CancelOrder(old(View()), r).0
      ensures reports == Exchanges.CancelOrder(old(View()), r).1
      ensures reportsChecksum == ChecksumReports(mix, old(reportsChecksum), reports)
    {
      var ok := Reserve(r.clientOrderId);
      if !ok {
        reports := Reject(r.clientOrderId, symbolId, NoSide, r.timestamp, DuplicateClientOrderId);
        return;
      }
      RestingIffHas(book.View(), View(), r.orderId);
      var resting := book.FindOrder(r.orderId);
      if r.orderId !in states || resting == None {
        reports := Reject(r.clientOrderId, symbolId, NoSide, r.timestamp, UnknownOrder);
        return;
      }
      Withdraw(r.orderId);
      UpdateStatus(r.orderId, Canceled);
      reports := Record([], MakeReport(states[r.orderId], ExecCanceled, 0, 0, r.timestamp, NoReason));
    }

    /** Takes a resting order out of the book; the book never refuses. */
    method Withdraw(id: nat)
      requires Valid() && InBook(View(), id)
      modifies book
      ensures Valid() && View() == Unrest(old(View()), id)
    {
      RestingIffHas(book.View(), View(), id);
      DropMeets(book.View(), View(), id);
      var ok := book.CancelOrder(id);
    }

    method FinishReplace(id: nat, remaining: int, r: ReplaceRequest, earlier: seq<Report>)
      returns (reports: seq<Report>)
      requires Valid() && Taking(View(), id, remaining) && states[id].orderType == Limit
      modifies this`states, this`reportsChecksum, book
      ensures Valid() && View() == FinishAmend(old(View()), id, remaining, r, symbolId != INVALID_ID).0
      ensures reports == earlier + FinishAmend(old(View()), id, remaining, r, symbolId != INVALID_ID).1
      ensures reportsChecksum == ChecksumReports(mix, old(reportsChecksum), FinishAmend(old(View()), id, remaining, r, symbolId != INVALID_ID).1)
    {
      reports := earlier;
      if remaining > 0 {
        if states[id].filled > 0 && states[id].status != Replaced {
          StatusTakes(View(), id, remaining, PartiallyFilled);
          UpdateStatus(id, PartiallyFilled);
        }
        reports := RestOrReject(id, remaining, r.timestamp, reports);
      }
    }

    /** Withdraws the order and gives it its new terms. */
    method Reopen(r: ReplaceRequest)
      requires Valid() && InBook(View(), r.orderId) && r.price > 0 && r.quantity > 0
      modifies this`states, book
      ensures Valid() && View() == Withdrawn(old(View()), r) && Taking(View(), r.orderId, r.quantity)
    {
      ReopenMeets(book.View(), View(), r);
      ghost var b, y := B.Drop(book.View(), r.orderId), Withdrawn(View(), r);
      var ok := book.CancelOrder(r.orderId);
      var st := states[r.orderId];
      states := states[r.orderId := st.(limit := r.price, original := st.filled + r.quantity, status := Replaced, timestamp := r.timestamp)];
      assert book.View() == b && View() == y;
    }

    method AmendOrder(r: ReplaceRequest) returns (reports: seq<Report>)
      requires Valid() && InBook(View(), r.orderId) && r.price > 0 && r.quantity > 0
      modifies this`states, this`reportsChecksum, book
      ensures Valid() && View() == Amend(old(View()), r, symbolId != INVALID_ID).0
      ensures reports == Amend(old(View()), r, symbolId != INVALID_ID).1
      ensures reportsChecksum == ChecksumReports(mix, old(reportsChecksum), reports)
    {
      ghost var x, seed, id := View(), reportsChecksum, r.orderId;
      RestsIn(View(), r.orderId);
      Reopen(r);
      reports := Record([], MakeReport(states[r.orderId], ExecReplaced, 0, 0, r.timestamp, NoReason));
      ghost var first := reports;
      MatchKeeps(View(), r.orderId, r.quantity, r.timestamp);
      ghost var trades := Match(View(), r.orderId, r.quantity, r.timestamp).2;
      var remaining;
      remaining, reports := MatchAgainstBook(r.orderId, r.quantity, r.timestamp, reports);
      ghost var closing := FinishAmend(View(), r.orderId, remaining, r, symbolId != INVALID_ID).1;
      ChecksumThree(mix, seed, first, trades, closing);
      reports := FinishReplace(r.orderId, remaining, r, reports);
    }

    method ReplaceOrder(r: ReplaceRequest) returns (reports: seq<Report>)
      requires Valid()
      modifies this, book
      ensures Valid() && View() == Exchanges.ReplaceOrder(old(View()), r, symbolId != INVALID_ID).0
      ensures reports == Exchanges.ReplaceOrder(old(View()), r, symbolId != INVALID_ID).1
      ensures reportsChecksum == ChecksumReports(mix, old(reportsChecksum), reports)
    {
      if r.quantity <= 0 {
        reports := Reject(r.clientOrderId, symbolId, NoSide, r.timestamp, InvalidQuantity);
        return;
      }
      if r.price <= 0 {
        reports := Reject(r.clientOrderId, symbolId, NoSide, r.timestamp, InvalidPrice);
        return;
      }
      var ok := Reserve(r.clientOrderId);
      if !ok {
        reports := Reject(r.clientOrderId, symbolId, NoSide, r.timestamp, DuplicateClientOrderId);
        return;
      }
      RestingIffHas(book.View(), View(), r.orderId);
      var resting := book.FindOrder(r.orderId);
      if r.orderId !in states || resting == None {
        reports := Reject(r.clientOrderId, symbolId, NoSide, r.timestamp, UnknownOrder);
        return;
      }
      var st := states[r.orderId];
      var would := WouldSelfTradeInBook(st.side, st.orderType, r.price, st.clientId, st.orderId);
      if would {
        reports := Reject(r.clientOrderId, symbolId, st.side, r.timestamp, SelfTradePrevention);
        return;
      }
      reports := AmendOrder(r);
    }
  }

  /** One trade as the engine sees it: the front order of the book, two filled states, a reduced book. */
  lemma TradeMeets(b: B.Book, x: Exchange, id: nat, remaining: int, ts: int)
    requires Represents(b, x) && CanTake(x, id, remaining)
    ensures var opp := Opposite(x.states[id].side);
      && (forall p :: p in B.On(b, opp) ==> B.On(b, opp)[p] != []) && B.BestOrder(b, opp).Some? && ValidSide(opp)
    ensures var o := B.BestOrder(b, Opposite(x.states[id].side)).value; var q := Min(remaining, o.quantity);
      && o.orderId in x.states && id in x.states && o.orderId != id
      && Take(x, id, remaining, ts).1 == remaining - q
      && Take(x, id, remaining, ts).2 == [MakeReport(Fill(x.states[o.orderId], q, o.price), Trade, q, o.price, ts, NoReason),
                                          MakeReport(Fill(x.states[id], q, o.price), Trade, q, o.price, ts, NoReason)]
    ensures var o := B.BestOrder(b, Opposite(x.states[id].side)).value; var q := Min(remaining, o.quantity);
      var x' := Take(x, id, remaining, ts).0;
      && x'.states == x.states[o.orderId := Fill(x.states[o.orderId], q, o.price)][id := Fill(x.states[id], q, o.price)]
      && x'.seen == x.seen && x'.nextId == x.nextId && x'.symbol == x.symbol
      && B.Reduce(b, o.orderId, q).1 && Represents(B.Reduce(b, o.orderId, q).0, x')
  {
    TakeFacts(x, id, remaining);
    TakeMeets(b, x, id, remaining, ts);
    FrontMeets(b, x, Opposite(x.states[id].side));
  }

  lemma StatusMeets(b: B.Book, x: Exchange, id: nat, status: Status)
    requires Represents(b, x) && id in x.states
    ensures Represents(b, SetStatus(x, id, status))
  {
    SetStatusKeeps(x, id, status);
    StatesChange(b, x, SetStatus(x, id, status));
  }

  lemma OpenMeets(b: B.Book, x: Exchange, r: NewRequest)
    requires Represents(b, x) && Malformed(x, r) == NoReason
    ensures Represents(b, Accepted(x, r)) && Taking(Accepted(x, r), x.nextId, r.quantity)
  {
    AcceptedTakes(x, r);
    StatesChange(b, x, Accepted(x, r));
  }

  lemma ChecksumThree(mix: Mix, seed: int, a: seq<Report>, b: seq<Report>, c: seq<Report>)
    ensures ChecksumReports(mix, ChecksumReports(mix, ChecksumReports(mix, seed, a), b), c) == ChecksumReports(mix, seed, a + b + c)
  {
    ChecksumConcat(mix, seed, a, b);
    ChecksumConcat(mix, seed, a + b, c);
  }

  lemma ReserveMeets(b: B.Book, x: Exchange, clientOrderId: nat)
    requires Represents(b, x)
    ensures Represents(b, Reserved(x, clientOrderId))
  {
    ReservedOk(x, clientOrderId);
    StatesChange(b, x, Reserved(x, clientOrderId));
  }

  lemma ReopenMeets(b: B.Book, x: Exchange, r: ReplaceRequest)
    requires Represents(b, x) && InBook(x, r.orderId) && r.price > 0 && r.quantity > 0
    ensures Represents(B.Drop(b, r.orderId), Withdrawn(x, r)) && Taking(Withdrawn(x, r), r.orderId, r.quantity)
    ensures B.Cancel(b, r.orderId) == (B.Drop(b, r.orderId), true)
    ensures Withdrawn(x, r).(bids := x.bids, asks := x.asks) == x.(states := x.states[r.orderId := Amended(x.states[r.orderId], r)])
  {
    RestingIffHas(b, x, r.orderId);
    DropMeets(b, x, r.orderId);
    UnrestKeeps(x, r.orderId);
    WithdrawnTakes(x, r);
    StatesChange(B.Drop(b, r.orderId), Unrest(x, r.orderId), Withdrawn(x, r));
  }

  lemma PairRecorded(mix: Mix, seed: int, two: seq<Report>)
    requires |two| == 2
    ensures ChecksumReports(mix, ChecksumReports(mix, seed, [two[0]]), [two[1]]) == ChecksumReports(mix, seed, two)
  {
    ChecksumConcat(mix, seed, [two[0]], [two[1]]);
    assert two == [two[0]] + [two[1]];
  }

  /** With a depth of at least the order count, the L2 view shows every level of a side. */
  lemma ViewMeets(b: B.Book, x: Exchange, side: Side, depth: nat)
    requires Represents(b, x) && ValidSide(side) && |B.On(b, side)| <= depth
    ensures var levels := if side == Buy then B.L2(b, depth).bids else B.L2(b, depth).asks;
            var ps := Ranked(side, On(x, side).Keys);
      && |levels| == |ps|
      && forall i :: 0 <= i < |ps| ==> ps[i] in On(x, side) && levels[i] == B.L2Level(ps[i], LevelQuantity(x.states, On(x, side)[ps[i]]))
  {
    LaddersMeet(b, x, side);
    RankedLists(side, On(x, side).Keys);
    var ps := Ranked(side, On(x, side).Keys);
    forall i | 0 <= i < |ps|
      ensures ps[i] in On(x, side) && B.Total(B.On(b, side)[ps[i]]) == LevelQuantity(x.states, On(x, side)[ps[i]])
    {
      LevelMeets(b, x, side, ps[i]);
    }
  }
}
