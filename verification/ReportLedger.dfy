/** What the execution reports of a whole run add up to: every order's reported fills sum to what it
    has traded, and its latest report shows what of it is resting. */
module ReportLedgers {
  import opened Types
  import opened Reports
  import opened Exchanges
  import opened MatchingLaws
  import opened ExchangeLaws
  import opened Outcomes
  import opened RequestEffects

  // ----- sums over a list of reports

  /** The quantity all trade reports of one order add up to. */
  function Traded(rs: seq<Report>, id: nat): int {
    if rs == [] then 0
    else Traded(rs[..|rs| - 1], id) + if Trades(rs[|rs| - 1], id) then rs[|rs| - 1].lastQuantity else 0
  }

  /** What all trade reports of one order cost together. */
  function Paid(rs: seq<Report>, id: nat): int {
    if rs == [] then 0
    else Paid(rs[..|rs| - 1], id) + if Trades(rs[|rs| - 1], id) then rs[|rs| - 1].lastQuantity * rs[|rs| - 1].lastPrice else 0
  }

  predicate Trades(r: Report, id: nat) {
    r.execType == Trade && r.orderId == id
  }

  /** The last report about one order. */
  function Latest(rs: seq<Report>, id: nat): Option<Report> {
    if rs == [] then None
    else if rs[|rs| - 1].orderId == id then Some(rs[|rs| - 1])
    else Latest(rs[..|rs| - 1], id)
  }

  lemma Appended(rs: seq<Report>, r: Report, id: nat)
    ensures Traded(rs + [r], id) == Traded(rs, id) + if Trades(r, id) then r.lastQuantity else 0
    ensures Paid(rs + [r], id) == Paid(rs, id) + if Trades(r, id) then r.lastQuantity * r.lastPrice else 0
    ensures Latest(rs + [r], id) == if r.orderId == id then Some(r) else Latest(rs, id)
  {
    assert (rs + [r])[..|rs|] == rs;
  }

  // ----- what the reports say, and the states behind them

  /** A report's running totals are the sums of the trades reported so far, itself included. */
  predicate SumsUp(rs: seq<Report>, r: Report) {
    && r.filled == Traded(rs, r.orderId)
    && r.averagePrice == if r.filled <= 0 then 0 else Truncate(Paid(rs, r.orderId), r.filled)
  }

  ghost predicate AllSumUp(rs: seq<Report>) {
    forall i :: 0 <= i < |rs| && rs[i].orderId != INVALID_ID ==> SumsUp(rs[..i + 1], rs[i])
  }

  /** What an order still shows: nothing once it is done with. */
  function Showing(st: OrderState): int {
    if Closed(st.status) then 0 else Remaining(st)
  }

  /** The reports so far give this order's state: its trades add up, and its latest report is current. */
  ghost predicate Told(rs: seq<Report>, id: nat, st: OrderState) {
    && Traded(rs, id) == st.filled && Paid(rs, id) == st.notional
    && Latest(rs, id).Some? && Latest(rs, id).value.status == st.status && Latest(rs, id).value.remaining == Showing(st)
    && Latest(rs, id).value.restingPrice == if Showing(st) > 0 && st.orderType == Limit then st.limit else 0
  }

  ghost predicate AllTold(states: States, rs: seq<Report>) {
    && (forall id :: id in states ==> states[id].orderId == id != INVALID_ID && Told(rs, id, states[id]))
    && (forall id :: id !in states ==> Traded(rs, id) == 0 && Paid(rs, id) == 0)
  }

  /** The report carries the identity of the order it is about. */
  predicate Names(r: Report, st: OrderState) {
    r.clientOrderId == st.clientOrderId && r.symbolId == st.symbolId && r.side == st.side
  }

  ghost predicate AllNamed(states: States, rs: seq<Report>) {
    forall i :: 0 <= i < |rs| && rs[i].orderId != INVALID_ID ==> rs[i].orderId in states && Names(rs[i], states[rs[i].orderId])
  }

  ghost predicate Kept(states: States, rs: seq<Report>) {
    AllTold(states, rs) && AllSumUp(rs) && AllNamed(states, rs)
  }

  lemma AppendSums(rs: seq<Report>, r: Report)
    requires AllSumUp(rs) && (r.orderId != INVALID_ID ==> SumsUp(rs + [r], r))
    ensures AllSumUp(rs + [r])
  {
    forall i | 0 <= i < |rs + [r]| && (rs + [r])[i].orderId != INVALID_ID
      ensures SumsUp((rs + [r])[..i + 1], (rs + [r])[i])
    {
      if i < |rs| {
        assert (rs + [r])[..i + 1] == rs[..i + 1];
      } else {
        assert (rs + [r])[..i + 1] == rs + [r];
      }
    }
  }

  /** A report that names no order changes nothing. */
  lemma RejectKeeps(states: States, rs: seq<Report>, r: Report)
    requires Kept(states, rs) && r.orderId == INVALID_ID && r.execType != Trade
    ensures Kept(states, rs + [r])
  {
    AppendSums(rs, r);
    AppendNames(states, states, rs, r);
    forall id ensures Traded(rs + [r], id) == Traded(rs, id) && Paid(rs + [r], id) == Paid(rs, id)
      && (id != INVALID_ID ==> Latest(rs + [r], id) == Latest(rs, id))
    {
      Appended(rs, r, id);
    }
  }

  predicate SameOwner(st: OrderState, st': OrderState) {
    st.clientOrderId == st'.clientOrderId && st.symbolId == st'.symbolId && st.side == st'.side
  }

  lemma AppendNames(states: States, states': States, rs: seq<Report>, r: Report)
    requires AllNamed(states, rs) && forall id :: id in states ==> id in states' && SameOwner(states[id], states'[id])
    requires r.orderId != INVALID_ID ==> r.orderId in states' && Names(r, states'[r.orderId])
    ensures AllNamed(states', rs + [r])
  {
    forall i | 0 <= i < |rs + [r]| && (rs + [r])[i].orderId != INVALID_ID
      ensures (rs + [r])[i].orderId in states' && Names((rs + [r])[i], states'[(rs + [r])[i].orderId])
    {
      if i < |rs| { assert (rs + [r])[i] == rs[i]; }
    }
  }

  lemma AppendTells(states: States, rs: seq<Report>, r: Report, id: nat, st: OrderState)
    requires AllTold(states, rs) && r.orderId == st.orderId == id != INVALID_ID && r.status == st.status
    requires var traded := if r.execType == Trade then r.lastQuantity else 0;
      st.filled == Traded(rs, id) + traded && st.notional == Paid(rs, id) + traded * r.lastPrice
    requires r.remaining == Showing(st) && r.restingPrice == if Showing(st) > 0 && st.orderType == Limit then st.limit else 0
    ensures AllTold(states[id := st], rs + [r])
  {
    forall k ensures Traded(rs + [r], k) == Traded(rs, k) + (if Trades(r, k) then r.lastQuantity else 0)
      && Paid(rs + [r], k) == Paid(rs, k) + (if Trades(r, k) then r.lastQuantity * r.lastPrice else 0)
      && Latest(rs + [r], k) == if id == k then Some(r) else Latest(rs, k)
    {
      Appended(rs, r, k);
    }
  }

  /** A report of an order's new state, after a trade of so much at this price or after none. */
  lemma ReportKeeps(states: States, rs: seq<Report>, id: nat, st: OrderState, execType: ExecType, quantity: int, price: int,
                    ts: int, reason: Reason)
    requires Kept(states, rs) && st.orderId == id != INVALID_ID
    requires var traded := if execType == Trade then quantity else 0;
      st.filled == Traded(rs, id) + traded && st.notional == Paid(rs, id) + traded * price
    requires id in states ==> SameOwner(states[id], st)
    ensures Kept(states[id := st], rs + [MakeReport(st, execType, quantity, price, ts, reason)])
  {
    var r := MakeReport(st, execType, quantity, price, ts, reason);
    AppendTells(states, rs, r, id, st);
    Appended(rs, r, id);
    AppendSums(rs, r);
    AppendNames(states, states[id := st], rs, r);
  }

  // ----- matching

  lemma TakeKept(x: Exchange, id: nat, remaining: int, ts: int, rs: seq<Report>)
    requires CanTake(x, id, remaining) && Kept(x.states, rs)
    ensures Kept(Take(x, id, remaining, ts).0.states, rs + Take(x, id, remaining, ts).2)
  {
    TakeFacts(x, id, remaining);
    var rid := Opponent(x, x.states[id].side);
    var quantity, price := TakeQuantity(x, id, remaining), x.states[rid].limit;
    var resting, incoming := Fill(x.states[rid], quantity, price), Fill(x.states[id], quantity, price);
    var a := MakeReport(resting, Trade, quantity, price, ts, NoReason);
    var b := MakeReport(incoming, Trade, quantity, price, ts, NoReason);
    ReportKeeps(x.states, rs, rid, resting, Trade, quantity, price, ts, NoReason);
    ReportKeeps(x.states[rid := resting], rs + [a], id, incoming, Trade, quantity, price, ts, NoReason);
    assert rs + [a] + [b] == rs + [a, b];
  }

  lemma Regroup(a: seq<Report>, b: seq<Report>, c: seq<Report>)
    ensures (a + b) + c == a + (b + c)
  {
  }

  lemma {:induction false} MatchKept(x: Exchange, id: nat, remaining: int, ts: int, rs: seq<Report>)
    requires Taking(x, id, remaining) && Kept(x.states, rs)
    ensures Kept(Match(x, id, remaining, ts).0.states, rs + Match(x, id, remaining, ts).2)
    decreases remaining
  {
    if CanTake(x, id, remaining) {
      var (y, left, two) := Take(x, id, remaining, ts);
      MatchUnfolds(x, id, remaining, ts);
      TakeKept(x, id, remaining, ts, rs);
      MatchKept(y, id, left, ts, rs + two);
      Regroup(rs, two, Match(y, id, left, ts).2);
    } else {
      assert rs + [] == rs;
    }
  }

  // ----- whole requests

  /** A report of an order whose quantities have not moved. */
  lemma RestateKept(x: Exchange, rs: seq<Report>, id: nat, st: OrderState, execType: ExecType, ts: int, reason: Reason)
    requires Kept(x.states, rs) && id in x.states && execType != Trade
    requires st.orderId == id && st.filled == x.states[id].filled && st.notional == x.states[id].notional
    requires SameOwner(x.states[id], st)
    ensures Kept(x.states[id := st], rs + [MakeReport(st, execType, 0, 0, ts, reason)])
  {
    ReportKeeps(x.states, rs, id, st, execType, 0, 0, ts, reason);
  }

  lemma SettleKept(x: Exchange, id: nat, canRest: bool, ts: int, rs: seq<Report>)
    requires Kept(x.states, rs) && id in x.states
    ensures Kept(Settle(x, id, canRest, ts).0.states, rs + Settle(x, id, canRest, ts).1)
  {
    RestateKept(x, rs, id, x.states[id].(status := Rejected), ExecRejected, ts, InternalError);
    assert rs + [] == rs;
  }

  /** Marking an order partially filled that already is changes nothing. */
  lemma SameStatus(x: Exchange, id: nat)
    requires id in x.states
    ensures x.states[id].status == PartiallyFilled ==> SetStatus(x, id, PartiallyFilled) == x
  {
    assert x.states[id].(status := x.states[id].status) == x.states[id];
    assert x.states[id := x.states[id]] == x.states;
  }

  lemma FinishNewKept(x: Exchange, id: nat, left: int, r: NewRequest, canRest: bool, rs: seq<Report>)
    requires Kept(x.states, rs) && id in x.states
    requires left > 0 && x.states[id].filled > 0 ==> x.states[id].status == PartiallyFilled
    ensures Kept(FinishNew(x, id, left, r, canRest).0.states, rs + FinishNew(x, id, left, r, canRest).1)
  {
    if left > 0 && r.orderType == Limit && r.tif == Gtc {
      SameStatus(x, id);
      SettleKept(x, id, canRest, r.timestamp, rs);
    } else if left > 0 {
      RestateKept(x, rs, id, x.states[id].(status := Canceled), ExecCanceled, r.timestamp, NoReason);
    } else {
      assert rs + [] == rs;
    }
  }

  lemma FinishAmendKept(x: Exchange, id: nat, left: int, r: ReplaceRequest, canRest: bool, rs: seq<Report>)
    requires Kept(x.states, rs) && id in x.states
    requires left > 0 && x.states[id].status != Replaced ==> x.states[id].status == PartiallyFilled
    ensures Kept(FinishAmend(x, id, left, r, canRest).0.states, rs + FinishAmend(x, id, left, r, canRest).1)
  {
    if left > 0 {
      SameStatus(x, id);
      SettleKept(x, id, canRest, r.timestamp, rs);
    } else {
      assert rs + [] == rs;
    }
  }

  lemma AcceptKept(x: Exchange, r: NewRequest, canRest: bool, rs: seq<Report>)
    requires Ok(x) && Malformed(x, r) == NoReason && Kept(x.states, rs)
    ensures Kept(MatchedAndClosed(x, r, canRest).0.states, rs + MatchedAndClosed(x, r, canRest).1)
  {
    var id, x1 := x.nextId, Accepted(x, r);
    var opening := MakeReport(NewState(x, r), ExecNew, 0, 0, r.timestamp, NoReason);
    MatchOwn(x, r);
    AcceptedIsNew(x, r);
    ReportKeeps(x.states, rs, id, NewState(x, r), ExecNew, 0, 0, r.timestamp, NoReason);
    MatchKept(x1, id, r.quantity, r.timestamp, rs + [opening]);
    var (x2, left, trades) := Match(x1, id, r.quantity, r.timestamp);
    FinishNewKept(x2, id, left, r, canRest, rs + [opening] + trades);
    RegroupStory(rs, opening, trades, FinishNew(x2, id, left, r, canRest).1);
  }

  lemma AcceptedIsNew(x: Exchange, r: NewRequest)
    requires Ok(x)
    ensures x.nextId !in x.states && x.nextId != INVALID_ID
  {
  }

  lemma RegroupStory(rs: seq<Report>, opening: Report, trades: seq<Report>, closing: seq<Report>)
    ensures rs + [opening] + trades + closing == rs + ([opening] + trades + closing)
  {
  }

  lemma AmendKept(x: Exchange, r: ReplaceRequest, canRest: bool, rs: seq<Report>)
    requires Ok(x) && InBook(x, r.orderId) && r.price > 0 && r.quantity > 0 && Kept(x.states, rs)
    ensures Kept(Rematch(x, r, canRest).0.states, rs + Rematch(x, r, canRest).1)
  {
    var id, x1 := r.orderId, Withdrawn(x, r);
    var st := Amended(x.states[id], r);
    var opening := MakeReport(st, ExecReplaced, 0, 0, r.timestamp, NoReason);
    RematchOwn(x, r);
    RestateKept(x, rs, id, st, ExecReplaced, r.timestamp, NoReason);
    MatchKept(x1, id, r.quantity, r.timestamp, rs + [opening]);
    var (x2, left, trades) := Match(x1, id, r.quantity, r.timestamp);
    FinishAmendKept(x2, id, left, r, canRest, rs + [opening] + trades);
    RegroupStory(rs, opening, trades, FinishAmend(x2, id, left, r, canRest).1);
  }

  lemma SubmitKept(x: Exchange, r: NewRequest, canRest: bool, rs: seq<Report>)
    requires Ok(x) && Kept(x.states, rs)
    ensures Kept(SubmitOrder(x, r, canRest).0.states, rs + SubmitOrder(x, r, canRest).1)
  {
    var x1 := Reserved(x, r.clientOrderId);
    if Malformed(x, r) == NoReason && CanReserve(x, r.clientOrderId) && Refused(x1, r) == NoReason {
      ReservedOk(x, r.clientOrderId);
      AcceptIs(x1, r, canRest);
      AcceptKept(x1, r, canRest, rs);
    } else {
      RejectKeeps(x.states, rs, SubmitOrder(x, r, canRest).1[0]);
    }
  }

  lemma CancelKept(x: Exchange, r: CancelRequest, rs: seq<Report>)
    requires Ok(x) && Kept(x.states, rs)
    ensures Kept(CancelOrder(x, r).0.states, rs + CancelOrder(x, r).1)
  {
    if CanReserve(x, r.clientOrderId) && InBook(Reserved(x, r.clientOrderId), r.orderId) {
      RestateKept(x, rs, r.orderId, x.states[r.orderId].(status := Canceled), ExecCanceled, r.timestamp, NoReason);
    } else {
      RejectKeeps(x.states, rs, CancelOrder(x, r).1[0]);
    }
  }

  lemma ReplaceKept(x: Exchange, r: ReplaceRequest, canRest: bool, rs: seq<Report>)
    requires Ok(x) && Kept(x.states, rs)
    ensures Kept(ReplaceOrder(x, r, canRest).0.states, rs + ReplaceOrder(x, r, canRest).1)
  {
    if Refusal(ReplaceOrder(x, r, canRest).1) == NoReason {
      var x1 := Reserved(x, r.clientOrderId);
      ReplaceAccepts(x, r, canRest);
      AmendIs(x1, r, canRest);
      AmendKept(x1, r, canRest, rs);
    } else {
      ReplaceRefused(x, r, canRest);
      RejectKeeps(x.states, rs, ReplaceOrder(x, r, canRest).1[0]);
    }
  }

  lemma ReplaceRefused(x: Exchange, r: ReplaceRequest, canRest: bool)
    requires Ok(x) && Refusal(ReplaceOrder(x, r, canRest).1) != NoReason
    ensures ReplaceOrder(x, r, canRest).0.states == x.states
  {
    ReplaceRefusal(x, r, canRest);
  }

  lemma HandleKept(x: Exchange, request: Request, canRest: bool, rs: seq<Report>)
    requires Ok(x) && Kept(x.states, rs)
    ensures Kept(Handle(x, request, canRest).0.states, rs + Handle(x, request, canRest).1)
  {
    match request
    case Submit(r) => SubmitKept(x, r, canRest, rs);
    case Cancel(r) => CancelKept(x, r, rs);
    case Replace(r) => ReplaceKept(x, r, canRest, rs);
  }

  /** Over any run: what an order has traded and paid is what its trade reports add up to, every report's
      running fill and average price are those of the reports up to it, and an order's latest report shows
      what it still has to trade, and at which price. */
  lemma {:induction false} RunKept(symbol: nat, requests: seq<Request>, canRest: bool)
    ensures Kept(RunFrom(symbol, requests, canRest).0.states, RunFrom(symbol, requests, canRest).1)
    decreases |requests|
  {
    if requests != [] {
      var earlier := requests[..|requests| - 1];
      RunKept(symbol, earlier, canRest);
      HandleKept(RunFrom(symbol, earlier, canRest).0, requests[|requests| - 1], canRest, RunFrom(symbol, earlier, canRest).1);
    }
  }

  // ----- what rests is what is still open

  /** The order rests exactly when it is neither filled nor cancelled nor rejected. */
  predicate Settled(x: Exchange, id: nat)
    requires id in x.states
  {
    InBook(x, id) <==> !Closed(x.states[id].status)
  }

  ghost predicate AllSettled(x: Exchange) {
    forall id :: id in x.states ==> Settled(x, id)
  }

  ghost predicate OthersSettled(x: Exchange, id: nat) {
    forall k :: k in x.states && k != id ==> Settled(x, k)
  }

  lemma {:induction false} MatchSettled(x: Exchange, id: nat, remaining: int, ts: int)
    requires Taking(x, id, remaining) && OthersSettled(x, id)
    ensures OthersSettled(Match(x, id, remaining, ts).0, id)
    decreases remaining
  {
    if CanTake(x, id, remaining) {
      var (y, left, two) := Take(x, id, remaining, ts);
      MatchUnfolds(x, id, remaining, ts);
      TakeStates(x, id, remaining, ts);
      forall k | k in y.states && k != id ensures Settled(y, k) {
        assert Settled(x, k);
        TakeStays(x, id, remaining, ts, k);
      }
      MatchSettled(y, id, left, ts);
    }
  }

  lemma StatusSettled(x: Exchange, id: nat, status: Status)
    requires Ok(x) && id in x.states && OthersSettled(x, id)
    ensures OthersSettled(SetStatus(x, id, status), id)
  {
    var x' := SetStatus(x, id, status);
    SetStatusKeeps(x, id, status);
    forall k | k in x'.states && k != id ensures Settled(x', k) {
      assert Settled(x, k);
    }
  }

  /** What is left goes into the book, or the order is closed. */
  lemma SettleSettled(x: Exchange, id: nat, left: int, canRest: bool, ts: int)
    requires Taking(x, id, left) && left > 0 && x.states[id].orderType == Limit
    requires OthersSettled(x, id) && !Closed(x.states[id].status)
    ensures AllSettled(Settle(x, id, canRest, ts).0)
  {
    if canRest {
      RestKeeps(x, id, left);
      forall k | k in x.states ensures Settled(Rest(x, id), k) {
        if k != id { assert Settled(x, k); }
      }
    } else {
      StatusSettled(x, id, Rejected);
      SetStatusKeeps(x, id, Rejected);
    }
  }

  lemma FinishNewSettled(x: Exchange, id: nat, left: int, r: NewRequest, canRest: bool)
    requires Taking(x, id, left) && OthersSettled(x, id) && x.states[id].orderType == r.orderType
    requires Closed(x.states[id].status) == (left == 0)
    ensures AllSettled(FinishNew(x, id, left, r, canRest).0)
  {
    if left > 0 && r.orderType == Limit && r.tif == Gtc {
      StatusTakes(x, id, left, PartiallyFilled);
      StatusSettled(x, id, PartiallyFilled);
      SettleSettled(if x.states[id].filled > 0 then SetStatus(x, id, PartiallyFilled) else x, id, left, canRest, r.timestamp);
    } else if left > 0 {
      StatusSettled(x, id, Canceled);
      SetStatusKeeps(x, id, Canceled);
    }
  }

  lemma FinishAmendSettled(x: Exchange, id: nat, left: int, r: ReplaceRequest, canRest: bool)
    requires Taking(x, id, left) && OthersSettled(x, id) && x.states[id].orderType == Limit
    requires Closed(x.states[id].status) == (left == 0)
    ensures AllSettled(FinishAmend(x, id, left, r, canRest).0)
  {
    if left > 0 {
      StatusTakes(x, id, left, PartiallyFilled);
      StatusSettled(x, id, PartiallyFilled);
      SettleSettled(if x.states[id].filled > 0 && x.states[id].status != Replaced then SetStatus(x, id, PartiallyFilled) else x,
                    id, left, canRest, r.timestamp);
    }
  }

  lemma AcceptSettled(x: Exchange, r: NewRequest, canRest: bool)
    requires Ok(x) && Malformed(x, r) == NoReason && AllSettled(x)
    ensures AllSettled(MatchedAndClosed(x, r, canRest).0)
  {
    var id, x1 := x.nextId, Accepted(x, r);
    MatchOwn(x, r);
    MatchKeeps(x1, id, r.quantity, r.timestamp);
    forall k | k in x1.states && k != id ensures Settled(x1, k) {
      assert Settled(x, k);
      SameInBook(x, x1, k);
    }
    MatchSettled(x1, id, r.quantity, r.timestamp);
    var (x2, left, trades) := Match(x1, id, r.quantity, r.timestamp);
    FinishNewSettled(x2, id, left, r, canRest);
  }

  lemma AmendSettled(x: Exchange, r: ReplaceRequest, canRest: bool)
    requires Ok(x) && InBook(x, r.orderId) && r.price > 0 && r.quantity > 0 && AllSettled(x)
    ensures AllSettled(Rematch(x, r, canRest).0)
  {
    var id, x1 := r.orderId, Withdrawn(x, r);
    RematchOwn(x, r);
    RestsIn(x, id);
    MatchKeeps(x1, id, r.quantity, r.timestamp);
    WithdrawnSettled(x, r);
    MatchSettled(x1, id, r.quantity, r.timestamp);
    var (x2, left, trades) := Match(x1, id, r.quantity, r.timestamp);
    FinishAmendSettled(x2, id, left, r, canRest);
  }

  lemma WithdrawnSettled(x: Exchange, r: ReplaceRequest)
    requires Ok(x) && InBook(x, r.orderId) && AllSettled(x)
    ensures OthersSettled(Withdrawn(x, r), r.orderId)
  {
    var x1 := Withdrawn(x, r);
    UnrestKeeps(x, r.orderId);
    forall k | k in x1.states && k != r.orderId ensures Settled(x1, k) {
      assert Settled(x, k);
      SameInBook(Unrest(x, r.orderId), x1, k);
    }
  }

  lemma CancelSettled(x: Exchange, r: CancelRequest)
    requires Ok(x) && AllSettled(x)
    ensures AllSettled(CancelOrder(x, r).0)
  {
    var x1 := Reserved(x, r.clientOrderId);
    ReservedOk(x, r.clientOrderId);
    ReservedSettled(x, r.clientOrderId);
    if CanReserve(x, r.clientOrderId) && InBook(x1, r.orderId) {
      var x2 := Unrest(x1, r.orderId);
      UnrestKeeps(x1, r.orderId);
      forall k | k in x2.states && k != r.orderId ensures Settled(x2, k) {
        assert Settled(x1, k);
      }
      StatusSettled(x2, r.orderId, Canceled);
      SetStatusKeeps(x2, r.orderId, Canceled);
    }
  }

  lemma ReservedSettled(x: Exchange, clientOrderId: nat)
    requires AllSettled(x)
    ensures AllSettled(Reserved(x, clientOrderId))
  {
    forall k | k in x.states ensures Settled(Reserved(x, clientOrderId), k) {
      assert Settled(x, k);
    }
  }

  lemma HandleSettled(x: Exchange, request: Request, canRest: bool)
    requires Ok(x) && AllSettled(x)
    ensures AllSettled(Handle(x, request, canRest).0)
  {
    match request
    case Submit(r) =>
      ReservedSettled(x, r.clientOrderId);
      if Refusal(SubmitOrder(x, r, canRest).1) == NoReason {
        SubmitAccepts(x, r, canRest);
        AcceptIs(Reserved(x, r.clientOrderId), r, canRest);
        AcceptSettled(Reserved(x, r.clientOrderId), r, canRest);
      } else {
        SubmitRefused(x, r, canRest);
      }
    case Cancel(r) => CancelSettled(x, r);
    case Replace(r) =>
      ReservedSettled(x, r.clientOrderId);
      if Refusal(ReplaceOrder(x, r, canRest).1) == NoReason {
        ReplaceAccepts(x, r, canRest);
        AmendIs(Reserved(x, r.clientOrderId), r, canRest);
        AmendSettled(Reserved(x, r.clientOrderId), r, canRest);
      } else {
        ReplaceRefusal(x, r, canRest);
        ReservedSettled(x, r.clientOrderId);
      }
  }

  lemma SubmitRefused(x: Exchange, r: NewRequest, canRest: bool)
    requires Ok(x) && Refusal(SubmitOrder(x, r, canRest).1) != NoReason
    ensures SubmitOrder(x, r, canRest).0 == x || SubmitOrder(x, r, canRest).0 == Reserved(x, r.clientOrderId)
  {
    SubmitRefusal(x, r, canRest);
  }

  lemma {:induction false} RunSettled(symbol: nat, requests: seq<Request>, canRest: bool)
    ensures AllSettled(RunFrom(symbol, requests, canRest).0)
    decreases |requests|
  {
    if requests != [] {
      RunSettled(symbol, requests[..|requests| - 1], canRest);
      HandleSettled(RunFrom(symbol, requests[..|requests| - 1], canRest).0, requests[|requests| - 1], canRest);
    }
  }

  /** After any run, an order's latest report says what of it rests in the book: its resting quantity at
      its resting price, or nothing when it does not rest. */
  lemma LatestShowsBook(symbol: nat, requests: seq<Request>, canRest: bool, id: nat)
    requires id in RunFrom(symbol, requests, canRest).0.states
    ensures var (x, rs) := RunFrom(symbol, requests, canRest);
      && Latest(rs, id).Some? && Latest(rs, id).value.status == x.states[id].status
      && Latest(rs, id).value.remaining == (if InBook(x, id) then x.states[id].original - x.states[id].filled else 0)
      && Latest(rs, id).value.restingPrice == (if InBook(x, id) then x.states[id].limit else 0)
  {
    var (x, rs) := RunFrom(symbol, requests, canRest);
    RunKept(symbol, requests, canRest);
    RunSettled(symbol, requests, canRest);
    assert Told(rs, id, x.states[id]) && Settled(x, id);
    if InBook(x, id) { RestsIn(x, id); }
  }
}
