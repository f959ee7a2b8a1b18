/** The matching engine against the independent reference, request by request. */
module MatchParity {
  import opened Types
  import opened Checksum
  import B = Books
  import opened Reports
  import opened Exchanges
  import opened ExchangeLaws
  import opened Bridge
  import opened MatchingEngines
  import opened ReferenceMatchers

  /** Both matchers emit the same reports at every request. */
  ghost predicate StepsAgree(symbol: nat, requests: seq<Request>) {
    requests == [] ||
    (StepsAgree(symbol, requests[..|requests| - 1]) && StepAgrees(symbol, requests[..|requests| - 1], requests[|requests| - 1]))
  }

  ghost predicate StepAgrees(symbol: nat, earlier: seq<Request>, request: Request) {
    Handle(RunFrom(symbol, earlier, symbol != INVALID_ID).0, request, symbol != INVALID_ID).1
      == Handle(RunFrom(symbol, earlier, true).0, request, true).1
  }

  function ClientIdOf(request: Request): nat {
    match request case Submit(r) => r.clientOrderId case Cancel(r) => r.clientOrderId case Replace(r) => r.clientOrderId
  }

  /** A request that gets as far as using up its client order id, if nobody used it before. */
  predicate UsesId(symbol: nat, request: Request) {
    ClientIdOf(request) != INVALID_ID &&
    match request
    case Submit(r) => Malformed(Fresh(symbol), r) == NoReason
    case Cancel(r) => true
    case Replace(r) => r.quantity > 0 && r.price > 0
  }

  /** Request `i` of a list is a well-formed limit order, good till cancelled, under an id of its own:
      all of it can be read off the list. */
  predicate AsksAt(symbol: nat, requests: seq<Request>, i: nat)
    requires i < |requests|
  {
    && requests[i].Submit? && UsesId(symbol, requests[i])
    && requests[i].new_.orderType == Limit && requests[i].new_.tif == Gtc
    && !UsedIn(symbol, requests[..i], ClientIdOf(requests[i]))
  }

  /** Some request of the list uses this client order id. */
  predicate UsedIn(symbol: nat, requests: seq<Request>, id: nat) {
    exists j :: 0 <= j < |requests| && UsesId(symbol, requests[j]) && ClientIdOf(requests[j]) == id
  }

  predicate NothingAsksToRest(symbol: nat, requests: seq<Request>) {
    forall i :: 0 <= i < |requests| ==> !AsksAt(symbol, requests, i)
  }

  /** The same question put to a running matcher. */
  predicate AsksToRest(x: Exchange, request: Request) {
    request.Submit? && var r := request.new_;
    Malformed(x, r) == NoReason && CanReserve(x, r.clientOrderId) && r.orderType == Limit && r.tif == Gtc
  }

  lemma AcceptUsesNone(x: Exchange, r: NewRequest, canRest: bool)
    requires Ok(x) && Malformed(x, r) == NoReason
    ensures Accept(x, r, canRest).0.seen == x.seen
  {
    AcceptedTakes(x, r);
    MatchKeeps(Accepted(x, r), x.nextId, r.quantity, r.timestamp);
  }

  lemma AmendUsesNone(x: Exchange, r: ReplaceRequest, canRest: bool)
    requires Ok(x) && InBook(x, r.orderId) && r.price > 0 && r.quantity > 0
    ensures Amend(x, r, canRest).0.seen == x.seen
  {
    WithdrawnTakes(x, r);
    MatchKeeps(Withdrawn(x, r), r.orderId, r.quantity, r.timestamp);
  }

  lemma SubmitUses(x: Exchange, r: NewRequest, canRest: bool)
    requires Ok(x)
    ensures SubmitOrder(x, r, canRest).0.seen == if UsesId(x.symbol, Submit(r)) then x.seen + {r.clientOrderId} else x.seen
  {
    if Malformed(x, r) == NoReason {
      ReservedOk(x, r.clientOrderId);
      AcceptUsesNone(Reserved(x, r.clientOrderId), r, canRest);
    }
  }

  lemma ReplaceUses(x: Exchange, r: ReplaceRequest, canRest: bool)
    requires Ok(x)
    ensures ReplaceOrder(x, r, canRest).0.seen == if UsesId(x.symbol, Replace(r)) then x.seen + {r.clientOrderId} else x.seen
  {
    var x1 := Reserved(x, r.clientOrderId);
    ReservedOk(x, r.clientOrderId);
    if InBook(x1, r.orderId) && r.price > 0 && r.quantity > 0 {
      AmendUsesNone(x1, r, canRest);
    }
  }

  lemma HandleUses(x: Exchange, request: Request, canRest: bool)
    requires Ok(x)
    ensures Handle(x, request, canRest).0.seen == if UsesId(x.symbol, request) then x.seen + {ClientIdOf(request)} else x.seen
  {
    match request
    case Submit(r) => SubmitUses(x, r, canRest);
    case Cancel(r) =>
    case Replace(r) => ReplaceUses(x, r, canRest);
  }

  /** The client order ids a run has used up are those its requests use. */
  lemma {:induction false} SeenIsUsed(symbol: nat, requests: seq<Request>, canRest: bool, id: nat)
    ensures (id in RunFrom(symbol, requests, canRest).0.seen) == UsedIn(symbol, requests, id)
    decreases |requests|
  {
    if requests != [] {
      var earlier, last := requests[..|requests| - 1], requests[|requests| - 1];
      SeenIsUsed(symbol, earlier, canRest, id);
      HandleUses(RunFrom(symbol, earlier, canRest).0, last, canRest);
      forall j | 0 <= j < |earlier| ensures earlier[j] == requests[j] {}
    }
  }

  /** What the list says about a request is what the matcher finds when its turn comes. */
  lemma AsksAtIs(symbol: nat, requests: seq<Request>, i: nat, canRest: bool)
    requires i < |requests|
    ensures AsksAt(symbol, requests, i) == AsksToRest(RunFrom(symbol, requests[..i], canRest).0, requests[i])
  {
    SeenIsUsed(symbol, requests[..i], canRest, ClientIdOf(requests[i]));
  }

  predicate NothingRests(x: Exchange) {
    x.bids == map[] && x.asks == map[]
  }

  lemma EmptyNeverCrosses(x: Exchange, id: nat, remaining: int, ts: int)
    requires Taking(x, id, remaining) && NothingRests(x)
    ensures Match(x, id, remaining, ts) == (x, remaining, [])
  {
  }

  lemma AloneRests(x: Exchange, r: NewRequest)
    requires Ok(x) && NothingRests(x) && Malformed(x, r) == NoReason
    ensures Refused(x, r) == if r.tif == Fok then FokNotFillable else NoReason
    ensures Accept(x, r, true).1 == Accept(x, r, false).1 <==> !(r.orderType == Limit && r.tif == Gtc)
    ensures r.tif != Fok && !(r.orderType == Limit && r.tif == Gtc) ==>
      Accept(x, r, true) == Accept(x, r, false) && NothingRests(Accept(x, r, true).0)
  {
    AcceptedTakes(x, r);
    EmptyNeverCrosses(Accepted(x, r), x.nextId, r.quantity, r.timestamp);
  }

  /** With nothing resting, the book's refusal to rest orders shows exactly when one asks to rest. */
  lemma StepIff(x: Exchange, request: Request)
    requires Ok(x) && NothingRests(x)
    ensures Handle(x, request, true).1 == Handle(x, request, false).1 <==> !AsksToRest(x, request)
    ensures !AsksToRest(x, request) ==> Handle(x, request, true) == Handle(x, request, false) && NothingRests(Handle(x, request, false).0)
  {
    match request
    case Submit(r) =>
      var x1 := Reserved(x, r.clientOrderId);
      ReservedOk(x, r.clientOrderId);
      if Malformed(x, r) == NoReason && CanReserve(x, r.clientOrderId) {
        AloneRests(x1, r);
      }
    case Cancel(r) =>
    case Replace(r) =>
  }

  lemma {:induction false} UnsetSymbolRun(requests: seq<Request>)
    ensures StepsAgree(INVALID_ID, requests) == NothingAsksToRest(INVALID_ID, requests)
    ensures NothingAsksToRest(INVALID_ID, requests) ==> RunFrom(INVALID_ID, requests, false) == RunFrom(INVALID_ID, requests, true)
    ensures NothingAsksToRest(INVALID_ID, requests) ==> NothingRests(RunFrom(INVALID_ID, requests, false).0)
    decreases |requests|
  {
    if requests != [] {
      var earlier, last := requests[..|requests| - 1], requests[|requests| - 1];
      UnsetSymbolRun(earlier);
      PrefixesAsk(INVALID_ID, requests);
      AsksAtIs(INVALID_ID, requests, |requests| - 1, false);
      if NothingAsksToRest(INVALID_ID, earlier) {
        StepIff(RunFrom(INVALID_ID, earlier, false).0, last);
      }
    }
  }

  lemma PrefixesAsk(symbol: nat, requests: seq<Request>)
    requires requests != []
    ensures NothingAsksToRest(symbol, requests) == (NothingAsksToRest(symbol, requests[..|requests| - 1])
      && !AsksAt(symbol, requests, |requests| - 1))
  {
    var earlier := requests[..|requests| - 1];
    forall i | 0 <= i < |earlier| ensures AsksAt(symbol, earlier, i) == AsksAt(symbol, requests, i) {
      assert earlier[..i] == requests[..i] && earlier[i] == requests[i];
    }
  }

  lemma {:induction false} SetSymbolRun(symbol: nat, requests: seq<Request>)
    requires symbol != INVALID_ID
    ensures StepsAgree(symbol, requests)
    decreases |requests|
  {
    if requests != [] {
      SetSymbolRun(symbol, requests[..|requests| - 1]);
    }
  }

  /** The engine's book refuses every order of the unset symbol, which the reference does not know about:
      the two agree exactly when the symbol is set or no order of the run asks to rest. */
  lemma AgreeIff(symbol: nat, requests: seq<Request>)
    ensures StepsAgree(symbol, requests) <==> symbol != INVALID_ID || NothingAsksToRest(symbol, requests)
  {
    if symbol != INVALID_ID {
      SetSymbolRun(symbol, requests);
    } else {
      UnsetSymbolRun(requests);
    }
  }

  /** The smallest disagreement: one resting limit order for the unset symbol. */
  lemma UnsetSymbolDisagrees(r: NewRequest)
    requires r == NewRequest(7, INVALID_ID, Buy, Limit, 100, 5, 0, 0, Gtc, false)
    ensures !StepsAgree(INVALID_ID, [Submit(r)])
    ensures |RunFrom(INVALID_ID, [Submit(r)], false).1| == 2 && |RunFrom(INVALID_ID, [Submit(r)], true).1| == 1
  {
    var x := Fresh(INVALID_ID);
    assert [Submit(r)][..0] == [];
    StepIff(x, Submit(r));
    AloneRests(Reserved(x, 7), r);
    EmptyNeverCrosses(Accepted(Reserved(x, 7), r), 1, 5, 0);
  }

  /** Agreeing at every request, the matchers end in the same exchange. */
  lemma AgreeSame(symbol: nat, requests: seq<Request>)
    requires StepsAgree(symbol, requests)
    ensures RunFrom(symbol, requests, symbol != INVALID_ID) == RunFrom(symbol, requests, true)
  {
    AgreeIff(symbol, requests);
    if symbol == INVALID_ID {
      UnsetSymbolRun(requests);
    }
  }

  // ----- the two flat lists of reports

  ghost predicate HasInternal(reports: seq<Report>) {
    exists k :: 0 <= k < |reports| && reports[k].reason == InternalError
  }

  lemma InternalConcat(a: seq<Report>, b: seq<Report>)
    ensures HasInternal(a + b) == (HasInternal(a) || HasInternal(b))
  {
    if HasInternal(a) {
      var k :| 0 <= k < |a| && a[k].reason == InternalError;
      assert (a + b)[k].reason == InternalError;
    }
    if HasInternal(b) {
      var k :| 0 <= k < |b| && b[k].reason == InternalError;
      assert (a + b)[|a| + k].reason == InternalError;
    }
  }

  lemma {:induction false} TradesNeverInternal(x: Exchange, id: nat, remaining: int, ts: int)
    requires Taking(x, id, remaining)
    ensures !HasInternal(Match(x, id, remaining, ts).2)
    decreases remaining
  {
    if CanTake(x, id, remaining) {
      TakeKeeps(x, id, remaining, ts);
      var (x', remaining', two) := Take(x, id, remaining, ts);
      TradesNeverInternal(x', id, remaining', ts);
      InternalConcat(two, Match(x', id, remaining', ts).2);
    }
  }

  lemma AcceptNeverInternal(x: Exchange, r: NewRequest)
    requires Ok(x) && Malformed(x, r) == NoReason
    ensures !HasInternal(Accept(x, r, true).1)
  {
    AcceptedTakes(x, r);
    var first := [MakeReport(NewState(x, r), ExecNew, 0, 0, r.timestamp, NoReason)];
    var (x2, remaining, trades) := Match(Accepted(x, r), x.nextId, r.quantity, r.timestamp);
    MatchKeeps(Accepted(x, r), x.nextId, r.quantity, r.timestamp);
    TradesNeverInternal(Accepted(x, r), x.nextId, r.quantity, r.timestamp);
    InternalConcat(first, trades);
    InternalConcat(first + trades, FinishNew(x2, x.nextId, remaining, r, true).1);
  }

  lemma AmendNeverInternal(x: Exchange, r: ReplaceRequest)
    requires Ok(x) && InBook(x, r.orderId) && r.price > 0 && r.quantity > 0
    ensures !HasInternal(Amend(x, r, true).1)
  {
    WithdrawnTakes(x, r);
    var x1 := Withdrawn(x, r);
    var first := [MakeReport(x1.states[r.orderId], ExecReplaced, 0, 0, r.timestamp, NoReason)];
    var (x2, remaining, trades) := Match(x1, r.orderId, r.quantity, r.timestamp);
    MatchKeeps(x1, r.orderId, r.quantity, r.timestamp);
    TradesNeverInternal(x1, r.orderId, r.quantity, r.timestamp);
    InternalConcat(first, trades);
    InternalConcat(first + trades, FinishAmend(x2, r.orderId, remaining, r, true).1);
  }

  lemma HandleNeverInternal(x: Exchange, request: Request)
    requires Ok(x)
    ensures !HasInternal(Handle(x, request, true).1)
  {
    match request
    case Submit(r) =>
      if Malformed(x, r) == NoReason {
        ReservedOk(x, r.clientOrderId);
        AcceptNeverInternal(Reserved(x, r.clientOrderId), r);
      }
    case Cancel(r) =>
    case Replace(r) =>
      var x1 := Reserved(x, r.clientOrderId);
      ReservedOk(x, r.clientOrderId);
      if InBook(x1, r.orderId) && r.price > 0 && r.quantity > 0 {
        AmendNeverInternal(x1, r);
      }
  }

  /** The reference never reports an internal error. */
  lemma {:induction false} ReferenceNeverErrs(symbol: nat, requests: seq<Request>)
    ensures !HasInternal(RunFrom(symbol, requests, true).1)
    decreases |requests|
  {
    if requests != [] {
      var earlier, last := requests[..|requests| - 1], requests[|requests| - 1];
      ReferenceNeverErrs(symbol, earlier);
      var (x, reports) := RunFrom(symbol, earlier, true);
      HandleNeverInternal(x, last);
      InternalConcat(reports, Handle(x, last, true).1);
    }
  }

  lemma AskedErrs(x: Exchange, r: NewRequest)
    requires Ok(x) && NothingRests(x) && AsksToRest(x, Submit(r))
    ensures HasInternal(SubmitOrder(x, r, false).1)
  {
    var x1 := Reserved(x, r.clientOrderId);
    ReservedOk(x, r.clientOrderId);
    AloneRests(x1, r);
    AcceptedTakes(x1, r);
    EmptyNeverCrosses(Accepted(x1, r), x1.nextId, r.quantity, r.timestamp);
    var reports := SubmitOrder(x, r, false).1;
    assert |reports| == 2 && reports[1].reason == InternalError;
  }

  /** The engine for the unset symbol does, as soon as an order asks to rest. */
  lemma {:induction false} EngineErrs(requests: seq<Request>)
    requires !NothingAsksToRest(INVALID_ID, requests)
    ensures HasInternal(RunFrom(INVALID_ID, requests, false).1)
    decreases |requests|
  {
    var earlier, last := requests[..|requests| - 1], requests[|requests| - 1];
    var (x, reports) := RunFrom(INVALID_ID, earlier, false);
    PrefixesAsk(INVALID_ID, requests);
    if NothingAsksToRest(INVALID_ID, earlier) {
      AsksAtIs(INVALID_ID, requests, |requests| - 1, false);
      UnsetSymbolRun(earlier);
      AskedErrs(x, last.new_);
    } else {
      EngineErrs(earlier);
    }
    InternalConcat(reports, Handle(x, last, false).1);
  }

  /** The flat lists of reports of a whole run are equal exactly when the matchers agree at every request. */
  lemma FlatAgreeIff(symbol: nat, requests: seq<Request>)
    ensures (RunFrom(symbol, requests, symbol != INVALID_ID).1 == RunFrom(symbol, requests, true).1)
         == (symbol != INVALID_ID || NothingAsksToRest(symbol, requests))
  {
    if symbol == INVALID_ID {
      UnsetSymbolRun(requests);
      if !NothingAsksToRest(symbol, requests) {
        EngineErrs(requests);
        ReferenceNeverErrs(symbol, requests);
      }
    }
  }

  method EngineStep(engine: MatchingEngine, request: Request) returns (reports: seq<Report>)
    requires engine.Valid()
    modifies engine, engine.book
    ensures engine.Valid() && engine.View() == Handle(old(engine.View()), request, engine.symbolId != INVALID_ID).0
    ensures reports == Handle(old(engine.View()), request, engine.symbolId != INVALID_ID).1
    ensures engine.reportsChecksum == ChecksumReports(engine.mix, old(engine.reportsChecksum), reports)
  {
    match request
    case Submit(r) => reports := engine.SubmitOrder(r);
    case Cancel(r) => reports := engine.CancelOrder(r);
    case Replace(r) => reports := engine.ReplaceOrder(r);
  }

  method ReferenceStep(reference: ReferenceMatcher, request: Request) returns (reports: seq<Report>)
    requires reference.Valid()
    modifies reference
    ensures reference.Valid() && reference.View() == Handle(old(reference.View()), request, true).0
    ensures reports == Handle(old(reference.View()), request, true).1
  {
    match request
    case Submit(r) => reports := reference.SubmitOrder(r);
    case Cancel(r) => reports := reference.CancelOrder(r);
    case Replace(r) => reports := reference.ReplaceOrder(r);
  }

  method StepBoth(engine: MatchingEngine, reference: ReferenceMatcher, request: Request)
    returns (a: seq<Report>, b: seq<Report>)
    requires engine.Valid() && reference.Valid()
    modifies engine, engine.book, reference
    ensures engine.Valid() && (engine.View(), a) == Handle(old(engine.View()), request, engine.symbolId != INVALID_ID)
    ensures reference.Valid() && (reference.View(), b) == Handle(old(reference.View()), request, true)
    ensures engine.reportsChecksum == ChecksumReports(engine.mix, old(engine.reportsChecksum), a)
  {
    a := EngineStep(engine, request);
    b := ReferenceStep(reference, request);
  }

  /** The engine's cached level totals against the reference's recomputed ones. */
  method CompareLevels(engine: MatchingEngine, reference: ReferenceMatcher, depth: nat) returns (same: bool)
    requires engine.Valid() && reference.Valid()
    ensures engine.View() == reference.View() ==> same
  {
    ViewShows(engine.book.View(), engine.View(), depth);
    var view := engine.book.L2(depth);
    var bids, asks := reference.L2Levels();
    same := view.bids == B.Take(bids, depth) && view.asks == B.Take(asks, depth);
  }

  /** One more request: its state and reports follow from the run so far. */
  ghost predicate RunsOn(symbol: nat, requests: seq<Request>, i: nat, canRest: bool)
    requires i < |requests|
  {
    var (x, reports) := RunFrom(symbol, requests[..i], canRest);
    var (x', more) := Handle(x, requests[i], canRest);
    RunFrom(symbol, requests[..i + 1], canRest) == (x', reports + more)
  }

  lemma PrefixStep(symbol: nat, requests: seq<Request>, i: nat)
    requires i < |requests|
    ensures RunsOn(symbol, requests, i, true) && RunsOn(symbol, requests, i, symbol != INVALID_ID)
  {
    assert requests[..i + 1][..i] == requests[..i];
  }

  /** Runs both matchers over a list of requests and compares their lists of reports, then their L2
      views at the given depth and the engine's running checksum against one taken of the reference's
      reports. */
  method CrossCheck(symbolId: nat, mix: Mix, requests: seq<Request>, depth: nat) returns (agree: bool)
    ensures agree == (symbolId != INVALID_ID || NothingAsksToRest(symbolId, requests))
  {
    var engine := new MatchingEngine(symbolId, mix);
    var reference := new ReferenceMatcher(symbolId);
    var mine, all := [], [];
    for i := 0 to |requests|
      invariant fresh(engine) && fresh(engine.book) && fresh(reference) && engine.symbolId == symbolId
      invariant engine.mix == mix
      invariant engine.Valid() && reference.Valid()
      invariant engine.View() == RunFrom(symbolId, requests[..i], symbolId != INVALID_ID).0
      invariant reference.View() == RunFrom(symbolId, requests[..i], true).0
      invariant mine == RunFrom(symbolId, requests[..i], symbolId != INVALID_ID).1
      invariant all == RunFrom(symbolId, requests[..i], true).1
      invariant engine.reportsChecksum == ChecksumReports(mix, FNV_OFFSET_BASIS, mine)
    {
      PrefixStep(symbolId, requests, i);
      var a, b := StepBoth(engine, reference, requests[i]);
      ChecksumConcat(mix, FNV_OFFSET_BASIS, mine, a);
      mine, all := mine + a, all + b;
    }
    assert requests[..|requests|] == requests;
    FlatAgreeIff(symbolId, requests);
    AgreeIff(symbolId, requests);
    if StepsAgree(symbolId, requests) {
      AgreeSame(symbolId, requests);
    }
    var sameLevels := CompareLevels(engine, reference, depth);
    agree := mine == all && sameLevels && engine.reportsChecksum == ChecksumReports(mix, FNV_OFFSET_BASIS, all);
  }
}
