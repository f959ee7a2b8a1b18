/** Whole runs of the risk gateway: open quantity stays within its limit for as long as no report
    raises a tracked order past it, and no longer. */
module GatewayRuns {
  import opened Types
  import opened Reports
  import opened WorkingOrders
  import opened RiskGateways

  datatype GatewayOp =
    | NewOp(request: NewRequest, now: int) | ReplaceOp(replace: ReplaceRequest, now: int) | ReportOp(report: Report)
    | MarketOp(symbol: nat, reference: int, timestamp: int) | PositionOp(symbol: nat, position: int) | KillOp | DisconnectOp | ReconnectOp

  /** What the limit on open quantity depends on. */
  datatype Snapshot = Snapshot(orders: Orders, open: map<nat, int>, exchangeToClient: map<nat, nat>)

  ghost function SnapshotOf(g: RiskGateway): Snapshot
    reads g
  {
    Snapshot(g.orders, g.open, g.exchangeToClient)
  }

  /** Only a report can fail to fit, and whether it does can be told before it is applied. */
  predicate Fits(limits: RiskLimits, s: Snapshot, op: GatewayOp) {
    op.ReportOp? ==> ReportFits(limits, s.orders, s.open, s.exchangeToClient, op.report)
  }

  /** One symbol's open quantity moved, to a value within the limit. */
  ghost predicate MovesWithin(limits: RiskLimits, before: map<nat, int>, after: map<nat, int>, symbol: nat,
                              delta: int) {
    Shifted(before, after, symbol, delta) && (limits.maxOpen > 0 && delta != 0 ==> Lookup(after, symbol) <= limits.maxOpen)
  }

  /** How each operation may change open quantity. */
  ghost predicate Moves(limits: RiskLimits, s: Snapshot, op: GatewayOp, s': Snapshot) {
    match op
    case NewOp(r, _) => exists delta :: MovesWithin(limits, s.open, s'.open, r.symbolId, delta)
    case ReplaceOp(_, _) => exists symbol, delta :: MovesWithin(limits, s.open, s'.open, symbol, delta)
    case ReportOp(r) => ReportMoves(s, r, s')
    case MarketOp(_, _, _) => s' == s
    case PositionOp(_, _) => s' == s
    case KillOp => s'.open == map[]
    case DisconnectOp => s'.open == s.open || s'.open == map[]
    case ReconnectOp => s' == s
  }

  ghost predicate ReportMoves(s: Snapshot, r: Report, s': Snapshot) {
    var found := Found(s.orders, s.exchangeToClient, r.clientOrderId, r.orderId);
    if r.clientOrderId == INVALID_ID || found == None then s'.open == s.open
    else if Terminal(r) then Shrunk(s.open, s'.open)
    else Shifted(s.open, s'.open, s.orders[found.value].symbol, r.remaining - s.orders[found.value].quantity)
  }

  /** The working order a replacement of this exchange id would name. */
  function NamedBy(s: Snapshot, exchangeId: nat): Option<nat> {
    LedTo(s.orders, s.exchangeToClient, exchangeId)
  }

  /** What each operation, answered so, does to the working orders and to where exchange ids lead. */
  ghost predicate Acts(limits: RiskLimits, s: Snapshot, op: GatewayOp, v: Verdict, s': Snapshot) {
    match op
    case NewOp(r, _) => NewActs(limits, s, r, v, s')
    case ReplaceOp(r, _) => ReplaceActs(s, r, v, s')
    case ReportOp(r) => ReportActs(s, r, s')
    case KillOp => s'.orders == map[] && s'.exchangeToClient == map[]
    case DisconnectOp => s' == s || (s'.orders == map[] && s'.exchangeToClient == map[])
    case _ => s' == s
  }

  ghost predicate NewActs(limits: RiskLimits, s: Snapshot, r: NewRequest, v: Verdict, s': Snapshot) {
    && s'.exchangeToClient == s.exchangeToClient
    && (v == Accepted ==> r.clientOrderId !in s.orders)
    && s'.orders == if v == Accepted && RestsTracked(r, limits) then s.orders[r.clientOrderId := Working(r)] else s.orders
  }

  ghost predicate ReplaceActs(s: Snapshot, r: ReplaceRequest, v: Verdict, s': Snapshot) {
    && s'.exchangeToClient == s.exchangeToClient
    && (v == Accepted ==> Replaces(s.orders, s'.orders, s.open, s'.open, NamedBy(s, r.orderId), r))
    && (v != Accepted ==> s'.orders == s.orders && s'.open == s.open)
  }

  ghost predicate ReportActs(s: Snapshot, r: Report, s': Snapshot) {
    var found := Found(s.orders, s.exchangeToClient, r.clientOrderId, r.orderId);
    if r.clientOrderId == INVALID_ID || found == None then s' == s
    else if Terminal(r) then
      && s'.orders == s.orders - {r.clientOrderId}
      && Unbinds(s.exchangeToClient, s'.exchangeToClient,
                 if r.clientOrderId in s.orders then s.orders[r.clientOrderId].exchangeId else INVALID_ID)
    else
      && s'.orders == s.orders[found.value := Reported(s.orders[found.value], r)]
      && Rebinds(s.exchangeToClient, s'.exchangeToClient, s.orders[found.value].exchangeId, r.orderId, found.value)
  }

  lemma UnderLimit(limits: RiskLimits, open: map<nat, int>, symbol: nat)
    requires WithinLimit(limits, open) && limits.maxOpen > 0
    ensures Lookup(open, symbol) <= limits.maxOpen
  {
  }

  lemma NotMoved(limits: RiskLimits, open: map<nat, int>, symbol: nat)
    ensures MovesWithin(limits, open, open, symbol, 0)
  {
  }

  lemma LandedWithin(limits: RiskLimits, before: map<nat, int>, after: map<nat, int>, symbol: nat, delta: int)
    requires Shifted(before, after, symbol, delta) && WithinLimit(limits, after)
    ensures MovesWithin(limits, before, after, symbol, delta)
  {
    if limits.maxOpen > 0 { UnderLimit(limits, after, symbol); }
  }

  /** How a checked new order moves open quantity. */
  ghost predicate NewShifts(limits: RiskLimits, s: Snapshot, r: NewRequest, v: Verdict, s': Snapshot) {
    && (if v == Accepted then Shifted(s.open, s'.open, r.symbolId, if RestsTracked(r, limits) then r.quantity else 0) else s'.open == s.open)
    && (WithinLimit(limits, s.open) ==> WithinLimit(limits, s'.open))
  }

  lemma NewMoves(limits: RiskLimits, s: Snapshot, r: NewRequest, v: Verdict, s': Snapshot)
    requires NewShifts(limits, s, r, v, s')
    ensures WithinLimit(limits, s.open) ==> exists delta :: MovesWithin(limits, s.open, s'.open, r.symbolId, delta)
  {
    if v != Accepted {
      NotMoved(limits, s.open, r.symbolId);
    } else if WithinLimit(limits, s.open) {
      LandedWithin(limits, s.open, s'.open, r.symbolId, if RestsTracked(r, limits) then r.quantity else 0);
    }
  }

  method ApplyNew(g: RiskGateway, r: NewRequest, now: int) returns (v: Verdict)
    requires g.Valid()
    modifies g, g.ids, g.limiter
    ensures g.Valid()
    ensures NewActs(g.limits, old(SnapshotOf(g)), r, v, SnapshotOf(g))
    ensures NewShifts(g.limits, old(SnapshotOf(g)), r, v, SnapshotOf(g))
  {
    v := g.CheckNewOrder(r, now);
  }

  lemma ReplaceMoves(limits: RiskLimits, s: Snapshot, r: ReplaceRequest, v: Verdict, s': Snapshot)
    requires ReplaceActs(s, r, v, s') && (WithinLimit(limits, s.open) ==> WithinLimit(limits, s'.open))
    ensures WithinLimit(limits, s.open) ==> exists symbol, delta :: MovesWithin(limits, s.open, s'.open, symbol, delta)
  {
    if v != Accepted {
      NotMoved(limits, s.open, 0);
    } else if WithinLimit(limits, s.open) {
      var o := s.orders[NamedBy(s, r.orderId).value];
      LandedWithin(limits, s.open, s'.open, o.symbol, r.quantity - o.quantity);
    }
  }

  method ApplyReplace(g: RiskGateway, r: ReplaceRequest, now: int) returns (v: Verdict)
    requires g.Valid()
    modifies g`orders, g`open, g`books, g.ids, g.limiter
    ensures g.Valid()
    ensures g.exchangeToClient == old(g.exchangeToClient) && (old(g.WithinOpen()) ==> g.WithinOpen())
    ensures v == Accepted ==> Replaces(old(g.orders), g.orders, old(g.open), g.open, old(g.Named(r)), r)
    ensures v != Accepted ==> g.orders == old(g.orders) && g.open == old(g.open)
  {
    v := g.CheckReplaceOrder(r, now);
  }

  /** One operation, on the gateway itself. */
  method Apply(g: RiskGateway, op: GatewayOp) returns (v: Verdict)
    requires g.Valid()
    modifies g, g.ids, g.limiter
    ensures g.Valid()
    ensures Stepped(g.limits, old(SnapshotOf(g)), op, v, SnapshotOf(g))
  {
    v := Accepted;
    ghost var s := SnapshotOf(g);
    match op
    case NewOp(r, now) =>
      v := ApplyNew(g, r, now);
      NewMoves(g.limits, s, r, v, SnapshotOf(g));
    case ReplaceOp(r, now) =>
      v := ApplyReplace(g, r, now);
      ReplaceMoves(g.limits, s, r, v, SnapshotOf(g));
    case ReportOp(r) => g.OnExecutionReport(r);
    case MarketOp(symbol, reference, timestamp) => g.OnMarketData(symbol, reference, timestamp);
    case PositionOp(symbol, position) => g.SetPosition(symbol, position);
    case KillOp => g.EnableKillSwitch();
    case DisconnectOp => g.OnDisconnect();
    case ReconnectOp => g.OnReconnect();
  }

  /** An operation that finds open quantity within its limit leaves it so exactly when it fits. */
  lemma StepWithin(limits: RiskLimits, s: Snapshot, op: GatewayOp, s': Snapshot)
    requires WithinLimit(limits, s.open) && Moves(limits, s, op, s')
    ensures WithinLimit(limits, s'.open) == Fits(limits, s, op)
  {
    match op
    case NewOp(r, _) =>
      var delta :| MovesWithin(limits, s.open, s'.open, r.symbolId, delta);
      MovedWithin(limits, s.open, s'.open, r.symbolId, delta);
    case ReplaceOp(_, _) =>
      var symbol, delta :| MovesWithin(limits, s.open, s'.open, symbol, delta);
      MovedWithin(limits, s.open, s'.open, symbol, delta);
    case ReportOp(r) => ReportWithin(limits, s, r, s');
    case MarketOp(_, _, _) =>
    case PositionOp(_, _) =>
    case KillOp =>
    case DisconnectOp =>
    case ReconnectOp =>
  }

  lemma MovedWithin(limits: RiskLimits, before: map<nat, int>, after: map<nat, int>, symbol: nat, delta: int)
    requires WithinLimit(limits, before) && MovesWithin(limits, before, after, symbol, delta)
    ensures WithinLimit(limits, after)
  {
    StaysWithin(limits, before, after, symbol, delta);
    if limits.maxOpen > 0 { UnderLimit(limits, before, symbol); }
  }

  lemma ReportWithin(limits: RiskLimits, s: Snapshot, r: Report, s': Snapshot)
    requires WithinLimit(limits, s.open) && ReportMoves(s, r, s')
    ensures WithinLimit(limits, s'.open) == ReportFits(limits, s.orders, s.open, s.exchangeToClient, r)
  {
    var found := Found(s.orders, s.exchangeToClient, r.clientOrderId, r.orderId);
    if r.clientOrderId != INVALID_ID && found != None {
      if Terminal(r) {
        ShrinksWithin(limits, s.open, s'.open);
      } else {
        StaysWithin(limits, s.open, s'.open, s.orders[found.value].symbol,
                    r.remaining - s.orders[found.value].quantity);
      }
    }
  }

  /** The states a run goes through, each step a possible one for as long as the limit holds. */
  ghost predicate Trail(limits: RiskLimits, trail: seq<Snapshot>, ops: seq<GatewayOp>) {
    && |trail| == |ops| + 1
    && forall i :: 0 <= i < |ops| && WithinLimit(limits, trail[i].open) ==> Moves(limits, trail[i], ops[i], trail[i + 1])
  }

  ghost predicate WithinSoFar(limits: RiskLimits, trail: seq<Snapshot>, n: nat)
    requires n < |trail|
  {
    forall i :: 0 <= i <= n ==> WithinLimit(limits, trail[i].open)
  }

  predicate FitsSoFar(limits: RiskLimits, trail: seq<Snapshot>, ops: seq<GatewayOp>, n: nat)
    requires n <= |ops| <= |trail|
  {
    forall i :: 0 <= i < n ==> Fits(limits, trail[i], ops[i])
  }

  /** Over any run, open quantity has stayed within its limit up to a point exactly when every report up
      to that point fitted. */
  lemma {:induction false} WithinWhileFitting(limits: RiskLimits, trail: seq<Snapshot>, ops: seq<GatewayOp>, n: nat)
    requires Trail(limits, trail, ops) && WithinLimit(limits, trail[0].open) && n <= |ops|
    ensures WithinSoFar(limits, trail, n) == FitsSoFar(limits, trail, ops, n)
    decreases n
  {
    if n > 0 {
      WithinWhileFitting(limits, trail, ops, n - 1);
      if WithinSoFar(limits, trail, n - 1) {
        StepWithin(limits, trail[n - 1], ops[n - 1], trail[n]);
      }
    }
  }

  // ----- which order an exchange id names

  /** Every bound order is named by its exchange id, and every known exchange id names such an order. */
  ghost predicate Bound(s: Snapshot) {
    && (forall k :: k in s.orders && s.orders[k].exchangeId != INVALID_ID ==> NamedBy(s, s.orders[k].exchangeId) == Some(k))
    && (forall x :: x in s.exchangeToClient ==> x != INVALID_ID && Leads(s, x))
  }

  predicate Leads(s: Snapshot, x: nat)
    requires x in s.exchangeToClient
  {
    s.exchangeToClient[x] in s.orders && s.orders[s.exchangeToClient[x]].exchangeId == x
  }

  /** The working order a report is about, unless it ends it or is about none. */
  function Updates(s: Snapshot, op: GatewayOp): Option<nat> {
    if op.ReportOp? && op.report.clientOrderId != INVALID_ID && !Terminal(op.report)
    then Found(s.orders, s.exchangeToClient, op.report.clientOrderId, op.report.orderId) else None
  }

  /** A report gives an order the exchange id of another working order. */
  ghost predicate Clashes(s: Snapshot, op: GatewayOp) {
    Updates(s, op) != None && op.report.orderId != INVALID_ID
    && exists k :: k in s.orders && k != Updates(s, op).value && s.orders[k].exchangeId == op.report.orderId
  }

  /** Naming stays one to one exactly as long as no report gives an order another one's exchange id. */
  lemma StepBound(limits: RiskLimits, s: Snapshot, op: GatewayOp, v: Verdict, s': Snapshot)
    requires Bound(s) && Acts(limits, s, op, v, s')
    ensures Bound(s') <==> !Clashes(s, op)
  {
    match op
    case NewOp(r, _) => NewKeepsBound(limits, s, r, v, s');
    case ReplaceOp(r, _) => ReplaceKeepsBound(s, r, v, s');
    case ReportOp(r) =>
      if r.clientOrderId != INVALID_ID && Found(s.orders, s.exchangeToClient, r.clientOrderId, r.orderId) != None {
        if Terminal(r) {
          ReleaseKeepsBound(s, r.clientOrderId, s');
        } else {
          UpdateBound(s, Found(s.orders, s.exchangeToClient, r.clientOrderId, r.orderId).value, r, s');
        }
      }
    case _ =>
  }

  lemma NewKeepsBound(limits: RiskLimits, s: Snapshot, r: NewRequest, v: Verdict, s': Snapshot)
    requires Bound(s) && NewActs(limits, s, r, v, s')
    ensures Bound(s')
  {
    forall x | x in s'.exchangeToClient ensures Leads(s', x) { assert Leads(s, x); }
  }

  lemma ReplaceKeepsBound(s: Snapshot, r: ReplaceRequest, v: Verdict, s': Snapshot)
    requires Bound(s) && ReplaceActs(s, r, v, s')
    ensures Bound(s')
  {
    forall x | x in s'.exchangeToClient ensures Leads(s', x) { assert Leads(s, x); }
  }

  lemma ReleaseKeepsBound(s: Snapshot, k: nat, s': Snapshot)
    requires Bound(s) && s'.orders == s.orders - {k}
    requires Unbinds(s.exchangeToClient, s'.exchangeToClient, if k in s.orders then s.orders[k].exchangeId else INVALID_ID)
    ensures Bound(s')
  {
    forall x | x in s'.exchangeToClient ensures x != INVALID_ID && Leads(s', x) {
      assert SameAt(s.exchangeToClient, s'.exchangeToClient, x) || s'.exchangeToClient == s.exchangeToClient;
      assert Leads(s, x);
    }
    forall k' | k' in s'.orders && s'.orders[k'].exchangeId != INVALID_ID ensures NamedBy(s', s'.orders[k'].exchangeId) == Some(k') {
      var x := s.orders[k'].exchangeId;
      assert NamedBy(s, x) == Some(k');
      assert SameAt(s.exchangeToClient, s'.exchangeToClient, x) || s'.exchangeToClient == s.exchangeToClient;
    }
  }

  lemma UpdateBound(s: Snapshot, k: nat, r: Report, s': Snapshot)
    requires Bound(s) && k in s.orders && s'.orders == s.orders[k := Reported(s.orders[k], r)]
    requires Rebinds(s.exchangeToClient, s'.exchangeToClient, s.orders[k].exchangeId, r.orderId, k)
    ensures Bound(s') <==> r.orderId == INVALID_ID || forall k' :: k' in s.orders && k' != k ==> s.orders[k'].exchangeId != r.orderId
  {
    var from, to := s.orders[k].exchangeId, r.orderId;
    if to != INVALID_ID && exists k' :: k' in s.orders && k' != k && s.orders[k'].exchangeId == to {
      var k' :| k' in s.orders && k' != k && s.orders[k'].exchangeId == to;
      assert s'.orders[k'].exchangeId == to && s'.orders[k].exchangeId == to;
    } else {
      forall x | x in s'.exchangeToClient ensures x != INVALID_ID && Leads(s', x) {
        if x != to || to == from {
          assert SameAt(s.exchangeToClient, s'.exchangeToClient, x) || s'.exchangeToClient == s.exchangeToClient;
          assert Leads(s, x);
        }
      }
      forall k' | k' in s'.orders && s'.orders[k'].exchangeId != INVALID_ID ensures NamedBy(s', s'.orders[k'].exchangeId) == Some(k') {
        var x := s.orders[k'].exchangeId;
        if k' != k || to == INVALID_ID || to == from {
          assert NamedBy(s, x) == Some(k');
          assert SameAt(s.exchangeToClient, s'.exchangeToClient, x) || s'.exchangeToClient == s.exchangeToClient;
        }
      }
    }
  }

  // ----- over a run

  /** The states a run goes through and its answers. */
  ghost predicate Story(limits: RiskLimits, trail: seq<Snapshot>, ops: seq<GatewayOp>, verdicts: seq<Verdict>) {
    && |trail| == |ops| + 1 && |verdicts| == |ops|
    && forall i :: 0 <= i < |ops| ==> Acts(limits, trail[i], ops[i], verdicts[i], trail[i + 1])
  }

  /** One step of a run: what it does, and how it moves open quantity for as long as the limit holds. */
  ghost predicate Stepped(limits: RiskLimits, s: Snapshot, op: GatewayOp, v: Verdict, s': Snapshot) {
    Acts(limits, s, op, v, s') && (WithinLimit(limits, s.open) ==> Moves(limits, s, op, s'))
  }

  /** So far the run went step by step. */
  ghost predicate Going(limits: RiskLimits, trail: seq<Snapshot>, ops: seq<GatewayOp>, verdicts: seq<Verdict>, k: nat) {
    && k <= |ops| && |trail| == k + 1 && |verdicts| == k
    && forall i :: 0 <= i < k ==> Stepped(limits, trail[i], ops[i], verdicts[i], trail[i + 1])
  }

  lemma GoesOn(limits: RiskLimits, trail: seq<Snapshot>, ops: seq<GatewayOp>, verdicts: seq<Verdict>, k: nat, v: Verdict, s: Snapshot)
    requires k < |ops| && Going(limits, trail, ops, verdicts, k) && Stepped(limits, trail[k], ops[k], v, s)
    ensures Going(limits, trail + [s], ops, verdicts + [v], k + 1)
  {
    var trail', verdicts' := trail + [s], verdicts + [v];
    forall i | 0 <= i < k + 1 ensures Stepped(limits, trail'[i], ops[i], verdicts'[i], trail'[i + 1]) {
      if i < k { assert Stepped(limits, trail[i], ops[i], verdicts[i], trail[i + 1]); }
    }
  }

  lemma RunIs(limits: RiskLimits, trail: seq<Snapshot>, ops: seq<GatewayOp>, verdicts: seq<Verdict>)
    requires Going(limits, trail, ops, verdicts, |ops|)
    ensures Trail(limits, trail, ops) && Story(limits, trail, ops, verdicts)
    ensures WithinLimit(limits, trail[0].open) ==>
      forall n :: 0 <= n <= |ops| ==> WithinSoFar(limits, trail, n) == FitsSoFar(limits, trail, ops, n)
  {
    forall i | 0 <= i < |ops|
      ensures Acts(limits, trail[i], ops[i], verdicts[i], trail[i + 1])
      ensures WithinLimit(limits, trail[i].open) ==> Moves(limits, trail[i], ops[i], trail[i + 1])
    {
      assert Stepped(limits, trail[i], ops[i], verdicts[i], trail[i + 1]);
    }
    if WithinLimit(limits, trail[0].open) {
      forall n | 0 <= n <= |ops| ensures WithinSoFar(limits, trail, n) == FitsSoFar(limits, trail, ops, n) {
        WithinWhileFitting(limits, trail, ops, n);
      }
    }
  }

  /** A run of the gateway; `trail` records the states it goes through. */
  method RunGateway(g: RiskGateway, ops: seq<GatewayOp>) returns (verdicts: seq<Verdict>, ghost trail: seq<Snapshot>)
    requires g.Valid()
    modifies g, g.ids, g.limiter
    ensures g.Valid() && |verdicts| == |ops| && Trail(g.limits, trail, ops) && Story(g.limits, trail, ops, verdicts)
    ensures trail[0] == old(SnapshotOf(g)) && trail[|ops|] == SnapshotOf(g)
    ensures WithinLimit(g.limits, trail[0].open) ==>
      forall n :: 0 <= n <= |ops| ==> WithinSoFar(g.limits, trail, n) == FitsSoFar(g.limits, trail, ops, n)
  {
    verdicts, trail := [], [SnapshotOf(g)];
    for k := 0 to |ops|
      invariant g.Valid() && Going(g.limits, trail, ops, verdicts, k)
      invariant trail[0] == old(SnapshotOf(g)) && trail[k] == SnapshotOf(g)
    {
      var v := Apply(g, ops[k]);
      GoesOn(g.limits, trail, ops, verdicts, k, v, SnapshotOf(g));
      verdicts, trail := verdicts + [v], trail + [SnapshotOf(g)];
    }
    RunIs(g.limits, trail, ops, verdicts);
  }

  /** Over any run, naming has stayed one to one up to a point exactly when no report up to it gave an
      order another one's exchange id. */
  lemma {:induction false} BoundWhileApart(limits: RiskLimits, trail: seq<Snapshot>, ops: seq<GatewayOp>, verdicts: seq<Verdict>,
                                           n: nat)
    requires Story(limits, trail, ops, verdicts) && Bound(trail[0]) && n <= |ops|
    ensures (forall i :: 0 <= i <= n ==> Bound(trail[i])) <==> (forall i :: 0 <= i < n ==> !Clashes(trail[i], ops[i]))
    decreases n
  {
    if n > 0 {
      BoundWhileApart(limits, trail, ops, verdicts, n - 1);
      assert Acts(limits, trail[n - 1], ops[n - 1], verdicts[n - 1], trail[n]);
      if Bound(trail[n - 1]) {
        StepBound(limits, trail[n - 1], ops[n - 1], verdicts[n - 1], trail[n]);
      }
    }
  }

  /** Some operation of the run ends the order, or gives it another exchange id. */
  ghost predicate Undone(trail: seq<Snapshot>, ops: seq<GatewayOp>, k: nat, x: nat, j: nat)
    requires j < |ops| && |trail| == |ops| + 1
  {
    k !in trail[j + 1].orders
    || (Updates(trail[j], ops[j]) == Some(k) && ops[j].report.orderId != INVALID_ID && ops[j].report.orderId != x)
  }

  /** Once a report has given a working order an exchange id, a replacement of that id names that order,
      until the order is released or is given another id. */
  lemma {:induction false} NamedUntilReleased(limits: RiskLimits, trail: seq<Snapshot>, ops: seq<GatewayOp>,
                                              verdicts: seq<Verdict>, m: nat, n: nat, k: nat)
    requires Story(limits, trail, ops, verdicts) && Bound(trail[0]) && m < n <= |ops|
    requires forall i :: 0 <= i < n ==> !Clashes(trail[i], ops[i])
    requires Updates(trail[m], ops[m]) == Some(k) && ops[m].report.orderId != INVALID_ID
    requires forall j :: m < j < n ==> !Undone(trail, ops, k, ops[m].report.orderId, j)
    ensures k in trail[n].orders && trail[n].orders[k].exchangeId == ops[m].report.orderId
    ensures NamedBy(trail[n], ops[m].report.orderId) == Some(k)
    decreases n
  {
    BoundWhileApart(limits, trail, ops, verdicts, n);
    assert Acts(limits, trail[n - 1], ops[n - 1], verdicts[n - 1], trail[n]);
    if m < n - 1 {
      NamedUntilReleased(limits, trail, ops, verdicts, m, n - 1, k);
      assert !Undone(trail, ops, k, ops[m].report.orderId, n - 1);
    }
  }
}
