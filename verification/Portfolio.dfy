/** Portfolio positions at an integer average cost: how far rounding lets profit and loss drift from
    the cash and holdings it stands for. */
module Portfolios {
  import opened Types
  import opened WorkingOrders

  datatype Position = Position(quantity: int, averageCost: int, mark: int, hasMark: bool)

  const FLAT := Position(0, 0, 0, false)

  function MarkOf(p: Position): int {
    if p.hasMark then p.mark else p.averageCost
  }

  function Signed(side: Side, quantity: int): int {
    if side == Buy then quantity else -quantity
  }

  predicate Counts(side: Side, quantity: int) {
    quantity > 0 && ValidSide(side)
  }

  /** The fill opens a position or adds to it. */
  predicate Extends(p: Position, side: Side) {
    (p.quantity >= 0 && side == Buy) || (p.quantity <= 0 && side == Sell)
  }

  // ----- one fill

  /** The position after a fill, and the realised profit after it. */
  function Filled(p: Position, realised: int, side: Side, quantity: int, price: int): (Position, int) {
    if !Counts(side, quantity) then (p, realised)
    else if Extends(p, side) then
      var held := p.quantity + Signed(side, quantity);
      var cost := p.averageCost * Abs(p.quantity) + price * quantity;
      (p.(averageCost := if held == 0 then 0 else TruncatedBy(cost, Abs(held)), quantity := held), realised)
    else
      var closing := Min(quantity, Abs(p.quantity));
      var gain := if p.quantity > 0 then (price - p.averageCost) * closing else (p.averageCost - price) * closing;
      var held := p.quantity + Signed(side, quantity);
      var cost := if held == 0 then 0
                  else if (p.quantity > 0 && held < 0) || (p.quantity < 0 && held > 0) then price
                  else p.averageCost;
      (p.(averageCost := cost, quantity := held), realised + gain)
  }

  function TruncatedBy(a: int, b: int): int {
    if b > 0 then Truncate(a, b) else 0
  }

  function CashOf(side: Side, quantity: int, price: int): int {
    if Counts(side, quantity) then -(Signed(side, quantity) * price) else 0
  }

  /** How much rounding one fill can add: less than one tick for each unit held after it. */
  function SlackOf(p: Position, side: Side, quantity: int): nat {
    if Counts(side, quantity) && Extends(p, side) then Abs(p.quantity + Signed(side, quantity)) - 1 else 0
  }

  lemma TruncationError(a: int, b: int)
    requires b > 0
    ensures Abs(a - Truncate(a, b) * b) <= b - 1
  {
    var q := Truncate(a, b);
    if a >= 0 {
      assert a == q * b + a % b;
    } else {
      assert -a == (-a / b) * b + (-a) % b;
      assert q * b == -((-a / b) * b);
    }
  }

  lemma Distribute(a: int, x: int, y: int)
    ensures a * (x + y) == a * x + a * y && a * (x - y) == a * x - a * y && a * -x == -(a * x)
    ensures (x + y) * a == x * a + y * a && (x - y) * a == x * a - y * a && -x * a == -(x * a)
  {
  }

  /** Realised profit less cost of holdings moves with the cash a fill moves, up to that fill's rounding;
      reducing, closing and flipping fills round nothing. */
  lemma FillDrift(p: Position, realised: int, side: Side, quantity: int, price: int)
    ensures var (p', realised') := Filled(p, realised, side, quantity, price);
      Abs((realised' - p'.averageCost * p'.quantity) - (realised - p.averageCost * p.quantity) - CashOf(side, quantity, price))
        <= SlackOf(p, side, quantity)
  {
    if Counts(side, quantity) {
      if Extends(p, side) {
        ExtendDrift(p, realised, side, quantity, price);
      } else {
        ReduceExact(p, realised, side, quantity, price);
      }
    }
  }

  /** A fill moves the position by its signed quantity, whatever branch it takes. */
  lemma FilledQuantity(p: Position, realised: int, side: Side, quantity: int, price: int)
    ensures Filled(p, realised, side, quantity, price).0.quantity
         == p.quantity + if Counts(side, quantity) then Signed(side, quantity) else 0
  {
  }

  lemma ExtendDrift(p: Position, realised: int, side: Side, quantity: int, price: int)
    requires Counts(side, quantity) && Extends(p, side)
    ensures var (p', realised') := Filled(p, realised, side, quantity, price);
      Abs((realised' - p'.averageCost * p'.quantity) - (realised - p.averageCost * p.quantity) - CashOf(side, quantity, price))
        <= SlackOf(p, side, quantity)
  {
    var held := p.quantity + Signed(side, quantity);
    var cost := p.averageCost * Abs(p.quantity) + price * quantity;
    var average := Truncate(cost, Abs(held));
    TruncationError(cost, Abs(held));
    Distribute(average, Abs(held), 0);
    Distribute(p.averageCost, Abs(p.quantity), 0);
    Distribute(price, quantity, 0);
  }

  lemma ReduceExact(p: Position, realised: int, side: Side, quantity: int, price: int)
    requires Counts(side, quantity) && !Extends(p, side)
    ensures var (p', realised') := Filled(p, realised, side, quantity, price);
      realised' - p'.averageCost * p'.quantity == realised - p.averageCost * p.quantity + CashOf(side, quantity, price)
  {
    var closing := Min(quantity, Abs(p.quantity));
    var held := p.quantity + Signed(side, quantity);
    Distribute(closing, price, p.averageCost);
    Distribute(p.averageCost, p.quantity, quantity);
    Distribute(price, p.quantity, quantity);
    Distribute(price, held, 0);
    Distribute(price, quantity, 0);
  }

  // ----- how a fill's effect splits between realised profit and cost

  /** What closing one unit of a holding at this price gains. */
  function GainPerUnit(p: Position, price: int): int {
    if p.quantity > 0 then price - p.averageCost else p.averageCost - price
  }

  /** The holding is on the other side of the fill. */
  predicate Opposes(p: Position, side: Side) {
    (p.quantity > 0 && side == Sell) || (p.quantity < 0 && side == Buy)
  }

  predicate SameSide(held: int, held': int) {
    (held > 0 && held' > 0) || (held < 0 && held' < 0)
  }

  /** A fill against the holding realises the gain on the quantity it closes, which is the smaller of the
      fill and the holding, and on nothing else. The average cost stays while the holding keeps its side,
      is the fill's price once it changes side, and is zero once nothing is held. */
  lemma ClosesAtCost(p: Position, realised: int, side: Side, quantity: int, price: int)
    requires Counts(side, quantity) && Opposes(p, side)
    ensures var (p', realised') := Filled(p, realised, side, quantity, price);
      && realised' == realised + GainPerUnit(p, price) * (if quantity < Abs(p.quantity) then quantity else Abs(p.quantity))
      && (quantity < Abs(p.quantity) ==> SameSide(p.quantity, p'.quantity) && p'.averageCost == p.averageCost)
      && (quantity == Abs(p.quantity) ==> p'.quantity == 0 && p'.averageCost == 0)
      && (quantity > Abs(p.quantity) ==> SameSide(-p.quantity, p'.quantity) && p'.averageCost == price)
      && p'.mark == p.mark && p'.hasMark == p.hasMark
  {
  }

  /** A fill with the holding, or from none, realises nothing; the new average cost is the whole cost over
      the whole holding, rounded toward zero. */
  lemma ExtendsAtAverage(p: Position, realised: int, side: Side, quantity: int, price: int)
    requires Counts(side, quantity) && !Opposes(p, side)
    ensures var (p', realised') := Filled(p, realised, side, quantity, price);
      var paid := p.averageCost * Abs(p.quantity) + price * quantity; var held := Abs(p.quantity) + quantity;
      && realised' == realised && Abs(p'.quantity) == held && (p.quantity == 0 || SameSide(p.quantity, p'.quantity))
      && (paid >= 0 ==> p'.averageCost * held <= paid < p'.averageCost * held + held)
      && (paid < 0 ==> p'.averageCost * held - held < paid <= p'.averageCost * held)
      && p'.mark == p.mark && p'.hasMark == p.hasMark
  {
    var paid, held := p.averageCost * Abs(p.quantity) + price * quantity, Abs(p.quantity) + quantity;
    assert Extends(p, side) && Abs(p.quantity + Signed(side, quantity)) == held;
    TruncationBounds(paid, held);
  }

  lemma TruncationBounds(a: int, b: int)
    requires b > 0
    ensures var q := Truncate(a, b);
      && (a >= 0 ==> q * b <= a < q * b + b) && (a < 0 ==> q * b - b < a <= q * b)
  {
    var q := Truncate(a, b);
    if a >= 0 {
      assert a == q * b + a % b;
    } else {
      assert -a == (-a / b) * b + (-a) % b;
      assert q * b == -((-a / b) * b);
    }
  }

  /** A fill that changes the side of a holding is one fill that closes it and one that opens the rest,
      both at its price. */
  lemma FlipIsCloseAndOpen(p: Position, realised: int, side: Side, quantity: int, price: int)
    requires Counts(side, quantity) && Opposes(p, side) && quantity > Abs(p.quantity)
    ensures var (closed, realised') := Filled(p, realised, side, Abs(p.quantity), price);
      closed.quantity == 0 && Filled(p, realised, side, quantity, price) == Filled(closed, realised', side, quantity - Abs(p.quantity), price)
  {
    var rest := quantity - Abs(p.quantity);
    TruncateWhole(price, rest);
  }

  lemma TruncateWhole(price: int, n: int)
    requires n > 0
    ensures Truncate(price * n, n) == price
  {
    var q := Truncate(price * n, n);
    TruncationBounds(price * n, n);
    assert (price - q) * n == price * n - q * n;
    WholeMultiple(price - q, n);
  }

  lemma WholeMultiple(d: int, n: int)
    requires n > 0
    ensures (d >= 1 ==> d * n >= n) && (d <= -1 ==> d * n <= -n)
  {
    if d >= 1 {
      assert d * n == n + (d - 1) * n && (d - 1) * n >= 0;
    } else if d <= -1 {
      assert d * n == -n + (d + 1) * n && (d + 1) * n <= 0;
    }
  }

  /** Closing in two fills at one price is closing in one. */
  lemma ClosesInParts(p: Position, realised: int, side: Side, first: int, second: int, price: int)
    requires Counts(side, first) && Counts(side, second) && Opposes(p, side) && first + second <= Abs(p.quantity)
    ensures var (p', realised') := Filled(p, realised, side, first, price);
      Filled(p, realised, side, first + second, price) == Filled(p', realised', side, second, price)
  {
    Distribute(GainPerUnit(p, price), first, second);
  }

  // ----- sums over all symbols

  type Positions = map<nat, Position>

  datatype Measure = CostOf | MarketValue | Unrealised | GrossValue

  function Amount(p: Position, m: Measure): int {
    match m
    case CostOf => p.averageCost * p.quantity
    case MarketValue => MarkOf(p) * p.quantity
    case Unrealised => (MarkOf(p) - p.averageCost) * p.quantity
    case GrossValue => Abs(p.quantity) * MarkOf(p)
  }

  /** A position that was never marked is valued at what it cost. */
  lemma UnmarkedGainsNothing(p: Position)
    requires !p.hasMark
    ensures Amount(p, Unrealised) == 0 && Amount(p, MarketValue) == Amount(p, CostOf)
  {
  }

  ghost function Sum(ps: Positions, m: Measure): int
    decreases |ps|
  {
    if ps == map[] then 0 else
    var s := Pick(ps.Keys);
    Amount(ps[s], m) + Sum(ps - {s}, m)
  }

  lemma {:induction false} SumRemove(ps: Positions, s: nat, m: Measure)
    requires s in ps
    ensures Sum(ps, m) == Amount(ps[s], m) + Sum(ps - {s}, m)
    decreases |ps|
  {
    var a := Pick(ps.Keys);
    if a != s {
      SumRemove(ps - {a}, s, m);
      SumRemove(ps - {s}, a, m);
      assert ps - {a} - {s} == ps - {s} - {a};
    }
  }

  function At(ps: Positions, s: nat): Position {
    if s in ps then ps[s] else FLAT
  }

  lemma SumSet(ps: Positions, s: nat, p: Position, m: Measure)
    ensures Sum(ps[s := p], m) == Sum(ps, m) - Amount(At(ps, s), m) + Amount(p, m)
  {
    SumRemove(ps[s := p], s, m);
    assert ps[s := p] - {s} == ps - {s};
    if s in ps {
      SumRemove(ps, s, m);
    } else {
      assert ps - {s} == ps;
    }
  }

  lemma {:induction false} UnrealisedIs(ps: Positions)
    ensures Sum(ps, Unrealised) == Sum(ps, MarketValue) - Sum(ps, CostOf)
    decreases |ps|
  {
    if ps != map[] {
      var s := Pick(ps.Keys);
      UnrealisedIs(ps - {s});
      Distribute(ps[s].quantity, MarkOf(ps[s]), ps[s].averageCost);
    }
  }

  method SumOf(ps: Positions, m: Measure) returns (sum: int)
    ensures sum == Sum(ps, m)
  {
    sum := 0;
    var left := ps;
    while left != map[]
      invariant sum + Sum(left, m) == Sum(ps, m)
      decreases |left|
    {
      assert left.Keys != {};
      var s := PickOne(left.Keys);
      SumRemove(left, s, m);
      sum := sum + Amount(left[s], m);
      assert |left - {s}| < |left| by {
        assert left.Keys == (left - {s}).Keys + {s};
      }
      left := left - {s};
    }
  }

  class PortfolioRiskMonitor {
    var positions: Positions
    var realisedPnl: int
    ghost var cash: int             // money received less money paid, over all fills
    ghost var net: map<nat, int>    // bought less sold, per symbol
    ghost var slack: nat            // what extending fills may have rounded away

    /** Positions are the net fills, and profit tracks cash and cost up to the rounding of extending fills. */
    ghost predicate Valid()
      reads this
    {
      && (forall s: nat :: At(positions, s).quantity == Lookup(net, s))
      && Abs(realisedPnl - Sum(positions, CostOf) - cash) <= slack
    }

    constructor ()
      ensures Valid() && positions == map[] && realisedPnl == 0 && cash == 0 && net == map[] && slack == 0
    {
      positions, realisedPnl, cash, net, slack := map[], 0, 0, map[], 0;
    }

    method SetMark(symbol: nat, mark: int)
      requires Valid()
      modifies this`positions
      ensures Valid()
      ensures positions == old(positions)[symbol := At(old(positions), symbol).(mark := mark, hasMark := true)]
      ensures MarkOf(positions[symbol]) == mark
    {
      var p := At(positions, symbol).(mark := mark, hasMark := true);
      SumSet(positions, symbol, p, CostOf);
      positions := positions[symbol := p];
    }

    method ApplyFill(symbol: nat, side: Side, quantity: int, price: int)
      requires Valid()
      modifies this
      ensures Valid()
      ensures cash == old(cash) + CashOf(side, quantity, price)
      ensures net == old(net)[symbol := Lookup(old(net), symbol) + if Counts(side, quantity) then Signed(side, quantity) else 0]
      ensures slack == old(slack) + SlackOf(At(old(positions), symbol), side, quantity)
      ensures (At(positions, symbol), realisedPnl) == Filled(At(old(positions), symbol), old(realisedPnl), side, quantity, price)
      ensures forall s: nat :: s != symbol ==> At(positions, s) == At(old(positions), s)
    {
      var p := At(positions, symbol);
      var (p', realised') := Filled(p, realisedPnl, side, quantity, price);
      FillDrift(p, realisedPnl, side, quantity, price);
      FilledQuantity(p, realisedPnl, side, quantity, price);
      ghost var was, bought := positions, net;
      SumSet(positions, symbol, p', CostOf);
      cash := cash + CashOf(side, quantity, price);
      net := net[symbol := Lookup(net, symbol) + if Counts(side, quantity) then Signed(side, quantity) else 0];
      slack := slack + SlackOf(p, side, quantity);
      positions, realisedPnl := positions[symbol := p'], realised';
      forall s: nat ensures At(positions, s).quantity == Lookup(net, s) {
        assert At(was, s).quantity == Lookup(bought, s);
      }
    }

    method GrossExposure() returns (gross: int)
      ensures gross == Sum(positions, GrossValue)
    {
      gross := SumOf(positions, GrossValue);
    }

    method NetExposure() returns (exposure: int)
      ensures exposure == Abs(Sum(positions, MarketValue))
    {
      var value := SumOf(positions, MarketValue);
      return Abs(value);
    }

    method UnrealisedPnl() returns (pnl: int)
      ensures pnl == Sum(positions, Unrealised)
    {
      pnl := SumOf(positions, Unrealised);
    }

    /** Total profit is cash plus holdings at their marks, up to the rounding of the extending fills so far. */
    method TotalPnl() returns (pnl: int)
      requires Valid()
      ensures Abs(pnl - (cash + Sum(positions, MarketValue))) <= slack
    {
      UnrealisedIs(positions);
      var unrealised := UnrealisedPnl();
      return realisedPnl + unrealised;
    }
  }
}
