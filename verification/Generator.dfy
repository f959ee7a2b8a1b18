/** The synthetic event generator: random flow over a list of active orders. */
module Generators {
  import opened Types
  import opened Events

  datatype FlowMode =
    | Balanced | HighCancellationRate | ReplaceHeavy | DeepBook | BurstyFlow | LongRunningSameSymbol | MultiSymbol
    | WidePriceRange | AdversarialLifecycle

  datatype Setup = Setup(symbolId: nat, eventCount: nat, firstSequence: nat, firstTimestamp: int, mode: FlowMode,
                         symbolCount: nat, mid: int, priceRange: int, burstSize: nat)

  datatype Active = Active(orderId: nat, symbolId: nat, side: Side, price: int, quantity: int)

  /** The n-th draw from a uniform distribution between two bounds. */
  type Draws = (nat, int, int) -> int

  ghost predicate Uniform(d: Draws) {
    forall n, lo, hi :: lo <= hi ==> lo <= d(n, lo, hi) <= hi
  }

  // ----- choices

  function SymbolFor(c: Setup, index: nat): nat {
    c.symbolId + index % (if c.mode == MultiSymbol then Max(1, c.symbolCount) else 1)
  }

  function TimestampFor(c: Setup, index: nat): int {
    if c.mode != BurstyFlow then c.firstTimestamp + index else c.firstTimestamp + index / Max(1, c.burstSize)
  }

  function PriceRange(c: Setup): (range: int)
    ensures range >= 1
  {
    if c.mode == DeepBook then Max(c.priceRange, 100)
    else if c.mode == WidePriceRange then Max(c.priceRange, 500)
    else Max(c.priceRange, 1)
  }

  function PriceAt(c: Setup, side: Side, depth: int): int {
    Max(1, if side == Buy then c.mid - depth else c.mid + depth)
  }

  predicate ShouldAdd(c: Setup, roll: int, nothingActive: bool) {
    nothingActive ||
    match c.mode
    case HighCancellationRate => roll < 35
    case ReplaceHeavy => roll < 35
    case DeepBook => roll < 75
    case LongRunningSameSymbol => roll < 50
    case _ => roll < 55
  }

  function ChooseExisting(c: Setup, roll: int): EventKind {
    if c.mode == HighCancellationRate then
      if roll < 85 then CancelEvent else if roll < 95 then ReplaceEvent else ExecuteEvent
    else if c.mode == ReplaceHeavy then
      if roll < 85 then ReplaceEvent else if roll < 95 then CancelEvent else ExecuteEvent
    else if roll < 75 then CancelEvent else if roll < 90 then ReplaceEvent else ExecuteEvent
  }

  // ----- one event

  datatype Gen = Gen(events: seq<Event>, active: seq<Active>, nextOrder: nat, nextTrade: nat, drawn: nat)

  const NO_EVENTS := Gen([], [], 1, 1, 0)

  function Without(active: seq<Active>, k: nat): seq<Active>
    requires k < |active|
  {
    active[..k] + active[k + 1..]
  }

  function Stamped(c: Setup, i: nat, kind: EventKind, a: Active, quantity: int, trade: nat): Event {
    Event(TimestampFor(c, i), c.firstSequence + i, a.symbolId, kind, a.side, a.price, quantity, a.orderId, trade, 0)
  }

  function AddStep(c: Setup, d: Draws, g: Gen): Gen {
    var n, i := g.drawn, |g.events|;
    var side := if d(n + 1, 0, 1) == 0 then Buy else Sell;
    var a := Active(g.nextOrder, SymbolFor(c, i), side, PriceAt(c, side, d(n + 2, 1, PriceRange(c))), d(n + 3, 1, 250));
    Gen(g.events + [Stamped(c, i, AddEvent, a, a.quantity, 0)], g.active + [a], g.nextOrder + 1, g.nextTrade, n + 4)
  }

  function ExistingStep(c: Setup, d: Draws, g: Gen, k: nat, kind: EventKind): Gen
    requires k < |g.active|
  {
    var n, i, a := g.drawn, |g.events|, g.active[k];
    if kind == CancelEvent then
      g.(events := g.events + [Stamped(c, i, CancelEvent, a, 0, 0)], active := Without(g.active, k), drawn := n + 2)
    else if kind == ReplaceEvent then
      var b := a.(price := PriceAt(c, a.side, d(n + 2, 1, PriceRange(c))), quantity := d(n + 3, 1, 250));
      g.(events := g.events + [Stamped(c, i, ReplaceEvent, b, b.quantity, 0)], active := g.active[k := b], drawn := n + 4)
    else
      var executed := d(n + 2, 1, a.quantity);
      var left := a.(quantity := a.quantity - executed);
      g.(events := g.events + [Stamped(c, i, ExecuteEvent, a, executed, g.nextTrade)],
         active := if left.quantity == 0 then Without(g.active, k) else g.active[k := left],
         nextTrade := g.nextTrade + 1, drawn := n + 3)
  }

  function Picked(d: Draws, g: Gen): int {
    d(g.drawn + 1, 0, |g.active| - 1)
  }

  /** One more event. */
  function Step(c: Setup, d: Draws, g: Gen): Gen {
    var roll := d(g.drawn, 0, 99);
    if ShouldAdd(c, roll, g.active == []) then AddStep(c, d, g)
    else if 0 <= Picked(d, g) < |g.active| then ExistingStep(c, d, g, Picked(d, g), ChooseExisting(c, roll))
    else g
  }

  function Generated(c: Setup, d: Draws, n: nat): Gen {
    if n == 0 then NO_EVENTS else Step(c, d, Generated(c, d, n - 1))
  }

  // ----- the generator's loop

  method RandomPrice(c: Setup, side: Side, d: Draws, n: nat) returns (price: int)
    ensures price == PriceAt(c, side, d(n, 1, PriceRange(c)))
  {
    var depth := d(n, 1, PriceRange(c));
    price := Max(1, if side == Buy then c.mid - depth else c.mid + depth);
  }

  method AddOne(c: Setup, d: Draws, g: Gen) returns (g': Gen)
    ensures g' == AddStep(c, d, g)
  {
    var i := |g.events|;
    var side := if d(g.drawn + 1, 0, 1) == 0 then Buy else Sell;
    var price := RandomPrice(c, side, d, g.drawn + 2);
    var a := Active(g.nextOrder, SymbolFor(c, i), side, price, d(g.drawn + 3, 1, 250));
    g' := g.(nextOrder := g.nextOrder + 1, active := g.active + [a], drawn := g.drawn + 4,
             events := g.events + [Stamped(c, i, AddEvent, a, a.quantity, 0)]);
  }

  method ExecuteOne(c: Setup, d: Draws, g: Gen, k: nat) returns (g': Gen)
    requires k < |g.active|
    ensures g' == ExistingStep(c, d, g, k, ExecuteEvent)
  {
    var active := g.active;
    var executed := d(g.drawn + 2, 1, active[k].quantity);
    var e := Stamped(c, |g.events|, ExecuteEvent, active[k], executed, g.nextTrade);
    active := active[k := active[k].(quantity := active[k].quantity - executed)];
    if active[k].quantity == 0 {
      assert active[..k] == g.active[..k] && active[k + 1..] == g.active[k + 1..];
      active := active[..k] + active[k + 1..];
    }
    g' := g.(events := g.events + [e], active := active, nextTrade := g.nextTrade + 1, drawn := g.drawn + 3);
  }

  method ChangeOne(c: Setup, d: Draws, g: Gen, k: nat, kind: EventKind) returns (g': Gen)
    requires k < |g.active| && (kind == CancelEvent || kind == ReplaceEvent || kind == ExecuteEvent)
    ensures g' == ExistingStep(c, d, g, k, kind)
  {
    var i := |g.events|;
    if kind == CancelEvent {
      return g.(events := g.events + [Stamped(c, i, CancelEvent, g.active[k], 0, 0)],
                active := g.active[..k] + g.active[k + 1..], drawn := g.drawn + 2);
    }
    if kind == ReplaceEvent {
      var price := RandomPrice(c, g.active[k].side, d, g.drawn + 2);
      var b := g.active[k].(price := price, quantity := d(g.drawn + 3, 1, 250));
      return g.(events := g.events + [Stamped(c, i, ReplaceEvent, b, b.quantity, 0)], active := g.active[k := b], drawn := g.drawn + 4);
    }
    g' := ExecuteOne(c, d, g, k);
  }

  lemma DrawnWithin(d: Draws, n: nat, lo: int, hi: int)
    requires Uniform(d) && lo <= hi
    ensures lo <= d(n, lo, hi) <= hi
  {
  }

  predicate CanPick(d: Draws, g: Gen) {
    g.active == [] || 0 <= Picked(d, g) < |g.active|
  }

  lemma StepAdds(c: Setup, d: Draws, g: Gen)
    requires CanPick(d, g)
    ensures |Step(c, d, g).events| == |g.events| + 1
  {
  }

  method NextEvent(c: Setup, d: Draws, g: Gen) returns (g': Gen)
    requires CanPick(d, g)
    ensures g' == Step(c, d, g)
  {
    var roll := d(g.drawn, 0, 99);
    if ShouldAdd(c, roll, |g.active| == 0) {
      g' := AddOne(c, d, g);
    } else {
      var k := d(g.drawn + 1, 0, |g.active| - 1);
      g' := ChangeOne(c, d, g, k, ChooseExisting(c, roll));
    }
  }

  method GenerateEvents(c: Setup, d: Draws) returns (g: Gen)
    requires Uniform(d)
    ensures g == Generated(c, d, c.eventCount) && |g.events| == c.eventCount
  {
    g := NO_EVENTS;
    for i := 0 to c.eventCount
      invariant g == Generated(c, d, i) && |g.events| == i
    {
      if g.active != [] {
        DrawnWithin(d, g.drawn + 1, 0, |g.active| - 1);
      }
      StepAdds(c, d, g);
      g := NextEvent(c, d, g);
    }
  }
}
