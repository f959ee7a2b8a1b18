/** What generated flow looks like: how often each kind of event comes, and the numbers, times, terms and
    ids its events carry. */
module GeneratorShapes {
  import opened Types
  import opened Events
  import opened Generators

  // ----- how often each kind comes

  /** The kind of the next event when some order is active. */
  function KindFor(c: Setup, roll: int): EventKind {
    if ShouldAdd(c, roll, false) then AddEvent else ChooseExisting(c, roll)
  }

  /** How many of the rolls below a bound give this kind. */
  function Share(c: Setup, kind: EventKind, n: nat): nat {
    if n == 0 then 0 else Share(c, kind, n - 1) + if KindFor(c, n - 1) == kind then 1 else 0
  }

  lemma {:induction false} ShareOfRange(c: Setup, kind: EventKind, n: nat, from: nat, to: nat)
    requires from <= to && forall roll: nat :: roll < n ==> (KindFor(c, roll) == kind) == (from <= roll && roll < to)
    ensures Share(c, kind, n) == if n < from then 0 else if n < to then n - from else to - from
  {
    if n > 0 {
      ShareOfRange(c, kind, n - 1, from, to);
    }
  }

  datatype Odds = Odds(adds: nat, cancels: nat, reprices: nat, executes: nat)

  /** The share of each kind in a hundred rolls, by mode. */
  function OddsOf(mode: FlowMode): Odds {
    match mode
    case HighCancellationRate => Odds(35, 50, 10, 5)
    case ReplaceHeavy => Odds(35, 10, 50, 5)
    case DeepBook => Odds(75, 0, 15, 10)
    case LongRunningSameSymbol => Odds(50, 25, 15, 10)
    case _ => Odds(55, 20, 15, 10)
  }

  /** While orders are active, each mode draws its kinds of events at these odds. */
  lemma DrawnAtOdds(c: Setup)
    ensures Odds(Share(c, AddEvent, 100), Share(c, CancelEvent, 100), Share(c, ReplaceEvent, 100), Share(c, ExecuteEvent, 100)) == OddsOf(c.mode)
  {
    var o := OddsOf(c.mode);
    ShareOfRange(c, AddEvent, 100, 0, o.adds);
    if c.mode == ReplaceHeavy {
      ShareOfRange(c, ReplaceEvent, 100, 35, 85);
      ShareOfRange(c, CancelEvent, 100, 85, 95);
      ShareOfRange(c, ExecuteEvent, 100, 95, 100);
    } else {
      ShareOfRange(c, CancelEvent, 100, o.adds, o.adds + o.cancels);
      ShareOfRange(c, ReplaceEvent, 100, o.adds + o.cancels, o.adds + o.cancels + o.reprices);
      ShareOfRange(c, ExecuteEvent, 100, o.adds + o.cancels + o.reprices, 100);
    }
  }

  // ----- what events carry

  /** How many events of a kind a stream holds. */
  function CountOf(es: seq<Event>, kind: EventKind): nat {
    if es == [] then 0 else CountOf(es[..|es| - 1], kind) + if es[|es| - 1].kind == kind then 1 else 0
  }

  /** A price on the far side of the middle price, at least one tick and within the range from it. */
  predicate InRange(c: Setup, side: Side, price: int) {
    && price >= 1
    && (if side == Buy then price <= Max(1, c.mid - 1) && price >= c.mid - PriceRange(c)
        else price >= c.mid + 1 && price <= Max(1, c.mid + PriceRange(c)))
  }

  predicate UsualQuantity(quantity: int) {
    1 <= quantity <= 250
  }

  /** The event that follows `es` is numbered and timed in order and has the terms of its kind: an added order
      has the next order id, an execution the next trade id. */
  predicate Regular(c: Setup, es: seq<Event>, e: Event) {
    && e.sequence == c.firstSequence + |es| && e.timestamp == TimestampFor(c, |es|) && e.flags == 0 && ValidSide(e.side)
    && match e.kind
       case AddEvent => e.orderId == CountOf(es, AddEvent) + 1 && e.symbolId == SymbolFor(c, |es|) && e.tradeId == 0
                        && InRange(c, e.side, e.price) && UsualQuantity(e.quantity)
       case ReplaceEvent => KnownId(es, e) && e.tradeId == 0 && InRange(c, e.side, e.price) && UsualQuantity(e.quantity)
       case CancelEvent => KnownId(es, e) && e.tradeId == 0 && e.quantity == 0
       case ExecuteEvent => KnownId(es, e) && e.tradeId == CountOf(es, ExecuteEvent) + 1 && e.quantity >= 1
       case _ => false
  }

  predicate KnownId(es: seq<Event>, e: Event) {
    0 < e.orderId <= CountOf(es, AddEvent)
  }

  ghost predicate AllRegular(c: Setup, es: seq<Event>) {
    forall i :: 0 <= i < |es| ==> Regular(c, es[..i], es[i])
  }

  /** Active orders carry ids given out so far, real sides and something to execute. */
  predicate Usable(g: Gen, a: Active) {
    0 < a.orderId < g.nextOrder && ValidSide(a.side) && a.quantity >= 1
  }

  ghost predicate Ready(c: Setup, g: Gen) {
    && g.nextOrder == CountOf(g.events, AddEvent) + 1 && g.nextTrade == CountOf(g.events, ExecuteEvent) + 1
    && (forall k :: 0 <= k < |g.active| ==> Usable(g, g.active[k])) && AllRegular(c, g.events)
  }

  lemma PriceInRange(c: Setup, d: Draws, side: Side, n: nat)
    requires Uniform(d) && ValidSide(side)
    ensures InRange(c, side, PriceAt(c, side, d(n, 1, PriceRange(c))))
  {
    DrawnWithin(d, n, 1, PriceRange(c));
  }

  lemma OneMore(c: Setup, es: seq<Event>, e: Event)
    requires AllRegular(c, es) && Regular(c, es, e)
    ensures AllRegular(c, es + [e])
    ensures forall kind :: CountOf(es + [e], kind) == CountOf(es, kind) + if e.kind == kind then 1 else 0
  {
    var more := es + [e];
    assert more[..|es|] == es;
    forall i | 0 <= i < |more| ensures Regular(c, more[..i], more[i]) {
      if i < |es| {
        assert more[..i] == es[..i] && more[i] == es[i];
      }
    }
  }

  lemma AddIsRegular(c: Setup, d: Draws, g: Gen)
    requires Uniform(d) && Ready(c, g)
    ensures Ready(c, AddStep(c, d, g)) && |AddStep(c, d, g).events| == |g.events| + 1
  {
    var g' := AddStep(c, d, g);
    var e := g'.events[|g.events|];
    PriceInRange(c, d, e.side, g.drawn + 2);
    DrawnWithin(d, g.drawn + 3, 1, 250);
    OneMore(c, g.events, e);
    StaysUsable(g, g');
  }

  /** Orders stay usable as more ids are given out. */
  lemma StaysUsable(g: Gen, g': Gen)
    requires g.nextOrder <= g'.nextOrder && forall k :: 0 <= k < |g.active| ==> Usable(g, g.active[k])
    ensures forall k :: 0 <= k < |g.active| ==> Usable(g', g.active[k])
  {
  }

  lemma CancelIsRegular(c: Setup, d: Draws, g: Gen, k: nat)
    requires Ready(c, g) && k < |g.active|
    ensures Ready(c, ExistingStep(c, d, g, k, CancelEvent))
  {
    var g' := ExistingStep(c, d, g, k, CancelEvent);
    assert Usable(g, g.active[k]);
    OneMore(c, g.events, g'.events[|g.events|]);
    StaysUsable(g, g');
  }

  lemma UpdateUsable(g: Gen, g': Gen, k: nat, b: Active)
    requires k < |g.active| && Usable(g, b) && g'.nextOrder == g.nextOrder && g'.active == g.active[k := b]
    requires forall j :: 0 <= j < |g.active| ==> Usable(g, g.active[j])
    ensures forall j :: 0 <= j < |g'.active| ==> Usable(g', g'.active[j])
  {
  }

  /** The event of a replacement, as the order's new terms make it. */
  lemma ReplaceEventIs(c: Setup, d: Draws, g: Gen, k: nat)
    requires Uniform(d) && Ready(c, g) && k < |g.active|
    ensures var g' := ExistingStep(c, d, g, k, ReplaceEvent); |g'.events| == |g.events| + 1 && var e := g'.events[|g.events|];
      && g'.events == g.events + [e] && e.kind == ReplaceEvent && Regular(c, g.events, e)
      && g'.active == g.active[k := g.active[k].(price := e.price, quantity := e.quantity)] && e.quantity >= 1
      && g'.nextOrder == g.nextOrder && g'.nextTrade == g.nextTrade
  {
    assert Usable(g, g.active[k]);
    PriceInRange(c, d, g.active[k].side, g.drawn + 2);
    DrawnWithin(d, g.drawn + 3, 1, 250);
  }

  lemma ReplaceIsRegular(c: Setup, d: Draws, g: Gen, k: nat)
    requires Uniform(d) && Ready(c, g) && k < |g.active|
    ensures Ready(c, ExistingStep(c, d, g, k, ReplaceEvent))
  {
    ReplaceEventIs(c, d, g, k);
    var g' := ExistingStep(c, d, g, k, ReplaceEvent);
    var e := g'.events[|g.events|];
    assert Usable(g, g.active[k]);
    UpdateUsable(g, g', k, g.active[k].(price := e.price, quantity := e.quantity));
    OneMore(c, g.events, e);
  }

  lemma ExecuteIsRegular(c: Setup, d: Draws, g: Gen, k: nat)
    requires Uniform(d) && Ready(c, g) && k < |g.active|
    ensures Ready(c, ExistingStep(c, d, g, k, ExecuteEvent))
  {
    var g' := ExistingStep(c, d, g, k, ExecuteEvent);
    assert Usable(g, g.active[k]);
    DrawnWithin(d, g.drawn + 2, 1, g.active[k].quantity);
    OneMore(c, g.events, g'.events[|g.events|]);
    StaysUsable(g, g');
  }

  lemma ExistingIsRegular(c: Setup, d: Draws, g: Gen, k: nat, kind: EventKind)
    requires Uniform(d) && Ready(c, g) && k < |g.active|
    requires kind == CancelEvent || kind == ReplaceEvent || kind == ExecuteEvent
    ensures Ready(c, ExistingStep(c, d, g, k, kind)) && |ExistingStep(c, d, g, k, kind).events| == |g.events| + 1
  {
    CancelIsRegular(c, d, g, k);
    ReplaceIsRegular(c, d, g, k);
    ExecuteIsRegular(c, d, g, k);
  }

  /** One more event is as regular as those before it. */
  lemma StepIsRegular(c: Setup, d: Draws, g: Gen)
    requires Uniform(d) && Ready(c, g)
    ensures Ready(c, Step(c, d, g)) && |Step(c, d, g).events| == |g.events| + 1
  {
    var roll := d(g.drawn, 0, 99);
    if ShouldAdd(c, roll, g.active == []) {
      AddIsRegular(c, d, g);
    } else {
      DrawnWithin(d, g.drawn + 1, 0, |g.active| - 1);
      ExistingIsRegular(c, d, g, Picked(d, g), ChooseExisting(c, roll));
    }
  }

  lemma StartsReady(c: Setup)
    ensures Ready(c, NO_EVENTS)
  {
  }

  /** Every event of generated flow is numbered, timed and filled in as its kind demands, whatever is drawn. */
  lemma {:induction false} FlowIsRegular(c: Setup, d: Draws, n: nat)
    requires Uniform(d)
    ensures |Generated(c, d, n).events| == n && Ready(c, Generated(c, d, n))
  {
    if n == 0 {
      StartsReady(c);
    } else {
      FlowIsRegular(c, d, n - 1);
      StepIsRegular(c, d, Generated(c, d, n - 1));
    }
  }
}
