/** Generated flow against the book that replays it: the generator's list of active orders is the
    book's list of resting orders, and replay has nothing to complain about. */
module GeneratorLaws {
  import opened Types
  import B = Books
  import opened BookFrames
  import opened Events
  import R = Replays
  import opened SharedReplays
  import opened Generators

  // ----- active orders and resting orders

  /** An active order as the generator makes them: with a middle price of at least one tick, bids are
      below it and asks above it. */
  predicate Fine(c: Setup, a: Active) {
    && a.symbolId == c.symbolId && ValidSide(a.side) && a.quantity > 0 && a.orderId > 0 && a.price > 0
    && (c.mid >= 1 ==> OnItsSide(c, a.side, a.price))
  }

  predicate OnItsSide(c: Setup, side: Side, price: int) {
    if side == Buy then price <= Max(1, c.mid - 1) else price >= c.mid + 1
  }

  ghost predicate Shown(b: B.Book, a: Active) {
    && B.Has(b, a.orderId)
    && var o := B.Find(b, a.orderId); o.side == a.side && o.price == a.price && o.quantity == a.quantity && o.symbolId == a.symbolId
  }

  predicate Distinct(active: seq<Active>) {
    forall j, k :: 0 <= j < k < |active| ==> active[j].orderId != active[k].orderId
  }

  ghost predicate Listed(active: seq<Active>, id: nat) {
    exists k :: 0 <= k < |active| && active[k].orderId == id
  }

  /** The book rests exactly the active orders, with their sides, prices and quantities. */
  ghost predicate Mirrors(c: Setup, b: B.Book, active: seq<Active>) {
    && B.Sound(b) && b.symbol == c.symbolId && Distinct(active)
    && (forall k :: 0 <= k < |active| ==> Fine(c, active[k]) && Shown(b, active[k]))
    && (forall id :: B.Has(b, id) ==> Listed(active, id))
  }

  lemma MirrorsApart(c: Setup, b: B.Book, active: seq<Active>)
    requires Mirrors(c, b, active) && c.mid >= 1
    ensures R.TopOfBook(b) == None
  {
    forall p, q | p in b.bids && q in b.asks ensures p < q {
      var j := LevelIsActive(c, b, active, Buy, p);
      var k := LevelIsActive(c, b, active, Sell, q);
    }
    ApartIffTopIsFine(b);
  }

  /** A book of at most one order has nothing to cross. */
  lemma FewApart(c: Setup, b: B.Book, active: seq<Active>)
    requires Mirrors(c, b, active) && |active| <= 1
    ensures R.TopOfBook(b) == None
  {
    if b.bids.Keys != {} && b.asks.Keys != {} {
      var p := Pick(b.bids.Keys);
      var q := Pick(b.asks.Keys);
      BothSidesAreTwo(c, b, active, p, q);
      assert false;
    }
    ApartIffTopIsFine(b);
  }

  lemma BothSidesAreTwo(c: Setup, b: B.Book, active: seq<Active>, p: int, q: int)
    requires Mirrors(c, b, active) && p in b.bids && q in b.asks
    ensures |active| >= 2
  {
    var j := LevelIsActive(c, b, active, Buy, p);
    var k := LevelIsActive(c, b, active, Sell, q);
    assert j != k;
  }

  lemma LevelIsActive(c: Setup, b: B.Book, active: seq<Active>, s: Side, p: int) returns (k: nat)
    requires Mirrors(c, b, active) && ValidSide(s) && p in B.On(b, s)
    ensures k < |active| && active[k].side == s && (c.mid >= 1 ==> OnItsSide(c, s, p))
  {
    assert B.On(b, s)[p] != [];
    assert B.In(b, s, p, 0);
    var o := B.Get(b, s, p, 0);
    B.FindIs(b, s, p, 0);
    k :| 0 <= k < |active| && active[k].orderId == o.orderId;
    assert Fine(c, active[k]) && Shown(b, active[k]);
  }

  lemma AddMirrors(c: Setup, b: B.Book, active: seq<Active>, a: Active, o: Order)
    requires Mirrors(c, b, active) && Fine(c, a) && c.symbolId != INVALID_ID && !Listed(active, a.orderId)
    requires o.orderId == a.orderId && o.symbolId == a.symbolId && o.side == a.side && o.price == a.price
    requires o.quantity == a.quantity
    ensures !B.Has(b, a.orderId) && B.Add(b, o) == (B.Push(b, o), true) && Mirrors(c, B.Push(b, o), active + [a])
  {
    B.PushSound(b, o);
    PushFinds(b, o);
    var more := active + [a];
    forall k | 0 <= k < |more| ensures Fine(c, more[k]) && Shown(B.Push(b, o), more[k]) {
      if k < |active| {
        assert more[k] == active[k] && Shown(b, active[k]);
      }
    }
    forall id | B.Has(B.Push(b, o), id) ensures Listed(more, id) {
      if id == a.orderId {
        assert more[|active|].orderId == id;
      } else {
        var k :| 0 <= k < |active| && active[k].orderId == id;
        assert more[k].orderId == id;
      }
    }
  }

  lemma DropMirrors(c: Setup, b: B.Book, active: seq<Active>, k: nat)
    requires Mirrors(c, b, active) && k < |active|
    ensures B.Has(b, active[k].orderId) && Mirrors(c, B.Drop(b, active[k].orderId), Without(active, k))
  {
    var id, b', left := active[k].orderId, B.Drop(b, active[k].orderId), Without(active, k);
    assert Shown(b, active[k]);
    B.DropSound(b, id);
    DropFinds(b, id);
    WithoutIs(active, k);
    forall j | 0 <= j < |left| ensures Fine(c, left[j]) && Shown(b', left[j]) {
      assert Shown(b, active[Before(k, j)]);
    }
  }

  /** Where an element of the shortened list stood before. */
  function Before(k: nat, j: nat): nat {
    if j < k then j else j + 1
  }

  lemma WithoutIs(active: seq<Active>, k: nat)
    requires Distinct(active) && k < |active|
    ensures Distinct(Without(active, k)) && |Without(active, k)| == |active| - 1
    ensures forall j :: 0 <= j < |active| - 1 ==> Without(active, k)[j] == active[Before(k, j)] && active[Before(k, j)].orderId != active[k].orderId
    ensures forall id :: Listed(Without(active, k), id) <==> Listed(active, id) && id != active[k].orderId
  {
    var left := Without(active, k);
    forall id | Listed(active, id) && id != active[k].orderId ensures Listed(left, id) {
      var i :| 0 <= i < |active| && active[i].orderId == id;
      assert left[if i < k then i else i - 1] == active[i];
    }
    forall id | Listed(left, id) ensures Listed(active, id) && id != active[k].orderId {
      var j :| 0 <= j < |left| && left[j].orderId == id;
      assert left[j] == active[Before(k, j)];
    }
  }

  /** Changing one active order's price or quantity, in the list and in the book. */
  lemma ChangeMirrors(c: Setup, b: B.Book, b': B.Book, active: seq<Active>, k: nat, a: Active)
    requires Mirrors(c, b, active) && k < |active| && Fine(c, a) && a.orderId == active[k].orderId
    requires B.Sound(b') && b'.symbol == b.symbol && Shown(b', a)
    requires forall id :: B.Has(b', id) <==> B.Has(b, id)
    requires forall id :: B.Has(b, id) && id != a.orderId ==> B.Find(b', id) == B.Find(b, id)
    ensures Mirrors(c, b', active[k := a])
  {
    var changed := active[k := a];
    forall j | 0 <= j < |changed| ensures Fine(c, changed[j]) && Shown(b', changed[j]) {
      if j != k {
        assert Shown(b, active[j]) && active[j].orderId != a.orderId;
      }
    }
    forall id | B.Has(b', id) ensures Listed(changed, id) {
      var j :| 0 <= j < |active| && active[j].orderId == id;
      assert changed[j].orderId == id;
    }
  }

  // ----- each event is accepted and applied

  /** Replay accepts the event and is left with this book. */
  ghost predicate Takes(b: B.Book, e: Event, b': B.Book) {
    R.Refused(b, e) == None && R.Applied(b, e) == (b', None)
  }

  predicate SingleSymbol(c: Setup) {
    c.symbolId != INVALID_ID && c.mode != MultiSymbol && c.mode != AdversarialLifecycle
  }

  lemma AddTaken(c: Setup, d: Draws, b: B.Book, g: Gen)
    requires SingleSymbol(c) && Uniform(d) && Mirrors(c, b, g.active) && !Listed(g.active, g.nextOrder)
    requires g.nextOrder > 0
    ensures var g' := AddStep(c, d, g); var e := g'.events[|g.events|];
      exists b' :: Takes(b, e, b') && Mirrors(c, b', g'.active)
  {
    var g' := AddStep(c, d, g);
    var e, a := g'.events[|g.events|], g'.active[|g.active|];
    DrawnWithin(d, g.drawn + 2, 1, PriceRange(c));
    DrawnWithin(d, g.drawn + 3, 1, 250);
    assert Fine(c, a);
    AddMirrors(c, b, g.active, a, OrderOf(e));
    assert Takes(b, e, B.Push(b, OrderOf(e)));
  }

  lemma CancelTaken(c: Setup, d: Draws, b: B.Book, g: Gen, k: nat)
    requires SingleSymbol(c) && Mirrors(c, b, g.active) && k < |g.active|
    ensures var g' := ExistingStep(c, d, g, k, CancelEvent); var e := g'.events[|g.events|];
      exists b' :: Takes(b, e, b') && Mirrors(c, b', g'.active)
  {
    var e := ExistingStep(c, d, g, k, CancelEvent).events[|g.events|];
    assert Fine(c, g.active[k]) && Shown(b, g.active[k]);
    DropMirrors(c, b, g.active, k);
    assert Takes(b, e, B.Drop(b, e.orderId));
  }

  lemma ReplaceTaken(c: Setup, d: Draws, b: B.Book, g: Gen, k: nat)
    requires SingleSymbol(c) && Uniform(d) && Mirrors(c, b, g.active) && k < |g.active|
    ensures var g' := ExistingStep(c, d, g, k, ReplaceEvent); var e := g'.events[|g.events|];
      exists b' :: Takes(b, e, b') && Mirrors(c, b', g'.active)
  {
    var g' := ExistingStep(c, d, g, k, ReplaceEvent);
    var e, a := g'.events[|g.events|], g'.active[k];
    assert Fine(c, g.active[k]) && Shown(b, g.active[k]);
    DrawnWithin(d, g.drawn + 2, 1, PriceRange(c));
    DrawnWithin(d, g.drawn + 3, 1, 250);
    assert Fine(c, a);
    var b' := B.Replace(b, e.orderId, e.price, e.quantity, e.timestamp, e.sequence).0;
    ReplaceFinds(b, e.orderId, e.price, e.quantity, e.timestamp, e.sequence);
    B.ReplaceSound(b, e.orderId, e.price, e.quantity, e.timestamp, e.sequence);
    ChangeMirrors(c, b, b', g.active, k, a);
    assert Takes(b, e, b');
  }

  lemma ExecuteTaken(c: Setup, d: Draws, b: B.Book, g: Gen, k: nat)
    requires SingleSymbol(c) && Uniform(d) && Mirrors(c, b, g.active) && k < |g.active|
    ensures var g' := ExistingStep(c, d, g, k, ExecuteEvent); var e := g'.events[|g.events|];
      exists b' :: Takes(b, e, b') && Mirrors(c, b', g'.active)
  {
    var a := g.active[k];
    var e := ExistingStep(c, d, g, k, ExecuteEvent).events[|g.events|];
    assert Fine(c, a) && Shown(b, a);
    DrawnWithin(d, g.drawn + 2, 1, a.quantity);
    if e.quantity == a.quantity {
      DropMirrors(c, b, g.active, k);
      assert Takes(b, e, B.Drop(b, e.orderId));
    } else {
      ShrinkMirrors(c, b, g.active, k, e.quantity);
      assert Takes(b, e, B.Shrink(b, e.orderId, e.quantity));
    }
  }

  lemma ShrinkMirrors(c: Setup, b: B.Book, active: seq<Active>, k: nat, n: int)
    requires Mirrors(c, b, active) && k < |active| && 0 < n < active[k].quantity
    ensures B.Reduce(b, active[k].orderId, n) == (B.Shrink(b, active[k].orderId, n), true)
    ensures Mirrors(c, B.Shrink(b, active[k].orderId, n), active[k := active[k].(quantity := active[k].quantity - n)])
  {
    var a := active[k];
    assert Fine(c, a) && Shown(b, a);
    B.ShrinkSound(b, a.orderId, n);
    ShrinkFinds(b, a.orderId, n);
    ChangeMirrors(c, b, B.Shrink(b, a.orderId, n), active, k, a.(quantity := a.quantity - n));
  }

  // ----- a whole stream

  /** Replay has taken `i` events of the stream without a word. */
  ghost predicate Clean(f: R.Feed, c: Setup, rc: R.Config, i: nat) {
    && !f.stream.halted && f.result.valid && f.result.diagnostics == [] && f.result.processed == i
    && f.stream.index == i
    && (rc.sequences ==> f.stream.expected == if i == 0 then 0 else c.firstSequence + i)
    && (rc.timestamps ==> f.stream.hasLast == (i > 0) && (i > 0 ==> f.stream.last == TimestampFor(c, i - 1)))
  }

  lemma TimestampsGrow(c: Setup, i: nat)
    requires i > 0
    ensures TimestampFor(c, i - 1) <= TimestampFor(c, i)
  {
    if c.mode == BurstyFlow {
      DivideGrows(i - 1, Max(1, c.burstSize));
    }
  }

  lemma DivideGrows(i: nat, b: int)
    requires b >= 1
    ensures i / b <= (i + 1) / b
  {
    var q, q' := i / b, (i + 1) / b;
    DivideBack(i, b);
    DivideBack(i + 1, b);
    if q' < q {
      Multiples(q, q', b);
    }
  }

  lemma DivideBack(i: nat, b: int)
    requires b >= 1
    ensures i / b * b <= i < i / b * b + b
  {
  }

  lemma Multiples(q: int, q': int, b: int)
    requires q' < q && b >= 1
    ensures q' * b + b <= q * b
  {
    assert q * b == q' * b + (q - q') * b;
    assert (q - q') * b == b + (q - q' - 1) * b;
  }

  lemma CleanStep(f: R.Feed, c: Setup, rc: R.Config, h: Hash, e: Event, i: nat, b': B.Book)
    requires Clean(f, c, rc, i) && e.sequence == c.firstSequence + i && e.timestamp == TimestampFor(c, i)
    requires Takes(f.book, e, b') && (rc.bookState ==> R.TopOfBook(b') == None)
    ensures Clean(R.Step(f, e, rc, h), c, rc, i + 1) && R.Step(f, e, rc, h).book == b'
  {
    if i > 0 {
      TimestampsGrow(c, i);
    }
  }

  /** Active order ids lie below the next one to be handed out. */
  predicate Numbered(g: Gen) {
    g.nextOrder > 0 && forall k :: 0 <= k < |g.active| ==> g.active[k].orderId < g.nextOrder
  }

  lemma StepShape(c: Setup, d: Draws, g: Gen)
    requires Numbered(g) && CanPick(d, g)
    ensures var g' := Step(c, d, g);
      && |g'.events| == |g.events| + 1 && g'.events[..|g.events|] == g.events && Numbered(g')
      && g'.events[|g.events|].sequence == c.firstSequence + |g.events|
      && g'.events[|g.events|].timestamp == TimestampFor(c, |g.events|)
  {
  }

  lemma StepTaken(c: Setup, d: Draws, b: B.Book, g: Gen)
    requires SingleSymbol(c) && Uniform(d) && Mirrors(c, b, g.active) && Numbered(g) && CanPick(d, g)
    ensures |Step(c, d, g).events| == |g.events| + 1
    ensures var g' := Step(c, d, g); exists b' :: Takes(b, g'.events[|g.events|], b') && Mirrors(c, b', g'.active)
  {
    var roll := d(g.drawn, 0, 99);
    if ShouldAdd(c, roll, g.active == []) {
      AddTaken(c, d, b, g);
    } else {
      ExistingTaken(c, d, b, g, Picked(d, g), ChooseExisting(c, roll));
    }
  }

  lemma ExistingTaken(c: Setup, d: Draws, b: B.Book, g: Gen, k: nat, kind: EventKind)
    requires SingleSymbol(c) && Uniform(d) && Mirrors(c, b, g.active) && k < |g.active|
    requires kind == CancelEvent || kind == ReplaceEvent || kind == ExecuteEvent
    ensures var g' := ExistingStep(c, d, g, k, kind); var e := g'.events[|g.events|];
      exists b' :: Takes(b, e, b') && Mirrors(c, b', g'.active)
  {
    match kind
    case CancelEvent => CancelTaken(c, d, b, g, k);
    case ReplaceEvent => ReplaceTaken(c, d, b, g, k);
    case ExecuteEvent => ExecuteTaken(c, d, b, g, k);
  }

  ghost function FedBy(c: Setup, rc: R.Config, h: Hash, log: int, events: seq<Event>): R.Feed {
    R.Fed(R.Feed(B.Empty(c.symbolId), R.START, R.Begun(log)), events, rc, h)
  }

  lemma FedMore(c: Setup, rc: R.Config, h: Hash, log: int, events: seq<Event>)
    requires events != []
    ensures FedBy(c, rc, h, log, events) == R.Step(FedBy(c, rc, h, log, events[..|events| - 1]), events[|events| - 1], rc, h)
  {
  }

  ghost predicate CleanSoFar(c: Setup, rc: R.Config, h: Hash, log: int, n: nat, g: Gen) {
    var f := FedBy(c, rc, h, log, g.events);
    |g.events| == n && Numbered(g) && Clean(f, c, rc, n) && Mirrors(c, f.book, g.active)
  }

  /** Whether nothing in a flow of this length can make replay complain. */
  predicate Harmless(c: Setup, rc: R.Config, n: nat) {
    c.mid >= 1 || n < 2 || !rc.bookState
  }

  /** After every generated event, replay is clean and the active list is the book. */
  lemma {:induction false} StreamIsClean(c: Setup, d: Draws, rc: R.Config, h: Hash, log: int, n: nat)
    requires SingleSymbol(c) && Harmless(c, rc, n) && Uniform(d)
    ensures CleanSoFar(c, rc, h, log, n, Generated(c, d, n))
    decreases n
  {
    if n > 0 {
      var m, g := n - 1, Generated(c, d, n - 1);
      StreamIsClean(c, d, rc, h, log, m);
      if g.active != [] {
        DrawnWithin(d, g.drawn + 1, 0, |g.active| - 1);
      }
      if m == 0 { OneActive(c, d); }
      OneMoreClean(c, d, rc, h, log, m, g);
      assert CleanSoFar(c, rc, h, log, m + 1, Generated(c, d, n));
    }
  }

  lemma OneActive(c: Setup, d: Draws)
    ensures |Step(c, d, Generated(c, d, 0)).active| == 1
  {
  }

  lemma OneMoreClean(c: Setup, d: Draws, rc: R.Config, h: Hash, log: int, n: nat, g: Gen)
    requires SingleSymbol(c) && Uniform(d) && CanPick(d, g)
    requires c.mid >= 1 || !rc.bookState || |Step(c, d, g).active| <= 1
    requires CleanSoFar(c, rc, h, log, n, g)
    ensures CleanSoFar(c, rc, h, log, n + 1, Step(c, d, g))
  {
    var g' := Step(c, d, g);
    var f := FedBy(c, rc, h, log, g.events);
    StepShape(c, d, g);
    StepTaken(c, d, f.book, g);
    var b' :| Takes(f.book, g'.events[n], b') && Mirrors(c, b', g'.active);
    if c.mid >= 1 { MirrorsApart(c, b', g'.active); }
    if |g'.active| <= 1 { FewApart(c, b', g'.active); }
    CleanStep(f, c, rc, h, g'.events[n], n, b');
    FedMore(c, rc, h, log, g'.events);
  }

  /** Generated single-symbol flow replays without a diagnostic, all of it, in either mode. */
  lemma FlowIsAccepted(c: Setup, d: Draws, rc: R.Config, h: Hash)
    requires SingleSymbol(c) && Harmless(c, rc, c.eventCount) && Uniform(d)
    ensures var r := R.Replayed(B.Empty(c.symbolId), Generated(c, d, c.eventCount).events, rc, h);
      r.valid && r.diagnostics == [] && r.error == None && r.processed == c.eventCount
  {
    var g := Generated(c, d, c.eventCount);
    var log := ChecksumEvents(h, g.events);
    StreamIsClean(c, d, rc, h, log, c.eventCount);
    var f := FedBy(c, rc, h, log, g.events);
    if c.mid >= 1 { MirrorsApart(c, f.book, g.active); }
    if c.eventCount < 2 {
      if c.eventCount == 1 { OneActive(c, d); }
      FewApart(c, f.book, g.active);
    }
    NoErrorWhileValid(c, rc, h, log, g.events);
  }

  lemma {:induction false} NoErrorWhileValid(c: Setup, rc: R.Config, h: Hash, log: int, events: seq<Event>)
    ensures var f := FedBy(c, rc, h, log, events); f.result.valid ==> f.result.error == None
    ensures var f := FedBy(c, rc, h, log, events); !f.result.valid ==> f.result.diagnostics != []
    decreases |events|
  {
    if events != [] {
      NoErrorWhileValid(c, rc, h, log, events[..|events| - 1]);
    }
  }
}
