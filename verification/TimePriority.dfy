/** Time priority in the abstract book, told by positions and by the history of operations alone:
    what each operation does to the order within queues, and what a book holds after any run. */
module TimePriorities {
  import opened Types
  import opened Books
  import opened BookFrames

  /** One order stands ahead of another in the same queue. */
  ghost predicate Ahead(b: Book, first: nat, second: nat) {
    exists s, p, i, j :: i < j && At(b, s, p, i, first) && At(b, s, p, j, second)
  }

  predicate At(b: Book, s: Side, p: int, i: int, id: nat) {
    In(b, s, p, i) && Get(b, s, p, i).orderId == id
  }

  /** An order stands at the back of the queue its own terms belong to. */
  ghost predicate Last(b: Book, o: Order) {
    At(b, o.side, o.price, |QueueAt(On(b, o.side), o.price)| - 1, o.orderId)
    && Get(b, o.side, o.price, |QueueAt(On(b, o.side), o.price)| - 1) == o
  }

  // ----- the two ways a book changes shape

  lemma PushOrder(b: Book, o: Order, first: nat, second: nat)
    requires Sound(b) && ValidRestingOrder(o) && o.symbolId == b.symbol && !Has(b, o.orderId)
    requires first != o.orderId && second != o.orderId
    ensures Ahead(Push(b, o), first, second) <==> Ahead(b, first, second)
  {
    var b' := Push(b, o);
    forall s, p, i, id | id != o.orderId ensures At(b', s, p, i, id) <==> At(b, s, p, i, id) {}
  }

  lemma PushLast(b: Book, o: Order)
    requires ValidRestingOrder(o)
    ensures Last(Push(b, o), o)
  {
  }

  lemma DropOrder(b: Book, id: nat, first: nat, second: nat)
    requires Sound(b) && Has(b, id) && first != id && second != id
    ensures Ahead(Drop(b, id), first, second) <==> Ahead(b, first, second)
  {
    var s0, p0, i0 :| In(b, s0, p0, i0) && Get(b, s0, p0, i0).orderId == id;
    if Ahead(b, first, second) {
      var s, p, i, j :| i < j && At(b, s, p, i, first) && At(b, s, p, j, second);
      var to := PlaceAfter(b, s0, p0, i0, s, p, i, first);
      var to' := PlaceAfter(b, s0, p0, i0, s, p, j, second);
    }
    if Ahead(Drop(b, id), first, second) {
      var s, p, i, j :| i < j && At(Drop(b, id), s, p, i, first) && At(Drop(b, id), s, p, j, second);
      var from := PlaceBefore(b, s0, p0, i0, s, p, i, first);
      var from' := PlaceBefore(b, s0, p0, i0, s, p, j, second);
    }
  }

  /** Where an order stands once another one has been dropped. */
  lemma PlaceAfter(b: Book, s0: Side, p0: int, i0: int, s: Side, p: int, i: int, id: nat) returns (to: int)
    requires Sound(b) && In(b, s0, p0, i0) && At(b, s, p, i, id) && Get(b, s0, p0, i0).orderId != id
    ensures to == if (s, p) == (s0, p0) && i > i0 then i - 1 else i
    ensures (s, p) == (s0, p0) ==> i != i0
    ensures At(Drop(b, Get(b, s0, p0, i0).orderId), s, p, to, id)
  {
    DropMoves(b, s0, p0, i0, s, p, i);
    to := if (s, p) == (s0, p0) && i > i0 then i - 1 else i;
  }

  /** Where an order stood before another one was dropped. */
  lemma PlaceBefore(b: Book, s0: Side, p0: int, i0: int, s: Side, p: int, i: int, id: nat) returns (from: int)
    requires Sound(b) && In(b, s0, p0, i0) && At(Drop(b, Get(b, s0, p0, i0).orderId), s, p, i, id)
    ensures from == Origin(s0, p0, i0, s, p, i) && At(b, s, p, from, id)
  {
    DropMoves(b, s0, p0, i0, s, p, i);
    from := Origin(s0, p0, i0, s, p, i);
  }

  lemma ShrinkOrder(b: Book, id: nat, n: int, first: nat, second: nat)
    requires Sound(b) && Has(b, id) && 0 < n < Find(b, id).quantity
    ensures Ahead(Shrink(b, id, n), first, second) <==> Ahead(b, first, second)
  {
    var b' := Shrink(b, id, n);
    var s0, p0, i0 :| In(b, s0, p0, i0) && Get(b, s0, p0, i0).orderId == id;
    ShrinkIs(b, s0, p0, i0, n);
    forall s, p, i, k ensures At(b', s, p, i, k) <==> At(b, s, p, i, k) {}
  }

  // ----- one operation

  /** The order an operation takes out of its place, if it is accepted: a partial reduce takes none. */
  ghost predicate Moves(b: Book, op: Op, id: nat) {
    match op
    case AddOp(o) => id == o.orderId
    case CancelOp(k) => id == k
    case ReduceOp(k, n) => id == k && Has(b, k) && n >= Find(b, k).quantity
    case ReplaceOp(k, _, _, _, _) => id == k
    case ClearOp => true
  }

  /** Whatever an operation does, no two orders it does not itself move change places. */
  lemma KeepsOrder(b: Book, op: Op, first: nat, second: nat)
    requires Sound(b) && !Moves(b, op, first) && !Moves(b, op, second)
    ensures Ahead(Apply(b, op).0, first, second) <==> Ahead(b, first, second)
  {
    if Apply(b, op).1 {
      match op
      case AddOp(o) => PushOrder(b, o, first, second);
      case CancelOp(id) => DropOrder(b, id, first, second);
      case ReduceOp(id, n) =>
        if n >= Find(b, id).quantity { DropOrder(b, id, first, second); } else { ShrinkOrder(b, id, n, first, second); }
      case ReplaceOp(id, price, quantity, timestamp, sequence) =>
        ReplaceOrders(b, id, price, quantity, timestamp, sequence, first, second);
    }
  }

  lemma ReplaceOrders(b: Book, id: nat, price: int, quantity: int, timestamp: int, sequence: nat, first: nat,
                      second: nat)
    requires Sound(b) && Has(b, id) && price > 0 && quantity > 0 && first != id && second != id
    ensures Ahead(Replace(b, id, price, quantity, timestamp, sequence).0, first, second) <==> Ahead(b, first, second)
  {
    var o := Find(b, id).(price := price, quantity := quantity, timestamp := timestamp, sequence := sequence);
    FoundFits(b, id);
    DropSound(b, id);
    DropOrder(b, id, first, second);
    PushOrder(Drop(b, id), o, first, second);
  }

  /** An added order stands last in its queue, and so does a replaced one, with its new terms. */
  lemma EntersLast(b: Book, op: Op)
    requires Sound(b) && Apply(b, op).1
    ensures op.AddOp? ==> Last(Apply(b, op).0, op.order)
    ensures op.ReplaceOp? ==> Has(b, op.id) && Last(Apply(b, op).0,
      Find(b, op.id).(price := op.price, quantity := op.quantity, timestamp := op.timestamp, sequence := op.sequence))
  {
    if op.AddOp? {
      PushLast(b, op.order);
    } else if op.ReplaceOp? {
      FoundFits(b, op.id);
      PushLast(Drop(b, op.id),
               Find(b, op.id).(price := op.price, quantity := op.quantity, timestamp := op.timestamp, sequence := op.sequence));
    }
  }

  // ----- whole runs, one order at a time

  /** What has become of one id: the order it names, and the operation that last put it at the back. */
  datatype Slot = Vacant | Resting(order: Order, since: nat)

  /** What the operation numbered `n` does to one id, told without any book. */
  function SlotAfter(symbol: nat, slot: Slot, op: Op, n: nat, id: nat): Slot {
    match op
    case AddOp(o) =>
      if o.orderId == id && slot.Vacant? && ValidRestingOrder(o) && o.symbolId == symbol then Resting(o, n) else slot
    case CancelOp(k) => if k == id then Vacant else slot
    case ReduceOp(k, quantity) =>
      if k != id || slot.Vacant? || quantity <= 0 then slot
      else if quantity >= slot.order.quantity then Vacant
      else slot.(order := slot.order.(quantity := slot.order.quantity - quantity))
    case ReplaceOp(k, price, quantity, timestamp, sequence) =>
      if k != id || slot.Vacant? || price <= 0 || quantity <= 0 then slot
      else Resting(slot.order.(price := price, quantity := quantity, timestamp := timestamp, sequence := sequence), n)
    case ClearOp => Vacant
  }

  function SlotOf(symbol: nat, ops: seq<Op>, id: nat): Slot {
    if ops == [] then Vacant
    else SlotAfter(symbol, SlotOf(symbol, ops[..|ops| - 1], id), ops[|ops| - 1], |ops| - 1, id)
  }

  /** Whether an operation is accepted, told from the history of the id it names. */
  predicate Accepts(symbol: nat, ops: seq<Op>, op: Op) {
    match op
    case AddOp(o) => ValidRestingOrder(o) && o.symbolId == symbol && SlotOf(symbol, ops, o.orderId).Vacant?
    case CancelOp(id) => SlotOf(symbol, ops, id).Resting?
    case ReduceOp(id, quantity) => quantity > 0 && SlotOf(symbol, ops, id).Resting?
    case ReplaceOp(id, price, quantity, _, _) => price > 0 && quantity > 0 && SlotOf(symbol, ops, id).Resting?
    case ClearOp => true
  }

  /** The book shows of one id exactly what its slot says. */
  ghost predicate Shows(b: Book, id: nat, slot: Slot) {
    (Has(b, id) <==> slot.Resting?) && (Has(b, id) ==> Find(b, id) == slot.order)
  }

  lemma StepShows(b: Book, op: Op, n: nat, id: nat, slot: Slot)
    requires Sound(b) && Shows(b, id, slot)
    ensures Shows(Apply(b, op).0, id, SlotAfter(b.symbol, slot, op, n, id))
  {
    if Apply(b, op).1 {
      match op
      case AddOp(o) => PushSound(b, o); PushFinds(b, o);
      case CancelOp(k) => DropSound(b, k); DropFinds(b, k);
      case ReduceOp(k, q) =>
        if q >= Find(b, k).quantity { DropSound(b, k); DropFinds(b, k); } else { ShrinkSound(b, k, q); ShrinkFinds(b, k, q); }
      case ReplaceOp(k, price, quantity, timestamp, sequence) =>
        ReplaceSound(b, k, price, quantity, timestamp, sequence);
        ReplaceFinds(b, k, price, quantity, timestamp, sequence);
      case ClearOp =>
    }
  }

  /** After any run the book holds exactly the orders their own histories leave, with their terms. */
  lemma {:induction false} RunHolds(symbol: nat, ops: seq<Op>, id: nat)
    ensures Shows(Run(Empty(symbol), ops).0, id, SlotOf(symbol, ops, id))
  {
    if ops != [] {
      var init := ops[..|ops| - 1];
      RunSound(symbol, init);
      RunHolds(symbol, init, id);
      StepShows(Run(Empty(symbol), init).0, ops[|ops| - 1], |ops| - 1, id, SlotOf(symbol, init, id));
    }
  }

  /** Every answer of a run is decided by the history of the id the operation names. */
  lemma {:induction false} RunAnswers(symbol: nat, ops: seq<Op>)
    ensures |Run(Empty(symbol), ops).1| == |ops|
    ensures forall i :: 0 <= i < |ops| ==> Run(Empty(symbol), ops).1[i] == Accepts(symbol, ops[..i], ops[i])
  {
    if ops != [] {
      var init, last := ops[..|ops| - 1], ops[|ops| - 1];
      RunAnswers(symbol, init);
      RunSound(symbol, init);
      AnswerIs(symbol, init, last);
      forall i | 0 <= i < |init| ensures init[..i] == ops[..i] && init[i] == ops[i] {}
    }
  }

  lemma AnswerIs(symbol: nat, ops: seq<Op>, op: Op)
    ensures Apply(Run(Empty(symbol), ops).0, op).1 == Accepts(symbol, ops, op)
  {
    RunSound(symbol, ops);
    match op
    case AddOp(o) => RunHolds(symbol, ops, o.orderId);
    case CancelOp(id) => RunHolds(symbol, ops, id);
    case ReduceOp(id, _) => RunHolds(symbol, ops, id);
    case ReplaceOp(id, _, _, _, _) => RunHolds(symbol, ops, id);
    case ClearOp =>
  }

  lemma {:induction false} SinceBounded(symbol: nat, ops: seq<Op>, id: nat)
    ensures SlotOf(symbol, ops, id).Resting? ==> SlotOf(symbol, ops, id).since < |ops|
  {
    if ops != [] {
      SinceBounded(symbol, ops[..|ops| - 1], id);
    }
  }

  lemma AheadRests(b: Book, first: nat, second: nat)
    requires Ahead(b, first, second)
    ensures Has(b, first) && Has(b, second)
  {
    var s, p, i, j :| i < j && At(b, s, p, i, first) && At(b, s, p, j, second);
    assert In(b, s, p, i) && In(b, s, p, j);
  }

  /** After any run, orders of one queue stand in the order in which they were last added or replaced. */
  lemma {:induction false} RunPriority(symbol: nat, ops: seq<Op>, first: nat, second: nat)
    requires Ahead(Run(Empty(symbol), ops).0, first, second)
    ensures SlotOf(symbol, ops, first).Resting? && SlotOf(symbol, ops, second).Resting?
    ensures SlotOf(symbol, ops, first).since < SlotOf(symbol, ops, second).since
  {
    AheadRests(Run(Empty(symbol), ops).0, first, second);
    RunHolds(symbol, ops, first);
    RunHolds(symbol, ops, second);
    var init, op := ops[..|ops| - 1], ops[|ops| - 1];
    var b := Run(Empty(symbol), init).0;
    RunSound(symbol, init);
    RunHolds(symbol, init, second);
    if !Apply(b, op).1 {
      RefusedSlots(symbol, init, op, first);
      RefusedSlots(symbol, init, op, second);
      ApplySound(b, op);
      RunPriority(symbol, init, first, second);
    } else if Enters(op, first) {
      NotAheadOfNone(b, op, first, second);
    } else if Enters(op, second) {
      SinceBounded(symbol, init, first);
    } else {
      RunHolds(symbol, init, first);
      KeepsOrder(b, op, first, second);
      RunPriority(symbol, init, first, second);
    }
  }

  predicate Enters(op: Op, id: nat) {
    (op.AddOp? && op.order.orderId == id) || (op.ReplaceOp? && op.id == id)
  }

  lemma RefusedSlots(symbol: nat, ops: seq<Op>, op: Op, id: nat)
    requires !Apply(Run(Empty(symbol), ops).0, op).1
    ensures SlotAfter(symbol, SlotOf(symbol, ops, id), op, |ops|, id) == SlotOf(symbol, ops, id)
  {
    AnswerIs(symbol, ops, op);
  }

  /** Nothing stands behind an order that has just been put at the back. */
  lemma NotAheadOfNone(b: Book, op: Op, first: nat, second: nat)
    requires Sound(b) && Apply(b, op).1 && Enters(op, first)
    ensures !Ahead(Apply(b, op).0, first, second)
  {
    EntersLast(b, op);
    ApplySound(b, op);
  }
}
