/** Market-data events and the diagnostics replay can give about them. */
module Events {
  import opened Types
  import opened Checksum

  datatype EventKind = AddEvent | CancelEvent | ReplaceEvent | ExecuteEvent | TradeEvent | SnapshotEvent | HeartbeatEvent

  datatype Event = Event(timestamp: int, sequence: nat, symbolId: nat, kind: EventKind, side: Side, price: int, quantity: int,
                         orderId: nat, tradeId: nat, flags: nat)

  predicate PriceRequired(kind: EventKind) {
    kind == AddEvent || kind == ReplaceEvent || kind == TradeEvent
  }

  predicate QuantityRequired(kind: EventKind) {
    kind == AddEvent || kind == ReplaceEvent || kind == ExecuteEvent || kind == TradeEvent
  }

  predicate OrderIdRequired(kind: EventKind) {
    kind == AddEvent || kind == CancelEvent || kind == ReplaceEvent || kind == ExecuteEvent
  }

  /** Bit zero of the flags opens a snapshot block. */
  predicate BeginsSnapshot(e: Event) {
    e.flags % 2 == 1
  }

  function OrderOf(e: Event): Order {
    Order(e.orderId, INVALID_ID, e.symbolId, e.side, e.price, e.quantity, e.timestamp, e.sequence)
  }

  /** Why replay refused an event; the C++ code renders each as a text. */
  datatype Reason =
    | SequenceGap(expected: nat, received: nat)
    | TimestampReversal(previous: int, now: int)
    | InvalidSymbol | SymbolMismatch | InvalidOrderId | InvalidSide | InvalidPrice | NegativePrice | InvalidQuantity
    | NegativeQuantity | DuplicateOrderId | InvalidSnapshotSide | InvalidSnapshotPrice | InvalidSnapshotQuantity
    | UnknownOrderId(kind: EventKind)
    | ExceedsResting
    | ApplyFailed(failed: EventKind)
    | PartialCancelFailed
    | CrossedBook(bid: int, ask: int)
    | BookViolation(final: bool)
    | ZeroCapacity  // not a diagnostic: two-thread replay was given a queue without room

  datatype Diagnostic = Diagnostic(index: nat, sequence: nat, symbolId: nat, reason: Reason)

  /** An arbitrary mixing function and an arbitrary rendering of reasons. */
  datatype Hash = Hash(mix: Mix, text: Reason -> seq<int>)

  const ERROR_SEVERITY := 3

  function KindCode(kind: EventKind): int {
    match kind
    case AddEvent => 1 case CancelEvent => 2 case ReplaceEvent => 3 case ExecuteEvent => 4
    case TradeEvent => 5 case SnapshotEvent => 6 case HeartbeatEvent => 7
  }

  function EventValues(e: Event): seq<int> {
    [e.timestamp, e.sequence, e.symbolId, KindCode(e.kind), SideCode(e.side), e.price, e.quantity, e.orderId, e.tradeId, e.flags]
  }

  function AppendEvent(h: Hash, seed: int, e: Event): int {
    Fold(h.mix, seed, EventValues(e))
  }

  function ChecksumEvents(h: Hash, es: seq<Event>): int {
    if es == [] then FNV_OFFSET_BASIS else AppendEvent(h, ChecksumEvents(h, es[..|es| - 1]), es[|es| - 1])
  }

  function AppendDiagnostic(h: Hash, seed: int, d: Diagnostic): int {
    Fold(h.mix, seed, [d.index, d.sequence, d.symbolId, ERROR_SEVERITY] + h.text(d.reason))
  }
}
