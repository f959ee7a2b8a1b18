/** Requests, order states and execution reports of the matching contract. */
module Reports {
  import opened Types
  import opened Checksum

  datatype OrderType = Limit | Market | OtherType
  datatype TimeInForce = Gtc | Ioc | Fok | OtherTif
  datatype Status = NewOrder | PartiallyFilled | Filled | Canceled | Replaced | Rejected
  datatype ExecType = ExecNew | Trade | ExecCanceled | ExecReplaced | ExecRejected
  datatype Reason =
    | NoReason | InvalidQuantity | InvalidPrice | DuplicateClientOrderId | UnknownOrder | Unsupported
    | InternalError | SelfTradePrevention | PostOnlyWouldCross | FokNotFillable

  datatype NewRequest = NewRequest(clientOrderId: nat, symbolId: nat, side: Side, orderType: OrderType, price: int, quantity: int,
                                   timestamp: int, clientId: nat, tif: TimeInForce, postOnly: bool)
  datatype CancelRequest = CancelRequest(clientOrderId: nat, orderId: nat, timestamp: int)
  datatype ReplaceRequest = ReplaceRequest(clientOrderId: nat, orderId: nat, price: int, quantity: int, timestamp: int)
  datatype Request = Submit(new_: NewRequest) | Cancel(cancel: CancelRequest) | Replace(replace: ReplaceRequest)

  datatype OrderState = OrderState(clientOrderId: nat, orderId: nat, symbolId: nat, side: Side, orderType: OrderType, limit: int,
                                   original: int, filled: int, notional: int, clientId: nat, status: Status, timestamp: int)

  function Remaining(st: OrderState): int {
    if st.original - st.filled > 0 then st.original - st.filled else 0
  }

  function AveragePrice(st: OrderState): int {
    if st.filled <= 0 then 0 else Truncate(st.notional, st.filled)
  }

  datatype Report = Report(clientOrderId: nat, orderId: nat, symbolId: nat, side: Side, status: Status, execType: ExecType,
                           filled: int, remaining: int, lastQuantity: int, lastPrice: int, averagePrice: int,
                           restingPrice: int, timestamp: int, reason: Reason)

  predicate Closed(status: Status) {
    status == Canceled || status == Filled || status == Rejected
  }

  function MakeReport(st: OrderState, execType: ExecType, lastQuantity: int, lastPrice: int, timestamp: int,
                      reason: Reason): Report {
    var remaining := if Closed(st.status) then 0 else Remaining(st);
    Report(st.clientOrderId, st.orderId, st.symbolId, st.side, st.status, execType, st.filled, remaining, lastQuantity, lastPrice,
           AveragePrice(st), if remaining > 0 && st.orderType == Limit then st.limit else 0, timestamp, reason)
  }

  function MakeReject(clientOrderId: nat, symbolId: nat, side: Side, timestamp: int, reason: Reason): Report {
    Report(clientOrderId, INVALID_ID, symbolId, side, Rejected, ExecRejected, 0, 0, 0, 0, 0, 0, timestamp, reason)
  }

  // ----- report checksums

  function StatusCode(status: Status): int {
    match status
    case NewOrder => 1 case PartiallyFilled => 2 case Filled => 3 case Canceled => 4 case Replaced => 5 case Rejected => 6
  }

  function ExecCode(execType: ExecType): int {
    match execType
    case ExecNew => 1 case Trade => 2 case ExecCanceled => 3 case ExecReplaced => 4 case ExecRejected => 5
  }

  function ReasonCode(reason: Reason): int {
    match reason
    case NoReason => 0 case InvalidQuantity => 1 case InvalidPrice => 2 case DuplicateClientOrderId => 3 case UnknownOrder => 4
    case Unsupported => 12 case InternalError => 13 case SelfTradePrevention => 16 case PostOnlyWouldCross => 22 case FokNotFillable => 23
  }

  function ReportValues(r: Report): seq<int> {
    [r.clientOrderId, r.orderId, r.symbolId, SideCode(r.side), StatusCode(r.status), ExecCode(r.execType), r.filled, r.remaining,
     r.lastQuantity, r.lastPrice, r.averagePrice, r.restingPrice, r.timestamp, ReasonCode(r.reason)]
  }

  function ChecksumReports(mix: Mix, seed: int, reports: seq<Report>): int {
    if reports == [] then seed
    else Fold(mix, ChecksumReports(mix, seed, reports[..|reports| - 1]), ReportValues(reports[|reports| - 1]))
  }

  lemma {:induction false} ChecksumConcat(mix: Mix, seed: int, a: seq<Report>, b: seq<Report>)
    ensures ChecksumReports(mix, seed, a + b) == ChecksumReports(mix, ChecksumReports(mix, seed, a), b)
    decreases |b|
  {
    if b == [] {
      assert a + b == a;
    } else {
      assert (a + b)[..|a + b| - 1] == a + b[..|b| - 1];
      ChecksumConcat(mix, seed, a, b[..|b| - 1]);
    }
  }
}
