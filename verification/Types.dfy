/** Identifiers, sides and resting orders shared by every component. */
module Types {

  datatype Option<+T> = None | Some(value: T)

  datatype Side = NoSide | Buy | Sell

  // Zero is the unset identifier for orders, client orders and symbols.
  const INVALID_ID: nat := 0

  predicate ValidSide(side: Side) {
    side == Buy || side == Sell
  }

  function Opposite(side: Side): Side {
    match side
    case Buy => Sell
    case Sell => Buy
    case NoSide => NoSide
  }

  datatype Order = Order(orderId: nat, clientOrderId: nat, symbolId: nat, side: Side, price: int,
                         quantity: int, timestamp: int, sequence: nat)

  predicate ValidRestingOrder(o: Order) {
    o.orderId != INVALID_ID && o.symbolId != INVALID_ID && ValidSide(o.side) && o.price > 0 && o.quantity > 0
  }

  function Min(a: int, b: int): int {
    if a < b then a else b
  }

  function Max(a: int, b: int): int {
    if a < b then b else a
  }

  function Abs(a: int): int {
    if a < 0 then -a else a
  }

  /** Some element of a set. */
  ghost function Pick<T>(s: set<T>): (x: T)
    requires s != {}
    ensures x in s
  {
    var x :| x in s;
    x
  }

  /** The next element of a set that a loop goes through in no particular order. */
  method PickOne<T(==)>(s: set<T>) returns (x: T)
    requires s != {}
    ensures x in s
  {
    x :| x in s;
  }

  function SideCode(side: Side): int {
    match side case NoSide => 0 case Buy => 1 case Sell => 2
  }

  /** A one-to-one map into a finite set has at most that many keys. */
  lemma {:induction false} InjectionSize<A, B>(m: map<A, B>, ys: set<B>)
    requires forall x :: x in m ==> m[x] in ys
    requires forall x, x' :: x in m && x' in m && m[x] == m[x'] ==> x == x'
    ensures |m| <= |ys|
    decreases |m|
  {
    if m.Keys != {} {
      var x := Pick(m.Keys);
      InjectionSize(m - {x}, ys - {m[x]});
      assert m.Keys == (m - {x}).Keys + {x};
      assert ys == (ys - {m[x]}) + {m[x]};
    } else {
      assert m == map[];
    }
  }

  /** Division as C++ does it: the quotient is truncated toward zero. */
  function Truncate(a: int, b: int): int
    requires b > 0
  {
    if a >= 0 then a / b else -(-a / b)
  }

  lemma InsertSize<K, V>(m: map<K, V>, k: K, v: V)
    requires k !in m
    ensures |m[k := v]| == |m| + 1
  {
    assert m[k := v].Keys == m.Keys + {k};
  }

  lemma RemoveSize<K, V>(m: map<K, V>, k: K)
    requires k in m
    ensures |m - {k}| == |m| - 1
  {
    assert m.Keys == (m - {k}).Keys + {k};
  }
}
