/** One book per symbol, created on first use; an event is routed to its symbol's book. */
module MultiSymbolBooks {
  import opened Types
  import opened Ranking
  import opened Checksum
  import opened Books
  import opened OrderBooks
  import opened Events
  import R = Replays

  type BookMap = map<nat, Book>

  function BookAt(books: BookMap, symbol: nat): Option<Book> {
    if symbol in books then Some(books[symbol]) else None
  }

  /** The book of a symbol, or the empty one it would start with. */
  function BookFor(books: BookMap, symbol: nat): Book {
    if symbol in books then books[symbol] else Empty(symbol)
  }

  /** What applying an event does to the set of books, and whether it succeeds. */
  ghost function Routed(books: BookMap, e: Event): (bool, BookMap) {
    if e.symbolId == INVALID_ID then (false, books)
    else
      var (b, failure) := R.Applied(BookFor(books, e.symbolId), e);
      (failure == None, books[e.symbolId := b])
  }

  function SortedSymbols(symbols: set<nat>): (ps: seq<nat>)
    ensures |ps| == |symbols| && (forall i :: 0 <= i < |ps| ==> ps[i] in symbols) && (forall s :: s in symbols ==> s in ps)
    ensures forall i, j :: 0 <= i < j < |ps| ==> ps[i] < ps[j]
  {
    RankedLists(Sell, symbols);
    var ps := Ranked(Sell, symbols);
    assert forall i :: 0 <= i < |ps| ==> ps[i] in symbols;
    ps
  }

  function CombinedValues(mix: Mix, books: BookMap, ps: seq<nat>): seq<int>
    requires forall i :: 0 <= i < |ps| ==> ps[i] in books
  {
    if ps == [] then [] else
    CombinedValues(mix, books, ps[..|ps| - 1]) + [ps[|ps| - 1], BookChecksum(mix, books[ps[|ps| - 1]])]
  }

  /** Fold of the number of books, then of each symbol and its book's checksum, by symbol. */
  function Combined(mix: Mix, books: BookMap): int {
    Fold(mix, FNV_OFFSET_BASIS, [|books.Keys|] + CombinedValues(mix, books, SortedSymbols(books.Keys)))
  }

  lemma FoldPair(mix: Mix, seed: int, done: seq<int>, a: int, b: int)
    ensures Fold(mix, seed, done + [a, b]) == mix(mix(Fold(mix, seed, done), a), b)
  {
    FoldConcat(mix, seed, done, [a, b]);
    FoldTwo(mix, Fold(mix, seed, done), a, b);
  }

  /** The fold after the first `i` symbols. */
  function CombinedUpTo(mix: Mix, books: BookMap, ps: seq<nat>, i: nat): int
    requires (forall k :: 0 <= k < |ps| ==> ps[k] in books) && i <= |ps|
  {
    Fold(mix, FNV_OFFSET_BASIS, [|books.Keys|] + CombinedValues(mix, books, ps[..i]))
  }

  lemma CombinedEnd(mix: Mix, books: BookMap)
    ensures CombinedUpTo(mix, books, SortedSymbols(books.Keys), |SortedSymbols(books.Keys)|) == Combined(mix, books)
  {
    var ps := SortedSymbols(books.Keys);
    assert ps[..|ps|] == ps;
  }

  lemma CombinedStart(mix: Mix, books: BookMap)
    ensures CombinedUpTo(mix, books, SortedSymbols(books.Keys), 0) == mix(FNV_OFFSET_BASIS, |books.Keys|)
  {
    var n := |books.Keys|;
    assert [n] + [] == [n];
    assert Fold(mix, mix(FNV_OFFSET_BASIS, n), [n][1..]) == mix(FNV_OFFSET_BASIS, n);
  }

  lemma CombinedStep(mix: Mix, books: BookMap, ps: seq<nat>, i: nat)
    requires (forall k :: 0 <= k < |ps| ==> ps[k] in books) && i < |ps|
    ensures CombinedUpTo(mix, books, ps, i + 1) == mix(mix(CombinedUpTo(mix, books, ps, i), ps[i]), BookChecksum(mix, books[ps[i]]))
  {
    var head := [|books.Keys|];
    var done := head + CombinedValues(mix, books, ps[..i]);
    FoldPair(mix, FNV_OFFSET_BASIS, done, ps[i], BookChecksum(mix, books[ps[i]]));
    assert ps[..i + 1][..i] == ps[..i];
    assert head + CombinedValues(mix, books, ps[..i + 1]) == done + [ps[i], BookChecksum(mix, books[ps[i]])];
  }

  lemma UpdateTwice<K, V>(m: map<K, V>, k: K, v: V, w: V)
    ensures m[k := v][k := w] == m[k := w]
  {
  }

  class MultiSymbolBookSet {
    var books: map<nat, OrderBook>
    ghost var contents: BookMap
    ghost var Repr: set<OrderBook>

    /** Every symbol's book is valid, its own, and holds what `contents` says. */
    ghost predicate Valid()
      reads this, Repr
    {
      && contents.Keys == books.Keys
      && (forall s :: s in books ==> books[s] in Repr)
      && forall s :: s in books ==> Keeps(books[s], s, contents[s])
    }

    static ghost predicate Keeps(book: OrderBook, symbol: nat, b: Book)
      reads book
    {
      book.Valid() && book.symbolId == symbol && book.View() == b
    }

    constructor ()
      ensures Valid() && contents == map[] && Repr == {}
    {
      books, contents, Repr := map[], map[], {};
    }

    /** Makes sure the symbol has a book. */
    method OpenBook(symbol: nat)
      requires Valid()
      modifies this
      ensures Valid() && symbol in books && contents == old(contents)[symbol := BookFor(old(contents), symbol)]
      ensures fresh(Repr - old(Repr))
    {
      if symbol !in books {
        var book := new OrderBook(symbol);
        books := books[symbol := book];
        contents := contents[symbol := Empty(symbol)];
        Repr := Repr + {book};
      }
    }

    /** One event on one of the books. */
    method ApplyTo(book: OrderBook, e: Event) returns (ok: bool)
      requires book.Valid()
      modifies book
      ensures book.Valid() && book.View() == R.Applied(old(book.View()), e).0
      ensures ok == (R.Applied(old(book.View()), e).1 == None)
    {
      match e.kind
      case AddEvent => ok := book.AddOrder(OrderOf(e));
      case CancelEvent =>
        if e.quantity > 0 {
          ok := book.ReduceOrder(e.orderId, e.quantity);
        } else {
          ok := book.CancelOrder(e.orderId);
        }
      case ReplaceEvent => ok := book.ReplaceOrder(e.orderId, e.price, e.quantity, e.timestamp, e.sequence);
      case ExecuteEvent => ok := book.ReduceOrder(e.orderId, e.quantity);
      case SnapshotEvent =>
        if BeginsSnapshot(e) {
          book.Clear();
        }
        ok := true;
        if e.orderId != INVALID_ID {
          ok := book.AddOrder(OrderOf(e));
        }
      case TradeEvent => ok := true;
      case HeartbeatEvent => ok := true;
    }

    /** One event on the book its symbol already has; the other books are not touched. */
    method ApplyAt(e: Event) returns (ok: bool)
      requires Valid() && e.symbolId in books
      modifies books[e.symbolId], this`contents
      ensures Valid() && ok == (R.Applied(old(contents)[e.symbolId], e).1 == None)
      ensures contents == old(contents)[e.symbolId := R.Applied(old(contents)[e.symbolId], e).0]
    {
      var book := books[e.symbolId];
      forall s | s in books && s != e.symbolId ensures books[s] != book {
        assert Keeps(books[s], s, contents[s]);
      }
      ok := ApplyTo(book, e);
      forall s | s in books && s != e.symbolId ensures Keeps(books[s], s, contents[s]) {
        assert unchanged(books[s]);
      }
      contents := contents[e.symbolId := book.View()];
    }

    /** Routes the event to its symbol's book, which it creates if need be. */
    method Apply(e: Event) returns (ok: bool)
      requires Valid()
      modifies this, Repr
      ensures Valid() && fresh(Repr - old(Repr)) && (ok, contents) == Routed(old(contents), e)
    {
      if e.symbolId == INVALID_ID {
        return false;
      }
      UpdateTwice(contents, e.symbolId, BookFor(contents, e.symbolId), R.Applied(BookFor(contents, e.symbolId), e).0);
      OpenBook(e.symbolId);
      ok := ApplyAt(e);
    }

    /** Folds in one symbol and its book's checksum. */
    method MixOne(mix: Mix, done: int, symbol: nat) returns (c: int)
      requires symbol in books && symbol in contents && books[symbol].Valid()
      requires books[symbol].View() == contents[symbol]
      ensures c == mix(mix(done, symbol), BookChecksum(mix, contents[symbol]))
    {
      var one := books[symbol].Checksum(mix);
      c := mix(mix(done, symbol), one);
    }

    method CombinedChecksum(mix: Mix) returns (c: int)
      requires Valid()
      ensures c == Combined(mix, contents)
    {
      CombinedStart(mix, contents);
      c := mix(FNV_OFFSET_BASIS, |books|);
      var ps := SortedSymbols(books.Keys);
      for i := 0 to |ps|
        invariant c == CombinedUpTo(mix, contents, ps, i)
      {
        CombinedStep(mix, contents, ps, i);
        assert Keeps(books[ps[i]], ps[i], contents[ps[i]]);
        c := MixOne(mix, c, ps[i]);
      }
      CombinedEnd(mix, contents);
    }
  }
}
