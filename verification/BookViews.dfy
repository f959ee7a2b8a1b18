/** What a book shows of itself, told by its resting orders: who is best, and what an L2 view lists. */
module BookViews {
  import opened Types
  import opened Ranking
  import opened Books
  import TP = TimePriorities

  /** One resting order comes before another of its side: a better price, or the same price and longer there. */
  predicate Precedes(side: Side, a: TP.Slot, b: TP.Slot)
    requires a.Resting? && b.Resting?
  {
    Better(side, a.order.price, b.order.price) || (a.order.price == b.order.price && a.since < b.since)
  }

  predicate RestsOn(symbol: nat, ops: seq<Op>, side: Side, id: nat) {
    TP.SlotOf(symbol, ops, id).Resting? && TP.SlotOf(symbol, ops, id).order.side == side
  }

  lemma QueuesThere(b: Book, side: Side)
    requires Sound(b)
    ensures forall p :: p in On(b, side) ==> On(b, side)[p] != []
  {
  }

  lemma FoundOnSide(b: Book, id: nat)
    requires Sound(b) && Has(b, id)
    ensures Find(b, id).price in On(b, Find(b, id).side)
  {
    var s, p, i :| In(b, s, p, i) && Get(b, s, p, i).orderId == id;
    FindIs(b, s, p, i);
  }

  /** After any run the best order of a side precedes every other order resting there, by price and then by
      the time it was last added or replaced; there is none exactly when nothing rests there. */
  lemma BestComesFirst(symbol: nat, ops: seq<Op>, side: Side)
    requires ValidSide(side)
    ensures Sound(Run(Empty(symbol), ops).0) && forall p :: p in On(Run(Empty(symbol), ops).0, side) ==> On(Run(Empty(symbol), ops).0, side)[p] != []
    ensures var best := BestOrder(Run(Empty(symbol), ops).0, side);
      && (best == None <==> forall id :: !RestsOn(symbol, ops, side, id))
      && (best != None ==>
            && RestsOn(symbol, ops, side, best.value.orderId) && TP.SlotOf(symbol, ops, best.value.orderId).order == best.value
            && forall id :: RestsOn(symbol, ops, side, id) && id != best.value.orderId ==>
                 Precedes(side, TP.SlotOf(symbol, ops, best.value.orderId), TP.SlotOf(symbol, ops, id)))
  {
    var b := Run(Empty(symbol), ops).0;
    RunSound(symbol, ops);
    QueuesThere(b, side);
    if On(b, side) == map[] {
      forall id ensures !RestsOn(symbol, ops, side, id) {
        TP.RunHolds(symbol, ops, id);
        if Has(b, id) { FoundOnSide(b, id); }
      }
    } else {
      assert On(b, side).Keys != {} && |On(b, side)| == |On(b, side).Keys| > 0;
      var p := Best(side, On(b, side).Keys);
      var first := Get(b, side, p, 0).orderId;
      FindIs(b, side, p, 0);
      TP.RunHolds(symbol, ops, first);
      assert RestsOn(symbol, ops, side, first);
      forall id | RestsOn(symbol, ops, side, id) && id != first
        ensures Precedes(side, TP.SlotOf(symbol, ops, first), TP.SlotOf(symbol, ops, id))
      {
        BehindBest(symbol, ops, side, p, id);
      }
    }
  }

  lemma BehindBest(symbol: nat, ops: seq<Op>, side: Side, p: int, id: nat)
    requires var b := Run(Empty(symbol), ops).0;
      ValidSide(side) && Sound(b) && BestIn(side, On(b, side).Keys, p) && In(b, side, p, 0) && Get(b, side, p, 0).orderId != id
    requires RestsOn(symbol, ops, side, id)
    ensures var first := Get(Run(Empty(symbol), ops).0, side, p, 0).orderId;
      RestsOn(symbol, ops, side, first) && Precedes(side, TP.SlotOf(symbol, ops, first), TP.SlotOf(symbol, ops, id))
  {
    var b := Run(Empty(symbol), ops).0;
    var first := Get(b, side, p, 0).orderId;
    FindIs(b, side, p, 0);
    TP.RunHolds(symbol, ops, first);
    TP.RunHolds(symbol, ops, id);
    var s', p', i :| In(b, s', p', i) && Get(b, s', p', i).orderId == id;
    FindIs(b, s', p', i);
    assert p' in On(b, side).Keys;
    if p' == p {
      assert TP.At(b, side, p, 0, first) && TP.At(b, side, p, i, id);
      assert TP.Ahead(b, first, id);
      TP.RunPriority(symbol, ops, first, id);
    }
  }

  /** The levels shown of one side: distinct prices from the best on, each with its total, and no unlisted
      price better than a listed one. */
  ghost predicate Lists(ladder: Ladder, side: Side, levels: seq<L2Level>, depth: nat) {
    && |levels| == Min(depth, |ladder|)
    && (forall i :: 0 <= i < |levels| ==> levels[i].price in ladder && levels[i].quantity == Total(ladder[levels[i].price]))
    && (forall i, j :: 0 <= i < j < |levels| ==> Better(side, levels[i].price, levels[j].price))
    && (forall p, i :: p in ladder && 0 <= i < |levels| && (forall j :: 0 <= j < |levels| ==> levels[j].price != p) ==> Better(side, levels[i].price, p))
  }

  lemma SideListed(ladder: Ladder, side: Side, depth: nat)
    ensures Lists(ladder, side, LevelsOf(ladder, Take(Prices(ladder, side), depth)), depth)
  {
    var ps := Prices(ladder, side);
    var levels := LevelsOf(ladder, Take(ps, depth));
    RankedLists(side, ladder.Keys);
    assert forall k :: 0 <= k < |levels| ==> levels[k].price == ps[k];
    forall p, i | p in ladder && 0 <= i < |levels| && (forall j :: 0 <= j < |levels| ==> levels[j].price != p)
      ensures Better(side, levels[i].price, p)
    {
      assert p in ladder.Keys && p in ps;
      UnlistedIsWorse(side, ps, levels, p, i);
    }
  }

  lemma UnlistedIsWorse(side: Side, ps: seq<int>, levels: seq<L2Level>, p: int, i: nat)
    requires StrictlyRanked(side, ps) && p in ps && i < |levels| <= |ps|
    requires forall k :: 0 <= k < |levels| ==> levels[k].price == ps[k] && levels[k].price != p
    ensures Better(side, levels[i].price, p)
  {
    var k :| 0 <= k < |ps| && ps[k] == p;
    assert k >= |levels|;
  }

  /** An L2 view lists the best prices of each side, best first, as many as asked for or as there are. */
  lemma ViewListsBest(b: Book, depth: nat)
    ensures L2(b, depth).symbol == b.symbol
    ensures Lists(b.bids, Buy, L2(b, depth).bids, depth) && Lists(b.asks, Sell, L2(b, depth).asks, depth)
  {
    SideListed(b.bids, Buy, depth);
    SideListed(b.asks, Sell, depth);
  }
}
