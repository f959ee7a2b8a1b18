/** The prices at which matching trades: they never improve as it goes on, never pass the limit,
    and the quantity traded is all the executable quantity there is, up to what is wanted. */
module PriceLaws {
  import opened Types
  import opened Ranking
  import opened Reports
  import opened Exchanges
  import opened MatchingLaws

  predicate NoBetter(side: Side, p: int, q: int) {
    p == q || Better(side, p, q)
  }

  /** Offers listed from the best price of their side to the worst. */
  predicate PriceOrdered(os: seq<Offer>, side: Side) {
    forall i, j :: 0 <= i < j < |os| ==> NoBetter(side, os[i].price, os[j].price)
  }

  lemma {:induction false} OffersOrdered(states: States, ladder: IdLadder, side: Side, ps: seq<int>)
    requires StrictlyRanked(side, ps)
    ensures PriceOrdered(OffersFrom(states, ladder, ps), side)
    ensures forall i :: 0 <= i < |OffersFrom(states, ladder, ps)| ==> OffersFrom(states, ladder, ps)[i].price in ps
  {
    if ps != [] {
      OffersOrdered(states, ladder, side, ps[1..]);
      var front, tail := QueueOffers(states, QueueAt(ladder, ps[0]), ps[0]), OffersFrom(states, ladder, ps[1..]);
      var os := OffersFrom(states, ladder, ps);
      assert os == front + tail;
      forall i | 0 <= i < |os|
        ensures if i < |front| then os[i].price == ps[0] else os[i] == tail[i - |front|] && os[i].price in ps[1..]
      {
      }
      forall j | 0 <= j < |tail| ensures Better(side, ps[0], tail[j].price) {
        var k :| 0 <= k < |ps[1..]| && ps[1..][k] == tail[j].price;
        assert ps[k + 1] == tail[j].price;
      }
    }
  }

  lemma OffersInOrder(x: Exchange, side: Side)
    ensures PriceOrdered(Offers(x, side), side)
  {
    RankedLists(side, On(x, side).Keys);
    OffersOrdered(x.states, On(x, side), side, Ranked(side, On(x, side).Keys));
  }

  /** All the quantity on offer at prices the order accepts, wherever it stands. */
  function Executables(os: seq<Offer>, side: Side, orderType: OrderType, limit: int): int {
    if os == [] then 0
    else (if Acceptable(os[0], side, orderType, limit) then os[0].quantity else 0) + Executables(os[1..], side, orderType, limit)
  }

  /** Because offers come best price first, stopping at the first unacceptable one loses nothing. */
  lemma {:induction false} DepthIsExecutable(os: seq<Offer>, side: Side, orderType: OrderType, limit: int)
    requires ValidSide(side) && PriceOrdered(os, Opposite(side))
    ensures Depth(os, side, orderType, limit) == Executables(os, side, orderType, limit)
  {
    if os != [] {
      if Acceptable(os[0], side, orderType, limit) {
        DepthIsExecutable(os[1..], side, orderType, limit);
      } else {
        forall i | 0 <= i < |os| ensures !Acceptable(os[i], side, orderType, limit) {
          assert i > 0 ==> NoBetter(Opposite(side), os[0].price, os[i].price);
        }
        NoneExecutable(os, side, orderType, limit);
      }
    }
  }

  lemma {:induction false} NoneExecutable(os: seq<Offer>, side: Side, orderType: OrderType, limit: int)
    requires forall i :: 0 <= i < |os| ==> !Acceptable(os[i], side, orderType, limit)
    ensures Executables(os, side, orderType, limit) == 0
  {
    if os != [] {
      NoneExecutable(os[1..], side, orderType, limit);
    }
  }

  /** Quantities and prices of a whole match: the fill is the smaller of the quantity wanted and the
      executable quantity, prices only get worse from trade to trade, and none passes the limit. */
  lemma MatchPrices(x: Exchange, id: nat, wanted: int, ts: int)
    requires Taking(x, id, wanted)
    ensures var (x', left, reports) := Match(x, id, wanted, ts); var st := x.states[id]; var opp := Opposite(st.side);
      && wanted - left == Min(wanted, Executables(Offers(x, opp), st.side, st.orderType, st.limit))
      && |reports| % 2 == 0
      && (forall i :: 0 <= i < |reports| ==> Executable(st.side, st.orderType, st.limit, reports[i].lastPrice))
      && (forall i, j :: 0 <= i < j < |reports| ==> NoBetter(opp, reports[i].lastPrice, reports[j].lastPrice))
  {
    var (x', left, reports) := Match(x, id, wanted, ts);
    var st := x.states[id];
    var os := Offers(x, Opposite(st.side));
    var fills := Fills(os, st.side, st.orderType, st.limit, wanted);
    MatchFollowsPriority(x, id, wanted, ts);
    OffersPositive(x, Opposite(st.side));
    FillsAreShortestPrefix(os, st.side, st.orderType, st.limit, wanted);
    OffersInOrder(x, Opposite(st.side));
    DepthIsExecutable(os, st.side, st.orderType, st.limit);
    PairsPriced(reports, fills, os, id, Opposite(st.side));
  }

  lemma PairsPriced(reports: seq<Report>, fills: seq<Taken>, os: seq<Offer>, id: nat, side: Side)
    requires TradesMatch(reports, fills, id) && PriceOrdered(os, side)
    requires |fills| <= |os| && forall i :: 0 <= i < |fills| ==> fills[i].price == os[i].price
    ensures |reports| % 2 == 0 && forall i :: 0 <= i < |reports| ==> reports[i].lastPrice == fills[i / 2].price
    ensures forall i, j :: 0 <= i < j < |reports| ==> NoBetter(side, reports[i].lastPrice, reports[j].lastPrice)
  {
    forall i | 0 <= i < |reports| ensures reports[i].lastPrice == fills[i / 2].price == os[i / 2].price {
      assert TradeOf(reports[2 * (i / 2)], fills[i / 2], fills[i / 2].id) && TradeOf(reports[2 * (i / 2) + 1],
                     fills[i / 2], id);
    }
    forall i, j | 0 <= i < j < |reports| ensures NoBetter(side, reports[i].lastPrice, reports[j].lastPrice) {
      assert i / 2 <= j / 2;
    }
  }
}
