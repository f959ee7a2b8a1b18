/** The order in which each side of a book ranks its prices: bids from high to low,
    asks from low to high. */
module Ranking {
  import opened Types

  /** Price `p` comes strictly before price `q` on this side. */
  predicate Better(side: Side, p: int, q: int) {
    if side == Buy then p > q else p < q
  }

  predicate BestIn(side: Side, prices: set<int>, p: int) {
    p in prices && forall q :: q in prices && q != p ==> Better(side, p, q)
  }

  lemma {:induction false} BestExists(side: Side, prices: set<int>)
    requires prices != {}
    ensures exists p :: BestIn(side, prices, p)
    decreases |prices|
  {
    var p := Pick(prices);
    var rest := prices - {p};
    var best := p;
    if rest != {} {
      BestExists(side, rest);
      var q :| BestIn(side, rest, q);
      best := if Better(side, p, q) then p else q;
    }
    forall q | q in prices && q != best ensures Better(side, best, q) {
      assert q == p || q in rest;
    }
    assert BestIn(side, prices, best);
  }

  function Best(side: Side, prices: set<int>): (p: int)
    requires prices != {}
    ensures BestIn(side, prices, p)
  {
    BestExists(side, prices);
    var p :| BestIn(side, prices, p);
    p
  }

  /** All prices of one side, best first: the iteration order of an ordered map in C++. */
  function Ranked(side: Side, prices: set<int>): (ps: seq<int>)
    ensures |ps| == |prices|
    decreases |prices|
  {
    if prices == {} then [] else
    var p := Best(side, prices);
    [p] + Ranked(side, prices - {p})
  }

  predicate StrictlyRanked(side: Side, ps: seq<int>) {
    forall i, j :: 0 <= i < j < |ps| ==> Better(side, ps[i], ps[j])
  }

  predicate Lists(ps: seq<int>, prices: set<int>) {
    && (forall i :: 0 <= i < |ps| ==> ps[i] in prices)
    && (forall p :: p in prices ==> p in ps)
  }

  /** The best price in front of the others, ranked, ranks them all. */
  lemma BestGoesFirst(side: Side, prices: set<int>, p: int, rest: seq<int>)
    requires BestIn(side, prices, p) && Lists(rest, prices - {p}) && StrictlyRanked(side, rest)
    ensures Lists([p] + rest, prices) && StrictlyRanked(side, [p] + rest)
  {
    var ps := [p] + rest;
    forall q | q in prices ensures q in ps {
      if q == p {
        assert ps[0] == q;
      } else {
        assert q in rest;
      }
    }
  }

  lemma {:induction false} RankedLists(side: Side, prices: set<int>)
    ensures Lists(Ranked(side, prices), prices)
    ensures StrictlyRanked(side, Ranked(side, prices))
    decreases |prices|
  {
    if prices != {} {
      var p := Best(side, prices);
      RankedLists(side, prices - {p});
      BestGoesFirst(side, prices, p, Ranked(side, prices - {p}));
    }
  }

  lemma FirstIsBest(side: Side, prices: set<int>, ps: seq<int>)
    requires StrictlyRanked(side, ps) && Lists(ps, prices) && ps != []
    ensures BestIn(side, prices, ps[0])
    ensures StrictlyRanked(side, ps[1..]) && Lists(ps[1..], prices - {ps[0]})
  {
    forall q | q in prices && q != ps[0] ensures q in ps[1..] && Better(side, ps[0], q) {
      var j :| 0 <= j < |ps| && ps[j] == q;
      assert ps[1..][j - 1] == q;
    }
    forall j | 0 <= j < |ps[1..]| ensures ps[1..][j] in prices - {ps[0]} {
      assert ps[1..][j] == ps[j + 1] && Better(side, ps[0], ps[j + 1]);
    }
  }

  /** A strictly ranked listing of a price set is the only one. */
  lemma {:induction false} RankedIsUnique(side: Side, prices: set<int>, ps: seq<int>)
    requires StrictlyRanked(side, ps) && Lists(ps, prices)
    ensures ps == Ranked(side, prices)
    decreases |ps|
  {
    if ps == [] {
      assert forall p :: p !in prices;
      assert prices == {};
    } else {
      FirstIsBest(side, prices, ps);
      RankedIsUnique(side, prices - {ps[0]}, ps[1..]);
    }
  }
}
