/** How far a matching loop has got. */
module MatchProgress {
  import opened Reports
  import opened Exchanges

  /** A matching result with earlier reports put in front. */
  ghost function Before(done: seq<Report>, r: (Exchange, int, seq<Report>)): (Exchange, int, seq<Report>) {
    (r.0, r.1, done + r.2)
  }

  /** Matching `x` has produced the reports `done` and got as far as `y`. */
  ghost predicate Progress(x: Exchange, id: nat, wanted: int, ts: int, done: seq<Report>, y: Exchange, left: int) {
    Taking(x, id, wanted) && Taking(y, id, left) && Match(x, id, wanted, ts) == Before(done, Match(y, id, left, ts))
  }

  lemma MatchStarts(x: Exchange, id: nat, wanted: int, ts: int)
    requires Taking(x, id, wanted)
    ensures Progress(x, id, wanted, ts, [], x, wanted)
  {
    assert [] + Match(x, id, wanted, ts).2 == Match(x, id, wanted, ts).2;
  }

  lemma MatchStep(x: Exchange, id: nat, wanted: int, ts: int, done: seq<Report>, y: Exchange, left: int)
    requires Progress(x, id, wanted, ts, done, y, left) && CanTake(y, id, left)
    ensures var (y', left', two) := Take(y, id, left, ts);
      Progress(x, id, wanted, ts, done + two, y', left') && left' < left
  {
    TakeKeeps(y, id, left, ts);
    var (y', left', two) := Take(y, id, left, ts);
    assert done + (two + Match(y', id, left', ts).2) == done + two + Match(y', id, left', ts).2;
  }

  lemma MatchStops(x: Exchange, id: nat, wanted: int, ts: int, done: seq<Report>, y: Exchange, left: int)
    requires Progress(x, id, wanted, ts, done, y, left) && !CanTake(y, id, left)
    ensures Match(x, id, wanted, ts) == (y, left, done)
  {
    assert done + [] == done;
  }

  lemma ConcatAssociates<T>(a: seq<T>, b: seq<T>, c: seq<T>)
    ensures a + b + c == a + (b + c)
  {
  }
}
