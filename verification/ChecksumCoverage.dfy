/** What the checksums are taken over: the values folded in leave nothing of a book, an event or a report
    out, so that two that differ differ in what is folded in. */
module ChecksumCoverage {
  import opened Types
  import opened Ranking
  import opened Books
  import Events
  import Reports
  import S = SharedReplays
  import A = AggregateReplays

  lemma {:induction false} QueueLength(q: Queue)
    ensures |QueueValues(q)| == 6 * |q|
  {
    if q != [] {
      QueueLength(q[..|q| - 1]);
    }
  }

  /** Orders at one price of one side are told apart by their values. */
  lemma {:induction false} QueueCovered(q: Queue, q': Queue, side: Side, price: int)
    requires |q| == |q'| && QueueValues(q) == QueueValues(q')
    requires forall i :: 0 <= i < |q| ==> q[i].side == q'[i].side == side && q[i].price == q'[i].price == price
    ensures q == q'
    decreases |q|
  {
    if q != [] {
      var n := |q| - 1;
      QueueLength(q[..n]);
      QueueLength(q'[..n]);
      var head, head' := QueueValues(q[..n]), QueueValues(q'[..n]);
      assert QueueValues(q) == head + OrderValues(q[n]) && QueueValues(q') == head' + OrderValues(q'[n]);
      SamePrefix(head, OrderValues(q[n]), head', OrderValues(q'[n]));
      QueueCovered(q[..n], q'[..n], side, price);
      OrderCovered(q[n], q'[n]);
      assert q == q[..n] + [q[n]] && q' == q'[..n] + [q'[n]];
    }
  }

  lemma OrderCovered(o: Order, o': Order)
    requires OrderValues(o) == OrderValues(o') && o.side == o'.side && o.price == o'.price
    ensures o == o'
  {
    assert OrderValues(o)[0] == OrderValues(o')[0] && OrderValues(o)[1] == OrderValues(o')[1] && OrderValues(o)[2] == OrderValues(o')[2];
    assert OrderValues(o)[3] == OrderValues(o')[3] && OrderValues(o)[4] == OrderValues(o')[4] && OrderValues(o)[5] == OrderValues(o')[5];
  }

  lemma SamePrefix(a: seq<int>, b: seq<int>, a': seq<int>, b': seq<int>)
    requires a + b == a' + b' && |a| == |a'|
    ensures a == a' && b == b'
  {
    assert a == (a + b)[..|a|] && a' == (a' + b')[..|a'|];
    assert b == (a + b)[|a|..] && b' == (a' + b')[|a'|..];
  }

  lemma Joined(a: seq<int>, b: seq<int>, c: seq<int>)
    ensures (a + b) + c == a + (b + c)
  {
  }

  /** The values of levels, the first one in front. */
  lemma {:induction false} FirstLevel(ladder: Ladder, ps: seq<int>)
    requires ps != [] && forall i :: 0 <= i < |ps| ==> ps[i] in ladder
    ensures LadderValues(ladder, ps) == LevelValues(ps[0], ladder[ps[0]]) + LadderValues(ladder, ps[1..])
    decreases |ps|
  {
    var n := |ps| - 1;
    if n == 0 {
      assert ps[..0] == [] && ps[1..] == [];
    } else {
      FirstLevel(ladder, ps[..n]);
      assert ps[..n][1..] == ps[1..][..n - 1] && ps[1..][n - 1] == ps[n] && ps[..n][0] == ps[0];
      Joined(LevelValues(ps[0], ladder[ps[0]]), LadderValues(ladder, ps[1..n]), LevelValues(ps[n], ladder[ps[n]]));
    }
  }

  ghost predicate FitsSide(ladder: Ladder, side: Side) {
    forall p, i :: p in ladder && 0 <= i < |ladder[p]| ==> ladder[p][i].side == side && ladder[p][i].price == p
  }

  /** One level's values are told apart from whatever follows them. */
  lemma LevelCovered(p: int, q: Queue, rest: seq<int>, p': int, q': Queue, rest': seq<int>, side: Side)
    requires LevelValues(p, q) + rest == LevelValues(p', q') + rest'
    requires forall i :: 0 <= i < |q| ==> q[i].side == side && q[i].price == p
    requires forall i :: 0 <= i < |q'| ==> q'[i].side == side && q'[i].price == p'
    ensures p == p' && q == q' && rest == rest'
  {
    var all, all' := LevelValues(p, q) + rest, LevelValues(p', q') + rest';
    assert all[0] == p && all'[0] == p' && all[2] == |q| && all'[2] == |q'|;
    QueueLength(q);
    QueueLength(q');
    SamePrefix(LevelValues(p, q), rest, LevelValues(p', q'), rest');
    SamePrefix([p, Total(q), |q|], QueueValues(q), [p', Total(q'), |q'|], QueueValues(q'));
    QueueCovered(q, q', side, p);
  }

  /** As many levels, best first, are told apart from whatever follows them. */
  lemma {:induction false} LevelsCovered(ladder: Ladder, ps: seq<int>, rest: seq<int>, ladder': Ladder, ps': seq<int>, rest': seq<int>,
                                         side: Side)
    requires |ps| == |ps'| && FitsSide(ladder, side) && FitsSide(ladder', side)
    requires (forall i :: 0 <= i < |ps| ==> ps[i] in ladder) && (forall i :: 0 <= i < |ps'| ==> ps'[i] in ladder')
    requires LadderValues(ladder, ps) + rest == LadderValues(ladder', ps') + rest'
    ensures ps == ps' && rest == rest' && forall i :: 0 <= i < |ps| ==> ladder[ps[i]] == ladder'[ps[i]]
    decreases |ps|
  {
    if ps == [] {
      assert [] + rest == rest && [] + rest' == rest';
    } else {
      var level, level' := LevelValues(ps[0], ladder[ps[0]]), LevelValues(ps'[0], ladder'[ps'[0]]);
      var more, more' := LadderValues(ladder, ps[1..]), LadderValues(ladder', ps'[1..]);
      FirstLevel(ladder, ps);
      FirstLevel(ladder', ps');
      Joined(level, more, rest);
      Joined(level', more', rest');
      LevelCovered(ps[0], ladder[ps[0]], more + rest, ps'[0], ladder'[ps'[0]], more' + rest', side);
      LevelsCovered(ladder, ps[1..], rest, ladder', ps'[1..], rest', side);
      assert ps == [ps[0]] + ps[1..] && ps' == [ps'[0]] + ps'[1..];
    }
  }

  lemma SideCovered(ladder: Ladder, rest: seq<int>, ladder': Ladder, rest': seq<int>, side: Side)
    requires FitsSide(ladder, side) && FitsSide(ladder', side)
    requires SideValues(ladder, side) + rest == SideValues(ladder', side) + rest'
    ensures ladder == ladder' && rest == rest'
  {
    var ps, ps' := Prices(ladder, side), Prices(ladder', side);
    var all, all' := SideValues(ladder, side) + rest, SideValues(ladder', side) + rest';
    assert all[1] == |ladder| && all'[1] == |ladder'|;
    Joined([SideCode(side), |ladder|], LadderValues(ladder, ps), rest);
    Joined([SideCode(side), |ladder'|], LadderValues(ladder', ps'), rest');
    SamePrefix([SideCode(side), |ladder|], LadderValues(ladder, ps) + rest, [SideCode(side), |ladder'|], LadderValues(ladder', ps') + rest');
    LevelsCovered(ladder, ps, rest, ladder', ps', rest', side);
    LaddersSame(ladder, ladder', ps, side);
  }

  lemma LaddersSame(ladder: Ladder, ladder': Ladder, ps: seq<int>, side: Side)
    requires ps == Ranked(side, ladder.Keys) == Ranked(side, ladder'.Keys)
    requires forall i :: 0 <= i < |ps| ==> ps[i] in ladder && ps[i] in ladder' && ladder[ps[i]] == ladder'[ps[i]]
    ensures ladder == ladder'
  {
    RankedLists(side, ladder.Keys);
    RankedLists(side, ladder'.Keys);
    forall p ensures (p in ladder <==> p in ladder') && (p in ladder ==> ladder[p] == ladder'[p]) {
      assert p in ladder.Keys <==> p in ps;
      assert p in ladder'.Keys <==> p in ps;
    }
  }

  /** The book checksum covers the whole book: two well-formed books with the same values are the same. */
  lemma BookCovered(b: Book, b': Book)
    requires Sound(b) && Sound(b') && BookValues(b) == BookValues(b')
    ensures b == b'
  {
    SoundFits(b);
    SoundFits(b');
    var bids, asks, bids', asks' := SideValues(b.bids, Buy), SideValues(b.asks, Sell), SideValues(b'.bids, Buy), SideValues(b'.asks, Sell);
    Joined([b.symbol], bids, asks);
    Joined([b'.symbol], bids', asks');
    SamePrefix([b.symbol], bids + asks, [b'.symbol], bids' + asks');
    SideCovered(b.bids, asks, b'.bids, asks', Buy);
    assert asks + [] == asks && asks' + [] == asks';
    SideCovered(b.asks, [], b'.asks, [], Sell);
    assert [b.symbol][0] == [b'.symbol][0];
  }

  lemma SoundFits(b: Book)
    requires Sound(b)
    ensures FitsSide(b.bids, Buy) && FitsSide(b.asks, Sell)
  {
    forall p, i | p in b.bids && 0 <= i < |b.bids[p]| ensures b.bids[p][i].side == Buy && b.bids[p][i].price == p {
      assert In(b, Buy, p, i) && Fits(Get(b, Buy, p, i), b.symbol, Buy, p);
    }
    forall p, i | p in b.asks && 0 <= i < |b.asks[p]| ensures b.asks[p][i].side == Sell && b.asks[p][i].price == p {
      assert In(b, Sell, p, i) && Fits(Get(b, Sell, p, i), b.symbol, Sell, p);
    }
  }

  /** The event log's checksum covers every field of an event. */
  lemma EventCovered(e: Events.Event, e': Events.Event)
    requires Events.EventValues(e) == Events.EventValues(e')
    ensures e == e'
  {
    var v, v' := Events.EventValues(e), Events.EventValues(e');
    assert forall i :: 0 <= i < 10 ==> v[i] == v'[i];
    assert v[0] == e.timestamp && v[1] == e.sequence && v[2] == e.symbolId && v[5] == e.price && v[6] == e.quantity;
    assert v[3] == Events.KindCode(e.kind) && v[4] == SideCode(e.side) && v[7] == e.orderId && v[8] == e.tradeId && v[9] == e.flags;
    assert v'[3] == Events.KindCode(e'.kind) && v'[4] == SideCode(e'.side);
  }

  /** The report checksum covers every field of a report. */
  lemma ReportCovered(r: Reports.Report, r': Reports.Report)
    requires Reports.ReportValues(r) == Reports.ReportValues(r')
    ensures r == r'
  {
    var v, v' := Reports.ReportValues(r), Reports.ReportValues(r');
    assert forall i :: 0 <= i < 14 ==> v[i] == v'[i];
    CodesDiffer(r, r');
  }

  lemma CodesDiffer(r: Reports.Report, r': Reports.Report)
    ensures SideCode(r.side) == SideCode(r'.side) ==> r.side == r'.side
    ensures Reports.StatusCode(r.status) == Reports.StatusCode(r'.status) ==> r.status == r'.status
    ensures Reports.ExecCode(r.execType) == Reports.ExecCode(r'.execType) ==> r.execType == r'.execType
    ensures Reports.ReasonCode(r.reason) == Reports.ReasonCode(r'.reason) ==> r.reason == r'.reason
  {
  }

  /** The aggregate checksum covers every figure of a symbol's summary. */
  lemma SummaryCovered(h: Events.Hash, s: S.Summary, s': S.Summary)
    requires A.SummaryValues(h, s) == A.SummaryValues(h, s')
    ensures s'.(diagnostics := s.diagnostics, error := s.error) == s
  {
    var v, v' := A.SummaryValues(h, s), A.SummaryValues(h, s');
    assert forall i :: 0 <= i < 14 ==> v[i] == v'[i];
    assert v[0] == s.symbolId && v[1] == s.eventCount && v[2] == s.firstSequence && v[3] == s.lastSequence && v[4] == s.firstTimestamp;
    assert v[5] == s.lastTimestamp && v[6] == (if s.valid then 1 else 0) && v[7] == s.logChecksum && v[8] == s.bookChecksum;
    assert v[9] == s.executionChecksum && v[10] == s.diagnosticsChecksum && v[11] == s.diagnosticCount && v[12] == s.errorCount && v[13] == s.warningCount;
  }

  /** The combined checksum covers every symbol and its book checksum. */
  lemma {:induction false} CombinedCovered(ss: seq<S.Summary>, ss': seq<S.Summary>)
    requires |ss| == |ss'| && A.SummaryBookValues(ss) == A.SummaryBookValues(ss')
    ensures forall i :: 0 <= i < |ss| ==> ss[i].symbolId == ss'[i].symbolId && ss[i].bookChecksum == ss'[i].bookChecksum
    decreases |ss|
  {
    if ss != [] {
      var n := |ss| - 1;
      var last, last' := [ss[n].symbolId, ss[n].bookChecksum], [ss'[n].symbolId, ss'[n].bookChecksum];
      BookValuesLength(ss[..n]);
      BookValuesLength(ss'[..n]);
      SamePrefix(A.SummaryBookValues(ss[..n]), last, A.SummaryBookValues(ss'[..n]), last');
      assert last[0] == last'[0] && last[1] == last'[1];
      CombinedCovered(ss[..n], ss'[..n]);
    }
  }

  lemma {:induction false} BookValuesLength(ss: seq<S.Summary>)
    ensures |A.SummaryBookValues(ss)| == 2 * |ss|
  {
    if ss != [] {
      BookValuesLength(ss[..|ss| - 1]);
    }
  }
}
