/** Two-thread replay under either policy: what is delivered is the stream with some events left out, in
    its order, events are left out only when the queue is full, and the reported depth is the depth. */
module SpscDrops {
  import opened Types
  import opened Events
  import opened Replays
  import opened SpscPipelines

  /** These places of a sequence, one after the other, hold that sequence. */
  predicate Picks<T(==)>(sub: seq<T>, all: seq<T>, places: seq<nat>) {
    && |places| == |sub|
    && (forall k :: 0 <= k < |places| ==> places[k] < |all| && sub[k] == all[places[k]])
    && forall j, k :: 0 <= j < k < |places| ==> places[j] < places[k]
  }

  /** One sequence is another with some elements left out. */
  ghost predicate Subsequence<T>(sub: seq<T>, all: seq<T>) {
    exists places :: Picks(sub, all, places)
  }

  /** How far into the stream the producer is. */
  function Reached(u: Setup, p: Producer): nat {
    if p == Quit then |u.events| + 1 else Dealt(u, p)
  }

  /** What was published so far is the stream so far with the dropped events left out. */
  ghost predicate InOrder(u: Setup, s: State) {
    exists places :: Published(u, s, places)
  }

  predicate Published(u: Setup, s: State, places: seq<nat>) {
    Picks(s.pushed, Items(u), places) && forall k :: 0 <= k < |places| ==> places[k] < Reached(u, s.p)
  }

  lemma ReachesFurther(u: Setup, s: State)
    requires Bounds(u, s) && CursorOk(u, s.p)
    ensures Reached(u, ProducerStep(u, s).p) >= Reached(u, s.p)
    ensures s.p.PublishTail? ==> Reached(u, s.p) == s.p.i <= |u.events| && Reached(u, ProducerStep(u, s).p) == s.p.i + 1
    ensures ProducerStep(u, s).pushed == if s.p.PublishTail? then s.pushed + [ItemAt(u, s.p.i)] else s.pushed
  {
  }

  lemma OneMorePlace(u: Setup, pushed: seq<Item>, places: seq<nat>, i: nat)
    requires Picks(pushed, Items(u), places) && i <= |u.events| && forall k :: 0 <= k < |places| ==> places[k] < i
    ensures Picks(pushed + [ItemAt(u, i)], Items(u), places + [i])
  {
  }

  lemma ProducerInOrder(u: Setup, s: State)
    requires Inv(u, s) && InOrder(u, s)
    ensures InOrder(u, ProducerStep(u, s))
  {
    var places :| Published(u, s, places);
    var s' := ProducerStep(u, s);
    ReachesFurther(u, s);
    if s.p.PublishTail? {
      OneMorePlace(u, s.pushed, places, s.p.i);
      assert Published(u, s', places + [s.p.i]);
    } else {
      assert Published(u, s', places);
    }
  }

  lemma ConsumerInOrder(u: Setup, s: State)
    requires Bounds(u, s) && InOrder(u, s)
    ensures InOrder(u, ConsumerStep(u, s))
  {
    var places :| Published(u, s, places);
    assert Published(u, ConsumerStep(u, s), places);
  }

  lemma {:induction false} AfterInOrder(u: Setup, s: State, schedule: seq<bool>)
    requires Inv(u, s) && InOrder(u, s)
    ensures InOrder(u, After(u, s, schedule))
    decreases |schedule|
  {
    if schedule != [] {
      if schedule[0] {
        ProducerInOrder(u, s);
      } else {
        ConsumerInOrder(u, s);
      }
      AfterInOrder(u, Advance(u, s, schedule[0]), schedule[1..]);
    }
  }

  /** In every interleaving the published items are the stream's items, in its order, with some left out. */
  lemma PublishedInOrder(u: Setup, schedule: seq<bool>)
    ensures InOrder(u, Run(u, schedule)) && Subsequence(Run(u, schedule).pushed, Items(u))
  {
    InitialInv(u);
    assert Published(u, Initial(u), []);
    AfterInOrder(u, Initial(u), schedule);
    var places :| Published(u, Run(u, schedule), places);
    assert Picks(Run(u, schedule).pushed, Items(u), places);
  }

  lemma {:induction false} CarriedEvents(items: seq<Item>)
    requires forall k :: 0 <= k < |items| ==> items[k].Carry?
    ensures |EventsIn(items)| == |items| && forall k :: 0 <= k < |items| ==> EventsIn(items)[k] == items[k].event
    decreases |items|
  {
    if items != [] {
      CarriedEvents(items[..|items| - 1]);
    }
  }

  /** The events among the first items of what was published, in order. */
  lemma TakenEvents(u: Setup, s: State, n: nat)
    requires InOrder(u, s) && n <= |s.pushed| && forall k :: 0 <= k < n ==> s.pushed[k].Carry?
    ensures Subsequence(EventsIn(s.pushed[..n]), u.events)
  {
    var places :| Published(u, s, places);
    CarriedEvents(s.pushed[..n]);
    forall k | 0 <= k < n ensures places[k] < |u.events| && EventsIn(s.pushed[..n])[k] == u.events[places[k]] {
      assert s.pushed[k] == Items(u)[places[k]];
    }
    assert Picks(EventsIn(s.pushed[..n]), u.events, places[..n]);
  }

  /** The outcome is single-thread replay's on these events of the stream. */
  ghost predicate ReplayedOn(u: Setup, s: State, taken: seq<Event>) {
    && Subsequence(taken, u.events) && |taken| == s.consumed
    && Outcome(u, s) == Finalized(Fed(Begin(u), taken, u.config, u.h), u.config, u.h)
  }

  /** Whatever the policy, every interleaving that finishes reports what single-thread replay reports on the
      stream with some events left out: those that were dropped, and those behind a halt. */
  lemma FinishedOnTaken(u: Setup, schedule: seq<bool>)
    requires AllDone(Run(u, schedule))
    ensures exists taken :: ReplayedOn(u, Run(u, schedule), taken)
  {
    var s := Run(u, schedule);
    PublishedInOrder(u, schedule);
    TakenOf(u, s);
    assert ReplayedOn(u, s, EventsIn(s.popped));
  }

  /** The items taken are events, and the end marker behind them if it was seen. */
  lemma TakenOf(u: Setup, s: State)
    requires RingOk(u, s) && EndOk(u, s) && ConsumerOk(u, s) && InOrder(u, s) && s.c == Done
    ensures Subsequence(EventsIn(s.popped), u.events)
  {
    var n := if s.eosSeen then |s.popped| - 1 else |s.popped|;
    assert Handled(s) == s.popped;
    forall k | 0 <= k < n ensures s.pushed[k].Carry? {
      assert s.pushed[k] == s.popped[k];
      if s.eosSeen { assert s.pushed[n] == s.popped[n] == EndOfStream; }
    }
    TakenEvents(u, s, n);
    if s.eosSeen {
      assert s.popped == s.pushed[..n] + [EndOfStream];
      EventsAppend(s.pushed[..n], EndOfStream);
      assert EventsIn(s.popped) == EventsIn(s.pushed[..n]) + [] == EventsIn(s.pushed[..n]);
    } else {
      assert s.popped == s.pushed[..n];
    }
  }

  /** An event is dropped only under the drop policy, and only when the queue holds all it can. */
  lemma DropsOnlyWhenFull(u: Setup, s: State)
    requires RingOk(u, s)
    ensures var s' := ProducerStep(u, s);
      s'.dropped != s.dropped ==> s'.dropped == s.dropped + 1 && u.policy == DropNewest && |s.pushed| == |s.popped| + u.capacity
  {
    FullAndEmpty(u, s);
  }

  /** The reported depth is the largest number of waiting items the producer has found after publishing. */
  lemma DepthIsMeasured(u: Setup, s: State)
    requires RingOk(u, s)
    ensures ProducerStep(u, s).maxDepth == if s.p.MeasureDepth? then Max(s.maxDepth, |s.pushed| - |s.popped|) else s.maxDepth
  {
    FullAndEmpty(u, s);
  }

  /** Only the producer counts drops, backpressure and depth. */
  lemma ConsumerCountsNothing(u: Setup, s: State)
    requires Bounds(u, s)
    ensures var s' := ConsumerStep(u, s); s'.dropped == s.dropped && s'.backpressure == s.backpressure && s'.maxDepth == s.maxDepth
  {
  }
}
