/** The per-client message-rate limiters: what each lets through in any interval of the window's length. */
module RateLimits {
  import opened Types

  datatype RateMode = FixedWindow | SlidingWindow
  datatype RateState = RateState(windowStart: int, count: nat, active: bool, recent: seq<int>)

  const NEW_STATE := RateState(0, 0, false, [])

  // ----- one message

  /** Drops from the front what has left the window. */
  function Expire(recent: seq<int>, now: int, window: int): seq<int> {
    if recent != [] && now - recent[0] >= window then Expire(recent[1..], now, window) else recent
  }

  function SlidingNext(st: RateState, now: int, window: int): RateState {
    st.(recent := Expire(st.recent, now, window) + [now])
  }

  function FixedNext(st: RateState, now: int, window: int): RateState {
    if !st.active || now - st.windowStart >= window then st.(windowStart := now, count := 1, active := true)
    else st.(count := st.count + 1)
  }

  function NextState(mode: RateMode, st: RateState, now: int, window: int): RateState {
    if mode == SlidingWindow then SlidingNext(st, now, window) else FixedNext(st, now, window)
  }

  /** The number the limiter compares with its maximum; a refused message counts like any other. */
  function Observed(mode: RateMode, st: RateState): nat {
    if mode == SlidingWindow then |st.recent| else st.count
  }

  // ----- all messages of one client

  function After(mode: RateMode, times: seq<int>, window: int): RateState {
    if times == [] then NEW_STATE else NextState(mode, After(mode, times[..|times| - 1], window), times[|times| - 1], window)
  }

  /** Whether the last of these messages is let through. */
  predicate LastAllowed(mode: RateMode, times: seq<int>, window: int, max: nat) {
    Observed(mode, After(mode, times, window)) <= max
  }

  lemma AfterMore(mode: RateMode, times: seq<int>, now: int, window: int)
    ensures After(mode, times + [now], window) == NextState(mode, After(mode, times, window), now, window)
  {
    assert (times + [now])[..|times|] == times;
  }

  predicate NonDecreasing(times: seq<int>) {
    forall i, j :: 0 <= i <= j < |times| ==> times[i] <= times[j]
  }

  predicate Within(t: int, start: int, window: int) {
    start <= t < start + window
  }

  /** How many messages of the interval are let through. */
  function AllowedWithin(mode: RateMode, times: seq<int>, window: int, max: nat, start: int): nat {
    if times == [] then 0 else
    AllowedWithin(mode, times[..|times| - 1], window, max, start)
    + if Within(times[|times| - 1], start, window) && LastAllowed(mode, times, window, max) then 1 else 0
  }

  function SentWithin(times: seq<int>, window: int, start: int): nat {
    if times == [] then 0
    else SentWithin(times[..|times| - 1], window, start) + if Within(times[|times| - 1], start, window) then 1 else 0
  }

  // ----- the sliding window

  /** Expiry leaves a suffix; what it drops is out of the window. */
  predicate Expired(recent: seq<int>, kept: seq<int>, now: int, window: int) {
    && |kept| <= |recent| && kept == recent[|recent| - |kept|..]
    && forall i :: 0 <= i < |recent| - |kept| ==> now - recent[i] >= window
  }

  lemma {:induction false} ExpireIs(recent: seq<int>, now: int, window: int)
    ensures Expired(recent, Expire(recent, now, window), now, window)
    decreases |recent|
  {
    if recent != [] && now - recent[0] >= window {
      ExpireIs(recent[1..], now, window);
      var kept := Expire(recent, now, window);
      assert recent[1..][|recent| - 1 - |kept|..] == recent[|recent| - |kept|..];
      forall i | 0 < i < |recent| - |kept| ensures now - recent[i] >= window {
        assert recent[1..][i - 1] == recent[i];
      }
    }
  }

  /** The queue holds the last messages, and those before them are out of the window of the latest. */
  predicate LastOf(times: seq<int>, q: seq<int>, window: int) {
    && |q| <= |times| && q == times[|times| - |q|..] && (times != [] ==> q != [])
    && forall i :: 0 <= i < |times| - |q| ==> times[|times| - 1] - times[i] >= window
  }

  lemma {:induction false} RecentIs(times: seq<int>, window: int)
    requires NonDecreasing(times)
    ensures LastOf(times, After(SlidingWindow, times, window).recent, window)
    decreases |times|
  {
    if times != [] {
      var init, now := times[..|times| - 1], times[|times| - 1];
      RecentIs(init, window);
      var q := After(SlidingWindow, init, window).recent;
      ExpireIs(q, now, window);
      LastOfMore(times, q, Expire(q, now, window), window);
    }
  }

  lemma LastOfMore(times: seq<int>, q: seq<int>, kept: seq<int>, window: int)
    requires times != [] && NonDecreasing(times)
    requires LastOf(times[..|times| - 1], q, window) && Expired(q, kept, times[|times| - 1], window)
    ensures LastOf(times, kept + [times[|times| - 1]], window)
  {
    var init, now := times[..|times| - 1], times[|times| - 1];
    var gone, before := |init| - |kept|, |init| - |q|;
    forall i | 0 <= i < |kept| ensures kept[i] == times[gone + i] {
      assert kept[i] == q[|q| - |kept| + i] == init[gone + i];
    }
    forall i | 0 <= i < gone ensures now - times[i] >= window {
      if i < before {
        assert init[|init| - 1] - init[i] >= window && times[|times| - 2] <= now;
      } else {
        assert q[i - before] == times[i];
      }
    }
  }

  lemma {:induction false} AllowedAtMostSent(mode: RateMode, times: seq<int>, window: int, max: nat, start: int)
    ensures AllowedWithin(mode, times, window, max, start) <= SentWithin(times, window, start)
    decreases |times|
  {
    if times != [] {
      AllowedAtMostSent(mode, times[..|times| - 1], window, max, start);
    }
  }

  /** Only the messages from `gone` on can lie in the interval. */
  lemma {:induction false} SentAtMostSuffix(times: seq<int>, window: int, start: int, gone: nat)
    requires gone <= |times| && forall i :: 0 <= i < gone ==> !Within(times[i], start, window)
    ensures SentWithin(times, window, start) <= |times| - gone
    decreases |times|
  {
    if times != [] {
      if gone == |times| {
        SentAtMostSuffix(times[..|times| - 1], window, start, gone - 1);
      } else {
        SentAtMostSuffix(times[..|times| - 1], window, start, gone);
      }
    }
  }

  /** The sliding limiter lets through at most `max` messages in every interval of the window's length. */
  lemma {:induction false} SlidingBound(times: seq<int>, window: int, max: nat, start: int)
    requires NonDecreasing(times) && window > 0
    ensures AllowedWithin(SlidingWindow, times, window, max, start) <= max
    decreases |times|
  {
    if times != [] {
      var last := times[|times| - 1];
      if Within(last, start, window) && LastAllowed(SlidingWindow, times, window, max) {
        RecentIs(times, window);
        var gone := |times| - |After(SlidingWindow, times, window).recent|;
        AllowedAtMostSent(SlidingWindow, times, window, max, start);
        SentAtMostSuffix(times, window, start, gone);
      } else {
        SlidingBound(times[..|times| - 1], window, max, start);
      }
    }
  }

  /** Nothing the queue keeps has left the window. */
  lemma {:induction false} RecentFresh(times: seq<int>, window: int)
    requires NonDecreasing(times) && window > 0 && times != []
    ensures var q := After(SlidingWindow, times, window).recent; q != [] && times[|times| - 1] - q[0] < window
    decreases |times|
  {
    ExpireStops(After(SlidingWindow, times[..|times| - 1], window).recent, times[|times| - 1], window);
  }

  lemma {:induction false} ExpireStops(recent: seq<int>, now: int, window: int)
    ensures Expire(recent, now, window) != [] ==> now - Expire(recent, now, window)[0] < window
    decreases |recent|
  {
    if recent != [] && now - recent[0] >= window {
      ExpireStops(recent[1..], now, window);
    }
  }

  /** Exactly the messages from `gone` on lie in the interval. */
  lemma {:induction false} SentIsSuffix(times: seq<int>, window: int, start: int, gone: nat)
    requires gone <= |times| && forall i :: 0 <= i < |times| ==> (Within(times[i], start, window) <==> i >= gone)
    ensures SentWithin(times, window, start) == |times| - gone
    decreases |times|
  {
    if times != [] {
      var init := times[..|times| - 1];
      forall i | 0 <= i < |init| ensures Within(init[i], start, window) <==> i >= gone {
        assert init[i] == times[i];
      }
      if gone == |times| {
        SentIsSuffix(init, window, start, gone - 1);
      } else {
        SentIsSuffix(init, window, start, gone);
      }
    }
  }

  /** The sliding limiter refuses a message exactly when more than `max` messages, itself and refused ones
      included, were sent in the window that ends with it. */
  lemma SlidingExact(times: seq<int>, window: int, max: nat)
    requires NonDecreasing(times) && window > 0 && times != []
    ensures LastAllowed(SlidingWindow, times, window, max) <==> SentWithin(times, window, times[|times| - 1] - window + 1) <= max
  {
    var last, q := times[|times| - 1], After(SlidingWindow, times, window).recent;
    var gone := |times| - |q|;
    RecentIs(times, window);
    RecentFresh(times, window);
    forall i | 0 <= i < |times| ensures Within(times[i], last - window + 1, window) <==> i >= gone {
      if i >= gone {
        assert times[gone] == q[0] && times[gone] <= times[i] <= last;
      }
    }
    SentIsSuffix(times, window, last - window + 1, gone);
  }

  // ----- the fixed window

  /** The window counts messages that were sent no longer than its length ago. */
  lemma {:induction false} CountIsSent(times: seq<int>, window: int, start: int)
    requires NonDecreasing(times) && window > 0 && times != []
    requires times[|times| - 1] < start + window && start <= After(FixedWindow, times, window).windowStart
    ensures After(FixedWindow, times, window).count <= SentWithin(times, window, start)
    ensures After(FixedWindow, times, window).windowStart <= times[|times| - 1] && After(FixedWindow, times, window).active
    decreases |times|
  {
    var init := times[..|times| - 1];
    if init != [] {
      StartsBefore(init, window);
      assert init[|init| - 1] <= times[|times| - 1];
      if start <= After(FixedWindow, init, window).windowStart {
        CountIsSent(init, window, start);
      }
    }
  }

  lemma {:induction false} StartsBefore(times: seq<int>, window: int)
    requires NonDecreasing(times) && window > 0 && times != []
    ensures var st := After(FixedWindow, times, window); st.active && st.windowStart <= times[|times| - 1] < st.windowStart + window
    decreases |times|
  {
    if |times| > 1 {
      StartsBefore(times[..|times| - 1], window);
      assert times[|times| - 2] <= times[|times| - 1];
    }
  }

  /** A fixed window lets through whatever a sliding one does. */
  lemma FixedLetsMore(times: seq<int>, window: int, max: nat)
    requires NonDecreasing(times) && window > 0 && times != []
    requires LastAllowed(SlidingWindow, times, window, max)
    ensures LastAllowed(FixedWindow, times, window, max)
  {
    SlidingExact(times, window, max);
    StartsBefore(times, window);
    CountIsSent(times, window, times[|times| - 1] - window + 1);
  }

  /** What has been let through of an interval, by where the current window starts: before it, only
      the current window's messages after its first; inside it, those of the previous window too. */
  lemma {:induction false} FixedWithin(times: seq<int>, window: int, max: nat, start: int)
    requires NonDecreasing(times) && window > 0 && max > 0
    ensures var st := After(FixedWindow, times, window); var n := AllowedWithin(FixedWindow, times, window, max, start);
      && (times == [] ==> n == 0)
      && (times != [] ==> st.active && st.count >= 1 && st.windowStart <= times[|times| - 1] < st.windowStart + window)
      && (times != [] && times[|times| - 1] < start ==> n == 0)
      && (times != [] && st.windowStart < start ==> n <= Min(st.count, max) - 1)
      && (times != [] && start <= st.windowStart < start + window ==> n <= max - 1 + Min(st.count, max))
      && n <= 2 * max - 1
    decreases |times|
  {
    if times != [] {
      FixedWithin(times[..|times| - 1], window, max, start);
      assert times[..|times| - 1] != [] ==> times[|times| - 2] <= times[|times| - 1];
    }
  }

  /** The fixed-window limiter lets through fewer than twice `max` messages in every interval of the window's length. */
  lemma FixedBound(times: seq<int>, window: int, max: nat, start: int)
    requires NonDecreasing(times) && window > 0 && max > 0
    ensures AllowedWithin(FixedWindow, times, window, max, start) <= 2 * max - 1
  {
    FixedWithin(times, window, max, start);
  }

  /** That bound is met, so a fixed window does let through more than `max` in a window's length. */
  lemma FixedBoundIsMet()
    ensures AllowedWithin(FixedWindow, [0, 9, 10, 11], 10, 2, 9) == 3
  {
    var t := [0, 9, 10, 11];
    assert t[..3] == [0, 9, 10] && t[..3][..2] == [0, 9] && t[..3][..2][..1] == [0] && t[..3][..2][..1][..0] == [];
    assert After(FixedWindow, [], 10) == NEW_STATE;
    assert After(FixedWindow, [0], 10) == RateState(0, 1, true, []);
    assert After(FixedWindow, [0, 9], 10) == RateState(0, 2, true, []);
    assert After(FixedWindow, [0, 9, 10], 10) == RateState(10, 1, true, []);
    assert After(FixedWindow, t, 10) == RateState(10, 2, true, []);
    assert AllowedWithin(FixedWindow, [0], 10, 2, 9) == 0;
    assert AllowedWithin(FixedWindow, [0, 9], 10, 2, 9) == 1;
    assert AllowedWithin(FixedWindow, [0, 9, 10], 10, 2, 9) == 2;
  }

  method DropExpired(recent: seq<int>, now: int, window: int) returns (kept: seq<int>)
    ensures kept == Expire(recent, now, window)
  {
    kept := recent;
    while kept != [] && now - kept[0] >= window
      invariant Expire(kept, now, window) == Expire(recent, now, window)
    {
      kept := kept[1..];
    }
  }

  method CountMessage(mode: RateMode, st0: RateState, now: int, window: int) returns (st: RateState)
    ensures st == NextState(mode, st0, now, window)
  {
    st := st0;
    if mode == SlidingWindow {
      var recent := DropExpired(st.recent, now, window);
      st := st.(recent := recent + [now]);
    } else {
      if !st.active || now - st.windowStart >= window {
        st := st.(windowStart := now, count := 0, active := true);
      }
      st := st.(count := st.count + 1);
    }
  }

  class RateLimiter {
    const mode: RateMode
    const max: nat
    const window: int
    var states: map<nat, RateState>
    ghost var history: map<nat, seq<int>>

    /** Each client's state is what its own messages so far make it. */
    ghost predicate Valid()
      reads this
    {
      && states.Keys == history.Keys
      && forall client :: client in states ==> states[client] == After(mode, history[client], window)
    }

    ghost function Sent(client: nat): seq<int>
      reads this
    {
      if client in history then history[client] else []
    }

    constructor (mode: RateMode, max: nat, window: int)
      ensures Valid() && history == map[] && this.mode == mode && this.max == max && this.window == window
    {
      this.mode, this.max, this.window := mode, max, window;
      states, history := map[], map[];
    }

    /** Counts a message and says whether it is let through; with no maximum or no window, all are. */
    method Allows(client: nat, now: int) returns (allowed: bool, observed: nat)
      requires Valid()
      modifies this`states, this`history
      ensures Valid()
      ensures max == 0 || window <= 0 ==> allowed && observed == 0 && history == old(history)
      ensures max > 0 && window > 0 ==> history == old(history)[client := old(Sent(client)) + [now]]
      ensures max > 0 && window > 0 ==> observed == Observed(mode, After(mode, old(Sent(client)) + [now], window))
      ensures max > 0 && window > 0 ==> allowed == LastAllowed(mode, old(Sent(client)) + [now], window, max)
    {
      if max == 0 || window <= 0 {
        return true, 0;
      }
      var st := if client in states then states[client] else NEW_STATE;
      AfterMore(mode, Sent(client), now, window);
      history := history[client := Sent(client) + [now]];
      st := CountMessage(mode, st, now, window);
      states := states[client := st];
      observed := if mode == SlidingWindow then |st.recent| else st.count;
      allowed := observed <= max;
    }
  }
}
