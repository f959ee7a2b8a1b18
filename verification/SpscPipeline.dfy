/** Two-thread replay as a state machine: one producer and one consumer over a ring buffer, each step
    at most one load or store of a shared variable, interleaved in any order. Loads and stores are
    taken to be sequentially consistent. */
module SpscPipelines {
  import opened Types
  import opened Books
  import opened Events
  import opened Replays
  import opened ReplayEngines
  import opened SpscRings

  datatype Policy = Block | DropNewest
  datatype Setup = Setup(events: seq<Event>, symbol: nat, config: Config, h: Hash, capacity: nat, policy: Policy)

  datatype Item = Carry(event: Event) | EndOfStream

  // Index |events| stands for the end marker.
  datatype Producer =
    | CheckActive(i: nat) | LoadHead(i: nat, retry: bool) | WriteSlot(i: nat) | PublishTail(i: nat)
    | CountProduced(i: nat) | MeasureDepth(i: nat) | Recheck(i: nat) | Quit | Finished

  datatype Consumer = LoadTail | ReadSlot | PublishHead(item: Item) | Handle(item: Item) | SignalStop | Done

  // `pushed` and `popped` are histories: every item published and every item taken, in order.
  datatype State = State(slots: seq<Item>, head: nat, tail: nat, active: bool,
                         produced: nat, backpressure: nat, dropped: nat, maxDepth: nat, eosProduced: bool,
                         consumed: nat, eosSeen: bool, feed: Feed, p: Producer, c: Consumer,
                         pushed: seq<Item>, popped: seq<Item>)

  function Size(u: Setup): nat {
    u.capacity + 1
  }

  function Next(u: Setup, index: nat): nat {
    if index + 1 == Size(u) then 0 else index + 1
  }

  function ItemAt(u: Setup, i: nat): Item {
    if i < |u.events| then Carry(u.events[i]) else EndOfStream
  }

  function Items(u: Setup): seq<Item> {
    seq(|u.events| + 1, i requires 0 <= i <= |u.events| => ItemAt(u, i))
  }

  function Begin(u: Setup): Feed {
    Feed(Empty(u.symbol), START, Begun(ChecksumEvents(u.h, u.events)))
  }

  function Initial(u: Setup): State {
    State(seq(Size(u), _ => EndOfStream), 0, 0, true, 0, 0, 0, 0, false, 0, false, Begin(u), Turn(u, 0), LoadTail, [], [])
  }

  /** The start of the producer's next round; there is no check before the end marker. */
  function Turn(u: Setup, i: nat): Producer {
    if i < |u.events| then CheckActive(i) else LoadHead(i, false)
  }

  predicate Bounds(u: Setup, s: State) {
    |s.slots| == Size(u) && s.tail < Size(u) && s.head < Size(u)
  }

  // ----- one step of each thread

  function ProducerStep(u: Setup, s: State): State
    requires Bounds(u, s)
  {
    match s.p
    case CheckActive(i) => s.(p := if s.active then LoadHead(i, false) else Quit)
    case LoadHead(i, retry) =>
      if Next(u, s.tail) != s.head then s.(p := WriteSlot(i))
      else if i >= |u.events| || retry then s.(p := Recheck(i))
      else if u.policy == DropNewest then s.(backpressure := s.backpressure + 1, dropped := s.dropped + 1, p := Turn(u, i + 1))
      else s.(backpressure := s.backpressure + 1, p := Recheck(i))
    case WriteSlot(i) => s.(slots := s.slots[s.tail := ItemAt(u, i)], p := PublishTail(i))
    case PublishTail(i) => s.(tail := Next(u, s.tail), pushed := s.pushed + [ItemAt(u, i)], p := CountProduced(i))
    case CountProduced(i) =>
      if i < |u.events| then s.(produced := s.produced + 1, p := MeasureDepth(i)) else s.(eosProduced := true, p := MeasureDepth(i))
    case MeasureDepth(i) =>
      s.(maxDepth := Max(s.maxDepth, (s.tail + Size(u) - s.head) % Size(u)), p := if i < |u.events| then Turn(u, i + 1) else Finished)
    case Recheck(i) => s.(p := if s.active then LoadHead(i, true) else Quit)
    case Quit => s
    case Finished => s
  }

  ghost function ConsumerStep(u: Setup, s: State): State
    requires Bounds(u, s)
  {
    match s.c
    case LoadTail => if s.head == s.tail then s else s.(c := ReadSlot)
    case ReadSlot => s.(c := PublishHead(s.slots[s.head]))
    case PublishHead(item) => s.(head := Next(u, s.head), popped := s.popped + [item], c := Handle(item))
    case Handle(item) =>
      (match item
       case EndOfStream => s.(eosSeen := true, c := SignalStop)
       case Carry(e) =>
         var f := Step(s.feed, e, u.config, u.h);
         s.(consumed := s.consumed + 1, feed := f, c := if f.stream.halted then SignalStop else LoadTail))
    case SignalStop => s.(active := false, c := Done)
    case Done => s
  }

  // ----- what every reachable state satisfies

  /** Unread items sit in their slots, in order; the queue never holds more than its capacity. */
  ghost predicate RingOk(u: Setup, s: State) {
    Ring(Size(u), s.slots, s.head, s.tail, s.pushed, s.popped)
  }

  ghost predicate Ring(n: nat, slots: seq<Item>, head: nat, tail: nat, pushed: seq<Item>, popped: seq<Item>) {
    && n > 0 && |slots| == n && head == Slot(|popped|, n) && tail == Slot(|pushed|, n)
    && popped <= pushed && |pushed| < |popped| + n
    && forall k :: |popped| <= k < |pushed| ==> slots[Slot(k, n)] == pushed[k]
  }

  /** The free slot is not among the unread ones, however stale the producer's view of the head was. */
  lemma FreeSlot(n: nat, slots: seq<Item>, head: nat, tail: nat, pushed: seq<Item>, popped: seq<Item>)
    requires Ring(n, slots, head, tail, pushed, popped)
    ensures forall k :: |popped| <= k < |pushed| ==> Slot(k, n) != tail
  {
    forall k | |popped| <= k < |pushed| ensures Slot(k, n) != tail {
      SlotOffset(k, |pushed| - k, n);
    }
  }

  lemma WriteKeepsRing(n: nat, slots: seq<Item>, head: nat, tail: nat, pushed: seq<Item>, popped: seq<Item>, item: Item)
    requires Ring(n, slots, head, tail, pushed, popped)
    ensures Ring(n, slots[tail := item], head, tail, pushed, popped)
  {
    FreeSlot(n, slots, head, tail, pushed, popped);
  }

  lemma PublishKeepsRing(n: nat, slots: seq<Item>, head: nat, tail: nat, pushed: seq<Item>, popped: seq<Item>)
    requires Ring(n, slots, head, tail, pushed, popped) && |pushed| + 1 < |popped| + n
    ensures Ring(n, slots, head, if tail + 1 == n then 0 else tail + 1, pushed + [slots[tail]], popped)
  {
    var more := pushed + [slots[tail]];
    forall k | |popped| <= k < |more| ensures slots[Slot(k, n)] == more[k] {
      assert k < |pushed| ==> more[k] == pushed[k];
    }
  }

  lemma TakeKeepsRing(n: nat, slots: seq<Item>, head: nat, tail: nat, pushed: seq<Item>, popped: seq<Item>)
    requires Ring(n, slots, head, tail, pushed, popped) && |popped| < |pushed|
    ensures Ring(n, slots, if head + 1 == n then 0 else head + 1, tail, pushed, popped + [pushed[|popped|]])
  {
    assert popped + [pushed[|popped|]] == pushed[..|popped| + 1];
  }

  /** How many events the producer has dealt with, counting the end marker. */
  function Dealt(u: Setup, p: Producer): nat {
    match p
    case CheckActive(i) => i
    case LoadHead(i, _) => i
    case WriteSlot(i) => i
    case PublishTail(i) => i
    case CountProduced(i) => i + 1
    case MeasureDepth(i) => i + 1
    case Recheck(i) => i
    case Quit => 0
    case Finished => |u.events| + 1
  }

  predicate EndPublished(u: Setup, p: Producer) {
    match p
    case CountProduced(i) => i == |u.events|
    case MeasureDepth(i) => i == |u.events|
    case Finished => true
    case _ => false
  }

  function Uncounted(u: Setup, p: Producer): nat {
    if p.CountProduced? && p.i < |u.events| then 1 else 0
  }

  predicate CursorOk(u: Setup, p: Producer) {
    match p
    case CheckActive(i) => i < |u.events|
    case LoadHead(i, _) => i <= |u.events|
    case WriteSlot(i) => i <= |u.events|
    case PublishTail(i) => i <= |u.events|
    case CountProduced(i) => i <= |u.events|
    case MeasureDepth(i) => i <= |u.events|
    case Recheck(i) => i <= |u.events|
    case Quit => true
    case Finished => true
  }

  /** Every event the producer is done with was published or dropped. */
  predicate PositionOk(u: Setup, s: State) {
    && CursorOk(u, s.p)
    && (s.p != Quit ==> |s.pushed| + s.dropped == Dealt(u, s.p))
    && |s.pushed| + s.dropped <= |u.events| + 1
    && (s.p == Quit ==> !s.active)
  }

  /** Between finding room and publishing, the room stays: the consumer can only add to it. */
  predicate RoomOk(u: Setup, s: State) {
    && (s.p.WriteSlot? || s.p.PublishTail? ==> |s.pushed| < |s.popped| + u.capacity)
    && (s.p.PublishTail? ==> s.tail < |s.slots| && s.slots[s.tail] == ItemAt(u, s.p.i))
  }

  /** The end marker is published last, once, if at all. */
  predicate EndOk(u: Setup, s: State) {
    && (EndPublished(u, s.p) ==> |s.pushed| > 0)
    && forall k :: 0 <= k < |s.pushed| ==> (s.pushed[k] == EndOfStream <==> EndPublished(u, s.p) && k == |s.pushed| - 1)
  }

  predicate CountsOk(u: Setup, s: State) {
    && |s.pushed| == s.produced + Uncounted(u, s.p) + (if EndPublished(u, s.p) then 1 else 0)
    && s.eosProduced == (s.p == Finished || (s.p.MeasureDepth? && s.p.i == |u.events|))
    && s.maxDepth <= u.capacity
  }

  predicate ProducerOk(u: Setup, s: State) {
    PositionOk(u, s) && RoomOk(u, s) && EndOk(u, s) && CountsOk(u, s)
  }

  /** Without the drop policy, exactly the items of the stream, in order. */
  ghost predicate LosslessOk(u: Setup, s: State) {
    u.policy == Block ==> s.dropped == 0 && s.pushed <= Items(u)
  }

  function Handled(s: State): seq<Item> {
    if s.c.Handle? && s.popped != [] then s.popped[..|s.popped| - 1] else s.popped
  }

  /** The events carried by a sequence of items. */
  function EventsIn(items: seq<Item>): seq<Event> {
    if items == [] then [] else
    EventsIn(items[..|items| - 1]) + if items[|items| - 1].Carry? then [items[|items| - 1].event] else []
  }

  predicate Running(c: Consumer) {
    c != SignalStop && c != Done
  }

  ghost predicate ConsumerOk(u: Setup, s: State) {
    ConsumerOwn(u, s.c, Handled(s), s.feed, s.consumed, s.eosSeen, s.active) && ConsumerView(s.c, s.pushed, s.popped, s.eosSeen)
  }

  /** The consumer has replayed exactly the events it handled, and stops on the end marker or a halt. */
  ghost predicate ConsumerOwn(u: Setup, c: Consumer, handled: seq<Item>, feed: Feed, consumed: nat, eosSeen: bool,
                              active: bool) {
    && feed == Fed(Begin(u), EventsIn(handled), u.config, u.h)
    && consumed == |EventsIn(handled)|
    && (Running(c) ==> !eosSeen && !feed.stream.halted)
    && active == (c != Done)
    && (!Running(c) ==> eosSeen || feed.stream.halted)
    && (!eosSeen ==> forall k :: 0 <= k < |handled| ==> handled[k].Carry?)
  }

  predicate ConsumerView(c: Consumer, pushed: seq<Item>, popped: seq<Item>, eosSeen: bool) {
    && (c.ReadSlot? || c.PublishHead? ==> |popped| < |pushed|)
    && (c.PublishHead? && |popped| < |pushed| ==> c.item == pushed[|popped|])
    && (c.Handle? ==> popped != [] && c.item == popped[|popped| - 1])
    && (eosSeen ==> !c.Handle? && popped != [] && popped[|popped| - 1] == EndOfStream)
  }

  ghost predicate Inv(u: Setup, s: State) {
    RingOk(u, s) && ProducerOk(u, s) && LosslessOk(u, s) && ConsumerOk(u, s)
  }

  lemma InitialInv(u: Setup)
    ensures Inv(u, Initial(u))
  {
  }

  /** The ring looks full exactly when it holds `capacity` items, and empty exactly when it holds none. */
  lemma FullAndEmpty(u: Setup, s: State)
    requires RingOk(u, s)
    ensures Next(u, s.tail) == s.head <==> |s.pushed| == |s.popped| + u.capacity
    ensures s.head == s.tail <==> |s.pushed| == |s.popped|
    ensures (s.tail + Size(u) - s.head) % Size(u) == |s.pushed| - |s.popped|
  {
    var d := |s.pushed| - |s.popped|;
    assert |s.popped| + d == |s.pushed|;
    SlotOffset(|s.popped|, d, Size(u));
    SmallMod(s.tail + Size(u) - s.head, Size(u));
  }

  lemma ProducerKeepsRing(u: Setup, s: State)
    requires RingOk(u, s) && RoomOk(u, s)
    ensures RingOk(u, ProducerStep(u, s))
  {
    if s.p.WriteSlot? {
      WriteKeepsRing(Size(u), s.slots, s.head, s.tail, s.pushed, s.popped, ItemAt(u, s.p.i));
    } else if s.p.PublishTail? {
      PublishKeepsRing(Size(u), s.slots, s.head, s.tail, s.pushed, s.popped);
    }
  }

  lemma ProducerKeepsCursor(u: Setup, s: State)
    requires Bounds(u, s) && CursorOk(u, s.p)
    ensures CursorOk(u, ProducerStep(u, s).p)
  {
  }

  lemma ProducerKeepsPosition(u: Setup, s: State)
    requires Bounds(u, s) && PositionOk(u, s)
    ensures PositionOk(u, ProducerStep(u, s))
  {
    ProducerKeepsCursor(u, s);
    var s' := ProducerStep(u, s);
    if s.p.LoadHead? {
      assert s'.p == Quit || s'.p.WriteSlot? || s'.p.Recheck? || s'.p == Turn(u, s.p.i + 1);
    } else if s.p.PublishTail? {
      assert |s'.pushed| == |s.pushed| + 1 && s'.dropped == s.dropped && s'.p == CountProduced(s.p.i);
    } else {
      assert s'.pushed == s.pushed && s'.dropped == s.dropped;
    }
  }

  lemma ProducerKeepsRoom(u: Setup, s: State)
    requires RingOk(u, s) && RoomOk(u, s)
    ensures RoomOk(u, ProducerStep(u, s))
  {
    FullAndEmpty(u, s);
  }

  lemma ProducerKeepsEnd(u: Setup, s: State)
    requires Bounds(u, s) && PositionOk(u, s) && EndOk(u, s)
    ensures EndOk(u, ProducerStep(u, s))
  {
    if s.p.PublishTail? {
      assert (s.pushed + [ItemAt(u, s.p.i)])[..|s.pushed|] == s.pushed;
    }
  }

  lemma ProducerKeepsCounts(u: Setup, s: State)
    requires RingOk(u, s) && PositionOk(u, s) && CountsOk(u, s)
    ensures CountsOk(u, ProducerStep(u, s))
  {
    FullAndEmpty(u, s);
  }

  lemma ProducerKeepsLossless(u: Setup, s: State)
    requires Bounds(u, s) && PositionOk(u, s) && LosslessOk(u, s)
    ensures LosslessOk(u, ProducerStep(u, s))
  {
    if u.policy == Block && s.p.PublishTail? {
      assert |s.pushed| == s.p.i && Items(u)[s.p.i] == ItemAt(u, s.p.i);
    }
  }

  lemma ProducerKeepsConsumer(u: Setup, s: State)
    requires RingOk(u, s) && ConsumerOk(u, s)
    ensures ConsumerOk(u, ProducerStep(u, s))
  {
    ProducerLeaves(u, s);
    var s' := ProducerStep(u, s);
    assert Handled(s') == Handled(s);
    ViewGrows(s.c, s.pushed, s'.pushed, s.popped, s.eosSeen);
  }

  /** What a producer step does not touch. */
  lemma ProducerLeaves(u: Setup, s: State)
    requires Bounds(u, s)
    ensures var s' := ProducerStep(u, s);
      && s'.c == s.c && s'.popped == s.popped && s'.feed == s.feed && s'.consumed == s.consumed
      && s'.eosSeen == s.eosSeen && s'.active == s.active && s.pushed <= s'.pushed
  {
    if !s.p.PublishTail? {
      assert ProducerStep(u, s).pushed == s.pushed;
    }
  }

  lemma ViewGrows(c: Consumer, pushed: seq<Item>, pushed': seq<Item>, popped: seq<Item>, eosSeen: bool)
    requires ConsumerView(c, pushed, popped, eosSeen) && pushed <= pushed'
    ensures ConsumerView(c, pushed', popped, eosSeen)
  {
  }

  lemma ProducerKeepsInv(u: Setup, s: State)
    requires Inv(u, s)
    ensures Inv(u, ProducerStep(u, s))
  {
    ProducerKeepsRing(u, s);
    ProducerKeepsPosition(u, s);
    ProducerKeepsRoom(u, s);
    ProducerKeepsEnd(u, s);
    ProducerKeepsCounts(u, s);
    ProducerKeepsLossless(u, s);
    ProducerKeepsConsumer(u, s);
  }

  // ----- the consumer's steps

  lemma EventsAppend(items: seq<Item>, item: Item)
    ensures EventsIn(items + [item]) == EventsIn(items) + if item.Carry? then [item.event] else []
  {
    assert (items + [item])[..|items|] == items;
  }

  lemma ConsumerKeepsRing(u: Setup, s: State)
    requires RingOk(u, s) && ConsumerView(s.c, s.pushed, s.popped, s.eosSeen)
    ensures RingOk(u, ConsumerStep(u, s))
  {
    if s.c.PublishHead? {
      TakeKeepsRing(Size(u), s.slots, s.head, s.tail, s.pushed, s.popped);
    }
  }

  lemma ConsumerKeepsView(u: Setup, s: State)
    requires RingOk(u, s) && ConsumerView(s.c, s.pushed, s.popped, s.eosSeen)
    requires Running(s.c) ==> !s.eosSeen
    ensures var s' := ConsumerStep(u, s); ConsumerView(s'.c, s'.pushed, s'.popped, s'.eosSeen)
  {
    FullAndEmpty(u, s);
  }

  /** Handling an item replays its event, if it carries one. */
  lemma HandleKeepsOwn(u: Setup, s: State)
    requires Bounds(u, s) && ConsumerOk(u, s) && s.c.Handle?
    ensures var s' := ConsumerStep(u, s); ConsumerOwn(u, s'.c, Handled(s'), s'.feed, s'.consumed, s'.eosSeen, s'.active)
  {
    var before, s' := Handled(s), ConsumerStep(u, s);
    assert s.popped == before + [s.c.item];
    assert Handled(s') == s.popped;
    match s.c.item
    case EndOfStream => EndHandled(u, s.c, before, s.feed, s.consumed);
    case Carry(e) => EventHandled(u, s.c, before, s.feed, s.consumed, e);
  }

  lemma EndHandled(u: Setup, c: Consumer, handled: seq<Item>, feed: Feed, consumed: nat)
    requires ConsumerOwn(u, c, handled, feed, consumed, false, true)
    ensures ConsumerOwn(u, SignalStop, handled + [EndOfStream], feed, consumed, true, true)
  {
    EventsAppend(handled, EndOfStream);
    assert EventsIn(handled) + [] == EventsIn(handled);
  }

  lemma EventHandled(u: Setup, c: Consumer, handled: seq<Item>, feed: Feed, consumed: nat, e: Event)
    requires ConsumerOwn(u, c, handled, feed, consumed, false, true)
    ensures var f := Step(feed, e, u.config, u.h);
      ConsumerOwn(u, if f.stream.halted then SignalStop else LoadTail, handled + [Carry(e)], f, consumed + 1, false, true)
  {
    EventsAppend(handled, Carry(e));
    FedAppend(Begin(u), EventsIn(handled), e, u.config, u.h);
  }

  lemma FedAppend(f: Feed, es: seq<Event>, e: Event, c: Config, h: Hash)
    ensures Fed(f, es + [e], c, h) == Step(Fed(f, es, c, h), e, c, h)
  {
    assert (es + [e])[..|es|] == es;
  }

  lemma ConsumerKeepsOwn(u: Setup, s: State)
    requires Bounds(u, s) && ConsumerOk(u, s)
    ensures var s' := ConsumerStep(u, s); ConsumerOwn(u, s'.c, Handled(s'), s'.feed, s'.consumed, s'.eosSeen, s'.active)
  {
    if s.c.Handle? {
      HandleKeepsOwn(u, s);
    } else {
      var s' := ConsumerStep(u, s);
      if s.c.PublishHead? {
        assert s'.popped[..|s'.popped| - 1] == s.popped;
      }
      assert Handled(s') == Handled(s);
    }
  }

  lemma ConsumerKeepsProducer(u: Setup, s: State)
    requires Bounds(u, s) && ProducerOk(u, s) && LosslessOk(u, s)
    ensures ProducerOk(u, ConsumerStep(u, s)) && LosslessOk(u, ConsumerStep(u, s))
  {
    ConsumerLeaves(u, s);
  }

  lemma ConsumerLeaves(u: Setup, s: State)
    requires Bounds(u, s)
    ensures var s' := ConsumerStep(u, s);
      && s'.p == s.p && s'.pushed == s.pushed && s'.slots == s.slots && s'.tail == s.tail && |s.popped| <= |s'.popped|
      && s'.produced == s.produced && s'.dropped == s.dropped && s'.maxDepth == s.maxDepth
      && s'.eosProduced == s.eosProduced
      && (s'.active ==> s.active)
  {
  }

  lemma ConsumerKeepsInv(u: Setup, s: State)
    requires Inv(u, s)
    ensures Inv(u, ConsumerStep(u, s))
  {
    ConsumerKeepsRing(u, s);
    ConsumerKeepsView(u, s);
    ConsumerKeepsOwn(u, s);
    ConsumerKeepsProducer(u, s);
  }

  // ----- every interleaving

  ghost function Advance(u: Setup, s: State, producer: bool): (s': State)
    requires Inv(u, s)
    ensures Inv(u, s')
  {
    ProducerKeepsInv(u, s);
    ConsumerKeepsInv(u, s);
    if producer then ProducerStep(u, s) else ConsumerStep(u, s)
  }

  /** A schedule says, step by step, whether the producer moves. */
  ghost function After(u: Setup, s: State, schedule: seq<bool>): (t: State)
    requires Inv(u, s)
    ensures Inv(u, t)
    decreases |schedule|
  {
    if schedule == [] then s else After(u, Advance(u, s, schedule[0]), schedule[1..])
  }

  ghost function Run(u: Setup, schedule: seq<bool>): (s: State)
    ensures Inv(u, s)
  {
    InitialInv(u);
    After(u, Initial(u), schedule)
  }

  predicate AllDone(s: State) {
    (s.p == Quit || s.p == Finished) && s.c == Done
  }

  lemma {:induction false} EventsOfItems(u: Setup, k: nat)
    requires k <= |u.events| + 1
    ensures EventsIn(Items(u)[..k]) == u.events[..Min(k, |u.events|)]
    decreases k
  {
    if k > 0 {
      EventsOfItems(u, k - 1);
      assert Items(u)[..k] == Items(u)[..k - 1] + [ItemAt(u, k - 1)];
      EventsAppend(Items(u)[..k - 1], ItemAt(u, k - 1));
    }
  }

  /** First in, first out, and never more than the capacity in flight, in every interleaving. */
  lemma FifoAlways(u: Setup, schedule: seq<bool>)
    ensures var s := Run(u, schedule);
      && s.popped <= s.pushed && |s.pushed| - |s.popped| <= u.capacity && s.maxDepth <= u.capacity
      && (s.p.WriteSlot? ==> forall k :: |s.popped| <= k < |s.pushed| ==> Slot(k, Size(u)) != s.tail)
  {
    var s := Run(u, schedule);
    FreeSlot(Size(u), s.slots, s.head, s.tail, s.pushed, s.popped);
  }

  /** What the two threads hand back once both have stopped. */
  function Outcome(u: Setup, s: State): Result {
    Finalized(s.feed, u.config, u.h)
  }

  /** Without the drop policy the consumer has taken a prefix of the stream. */
  lemma TakenPrefix(u: Setup, s: State)
    requires u.policy == Block && RingOk(u, s) && LosslessOk(u, s)
    ensures var k := |s.popped|;
      k <= |u.events| + 1 && s.popped == Items(u)[..k] && EventsIn(s.popped) == u.events[..Min(k, |u.events|)]
  {
    assert s.popped == Items(u)[..|s.popped|];
    EventsOfItems(u, |s.popped|);
  }

  /** A consumer that is done has replayed the whole stream, or as much of it as it takes to halt. */
  lemma DoneIsFed(u: Setup, s: State)
    requires u.policy == Block && Inv(u, s) && s.c == Done
    ensures s.feed == Fed(Begin(u), u.events, u.config, u.h)
  {
    TakenPrefix(u, s);
    var k := |s.popped|;
    assert Handled(s) == s.popped;
    if s.eosSeen {
      assert Items(u)[k - 1] == EndOfStream;
      assert u.events[..|u.events|] == u.events;
    } else {
      HaltedStays(Begin(u), u.events, Min(k, |u.events|), u.config, u.h);
    }
  }

  /** With the blocking policy every interleaving that finishes reports what single-thread replay reports. */
  lemma FinishedIsReplayed(u: Setup, schedule: seq<bool>)
    requires u.policy == Block && AllDone(Run(u, schedule))
    ensures Outcome(u, Run(u, schedule)) == Replayed(Empty(u.symbol), u.events, u.config, u.h)
  {
    DoneIsFed(u, Run(u, schedule));
  }

  /** A run that ends on the end marker lost nothing after publishing it: every published event was
      consumed, exactly one marker was published, and events were dropped only by the drop policy. */
  lemma CleanShutdown(u: Setup, schedule: seq<bool>)
    requires AllDone(Run(u, schedule)) && Run(u, schedule).eosSeen
    ensures var s := Run(u, schedule);
      && s.p == Finished && s.eosProduced && s.popped == s.pushed
      && s.produced == s.consumed && s.produced + s.dropped == |u.events| && (u.policy == Block ==> s.dropped == 0)
      && (forall k :: 0 <= k < |s.pushed| ==> (s.pushed[k] == EndOfStream <==> k == |s.pushed| - 1))
  {
    var s := Run(u, schedule);
    var last := |s.popped| - 1;
    assert s.pushed[last] == EndOfStream;
    assert s.popped == s.pushed;
    forall k | 0 <= k < last ensures s.popped[k].Carry? {}
    CountCarried(s.popped[..last]);
    assert s.popped == s.popped[..last] + [EndOfStream];
    EventsAppend(s.popped[..last], EndOfStream);
  }

  lemma {:induction false} CountCarried(items: seq<Item>)
    requires forall k :: 0 <= k < |items| ==> items[k].Carry?
    ensures |EventsIn(items)| == |items|
  {
    if items != [] {
      CountCarried(items[..|items| - 1]);
    }
  }
}
