/** Two-thread replay always can go on, and when it is asked for a queue without room it says so. */
module SpscProgress {
  import opened Types
  import B = Books
  import opened Events
  import opened Replays
  import opened SpscRings
  import opened SpscPipelines

  // ----- the work left

  /** Steps the producer may still take; going round the blocked loop is not progress. */
  function ProducerWork(u: Setup, p: Producer): int {
    var round := 10 * (|u.events| + 1);
    match p
    case CheckActive(i) => round - 10 * i + 7
    case LoadHead(i, _) => round - 10 * i + 6
    case Recheck(i) => round - 10 * i + 6
    case WriteSlot(i) => round - 10 * i + 5
    case PublishTail(i) => round - 10 * i + 4
    case CountProduced(i) => round - 10 * i + 3
    case MeasureDepth(i) => round - 10 * i + 2
    case Quit => 0
    case Finished => 0
  }

  function ConsumerWork(u: Setup, c: Consumer, popped: nat): int {
    var left := 5 * (|u.events| + 1 - popped);
    match c
    case LoadTail => left + 2
    case ReadSlot => left + 1
    case PublishHead(_) => left
    case Handle(_) => left + 4
    case SignalStop => left + 1
    case Done => left
  }

  function Work(u: Setup, s: State): int {
    ProducerWork(u, s.p) + ConsumerWork(u, s.c, |s.popped|)
  }

  lemma WorkIsNatural(u: Setup, s: State)
    requires Inv(u, s)
    ensures Work(u, s) >= 0
  {
    assert |s.popped| <= |s.pushed|;
    var p := s.p;
    assert CursorOk(u, p);
  }

  predicate WaitsForItems(s: State) {
    s.c == LoadTail && s.head == s.tail
  }

  lemma ConsumerProgress(u: Setup, s: State)
    requires Bounds(u, s)
    ensures Work(u, ConsumerStep(u, s)) <= Work(u, s)
    ensures s.c != Done && !WaitsForItems(s) ==> Work(u, ConsumerStep(u, s)) < Work(u, s)
  {
  }

  predicate WaitsForRoom(u: Setup, s: State) {
    (s.p.LoadHead? && Next(u, s.tail) == s.head) || s.p.Recheck?
  }

  lemma ProducerProgress(u: Setup, s: State)
    requires Bounds(u, s) && PositionOk(u, s)
    ensures Work(u, ProducerStep(u, s)) <= Work(u, s)
    ensures s.p != Quit && s.p != Finished && !WaitsForRoom(u, s) ==> Work(u, ProducerStep(u, s)) < Work(u, s)
    ensures s.p.Recheck? && !s.active ==> Work(u, ProducerStep(u, s)) < Work(u, s)
  {
  }

  /** A producer that is waiting gets on within two of its own steps if there is room or the consumer has gone. */
  lemma WaitingProducer(u: Setup, s: State)
    requires Bounds(u, s) && PositionOk(u, s) && WaitsForRoom(u, s)
    requires !s.active || Next(u, s.tail) != s.head
    ensures Bounds(u, ProducerStep(u, s))
    ensures Work(u, ProducerStep(u, s)) < Work(u, s) || Work(u, ProducerStep(u, ProducerStep(u, s))) < Work(u, s)
  {
    ProducerProgress(u, s);
    ProducerKeepsPosition(u, s);
    ProducerProgress(u, ProducerStep(u, s));
  }

  /** An idle consumer and a finished producer cannot meet: the end marker would still be waiting. */
  lemma IdleMeansMore(u: Setup, s: State)
    requires Inv(u, s) && WaitsForItems(s)
    ensures s.p != Finished && s.p != Quit && s.active && |s.pushed| == |s.popped|
  {
    FullAndEmpty(u, s);
    assert s.popped == s.pushed;
  }

  /** No reachable unfinished state leaves both threads stuck: one of them makes progress at its next
      step, or the producer does at the step after. */
  lemma NeverStuck(u: Setup, s: State)
    requires u.capacity >= 1 && Inv(u, s) && !AllDone(s)
    ensures Inv(u, ProducerStep(u, s))
    ensures
      || Work(u, ConsumerStep(u, s)) < Work(u, s)
      || Work(u, ProducerStep(u, s)) < Work(u, s)
      || Work(u, ProducerStep(u, ProducerStep(u, s))) < Work(u, s)
  {
    ConsumerProgress(u, s);
    ProducerProgress(u, s);
    ProducerKeepsInv(u, s);
    if WaitsForItems(s) {
      IdleMeansMore(u, s);
      FullAndEmpty(u, s);
    }
    if (s.c == Done || WaitsForItems(s)) && WaitsForRoom(u, s) {
      WaitingProducer(u, s);
    }
  }

  // ----- every fair schedule finishes

  function Turns(schedule: seq<bool>, producer: bool): nat {
    if schedule == [] then 0 else (if schedule[0] == producer then 1 else 0) + Turns(schedule[1..], producer)
  }

  /** A round gives the consumer a turn and the producer two, in any order and with any others between. */
  predicate Round(schedule: seq<bool>) {
    Turns(schedule, false) >= 1 && Turns(schedule, true) >= 2
  }

  lemma AdvanceNeverBack(u: Setup, s: State, producer: bool)
    requires Inv(u, s)
    ensures Work(u, Advance(u, s, producer)) <= Work(u, s)
    ensures AllDone(s) ==> Advance(u, s, producer) == s
  {
    ConsumerProgress(u, s);
    ProducerProgress(u, s);
  }

  lemma {:induction false} NeverBack(u: Setup, s: State, schedule: seq<bool>)
    requires Inv(u, s)
    ensures Work(u, After(u, s, schedule)) <= Work(u, s)
    ensures AllDone(s) ==> After(u, s, schedule) == s
    decreases |schedule|
  {
    if schedule != [] {
      AdvanceNeverBack(u, s, schedule[0]);
      NeverBack(u, Advance(u, s, schedule[0]), schedule[1..]);
    }
  }

  predicate Idle(s: State) {
    s.c == Done || WaitsForItems(s)
  }

  /** A turn of the producer that gets it no further leaves the consumer as it was. */
  lemma StalledTurn(u: Setup, s: State)
    requires Inv(u, s) && Work(u, ProducerStep(u, s)) == Work(u, s)
    ensures Idle(ProducerStep(u, s)) == Idle(s) && AllDone(ProducerStep(u, s)) == AllDone(s)
  {
    ProducerProgress(u, s);
    var s' := ProducerStep(u, s);
    assert s'.c == s.c && s'.head == s.head && s'.tail == s.tail;
  }

  /** A consumer with something to do does it at its next turn, whatever the producer does before. */
  lemma {:induction false} BusyGains(u: Setup, s: State, schedule: seq<bool>)
    requires Inv(u, s) && !Idle(s) && Turns(schedule, false) >= 1
    ensures Work(u, After(u, s, schedule)) < Work(u, s)
    decreases |schedule|
  {
    var s', rest := Advance(u, s, schedule[0]), schedule[1..];
    AdvanceNeverBack(u, s, schedule[0]);
    NeverBack(u, s', rest);
    if schedule[0] && Work(u, s') == Work(u, s) {
      StalledTurn(u, s);
      BusyGains(u, s', rest);
    } else {
      ConsumerProgress(u, s);
    }
  }

  /** How many turns the producer needs to get on while the consumer is idle. */
  function Need(u: Setup, s: State): nat {
    if (s.p.Recheck? && s.active) || (s.p.LoadHead? && Next(u, s.tail) == s.head) then 2 else 1
  }

  lemma NeedShrinks(u: Setup, s: State)
    requires u.capacity >= 1 && Inv(u, s) && Idle(s) && !AllDone(s)
    ensures Work(u, ProducerStep(u, s)) < Work(u, s) || Need(u, ProducerStep(u, s)) < Need(u, s)
  {
    ProducerProgress(u, s);
    FullAndEmpty(u, s);
    if WaitsForItems(s) {
      IdleMeansMore(u, s);
    }
  }

  /** An idle consumer's turn changes nothing; the producer's either gains or brings it closer. */
  lemma IdleTurn(u: Setup, s: State, producer: bool)
    requires u.capacity >= 1 && Inv(u, s) && Idle(s) && !AllDone(s)
    ensures !producer ==> Advance(u, s, producer) == s
    ensures producer && Work(u, Advance(u, s, producer)) >= Work(u, s) ==>
      Need(u, Advance(u, s, producer)) < Need(u, s) && Idle(Advance(u, s, producer)) && !AllDone(Advance(u, s, producer))
  {
    if producer {
      NeedShrinks(u, s);
      ProducerProgress(u, s);
      if Work(u, ProducerStep(u, s)) == Work(u, s) {
        StalledTurn(u, s);
      }
    }
  }

  lemma {:induction false} IdleGains(u: Setup, s: State, schedule: seq<bool>)
    requires u.capacity >= 1 && Inv(u, s) && Idle(s) && !AllDone(s) && Turns(schedule, true) >= Need(u, s)
    ensures Work(u, After(u, s, schedule)) < Work(u, s)
    decreases |schedule|
  {
    var s', rest := Advance(u, s, schedule[0]), schedule[1..];
    AdvanceNeverBack(u, s, schedule[0]);
    IdleTurn(u, s, schedule[0]);
    if Work(u, s') < Work(u, s) {
      NeverBack(u, s', rest);
    } else {
      IdleGains(u, s', rest);
    }
  }

  lemma RoundGains(u: Setup, s: State, schedule: seq<bool>)
    requires u.capacity >= 1 && Inv(u, s) && !AllDone(s) && Round(schedule)
    ensures Work(u, After(u, s, schedule)) < Work(u, s)
  {
    if Idle(s) {
      IdleGains(u, s, schedule);
    } else {
      BusyGains(u, s, schedule);
    }
  }

  function Flat(rounds: seq<seq<bool>>): seq<bool> {
    if rounds == [] then [] else rounds[0] + Flat(rounds[1..])
  }

  lemma {:induction false} AfterConcat(u: Setup, s: State, a: seq<bool>, b: seq<bool>)
    requires Inv(u, s)
    ensures After(u, s, a + b) == After(u, After(u, s, a), b)
    decreases |a|
  {
    if a == [] {
      assert a + b == b;
    } else {
      assert (a + b)[1..] == a[1..] + b;
      AfterConcat(u, Advance(u, s, a[0]), a[1..], b);
    }
  }

  lemma UnfinishedHasWork(u: Setup, s: State)
    requires u.capacity >= 1 && Inv(u, s) && !AllDone(s)
    ensures Work(u, s) >= 1
  {
    NeverStuck(u, s);
    ConsumerKeepsInv(u, s);
    WorkIsNatural(u, ConsumerStep(u, s));
    WorkIsNatural(u, ProducerStep(u, s));
    ProducerKeepsInv(u, ProducerStep(u, s));
    WorkIsNatural(u, ProducerStep(u, ProducerStep(u, s)));
  }

  /** From any reachable state, as many rounds as there is work left bring both threads to their end,
      however the turns are ordered within each round. */
  lemma {:induction false} RoundsFinish(u: Setup, s: State, rounds: seq<seq<bool>>)
    requires u.capacity >= 1 && Inv(u, s) && |rounds| >= Work(u, s) && forall k :: 0 <= k < |rounds| ==> Round(rounds[k])
    ensures AllDone(After(u, s, Flat(rounds)))
    decreases |rounds|
  {
    WorkIsNatural(u, s);
    if AllDone(s) {
      NeverBack(u, s, Flat(rounds));
    } else {
      UnfinishedHasWork(u, s);
      RoundGains(u, s, rounds[0]);
      RoundsFinish(u, After(u, s, rounds[0]), rounds[1..]);
      AfterConcat(u, s, rounds[0], Flat(rounds[1..]));
    }
  }

  /** Every schedule of enough rounds ends, and with the blocking policy it ends with single-thread replay's result. */
  lemma FairScheduleFinishes(u: Setup, rounds: seq<seq<bool>>)
    requires u.capacity >= 1 && |rounds| >= Work(u, Initial(u)) && forall k :: 0 <= k < |rounds| ==> Round(rounds[k])
    ensures AllDone(Run(u, Flat(rounds)))
    ensures u.policy == Block ==> Outcome(u, Run(u, Flat(rounds))) == Replayed(B.Empty(u.symbol), u.events, u.config, u.h)
  {
    InitialInv(u);
    RoundsFinish(u, Initial(u), rounds);
    if u.policy == Block {
      FinishedIsReplayed(u, Flat(rounds));
    }
  }

  // ----- a queue without room

  predicate Undelivered(s: State) {
    s.pushed == [] && !s.p.WriteSlot? && !s.p.PublishTail?
  }

  /** Without room nothing is ever delivered, which is why the queue is never started and the replay refused. */
  lemma NoRoomNoDelivery(u: Setup, schedule: seq<bool>)
    requires u.capacity == 0
    ensures Undelivered(Run(u, schedule))
  {
    InitialInv(u);
    StaysUndelivered(u, Initial(u), schedule);
  }

  lemma {:induction false} StaysUndelivered(u: Setup, s: State, schedule: seq<bool>)
    requires u.capacity == 0 && Inv(u, s) && Undelivered(s)
    ensures Undelivered(After(u, s, schedule))
    decreases |schedule|
  {
    if schedule != [] {
      FullAndEmpty(u, s);
      ConsumerLeaves(u, s);
      NoRoomNoWrite(u, s);
      StaysUndelivered(u, Advance(u, s, schedule[0]), schedule[1..]);
    }
  }

  lemma NoRoomNoWrite(u: Setup, s: State)
    requires Bounds(u, s) && Next(u, s.tail) == s.head && Undelivered(s)
    ensures Undelivered(ProducerStep(u, s))
  {
  }

  function RefusedOutcome(u: Setup): Result {
    Finalized(Begin(u).(result := Begin(u).result.(valid := false, error := Some(ZeroCapacity))), u.config, u.h)
  }

  /** What two-thread replay returns. */
  ghost function SpscOutcome(u: Setup, schedule: seq<bool>): Result {
    if u.capacity == 0 then RefusedOutcome(u) else Outcome(u, Run(u, schedule))
  }

  lemma StepNeverZero(f: Feed, e: Event, c: Config, h: Hash)
    requires f.result.error != Some(ZeroCapacity)
    ensures Step(f, e, c, h).result.error != Some(ZeroCapacity)
  {
  }

  lemma {:induction false} NeverZeroCapacity(f: Feed, es: seq<Event>, c: Config, h: Hash)
    requires f.result.error != Some(ZeroCapacity)
    ensures Fed(f, es, c, h).result.error != Some(ZeroCapacity)
    decreases |es|
  {
    if es != [] {
      NeverZeroCapacity(f, es[..|es| - 1], c, h);
      StepNeverZero(Fed(f, es[..|es| - 1], c, h), es[|es| - 1], c, h);
    }
  }

  /** Under the blocking policy, two-thread replay gives single-thread replay's result in every
      interleaving exactly when the queue has room for at least one item. */
  lemma ParityIff(u: Setup, schedule: seq<bool>)
    requires u.policy == Block && (u.capacity > 0 ==> AllDone(Run(u, schedule)))
    ensures SpscOutcome(u, schedule) == Replayed(B.Empty(u.symbol), u.events, u.config, u.h) <==> u.capacity >= 1
  {
    if u.capacity == 0 {
      NeverZeroCapacity(Begin(u), u.events, u.config, u.h);
    } else {
      FinishedIsReplayed(u, schedule);
    }
  }
}
