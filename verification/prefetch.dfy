/**
 The bounded replay queue: a producer thread that reads batches ahead under a byte budget and a consumer that
 replays them. Every atomic section of the two threads is one step; a thread waits by testing its condition and,
 if it fails, sleeping until it is notified.
 */
module Prefetch {
  import opened Prelude

  datatype Batch = Batch(sequence: nat, bytes: nat)

  /** What the source yields: a batch, or an error that ends it. */
  datatype Item = Good(batch: Batch) | Broken

  datatype Config = Config(queueBatches: nat, inflightBytes: nat, maxBatchBytes: nat)

  /** The limits the input configuration enforces. */
  predicate ConfigOk(c: Config) { c.queueBatches > 0 && 0 < c.maxBatchBytes <= c.inflightBytes }

  datatype Producer =
    | Idle(asleep: bool)                     // waiting for space
    | Building                               // space reserved, the source is being read
    | Built(batch: Batch)                    // a batch has been read but not queued
    | Stopped(holds: bool)                   // out of the loop, about to close
    | Closed(holds: bool)                    // `holds`: the last reservation was never used

  datatype Consumer =
    | Ready(asleep: bool)                    // waiting for a batch or for the end
    | Consuming(batch: Batch)
    | Consumed(batch: Batch)                 // replayed, not yet released
    | Ending(failed: bool, kept: Option<Batch>)
    | Joining(failed: bool, kept: Option<Batch>)
    | Joined(failed: bool, kept: Option<Batch>)

  datatype State = State(
    producer: Producer, consumer: Consumer, queue: seq<Batch>, reserved: int, count: int,
    closed: bool, cancelled: bool, failure: bool,
    taken: nat,                              // how many items the source has yielded
    replayed: seq<Batch>)                    // the batches replayed so far

  const START: State := State(Idle(false), Ready(false), [], 0, 0, false, false, false, 0, [])

  predicate HasSpace(c: Config, s: State) {
    s.cancelled || (s.count < c.queueBatches && s.reserved + c.maxBatchBytes <= c.inflightBytes)
  }

  predicate HasWork(s: State) { s.queue != [] || s.closed }

  /** Wakes whoever sleeps. */
  function Notify(s: State): State {
    s.(producer := if s.producer.Idle? then Idle(false) else s.producer,
       consumer := if s.consumer.Ready? then Ready(false) else s.consumer)
  }

  // ---- The producer's steps ----

  ghost predicate ProducerWaits(c: Config, s: State, t: State) {
    s.producer == Idle(false) && !HasSpace(c, s) && t == s.(producer := Idle(true))
  }

  ghost predicate ProducerReserves(c: Config, s: State, t: State) {
    && s.producer == Idle(false) && HasSpace(c, s)
    && t == if s.cancelled then s.(producer := Stopped(false))
            else s.(producer := Building, reserved := s.reserved + c.maxBatchBytes, count := s.count + 1)
  }

  /** Reading the source: its end, an error, a batch that is too large, or a batch. */
  ghost predicate ProducerReads(c: Config, src: seq<Item>, s: State, t: State) {
    && s.producer.Building?
    && t == if s.taken >= |src| then s.(producer := Stopped(true))
            else if src[s.taken].Broken? || src[s.taken].batch.bytes > c.maxBatchBytes
            then s.(producer := Stopped(true), failure := true)
            else s.(producer := Built(src[s.taken].batch), taken := s.taken + 1)
  }

  ghost predicate ProducerQueues(c: Config, s: State, t: State) {
    && s.producer.Built?
    && t == Notify(s.(producer := Idle(false), queue := s.queue + [s.producer.batch],
                      reserved := s.reserved - (c.maxBatchBytes - s.producer.batch.bytes)))
  }

  ghost predicate ProducerCloses(s: State, t: State) {
    s.producer.Stopped? && t == Notify(s.(producer := Closed(s.producer.holds), closed := true))
  }

  // ---- The consumer's steps ----

  ghost predicate ConsumerWaits(s: State, t: State) {
    s.consumer == Ready(false) && !HasWork(s) && t == s.(consumer := Ready(true))
  }

  /** Taking the next batch, or, when there is none and there will be none, the producer's failure or the end. */
  ghost predicate ConsumerTakes(s: State, t: State) {
    && s.consumer == Ready(false) && HasWork(s)
    && t == if s.queue != [] then s.(consumer := Consuming(s.queue[0]), queue := s.queue[1..])
            else s.(consumer := Ending(s.failure, None))
  }

  /** Replaying a batch fails if its sequence number is not the expected one, and may fail otherwise. */
  ghost predicate ConsumerReplays(s: State, t: State) {
    && s.consumer.Consuming?
    && (|| t == s.(consumer := Ending(true, Some(s.consumer.batch)))
        || (s.consumer.batch.sequence == |s.replayed|
            && t == s.(consumer := Consumed(s.consumer.batch), replayed := s.replayed + [s.consumer.batch])))
  }

  ghost predicate ConsumerReleases(s: State, t: State) {
    && s.consumer.Consumed?
    && t == Notify(s.(consumer := Ready(false), reserved := s.reserved - s.consumer.batch.bytes, count := s.count - 1))
  }

  ghost predicate ConsumerCancels(s: State, t: State) {
    && s.consumer.Ending?
    && t == Notify(s.(consumer := Joining(s.consumer.failed, s.consumer.kept), cancelled := true))
  }

  ghost predicate ConsumerJoins(s: State, t: State) {
    && s.consumer.Joining? && s.producer.Closed?
    && t == s.(consumer := Joined(s.consumer.failed, s.consumer.kept))
  }

  ghost predicate ProducerStep(c: Config, src: seq<Item>, s: State, t: State) {
    || ProducerWaits(c, s, t) || ProducerReserves(c, s, t) || ProducerReads(c, src, s, t)
    || ProducerQueues(c, s, t) || ProducerCloses(s, t)
  }

  ghost predicate ConsumerStep(s: State, t: State) {
    || ConsumerWaits(s, t) || ConsumerTakes(s, t) || ConsumerReplays(s, t)
    || ConsumerReleases(s, t) || ConsumerCancels(s, t) || ConsumerJoins(s, t)
  }

  ghost predicate Step(c: Config, src: seq<Item>, s: State, t: State) {
    ProducerStep(c, src, s, t) || ConsumerStep(s, t)
  }

  // ---- The invariant ----

  function Bytes(queue: seq<Batch>): nat {
    if queue == [] then 0 else queue[0].bytes + Bytes(queue[1..])
  }

  lemma {:induction false} BytesAppend(queue: seq<Batch>, b: Batch)
    ensures Bytes(queue + [b]) == Bytes(queue) + b.bytes
  {
    if queue == [] {
      assert queue + [b] == [b];
    } else {
      assert (queue + [b])[1..] == queue[1..] + [b];
      BytesAppend(queue[1..], b);
    }
  }

  /** The batch a consumer holds. */
  function Held(k: Consumer): seq<Batch> {
    match k
    case Ready(_) => []
    case Consuming(b) => [b]
    case Consumed(b) => [b]
    case Ending(_, kept) => if kept.Some? then [kept.value] else []
    case Joining(_, kept) => if kept.Some? then [kept.value] else []
    case Joined(_, kept) => if kept.Some? then [kept.value] else []
  }

  /** A batch that has been taken but not replayed. */
  function Pending(k: Consumer): seq<Batch> { if k.Consumed? then [] else Held(k) }

  /** Whether the producer holds a full reservation. */
  function Reserving(p: Producer): nat {
    match p
    case Idle(_) => 0
    case Building => 1
    case Built(_) => 1
    case Stopped(holds) => if holds then 1 else 0
    case Closed(holds) => if holds then 1 else 0
  }

  function Unqueued(p: Producer): seq<Batch> { if p.Built? then [p.batch] else [] }

  /** Reserved bytes and batches in flight are exactly those queued, being replayed and being built. */
  ghost predicate Accounted(c: Config, s: State) {
    && s.reserved == Bytes(s.queue) + Bytes(Held(s.consumer)) + Reserving(s.producer) * c.maxBatchBytes
    && s.count == |s.queue| + |Held(s.consumer)| + Reserving(s.producer)
    && s.reserved <= c.inflightBytes && s.count <= c.queueBatches
    && (s.producer.Built? ==> s.producer.batch.bytes <= c.maxBatchBytes)
  }

  ghost predicate ItemOk(c: Config, src: seq<Item>, b: Batch, i: nat) {
    i < |src| && src[i] == Good(b) && b.bytes <= c.maxBatchBytes
  }

  /** Every batch taken from the source, in order: replayed, being replayed, queued, being queued. */
  function Line(s: State): seq<Batch> { s.replayed + Pending(s.consumer) + s.queue + Unqueued(s.producer) }

  ghost predicate InOrder(c: Config, src: seq<Item>, s: State) {
    && |Line(s)| == s.taken <= |src|
    && (forall i | 0 <= i < s.taken :: ItemOk(c, src, Line(s)[i], i))
    && (forall i | 0 <= i < |s.replayed| :: s.replayed[i].sequence == i)
  }

  /** Whether the source has nothing good at position `i`. */
  ghost predicate Exhausted(c: Config, src: seq<Item>, i: nat, failure: bool) {
    if failure then i < |src| && (src[i].Broken? || src[i].batch.bytes > c.maxBatchBytes) else i == |src|
  }

  ghost predicate Phases(c: Config, src: seq<Item>, s: State) {
    && (s.closed <==> s.producer.Closed?)
    && (s.cancelled <==> s.consumer.Joining? || s.consumer.Joined?)
    && (s.consumer.Joined? ==> s.producer.Closed?)
    && (s.failure ==> (s.producer.Stopped? || s.producer.Closed?) && s.producer.holds)
    && (s.producer.Stopped? || s.producer.Closed? ==>
          if s.producer.holds then Exhausted(c, src, s.taken, s.failure) else s.cancelled)
    && (s.consumer.Ending? || s.consumer.Joining? || s.consumer.Joined? ==>
          (s.consumer.kept.None? ==>
             s.closed && s.queue == [] && s.producer.holds && s.consumer.failed == s.failure)
          && (s.consumer.kept.Some? ==> s.consumer.failed))
  }

  /** No wake-up is lost: whoever sleeps has nothing to do. */
  ghost predicate SleepersIdle(c: Config, s: State) {
    (s.producer == Idle(true) ==> !HasSpace(c, s)) && (s.consumer == Ready(true) ==> !HasWork(s))
  }

  ghost predicate Inv(c: Config, src: seq<Item>, s: State) {
    Accounted(c, s) && InOrder(c, src, s) && Phases(c, src, s) && SleepersIdle(c, s)
  }

  lemma StartInv(c: Config, src: seq<Item>)
    requires ConfigOk(c)
    ensures Inv(c, src, START)
  {}

  lemma BytesOne(b: Batch)
    ensures Bytes([b]) == b.bytes && Bytes([]) == 0
  {
    assert [b][1..] == [];
  }

  lemma QueueAccounts(c: Config, s: State, t: State)
    requires Accounted(c, s) && ProducerQueues(c, s, t)
    ensures Accounted(c, t)
  {
    BytesAppend(s.queue, s.producer.batch);
    assert Held(t.consumer) == Held(s.consumer);
  }

  lemma TakeAccounts(c: Config, s: State, t: State)
    requires Accounted(c, s) && ConsumerTakes(s, t)
    ensures Accounted(c, t)
  {
    if s.queue != [] { BytesOne(s.queue[0]); }
  }

  lemma ReleaseAccounts(c: Config, s: State, t: State)
    requires Accounted(c, s) && ConsumerReleases(s, t)
    ensures Accounted(c, t)
  {
    BytesOne(s.consumer.batch);
  }

  lemma ProducerAccounts(c: Config, src: seq<Item>, s: State, t: State)
    requires ConfigOk(c) && Accounted(c, s) && Phases(c, src, s) && ProducerStep(c, src, s, t)
    ensures Accounted(c, t) == true
  {
    if ProducerQueues(c, s, t) {
      QueueAccounts(c, s, t);
    } else {
      assert Held(t.consumer) == Held(s.consumer) && t.queue == s.queue;
    }
  }

  lemma ConsumerAccounts(c: Config, src: seq<Item>, s: State, t: State)
    requires Accounted(c, s) && Phases(c, src, s) && ConsumerStep(s, t)
    ensures Accounted(c, t) == true
  {
    if ConsumerTakes(s, t) {
      TakeAccounts(c, s, t);
    } else if ConsumerReleases(s, t) {
      ReleaseAccounts(c, s, t);
    } else {
      assert Held(t.consumer) == Held(s.consumer) && t.queue == s.queue && Reserving(t.producer) == Reserving(s.producer);
    }
  }

  /** Reading takes one more batch; no other step changes the line of batches. */
  lemma ProducerOrders(c: Config, src: seq<Item>, s: State, t: State)
    requires InOrder(c, src, s) && ProducerStep(c, src, s, t)
    ensures InOrder(c, src, t)
  {
    if ProducerReads(c, src, s, t) && t.taken > s.taken {
      assert Pending(t.consumer) == Pending(s.consumer);
      assert Line(t) == Line(s) + [t.producer.batch];
    } else if ProducerQueues(c, s, t) {
      var before := s.replayed + Pending(s.consumer);
      assert Pending(t.consumer) == Pending(s.consumer);
      assert Line(t) == before + (s.queue + [s.producer.batch]) + [] == before + s.queue + [s.producer.batch] == Line(s);
    } else {
      assert Pending(t.consumer) == Pending(s.consumer) && Unqueued(t.producer) == Unqueued(s.producer) == [];
      assert t.queue == s.queue && Line(t) == Line(s);
    }
  }

  /** No step of the consumer changes the line of batches: it only moves the head of the queue on. */
  lemma ConsumerLine(s: State, t: State)
    requires ConsumerStep(s, t)
    ensures Line(t) == Line(s) && t.taken == s.taken
    ensures t.replayed == s.replayed || (s.consumer.Consuming? && s.consumer.batch.sequence == |s.replayed|
                                         && t.replayed == s.replayed + [s.consumer.batch])
  {
    if ConsumerTakes(s, t) && s.queue != [] {
      assert Line(t) == s.replayed + [s.queue[0]] + s.queue[1..] + Unqueued(s.producer) == Line(s);
    } else if ConsumerReplays(s, t) && t.replayed != s.replayed {
      assert Line(t) == s.replayed + [s.consumer.batch] + [] + s.queue + Unqueued(s.producer) == Line(s);
    } else {
      assert Pending(t.consumer) == Pending(s.consumer) && Unqueued(t.producer) == Unqueued(s.producer);
      assert t.queue == s.queue && Line(t) == Line(s);
    }
  }

  lemma ConsumerOrders(c: Config, src: seq<Item>, s: State, t: State)
    requires InOrder(c, src, s) && ConsumerStep(s, t)
    ensures InOrder(c, src, t)
  {
    ConsumerLine(s, t);
  }

  lemma ProducerPhases(c: Config, src: seq<Item>, s: State, t: State)
    requires Inv(c, src, s) && ProducerStep(c, src, s, t)
    ensures Phases(c, src, t) && SleepersIdle(c, t)
  {
    assert t.replayed == s.replayed && (t.consumer == s.consumer || t.consumer == Ready(false));
  }

  lemma ConsumerPhases(c: Config, src: seq<Item>, s: State, t: State)
    requires Inv(c, src, s) && ConsumerStep(s, t)
    ensures Phases(c, src, t) && SleepersIdle(c, t)
  {
    assert t.taken == s.taken && (t.producer == s.producer || t.producer == Idle(false));
  }

  lemma StepInv(c: Config, src: seq<Item>, s: State, t: State)
    requires ConfigOk(c) && Inv(c, src, s) && Step(c, src, s, t)
    ensures Inv(c, src, t)
  {
    if ProducerStep(c, src, s, t) {
      ProducerPhases(c, src, s, t);
      ProducerAccounts(c, src, s, t);
      ProducerOrders(c, src, s, t);
    } else {
      ConsumerPhases(c, src, s, t);
      ConsumerAccounts(c, src, s, t);
      ConsumerOrders(c, src, s, t);
    }
  }

  // ---- No deadlock, no endless run, and what is left at the end ----

  ghost predicate Terminal(s: State) { s.producer.Closed? && s.consumer.Joined? }

  /** In every reachable state that is not final some thread can take a step. */
  lemma NoDeadlock(c: Config, src: seq<Item>, s: State) returns (t: State)
    requires ConfigOk(c) && Inv(c, src, s) && !Terminal(s)
    ensures Step(c, src, s, t)
  {
    if s.producer.Idle? && s.consumer.Ready? {
      t := EitherMoves(c, src, s);
    } else if !s.producer.Idle? && !s.producer.Closed? {
      t := ProducerMoves(c, src, s);
    } else {
      t := ConsumerMoves(c, src, s);
    }
  }

  /** With both threads at their conditions: an empty queue leaves space. */
  lemma EitherMoves(c: Config, src: seq<Item>, s: State) returns (t: State)
    requires ConfigOk(c) && Inv(c, src, s) && s.producer.Idle? && s.consumer.Ready?
    ensures Step(c, src, s, t)
  {
    if s.queue == [] {
      assert s.count == 0 && s.reserved == 0;
      t := s.(producer := Building, reserved := s.reserved + c.maxBatchBytes, count := s.count + 1);
      assert ProducerReserves(c, s, t);
    } else {
      t := s.(consumer := Consuming(s.queue[0]), queue := s.queue[1..]);
      assert ConsumerTakes(s, t);
    }
  }

  lemma ProducerMoves(c: Config, src: seq<Item>, s: State) returns (t: State)
    requires ConfigOk(c) && Inv(c, src, s) && !s.producer.Idle? && !s.producer.Closed?
    ensures Step(c, src, s, t)
  {
    match s.producer
    case Building =>
      t := if s.taken >= |src| then s.(producer := Stopped(true))
           else if src[s.taken].Broken? || src[s.taken].batch.bytes > c.maxBatchBytes
           then s.(producer := Stopped(true), failure := true)
           else s.(producer := Built(src[s.taken].batch), taken := s.taken + 1);
      assert ProducerReads(c, src, s, t);
    case Built(b) =>
      t := Notify(s.(producer := Idle(false), queue := s.queue + [b], reserved := s.reserved - (c.maxBatchBytes - b.bytes)));
      assert ProducerQueues(c, s, t);
    case Stopped(holds) =>
      t := Notify(s.(producer := Closed(holds), closed := true));
      assert ProducerCloses(s, t);
  }

  lemma ConsumerMoves(c: Config, src: seq<Item>, s: State) returns (t: State)
    requires ConfigOk(c) && Inv(c, src, s) && (s.producer.Idle? || s.producer.Closed?)
    requires !(s.producer.Idle? && s.consumer.Ready?) && !Terminal(s)
    ensures Step(c, src, s, t)
  {
    match s.consumer
    case Ready(_) =>
      t := if s.queue != [] then s.(consumer := Consuming(s.queue[0]), queue := s.queue[1..])
           else s.(consumer := Ending(s.failure, None));
      assert ConsumerTakes(s, t);
    case Consuming(b) =>
      t := s.(consumer := Ending(true, Some(b)));
      assert ConsumerReplays(s, t);
    case Consumed(b) =>
      t := Notify(s.(consumer := Ready(false), reserved := s.reserved - b.bytes, count := s.count - 1));
      assert ConsumerReleases(s, t);
    case Ending(failed, kept) =>
      t := Notify(s.(consumer := Joining(failed, kept), cancelled := true));
      assert ConsumerCancels(s, t);
    case Joining(failed, kept) =>
      if s.producer.Closed? {
        t := s.(consumer := Joined(failed, kept));
        assert ConsumerJoins(s, t);
      } else {
        t := s.(producer := Stopped(false));
        assert ProducerReserves(c, s, t);
      }
  }

  function ProducerWork(p: Producer): nat {
    match p
    case Idle(_) => 4
    case Building => 3
    case Built(_) => 8
    case Stopped(_) => 1
    case Closed(_) => 0
  }

  function ConsumerWork(k: Consumer): nat {
    match k
    case Ready(_) => 4
    case Consuming(_) => 6
    case Consumed(_) => 5
    case Ending(_, _) => 3
    case Joining(_, _) => 2
    case Joined(_, _) => 0
  }

  function Awake(s: State): nat {
    (if s.producer == Idle(false) then 1 else 0) + (if s.consumer == Ready(false) then 1 else 0)
  }

  /** How much is left to do: every step lowers it, so every run ends. */
  function Work(src: seq<Item>, s: State): int {
    3 * (6 * (|src| - s.taken) + ProducerWork(s.producer) + 3 * |s.queue| + ConsumerWork(s.consumer)) + Awake(s)
  }

  lemma ProducerWorks(c: Config, src: seq<Item>, s: State, t: State)
    requires Inv(c, src, s) && ProducerStep(c, src, s, t)
    ensures Work(src, t) < Work(src, s)
  {
    assert ConsumerWork(t.consumer) == ConsumerWork(s.consumer);
  }

  lemma ConsumerWorks(c: Config, src: seq<Item>, s: State, t: State)
    requires Inv(c, src, s) && ConsumerStep(s, t)
    ensures Work(src, t) < Work(src, s)
  {
    assert ProducerWork(t.producer) == ProducerWork(s.producer) && t.taken == s.taken;
  }

  lemma EveryStepWorks(c: Config, src: seq<Item>, s: State, t: State)
    requires ConfigOk(c) && Inv(c, src, s) && Step(c, src, s, t)
    ensures 0 <= Work(src, t) < Work(src, s)
  {
    StepInv(c, src, s, t);
    if ProducerStep(c, src, s, t) { ProducerWorks(c, src, s, t); } else { ConsumerWorks(c, src, s, t); }
  }

  ghost predicate Run(c: Config, src: seq<Item>, run: seq<State>) {
    run != [] && run[0] == START && forall i | 0 <= i < |run| - 1 :: Step(c, src, run[i], run[i + 1])
  }

  /** Every run keeps the budget and is short: its length is bounded by the length of the source. */
  lemma {:induction false} RunInv(c: Config, src: seq<Item>, run: seq<State>)
    requires ConfigOk(c) && Run(c, src, run)
    ensures Inv(c, src, run[|run| - 1])
    ensures |run| - 1 + Work(src, run[|run| - 1]) <= 18 * |src| + 26
    decreases |run|
  {
    if |run| == 1 {
      StartInv(c, src);
    } else {
      var shorter := run[..|run| - 1];
      RunInv(c, src, shorter);
      var s, t := run[|run| - 2], run[|run| - 1];
      assert s == shorter[|shorter| - 1] && Step(c, src, s, t);
      StepInv(c, src, s, t);
      EveryStepWorks(c, src, s, t);
    }
  }

  /** What has been replayed is always an in-order prefix of the source. */
  lemma ReplayedPrefix(c: Config, src: seq<Item>, s: State, i: nat)
    requires Inv(c, src, s) && i < |s.replayed|
    ensures i < |src| && src[i] == Good(s.replayed[i]) && s.replayed[i].sequence == i
  {
    assert Line(s)[i] == s.replayed[i] && ItemOk(c, src, Line(s)[i], i);
  }

  /** How a run ends. Without failure the whole source has been replayed. With a failure of the source every batch
      before it has been replayed. Otherwise the replay of the next batch failed, and it is not retried. */
  lemma RunOutcome(c: Config, src: seq<Item>, s: State)
    requires ConfigOk(c) && Inv(c, src, s) && Terminal(s)
    ensures !s.consumer.failed ==> |s.replayed| == |src| && !s.failure
    ensures s.consumer.failed && s.consumer.kept.None? ==>
              |s.replayed| < |src| && (src[|s.replayed|].Broken? || src[|s.replayed|].batch.bytes > c.maxBatchBytes)
    ensures s.consumer.kept.Some? ==>
              s.consumer.failed && |s.replayed| < |src| && src[|s.replayed|] == Good(s.consumer.kept.value)
    ensures forall i | 0 <= i < |s.replayed| :: i < |src| && src[i] == Good(s.replayed[i])
  {
    forall i | 0 <= i < |s.replayed| ensures i < |src| && src[i] == Good(s.replayed[i]) { ReplayedPrefix(c, src, s, i); }
    if s.consumer.kept.None? {
      assert Line(s) == s.replayed;
    } else {
      assert Line(s)[|s.replayed|] == s.consumer.kept.value;
      assert ItemOk(c, src, Line(s)[|s.replayed|], |s.replayed|);
    }
  }
}
