/**
 The search threads of the indexed memory policy. A round raises the epoch and waits until every worker has
 stored its part; a worker runs once per epoch. Every atomic section under the mutex is one step; whoever waits
 tests its condition and sleeps until it is notified.
 */
module WorkerBarrier {
  import opened Prelude

  datatype Phase = Waiting(asleep: bool) | Searching | Gone

  /** A worker: the last epoch it has taken up, and, as a record of history, how often it has searched. */
  datatype Worker = Worker(phase: Phase, seen: nat, runs: nat)

  datatype Caller = Outside | Blocked(asleep: bool) | Joining | Ended

  /** `part` is what a worker's search of an epoch yields. */
  datatype State<R> = State(caller: Caller, workers: seq<Worker>, results: seq<Option<R>>, epoch: nat, pending: nat, stopping: bool)

  function Woken(ws: seq<Worker>): seq<Worker> {
    seq(|ws|, w requires 0 <= w < |ws| => if ws[w].phase.Waiting? then ws[w].(phase := Waiting(false)) else ws[w])
  }

  // ---- Steps ----

  ghost predicate RoundStarts<R>(s: State<R>, t: State<R>) {
    s.caller.Outside? && t == s.(caller := Blocked(false), pending := |s.workers|, epoch := s.epoch + 1, workers := Woken(s.workers))
  }

  ghost predicate CallerWaits<R>(s: State<R>, t: State<R>) {
    s.caller == Blocked(false) && s.pending != 0 && t == s.(caller := Blocked(true))
  }

  ghost predicate RoundReturns<R>(s: State<R>, t: State<R>) {
    s.caller == Blocked(false) && s.pending == 0 && t == s.(caller := Outside)
  }

  ghost predicate Stops<R>(s: State<R>, t: State<R>) {
    s.caller.Outside? && t == s.(caller := Joining, stopping := true, workers := Woken(s.workers))
  }

  ghost predicate Joins<R>(s: State<R>, t: State<R>) {
    s.caller.Joining? && (forall w | 0 <= w < |s.workers| :: s.workers[w].phase.Gone?) && t == s.(caller := Ended)
  }

  ghost predicate Ready<R>(s: State<R>, w: nat)
    requires w < |s.workers|
  {
    s.stopping || s.epoch != s.workers[w].seen
  }

  ghost predicate WorkerWaits<R>(s: State<R>, t: State<R>, w: nat) {
    && w < |s.workers| && s.workers[w].phase == Waiting(false) && !Ready(s, w)
    && t == s.(workers := s.workers[w := s.workers[w].(phase := Waiting(true))])
  }

  ghost predicate WorkerStarts<R>(s: State<R>, t: State<R>, w: nat) {
    && w < |s.workers| && s.workers[w].phase == Waiting(false) && Ready(s, w)
    && t == s.(workers := s.workers[w := if s.stopping then s.workers[w].(phase := Gone)
                                         else s.workers[w].(phase := Searching, seen := s.epoch)])
  }

  ghost predicate WorkerStores<R(!new)>(part: (nat, nat) -> R, s: State<R>, t: State<R>, w: nat) {
    && w < |s.workers| && w < |s.results| && s.workers[w].phase.Searching? && s.pending > 0
    && t == s.(workers := s.workers[w := Worker(Waiting(false), s.workers[w].seen, s.workers[w].runs + 1)],
               results := s.results[w := Some(part(s.workers[w].seen, w))],
               pending := s.pending - 1,
               caller := if s.pending == 1 && s.caller.Blocked? then Blocked(false) else s.caller)
  }

  ghost predicate WorkerStep<R(!new)>(part: (nat, nat) -> R, s: State<R>, t: State<R>, w: nat) {
    WorkerWaits(s, t, w) || WorkerStarts(s, t, w) || WorkerStores(part, s, t, w)
  }

  ghost predicate CallerStep<R>(s: State<R>, t: State<R>) {
    RoundStarts(s, t) || CallerWaits(s, t) || RoundReturns(s, t) || Stops(s, t) || Joins(s, t)
  }

  ghost predicate Step<R(!new)>(part: (nat, nat) -> R, s: State<R>, t: State<R>) {
    CallerStep(s, t) || exists w: nat :: WorkerStep(part, s, t, w)
  }

  // ---- The invariant ----

  predicate Outstanding<R>(s: State<R>, w: nat) {
    w < |s.workers| && (s.workers[w].seen != s.epoch || s.workers[w].phase.Searching?)
  }

  ghost function AllOutstanding<R>(s: State<R>): set<nat> { set w: nat | w < |s.workers| && Outstanding(s, w) }

  /** A worker has searched once in every epoch, the current one included unless it is outstanding. */
  ghost predicate WorkerOk<R(!new)>(part: (nat, nat) -> R, s: State<R>, w: nat) {
    w < |s.workers| ==>
      var k := s.workers[w];
      && (k.phase.Searching? ==> k.seen == s.epoch)
      && (k.phase.Gone? ==> s.stopping)
      && (k.phase == Waiting(true) ==> !Ready(s, w))
      && (if Outstanding(s, w) then s.caller.Blocked? && k.runs + 1 == s.epoch else k.runs == s.epoch)
      && (k.seen == s.epoch && !k.phase.Searching? && s.epoch > 0 ==> w < |s.results| && s.results[w] == Some(part(s.epoch, w)))
  }

  ghost predicate Inv<R(!new)>(part: (nat, nat) -> R, s: State<R>) {
    && |s.results| == |s.workers|
    && (forall w :: WorkerOk(part, s, w))
    && s.pending == |AllOutstanding(s)|
    && (s.caller == Blocked(true) ==> s.pending != 0)
    && (s.stopping <==> s.caller.Joining? || s.caller.Ended?)
  }

  function UpTo(n: nat): (range: set<nat>)
    ensures |range| == n && forall w: nat :: w in range <==> w < n
  {
    if n == 0 then {} else UpTo(n - 1) + {n - 1}
  }

  /** Without outstanding workers no part is pending, and conversely. */
  lemma NoneOutstanding<R(!new)>(part: (nat, nat) -> R, s: State<R>)
    requires Inv(part, s)
    ensures s.pending == 0 <==> forall w :: !Outstanding(s, w)
  {
    if s.pending == 0 {
      forall w: nat ensures !Outstanding(s, w) {
        assert Outstanding(s, w) ==> w in AllOutstanding(s);
      }
    } else {
      var w :| w in AllOutstanding(s);
      assert Outstanding(s, w);
    }
  }

  lemma StartInv<R(!new)>(part: (nat, nat) -> R, s: State<R>)
    requires s.caller.Outside? && |s.results| == |s.workers| && s.epoch == 0 && s.pending == 0 && !s.stopping
    requires forall w | 0 <= w < |s.workers| :: s.workers[w] == Worker(Waiting(false), 0, 0)
    ensures Inv(part, s)
  {
    assert AllOutstanding(s) == {};
  }

  lemma RoundStartsInv<R(!new)>(part: (nat, nat) -> R, s: State<R>, t: State<R>)
    requires Inv(part, s) && RoundStarts(s, t)
    ensures Inv(part, t)
  {
    forall w: nat
      ensures WorkerOk(part, t, w)
      ensures w < |t.workers| ==> Outstanding(t, w)
    {
      assert WorkerOk(part, s, w);
      if w < |s.workers| { SeenBounded(part, s, w); }
    }
    assert AllOutstanding(t) == UpTo(|t.workers|);
  }

  /** No worker is ahead of the epoch when the caller is outside. */
  lemma SeenBounded<R(!new)>(part: (nat, nat) -> R, s: State<R>, w: nat)
    requires Inv(part, s) && w < |s.workers| && !s.caller.Blocked?
    ensures s.workers[w].seen == s.epoch && !s.workers[w].phase.Searching?
  {
    assert WorkerOk(part, s, w);
  }

  lemma CallerInv<R(!new)>(part: (nat, nat) -> R, s: State<R>, t: State<R>)
    requires Inv(part, s) && CallerStep(s, t)
    ensures Inv(part, t)
  {
    if RoundStarts(s, t) {
      RoundStartsInv(part, s, t);
    } else {
      NoneOutstanding(part, s);
      forall w: nat
        ensures WorkerOk(part, t, w)
        ensures Outstanding(t, w) <==> Outstanding(s, w)
      {
        assert WorkerOk(part, s, w);
      }
      assert AllOutstanding(t) == AllOutstanding(s);
    }
  }

  lemma WorkerInv<R(!new)>(part: (nat, nat) -> R, s: State<R>, t: State<R>, w: nat)
    requires Inv(part, s) && WorkerStep(part, s, t, w)
    ensures Inv(part, t)
  {
    assert WorkerOk(part, s, w);
    forall v: nat
      ensures WorkerOk(part, t, v)
      ensures Outstanding(t, v) <==> Outstanding(s, v) && !(v == w && WorkerStores(part, s, t, w))
    {
      assert WorkerOk(part, s, v);
    }
    if WorkerStores(part, s, t, w) {
      assert AllOutstanding(s) == AllOutstanding(t) + {w};
    } else {
      assert AllOutstanding(s) == AllOutstanding(t);
    }
  }

  lemma StepInv<R(!new)>(part: (nat, nat) -> R, s: State<R>, t: State<R>)
    requires Inv(part, s) && Step(part, s, t)
    ensures Inv(part, t)
  {
    if CallerStep(s, t) {
      CallerInv(part, s, t);
    } else {
      var w: nat :| WorkerStep(part, s, t, w);
      WorkerInv(part, s, t, w);
    }
  }

  // ---- What a round gives, and progress ----

  /** When a round returns, every worker has searched exactly once in its epoch, and the results are the parts of
      this epoch, whatever was stored before. */
  lemma RoundComplete<R(!new)>(part: (nat, nat) -> R, s: State<R>, t: State<R>, w: nat)
    requires Inv(part, s) && RoundReturns(s, t) && w < |s.workers| && s.epoch > 0
    ensures s.workers[w].runs == s.epoch && w < |s.results| && s.results[w] == Some(part(s.epoch, w))
  {
    NoneOutstanding(part, s);
    assert WorkerOk(part, s, w) && !Outstanding(s, w);
  }

  /** Until the threads have been joined some thread can take a step: no wake-up is lost. */
  lemma NoDeadlock<R(!new)>(part: (nat, nat) -> R, s: State<R>) returns (t: State<R>)
    requires Inv(part, s) && !s.caller.Ended?
    ensures Step(part, s, t)
  {
    match s.caller
    case Outside =>
      t := s.(caller := Joining, stopping := true, workers := Woken(s.workers));
      assert Stops(s, t);
    case Blocked(_) =>
      NoneOutstanding(part, s);
      if s.pending == 0 {
        t := s.(caller := Outside);
        assert RoundReturns(s, t);
      } else {
        var w :| Outstanding(s, w);
        t := OutstandingMoves(part, s, w);
      }
    case Joining =>
      if w :| 0 <= w < |s.workers| && !s.workers[w].phase.Gone? {
        SeenBounded(part, s, w);
        assert WorkerOk(part, s, w);
        t := s.(workers := s.workers[w := s.workers[w].(phase := Gone)]);
        assert WorkerStarts(s, t, w) && WorkerStep(part, s, t, w);
      } else {
        t := s.(caller := Ended);
        assert Joins(s, t);
      }
  }

  lemma OutstandingMoves<R(!new)>(part: (nat, nat) -> R, s: State<R>, w: nat) returns (t: State<R>)
    requires Inv(part, s) && Outstanding(s, w) && s.caller.Blocked? && s.pending > 0
    ensures Step(part, s, t)
  {
    assert WorkerOk(part, s, w);
    if s.workers[w].phase.Searching? {
      t := s.(workers := s.workers[w := Worker(Waiting(false), s.workers[w].seen, s.workers[w].runs + 1)],
              results := s.results[w := Some(part(s.workers[w].seen, w))],
              pending := s.pending - 1,
              caller := if s.pending == 1 && s.caller.Blocked? then Blocked(false) else s.caller);
      assert WorkerStores(part, s, t, w);
    } else {
      t := s.(workers := s.workers[w := s.workers[w].(phase := Searching, seen := s.epoch)]);
      assert WorkerStarts(s, t, w);
    }
    assert WorkerStep(part, s, t, w);
  }

  function Left(epoch: nat): Worker -> int {
    (k: Worker) =>
      match k.phase
      case Gone => 0
      case Searching => 4
      case Waiting(asleep) => (if k.seen != epoch then 5 else 1) + (if asleep then 0 else 1)
  }

  /** What is left of a round. */
  function Work<R>(s: State<R>): int {
    2 * Sum(Left(s.epoch), s.workers) + (if s.caller == Blocked(false) then 1 else 0)
  }

  lemma {:induction false} LeftNonnegative(epoch: nat, ws: seq<Worker>)
    ensures Sum(Left(epoch), ws) >= 0
  {
    if ws != [] { LeftNonnegative(epoch, ws[1..]); }
  }

  /** A round ends: while it is under way every step but its return lowers what is left. */
  lemma RoundProgresses<R(!new)>(part: (nat, nat) -> R, s: State<R>, t: State<R>)
    requires Inv(part, s) && s.caller.Blocked? && Step(part, s, t) && !RoundReturns(s, t)
    ensures t.caller.Blocked? && t.epoch == s.epoch && 0 <= Work(t) < Work(s)
  {
    LeftNonnegative(t.epoch, t.workers);
    if !CallerStep(s, t) {
      var w: nat :| WorkerStep(part, s, t, w);
      assert WorkerOk(part, s, w);
      SumUpdate(Left(s.epoch), s.workers, w, t.workers[w]);
      assert t.workers == s.workers[w := t.workers[w]];
    }
  }
}
