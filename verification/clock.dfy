/** The two periodic boundaries of the simulator: closing a feedback window and a background tick. */
module Clock {
  import opened Prelude

  const MAX_NS: nat := 0xFFFF_FFFF_FFFF_FFFF

  datatype Boundary = Feedback(time: nat) | Background(time: nat)

  /** The next boundary of each kind, 0 for none, and the periods. */
  datatype Schedule = Schedule(feedback: nat, feedbackPeriod: nat, background: nat, backgroundPeriod: nat)

  predicate ScheduleOk(s: Schedule) {
    s.feedback <= MAX_NS && s.background <= MAX_NS
    && (s.feedback > 0 ==> s.feedbackPeriod > 0) && (s.background > 0 ==> s.backgroundPeriod > 0)
  }

  /** The boundary after the next one; none if it would not fit the time type. */
  function Advance(next: nat, period: nat): nat { if next > MAX_NS - period then 0 else next + period }

  predicate Due(next: nat, target: nat) { 0 < next <= target }

  predicate FeedbackFirst(s: Schedule, target: nat) {
    Due(s.feedback, target) && (!Due(s.background, target) || s.feedback <= s.background)
  }

  function Left(next: nat, target: nat): nat { if Due(next, target) then target - next + 1 else 0 }

  /** The first boundary up to `target`, and the schedule after it. */
  function Pop(s: Schedule, target: nat): (Boundary, Schedule)
    requires Due(s.feedback, target) || Due(s.background, target)
  {
    if FeedbackFirst(s, target) then (Feedback(s.feedback), s.(feedback := Advance(s.feedback, s.feedbackPeriod)))
    else (Background(s.background), s.(background := Advance(s.background, s.backgroundPeriod)))
  }

  /** All boundaries up to `target` in order, and the schedule after them. */
  function Boundaries(s: Schedule, target: nat): (r: (seq<Boundary>, Schedule))
    requires ScheduleOk(s)
    ensures ScheduleOk(r.1)
    decreases Left(s.feedback, target) + Left(s.background, target)
  {
    if !Due(s.feedback, target) && !Due(s.background, target) then ([], s)
    else
      var (b, t) := Pop(s, target);
      var (rest, u) := Boundaries(t, target);
      ([b] + rest, u)
  }

  /** Runs both clocks up to `target`. */
  method RunUntil(s: Schedule, target: nat) returns (fired: seq<Boundary>, t: Schedule)
    requires ScheduleOk(s)
    ensures (fired, t) == Boundaries(s, target)
  {
    fired, t := [], s;
    assert fired + Boundaries(s, target).0 == Boundaries(s, target).0;
    while Due(t.feedback, target) || Due(t.background, target)
      invariant ScheduleOk(t)
      invariant Boundaries(s, target) == (fired + Boundaries(t, target).0, Boundaries(t, target).1)
      decreases Left(t.feedback, target) + Left(t.background, target)
    {
      ghost var (b, u) := Pop(t, target);
      assert fired + Boundaries(t, target).0 == (fired + [b]) + Boundaries(u, target).0;
      if FeedbackFirst(t, target) {
        fired := fired + [Feedback(t.feedback)];
        t := t.(feedback := Advance(t.feedback, t.feedbackPeriod));
      } else {
        fired := fired + [Background(t.background)];
        t := t.(background := Advance(t.background, t.backgroundPeriod));
      }
    }
    assert Boundaries(t, target) == ([], t) && fired + [] == fired;
  }

  /** Where time stops in between does not matter: running to `a` and then to `b` fires the same boundaries in the
      same order as running to `b` at once. */
  lemma {:induction false} RunInStages(s: Schedule, a: nat, b: nat)
    requires ScheduleOk(s) && a <= b
    ensures var (first, t) := Boundaries(s, a);
      Boundaries(s, b) == (first + Boundaries(t, b).0, Boundaries(t, b).1)
    decreases Left(s.feedback, a) + Left(s.background, a)
  {
    if Due(s.feedback, a) || Due(s.background, a) {
      var (x, t) := Pop(s, a);
      assert Pop(s, b) == Pop(s, a);
      RunInStages(t, a, b);
      assert Boundaries(s, a).0 == [x] + Boundaries(t, a).0;
      var rest := Boundaries(Boundaries(t, a).1, b).0;
      assert [x] + (Boundaries(t, a).0 + rest) == ([x] + Boundaries(t, a).0) + rest;
    } else {
      assert Boundaries(s, a) == ([], s);
      assert [] + Boundaries(s, b).0 == Boundaries(s, b).0;
    }
  }

  /** A feedback window closes before the background tick of the same time. */
  predicate Before(x: Boundary, y: Boundary) { x.time < y.time || (x.time == y.time && x.Feedback? && y.Background?) }

  ghost predicate Ordered(fired: seq<Boundary>) { forall i, j | 0 <= i < j < |fired| :: Before(fired[i], fired[j]) }

  /** A boundary up to the target that is due from the schedule. */
  predicate FromSchedule(s: Schedule, target: nat, x: Boundary) {
    0 < x.time <= target && if x.Feedback? then 0 < s.feedback <= x.time else 0 < s.background <= x.time
  }

  lemma PopFirst(s: Schedule, target: nat, y: Boundary)
    requires ScheduleOk(s) && (Due(s.feedback, target) || Due(s.background, target))
    requires FromSchedule(Pop(s, target).1, target, y)
    ensures FromSchedule(s, target, y) && FromSchedule(s, target, Pop(s, target).0) && Before(Pop(s, target).0, y)
  {}

  /** Boundaries fire in order of time. */
  lemma {:induction false} BoundariesOrdered(s: Schedule, target: nat)
    requires ScheduleOk(s)
    ensures forall x <- Boundaries(s, target).0 :: FromSchedule(s, target, x)
    ensures Ordered(Boundaries(s, target).0)
    decreases Left(s.feedback, target) + Left(s.background, target)
  {
    if Due(s.feedback, target) || Due(s.background, target) {
      var (x, t) := Pop(s, target);
      BoundariesOrdered(t, target);
      var fired, rest := Boundaries(s, target).0, Boundaries(t, target).0;
      assert fired == [x] + rest;
      forall y | y in rest ensures FromSchedule(s, target, y) && Before(x, y) { PopFirst(s, target, y); }
      forall i, j | 0 <= i < j < |fired| ensures Before(fired[i], fired[j]) {
        assert fired[j] == rest[j - 1] && rest[j - 1] in rest;
        if i == 0 {
          PopFirst(s, target, rest[j - 1]);
        } else {
          assert fired[i] == rest[i - 1];
        }
      }
    }
  }

  // ---- Completeness ----

  /** `time` is a boundary of a clock whose next one is `next`: it lies whole periods later, within the time type. */
  predicate OnClock(next: nat, period: nat, time: nat) {
    0 < next <= time <= MAX_NS && period > 0 && (time - next) % period == 0
  }

  lemma {:induction false} AtLeastOne(e: nat, period: nat)
    requires e >= 1
    ensures e * period >= period
  {
    if e > 1 {
      AtLeastOne(e - 1, period);
      assert e * period == (e - 1) * period + period;
    }
  }

  lemma Multiples(e: int, period: nat)
    ensures e >= 1 ==> e * period >= period
    ensures e <= -1 ==> e * period + period <= 0
    ensures e == 0 ==> e * period == 0
  {
    if e >= 1 { AtLeastOne(e, period); }
    if e <= -1 {
      var f: nat := -e;
      AtLeastOne(f, period);
      assert e * period + f * period == 0;
    }
  }

  lemma Remainder(x: nat, q: nat, r: nat, period: nat)
    requires r < period && x == q * period + r
    ensures x % period == r
  {
    var e := q - x / period;
    assert e * period == x % period - r;
    Multiples(e, period);
  }

  lemma OnePeriodLess(x: nat, period: nat)
    requires 0 < period <= x
    ensures (x - period) % period == x % period
  {
    var q, r := x / period, x % period;
    assert x == q * period + r;
    Multiples(q, period);
    assert x - period == (q - 1) * period + r;
    Remainder(x - period, q - 1, r, period);
  }

  lemma OnNextClock(next: nat, period: nat, time: nat)
    requires 0 < next <= MAX_NS && period > 0
    ensures OnClock(next, period, time) <==> time == next || OnClock(Advance(next, period), period, time)
    ensures OnClock(Advance(next, period), period, time) ==> time > next
  {
    if next == time { Remainder(0, 0, 0, period); }
    if next < time < next + period { Remainder(time - next, 0, time - next, period); }
    if next + period <= time { OnePeriodLess(time - next, period); }
  }

  predicate OnSchedule(s: Schedule, x: Boundary) {
    if x.Feedback? then OnClock(s.feedback, s.feedbackPeriod, x.time) else OnClock(s.background, s.backgroundPeriod, x.time)
  }

  /** No boundary is left out and none is added: exactly the boundaries of the two clocks up to the target fire. */
  lemma {:induction false} BoundariesComplete(s: Schedule, target: nat, x: Boundary)
    requires ScheduleOk(s)
    ensures x in Boundaries(s, target).0 <==> OnSchedule(s, x) && x.time <= target
    decreases Left(s.feedback, target) + Left(s.background, target)
  {
    if Due(s.feedback, target) || Due(s.background, target) {
      var (b, t) := Pop(s, target);
      BoundariesComplete(t, target, x);
      assert Boundaries(s, target).0 == [b] + Boundaries(t, target).0;
      if b.Feedback? {
        OnNextClock(s.feedback, s.feedbackPeriod, x.time);
      } else {
        OnNextClock(s.background, s.backgroundPeriod, x.time);
      }
    }
  }
}
