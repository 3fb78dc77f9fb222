/**
 * Occurrence arithmetic of a schedule trigger. Times are integer milliseconds; the cron library is
 * a parser that answers with a `Calendar`: the least occurrence strictly after a time.
 */
module Occurrences {
  import opened Wrappers

  const MAX_SAFE_INTEGER: int := 0x1F_FFFF_FFFF_FFFF
  const MIN_EVERY_MS: int := 1_000

  /** `At` holds the parsed timestamp, `None` when it does not parse. */
  datatype Trigger =
    | At(at: Option<int>)
    | Every(everyMs: int, anchorMs: int)
    | Cron(expression: string, timeZone: string)

  datatype TriggerError = InvalidAt | InvalidEvery | InvalidAnchor | InvalidCron

  type Calendar = int -> Option<int>

  /** `None` for an expression or a time zone the library refuses. */
  type CronParser = (string, string) -> Option<Calendar>

  /** `next(t)` answers the least member of some set of times after `t`, for every `t`. */
  ghost predicate IsCalendar(next: Calendar) {
    forall t: int :: LeastAfter(next, t)
  }

  ghost predicate LeastAfter(next: Calendar, t: int) {
    match next(t)
    case None => forall later: int | t <= later :: next(later) == None
    case Some(u) => t < u && forall between: int | t <= between < u :: next(between) == Some(u)
  }

  ghost predicate SoundParser(cron: CronParser) {
    forall expression, timeZone ::
      cron(expression, timeZone).Some? ==> IsCalendar(cron(expression, timeZone).value)
  }

  function ValidateEvery(everyMs: int, anchorMs: int): Option<TriggerError> {
    if everyMs > MAX_SAFE_INTEGER || everyMs < MIN_EVERY_MS then Some(InvalidEvery)
    else if anchorMs > MAX_SAFE_INTEGER || anchorMs < 0 then Some(InvalidAnchor)
    else None
  }

  /** The triggers on which neither `ComputeNextRunAt` nor `CountMissedOccurrences` throws. */
  predicate ValidTrigger(cron: CronParser, trigger: Trigger) {
    match trigger
    case At(at) => at.Some?
    case Every(everyMs, anchorMs) => ValidateEvery(everyMs, anchorMs) == None
    case Cron(expression, timeZone) => cron(expression, timeZone).Some?
  }

  function ComputeNextRunAt(cron: CronParser, trigger: Trigger, nowMs: int): Result<Option<int>, TriggerError> {
    match trigger
    case At(at) =>
      if at == None then Failure(InvalidAt)
      else Success(if at.value > nowMs then at else None)
    case Every(everyMs, anchorMs) =>
      var invalid := ValidateEvery(everyMs, anchorMs);
      if invalid.Some? then Failure(invalid.value) else Success(NextEvery(everyMs, anchorMs, nowMs))
    case Cron(expression, timeZone) =>
      var calendar := cron(expression, timeZone);
      if calendar == None then Failure(InvalidCron) else Success(calendar.value(nowMs))
  }

  function NextEvery(everyMs: int, anchorMs: int, nowMs: int): Option<int>
    requires everyMs > 0
  {
    if nowMs < anchorMs then Some(anchorMs)
    else Some(anchorMs + ((nowMs - anchorMs) / everyMs + 1) * everyMs)
  }

  /** A trigger's occurrences, said without the code that searches for them. */
  ghost predicate Occurs(cron: CronParser, trigger: Trigger, t: int)
    requires ValidTrigger(cron, trigger)
  {
    match trigger
    case At(at) => at == Some(t)
    case Every(everyMs, anchorMs) => OnGrid(everyMs, anchorMs, t)
    case Cron(expression, timeZone) => cron(expression, timeZone).value(t - 1) == Some(t)
  }

  ghost predicate OnGrid(everyMs: int, anchorMs: int, t: int) {
    exists k: nat :: t == GridPoint(everyMs, anchorMs, k)
  }

  function GridPoint(everyMs: int, anchorMs: int, k: nat): int {
    anchorMs + k * everyMs
  }

  // ---------------------------------------------------------------- the next occurrence

  lemma GridAscends(everyMs: int, anchorMs: int, i: nat, j: nat)
    requires everyMs > 0
    ensures i < j ==> GridPoint(everyMs, anchorMs, i) + everyMs <= GridPoint(everyMs, anchorMs, j)
    ensures i == j <==> GridPoint(everyMs, anchorMs, i) == GridPoint(everyMs, anchorMs, j)
  {
    if i < j {
      ScaleAscends(i + 1, j, everyMs);
    } else if j < i {
      ScaleAscends(j + 1, i, everyMs);
    }
  }

  lemma ScaleAscends(a: int, b: int, d: int)
    requires a <= b && 0 <= d
    ensures a * d <= b * d
    ensures a * d == (a - 1) * d + d
  {
  }

  /** `NextEvery` is the least grid point strictly after `nowMs`. */
  lemma NextEveryIsLeast(everyMs: int, anchorMs: int, nowMs: int)
    requires everyMs > 0
    ensures NextEvery(everyMs, anchorMs, nowMs).Some?
    ensures var next := NextEvery(everyMs, anchorMs, nowMs).value;
            && nowMs < next
            && OnGrid(everyMs, anchorMs, next)
            && (forall t | OnGrid(everyMs, anchorMs, t) && nowMs < t :: next <= t)
  {
    var next := NextEvery(everyMs, anchorMs, nowMs).value;
    var steps: nat := if nowMs < anchorMs then 0 else (nowMs - anchorMs) / everyMs + 1;
    assert next == GridPoint(everyMs, anchorMs, steps);
    if anchorMs <= nowMs {
      DivisionBounds(nowMs - anchorMs, everyMs);
    }
    forall t | OnGrid(everyMs, anchorMs, t) && nowMs < t
      ensures next <= t
    {
      var k: nat :| t == GridPoint(everyMs, anchorMs, k);
      if k < steps {
        GridAscends(everyMs, anchorMs, k, steps - 1);
      } else {
        GridAscends(everyMs, anchorMs, steps, k);
      }
    }
  }

  lemma DivisionBounds(x: int, d: int)
    requires d > 0
    ensures x / d * d <= x < x / d * d + d
    ensures x >= 0 ==> x / d >= 0
  {
  }

  ghost function EveryCalendar(everyMs: int, anchorMs: int): Calendar
    requires everyMs > 0
  {
    t => NextEvery(everyMs, anchorMs, t)
  }

  lemma EveryIsCalendar(everyMs: int, anchorMs: int)
    requires everyMs > 0
    ensures IsCalendar(EveryCalendar(everyMs, anchorMs))
  {
    forall t: int
      ensures NextEvery(everyMs, anchorMs, t).Some? && t < NextEvery(everyMs, anchorMs, t).value
      ensures forall between | t <= between < NextEvery(everyMs, anchorMs, t).value ::
                NextEvery(everyMs, anchorMs, between) == NextEvery(everyMs, anchorMs, t)
    {
      NextEveryIsLeast(everyMs, anchorMs, t);
      forall between | t <= between < NextEvery(everyMs, anchorMs, t).value
        ensures NextEvery(everyMs, anchorMs, between) == NextEvery(everyMs, anchorMs, t)
      {
        NextEveryIsLeast(everyMs, anchorMs, between);
      }
    }
  }

  /** `ComputeNextRunAt` answers the least occurrence strictly after `nowMs`, and fails on exactly the invalid triggers. */
  lemma NextIsLeastOccurrence(cron: CronParser, trigger: Trigger, nowMs: int)
    requires SoundParser(cron)
    ensures ComputeNextRunAt(cron, trigger, nowMs).Success? <==> ValidTrigger(cron, trigger)
    ensures ValidTrigger(cron, trigger) ==>
              match ComputeNextRunAt(cron, trigger, nowMs).value
              case None => forall t | nowMs < t :: !Occurs(cron, trigger, t)
              case Some(next) =>
                && nowMs < next
                && Occurs(cron, trigger, next)
                && forall t | nowMs < t && Occurs(cron, trigger, t) :: next <= t
  {
    match trigger
    case At(_) =>
    case Every(everyMs, anchorMs) =>
      if ValidTrigger(cron, trigger) {
        NextEveryIsLeast(everyMs, anchorMs, nowMs);
      }
    case Cron(expression, timeZone) =>
      if ValidTrigger(cron, trigger) {
        var next := cron(expression, timeZone).value;
        assert IsCalendar(next) && LeastAfter(next, nowMs);
        forall t | nowMs < t && Occurs(cron, trigger, t)
          ensures next(nowMs).Some? && next(nowMs).value <= t
        {
          assert next(t - 1) == Some(t);
          assert next(nowMs).Some? ==> next(nowMs).value <= t;
        }
        if next(nowMs).Some? {
          assert next(next(nowMs).value - 1) == next(nowMs);
        }
      }
  }

  /** Which triggers are refused, and for what. */
  lemma RefusedTriggers(cron: CronParser, trigger: Trigger, nowMs: int)
    ensures var next := ComputeNextRunAt(cron, trigger, nowMs);
            match trigger
            case At(at) => next == Failure(InvalidAt) <==> at == None
            case Every(every, anchor) =>
              && (next == Failure(InvalidEvery) <==> every < 1_000 || every > 9_007_199_254_740_991)
              && (next == Failure(InvalidAnchor) <==> 1_000 <= every <= 9_007_199_254_740_991 && (anchor < 0 || anchor > 9_007_199_254_740_991))
            case Cron(expression, timeZone) => next == Failure(InvalidCron) <==> cron(expression, timeZone) == None
  {
  }

  // ---------------------------------------------------------------- missed occurrences

  /** The cron branch's loop as a function: step to the next occurrence while it is due. */
  ghost function CountByIteration(next: Calendar, cursor: int, nowMs: int): nat
    requires IsCalendar(next)
    decreases nowMs - cursor
  {
    assert LeastAfter(next, cursor);
    match next(cursor)
    case None => 0
    case Some(t) => if t > nowMs then 0 else 1 + CountByIteration(next, t, nowMs)
  }

  /** What `CountMissedOccurrences` answers for a valid trigger. */
  ghost function Missed(cron: CronParser, trigger: Trigger, scheduledMs: int, nowMs: int): int
    requires SoundParser(cron) && ValidTrigger(cron, trigger)
  {
    if nowMs <= scheduledMs || trigger.At? then 0
    else match trigger
      case Every(everyMs, _) => (nowMs - scheduledMs) / everyMs
      case Cron(expression, timeZone) => CountByIteration(cron(expression, timeZone).value, scheduledMs, nowMs)
  }

  method CountMissedOccurrences(cron: CronParser, trigger: Trigger, scheduledMs: int, nowMs: int)
    returns (result: Result<int, TriggerError>)
    requires SoundParser(cron)
    ensures result.Failure? <==> nowMs > scheduledMs && !trigger.At? && !ValidTrigger(cron, trigger)
    ensures ValidTrigger(cron, trigger) ==> result == Success(Missed(cron, trigger, scheduledMs, nowMs))
  {
    if nowMs <= scheduledMs || trigger.At? {
      return Success(0);
    }
    if trigger.Every? {
      var invalid := ValidateEvery(trigger.everyMs, trigger.anchorMs);
      if invalid.Some? {
        return Failure(invalid.value);
      }
      return Success((nowMs - scheduledMs) / trigger.everyMs);
    }
    var calendar := cron(trigger.expression, trigger.timeZone);
    if calendar == None {
      return Failure(InvalidCron);
    }
    var cursor, missed := scheduledMs, 0;
    while true
      invariant cursor <= nowMs
      invariant missed + CountByIteration(calendar.value, cursor, nowMs)
             == CountByIteration(calendar.value, scheduledMs, nowMs)
      decreases nowMs - cursor
    {
      assert LeastAfter(calendar.value, cursor);
      var next := calendar.value(cursor);
      if next == None || next.value > nowMs {
        return Success(missed);
      }
      missed := missed + 1;
      cursor := next.value;
    }
  }

  /** The loop counts exactly the occurrences after the cursor and not after `nowMs`. */
  lemma {:induction false} IterationCountsOccurrences(next: Calendar, cursor: int, nowMs: int)
    requires IsCalendar(next)
    ensures CountByIteration(next, cursor, nowMs) == |set t | cursor < t <= nowMs && next(t - 1) == Some(t)|
    decreases nowMs - cursor
  {
    var due := set t | cursor < t <= nowMs && next(t - 1) == Some(t);
    assert LeastAfter(next, cursor);
    if next(cursor) == None || next(cursor).value > nowMs {
      forall t | cursor < t <= nowMs
        ensures next(t - 1) != Some(t)
      {
        assert next(cursor).Some? ==> next(t - 1) == next(cursor);
      }
      assert due == {};
    } else {
      var t0 := next(cursor).value;
      var later := set t | t0 < t <= nowMs && next(t - 1) == Some(t);
      IterationCountsOccurrences(next, t0, nowMs);
      assert next(t0 - 1) == Some(t0);
      forall t | cursor < t < t0
        ensures next(t - 1) != Some(t)
      {
        assert next(t - 1) == Some(t0);
      }
      assert due == {t0} + later;
    }
  }

  /** For an `every` trigger the closed form equals the iterate-next loop of the cron branch. */
  lemma {:induction false} ClosedFormIsIteration(everyMs: int, anchorMs: int, scheduledMs: int, nowMs: int)
    requires everyMs > 0 && OnGrid(everyMs, anchorMs, scheduledMs) && scheduledMs <= nowMs
    ensures IsCalendar(EveryCalendar(everyMs, anchorMs))
    ensures (nowMs - scheduledMs) / everyMs
         == CountByIteration(EveryCalendar(everyMs, anchorMs), scheduledMs, nowMs)
    decreases nowMs - scheduledMs
  {
    EveryIsCalendar(everyMs, anchorMs);
    NextAfterGridPoint(everyMs, anchorMs, scheduledMs);
    if scheduledMs + everyMs <= nowMs {
      ClosedFormIsIteration(everyMs, anchorMs, scheduledMs + everyMs, nowMs);
      DivisionStep(nowMs - scheduledMs, everyMs);
    } else {
      DivisionBounds(nowMs - scheduledMs, everyMs);
    }
  }

  lemma DivisionStep(x: int, d: int)
    requires d > 0
    ensures x / d == (x - d) / d + 1
  {
    DivisionBounds(x, d);
    DivisionBounds(x - d, d);
    var q, p := x / d, (x - d) / d;
    if q <= p {
      ScaleAscends(q, p, d);
    } else if p + 2 <= q {
      ScaleAscends(p + 2, q, d);
      ScaleAscends(p + 1, p + 1, d);
    }
  }

  lemma NextAfterGridPoint(everyMs: int, anchorMs: int, t: int)
    requires everyMs > 0 && OnGrid(everyMs, anchorMs, t)
    ensures NextEvery(everyMs, anchorMs, t) == Some(t + everyMs)
    ensures OnGrid(everyMs, anchorMs, t + everyMs)
  {
    var k: nat :| t == GridPoint(everyMs, anchorMs, k);
    assert t + everyMs == GridPoint(everyMs, anchorMs, k + 1);
    NextEveryIsLeast(everyMs, anchorMs, t);
    var next := NextEvery(everyMs, anchorMs, t).value;
    var j: nat :| next == GridPoint(everyMs, anchorMs, j);
    GridAscends(everyMs, anchorMs, k, j);
    GridAscends(everyMs, anchorMs, j, k);
  }

  ghost function CalendarOf(cron: CronParser, trigger: Trigger): Calendar
    requires ValidTrigger(cron, trigger) && !trigger.At?
  {
    if trigger.Every? then EveryCalendar(trigger.everyMs, trigger.anchorMs)
    else cron(trigger.expression, trigger.timeZone).value
  }

  lemma StepsAreOccurrences(cron: CronParser, trigger: Trigger, t: int)
    requires ValidTrigger(cron, trigger) && !trigger.At?
    ensures CalendarOf(cron, trigger)(t - 1) == Some(t) <==> Occurs(cron, trigger, t)
  {
    if trigger.Every? {
      NextEveryIsLeast(trigger.everyMs, trigger.anchorMs, t - 1);
    }
  }

  /** A recurring trigger's missed count is the number of its occurrences after the stored one and not after `nowMs`. */
  lemma MissedCountsOccurrences(cron: CronParser, trigger: Trigger, scheduledMs: int, nowMs: int)
    requires SoundParser(cron) && ValidTrigger(cron, trigger)
    requires !trigger.At? && scheduledMs <= nowMs
    requires trigger.Every? ==> OnGrid(trigger.everyMs, trigger.anchorMs, scheduledMs)
    ensures Missed(cron, trigger, scheduledMs, nowMs)
         == |set t | scheduledMs < t <= nowMs && Occurs(cron, trigger, t)|
  {
    hide OnGrid, SoundParser;
    MissedByIteration(cron, trigger, scheduledMs, nowMs);
    hide Missed, CountByIteration;
    var next := CalendarOf(cron, trigger);
    CalendarIsOne(cron, trigger);
    IterationCountsOccurrences(next, scheduledMs, nowMs);
    hide CalendarOf, Occurs;
    var occurring := set t | scheduledMs < t <= nowMs && Occurs(cron, trigger, t);
    var stepped := set t | scheduledMs < t <= nowMs && next(t - 1) == Some(t);
    forall t
      ensures t in occurring <==> t in stepped
    {
      StepsAreOccurrences(cron, trigger, t);
    }
    assert occurring == stepped;
  }

  lemma CalendarIsOne(cron: CronParser, trigger: Trigger)
    requires SoundParser(cron) && ValidTrigger(cron, trigger) && !trigger.At?
    ensures IsCalendar(CalendarOf(cron, trigger))
  {
    if trigger.Every? {
      EveryIsCalendar(trigger.everyMs, trigger.anchorMs);
    }
  }

  lemma {:induction false} MissedByIteration(cron: CronParser, trigger: Trigger, scheduledMs: int, nowMs: int)
    requires SoundParser(cron) && ValidTrigger(cron, trigger)
    requires !trigger.At? && scheduledMs <= nowMs
    requires trigger.Every? ==> OnGrid(trigger.everyMs, trigger.anchorMs, scheduledMs)
    ensures IsCalendar(CalendarOf(cron, trigger))
    ensures Missed(cron, trigger, scheduledMs, nowMs) == CountByIteration(CalendarOf(cron, trigger), scheduledMs, nowMs)
  {
    CalendarIsOne(cron, trigger);
    if trigger.Every? {
      ClosedFormIsIteration(trigger.everyMs, trigger.anchorMs, scheduledMs, nowMs);
    }
    if nowMs == scheduledMs {
      assert LeastAfter(CalendarOf(cron, trigger), scheduledMs);
    }
  }

  /** Conservation at one claim: the new due time is the old one plus every occurrence claimed or counted missed. */
  lemma ClaimAdvancesByMissed(everyMs: int, anchorMs: int, scheduledMs: int, nowMs: int)
    requires everyMs > 0 && OnGrid(everyMs, anchorMs, scheduledMs) && scheduledMs <= nowMs
    ensures var missed := (nowMs - scheduledMs) / everyMs;
            && missed >= 0
            && NextEvery(everyMs, anchorMs, nowMs) == Some(scheduledMs + (missed + 1) * everyMs)
  {
    var missed := (nowMs - scheduledMs) / everyMs;
    DivisionBounds(nowMs - scheduledMs, everyMs);
    var k: nat :| scheduledMs == GridPoint(everyMs, anchorMs, k);
    var claimed := GridPoint(everyMs, anchorMs, k + missed);
    assert (k + missed) * everyMs == k * everyMs + missed * everyMs;
    assert claimed == scheduledMs + missed * everyMs;
    assert OnGrid(everyMs, anchorMs, claimed);
    NextAfterGridPoint(everyMs, anchorMs, claimed);
    assert (missed + 1) * everyMs == missed * everyMs + everyMs;
    NextEveryIsLeast(everyMs, anchorMs, claimed);
    NextEveryIsLeast(everyMs, anchorMs, nowMs);
  }
}
