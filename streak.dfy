/**
  The streak engine of the habit tracker (backend-flask/classes/habits.py,
  `check_off_habit`): which way a check-off goes, and how the two streak
  counters of a subscription change when it is accepted.

  Days are integer day numbers; "today" is supplied by the caller instead of
  being read from the wall clock.
*/
module Streak {
  import opened Wrappers

  const DAILY: string := "DAILY"
  const WEEKLY: string := "WEEKLY"

  /** The three outcomes of a check-off. */
  datatype Decision =
    | Duplicate  // "Habit already checked off today"; nothing is written
    | Extend     // current_streak goes up by one
    | Reset      // current_streak goes back to 0

  /**
    Reference definition: the largest number of days that may separate the
    previous completion from today for the streak to survive. A periodicity
    other than DAILY or WEEKLY has no such window.
  */
  function Window(periodicity: string): nat
  {
    if periodicity == DAILY then 1 else if periodicity == WEEKLY then 7 else 0
  }

  /**
    The case split of `check_off_habit`, in the order the source tests it:
    no previous completion extends; a completion today is a duplicate; DAILY
    and yesterday extends; WEEKLY and within [today - 7, today - 1] extends;
    anything else (including a completion dated after today) resets.
  */
  function Decide(periodicity: string, last: Option<int>, today: int): (d: Decision)
    ensures d == Duplicate <==> last == Some(today)
    ensures d == Extend <==> last.None? || 1 <= today - last.value <= Window(periodicity)
    ensures d == Reset <==> last.Some? && !(0 <= today - last.value <= Window(periodicity))
  {
    match last
    case None => Extend
    case Some(day) =>
      var yesterday := today - 1;
      var lastWeek := today - 7;
      if day == today then Duplicate
      else if periodicity == DAILY && day == yesterday then Extend
      else if periodicity == WEEKLY && lastWeek <= day <= yesterday then Extend
      else Reset
  }

  /** DAILY: only yesterday keeps the streak; any other earlier day resets it. */
  lemma DailyRule(last: int, today: int)
    requires last < today
    ensures Decide(DAILY, Some(last), today) == (if last == today - 1 then Extend else Reset)
  {
  }

  /** WEEKLY: a completion 1 to 7 days ago keeps the streak; 8 or more days ago resets it. */
  lemma WeeklyRule(last: int, today: int)
    requires last < today
    ensures Decide(WEEKLY, Some(last), today) == (if today - last <= 7 then Extend else Reset)
  {
  }

  /** The two counters of one subscription (user_habits row). */
  datatype Counters = Counters(current: nat, longest: nat)

  predicate Ordered(c: Counters)
  {
    c.current <= c.longest
  }

  function Max(a: nat, b: nat): nat
  {
    if a < b then b else a
  }

  /**
    The counter updates of an accepted check-off, as the source sequences
    them: first `__increment_habit_streak` or `__reset_habit_streak`, then,
    if the values read BEFORE the update satisfy `current + 1 > longest`,
    `__increment_longest_streak`, which copies the NEW current streak into
    the longest streak. In the reset branch that copy is 0.
  */
  function Apply(c: Counters, d: Decision): (r: Counters)
    requires d != Duplicate
    ensures d == Extend ==> r.current == c.current + 1
    ensures d == Reset ==> r.current == 0
    ensures c.current + 1 > c.longest ==> r.longest == r.current
    ensures c.current + 1 <= c.longest ==> r.longest == c.longest
    ensures Ordered(c) ==> Ordered(r)
    ensures d == Extend ==> r.longest == Max(c.longest, r.current)
  {
    var current := if d == Extend then c.current + 1 else 0;
    var longest := if c.current + 1 > c.longest then current else c.longest;
    Counters(current, longest)
  }

  /**
    Under the invariant, the as-written update lowers the longest streak
    exactly when a reset hits a subscription whose current streak equals its
    (positive) longest streak.
  */
  lemma ResetForgetsLongest(c: Counters, d: Decision)
    requires Ordered(c) && d != Duplicate
    ensures Apply(c, d).longest < c.longest <==> d == Reset && c.current == c.longest && c.longest > 0
  {
  }

  /**
    The evidently intended update: the longest streak becomes the larger of
    itself and the new current streak, so it never goes down.
  */
  function ApplyIntended(c: Counters, d: Decision): (r: Counters)
    requires d != Duplicate
    ensures d == Extend ==> r.current == c.current + 1
    ensures d == Reset ==> r.current == 0
    ensures r.longest >= c.longest
    ensures Ordered(r)
    ensures r.longest == c.longest || r.longest == r.current
  {
    var current := if d == Extend then c.current + 1 else 0;
    Counters(current, Max(c.longest, current))
  }

  /** The corrected update agrees with the source wherever the source keeps the longest streak. */
  lemma IntendedAgreesOnExtend(c: Counters)
    ensures ApplyIntended(c, Extend) == Apply(c, Extend)
    ensures ApplyIntended(c, Reset).current == Apply(c, Reset).current
  {
  }

  /** What one subscription remembers between check-offs: its counters and its last completion day. */
  datatype Track = Track(counters: Counters, last: Option<int>)

  /** A fresh subscription: both counters 0, never completed. */
  const Fresh: Track := Track(Counters(0, 0), None)

  /**
    One check-off on `today`: a duplicate leaves everything as it was; any
    other decision updates the counters and records today as a completion
    (the last completion is the latest recorded day).
  */
  function Step(periodicity: string, t: Track, today: int): (r: Track)
    ensures Decide(periodicity, t.last, today) == Duplicate ==> r == t
    ensures Decide(periodicity, t.last, today) != Duplicate ==> r.last == Some(Later(t.last, today))
    ensures Ordered(t.counters) ==> Ordered(r.counters)
  {
    var d := Decide(periodicity, t.last, today);
    if d == Duplicate then t else Track(Apply(t.counters, d), Some(Later(t.last, today)))
  }

  /** Checking off twice on the same day: the second call changes nothing (given no completion after today). */
  lemma SameDayTwiceInert(periodicity: string, t: Track, today: int)
    requires t.last.None? || t.last.value <= today
    ensures Step(periodicity, Step(periodicity, t, today), today) == Step(periodicity, t, today)
  {
  }

  /** Check-offs on the given days, in order. */
  function Replay(periodicity: string, t: Track, days: seq<int>): Track
    decreases |days|
  {
    if days == [] then t else Replay(periodicity, Step(periodicity, t, days[0]), days[1..])
  }

  /** current_streak <= longest_streak survives every sequence of check-offs. */
  lemma {:induction false} ReplayKeepsOrdered(periodicity: string, t: Track, days: seq<int>)
    requires Ordered(t.counters)
    ensures Ordered(Replay(periodicity, t, days).counters)
    decreases |days|
  {
    if days != [] {
      ReplayKeepsOrdered(periodicity, Step(periodicity, t, days[0]), days[1..]);
    }
  }

  /**
    Every day in `days` follows the previous completion by at least one day
    and at most the periodicity's window.
  */
  predicate Qualifying(periodicity: string, last: Option<int>, days: seq<int>)
    decreases |days|
  {
    days == [] ||
    ((last.None? || 1 <= days[0] - last.value <= Window(periodicity)) &&
     Qualifying(periodicity, Some(days[0]), days[1..]))
  }

  /**
    A run of qualifying check-offs extends the streak once per day, and the
    longest streak ends as the larger of its old value and the new current
    streak.
  */
  lemma {:induction false} QualifyingRunExtends(periodicity: string, t: Track, days: seq<int>)
    requires Ordered(t.counters)
    requires Qualifying(periodicity, t.last, days)
    ensures Replay(periodicity, t, days).counters.current == t.counters.current + |days|
    ensures Replay(periodicity, t, days).counters.longest == Max(t.counters.longest, t.counters.current + |days|)
    ensures days != [] ==> Replay(periodicity, t, days).last == Some(days[|days| - 1])
    decreases |days|
  {
    if days != [] {
      var next := Step(periodicity, t, days[0]);
      assert Decide(periodicity, t.last, days[0]) == Extend;
      assert next.last == Some(days[0]);
      QualifyingRunExtends(periodicity, next, days[1..]);
    }
  }

  /** From a fresh subscription, k consecutive qualifying check-offs give both counters the value k. */
  lemma FreshRunCounts(periodicity: string, days: seq<int>)
    requires Qualifying(periodicity, None, days)
    ensures Replay(periodicity, Fresh, days).counters == Counters(|days|, |days|)
  {
    QualifyingRunExtends(periodicity, Fresh, days);
  }

  /**
    The DAILY scenario: check off on days 1 and 2, skip day 3, check off on
    day 4. As written the reset leaves current_streak at 0 and also drops
    longest_streak from 2 to 0; the intended update keeps it at 2.
  */
  lemma DailyScenario()
    ensures Replay(DAILY, Fresh, [1, 2]) == Track(Counters(2, 2), Some(2))
    ensures Replay(DAILY, Fresh, [1, 2, 4]) == Track(Counters(0, 0), Some(4))
    ensures ApplyIntended(Counters(2, 2), Decide(DAILY, Some(2), 4)) == Counters(0, 2)
  {
  }
}
