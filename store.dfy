/**
  The per-user subscription store of the habit tracker: class `Habit` of
  backend-flask/classes/habits.py with its SQL tables held in memory. Every
  user-scoped operation takes the optional user name the class is built with.
*/
module HabitStore {
  import opened Wrappers
  import opened Streak
  import opened Tables

  /** The error dictionaries the class returns, one constructor per message. */
  datatype Error =
    | MissingUser             // "user_name must be provided"
    | HabitNotFound           // "Habit not found"
    | HabitAlreadyExists      // "Habit Already Exists"
    | NotTracking             // "User is not tracking this habit"
    | AlreadyCheckedOffToday  // "Habit already checked off today"

  /** The `code` field that goes with each error. */
  function Code(e: Error): (code: int)
    ensures code == 404 <==> e == HabitNotFound
    ensures code == 400 <==> e != HabitNotFound
  {
    match e
    case HabitNotFound => 404
    case _ => 400
  }

  datatype Result<+T> = Ok(value: T) | Err(error: Error)

  /**
    `create_habit` as written: it reports an existing name and otherwise
    returns without inserting anything (line 145 is a placeholder comment).
  */
  function CreateHabitAsWritten(habits: seq<HabitRow>, name: string): (r: (Option<Error>, seq<HabitRow>))
    ensures r.1 == habits
    ensures r.0 == Some(HabitAlreadyExists) <==> FindHabit(habits, name).Some?
  {
    if FindHabit(habits, name).Some? then (Some(HabitAlreadyExists), habits) else (None, habits)
  }

  /** As written, a habit "created" under a new name cannot be found afterwards. */
  lemma CreateAsWrittenLosesHabit(habits: seq<HabitRow>, name: string)
    requires FindHabit(habits, name).None?
    ensures CreateHabitAsWritten(habits, name).0.None?
    ensures FindHabit(CreateHabitAsWritten(habits, name).1, name).None?
  {
  }

  class Store {
    var habits: seq<HabitRow>
    var subscriptions: map<SubKey, SubRow>
    var log: seq<Completion>
    var nextHabitId: nat
    var nextSubId: nat

    /**
      Keys of the tables: habit names and ids are unique and below the next
      id; subscription row ids are unique and below the next id, and so is
      every subscription id the completion log mentions.
    */
    ghost predicate Wellformed()
      reads this
    {
      HabitKeys(habits, nextHabitId) && IdsFresh(subscriptions, nextSubId) && LogRefs(log, nextSubId)
    }

    /** The store invariant: well-formed keys and current_streak <= longest_streak in every row. */
    ghost predicate Valid()
      reads this
    {
      Wellformed() && AllOrdered(subscriptions)
    }

    /** The (habit_id, user_name) key of a user-scoped request, when the user and the habit exist. */
    function KeyOf(user: Option<string>, name: string): Option<SubKey>
      reads this`habits
    {
      if user.None? then None
      else match FindHabit(habits, name)
        case None => None
        case Some(h) => Some(SubKey(h.id, user.value))
    }

    /** What the streak engine sees of one subscription. */
    ghost function TrackOf(k: SubKey): Track
      reads this
      requires k in subscriptions
    {
      Track(subscriptions[k].counters, LastCompletion(log, subscriptions[k].id))
    }

    constructor ()
      ensures Valid()
      ensures habits == [] && subscriptions == map[] && log == []
    {
      habits := [];
      subscriptions := map[];
      log := [];
      nextHabitId := 0;
      nextSubId := 0;
    }

    /** `get_all_habits`. */
    method GetAllHabits() returns (rows: seq<HabitRow>)
      ensures rows == habits
    {
      rows := habits;
    }

    /** `get_habit`: the row with that name, or "Habit not found" (404). */
    method GetHabit(name: string) returns (r: Result<HabitRow>)
      ensures r.Ok? <==> exists i :: 0 <= i < |habits| && habits[i].name == name
      ensures r.Ok? ==> r.value in habits && r.value.name == name
      ensures r.Err? ==> r.error == HabitNotFound
    {
      var found := FindHabit(habits, name);
      if found.None? {
        return Err(HabitNotFound);
      }
      return Ok(found.value);
    }

    /** `get_habit_by_periodicity`: every row with that periodicity and no other, in table order. */
    method GetHabitByPeriodicity(periodicity: string) returns (rows: seq<HabitRow>)
      ensures rows == WithPeriodicity(habits, periodicity)
      ensures forall h :: h in rows <==> h in habits && h.periodicity == periodicity
    {
      rows := WithPeriodicity(habits, periodicity);
    }

    /**
      `create_habit`: an existing name is rejected with "Habit Already
      Exists" and nothing changes; otherwise a row with a fresh id is
      appended (the insert the source leaves as a placeholder).
    */
    method CreateHabit(name: string, description: string, periodicity: string) returns (r: Result<HabitRow>)
      requires Valid()
      modifies this
      ensures Valid()
      ensures subscriptions == old(subscriptions) && log == old(log) && nextSubId == old(nextSubId)
      ensures old(FindHabit(habits, name)).Some? ==>
                r == Err(HabitAlreadyExists) && habits == old(habits) && nextHabitId == old(nextHabitId)
      ensures old(FindHabit(habits, name)).None? ==>
                r == Ok(HabitRow(old(nextHabitId), name, description, periodicity)) &&
                habits == old(habits) + [r.value] && nextHabitId == old(nextHabitId) + 1 &&
                FindHabit(habits, name) == Some(r.value)
      ensures forall other :: other != name ==> FindHabit(habits, other) == old(FindHabit(habits, other))
    {
      if FindHabit(habits, name).Some? {
        return Err(HabitAlreadyExists);
      }
      var row := HabitRow(nextHabitId, name, description, periodicity);
      forall other {
        FindHabitAppend(habits, row, other);
      }
      AppendHabit(habits, row, nextHabitId);
      habits := habits + [row];
      nextHabitId := nextHabitId + 1;
      r := Ok(row);
    }

    /**
      `get_habit_current_streak`. A missing habit is an error (the source
      passes the not-found dictionary on as a query parameter); a user
      without a subscription row gets nothing back (modelled as NotTracking).
    */
    method GetCurrentStreak(user: Option<string>, name: string) returns (r: Result<nat>)
      ensures user.None? ==> r == Err(MissingUser)
      ensures user.Some? && FindHabit(habits, name).None? ==> r == Err(HabitNotFound)
      ensures KeyOf(user, name).Some? && KeyOf(user, name).value !in subscriptions ==> r == Err(NotTracking)
      ensures r.Ok? <==> KeyOf(user, name).Some? && KeyOf(user, name).value in subscriptions
      ensures r.Ok? ==> r.value == subscriptions[KeyOf(user, name).value].counters.current
    {
      if user.None? {
        return Err(MissingUser);
      }
      var habit := FindHabit(habits, name);
      if habit.None? {
        return Err(HabitNotFound);
      }
      var key := SubKey(habit.value.id, user.value);
      if key !in subscriptions {
        return Err(NotTracking);
      }
      r := Ok(subscriptions[key].counters.current);
    }

    /** `get_habit_longest_streak`, with the same error cases as the current-streak getter. */
    method GetLongestStreak(user: Option<string>, name: string) returns (r: Result<nat>)
      ensures user.None? ==> r == Err(MissingUser)
      ensures user.Some? && FindHabit(habits, name).None? ==> r == Err(HabitNotFound)
      ensures KeyOf(user, name).Some? && KeyOf(user, name).value !in subscriptions ==> r == Err(NotTracking)
      ensures r.Ok? <==> KeyOf(user, name).Some? && KeyOf(user, name).value in subscriptions
      ensures r.Ok? ==> r.value == subscriptions[KeyOf(user, name).value].counters.longest
    {
      if user.None? {
        return Err(MissingUser);
      }
      var habit := FindHabit(habits, name);
      if habit.None? {
        return Err(HabitNotFound);
      }
      var key := SubKey(habit.value.id, user.value);
      if key !in subscriptions {
        return Err(NotTracking);
      }
      r := Ok(subscriptions[key].counters.longest);
    }

    /**
      `__get_last_completed_habit_tracked_date`: the latest completion day of
      a subscription, None when it has none (the source returns a truthy
      error dictionary there, which would make the "never completed" branch
      of the check-off unreachable).
    */
    method LastCompletedDate(subId: nat) returns (r: Option<int>)
      ensures r == LastCompletion(log, subId)
      ensures r.None? <==> forall i :: 0 <= i < |log| ==> log[i].subId != subId
      ensures r.Some? ==> Completion(subId, r.value) in log
      ensures r.Some? ==> forall i :: 0 <= i < |log| && log[i].subId == subId ==> log[i].day <= r.value
    {
      r := LastCompletion(log, subId);
    }

    /**
      `track_habit`: insert a subscription row with both counters at 0 and a
      fresh id. Tracking a habit already tracked keeps the existing row.
    */
    method TrackHabit(user: Option<string>, name: string) returns (r: Result<()>)
      requires Valid()
      modifies this
      ensures Valid()
      ensures habits == old(habits) && log == old(log) && nextHabitId == old(nextHabitId)
      ensures user.None? ==> r == Err(MissingUser) && unchanged(this)
      ensures user.Some? && FindHabit(habits, name).None? ==> r == Err(HabitNotFound) && unchanged(this)
      ensures KeyOf(user, name).Some? ==> r == Ok(())
      ensures KeyOf(user, name).Some? && KeyOf(user, name).value in old(subscriptions) ==> unchanged(this)
      ensures KeyOf(user, name).Some? && KeyOf(user, name).value !in old(subscriptions) ==>
                subscriptions == old(subscriptions)[KeyOf(user, name).value := SubRow(old(nextSubId), Counters(0, 0))] &&
                nextSubId == old(nextSubId) + 1 &&
                LastCompletion(log, old(nextSubId)).None?
    {
      if user.None? {
        return Err(MissingUser);
      }
      var habit := FindHabit(habits, name);
      if habit.None? {
        return Err(HabitNotFound);
      }
      var key := SubKey(habit.value.id, user.value);
      if key !in subscriptions {
        subscriptions := subscriptions[key := SubRow(nextSubId, Counters(0, 0))];
        nextSubId := nextSubId + 1;
      }
      r := Ok(());
    }

    /**
      `untrack_habit`: delete the user's subscription row, if there is one.
      The completion log is left as it is (no cascade).
    */
    method UntrackHabit(user: Option<string>, name: string) returns (r: Result<()>)
      requires Valid()
      modifies this
      ensures Valid()
      ensures habits == old(habits) && log == old(log)
      ensures nextHabitId == old(nextHabitId) && nextSubId == old(nextSubId)
      ensures user.None? ==> r == Err(MissingUser) && unchanged(this)
      ensures user.Some? && FindHabit(habits, name).None? ==> r == Err(HabitNotFound) && unchanged(this)
      ensures KeyOf(user, name).Some? ==>
                r == Ok(()) && subscriptions == old(subscriptions) - {KeyOf(user, name).value}
    {
      if user.None? {
        return Err(MissingUser);
      }
      var habit := FindHabit(habits, name);
      if habit.None? {
        return Err(HabitNotFound);
      }
      subscriptions := subscriptions - {SubKey(habit.value.id, user.value)};
      r := Ok(());
    }

    /** `__increment_habit_streak`: `current_streak = current_streak + 1` on the user's row, if any. */
    method IncrementStreak(user: Option<string>, name: string) returns (r: Result<()>)
      requires Wellformed()
      modifies this`subscriptions
      ensures Wellformed()
      ensures user.None? ==> r == Err(MissingUser) && unchanged(this)
      ensures user.Some? && FindHabit(habits, name).None? ==> r == Err(HabitNotFound) && unchanged(this)
      ensures KeyOf(user, name).Some? && KeyOf(user, name).value !in old(subscriptions) ==> r == Ok(()) && unchanged(this)
      ensures KeyOf(user, name).Some? && KeyOf(user, name).value in old(subscriptions) ==>
                var k := KeyOf(user, name).value;
                var row := old(subscriptions)[k];
                r == Ok(()) &&
                subscriptions == old(subscriptions)[k := SubRow(row.id, Counters(row.counters.current + 1, row.counters.longest))]
    {
      if user.None? {
        return Err(MissingUser);
      }
      var habit := FindHabit(habits, name);
      if habit.None? {
        return Err(HabitNotFound);
      }
      var key := SubKey(habit.value.id, user.value);
      if key in subscriptions {
        var row := subscriptions[key];
        SetCounters(subscriptions, key, Counters(row.counters.current + 1, row.counters.longest), nextSubId);
        subscriptions := subscriptions[key := SubRow(row.id, Counters(row.counters.current + 1, row.counters.longest))];
      }
      r := Ok(());
    }

    /** `__reset_habit_streak`: `current_streak = 0` on the user's row, if any. */
    method ResetStreak(user: Option<string>, name: string) returns (r: Result<()>)
      requires Wellformed()
      modifies this`subscriptions
      ensures Wellformed()
      ensures user.None? ==> r == Err(MissingUser) && unchanged(this)
      ensures user.Some? && FindHabit(habits, name).None? ==> r == Err(HabitNotFound) && unchanged(this)
      ensures KeyOf(user, name).Some? && KeyOf(user, name).value !in old(subscriptions) ==> r == Ok(()) && unchanged(this)
      ensures KeyOf(user, name).Some? && KeyOf(user, name).value in old(subscriptions) ==>
                var k := KeyOf(user, name).value;
                var row := old(subscriptions)[k];
                r == Ok(()) &&
                subscriptions == old(subscriptions)[k := SubRow(row.id, Counters(0, row.counters.longest))]
    {
      if user.None? {
        return Err(MissingUser);
      }
      var habit := FindHabit(habits, name);
      if habit.None? {
        return Err(HabitNotFound);
      }
      var key := SubKey(habit.value.id, user.value);
      if key in subscriptions {
        var row := subscriptions[key];
        SetCounters(subscriptions, key, Counters(0, row.counters.longest), nextSubId);
        subscriptions := subscriptions[key := SubRow(row.id, Counters(0, row.counters.longest))];
      }
      r := Ok(());
    }

    /** `__increment_longest_streak`: `longest_streak = current_streak` on the user's row, if any. */
    method IncrementLongest(user: Option<string>, name: string) returns (r: Result<()>)
      requires Wellformed()
      modifies this`subscriptions
      ensures Wellformed()
      ensures user.None? ==> r == Err(MissingUser) && unchanged(this)
      ensures user.Some? && FindHabit(habits, name).None? ==> r == Err(HabitNotFound) && unchanged(this)
      ensures KeyOf(user, name).Some? && KeyOf(user, name).value !in old(subscriptions) ==> r == Ok(()) && unchanged(this)
      ensures KeyOf(user, name).Some? && KeyOf(user, name).value in old(subscriptions) ==>
                var k := KeyOf(user, name).value;
                var row := old(subscriptions)[k];
                r == Ok(()) &&
                subscriptions == old(subscriptions)[k := SubRow(row.id, Counters(row.counters.current, row.counters.current))]
    {
      if user.None? {
        return Err(MissingUser);
      }
      var habit := FindHabit(habits, name);
      if habit.None? {
        return Err(HabitNotFound);
      }
      var key := SubKey(habit.value.id, user.value);
      if key in subscriptions {
        var row := subscriptions[key];
        SetCounters(subscriptions, key, Counters(row.counters.current, row.counters.current), nextSubId);
        subscriptions := subscriptions[key := SubRow(row.id, Counters(row.counters.current, row.counters.current))];
      }
      r := Ok(());
    }

    /**
      The counter updates of an accepted check-off (lines 273-283): the
      increment or reset helper, then the longest-streak helper when the
      counters read beforehand satisfy `current + 1 > longest`. Between the
      helper calls current_streak <= longest_streak may fail; it holds again
      once both have run.
    */
    method UpdateStreaks(user: Option<string>, name: string, key: SubKey, d: Decision)
      requires Valid()
      requires KeyOf(user, name) == Some(key) && key in subscriptions && d != Duplicate
      modifies this`subscriptions
      ensures Valid()
      ensures subscriptions ==
                old(subscriptions)[key := SubRow(old(subscriptions)[key].id, Apply(old(subscriptions)[key].counters, d))]
    {
      var row := subscriptions[key];
      // Both counters are read before any update, as at lines 262-263.
      var current := row.counters.current;
      var longest := row.counters.longest;
      ghost var next := Apply(row.counters, d);
      var done: Result<()>;
      if d == Extend {
        done := IncrementStreak(user, name);
        assert subscriptions == old(subscriptions)[key := SubRow(row.id, Counters(current + 1, longest))];
      } else {
        done := ResetStreak(user, name);
        assert subscriptions == old(subscriptions)[key := SubRow(row.id, Counters(0, longest))];
      }
      if current + 1 > longest {
        done := IncrementLongest(user, name);
      }
      assert subscriptions == old(subscriptions)[key := SubRow(row.id, next)];
      SetCounters(old(subscriptions), key, next, nextSubId);
    }

    /**
      `check_off_habit` on day `today`. After the user, habit and
      subscription checks, the engine decides from the periodicity and the
      last completion; a duplicate changes nothing. Otherwise the accepted
      branch runs, and the completion is recorded (the source re-inserts a
      subscription row at line 258 instead, so it never records one). In
      terms of the engine, the subscription moves exactly as `Streak.Step`
      says, and every other subscription stays as it was.
    */
    method CheckOff(user: Option<string>, name: string, today: int) returns (r: Result<()>)
      requires Valid()
      modifies this
      ensures Valid()
      ensures habits == old(habits) && nextHabitId == old(nextHabitId) && nextSubId == old(nextSubId)
      ensures user.None? ==> r == Err(MissingUser) && unchanged(this)
      ensures user.Some? && FindHabit(habits, name).None? ==> r == Err(HabitNotFound) && unchanged(this)
      ensures KeyOf(user, name).Some? && KeyOf(user, name).value !in old(subscriptions) ==>
                r == Err(NotTracking) && unchanged(this)
      ensures KeyOf(user, name).Some? && KeyOf(user, name).value in old(subscriptions) ==>
                var k := KeyOf(user, name).value;
                var p := FindHabit(habits, name).value.periodicity;
                var d := Decide(p, old(TrackOf(k)).last, today);
                (d == Duplicate ==> r == Err(AlreadyCheckedOffToday) && unchanged(this)) &&
                (d != Duplicate ==>
                   r == Ok(()) &&
                   subscriptions == old(subscriptions)[k := SubRow(old(subscriptions)[k].id, Apply(old(subscriptions)[k].counters, d))] &&
                   log == old(log) + [Completion(old(subscriptions)[k].id, today)] &&
                   TrackOf(k) == Step(p, old(TrackOf(k)), today) &&
                   forall k' :: k' in subscriptions && k' != k ==> TrackOf(k') == old(TrackOf(k')))
    {
      if user.None? {
        return Err(MissingUser);
      }
      var habit := FindHabit(habits, name);
      if habit.None? {
        return Err(HabitNotFound);
      }
      var key := SubKey(habit.value.id, user.value);
      if key !in subscriptions {
        return Err(NotTracking);
      }
      var row := subscriptions[key];
      var last := LastCompletedDate(row.id);
      var periodicity := habit.value.periodicity;
      var d := Decide(periodicity, last, today);
      if d == Duplicate {
        return Err(AlreadyCheckedOffToday);
      }
      ghost var before := log;
      LastCompletionAppend(log, row.id, today, row.id);
      LastCompletionAppendOthers(log, row.id, today);
      UpdateStreaks(user, name, key, d);
      assert LogRefs(log + [Completion(row.id, today)], nextSubId);
      log := log + [Completion(row.id, today)];
      assert TrackOf(key) == Step(periodicity, Track(row.counters, last), today);
      r := Ok(());
    }
  }
}
