/**
  The three tables behind the habit tracker, as values: `habits`,
  `user_habits` (subscriptions) and `habit_tracker` (the completion log),
  and the read-only queries `check_off_habit` and the getters run on them
  (backend-flask/classes/habits.py).
*/
module Tables {
  import opened Wrappers
  import opened Streak

  /** A `habits` row. */
  datatype HabitRow = HabitRow(id: nat, name: string, description: string, periodicity: string)

  /** A `user_habits` row is keyed by the habit it tracks and the user who tracks it. */
  datatype SubKey = SubKey(habitId: nat, user: string)

  /** The rest of a `user_habits` row: its own id and its two streak counters. */
  datatype SubRow = SubRow(id: nat, counters: Counters)

  /** A `habit_tracker` row: one completion of one subscription on one day. */
  datatype Completion = Completion(subId: nat, day: int)

  /** `SELECT * FROM habits WHERE name = ?` followed by `fetchone()`: the first row with that name. */
  function FindHabit(habits: seq<HabitRow>, name: string): (r: Option<HabitRow>)
    ensures r.None? <==> forall i :: 0 <= i < |habits| ==> habits[i].name != name
    ensures r.Some? ==> r.value.name == name && r.value in habits
    ensures r.Some? ==> exists i :: 0 <= i < |habits| && habits[i] == r.value &&
                                     forall j :: 0 <= j < i ==> habits[j].name != name
    decreases |habits|
  {
    if habits == [] then None
    else if habits[0].name == name then Some(habits[0])
    else
      var r := FindHabit(habits[1..], name);
      assert forall i :: 1 <= i < |habits| ==> habits[i] == habits[1..][i - 1];
      r
  }

  /** Adding a row with a new name leaves every other name's lookup as it was and makes the new one findable. */
  lemma {:induction false} FindHabitAppend(habits: seq<HabitRow>, row: HabitRow, name: string)
    requires FindHabit(habits, row.name).None?
    ensures FindHabit(habits + [row], name) == if name == row.name then Some(row) else FindHabit(habits, name)
    decreases |habits|
  {
    if habits != [] {
      assert (habits + [row])[1..] == habits[1..] + [row];
      if habits[0].name != name {
        FindHabitAppend(habits[1..], row, name);
      }
    }
  }

  /** `SELECT * FROM habits WHERE periodicity = ?`: the rows with that periodicity, in table order. */
  function WithPeriodicity(habits: seq<HabitRow>, periodicity: string): (r: seq<HabitRow>)
    ensures forall h :: h in r <==> h in habits && h.periodicity == periodicity
    ensures |r| <= |habits|
    ensures r == [] <==> forall i :: 0 <= i < |habits| ==> habits[i].periodicity != periodicity
    decreases |habits|
  {
    if habits == [] then []
    else
      var rest := WithPeriodicity(habits[1..], periodicity);
      assert forall h :: h in habits <==> h == habits[0] || h in habits[1..];
      if habits[0].periodicity == periodicity then [habits[0]] + rest else rest
  }

  /** Filtering keeps the table order: a filtered table is the filter of its parts. */
  lemma {:induction false} WithPeriodicityConcat(a: seq<HabitRow>, b: seq<HabitRow>, periodicity: string)
    ensures WithPeriodicity(a + b, periodicity) == WithPeriodicity(a, periodicity) + WithPeriodicity(b, periodicity)
    decreases |a|
  {
    if a == [] {
      assert a + b == b;
    } else {
      assert (a + b)[1..] == a[1..] + b;
      WithPeriodicityConcat(a[1..], b, periodicity);
    }
  }

  /**
    `SELECT completed_at FROM habit_tracker WHERE user_habit_id = ? ORDER BY
    completed_at DESC LIMIT 1`: the latest day recorded for the subscription,
    or None when it has never been completed.
  */
  function LastCompletion(log: seq<Completion>, subId: nat): (r: Option<int>)
    ensures r.None? <==> forall i :: 0 <= i < |log| ==> log[i].subId != subId
    ensures r.Some? ==> Completion(subId, r.value) in log
    ensures r.Some? ==> forall i :: 0 <= i < |log| && log[i].subId == subId ==> log[i].day <= r.value
    decreases |log|
  {
    if log == [] then None
    else
      var init := log[..|log| - 1];
      var e := log[|log| - 1];
      var rest := LastCompletion(init, subId);
      assert forall i :: 0 <= i < |log| - 1 ==> log[i] == init[i];
      assert forall c :: c in init ==> c in log;
      if e.subId != subId then rest else Some(Later(rest, e.day))
  }

  /** Recording a completion moves that subscription's last day to the later of the two, and no other's. */
  lemma LastCompletionAppend(log: seq<Completion>, subId: nat, day: int, other: nat)
    ensures LastCompletion(log + [Completion(subId, day)], subId) == Some(Later(LastCompletion(log, subId), day))
    ensures other != subId ==> LastCompletion(log + [Completion(subId, day)], other) == LastCompletion(log, other)
  {
    assert (log + [Completion(subId, day)])[..|log|] == log;
  }

  /** Recording a completion leaves the last day of every other subscription as it was. */
  lemma LastCompletionAppendOthers(log: seq<Completion>, subId: nat, day: int)
    ensures forall other :: other != subId ==>
              LastCompletion(log + [Completion(subId, day)], other) == LastCompletion(log, other)
  {
    forall other | other != subId
      ensures LastCompletion(log + [Completion(subId, day)], other) == LastCompletion(log, other)
    {
      LastCompletionAppend(log, subId, day, other);
    }
  }

  /**
    After a check-off on `today` is recorded, a second check-off on the same
    day is rejected as a duplicate, whatever the periodicity, provided no
    completion was dated after today.
  */
  lemma RecheckSameDayRejected(log: seq<Completion>, subId: nat, periodicity: string, today: int)
    requires forall i :: 0 <= i < |log| && log[i].subId == subId ==> log[i].day <= today
    ensures Decide(periodicity, LastCompletion(log + [Completion(subId, today)], subId), today) == Duplicate
  {
    LastCompletionAppend(log, subId, today, subId);
  }

  /** Habit names and habit ids are unique, and every habit id is below `nextId`. */
  predicate HabitKeys(habits: seq<HabitRow>, nextId: nat)
  {
    (forall i, j :: 0 <= i < j < |habits| ==> habits[i].name != habits[j].name) &&
    (forall i, j :: 0 <= i < j < |habits| ==> habits[i].id != habits[j].id) &&
    (forall i :: 0 <= i < |habits| ==> habits[i].id < nextId)
  }

  /** Appending a habit under a name not yet used, with id `nextId`, keeps names and ids unique. */
  lemma AppendHabit(habits: seq<HabitRow>, row: HabitRow, nextId: nat)
    requires HabitKeys(habits, nextId) && FindHabit(habits, row.name).None? && row.id == nextId
    ensures HabitKeys(habits + [row], nextId + 1)
  {
    var habits' := habits + [row];
    forall i, j | 0 <= i < j < |habits'| ensures habits'[i].name != habits'[j].name {
      if j == |habits| {
        assert habits'[i] == habits[i];
      }
    }
  }

  /** Every completion refers to a subscription id below `nextId`. */
  predicate LogRefs(log: seq<Completion>, nextId: nat)
  {
    forall i :: 0 <= i < |log| ==> log[i].subId < nextId
  }

  /** Subscription row ids are below `nextId` and no two rows share one. */
  predicate IdsFresh(subs: map<SubKey, SubRow>, nextId: nat)
  {
    (forall k :: k in subs ==> subs[k].id < nextId) &&
    (forall k1, k2 :: k1 in subs && k2 in subs && k1 != k2 ==> subs[k1].id != subs[k2].id)
  }

  /** current_streak <= longest_streak in every subscription row. */
  predicate AllOrdered(subs: map<SubKey, SubRow>)
  {
    forall k :: k in subs ==> Ordered(subs[k].counters)
  }

  /** Rewriting one row's counters keeps the ids, and keeps every row ordered if the new counters are. */
  lemma SetCounters(subs: map<SubKey, SubRow>, key: SubKey, c: Counters, nextId: nat)
    requires key in subs
    ensures var subs' := subs[key := SubRow(subs[key].id, c)];
            subs'.Keys == subs.Keys &&
            (IdsFresh(subs, nextId) ==> IdsFresh(subs', nextId)) &&
            (AllOrdered(subs) && Ordered(c) ==> AllOrdered(subs'))
  {
    var subs' := subs[key := SubRow(subs[key].id, c)];
    assert forall k :: k in subs' ==> subs'[k].id == subs[k].id;
  }

  /**
    The subscription lookup as written at line 250 compares the row's own id
    (`user_habits.id`) with the habit's id. It finds the intended row only
    when that row's id happens to equal the habit's id.
  */
  predicate TrackedByRowId(subs: map<SubKey, SubRow>, habitId: nat, user: string): (r: bool)
    ensures SubKey(habitId, user) in subs && subs[SubKey(habitId, user)].id == habitId ==> r
  {
    exists k :: k in subs && k.user == user && subs[k].id == habitId
  }

  /**
    A user tracking habit 2 through subscription row 1 is reported as not
    tracking it by the as-written lookup, while the intended lookup by
    (habit_id, user_name) finds the row.
  */
  lemma RowIdLookupMissesSubscription()
    ensures var subs := map[SubKey(2, "Alice") := SubRow(1, Counters(0, 0))];
            SubKey(2, "Alice") in subs && !TrackedByRowId(subs, 2, "Alice")
  {
    var subs := map[SubKey(2, "Alice") := SubRow(1, Counters(0, 0))];
    forall k | k in subs ensures subs[k].id != 2 {
      assert k == SubKey(2, "Alice");
    }
  }
}
