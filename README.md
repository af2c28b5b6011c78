# Habit tracker streak engine and subscription store, in Dafny

This project models the core of the habit tracker's backend, class `Habit` in
`backend-flask/classes/habits.py`. It has two parts.

- **The streak engine** (module `Streak`, pure functions). A check-off is
  rejected as a duplicate, extends the current streak, or resets it to 0.
  The choice depends on the habit's periodicity (`DAILY`, `WEEKLY` or any
  other string), the subscription's last completion day and today. After an
  accepted check-off the longest streak is updated with the source's own rule.
  That rule reads both counters before the update. `Replay` folds any
  sequence of check-offs for one subscription.
- **The subscription store** (module `HabitStore`, class `Store`). It holds
  three tables in memory:
  - `habits`: a sequence of rows, in table order;
  - `subscriptions`: a map from (habit id, user name) to the row id and the two streak counters;
  - `log`: a sequence of completion events.

  Its methods change these tables the way the class's SQL `INSERT`, `UPDATE`
  and `DELETE` statements do. The queries live in module `Tables`:
  - the first habit with a given name;
  - the habits with a given periodicity;
  - the last completion of a subscription, which is the maximum `completed_at`.

Days are integer day numbers. "Today" is a parameter of `CheckOff`; it is not
read from the clock. The user name is an `Option<string>`, because the class
is constructed with `user_name=None` when no user is given. Errors are values
of `HabitStore.Error`, each with the source's message and `code`.

The store invariant `Valid()` says four things:
- habit names are unique;
- ids are unique and below the next id;
- the log refers only to ids that have been handed out;
- `current_streak <= longest_streak` holds in every subscription row.

The three streak helpers each change one counter. Between them the last
condition can fail; `UpdateStreaks` restores it, and `CheckOff` preserves `Valid()`.

Where the model departs from the literal code, it follows the evident intent:
- `check_off_habit` looks up the subscription by `(habit_id, user_name)`. Line 250 compares `user_habits.id` with the habit id instead.
- An accepted check-off appends a completion event for today after the counters are updated. Line 258 calls `track_habit` with the subscription row id as the habit name instead, and never writes a completion event. `track_habit` then looks up a habit with that name (lines 206 and 401). That normally finds nothing, so the INSERT at line 208 binds the not-found dictionary and raises. If a habit does have that name, a stray `user_habits` row is inserted.
- The last completion is an `Option`. The source returns a truthy error dictionary when there is none (lines 362-363), which makes the "never completed" branch (line 279) unreachable. It also indexes `[0]` into the returned date (line 266) and into the streak rows (line 282).
- `create_habit` inserts the new row. The source has only a placeholder comment at line 145.
- A user-scoped operation on a habit name that does not exist returns `HabitNotFound`. The source passes the not-found dictionary on as an SQL parameter.
- The streak getters return `NotTracking` when the user has no subscription row for the habit. The source returns the `None` of `fetchone()` (lines 166-167 and 187-188), which its route then dereferences (`routes/habits.py` lines 200-201).

Two behaviours of the code are kept exactly as written:
- **The reset branch sets `current_streak` to 0.** It is not set to 1, because no increment follows the reset (lines 277-278 and 323).
- **The longest-streak update uses the counters read before the update** (lines 262-263 and 282-283). In the reset branch this can overwrite `longest_streak` with 0. `Streak.ResetForgetsLongest` and `Streak.DailyScenario` show when that happens. The corrected rule is `Streak.ApplyIntended`, under Findings.

## Model

| member | source | states |
|---|---|---|
| `Streak.Decide` | backend-flask/classes/habits.py:265-280 | A check-off is a duplicate exactly when the last completion is today. It extends exactly when there is no completion or the gap to today is between 1 and the periodicity's window (1 day for DAILY, 7 for WEEKLY, none otherwise). Every other case resets, including a completion dated after today. |
| `Streak.DailyRule` | backend-flask/classes/habits.py:268-278 | DAILY, earlier completion: yesterday extends and any other earlier day resets. |
| `Streak.WeeklyRule` | backend-flask/classes/habits.py:269-278 | WEEKLY, earlier completion: 1 to 7 days ago extends; 8 or more days ago resets. |
| `Streak.Apply` | backend-flask/classes/habits.py:273-283 | Extend raises current by one and Reset sets it to 0. Longest is overwritten with the new current exactly when old current + 1 > old longest, and is otherwise unchanged. `current <= longest` is preserved. On Extend, for all counters, longest becomes the larger of old longest and new current. |
| `Streak.ResetForgetsLongest` | backend-flask/classes/habits.py:277-283 | Under `current <= longest`, an accepted check-off lowers longest if and only if it is a reset and current equals a positive longest. |
| `Streak.ApplyIntended` | backend-flask/classes/habits.py:282-283 | The corrected update: the same current streak as the source, and a longest streak that never decreases, stays at least current, and is either its old value or the new current. |
| `Streak.IntendedAgreesOnExtend` | backend-flask/classes/habits.py:282-283 | For all counters, on Extend the corrected update equals the source's; on Reset both give the same current streak. |
| `Streak.Step` | backend-flask/classes/habits.py:265-283 | A duplicate leaves counters and last completion unchanged. Otherwise the last completion becomes the later of the old one and today, and `current <= longest` is preserved. |
| `Streak.SameDayTwiceInert` | backend-flask/classes/habits.py:271-272 | A second check-off on the same day changes nothing, given no completion after today. |
| `Streak.ReplayKeepsOrdered` | backend-flask/classes/habits.py:273-283 | `current <= longest` holds after any sequence of check-offs that starts from a state where it holds. |
| `Streak.QualifyingRunExtends` | backend-flask/classes/habits.py:273-276 | A run of check-offs, each 1 to `Window` days after the previous completion, raises current by the run's length. Longest ends as the larger of its old value and the new current. The last completion is the run's last day. |
| `Streak.FreshRunCounts` | backend-flask/classes/habits.py:279-283 | From a fresh subscription, k qualifying check-offs leave both counters at k. |
| `Streak.DailyScenario` | backend-flask/classes/habits.py:273-283 | DAILY check-offs on days 1 and 2 give (2, 2). Adding day 4 gives (0, 0) as written; the corrected update gives (0, 2). |
| `Tables.FindHabit` | backend-flask/classes/habits.py:100-104 | It finds nothing exactly when no row has the name. Otherwise it returns the first row with that name. |
| `Tables.FindHabitAppend` | backend-flask/classes/habits.py:141-145 | After a row with a new name is appended, that name finds the new row. Every other name finds what it found before. |
| `Tables.AppendHabit` | backend-flask/classes/habits.py:141-145 | Appending a row under an unused name with the next id keeps names unique and ids unique and below the next id. |
| `Tables.WithPeriodicity` | backend-flask/classes/habits.py:120-121 | The result holds exactly the rows with that periodicity. It is empty exactly when no row has it. |
| `Tables.WithPeriodicityConcat` | backend-flask/classes/habits.py:120-121 | The filter keeps table order: filtering two concatenated tables is the same as concatenating their filters. |
| `Tables.LastCompletion` | backend-flask/classes/habits.py:360-365 | None exactly when the subscription has no completion. Otherwise it is a recorded day of that subscription, and every other day recorded for it is no later. |
| `Tables.LastCompletionAppend` | backend-flask/classes/habits.py:360-365 | Recording a completion moves that subscription's last day to the later of the old one and the new one. Other subscriptions are unaffected. |
| `Tables.LastCompletionAppendOthers` | backend-flask/classes/habits.py:360-365 | Recording a completion leaves every other subscription's last day unchanged. |
| `Tables.RecheckSameDayRejected` | backend-flask/classes/habits.py:271-272 | Once today's completion is recorded, another check-off today is a duplicate, given no completion after today. |
| `Tables.SetCounters` | backend-flask/classes/habits.py:303-343 | Rewriting one row's counters keeps the key set and unique ids. It keeps every row ordered if the new counters are. |
| `Tables.TrackedByRowId` | backend-flask/classes/habits.py:250-253 | The lookup as written compares the row id with the habit id. It finds the user's row for the habit when that row's id happens to equal the habit id. |
| `Tables.RowIdLookupMissesSubscription` | backend-flask/classes/habits.py:250-253 | The lookup as written reports a user as not tracking a habit that the user does track. |
| `HabitStore.Code` | backend-flask/classes/habits.py:102-103 | Code 404 exactly for "Habit not found"; 400 for every other error. |
| `HabitStore.CreateHabitAsWritten` | backend-flask/classes/habits.py:141-145 | The create as written reports an existing name and otherwise leaves the table unchanged. |
| `HabitStore.CreateAsWrittenLosesHabit` | backend-flask/classes/habits.py:141-145 | As written, a habit created under a new name is still not found afterwards. |
| `HabitStore.Store.constructor` | backend-flask/classes/habits.py:61-72 | Starts with empty tables that satisfy the invariant. |
| `HabitStore.Store.GetAllHabits` | backend-flask/classes/habits.py:83-84 | Returns the whole habits table. |
| `HabitStore.Store.GetHabit` | backend-flask/classes/habits.py:100-104 | Returns a row exactly when one has the name, and that row has the name. Otherwise the result is "Habit not found". |
| `HabitStore.Store.GetHabitByPeriodicity` | backend-flask/classes/habits.py:120-121 | Returns exactly the habits with that periodicity, in table order. |
| `HabitStore.Store.CreateHabit` | backend-flask/classes/habits.py:141-145 | An existing name gives "Habit Already Exists" (400) and no table changes. Otherwise a row with a fresh id is appended and can be found by name. Other names' lookups are unchanged. The invariant is kept. |
| `HabitStore.Store.GetCurrentStreak` | backend-flask/classes/habits.py:161-167 | No user gives error 400 and a missing habit gives not-found. No subscription row gives NotTracking. Otherwise the result is the row's current streak. |
| `HabitStore.Store.GetLongestStreak` | backend-flask/classes/habits.py:183-188 | The same cases as the current-streak getter, returning the row's longest streak. |
| `HabitStore.Store.LastCompletedDate` | backend-flask/classes/habits.py:360-365 | Returns the latest completion day of the subscription, or None when it has none. |
| `HabitStore.Store.TrackHabit` | backend-flask/classes/habits.py:204-209 | No user gives error 400 and a missing habit gives not-found; neither changes anything. A new subscription gets a fresh id, counters (0, 0), the assumed column defaults, and no completion. An existing one is left as it is. |
| `HabitStore.Store.UntrackHabit` | backend-flask/classes/habits.py:225-230 | No user gives error 400 and a missing habit gives not-found; neither changes anything. Otherwise the user's row for that habit is removed and nothing else changes. |
| `HabitStore.Store.IncrementStreak` | backend-flask/classes/habits.py:299-304 | No user or a missing habit is an error and changes nothing. Otherwise the user's row, if any, gets current + 1 and no other row changes. |
| `HabitStore.Store.ResetStreak` | backend-flask/classes/habits.py:320-324 | No user or a missing habit is an error and changes nothing. Otherwise the user's row, if any, gets current 0 and no other row changes. |
| `HabitStore.Store.IncrementLongest` | backend-flask/classes/habits.py:340-344 | No user or a missing habit is an error and changes nothing. Otherwise the user's row, if any, gets longest := current and no other row changes. |
| `HabitStore.Store.UpdateStreaks` | backend-flask/classes/habits.py:273-283 | Running the helpers in the source's order on counters read beforehand replaces the row's counters with `Apply` of the old ones. This restores the invariant. |
| `HabitStore.Store.CheckOff` | backend-flask/classes/habits.py:246-283 | No user gives error 400, a missing habit gives not-found, and no subscription gives "User is not tracking this habit". A duplicate gives "Habit already checked off today". All four change nothing. Otherwise the subscription keeps its id and its counters become `Streak.Apply` of the old ones. Exactly one completion event for today is appended to the log. Its counters and last completion move as `Streak.Step` says. Every other subscription, and the habits table, are unchanged, and the invariant is kept. |

## Left out

- HTTP routes (`routes/habits.py`, `routes/analytics.py`), the SQLite connection (`db/db.py`), the schema and seed scripts, and the app bootstrap are not part of this model.
- The schema file is not part of this model, so uniqueness constraints are unknown. The source does no duplicate check in `track_habit`. `HabitStore.Store.TrackHabit` keeps an existing subscription as it is, since the streak getters read that row.
- The wall clock (`datetime.date.today()`) is a parameter. SQL execution, commits and concurrency between requests are not modelled; each method is one atomic step.
- `__get_habit_id` and `__get_habit_periodicity` are not separate members. Both are folded into the name lookup `Tables.FindHabit`, because habit ids are unique.
- `untrack_habit` does not delete the subscription's completion events, so the model keeps them too. The model assumes subscription ids are never reused, as an `AUTOINCREMENT` key would guarantee; the schema is not part of this model. Without `AUTOINCREMENT`, SQLite may reuse the largest row id after a delete. A re-tracked subscription would then inherit the old events, which the model does not capture.
- The INSERT of `track_habit` (line 208) sets only `habit_id` and `user_name`; the starting counters come from column defaults in the schema, which is not part of this model. `HabitStore.Store.TrackHabit` starts a subscription at (0, 0), assuming `DEFAULT 0` on `current_streak` and `longest_streak`. With NULL defaults the increment at line 303 would leave NULL and the comparison at line 282 would fail.
- At most one completion per subscription per day is not proved. It holds only while today is never earlier than a recorded completion, because a completion dated after today makes the next check-off a reset.
- The `description` column is stored but never constrained. HTTP status codes other than the `code` fields in the class's error dictionaries are not modelled.

## Findings

| source | as written | input that shows it | evidently intended | confidence | as-written member | corrected member |
|---|---|---|---|---|---|---|
| backend-flask/classes/habits.py:250 | the subscription lookup matches `user_habits.id` against the habit id | Alice tracks habit 2 through subscription row 1, and the lookup says she is not tracking it | look up by `habit_id` and `user_name` | high, not executed | `Tables.RowIdLookupMissesSubscription` | `HabitStore.Store.CheckOff` |
| backend-flask/classes/habits.py:282-283 | longest := new current whenever the stale old current + 1 > old longest, also after a reset | DAILY counters (2, 2), last completion day 2, check-off on day 4: the result is (0, 0) | longest streak never decreases | high, not executed | `Streak.ResetForgetsLongest` | `Streak.ApplyIntended` |
| backend-flask/classes/habits.py:141-145 | `create_habit` returns without inserting when the name is new | create "Exercise" on an empty table, and it is still not found | insert the new habit | high, not executed | `HabitStore.CreateAsWrittenLosesHabit` | `HabitStore.Store.CreateHabit` |

The store's check-off keeps the as-written longest-streak rule (`Streak.Apply`), so the reset case remains visible in `HabitStore.Store.CheckOff`. The corrected rule `Streak.ApplyIntended` is proved on its own.
