/** The date classifier. Instants are milliseconds in local time; a date
    string "YYYY-MM-DD" denotes the midnight that starts its day. Both
    implementations' tests are written here literally — date-fns `isToday`,
    `isTomorrow`, `isYesterday`, `isPast`, `isFuture`, `startOfDay` in the
    component version, and `setHours`/`toDateString` in the DOM version — and
    each is proved to be one comparison of day numbers against
    `today = DayOf(now)`. */
module Clock {
  import opened Types

  const DayMs: int := 86400000

  /** Milliseconds since the epoch, read on the local calendar. */
  type Instant = int

  /** The calendar day an instant falls on. */
  function DayOf(x: Instant): Day
  {
    x / DayMs
  }

  /** `parseISO("YYYY-MM-DD")`: the first millisecond of day `d`. */
  function Midnight(d: Day): Instant
  {
    d * DayMs
  }

  /** `startOfDay(x)`, also `x.setHours(0, 0, 0, 0)`. */
  function StartOfDay(x: Instant): Instant
  {
    Midnight(DayOf(x))
  }

  /** `x.setHours(23, 59, 59, 999)`. */
  function EndOfDay(x: Instant): Instant
  {
    StartOfDay(x) + DayMs - 1
  }

  /** An instant lies in its own day, and a day's midnight lies in that day. */
  lemma DayBounds(x: Instant, d: Day)
    ensures Midnight(DayOf(x)) <= x < Midnight(DayOf(x)) + DayMs
    ensures DayOf(Midnight(d)) == d
    ensures DayOf(x) == d <==> Midnight(d) <= x < Midnight(d) + DayMs
  {
  }

  // ---- date-fns, as the component version calls it ----

  predicate IsSameDay(x: Instant, y: Instant) { DayOf(x) == DayOf(y) }

  predicate IsToday(x: Instant, now: Instant) { IsSameDay(x, now) }

  /** `isSameDay(x, addDays(now, 1))`. */
  predicate IsTomorrow(x: Instant, now: Instant) { IsSameDay(x, now + DayMs) }

  /** `isSameDay(x, subDays(now, 1))`. */
  predicate IsYesterday(x: Instant, now: Instant) { IsSameDay(x, now - DayMs) }

  predicate IsPast(x: Instant, now: Instant) { x < now }

  predicate IsFuture(x: Instant, now: Instant) { x > now }

  /** The component version's date tests, each reduced to a comparison of
      day numbers:
      - `isToday(d)` (helpers.ts, TaskCard, AnnouncementCard, the hook) is `d == today`;
      - `isTomorrow(d)` is `d == today + 1` and `isYesterday(d)` is `d == today - 1`;
      - `isFuture(startOfDay(d)) && !isToday(d)` (getUpcomingTasks) is `d > today`;
      - `isPast(startOfDay(d)) && !isToday(d)` (getOverdueTasks, getMissedAnnouncements,
        the cards' `isPast(d) && !isToday(d)`) is `d < today`;
      - `!isPast(startOfDay(d)) || isToday(d)` (getUpcomingAnnouncements) is `d >= today`;
      - after `!isToday(d)`, the hook's `isPast(d)` is `d < today`. */
  lemma ComponentTestsReduce(d: Day, now: Instant)
    ensures IsToday(Midnight(d), now) <==> d == DayOf(now)
    ensures IsTomorrow(Midnight(d), now) <==> d == DayOf(now) + 1
    ensures IsYesterday(Midnight(d), now) <==> d == DayOf(now) - 1
    ensures IsFuture(StartOfDay(Midnight(d)), now) && !IsToday(Midnight(d), now) <==> d > DayOf(now)
    ensures IsPast(StartOfDay(Midnight(d)), now) && !IsToday(Midnight(d), now) <==> d < DayOf(now)
    ensures IsPast(Midnight(d), now) && !IsToday(Midnight(d), now) <==> d < DayOf(now)
    ensures !IsPast(StartOfDay(Midnight(d)), now) || IsToday(Midnight(d), now) <==> d >= DayOf(now)
  {
    DayBounds(now, d);
    DayBounds(now + DayMs, d);
    DayBounds(now - DayMs, d);
    assert DayOf(now + DayMs) == DayOf(now) + 1;
    assert DayOf(now - DayMs) == DayOf(now) - 1;
  }

  // ---- the DOM version (script.js) ----

  /** `new Date(d).toDateString() === new Date().toDateString()`. */
  predicate ScriptIsToday(d: Day, now: Instant)
  {
    DayOf(Midnight(d)) == DayOf(now)
  }

  /** The end of day `d` has passed and `d` is not today. */
  predicate ScriptIsOverdue(d: Day, now: Instant)
  {
    EndOfDay(Midnight(d)) < now && !ScriptIsToday(d, now)
  }

  /** Midnight of `d` is after midnight of today. */
  predicate ScriptIsUpcoming(d: Day, now: Instant)
  {
    StartOfDay(Midnight(d)) > StartOfDay(now)
  }

  /** `d` falls on the day of `now` advanced by one calendar day. */
  predicate ScriptIsTomorrow(d: Day, now: Instant)
  {
    DayOf(Midnight(d)) == DayOf(now + DayMs)
  }

  /** The DOM version's helpers are day comparisons: today is `d == today`,
      overdue is `d < today`, upcoming is `d > today`, tomorrow is `d == today + 1`. */
  lemma ScriptTestsReduce(d: Day, now: Instant)
    ensures ScriptIsToday(d, now) <==> d == DayOf(now)
    ensures ScriptIsOverdue(d, now) <==> d < DayOf(now)
    ensures ScriptIsUpcoming(d, now) <==> d > DayOf(now)
    ensures ScriptIsTomorrow(d, now) <==> d == DayOf(now) + 1
  {
    DayBounds(now, d);
    DayBounds(now + DayMs, d);
    assert DayOf(now + DayMs) == DayOf(now) + 1;
  }

  /** For every date exactly one of the DOM version's today, overdue and
      upcoming tests holds, and tomorrow is a case of upcoming. */
  lemma ScriptClassifierPartition(d: Day, now: Instant)
    ensures ScriptIsToday(d, now) || ScriptIsOverdue(d, now) || ScriptIsUpcoming(d, now)
    ensures !(ScriptIsToday(d, now) && ScriptIsOverdue(d, now))
    ensures !(ScriptIsToday(d, now) && ScriptIsUpcoming(d, now))
    ensures !(ScriptIsOverdue(d, now) && ScriptIsUpcoming(d, now))
    ensures ScriptIsTomorrow(d, now) ==> ScriptIsUpcoming(d, now)
  {
    ScriptTestsReduce(d, now);
  }

  /** The component version's three task buckets (today, upcoming, overdue)
      also partition the dates. */
  lemma ComponentClassifierPartition(d: Day, now: Instant)
    ensures var today := IsToday(Midnight(d), now);
            var upcoming := IsFuture(StartOfDay(Midnight(d)), now) && !today;
            var overdue := IsPast(StartOfDay(Midnight(d)), now) && !today;
            (today || upcoming || overdue) &&
            !(today && upcoming) && !(today && overdue) && !(upcoming && overdue)
  {
    ComponentTestsReduce(d, now);
  }

  /** `checkDeadlines` in script.js compares midnights: the due date's midnight
      equals today's for `d == today`, is before it for `d < today`, and equals
      tomorrow's midnight (`today` advanced by one day) for `d == today + 1`. */
  lemma ScriptMidnightTestsReduce(d: Day, now: Instant)
    ensures StartOfDay(Midnight(d)) == StartOfDay(now) <==> d == DayOf(now)
    ensures StartOfDay(Midnight(d)) < StartOfDay(now) <==> d < DayOf(now)
    ensures StartOfDay(Midnight(d)) == StartOfDay(now) + DayMs <==> d == DayOf(now) + 1
  {
    DayBounds(now, d);
  }

  /** `groupNotesByDate` in script.js compares a note's midnight with today's,
      yesterday's and that of seven days ago. */
  lemma ScriptNoteBoundsReduce(d: Day, now: Instant)
    ensures Midnight(d) >= StartOfDay(now) <==> d >= DayOf(now)
    ensures Midnight(d) >= StartOfDay(now) - DayMs <==> d >= DayOf(now) - 1
    ensures Midnight(d) >= StartOfDay(now) - 7 * DayMs <==> d >= DayOf(now) - 7
  {
  }
}
