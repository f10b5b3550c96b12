/** The derivations in `src/utils/helpers.ts`: the task and announcement
    filters, the urgent count and the completion percentage. Dates are day
    numbers and `today` is explicit; `Clock.ComponentTestsReduce` shows that
    the date-fns tests these filters use are exactly the comparisons below. */
module Helpers {
  import opened Types
  import opened Seqs

  // ---- task filters ----

  function IsTodayTask(today: Day): Task -> bool
  {
    (t: Task) => t.status != Completed && t.dueDate == today
  }

  function IsUpcomingTask(today: Day): Task -> bool
  {
    (t: Task) => t.status != Completed && t.dueDate > today
  }

  function IsOverdueTask(today: Day): Task -> bool
  {
    (t: Task) => t.status != Completed && t.dueDate < today
  }

  function IsCompletedTask(): Task -> bool
  {
    (t: Task) => t.status == Completed
  }

  /** `getTodayTasks`: the pending tasks due today, in input order. */
  function TodayTasks(tasks: seq<Task>, today: Day): (r: seq<Task>)
    ensures IsSubsequence(r, tasks)
    ensures forall t :: t in r <==> t in tasks && t.status == Pending && t.dueDate == today
  {
    Filter(tasks, IsTodayTask(today))
  }

  /** `getUpcomingTasks`: the pending tasks due after today, in input order. */
  function UpcomingTasks(tasks: seq<Task>, today: Day): (r: seq<Task>)
    ensures IsSubsequence(r, tasks)
    ensures forall t :: t in r <==> t in tasks && t.status == Pending && t.dueDate > today
  {
    Filter(tasks, IsUpcomingTask(today))
  }

  /** `getOverdueTasks`: the pending tasks due before today, in input order. */
  function OverdueTasks(tasks: seq<Task>, today: Day): (r: seq<Task>)
    ensures IsSubsequence(r, tasks)
    ensures forall t :: t in r <==> t in tasks && t.status == Pending && t.dueDate < today
  {
    Filter(tasks, IsOverdueTask(today))
  }

  /** `getCompletedTasks`: the completed tasks, whatever their date. */
  function CompletedTasks(tasks: seq<Task>): (r: seq<Task>)
    ensures IsSubsequence(r, tasks)
    ensures forall t :: t in r <==> t in tasks && t.status == Completed
  {
    Filter(tasks, IsCompletedTask())
  }

  /** The four task lists split the input: the three pending lists and the
      completed list are pairwise disjoint, and together they hold every task
      exactly as often as the input does. */
  lemma TaskBucketsPartition(tasks: seq<Task>, today: Day)
    ensures multiset(TodayTasks(tasks, today)) + multiset(UpcomingTasks(tasks, today))
          + multiset(OverdueTasks(tasks, today)) + multiset(CompletedTasks(tasks))
         == multiset(tasks)
    ensures |TodayTasks(tasks, today)| + |UpcomingTasks(tasks, today)|
          + |OverdueTasks(tasks, today)| + |CompletedTasks(tasks)| == |tasks|
    ensures forall t :: t in TodayTasks(tasks, today) ==>
              t !in UpcomingTasks(tasks, today) && t !in OverdueTasks(tasks, today)
              && t !in CompletedTasks(tasks)
    ensures forall t :: t in UpcomingTasks(tasks, today) ==>
              t !in OverdueTasks(tasks, today) && t !in CompletedTasks(tasks)
    ensures forall t :: t in OverdueTasks(tasks, today) ==> t !in CompletedTasks(tasks)
  {
    TaskBucketsCover(tasks, today);
    TaskBucketsDisjoint(tasks, today);
    var a, b := multiset(TodayTasks(tasks, today)), multiset(UpcomingTasks(tasks, today));
    var c, d := multiset(OverdueTasks(tasks, today)), multiset(CompletedTasks(tasks));
    assert |a + b + c + d| == |a| + |b| + |c| + |d|;
  }

  lemma TaskBucketsCover(tasks: seq<Task>, today: Day)
    ensures multiset(TodayTasks(tasks, today)) + multiset(UpcomingTasks(tasks, today))
          + multiset(OverdueTasks(tasks, today)) + multiset(CompletedTasks(tasks))
         == multiset(tasks)
  {
    FilterMultiset(tasks, IsTodayTask(today));
    FilterMultiset(tasks, IsUpcomingTask(today));
    FilterMultiset(tasks, IsOverdueTask(today));
    FilterMultiset(tasks, IsCompletedTask());
    var m := multiset(TodayTasks(tasks, today)) + multiset(UpcomingTasks(tasks, today))
           + multiset(OverdueTasks(tasks, today)) + multiset(CompletedTasks(tasks));
    forall t
      ensures m[t] == multiset(tasks)[t]
    {
      if t.status == Completed {
        assert IsCompletedTask()(t);
      } else if t.dueDate == today {
        assert IsTodayTask(today)(t);
      } else if t.dueDate > today {
        assert IsUpcomingTask(today)(t);
      } else {
        assert IsOverdueTask(today)(t);
      }
    }
    assert m == multiset(tasks);
  }

  lemma TaskBucketsDisjoint(tasks: seq<Task>, today: Day)
    ensures forall t :: t in TodayTasks(tasks, today) ==>
              t !in UpcomingTasks(tasks, today) && t !in OverdueTasks(tasks, today)
              && t !in CompletedTasks(tasks)
    ensures forall t :: t in UpcomingTasks(tasks, today) ==>
              t !in OverdueTasks(tasks, today) && t !in CompletedTasks(tasks)
    ensures forall t :: t in OverdueTasks(tasks, today) ==> t !in CompletedTasks(tasks)
  {
  }

  // ---- announcement filters ----

  function IsOpenAnnouncement(today: Day): Announcement -> bool
  {
    (a: Announcement) => a.registrationDeadline >= today
  }

  function IsMissedAnnouncement(today: Day): Announcement -> bool
  {
    (a: Announcement) => a.registrationDeadline < today
  }

  /** `getUpcomingAnnouncements`: registration closes today or later. */
  function UpcomingAnnouncements(anns: seq<Announcement>, today: Day): (r: seq<Announcement>)
    ensures IsSubsequence(r, anns)
    ensures forall a :: a in r <==> a in anns && a.registrationDeadline >= today
  {
    Filter(anns, IsOpenAnnouncement(today))
  }

  /** `getMissedAnnouncements`: registration closed before today. */
  function MissedAnnouncements(anns: seq<Announcement>, today: Day): (r: seq<Announcement>)
    ensures IsSubsequence(r, anns)
    ensures forall a :: a in r <==> a in anns && a.registrationDeadline < today
  {
    Filter(anns, IsMissedAnnouncement(today))
  }

  /** Upcoming and missed announcements are disjoint and together are the input. */
  lemma AnnouncementBucketsPartition(anns: seq<Announcement>, today: Day)
    ensures multiset(UpcomingAnnouncements(anns, today)) + multiset(MissedAnnouncements(anns, today))
         == multiset(anns)
    ensures |UpcomingAnnouncements(anns, today)| + |MissedAnnouncements(anns, today)| == |anns|
    ensures forall a :: a in UpcomingAnnouncements(anns, today) ==> a !in MissedAnnouncements(anns, today)
  {
    FilterComplement(anns, IsOpenAnnouncement(today), IsMissedAnnouncement(today));
  }

  // ---- urgent count ----

  function IsHighPriority(): Task -> bool
  {
    (t: Task) => t.priority == High
  }

  function IsDeadlineSoon(today: Day): Announcement -> bool
  {
    (a: Announcement) => a.registrationDeadline == today || a.registrationDeadline == today + 1
  }

  /** A task that counts as urgent: pending and either overdue or due today with high priority. */
  function IsUrgentTask(today: Day): Task -> bool
  {
    (t: Task) => t.status == Pending && (t.dueDate < today || (t.dueDate == today && t.priority == High))
  }

  /** `getUrgentCount`: overdue tasks, plus today's high-priority tasks, plus
      announcements whose registration closes today or tomorrow. It is the
      number of urgent tasks plus the number of announcements closing soon. */
  function UrgentCount(tasks: seq<Task>, anns: seq<Announcement>, today: Day): (r: nat)
    ensures r == |Filter(tasks, IsUrgentTask(today))| + |Filter(anns, IsDeadlineSoon(today))|
  {
    UrgentTasksSplit(tasks, today);
    |OverdueTasks(tasks, today)|
      + |Filter(TodayTasks(tasks, today), IsHighPriority())|
      + |Filter(anns, IsDeadlineSoon(today))|
  }

  /** The urgent tasks are the overdue ones plus today's high-priority ones. */
  lemma UrgentTasksSplit(tasks: seq<Task>, today: Day)
    ensures |Filter(tasks, IsUrgentTask(today))|
         == |OverdueTasks(tasks, today)| + |Filter(TodayTasks(tasks, today), IsHighPriority())|
  {
    var urgent := Filter(tasks, IsUrgentTask(today));
    var overdue := OverdueTasks(tasks, today);
    var todayHigh := Filter(TodayTasks(tasks, today), IsHighPriority());
    FilterMultiset(tasks, IsUrgentTask(today));
    FilterMultiset(tasks, IsOverdueTask(today));
    FilterMultiset(tasks, IsTodayTask(today));
    FilterMultiset(TodayTasks(tasks, today), IsHighPriority());
    forall t
      ensures multiset(urgent)[t] == multiset(overdue)[t] + multiset(todayHigh)[t]
    {
      var k := multiset(tasks)[t];
      assert multiset(urgent)[t] == if IsUrgentTask(today)(t) then k else 0;
      assert multiset(overdue)[t] == if IsOverdueTask(today)(t) then k else 0;
      assert multiset(TodayTasks(tasks, today))[t] == if IsTodayTask(today)(t) then k else 0;
      assert multiset(todayHigh)[t]
          == if IsHighPriority()(t) then multiset(TodayTasks(tasks, today))[t] else 0;
    }
    assert multiset(urgent) == multiset(overdue) + multiset(todayHigh);
    assert |multiset(urgent)| == |multiset(overdue) + multiset(todayHigh)|;
  }

  // ---- progress ----

  /** `r` is `num / den` rounded to the nearest integer, halves rounded up
      (`Math.round` on a non-negative quotient). */
  ghost predicate RoundsHalfUp(r: int, num: int, den: int)
  {
    (2 * r - 1) * den <= 2 * num < (2 * r + 1) * den
  }

  /** Integer round-half-up division. */
  function RoundDiv(num: nat, den: nat): (r: nat)
    requires den > 0
    ensures RoundsHalfUp(r, num, den)
  {
    var q := (2 * num + den) / (2 * den);
    assert 2 * num + den == q * (2 * den) + (2 * num + den) % (2 * den);
    q
  }

  /** `calculateProgress`: 0 for no tasks, otherwise the completed share as a
      percentage rounded half up. It lies in [0, 100], is 100 when every task
      is completed and 0 when none is. */
  function Progress(tasks: seq<Task>): (r: nat)
    ensures |tasks| == 0 ==> r == 0
    ensures |tasks| > 0 ==> RoundsHalfUp(r, 100 * |CompletedTasks(tasks)|, |tasks|)
    ensures r <= 100
    ensures |tasks| > 0 && |CompletedTasks(tasks)| == |tasks| ==> r == 100
    ensures |CompletedTasks(tasks)| == 0 ==> r == 0
  {
    if |tasks| == 0 then 0
    else
      var c := |CompletedTasks(tasks)|;
      var n := |tasks|;
      var r := RoundDiv(100 * c, n);
      RoundingBounds(r, c, n);
      r
  }

  /** The rounded percentage of `c` out of `n` is between 0 and 100, and
      exactly 0 or 100 at the extremes. */
  lemma RoundingBounds(r: int, c: nat, n: nat)
    requires n > 0 && c <= n
    requires RoundsHalfUp(r, 100 * c, n)
    ensures 0 <= r <= 100
    ensures c == n ==> r == 100
    ensures c == 0 ==> r == 0
  {
    if r > 100 {
      MulMonotone(201, 2 * r - 1, n);
      MulMonotone(100 * c, 100 * n, 2);
    }
    if r < 0 {
      MulMonotone(2 * r + 1, -1, n);
    }
    if c == n && r < 100 {
      MulMonotone(2 * r + 1, 199, n);
    }
    if c == 0 && r > 0 {
      MulMonotone(1, 2 * r - 1, n);
    }
  }

  /** Multiplying by a non-negative number preserves order. */
  lemma MulMonotone(a: int, b: int, n: int)
    requires a <= b && 0 <= n
    ensures a * n <= b * n
  {
    assert b * n - a * n == (b - a) * n;
  }

  /** At most one integer rounds a quotient half up, so the bracket pins the
      percentage down. */
  lemma RoundsHalfUpUnique(r1: int, r2: int, num: int, den: int)
    requires den > 0
    requires RoundsHalfUp(r1, num, den) && RoundsHalfUp(r2, num, den)
    ensures r1 == r2
  {
    if r1 < r2 {
      MulMonotone(2 * r1 + 1, 2 * r2 - 1, den);
    }
    if r2 < r1 {
      MulMonotone(2 * r2 + 1, 2 * r1 - 1, den);
    }
  }

  /** A quotient that divides evenly rounds to itself. */
  lemma WholeQuotientRounds(num: nat, den: nat)
    requires den > 0 && num % den == 0
    ensures RoundsHalfUp(num / den, num, den)
  {
    var q := num / den;
    assert num == q * den;
    assert (2 * q - 1) * den == 2 * num - den;
    assert (2 * q + 1) * den == 2 * num + den;
  }

  /** When the completed share is a whole percentage, progress is exactly that
      percentage: one completed task of four is 25, three of five is 60. */
  lemma ProgressWholePercent(tasks: seq<Task>)
    requires |tasks| > 0 && (100 * |CompletedTasks(tasks)|) % |tasks| == 0
    ensures Progress(tasks) == 100 * |CompletedTasks(tasks)| / |tasks|
  {
    var num, n := 100 * |CompletedTasks(tasks)|, |tasks|;
    WholeQuotientRounds(num, n);
    RoundsHalfUpUnique(Progress(tasks), num / n, num, n);
  }
}
