/** The list views: filter selection, filter counts and the displayed sort
    order of `TasksView.tsx` and `AnnouncementsView.tsx`, and the DOM
    version's `renderTasksList`, `renderEventsList` and `updateFilterCounts`,
    which use their own date tests and the same comparators. */
module Views {
  import opened Types
  import opened Seqs
  import opened Sorting
  import opened Helpers
  import opened Clock

  // ---- tasks ----

  datatype TaskFilter = AllTasks | TodayFilter | UpcomingFilter | OverdueFilter | CompletedFilter

  /** What a task must satisfy to be listed under a filter. */
  predicate MatchesTaskFilter(f: TaskFilter, t: Task, today: Day)
  {
    match f
    case AllTasks => true
    case TodayFilter => t.status == Pending && t.dueDate == today
    case UpcomingFilter => t.status == Pending && t.dueDate > today
    case OverdueFilter => t.status == Pending && t.dueDate < today
    case CompletedFilter => t.status == Completed
  }

  /** `getFilteredTasks`: the whole list for 'all', otherwise the helper of
      the same name. The result is the input's tasks that match the filter,
      in input order. */
  function FilteredTasks(f: TaskFilter, tasks: seq<Task>, today: Day): (r: seq<Task>)
    ensures f == AllTasks ==> r == tasks
    ensures IsSubsequence(r, tasks)
    ensures forall t :: t in r <==> t in tasks && MatchesTaskFilter(f, t, today)
  {
    match f
    case TodayFilter => TodayTasks(tasks, today)
    case UpcomingFilter => UpcomingTasks(tasks, today)
    case OverdueFilter => OverdueTasks(tasks, today)
    case CompletedFilter => CompletedTasks(tasks)
    case AllTasks => assert IsSubsequence(tasks, tasks) by { SubsequenceRefl(tasks); } tasks
  }

  lemma {:induction false} SubsequenceRefl<T>(s: seq<T>)
    ensures IsSubsequence(s, s)
  {
    if |s| > 0 {
      SubsequenceRefl(s[1..]);
    }
  }

  datatype TaskCounts = TaskCounts(all: nat, today: nat, upcoming: nat, overdue: nat, completed: nat)

  /** `getCounts`: the badge on each filter button. The four date filters
      add up to 'all', and each count is the length of its filtered list. */
  function CountTasks(tasks: seq<Task>, today: Day): (c: TaskCounts)
    ensures c.today + c.upcoming + c.overdue + c.completed == c.all
    ensures c.all == |tasks|
    ensures c.today == |FilteredTasks(TodayFilter, tasks, today)|
    ensures c.upcoming == |FilteredTasks(UpcomingFilter, tasks, today)|
    ensures c.overdue == |FilteredTasks(OverdueFilter, tasks, today)|
    ensures c.completed == |FilteredTasks(CompletedFilter, tasks, today)|
  {
    TaskBucketsPartition(tasks, today);
    TaskCounts(|tasks|, |TodayTasks(tasks, today)|, |UpcomingTasks(tasks, today)|,
               |OverdueTasks(tasks, today)|, |CompletedTasks(tasks)|)
  }

  /** The comparator's order as a key: status (pending first), priority
      (high, medium, low), due date. */
  function TaskKey(t: Task): Key
  {
    Key(StatusRank(t.status), PriorityRank(t.priority), t.dueDate)
  }

  /** The comparator passed to `sort`, returning negative, zero or positive. */
  function CompareTasks(a: Task, b: Task): int
  {
    if a.status != b.status then (if a.status == Pending then -1 else 1)
    else if PriorityRank(a.priority) != PriorityRank(b.priority) then
      PriorityRank(a.priority) - PriorityRank(b.priority)
    else a.dueDate - b.dueDate
  }

  /** The comparator is consistent (swapping the arguments negates its sign)
      and orders tasks exactly as `TaskKey` does. */
  lemma CompareTasksIsKeyOrder(a: Task, b: Task)
    ensures CompareTasks(a, b) <= 0 <==> KeyLe(TaskKey(a), TaskKey(b))
    ensures CompareTasks(a, b) < 0 <==> CompareTasks(b, a) > 0
    ensures CompareTasks(a, b) == 0 <==> TaskKey(a) == TaskKey(b)
  {
  }

  /** The list the tasks view shows: the filtered tasks sorted by the comparator. */
  function DisplayedTasks(f: TaskFilter, tasks: seq<Task>, today: Day): (r: seq<Task>)
    ensures multiset(r) == multiset(FilteredTasks(f, tasks, today))
    ensures forall t :: t in r <==> t in tasks && MatchesTaskFilter(f, t, today)
    ensures forall i, j :: 0 <= i < j < |r| ==> TaskPrecedes(r[i], r[j])
  {
    var s := SortByKey(FilteredTasks(f, tasks, today), TaskKey);
    assert forall t :: t in s <==> t in multiset(s);
    SortedTasksOrder(s);
    s
  }

  /** `a` may be listed before `b`: pending before completed, then by priority
      within a status, then by due date within a status and priority. */
  predicate TaskPrecedes(a: Task, b: Task)
  {
    && (a.status == Completed ==> b.status == Completed)
    && (a.status == b.status ==> PriorityRank(a.priority) <= PriorityRank(b.priority))
    && (a.status == b.status && a.priority == b.priority ==> a.dueDate <= b.dueDate)
  }

  lemma SortedTasksOrder(s: seq<Task>)
    requires SortedBy(s, TaskKey)
    ensures forall i, j :: 0 <= i < j < |s| ==> TaskPrecedes(s[i], s[j])
  {
    forall i, j | 0 <= i < j < |s|
      ensures TaskPrecedes(s[i], s[j])
    {
      assert KeyLe(TaskKey(s[i]), TaskKey(s[j]));
      PriorityRankOrder(s[i].priority, s[j].priority);
    }
  }

  // ---- announcements ----

  datatype AnnouncementFilter = AllAnnouncements | UpcomingAnnouncementsFilter | MissedFilter

  predicate MatchesAnnouncementFilter(f: AnnouncementFilter, a: Announcement, today: Day)
  {
    match f
    case AllAnnouncements => true
    case UpcomingAnnouncementsFilter => a.registrationDeadline >= today
    case MissedFilter => a.registrationDeadline < today
  }

  /** `getFilteredAnnouncements`: the whole list for 'all', otherwise the
      upcoming or missed helper. The result is the input's announcements that
      match the filter, in input order. */
  function FilteredAnnouncements(f: AnnouncementFilter, anns: seq<Announcement>, today: Day): (r: seq<Announcement>)
    ensures f == AllAnnouncements ==> r == anns
    ensures IsSubsequence(r, anns)
    ensures forall a :: a in r <==> a in anns && MatchesAnnouncementFilter(f, a, today)
  {
    match f
    case UpcomingAnnouncementsFilter => UpcomingAnnouncements(anns, today)
    case MissedFilter => MissedAnnouncements(anns, today)
    case AllAnnouncements => assert IsSubsequence(anns, anns) by { SubsequenceRefl(anns); } anns
  }

  datatype AnnouncementCounts = AnnouncementCounts(all: nat, upcoming: nat, missed: nat)

  /** The filter badges: upcoming and missed add up to all. */
  function CountAnnouncements(anns: seq<Announcement>, today: Day): (c: AnnouncementCounts)
    ensures c.upcoming + c.missed == c.all
    ensures c.all == |anns|
    ensures c.upcoming == |FilteredAnnouncements(UpcomingAnnouncementsFilter, anns, today)|
    ensures c.missed == |FilteredAnnouncements(MissedFilter, anns, today)|
  {
    AnnouncementBucketsPartition(anns, today);
    AnnouncementCounts(|anns|, |UpcomingAnnouncements(anns, today)|, |MissedAnnouncements(anns, today)|)
  }

  function AnnouncementKey(a: Announcement): Key
  {
    Key(a.registrationDeadline, 0, 0)
  }

  /** The list the announcements view shows: the filtered announcements in
      ascending order of registration deadline. */
  function DisplayedAnnouncements(f: AnnouncementFilter, anns: seq<Announcement>, today: Day): (r: seq<Announcement>)
    ensures multiset(r) == multiset(FilteredAnnouncements(f, anns, today))
    ensures forall a :: a in r <==> a in anns && MatchesAnnouncementFilter(f, a, today)
    ensures forall i, j :: 0 <= i < j < |r| ==> r[i].registrationDeadline <= r[j].registrationDeadline
  {
    var s := SortByKey(FilteredAnnouncements(f, anns, today), AnnouncementKey);
    assert forall a :: a in s <==> a in multiset(s);
    assert forall i, j :: 0 <= i < j < |s| ==> KeyLe(AnnouncementKey(s[i]), AnnouncementKey(s[j]));
    s
  }

  // ---- the DOM version ----

  /** The filter predicate of `renderTasksList`, with script.js's own date tests. */
  function DomTaskFilter(f: TaskFilter, now: Instant): Task -> bool
  {
    (t: Task) =>
      match f
      case AllTasks => true
      case TodayFilter => t.status == Pending && ScriptIsToday(t.dueDate, now)
      case UpcomingFilter => t.status == Pending && ScriptIsUpcoming(t.dueDate, now)
      case OverdueFilter => t.status == Pending && ScriptIsOverdue(t.dueDate, now)
      case CompletedFilter => t.status == Completed
  }

  /** `renderTasksList`: the filtered copy sorted by the same comparator. It
      lists exactly what the component view lists, in the same order. */
  function DomDisplayedTasks(f: TaskFilter, tasks: seq<Task>, now: Instant): (r: seq<Task>)
    ensures r == DisplayedTasks(f, tasks, DayOf(now))
  {
    DomTaskFilterAgrees(f, tasks, now);
    SortByKey(Filter(tasks, DomTaskFilter(f, now)), TaskKey)
  }

  /** The DOM filter keeps the same tasks as the component one. */
  lemma DomTaskFilterAgrees(f: TaskFilter, tasks: seq<Task>, now: Instant)
    ensures Filter(tasks, DomTaskFilter(f, now)) == FilteredTasks(f, tasks, DayOf(now))
  {
    var today := DayOf(now);
    forall d: Day {
      ScriptTestsReduce(d, now);
    }
    match f
    case AllTasks =>
      FilterKeepsAll(tasks, DomTaskFilter(f, now));
    case TodayFilter =>
      FilterCongruent(tasks, DomTaskFilter(f, now), IsTodayTask(today));
    case UpcomingFilter =>
      FilterCongruent(tasks, DomTaskFilter(f, now), IsUpcomingTask(today));
    case OverdueFilter =>
      FilterCongruent(tasks, DomTaskFilter(f, now), IsOverdueTask(today));
    case CompletedFilter =>
      FilterCongruent(tasks, DomTaskFilter(f, now), IsCompletedTask());
  }

  /** `updateFilterCounts` for tasks: each badge counts what its filter
      lists, so the four date filters add up to 'all'. */
  function DomCountTasks(tasks: seq<Task>, now: Instant): (c: TaskCounts)
    ensures c == CountTasks(tasks, DayOf(now))
  {
    DomTaskFilterAgrees(TodayFilter, tasks, now);
    DomTaskFilterAgrees(UpcomingFilter, tasks, now);
    DomTaskFilterAgrees(OverdueFilter, tasks, now);
    DomTaskFilterAgrees(CompletedFilter, tasks, now);
    TaskCounts(|tasks|, |Filter(tasks, DomTaskFilter(TodayFilter, now))|,
               |Filter(tasks, DomTaskFilter(UpcomingFilter, now))|,
               |Filter(tasks, DomTaskFilter(OverdueFilter, now))|,
               |Filter(tasks, DomTaskFilter(CompletedFilter, now))|)
  }

  /** The filter predicate of `renderEventsList`: 'upcoming' is "not
      overdue", 'missed' is "overdue". */
  function DomEventFilter(f: AnnouncementFilter, now: Instant): Announcement -> bool
  {
    (e: Announcement) =>
      match f
      case AllAnnouncements => true
      case UpcomingAnnouncementsFilter => !ScriptIsOverdue(e.registrationDeadline, now)
      case MissedFilter => ScriptIsOverdue(e.registrationDeadline, now)
  }

  lemma DomEventFilterAgrees(f: AnnouncementFilter, events: seq<Announcement>, now: Instant)
    ensures Filter(events, DomEventFilter(f, now)) == FilteredAnnouncements(f, events, DayOf(now))
  {
    var today := DayOf(now);
    forall d: Day {
      ScriptTestsReduce(d, now);
    }
    match f
    case AllAnnouncements =>
      FilterKeepsAll(events, DomEventFilter(f, now));
    case UpcomingAnnouncementsFilter =>
      FilterCongruent(events, DomEventFilter(f, now), IsOpenAnnouncement(today));
    case MissedFilter =>
      FilterCongruent(events, DomEventFilter(f, now), IsMissedAnnouncement(today));
  }

  /** `renderEventsList`: the filtered copy sorted by registration deadline;
      the same list the component view shows. */
  function DomDisplayedEvents(f: AnnouncementFilter, events: seq<Announcement>, now: Instant): (r: seq<Announcement>)
    ensures r == DisplayedAnnouncements(f, events, DayOf(now))
  {
    DomEventFilterAgrees(f, events, now);
    SortByKey(Filter(events, DomEventFilter(f, now)), AnnouncementKey)
  }

  /** `updateFilterCounts` for events. */
  function DomCountEvents(events: seq<Announcement>, now: Instant): (c: AnnouncementCounts)
    ensures c == CountAnnouncements(events, DayOf(now))
  {
    DomEventFilterAgrees(UpcomingAnnouncementsFilter, events, now);
    DomEventFilterAgrees(MissedFilter, events, now);
    AnnouncementCounts(|events|, |Filter(events, DomEventFilter(UpcomingAnnouncementsFilter, now))|,
                       |Filter(events, DomEventFilter(MissedFilter, now))|)
  }
}
