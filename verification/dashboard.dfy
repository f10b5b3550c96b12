/** The dashboard's derived figures: the component version's `DashboardView`
    (lists from the helpers, today's notes, progress, pending and completed
    counts, three-item previews, the time-of-day greeting) and the DOM
    version's `renderDashboard` and `updateGreeting`, which compute the same
    figures with their own date tests. */
module Dashboard {
  import opened Types
  import opened Seqs
  import opened Clock
  import opened Helpers

  /** What the component dashboard derives from the three collections. */
  datatype Stats = Stats(
    todayTasks: seq<Task>,
    upcomingTasks: seq<Task>,
    overdueTasks: seq<Task>,
    upcomingAnnouncements: seq<Announcement>,
    todayNotes: seq<Note>,
    progress: nat,
    pendingCount: nat,
    completedCount: nat)

  function IsPendingTask(): Task -> bool
  {
    (t: Task) => t.status == Pending
  }

  /** `notes.filter(n => isToday(parseISO(n.date)))`. */
  function IsTodayNote(now: Instant): Note -> bool
  {
    (n: Note) => IsToday(Midnight(n.date), now)
  }

  /** The figures at the top of `DashboardView`. Pending and completed counts
      add up to the number of tasks, today's notes are exactly the notes dated
      today, and each list holds exactly the records its card shows. */
  function ComputeStats(tasks: seq<Task>, anns: seq<Announcement>, notes: seq<Note>, now: Instant): (st: Stats)
    ensures st.pendingCount + st.completedCount == |tasks|
    ensures st.completedCount == |CompletedTasks(tasks)|
    ensures forall n :: n in st.todayNotes <==> n in notes && n.date == DayOf(now)
    ensures IsSubsequence(st.todayNotes, notes)
    ensures forall t :: t in st.todayTasks <==> t in tasks && t.status == Pending && t.dueDate == DayOf(now)
    ensures forall t :: t in st.upcomingTasks <==> t in tasks && t.status == Pending && t.dueDate > DayOf(now)
    ensures forall t :: t in st.overdueTasks <==> t in tasks && t.status == Pending && t.dueDate < DayOf(now)
    ensures forall a :: a in st.upcomingAnnouncements <==> a in anns && a.registrationDeadline >= DayOf(now)
    ensures st.todayTasks == TodayTasks(tasks, DayOf(now)) && st.upcomingTasks == UpcomingTasks(tasks, DayOf(now))
    ensures st.overdueTasks == OverdueTasks(tasks, DayOf(now))
    ensures st.upcomingAnnouncements == UpcomingAnnouncements(anns, DayOf(now))
    ensures st.progress <= 100
    ensures |tasks| == 0 ==> st.progress == 0
    ensures |tasks| > 0 ==> RoundsHalfUp(st.progress, 100 * st.completedCount, |tasks|)
  {
    var today := DayOf(now);
    var todayNotes := Filter(notes, IsTodayNote(now));
    assert forall n :: IsTodayNote(now)(n) <==> n.date == today by {
      forall n: Note
        ensures IsTodayNote(now)(n) <==> n.date == today
      {
        ComponentTestsReduce(n.date, now);
      }
    }
    var pending := Filter(tasks, IsPendingTask());
    FilterComplement(tasks, IsPendingTask(), IsCompletedTask());
    Stats(TodayTasks(tasks, today), UpcomingTasks(tasks, today), OverdueTasks(tasks, today),
          UpcomingAnnouncements(anns, today), todayNotes, Progress(tasks),
          |pending|, |CompletedTasks(tasks)|)
  }

  /** What the dashboard's cards show of the figures. */
  datatype Panels = Panels(
    showOverdue: bool,
    overduePreview: seq<Task>,
    todayList: seq<Task>,
    announcementPreview: seq<Announcement>,
    showTodayNotes: bool)

  /** The overdue block appears exactly when there are overdue tasks and
      previews at most three of them, the announcements card previews at most
      three, and today's tasks are listed in full. Previews are the leading
      records of their lists. */
  function ShowPanels(st: Stats): (p: Panels)
    ensures p.showOverdue <==> |st.overdueTasks| > 0
    ensures |p.overduePreview| == if |st.overdueTasks| < 3 then |st.overdueTasks| else 3
    ensures p.overduePreview == st.overdueTasks[..|p.overduePreview|]
    ensures |p.announcementPreview| == if |st.upcomingAnnouncements| < 3 then |st.upcomingAnnouncements| else 3
    ensures p.announcementPreview == st.upcomingAnnouncements[..|p.announcementPreview|]
    ensures p.todayList == st.todayTasks
    ensures p.showTodayNotes <==> |st.todayNotes| > 0
  {
    Panels(|st.overdueTasks| > 0, Take(st.overdueTasks, 3), st.todayTasks,
           Take(st.upcomingAnnouncements, 3), |st.todayNotes| > 0)
  }

  /** Every previewed overdue task is pending and due before today, and every
      previewed announcement is still open. */
  lemma PreviewsAreFromTheirLists(tasks: seq<Task>, anns: seq<Announcement>, notes: seq<Note>, now: Instant)
    ensures var p := ShowPanels(ComputeStats(tasks, anns, notes, now));
            && (forall i :: 0 <= i < |p.overduePreview| ==>
                  p.overduePreview[i] in tasks && p.overduePreview[i].status == Pending
                  && p.overduePreview[i].dueDate < DayOf(now))
            && (forall i :: 0 <= i < |p.announcementPreview| ==>
                  p.announcementPreview[i] in anns && p.announcementPreview[i].registrationDeadline >= DayOf(now))
  {
    var st := ComputeStats(tasks, anns, notes, now);
    var p := ShowPanels(st);
    forall i | 0 <= i < |p.overduePreview|
      ensures p.overduePreview[i] in st.overdueTasks
    {
      assert p.overduePreview[i] == st.overdueTasks[i];
    }
    forall i | 0 <= i < |p.announcementPreview|
      ensures p.announcementPreview[i] in st.upcomingAnnouncements
    {
      assert p.announcementPreview[i] == st.upcomingAnnouncements[i];
    }
  }

  // ---- the DOM version ----

  /** What `renderDashboard` writes into the page. */
  datatype DomStats = DomStats(
    pendingCount: nat,
    completedCount: nat,
    overdueTasks: seq<Task>,
    upcomingEvents: seq<Announcement>,
    todayTasks: seq<Task>,
    progress: nat)

  function IsDomOverdueTask(now: Instant): Task -> bool
  {
    (t: Task) => t.status == Pending && ScriptIsOverdue(t.dueDate, now)
  }

  function IsDomTodayTask(now: Instant): Task -> bool
  {
    (t: Task) => t.status == Pending && ScriptIsToday(t.dueDate, now)
  }

  function IsDomUpcomingEvent(now: Instant): Announcement -> bool
  {
    (e: Announcement) => !ScriptIsOverdue(e.registrationDeadline, now)
  }

  /** `renderDashboard`'s figures, with the DOM version's own date tests and
      its own progress expression `tasks.length > 0 ? Math.round(...) : 0`. */
  function DomComputeStats(tasks: seq<Task>, events: seq<Announcement>, now: Instant): (st: DomStats)
    ensures st.pendingCount + st.completedCount == |tasks|
    ensures forall t :: t in st.overdueTasks <==> t in tasks && t.status == Pending && t.dueDate < DayOf(now)
    ensures forall t :: t in st.todayTasks <==> t in tasks && t.status == Pending && t.dueDate == DayOf(now)
    ensures forall e :: e in st.upcomingEvents <==> e in events && e.registrationDeadline >= DayOf(now)
    ensures st.progress <= 100
  {
    forall d: Day {
      ScriptTestsReduce(d, now);
    }
    var pending := Filter(tasks, IsPendingTask());
    var completed := Filter(tasks, IsCompletedTask());
    FilterComplement(tasks, IsPendingTask(), IsCompletedTask());
    var progress := if |tasks| > 0 then RoundDiv(100 * |completed|, |tasks|) else 0;
    assert progress == Progress(tasks);
    DomStats(|pending|, |completed|, Filter(tasks, IsDomOverdueTask(now)),
             Filter(events, IsDomUpcomingEvent(now)), Filter(tasks, IsDomTodayTask(now)), progress)
  }

  /** The two dashboards show the same lists, in the same order, and the same
      counts and progress. */
  lemma DashboardVariantsAgree(tasks: seq<Task>, anns: seq<Announcement>, notes: seq<Note>, now: Instant)
    ensures var st := ComputeStats(tasks, anns, notes, now);
            var dom := DomComputeStats(tasks, anns, now);
            && dom.overdueTasks == st.overdueTasks
            && dom.todayTasks == st.todayTasks
            && dom.upcomingEvents == st.upcomingAnnouncements
            && dom.pendingCount == st.pendingCount
            && dom.completedCount == st.completedCount
            && dom.progress == st.progress
  {
    var today := DayOf(now);
    forall d: Day {
      ScriptTestsReduce(d, now);
    }
    FilterCongruent(tasks, IsDomOverdueTask(now), IsOverdueTask(today));
    FilterCongruent(tasks, IsDomTodayTask(now), IsTodayTask(today));
    FilterCongruent(anns, IsDomUpcomingEvent(now), IsOpenAnnouncement(today));
  }

  // ---- greeting ----

  datatype TimeOfDay = Morning | Afternoon | Evening

  /** `getTimeOfDay`: before noon, before five in the afternoon, or later. */
  function TimeOfDayAt(hour: int): (r: TimeOfDay)
    ensures r == Morning <==> hour < 12
    ensures r == Afternoon <==> 12 <= hour < 17
    ensures r == Evening <==> 17 <= hour
  {
    if hour < 12 then Morning
    else if hour < 17 then Afternoon
    else Evening
  }

  function TimeOfDayWord(t: TimeOfDay): string
  {
    match t
    case Morning => "morning"
    case Afternoon => "afternoon"
    case Evening => "evening"
  }

  /** `updateGreeting`: 'Good morning' unless the hour is in [12, 17) or at
      least 17. */
  function DomGreeting(hour: int): string
  {
    if hour >= 12 && hour < 17 then "Good afternoon"
    else if hour >= 17 then "Good evening"
    else "Good morning"
  }

  /** Both versions greet with the same word for every hour. */
  lemma GreetingsAgree(hour: int)
    ensures DomGreeting(hour) == "Good " + TimeOfDayWord(TimeOfDayAt(hour))
  {
  }

  /** `new Date().getHours()` of a local instant. */
  function HourOf(now: Instant): (h: nat)
    ensures h < 24
    ensures Midnight(DayOf(now)) + h * 3600000 <= now < Midnight(DayOf(now)) + (h + 1) * 3600000
  {
    DayBounds(now, DayOf(now));
    (now - Midnight(DayOf(now))) / 3600000
  }
}
