/** The badge flags the task and announcement cards compute from the current
    instant (`TaskCard.tsx`, `AnnouncementCard.tsx`), written with date-fns'
    tests and related to the list helpers. */
module Cards {
  import opened Types
  import opened Clock
  import Helpers

  datatype TaskFlags = TaskFlags(isOverdue: bool, isDueToday: bool)

  /** `isOverdue = isPast(due) && !isToday(due) && status !== 'completed'` and
      `isDueToday = isToday(due) && status !== 'completed'`: a pending task due
      before today, and a pending task due today. */
  function TaskCardFlags(t: Task, now: Instant): (f: TaskFlags)
    ensures f.isOverdue <==> t.status == Pending && t.dueDate < DayOf(now)
    ensures f.isDueToday <==> t.status == Pending && t.dueDate == DayOf(now)
  {
    var due := Midnight(t.dueDate);
    ComponentTestsReduce(t.dueDate, now);
    TaskFlags(IsPast(due, now) && !IsToday(due, now) && t.status != Completed,
              IsToday(due, now) && t.status != Completed)
  }

  /** The card flags never both hold, a completed task carries neither, and
      they agree with membership in the overdue and today lists. */
  lemma TaskCardAgreesWithLists(tasks: seq<Task>, t: Task, now: Instant)
    requires t in tasks
    ensures !(TaskCardFlags(t, now).isOverdue && TaskCardFlags(t, now).isDueToday)
    ensures t.status == Completed ==> !TaskCardFlags(t, now).isOverdue && !TaskCardFlags(t, now).isDueToday
    ensures TaskCardFlags(t, now).isOverdue <==> t in Helpers.OverdueTasks(tasks, DayOf(now))
    ensures TaskCardFlags(t, now).isDueToday <==> t in Helpers.TodayTasks(tasks, DayOf(now))
  {
  }

  datatype AnnouncementFlags = AnnouncementFlags(isMissed: bool, isDeadlineToday: bool, isDeadlineTomorrow: bool)

  /** `isMissed = isPast(deadline) && !isToday(deadline)`, `isDeadlineToday`,
      `isDeadlineTomorrow`: registration closed before today, closes today,
      closes tomorrow. */
  function AnnouncementCardFlags(a: Announcement, now: Instant): (f: AnnouncementFlags)
    ensures f.isMissed <==> a.registrationDeadline < DayOf(now)
    ensures f.isDeadlineToday <==> a.registrationDeadline == DayOf(now)
    ensures f.isDeadlineTomorrow <==> a.registrationDeadline == DayOf(now) + 1
  {
    var deadline := Midnight(a.registrationDeadline);
    ComponentTestsReduce(a.registrationDeadline, now);
    AnnouncementFlags(IsPast(deadline, now) && !IsToday(deadline, now),
                      IsToday(deadline, now), IsTomorrow(deadline, now))
  }

  /** At most one announcement flag holds, a deadline two or more days away
      carries none, and "missed" agrees with the missed list. */
  lemma AnnouncementCardAgreesWithLists(anns: seq<Announcement>, a: Announcement, now: Instant)
    requires a in anns
    ensures var f := AnnouncementCardFlags(a, now);
            (f.isMissed ==> !f.isDeadlineToday && !f.isDeadlineTomorrow)
            && (f.isDeadlineToday ==> !f.isDeadlineTomorrow)
    ensures a.registrationDeadline >= DayOf(now) + 2 ==>
              AnnouncementCardFlags(a, now) == AnnouncementFlags(false, false, false)
    ensures AnnouncementCardFlags(a, now).isMissed <==> a in Helpers.MissedAnnouncements(anns, DayOf(now))
  {
  }
}
