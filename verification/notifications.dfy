/** The deadline watch as one pure tick, in both versions.

    The component version (`useNotifications.ts`, driven by `Index.tsx`)
    keeps a permission and an enabled flag, alerts every pending task due
    today, tomorrow or earlier and every announcement whose registration
    closes today or tomorrow, and puts `getUrgentCount` in the tab title.

    The DOM version (`checkDeadlines` in script.js) alerts only high-priority
    pending tasks due today and event deadlines today or tomorrow, and counts
    for the title every pending task due today or earlier plus every event
    whose registration closes today.

    An alert is what would be passed to `new Notification`: a title, a body
    and a tag (the DOM version sets no tag; it is the empty string). */
module Notifications {
  import opened Types
  import opened Seqs
  import opened Text
  import opened Clock
  import opened Helpers

  datatype Alert = Alert(title: string, body: string, tag: string)

  // ---- permission state (component version) ----

  /** The hook's two pieces of state. */
  datatype NotificationState = NotificationState(permission: Permission, enabled: bool)

  /** The flag says exactly whether the recorded permission is 'granted'. */
  ghost predicate Consistent(s: NotificationState)
  {
    s.enabled <==> s.permission == Granted
  }

  /** The state before the mount effect runs: 'default', disabled. */
  function InitialState(): (s: NotificationState)
    ensures Consistent(s) && !s.enabled
  {
    NotificationState(Default, false)
  }

  /** The mount effect: when the browser has the Notification API, copy its
      permission and enable exactly when it is 'granted'; otherwise keep the
      state. */
  function Mount(s: NotificationState, supported: bool, browserPermission: Permission): (r: NotificationState)
    ensures Consistent(s) ==> Consistent(r)
    ensures supported ==> r.permission == browserPermission
    ensures !supported ==> r == s
  {
    if supported then NotificationState(browserPermission, browserPermission == Granted) else s
  }

  /** How `Notification.requestPermission()` settles. */
  datatype RequestOutcome = Resolved(result: Permission) | Threw

  /** `requestPermission`: false without the API or when the request throws,
      both leaving the state alone; otherwise the result is recorded and the
      answer is whether it is 'granted'. */
  function RequestPermission(s: NotificationState, supported: bool, outcome: RequestOutcome): (r: (NotificationState, bool))
    ensures Consistent(s) ==> Consistent(r.0)
    ensures r.1 ==> r.0.enabled && r.0.permission == Granted
    ensures (!supported || outcome.Threw?) ==> !r.1 && r.0 == s
    ensures supported && outcome.Resolved? ==> (r.1 <==> outcome.result == Granted) && r.0.enabled == r.1
  {
    if !supported then (s, false)
    else match outcome
      case Threw => (s, false)
      case Resolved(p) => (NotificationState(p, p == Granted), p == Granted)
  }

  /** From the initial state, any sequence of mounts and requests keeps the
      flag and the permission in step. */
  lemma ConsistentAfterRequests(supported: bool, browserPermission: Permission, outcomes: seq<RequestOutcome>)
    ensures Consistent(Requests(Mount(InitialState(), supported, browserPermission), supported, outcomes))
  {
    RequestsKeepConsistent(Mount(InitialState(), supported, browserPermission), supported, outcomes);
  }

  /** The state after a series of permission requests. */
  function Requests(s: NotificationState, supported: bool, outcomes: seq<RequestOutcome>): NotificationState
    decreases |outcomes|
  {
    if |outcomes| == 0 then s else Requests(RequestPermission(s, supported, outcomes[0]).0, supported, outcomes[1..])
  }

  lemma {:induction false} RequestsKeepConsistent(s: NotificationState, supported: bool, outcomes: seq<RequestOutcome>)
    requires Consistent(s)
    ensures Consistent(Requests(s, supported, outcomes))
    decreases |outcomes|
  {
    if |outcomes| > 0 {
      RequestsKeepConsistent(RequestPermission(s, supported, outcomes[0]).0, supported, outcomes[1..]);
    }
  }

  /** `requestNotificationPermission` of script.js: the stored enabled flag is
      set when the request resolves to 'granted' and is otherwise left as it
      was, so a refusal never clears it. */
  function DomRequestPermission(enabled: bool, supported: bool, outcome: RequestOutcome): (r: bool)
    ensures enabled ==> r
    ensures !enabled ==> (r <==> supported && outcome == Resolved(Granted))
  {
    if !supported then enabled
    else match outcome
      case Threw => enabled
      case Resolved(p) => if p == Granted then true else enabled
  }

  /** The DOM flag after a series of permission requests. */
  function DomRequests(enabled: bool, supported: bool, outcomes: seq<RequestOutcome>): bool
    decreases |outcomes|
  {
    if |outcomes| == 0 then enabled
    else DomRequests(DomRequestPermission(enabled, supported, outcomes[0]), supported, outcomes[1..])
  }

  /** Unlike the hook, the DOM version ends up enabled exactly when it
      started enabled or some request was granted: later refusals do not
      matter. */
  lemma {:induction false} DomRequestsEnable(enabled: bool, supported: bool, outcomes: seq<RequestOutcome>)
    ensures DomRequests(enabled, supported, outcomes) <==> enabled || (supported && Resolved(Granted) in outcomes)
    decreases |outcomes|
  {
    if |outcomes| > 0 {
      DomRequestsEnable(DomRequestPermission(enabled, supported, outcomes[0]), supported, outcomes[1..]);
      assert outcomes == [outcomes[0]] + outcomes[1..];
    }
  }

  /** In the hook, by contrast, a refusal after a grant disables alerts. */
  lemma HookRefusalDisables(s: NotificationState)
    ensures !Requests(s, true, [Resolved(Granted), Resolved(Denied)]).enabled
    ensures DomRequests(s.enabled, true, [Resolved(Granted), Resolved(Denied)])
  {
    assert [Resolved(Granted), Resolved(Denied)][1..] == [Resolved(Denied)];
  }

  // ---- the hook's alerts ----

  datatype TaskAlertKind = DueToday | DueTomorrow | OverdueAlert

  /** The alert texts of the hook for a task. */
  function HookTaskAlertText(t: Task, kind: TaskAlertKind): Alert
  {
    match kind
    case DueToday =>
      Alert("Task Due Today: " + t.title, "Don't forget to complete \"" + t.title + "\" today!",
            "task-" + t.id + "-today")
    case DueTomorrow =>
      Alert("Task Due Tomorrow: " + t.title, "\"" + t.title + "\" is due tomorrow!",
            "task-" + t.id + "-tomorrow")
    case OverdueAlert =>
      Alert("Overdue Task: " + t.title, "\"" + t.title + "\" is past its due date!",
            "task-" + t.id + "-overdue")
  }

  /** One task's turn in the hook's `tasks.forEach`, with date-fns' tests on
      the parsed due date: nothing for a completed task; otherwise today
      before tomorrow before past, and nothing for a later date. */
  function HookTaskAlert(t: Task, now: Instant): (r: Option<Alert>)
    ensures t.status == Completed ==> r.None?
    ensures t.status == Pending && t.dueDate == DayOf(now) ==> r == Some(HookTaskAlertText(t, DueToday))
    ensures t.status == Pending && t.dueDate == DayOf(now) + 1 ==> r == Some(HookTaskAlertText(t, DueTomorrow))
    ensures t.status == Pending && t.dueDate < DayOf(now) ==> r == Some(HookTaskAlertText(t, OverdueAlert))
    ensures t.dueDate >= DayOf(now) + 2 ==> r.None?
  {
    if t.status == Completed then None
    else
      var due := Midnight(t.dueDate);
      ComponentTestsReduce(t.dueDate, now);
      if IsToday(due, now) then Some(HookTaskAlertText(t, DueToday))
      else if IsTomorrow(due, now) then Some(HookTaskAlertText(t, DueTomorrow))
      else if IsPast(due, now) then Some(HookTaskAlertText(t, OverdueAlert))
      else None
  }

  /** A task the hook alerts about: pending and due no later than tomorrow. */
  function IsAlertedTask(today: Day): Task -> bool
  {
    (t: Task) => t.status == Pending && t.dueDate <= today + 1
  }

  /** The alert a task gets, by its due date alone. */
  function TaskAlertByDay(today: Day): Task -> Alert
  {
    (t: Task) =>
      HookTaskAlertText(t, if t.dueDate == today then DueToday
                           else if t.dueDate == today + 1 then DueTomorrow
                           else OverdueAlert)
  }

  /** The alerts of the hook's task loop are those of the pending tasks due
      by tomorrow, in list order. */
  function HookTaskAlerts(tasks: seq<Task>, now: Instant): (r: seq<Alert>)
    ensures r == Map(Filter(tasks, IsAlertedTask(DayOf(now))), TaskAlertByDay(DayOf(now)))
  {
    if |tasks| == 0 then []
    else
      var today := DayOf(now);
      var rest := HookTaskAlerts(tasks[1..], now);
      FilterMapCons(tasks, IsAlertedTask(today), TaskAlertByDay(today));
      HookTaskAlertByDay(tasks[0], now);
      match HookTaskAlert(tasks[0], now)
      case Some(a) => [a] + rest
      case None => rest
  }

  /** The one-task alert, stated by the due date alone. */
  lemma HookTaskAlertByDay(t: Task, now: Instant)
    ensures HookTaskAlert(t, now)
            == if IsAlertedTask(DayOf(now))(t) then Some(TaskAlertByDay(DayOf(now))(t)) else None
  {
  }

  datatype DeadlineKind = ClosesToday | ClosesTomorrow

  function HookAnnouncementAlertText(a: Announcement, kind: DeadlineKind): Alert
  {
    match kind
    case ClosesToday =>
      Alert("Registration Deadline Today: " + a.eventName,
            "Last day to register for \"" + a.eventName + "\"!",
            "announcement-" + a.id + "-today")
    case ClosesTomorrow =>
      Alert("Registration Deadline Tomorrow: " + a.eventName,
            "Register for \"" + a.eventName + "\" before tomorrow!",
            "announcement-" + a.id + "-tomorrow")
  }

  /** One announcement's turn in the hook's loop: an alert when registration
      closes today or tomorrow, nothing otherwise, a past deadline included. */
  function HookAnnouncementAlert(a: Announcement, now: Instant): (r: Option<Alert>)
    ensures a.registrationDeadline == DayOf(now) ==> r == Some(HookAnnouncementAlertText(a, ClosesToday))
    ensures a.registrationDeadline == DayOf(now) + 1 ==> r == Some(HookAnnouncementAlertText(a, ClosesTomorrow))
    ensures r.Some? <==> a.registrationDeadline == DayOf(now) || a.registrationDeadline == DayOf(now) + 1
  {
    var deadline := Midnight(a.registrationDeadline);
    ComponentTestsReduce(a.registrationDeadline, now);
    if IsToday(deadline, now) then Some(HookAnnouncementAlertText(a, ClosesToday))
    else if IsTomorrow(deadline, now) then Some(HookAnnouncementAlertText(a, ClosesTomorrow))
    else None
  }

  function AnnouncementAlertByDay(today: Day): Announcement -> Alert
  {
    (a: Announcement) =>
      HookAnnouncementAlertText(a, if a.registrationDeadline == today then ClosesToday else ClosesTomorrow)
  }

  /** The alerts of the hook's announcement loop are those of the
      announcements closing today or tomorrow, in list order. */
  function HookAnnouncementAlerts(anns: seq<Announcement>, now: Instant): (r: seq<Alert>)
    ensures r == Map(Filter(anns, IsDeadlineSoon(DayOf(now))), AnnouncementAlertByDay(DayOf(now)))
  {
    if |anns| == 0 then []
    else
      var today := DayOf(now);
      var rest := HookAnnouncementAlerts(anns[1..], now);
      FilterMapCons(anns, IsDeadlineSoon(today), AnnouncementAlertByDay(today));
      HookAnnouncementAlertByDay(anns[0], now);
      match HookAnnouncementAlert(anns[0], now)
      case Some(a) => [a] + rest
      case None => rest
  }

  /** The one-announcement alert, stated by the deadline alone. */
  lemma HookAnnouncementAlertByDay(a: Announcement, now: Instant)
    ensures HookAnnouncementAlert(a, now)
            == if IsDeadlineSoon(DayOf(now))(a) then Some(AnnouncementAlertByDay(DayOf(now))(a)) else None
  {
  }

  /** `checkDeadlines` of the hook: nothing unless the recorded permission is
      'granted'; then one alert per pending task due by tomorrow and one per
      announcement closing today or tomorrow, tasks first. */
  function HookCheckDeadlines(permission: Permission, tasks: seq<Task>, anns: seq<Announcement>, now: Instant): (alerts: seq<Alert>)
    ensures permission != Granted ==> alerts == []
    ensures permission == Granted ==>
              alerts == Map(Filter(tasks, IsAlertedTask(DayOf(now))), TaskAlertByDay(DayOf(now)))
                        + Map(Filter(anns, IsDeadlineSoon(DayOf(now))), AnnouncementAlertByDay(DayOf(now)))
  {
    if permission != Granted then [] else HookTaskAlerts(tasks, now) + HookAnnouncementAlerts(anns, now)
  }

  /** No completed task and no task due two or more days ahead is alerted,
      and every pending task due today is, whatever its priority. */
  lemma HookAlertsWhichTasks(tasks: seq<Task>, anns: seq<Announcement>, now: Instant, t: Task)
    requires t in tasks
    ensures t.status == Completed || t.dueDate >= DayOf(now) + 2 ==>
              t !in Filter(tasks, IsAlertedTask(DayOf(now)))
    ensures t.status == Pending && t.dueDate == DayOf(now) ==>
              HookTaskAlertText(t, DueToday) in HookCheckDeadlines(Granted, tasks, anns, now)
  {
    if t.status == Pending && t.dueDate == DayOf(now) {
      var today := DayOf(now);
      var alerted := Filter(tasks, IsAlertedTask(today));
      assert t in alerted;
      var k :| 0 <= k < |alerted| && alerted[k] == t;
      assert Map(alerted, TaskAlertByDay(today))[k] == HookTaskAlertText(t, DueToday);
    }
  }

  // ---- tab title ----

  const HookBaseTitle: string := "Student Life Manager"
  const DomBaseTitle: string := "StudyHub - Student Life Manager"

  /** `updateTabTitle` (and the title branch of the DOM `checkDeadlines`):
      the base title, prefixed by "(n) " when the count is positive. */
  function TabTitle(count: int, base: string): (r: string)
    ensures |r| >= |base| && r[|r| - |base|..] == base
    ensures count > 0 <==> |r| > |base|
    ensures count > 0 ==> |r| >= |base| + 3 && r[0] == '(' && r[|r| - |base| - 2..] == ") " + base
  {
    if count > 0 then
      var r := "(" + Decimal(count) + ") " + base;
      assert r == ("(" + Decimal(count)) + (") " + base);
      r
    else base
  }

  /** Reading the count back out of a title: the digits between a leading
      "(" and the ") " before the base title, or 0 without that form. */
  function CountInTitle(r: string, base: string): nat
  {
    if |r| >= |base| + 3 && r[0] == '(' && r[|r| - |base| - 2..] == ") " + base then
      var digits := r[1..|r| - |base| - 2];
      if forall i :: 0 <= i < |digits| ==> '0' <= digits[i] <= '9' then DecimalValue(digits) else 0
    else 0
  }

  /** The count shown in the title is the count computed, for every base title. */
  lemma TabTitleRoundTrip(count: int, base: string)
    ensures CountInTitle(TabTitle(count, base), base) == if count > 0 then count else 0
  {
    if count > 0 {
      var r := TabTitle(count, base);
      var d := Decimal(count);
      assert r[1..|r| - |base| - 2] == d;
      DecimalRoundTrip(count);
    }
  }

  // ---- the page (Index.tsx) ----

  /** What one render of the page does with the notifications: the alerts of
      a deadline check and the tab title. */
  datatype PageTick = PageTick(alerts: seq<Alert>, title: string)

  /** The page's two effects: the deadline check runs only while
      notifications are enabled, and the title carries `getUrgentCount`. */
  function IndexTick(s: NotificationState, tasks: seq<Task>, anns: seq<Announcement>, now: Instant): (r: PageTick)
    ensures !s.enabled ==> r.alerts == []
    ensures s.enabled ==> r.alerts == HookCheckDeadlines(s.permission, tasks, anns, now)
    ensures Consistent(s) && r.alerts != [] ==> s.enabled && s.permission == Granted
    ensures r.title == TabTitle(UrgentCount(tasks, anns, DayOf(now)), HookBaseTitle)
    ensures CountInTitle(r.title, HookBaseTitle) == UrgentCount(tasks, anns, DayOf(now))
  {
    TabTitleRoundTrip(UrgentCount(tasks, anns, DayOf(now)), HookBaseTitle);
    PageTick(if s.enabled then HookCheckDeadlines(s.permission, tasks, anns, now) else [],
             TabTitle(UrgentCount(tasks, anns, DayOf(now)), HookBaseTitle))
  }

  // ---- the DOM version ----

  /** Pending and due today or earlier: counted towards the title. */
  function IsDomUrgentTask(today: Day): Task -> bool
  {
    (t: Task) => t.status == Pending && t.dueDate <= today
  }

  /** Pending, high priority and due today: the only tasks alerted. */
  function IsDomAlertedTask(today: Day): Task -> bool
  {
    (t: Task) => t.status == Pending && t.dueDate == today && t.priority == High
  }

  function IsDeadlineToday(today: Day): Announcement -> bool
  {
    (a: Announcement) => a.registrationDeadline == today
  }

  function DomTaskAlert(): Task -> Alert
  {
    (t: Task) => Alert("Task Due Today: " + t.title, "Don't forget to complete this high priority task!", "")
  }

  function DomEventAlert(today: Day): Announcement -> Alert
  {
    (e: Announcement) =>
      if e.registrationDeadline == today then
        Alert("Registration Deadline Today: " + e.eventName, "Last day to register!", "")
      else
        Alert("Registration Deadline Tomorrow: " + e.eventName, "Register before tomorrow!", "")
  }

  /** `checkDeadlines` of script.js, with its midnight arithmetic. Alerts go
      out only when notifications are enabled and permission is 'granted'
      (`sendNotification`); they are the high-priority pending tasks due
      today, then the events closing today or tomorrow. The urgent count is
      every pending task due today or earlier plus every event closing today,
      and the title shows it. */
  method DomCheckDeadlines(enabled: bool, permission: Permission, tasks: seq<Task>,
                           events: seq<Announcement>, now: Instant)
    returns (alerts: seq<Alert>, urgentCount: nat, title: string)
    ensures urgentCount == |Filter(tasks, IsDomUrgentTask(DayOf(now)))|
                           + |Filter(events, IsDeadlineToday(DayOf(now)))|
    ensures !(enabled && permission == Granted) ==> alerts == []
    ensures enabled && permission == Granted ==>
              alerts == Map(Filter(tasks, IsDomAlertedTask(DayOf(now))), DomTaskAlert())
                        + Map(Filter(events, IsDeadlineSoon(DayOf(now))), DomEventAlert(DayOf(now)))
    ensures title == TabTitle(urgentCount, DomBaseTitle)
    ensures CountInTitle(title, DomBaseTitle) == urgentCount
    ensures urgentCount == 0 <==> title == DomBaseTitle
  {
    var gate := enabled && permission == Granted;
    var taskAlerts, taskUrgent := DomTaskPass(gate, tasks, now);
    var eventAlerts, eventUrgent := DomEventPass(gate, events, now);
    alerts := taskAlerts + eventAlerts;
    urgentCount := taskUrgent + eventUrgent;
    title := TabTitle(urgentCount, DomBaseTitle);
    TabTitleRoundTrip(urgentCount, DomBaseTitle);
  }

  /** The `tasks.forEach` of the DOM `checkDeadlines`: counts pending tasks
      whose midnight is today's or earlier, and alerts (when `gate` holds)
      the high-priority ones due today. */
  method DomTaskPass(gate: bool, tasks: seq<Task>, now: Instant) returns (alerts: seq<Alert>, urgentCount: nat)
    ensures urgentCount == |Filter(tasks, IsDomUrgentTask(DayOf(now)))|
    ensures alerts == if gate then Map(Filter(tasks, IsDomAlertedTask(DayOf(now))), DomTaskAlert()) else []
  {
    var today := DayOf(now);
    urgentCount := 0;
    alerts := [];
    var i := 0;
    while i < |tasks|
      invariant 0 <= i <= |tasks|
      invariant urgentCount == |Filter(tasks[..i], IsDomUrgentTask(today))|
      invariant alerts == if gate then Map(Filter(tasks[..i], IsDomAlertedTask(today)), DomTaskAlert()) else []
    {
      var t := tasks[i];
      CountStep(tasks, i, IsDomUrgentTask(today));
      AlertStep(tasks, i, IsDomAlertedTask(today), DomTaskAlert(), gate);
      var a, k := DomTaskVisit(gate, t, now);
      urgentCount := urgentCount + k;
      alerts := alerts + a;
      i := i + 1;
    }
    assert tasks[..i] == tasks;
  }

  /** The `events.forEach` of the DOM `checkDeadlines`: counts events whose
      registration closes today, and alerts (when `gate` holds) those closing
      today or tomorrow. */
  method DomEventPass(gate: bool, events: seq<Announcement>, now: Instant) returns (alerts: seq<Alert>, urgentCount: nat)
    ensures urgentCount == |Filter(events, IsDeadlineToday(DayOf(now)))|
    ensures alerts == if gate then Map(Filter(events, IsDeadlineSoon(DayOf(now))), DomEventAlert(DayOf(now))) else []
  {
    var today := DayOf(now);
    urgentCount := 0;
    alerts := [];
    var j := 0;
    while j < |events|
      invariant 0 <= j <= |events|
      invariant urgentCount == |Filter(events[..j], IsDeadlineToday(today))|
      invariant alerts == if gate then Map(Filter(events[..j], IsDeadlineSoon(today)), DomEventAlert(today)) else []
    {
      var e := events[j];
      CountStep(events, j, IsDeadlineToday(today));
      AlertStep(events, j, IsDeadlineSoon(today), DomEventAlert(today), gate);
      var a, k := DomEventVisit(gate, e, now);
      urgentCount := urgentCount + k;
      alerts := alerts + a;
      j := j + 1;
    }
    assert events[..j] == events;
  }

  /** One task's turn in the DOM loop, with its midnight comparisons: it
      counts when pending and due today or earlier, and is alerted when
      `gate` holds and it is a pending high-priority task due today. */
  method DomTaskVisit(gate: bool, t: Task, now: Instant) returns (alert: seq<Alert>, count: nat)
    ensures count == if IsDomUrgentTask(DayOf(now))(t) then 1 else 0
    ensures alert == if gate && IsDomAlertedTask(DayOf(now))(t) then [DomTaskAlert()(t)] else []
  {
    alert, count := [], 0;
    if t.status != Completed {
      var todayMs := StartOfDay(now);
      var dueMs := StartOfDay(Midnight(t.dueDate));
      ScriptMidnightTestsReduce(t.dueDate, now);
      if dueMs == todayMs {
        count := 1;
        if t.priority == High && gate {
          alert := [DomTaskAlert()(t)];
        }
      } else if dueMs < todayMs {
        count := 1;
      }
    }
  }

  /** One event's turn in the DOM loop: it counts when registration closes
      today, and is alerted when `gate` holds and it closes today or
      tomorrow. */
  method DomEventVisit(gate: bool, e: Announcement, now: Instant) returns (alert: seq<Alert>, count: nat)
    ensures count == if IsDeadlineToday(DayOf(now))(e) then 1 else 0
    ensures alert == if gate && IsDeadlineSoon(DayOf(now))(e) then [DomEventAlert(DayOf(now))(e)] else []
  {
    alert, count := [], 0;
    var todayMs := StartOfDay(now);
    var tomorrowMs := todayMs + DayMs;
    var deadlineMs := StartOfDay(Midnight(e.registrationDeadline));
    ScriptMidnightTestsReduce(e.registrationDeadline, now);
    if deadlineMs == todayMs {
      count := 1;
      if gate {
        alert := [DomEventAlert(DayOf(now))(e)];
      }
    } else if deadlineMs == tomorrowMs {
      if gate {
        alert := [DomEventAlert(DayOf(now))(e)];
      }
    }
  }

  /** One more element adds one to a filter count exactly when it passes. */
  lemma CountStep<T(!new)>(s: seq<T>, j: nat, p: T -> bool)
    requires j < |s|
    ensures |Filter(s[..j + 1], p)| == |Filter(s[..j], p)| + if p(s[j]) then 1 else 0
  {
    PrefixSnoc(s, j);
    FilterSnoc(s[..j], s[j], p);
  }

  /** One more element adds its alert at the end exactly when it passes and
      alerts are let through. */
  lemma AlertStep<T(!new)>(s: seq<T>, j: nat, p: T -> bool, f: T -> Alert, gate: bool)
    requires j < |s|
    ensures (if gate then Map(Filter(s[..j + 1], p), f) else [])
            == (if gate then Map(Filter(s[..j], p), f) else []) + (if gate && p(s[j]) then [f(s[j])] else [])
  {
    PrefixSnoc(s, j);
    FilterSnoc(s[..j], s[j], p);
    MapConcat(Filter(s[..j], p), if p(s[j]) then [s[j]] else [], f);
  }

  /** The two urgent counts differ in two ways: the DOM count includes every
      pending task due today, not only high-priority ones, and leaves out
      announcements closing tomorrow. */
  lemma UrgentCountsCompared(tasks: seq<Task>, anns: seq<Announcement>, today: Day)
    ensures |Filter(tasks, IsDomUrgentTask(today))| + |Filter(anns, IsDeadlineToday(today))|
            + |Filter(anns, IsDeadlineTomorrow(today))|
            == UrgentCount(tasks, anns, today) + |Filter(tasks, IsTodayOtherPriority(today))|
  {
    FilterDisjointUnion(tasks, IsUrgentTask(today), IsTodayOtherPriority(today), IsDomUrgentTask(today));
    FilterDisjointUnion(anns, IsDeadlineToday(today), IsDeadlineTomorrow(today), IsDeadlineSoon(today));
  }

  function IsDeadlineTomorrow(today: Day): Announcement -> bool
  {
    (a: Announcement) => a.registrationDeadline == today + 1
  }

  /** Pending, due today, and not high priority. */
  function IsTodayOtherPriority(today: Day): Task -> bool
  {
    (t: Task) => t.status == Pending && t.dueDate == today && t.priority != High
  }
}
