/** The records of the student planner: tasks, announcements (events) and
    notes. Every "YYYY-MM-DD" date is a day number, identifiers and creation
    timestamps are opaque strings. */
module Types {

  /** A calendar date as a count of days in local time; consecutive dates differ by one. */
  type Day = int

  /** A record identifier (`generateId()` output, or the empty string a form may carry). */
  type Id = string

  /** An ISO-8601 creation timestamp, never interpreted. */
  type Timestamp = string

  datatype Priority = High | Medium | Low

  datatype Category = Study | Event | Personal

  datatype TaskStatus = Pending | Completed

  datatype Task = Task(
    id: Id,
    title: string,
    category: Category,
    priority: Priority,
    dueDate: Day,
    status: TaskStatus,
    createdAt: Timestamp)

  /** `notes` is required but may be empty. */
  datatype Announcement = Announcement(
    id: Id,
    eventName: string,
    registrationDeadline: Day,
    participationDate: Day,
    notes: string,
    createdAt: Timestamp)

  datatype Note = Note(id: Id, content: string, date: Day, createdAt: Timestamp)

  datatype ViewMode = DashboardView | TasksView | AnnouncementsView | NotesView

  /** The browser's `NotificationPermission`. */
  datatype Permission = Default | Granted | Denied

  function TaskId(t: Task): Id { t.id }

  function AnnouncementId(a: Announcement): Id { a.id }

  function NoteId(n: Note): Id { n.id }

  /** The list order `{ high: 0, medium: 1, low: 2 }`. */
  function PriorityRank(p: Priority): nat
  {
    match p
    case High => 0
    case Medium => 1
    case Low => 2
  }

  /** The rank table is a strict order on the three priorities: high before
      medium before low, and no two priorities share a rank. */
  lemma PriorityRankOrder(p: Priority, q: Priority)
    ensures PriorityRank(p) < 3
    ensures PriorityRank(p) == PriorityRank(q) <==> p == q
    ensures PriorityRank(p) < PriorityRank(q) <==>
              (p == High && q != High) || (p == Medium && q == Low)
  {
  }

  /** Pending tasks are listed before completed ones. */
  function StatusRank(s: TaskStatus): nat
  {
    if s == Pending then 0 else 1
  }

  /** `status === 'completed' ? 'pending' : 'completed'`: the toggle always
      changes the status and stays within the two values. */
  function Flip(s: TaskStatus): (r: TaskStatus)
    ensures r != s
  {
    if s == Completed then Pending else Completed
  }

  /** Toggling twice restores the status. */
  lemma FlipInvolution(s: TaskStatus)
    ensures Flip(Flip(s)) == s
  {
  }
}
