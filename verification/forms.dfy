/** The record builders of the component version's forms (`TaskForm.tsx`,
    `AnnouncementForm.tsx`, `NoteForm.tsx`): the draft a form opens with
    (prefilled from the record under edit, or defaults), and what submitting
    the draft produces. `None` is the early `return` on a blank required
    field, when `onSubmit` is never called. A fresh id (`generateId()`), the
    current timestamp and today's date are parameters. */
module Forms {
  import opened Types
  import opened Seqs
  import opened Text
  import Collections

  /** JavaScript's `a || b` on strings: the empty string is falsy. */
  function OrElse(a: string, b: string): string
  {
    if a != "" then a else b
  }

  // ---- tasks ----

  /** The editable fields of the task form. */
  datatype TaskDraft = TaskDraft(title: string, category: Category, priority: Priority, dueDate: Day)

  /** The form's `useEffect`: the edited task's fields, or an empty title,
      'study', 'medium' and today's date. */
  function OpenTaskForm(editTask: Option<Task>, today: Day): (d: TaskDraft)
    ensures editTask.None? ==> d == TaskDraft("", Study, Medium, today)
    ensures editTask.Some? ==>
              d.title == editTask.value.title && d.category == editTask.value.category
              && d.priority == editTask.value.priority && d.dueDate == editTask.value.dueDate
  {
    match editTask
    case Some(t) => TaskDraft(t.title, t.category, t.priority, t.dueDate)
    case None => TaskDraft("", Study, Medium, today)
  }

  /** `handleSubmit` of the task form. A blank title submits nothing.
      Otherwise the title is trimmed, category, priority and due date come
      from the draft, and id, status and creation time come from the task
      under edit (`editTask?.id || generateId()` and so on: an empty id or
      timestamp on the edited task falls back to a fresh one). A new task is
      pending. */
  function SubmitTaskForm(d: TaskDraft, editTask: Option<Task>, freshId: Id, now: Timestamp): (r: Option<Task>)
    ensures r.None? <==> IsBlank(d.title)
    ensures r.Some? ==>
              && r.value.title == Trim(d.title) && r.value.title != ""
              && r.value.category == d.category && r.value.priority == d.priority
              && r.value.dueDate == d.dueDate
    ensures r.Some? && editTask.Some? ==>
              && r.value.status == editTask.value.status
              && (editTask.value.id != "" ==> r.value.id == editTask.value.id)
              && (editTask.value.createdAt != "" ==> r.value.createdAt == editTask.value.createdAt)
    ensures r.Some? && editTask.None? ==>
              r.value.status == Pending && r.value.id == freshId && r.value.createdAt == now
  {
    if IsBlank(d.title) then None
    else
      var id := OrElse(if editTask.Some? then editTask.value.id else "", freshId);
      var status := if editTask.Some? then editTask.value.status else Pending;
      var createdAt := OrElse(if editTask.Some? then editTask.value.createdAt else "", now);
      Some(Task(id, Trim(d.title), d.category, d.priority, d.dueDate, status, createdAt))
  }

  /** Opening the form on a task and submitting it unchanged gives the task
      back, provided its title is already trimmed and non-empty and its id
      and timestamp are non-empty. */
  lemma TaskFormRoundTrip(t: Task, today: Day, freshId: Id, now: Timestamp)
    requires t.title != "" && IsTrimmed(t.title)
    requires t.id != "" && t.createdAt != ""
    ensures SubmitTaskForm(OpenTaskForm(Some(t), today), Some(t), freshId, now) == Some(t)
  {
    TrimmedNonEmptyIsNotBlank(t.title);
    TrimFixpoint(t.title);
  }

  /** Editing a task through the form and submitting it to the list changes
      exactly the tasks with its id: they get the draft's fields and keep
      their id, status and creation time. */
  lemma TaskEditFlow(tasks: seq<Task>, t: Task, d: TaskDraft, freshId: Id, now: Timestamp)
    requires t in tasks && t.id != "" && t.createdAt != ""
    requires !IsBlank(d.title)
    ensures var edited := SubmitTaskForm(d, Some(t), freshId, now).value;
            var r := Collections.Submit(tasks, TaskId, edited, true);
            && |r| == |tasks|
            && (forall i :: 0 <= i < |tasks| && tasks[i].id != t.id ==> r[i] == tasks[i])
            && (forall i :: 0 <= i < |tasks| && tasks[i].id == t.id ==>
                  r[i] == Task(t.id, Trim(d.title), d.category, d.priority, d.dueDate, t.status, t.createdAt))
  {
  }

  // ---- announcements ----

  datatype AnnouncementDraft = AnnouncementDraft(
    eventName: string, registrationDeadline: Day, participationDate: Day, notes: string)

  /** The announcement form's `useEffect`: the edited record's fields, or an
      empty name, empty notes and both dates set to today. */
  function OpenAnnouncementForm(editAnnouncement: Option<Announcement>, today: Day): (d: AnnouncementDraft)
    ensures editAnnouncement.None? ==> d == AnnouncementDraft("", today, today, "")
    ensures editAnnouncement.Some? ==>
              var a := editAnnouncement.value;
              d.eventName == a.eventName && d.notes == a.notes
              && d.registrationDeadline == a.registrationDeadline
              && d.participationDate == a.participationDate
  {
    match editAnnouncement
    case Some(a) => AnnouncementDraft(a.eventName, a.registrationDeadline, a.participationDate, a.notes)
    case None => AnnouncementDraft("", today, today, "")
  }

  /** `handleSubmit` of the announcement form. A blank event name submits
      nothing. Otherwise name and notes are trimmed, both dates pass through
      whatever their order, and id and creation time come from the record
      under edit when non-empty. */
  function SubmitAnnouncementForm(d: AnnouncementDraft, editAnnouncement: Option<Announcement>,
                                  freshId: Id, now: Timestamp): (r: Option<Announcement>)
    ensures r.None? <==> IsBlank(d.eventName)
    ensures r.Some? ==>
              && r.value.eventName == Trim(d.eventName) && r.value.eventName != ""
              && r.value.notes == Trim(d.notes)
              && r.value.registrationDeadline == d.registrationDeadline
              && r.value.participationDate == d.participationDate
    ensures r.Some? && editAnnouncement.Some? ==>
              && (editAnnouncement.value.id != "" ==> r.value.id == editAnnouncement.value.id)
              && (editAnnouncement.value.createdAt != "" ==>
                    r.value.createdAt == editAnnouncement.value.createdAt)
    ensures r.Some? && editAnnouncement.None? ==> r.value.id == freshId && r.value.createdAt == now
  {
    if IsBlank(d.eventName) then None
    else
      var id := OrElse(if editAnnouncement.Some? then editAnnouncement.value.id else "", freshId);
      var createdAt := OrElse(if editAnnouncement.Some? then editAnnouncement.value.createdAt else "", now);
      Some(Announcement(id, Trim(d.eventName), d.registrationDeadline, d.participationDate,
                        Trim(d.notes), createdAt))
  }

  /** Opening the form on an announcement and submitting it unchanged gives
      it back when its name and notes are already trimmed. */
  lemma AnnouncementFormRoundTrip(a: Announcement, today: Day, freshId: Id, now: Timestamp)
    requires a.eventName != "" && IsTrimmed(a.eventName) && IsTrimmed(a.notes)
    requires a.id != "" && a.createdAt != ""
    ensures SubmitAnnouncementForm(OpenAnnouncementForm(Some(a), today), Some(a), freshId, now) == Some(a)
  {
    TrimmedNonEmptyIsNotBlank(a.eventName);
    TrimFixpoint(a.eventName);
    TrimFixpoint(a.notes);
  }

  // ---- notes ----

  datatype NoteDraft = NoteDraft(content: string, date: Day)

  /** The note form's `useEffect`: the edited note's content and date, or
      empty content and today's date. */
  function OpenNoteForm(editNote: Option<Note>, today: Day): (d: NoteDraft)
    ensures editNote.None? ==> d == NoteDraft("", today)
    ensures editNote.Some? ==> d.content == editNote.value.content && d.date == editNote.value.date
  {
    match editNote
    case Some(n) => NoteDraft(n.content, n.date)
    case None => NoteDraft("", today)
  }

  /** `handleSubmit` of the note form. Blank content submits nothing;
      otherwise content is trimmed, the date passes through, and id and
      creation time come from the note under edit when non-empty. */
  function SubmitNoteForm(d: NoteDraft, editNote: Option<Note>, freshId: Id, now: Timestamp): (r: Option<Note>)
    ensures r.None? <==> IsBlank(d.content)
    ensures r.Some? ==> r.value.content == Trim(d.content) && r.value.content != "" && r.value.date == d.date
    ensures r.Some? && editNote.Some? ==>
              && (editNote.value.id != "" ==> r.value.id == editNote.value.id)
              && (editNote.value.createdAt != "" ==> r.value.createdAt == editNote.value.createdAt)
    ensures r.Some? && editNote.None? ==> r.value.id == freshId && r.value.createdAt == now
  {
    if IsBlank(d.content) then None
    else
      var id := OrElse(if editNote.Some? then editNote.value.id else "", freshId);
      var createdAt := OrElse(if editNote.Some? then editNote.value.createdAt else "", now);
      Some(Note(id, Trim(d.content), d.date, createdAt))
  }

  /** Opening the form on a note and submitting it unchanged gives it back
      when its content is already trimmed. */
  lemma NoteFormRoundTrip(n: Note, today: Day, freshId: Id, now: Timestamp)
    requires n.content != "" && IsTrimmed(n.content)
    requires n.id != "" && n.createdAt != ""
    ensures SubmitNoteForm(OpenNoteForm(Some(n), today), Some(n), freshId, now) == Some(n)
  {
    TrimmedNonEmptyIsNotBlank(n.content);
    TrimFixpoint(n.content);
  }
}
