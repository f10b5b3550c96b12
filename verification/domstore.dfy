/** The in-place record updates of the DOM version (`script.js`): submit
    handlers that edit the FIRST record with the form's id (`findIndex`) or
    append a new one, and the completion toggle on the first match (`find`).
    The hidden id field is a string; the empty string means "add". Unlike the
    component version these handlers do not reject a blank title, name or
    content: the trimmed, possibly empty, text is stored. Deleting is
    `Collections.Delete`, the same filter as the component version. */
module DomStore {
  import opened Types
  import opened Seqs
  import opened Text

  /** `findIndex(x => idOf(x) === id)`: the first position holding the id. */
  function FindIndex<T>(s: seq<T>, idOf: T -> Id, id: Id): (r: Option<nat>)
    ensures r.None? <==> forall i :: 0 <= i < |s| ==> idOf(s[i]) != id
    ensures r.Some? ==> r.value < |s| && idOf(s[r.value]) == id
    ensures r.Some? ==> forall i :: 0 <= i < r.value ==> idOf(s[i]) != id
  {
    if |s| == 0 then None
    else if idOf(s[0]) == id then Some(0)
    else match FindIndex(s[1..], idOf, id)
      case None => None
      case Some(k) => Some(k + 1)
  }

  /** `i` is the first position of `s` whose record has the id. */
  ghost predicate IsFirstWithId<T>(s: seq<T>, idOf: T -> Id, id: Id, i: int)
  {
    0 <= i < |s| && idOf(s[i]) == id && forall j :: 0 <= j < i ==> idOf(s[j]) != id
  }

  /** `handleTaskSubmit`. With an empty form id the new task (fresh id,
      trimmed title, pending, created now) is appended. With a form id, the
      first task with that id is overwritten by the form's fields, keeping its
      stored status and creation time; an id that is not found changes nothing. */
  function SubmitTask(tasks: seq<Task>, formId: Id, title: string, category: Category,
                      priority: Priority, dueDate: Day, freshId: Id, now: Timestamp): (r: seq<Task>)
    ensures formId == "" ==>
              && |r| == |tasks| + 1 && r[..|tasks|] == tasks
              && r[|tasks|] == Task(freshId, Trim(title), category, priority, dueDate, Pending, now)
    ensures formId != "" && (forall i :: 0 <= i < |tasks| ==> tasks[i].id != formId) ==> r == tasks
    ensures forall i :: formId != "" && IsFirstWithId(tasks, TaskId, formId, i) ==>
              r == tasks[i := Task(formId, Trim(title), category, priority, dueDate,
                                   tasks[i].status, tasks[i].createdAt)]
  {
    var data := Task(if formId != "" then formId else freshId, Trim(title), category, priority,
                     dueDate, Pending, now);
    if formId == "" then tasks + [data]
    else match FindIndex(tasks, TaskId, formId)
      case None => tasks
      case Some(i) => tasks[i := data.(status := tasks[i].status, createdAt := tasks[i].createdAt)]
  }

  /** Reopening a stored task in the modal and submitting it unchanged leaves
      the list as it was, when the title is already trimmed. */
  lemma TaskEditRoundTrip(tasks: seq<Task>, i: nat, freshId: Id, now: Timestamp)
    requires i < |tasks| && tasks[i].id != ""
    requires forall j :: 0 <= j < i ==> tasks[j].id != tasks[i].id
    requires IsTrimmed(tasks[i].title)
    ensures var t := tasks[i];
            SubmitTask(tasks, t.id, t.title, t.category, t.priority, t.dueDate, freshId, now) == tasks
  {
    assert IsFirstWithId(tasks, TaskId, tasks[i].id, i);
    TrimFixpoint(tasks[i].title);
  }

  /** A blank title is not refused: the task is added with an empty title. */
  lemma BlankTitleIsStored(tasks: seq<Task>, title: string, category: Category, priority: Priority,
                           dueDate: Day, freshId: Id, now: Timestamp)
    requires IsBlank(title)
    ensures var r := SubmitTask(tasks, "", title, category, priority, dueDate, freshId, now);
            |r| == |tasks| + 1 && r[|tasks|].title == ""
  {
  }

  /** `handleEventSubmit`: as for tasks, with name and notes trimmed, both
      dates taken from the form and only the creation time carried over. */
  function SubmitEvent(events: seq<Announcement>, formId: Id, eventName: string,
                       registrationDeadline: Day, participationDate: Day, notes: string,
                       freshId: Id, now: Timestamp): (r: seq<Announcement>)
    ensures formId == "" ==>
              && |r| == |events| + 1 && r[..|events|] == events
              && r[|events|] == Announcement(freshId, Trim(eventName), registrationDeadline,
                                             participationDate, Trim(notes), now)
    ensures formId != "" && (forall i :: 0 <= i < |events| ==> events[i].id != formId) ==> r == events
    ensures forall i :: formId != "" && IsFirstWithId(events, AnnouncementId, formId, i) ==>
              r == events[i := Announcement(formId, Trim(eventName), registrationDeadline,
                                            participationDate, Trim(notes), events[i].createdAt)]
  {
    var data := Announcement(if formId != "" then formId else freshId, Trim(eventName),
                             registrationDeadline, participationDate, Trim(notes), now);
    if formId == "" then events + [data]
    else match FindIndex(events, AnnouncementId, formId)
      case None => events
      case Some(i) => events[i := data.(createdAt := events[i].createdAt)]
  }

  /** `handleNoteSubmit`: as for tasks, with content trimmed, the date taken
      from the form and only the creation time carried over. */
  function SubmitNote(notes: seq<Note>, formId: Id, date: Day, content: string,
                      freshId: Id, now: Timestamp): (r: seq<Note>)
    ensures formId == "" ==>
              && |r| == |notes| + 1 && r[..|notes|] == notes
              && r[|notes|] == Note(freshId, Trim(content), date, now)
    ensures formId != "" && (forall i :: 0 <= i < |notes| ==> notes[i].id != formId) ==> r == notes
    ensures forall i :: formId != "" && IsFirstWithId(notes, NoteId, formId, i) ==>
              r == notes[i := Note(formId, Trim(content), date, notes[i].createdAt)]
  {
    var data := Note(if formId != "" then formId else freshId, Trim(content), date, now);
    if formId == "" then notes + [data]
    else match FindIndex(notes, NoteId, formId)
      case None => notes
      case Some(i) => notes[i := data.(createdAt := notes[i].createdAt)]
  }

  /** `toggleTaskComplete`: flips the status of the first task with the id,
      and of no other; an unknown id changes nothing. */
  function ToggleTask(tasks: seq<Task>, id: Id): (r: seq<Task>)
    ensures (forall i :: 0 <= i < |tasks| ==> tasks[i].id != id) ==> r == tasks
    ensures forall i :: IsFirstWithId(tasks, TaskId, id, i) ==>
              r == tasks[i := tasks[i].(status := Flip(tasks[i].status))]
  {
    match FindIndex(tasks, TaskId, id)
    case None => tasks
    case Some(i) => tasks[i := tasks[i].(status := Flip(tasks[i].status))]
  }

  /** Toggling the same id twice restores the list: the flip keeps the id, so
      the second toggle finds the same task. */
  lemma ToggleTaskInvolution(tasks: seq<Task>, id: Id)
    ensures ToggleTask(ToggleTask(tasks, id), id) == tasks
  {
    match FindIndex(tasks, TaskId, id)
    case None =>
    case Some(i) =>
      var once := ToggleTask(tasks, id);
      assert IsFirstWithId(once, TaskId, id, i);
      FlipInvolution(tasks[i].status);
      assert once[i := once[i].(status := Flip(once[i].status))] == tasks;
  }
}
