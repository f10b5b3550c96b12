/** The list updates of the component version (`src/pages/Index.tsx`):
    submit (replace-by-id when editing, append when adding), the task
    completion toggle, and delete. The three entity kinds share one rule set,
    so each operation is generic over the record type and its id accessor. */
module Collections {
  import opened Types
  import opened Seqs

  /** `prev.map(x => idOf(x) === idOf(y) ? y : x)`: every record carrying
      `y`'s id is replaced by `y`; the others and the length are unchanged. */
  function ReplaceById<T>(s: seq<T>, idOf: T -> Id, y: T): (r: seq<T>)
    ensures |r| == |s|
    ensures forall i :: 0 <= i < |s| && idOf(s[i]) == idOf(y) ==> r[i] == y
    ensures forall i :: 0 <= i < |s| && idOf(s[i]) != idOf(y) ==> r[i] == s[i]
  {
    if |s| == 0 then []
    else [if idOf(s[0]) == idOf(y) then y else s[0]] + ReplaceById(s[1..], idOf, y)
  }

  /** `handleSubmitTask`, `handleSubmitAnnouncement`, `handleSubmitNote`:
      with a record under edit, replace by id; otherwise append at the end. */
  function Submit<T>(prev: seq<T>, idOf: T -> Id, item: T, editing: bool): (r: seq<T>)
    ensures editing ==> |r| == |prev|
    ensures editing ==> forall i :: 0 <= i < |prev| ==>
              r[i] == if idOf(prev[i]) == idOf(item) then item else prev[i]
    ensures !editing ==> |r| == |prev| + 1 && r[..|prev|] == prev && r[|prev|] == item
  {
    if editing then ReplaceById(prev, idOf, item) else prev + [item]
  }

  /** Submitting an edit of a record whose id is not in the list changes nothing. */
  lemma SubmitEditUnknownId<T>(prev: seq<T>, idOf: T -> Id, item: T)
    requires forall i :: 0 <= i < |prev| ==> idOf(prev[i]) != idOf(item)
    ensures Submit(prev, idOf, item, true) == prev
  {
  }

  /** Re-submitting the same edit is the same as submitting it once. */
  lemma SubmitEditIdempotent<T>(prev: seq<T>, idOf: T -> Id, item: T)
    ensures Submit(Submit(prev, idOf, item, true), idOf, item, true) == Submit(prev, idOf, item, true)
  {
  }

  /** The record with its completion status flipped. */
  function ToggleOne(t: Task): (r: Task)
  {
    t.(status := Flip(t.status))
  }

  /** `handleToggleTaskComplete`: every task with the id has its status
      flipped, with its other fields unchanged; other tasks are untouched. */
  function ToggleComplete(tasks: seq<Task>, id: Id): (r: seq<Task>)
    ensures |r| == |tasks|
    ensures forall i :: 0 <= i < |tasks| && tasks[i].id == id ==>
              r[i].status != tasks[i].status && r[i] == tasks[i].(status := r[i].status)
    ensures forall i :: 0 <= i < |tasks| && tasks[i].id != id ==> r[i] == tasks[i]
  {
    if |tasks| == 0 then []
    else [if tasks[0].id == id then ToggleOne(tasks[0]) else tasks[0]] + ToggleComplete(tasks[1..], id)
  }

  /** Toggling the same id twice restores the list. */
  lemma ToggleInvolution(tasks: seq<Task>, id: Id)
    ensures ToggleComplete(ToggleComplete(tasks, id), id) == tasks
  {
    var once := ToggleComplete(tasks, id);
    var twice := ToggleComplete(once, id);
    forall i | 0 <= i < |tasks|
      ensures twice[i] == tasks[i]
    {
      if tasks[i].id == id {
        FlipInvolution(tasks[i].status);
      }
    }
  }

  function KeepsOtherIds<T>(idOf: T -> Id, id: Id): T -> bool
  {
    x => idOf(x) != id
  }

  /** `handleDelete*` (and `deleteTask`/`deleteEvent`/`deleteNote` in the DOM
      version): drop every record with the id, keep the rest in order. */
  function Delete<T(!new)>(s: seq<T>, idOf: T -> Id, id: Id): (r: seq<T>)
    ensures IsSubsequence(r, s)
    ensures forall i :: 0 <= i < |r| ==> r[i] in s && idOf(r[i]) != id
    ensures forall i :: 0 <= i < |s| ==>
              multiset(r)[s[i]] == if idOf(s[i]) == id then 0 else multiset(s)[s[i]]
  {
    FilterMultiset(s, KeepsOtherIds(idOf, id));
    Filter(s, KeepsOtherIds(idOf, id))
  }

  /** Deleting an id nobody has is a no-op. */
  lemma DeleteUnknownId<T(!new)>(s: seq<T>, idOf: T -> Id, id: Id)
    requires forall i :: 0 <= i < |s| ==> idOf(s[i]) != id
    ensures Delete(s, idOf, id) == s
  {
    FilterKeepsAll(s, KeepsOtherIds(idOf, id));
  }

  /** Deleting twice is deleting once. */
  lemma DeleteIdempotent<T(!new)>(s: seq<T>, idOf: T -> Id, id: Id)
    ensures Delete(Delete(s, idOf, id), idOf, id) == Delete(s, idOf, id)
  {
    FilterIdempotent(s, KeepsOtherIds(idOf, id));
  }
}
