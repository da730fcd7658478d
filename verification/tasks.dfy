/**
 The task record shared by the form and the list of the TaskManager component,
 and the pure computations the component performs on it: the form's field
 update, the lookup of a task by identifier and the payload of the
 complete/incomplete toggle.
 */
module Tasks {

  datatype Option<+T> = None | Some(value: T)

  /** A task as the remote API serialises it. An empty `id` marks a task the
      server has not created yet. `time` is `None` when the server sends no
      value (null or absent); otherwise it is the datetime-local string. */
  datatype Task = Task(id: string, title: string, description: string, time: Option<string>, completed: bool)

  /** The three named inputs of the form. */
  datatype Field = Title | Description | Time

  /** The value the form starts with and is reset to after a successful save. */
  const EmptyForm: Task := Task("", "", "", Some(""), false)

  /** JavaScript truthiness of an optional string: present and non-empty. */
  predicate Truthy(s: Option<string>)
  {
    s.Some? && s.value != ""
  }

  /** What the form shows for a field, read back from a task. */
  function FieldValue(t: Task, f: Field): Option<string>
  {
    match f
    case Title => Some(t.title)
    case Description => Some(t.description)
    case Time => t.time
  }

  /** The record spread of the input handler: field `f` becomes `value`,
      stored verbatim (also for `time`), and nothing else changes. */
  function WithField(t: Task, f: Field, value: string): (r: Task)
    ensures FieldValue(r, f) == Some(value)
    ensures forall g: Field :: g != f ==> FieldValue(r, g) == FieldValue(t, g)
    ensures r.id == t.id && r.completed == t.completed
  {
    match f
    case Title => t.(title := value)
    case Description => t.(description := value)
    case Time => t.(time := Some(value))
  }

  /** Two writes to the same field: the later one wins. */
  lemma LastWriteWins(t: Task, f: Field, v1: string, v2: string)
    ensures WithField(WithField(t, f, v1), f, v2) == WithField(t, f, v2)
  {
  }

  /** Writes to different fields do not interfere. */
  lemma DistinctFieldsCommute(t: Task, f: Field, g: Field, v: string, w: string)
    requires f != g
    ensures WithField(WithField(t, f, v), g, w) == WithField(WithField(t, g, w), f, v)
  {
  }

  /** `Array.prototype.find` by identifier, as an index: the first task whose
      `id` equals `id`, or `None` when there is none. */
  function FindIndex(ts: seq<Task>, id: string): (r: Option<nat>)
    ensures r.None? <==> forall i :: 0 <= i < |ts| ==> ts[i].id != id
    ensures r.Some? ==> r.value < |ts| && ts[r.value].id == id
    ensures r.Some? ==> forall j :: 0 <= j < r.value ==> ts[j].id != id
  {
    if ts == [] then None
    else if ts[0].id == id then Some(0)
    else
      match FindIndex(ts[1..], id)
      case None => None
      case Some(k) => Some(k + 1)
  }

  /** The body the toggle sends: a copy of the task with `completed` set to
      the negation of the caller's flag and a falsy `time` replaced by "".
      An empty time is falsy but is replaced by itself, so only a missing
      time actually changes. */
  function TogglePayload(t: Task, completed: bool): (r: Task)
    ensures r.id == t.id && r.title == t.title && r.description == t.description
    ensures r.completed == !completed
    ensures t.time.Some? ==> r.time == t.time
    ensures t.time.None? ==> r.time == Some("")
  {
    t.(completed := !completed, time := if Truthy(t.time) then t.time else Some(""))
  }

  /** Called as the table does, with the task's own flag, the toggle flips
      `completed` and keeps every other field whenever the task has a time,
      empty or not. */
  lemma ToggleFlipsOnlyCompleted(t: Task)
    requires t.time.Some?
    ensures TogglePayload(t, t.completed) == t.(completed := !t.completed)
  {
  }

  /** Toggling the payload again restores the original flag; the only lasting
      change is that a missing time has become "". */
  lemma ToggleTwice(t: Task)
    ensures TogglePayload(TogglePayload(t, t.completed), !t.completed)
         == t.(time := TogglePayload(t, t.completed).time)
    ensures t.time.Some? ==> TogglePayload(TogglePayload(t, t.completed), !t.completed) == t
  {
  }
}
