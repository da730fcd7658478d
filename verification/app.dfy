/**
 The TaskManager component as a state machine over its two pieces of state,
 the task list and the form. Every network call is abstracted to the request
 it sends plus a reply the caller supplies; each handler returns the requests
 it sent, in order.
 */
module App {
  import opened Tasks
  import Reminders

  /** The requests the component sends to the task API. */
  datatype Request =
    | Get
    | Post(body: Task)
    | Put(id: string, body: Task)
    | Delete(id: string)

  /** The outcome of one call: the response data, or a failure. */
  datatype Reply<+T> = Ok(data: T) | Err

  /** The save request of the form: an update keyed by the form's id when the
      id is set, otherwise a creation; either way the body is the form. */
  function SaveRequest(form: Task): (r: Request)
    ensures (r.Put? || r.Post?) && r.body == form
    ensures r.Put? <==> form.id != ""
    ensures r.Put? ==> r.id == form.id
  {
    if form.id != "" then Put(form.id, form) else Post(form)
  }

  /** The list after a fetch: the reply's list on success, the current list
      otherwise. */
  function AfterFetch(current: seq<Task>, reply: Reply<seq<Task>>): seq<Task>
  {
    match reply
    case Ok(data) => data
    case Err => current
  }

  class TaskManager {
    var tasks: seq<Task>
    var formData: Task
    /** The requests sent while mounting. */
    ghost var mountSent: seq<Request>

    /** Mounting: an empty list and an empty form, then the first fetch. */
    constructor (mounted: Reply<seq<Task>>)
      ensures tasks == AfterFetch([], mounted)
      ensures formData == EmptyForm
      ensures mountSent == [Get]
    {
      tasks := [];
      formData := EmptyForm;
      new;
      var sent := FetchTasks(mounted);
      mountSent := sent;
    }

    /** Sends GET; a successful reply replaces the list wholesale, a failed
        one leaves it as it was. */
    method FetchTasks(reply: Reply<seq<Task>>) returns (sent: seq<Request>)
      modifies this
      ensures sent == [Get]
      ensures reply.Ok? ==> tasks == reply.data
      ensures reply.Err? ==> tasks == old(tasks)
      ensures formData == old(formData)
    {
      sent := [Get];
      if reply.Ok? {
        tasks := reply.data;
      }
    }

    /** The form's change handler: one named field takes the typed value. */
    method HandleInputChange(field: Field, value: string)
      modifies this
      ensures formData == WithField(old(formData), field, value)
      ensures tasks == old(tasks)
    {
      formData := WithField(formData, field, value);
    }

    /** Saves the form. Only a successful save clears the form and is
        followed by a re-fetch; a failed one changes nothing. */
    method HandleSubmit(saved: Reply<()>, refetched: Reply<seq<Task>>) returns (sent: seq<Request>)
      modifies this
      ensures saved.Ok? ==> sent == [SaveRequest(old(formData)), Get]
      ensures saved.Ok? ==> formData == EmptyForm && tasks == AfterFetch(old(tasks), refetched)
      ensures saved.Err? ==> sent == [SaveRequest(old(formData))]
      ensures saved.Err? ==> formData == old(formData) && tasks == old(tasks)
    {
      sent := [SaveRequest(formData)];
      if saved.Ok? {
        formData := EmptyForm;
        var fetch := FetchTasks(refetched);
        sent := sent + fetch;
      }
    }

    /** Loads a task of the table into the form for editing. */
    method HandleEdit(task: Task)
      modifies this
      ensures formData == task
      ensures tasks == old(tasks)
    {
      formData := task;
    }

    /** Deletes the task with the given id; a re-fetch follows only a
        successful delete. */
    method HandleDelete(id: string, deleted: Reply<()>, refetched: Reply<seq<Task>>) returns (sent: seq<Request>)
      modifies this
      ensures deleted.Ok? ==> sent == [Delete(id), Get] && tasks == AfterFetch(old(tasks), refetched)
      ensures deleted.Err? ==> sent == [Delete(id)] && tasks == old(tasks)
      ensures formData == old(formData)
    {
      sent := [Delete(id)];
      if deleted.Ok? {
        var fetch := FetchTasks(refetched);
        sent := sent + fetch;
      }
    }

    /** Flips the completion of the task with the given id. An id missing
        from the list sends nothing and changes nothing; otherwise the full
        toggled copy of the first matching task is PUT, and a re-fetch
        follows a successful PUT. */
    method ToggleComplete(id: string, completed: bool, updated: Reply<()>, refetched: Reply<seq<Task>>)
      returns (sent: seq<Request>)
      modifies this
      ensures FindIndex(old(tasks), id).None? ==> sent == [] && tasks == old(tasks)
      ensures FindIndex(old(tasks), id).Some? ==>
                var payload := TogglePayload(old(tasks)[FindIndex(old(tasks), id).value], completed);
                && payload.id == id
                && (updated.Ok? ==> sent == [Put(id, payload), Get] && tasks == AfterFetch(old(tasks), refetched))
                && (updated.Err? ==> sent == [Put(id, payload)] && tasks == old(tasks))
      ensures formData == old(formData)
    {
      var found := FindIndex(tasks, id);
      if found.None? {
        return [];
      }
      var payload := TogglePayload(tasks[found.value], completed);
      sent := [Put(id, payload)];
      if updated.Ok? {
        var fetch := FetchTasks(refetched);
        sent := sent + fetch;
      }
    }

    /** One tick of the reminder timer: walks the list in order and returns
        the alerts it raises. It changes no state. */
    method CheckReminders(now: string) returns (alerts: seq<string>)
      ensures alerts == Reminders.Alerts(tasks, now)
    {
      alerts := [];
      var i := 0;
      while i < |tasks|
        invariant 0 <= i <= |tasks|
        invariant alerts == Reminders.Alerts(tasks[..i], now)
      {
        var task := tasks[i];
        if !task.completed && task.time == Some(now) {
          alerts := alerts + [Reminders.Message(task.title)];
        }
        assert tasks[..i + 1][..i] == tasks[..i];
        i := i + 1;
      }
      assert tasks[..i] == tasks;
    }
  }
}
