/**
 The reminder monitor's scan: once per tick the component walks the task
 list and raises one alert for every incomplete task whose time string is
 exactly the current minute. `now` is an opaque string here.
 */
module Reminders {
  import opened Tasks

  /** A task is due when it is not completed and its time equals `now`. */
  predicate Due(t: Task, now: string)
  {
    !t.completed && t.time == Some(now)
  }

  /** The text of the alert raised for a due task. */
  function Message(title: string): string
  {
    "Time to start: " + title
  }

  /** The alerts one scan raises, in list order: those of all tasks but the
      last, then the last task's alert if it is due. */
  function Alerts(ts: seq<Task>, now: string): (r: seq<string>)
    ensures |r| <= |ts|
  {
    if ts == [] then []
    else
      var last := ts[|ts| - 1];
      Alerts(ts[..|ts| - 1], now) + (if Due(last, now) then [Message(last.title)] else [])
  }

  /** The positions of the due tasks, in increasing order. */
  function DueIndices(ts: seq<Task>, now: string): seq<nat>
  {
    if ts == [] then []
    else DueIndices(ts[..|ts| - 1], now) + (if Due(ts[|ts| - 1], now) then [|ts| - 1] else [])
  }

  /** DueIndices lists every due position and nothing else, each once and in
      increasing order. */
  lemma {:induction false} DueIndicesExact(ts: seq<Task>, now: string)
    ensures forall k :: 0 <= k < |DueIndices(ts, now)| ==>
              DueIndices(ts, now)[k] < |ts| && Due(ts[DueIndices(ts, now)[k]], now)
    ensures forall i :: 0 <= i < |ts| && Due(ts[i], now) ==> i in DueIndices(ts, now)
    ensures forall k, l :: 0 <= k < l < |DueIndices(ts, now)| ==>
              DueIndices(ts, now)[k] < DueIndices(ts, now)[l]
  {
    if ts != [] {
      var init := ts[..|ts| - 1];
      DueIndicesExact(init, now);
      var d := DueIndices(init, now);
      assert forall k :: 0 <= k < |d| ==> d[k] < |init|;
      forall k | 0 <= k < |d|
        ensures ts[d[k]] == init[d[k]]
      {
      }
    }
  }

  /** The k-th alert is the message of the task at the k-th due position. */
  lemma {:induction false} AlertsFollowDueIndices(ts: seq<Task>, now: string)
    ensures |Alerts(ts, now)| == |DueIndices(ts, now)|
    ensures forall k :: 0 <= k < |Alerts(ts, now)| ==>
              DueIndices(ts, now)[k] < |ts| && Alerts(ts, now)[k] == Message(ts[DueIndices(ts, now)[k]].title)
  {
    if ts != [] {
      var init := ts[..|ts| - 1];
      AlertsFollowDueIndices(init, now);
      DueIndicesExact(init, now);
      var d := DueIndices(init, now);
      forall k | 0 <= k < |d|
        ensures ts[d[k]] == init[d[k]]
      {
      }
    }
  }

  /** The scan's selection rule in one statement: there is exactly one alert
      per due task, they come in list order, and no other task raises one. */
  lemma {:induction false} ReminderSelection(ts: seq<Task>, now: string)
    ensures var d := DueIndices(ts, now);
      && |Alerts(ts, now)| == |d|
      && (forall k :: 0 <= k < |d| ==>
            d[k] < |ts| && Due(ts[d[k]], now) && Alerts(ts, now)[k] == Message(ts[d[k]].title))
      && (forall k, l :: 0 <= k < l < |d| ==> d[k] < d[l])
      && (forall i :: 0 <= i < |ts| ==> (Due(ts[i], now) <==> i in d))
  {
    DueIndicesExact(ts, now);
    AlertsFollowDueIndices(ts, now);
  }

  /** A scan raises no alert exactly when no task is due. */
  lemma {:induction false} NoAlertsIffNoneDue(ts: seq<Task>, now: string)
    ensures Alerts(ts, now) == [] <==> forall i :: 0 <= i < |ts| ==> !Due(ts[i], now)
  {
    ReminderSelection(ts, now);
    var d := DueIndices(ts, now);
    if Alerts(ts, now) != [] {
      assert Due(ts[d[0]], now);
    }
  }

  /** Scanning a concatenation is scanning its parts one after the other. */
  lemma {:induction false} AlertsAppend(a: seq<Task>, b: seq<Task>, now: string)
    ensures Alerts(a + b, now) == Alerts(a, now) + Alerts(b, now)
  {
    if b == [] {
      assert a + b == a;
    } else {
      var init := b[..|b| - 1];
      AlertsAppend(a, init, now);
      assert (a + b)[..|a + b| - 1] == a + init;
      assert (a + b)[|a + b| - 1] == b[|b| - 1];
    }
  }

  /** An incomplete "Standup" task at the current minute raises one alert;
      completed, or a minute later, none. */
  lemma StandupScenario()
    ensures Alerts([Task("1", "Standup", "daily", Some("2024-01-01T09:00"), false)], "2024-01-01T09:00")
         == ["Time to start: Standup"]
    ensures Alerts([Task("1", "Standup", "daily", Some("2024-01-01T09:00"), true)], "2024-01-01T09:00") == []
    ensures Alerts([Task("1", "Standup", "daily", Some("2024-01-01T09:00"), false)], "2024-01-01T09:01") == []
  {
    assert Message("Standup") == "Time to start: Standup";
  }
}
