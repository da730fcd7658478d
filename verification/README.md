# TaskManager, modelled in Dafny

`TaskManager` is a single React component. It keeps a list of tasks fetched from a REST API and a form for creating and editing tasks. It offers edit, delete and complete/incomplete toggle actions. A one-minute timer raises an alert for every incomplete task whose time is the current minute. This project models the component's state machine and proves what its handlers do to that state:

- `tasks.dfy` (module `Tasks`) holds the task record. It also holds the pure computations on it: the form's field update, the lookup of a task by id, and the toggle payload.
- `reminders.dfy` (module `Reminders`) holds the reminder scan as a function from the task list and the current minute to the alert messages. It also proves the selection rule for that scan.
- `app.dfy` (module `App`) holds the component as the class `TaskManager`. Its fields `tasks` and `formData` are the two pieces of React state. Each handler is a method.

Network calls are not performed. Each handler returns the requests it sends (`Get`, `Post(body)`, `Put(id, body)`, `Delete(id)`), and the reply of each call is a parameter (`Ok(data)` or `Err`). A task's `time` is `Option<string>`: `None` stands for a null or absent value from the server. A value is truthy when it is present and not empty. The current minute `now` is an opaque string.

Points where the code's behaviour is easy to misread:
- The toggle keeps a present `time` verbatim, the empty string included. Only a null or absent time is replaced by `""`.
- The body of a creation is the whole form, including its empty `id`.
- The timer does not scan a stale snapshot. The effect is registered again on every change of `tasks`, so each tick scans the current list. The model's `CheckReminders` reads the current `tasks`.

## Model

| member | source | states |
|---|---|---|
| `Tasks.WithField` | project/src/App.js:38-43 | the named field of the form takes the value verbatim (also `time`); every other field, `id` and `completed` are unchanged |
| `Tasks.LastWriteWins` | project/src/App.js:38-43 | two changes to the same field leave only the later value |
| `Tasks.DistinctFieldsCommute` | project/src/App.js:38-43 | changes to two different fields do not interfere, in either order |
| `Tasks.FindIndex` | project/src/App.js:80 | `None` exactly when no task has the id; otherwise the index of the first task with that id |
| `Tasks.TogglePayload` | project/src/App.js:89-93 | the payload keeps `id`, `title` and `description`; `completed` is the negation of the caller's flag; a present time (empty or not) is kept and a missing one becomes `""` |
| `Tasks.ToggleFlipsOnlyCompleted` | project/src/App.js:89-93 | called with the task's own flag, as the table's button does, the payload differs from any task that has a time (empty or not) only in `completed`, which is flipped |
| `Tasks.ToggleTwice` | project/src/App.js:89-93 | toggling the payload again restores the original flag; the only lasting change is a null or absent time turned into `""`, and none at all for a task that has a time |
| `Reminders.Alerts` | project/src/App.js:18-22 | a scan raises at most one alert per task |
| `Reminders.DueIndicesExact` | project/src/App.js:18-22 | the due positions are exactly the positions of incomplete tasks whose time equals `now`, strictly increasing |
| `Reminders.AlertsFollowDueIndices` | project/src/App.js:18-22 | the k-th alert is `"Time to start: " + title` of the task at the k-th due position, and there are as many alerts as due tasks |
| `Reminders.ReminderSelection` | project/src/App.js:17-22 | one alert `"Time to start: " + title` per incomplete task whose time equals `now`, in list order, and none for any other task |
| `Reminders.NoAlertsIffNoneDue` | project/src/App.js:18-22 | a scan raises no alert if and only if no task is due |
| `Reminders.AlertsAppend` | project/src/App.js:18-22 | scanning two lists joined is scanning the first, then the second |
| `Reminders.StandupScenario` | project/src/App.js:19-20 | an incomplete "Standup" task at the current minute gives exactly one alert; completed, or a minute later, it gives none |
| `App.SaveRequest` | project/src/App.js:51-55 | a non-empty form id gives a PUT to that id, an empty one a POST; the body is exactly the form |
| `App.TaskManager.constructor` | project/src/App.js:8-13 | the component starts with an empty form, sends one GET while mounting, and holds the list of that first fetch (empty if it fails) |
| `App.TaskManager.FetchTasks` | project/src/App.js:27-35 | sends one GET; a successful reply becomes the list exactly, a failed one leaves the list as it was; the form is untouched |
| `App.TaskManager.HandleInputChange` | project/src/App.js:38-44 | the form becomes `WithField` of the old form; the list is untouched |
| `App.TaskManager.HandleSubmit` | project/src/App.js:48-61 | sends the save request of the current form; on success the form is reset to the empty form and a GET follows, applied to the list; on failure no GET is sent and neither the form nor the list changes |
| `App.TaskManager.HandleEdit` | project/src/App.js:63-65 | the form becomes the chosen task; the list is untouched |
| `App.TaskManager.HandleDelete` | project/src/App.js:67-74 | sends DELETE for the id; a re-fetch follows only on success; the form is untouched |
| `App.TaskManager.ToggleComplete` | project/src/App.js:76-101 | an id absent from the list sends nothing and changes nothing; otherwise it PUTs the toggle payload of the first matching task to that id, and a re-fetch follows only a successful PUT; the form is untouched |
| `App.TaskManager.CheckReminders` | project/src/App.js:16-22 | the loop returns exactly `Reminders.Alerts` of the current list; it has no `modifies` clause, so it leaves `tasks` and `formData` unchanged |

## Left out

- Rendering: the JSX markup, the Bootstrap classes and the table and form layout (project/src/App.js:107-183). This is presentation with no contract. The nested `<td>` at line 162 is a markup defect.
- The HTTP client: axios and the API origin (project/src/App.js:2, 5). Each call is modelled as a `Request` value plus a `Reply` parameter. URLs are reduced to the id they carry.
- The clock: `new Date().toISOString().slice(0, 16)` gives a UTC minute, while the stored times are local wall-clock strings. `now` is a parameter, and the model claims nothing about time zones.
- The timer's lifecycle: `setInterval` and `clearInterval`, and registering the timer again whenever `tasks` changes. `CheckReminders` models one tick.
- Asynchronous ordering: in the source, the re-fetch after a mutation is not awaited, so overlapping fetches may resolve in any order. The model applies each re-fetch right after its mutation.
- `alert`, `console.log` and `console.error`. Alerts are the returned message sequence; logging is dropped.
- `event.preventDefault()` in the submit handler. It is a browser concern.
- Identifier truthiness: ids are strings and a non-empty id counts as set. A numeric id `0` from the server would be falsy in the source; the model does not capture this.
- Behaviour of the server: whether a created task comes back with an id, or what a PUT to an unknown id does. The model only reflects what the re-fetch returns.
