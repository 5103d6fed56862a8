# MePad-v2 backend meeting logic in Dafny

A Dafny model of the backend of a small meeting-management web application.
Users create meetings. A meeting embeds a list of participant ids, a list of action
points and a list of pain points. A dashboard summarises a user's meetings.
The document database becomes an in-memory store:

- `meetings`, a map from meeting id to meeting document;
- `users`, a map from email to user id (read only).

The model has four modules, one file each:

- `Schema` (`schema.dfy`) models `Backend/src/models/Meeting.js`. It gives the meeting and
  action-point documents, the required paths as the predicates `ValidMeeting` and
  `ValidActionPoint`, the status enum `pending`/`in-progress`/`completed`, and the
  `pending` default as `WithDefaults`. A required string counts as set only when it is
  not the empty string, which is how the document library's `required` validator treats
  strings.
- `MeetingController` (`meeting_controller.dfy`) models `Backend/src/controllers/meetingController.js`.
  The class `MeetingStore` holds the store, with one method per handler. Each method returns
  the handler's HTTP status (200, 201, 400, 401 or 404) and changes `meetings` only when the
  handler succeeds. Its object invariant `Valid()` says that every meeting is stored under its
  own id, passes validation, and has a status on every action point (the schema default). The pure functions beside the class say what each handler
  builds: `NewMeeting`, `Merge`, `NewActionPoint`, `PatchAction`, `FindById` and `Without`.
  The listing query is specified by `Listing`: the answer lists the caller's meetings, each
  exactly once, latest first.
- `Dashboard` (`dashboard.dfy`) models `Backend/src/controllers/dashboardController.js` as pure
  functions over the fetched meetings and tasks. "Now" is an integer parameter, and dates are
  integers.
- `Sequences` (`sequences.dfy`) holds `Array.prototype.filter` and `slice(0, n)` with their
  laws, and the subsequence order.

Where the code and the application's intended design disagree, the model follows the code:

- A meeting's creator is meant to be fixed at creation. However, `updateMeeting` hands the
  whole request body to `findByIdAndUpdate`, so a body carrying `createdBy` reassigns the
  creator. `Merge` keeps that behaviour.
- `getMeeting` answers 404, not 401, for a meeting owned by someone else, because its query
  filters on the owner.
- `addActionPoint` keeps a status supplied in the body. The default `pending` applies only
  when the body has no status.
- The pain-point and participant handlers are documented as admin only, but they check
  neither the role nor the owner.
- The schema declares participants as `{name, email}` records, but the controller stores user
  ids. The model stores user ids.
- The schema declares no `painPoints` path. The model carries it as an extra list on the
  meeting, as the controller assumes.
- The 50-character title limit appears in no code, so it is not modelled.

`Dashboard.StandupScenario` is a client of the store and the dashboard. It proves that one
meeting created in the future in an empty store is listed as the only meeting and counted as
the one upcoming meeting.

Only six handlers are routed in `Backend/src/routes/meetingRoutes.js:3-24`: create, list,
get, update, delete and `updateActionPoint`. The other handlers are modelled as written.

## Model

| member | source | states |
|---|---|---|
| `Schema.WithDefaults` | Backend/src/models/Meeting.js:16-20 | A missing status becomes `pending` and nothing else changes. A status that passed the enum is still in the enum. Defaulting never changes validity. |
| `Schema.WithDefaultsIdempotent` | Backend/src/models/Meeting.js:19 | Applying the default twice is the same as applying it once. |
| `Schema.ValidAppendAction` | Backend/src/models/Meeting.js:44 | For a valid meeting with one action point appended, the save validates exactly when the new point is valid. |
| `Schema.ValidReplaceAction` | Backend/src/models/Meeting.js:44 | For a valid meeting with one action point replaced, the save validates exactly when the replacement is valid. |
| `MeetingController.NewMeeting` | Backend/src/controllers/meetingController.js:12-19 | The created meeting takes the body's title, date, venue and summary, and the body's action points with the status default applied. Its creator is always the caller, and participants default to empty. Every action point has a status. The meeting is valid exactly when the body has title, date, venue and summary and only valid action points. |
| `MeetingController.CreatorIgnoresBody` | Backend/src/controllers/meetingController.js:12-15 | The `createdBy` in the body has no effect on the created meeting. |
| `MeetingController.DefaultAll` | Backend/src/models/Meeting.js:16-44 | Applying the status default to an embedded array keeps its length and ids, gives every point a status, and keeps the array valid exactly when it was valid. |
| `MeetingController.Merge` | Backend/src/controllers/meetingController.js:212-215 | Each path the body sets replaces the stored one, `createdBy` included, and action points get the status default. Each path the body leaves out keeps its stored value. The id and pain points never change. An empty body changes nothing. A valid meeting stays valid exactly when every path the body sets passes its validator. |
| `MeetingController.MergeIdempotent` | Backend/src/controllers/meetingController.js:212-215 | Applying the same update twice is the same as applying it once. |
| `MeetingController.NewActionPoint` | Backend/src/controllers/meetingController.js:313 | The pushed point gets the generated id and the body's description, assignee and due date. A status in the body is kept, and without one the status is `pending`. It is valid exactly when description, assignee and due date are set and the status is in the enum. |
| `MeetingController.PatchAction` | Backend/src/controllers/meetingController.js:356 | Each path the body sets (description, assignee, due date, status) replaces the point's value, and each path it leaves out keeps it. A body `_id` is not modelled (see Left out), so the patch never changes the id. An empty body changes nothing. |
| `MeetingController.PatchActionIdempotent` | Backend/src/controllers/meetingController.js:356 | Applying the same patch twice is the same as applying it once. |
| `MeetingController.FindById` | Backend/src/controllers/meetingController.js:348 | The result is the index of the first element with the id. It is None exactly when no element has that id. |
| `MeetingController.ActionIndex` | Backend/src/controllers/meetingController.js:348 | The lookup of an action point by id finds the first point with that id, and finds nothing exactly when no point has it. |
| `MeetingController.PainPointIndex` | Backend/src/controllers/meetingController.js:73 | The lookup of a pain point by id finds the first point with that id, and finds nothing exactly when no point has it. |
| `MeetingController.AppendedActionIsFound` | Backend/src/controllers/meetingController.js:313 | After an action point is appended under an id no other point has, a lookup of that id finds the new last point. |
| `MeetingController.Without` | Backend/src/controllers/meetingController.js:131-133 | The removed id no longer occurs. Every other id keeps its number of occurrences. The rest keep their order. |
| `MeetingController.WithoutIdempotent` | Backend/src/controllers/meetingController.js:131-133 | Removing a participant twice is the same as removing once. |
| `MeetingController.InsertByDate` | Backend/src/controllers/meetingController.js:150 | Inserting a meeting keeps a date-descending sequence date-descending, and the result is the old sequence plus that one meeting. |
| `MeetingController.ListingMembers` | Backend/src/controllers/meetingController.js:149 | Every meeting in a listing answer is a stored meeting that the caller created. In a store keyed by id, it is the meeting stored under its own id. |
| `MeetingController.MeetingStore.CreateMeeting` | Backend/src/controllers/meetingController.js:9-32 | Returns 201 and inserts `NewMeeting` under the new id, with the caller as creator. An invalid body or a taken id gives 400 and no insert. |
| `MeetingController.MeetingStore.GetMeetings` | Backend/src/controllers/meetingController.js:146-164 | Returns the caller's meetings, each exactly once and latest first, with their count. |
| `MeetingController.MeetingStore.GetMeeting` | Backend/src/controllers/meetingController.js:169-193 | Returns 200 and the meeting exactly when the id exists and the caller created it. Otherwise, including when another user owns it, it returns 404 and no data. |
| `MeetingController.MeetingStore.UpdateMeeting` | Backend/src/controllers/meetingController.js:198-221 | Returns 404 for a missing id, 401 for a non-creator and 400 for a body that fails validation, leaving the store unchanged in each case. Otherwise it returns 200 and stores `Merge` of the meeting and body. |
| `MeetingController.MeetingStore.DeleteMeeting` | Backend/src/controllers/meetingController.js:226-246 | Returns 404 or 401 with the store unchanged. Otherwise it returns 200 and removes exactly that id, leaving every other meeting unchanged. |
| `MeetingController.MeetingStore.AddActionPoint` | Backend/src/controllers/meetingController.js:294-326 | Returns 404 for a missing id, 401 for a non-creator and 400 for an invalid point, leaving the store unchanged in each case. Otherwise it returns 201 and appends exactly one point at the end; nothing else changes. |
| `MeetingController.MeetingStore.UpdateActionPoint` | Backend/src/controllers/meetingController.js:329-369 | Returns 404 for a missing meeting, 401 for a non-creator and 404 for an unknown action id. Otherwise it patches the first point with that id, returning 200, or 400 if the patched point is invalid. Only that point changes, and the list keeps its length. |
| `MeetingController.MeetingStore.AddPainPoint` | Backend/src/controllers/meetingController.js:37-59 | Returns 404 for a missing meeting. Otherwise it returns 200 and appends one `open` pain point added by the caller at `now`. No ownership check is made. |
| `MeetingController.MeetingStore.UpdatePainPoint` | Backend/src/controllers/meetingController.js:64-86 | Returns 404 for a missing meeting or pain point. Otherwise it sets only that point's status. |
| `MeetingController.MeetingStore.GetPainPoints` | Backend/src/controllers/meetingController.js:251-265 | Returns 404 for a missing meeting. Otherwise it returns the meeting's pain points and a count equal to their number. |
| `MeetingController.MeetingStore.AddParticipant` | Backend/src/controllers/meetingController.js:91-118 | Returns 404 for a missing meeting or an unknown email, and 400 for a user who is already a participant, leaving the store unchanged in each case. Otherwise the list grows by one and ends with that user. |
| `MeetingController.MeetingStore.RemoveParticipant` | Backend/src/controllers/meetingController.js:123-141 | Returns 404 for a missing meeting. Otherwise it stores `Without` of the participants, so the id no longer occurs. |
| `Sequences.Filter` | Backend/src/controllers/dashboardController.js:18 | The result keeps exactly the elements satisfying the predicate, each as often as in the input and in the same order. It is never longer than the input. |
| `Sequences.Take` | Backend/src/controllers/dashboardController.js:26 | `slice(0, n)` gives a prefix of length min(n, length). |
| `Sequences.FilterIdempotent` | Backend/src/controllers/meetingController.js:131-133 | Filtering twice by the same predicate is the same as filtering once. |
| `Sequences.FilterAppend` | Backend/src/controllers/dashboardController.js:19-22 | Filtering a concatenation is concatenating the filtered parts. |
| `Dashboard.Upcoming` | Backend/src/controllers/dashboardController.js:18 | Keeps exactly the meetings dated after `now`, each as often as in the input, in order. |
| `Dashboard.WithStatus` | Backend/src/controllers/dashboardController.js:20 | Keeps exactly the action points with the given status, each as often as in the input, in order. |
| `Dashboard.AllActions` | Backend/src/controllers/dashboardController.js:19-22 | The concatenation of every meeting's action points holds all of them, and its length is the total number of action points. |
| `Dashboard.CountStatus` | Backend/src/controllers/dashboardController.js:19-22 | The running sum of per-meeting counts of one status is at most the number of all action points. |
| `Dashboard.CountStatusFlat` | Backend/src/controllers/dashboardController.js:19-22 | The running sum equals the number of action points with that status among all action points of all meetings. |
| `Dashboard.PendingActions` | Backend/src/controllers/dashboardController.js:34-41 | The flattened list of annotated pending points has exactly as many entries as the pending count, and every entry is pending. |
| `Dashboard.PendingCompletedBounded` | Backend/src/controllers/dashboardController.js:19-22 | Pending plus completed action points is at most the number of all action points. |
| `Dashboard.PendingActionsAppend` | Backend/src/controllers/dashboardController.js:34-35 | Flattening a concatenation of meetings concatenates the flattened parts, so entries keep meeting order. |
| `Dashboard.PendingActionsOfOne` | Backend/src/controllers/dashboardController.js:35-41 | The entries for one meeting are its pending points annotated by `Annotate` with its title and id, in list order. |
| `Dashboard.PendingActionsAnnotated` | Backend/src/controllers/dashboardController.js:34-42 | Every flattened entry built by `Annotate` is pending and carries the title and id of a meeting that holds it. |
| `Dashboard.GetDashboard` | Backend/src/controllers/dashboardController.js:9-53 | The total is the number of meetings. The upcoming count is the length of the upcoming filter. The pending and completed counts are the numbers of action points with that status among all action points, and the pending count is also the length of the flattened pending list. Recent meetings are the first min(5, n). Upcoming meetings are a prefix of the upcoming filter, all in the future, with length min(5, upcoming count). Pending entries are a prefix of the flattened list, with length min(5, pending count). |
| `Dashboard.DashboardPendingAnnotated` | Backend/src/controllers/dashboardController.js:34-42 | Every pending entry shown is pending and names its meeting's title and id. |
| `Dashboard.DashboardOfListing` | Backend/src/controllers/dashboardController.js:11-26 | Over the listing query's answer, the total is the number of meetings the caller created, and every recent or upcoming meeting shown is the caller's. |
| `Dashboard.GetAdminDashboard` | Backend/src/controllers/dashboardController.js:58-83 | A role other than `admin` gets 403 with no data. An admin gets every meeting, their number, the participant count, the number of tasks and the number of completed tasks, which together with the open tasks makes up all tasks. |
| `Dashboard.CompletedTasks` | Backend/src/controllers/dashboardController.js:73 | Keeps exactly the completed tasks, each as often as in the input. |
| `Dashboard.OpenTasks` | Backend/src/controllers/dashboardController.js:99 | Keeps exactly the tasks not completed, each as often as in the input. |
| `Dashboard.TasksSplit` | Backend/src/controllers/dashboardController.js:99-100 | Completed tasks and open tasks together are all the tasks. |
| `Dashboard.MeetingsOf` | Backend/src/controllers/dashboardController.js:90-92 | Keeps exactly the meetings that list the caller as a participant, each as often as in the input. |
| `Dashboard.TasksOf` | Backend/src/controllers/dashboardController.js:95 | Keeps exactly the tasks assigned to the caller, each as often as in the input. |
| `Dashboard.GetParticipantDashboard` | Backend/src/controllers/dashboardController.js:88-111 | The meetings are exactly those listing the caller and the tasks exactly those assigned to the caller, each as often as stored. The upcoming count is the length of the upcoming filter over those meetings. The pending count is the number of tasks not completed and the completed count the number of completed tasks; together they are the caller's number of tasks. |
| `Dashboard.ParticipantUpcomingOnlyOwn` | Backend/src/controllers/dashboardController.js:98 | The upcoming count covers only upcoming meetings that list the caller. |

## Left out

- The first `updateActionPoint` (`meetingController.js:270-291`) is not modelled: the later assignment at line 329 replaces it.
- Database failures and the catch-all 400 or 500 answers they cause are not modelled. Malformed ids that fail to cast are not modelled either. Ids are opaque strings.
- `UpdateMeeting`: a body that fails the update validators is reported as 400. The handler throws to an error middleware that is not part of this model.
- The server, its routing, authentication and authorisation middleware are not modelled. The caller's id and role are given as parameters.
- The User and Task models are not part of this model. A task is reduced to its assignee and status. The admin dashboard's count of participant users is passed in as an input.
- ObjectId generation is not modelled. New meeting ids and sub-document ids are passed in as parameters, and an `_id` supplied in a body is not modelled. A create under an id already in the store returns 400, as a duplicate-key error would.
- `populate`, `select`, the `timestamps` paths (`createdAt`, `updatedAt`) and the paths `populate('tasks')` would add are not modelled.
- An explicit `null` in a body is not distinguished from a path the body leaves out.
- `AddParticipant`: only the case where the body carries an email is modelled. With no email, the user lookup has an empty filter and would match an arbitrary user.
- Dates are integers, and date strings that do not parse are not modelled.
- Concurrent requests are not modelled. The model is sequential, so the last write always wins.
- `MeetingController.MeetingStore.GetMeetings`: meetings with equal dates may be listed in any order, as the database does not specify one. The database query is modelled by a loop over the store's keys with an insertion by date.
