# Task manager: the tasks API, the task schema and the dashboard's request logic

This project models the core of a small task manager, a Next.js app backed by MongoDB, and proves properties of that model.

The model covers four pieces:

- **`GET /api/tasks`.** It returns the signed-in user's tasks. An optional status filter and an optional case-insensitive search over title and description narrow the result. Tasks are sorted newest first and returned one page at a time, with the total and the number of pages.
- **`POST /api/tasks`.** It creates a task owned by the signed-in user.
- **The Mongoose task schema.**
  - Title and description are trimmed, required and length-limited (100 and 500 characters).
  - Status is `pending` or `done`, and defaults to `pending`.
  - The owner is required.
  - Each task has creation and update timestamps.
- **The dashboard's request logic.**
  - The query string the dashboard sends for a listing.
  - The Previous and Next pagination buttons.
  - The status toggle.
  - Whether the task form creates a task or updates one.

Modules:

- `Common` (`common.dfy`): `Option`, `Result`, `Min` and `Max`.
- `JsText` (`js_text.dfy`): the JavaScript behaviour the handlers rely on, written out:
  - truthiness of an optional string;
  - `String.prototype.trim` with the ECMAScript whitespace set;
  - `parseInt` (leading whitespace, sign, `0x` prefix, longest digit prefix, NaN as `None`);
  - `Number.prototype.toString` for naturals;
  - a case-insensitive substring search that stands in for `$regex` with option `i` on a literal pattern.
- `TaskSchema` (`task_schema.dfy`): the schema's casting and validation, and the stored document.
- `TaskRoute` (`task_route.dfy`):
  - the listing pipeline as pure functions: filter, sort, skip/limit, count, page count;
  - the POST decision as a pure function;
  - a `TaskStore` class whose `List` method reads the collection and whose `Create` method appends to it, each proved equal to those functions.
- `Dashboard` (`dashboard.dfy`):
  - pure functions for the request the page sends, its paging buttons and its form;
  - a `DashboardState` class for the page's React state (search term, status filter, current page, task being edited), whose methods are the event handlers.

The session, the request body, the clock and the id generator are parameters. The collection is a sequence of tasks in insertion order.

## Model

| member | source | states |
|---|---|---|
| JsText.Trim | src/models/Task.ts:17 | the result has no whitespace at either end and is no longer than the input |
| JsText.TrimPadded | src/models/Task.ts:17 | trimming whitespace + s + whitespace gives back s when s is already trimmed |
| JsText.TrimSplits | src/models/Task.ts:17 | every string is leading whitespace, then its trimmed form, then trailing whitespace |
| JsText.TrimIdempotent | src/models/Task.ts:17 | trimming twice is the same as trimming once |
| JsText.TrimIgnoresPadding | src/models/Task.ts:17 | adding whitespace around a string never changes what trimming it gives |
| JsText.TrimEmptyIffWhitespace | src/models/Task.ts:16-17 | trim gives the empty string exactly when the input is all whitespace |
| JsText.ContainsIgnoringCase | src/app/api/tasks/route.ts:31-35 | true exactly when the pattern occurs at some position of the text, comparing ASCII letters without case |
| JsText.DecimalString | src/app/dashboard/page.tsx:49 | the decimal form of n is non-empty, all digits, and has no leading zero unless n is 0 |
| JsText.DecimalStringValue | src/app/dashboard/page.tsx:49 | the digits of the decimal form of n read back as n |
| JsText.Truthy | src/app/api/tasks/route.ts:10 | JavaScript truthiness of an optional string: present and not empty (definition) |
| JsText.ParseInt | src/app/api/tasks/route.ts:17-18 | parseInt of an empty or all-whitespace string is NaN (None), and any number it reads comes from a string holding a decimal digit |
| JsText.ParseDecimal | src/app/api/tasks/route.ts:17-18 | parseInt of the decimal form of n is n |
| TaskSchema.ParseStatus | src/models/Task.ts:26-30 | the enum check accepts a name exactly when it is the name of one of the two statuses |
| TaskSchema.Validate | src/models/Task.ts:12-40 | accepted fields are storable; title and description are the trimmed inputs; status is the given one or "pending"; the owner is the given one; a rejection reports at least one violation |
| TaskSchema.ValidateRejects | src/models/Task.ts:14-35 | a draft is rejected exactly when a text field is missing, all whitespace, or over its limit once trimmed, or the status is outside the enum, or the owner is missing |
| TaskSchema.WhitespaceTitleRejected | src/models/Task.ts:14-19 | a title made only of whitespace fails the required rule |
| TaskSchema.PaddingNeverMatters | src/models/Task.ts:14-25 | whitespace around the title or the description never changes the outcome of validation |
| TaskSchema.PaddedTitle | src/models/Task.ts:14-19 | whitespace around the title never changes the outcome of validation |
| TaskSchema.PaddedDescription | src/models/Task.ts:20-25 | whitespace around the description never changes the outcome of validation |
| TaskSchema.RevalidateStored | src/models/Task.ts:14-30 | validating the fields of a stored task gives back the same fields |
| TaskSchema.NewTask | src/models/Task.ts:37-39 | a created document carries the fields and its id, with createdAt = updatedAt = now |
| TaskRoute.Param | src/app/api/tasks/route.ts:17-20 | a found value is that of the first pair with that name; None means no pair has that name |
| TaskRoute.IntParam | src/app/api/tasks/route.ts:17-18 | `parseInt(get(name) \|\| fallback)`: a missing or empty parameter reads as the fallback (definition; its meaning is stated by PageParam and LimitParam) |
| TaskRoute.PageParam | src/app/api/tasks/route.ts:17 | a missing or empty page parameter reads as page 1 |
| TaskRoute.LimitParam | src/app/api/tasks/route.ts:18 | a missing or empty limit parameter reads as 10 |
| TaskRoute.QueryFor | src/app/api/tasks/route.ts:25-36 | the filter's owner is the caller; it restricts the status exactly when the parameter is present, non-empty and not "all", and then to that value; it searches exactly when the search parameter is present and non-empty, and then for that text |
| TaskRoute.MatchesQuery | src/app/api/tasks/route.ts:25-38 | a task satisfies the filter when it has the caller as owner, the requested status if any, and the search text in its title or description, ignoring ASCII case, if any (definition used by Find's contract) |
| TaskRoute.SearchRefused | src/app/api/tasks/route.ts:31-38 | a search text holding a NUL character, which the database refuses as a `$regex` pattern so that the find throws (definition; its outcome, 500, is stated by TaskStore.List) |
| TaskRoute.BuildQuery | src/app/api/tasks/route.ts:25-36 | the filter built condition by condition equals the declarative filter for the caller and the query string |
| TaskRoute.QueryForMeaning | src/app/api/tasks/route.ts:25-29 | the owner is always the caller; a status restriction applies exactly when the parameter is present, non-empty and not "all" |
| TaskRoute.Find | src/app/api/tasks/route.ts:38 | every task found is in the collection and matches the filter |
| TaskRoute.FindCounts | src/app/api/tasks/route.ts:38 | find keeps each matching task as many times as the collection holds it, and drops every other task |
| TaskRoute.CountDocuments | src/app/api/tasks/route.ts:43 | the count is the number of tasks the same filter finds |
| TaskRoute.InsertNewestFirst | src/app/api/tasks/route.ts:39 | inserting into a newest-first sequence keeps it newest first and adds exactly that task |
| TaskRoute.SortNewestFirst | src/app/api/tasks/route.ts:39 | the result is newest first and is a permutation of the input |
| TaskRoute.PageCount | src/app/api/tasks/route.ts:51 | pages * limit covers the total, and one page fewer would not |
| TaskRoute.PageSlice | src/app/api/tasks/route.ts:22-41 | the window holds min(limit, what remains after the skipped pages) tasks |
| TaskRoute.SortedPage | src/app/api/tasks/route.ts:38-41 | the page holds only matches, newest first, as many as remain after the skipped pages, up to limit |
| TaskRoute.ListTasks | src/app/api/tasks/route.ts:38-53 | listed tasks are in the collection and match the filter, newest first; the pagination echoes page and limit, with total = the number of matches and pages = ceil(total/limit) |
| TaskRoute.ListIsWindow | src/app/api/tasks/route.ts:38-41 | a page is the skip/limit window over the sorted matches |
| TaskRoute.NewestFirstUnique | src/app/api/tasks/route.ts:39 | two newest-first orders of the same tasks are equal when no two different tasks share a createdAt |
| TaskRoute.OneNewestFirstOrder | src/app/api/tasks/route.ts:39 | with distinct createdAt values, every newest-first arrangement of the matches is the model's sorted order, so any sort on createdAt gives the same pages |
| TaskRoute.PagesPartitionMatches | src/app/api/tasks/route.ts:38-53 | when the matches have distinct createdAt values: the sorted order is the only newest-first order; pages 1..pages, read in order, are exactly that order; each match appears as often as the collection holds it |
| TaskRoute.PagesInRangeAreFilled | src/app/api/tasks/route.ts:45-53 | every page from 1 to pages is non-empty, and every page before the last is full |
| TaskRoute.PageBeyondLastIsEmpty | src/app/api/tasks/route.ts:40-51 | a page past the last one is empty |
| TaskRoute.FindNoneOwned | src/app/api/tasks/route.ts:25 | tasks of other owners are never found |
| TaskRoute.OtherOwnersInvisible | src/app/api/tasks/route.ts:25-53 | other owners' tasks, wherever they sit in the collection, change neither the listed page nor the totals |
| TaskRoute.NewestComesFirst | src/app/api/tasks/route.ts:39-41 | a match newer than every other match is the first task of page 1 |
| TaskRoute.PostDraft | src/app/api/tasks/route.ts:63-77 | 401 exactly when the session user id is missing or empty; 400 exactly when title or description is missing or empty; otherwise a draft owned by the session user, with status defaulting to "pending" |
| TaskRoute.PostResponse | src/app/api/tasks/route.ts:63-96 | 401 exactly when the session user id is missing or empty, and 400 for a missing field; 201 exactly when the presence check and the schema both pass, returning a storable task with the trimmed text, the session owner and the new timestamps; every other failure is 500 |
| TaskRoute.SchemaRejectionIsInternalError | src/app/api/tasks/route.ts:81-94 | a body that passes the presence check but breaks a schema rule gets 500 |
| TaskRoute.WhitespaceTitleIsInternalError | src/app/api/tasks/route.ts:72-94 | a title made only of spaces passes the presence check and then gets 500 |
| TaskRoute.UnknownStatusIsInternalError | src/app/api/tasks/route.ts:70-94 | a status outside the enum gets 500 |
| TaskRoute.OwnerFromSessionOnly | src/app/api/tasks/route.ts:81-86 | an owner named in the body has no effect on the outcome |
| TaskRoute.TaskStore.constructor | src/models/Task.ts:46 | the collection starts empty, with the invariant holding |
| TaskRoute.TaskStore.List | src/app/api/tasks/route.ts:7-61 | 401 when the session user id is missing or empty; 500 when the search text holds a NUL character; otherwise 200 with exactly the listing of the current collection for the caller's filter, page and limit |
| TaskRoute.TaskStore.Create | src/app/api/tasks/route.ts:63-96 | the response is PostResponse; on 201 exactly the created task is appended and the id counter advances; on any error the collection is unchanged; the store invariant (storable tasks, distinct ids) is kept |
| TaskRoute.CreatedTaskInvisibleToOthers | src/app/api/tasks/route.ts:25-86 | a task created by one user never changes another user's listing |
| Dashboard.Toggled | src/app/dashboard/page.tsx:135 | the toggled status differs from the original |
| Dashboard.ToggleRequest | src/app/dashboard/page.tsx:130-137 | an update of the same task with the same title and description, and status "done" for a pending task, "pending" otherwise |
| Dashboard.ToggleRoundTrip | src/app/dashboard/page.tsx:130-137 | the toggle always sends a status in the enum, and toggling twice sends the original status |
| Dashboard.ControlsShown | src/app/dashboard/page.tsx:326 | the pagination controls are rendered only when there is more than one page (definition) |
| Dashboard.PreviousDisabled | src/app/dashboard/page.tsx:331 | Previous is disabled on page 1 (definition) |
| Dashboard.NextDisabled | src/app/dashboard/page.tsx:341 | Next is disabled on the last page (definition) |
| Dashboard.PreviousPage | src/app/dashboard/page.tsx:330 | the page after Previous is one less when the page is above 1, and exactly 1 otherwise |
| Dashboard.NextPage | src/app/dashboard/page.tsx:340 | the page after Next is one more when the page is below the page count, and exactly the page count otherwise, including from a page past the last one |
| Dashboard.ButtonsStayInRange | src/app/dashboard/page.tsx:326-347 | from a page in 1..pages, both buttons stay in 1..pages, and each is disabled exactly when clicking it would change nothing |
| Dashboard.NextClicksClamp | src/app/dashboard/page.tsx:340 | k clicks on Next lead to min(pages, page + k) |
| Dashboard.PreviousClicksClamp | src/app/dashboard/page.tsx:330 | k clicks on Previous lead to max(1, page - k) |
| Dashboard.EveryPageReachable | src/app/dashboard/page.tsx:326-347 | every page in 1..pages can be reached from any other with Next or Previous |
| Dashboard.RequestParams | src/app/dashboard/page.tsx:48-53 | the URLSearchParams the query function builds (definition; its meaning is stated by RequestParamsRead) |
| Dashboard.RequestParamsRead | src/app/dashboard/page.tsx:48-53 | the query string carries page and limit, carries search only when the term is non-empty, and carries status only when the filter is not "all" |
| Dashboard.RequestRoundTrip | src/app/dashboard/page.tsx:48-53 | the handler reads back the dashboard's current page, a limit of 10, and the filter the dashboard meant |
| Dashboard.LimitRoundTrip | src/app/dashboard/page.tsx:50 | the limit the dashboard sends parses as 10 |
| Dashboard.SubmitRequest | src/app/dashboard/page.tsx:214 | an update exactly when the edited task has an id, otherwise a create; the entered values are sent as they are |
| Dashboard.FormDefaults | src/app/dashboard/page.tsx:220-239 | the form's initial title, description and status: the task's own when truthy, else "", "" and "pending" (definition; stated by FormModes) |
| Dashboard.FormModes | src/app/dashboard/page.tsx:198-239 | "Add Task" opens a create form prefilled with "", "" and "pending"; editing a listed task opens an update form prefilled with that task's values |
| Dashboard.FormCreateAccepted | src/app/dashboard/page.tsx:107-116 | a form create with non-blank text within the limits gets 201, with the trimmed text, the chosen status and the signed-in owner |
| Dashboard.DashboardState.constructor | src/app/dashboard/page.tsx:34-37 | the page starts with an empty search, the filter "all", page 1 and no open form |
| Dashboard.DashboardState.Request | src/app/dashboard/page.tsx:46-53 | the handler reads the current page and a limit of 10 from the state's request, the search only when the term is non-empty, and the status only when the filter is not "all" |
| Dashboard.DashboardState.Previous | src/app/dashboard/page.tsx:330-331 | a click moves to max(1, page - 1), doing nothing while disabled; the page stays at least 1 |
| Dashboard.DashboardState.Next | src/app/dashboard/page.tsx:340-341 | a click moves to min(pages, page + 1), doing nothing while disabled; the page never passes the last one |
| Dashboard.DashboardState.SetSearchTerm | src/app/dashboard/page.tsx:182 | the search term is replaced; the current page is not touched |
| Dashboard.DashboardState.SetStatusFilter | src/app/dashboard/page.tsx:190 | the filter is replaced; the current page is not touched |
| Dashboard.DashboardState.OpenNewTask | src/app/dashboard/page.tsx:198 | the form opens on an empty task |
| Dashboard.DashboardState.OpenEdit | src/app/dashboard/page.tsx:306 | the form opens on the listed task |
| Dashboard.DashboardState.CloseForm | src/app/dashboard/page.tsx:257 | the form closes |
| Dashboard.DashboardState.Submit | src/app/dashboard/page.tsx:214 | an update exactly when the open task has an id, with the entered values |

## Left out

- Database connection setup in `src/lib/mongodb.ts`, including its caching and a failing connect. A failed connect would turn into a 500 response. It is not modelled.
- `src/app/layout.tsx`, all rendering, React Query caching and invalidation, and the `fetch` calls. The model covers only the values the page computes and sends.
- `getServerSession`. The session is an `Option` of the user id, passed in as a parameter.
- The cast of the session id to an ObjectId. Owners are compared as strings. A session id that is not an ObjectId string makes the source fail with 500: in GET when the filter is cast, and in POST when the schema casts `userId`. The model does not produce that 500.
- The `GET` catch branch (lines 54-60) is modelled for one cause only: a search text holding a NUL character, which the database refuses as a `$regex` pattern (`SearchRefused`), gets 500. Other database failures are out of scope.
- Logging to the console.
- The server side of the dashboard's update (PUT) and delete (DELETE) requests. Those handlers are not part of this model. The dashboard's delete button is not modelled.
- The schema's indexes. They do not change results.
- TaskRoute.TaskStore.List, regular expressions:
  - `$regex` is modelled only for search text without regular-expression metacharacters (`ListRequestOk`), matched as a case-insensitive substring; a search text with a NUL character gets 500, as the database refuses it;
  - case folding is ASCII only.
- TaskRoute.TaskStore.List, paging parameters:
  - a page or limit that does not parse, or parses to a value below 1, is excluded by the precondition;
  - the model does not cover what MongoDB does with NaN or negative skip and limit values, or the double-precision arithmetic of `(page - 1) * limit` and `Math.ceil`.
- TaskRoute.SortNewestFirst: tasks with equal `createdAt` are kept in insertion order, a choice of the model. MongoDB leaves their order unspecified, and each page is a separate skip/limit query, so with tied timestamps the source's pages may overlap or miss a task. `PagesPartitionMatches` is therefore stated for matches with distinct `createdAt`, where `OneNewestFirstOrder` shows every sort agrees. The exact equalities of `OtherOwnersInvisible`, `CreatedTaskInvisibleToOthers`, `ListTasks` and `TaskStore.List` hold for the model's tie order; under distinct timestamps they hold for any sort.
- TaskRoute.TaskStore.List: `find` and `countDocuments` are modelled against one snapshot of the collection. Their non-atomic execution is not modelled.
- Timestamps are a natural number `now` passed in, not a wall-clock `Date`. Updates of existing tasks are outside this model, so the `updatedAt` change the timestamps option makes on a save is not modelled.
- String lengths are counted in code points, not UTF-16 code units. Characters outside the Basic Multilingual Plane therefore count once toward the 100 and 500 limits, not twice.
- Field values in the body other than strings or absent fields are not modelled: `null`, numbers, arrays and objects in a field, and their Mongoose casting. A body that cannot be read (invalid JSON, or JSON `null`) is `None` and gets 500. Any other JSON value that is not an object has no `title`, so it is `Some(Body(None, None, None, None))` and gets 400.
- URL percent-encoding of the query string. Parameters are modelled as already-decoded name/value pairs.
- The dashboard keeps the current page when the search term or status filter changes. The model reproduces this as the source does it, so the page can end up past the last page of the new listing (`PageBeyondLastIsEmpty`).
- The dashboard's redirect to sign-in and its loading and error states.
