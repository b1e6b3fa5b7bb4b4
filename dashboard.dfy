/** The dashboard's request-side logic: which page it asks for and how it moves between
    pages, how it builds the listing query string, what the status toggle sends, and
    whether the task form creates or updates. Rendering is not modelled. */
module Dashboard {
  import opened Common
  import opened JsText
  import opened TaskSchema
  import opened TaskRoute

  /** The page size the dashboard always asks for. */
  const PageLimit: string := "10"

  /** A task as the dashboard receives it in a listing. */
  datatype ClientTask = ClientTask(id: string, title: string, description: string, status: Status)

  /** The two writes the dashboard sends: POST /api/tasks and PUT /api/tasks/{id}. */
  datatype Mutation =
    | CreateRequest(title: string, description: string, status: string)
    | UpdateRequest(id: string, title: string, description: string, status: string)

  // ---------------------------------------------------------------------------
  // Status toggle
  // ---------------------------------------------------------------------------

  /** The other status. */
  function Toggled(s: Status): (r: Status)
    ensures r != s
  {
    match s
    case Pending => Done
    case Done => Pending
  }

  /** handleStatusToggle: an update of the task that flips its status and resends its id,
      title and description as they are. */
  function ToggleRequest(t: ClientTask): (m: Mutation)
    ensures m.UpdateRequest? && m.id == t.id && m.title == t.title && m.description == t.description
    ensures m.status == if t.status == Pending then "done" else "pending"
  {
    UpdateRequest(t.id, t.title, t.description, StatusName(Toggled(t.status)))
  }

  /** The toggle always sends a status the schema accepts, and toggling the toggled task
      sends the original status back. */
  lemma ToggleRoundTrip(t: ClientTask)
    ensures ParseStatus(ToggleRequest(t).status) == Some(Toggled(t.status))
    ensures var flipped := t.(status := ParseStatus(ToggleRequest(t).status).value);
      ToggleRequest(flipped) == UpdateRequest(t.id, t.title, t.description, StatusName(t.status))
  {
  }

  // ---------------------------------------------------------------------------
  // Pagination controls
  // ---------------------------------------------------------------------------

  /** The controls are rendered only when there is more than one page. */
  predicate ControlsShown(pages: int) {
    pages > 1
  }

  predicate PreviousDisabled(currentPage: int) {
    currentPage == 1
  }

  predicate NextDisabled(currentPage: int, pages: int) {
    currentPage == pages
  }

  /** The Previous button's update, `Math.max(1, prev - 1)`. */
  function PreviousPage(currentPage: int): (r: int)
    ensures r >= 1
    ensures currentPage > 1 ==> r == currentPage - 1
    ensures currentPage <= 1 ==> r == 1
  {
    Max(1, currentPage - 1)
  }

  /** The Next button's update, `Math.min(pages, prev + 1)`. */
  function NextPage(currentPage: int, pages: int): (r: int)
    ensures r <= pages
    ensures currentPage < pages ==> r == currentPage + 1
    ensures currentPage >= pages ==> r == pages
  {
    Min(pages, currentPage + 1)
  }

  /** Within 1..pages both buttons keep the page within 1..pages, and each is disabled
      exactly where its update would leave the page where it is. */
  lemma ButtonsStayInRange(currentPage: int, pages: int)
    requires 1 <= currentPage <= pages
    ensures 1 <= PreviousPage(currentPage) <= pages
    ensures 1 <= NextPage(currentPage, pages) <= pages
    ensures PreviousDisabled(currentPage) <==> PreviousPage(currentPage) == currentPage
    ensures NextDisabled(currentPage, pages) <==> NextPage(currentPage, pages) == currentPage
  {
  }

  /** The page after `k` clicks on Next. */
  function NextClicks(currentPage: int, pages: int, k: nat): int {
    if k == 0 then currentPage else NextPage(NextClicks(currentPage, pages, k - 1), pages)
  }

  /** The page after `k` clicks on Previous. */
  function PreviousClicks(currentPage: int, k: nat): int {
    if k == 0 then currentPage else PreviousPage(PreviousClicks(currentPage, k - 1))
  }

  lemma {:induction false} NextClicksClamp(currentPage: int, pages: int, k: nat)
    requires currentPage <= pages
    ensures NextClicks(currentPage, pages, k) == Min(pages, currentPage + k)
  {
    if k > 0 {
      NextClicksClamp(currentPage, pages, k - 1);
    }
  }

  lemma {:induction false} PreviousClicksClamp(currentPage: int, k: nat)
    requires currentPage >= 1
    ensures PreviousClicks(currentPage, k) == Max(1, currentPage - k)
  {
    if k > 0 {
      PreviousClicksClamp(currentPage, k - 1);
    }
  }

  /** Every page of the listing can be reached with the buttons, from any page. */
  lemma EveryPageReachable(from: int, target: int, pages: int)
    requires 1 <= from <= pages && 1 <= target <= pages
    ensures target >= from ==> NextClicks(from, pages, target - from) == target
    ensures target <= from ==> PreviousClicks(from, from - target) == target
  {
    if target >= from {
      NextClicksClamp(from, pages, target - from);
    } else {
      PreviousClicksClamp(from, from - target);
    }
  }

  // ---------------------------------------------------------------------------
  // The listing request
  // ---------------------------------------------------------------------------

  /** The URLSearchParams the query function builds: page and limit always, search only
      when non-empty, status only when the filter is not "all". */
  function RequestParams(currentPage: nat, searchTerm: string, statusFilter: string): Params {
    [("page", DecimalString(currentPage)), ("limit", PageLimit)]
    + (if searchTerm != "" then [("search", searchTerm)] else [])
    + (if statusFilter != "all" then [("status", statusFilter)] else [])
  }

  /** What URLSearchParams.get returns for each parameter of a dashboard request. */
  lemma RequestParamsRead(currentPage: nat, searchTerm: string, statusFilter: string)
    ensures var ps := RequestParams(currentPage, searchTerm, statusFilter);
      && Param(ps, "page") == Some(DecimalString(currentPage))
      && Param(ps, "limit") == Some(PageLimit)
      && Param(ps, "search") == (if searchTerm != "" then Some(searchTerm) else None)
      && Param(ps, "status") == (if statusFilter != "all" then Some(statusFilter) else None)
  {
    var ps := RequestParams(currentPage, searchTerm, statusFilter);
    var tail: Params := if statusFilter != "all" then [("status", statusFilter)] else [];
    var rest: Params := (if searchTerm != "" then [("search", searchTerm)] else []) + tail;
    assert ps == [("page", DecimalString(currentPage)), ("limit", PageLimit)] + rest;
    assert ps[1..] == [("limit", PageLimit)] + rest;
    assert ps[2..] == rest;
    forall name | name != "page" && name != "limit"
      ensures Param(ps, name) == Param(rest, name)
    {
      assert Param(ps, name) == Param(ps[1..], name) == Param(ps[2..], name);
    }
    assert Param(tail, "search") == None;
    assert Param(tail, "status") == if statusFilter != "all" then Some(statusFilter) else None;
    if searchTerm != "" {
      assert rest[1..] == tail;
      assert Param(rest, "status") == Param(tail, "status");
    } else {
      assert rest == tail;
    }
  }

  /** The handler reads back what the dashboard asked for: the current page, a limit of
      10, the search text when there is one, and the status filter unless it is "all". */
  lemma RequestRoundTrip(userId: UserId, currentPage: nat, searchTerm: string, statusFilter: string)
    requires currentPage >= 1
    ensures var ps := RequestParams(currentPage, searchTerm, statusFilter);
      && PageParam(ps) == Some(currentPage)
      && LimitParam(ps) == Some(10)
      && QueryFor(userId, ps) == Query(userId,
           if statusFilter != "all" && statusFilter != "" then Some(statusFilter) else None,
           if searchTerm != "" then Some(searchTerm) else None)
  {
    var ps := RequestParams(currentPage, searchTerm, statusFilter);
    RequestParamsRead(currentPage, searchTerm, statusFilter);
    assert Truthy(Param(ps, "page")) && Truthy(Param(ps, "limit"));
    assert PageParam(ps) == ParseInt(DecimalString(currentPage));
    ParseDecimal(currentPage);
    assert LimitParam(ps) == ParseInt(PageLimit);
    LimitRoundTrip();
  }

  lemma LimitRoundTrip()
    ensures ParseInt(PageLimit) == Some(10)
  {
    assert DecimalString(1) == "1";
    assert DecimalString(10) == PageLimit;
    ParseDecimal(10);
  }

  // ---------------------------------------------------------------------------
  // The task form
  // ---------------------------------------------------------------------------

  /** The task the form edits: `{}` for a new task (every field absent), or a listed task. */
  datatype FormTask = FormTask(id: Option<string>, title: Option<string>, description: Option<string>, status: Option<string>)

  const NewTaskForm: FormTask := FormTask(None, None, None, None)

  function FormOf(t: ClientTask): FormTask {
    FormTask(Some(t.id), Some(t.title), Some(t.description), Some(StatusName(t.status)))
  }

  /** The form's initial values: the task's own where they are truthy, else "", "" and
      "pending". */
  function FormDefaults(f: FormTask): (string, string, string) {
    (if Truthy(f.title) then f.title.value else "",
     if Truthy(f.description) then f.description.value else "",
     if Truthy(f.status) then f.status.value else "pending")
  }

  /** onSubmit: an update of the edited task when it has an id, a create otherwise; the
      submitted values are sent as entered. */
  function SubmitRequest(f: FormTask, title: string, description: string, status: string): (m: Mutation)
    ensures m.UpdateRequest? <==> Truthy(f.id)
    ensures m.UpdateRequest? ==> m.id == f.id.value
    ensures m.title == title && m.description == description && m.status == status
  {
    if Truthy(f.id) then UpdateRequest(f.id.value, title, description, status)
    else CreateRequest(title, description, status)
  }

  /** "Add Task" opens a form that creates, with status "pending" preselected; "Edit" on a
      listed task opens a form that updates that task, prefilled with its values. */
  lemma FormModes(t: ClientTask, title: string, description: string, status: string)
    requires t.id != "" && t.title != "" && t.description != ""
    ensures SubmitRequest(NewTaskForm, title, description, status) == CreateRequest(title, description, status)
    ensures FormDefaults(NewTaskForm) == ("", "", "pending")
    ensures SubmitRequest(FormOf(t), title, description, status) == UpdateRequest(t.id, title, description, status)
    ensures FormDefaults(FormOf(t)) == (t.title, t.description, StatusName(t.status))
  {
  }

  /** The JSON body POST receives for a create request. */
  function CreateBody(m: Mutation): Body
    requires m.CreateRequest?
  {
    Body(Some(m.title), Some(m.description), Some(m.status), None)
  }

  /** A new task entered with a title and a description that are not blank and fit their
      limits once trimmed, and a status from the form's select, is created (201) with the
      trimmed text and owned by the signed-in user. */
  lemma FormCreateAccepted(userId: UserId, title: string, description: string, status: Status, id: nat, now: nat)
    requires userId != ""
    requires !AllWhitespace(title) && |Trim(title)| <= TitleMaxLength
    requires !AllWhitespace(description) && |Trim(description)| <= DescriptionMaxLength
    ensures var m := SubmitRequest(NewTaskForm, title, description, StatusName(status));
      var r := PostResponse(Some(userId), Some(CreateBody(m)), id, now);
      && r.Success? && r.code == 201
      && r.body.title == Trim(title) && r.body.description == Trim(description)
      && r.body.status == status && r.body.userId == userId
  {
    var m := SubmitRequest(NewTaskForm, title, description, StatusName(status));
    var d := PostDraft(Some(userId), Some(CreateBody(m))).value;
    assert title != "" && description != "";
    ValidateRejects(d);
  }

  // ---------------------------------------------------------------------------
  // The page's state
  // ---------------------------------------------------------------------------

  /** The dashboard's React state: the search box, the status filter, the current page
      and the task open in the form, if any. */
  class DashboardState {
    var searchTerm: string
    var statusFilter: string
    var currentPage: int
    var editingTask: Option<FormTask>

    ghost predicate Valid()
      reads this
    {
      currentPage >= 1
    }

    constructor ()
      ensures Valid()
      ensures searchTerm == "" && statusFilter == "all" && currentPage == 1 && editingTask == None
    {
      searchTerm := "";
      statusFilter := "all";
      currentPage := 1;
      editingTask := None;
    }

    /** The query string of the listing request for the current state. */
    function Request(): (ps: Params)
      reads this
      requires Valid()
      ensures PageParam(ps) == Some(currentPage) && LimitParam(ps) == Some(10)
      ensures Param(ps, "search") == (if searchTerm != "" then Some(searchTerm) else None)
      ensures Param(ps, "status") == (if statusFilter != "all" then Some(statusFilter) else None)
    {
      RequestParamsRead(currentPage, searchTerm, statusFilter);
      RequestRoundTrip("", currentPage, searchTerm, statusFilter);
      RequestParams(currentPage, searchTerm, statusFilter)
    }

    /** Typing in the search box replaces the term and leaves the page where it was. */
    method SetSearchTerm(term: string)
      requires Valid()
      modifies this`searchTerm
      ensures Valid()
      ensures searchTerm == term
    {
      searchTerm := term;
    }

    /** Choosing a filter replaces it and leaves the page where it was. */
    method SetStatusFilter(filter: string)
      requires Valid()
      modifies this`statusFilter
      ensures Valid()
      ensures statusFilter == filter
    {
      statusFilter := filter;
    }

    /** A click on Previous: nothing while disabled, else one page back, never below 1. */
    method Previous()
      requires Valid()
      modifies this`currentPage
      ensures Valid()
      ensures currentPage == PreviousPage(old(currentPage))
    {
      if !PreviousDisabled(currentPage) {
        currentPage := PreviousPage(currentPage);
      }
    }

    /** A click on Next, which is rendered only when there is more than one page: nothing
      while disabled, else one page on, never past the last page. */
    method Next(pages: int)
      requires Valid() && ControlsShown(pages)
      modifies this`currentPage
      ensures Valid()
      ensures currentPage == NextPage(old(currentPage), pages) && currentPage <= pages
    {
      if !NextDisabled(currentPage, pages) {
        currentPage := NextPage(currentPage, pages);
      }
    }

    /** "Add Task": the form opens on an empty task. */
    method OpenNewTask()
      requires Valid()
      modifies this`editingTask
      ensures Valid()
      ensures editingTask == Some(NewTaskForm)
    {
      editingTask := Some(NewTaskForm);
    }

    /** The edit button: the form opens on a listed task. */
    method OpenEdit(t: ClientTask)
      requires Valid()
      modifies this`editingTask
      ensures Valid()
      ensures editingTask == Some(FormOf(t))
    {
      editingTask := Some(FormOf(t));
    }

    /** Cancel, and a successful create or update: the form closes. */
    method CloseForm()
      requires Valid()
      modifies this`editingTask
      ensures Valid()
      ensures editingTask == None
    {
      editingTask := None;
    }

    /** Submitting the open form with the values entered in it. */
    method Submit(title: string, description: string, status: string) returns (m: Mutation)
      requires editingTask.Some?
      ensures m.UpdateRequest? <==> Truthy(editingTask.value.id)
      ensures m == SubmitRequest(editingTask.value, title, description, status)
    {
      m := SubmitRequest(editingTask.value, title, description, status);
    }
  }
}
