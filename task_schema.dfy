/** The task document and the rules its schema enforces before a write reaches the
    collection: trimmed, required, length-limited text; a two-value status with a
    default; a required owner; and the two timestamps. */
module TaskSchema {
  import opened Common
  import opened JsText

  const TitleMaxLength: nat := 100
  const DescriptionMaxLength: nat := 500
  const DefaultStatus: string := "pending"

  /** The owning user's id, as the session carries it. */
  type UserId = string

  datatype Status = Pending | Done

  function StatusName(s: Status): string {
    match s
    case Pending => "pending"
    case Done => "done"
  }

  /** The enum check: the status spelled exactly `name`, if there is one. */
  function ParseStatus(name: string): (r: Option<Status>)
    ensures forall s :: r == Some(s) <==> StatusName(s) == name
  {
    if name == "pending" then Some(Pending)
    else if name == "done" then Some(Done)
    else None
  }

  /** The fields handed to the model on create, before casting; None is an absent field. */
  datatype Draft = Draft(
    title: Option<string>,
    description: Option<string>,
    status: Option<string>,
    userId: Option<UserId>)

  /** The validated, user-visible fields of a task. */
  datatype Fields = Fields(title: string, description: string, status: Status, userId: UserId)

  /** One failed schema rule; a rejected write reports every rule it breaks. */
  datatype Violation =
    | TitleRequired | TitleTooLong
    | DescriptionRequired | DescriptionTooLong
    | StatusNotInEnum
    | UserIdRequired

  /** Text as the collection holds it: trimmed, non-empty, at most `maxLength` long. */
  predicate IsStoredText(s: string, maxLength: nat) {
    IsTrimmed(s) && 0 < |s| <= maxLength
  }

  /** What every stored task satisfies. */
  predicate IsStorable(f: Fields) {
    IsStoredText(f.title, TitleMaxLength) && IsStoredText(f.description, DescriptionMaxLength)
  }

  /** The violations of a string path declared with trim, required and maxlength: the
      trim setter runs first, so both checks see the trimmed value, and "" fails required. */
  function TextViolations(v: Option<string>, maxLength: nat, required: Violation, tooLong: Violation): set<Violation> {
    if v.None? || Trim(v.value) == "" then {required}
    else if |Trim(v.value)| > maxLength then {tooLong}
    else {}
  }

  function Violations(d: Draft): set<Violation> {
    TextViolations(d.title, TitleMaxLength, TitleRequired, TitleTooLong)
    + TextViolations(d.description, DescriptionMaxLength, DescriptionRequired, DescriptionTooLong)
    + (if d.status.Some? && ParseStatus(d.status.value).None? then {StatusNotInEnum} else {})
    + (if d.userId.None? then {UserIdRequired} else {})
  }

  /** Casting and validation on create: trim the text paths, default an absent status to
      "pending", check every rule; the fields come back only when no rule fails. */
  function Validate(d: Draft): (r: Result<Fields, set<Violation>>)
    ensures r.Ok? ==> IsStorable(r.value)
    ensures r.Ok? ==> d.title.Some? && r.value.title == Trim(d.title.value)
    ensures r.Ok? ==> d.description.Some? && r.value.description == Trim(d.description.value)
    ensures r.Ok? ==> StatusName(r.value.status) == d.status.GetOr(DefaultStatus)
    ensures r.Ok? ==> d.userId == Some(r.value.userId)
    ensures r.Err? ==> r.error != {}
  {
    var violations := Violations(d);
    if violations == {} then
      Ok(Fields(Trim(d.title.value), Trim(d.description.value),
                ParseStatus(d.status.GetOr(DefaultStatus)).value, d.userId.value))
    else
      Err(violations)
  }

  /** A draft is rejected exactly when it breaks a rule stated on the raw input: a missing
      or whitespace-only text field, a text field whose trimmed form is too long, a status
      outside the enum, or a missing owner. */
  lemma ValidateRejects(d: Draft)
    ensures Validate(d).Err? <==>
      || d.title.None? || AllWhitespace(d.title.value) || |Trim(d.title.value)| > TitleMaxLength
      || d.description.None? || AllWhitespace(d.description.value)
      || |Trim(d.description.value)| > DescriptionMaxLength
      || (d.status.Some? && d.status.value != "pending" && d.status.value != "done")
      || d.userId.None?
  {
    if d.title.Some? { TrimEmptyIffWhitespace(d.title.value); }
    if d.description.Some? { TrimEmptyIffWhitespace(d.description.value); }
  }

  /** A whitespace-only title is rejected as missing, not stored as an empty string. */
  lemma WhitespaceTitleRejected(d: Draft)
    requires d.title.Some? && AllWhitespace(d.title.value)
    ensures Validate(d).Err? && TitleRequired in Validate(d).error
  {
    TrimEmptyIffWhitespace(d.title.value);
  }

  /** The length limits see the trimmed text: whitespace put around the title or the
      description never changes the outcome of validation. */
  lemma PaddingNeverMatters(d: Draft, lead: string, trail: string)
    requires AllWhitespace(lead) && AllWhitespace(trail)
    requires d.title.Some? && d.description.Some?
    ensures Validate(d.(title := Some(lead + d.title.value + trail))) == Validate(d)
    ensures Validate(d.(description := Some(lead + d.description.value + trail))) == Validate(d)
  {
    PaddedTitle(d, lead, trail);
    PaddedDescription(d, lead, trail);
  }

  lemma PaddedTitle(d: Draft, lead: string, trail: string)
    requires AllWhitespace(lead) && AllWhitespace(trail) && d.title.Some?
    ensures Validate(d.(title := Some(lead + d.title.value + trail))) == Validate(d)
  {
    var padded := d.(title := Some(lead + d.title.value + trail));
    TrimIgnoresPadding(lead, d.title.value, trail);
    assert Violations(padded) == Violations(d);
  }

  lemma PaddedDescription(d: Draft, lead: string, trail: string)
    requires AllWhitespace(lead) && AllWhitespace(trail) && d.description.Some?
    ensures Validate(d.(description := Some(lead + d.description.value + trail))) == Validate(d)
  {
    var padded := d.(description := Some(lead + d.description.value + trail));
    TrimIgnoresPadding(lead, d.description.value, trail);
    assert Violations(padded) == Violations(d);
  }

  /** The draft that re-saving stored fields would hand to the schema. */
  function DraftOf(f: Fields): Draft {
    Draft(Some(f.title), Some(f.description), Some(StatusName(f.status)), Some(f.userId))
  }

  /** Normalisation is idempotent: validating what was stored gives back the same fields. */
  lemma RevalidateStored(f: Fields)
    requires IsStorable(f)
    ensures Validate(DraftOf(f)) == Ok(f)
  {
    TrimKeepsTrimmed(f.title);
    TrimKeepsTrimmed(f.description);
  }

  /** A stored task: its generated id, its validated fields and the two timestamps. */
  datatype Task = Task(
    id: nat,
    title: string,
    description: string,
    status: Status,
    userId: UserId,
    createdAt: nat,
    updatedAt: nat)
  {
    function Content(): Fields {
      Fields(title, description, status, userId)
    }
  }

  /** The document Task.create inserts: the fields, a fresh id, and both timestamps at `now`. */
  function NewTask(id: nat, f: Fields, now: nat): (t: Task)
    ensures t.Content() == f && t.id == id
    ensures t.createdAt == now && t.updatedAt == now
  {
    Task(id, f.title, f.description, f.status, f.userId, now, now)
  }

}
