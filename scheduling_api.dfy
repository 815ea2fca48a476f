/**
 * The JSON handlers of `backend/tasks/views.py` over an in-memory database.
 *
 * `TaskStore` holds the tables (`db`) and the next free primary key; each
 * handler is a method taking the requesting user and the already-decoded
 * request fields (None for a key that is absent) and returning a `Reply`.
 * The model-level `save` operations of `backend/tasks/models.py` are methods
 * of the same class, since the handlers call them in the middle of their work.
 */
module SchedulingApi {
  import opened Wrappers
  import opened Text
  import opened Ordering
  import opened Scheduling

  // ---------------------------------------------------------------------
  // Request validation
  // ---------------------------------------------------------------------

  const DefaultColor: string := "#E5E7EB"
  const LabelNameLimit: nat := 50

  predicate IsHexDigit(c: char) {
    '0' <= c <= '9' || 'A' <= c <= 'F' || 'a' <= c <= 'f'
  }

  /**
   * `re.match(r'^#[0-9A-Fa-f]{6}$', s)`. Python's `$` also matches just
   * before a final newline, so one trailing newline is accepted.
   */
  predicate ColorMatches(s: string) {
    && (|s| == 7 || (|s| == 8 && s[7] == '\n'))
    && s[0] == '#'
    && forall i :: 1 <= i < 7 ==> IsHexDigit(s[i])
  }

  /** The colour check as the handlers apply it: empty is allowed, otherwise `#RRGGBB`. */
  predicate ColorAccepted(c: string) {
    c == "" || ColorMatches(c)
  }

  /** On a stripped value the pattern accepts exactly the seven-character form. */
  lemma StrippedColor(s: string)
    requires Stripped(s)
    ensures ColorMatches(s) <==> |s| == 7 && s[0] == '#' && forall i :: 1 <= i < 7 ==> IsHexDigit(s[i])
  {
    assert IsSpace('\n');
  }

  /** A label name as the handlers store it: stripped, then cut to 50 characters. */
  function LabelName(raw: string): (r: string)
    ensures |r| == if |Trim(raw)| <= LabelNameLimit then |Trim(raw)| else LabelNameLimit
    ensures r <= Trim(raw)
    ensures r == "" <==> Blank(raw)
  {
    TrimEmptyIffBlank(raw);
    Take(Trim(raw), LabelNameLimit)
  }

  /** Another label of `user` (other than `except`) already has `name`. */
  predicate NameTaken(labels: map<Id, Label>, user: UserId, name: string, except: Option<Id>) {
    exists k :: k in labels && Some(k) != except && labels[k].owner == user && labels[k].name == name
  }

  /** Keeping its own name never collides with a label's own row. */
  lemma KeepNameAllowed(labels: map<Id, Label>, pk: Id)
    requires LabelNamesUnique(labels) && pk in labels
    ensures !NameTaken(labels, labels[pk].owner, labels[pk].name, Some(pk))
  {
  }

  /**
   * The label `LabelCreateView.post` stores for `user`: the name stripped
   * and cut to 50 characters, the colour stripped (`#E5E7EB` when absent).
   * An empty name, a malformed colour and a name the user already has are
   * refused, checked in that order.
   */
  function NewLabel(labels: map<Id, Label>, user: UserId, name: Option<string>, color: Option<string>)
    : (r: Result<Label, ApiError>)
    ensures r == Failure(LabelNameRequired) <==> Blank(name.GetOr(""))
    ensures r == Failure(BadColor) <==> !Blank(name.GetOr("")) && !ColorAccepted(Trim(color.GetOr(DefaultColor)))
    ensures r.Failure? && r.error.LabelExists? <==>
      !Blank(name.GetOr("")) && ColorAccepted(Trim(color.GetOr(DefaultColor)))
      && NameTaken(labels, user, LabelName(name.GetOr("")), None)
    ensures r.Success? ==>
      && r.value.owner == user && r.value.name != "" && |r.value.name| <= LabelNameLimit
      && r.value.name <= Trim(name.GetOr("")) && ColorAccepted(r.value.color) && Stripped(r.value.color)
      && forall j :: j in labels && labels[j].owner == user ==> labels[j].name != r.value.name
    ensures r.Success? ==> r.value == Label(user, LabelName(name.GetOr("")), Trim(color.GetOr(DefaultColor)))
    ensures r.Failure? && r.error.LabelExists? ==> r.error.name == LabelName(name.GetOr(""))
  {
    var n := LabelName(name.GetOr(""));
    var c := Trim(color.GetOr(DefaultColor));
    if n == "" then Failure(LabelNameRequired)
    else if !ColorAccepted(c) then Failure(BadColor)
    else if NameTaken(labels, user, n, None) then Failure(LabelExists(n))
    else Success(Label(user, n, c))
  }

  /**
   * The label `LabelDetailView.put` stores over label `pk`: only the fields
   * present in the request change. The name is compared with the user's
   * other labels only, so a label may keep its own name; a refused request
   * changes neither field.
   */
  function EditLabel(labels: map<Id, Label>, pk: Id, name: Option<string>, color: Option<string>)
    : (r: Result<Label, ApiError>)
    requires pk in labels
    ensures r == Failure(NameEmpty) <==> name.Some? && Blank(name.value)
    ensures r.Failure? && r.error.LabelExists? <==>
      name.Some? && !Blank(name.value) && NameTaken(labels, labels[pk].owner, LabelName(name.value), Some(pk))
    ensures r == Failure(BadColor) <==>
      && !(name.Some? && Blank(name.value))
      && !(name.Some? && NameTaken(labels, labels[pk].owner, LabelName(name.value), Some(pk)))
      && color.Some? && !ColorAccepted(Trim(color.value))
    ensures r.Failure? && r.error.LabelExists? ==> r.error.name == LabelName(name.value)
    ensures r.Success? ==>
      && r.value.owner == labels[pk].owner
      && (name.None? ==> r.value.name == labels[pk].name)
      && (name.Some? ==> r.value.name != "" && r.value.name <= Trim(name.value) && |r.value.name| <= LabelNameLimit)
      && (color.None? ==> r.value.color == labels[pk].color)
      && (color.Some? ==> ColorAccepted(r.value.color) && Stripped(r.value.color))
      && (LabelNamesUnique(labels) ==>
            forall j :: j in labels && j != pk && labels[j].owner == r.value.owner ==> labels[j].name != r.value.name)
    ensures r.Success? ==>
      && (name.Some? ==> r.value.name == LabelName(name.value))
      && (color.Some? ==> r.value.color == Trim(color.value))
  {
    var cur := labels[pk];
    var n := if name.Some? then LabelName(name.value) else cur.name;
    var c := if color.Some? then Trim(color.value) else cur.color;
    if name.Some? && n == "" then Failure(NameEmpty)
    else if name.Some? && NameTaken(labels, cur.owner, n, Some(pk)) then Failure(LabelExists(n))
    else if color.Some? && !ColorAccepted(c) then Failure(BadColor)
    else Success(Label(cur.owner, n, c))
  }

  /**
   * `for day in weekdays: if day not in Weekday.values: return 400`: the
   * weekdays named, or the first string that names none.
   */
  function ParseDays(ws: seq<string>): (r: Result<seq<Weekday>, string>)
    ensures r.Failure? <==> FirstUnnamed(ws) < |ws|
    ensures r.Failure? ==> r.error == ws[FirstUnnamed(ws)]
    ensures r.Success? ==> |r.value| == |ws| && forall i :: 0 <= i < |ws| ==> Name(r.value[i]) == ws[i]
  {
    if ws == [] then Success([])
    else match ParseWeekday(ws[0])
      case None => Failure(ws[0])
      case Some(d) =>
        match ParseDays(ws[1..])
        case Failure(bad) => Failure(bad)
        case Success(rest) => Success([d] + rest)
  }

  /** The position of the first string of `ws` that names no weekday, or `|ws|` when all do. */
  function FirstUnnamed(ws: seq<string>): (i: nat)
    ensures i <= |ws| && (i < |ws| ==> ParseWeekday(ws[i]).None?)
    ensures forall j :: 0 <= j < i ==> ParseWeekday(ws[j]).Some?
  {
    if ws == [] || ParseWeekday(ws[0]).None? then 0
    else
      var i := FirstUnnamed(ws[1..]);
      assert forall j :: 1 <= j < i + 1 ==> ws[j] == ws[1..][j - 1];
      1 + i
  }

  /**
   * The template `TemplateCreateView.post` builds before saving: the
   * stripped title, which must not be empty, and the weekdays named in the
   * request (none when the key is absent).
   */
  function NewTemplate(user: UserId, title: Option<string>, weekdays: Option<seq<string>>)
    : (r: Result<Template, ApiError>)
    ensures r == Failure(TitleRequired) <==> Blank(title.GetOr(""))
    ensures r.Failure? && r.error.InvalidWeekday? <==> !Blank(title.GetOr("")) && ParseDays(weekdays.GetOr([])).Failure?
    ensures r.Failure? && r.error.InvalidWeekday? ==> r.error == InvalidWeekday(ParseDays(weekdays.GetOr([])).error)
    ensures r.Success? ==>
      && r.value.owner == user && r.value.title != "" && r.value.title == Trim(title.GetOr(""))
      && |r.value.weekdays| == |weekdays.GetOr([])|
      && forall i :: 0 <= i < |r.value.weekdays| ==> Name(r.value.weekdays[i]) == weekdays.GetOr([])[i]
  {
    var t := Trim(title.GetOr(""));
    TrimEmptyIffBlank(title.GetOr(""));
    if t == "" then Failure(TitleRequired)
    else match ParseDays(weekdays.GetOr([]))
      case Failure(day) => Failure(InvalidWeekday(day))
      case Success(days) => Success(Template(user, t, days))
  }

  /**
   * The template `TemplateDetailView.put` tries to save over `cur`: a
   * non-empty title replaces the old one once stripped (so a title of
   * spaces becomes empty and `full_clean` refuses it); a weekday list, when
   * present, replaces the old one.
   */
  function EditTemplate(cur: Template, title: Option<string>, weekdays: Option<seq<string>>)
    : (r: Result<Template, ApiError>)
    ensures r.Failure? <==> weekdays.Some? && ParseDays(weekdays.value).Failure?
    ensures r.Failure? ==> r.error == InvalidWeekday(ParseDays(weekdays.value).error)
    ensures r.Success? ==>
      && r.value.owner == cur.owner
      && r.value.title == (if title.Some? && title.value != "" then Trim(title.value) else cur.title)
      && (weekdays.None? ==> r.value.weekdays == cur.weekdays)
      && (weekdays.Some? ==> (|r.value.weekdays| == |weekdays.value|
            && forall i :: 0 <= i < |weekdays.value| ==> Name(r.value.weekdays[i]) == weekdays.value[i]))
  {
    if weekdays.Some? && ParseDays(weekdays.value).Failure? then Failure(InvalidWeekday(ParseDays(weekdays.value).error))
    else Success(cur.(title := if title.Some? && title.value != "" then Trim(title.value) else cur.title,
                      weekdays := if weekdays.Some? then ParseDays(weekdays.value).value else cur.weekdays))
  }

  /** A title of only spaces passes the view but is refused by `full_clean`. */
  lemma BlankRetitleRefused(templates: map<Id, Template>, pk: Id, title: string)
    requires pk in templates && title != "" && Blank(title)
    ensures var r := EditTemplate(templates[pk], Some(title), None);
      r.Success? && CleanTemplate(templates, Some(pk), r.value) == Some(TemplateError(true, ConflictDays(templates, templates[pk].owner, Some(pk), templates[pk].weekdays)))
  {
    TrimEmptyIffBlank(title);
  }

  // ---------------------------------------------------------------------
  // Replies
  // ---------------------------------------------------------------------

  /** The error replies; `Status` gives the HTTP status of each. */
  datatype ApiError =
    | NotFound                       // get_object_or_404 outside the handler's try
    | TitleRequired                  // 'Title is required'
    | LabelNameRequired              // 'Label name is required'
    | NameEmpty                      // 'Name cannot be empty'
    | BadColor                       // 'Invalid color format'
    | LabelExists(name: string)      // 'Label "<name>" already exists'
    | InvalidWeekday(day: string)    // 'Invalid weekday: <day>'
    | Invalid(error: TemplateError)  // ValidationError from Template.full_clean
    | EntryMalformed                 // 'Each task must have task_id and order'
    | DateRequired                   // 'Date is required'
    | TemplateIdRequired             // 'Template ID is required'
    | ListExists(date: Date)         // 'Daily task list already exists for <date>'
    | TemplateNotFound(id: Id)       // 'Template with ID <id> not found'
    | DueDateRequired                // 'Due date is required'
    | InvalidLabel                   // 'Invalid label'
    | Internal(fault: ServerFault)   // anything caught by `except Exception`

  /** What reached a handler's `except Exception` clause. */
  datatype ServerFault =
    | MissingTask    // Http404 for a task id, raised inside the try
    | RepeatedTask   // IntegrityError of unique_together (template, task)
    | MissingLabel   // Http404 for a label id, raised inside the try

  function Status(e: ApiError): (code: int)
    ensures code == 404 <==> e.NotFound? || e.TemplateNotFound?
    ensures code == 500 <==> e.Internal?
    ensures code in {400, 404, 500}
  {
    match e
    case NotFound => 404
    case TemplateNotFound(_) => 404
    case Internal(_) => 500
    case _ => 400
  }

  /** The reply of the template-task loop's fault. */
  function LinkError(f: LinkFault): ApiError {
    match f
    case MalformedEntry => EntryMalformed
    case UnknownTask => Internal(MissingTask)
    case DuplicateLink => Internal(RepeatedTask)
  }

  datatype Reply<+T> = Done(code: int, value: T) | Refused(error: ApiError) {
    function StatusCode(): int {
      if Done? then code else Status(error)
    }
  }

  /** Why `DailyTaskList.save` refused to save. */
  datatype ListError =
    | NoTemplate       // 'Template is required to create a Daily Task List.'
    | UnknownTemplate  // the template id names no row
    | ForeignTemplate  // 'Cannot use a template from another user.'
    | DayTaken         // unique_together (user, date)

  /**
   * The fields a `DailyTaskDetailView.put` request carries. `labelId` is
   * `Some(None)` for a `label_id` key holding null.
   */
  datatype DailyTaskPatch = DailyTaskPatch(
    title: Option<string>,
    order: Option<nat>,
    labelId: Option<Option<Id>>,
    completed: Option<bool>,
    dueDate: Option<Date>)

  /** The request has a `label_id` key with a truthy value (a zero id is falsy). */
  predicate NamesLabel(p: DailyTaskPatch) {
    p.labelId.Some? && p.labelId.value.Some? && p.labelId.value.value != 0
  }

  /**
   * The daily task `DailyTaskDetailView.put` leaves behind when every step
   * succeeds; `PatchedFields`, `PatchedLabels` and `PatchedCompletion`
   * state what it is.
   */
  function Patched(t: DailyTask, p: DailyTaskPatch, now: Timestamp): (r: DailyTask)
    ensures r.owner == t.owner && r.list == t.list && r.templateTask == t.templateTask && r.isAdhoc == t.isAdhoc
  {
    Redated(Recompleted(Relabelled(Reordered(Retitled(t, p), p), p), p.completed, now), p)
  }

  /** Present fields replace the old ones; the title is stripped but may end up empty. */
  lemma PatchedFields(t: DailyTask, p: DailyTaskPatch, now: Timestamp)
    ensures var r := Patched(t, p, now);
      && r.title == (if p.title.Some? then Trim(p.title.value) else t.title)
      && r.order == p.order.GetOr(t.order) && r.dueDate == p.dueDate.GetOr(t.dueDate)
  {
    var r1 := Reordered(Retitled(t, p), p);
    assert r1.title == (if p.title.Some? then Trim(p.title.value) else t.title) && r1.order == p.order.GetOr(t.order);
    var r3 := Recompleted(Relabelled(r1, p), p.completed, now);
    assert r3.title == r1.title && r3.order == r1.order && r3.dueDate == t.dueDate;
  }

  /** A `label_id` key leaves at most one label: the named one, or none for a falsy id. */
  lemma PatchedLabels(t: DailyTask, p: DailyTaskPatch, now: Timestamp)
    ensures var r := Patched(t, p, now);
      && (p.labelId.None? ==> r.labels == t.labels)
      && (p.labelId.Some? ==> |r.labels| <= 1 && (r.labels == {} <==> !NamesLabel(p)))
      && (NamesLabel(p) ==> r.labels == {p.labelId.value.value})
  {
    var r2 := Relabelled(Reordered(Retitled(t, p), p), p);
    assert Patched(t, p, now).labels == r2.labels;
  }

  /**
   * The completion state follows the request, and the completion instant
   * changes only when the state does: set to `now` on completing, cleared
   * on re-opening. Stamped tasks stay stamped.
   */
  lemma PatchedCompletion(t: DailyTask, p: DailyTaskPatch, now: Timestamp)
    ensures var r := Patched(t, p, now);
      && r.completed == p.completed.GetOr(t.completed)
      && (r.completed == t.completed ==> r.completedAt == t.completedAt)
      && (r.completed && !t.completed ==> r.completedAt == Some(now))
      && (Stamped(t) ==> Stamped(r))
  {
    var r2 := Relabelled(Reordered(Retitled(t, p), p), p);
    assert r2.completed == t.completed && r2.completedAt == t.completedAt;
  }

  // The steps of the handler, in its order.

  function Retitled(t: DailyTask, p: DailyTaskPatch): DailyTask {
    t.(title := if p.title.Some? then Trim(p.title.value) else t.title)
  }

  function Reordered(t: DailyTask, p: DailyTaskPatch): DailyTask {
    t.(order := p.order.GetOr(t.order))
  }

  function Relabelled(t: DailyTask, p: DailyTaskPatch): DailyTask {
    t.(labels := if p.labelId.None? then t.labels else if NamesLabel(p) then {p.labelId.value.value} else {})
  }

  function Recompleted(t: DailyTask, completed: Option<bool>, now: Timestamp): DailyTask {
    if completed.None? || completed.value == t.completed then t
    else if completed.value then Complete(t, now)
    else Reopen(t)
  }

  function Redated(t: DailyTask, p: DailyTaskPatch): DailyTask {
    t.(dueDate := p.dueDate.GetOr(t.dueDate))
  }

  /** A request that sets `completed` to the current value leaves the completion fields alone. */
  lemma SameCompletionKept(t: DailyTask, p: DailyTaskPatch, now: Timestamp)
    requires p.completed == Some(t.completed)
    ensures Patched(t, p, now).completed == t.completed && Patched(t, p, now).completedAt == t.completedAt
  {
  }

  // ---------------------------------------------------------------------
  // Aggregates
  // ---------------------------------------------------------------------

  /** `Max('order')` over the user's incomplete adhoc tasks, or 0 when there are none. */
  method MaxOpenAdhocOrder(dailyTasks: map<Id, DailyTask>, user: UserId) returns (m: nat)
    ensures IsMaxOpenOrder(dailyTasks, user, m)
  {
    m := 0;
    var rest := dailyTasks.Keys;
    while rest != {}
      invariant rest <= dailyTasks.Keys
      invariant forall k :: k in dailyTasks && k !in rest && OpenAdhoc(dailyTasks[k], user) ==> dailyTasks[k].order <= m
      invariant m == 0 || exists k :: k in dailyTasks && OpenAdhoc(dailyTasks[k], user) && dailyTasks[k].order == m
      decreases |rest|
    {
      var k :| k in rest;
      if OpenAdhoc(dailyTasks[k], user) && dailyTasks[k].order > m {
        m := dailyTasks[k].order;
      }
      rest := rest - {k};
    }
  }

  /**
   * The first check `DailyTaskList.save()` fails for a list of `owner` on
   * `date` from `template` (row `pk`, or a new row), or None when it passes.
   */
  function ListRefusal(db: Db, pk: Option<Id>, owner: UserId, date: Date, template: Option<Id>)
    : (r: Option<ListError>)
    ensures r == Some(NoTemplate) <==> template.None? || template.value == 0
    ensures r == Some(UnknownTemplate) <==> template.Some? && template.value != 0 && template.value !in db.templates
    ensures r == Some(ForeignTemplate) <==>
      template.Some? && template.value in db.templates && template.value != 0
      && db.templates[template.value].owner != owner
    ensures r == Some(DayTaken) <==>
      template.Some? && template.value in db.templates && template.value != 0
      && db.templates[template.value].owner == owner
      && HasListOn(db.lists, owner, date, pk)
    ensures r.None? <==>
      template.Some? && template.value != 0 && template.value in db.templates
      && db.templates[template.value].owner == owner && !HasListOn(db.lists, owner, date, pk)
  {
    if template.None? || template.value == 0 then Some(NoTemplate)
    else if template.value !in db.templates then Some(UnknownTemplate)
    else if db.templates[template.value].owner != owner then Some(ForeignTemplate)
    else if HasListOn(db.lists, owner, date, pk) then Some(DayTaken)
    else None
  }

  /** `qs.order_by(...)` of the adhoc listing: the selected rows, each once, sorted. */
  method ListAdhocRows(dailyTasks: map<Id, DailyTask>, user: UserId, date: Option<Date>, completed: bool)
    returns (r: seq<Id>)
    ensures Elements(r) == AdhocSelection(dailyTasks, user, date, completed) && Distinct(r)
    ensures forall i :: 0 <= i < |r| ==> r[i] in dailyTasks
    ensures !completed ==> forall i, j :: 0 <= i < j < |r| ==> dailyTasks[r[i]].order <= dailyTasks[r[j]].order
    ensures completed ==> forall i, j :: 0 <= i < j < |r| ==>
      dailyTasks[r[i]].completedAt.Some? && dailyTasks[r[j]].completedAt.Some? ==>
      dailyTasks[r[j]].completedAt.value <= dailyTasks[r[i]].completedAt.value
  {
    r := SortByKey(AdhocSelection(dailyTasks, user, date, completed), AdhocKey(dailyTasks, completed));
    forall i | 0 <= i < |r| ensures r[i] in dailyTasks {
      assert r[i] in Elements(r);
    }
  }

  // ---------------------------------------------------------------------
  // The store
  // ---------------------------------------------------------------------

  class TaskStore {
    var db: Db
    /** The next free primary key (one sequence for all tables). */
    var nextId: nat

    ghost predicate Valid()
      reads this
    {
      Consistent(db) && KeysBelow(db, nextId) && 0 < nextId
    }

    constructor ()
      ensures Valid() && db == EmptyDb
    {
      db := EmptyDb;
      nextId := 1;
    }

    // -------------------------------------------------------------------
    // Tasks
    // -------------------------------------------------------------------

    /** `TaskCreateView.post`: a task titled with the stripped title, if that is not empty. */
    method CreateTask(user: UserId, title: Option<string>) returns (reply: Reply<Id>)
      requires Valid()
      modifies this
      ensures Valid()
      ensures Blank(title.GetOr("")) ==> reply == Refused(TitleRequired) && db == old(db) && nextId == old(nextId)
      ensures !Blank(title.GetOr("")) ==>
        && reply == Done(201, old(nextId)) && nextId == old(nextId) + 1
        && db == old(db).(tasks := old(db).tasks[old(nextId) := Task(user, Trim(title.GetOr("")))])
    {
      var t := Trim(title.GetOr(""));
      TrimEmptyIffBlank(title.GetOr(""));
      if t == "" {
        return Refused(TitleRequired);
      }
      PutTask(db, nextId, nextId, Task(user, t));
      db := db.(tasks := db.tasks[nextId := Task(user, t)]);
      reply := Done(201, nextId);
      nextId := nextId + 1;
    }

    /** `TaskDetailView.put`: retitles a task of the user; a blank title changes nothing. */
    method UpdateTask(user: UserId, pk: Id, title: Option<string>) returns (reply: Reply<Id>)
      requires Valid()
      modifies this
      ensures Valid() && nextId == old(nextId)
      ensures !OwnsTask(old(db).tasks, user, pk) ==> reply == Refused(NotFound) && db == old(db)
      ensures OwnsTask(old(db).tasks, user, pk) && Blank(title.GetOr("")) ==>
        reply == Refused(TitleRequired) && db == old(db)
      ensures OwnsTask(old(db).tasks, user, pk) && !Blank(title.GetOr("")) ==>
        && reply == Done(200, pk)
        && db == old(db).(tasks := old(db).tasks[pk := Task(user, Trim(title.GetOr("")))])
    {
      if !OwnsTask(db.tasks, user, pk) {
        return Refused(NotFound);
      }
      var t := Trim(title.GetOr(""));
      TrimEmptyIffBlank(title.GetOr(""));
      if t == "" {
        return Refused(TitleRequired);
      }
      PutTask(db, nextId, pk, Task(user, t));
      db := db.(tasks := db.tasks[pk := Task(user, t)]);
      reply := Done(200, pk);
    }

    // -------------------------------------------------------------------
    // Labels
    // -------------------------------------------------------------------

    /** `LabelCreateView.post`: stores the label `NewLabel` admits under a fresh key. */
    method CreateLabel(user: UserId, name: Option<string>, color: Option<string>) returns (reply: Reply<Id>)
      requires Valid()
      modifies this
      ensures Valid()
      ensures match NewLabel(old(db).labels, user, name, color)
        case Failure(e) => reply == Refused(e) && db == old(db) && nextId == old(nextId)
        case Success(l) =>
          && reply == Done(201, old(nextId)) && nextId == old(nextId) + 1
          && db == old(db).(labels := old(db).labels[old(nextId) := l])
    {
      var r := NewLabel(db.labels, user, name, color);
      if r.Failure? {
        return Refused(r.error);
      }
      PutLabel(db, nextId, nextId, r.value);
      db := db.(labels := db.labels[nextId := r.value]);
      reply := Done(201, nextId);
      nextId := nextId + 1;
    }

    /** `LabelDetailView.put`: overwrites a label of the user with what `EditLabel` admits. */
    method UpdateLabel(user: UserId, pk: Id, name: Option<string>, color: Option<string>) returns (reply: Reply<Id>)
      requires Valid()
      modifies this
      ensures Valid() && nextId == old(nextId)
      ensures !(pk in old(db).labels && old(db).labels[pk].owner == user) ==> reply == Refused(NotFound) && db == old(db)
      ensures pk in old(db).labels && old(db).labels[pk].owner == user ==>
        match EditLabel(old(db).labels, pk, name, color)
        case Failure(e) => reply == Refused(e) && db == old(db)
        case Success(l) => reply == Done(200, pk) && db == old(db).(labels := old(db).labels[pk := l])
    {
      if !(pk in db.labels && db.labels[pk].owner == user) {
        return Refused(NotFound);
      }
      var r := EditLabel(db.labels, pk, name, color);
      if r.Failure? {
        return Refused(r.error);
      }
      PutLabel(db, nextId, pk, r.value);
      db := db.(labels := db.labels[pk := r.value]);
      reply := Done(200, pk);
    }

    // -------------------------------------------------------------------
    // Templates
    // -------------------------------------------------------------------

    /**
     * `Template.save()`: `full_clean()` first, then the row write. `pk` is
     * None for a new template, which is stored under the next key.
     */
    method SaveTemplate(pk: Option<Id>, t: Template) returns (err: Option<TemplateError>, id: Id)
      requires Valid()
      requires pk.Some? ==> pk.value in db.templates && db.templates[pk.value].owner == t.owner
      modifies this
      ensures Valid()
      ensures err == CleanTemplate(old(db).templates, pk, t)
      ensures err.Some? ==> db == old(db) && nextId == old(nextId)
      ensures err.None? ==>
        && id == pk.GetOr(old(nextId))
        && db == old(db).(templates := old(db).templates[id := t])
        && nextId == (if pk.None? then old(nextId) + 1 else old(nextId))
    {
      id := pk.GetOr(nextId);
      err := CleanTemplate(db.templates, pk, t);
      if err.Some? {
        return;
      }
      if pk.None? {
        ConflictFresh(db.templates, t.owner, id, t.weekdays);
      }
      PutTemplate(db, nextId, id, t);
      db := db.(templates := db.templates[id := t]);
      if pk.None? {
        nextId := nextId + 1;
      }
    }

    /**
     * The `for task_data in tasks` loop of the template views: one
     * `TemplateTask` per entry, stopping at the first fault, as `RunLinks`
     * describes; rows created before a fault stay.
     */
    method AddLinks(user: UserId, template: Id, entries: seq<TaskEntry>) returns (fault: Option<LinkFault>)
      requires Valid() && template in db.templates && db.templates[template].owner == user
      modifies this
      ensures Valid()
      ensures var r := RunLinks(old(db).tasks, old(db).links, user, template, entries, old(nextId));
        db == old(db).(links := r.links) && nextId == r.next && fault == r.fault
    {
      var i := 0;
      while i < |entries|
        invariant 0 <= i <= |entries|
        invariant Valid() && template in db.templates && db.templates[template].owner == user
        invariant db == old(db).(links := db.links)
        invariant RunLinks(old(db).tasks, old(db).links, user, template, entries, old(nextId))
          == RunLinks(db.tasks, db.links, user, template, entries[i..], nextId)
      {
        var e := entries[i];
        assert entries[i..][0] == e && entries[i..][1..] == entries[i + 1..];
        if Malformed(e) {
          return Some(MalformedEntry);
        }
        if !OwnsTask(db.tasks, user, e.taskId.value) {
          return Some(UnknownTask);
        }
        if HasLink(db.links, template, e.taskId.value) {
          return Some(DuplicateLink);
        }
        var l := TemplateTask(template, e.taskId.value, e.order.value);
        PutLink(db, nextId, l);
        db := db.(links := db.links[nextId := l]);
        nextId := nextId + 1;
        i := i + 1;
      }
      assert entries[i..] == [];
      fault := None;
    }

    /**
     * The loop of `TemplateCreateView.post` over template `id`, which was
     * just stored and has no rows yet. On a malformed entry the template is
     * deleted again, and its rows with it.
     */
    method FillNewTemplate(user: UserId, id: Id, entries: seq<TaskEntry>) returns (fault: Option<LinkFault>)
      requires Valid() && id in db.templates && db.templates[id].owner == user
      requires forall k :: k in db.links ==> db.links[k].template != id
      requires forall k :: k in db.lists ==> db.lists[k].template != id
      modifies this
      ensures Valid()
      ensures var run := RunLinks(old(db).tasks, old(db).links, user, id, entries, old(nextId));
        && nextId == run.next && fault == run.fault
        && (fault == Some(MalformedEntry) ==> db == old(db).(templates := old(db).templates - {id}))
        && (fault != Some(MalformedEntry) ==> db == old(db).(links := run.links))
        && (fault.None? ==> Pairs(db.links, id) == EntryPairs(entries))
    {
      RunLinksSafe(db.tasks, db.links, user, id, entries, nextId);
      RemoveTemplate(db, nextId, id);
      ghost var db0 := db;
      fault := AddLinks(user, id, entries);
      if fault == Some(MalformedEntry) {
        DropNewTemplate(id, db0);
      } else if fault.None? {
        RunLinksExact(old(db).tasks, old(db).links, user, id, entries, old(nextId));
        assert Pairs(old(db).links, id) == {};
      }
    }

    /**
     * `template.delete()` after a malformed entry: the template `id` goes,
     * and with it the rows just made for it, which were all it had.
     */
    method DropNewTemplate(id: Id, ghost db0: Db)
      requires Valid() && db == db0.(links := db.links)
      requires Consistent(db0.(templates := db0.templates - {id}))
      requires KeysBelow(db0.(templates := db0.templates - {id}), nextId)
      requires forall k :: k in db0.links ==> db0.links[k].template != id
      requires forall k :: k in db0.links ==> k in db.links && db.links[k] == db0.links[k]
      requires forall k :: k in db.links && k !in db0.links ==> db.links[k].template == id
      modifies this
      ensures Valid() && nextId == old(nextId)
      ensures db == db0.(templates := db0.templates - {id})
    {
      DropFreshLinks(db0.links, db.links, id);
      db := db.(templates := db.templates - {id}, links := DropLinks(db.links, id));
    }

    /**
     * `TemplateCreateView.post`. A refused title or weekday, or a refusal of
     * `full_clean`, stores nothing. A malformed task entry deletes the new
     * template again, so the tables are as before; an unknown or repeated
     * task ends in status 500 with the template and the rows made so far
     * kept. A full run leaves the template holding exactly the requested
     * (task, order) pairs.
     */
    method CreateTemplate(user: UserId, title: Option<string>, weekdays: Option<seq<string>>,
                          tasks: Option<seq<TaskEntry>>) returns (reply: Reply<Id>)
      requires Valid()
      modifies this
      ensures Valid()
      ensures match NewTemplate(user, title, weekdays)
        case Failure(e) => reply == Refused(e) && db == old(db) && nextId == old(nextId)
        case Success(t) => Created(old(db), old(nextId), db, nextId, user, t, tasks, reply)
    {
      var draft := NewTemplate(user, title, weekdays);
      if draft.Failure? {
        return Refused(draft.error);
      }
      reply := SaveNew(user, draft.value, tasks);
    }

    /**
     * The state `TemplateCreateView.post` leaves once the template `t` is
     * built: refused by `full_clean`, or stored under the next key with its
     * rows made by the creation loop, or deleted again on a malformed entry.
     */
    ghost predicate Created(db0: Db, next0: nat, db1: Db, next1: nat, user: UserId, t: Template,
                            tasks: Option<seq<TaskEntry>>, reply: Reply<Id>)
    {
      match CleanTemplate(db0.templates, None, t)
      case Some(err) => reply == Refused(Invalid(err)) && db1 == db0 && next1 == next0
      case None =>
        var saved := db0.(templates := db0.templates[next0 := t]);
        var run := RunLinks(saved.tasks, saved.links, user, next0, tasks.GetOr([]), next0 + 1);
        && next1 == run.next
        && match run.fault
           case None =>
             && reply == Done(201, next0) && db1 == saved.(links := run.links)
             && Pairs(db1.links, next0) == EntryPairs(tasks.GetOr([]))
           case Some(MalformedEntry) => reply == Refused(EntryMalformed) && db1 == db0
           case Some(f) => reply == Refused(LinkError(f)) && db1 == saved.(links := run.links)
    }

    /** `template.save()` of the new template `t`, then the creation loop over `tasks`. */
    method SaveNew(user: UserId, t: Template, tasks: Option<seq<TaskEntry>>) returns (reply: Reply<Id>)
      requires Valid() && t.owner == user
      modifies this
      ensures Valid()
      ensures Created(old(db), old(nextId), db, nextId, user, t, tasks, reply)
    {
      var err, id := SaveTemplate(None, t);
      if err.Some? {
        return Refused(Invalid(err.value));
      }
      var fault := FillNewTemplate(user, id, tasks.GetOr([]));
      if fault == Some(MalformedEntry) {
        assert db.templates == old(db).templates;
        return Refused(EntryMalformed);
      }
      reply := if fault.Some? then Refused(LinkError(fault.value)) else Done(201, id);
    }

    /**
     * The `tasks` part of `TemplateDetailView.put`: deletes the rows of
     * template `pk` (daily tasks copied from them lose the reference), then
     * runs the creation loop. Nothing is rolled back on a fault.
     */
    method RefillTemplate(user: UserId, pk: Id, entries: seq<TaskEntry>) returns (fault: Option<LinkFault>)
      requires Valid() && pk in db.templates && db.templates[pk].owner == user
      modifies this
      ensures Valid()
      ensures var cleared := old(db).(links := DropLinks(old(db).links, pk),
                                      dailyTasks := Detach(old(db).dailyTasks, LinksOf(old(db).links, pk)));
        var run := RunLinks(cleared.tasks, cleared.links, user, pk, entries, old(nextId));
        && db == cleared.(links := run.links) && nextId == run.next && fault == run.fault
        && (fault.None? ==> Pairs(db.links, pk) == EntryPairs(entries))
    {
      DropLinksConsistent(db, nextId, pk);
      db := db.(links := DropLinks(db.links, pk), dailyTasks := Detach(db.dailyTasks, LinksOf(db.links, pk)));
      ghost var cleared := db;
      fault := AddLinks(user, pk, entries);
      if fault.None? {
        RunLinksExact(cleared.tasks, cleared.links, user, pk, entries, old(nextId));
      }
    }

    /**
     * `TemplateDetailView.put`. With a `tasks` list the template's rows are
     * replaced: on a full run by exactly the requested (task, order) pairs;
     * after a fault the rows made before it stay, the old ones being gone.
     */
    method UpdateTemplate(user: UserId, pk: Id, title: Option<string>, weekdays: Option<seq<string>>,
                          tasks: Option<seq<TaskEntry>>) returns (reply: Reply<Id>)
      requires Valid()
      modifies this
      ensures Valid()
      ensures !(pk in old(db).templates && old(db).templates[pk].owner == user) ==>
        reply == Refused(NotFound) && db == old(db) && nextId == old(nextId)
      ensures pk in old(db).templates && old(db).templates[pk].owner == user ==>
        match EditTemplate(old(db).templates[pk], title, weekdays)
        case Failure(e) => reply == Refused(e) && db == old(db) && nextId == old(nextId)
        case Success(t) => Edited(old(db), old(nextId), db, nextId, user, pk, t, tasks, reply)
    {
      if !(pk in db.templates && db.templates[pk].owner == user) {
        return Refused(NotFound);
      }
      var draft := EditTemplate(db.templates[pk], title, weekdays);
      if draft.Failure? {
        return Refused(draft.error);
      }
      reply := SaveEdited(user, pk, draft.value, tasks);
    }

    /**
     * The state `TemplateDetailView.put` leaves once the edited template `t`
     * of row `pk` is built: refused by `full_clean`, or saved and, with a
     * `tasks` list, its rows replaced by those the creation loop makes.
     */
    ghost predicate Edited(db0: Db, next0: nat, db1: Db, next1: nat, user: UserId, pk: Id, t: Template,
                           tasks: Option<seq<TaskEntry>>, reply: Reply<Id>)
    {
      match CleanTemplate(db0.templates, Some(pk), t)
      case Some(err) => reply == Refused(Invalid(err)) && db1 == db0 && next1 == next0
      case None =>
        var saved := db0.(templates := db0.templates[pk := t]);
        if tasks.None? then reply == Done(200, pk) && db1 == saved && next1 == next0
        else
          var cleared := saved.(links := DropLinks(saved.links, pk),
                                dailyTasks := Detach(saved.dailyTasks, LinksOf(saved.links, pk)));
          var run := RunLinks(cleared.tasks, cleared.links, user, pk, tasks.value, next0);
          && db1 == cleared.(links := run.links) && next1 == run.next
          && reply == (if run.fault.None? then Done(200, pk) else Refused(LinkError(run.fault.value)))
          && (run.fault.None? ==> Pairs(db1.links, pk) == EntryPairs(tasks.value))
    }

    /** `template.save()` of the edited template `t`, then the `tasks` replacement when a list is given. */
    method SaveEdited(user: UserId, pk: Id, t: Template, tasks: Option<seq<TaskEntry>>) returns (reply: Reply<Id>)
      requires Valid() && pk in db.templates && db.templates[pk].owner == user && t.owner == user
      modifies this
      ensures Valid()
      ensures Edited(old(db), old(nextId), db, nextId, user, pk, t, tasks, reply)
    {
      var err, _ := SaveTemplate(Some(pk), t);
      if err.Some? {
        return Refused(Invalid(err.value));
      }
      if tasks.None? {
        return Done(200, pk);
      }
      var fault := RefillTemplate(user, pk, tasks.value);
      reply := if fault.None? then Done(200, pk) else Refused(LinkError(fault.value));
    }

    // -------------------------------------------------------------------
    // Daily task lists
    // -------------------------------------------------------------------

    /** `DailyTask.objects.create(...)`: stores `t` under the next key. */
    method AddDailyTask(t: DailyTask) returns (id: Id)
      requires Valid()
      requires Stamped(t) && forall l :: l in t.labels ==> l in db.labels && db.labels[l].owner == t.owner
      modifies this
      ensures Valid()
      ensures id == old(nextId) && nextId == old(nextId) + 1
      ensures db == old(db).(dailyTasks := old(db).dailyTasks[id := t])
    {
      id := nextId;
      PutDailyTask(db, nextId, id, t);
      db := db.(dailyTasks := db.dailyTasks[id := t]);
      nextId := nextId + 1;
    }

    /** Copies the template rows `ls`, in that order, into list `listId` under consecutive fresh keys. */
    method CopyRows(listId: Id, list: DailyTaskList, ls: seq<Id>)
      requires Valid()
      requires forall j :: 0 <= j < |ls| ==> ls[j] in db.links && db.links[ls[j]].task in db.tasks
      modifies this
      ensures Valid()
      ensures nextId == old(nextId) + |ls|
      ensures db == old(db).(dailyTasks := db.dailyTasks)
      ensures Grown(old(db).dailyTasks, db.dailyTasks, old(nextId), nextId)
      ensures CopiesAt(old(db), listId, list, ls, db.dailyTasks, old(nextId))
    {
      var before := db;
      var i := 0;
      while i < |ls|
        invariant 0 <= i <= |ls|
        invariant Valid()
        invariant db == before.(dailyTasks := db.dailyTasks)
        invariant nextId == old(nextId) + i
        invariant Grown(before.dailyTasks, db.dailyTasks, old(nextId), nextId)
        invariant forall j :: 0 <= j < i ==>
          old(nextId) + j in db.dailyTasks && db.dailyTasks[old(nextId) + j] == CopyOf(before, listId, list, ls[j])
      {
        var _ := AddDailyTask(CopyOf(before, listId, list, ls[i]));
        i := i + 1;
      }
    }

    /**
     * `_create_daily_tasks` of list `listId`: one daily task per row of its
     * template, in ascending template order, under consecutive fresh keys.
     */
    method CopyTemplateTasks(listId: Id, list: DailyTaskList, ghost before: Db, ghost first: nat) returns (ls: seq<Id>)
      requires Valid() && listId in db.lists && db.lists[listId] == list
      requires db == before && nextId == first
      modifies this
      ensures Valid()
      ensures CopiedInOrder(before, listId, list, ls, db.dailyTasks, first)
      ensures nextId == old(nextId) + |ls|
      ensures db == old(db).(dailyTasks := db.dailyTasks)
      ensures Grown(old(db).dailyTasks, db.dailyTasks, old(nextId), nextId)
    {
      ls := TemplateRows(list.template);
      CopyRows(listId, list, ls);
    }

    /** `template.template_tasks.all().order_by('order')`: the rows of `template`, once each, by ascending order. */
    method TemplateRows(template: Id) returns (ls: seq<Id>)
      requires Valid()
      ensures RowsInOrder(db, template, ls)
    {
      ls := SortByKey(LinksOf(db.links, template), LinkOrder(db.links));
      forall j | 0 <= j < |ls| ensures ls[j] in db.links && db.links[ls[j]].task in db.tasks {
        assert ls[j] in Elements(ls);
      }
    }

    /**
     * `DailyTaskList.save()`: the template must be given, must exist and must
     * belong to the list's user, and the (user, date) pair must be free.
     * Only a new list (`pk` None) gets its daily tasks generated; `copied`
     * lists the template rows they were copied from, in order.
     */
    method SaveList(pk: Option<Id>, owner: UserId, date: Date, template: Option<Id>)
      returns (err: Option<ListError>, id: Id, copied: seq<Id>)
      requires Valid()
      requires pk.Some? ==> pk.value in db.lists && db.lists[pk.value].owner == owner
      modifies this
      ensures Valid()
      ensures err == ListRefusal(old(db), pk, owner, date, template)
      ensures err.Some? ==> db == old(db) && nextId == old(nextId)
      ensures err.None? && pk.Some? ==>
        && id == pk.value && copied == [] && nextId == old(nextId)
        && db == old(db).(lists := old(db).lists[id := DailyTaskList(owner, date, template.value)])
      ensures err.None? && pk.None? ==>
        Inserted(old(db), old(nextId), db, nextId, DailyTaskList(owner, date, template.value), id, copied)
    {
      err := ListRefusal(db, pk, owner, date, template);
      id := pk.GetOr(nextId);
      copied := [];
      if err.Some? {
        return;
      }
      var list := DailyTaskList(owner, date, template.value);
      if pk.Some? {
        PutList(db, nextId, id, list);
        db := db.(lists := db.lists[id := list]);
      } else {
        id, copied := InsertList(list);
      }
    }

    /**
     * A new list `list` went in under key `next0`, and its template's rows
     * were copied, as `copied` lists them, under the keys after it.
     */
    ghost predicate Inserted(db0: Db, next0: nat, db1: Db, next1: nat, list: DailyTaskList, id: Id, copied: seq<Id>) {
      var saved := db0.(lists := db0.lists[id := list]);
      && id == next0 && next1 == next0 + 1 + |copied|
      && CopiedInOrder(saved, id, list, copied, db1.dailyTasks, id + 1)
      && db1 == saved.(dailyTasks := db1.dailyTasks)
      && Grown(db0.dailyTasks, db1.dailyTasks, id + 1, next1)
    }

    /** The insert branch of `DailyTaskList.save()`: the row under the next key, then `_create_daily_tasks`. */
    method InsertList(list: DailyTaskList) returns (id: Id, copied: seq<Id>)
      requires Valid() && list.template in db.templates && db.templates[list.template].owner == list.owner
      requires !HasListOn(db.lists, list.owner, list.date, None)
      modifies this
      ensures Valid()
      ensures Inserted(old(db), old(nextId), db, nextId, list, id, copied)
    {
      id := AddList(list);
      copied := CopyTemplateTasks(id, list, old(db).(lists := old(db).lists[id := list]), id + 1);
    }

    /** `super().save()` for a new list: the row goes in under the next key. */
    method AddList(list: DailyTaskList) returns (id: Id)
      requires Valid() && list.template in db.templates && db.templates[list.template].owner == list.owner
      requires !HasListOn(db.lists, list.owner, list.date, None)
      modifies this
      ensures Valid()
      ensures id == old(nextId) && nextId == id + 1
      ensures db == old(db).(lists := old(db).lists[id := list])
    {
      id := nextId;
      PutList(db, nextId, id, list);
      db := db.(lists := db.lists[id := list]);
      nextId := nextId + 1;
    }

    /**
     * `DailyTaskListCreateView.post`: date and template id are required, the
     * date must have no list of the user yet, and the template must be one
     * of the user's (404 otherwise); then the list is saved and filled.
     */
    method CreateDailyList(user: UserId, date: Option<Date>, templateId: Option<Id>) returns (reply: Reply<Id>)
      requires Valid()
      modifies this
      ensures Valid()
      ensures date.None? ==> reply == Refused(DateRequired)
      ensures date.Some? && (templateId.None? || templateId.value == 0) ==> reply == Refused(TemplateIdRequired)
      ensures date.Some? && templateId.Some? && templateId.value != 0 ==>
        var tid := templateId.value;
        var taken := HasListOn(old(db).lists, user, date.value, None);
        var owned := tid in old(db).templates && old(db).templates[tid].owner == user;
        && (taken ==> reply == Refused(ListExists(date.value)))
        && (!taken && !owned ==> reply == Refused(TemplateNotFound(tid)))
        && (!taken && owned ==>
              var list := DailyTaskList(user, date.value, tid);
              var saved := old(db).(lists := old(db).lists[old(nextId) := list]);
              && reply == Done(201, old(nextId))
              && (exists ls :: CopiedInOrder(saved, old(nextId), list, ls, db.dailyTasks, old(nextId) + 1)
                                && nextId == old(nextId) + 1 + |ls|)
              && db == saved.(dailyTasks := db.dailyTasks)
              && Grown(old(db).dailyTasks, db.dailyTasks, old(nextId) + 1, nextId))
      ensures reply.Refused? ==> db == old(db) && nextId == old(nextId)
    {
      if date.None? {
        return Refused(DateRequired);
      }
      if templateId.None? || templateId.value == 0 {
        return Refused(TemplateIdRequired);
      }
      if HasListOn(db.lists, user, date.value, None) {
        return Refused(ListExists(date.value));
      }
      if !(templateId.value in db.templates && db.templates[templateId.value].owner == user) {
        return Refused(TemplateNotFound(templateId.value));
      }
      var err, id, copied := SaveList(None, user, date.value, templateId);
      assert err.None?;
      reply := Done(201, id);
    }

    // -------------------------------------------------------------------
    // Daily tasks
    // -------------------------------------------------------------------

    /** `task.save()` of the in-memory daily task `t` loaded from row `pk` (labels live in their own table). */
    method SaveDailyTask(pk: Id, t: DailyTask)
      requires Valid() && pk in db.dailyTasks && Stamped(t)
      requires t.owner == db.dailyTasks[pk].owner && t.labels == db.dailyTasks[pk].labels
      modifies this
      ensures Valid() && nextId == old(nextId)
      ensures db == old(db).(dailyTasks := old(db).dailyTasks[pk := t])
    {
      assert forall l :: l in t.labels ==> l in db.labels && db.labels[l].owner == t.owner by {
        assert forall l :: l in t.labels ==> l in db.dailyTasks[pk].labels;
      }
      PutDailyTask(db, nextId, pk, t);
      db := db.(dailyTasks := db.dailyTasks[pk := t]);
    }

    /** `task.labels.clear()` / `task.labels.add(label)`: written at once, apart from the row. */
    method SetLabels(pk: Id, labels: set<Id>)
      requires Valid() && pk in db.dailyTasks
      requires forall l :: l in labels ==> l in db.labels && db.labels[l].owner == db.dailyTasks[pk].owner
      modifies this
      ensures Valid() && nextId == old(nextId)
      ensures db == old(db).(dailyTasks := old(db).dailyTasks[pk := old(db).dailyTasks[pk].(labels := labels)])
    {
      PutDailyTask(db, nextId, pk, db.dailyTasks[pk].(labels := labels));
      db := db.(dailyTasks := db.dailyTasks[pk := db.dailyTasks[pk].(labels := labels)]);
    }

    /**
     * The `label_id` step of `DailyTaskDetailView.put`: the labels are
     * cleared at once, then a truthy id must name a label of the user
     * (`get_object_or_404`), which becomes the only label.
     */
    method ReplaceLabels(user: UserId, pk: Id, p: DailyTaskPatch) returns (ok: bool)
      requires Valid() && pk in db.dailyTasks && db.dailyTasks[pk].owner == user
      modifies this
      ensures Valid() && nextId == old(nextId)
      ensures ok <==> !NamesLabel(p) || (p.labelId.value.value in old(db).labels
                                         && old(db).labels[p.labelId.value.value].owner == user)
      ensures var t := old(db).dailyTasks[pk];
        db == old(db).(dailyTasks := old(db).dailyTasks[pk := if ok then Relabelled(t, p) else t.(labels := {})])
    {
      if p.labelId.None? {
        return true;
      }
      SetLabels(pk, {});
      if NamesLabel(p) {
        var l := p.labelId.value.value;
        if !(l in db.labels && db.labels[l].owner == user) {
          return false;
        }
        SetLabels(pk, {l});
      }
      ok := true;
    }

    /** `t.mark_complete()` on the in-memory task `t` of row `pk`: both completion fields, then the save. */
    method MarkComplete(pk: Id, t: DailyTask, now: Timestamp) returns (r: DailyTask)
      requires Valid() && pk in db.dailyTasks
      requires t.owner == db.dailyTasks[pk].owner && t.labels == db.dailyTasks[pk].labels
      modifies this
      ensures Valid() && nextId == old(nextId)
      ensures r == Complete(t, now) && r.completed && r.completedAt == Some(now)
      ensures db == old(db).(dailyTasks := old(db).dailyTasks[pk := r])
    {
      r := Complete(t, now);
      SaveDailyTask(pk, r);
    }

    /** `t.mark_incomplete()` on the in-memory task `t` of row `pk`: both completion fields cleared, then the save. */
    method MarkIncomplete(pk: Id, t: DailyTask) returns (r: DailyTask)
      requires Valid() && pk in db.dailyTasks
      requires t.owner == db.dailyTasks[pk].owner && t.labels == db.dailyTasks[pk].labels
      modifies this
      ensures Valid() && nextId == old(nextId)
      ensures r == Reopen(t) && !r.completed && r.completedAt.None?
      ensures db == old(db).(dailyTasks := old(db).dailyTasks[pk := r])
    {
      r := Reopen(t);
      SaveDailyTask(pk, r);
    }

    /**
     * The `completed` step of `DailyTaskDetailView.put`: `mark_complete()`
     * or `mark_incomplete()` runs only when the requested state differs
     * from the daily task's.
     */
    method ApplyCompletion(pk: Id, t: DailyTask, completed: Option<bool>, now: Timestamp) returns (r: DailyTask)
      requires Valid() && pk in db.dailyTasks
      requires t.owner == db.dailyTasks[pk].owner && t.labels == db.dailyTasks[pk].labels
      modifies this
      ensures Valid() && nextId == old(nextId)
      ensures r == Recompleted(t, completed, now)
      ensures pk in db.dailyTasks && db == old(db).(dailyTasks := old(db).dailyTasks[pk := db.dailyTasks[pk]])
      ensures db.dailyTasks[pk].owner == r.owner && db.dailyTasks[pk].labels == r.labels
      ensures db.dailyTasks[pk] == if completed.Some? && completed.value != t.completed then r else old(db).dailyTasks[pk]
    {
      r := t;
      if completed.Some? && completed.value != t.completed {
        if completed.value {
          r := MarkComplete(pk, t, now);
        } else {
          r := MarkIncomplete(pk, t);
        }
      }
    }

    /** `DailyTaskCompleteView.post`: an adhoc task drops to order 0, any task is marked complete at `now`. */
    method CompleteDailyTask(user: UserId, pk: Id, now: Timestamp) returns (reply: Reply<Id>)
      requires Valid()
      modifies this
      ensures Valid() && nextId == old(nextId)
      ensures !(pk in old(db).dailyTasks && old(db).dailyTasks[pk].owner == user) ==>
        reply == Refused(NotFound) && db == old(db)
      ensures pk in old(db).dailyTasks && old(db).dailyTasks[pk].owner == user ==>
        var t := old(db).dailyTasks[pk];
        && reply == Done(200, pk) && pk in db.dailyTasks
        && db == old(db).(dailyTasks := old(db).dailyTasks[pk := db.dailyTasks[pk]])
        && db.dailyTasks[pk] == Complete(t.(order := if t.isAdhoc then 0 else t.order), now)
    {
      if !(pk in db.dailyTasks && db.dailyTasks[pk].owner == user) {
        return Refused(NotFound);
      }
      var t := db.dailyTasks[pk];
      if t.isAdhoc {
        t := t.(order := 0);
      }
      t := MarkComplete(pk, t, now);
      reply := Done(200, pk);
    }

    /**
     * `DailyTaskIncompleteView.post`: the daily task is marked incomplete; an
     * adhoc task then moves 10 past the largest order among the user's
     * incomplete adhoc tasks, itself included, so it ends up last.
     */
    method ReopenDailyTask(user: UserId, pk: Id) returns (reply: Reply<Id>)
      requires Valid()
      modifies this
      ensures Valid() && nextId == old(nextId)
      ensures !(pk in old(db).dailyTasks && old(db).dailyTasks[pk].owner == user) ==>
        reply == Refused(NotFound) && db == old(db)
      ensures pk in old(db).dailyTasks && old(db).dailyTasks[pk].owner == user ==>
        var reopened := old(db).dailyTasks[pk := Reopen(old(db).dailyTasks[pk])];
        && reply == Done(200, pk) && pk in db.dailyTasks
        && db == old(db).(dailyTasks := reopened[pk := db.dailyTasks[pk]])
        && (!reopened[pk].isAdhoc ==> db.dailyTasks[pk] == reopened[pk])
        && (reopened[pk].isAdhoc ==>
              && db.dailyTasks[pk] == reopened[pk].(order := db.dailyTasks[pk].order)
              && db.dailyTasks[pk].order >= 10
              && IsMaxOpenOrder(reopened, user, db.dailyTasks[pk].order - 10))
    {
      if !(pk in db.dailyTasks && db.dailyTasks[pk].owner == user) {
        return Refused(NotFound);
      }
      var t := MarkIncomplete(pk, db.dailyTasks[pk]);
      if t.isAdhoc {
        var m := MaxOpenAdhocOrder(db.dailyTasks, user);
        t := t.(order := m + 10);
      }
      SaveDailyTask(pk, t);
      reply := Done(200, pk);
    }

    /**
     * `DailyTaskDetailView.put`, as `Patched` describes on success. A
     * `label_id` naming no label of the user ends in status 500 with the
     * old labels already cleared and no other field saved.
     */
    method UpdateDailyTask(user: UserId, pk: Id, p: DailyTaskPatch, now: Timestamp) returns (reply: Reply<Id>)
      requires Valid()
      modifies this
      ensures Valid() && nextId == old(nextId)
      ensures !(pk in old(db).dailyTasks && old(db).dailyTasks[pk].owner == user) ==>
        reply == Refused(NotFound) && db == old(db)
      ensures pk in old(db).dailyTasks && old(db).dailyTasks[pk].owner == user ==>
        var t := old(db).dailyTasks[pk];
        if NamesLabel(p) && !(p.labelId.value.value in old(db).labels && old(db).labels[p.labelId.value.value].owner == user)
        then (reply == Refused(Internal(MissingLabel))
              && db == old(db).(dailyTasks := old(db).dailyTasks[pk := t.(labels := {})]))
        else (reply == Done(200, pk)
              && db == old(db).(dailyTasks := old(db).dailyTasks[pk := Patched(t, p, now)]))
    {
      if !(pk in db.dailyTasks && db.dailyTasks[pk].owner == user) {
        return Refused(NotFound);
      }
      var t0 := db.dailyTasks[pk];
      var ok := ReplaceLabels(user, pk, p);
      if !ok {
        return Refused(Internal(MissingLabel));
      }
      FinishPatch(pk, t0, p, now, old(db));
      reply := Done(200, pk);
    }

    /**
     * The steps of `DailyTaskDetailView.put` after the labels of row `pk`
     * are replaced: the in-memory task `t0`, with the request's title and
     * order, goes through the completion step and gets its due date, then
     * is saved. `db0` is the store before the labels were replaced.
     */
    method FinishPatch(pk: Id, t0: DailyTask, p: DailyTaskPatch, now: Timestamp, ghost db0: Db)
      requires Valid() && pk in db0.dailyTasks && Stamped(t0)
      requires db == db0.(dailyTasks := db0.dailyTasks[pk := Relabelled(t0, p)])
      modifies this
      ensures Valid() && nextId == old(nextId)
      ensures db == db0.(dailyTasks := db0.dailyTasks[pk := Patched(t0, p, now)])
    {
      var t := ApplyCompletion(pk, Relabelled(Reordered(Retitled(t0, p), p), p), p.completed, now);
      t := Redated(t, p);
      PatchedCompletion(t0, p, now);
      SaveDailyTask(pk, t);
    }

    // -------------------------------------------------------------------
    // Adhoc tasks
    // -------------------------------------------------------------------

    /**
     * `AdhocTaskCreateView.post`: a stripped, non-empty title and a due date
     * are required, and a truthy `label_id` must name a label of the user.
     * The new task goes 10 past the largest order among the user's
     * incomplete adhoc tasks (10 when there are none), so it ends up last.
     */
    method CreateAdhoc(user: UserId, title: Option<string>, dueDate: Option<Date>, labelId: Option<Id>)
      returns (reply: Reply<Id>)
      requires Valid()
      modifies this
      ensures Valid()
      ensures reply.Refused? ==> db == old(db) && nextId == old(nextId)
      ensures Blank(title.GetOr("")) ==> reply == Refused(TitleRequired)
      ensures !Blank(title.GetOr("")) && dueDate.None? ==> reply == Refused(DueDateRequired)
      ensures !Blank(title.GetOr("")) && dueDate.Some? ==>
        var named := labelId.Some? && labelId.value != 0;
        if named && !(labelId.value in old(db).labels && old(db).labels[labelId.value].owner == user)
        then reply == Refused(InvalidLabel)
        else
          var id := old(nextId);
          && reply == Done(201, id) && nextId == id + 1 && id in db.dailyTasks
          && db == old(db).(dailyTasks := old(db).dailyTasks[id := db.dailyTasks[id]])
          && var t := db.dailyTasks[id];
          && t == DailyTask(user, None, None, Trim(title.GetOr("")), dueDate.value, false, None, t.order, true,
                            if named then {labelId.value} else {})
          && t.order >= 10 && IsMaxOpenOrder(old(db).dailyTasks, user, t.order - 10)
    {
      var tt := Trim(title.GetOr(""));
      TrimEmptyIffBlank(title.GetOr(""));
      if tt == "" {
        return Refused(TitleRequired);
      }
      if dueDate.None? {
        return Refused(DueDateRequired);
      }
      var named := labelId.Some? && labelId.value != 0;
      if named && !(labelId.value in db.labels && db.labels[labelId.value].owner == user) {
        return Refused(InvalidLabel);
      }
      var m := MaxOpenAdhocOrder(db.dailyTasks, user);
      var id := AddDailyTask(DailyTask(user, None, None, tt, dueDate.value, false, None, m + 10, true,
                                       if named then {labelId.value} else {}));
      reply := Done(201, id);
    }

    /**
     * `AdhocTaskListView.get_queryset`: the `completed` parameter is true
     * exactly when it lower-cases to "true" (absent means "false"); the date
     * filter applies to completed tasks only.
     */
    method ListAdhoc(user: UserId, date: Option<Date>, completed: Option<string>) returns (r: seq<Id>)
      ensures var done := Lower(completed.GetOr("false")) == "true";
        && Elements(r) == AdhocSelection(db.dailyTasks, user, date, done) && Distinct(r)
        && (forall i :: 0 <= i < |r| ==> r[i] in db.dailyTasks)
        && (!done ==> forall i, j :: 0 <= i < j < |r| ==> db.dailyTasks[r[i]].order <= db.dailyTasks[r[j]].order)
        && (done ==> forall i, j :: 0 <= i < j < |r| ==>
              db.dailyTasks[r[i]].completedAt.Some? && db.dailyTasks[r[j]].completedAt.Some? ==>
              db.dailyTasks[r[j]].completedAt.value <= db.dailyTasks[r[i]].completedAt.value)
    {
      r := ListAdhocRows(db.dailyTasks, user, date, Lower(completed.GetOr("false")) == "true");
    }
  }
}
