/**
 * The scheduling records of `backend/tasks/models.py` and the rules that sit
 * behind them: weekday exclusivity of templates (`Template.clean`), the
 * uniqueness constraints of `Meta`, the completion stamp of a daily task, and
 * the copying of a template's tasks into a new daily list.
 *
 * The database is a value `Db` holding one map per table, keyed by primary key.
 */
module Scheduling {
  import opened Wrappers
  import opened Ordering

  type UserId = nat
  /** A calendar date, as a day number. */
  type Date = int
  /** An instant, in seconds, in the server's time zone. */
  type Timestamp = int

  const SecondsPerDay: int := 86400

  /** The calendar date of an instant (`completed_at__date`). */
  function DayOf(t: Timestamp): Date {
    t / SecondsPerDay
  }

  // ---------------------------------------------------------------------
  // Weekdays
  // ---------------------------------------------------------------------

  datatype Weekday = Monday | Tuesday | Wednesday | Thursday | Friday | Saturday | Sunday

  /** The stored value of a weekday choice. */
  function Name(d: Weekday): string {
    match d
    case Monday => "Monday"
    case Tuesday => "Tuesday"
    case Wednesday => "Wednesday"
    case Thursday => "Thursday"
    case Friday => "Friday"
    case Saturday => "Saturday"
    case Sunday => "Sunday"
  }

  /** `day in Weekday.values`, returning the weekday it names. */
  function ParseWeekday(s: string): (r: Option<Weekday>)
    ensures r.Some? ==> Name(r.value) == s
    ensures r.None? ==> forall d: Weekday :: Name(d) != s
  {
    if s == "Monday" then Some(Monday)
    else if s == "Tuesday" then Some(Tuesday)
    else if s == "Wednesday" then Some(Wednesday)
    else if s == "Thursday" then Some(Thursday)
    else if s == "Friday" then Some(Friday)
    else if s == "Saturday" then Some(Saturday)
    else if s == "Sunday" then Some(Sunday)
    else None
  }

  /** Every weekday is accepted back from its own name. */
  lemma ParseName(d: Weekday)
    ensures ParseWeekday(Name(d)) == Some(d)
  {
  }

  /** The array-overlap lookup `weekdays__overlap`: the two lists share a weekday. */
  predicate Overlap(a: seq<Weekday>, b: seq<Weekday>) {
    exists d :: d in a && d in b
  }

  /** The weekdays of a list, as a set (duplicates in the stored list do not matter). */
  function DaySet(days: seq<Weekday>): set<Weekday> {
    set d | d in days
  }

  // ---------------------------------------------------------------------
  // Records
  // ---------------------------------------------------------------------

  datatype Task = Task(owner: UserId, title: string)

  datatype Template = Template(owner: UserId, title: string, weekdays: seq<Weekday>)

  /** One task of a template, at a position. */
  datatype TemplateTask = TemplateTask(template: Id, task: Id, order: nat)

  datatype DailyTaskList = DailyTaskList(owner: UserId, date: Date, template: Id)

  /** A task of one day: a copy from a template (`list` set) or an adhoc task. */
  datatype DailyTask = DailyTask(
    owner: UserId,
    list: Option<Id>,
    templateTask: Option<Id>,
    title: string,
    dueDate: Date,
    completed: bool,
    completedAt: Option<Timestamp>,
    order: nat,
    isAdhoc: bool,
    labels: set<Id>)

  datatype Label = Label(owner: UserId, name: string, color: string)

  /** The tables, one map per model, keyed by primary key. */
  datatype Db = Db(
    tasks: map<Id, Task>,
    templates: map<Id, Template>,
    links: map<Id, TemplateTask>,
    lists: map<Id, DailyTaskList>,
    dailyTasks: map<Id, DailyTask>,
    labels: map<Id, Label>)

  const EmptyDb := Db(map[], map[], map[], map[], map[], map[])

  // ---------------------------------------------------------------------
  // Invariants
  // ---------------------------------------------------------------------

  /** Two templates of one user never share a weekday. */
  ghost predicate WeekdaysExclusive(templates: map<Id, Template>) {
    forall a, b :: a in templates && b in templates && a != b && templates[a].owner == templates[b].owner
      ==> !Overlap(templates[a].weekdays, templates[b].weekdays)
  }

  /** `unique_together = ['user', 'date']` of a daily task list. */
  ghost predicate OneListPerDay(lists: map<Id, DailyTaskList>) {
    forall a, b :: a in lists && b in lists && a != b
      ==> lists[a].owner != lists[b].owner || lists[a].date != lists[b].date
  }

  /** Another list than `except` already holds (`owner`, `date`). */
  predicate HasListOn(lists: map<Id, DailyTaskList>, owner: UserId, date: Date, except: Option<Id>) {
    exists k :: k in lists && Some(k) != except && lists[k].owner == owner && lists[k].date == date
  }

  /** `unique_together = ['template', 'task']` of a template task. */
  ghost predicate OneLinkPerTask(links: map<Id, TemplateTask>) {
    forall a, b :: a in links && b in links && a != b
      ==> links[a].template != links[b].template || links[a].task != links[b].task
  }

  /** A daily task is completed exactly when it carries a completion instant. */
  predicate Stamped(t: DailyTask) {
    t.completed <==> t.completedAt.Some?
  }

  ghost predicate AllStamped(dailyTasks: map<Id, DailyTask>) {
    forall k :: k in dailyTasks ==> Stamped(dailyTasks[k])
  }

  /** One user never has two labels of the same name. */
  ghost predicate LabelNamesUnique(labels: map<Id, Label>) {
    forall a, b :: a in labels && b in labels && a != b && labels[a].owner == labels[b].owner
      ==> labels[a].name != labels[b].name
  }

  /** A template only holds tasks of its own user. */
  ghost predicate LinksResolve(db: Db) {
    forall k :: k in db.links ==>
      && db.links[k].template in db.templates
      && db.links[k].task in db.tasks
      && db.tasks[db.links[k].task].owner == db.templates[db.links[k].template].owner
  }

  /** A daily list is built from a template of its own user. */
  ghost predicate ListsResolve(db: Db) {
    forall k :: k in db.lists ==>
      db.lists[k].template in db.templates && db.templates[db.lists[k].template].owner == db.lists[k].owner
  }

  /** A daily task only carries labels of its own user. */
  ghost predicate LabelsResolve(db: Db) {
    forall k, l :: k in db.dailyTasks && l in db.dailyTasks[k].labels
      ==> l in db.labels && db.labels[l].owner == db.dailyTasks[k].owner
  }

  ghost predicate Consistent(db: Db) {
    && WeekdaysExclusive(db.templates)
    && OneListPerDay(db.lists)
    && OneLinkPerTask(db.links)
    && AllStamped(db.dailyTasks)
    && LabelNamesUnique(db.labels)
    && LinksResolve(db)
    && ListsResolve(db)
    && LabelsResolve(db)
  }

  /** Every primary key in use is below `next`, so `next` is a fresh key. */
  ghost predicate KeysBelow(db: Db, next: nat) {
    && (forall k :: k in db.tasks ==> k < next)
    && (forall k :: k in db.templates ==> k < next)
    && (forall k :: k in db.links ==> k < next)
    && (forall k :: k in db.lists ==> k < next)
    && (forall k :: k in db.dailyTasks ==> k < next)
    && (forall k :: k in db.labels ==> k < next)
  }

  // ---------------------------------------------------------------------
  // Template.clean: weekday exclusivity
  // ---------------------------------------------------------------------

  /**
   * The weekdays `Template.clean` names in its error: every weekday of
   * `days` that another template of `owner` (primary key other than `pk`)
   * already has. Empty means no conflict.
   */
  function ConflictDays(templates: map<Id, Template>, owner: UserId, pk: Option<Id>, days: seq<Weekday>): (r: set<Weekday>)
    ensures r <= DaySet(days)
    ensures forall k :: (k in templates && Some(k) != pk && templates[k].owner == owner
      ==> DaySet(days) * DaySet(templates[k].weekdays) <= r)
    ensures forall d :: d in r ==>
      (exists k :: k in templates && Some(k) != pk && templates[k].owner == owner && d in days && d in templates[k].weekdays)
    ensures r == {} <==> forall k :: (k in templates && Some(k) != pk && templates[k].owner == owner
      ==> !Overlap(days, templates[k].weekdays))
  {
    var r := set d, k | d in days && k in templates && Some(k) != pk && templates[k].owner == owner
      && d in templates[k].weekdays :: d;
    assert forall k :: (k in templates && Some(k) != pk && templates[k].owner == owner
      ==> DaySet(days) * DaySet(templates[k].weekdays) <= r)
    by {
      forall k | k in templates && Some(k) != pk && templates[k].owner == owner
        ensures DaySet(days) * DaySet(templates[k].weekdays) <= r
      {
        forall d | d in DaySet(days) * DaySet(templates[k].weekdays) ensures d in r {
          assert d in days && d in templates[k].weekdays;
        }
      }
    }
    assert r == {} <==> forall k :: (k in templates && Some(k) != pk && templates[k].owner == owner
      ==> !Overlap(days, templates[k].weekdays))
    by {
      forall k | k in templates && Some(k) != pk && templates[k].owner == owner && Overlap(days, templates[k].weekdays)
        ensures r != {}
      {
        var d :| d in days && d in templates[k].weekdays;
        assert d in r;
      }
      if r != {} {
        var d :| d in r;
        var k :| k in templates && Some(k) != pk && templates[k].owner == owner && d in days && d in templates[k].weekdays;
        assert Overlap(days, templates[k].weekdays);
      }
    }
    r
  }

  /** The validation error `Template.full_clean` raises. */
  datatype TemplateError = TemplateError(titleBlank: bool, conflicts: set<Weekday>)

  /**
   * `Template.full_clean()` for template `t` saved under primary key `pk`
   * (None for a new one): the blank-title check of the field and the weekday
   * check of `clean`, reported together.
   */
  function CleanTemplate(templates: map<Id, Template>, pk: Option<Id>, t: Template): (r: Option<TemplateError>)
    ensures r.None? <==> t.title != "" && ConflictDays(templates, t.owner, pk, t.weekdays) == {}
    ensures r.Some? ==> r.value.conflicts == ConflictDays(templates, t.owner, pk, t.weekdays)
    ensures r.Some? ==> r.value.titleBlank == (t.title == "")
  {
    var conflicts := ConflictDays(templates, t.owner, pk, t.weekdays);
    if t.title == "" || conflicts != {} then Some(TemplateError(t.title == "", conflicts)) else None
  }

  /** A save that passes `clean` keeps the weekdays of one user's templates apart. */
  lemma SaveKeepsExclusive(templates: map<Id, Template>, k: Id, t: Template)
    requires WeekdaysExclusive(templates)
    requires ConflictDays(templates, t.owner, Some(k), t.weekdays) == {}
    ensures WeekdaysExclusive(templates[k := t])
  {
    var m := templates[k := t];
    forall a, b | a in m && b in m && a != b && m[a].owner == m[b].owner
      ensures !Overlap(m[a].weekdays, m[b].weekdays)
    {
      if a == k {
        assert b in templates && Some(b) != Some(k);
      } else if b == k {
        assert a in templates && Some(a) != Some(k);
      }
    }
  }

  /** A template with no weekdays never conflicts. */
  lemma NoWeekdaysNoConflict(templates: map<Id, Template>, owner: UserId, pk: Option<Id>)
    ensures ConflictDays(templates, owner, pk, []) == {}
  {
  }

  /** Templates of other users play no part in the conflict check. */
  lemma OtherUsersIgnored(templates: map<Id, Template>, k: Id, t: Template, owner: UserId, pk: Option<Id>, days: seq<Weekday>)
    requires t.owner != owner
    ensures ConflictDays(templates[k := t], owner, pk, days) == ConflictDays(templates - {k}, owner, pk, days)
  {
  }

  // ---------------------------------------------------------------------
  // DailyTask.mark_complete / mark_incomplete
  // ---------------------------------------------------------------------

  /** The two tasks agree on every field but the two completion fields. */
  predicate SameButCompletion(a: DailyTask, b: DailyTask) {
    && a.owner == b.owner && a.list == b.list && a.templateTask == b.templateTask && a.title == b.title
    && a.dueDate == b.dueDate && a.order == b.order && a.isAdhoc == b.isAdhoc && a.labels == b.labels
  }

  /** `mark_complete()` at instant `now`: the two completion fields, set together. */
  function Complete(t: DailyTask, now: Timestamp): (r: DailyTask)
    ensures r.completed && r.completedAt == Some(now) && Stamped(r)
    ensures SameButCompletion(r, t)
  {
    t.(completed := true, completedAt := Some(now))
  }

  /** `mark_incomplete()`: both completion fields cleared together. */
  function Reopen(t: DailyTask): (r: DailyTask)
    ensures !r.completed && r.completedAt.None? && Stamped(r)
    ensures SameButCompletion(r, t)
  {
    t.(completed := false, completedAt := None)
  }

  /** Completing an open task and re-opening it gives it back unchanged. */
  lemma CompleteThenReopen(t: DailyTask, now: Timestamp)
    requires Stamped(t) && !t.completed
    ensures Reopen(Complete(t, now)) == t
  {
  }

  // ---------------------------------------------------------------------
  // TemplateTask creation loop (shared by template create and update)
  // ---------------------------------------------------------------------

  /** One `{task_id, order}` entry of a request; absent keys are None. */
  datatype TaskEntry = TaskEntry(taskId: Option<Id>, order: Option<nat>)

  /** `not task_id or order is None` (a zero id is falsy). */
  predicate Malformed(e: TaskEntry) {
    e.taskId.None? || e.taskId.value == 0 || e.order.None?
  }

  /** Why the creation loop stopped early. */
  datatype LinkFault =
    | MalformedEntry   // the entry lacks task_id or order
    | UnknownTask      // get_object_or_404 found no task of this user
    | DuplicateLink    // unique_together (template, task) refused the row

  /** The link table after the loop, the next free key, and the fault, if any. */
  datatype LinkRun = LinkRun(links: map<Id, TemplateTask>, next: nat, fault: Option<LinkFault>)

  predicate HasLink(links: map<Id, TemplateTask>, template: Id, task: Id) {
    exists k :: k in links && links[k].template == template && links[k].task == task
  }

  predicate OwnsTask(tasks: map<Id, Task>, owner: UserId, task: Id) {
    task in tasks && tasks[task].owner == owner
  }

  /**
   * The `for task_data in tasks` loop: creates one template task per entry,
   * in order, each under the next free key, and stops at the first entry
   * that is malformed, names no task of `owner`, or repeats a task. Rows
   * created before the stop remain.
   */
  function RunLinks(tasks: map<Id, Task>, links: map<Id, TemplateTask>, owner: UserId, template: Id,
                    entries: seq<TaskEntry>, next: nat): (r: LinkRun)
    ensures next <= r.next
    decreases |entries|
  {
    if entries == [] then LinkRun(links, next, None)
    else
      var e := entries[0];
      if Malformed(e) then LinkRun(links, next, Some(MalformedEntry))
      else if !OwnsTask(tasks, owner, e.taskId.value) then LinkRun(links, next, Some(UnknownTask))
      else if HasLink(links, template, e.taskId.value) then LinkRun(links, next, Some(DuplicateLink))
      else RunLinks(tasks, links[next := TemplateTask(template, e.taskId.value, e.order.value)],
                    owner, template, entries[1..], next + 1)
  }

  /** The keys of the links of one template. */
  function LinksOf(links: map<Id, TemplateTask>, template: Id): set<Id> {
    set k | k in links && links[k].template == template
  }

  /** The (task, order) pairs a template holds. */
  function Pairs(links: map<Id, TemplateTask>, template: Id): set<(Id, nat)> {
    set k | k in links && links[k].template == template :: (links[k].task, links[k].order)
  }

  /** The (task, order) pairs a request lists. */
  function EntryPairs(entries: seq<TaskEntry>): set<(Id, nat)> {
    set i | 0 <= i < |entries| && !Malformed(entries[i]) :: (entries[i].taskId.value, entries[i].order.value)
  }

  /**
   * The loop keeps the uniqueness of (template, task), keeps every earlier
   * row, only adds rows of `template` under fresh keys, and only links tasks
   * of `owner`.
   */
  lemma {:induction false} RunLinksSafe(tasks: map<Id, Task>, links: map<Id, TemplateTask>, owner: UserId,
                                        template: Id, entries: seq<TaskEntry>, next: nat)
    requires OneLinkPerTask(links)
    requires forall k :: k in links ==> k < next
    ensures var r := RunLinks(tasks, links, owner, template, entries, next);
      && OneLinkPerTask(r.links)
      && (forall k :: k in r.links ==> k < r.next)
      && (forall k :: k in links ==> k in r.links && r.links[k] == links[k])
      && (forall k :: k in r.links && k !in links ==>
            next <= k && r.links[k].template == template && OwnsTask(tasks, owner, r.links[k].task))
    decreases |entries|
  {
    if entries != [] {
      var e := entries[0];
      if !Malformed(e) && OwnsTask(tasks, owner, e.taskId.value) && !HasLink(links, template, e.taskId.value) {
        var links' := links[next := TemplateTask(template, e.taskId.value, e.order.value)];
        assert OneLinkPerTask(links') by {
          forall a, b | a in links' && b in links' && a != b
            ensures links'[a].template != links'[b].template || links'[a].task != links'[b].task
          {
            if a == next { assert b in links; } else if b == next { assert a in links; }
          }
        }
        RunLinksSafe(tasks, links', owner, template, entries[1..], next + 1);
      }
    }
  }

  /**
   * Starting from a template with no rows, a loop that runs to the end
   * leaves the template holding exactly the requested (task, order) pairs,
   * one row per entry.
   */
  lemma {:induction false} RunLinksExact(tasks: map<Id, Task>, links: map<Id, TemplateTask>, owner: UserId,
                                         template: Id, entries: seq<TaskEntry>, next: nat)
    requires forall k :: k in links ==> k < next
    requires RunLinks(tasks, links, owner, template, entries, next).fault.None?
    ensures forall i :: 0 <= i < |entries| ==> !Malformed(entries[i])
    ensures var r := RunLinks(tasks, links, owner, template, entries, next);
      && Pairs(r.links, template) == Pairs(links, template) + EntryPairs(entries)
      && r.next == next + |entries|
    decreases |entries|
  {
    var r := RunLinks(tasks, links, owner, template, entries, next);
    if entries == [] {
      assert EntryPairs(entries) == {};
    } else {
      var e := entries[0];
      var links' := links[next := TemplateTask(template, e.taskId.value, e.order.value)];
      assert forall k :: k in links' ==> k < next + 1;
      RunLinksExact(tasks, links', owner, template, entries[1..], next + 1);
      assert Pairs(links', template) == Pairs(links, template) + {(e.taskId.value, e.order.value)} by {
        assert next !in links;
        forall p | p in Pairs(links', template) ensures p in Pairs(links, template) + {(e.taskId.value, e.order.value)} {
          var k :| k in links' && links'[k].template == template && p == (links'[k].task, links'[k].order);
          if k != next { assert k in links; }
        }
        assert (links'[next].task, links'[next].order) in Pairs(links', template);
        forall p | p in Pairs(links, template) ensures p in Pairs(links', template) {
          var k :| k in links && links[k].template == template && p == (links[k].task, links[k].order);
          assert k != next && k in links';
        }
      }
      assert EntryPairs(entries) == {(e.taskId.value, e.order.value)} + EntryPairs(entries[1..]) by {
        forall p | p in EntryPairs(entries)
          ensures p in {(e.taskId.value, e.order.value)} + EntryPairs(entries[1..])
        {
          var i :| 0 <= i < |entries| && p == (entries[i].taskId.value, entries[i].order.value);
          if i > 0 { assert entries[1..][i - 1] == entries[i]; }
        }
        forall p | p in EntryPairs(entries[1..]) ensures p in EntryPairs(entries) {
          var i :| 0 <= i < |entries[1..]| && p == (entries[1..][i].taskId.value, entries[1..][i].order.value);
          assert entries[i + 1] == entries[1..][i];
        }
      }
    }
  }

  /** Removing every row of a template (`template.template_tasks.all().delete()`). */
  function DropLinks(links: map<Id, TemplateTask>, template: Id): (r: map<Id, TemplateTask>)
    ensures r.Keys == links.Keys - LinksOf(links, template)
    ensures forall k :: k in r ==> r[k] == links[k]
    ensures Pairs(r, template) == {}
  {
    map k | k in links && links[k].template != template :: links[k]
  }

  /** `on_delete=SET_NULL`: daily tasks lose their reference to removed template tasks. */
  function Detach(dailyTasks: map<Id, DailyTask>, removed: set<Id>): (r: map<Id, DailyTask>)
    ensures r.Keys == dailyTasks.Keys
    ensures forall k :: k in r ==> r[k].templateTask.None? || r[k].templateTask.value !in removed
    ensures forall k :: k in r ==> r[k].(templateTask := dailyTasks[k].templateTask) == dailyTasks[k]
    ensures forall k :: (k in r && (dailyTasks[k].templateTask.None? || dailyTasks[k].templateTask.value !in removed)
      ==> r[k] == dailyTasks[k])
    ensures forall k :: (k in r && dailyTasks[k].templateTask.Some? && dailyTasks[k].templateTask.value in removed
      ==> r[k].templateTask.None?)
  {
    map k | k in dailyTasks ::
      if dailyTasks[k].templateTask.Some? && dailyTasks[k].templateTask.value in removed
      then dailyTasks[k].(templateTask := None) else dailyTasks[k]
  }

  // ---------------------------------------------------------------------
  // DailyTaskList._create_daily_tasks
  // ---------------------------------------------------------------------

  /** The order key of a template task (`order_by('order')`). */
  function LinkOrder(links: map<Id, TemplateTask>): Id -> int {
    k => if k in links then links[k].order else 0
  }

  /** The daily task copied from template task `link` into list `listId`. */
  function CopyOf(db: Db, listId: Id, list: DailyTaskList, link: Id): (r: DailyTask)
    requires link in db.links && db.links[link].task in db.tasks
    ensures !r.completed && !r.isAdhoc && Stamped(r) && r.labels == {}
    ensures r.order == 10 * db.links[link].order && r.dueDate == list.date
    ensures r.title == db.tasks[db.links[link].task].title && r.owner == list.owner
    ensures r.list == Some(listId) && r.templateTask == Some(link)
  {
    DailyTask(list.owner, Some(listId), Some(link), db.tasks[db.links[link].task].title, list.date,
              false, None, db.links[link].order * 10, false, {})
  }

  /** `after` is `before` with new rows under the keys `from` to `to - 1`, the old rows untouched. */
  ghost predicate Grown(before: map<Id, DailyTask>, after: map<Id, DailyTask>, from: nat, to: nat) {
    && (forall k :: k in after <==> k in before || from <= k < to)
    && (forall k :: k in before ==> k in after && after[k] == before[k])
  }

  /** `ls` holds every row of `template` once, in ascending order, each naming a stored task. */
  ghost predicate RowsInOrder(db: Db, template: Id, ls: seq<Id>) {
    && Elements(ls) == LinksOf(db.links, template) && Distinct(ls) && SortedBy(ls, LinkOrder(db.links))
    && forall i :: 0 <= i < |ls| ==> ls[i] in db.links && db.links[ls[i]].task in db.tasks
  }

  /** Row `ls[i]` is copied into list `listId` as the daily task with key `first + i`. */
  ghost predicate CopiesAt(db: Db, listId: Id, list: DailyTaskList, ls: seq<Id>,
                           dailyTasks: map<Id, DailyTask>, first: nat) {
    forall i :: 0 <= i < |ls| ==>
      && ls[i] in db.links && db.links[ls[i]].task in db.tasks
      && first + i in dailyTasks && dailyTasks[first + i] == CopyOf(db, listId, list, ls[i])
  }

  /**
   * `_create_daily_tasks` for list `listId`: `ls` holds every row of the
   * list's template once, in ascending template order, and row `ls[i]` is
   * copied into the daily task with key `first + i`.
   */
  ghost predicate CopiedInOrder(db: Db, listId: Id, list: DailyTaskList, ls: seq<Id>,
                                dailyTasks: map<Id, DailyTask>, first: nat) {
    RowsInOrder(db, list.template, ls) && CopiesAt(db, listId, list, ls, dailyTasks, first)
  }

  /** Copies made in ascending template order have non-decreasing daily orders. */
  lemma CopiesAscending(db: Db, listId: Id, list: DailyTaskList, ls: seq<Id>, i: nat, j: nat)
    requires forall k :: 0 <= k < |ls| ==> ls[k] in db.links && db.links[ls[k]].task in db.tasks
    requires SortedBy(ls, LinkOrder(db.links))
    requires i < j < |ls|
    ensures CopyOf(db, listId, list, ls[i]).order <= CopyOf(db, listId, list, ls[j]).order
  {
    assert LinkOrder(db.links)(ls[i]) <= LinkOrder(db.links)(ls[j]);
  }

  // ---------------------------------------------------------------------
  // Adhoc tasks
  // ---------------------------------------------------------------------

  /** An incomplete adhoc task of `user`: the rows the `Max('order')` queries range over. */
  predicate OpenAdhoc(t: DailyTask, user: UserId) {
    t.owner == user && t.isAdhoc && !t.completed
  }

  /**
   * `m` is `Max('order')` over the incomplete adhoc tasks of `user`, or 0
   * when there are none (`max_order or 0`).
   */
  ghost predicate IsMaxOpenOrder(dailyTasks: map<Id, DailyTask>, user: UserId, m: nat) {
    && (forall k :: k in dailyTasks && OpenAdhoc(dailyTasks[k], user) ==> dailyTasks[k].order <= m)
    && (m == 0 || exists k :: k in dailyTasks && OpenAdhoc(dailyTasks[k], user) && dailyTasks[k].order == m)
  }

  /**
   * The rows `AdhocTaskListView.get_queryset` selects: completed ones (on
   * the given completion date, if any) or incomplete ones (any date).
   */
  function AdhocSelection(dailyTasks: map<Id, DailyTask>, user: UserId, date: Option<Date>, completed: bool): set<Id> {
    set k | k in dailyTasks && dailyTasks[k].owner == user && dailyTasks[k].isAdhoc
      && dailyTasks[k].completed == completed
      && (completed && date.Some? ==> dailyTasks[k].completedAt.Some? && DayOf(dailyTasks[k].completedAt.value) == date.value)
  }

  /** The listing key: `order` ascending, or `-completed_at` for completed rows. */
  function AdhocKey(dailyTasks: map<Id, DailyTask>, completed: bool): Id -> int {
    k => if k !in dailyTasks then 0
         else if completed then (if dailyTasks[k].completedAt.Some? then -dailyTasks[k].completedAt.value else 0)
         else dailyTasks[k].order
  }

  // ---------------------------------------------------------------------
  // Table updates that keep the invariants
  // ---------------------------------------------------------------------

  /** Storing a task over one of the same user, or under the fresh key, keeps every invariant. */
  lemma PutTask(db: Db, next: nat, k: Id, t: Task)
    requires Consistent(db) && KeysBelow(db, next)
    requires k in db.tasks ==> db.tasks[k].owner == t.owner
    requires k in db.tasks || k == next
    ensures Consistent(db.(tasks := db.tasks[k := t]))
    ensures KeysBelow(db.(tasks := db.tasks[k := t]), if k == next then next + 1 else next)
  {
  }

  /** Storing a label whose name its user does not already use elsewhere keeps every invariant. */
  lemma PutLabel(db: Db, next: nat, k: Id, l: Label)
    requires Consistent(db) && KeysBelow(db, next)
    requires k in db.labels ==> db.labels[k].owner == l.owner
    requires k in db.labels || k == next
    requires forall j :: j in db.labels && j != k && db.labels[j].owner == l.owner ==> db.labels[j].name != l.name
    ensures Consistent(db.(labels := db.labels[k := l]))
    ensures KeysBelow(db.(labels := db.labels[k := l]), if k == next then next + 1 else next)
  {
    var db' := db.(labels := db.labels[k := l]);
    assert LabelsResolve(db') by {
      forall i, j | i in db'.dailyTasks && j in db'.dailyTasks[i].labels
        ensures j in db'.labels && db'.labels[j].owner == db'.dailyTasks[i].owner
      {
        assert j in db.labels;
      }
    }
  }

  /** With a key no template has, "other than `pk`" and "other than none" select the same templates. */
  lemma ConflictFresh(templates: map<Id, Template>, owner: UserId, k: Id, days: seq<Weekday>)
    requires k !in templates
    ensures ConflictDays(templates, owner, None, days) == ConflictDays(templates, owner, Some(k), days)
  {
  }

  /** Storing a template that passed `clean`, over one of the same user or under the fresh key, keeps every invariant. */
  lemma PutTemplate(db: Db, next: nat, k: Id, t: Template)
    requires Consistent(db) && KeysBelow(db, next)
    requires k in db.templates ==> db.templates[k].owner == t.owner
    requires k in db.templates || k == next
    requires ConflictDays(db.templates, t.owner, Some(k), t.weekdays) == {}
    ensures Consistent(db.(templates := db.templates[k := t]))
    ensures KeysBelow(db.(templates := db.templates[k := t]), if k == next then next + 1 else next)
  {
    SaveKeepsExclusive(db.templates, k, t);
  }

  /** Adding a link of an owned task that the template does not hold yet keeps every invariant. */
  lemma PutLink(db: Db, next: nat, l: TemplateTask)
    requires Consistent(db) && KeysBelow(db, next)
    requires l.template in db.templates && OwnsTask(db.tasks, db.templates[l.template].owner, l.task)
    requires !HasLink(db.links, l.template, l.task)
    ensures Consistent(db.(links := db.links[next := l]))
    ensures KeysBelow(db.(links := db.links[next := l]), next + 1)
  {
    var m := db.links[next := l];
    forall a, b | a in m && b in m && a != b
      ensures m[a].template != m[b].template || m[a].task != m[b].task
    {
      if a == next { assert b in db.links; } else if b == next { assert a in db.links; }
    }
  }

  /** Removing a template's links, and detaching the daily tasks copied from them, keeps every invariant. */
  lemma DropLinksConsistent(db: Db, next: nat, template: Id)
    requires Consistent(db) && KeysBelow(db, next)
    ensures var db' := db.(links := DropLinks(db.links, template),
                           dailyTasks := Detach(db.dailyTasks, LinksOf(db.links, template)));
      Consistent(db') && KeysBelow(db', next)
  {
    var db' := db.(links := DropLinks(db.links, template),
                   dailyTasks := Detach(db.dailyTasks, LinksOf(db.links, template)));
    assert AllStamped(db'.dailyTasks) by {
      forall k | k in db'.dailyTasks ensures Stamped(db'.dailyTasks[k]) {
        assert Stamped(db.dailyTasks[k]);
      }
    }
    assert LabelsResolve(db') by {
      forall k, l | k in db'.dailyTasks && l in db'.dailyTasks[k].labels
        ensures l in db'.labels && db'.labels[l].owner == db'.dailyTasks[k].owner
      {
        assert l in db.dailyTasks[k].labels;
      }
    }
  }

  /** Storing a list of a free (user, date) built from a template of its user keeps every invariant. */
  lemma PutList(db: Db, next: nat, k: Id, l: DailyTaskList)
    requires Consistent(db) && KeysBelow(db, next)
    requires k in db.lists || k == next
    requires l.template in db.templates && db.templates[l.template].owner == l.owner
    requires !HasListOn(db.lists, l.owner, l.date, Some(k))
    ensures Consistent(db.(lists := db.lists[k := l]))
    ensures KeysBelow(db.(lists := db.lists[k := l]), if k == next then next + 1 else next)
  {
  }

  /** Storing a stamped daily task whose labels belong to its user keeps every invariant. */
  lemma PutDailyTask(db: Db, next: nat, k: Id, t: DailyTask)
    requires Consistent(db) && KeysBelow(db, next)
    requires k in db.dailyTasks || k == next
    requires Stamped(t) && forall l :: l in t.labels ==> l in db.labels && db.labels[l].owner == t.owner
    ensures Consistent(db.(dailyTasks := db.dailyTasks[k := t]))
    ensures KeysBelow(db.(dailyTasks := db.dailyTasks[k := t]), if k == next then next + 1 else next)
  {
  }

  /**
   * Deleting a template that the loop just filled (with cascade to its rows)
   * leaves exactly the rows that were there before it.
   */
  lemma DropFreshLinks(links: map<Id, TemplateTask>, run: map<Id, TemplateTask>, template: Id)
    requires forall k :: k in links ==> links[k].template != template
    requires forall k :: k in links ==> k in run && run[k] == links[k]
    requires forall k :: k in run && k !in links ==> run[k].template == template
    ensures DropLinks(run, template) == links
  {
  }

  /** Deleting a template that no link and no list refers to keeps every invariant. */
  lemma RemoveTemplate(db: Db, next: nat, id: Id)
    requires Consistent(db) && KeysBelow(db, next)
    requires forall k :: k in db.links ==> db.links[k].template != id
    requires forall k :: k in db.lists ==> db.lists[k].template != id
    ensures Consistent(db.(templates := db.templates - {id}))
    ensures KeysBelow(db.(templates := db.templates - {id}), next)
  {
  }
}
