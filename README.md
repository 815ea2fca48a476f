# Serenemind scheduling server, modelled in Dafny

The Django server of a daily-task scheduling app, as a Dafny model with proofs.
A user keeps a library of tasks. Templates group tasks in order, and each template is bound to some weekdays. A daily list is generated from a template for one date, copying its tasks. Adhoc tasks are added on the side. Labels tag daily tasks.
The authentication app adds a profile update with field-by-field validation, the user's display names, and a password complexity rule.

Modules, one per source file of the core, plus three helpers:

- `Wrappers`: `Option` and `Result`.
- `Text`: Python's `str.strip()`, ASCII `lower()`, `s[:n]` and `s.split(c)[0]`.
- `Ordering`: `order_by` as a sort of primary keys by a key.
- `Scheduling` (`backend/tasks/models.py`):
  - the records, with the database as a value `Db` holding one map per table;
  - the table invariants: weekday exclusivity, the `unique_together` constraints, the completion stamp, and owner agreement of references;
  - `Template.clean`, `mark_complete` / `mark_incomplete`, and the template-task creation loop as a specification function.
  - One lemma per kind of write proves that the write keeps the invariants.
- `SchedulingApi` (`backend/tasks/views.py`):
  - the request checks as functions;
  - the class `TaskStore`, whose `db` and `nextId` fields the handler methods and the model-level `save` methods update in place.
  - Each handler states its reply and the new state for every branch: refusal, not found, server error, success.
- `Accounts` (`backend/authentication/models.py`):
  - the classes `User` and `Profile`;
  - `User.save`'s username generation;
  - the display-name helpers.
- `ProfileApi` (`backend/authentication/views.py`): `ProfileAPIView.put`.
  - The four field checks are functions.
  - The error map is specified as a fold.
  - The method updates the `User` and `Profile` objects only when no check fails.
- `Passwords` (`backend/authentication/validators.py`): `PasswordComplexityValidator.validate`.

External inputs are parameters:

- the current instant `now`;
- the set `emails` of addresses that Django's `validate_email` accepts;
- the map `owners` from each stored address to its user's id;
- the requesting user.

The model and the source differ in these places:

- The `Label` model is imported by `backend/tasks/views.py`, but `backend/tasks/models.py` does not define it. Its fields (owner, name, colour) and the rule that names are unique per user come from the views. Likewise `DailyTask` has no `labels` relation in `backend/tasks/models.py`: the model's `DailyTask.labels` field comes from the views' `task.labels.clear()` and `task.labels.add(...)` calls.
- `backend/tasks/urls.py` routes to an `AvailableWeekdaysView` that `backend/tasks/views.py` does not define.

## Model

| member | source | states |
|---|---|---|
| Text.Trim | backend/tasks/views.py:56 | `strip()` leaves no whitespace at either end and never lengthens the value |
| Text.TrimSlice | backend/tasks/views.py:56 | the stripped value is a slice of the input with only whitespace outside it |
| Text.TrimEmptyIffBlank | backend/tasks/views.py:56-59 | a value strips to the empty string exactly when it is all whitespace, which is what `if not title` after `strip()` rejects |
| Text.TrimStripped | backend/authentication/views.py:44 | stripping a value that is already stripped changes nothing |
| Text.TrimIdempotent | backend/authentication/views.py:44 | stripping twice is stripping once |
| Text.JoinedBlank | backend/authentication/models.py:64-65 | `"first last"` strips to nothing exactly when both names are blank |
| Text.Lower | backend/authentication/views.py:64 | `lower()` keeps the length and lower-cases each character |
| Text.LowerKeepsStripped | backend/authentication/views.py:64 | lower-casing a stripped value leaves it stripped |
| Text.LowerIdempotent | backend/authentication/views.py:64 | lower-casing twice is lower-casing once |
| Text.Take | backend/tasks/views.py:176 | `s[:n]` is the prefix of length `min(len(s), n)` |
| Text.Before | backend/authentication/models.py:59 | `split('@')[0]` is a prefix without '@', and the input continues with '@' right after it whenever it is shorter |
| Ordering.Insert | backend/tasks/models.py:144 | inserting one key keeps the elements, distinctness and sortedness |
| Ordering.SortByKey | backend/tasks/models.py:144 | `order_by`: every row of the set exactly once, in ascending key order |
| Scheduling.ParseWeekday | backend/tasks/models.py:9-16 | a string is accepted exactly when it is the name of a weekday, and is parsed to that weekday |
| Scheduling.ParseName | backend/tasks/models.py:9-16 | every weekday is parsed back from its stored name |
| Scheduling.ConflictDays | backend/tasks/models.py:60-76 | the reported days are exactly the days the new template shares with some other template of the same user under another key: each reported day is shared with one, and every shared day is reported; empty exactly when no such template overlaps |
| Scheduling.CleanTemplate | backend/tasks/models.py:58-81 | `full_clean` passes exactly when the title is non-blank and there is no weekday conflict; a refusal flags a blank title exactly when the title is blank and carries exactly the conflicting days |
| Scheduling.SaveKeepsExclusive | backend/tasks/models.py:79-81 | a save that passes `clean` keeps the weekday sets of one user's templates pairwise disjoint |
| Scheduling.NoWeekdaysNoConflict | backend/tasks/models.py:60 | a template with no weekdays never conflicts |
| Scheduling.OtherUsersIgnored | backend/tasks/models.py:62-66 | templates of other users never change the conflict set |
| Scheduling.Complete | backend/tasks/models.py:208-212 | `mark_complete` sets `completed` and `completed_at = now` together; every other field is unchanged |
| Scheduling.Reopen | backend/tasks/models.py:214-218 | `mark_incomplete` clears `completed` and `completed_at` together; every other field is unchanged |
| Scheduling.CompleteThenReopen | backend/tasks/models.py:208-218 | completing an open task and re-opening it restores it exactly |
| Scheduling.RunLinks | backend/tasks/views.py:333-347 | the creation loop only advances the key counter; `RunLinksSafe` and `RunLinksExact` state what it stores |
| Scheduling.RunLinksSafe | backend/tasks/views.py:333-347 | the loop keeps (template, task) unique and keeps every earlier row; it only adds rows of this template, under fresh keys, for tasks of the user |
| Scheduling.RunLinksExact | backend/tasks/views.py:431-444 | a loop that runs to the end had only well-formed entries; from an empty template it leaves exactly the requested (task, order) pairs |
| Scheduling.DropLinks | backend/tasks/views.py:428 | deleting a template's rows removes exactly those rows and leaves the others unchanged |
| Scheduling.Detach | backend/tasks/models.py:176-182 | `SET_NULL`: daily tasks keep their keys; a reference to a deleted row becomes null; every other daily task, and every other field, is unchanged |
| Scheduling.CopyOf | backend/tasks/models.py:145-154 | the copy takes the list's user, the library task's title and the list's date; its order is ten times the template order; it is open, not adhoc, and unlabelled |
| Scheduling.CopiesAscending | backend/tasks/models.py:144-151 | copies made in ascending template order have non-decreasing daily orders |
| Scheduling.PutTask | backend/tasks/models.py:18-28 | writing a task of the same user, or under the fresh key, keeps every table invariant |
| Scheduling.PutLabel | backend/tasks/views.py:191-200 | writing a label whose name its user has not used elsewhere keeps every invariant, including per-user unique names |
| Scheduling.ConflictFresh | backend/tasks/models.py:64 | `exclude(pk=None)` for a new template selects the same templates as excluding an unused key |
| Scheduling.PutTemplate | backend/tasks/models.py:79-81 | writing a template that passed `clean` keeps every invariant |
| Scheduling.PutLink | backend/tasks/models.py:91-93 | adding a link of an owned task that the template does not yet hold keeps `unique_together` (template, task) and every other invariant |
| Scheduling.DropLinksConsistent | backend/tasks/views.py:427-428 | deleting a template's rows, and detaching the daily tasks copied from them, keeps every invariant |
| Scheduling.PutList | backend/tasks/models.py:111-131 | writing a list for a free (user, date), built from a template of the same user, keeps one list per user and date |
| Scheduling.PutDailyTask | backend/tasks/models.py:156-200 | writing a stamped daily task whose labels belong to its user keeps every invariant |
| Scheduling.DropFreshLinks | backend/tasks/views.py:337-339 | deleting a template that the loop has just filled leaves exactly the rows that existed before |
| Scheduling.RemoveTemplate | backend/tasks/views.py:338 | deleting a template that no row and no list refers to keeps every invariant |
| SchedulingApi.StrippedColor | backend/tasks/views.py:183-186 | on a stripped value the colour pattern accepts exactly `#` followed by six hex digits |
| SchedulingApi.LabelName | backend/tasks/views.py:176 | the stored name is the stripped input cut to its first 50 characters (a prefix of exactly `min(len, 50)` characters); it is empty exactly when the input is blank |
| SchedulingApi.KeepNameAllowed | backend/tasks/views.py:238-240 | with the label itself excluded, a label's own name never counts as taken |
| SchedulingApi.NewLabel | backend/tasks/views.py:173-200 | blank name, bad colour and a name already taken are refused, in that order, each exactly when its check fails, the last naming the cut name; an accepted label is exactly the user's, with the stripped name cut to 50 characters and the stripped colour (`#E5E7EB` when absent), and its name is new for the user |
| SchedulingApi.EditLabel | backend/tasks/views.py:228-251 | an empty name, then a name used by another label of the user, then a malformed colour are refused, each exactly when it is the first check that fails; a present name is stored stripped and cut to 50 characters, a present colour stripped, absent fields keep their values; the result never clashes with another label of the user |
| SchedulingApi.ParseDays | backend/tasks/views.py:319-321 | the request is refused exactly when some string names no weekday, reporting the first such string; otherwise each weekday has the name given at its position |
| SchedulingApi.FirstUnnamed | backend/tasks/views.py:319-321 | every string before the reported position names a weekday, and the string at that position does not |
| SchedulingApi.NewTemplate | backend/tasks/views.py:311-329 | a blank title, then an unknown weekday, are refused exactly when present, the latter naming the first unknown day; otherwise the template holds the user, the stripped title and the named weekdays |
| SchedulingApi.EditTemplate | backend/tasks/views.py:407-420 | only an unknown weekday is refused; a non-empty title is replaced by its stripped form, and present weekdays replace the old ones |
| SchedulingApi.BlankRetitleRefused | backend/tasks/views.py:412-423 | a title of only spaces passes the view, and `full_clean` then refuses it |
| SchedulingApi.Status | backend/tasks/views.py:367-370 | not-found errors map to 404, errors caught by `except Exception` to 500, all others to 400 |
| SchedulingApi.Patched | backend/tasks/views.py:736-764 | the patched task keeps its user, list, template row and adhoc flag |
| SchedulingApi.PatchedFields | backend/tasks/views.py:737-762 | a present title (stripped), order or due date replaces the old value; absent ones are kept |
| SchedulingApi.PatchedLabels | backend/tasks/views.py:744-751 | a `label_id` key leaves at most one label: the named one for a truthy id, none otherwise; no key leaves the labels alone |
| SchedulingApi.PatchedCompletion | backend/tasks/views.py:753-759 | completion follows the request; `completed_at` changes only when the state changes (to `now` on completing); stamped stays stamped |
| SchedulingApi.SameCompletionKept | backend/tasks/views.py:753-759 | requesting the current completion state changes neither completion field |
| SchedulingApi.MaxOpenAdhocOrder | backend/tasks/views.py:929-935 | the loop finds `Max('order')` over the user's incomplete adhoc tasks, or 0 when there are none |
| SchedulingApi.ListRefusal | backend/tasks/models.py:120-131 | missing template, unknown template, another user's template and a taken date are refused in that order, each exactly when it applies |
| SchedulingApi.ListAdhocRows | backend/tasks/views.py:862-878 | the selected rows, each once; incomplete rows by ascending order, completed rows newest completion first |
| SchedulingApi.TaskStore.constructor | backend/tasks/models.py:83-93 | an empty database satisfies every table invariant |
| SchedulingApi.TaskStore.CreateTask | backend/tasks/views.py:53-77 | a blank title gives 400 and changes nothing; otherwise a task with the stripped title is stored under a fresh key and 201 is returned |
| SchedulingApi.TaskStore.UpdateTask | backend/tasks/views.py:94-120 | another user's task gives 404 and a blank title 400, both with no change; otherwise only that task's title is replaced by the stripped title |
| SchedulingApi.TaskStore.CreateLabel | backend/tasks/views.py:173-212 | stores the label `NewLabel` admits under a fresh key, or refuses with its error and no change |
| SchedulingApi.TaskStore.UpdateLabel | backend/tasks/views.py:228-260 | 404 for a label not of the user; otherwise stores what `EditLabel` admits over the row, or refuses with no change |
| SchedulingApi.TaskStore.SaveTemplate | backend/tasks/models.py:79-81 | `full_clean` runs first; a refusal writes nothing; otherwise the template is written (a new one under the fresh key), keeping weekday exclusivity |
| SchedulingApi.TaskStore.AddLinks | backend/tasks/views.py:333-347 | the loop, as imperative code, leaves the rows, the key counter and the fault that `RunLinks` specifies |
| SchedulingApi.TaskStore.FillNewTemplate | backend/tasks/views.py:333-347 | a malformed entry deletes the new template and its rows, leaving the tables as before it was saved; a full run leaves exactly the requested pairs |
| SchedulingApi.TaskStore.DropNewTemplate | backend/tasks/views.py:337-339 | `template.delete()` after a malformed entry leaves the tables exactly as before the template was saved |
| SchedulingApi.TaskStore.CreateTemplate | backend/tasks/views.py:309-370 | Title and weekday refusals store nothing, and so does a `full_clean` refusal. A malformed entry restores the tables. An unknown or repeated task gives 500 and keeps the template with the rows made so far. A full run gives 201 with exactly the requested pairs |
| SchedulingApi.TaskStore.SaveNew | backend/tasks/views.py:330-347 | the save of the built template followed by the creation loop, with the outcomes `CreateTemplate` states |
| SchedulingApi.TaskStore.RefillTemplate | backend/tasks/views.py:426-444 | the old rows are deleted and the copies that point to them detached; then the loop runs; nothing is rolled back on a fault; a full run leaves exactly the requested pairs |
| SchedulingApi.TaskStore.UpdateTemplate | backend/tasks/views.py:400-467 | 404 for a template not of the user; an unknown weekday or a `full_clean` refusal changes nothing; otherwise the template is saved, and with `tasks` its rows are replaced as `RefillTemplate` states |
| SchedulingApi.TaskStore.SaveEdited | backend/tasks/views.py:423-444 | the save of the edited template followed by the row replacement when `tasks` is given |
| SchedulingApi.TaskStore.AddDailyTask | backend/tasks/models.py:145-154 | the daily task is stored under the fresh key and nothing else changes |
| SchedulingApi.TaskStore.CopyRows | backend/tasks/models.py:144-154 | the loop stores the copy of the i-th row under key `next + i`; the old daily tasks and all other tables are untouched |
| SchedulingApi.TaskStore.CopyTemplateTasks | backend/tasks/models.py:137-154 | `_create_daily_tasks`: one copy per row of the template, in ascending template order, under consecutive fresh keys |
| SchedulingApi.TaskStore.TemplateRows | backend/tasks/models.py:144 | the rows of the template, each once, in ascending `order`, each naming a stored task |
| SchedulingApi.TaskStore.SaveList | backend/tasks/models.py:120-135 | A refusal as `ListRefusal` states writes nothing. Re-saving a list copies nothing. A new list is stored and then filled with copies of its template's rows |
| SchedulingApi.TaskStore.InsertList | backend/tasks/models.py:131-135 | a new list goes in under the fresh key, and its template's rows are copied under the keys after it |
| SchedulingApi.TaskStore.AddList | backend/tasks/models.py:131 | the new list row goes in under the fresh key, keeping one list per user and date |
| SchedulingApi.TaskStore.CreateDailyList | backend/tasks/views.py:532-590 | Checks run in order, each refusal changing nothing: missing date, missing or zero template id, a date with a list, a template not of the user (404). On success the list is stored and every row of its template copied in order, and the reply is 201 |
| SchedulingApi.TaskStore.SaveDailyTask | backend/tasks/views.py:764 | `task.save()` writes the in-memory task over its row and keeps every invariant |
| SchedulingApi.TaskStore.SetLabels | backend/tasks/views.py:746-751 | the label set of the row is replaced at once, apart from the row's other fields |
| SchedulingApi.TaskStore.ReplaceLabels | backend/tasks/views.py:744-751 | Fails exactly when a truthy `label_id` names no label of the user. The labels are cleared even then. On success the row has the labels `Relabelled` gives |
| SchedulingApi.TaskStore.MarkComplete | backend/tasks/models.py:208-212 | the daily task is saved as `Complete` gives it: completed, at `now` |
| SchedulingApi.TaskStore.MarkIncomplete | backend/tasks/models.py:214-218 | the daily task is saved as `Reopen` gives it: open, with no completion instant |
| SchedulingApi.TaskStore.ApplyCompletion | backend/tasks/views.py:753-759 | `mark_complete` or `mark_incomplete` runs, and saves the row, only when the requested state differs from the current one; otherwise the row is unchanged |
| SchedulingApi.TaskStore.CompleteDailyTask | backend/tasks/views.py:799-813 | 404 for a task not of the user; otherwise the daily task is completed at `now`, and an adhoc task's order becomes 0 while others keep theirs |
| SchedulingApi.TaskStore.ReopenDailyTask | backend/tasks/views.py:820-843 | 404 for a task not of the user; otherwise the daily task is reopened, and an adhoc task moves to 10 more than the largest order among the user's open adhoc tasks, itself included |
| SchedulingApi.TaskStore.UpdateDailyTask | backend/tasks/views.py:728-781 | 404 for a task not of the user; a `label_id` naming no label of the user gives 500 with the labels already cleared and nothing else saved; otherwise the row becomes `Patched` |
| SchedulingApi.TaskStore.FinishPatch | backend/tasks/views.py:753-764 | after the label step, the completion step and the due date then `save()` leave the row exactly as `Patched` gives it |
| SchedulingApi.TaskStore.CreateAdhoc | backend/tasks/views.py:910-972 | Refusals change nothing: blank title, missing due date, a truthy label id not of the user. Otherwise a new open adhoc task is stored with the stripped title and the label, if any. Its order is 10 more than the largest order among the user's open adhoc tasks, or 10 when there are none |
| SchedulingApi.TaskStore.ListAdhoc | backend/tasks/views.py:856-878 | `completed` counts as true exactly when it lower-cases to "true" (absent means false); the date filters completed rows only; the listing order is as `ListAdhocRows` states |
| Accounts.GeneratedUsername | backend/authentication/models.py:57-59 | the username is the email's text before the first '@', then '_', then the first eight characters of the id |
| Accounts.GeneratedUsernameShape | backend/authentication/models.py:59 | for a UUID id the generated username is non-empty, contains no '@' and is 9 characters longer than the local part |
| Accounts.GeneratedUsernamesDiffer | backend/authentication/models.py:59 | with the same local part, ids that differ in their first eight characters give different usernames |
| Accounts.FullName | backend/authentication/models.py:62-65 | with both names blank it is the email; otherwise it is `"first last"` stripped, which is non-empty |
| Accounts.FullNameOfStoredNames | backend/authentication/models.py:62-65 | for stripped, non-empty names the full name is exactly `first + " " + last` |
| Accounts.ShortName | backend/authentication/models.py:67-69 | a non-empty first name, otherwise the email's prefix up to its first '@' |
| Accounts.ShortNameStartsFullName | backend/authentication/models.py:62-69 | for stored names the short name is a prefix of the full name |
| Accounts.AvatarDisplay | backend/authentication/models.py:109-111 | never empty: the avatar when set, otherwise "fa-user" |
| Accounts.User.constructor | backend/authentication/models.py:12-32 | a new user has the given id, email and names and no username yet |
| Accounts.User.Save | backend/authentication/models.py:55-60 | an empty username is generated from the email and the id; a set one is never overwritten; other fields are unchanged; afterwards the username is non-empty |
| Accounts.Profile.constructor | backend/authentication/models.py:85-90 | a new profile has an empty avatar |
| Accounts.SaveTwice | backend/authentication/models.py:55-60 | saving twice leaves the username the first save gave |
| ProfileApi.NameError | backend/authentication/views.py:43-60 | a name is refused as "... is required" exactly when it is blank, and as "... must be 150 characters or less" exactly when it is longer once stripped |
| ProfileApi.EmailError | backend/authentication/views.py:63-74 | The stripped, lower-cased address is accepted exactly when it is valid and unused by another user. The user's own address counts as unused. Each refusal carries its message |
| ProfileApi.AvatarError | backend/authentication/views.py:77-82 | the avatar is refused exactly when it has more than 500 characters once stripped |
| ProfileApi.AddAll | backend/authentication/views.py:40-82 | adding the four checks' outcomes in turn maps exactly the fields with a message to that message |
| ProfileApi.ProblemsExact | backend/authentication/views.py:40-89 | every problem is reported, not only the first: the error map holds exactly the present, invalid fields with their messages |
| ProfileApi.ProblemsEmpty | backend/authentication/views.py:84-89 | the error map is empty exactly when every present field passes |
| ProfileApi.StagedApplied | backend/authentication/views.py:43-82 | when no field is refused, the assigned values are the present fields normalised, and absent fields are kept |
| ProfileApi.NormalEmailIdempotent | backend/authentication/views.py:64 | normalising an address twice is normalising it once |
| ProfileApi.AcceptedKeepsValid | backend/authentication/views.py:43-93 | an accepted update of a valid profile leaves names and avatar stripped and in bounds and a valid, normalised email |
| ProfileApi.EchoUnchanged | backend/authentication/views.py:43-106 | submitting a valid profile back unchanged is accepted and stores the same values |
| ProfileApi.CheckName | backend/authentication/views.py:43-60 | the name block returns the outcome of `NameError`, and the stripped value when it passes |
| ProfileApi.CheckEmail | backend/authentication/views.py:63-74 | the email block returns the outcome of `EmailError`, and the normalised address when it passes |
| ProfileApi.CheckAvatar | backend/authentication/views.py:77-82 | the avatar block returns the outcome of `AvatarError`, and the stripped URL when it passes |
| ProfileApi.CheckValue | backend/authentication/views.py:43-82 | the block of a present field returns its check's outcome, and the value to store when it passes |
| ProfileApi.CheckField | backend/authentication/views.py:43-82 | one block of `put`: its message is added to the error map, or its value to the profile being built |
| ProfileApi.CheckRequest | backend/authentication/views.py:40-89 | the error map holds exactly the invalid present fields; it is empty exactly when the request is accepted, and then the built profile is the request applied to the old one |
| ProfileApi.UpdateProfile | backend/authentication/views.py:32-106 | A reply is 400 exactly when some field fails. It then lists exactly the failing fields, and neither user nor profile changes. Otherwise the present fields are stored normalised and absent ones kept. The username is generated if empty, and the reply echoes the stored values |
| Passwords.Found | backend/authentication/validators.py:15 | `re.search` of a class succeeds exactly when some character belongs to it |
| Passwords.Validate | backend/authentication/validators.py:14-32 | The password is accepted exactly when it has an uppercase letter, a digit and a special character. Otherwise the first missing class is reported, in the order upper, digit, special |
| Passwords.SpecialsArePunctuation | backend/authentication/validators.py:27-28 | the special class is exactly printable ASCII other than letters, digits and space |
| Passwords.SameCharactersSameVerdict | backend/authentication/validators.py:14-32 | the verdict depends only on which characters occur, not on their order, their number or the length |
| Passwords.AcceptedExtends | backend/authentication/validators.py:14-32 | adding characters before or after an accepted password keeps it accepted |
| Passwords.ShortestAccepted | backend/authentication/validators.py:14-32 | "A1!" is accepted, so no length rule applies |

## Left out

- I/O and framework code is left out:
  - the ORM and its querysets, JSON parsing, `JsonResponse` bodies and `login_required`;
  - the list, detail-`get` and `delete` views (`TaskListView`, `TemplateDetailView.get`, `DailyTaskListByDateView`, and the others);
  - `TodayScheduleView` and `TaskCompletionStatsView`. The latter computes a rounded floating-point percentage.
  - Handlers take the decoded request fields, with `None` for an absent key, and return a status with an id.
- Request values of the wrong JSON type are left out; the model's request fields are typed, so none of these cases is expressed. The source treats them in three ways:
  - Some are answered with 500 through `except Exception`, for example a number where `strip()` expects a string.
  - A weekday that is not a string is not one of `Weekday.values`, so it is refused with 400 "Invalid weekday".
  - Others are coerced and accepted. `int(data['order'])` takes the string `"12"` and truncates `12.7` to 12. `completed` and `label_id` are tested by truthiness, so `"completed": "false"` marks the task complete.
- The `max_length` limits of the title and username columns are left out (over-long values are a database error, answered 500). So are the columns `created_at`, `updated_at` and `last_activity`.
- Clock and time zones: `timezone.now()` is the parameter `now`. `completed_at__date` is `DayOf`, in the server's zone.
- The database sequences are one key counter `nextId` shared by all tables, instead of one per table. UUID keys of labels are modelled as integers.
- Transactions: each handler runs in autocommit, as the source does. Concurrent requests are not modelled.
- `validate_email` is the parameter `emails`, the set of addresses it accepts. Email ownership is the parameter `owners`.
- Cascades of template and list deletion, and `PROTECT` on a template with lists, are left out. Deleting a template is modelled only where `TemplateCreateView.post` deletes its new template. That template has no lists, and its rows are removed with it.
- The templates the `ListView`s render, the admin, the front-end, the sign-up forms, the adapters and the signals are not part of this model.
- Negative orders are left out. The source accepts any non-null `order` in a task entry and any `int(data['order'])` in a daily-task update, but both columns are `PositiveIntegerField`, so a negative value is a database error answered with 500. That error comes after earlier writes: the template and the rows made before the entry are kept, and the daily task's labels are already cleared. The model types orders as `nat`, so requests with a negative order, and these partial states, are not expressed.
- Passwords.Validate: `\d` is modelled as ASCII '0'-'9' (Python's `\d` also matches other Unicode digits). `[A-Z]` is ASCII, as in the source. The `user` argument is ignored, as in the source.
- Text.Lower: ASCII letters only; Python's `lower()` also maps non-ASCII letters.
- ProfileApi.UpdateProfile: the source assigns each accepted field to `user` or `profile` while it checks. On a refusal those assignments are never saved, but they remain on the objects in memory. The model holds them in local values and leaves the objects unchanged. `profile.save()` writes only the avatar and the automatic timestamps, which are left out.
