# Jirascope task store, modelled in Dafny

Jirascope keeps tasks and projects in PostgreSQL. Every stored task or project
has readers rows, and a user sees exactly the entities they have a readers row
for. This project models that store and the services that sit on top of it:

- **`TaskRepository`**: the task store as a class over three relations:
  - prj__tasks, a map from id to row, plus the order in which a table scan meets the rows;
  - prj__task_readers, a map from (reader, task) to the edit and delete flags;
  - prj__task_labels, a sequence of (task, label) rows.

  The reads `getAll` and `findById` are functions of that state. The writes
  `insert` and `update` are methods that either commit a new state or fail
  and leave every relation unchanged, which is how the database transaction
  behaves. The label statements are a loop, as in the source.
- **`Paging`**: the ` LIMIT … OFFSET …` suffix that both repositories append
  only when `limit > 0`.
- **`Security`**: `SecureDataEntity`, a class whose `readers` map from reader id
  to RLS entry is updated in place by `addReader`.
- **`TaskService`**:
  - the list view, where an assignee who is not found leaves the slot empty;
  - the detail view, where the task and its task type are required;
  - the entity built from a submitted form.

  Every collaborator's answer is a function parameter.
- **`EmployeeService`**: the employee view, with optional position, department
  and organization slots; the write dispatch of `upsert`; and the `"current"`
  dispatch of `getDTO`.
- **`ProjectRepository`** (package `com.semantyca`): visibility-filtered
  project reads with the status-name parse, and the write operations, which
  are stubs that change no table.

The asynchronous pipelines become sequential lookups that yield a `Result`.
Asynchronous failures become `Error` values. A Java `null` or an empty
`Optional` becomes `None`.

Interpretations the source leaves open:

- **Row order.** The queries have no `ORDER BY`, so PostgreSQL returns their
  rows in an unspecified order that depends on the plan. The model fixes one
  order, the insertion order, which every query shares and updates keep.
- **Negative offset.** With `limit > 0`, a negative `OFFSET` is rejected by
  PostgreSQL, so the read fails.
- **Readers rows.** prj__task_readers is keyed by (reader, entity). Inserting a
  row whose key exists fails the statement, and the transaction rolls back.
- **Label rows.** prj__task_labels has no key. Its label id refers to a known
  label, and a statement that names an unknown label fails and rolls back.
- **Edit permission.** The edit flag comes from the readers row. A user with
  no row has no edit permission.
- **`findById` result type.** `TaskService.getDTO` treats `findById` as
  returning an `Optional<Task>`, but `TaskRepository.findById` returns the
  task or `null`. Both are modelled as `Option`.
- **Order of failures.** When `Uni.combine().all()` joins several lookups and
  more than one fails, which failure wins depends on timing. The model takes
  the first failure in argument order, and the contracts state which
  failures are possible.
- **Null start date.** `getDTO` converts the start date with `LocalDate.from`,
  which throws on a task with no start date.
- **Lost birth date and position.** The employee view never sets a birth date,
  and `PositionService.getDTO(UUID)` builds the position view without its id.
  So writing a view back through `upsert` stores an unset birth date and, with
  the position lookup answering as `getDTO` does, no position
  (`ViewThenUpsert`, `ViewThenUpsertLosesPosition`).
- **Organization lookup.** `OrganizationService.get(String)` takes a string
  and answers with an `Optional<Organization>`, while `mapCommon` passes it
  the organization's UUID and calls `getId()` on the answer as if it were the
  organization. The model takes `organizationOf: Uuid -> Result<Organization>`:
  the lookup is by id and answers with the organization itself or a failure.

## Model

| member | source | states |
|---|---|---|
| Paging.Page | projects/src/main/java/io/kneo/projects/repository/TaskRepository.java:44-47 | a non-positive limit returns every row and ignores the offset; a positive limit with a negative offset fails; otherwise the result is the `min(limit, rows - offset)` rows starting at `offset`, in order |
| Paging.PagesConcatenate | projects/src/main/java/io/kneo/projects/repository/TaskRepository.java:45-47 | two consecutive pages of size `limit` are the page of size `2 * limit` |
| Paging.PagesCoverAll | projects/src/main/java/io/kneo/projects/repository/TaskRepository.java:45-47 | walking the pages from offset 0 with `offset += limit` yields every row once, in order |
| Paging.PageThenSuffix | projects/src/main/java/io/kneo/projects/repository/TaskRepository.java:45-47 | a page followed by the rows after it is the suffix the page starts at |
| Paging.PagesOfTwoScans | projects/src/main/java/io/kneo/projects/repository/TaskRepository.java:45-47 | two page queries that meet the same two rows in opposite orders return the first row twice and never the second |
| TaskRepository.From | projects/src/main/java/io/kneo/projects/repository/TaskRepository.java:84-106 | the entity read from a row carries the row's id and audit stamps, and no labels |
| TaskRepository.InsertedRow | projects/src/main/java/io/kneo/projects/repository/TaskRepository.java:109-132 | the inserted row has the generated id, the creator and the current time as author, modifier and both dates, and the start date as status date |
| TaskRepository.UpdatedRow | projects/src/main/java/io/kneo/projects/repository/TaskRepository.java:175-204 | an update keeps id, author, registration date and number, and stamps the editor, the time and the status date |
| TaskRepository.UpdatedTaskReadsBack | projects/src/main/java/io/kneo/projects/repository/TaskRepository.java:175-201 | re-reading an updated task gives the document's business columns (assignee, body, dates, priority, status, title, parent, project, task type, cancel comment) with the row's id, author, registration date and number kept and the editor's stamps |
| TaskRepository.LabelRows | projects/src/main/java/io/kneo/projects/repository/TaskRepository.java:150-165 | one label row per label, in the label list's order |
| TaskRepository.WithoutLabelsOf | projects/src/main/java/io/kneo/projects/repository/TaskRepository.java:214-217 | the remaining rows are exactly the rows of other tasks |
| TaskRepository.LabelStatements | projects/src/main/java/io/kneo/projects/repository/TaskRepository.java:154-164 | the per-label statements succeed exactly when every label is known, and then insert the label rows in order |
| TaskRepository.TaskStore.Insert | projects/src/main/java/io/kneo/projects/repository/TaskRepository.java:108-168 | with the user's id bound, succeeds exactly when the id is fresh, no readers row exists for the creator and every label is known; on success it stores the row, appends it to the scan order, gives the creator edit and delete rights, adds the label rows, and returns the task as the creator re-reads it; on failure nothing changes |
| TaskRepository.TaskStore.InsertBinding | projects/src/main/java/io/kneo/projects/repository/TaskRepository.java:108-168 | with the user's id bound, it behaves as `Insert`; with the user object bound, the first statement fails and nothing changes |
| TaskRepository.TaskStore.InsertAsWritten | projects/src/main/java/io/kneo/projects/repository/TaskRepository.java:113 | the insert as written, binding the user object, always fails with every relation unchanged |
| TaskRepository.InsertKeepsInvariant | projects/src/main/java/io/kneo/projects/repository/TaskRepository.java:136-149 | storing a row under a fresh id, listing it last and giving its creator a readers row keeps every task listed once, under its own id, with a readers row |
| TaskRepository.TaskStore.Update | projects/src/main/java/io/kneo/projects/repository/TaskRepository.java:170-244 | a user without the edit flag is refused; a missing task is not found; an unknown label fails; otherwise the row is updated, a non-empty label list replaces the task's labels and an empty one keeps them, and the re-read task is returned; on failure nothing changes |
| TaskRepository.VisibleRows | projects/src/main/java/io/kneo/projects/repository/TaskRepository.java:34-35 | every row of the reader join is a stored, listed task that has a readers row for the user, and every listed task with a readers row for the user is in the join |
| TaskRepository.VisibleRowsDistinct | projects/src/main/java/io/kneo/projects/repository/TaskRepository.java:43-44 | the join holds each task at most once |
| TaskRepository.GetAllOnlyVisible | projects/src/main/java/io/kneo/projects/repository/TaskRepository.java:43-53 | `getAll` returns only tasks the user may read, each read from its stored row, each at most once |
| TaskRepository.FullListOnlyVisible | projects/src/main/java/io/kneo/projects/repository/TaskRepository.java:43-53 | the unbounded list holds only tasks the user may read, each read from its stored row and listed once |
| TaskRepository.GetAllUnboundedComplete | projects/src/main/java/io/kneo/projects/repository/TaskRepository.java:45-47 | with a non-positive limit the offset is ignored and every visible task is returned |
| TaskRepository.GetAllIsWindow | projects/src/main/java/io/kneo/projects/repository/TaskRepository.java:45-47 | with a positive limit the result is the window of the full list starting at the offset, at most `limit` long |
| TaskRepository.FindByIdAgreesWithGetAll | projects/src/main/java/io/kneo/projects/repository/TaskRepository.java:68-81 | `findById` finds a task exactly when the user may read it, and then the task is in the user's full list |
| TaskRepository.ReplaceLabels | projects/src/main/java/io/kneo/projects/repository/TaskRepository.java:213-230 | after the replacement the label rows are exactly the other tasks' rows and one row per new label of the task |
| TaskRepository.TaskStore.CanEdit | projects/src/main/java/io/kneo/projects/repository/TaskRepository.java:171-173 | a user without a readers row for the task has no edit permission; edit permission is the readers row's edit flag |
| TaskRepository.TaskStore.GetAll | projects/src/main/java/io/kneo/projects/repository/TaskRepository.java:43-53 | a positive limit with a negative offset fails and every other page succeeds; every returned task is a task the user may read, read from its stored row; a non-positive limit returns every visible listed task |
| TaskRepository.TaskStore.FindById | projects/src/main/java/io/kneo/projects/repository/TaskRepository.java:68-81 | a task is found exactly when the user has a readers row for a stored task, and then it is the entity read from its row |
| TaskRepository.LabelSwap | projects/src/main/java/io/kneo/projects/repository/TaskRepository.java:213-230 | after a replacement the task carries exactly the new labels and every other task keeps its own |
| TaskRepository.SwapTwice | projects/src/main/java/io/kneo/projects/repository/TaskRepository.java:213-230 | only the last replacement determines the task's labels |
| TaskRepository.InsertedTaskReadsBack | projects/src/main/java/io/kneo/projects/repository/TaskRepository.java:166-167 | re-reading an inserted task gives the inserted document with the new id and the creator's stamps |
| Security.SecureDataEntity.GetReaders | core/src/main/java/com/semantyca/core/model/SecureDataEntity.java:12-14 | the entries are the map's values, one per distinct reader id ever added |
| Security.SecureDataEntity.AddReader | core/src/main/java/com/semantyca/core/model/SecureDataEntity.java:18-21 | the entry is put under its reader's id, other readers keep their entries, and the entity itself is returned |
| Security.PutCount | core/src/main/java/com/semantyca/core/model/SecureDataEntity.java:19 | one put adds a value exactly when it adds a key |
| Security.AfterAddsKeys | core/src/main/java/com/semantyca/core/model/SecureDataEntity.java:18-21 | after a series of adds every entry sits under its own reader id, and the keys are the added reader ids |
| Security.LastWriterWins | core/src/main/java/com/semantyca/core/model/SecureDataEntity.java:19 | a reader's entry is the last one added for that reader |
| Security.OthersUnchanged | core/src/main/java/com/semantyca/core/model/SecureDataEntity.java:19 | a reader none of the adds names keeps its entry |
| Security.ReaderCountAfterAdds | core/src/main/java/com/semantyca/core/model/SecureDataEntity.java:11-14 | the number of entries is the number of distinct reader ids added |
| EmployeeService.CommonView | officeframe/src/main/java/io/kneo/officeframe/service/EmployeeService.java:176-233 | the view fails exactly when a present department or organization lookup fails; a missing or failing position leaves the slot empty; department and organization are filled only when present; the scalar fields are copied |
| EmployeeService.MapCommon | officeframe/src/main/java/io/kneo/officeframe/service/EmployeeService.java:176-233 | filling the view slot by slot and joining the queued lookups gives that view |
| EmployeeService.Upsert | officeframe/src/main/java/io/kneo/officeframe/service/EmployeeService.java:130-150 | a form without department, organization or position fails with a null reference; without an id it is an insert, and with an id that does not parse it fails; the written employee carries the form's references and fields and no roles |
| EmployeeService.GetDtoQuery | officeframe/src/main/java/io/kneo/officeframe/service/EmployeeService.java:118-128 | `"current"` looks up the acting user and nothing else does; any other id must parse as a UUID |
| EmployeeService.ViewThenUpsert | officeframe/src/main/java/io/kneo/officeframe/service/EmployeeService.java:130-150 | writing back the view of a fully placed employee keeps its department, organization and descriptive fields, stores as position the id the position lookup put into the view, and unsets the birth date |
| EmployeeService.PositionView | officeframe/src/main/java/io/kneo/officeframe/service/PositionService.java:76-89 | the position view carries the position's identifier and localized names and no id |
| EmployeeService.ViewThenUpsertLosesPosition | officeframe/src/main/java/io/kneo/officeframe/service/EmployeeService.java:176-183 | with the position lookup answering as `PositionService.getDTO` does, writing back a fully placed employee's view stores no position and no birth date |
| EmployeeService.UnresolvedViewCannotBeWritten | officeframe/src/main/java/io/kneo/officeframe/service/EmployeeService.java:134-138 | the view of an employee with an unresolved position, department or organization cannot be written back |
| TaskService.LocalizedName | projects/src/main/java/io/kneo/projects/service/TaskService.java:162 | the task type's name in the given language, empty when absent |
| TaskService.RecoverNotFound | projects/src/main/java/io/kneo/projects/service/TaskService.java:81-82 | "not found" becomes an empty assignee, and every other failure stays |
| TaskService.Summary | projects/src/main/java/io/kneo/projects/service/TaskService.java:84-94 | the list entry carries id, author and modifier names, both dates, target date, priority, status and assignee |
| TaskService.Summaries | projects/src/main/java/io/kneo/projects/service/TaskService.java:76-99 | one entry per task in the same order, exactly when no assignee lookup fails other than "not found"; otherwise the failure of the first task whose lookup breaks |
| TaskService.GetAll | projects/src/main/java/io/kneo/projects/service/TaskService.java:72-101 | a failed repository read fails the list; otherwise the list is the per-task join |
| TaskService.ListShowsOnlyVisible | projects/src/main/java/io/kneo/projects/service/TaskService.java:72-101 | over the store, the list shows only tasks the user may read, each at most once |
| TaskService.GetDto | projects/src/main/java/io/kneo/projects/service/TaskService.java:132-174 | a malformed id, a failed or absent task, a failed lookup, a missing task type or a missing start date fails the view (an absent task and a missing task type fail with `NoValue`, a missing start date with `NullValue`; a failed lookup passes its own error); otherwise the view holds the task's fields, its project, task type, labels and access entries |
| TaskService.DetailOnlyForVisible | projects/src/main/java/io/kneo/projects/service/TaskService.java:133-149 | over the store, the detail view exists only for a task the user may read and shows the task asked for; a task the user may not read fails as absent |
| TaskService.BuildEntity | projects/src/main/java/io/kneo/projects/service/TaskService.java:188-208 | a missing assignee fails; a missing task type is a validation failure with "Task type is not correct"; otherwise label ids are kept in order, parent comes only from an existing task, target date only from the form, status is unset, and the registration number is a six-digit decimal that reads back as the random number |
| TaskService.BuiltTaskStoredAsSubmitted | projects/src/main/java/io/kneo/projects/service/TaskService.java:188-208 | a built task, once inserted, reads back with the form's contents, its assignee, task type, project and dates |
| Common.DecimalString | projects/src/main/java/io/kneo/projects/service/TaskService.java:190 | `String.valueOf` of a number is a non-empty string of digits with no leading zero |
| Common.ParseDecimalString | projects/src/main/java/io/kneo/projects/service/TaskService.java:190 | the decimal rendering reads back as the number |
| Common.DecimalLength | projects/src/main/java/io/kneo/projects/service/TaskService.java:190 | a `k`-digit number renders as `k` characters |
| Common.SixDigitsLength | projects/src/main/java/io/kneo/projects/service/TaskService.java:190 | a number in the random range 100000..999999 renders as six characters |
| ProjectRepository.StatusOf | projects/src/main/java/com/semantyca/projects/repository/ProjectRepository.java:42 | the status name parses exactly when it names a constant; otherwise the parse is an illegal argument |
| ProjectRepository.VisibleRows | projects/src/main/java/com/semantyca/projects/repository/ProjectRepository.java:32 | the join holds exactly the listed projects with a readers row for the user |
| ProjectRepository.ToDto | projects/src/main/java/com/semantyca/projects/repository/ProjectRepository.java:39-43 | a row maps to its id, name, status, finish date and an empty fifth field, exactly when its status name is known |
| ProjectRepository.ToDtos | projects/src/main/java/com/semantyca/projects/repository/ProjectRepository.java:36-44 | every row is mapped in order, and one unknown status fails the whole list |
| ProjectRepository.GetAll | projects/src/main/java/com/semantyca/projects/repository/ProjectRepository.java:31-45 | a non-positive limit maps every visible row; a positive limit with a negative offset fails; otherwise the rows of the window that starts at `offset` and holds at most `limit` of the visible rows are mapped |
| ProjectRepository.From | projects/src/main/java/com/semantyca/projects/repository/ProjectRepository.java:59-71 | the entity carries the row's fields, position 999, and manager, coder and tester from the manager, programmer and tester columns |
| ProjectRepository.FindById | projects/src/main/java/com/semantyca/projects/repository/ProjectRepository.java:47-53 | empty when the user may not read the project; otherwise the project read from its row |
| ProjectRepository.Insert | projects/src/main/java/com/semantyca/projects/repository/ProjectRepository.java:73-76 | returns the node's id and leaves the tables unchanged |
| ProjectRepository.Update | projects/src/main/java/com/semantyca/projects/repository/ProjectRepository.java:79-82 | returns its argument and leaves the tables unchanged |
| ProjectRepository.Delete | projects/src/main/java/com/semantyca/projects/repository/ProjectRepository.java:84-87 | reports one deleted row and leaves the tables unchanged |
| ProjectRepository.GetAllOnlyVisible | projects/src/main/java/com/semantyca/projects/repository/ProjectRepository.java:31-45 | every listed project has a readers row for the user and shows its stored name, status and finish date |
| ProjectRepository.FindByIdAgreesWithGetAll | projects/src/main/java/com/semantyca/projects/repository/ProjectRepository.java:47-53 | when every status name is known, `findById` finds exactly the projects the user may read, and each of them is in the full list |
| ProjectRepository.ConsecutivePages | projects/src/main/java/com/semantyca/projects/repository/ProjectRepository.java:33-35 | two consecutive list pages are the page twice their size |
| ProjectRepository.ToDtosConcat | projects/src/main/java/com/semantyca/projects/repository/ProjectRepository.java:36-44 | mapping splits over concatenation |

## Left out

- Asynchrony and concurrency (Mutiny `Uni`/`Multi`, `Uni.combine().all()`): lookups are sequential, and of several failures the first in argument order wins.
- SQL text, the `PgPool` client and `Tuple` building: the database is abstract relations, and a transaction either commits or leaves them unchanged.
- `TaskRepository.searchByCondition`: a raw SQL condition with no permission filter.
- `TaskRepository.delete` and `getAllCount`: they delegate to a base repository class that is not part of this model. `RLSRepository.findById` is not part of this model either; its answer is modelled as the edit flag of the readers row.
- The clock (`ZonedDateTime.now`, `LocalDate.now`), `NumberUtil.getRandomNumber`, `DateUtil.getStartOfDayOrNow` and `userRepository.getUserName`: each is a parameter.
- `TaskService.getTemplate`, `getAllCount` and `delete`, and the private `map`, which is never called: these are thin delegations.
- `TaskService.GetDto`: the access entries come from `getRLSDTO`, which is not part of this model. It is modelled as a lookup by task id. The project lookup's user argument is folded into the lookup function.
- `TaskService.LocalizedName`: `getLocalizedName`'s definition is not part of this model. It is modelled as a lookup in the localized-name map.
- `EmployeeService.getAll`, `search`, `getAllCount`, `getByIdentifier` and `delete`: repository delegations, or the same `mapCommon` applied to each element.
- `EmployeeService.add` and `update`: they return `null`.
- `EmployeeService.GetDtoQuery`: models the lookup `getDTO` dispatches to. The `mapCommon` applied to that lookup's answer is `MapCommon`.
- `EmployeeService.Upsert`: models the write `upsert` dispatches to. The `mapCommon` of the repository's answer is `MapCommon`.
- `ProjectRepository.findByValue`: it returns `null`.
- The `primaryLang` of a project built by `from` is left out. It is a default-constructed `Language`.
- ProjectRepository readers rows are a set of (reader, project) pairs, so a duplicated readers row is not modelled. The source would list such a project twice.
- Paging.PagesCoverAll, Paging.PagesConcatenate, TaskRepository.GetAllIsWindow and ProjectRepository.ConsecutivePages hold only under the one fixed row order the model gives every query. Without `ORDER BY`, each page in the source is a separate query with its own order, so walking the pages can skip or repeat rows (`Paging.PagesOfTwoScans`).
- Security.SecureDataEntity.GetReaders: `readers.values()` is a live view that later `addReader` calls show through. The model returns the set of entries at the time of the call.
- `ModuleService`, `PositionService` apart from `getDTO(UUID)` (modelled as `EmployeeService.PositionView`), `OrganizationService`, `UserService`, the `com.semantyca` `TaskService`, `Workspace`, `WorkspaceController`, `ProcessFeedback`: these are thin mappers, stubs, HTTP or JSON plumbing outside the core. `AnonymousUser` is not part of this model.
- Integer widths: ids, priorities and counters are unbounded integers. No operation in the core does arithmetic that could overflow.

## Findings

| source | as written | input that shows it | evidently intended | confidence | as-written member | corrected member |
|---|---|---|---|---|---|---|
| projects/src/main/java/io/kneo/projects/repository/TaskRepository.java:113 | `Tuple.of(nowTime, user, nowTime, user)` and `Tuple.of(user, id, 1, 1)` at :144 bind the `IUser` object where the bigint author, modifier and reader columns are expected | any insert: the client cannot encode the user object as a bigint, so the first statement fails and the transaction rolls back | bind `user.getId()`, as the re-read at :166 and the `update` statement at :203 do | high, not executed | TaskRepository.TaskStore.InsertAsWritten | TaskRepository.TaskStore.Insert |
| projects/src/main/java/io/kneo/projects/repository/TaskRepository.java:45-47 | `getAll` pages with `LIMIT`/`OFFSET` over a join without `ORDER BY` | two rows that the query for page 0 meets in one order and the query for page 1 meets in the other: with limit 1 the walk returns the first row twice and never the second | an `ORDER BY` on a fixed key, so that consecutive pages share one order | medium, not executed | Paging.PagesOfTwoScans | Paging.PagesCoverAll |
