/** The permission-filtered task store behind `TaskRepository`: the relations
    prj__tasks (id -> row), prj__task_readers ((reader, entity_id) -> flags)
    and prj__task_labels (rows of (task id, label id)), the visibility-filtered
    reads, and the two write transactions, each of which either commits a new
    state or fails and leaves the state as it was. */
module TaskRepository {
  import opened Common
  import Paging

  /** The `status_date` column: the start date on insert, the moment of the
      last update afterwards. */
  datatype StatusDate = NoStatusDate | OnDay(day: Day) | At(time: Instant)

  /** A row of prj__tasks. */
  datatype TaskRow = TaskRow(
    id: Uuid,
    regDate: Instant,
    author: UserId,
    lastModDate: Instant,
    lastModUser: UserId,
    assignee: UserId,
    body: string,
    targetDate: Option<Day>,
    priority: int,
    startDate: Option<Day>,
    status: Option<int>,
    title: string,
    parent: Option<Uuid>,
    project: Option<Uuid>,
    taskType: Option<Uuid>,
    regNumber: string,
    statusDate: StatusDate,
    cancelComment: string)

  /** The `Task` entity. The audit fields are unset on a task that was built
      from a form and not yet stored. */
  datatype Task = Task(
    id: Option<Uuid>,
    author: Option<UserId>,
    regDate: Option<Instant>,
    lastModifier: Option<UserId>,
    lastModifiedDate: Option<Instant>,
    status: Option<int>,
    body: string,
    assignee: UserId,
    parent: Option<Uuid>,
    cancellationComment: string,
    priority: int,
    project: Option<Uuid>,
    regNumber: string,
    startDate: Option<Day>,
    targetDate: Option<Day>,
    taskType: Option<Uuid>,
    title: string,
    labels: seq<Uuid>)

  /** The value bound for a user column: the user's id, or the user object
      itself, which the client cannot encode as a bigint. */
  datatype UserParam = IdParam(id: UserId) | UserObject(id: UserId)

  /** The flags of a prj__task_readers row. */
  datatype Access = Access(canEdit: bool, canDelete: bool)

  /** A row of prj__task_labels. */
  datatype LabelRow = LabelRow(taskId: Uuid, labelId: Uuid)

  /** The entity read from a joined row (`from`): every column is copied;
      labels are not loaded. */
  function From(row: TaskRow): (t: Task)
    ensures t.id == Some(row.id) && t.labels == []
    ensures t.author == Some(row.author) && t.lastModifier == Some(row.lastModUser)
    ensures t.regDate == Some(row.regDate) && t.lastModifiedDate == Some(row.lastModDate)
  {
    Task(
      id := Some(row.id),
      author := Some(row.author),
      regDate := Some(row.regDate),
      lastModifier := Some(row.lastModUser),
      lastModifiedDate := Some(row.lastModDate),
      status := row.status,
      body := row.body,
      assignee := row.assignee,
      parent := row.parent,
      cancellationComment := row.cancelComment,
      priority := row.priority,
      project := row.project,
      regNumber := row.regNumber,
      startDate := row.startDate,
      targetDate := row.targetDate,
      taskType := row.taskType,
      title := row.title,
      labels := [])
  }

  /** The row `insert` writes for `doc` under the generated id. */
  function InsertedRow(doc: Task, user: UserId, now: Instant, newId: Uuid): (row: TaskRow)
    ensures row.id == newId
    ensures row.regDate == now && row.lastModDate == now
    ensures row.author == user && row.lastModUser == user
    ensures row.statusDate == if doc.startDate.Some? then OnDay(doc.startDate.value) else NoStatusDate
  {
    TaskRow(
      id := newId,
      regDate := now,
      author := user,
      lastModDate := now,
      lastModUser := user,
      assignee := doc.assignee,
      body := doc.body,
      targetDate := doc.targetDate,
      priority := doc.priority,
      startDate := doc.startDate,
      status := doc.status,
      title := doc.title,
      parent := doc.parent,
      project := doc.project,
      taskType := doc.taskType,
      regNumber := doc.regNumber,
      statusDate := if doc.startDate.Some? then OnDay(doc.startDate.value) else NoStatusDate,
      cancelComment := doc.cancellationComment)
  }

  /** The row after `update`'s UPDATE statement: the business columns come
      from `doc`, the modification stamp from the editor and the clock. */
  function UpdatedRow(row: TaskRow, doc: Task, user: UserId, now: Instant): (r: TaskRow)
    ensures r.id == row.id && r.author == row.author
    ensures r.regDate == row.regDate && r.regNumber == row.regNumber
    ensures r.lastModUser == user && r.lastModDate == now && r.statusDate == At(now)
  {
    row.(
      assignee := doc.assignee,
      body := doc.body,
      targetDate := doc.targetDate,
      priority := doc.priority,
      startDate := doc.startDate,
      status := doc.status,
      title := doc.title,
      parent := doc.parent,
      project := doc.project,
      taskType := doc.taskType,
      statusDate := At(now),
      cancelComment := doc.cancellationComment,
      lastModDate := now,
      lastModUser := user)
  }

  /** The join of prj__tasks with prj__task_readers restricted to one reader,
      in the table's scan order. */
  function VisibleRows(order: seq<Uuid>, tasks: map<Uuid, TaskRow>,
                       readers: map<(UserId, Uuid), Access>, user: UserId): (rows: seq<TaskRow>)
    ensures forall row :: row in rows ==>
              exists i :: 0 <= i < |order| && order[i] in tasks && (user, order[i]) in readers && tasks[order[i]] == row
    ensures forall i :: 0 <= i < |order| && order[i] in tasks && (user, order[i]) in readers ==>
              tasks[order[i]] in rows
  {
    if order == [] then []
    else
      var rest := VisibleRows(order[1..], tasks, readers, user);
      assert forall i :: 1 <= i < |order| ==> order[i] == order[1..][i - 1];
      if order[0] in tasks && (user, order[0]) in readers then [tasks[order[0]]] + rest else rest
  }

  /** The entities `from` reads from a page of rows, one per row, in order. */
  function ReadRows(rows: seq<TaskRow>): (ts: seq<Task>)
    ensures |ts| == |rows|
    ensures forall i :: 0 <= i < |rows| ==> ts[i] == From(rows[i])
  {
    seq(|rows|, i requires 0 <= i < |rows| => From(rows[i]))
  }

  /** An entity read from the join is the entity of a listed task the
      reader has a readers row for. */
  lemma JoinedTaskSound(order: seq<Uuid>, tasks: map<Uuid, TaskRow>,
                        readers: map<(UserId, Uuid), Access>, user: UserId, t: Task)
    requires t in ReadRows(VisibleRows(order, tasks, readers, user))
    ensures exists id :: id in tasks && (user, id) in readers && t == From(tasks[id])
  {
    var rows := VisibleRows(order, tasks, readers, user);
    var all := ReadRows(rows);
    var k :| 0 <= k < |all| && all[k] == t;
    assert rows[k] in rows;
    var i :| 0 <= i < |order| && order[i] in tasks && (user, order[i]) in readers && tasks[order[i]] == rows[k];
    assert From(tasks[order[i]]) == t;
  }

  /** The entity of every listed task the reader has a readers row for is
      read from the join. */
  lemma JoinedTaskComplete(order: seq<Uuid>, tasks: map<Uuid, TaskRow>,
                           readers: map<(UserId, Uuid), Access>, user: UserId, i: int)
    requires 0 <= i < |order| && order[i] in tasks && (user, order[i]) in readers
    ensures From(tasks[order[i]]) in ReadRows(VisibleRows(order, tasks, readers, user))
  {
    var rows := VisibleRows(order, tasks, readers, user);
    var k :| 0 <= k < |rows| && rows[k] == tasks[order[i]];
    assert ReadRows(rows)[k] == From(tasks[order[i]]);
  }

  /** Every label id is a label the labels table knows (the foreign key). */
  predicate AllKnown(ls: seq<Uuid>, knownLabels: set<Uuid>) {
    forall i :: 0 <= i < |ls| ==> ls[i] in knownLabels
  }

  /** The label rows inserted for `ls`, one per element, in order. */
  function LabelRows(id: Uuid, ls: seq<Uuid>): (rows: seq<LabelRow>)
    ensures |rows| == |ls|
    ensures forall i :: 0 <= i < |ls| ==> rows[i] == LabelRow(id, ls[i])
  {
    seq(|ls|, i requires 0 <= i < |ls| => LabelRow(id, ls[i]))
  }

  /** `DELETE FROM prj__task_labels WHERE id = $1`. */
  function WithoutLabelsOf(rows: seq<LabelRow>, id: Uuid): (r: seq<LabelRow>)
    ensures forall x :: x in r <==> x in rows && x.taskId != id
  {
    if rows == [] then []
    else if rows[0].taskId == id then WithoutLabelsOf(rows[1..], id)
    else [rows[0]] + WithoutLabelsOf(rows[1..], id)
  }

  /** The label rows after `update` replaced the labels of `id` by `ls`. */
  function ReplaceLabels(rows: seq<LabelRow>, id: Uuid, ls: seq<Uuid>): (r: seq<LabelRow>)
    ensures forall x :: x in r <==> (x in rows && x.taskId != id) || (x.taskId == id && x.labelId in ls)
  {
    WithoutLabelsOf(rows, id) + LabelRows(id, ls)
  }

  /** The labels a task carries in the label rows. */
  function LabelSet(rows: seq<LabelRow>, id: Uuid): set<Uuid> {
    set x | x in rows && x.taskId == id :: x.labelId
  }

  /** The statements that insert one label row per label, run in the
      transaction of `insert` or `update`; `None` when one of them fails. */
  method LabelStatements(id: Uuid, ls: seq<Uuid>, knownLabels: set<Uuid>) returns (rows: Option<seq<LabelRow>>)
    ensures rows.Some? <==> AllKnown(ls, knownLabels)
    ensures rows.Some? ==> rows.value == LabelRows(id, ls)
  {
    var acc: seq<LabelRow> := [];
    for i := 0 to |ls|
      invariant |acc| == i
      invariant forall k :: 0 <= k < i ==> acc[k] == LabelRow(id, ls[k]) && ls[k] in knownLabels
    {
      if ls[i] !in knownLabels {
        return None;
      }
      acc := acc + [LabelRow(id, ls[i])];
    }
    return Some(acc);
  }

  /** The scan order lists every stored task once; each row is stored under
      its own id; no task is stored without a readers row. */
  ghost predicate StoreInvariant(tasks: map<Uuid, TaskRow>, order: seq<Uuid>, readers: map<(UserId, Uuid), Access>) {
    && (forall i :: 0 <= i < |order| ==> order[i] in tasks)
    && (forall id :: id in tasks ==> id in order)
    && (forall i, j :: 0 <= i < j < |order| ==> order[i] != order[j])
    && (forall id :: id in tasks ==> tasks[id].id == id)
    && (forall id :: id in tasks ==> exists u :: (u, id) in readers)
  }

  /** Storing a new row under a fresh id, listing it last and giving its
      creator a readers row keeps the invariant. */
  lemma InsertKeepsInvariant(tasks: map<Uuid, TaskRow>, order: seq<Uuid>, readers: map<(UserId, Uuid), Access>,
                             row: TaskRow, user: UserId, access: Access)
    requires StoreInvariant(tasks, order, readers) && row.id !in tasks
    ensures StoreInvariant(tasks[row.id := row], order + [row.id], readers[(user, row.id) := access])
  {
    var tasks', order', readers' := tasks[row.id := row], order + [row.id], readers[(user, row.id) := access];
    forall id | id in tasks' ensures exists u :: (u, id) in readers' {
      if id == row.id {
        assert (user, id) in readers';
      } else {
        var u :| (u, id) in readers;
        assert (u, id) in readers';
      }
    }
    forall id | id in tasks' ensures id in order' {
      if id != row.id {
        assert id in order;
      }
    }
  }

  class TaskStore {
    /** prj__tasks, by id. */
    var tasks: map<Uuid, TaskRow>
    /** The order in which a scan of prj__tasks meets the rows. */
    var order: seq<Uuid>
    /** prj__task_readers, keyed by (reader, entity_id). */
    var readers: map<(UserId, Uuid), Access>
    /** prj__task_labels. */
    var labels: seq<LabelRow>

    /** The store invariant of the current state. */
    ghost predicate Valid()
      reads this
    {
      StoreInvariant(tasks, order, readers)
    }

    constructor ()
      ensures Valid()
      ensures tasks == map[] && order == [] && readers == map[] && labels == []
    {
      tasks, order, readers, labels := map[], [], map[], [];
    }

    /** A task is visible to a user when a readers row joins it. */
    predicate Visible(user: UserId, id: Uuid)
      reads this
    {
      id in tasks && (user, id) in readers
    }

    /** The edit flag of the user's readers row; no row means no permission. */
    predicate CanEdit(user: UserId, id: Uuid)
      reads this
      ensures CanEdit(user, id) <==> (user, id) in readers && readers[(user, id)].canEdit
    {
      (user, id) in readers && readers[(user, id)].canEdit
    }

    predicate CanDelete(user: UserId, id: Uuid)
      reads this
    {
      (user, id) in readers && readers[(user, id)].canDelete
    }

    /** `getAll(limit, offset, userID)`. */
    function GetAll(limit: int, offset: int, userID: UserId): (r: Result<seq<Task>>)
      reads this
      ensures limit > 0 && offset < 0 ==> r == Failure(QueryFailed)
      ensures (limit <= 0 || offset >= 0) ==> r.Success?
      ensures r.Success? ==> forall t :: t in r.value ==> exists id :: Visible(userID, id) && t == From(tasks[id])
      ensures limit <= 0 ==> forall i :: 0 <= i < |order| && Visible(userID, order[i]) ==> From(tasks[order[i]]) in r.value
    {
      var rows := VisibleRows(order, tasks, readers, userID);
      var all := ReadRows(rows);
      var r := Paging.Page(all, limit, offset);
      Paging.PageWithin(all, limit, offset);
      assert r.Success? ==> forall t :: t in r.value ==> exists id :: Visible(userID, id) && t == From(tasks[id]) by {
        if r.Success? {
          forall t | t in r.value ensures exists id :: Visible(userID, id) && t == From(tasks[id]) {
            JoinedTaskSound(order, tasks, readers, userID, t);
            var id :| id in tasks && (userID, id) in readers && t == From(tasks[id]);
            assert Visible(userID, id);
          }
        }
      }
      assert limit <= 0 ==> forall i :: 0 <= i < |order| && Visible(userID, order[i]) ==> From(tasks[order[i]]) in r.value by {
        if limit <= 0 {
          forall i | 0 <= i < |order| && Visible(userID, order[i]) ensures From(tasks[order[i]]) in r.value {
            JoinedTaskComplete(order, tasks, readers, userID, i);
          }
        }
      }
      r
    }

    /** `findById(id, userID)`; `None` stands for the null the source returns. */
    function FindById(id: Uuid, userID: UserId): (r: Option<Task>)
      reads this
      ensures r.Some? <==> Visible(userID, id)
      ensures r.Some? ==> r.value == From(tasks[id])
    {
      if id in tasks && (userID, id) in readers then Some(From(tasks[id])) else None
    }

    /** The transaction of `insert` with `bound` as the value bound for the
        author, modifier and reader columns: the primary row, the owner's
        readers row and one label row per label, then the task re-read as its
        creator. `newId` is the id the database generates. */
    method InsertBinding(doc: Task, bound: UserParam, now: Instant, newId: Uuid, knownLabels: set<Uuid>)
      returns (r: Result<Option<Task>>)
      requires Valid()
      modifies this
      ensures Valid()
      ensures r.Success? <==>
        bound.IdParam? && newId !in old(tasks) && (bound.id, newId) !in old(readers) && AllKnown(doc.labels, knownLabels)
      ensures r.Success? ==>
        && tasks == old(tasks)[newId := InsertedRow(doc, bound.id, now, newId)]
        && order == old(order) + [newId]
        && readers == old(readers)[(bound.id, newId) := Access(true, true)]
        && labels == old(labels) + LabelRows(newId, doc.labels)
        && CanEdit(bound.id, newId) && CanDelete(bound.id, newId)
        && r.value == FindById(newId, bound.id)
        && r.value == Some(From(InsertedRow(doc, bound.id, now, newId)))
      ensures r.Failure? ==>
        && r.error == QueryFailed
        && tasks == old(tasks) && order == old(order)
        && readers == old(readers) && labels == old(labels)
    {
      var user := bound.id;
      // INSERT INTO prj__tasks ... RETURNING id: the client cannot encode a
      // user object as a bigint, and a taken id violates the key
      if !bound.IdParam? || newId in tasks {
        return Failure(QueryFailed);
      }
      var row := InsertedRow(doc, user, now, newId);
      // INSERT INTO prj__task_readers(reader, entity_id, can_edit, can_delete)
      if (user, newId) in readers {
        return Failure(QueryFailed);
      }
      // INSERT INTO prj__task_labels(id, label_id), once per label
      var rows := LabelStatements(newId, doc.labels, knownLabels);
      if rows.None? {
        return Failure(QueryFailed);
      }
      // commit
      InsertKeepsInvariant(tasks, order, readers, row, user, Access(true, true));
      tasks := tasks[newId := row];
      order := order + [newId];
      readers := readers[(user, newId) := Access(true, true)];
      labels := labels + rows.value;
      assert (user, newId) in readers;
      r := Success(FindById(newId, user));
    }

    /** `insert(doc, user)` with the user's id bound for the author,
        modifier and reader columns, as the re-read by `user.getId()` and the
        `update` statement bind it. */
    method Insert(doc: Task, user: UserId, now: Instant, newId: Uuid, knownLabels: set<Uuid>)
      returns (r: Result<Option<Task>>)
      requires Valid()
      modifies this
      ensures Valid()
      ensures r.Success? <==>
        newId !in old(tasks) && (user, newId) !in old(readers) && AllKnown(doc.labels, knownLabels)
      ensures r.Success? ==>
        && tasks == old(tasks)[newId := InsertedRow(doc, user, now, newId)]
        && order == old(order) + [newId]
        && readers == old(readers)[(user, newId) := Access(true, true)]
        && labels == old(labels) + LabelRows(newId, doc.labels)
        && CanEdit(user, newId) && CanDelete(user, newId)
        && r.value == FindById(newId, user)
        && r.value == Some(From(InsertedRow(doc, user, now, newId)))
      ensures r.Failure? ==>
        && r.error == QueryFailed
        && tasks == old(tasks) && order == old(order)
        && readers == old(readers) && labels == old(labels)
    {
      r := InsertBinding(doc, IdParam(user), now, newId, knownLabels);
    }

    /** `insert(doc, user)` as written: `Tuple.of(nowTime, user, nowTime, user)`
        binds the user object itself where the bigint author and modifier
        columns are expected, so the first statement fails, the transaction
        rolls back and nothing is re-read. */
    method InsertAsWritten(doc: Task, user: UserId, now: Instant, newId: Uuid, knownLabels: set<Uuid>)
      returns (r: Result<Option<Task>>)
      requires Valid()
      modifies this
      ensures Valid()
      ensures r == Failure(QueryFailed)
      ensures tasks == old(tasks) && order == old(order) && readers == old(readers) && labels == old(labels)
    {
      r := InsertBinding(doc, UserObject(user), now, newId, knownLabels);
    }

    /** `update(id, doc, user)`: the edit flag is checked first, then the
        UPDATE statement must hit a row; a non-empty label list replaces the
        task's labels wholesale in the same transaction. Afterwards the task is
        re-read as the editor. */
    method Update(id: Uuid, doc: Task, user: UserId, now: Instant, knownLabels: set<Uuid>)
      returns (r: Result<Option<Task>>)
      requires Valid()
      modifies this
      ensures Valid()
      ensures !old(CanEdit(user, id)) ==> r == Failure(AccessDenied)
      ensures old(CanEdit(user, id)) && id !in old(tasks) ==> r == Failure(NotFound)
      ensures (old(CanEdit(user, id)) && id in old(tasks) && doc.labels != []
               && !AllKnown(doc.labels, knownLabels)) ==> r == Failure(QueryFailed)
      ensures r.Success? <==>
        old(CanEdit(user, id)) && id in old(tasks) && (doc.labels == [] || AllKnown(doc.labels, knownLabels))
      ensures r.Failure? ==>
        tasks == old(tasks) && order == old(order) && readers == old(readers) && labels == old(labels)
      ensures r.Success? ==>
        && tasks == old(tasks)[id := UpdatedRow(old(tasks)[id], doc, user, now)]
        && order == old(order) && readers == old(readers)
        && labels == (if doc.labels == [] then old(labels) else ReplaceLabels(old(labels), id, doc.labels))
        && r.value == FindById(id, user)
        && r.value == Some(From(UpdatedRow(old(tasks)[id], doc, user, now)))
    {
      if !CanEdit(user, id) {
        return Failure(AccessDenied);
      }
      // UPDATE prj__tasks SET ... WHERE id = $15: zero rows affected
      if id !in tasks {
        return Failure(NotFound);
      }
      var row := UpdatedRow(tasks[id], doc, user, now);
      var newLabels := labels;
      if doc.labels != [] {
        var rows := LabelStatements(id, doc.labels, knownLabels);
        if rows.None? {
          return Failure(QueryFailed);
        }
        newLabels := WithoutLabelsOf(labels, id) + rows.value;
      }
      // commit
      tasks := tasks[id := row];
      labels := newLabels;
      r := Success(FindById(id, user));
    }
  }

  /** No two rows carry the same id. */
  predicate DistinctIds(rows: seq<TaskRow>) {
    forall i, j :: 0 <= i < j < |rows| ==> rows[i].id != rows[j].id
  }

  /** The join has one row per visible task: no two rows carry the same id. */
  lemma {:induction false} VisibleRowsDistinct(order: seq<Uuid>, tasks: map<Uuid, TaskRow>,
                                               readers: map<(UserId, Uuid), Access>, user: UserId)
    requires forall i, j :: 0 <= i < j < |order| ==> order[i] != order[j]
    requires forall id :: id in tasks ==> tasks[id].id == id
    ensures DistinctIds(VisibleRows(order, tasks, readers, user))
  {
    if order != [] {
      var tail := order[1..];
      assert forall i, j :: 0 <= i < j < |tail| ==> tail[i] != tail[j] by {
        forall i, j | 0 <= i < j < |tail| ensures tail[i] != tail[j] {
          assert tail[i] == order[i + 1] && tail[j] == order[j + 1];
        }
      }
      VisibleRowsDistinct(tail, tasks, readers, user);
      var rest := VisibleRows(tail, tasks, readers, user);
      if order[0] in tasks && (user, order[0]) in readers {
        forall j | 0 <= j < |rest| ensures rest[j].id != order[0] {
          assert rest[j] in rest;
          var k :| 0 <= k < |tail| && tail[k] in tasks && (user, tail[k]) in readers && tasks[tail[k]] == rest[j];
          assert tail[k] == order[k + 1];
        }
        var rows := [tasks[order[0]]] + rest;
        assert rows[0].id == order[0];
        forall i, j | 0 <= i < j < |rows| ensures rows[i].id != rows[j].id {
          if i > 0 {
            assert rows[i] == rest[i - 1] && rows[j] == rest[j - 1];
          } else {
            assert rows[j] == rest[j - 1];
          }
        }
      }
    }
  }

  /** `getAll` returns only tasks the user has a readers row for, each read
      from its stored row, each at most once. */
  lemma GetAllOnlyVisible(s: TaskStore, limit: int, offset: int, user: UserId)
    requires s.Valid()
    ensures var r := s.GetAll(limit, offset, user);
            r.Success? ==>
              && (forall t :: t in r.value ==>
                    t.id.Some? && s.Visible(user, t.id.value) && t == From(s.tasks[t.id.value]))
              && (forall i, j :: 0 <= i < j < |r.value| ==> r.value[i].id != r.value[j].id)
  {
    FullListOnlyVisible(s, user);
    var all := s.GetAll(0, 0, user).value;
    var r := s.GetAll(limit, offset, user);
    if r.Success? && limit > 0 {
      forall k | 0 <= k < |r.value| ensures r.value[k] == all[offset + k] && r.value[k] in all {
      }
      forall i, j | 0 <= i < j < |r.value| ensures r.value[i].id != r.value[j].id {
        assert r.value[i] == all[offset + i] && r.value[j] == all[offset + j];
      }
    }
  }

  /** The unbounded `getAll`: the visible tasks, each once. */
  lemma FullListOnlyVisible(s: TaskStore, user: UserId)
    requires s.Valid()
    ensures s.GetAll(0, 0, user).Success?
    ensures var all := s.GetAll(0, 0, user).value;
              && (forall t :: t in all ==>
                    t.id.Some? && s.Visible(user, t.id.value) && t == From(s.tasks[t.id.value]))
              && (forall i, j :: 0 <= i < j < |all| ==> all[i].id != all[j].id)
  {
    var rows := VisibleRows(s.order, s.tasks, s.readers, user);
    var all := ReadRows(rows);
    assert s.GetAll(0, 0, user).value == all;
    VisibleRowsDistinct(s.order, s.tasks, s.readers, user);
    forall i, j | 0 <= i < j < |all| ensures all[i].id != all[j].id {
      assert all[i].id == Some(rows[i].id) && all[j].id == Some(rows[j].id);
    }
    forall t | t in all
      ensures t.id.Some? && s.Visible(user, t.id.value) && t == From(s.tasks[t.id.value])
    {
      var k :| 0 <= k < |all| && all[k] == t;
      assert rows[k] in rows;
    }
  }

  /** With `limit <= 0` the offset is ignored and every visible task is returned. */
  lemma GetAllUnboundedComplete(s: TaskStore, limit: int, offset: int, user: UserId, id: Uuid)
    requires s.Valid() && limit <= 0
    ensures s.GetAll(limit, offset, user) == s.GetAll(0, 0, user)
    ensures s.Visible(user, id) ==> From(s.tasks[id]) in s.GetAll(limit, offset, user).value
  {
    if s.Visible(user, id) {
      var i :| 0 <= i < |s.order| && s.order[i] == id;
      var rows := VisibleRows(s.order, s.tasks, s.readers, user);
      var k :| 0 <= k < |rows| && rows[k] == s.tasks[id];
      var all := ReadRows(rows);
      assert all[k] == From(s.tasks[id]);
    }
  }

  /** With `limit > 0` the result is the window of the visible tasks that
      starts at `offset` and holds at most `limit` of them. */
  lemma GetAllIsWindow(s: TaskStore, limit: int, offset: int, user: UserId)
    requires limit > 0
    ensures offset < 0 ==> s.GetAll(limit, offset, user) == Failure(QueryFailed)
    ensures offset >= 0 ==>
      var all := s.GetAll(0, 0, user).value;
      var r := s.GetAll(limit, offset, user);
      r.Success? && |r.value| <= limit
      && r.value == (if offset >= |all| then [] else all[offset..Min(offset + limit, |all|)])
  {
  }

  /** `findById` agrees with the unbounded `getAll`: it finds a task exactly
      when that task is in the user's list. */
  lemma FindByIdAgreesWithGetAll(s: TaskStore, id: Uuid, user: UserId)
    requires s.Valid()
    ensures s.GetAll(0, 0, user).Success?
    ensures s.FindById(id, user).Some? <==> s.Visible(user, id)
    ensures s.FindById(id, user).Some? ==> s.FindById(id, user).value in s.GetAll(0, 0, user).value
    ensures (exists t :: t in s.GetAll(0, 0, user).value && t.id == Some(id)) ==> s.FindById(id, user).Some?
  {
    GetAllOnlyVisible(s, 0, 0, user);
    GetAllUnboundedComplete(s, 0, 0, user, id);
  }

  /** After a label swap the task carries exactly the new labels, and every
      other task keeps its labels. */
  lemma LabelSwap(rows: seq<LabelRow>, id: Uuid, ls: seq<Uuid>)
    ensures LabelSet(ReplaceLabels(rows, id, ls), id) == Elements(ls)
    ensures forall other :: other != id ==> LabelSet(ReplaceLabels(rows, id, ls), other) == LabelSet(rows, other)
  {
  }

  /** Replacing the labels by {a, b} and then by {c} leaves exactly {c}. */
  lemma SwapTwice(rows: seq<LabelRow>, id: Uuid, first: seq<Uuid>, second: seq<Uuid>)
    ensures LabelSet(ReplaceLabels(ReplaceLabels(rows, id, first), id, second), id) == Elements(second)
  {
    LabelSwap(ReplaceLabels(rows, id, first), id, second);
  }

  /** Reading back a freshly inserted task gives the business fields of the
      document it was inserted from, stamped with its author and time. */
  lemma InsertedTaskReadsBack(doc: Task, user: UserId, now: Instant, newId: Uuid)
    ensures var t := From(InsertedRow(doc, user, now, newId));
      && t.id == Some(newId) && t.author == Some(user) && t.lastModifier == Some(user)
      && t.regDate == Some(now) && t.lastModifiedDate == Some(now)
      && t == doc.(id := Some(newId), author := Some(user), lastModifier := Some(user),
                   regDate := Some(now), lastModifiedDate := Some(now), labels := [])
  {
  }

  /** Reading back an updated task gives the business fields of the document
      it was updated from, with the row's identity and registration kept and
      the editor's stamps. */
  lemma UpdatedTaskReadsBack(row: TaskRow, doc: Task, user: UserId, now: Instant)
    ensures From(UpdatedRow(row, doc, user, now))
            == doc.(id := Some(row.id), author := Some(row.author), regDate := Some(row.regDate),
                    regNumber := row.regNumber, lastModifier := Some(user), lastModifiedDate := Some(now),
                    labels := [])
  {
  }
}
