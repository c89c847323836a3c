/** `ProjectRepository` (the older project store): visibility-filtered reads
    of prj__projects joined with prj__project_readers, the row mapping with
    its status-name parse, and the write operations, which are stubs that
    leave the tables as they are. */
module ProjectRepository {
  import opened Common
  import Paging

  /** A row of prj__projects. */
  datatype ProjectRow = ProjectRow(
    id: Uuid,
    name: string,
    status: string,
    finishDate: Option<Day>,
    manager: Option<int>,
    programmer: Option<int>,
    tester: Option<int>)

  /** A constant of `ProjectStatusType`, by name. */
  datatype ProjectStatus = ProjectStatus(name: string)

  /** The `ProjectDTO` of the list: id, name, status, finish date and an
      empty fifth field. */
  datatype ProjectDto = ProjectDto(id: Uuid, name: string, status: ProjectStatus,
                                   finishDate: Option<Day>, extra: string)

  /** The `Project` entity `from` builds. */
  datatype Project = Project(
    id: Uuid,
    name: string,
    status: ProjectStatus,
    finishDate: Option<Day>,
    position: int,
    manager: Option<int>,
    coder: Option<int>,
    tester: Option<int>)

  /** The two relations: projects by id in scan order, and (reader, project)
      pairs. */
  datatype ProjectTables = ProjectTables(
    projects: map<Uuid, ProjectRow>,
    order: seq<Uuid>,
    readers: set<(UserId, Uuid)>)

  /** Every project is listed once in the scan order under its own id. */
  ghost predicate WellFormed(t: ProjectTables) {
    && (forall id :: id in t.projects ==> t.projects[id].id == id)
    && Elements(t.order) == t.projects.Keys
    && forall i, j :: 0 <= i < j < |t.order| ==> t.order[i] != t.order[j]
  }

  /** The position `from` gives every project. */
  const DefaultPosition := 999

  predicate Visible(t: ProjectTables, user: UserId, id: Uuid) {
    id in t.projects && (user, id) in t.readers
  }

  /** `ProjectStatusType.valueOf(name)`: the constant of that name, or an
      `IllegalArgumentException`. */
  function StatusOf(name: string, statusNames: set<string>): (r: Result<ProjectStatus>)
    ensures r.Success? <==> name in statusNames
    ensures r.Success? ==> r.value.name == name
    ensures r.Failure? ==> r.error == IllegalArgument
  {
    if name in statusNames then Success(ProjectStatus(name)) else Failure(IllegalArgument)
  }

  /** The rows of the join for one reader, in scan order. */
  function VisibleRows(t: ProjectTables, order: seq<Uuid>, user: UserId): (rows: seq<ProjectRow>)
    ensures forall r :: r in rows ==>
              exists i :: 0 <= i < |order| && Visible(t, user, order[i]) && r == t.projects[order[i]]
    ensures forall i :: 0 <= i < |order| && Visible(t, user, order[i]) ==> t.projects[order[i]] in rows
  {
    if order == [] then []
    else
      var rest := VisibleRows(t, order[1..], user);
      assert forall i :: 1 <= i < |order| ==> order[i] == order[1..][i - 1];
      if Visible(t, user, order[0]) then [t.projects[order[0]]] + rest else rest
  }

  /** The list entry of one row. */
  function ToDto(row: ProjectRow, statusNames: set<string>): (r: Result<ProjectDto>)
    ensures r.Success? <==> row.status in statusNames
    ensures r.Failure? ==> r.error == IllegalArgument
    ensures r.Success? ==> r.value == ProjectDto(row.id, row.name, ProjectStatus(row.status), row.finishDate, "")
  {
    var status :- StatusOf(row.status, statusNames);
    Success(ProjectDto(row.id, row.name, status, row.finishDate, ""))
  }

  /** The rows mapped one by one; a row with an unknown status fails the
      whole list. */
  function ToDtos(rows: seq<ProjectRow>, statusNames: set<string>): (r: Result<seq<ProjectDto>>)
    ensures r.Success? <==> forall i :: 0 <= i < |rows| ==> rows[i].status in statusNames
    ensures r.Failure? ==> r.error == IllegalArgument
    ensures r.Success? ==>
      && |r.value| == |rows|
      && forall i :: 0 <= i < |rows| ==> Success(r.value[i]) == ToDto(rows[i], statusNames)
  {
    if rows == [] then Success([])
    else
      var head :- ToDto(rows[0], statusNames);
      var rest :- ToDtos(rows[1..], statusNames);
      assert forall i :: 1 <= i < |rows| ==> rows[i] == rows[1..][i - 1];
      Success([head] + rest)
  }

  /** `getAll(limit, offset, userID)`: the database applies the page to the
      joined rows, then each returned row is mapped. */
  function GetAll(t: ProjectTables, limit: int, offset: int, userID: UserId, statusNames: set<string>)
    : (r: Result<seq<ProjectDto>>)
    ensures limit > 0 && offset < 0 ==> r == Failure(QueryFailed)
    ensures limit <= 0 ==> r == ToDtos(VisibleRows(t, t.order, userID), statusNames)
    ensures limit > 0 && offset >= 0 ==>
      var rows := VisibleRows(t, t.order, userID);
      r == ToDtos(if offset >= |rows| then [] else rows[offset..Min(offset + limit, |rows|)], statusNames)
  {
    var page :- Paging.Page(VisibleRows(t, t.order, userID), limit, offset);
    ToDtos(page, statusNames)
  }

  /** `from(row)`. */
  function From(row: ProjectRow, statusNames: set<string>): (r: Result<Project>)
    ensures r.Success? <==> row.status in statusNames
    ensures r.Failure? ==> r.error == IllegalArgument
    ensures r.Success? ==>
      && r.value.id == row.id && r.value.name == row.name && r.value.status.name == row.status
      && r.value.finishDate == row.finishDate
      && r.value.position == DefaultPosition
      && r.value.manager == row.manager && r.value.coder == row.programmer && r.value.tester == row.tester
  {
    var status :- StatusOf(row.status, statusNames);
    Success(Project(row.id, row.name, status, row.finishDate, DefaultPosition,
                    row.manager, row.programmer, row.tester))
  }

  /** `findById(uuid, userID)`: the project when the user has a readers row
      for it, otherwise empty. */
  function FindById(t: ProjectTables, id: Uuid, userID: UserId, statusNames: set<string>)
    : (r: Result<Option<Project>>)
    ensures !Visible(t, userID, id) ==> r == Success(None)
    ensures Visible(t, userID, id) ==>
      (r.Success? <==> t.projects[id].status in statusNames) &&
      (r.Success? ==> r.value.Some? && Success(r.value.value) == From(t.projects[id], statusNames))
  {
    if Visible(t, userID, id) then
      var p :- From(t.projects[id], statusNames);
      Success(Some(p))
    else Success(None)
  }

  /** `insert(node, user)`: returns the node's id and writes nothing. */
  function Insert(t: ProjectTables, node: Project, user: UserId): (r: (ProjectTables, Uuid))
    ensures r.0 == t && r.1 == node.id
  {
    (t, node.id)
  }

  /** `update(node)`: returns its argument and writes nothing. */
  function Update<N>(t: ProjectTables, node: N): (r: (ProjectTables, N))
    ensures r.0 == t && r.1 == node
  {
    (t, node)
  }

  /** `delete(id)`: reports one deleted row and deletes nothing. */
  function Delete(t: ProjectTables, id: int): (r: (ProjectTables, int))
    ensures r.0 == t && r.1 == 1
  {
    (t, 1)
  }

  /** Every listed project is one the user has a readers row for, shown as
      its stored row with its status name. */
  lemma GetAllOnlyVisible(t: ProjectTables, limit: int, offset: int, user: UserId, statusNames: set<string>)
    requires WellFormed(t)
    ensures var r := GetAll(t, limit, offset, user, statusNames);
      r.Success? ==> forall p :: p in r.value ==>
        && Visible(t, user, p.id)
        && p.name == t.projects[p.id].name
        && p.status.name == t.projects[p.id].status
        && p.finishDate == t.projects[p.id].finishDate
  {
    var rows := VisibleRows(t, t.order, user);
    var page := Paging.Page(rows, limit, offset);
    var r := GetAll(t, limit, offset, user, statusNames);
    if r.Success? {
      assert page.Success? && r == ToDtos(page.value, statusNames);
      forall p | p in r.value
        ensures Visible(t, user, p.id) && p.name == t.projects[p.id].name
        ensures p.status.name == t.projects[p.id].status && p.finishDate == t.projects[p.id].finishDate
      {
        var k :| 0 <= k < |r.value| && r.value[k] == p;
        var row := page.value[k];
        assert Success(p) == ToDto(row, statusNames);
        if limit > 0 {
          assert row == rows[offset + k];
        }
        assert row in rows;
        var i :| 0 <= i < |t.order| && Visible(t, user, t.order[i]) && row == t.projects[t.order[i]];
        assert row.id == t.order[i];
      }
    }
  }

  /** With every status name known, the unbounded list holds each project
      the user may read; `findById` finds exactly those. */
  lemma FindByIdAgreesWithGetAll(t: ProjectTables, id: Uuid, user: UserId, statusNames: set<string>)
    requires WellFormed(t)
    requires forall k :: k in t.projects ==> t.projects[k].status in statusNames
    ensures GetAll(t, 0, 0, user, statusNames).Success?
    ensures FindById(t, id, user, statusNames).Success?
    ensures FindById(t, id, user, statusNames).value.Some? <==> Visible(t, user, id)
    ensures Visible(t, user, id) ==>
      exists p :: p in GetAll(t, 0, 0, user, statusNames).value && p.id == id
  {
    var rows := VisibleRows(t, t.order, user);
    forall i | 0 <= i < |rows| ensures rows[i].status in statusNames {
      assert rows[i] in rows;
    }
    var all := GetAll(t, 0, 0, user, statusNames);
    assert all == ToDtos(rows, statusNames);
    if Visible(t, user, id) {
      assert id in Elements(t.order);
      var i :| 0 <= i < |t.order| && t.order[i] == id;
      assert t.projects[t.order[i]] in rows;
      var k :| 0 <= k < |rows| && rows[k] == t.projects[id];
      assert Success(all.value[k]) == ToDto(rows[k], statusNames);
      assert all.value[k] in all.value && all.value[k].id == id;
    }
  }

  /** A list page and the next page of the same size, taken one after the
      other, are the rows of the page twice that size. */
  lemma ConsecutivePages(t: ProjectTables, limit: int, offset: int, user: UserId, statusNames: set<string>)
    requires limit > 0 && offset >= 0
    requires GetAll(t, 2 * limit, offset, user, statusNames).Success?
    ensures GetAll(t, limit, offset, user, statusNames).Success?
    ensures GetAll(t, limit, offset + limit, user, statusNames).Success?
    ensures GetAll(t, limit, offset, user, statusNames).value + GetAll(t, limit, offset + limit, user, statusNames).value
            == GetAll(t, 2 * limit, offset, user, statusNames).value
  {
    var rows := VisibleRows(t, t.order, user);
    Paging.PagesConcatenate(rows, limit, offset);
    var a, b := Paging.Page(rows, limit, offset).value, Paging.Page(rows, limit, offset + limit).value;
    ToDtosConcat(a, b, statusNames);
  }

  lemma ToDtosConcat(a: seq<ProjectRow>, b: seq<ProjectRow>, statusNames: set<string>)
    requires ToDtos(a + b, statusNames).Success?
    ensures ToDtos(a, statusNames).Success? && ToDtos(b, statusNames).Success?
    ensures ToDtos(a, statusNames).value + ToDtos(b, statusNames).value == ToDtos(a + b, statusNames).value
  {
    var ab := a + b;
    assert forall i :: 0 <= i < |a| ==> a[i] == ab[i];
    assert forall i :: 0 <= i < |b| ==> b[i] == ab[|a| + i];
    var left, right, both := ToDtos(a, statusNames).value, ToDtos(b, statusNames).value, ToDtos(ab, statusNames).value;
    forall i | 0 <= i < |both| ensures (left + right)[i] == both[i] {
      if i < |a| {
        assert Success(left[i]) == ToDto(ab[i], statusNames) == Success(both[i]);
      } else {
        assert Success(right[i - |a|]) == ToDto(ab[i], statusNames) == Success(both[i]);
      }
    }
  }
}
