/** `TaskService`: the list view of the user's tasks with its recoverable
    assignee slot, the detail view with its required slots, and the entity
    built from a submitted form. Every collaborator's answer is a parameter. */
module TaskService {
  import opened Common
  import opened TaskRepository
  import opened EmployeeService

  /** The `TaskDTO` of the list view. */
  datatype TaskSummary = TaskSummary(
    id: Option<Uuid>,
    author: Option<string>,
    regDate: Option<Instant>,
    lastModifier: Option<string>,
    lastModifiedDate: Option<Instant>,
    targetDate: Option<Day>,
    priority: int,
    status: Option<int>,
    assignee: Option<EmployeeDto>)

  /** The project view `projectService.get` answers with. */
  datatype ProjectDto = ProjectDto(id: Option<Uuid>, name: string)

  /** The `TaskType` entity. */
  datatype TaskType = TaskType(id: Uuid, identifier: string, localizedName: LocalizedNames)

  datatype TaskTypeDto = TaskTypeDto(identifier: string, localizedName: Option<string>)

  /** The `TaskDTO` of the detail view; labels and access entries are passed
      through as the label and RLS services give them. */
  datatype TaskDetail<L, R> = TaskDetail(
    id: Option<Uuid>,
    author: Option<string>,
    regDate: Option<Instant>,
    title: string,
    lastModifier: Option<string>,
    lastModifiedDate: Option<Instant>,
    regNumber: string,
    body: string,
    taskType: TaskTypeDto,
    project: ProjectDto,
    startDate: Day,
    targetDate: Option<Day>,
    status: Option<int>,
    priority: int,
    labels: seq<L>,
    rls: seq<R>)

  /** The fields of a submitted `TaskDTO` that `buildEntity` reads. */
  datatype TaskForm = TaskForm(
    body: string,
    priority: int,
    cancellationComment: string,
    title: string,
    startDate: Option<Day>,
    targetDate: Option<Day>)

  /** A `Label` entity, of which only the id is used. */
  datatype Label = Label(id: Uuid, identifier: string)

  /** The language the task type's name is given in. */
  const EnglishCode: string := "ENG"

  /** `getLocalizedName(code)`: the name in that language, null when absent. */
  function LocalizedName(names: LocalizedNames, code: string): (r: Option<string>)
    ensures r.Some? <==> code in names
    ensures r.Some? ==> r.value == names[code]
  {
    if code in names then Some(names[code]) else None
  }

  /** The assignee slot of the list view: an employee who is not found
      leaves it empty, any other failure stays a failure. */
  function RecoverNotFound(e: Result<EmployeeDto>): (r: Result<Option<EmployeeDto>>)
    ensures r.Success? <==> e.Success? || e.error == NotFound
    ensures e.Success? ==> r == Success(Some(e.value))
    ensures e == Failure(NotFound) ==> r == Success(None)
    ensures r.Failure? ==> e == Failure(r.error) && r.error != NotFound
  {
    match e
    case Success(v) => Success(Some(v))
    case Failure(NotFound) => Success(None)
    case Failure(err) => Failure(err)
  }

  /** The list view of one task with its (recovered) assignee. */
  function Summary(doc: Task, assignee: Option<EmployeeDto>, userName: UserId -> string): (s: TaskSummary)
    ensures s.id == doc.id && s.assignee == assignee
    ensures s.author == NameOf(userName, doc.author) && s.lastModifier == NameOf(userName, doc.lastModifier)
    ensures s.regDate == doc.regDate && s.lastModifiedDate == doc.lastModifiedDate
    ensures s.targetDate == doc.targetDate && s.priority == doc.priority && s.status == doc.status
  {
    TaskSummary(doc.id, NameOf(userName, doc.author), doc.regDate,
                NameOf(userName, doc.lastModifier), doc.lastModifiedDate,
                doc.targetDate, doc.priority, doc.status, assignee)
  }

  /** The assignee lookup of one task fails with something other than "not found". */
  predicate LookupBreaks(employeeById: UserId -> Result<EmployeeDto>, doc: Task) {
    RecoverNotFound(employeeById(doc.assignee)).Failure?
  }

  /** The join of the per-task assignee lookups: one summary per task, in
      order, or the failure of the first lookup that does not recover. */
  function Summaries(tasks: seq<Task>, employeeById: UserId -> Result<EmployeeDto>,
                     userName: UserId -> string): (r: Result<seq<TaskSummary>>)
    ensures r.Success? <==> forall i :: 0 <= i < |tasks| ==> !LookupBreaks(employeeById, tasks[i])
    ensures r.Success? ==>
      && |r.value| == |tasks|
      && forall i :: 0 <= i < |tasks| ==>
           r.value[i] == Summary(tasks[i], RecoverNotFound(employeeById(tasks[i].assignee)).value, userName)
    ensures r.Failure? ==>
      exists i :: 0 <= i < |tasks| && employeeById(tasks[i].assignee) == Failure(r.error)
        && r.error != NotFound
        && forall j :: 0 <= j < i ==> !LookupBreaks(employeeById, tasks[j])
  {
    if tasks == [] then Success([])
    else
      match RecoverNotFound(employeeById(tasks[0].assignee))
      case Failure(e) =>
        assert employeeById(tasks[0].assignee) == Failure(e);
        Failure(e)
      case Success(a) =>
        match Summaries(tasks[1..], employeeById, userName)
        case Failure(e) =>
          var k :| 0 <= k < |tasks[1..]| && employeeById(tasks[1..][k].assignee) == Failure(e)
                   && e != NotFound
                   && forall j :: 0 <= j < k ==> !LookupBreaks(employeeById, tasks[1..][j]);
          assert employeeById(tasks[k + 1].assignee) == Failure(e);
          assert forall j :: 0 <= j < k + 1 ==> !LookupBreaks(employeeById, tasks[j]) by {
            forall j | 0 <= j < k + 1 ensures !LookupBreaks(employeeById, tasks[j]) {
              if j > 0 {
                assert tasks[j] == tasks[1..][j - 1];
              }
            }
          }
          Failure(e)
        case Success(rest) =>
          assert forall i :: 0 <= i < |tasks| ==> !LookupBreaks(employeeById, tasks[i]) by {
            forall i | 0 <= i < |tasks| ensures !LookupBreaks(employeeById, tasks[i]) {
              if i > 0 {
                assert tasks[i] == tasks[1..][i - 1];
              }
            }
          }
          Success([Summary(tasks[0], a, userName)] + rest)
  }

  /** `getAll(limit, offset, user)` over the repository's answer. */
  function GetAll(tasks: Result<seq<Task>>, employeeById: UserId -> Result<EmployeeDto>,
                  userName: UserId -> string): (r: Result<seq<TaskSummary>>)
    ensures tasks.Failure? ==> r == Failure(tasks.error)
    ensures tasks.Success? ==> r == Summaries(tasks.value, employeeById, userName)
  {
    match tasks
    case Failure(e) => Failure(e)
    case Success(ts) => Summaries(ts, employeeById, userName)
  }

  /** The list view over the store shows only tasks the user may read, each
      once, in the order of the repository's page. */
  lemma ListShowsOnlyVisible(s: TaskStore, limit: int, offset: int, user: UserId,
                             employeeById: UserId -> Result<EmployeeDto>, userName: UserId -> string)
    requires s.Valid()
    ensures var r := GetAll(s.GetAll(limit, offset, user), employeeById, userName);
      r.Success? ==>
        && (forall i :: 0 <= i < |r.value| ==> r.value[i].id.Some? && s.Visible(user, r.value[i].id.value))
        && (forall i, j :: 0 <= i < j < |r.value| ==> r.value[i].id != r.value[j].id)
  {
    var page := s.GetAll(limit, offset, user);
    var r := GetAll(page, employeeById, userName);
    GetAllOnlyVisible(s, limit, offset, user);
    if r.Success? {
      assert page.Success?;
      forall i | 0 <= i < |r.value| ensures r.value[i].id.Some? && s.Visible(user, r.value[i].id.value) {
        assert r.value[i].id == page.value[i].id;
        assert page.value[i] in page.value;
      }
    }
  }

  /** `getDTO(uuid, user, code)`. The lookups are combined in the order task,
      project, task type, labels, access entries, and the first failure among
      them is the result; then the task and its task type are required and
      the start date must be set. */
  function GetDto<L, R>(uuid: string,
                        parseUuid: string -> Option<Uuid>,
                        findTask: Uuid -> Result<Option<Task>>,
                        projectOf: Option<Uuid> -> Result<ProjectDto>,
                        taskTypeOf: Option<Uuid> -> Result<Option<TaskType>>,
                        labelsOf: Uuid -> Result<seq<L>>,
                        rlsOf: Uuid -> Result<seq<R>>,
                        userName: UserId -> string): (r: Result<TaskDetail<L, R>>)
    ensures parseUuid(uuid).None? ==> r == Failure(IllegalArgument)
    ensures parseUuid(uuid).Some? && findTask(parseUuid(uuid).value).Failure? ==>
      r == Failure(findTask(parseUuid(uuid).value).error)
    ensures parseUuid(uuid).Some? && findTask(parseUuid(uuid).value) == Success(None) ==>
      r == Failure(NoValue)
    ensures r.Success? <==>
      && parseUuid(uuid).Some?
      && var id := parseUuid(uuid).value;
      && findTask(id).Success? && findTask(id).value.Some?
      && var t := findTask(id).value.value;
      && projectOf(t.project).Success?
      && taskTypeOf(t.taskType).Success? && labelsOf(id).Success? && rlsOf(id).Success?
      && taskTypeOf(t.taskType).value.Some?
      && t.startDate.Some?
    ensures r.Success? ==>
      var id := parseUuid(uuid).value;
      var t := findTask(id).value.value;
      var tt := taskTypeOf(t.taskType).value.value;
      && r.value.id == t.id && r.value.title == t.title && r.value.body == t.body
      && r.value.author == NameOf(userName, t.author)
      && r.value.lastModifier == NameOf(userName, t.lastModifier)
      && r.value.regDate == t.regDate && r.value.lastModifiedDate == t.lastModifiedDate
      && r.value.regNumber == t.regNumber
      && r.value.taskType == TaskTypeDto(tt.identifier, LocalizedName(tt.localizedName, EnglishCode))
      && r.value.project == projectOf(t.project).value
      && r.value.startDate == t.startDate.value
      && r.value.targetDate == t.targetDate && r.value.status == t.status
      && r.value.priority == t.priority
      && r.value.labels == labelsOf(id).value && r.value.rls == rlsOf(id).value
    ensures r.Failure? && parseUuid(uuid).Some? && findTask(parseUuid(uuid).value).Success?
              && findTask(parseUuid(uuid).value).value.Some? ==>
      var id := parseUuid(uuid).value;
      var t := findTask(id).value.value;
      || projectOf(t.project) == Failure(r.error)
      || taskTypeOf(t.taskType) == Failure(r.error)
      || labelsOf(id) == Failure(r.error)
      || rlsOf(id) == Failure(r.error)
      || (taskTypeOf(t.taskType) == Success(None) && r.error == NoValue)
      || (t.startDate.None? && r.error == NullValue)
  {
    match parseUuid(uuid)
    case None => Failure(IllegalArgument)
    case Some(id) =>
      match findTask(id)
      case Failure(e) => Failure(e)
      case Success(None) => Failure(NoValue)
      case Success(Some(t)) =>
        match projectOf(t.project)
        case Failure(e) => Failure(e)
        case Success(project) =>
          match taskTypeOf(t.taskType)
          case Failure(e) => Failure(e)
          case Success(taskType) =>
            match labelsOf(id)
            case Failure(e) => Failure(e)
            case Success(labels) =>
              match rlsOf(id)
              case Failure(e) => Failure(e)
              case Success(rls) =>
                if taskType.None? then Failure(NoValue)
                else if t.startDate.None? then Failure(NullValue)
                else
                  Success(TaskDetail(
                    id := t.id,
                    author := NameOf(userName, t.author),
                    regDate := t.regDate,
                    title := t.title,
                    lastModifier := NameOf(userName, t.lastModifier),
                    lastModifiedDate := t.lastModifiedDate,
                    regNumber := t.regNumber,
                    body := t.body,
                    taskType := TaskTypeDto(taskType.value.identifier,
                                            LocalizedName(taskType.value.localizedName, EnglishCode)),
                    project := project,
                    startDate := t.startDate.value,
                    targetDate := t.targetDate,
                    status := t.status,
                    priority := t.priority,
                    labels := labels,
                    rls := rls))
  }

  /** Over the store, the detail view exists only for a task the user may
      read, and it shows the task asked for; a task the user may not read
      fails as an absent one. */
  lemma DetailOnlyForVisible<L, R>(s: TaskStore, user: UserId, uuid: string,
                                   parseUuid: string -> Option<Uuid>,
                                   findTask: Uuid -> Result<Option<Task>>,
                                   projectOf: Option<Uuid> -> Result<ProjectDto>,
                                   taskTypeOf: Option<Uuid> -> Result<Option<TaskType>>,
                                   labelsOf: Uuid -> Result<seq<L>>,
                                   rlsOf: Uuid -> Result<seq<R>>,
                                   userName: UserId -> string)
    requires s.Valid()
    requires forall id :: findTask(id) == Success(s.FindById(id, user))
    ensures var r := GetDto(uuid, parseUuid, findTask, projectOf, taskTypeOf, labelsOf, rlsOf, userName);
      && (r.Success? ==> s.Visible(user, parseUuid(uuid).value) && r.value.id == Some(parseUuid(uuid).value))
      && (parseUuid(uuid).Some? && !s.Visible(user, parseUuid(uuid).value) ==> r == Failure(NoValue))
  {
  }

  /** `buildEntity(dto, assignee, labels, taskType, project, taskOpt)`: the
      entity a submitted form describes. The assignee is required, and a
      missing task type is a validation failure; the registration number is
      the decimal rendering of a random six-digit number, and the start date
      is the form's date at the start of its day, or the current moment. */
  function BuildEntity(form: TaskForm, assignee: Option<UserId>, labels: seq<Label>,
                       taskType: Option<TaskType>, project: ProjectDto, existing: Option<Task>,
                       randomNumber: int, startOfDayOrNow: Option<Day> -> Day): (r: Result<Task>)
    requires 100000 <= randomNumber <= 999999
    ensures assignee.None? ==> r == Failure(NoValue)
    ensures assignee.Some? && taskType.None? ==> r == Failure(Invalid("Task type is not correct"))
    ensures r.Success? <==> assignee.Some? && taskType.Some?
    ensures r.Success? ==>
      var t := r.value;
      && t.assignee == assignee.value
      && t.taskType == Some(taskType.value.id)
      && t.project == project.id
      && |t.labels| == |labels| && (forall i :: 0 <= i < |labels| ==> t.labels[i] == labels[i].id)
      && t.parent == (if existing.Some? then existing.value.parent else None)
      && t.targetDate == form.targetDate
      && t.startDate == Some(startOfDayOrNow(form.startDate))
      && t.body == form.body && t.title == form.title && t.priority == form.priority
      && t.cancellationComment == form.cancellationComment
      && t.regNumber == DecimalString(randomNumber)
      && |t.regNumber| == 6 && ParseDecimal(t.regNumber) == randomNumber
      && t.id == None && t.author == None && t.status == None
  {
    if assignee.None? then Failure(NoValue)
    else if taskType.None? then Failure(Invalid("Task type is not correct"))
    else
      ParseDecimalString(randomNumber);
      SixDigitsLength(randomNumber);
      var doc := Task(
        id := None,
        author := None,
        regDate := None,
        lastModifier := None,
        lastModifiedDate := None,
        status := None,
        body := form.body,
        assignee := assignee.value,
        parent := None,
        cancellationComment := form.cancellationComment,
        priority := form.priority,
        project := project.id,
        regNumber := DecimalString(randomNumber),
        startDate := Some(startOfDayOrNow(form.startDate)),
        targetDate := None,
        taskType := Some(taskType.value.id),
        title := form.title,
        labels := seq(|labels|, i requires 0 <= i < |labels| => labels[i].id));
      var withParent := if existing.Some? then doc.(parent := existing.value.parent) else doc;
      Success(if form.targetDate.Some? then withParent.(targetDate := form.targetDate) else withParent)
  }

  /** A task built from a form and inserted reads back with the form's
      contents, its assignee, task type, project and labels' order aside
      (labels are stored in their own relation). */
  lemma BuiltTaskStoredAsSubmitted(form: TaskForm, assignee: UserId, labels: seq<Label>,
                                   taskType: TaskType, project: ProjectDto, existing: Option<Task>,
                                   randomNumber: int, startOfDayOrNow: Option<Day> -> Day,
                                   user: UserId, now: Instant, newId: Uuid)
    requires 100000 <= randomNumber <= 999999
    ensures var doc := BuildEntity(form, Some(assignee), labels, Some(taskType), project, existing,
                                   randomNumber, startOfDayOrNow).value;
      var t := From(InsertedRow(doc, user, now, newId));
      && t.id == Some(newId) && t.author == Some(user)
      && t.title == form.title && t.body == form.body && t.priority == form.priority
      && t.assignee == assignee && t.taskType == Some(taskType.id) && t.project == project.id
      && t.targetDate == form.targetDate && t.startDate == Some(startOfDayOrNow(form.startDate))
      && t.regNumber == DecimalString(randomNumber)
  {
  }
}
