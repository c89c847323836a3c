/** `EmployeeService`: the employee view with its optional position,
    department and organization slots (`mapCommon`), the write dispatch of
    `upsert`, and the lookup dispatch of `getDTO`. */
module EmployeeService {
  import opened Common

  /** The `Employee` entity as far as the service reads or writes it. */
  datatype Employee = Employee(
    id: Option<Uuid>,
    user: Option<UserId>,
    author: Option<UserId>,
    regDate: Option<Instant>,
    lastModifier: Option<UserId>,
    lastModifiedDate: Option<Instant>,
    identifier: string,
    phone: string,
    rank: int,
    localizedName: LocalizedNames,
    birthDate: Option<Day>,
    position: Option<Uuid>,
    department: Option<Uuid>,
    organization: Option<Uuid>,
    roles: Option<seq<string>>)

  datatype Department = Department(id: Uuid, identifier: string, localizedName: LocalizedNames)
  datatype Organization = Organization(id: Uuid, identifier: string, localizedName: LocalizedNames)

  datatype PositionDto = PositionDto(id: Option<Uuid>, identifier: string, localizedName: LocalizedNames)
  datatype DepartmentDto = DepartmentDto(id: Uuid, identifier: string, localizedName: LocalizedNames)
  datatype OrganizationDto = OrganizationDto(id: Uuid, identifier: string, localizedName: LocalizedNames)

  datatype EmployeeDto = EmployeeDto(
    id: Option<Uuid>,
    userId: Option<UserId>,
    author: Option<string>,
    regDate: Option<Instant>,
    lastModifier: Option<string>,
    lastModifiedDate: Option<Instant>,
    phone: string,
    rank: int,
    position: Option<PositionDto>,
    localizedName: LocalizedNames,
    identifier: string,
    dep: Option<DepartmentDto>,
    org: Option<OrganizationDto>,
    birthDate: Option<Day>)

  /** The repository call `upsert` ends in. */
  datatype EmployeeWrite = InsertEmployee(doc: Employee) | UpdateEmployee(id: Uuid, doc: Employee)

  /** The repository lookup `getDTO` starts from. */
  datatype EmployeeQuery = ByUserId(user: UserId) | ById(id: Uuid)

  const CurrentKeyword: string := "current"

  /** `userRepository.getUserName` applied to a user id that may be unset. */
  function NameOf(userName: UserId -> string, u: Option<UserId>): Option<string> {
    if u.Some? then Some(userName(u.value)) else None
  }

  /** The view `mapCommon(doc)` builds. The position lookup is made only when
      the employee has a position, and its failure leaves the slot empty; the
      department and organization lookups are made only when the employee has
      one, and a failure of either fails the view with the first failure. */
  function CommonView(doc: Employee,
                      positionOf: Uuid -> Result<PositionDto>,
                      departmentOf: Uuid -> Result<Department>,
                      organizationOf: Uuid -> Result<Organization>,
                      userName: UserId -> string): (r: Result<EmployeeDto>)
    ensures r.Success? <==>
      (doc.department.None? || departmentOf(doc.department.value).Success?) &&
      (doc.organization.None? || organizationOf(doc.organization.value).Success?)
    ensures r.Failure? ==>
      (doc.department.Some? && departmentOf(doc.department.value) == Failure(r.error)) ||
      (doc.organization.Some? && organizationOf(doc.organization.value) == Failure(r.error))
    ensures r.Success? && (doc.position.None? || positionOf(doc.position.value).Failure?) ==>
      r.value.position == None
    ensures r.Success? && doc.position.Some? && positionOf(doc.position.value).Success? ==>
      r.value.position == Some(positionOf(doc.position.value).value)
    ensures r.Success? && doc.department.None? ==> r.value.dep == None
    ensures r.Success? && doc.department.Some? ==>
      var d := departmentOf(doc.department.value).value;
      r.value.dep == Some(DepartmentDto(d.id, d.identifier, d.localizedName))
    ensures r.Success? && doc.organization.None? ==> r.value.org == None
    ensures r.Success? && doc.organization.Some? ==>
      var o := organizationOf(doc.organization.value).value;
      r.value.org == Some(OrganizationDto(o.id, o.identifier, o.localizedName))
    ensures r.Success? ==>
      && r.value.id == doc.id && r.value.userId == doc.user
      && r.value.author == NameOf(userName, doc.author) && r.value.regDate == doc.regDate
      && r.value.lastModifier == NameOf(userName, doc.lastModifier)
      && r.value.lastModifiedDate == doc.lastModifiedDate
      && r.value.phone == doc.phone && r.value.rank == doc.rank
      && r.value.localizedName == doc.localizedName && r.value.identifier == doc.identifier
      && r.value.birthDate == None
  {
    var dep := if doc.department.None? then Success(None)
               else match departmentOf(doc.department.value)
                 case Success(d) => Success(Some(DepartmentDto(d.id, d.identifier, d.localizedName)))
                 case Failure(e) => Failure(e);
    var org := if doc.organization.None? then Success(None)
               else match organizationOf(doc.organization.value)
                 case Success(o) => Success(Some(OrganizationDto(o.id, o.identifier, o.localizedName)))
                 case Failure(e) => Failure(e);
    if dep.Failure? then Failure(dep.error)
    else if org.Failure? then Failure(org.error)
    else
      var position := if doc.position.Some? && positionOf(doc.position.value).Success?
                      then Some(positionOf(doc.position.value).value) else None;
      Success(EmployeeDto(doc.id, doc.user, NameOf(userName, doc.author), doc.regDate,
                          NameOf(userName, doc.lastModifier), doc.lastModifiedDate,
                          doc.phone, doc.rank, position, doc.localizedName, doc.identifier,
                          dep.value, org.value, None))
  }

  /** `mapCommon(doc)`: fills the view slot by slot and joins the queued
      department and organization lookups. */
  method MapCommon(doc: Employee,
                   positionOf: Uuid -> Result<PositionDto>,
                   departmentOf: Uuid -> Result<Department>,
                   organizationOf: Uuid -> Result<Organization>,
                   userName: UserId -> string)
    returns (r: Result<EmployeeDto>)
    ensures r == CommonView(doc, positionOf, departmentOf, organizationOf, userName)
  {
    var position: Option<PositionDto> := None;
    if doc.position.Some? {
      // .onFailure().recoverWithNull()
      match positionOf(doc.position.value)
      case Success(p) => position := Some(p);
      case Failure(_) => position := None;
    }
    var dto := EmployeeDto(
      id := doc.id,
      userId := doc.user,
      author := NameOf(userName, doc.author),
      regDate := doc.regDate,
      lastModifier := NameOf(userName, doc.lastModifier),
      lastModifiedDate := doc.lastModifiedDate,
      phone := doc.phone,
      rank := doc.rank,
      position := position,
      localizedName := doc.localizedName,
      identifier := doc.identifier,
      dep := None,
      org := None,
      birthDate := None);
    // the lookups queued for the join, and the failures among them
    var queued := 0;
    var failures: seq<Error> := [];
    if doc.department.Some? {
      queued := queued + 1;
      match departmentOf(doc.department.value)
      case Success(d) => dto := dto.(dep := Some(DepartmentDto(d.id, d.identifier, d.localizedName)));
      case Failure(e) => failures := failures + [e];
    }
    if doc.organization.Some? {
      queued := queued + 1;
      match organizationOf(doc.organization.value)
      case Success(o) => dto := dto.(org := Some(OrganizationDto(o.id, o.identifier, o.localizedName)));
      case Failure(e) => failures := failures + [e];
    }
    if queued == 0 {
      r := Success(dto);
    } else if failures != [] {
      r := Failure(failures[0]);
    } else {
      r := Success(dto);
    }
  }

  /** `upsert(id, dto, user)`: the employee built from the form, and the
      repository call it goes to. Reading the department, organization or
      position of a form that has none throws. */
  function Upsert(id: Option<string>, dto: EmployeeDto, parseUuid: string -> Option<Uuid>): (r: Result<EmployeeWrite>)
    ensures (dto.dep.None? || dto.org.None? || dto.position.None?) ==> r == Failure(NullValue)
    ensures dto.dep.Some? && dto.org.Some? && dto.position.Some? ==>
      && (id.None? ==> r.Success? && r.value.InsertEmployee?)
      && (id.Some? && parseUuid(id.value).None? ==> r == Failure(IllegalArgument))
      && (id.Some? && parseUuid(id.value).Some? ==>
            r.Success? && r.value == UpdateEmployee(parseUuid(id.value).value, r.value.doc))
    ensures r.Success? ==>
      var e := r.value.doc;
      && e.department == Some(dto.dep.value.id)
      && e.organization == Some(dto.org.value.id)
      && e.position == dto.position.value.id
      && e.roles == None
      && e.identifier == dto.identifier && e.phone == dto.phone && e.rank == dto.rank
      && e.localizedName == dto.localizedName && e.birthDate == dto.birthDate
      && e.id == None && e.author == None
  {
    if dto.dep.None? || dto.org.None? || dto.position.None? then Failure(NullValue)
    else
      var doc := Employee(
        id := None,
        user := None,
        author := None,
        regDate := None,
        lastModifier := None,
        lastModifiedDate := None,
        identifier := dto.identifier,
        phone := dto.phone,
        rank := dto.rank,
        localizedName := dto.localizedName,
        birthDate := dto.birthDate,
        position := dto.position.value.id,
        department := Some(dto.dep.value.id),
        organization := Some(dto.org.value.id),
        roles := None);
      if id.None? then Success(InsertEmployee(doc))
      else match parseUuid(id.value)
        case None => Failure(IllegalArgument)
        case Some(uuid) => Success(UpdateEmployee(uuid, doc))
  }

  /** `getDTO(id, user)`: "current" looks the employee up by the acting
      user's id and is never parsed; any other id must parse as a UUID. */
  function GetDtoQuery(id: string, user: UserId, parseUuid: string -> Option<Uuid>): (r: Result<EmployeeQuery>)
    ensures r.Success? && r.value.ByUserId? <==> id == CurrentKeyword
    ensures r.Success? && r.value.ByUserId? ==> r.value.user == user
    ensures id != CurrentKeyword ==>
      (r.Success? <==> parseUuid(id).Some?) && (r.Success? ==> r.value == ById(parseUuid(id).value))
  {
    if id == CurrentKeyword then Success(ByUserId(user))
    else match parseUuid(id)
      case None => Failure(IllegalArgument)
      case Some(uuid) => Success(ById(uuid))
  }

  /** The `Position` entity `PositionService.getDTO` reads. */
  datatype Position = Position(id: Uuid, identifier: string, localizedName: LocalizedNames)

  /** `PositionService.getDTO(uuid)`: the builder copies the identifier and
      the localized names but never sets the id, unlike `getAll`. */
  function PositionView(p: Position): (d: PositionDto)
    ensures d.id == None
    ensures d.identifier == p.identifier && d.localizedName == p.localizedName
  {
    PositionDto(None, p.identifier, p.localizedName)
  }

  /** Lookups that succeed, and return the department and organization asked
      for. */
  predicate Consistent(doc: Employee,
                       positionOf: Uuid -> Result<PositionDto>,
                       departmentOf: Uuid -> Result<Department>,
                       organizationOf: Uuid -> Result<Organization>)
  {
    && (doc.position.Some? ==> positionOf(doc.position.value).Success?)
    && (doc.department.Some? ==> departmentOf(doc.department.value).Success? &&
                                 departmentOf(doc.department.value).value.id == doc.department.value)
    && (doc.organization.Some? ==> organizationOf(doc.organization.value).Success? &&
                                   organizationOf(doc.organization.value).value.id == doc.organization.value)
  }

  /** Writing back the view of a fully placed employee (`getDTO` then
      `upsert`) stores the same department, organization and descriptive
      fields and the id the position lookup put into the view; the birth
      date, which the view never carries, is written as unset. */
  lemma ViewThenUpsert(doc: Employee, id: Option<string>,
                       positionOf: Uuid -> Result<PositionDto>,
                       departmentOf: Uuid -> Result<Department>,
                       organizationOf: Uuid -> Result<Organization>,
                       userName: UserId -> string, parseUuid: string -> Option<Uuid>)
    requires doc.position.Some? && doc.department.Some? && doc.organization.Some?
    requires Consistent(doc, positionOf, departmentOf, organizationOf)
    requires id.Some? ==> parseUuid(id.value).Some?
    ensures CommonView(doc, positionOf, departmentOf, organizationOf, userName).Success?
    ensures
      var w := Upsert(id, CommonView(doc, positionOf, departmentOf, organizationOf, userName).value, parseUuid);
      && w.Success?
      && w.value.doc.position == positionOf(doc.position.value).value.id
      && w.value.doc.department == doc.department
      && w.value.doc.organization == doc.organization
      && w.value.doc.identifier == doc.identifier && w.value.doc.phone == doc.phone
      && w.value.doc.rank == doc.rank && w.value.doc.localizedName == doc.localizedName
      && w.value.doc.birthDate == None
  {
  }

  /** With the position lookup answering as `PositionService.getDTO` does,
      writing back the view of a fully placed employee stores no position. */
  lemma ViewThenUpsertLosesPosition(doc: Employee, id: Option<string>, positions: Uuid -> Position,
                                    departmentOf: Uuid -> Result<Department>,
                                    organizationOf: Uuid -> Result<Organization>,
                                    userName: UserId -> string, parseUuid: string -> Option<Uuid>)
    requires doc.position.Some? && doc.department.Some? && doc.organization.Some?
    requires Consistent(doc, (u: Uuid) => Success(PositionView(positions(u))), departmentOf, organizationOf)
    requires id.Some? ==> parseUuid(id.value).Some?
    ensures
      var view := CommonView(doc, (u: Uuid) => Success(PositionView(positions(u))), departmentOf, organizationOf, userName);
      && view.Success?
      && var w := Upsert(id, view.value, parseUuid);
      && w.Success? && w.value.doc.position == None && w.value.doc.birthDate == None
  {
    ViewThenUpsert(doc, id, (u: Uuid) => Success(PositionView(positions(u))), departmentOf, organizationOf, userName, parseUuid);
  }

  /** An employee whose department, organization or position does not
      resolve cannot be written back from its view. */
  lemma UnresolvedViewCannotBeWritten(doc: Employee, id: Option<string>,
                                      positionOf: Uuid -> Result<PositionDto>,
                                      departmentOf: Uuid -> Result<Department>,
                                      organizationOf: Uuid -> Result<Organization>,
                                      userName: UserId -> string, parseUuid: string -> Option<Uuid>)
    requires CommonView(doc, positionOf, departmentOf, organizationOf, userName).Success?
    requires doc.position.None? || positionOf(doc.position.value).Failure? ||
             doc.department.None? || doc.organization.None?
    ensures Upsert(id, CommonView(doc, positionOf, departmentOf, organizationOf, userName).value, parseUuid)
            == Failure(NullValue)
  {
  }
}
