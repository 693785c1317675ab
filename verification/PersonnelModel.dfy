/**
 * Employees and organizations with soft deletion, and the personnel history
 * kept by the employee service next to the model-save signals.
 */
module PersonnelModel {
  import opened Common
  import opened ParentWalk

  datatype ServiceStatus = InService | OnSuspension | InLeave | Retired | Terminated | Deceased

  datatype Employee = Employee(
    status: ServiceStatus,
    organization: Option<nat>,
    supervisor: Option<nat>,
    deleted: bool)

  datatype Organization = Organization(
    parent: Option<nat>,
    head: Option<nat>,
    isActive: bool,
    deleted: bool)

  datatype StatusRow = StatusRow(employee: nat, previous: ServiceStatus, current: ServiceStatus)

  datatype TransferKind = Recruited | Transferred

  datatype Transfer = Transfer(employee: nat, organization: Option<nat>, kind: TransferKind, actor: Option<nat>)

  datatype State = State(
    employees: seq<Employee>,
    organizations: seq<Organization>,
    statusRows: seq<StatusRow>,
    transfers: seq<Transfer>)

  const EMPTY := State([], [], [], [])

  /** The fields a request supplies; an absent field keeps its value. */
  datatype EmployeeData = EmployeeData(
    status: Option<ServiceStatus>,
    organization: Option<Option<nat>>,
    supervisor: Option<Option<nat>>)

  datatype OrganizationData = OrganizationData(
    parent: Option<Option<nat>>,
    head: Option<Option<nat>>,
    isActive: Option<bool>)

  /** `formOk` stands for the field checks not modelled here, `conflict` for a unique
      identifier found taken only when the row is written. */
  datatype Op =
    | HireEmployee(employeeData: EmployeeData, actor: Option<nat>, formOk: bool, conflict: bool)
    | UpdateEmployee(employee: nat, employeeData: EmployeeData, actor: Option<nat>, formOk: bool, conflict: bool)
    | DeleteEmployee(employee: nat)
    | CreateOrganization(organizationData: OrganizationData, formOk: bool, conflict: bool)
    | UpdateOrganization(organization: nat, organizationData: OrganizationData, formOk: bool, conflict: bool)
    | DeleteOrganization(organization: nat, hasUsers: bool, hasPositions: bool)

  datatype Outcome =
    | Saved(id: nat)
    | Deleted
    | NotFound
    | Invalid
    | InUse(dependencies: seq<string>)
    | Conflict

  // ----- tables ------------------------------------------------------------

  function Supervisors(employees: seq<Employee>): (g: Graph)
    ensures |g| == |employees| && forall i :: 0 <= i < |g| ==> g[i] == employees[i].supervisor
  {
    seq(|employees|, i requires 0 <= i < |employees| => employees[i].supervisor)
  }

  function Parents(organizations: seq<Organization>): (g: Graph)
    ensures |g| == |organizations| && forall i :: 0 <= i < |g| ==> g[i] == organizations[i].parent
  {
    seq(|organizations|, i requires 0 <= i < |organizations| => organizations[i].parent)
  }

  predicate InTable(reference: Option<nat>, size: nat) {
    reference.Some? ==> reference.value < size
  }

  /** Foreign keys point at existing rows, deleted ones included. */
  ghost predicate Linked(s: State) {
    && (forall i :: 0 <= i < |s.employees| ==>
          InTable(s.employees[i].organization, |s.organizations|) && InTable(s.employees[i].supervisor, |s.employees|))
    && (forall i :: 0 <= i < |s.organizations| ==>
          InTable(s.organizations[i].parent, |s.organizations|) && InTable(s.organizations[i].head, |s.employees|))
  }

  predicate LiveEmployee(s: State, id: nat) {
    id < |s.employees| && !s.employees[id].deleted
  }

  predicate LiveOrganization(s: State, id: nat) {
    id < |s.organizations| && !s.organizations[id].deleted
  }

  // ----- validation --------------------------------------------------------

  /** `full_clean` of an employee; `pk` is absent while the row is being added. */
  ghost predicate EmployeeValid(s: State, pk: Option<nat>, row: Employee, formOk: bool)
    requires Linked(s)
  {
    && formOk
    && row.organization.Some? && row.organization.value < |s.organizations|
    && (row.status == InService ==> s.organizations[row.organization.value].isActive)
    && (row.supervisor.Some? ==>
          && row.supervisor.value < |s.employees|
          && row.supervisor != pk
          && Clear(Supervisors(s.employees), pk, row.supervisor.value))
  }

  ghost predicate OrganizationValid(s: State, pk: Option<nat>, row: Organization, formOk: bool)
    requires Linked(s)
  {
    && formOk
    && (row.head.Some? ==>
          && row.head.value < |s.employees|
          && (pk.Some? ==> s.employees[row.head.value].organization == pk))
    && (row.parent.Some? ==>
          && row.parent.value < |s.organizations|
          && row.parent != pk
          && Clear(Parents(s.organizations), pk, row.parent.value))
  }

  // ----- employees ---------------------------------------------------------

  function Patched(row: Employee, data: EmployeeData): Employee {
    row.(status := if data.status.Some? then data.status.value else row.status,
         organization := if data.organization.Some? then data.organization.value else row.organization,
         supervisor := if data.supervisor.Some? then data.supervisor.value else row.supervisor)
  }

  const BLANK_EMPLOYEE := Employee(InService, None, None, false)

  /** Saving an existing row through the model, signals included: the post-save receiver
      compares with the live row read before, unless the instance asks it not to. */
  function SavedThroughModel(s: State, id: nat, row: Employee, skipTracking: bool): State
    requires id < |s.employees|
  {
    var was := s.employees[id];
    var saved := s.(employees := s.employees[id := row]);
    if skipTracking || was.deleted then saved
    else
      saved.(
        transfers :=
          if was.organization.Some? && was.organization != row.organization
          then s.transfers + [Transfer(id, row.organization, Transferred, None)] else s.transfers,
        statusRows :=
          if was.status != row.status
          then s.statusRows + [StatusRow(id, was.status, row.status)] else s.statusRows)
  }

  /** The rows the service itself adds after an update. */
  function WithServiceHistory(s: State, id: nat, was: Employee, row: Employee, actor: Option<nat>): State {
    s.(transfers :=
         if row.organization.Some? && row.organization != was.organization
         then s.transfers + [Transfer(id, row.organization, Transferred, actor)] else s.transfers,
       statusRows :=
         if row.status != was.status
         then s.statusRows + [StatusRow(id, was.status, row.status)] else s.statusRows)
  }

  ghost function HireStep(s: State, data: EmployeeData, actor: Option<nat>, formOk: bool, conflict: bool): (State, Outcome)
    requires Linked(s)
  {
    var row := Patched(BLANK_EMPLOYEE, data);
    if !EmployeeValid(s, None, row, formOk) then (s, Invalid)
    else if conflict then (s, Conflict)
    else
      (s.(employees := s.employees + [row],
          transfers := s.transfers + [Transfer(|s.employees|, row.organization, Recruited, actor)]),
       Saved(|s.employees|))
  }

  ghost function UpdateEmployeeStep(s: State, id: nat, data: EmployeeData, actor: Option<nat>, formOk: bool, conflict: bool): (State, Outcome)
    requires Linked(s)
  {
    if !LiveEmployee(s, id) then (s, NotFound)
    else
      var row := Patched(s.employees[id], data);
      if !EmployeeValid(s, Some(id), row, formOk) then (s, Invalid)
      else if conflict then (s, Conflict)
      else
        (WithServiceHistory(SavedThroughModel(s, id, row, true), id, s.employees[id], row, actor), Saved(id))
  }

  predicate HeadsLiveOrganization(s: State, id: nat) {
    exists i :: 0 <= i < |s.organizations| && !s.organizations[i].deleted && s.organizations[i].head == Some(id)
  }

  predicate HasLiveReports(s: State, id: nat) {
    exists i :: 0 <= i < |s.employees| && !s.employees[i].deleted && s.employees[i].supervisor == Some(id)
  }

  function EmployeeDependencies(s: State, id: nat): seq<string> {
    (if HeadsLiveOrganization(s, id) then ["organization head assignments"] else []) +
    (if HasLiveReports(s, id) then ["direct reports"] else [])
  }

  /** Deletion saves the row through the model, with tracking on. */
  function DeleteEmployeeStep(s: State, id: nat): (State, Outcome) {
    if !LiveEmployee(s, id) then (s, NotFound)
    else if EmployeeDependencies(s, id) != [] then (s, InUse(EmployeeDependencies(s, id)))
    else (SavedThroughModel(s, id, s.employees[id].(deleted := true), false), Deleted)
  }

  // ----- organizations -----------------------------------------------------

  function PatchedOrganization(row: Organization, data: OrganizationData): Organization {
    row.(parent := if data.parent.Some? then data.parent.value else row.parent,
         head := if data.head.Some? then data.head.value else row.head,
         isActive := if data.isActive.Some? then data.isActive.value else row.isActive)
  }

  const BLANK_ORGANIZATION := Organization(None, None, true, false)

  ghost function CreateOrganizationStep(s: State, data: OrganizationData, formOk: bool, conflict: bool): (State, Outcome)
    requires Linked(s)
  {
    var row := PatchedOrganization(BLANK_ORGANIZATION, data);
    if !OrganizationValid(s, None, row, formOk) then (s, Invalid)
    else if conflict then (s, Conflict)
    else (s.(organizations := s.organizations + [row]), Saved(|s.organizations|))
  }

  ghost function UpdateOrganizationStep(s: State, id: nat, data: OrganizationData, formOk: bool, conflict: bool): (State, Outcome)
    requires Linked(s)
  {
    if !LiveOrganization(s, id) then (s, NotFound)
    else
      var row := PatchedOrganization(s.organizations[id], data);
      if !OrganizationValid(s, Some(id), row, formOk) then (s, Invalid)
      else if conflict then (s, Conflict)
      else (s.(organizations := s.organizations[id := row]), Saved(id))
  }

  predicate HasLiveChildren(s: State, id: nat) {
    exists i :: 0 <= i < |s.organizations| && !s.organizations[i].deleted && s.organizations[i].parent == Some(id)
  }

  predicate HasLiveStaff(s: State, id: nat) {
    exists i :: 0 <= i < |s.employees| && !s.employees[i].deleted && s.employees[i].organization == Some(id)
  }

  predicate HasTransfers(s: State, id: nat) {
    exists i :: 0 <= i < |s.transfers| && s.transfers[i].organization == Some(id)
  }

  function OrganizationDependencies(s: State, id: nat, hasUsers: bool, hasPositions: bool): seq<string> {
    (if HasLiveChildren(s, id) then ["child organizations"] else []) +
    (if HasLiveStaff(s, id) then ["employees"] else []) +
    (if hasUsers then ["user accounts"] else []) +
    (if hasPositions then ["sanctioned positions"] else []) +
    (if HasTransfers(s, id) then ["office transfers"] else [])
  }

  function DeleteOrganizationStep(s: State, id: nat, hasUsers: bool, hasPositions: bool): (State, Outcome) {
    if !LiveOrganization(s, id) then (s, NotFound)
    else
      var dependencies := OrganizationDependencies(s, id, hasUsers, hasPositions);
      if dependencies != [] then (s, InUse(dependencies))
      else (s.(organizations := s.organizations[id := s.organizations[id].(deleted := true)]), Deleted)
  }

  // ----- runs --------------------------------------------------------------

  ghost function Step(s: State, op: Op): (r: (State, Outcome))
    requires Linked(s)
    ensures Linked(r.0)
    ensures |s.employees| <= |r.0.employees| && |s.organizations| <= |r.0.organizations|
  {
    match op
    case HireEmployee(data, actor, formOk, conflict) => HireStep(s, data, actor, formOk, conflict)
    case UpdateEmployee(id, data, actor, formOk, conflict) => UpdateEmployeeStep(s, id, data, actor, formOk, conflict)
    case DeleteEmployee(id) => DeleteEmployeeStep(s, id)
    case CreateOrganization(data, formOk, conflict) => CreateOrganizationStep(s, data, formOk, conflict)
    case UpdateOrganization(id, data, formOk, conflict) => UpdateOrganizationStep(s, id, data, formOk, conflict)
    case DeleteOrganization(id, hasUsers, hasPositions) => DeleteOrganizationStep(s, id, hasUsers, hasPositions)
  }

  ghost function Run(s: State, ops: seq<Op>): (r: State)
    requires Linked(s)
    ensures Linked(r) && |s.employees| <= |r.employees|
    decreases |ops|
  {
    if ops == [] then s else Run(Step(s, ops[0]).0, ops[1..])
  }
}
