/**
 * What the employee and organization services answer, what an accepted call
 * writes, and that each row holds what was last accepted for it.
 */
module PersonnelOutcomes {
  import opened Common
  import opened ParentWalk
  import opened PersonnelModel
  import opened PersonnelTheorems

  // ----- employees ---------------------------------------------------------

  function Either<T>(supplied: Option<T>, otherwise: T): T {
    if supplied.Some? then supplied.value else otherwise
  }

  /** An employee needs an existing organization, which has to be active while the employee is in service. */
  predicate Placed(s: State, status: ServiceStatus, organization: Option<nat>) {
    && organization.Some? && organization.value < |s.organizations|
    && (status == InService ==> s.organizations[organization.value].isActive)
  }

  /** The table with one pointer redirected has no cycle. */
  ghost predicate StaysAcyclic(g: Graph, x: nat, p: Option<nat>)
    requires x < |g| && Closed(g)
  {
    InTable(p, |g|) && Acyclic(g[x := p])
  }

  lemma RedirectAcceptedIff(g: Graph, x: nat, p: Option<nat>)
    requires x < |g| && Closed(g) && Acyclic(g)
    ensures StaysAcyclic(g, x, p) <==>
            (p.Some? ==> p.value < |g| && p.value != x && Clear(g, Some(x), p.value))
  {
    if p.None? {
      RootKeepsAcyclic(g, x);
    } else if p.value < |g| {
      WalkIsExact(g, x, p.value);
      if p.value == x { MeetingIsNotClear(g, Some(x), p.value, 0); }
    }
  }

  /** Exactly which new employees are accepted in a run, the row stored and the one history row. */
  lemma HireAnswers(ops: seq<Op>, op: Op)
    requires op.HireEmployee?
    ensures var s := Run(EMPTY, ops);
            var (after, r) := Step(s, op);
            var status := Either(op.employeeData.status, InService);
            var organization := Either(op.employeeData.organization, None);
            var boss := Either(op.employeeData.supervisor, None);
            var fits := op.formOk && Placed(s, status, organization) && InTable(boss, |s.employees|);
            && (r == Saved(|s.employees|) <==> fits && !op.conflict)
            && (r == Conflict <==> fits && op.conflict)
            && (r == Invalid <==> !fits)
            && (!r.Saved? ==> after == s)
            && (r.Saved? ==> after == s.(
                  employees := s.employees + [Employee(status, organization, boss, false)],
                  transfers := s.transfers + [Transfer(|s.employees|, organization, Recruited, op.actor)]))
  {
    var s := Run(EMPTY, ops);
    RunKeepsNoCycles(EMPTY, ops);
    var boss := Either(op.employeeData.supervisor, None);
    if InTable(boss, |s.employees|) { NewRowKeepsAcyclic(Supervisors(s.employees), boss); }
  }

  /** Exactly which updates of an employee are accepted in a run, by what the row would become. */
  lemma UpdateEmployeeAnswers(ops: seq<Op>, op: Op)
    requires op.UpdateEmployee?
    ensures var s := Run(EMPTY, ops);
            var (after, r) := Step(s, op);
            && (r == NotFound <==> !LiveEmployee(s, op.employee))
            && (LiveEmployee(s, op.employee) ==>
                  var was := s.employees[op.employee];
                  var fits := op.formOk
                    && Placed(s, Either(op.employeeData.status, was.status), Either(op.employeeData.organization, was.organization))
                    && StaysAcyclic(Supervisors(s.employees), op.employee, Either(op.employeeData.supervisor, was.supervisor));
                  && (r == Saved(op.employee) <==> fits && !op.conflict)
                  && (r == Conflict <==> fits && op.conflict)
                  && (r == Invalid <==> !fits))
            && (!r.Saved? ==> after == s)
  {
    var s := Run(EMPTY, ops);
    RunKeepsNoCycles(EMPTY, ops);
    if LiveEmployee(s, op.employee) {
      RedirectAcceptedIff(Supervisors(s.employees), op.employee,
                          Either(op.employeeData.supervisor, s.employees[op.employee].supervisor));
    }
  }

  /** An employee is deleted exactly when live and nothing live depends on it; otherwise nothing changes, and
      the refusal names exactly what depends on it. */
  lemma DeleteEmployeeAnswers(s: State, op: Op)
    requires Linked(s) && op.DeleteEmployee?
    ensures var (after, r) := Step(s, op);
            var id := op.employee;
            var heads := exists i :: 0 <= i < |s.organizations| && !s.organizations[i].deleted && s.organizations[i].head == Some(id);
            var leads := exists i :: 0 <= i < |s.employees| && !s.employees[i].deleted && s.employees[i].supervisor == Some(id);
            && (r == NotFound <==> !LiveEmployee(s, id))
            && (r == Deleted <==> LiveEmployee(s, id) && !heads && !leads)
            && (LiveEmployee(s, id) && (heads || leads) ==>
                  && r.InUse?
                  && ("organization head assignments" in r.dependencies <==> heads)
                  && ("direct reports" in r.dependencies <==> leads))
            && (r != Deleted ==> after == s)
            && (r == Deleted ==> after == s.(employees := s.employees[id := s.employees[id].(deleted := true)]))
  {
    assert HeadsLiveOrganization(s, op.employee) <==>
      exists i :: 0 <= i < |s.organizations| && !s.organizations[i].deleted && s.organizations[i].head == Some(op.employee);
  }

  /** What the call leaves of employee row `e`: accepted updates write the supplied fields, an accepted
      deletion the mark. */
  ghost function EmployeeAfter(was: Employee, s: State, op: Op, e: nat): Employee
    requires Linked(s)
  {
    match op
    case UpdateEmployee(id, data, _, _, _) =>
      if id == e && Step(s, op).1.Saved? then
        Employee(Either(data.status, was.status), Either(data.organization, was.organization),
                 Either(data.supervisor, was.supervisor), was.deleted)
      else was
    case DeleteEmployee(id) =>
      if id == e && Step(s, op).1.Deleted? then Employee(was.status, was.organization, was.supervisor, true) else was
    case _ => was
  }

  ghost function EmployeeAfterRun(was: Employee, s: State, ops: seq<Op>, e: nat): Employee
    requires Linked(s)
    decreases |ops|
  {
    if ops == [] then was else EmployeeAfterRun(EmployeeAfter(was, s, ops[0], e), Step(s, ops[0]).0, ops[1..], e)
  }

  lemma StepWritesEmployee(s: State, op: Op, e: nat)
    requires Linked(s) && e < |s.employees|
    ensures Step(s, op).0.employees[e] == EmployeeAfter(s.employees[e], s, op, e)
  {
  }

  /** In every run each field of an employee holds the value last accepted for it, and the row is marked
      deleted exactly after an accepted deletion. */
  lemma {:induction false} EmployeeIsLastAccepted(s: State, ops: seq<Op>, e: nat)
    requires Linked(s) && e < |s.employees|
    ensures Run(s, ops).employees[e] == EmployeeAfterRun(s.employees[e], s, ops, e)
    decreases |ops|
  {
    if ops != [] {
      StepWritesEmployee(s, ops[0], e);
      EmployeeIsLastAccepted(Step(s, ops[0]).0, ops[1..], e);
    }
  }

  // ----- organizations -----------------------------------------------------

  /** Exactly which new organizations are accepted in a run, and the row stored: a head need not work there yet. */
  lemma CreateOrganizationAnswers(ops: seq<Op>, op: Op)
    requires op.CreateOrganization?
    ensures var s := Run(EMPTY, ops);
            var (after, r) := Step(s, op);
            var parent := Either(op.organizationData.parent, None);
            var head := Either(op.organizationData.head, None);
            var fits := op.formOk && InTable(parent, |s.organizations|) && InTable(head, |s.employees|);
            && (r == Saved(|s.organizations|) <==> fits && !op.conflict)
            && (r == Conflict <==> fits && op.conflict)
            && (r == Invalid <==> !fits)
            && (!r.Saved? ==> after == s)
            && (r.Saved? ==> after == s.(
                  organizations :=
                    s.organizations + [Organization(parent, head, Either(op.organizationData.isActive, true), false)]))
  {
    var s := Run(EMPTY, ops);
    RunKeepsNoCycles(EMPTY, ops);
    var parent := Either(op.organizationData.parent, None);
    if InTable(parent, |s.organizations|) { NewRowKeepsAcyclic(Parents(s.organizations), parent); }
  }

  /** Exactly which updates of an organization are accepted in a run: its head works there, its parent closes no cycle. */
  lemma UpdateOrganizationAnswers(ops: seq<Op>, op: Op)
    requires op.UpdateOrganization?
    ensures var s := Run(EMPTY, ops);
            var (after, r) := Step(s, op);
            var id := op.organization;
            && (r == NotFound <==> !LiveOrganization(s, id))
            && (LiveOrganization(s, id) ==>
                  var was := s.organizations[id];
                  var head := Either(op.organizationData.head, was.head);
                  var fits := op.formOk
                    && (head.Some? ==> head.value < |s.employees| && s.employees[head.value].organization == Some(id))
                    && StaysAcyclic(Parents(s.organizations), id, Either(op.organizationData.parent, was.parent));
                  && (r == Saved(id) <==> fits && !op.conflict)
                  && (r == Conflict <==> fits && op.conflict)
                  && (r == Invalid <==> !fits))
            && (!r.Saved? ==> after == s)
  {
    var s := Run(EMPTY, ops);
    RunKeepsNoCycles(EMPTY, ops);
    if LiveOrganization(s, op.organization) {
      RedirectAcceptedIff(Parents(s.organizations), op.organization,
                          Either(op.organizationData.parent, s.organizations[op.organization].parent));
    }
  }

  ghost predicate ChildOn(s: State, id: nat) {
    exists i :: 0 <= i < |s.organizations| && !s.organizations[i].deleted && s.organizations[i].parent == Some(id)
  }

  ghost predicate StaffOn(s: State, id: nat) {
    exists i :: 0 <= i < |s.employees| && !s.employees[i].deleted && s.employees[i].organization == Some(id)
  }

  ghost predicate MovedTo(s: State, id: nat) {
    exists i :: 0 <= i < |s.transfers| && s.transfers[i].organization == Some(id)
  }

  /** The refusal names exactly what stands in the way. */
  lemma DependenciesAreNamed(s: State, id: nat, hasUsers: bool, hasPositions: bool)
    ensures var names := OrganizationDependencies(s, id, hasUsers, hasPositions);
            && ("child organizations" in names <==> ChildOn(s, id))
            && ("employees" in names <==> StaffOn(s, id))
            && ("user accounts" in names <==> hasUsers)
            && ("sanctioned positions" in names <==> hasPositions)
            && ("office transfers" in names <==> MovedTo(s, id))
            && (names == [] <==> !ChildOn(s, id) && !StaffOn(s, id) && !hasUsers && !hasPositions && !MovedTo(s, id))
  {
    assert HasLiveChildren(s, id) == ChildOn(s, id);
    assert HasLiveStaff(s, id) == StaffOn(s, id);
    assert HasTransfers(s, id) == MovedTo(s, id);
    FiveNames(ChildOn(s, id), StaffOn(s, id), hasUsers, hasPositions, MovedTo(s, id));
    assert OrganizationDependencies(s, id, hasUsers, hasPositions) ==
      Names(ChildOn(s, id), StaffOn(s, id), hasUsers, hasPositions, MovedTo(s, id));
  }

  function Names(a: bool, b: bool, c: bool, d: bool, e: bool): seq<string> {
    (if a then ["child organizations"] else []) + (if b then ["employees"] else []) +
    (if c then ["user accounts"] else []) + (if d then ["sanctioned positions"] else []) +
    (if e then ["office transfers"] else [])
  }

  lemma FiveNames(a: bool, b: bool, c: bool, d: bool, e: bool)
    ensures "child organizations" in Names(a, b, c, d, e) <==> a
    ensures "employees" in Names(a, b, c, d, e) <==> b
    ensures "user accounts" in Names(a, b, c, d, e) <==> c
    ensures "sanctioned positions" in Names(a, b, c, d, e) <==> d
    ensures "office transfers" in Names(a, b, c, d, e) <==> e
    ensures Names(a, b, c, d, e) == [] <==> !a && !b && !c && !d && !e
  {
    assert |"child organizations"| == 19 && |"employees"| == 9 && |"user accounts"| == 13;
    assert |"sanctioned positions"| == 20 && |"office transfers"| == 16;
  }

  /** An organization is deleted exactly when live and free of children, staff, user accounts, positions and
      transfers; otherwise nothing changes. */
  lemma DeleteOrganizationAnswers(s: State, op: Op)
    requires Linked(s) && op.DeleteOrganization?
    ensures var (after, r) := Step(s, op);
            var id := op.organization;
            && (r == NotFound <==> !LiveOrganization(s, id))
            && (r == Deleted <==>
                  && LiveOrganization(s, id) && !ChildOn(s, id) && !StaffOn(s, id)
                  && !op.hasUsers && !op.hasPositions && !MovedTo(s, id))
            && (r.InUse? <==> r != NotFound && r != Deleted)
            && (r.InUse? ==> r.dependencies == OrganizationDependencies(s, id, op.hasUsers, op.hasPositions))
            && (r != Deleted ==> after == s)
            && (r == Deleted ==> after == s.(organizations := s.organizations[id := s.organizations[id].(deleted := true)]))
  {
    DependenciesAreNamed(s, op.organization, op.hasUsers, op.hasPositions);
  }

  /** What the call leaves of organization row `o`. */
  ghost function OrganizationAfter(was: Organization, s: State, op: Op, o: nat): Organization
    requires Linked(s)
  {
    match op
    case UpdateOrganization(id, data, _, _) =>
      if id == o && Step(s, op).1.Saved? then
        Organization(Either(data.parent, was.parent), Either(data.head, was.head),
                     Either(data.isActive, was.isActive), was.deleted)
      else was
    case DeleteOrganization(id, _, _) =>
      if id == o && Step(s, op).1.Deleted? then Organization(was.parent, was.head, was.isActive, true) else was
    case _ => was
  }

  ghost function OrganizationAfterRun(was: Organization, s: State, ops: seq<Op>, o: nat): Organization
    requires Linked(s)
    decreases |ops|
  {
    if ops == [] then was else OrganizationAfterRun(OrganizationAfter(was, s, ops[0], o), Step(s, ops[0]).0, ops[1..], o)
  }

  lemma StepWritesOrganization(s: State, op: Op, o: nat)
    requires Linked(s) && o < |s.organizations|
    ensures Step(s, op).0.organizations[o] == OrganizationAfter(s.organizations[o], s, op, o)
  {
  }

  /** In every run each field of an organization holds the value last accepted for it. */
  lemma {:induction false} OrganizationIsLastAccepted(s: State, ops: seq<Op>, o: nat)
    requires Linked(s) && o < |s.organizations|
    ensures o < |Run(s, ops).organizations|
    ensures Run(s, ops).organizations[o] == OrganizationAfterRun(s.organizations[o], s, ops, o)
    decreases |ops|
  {
    if ops != [] {
      StepWritesOrganization(s, ops[0], o);
      OrganizationIsLastAccepted(Step(s, ops[0]).0, ops[1..], o);
    }
  }
}
