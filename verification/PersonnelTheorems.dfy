/**
 * Guarantees over whole runs of the employee and organization services:
 * no reporting or organization cycles, no live row pointing at a deleted one,
 * and history rows that replay to the current state.
 */
module PersonnelTheorems {
  import opened Common
  import opened ParentWalk
  import opened PersonnelModel

  // ----- cycles ------------------------------------------------------------

  ghost predicate NoCycles(s: State)
    requires Linked(s)
  {
    Acyclic(Supervisors(s.employees)) && Acyclic(Parents(s.organizations))
  }

  lemma SupervisorsOfUpdate(employees: seq<Employee>, id: nat, row: Employee)
    requires id < |employees|
    ensures Supervisors(employees[id := row]) == Supervisors(employees)[id := row.supervisor]
  {
  }

  lemma ParentsOfUpdate(organizations: seq<Organization>, id: nat, row: Organization)
    requires id < |organizations|
    ensures Parents(organizations[id := row]) == Parents(organizations)[id := row.parent]
  {
  }

  /** A pointer table after redirecting one row to an accepted parent. */
  lemma AcceptedPointerKeepsAcyclic(g: Graph, x: nat, p: Option<nat>)
    requires Closed(g) && Acyclic(g) && x < |g| && InTable(p, |g|)
    requires p.Some? ==> Clear(g, Some(x), p.value)
    ensures Closed(g[x := p]) && Acyclic(g[x := p])
  {
    if p.Some? { ClearKeepsAcyclic(g, x, p.value); } else { RootKeepsAcyclic(g, x); }
  }

  lemma HireKeepsNoCycles(s: State, op: Op)
    requires Linked(s) && NoCycles(s) && (op.HireEmployee? || op.CreateOrganization?)
    ensures NoCycles(Step(s, op).0)
  {
    var (after, r) := Step(s, op);
    if r.Saved? && op.HireEmployee? {
      var row := after.employees[|s.employees|];
      NewRowKeepsAcyclic(Supervisors(s.employees), row.supervisor);
      assert Supervisors(after.employees) == Supervisors(s.employees) + [row.supervisor];
    } else if r.Saved? {
      var row := after.organizations[|s.organizations|];
      NewRowKeepsAcyclic(Parents(s.organizations), row.parent);
      assert Parents(after.organizations) == Parents(s.organizations) + [row.parent];
    }
  }

  lemma StepKeepsNoCycles(s: State, op: Op)
    requires Linked(s) && NoCycles(s)
    ensures NoCycles(Step(s, op).0)
  {
    var (after, r) := Step(s, op);
    match op
    case HireEmployee(_, _, _, _) => HireKeepsNoCycles(s, op);
    case CreateOrganization(_, _, _) => HireKeepsNoCycles(s, op);
    case UpdateEmployee(id, _, _, _, _) =>
      if r.Saved? {
        SupervisorsOfUpdate(s.employees, id, after.employees[id]);
        AcceptedPointerKeepsAcyclic(Supervisors(s.employees), id, after.employees[id].supervisor);
      }
    case UpdateOrganization(id, _, _, _) =>
      if r.Saved? {
        ParentsOfUpdate(s.organizations, id, after.organizations[id]);
        AcceptedPointerKeepsAcyclic(Parents(s.organizations), id, after.organizations[id].parent);
      }
    case DeleteEmployee(id) =>
      assert Supervisors(after.employees) == Supervisors(s.employees);
    case DeleteOrganization(id, _, _) =>
      assert Parents(after.organizations) == Parents(s.organizations);
  }

  lemma {:induction false} RunKeepsNoCycles(s: State, ops: seq<Op>)
    requires Linked(s) && NoCycles(s)
    ensures NoCycles(Run(s, ops))
    decreases |ops|
  {
    if ops != [] {
      StepKeepsNoCycles(s, ops[0]);
      RunKeepsNoCycles(Step(s, ops[0]).0, ops[1..]);
    }
  }

  /** Nobody is their own indirect supervisor and no organization its own ancestor, in any run. */
  lemma ReportingAndOrganizationTreesStayAcyclic(ops: seq<Op>)
    ensures NoCycles(Run(EMPTY, ops))
  {
    RunKeepsNoCycles(EMPTY, ops);
  }

  /** Among otherwise valid updates, a new supervisor is accepted exactly when it closes no cycle. */
  lemma SupervisorAcceptedIff(ops: seq<Op>, id: nat, boss: nat, actor: Option<nat>)
    requires var s := Run(EMPTY, ops);
             && LiveEmployee(s, id) && boss < |s.employees|
             && EmployeeValid(s, Some(id), s.employees[id].(supervisor := None), true)
    ensures var s := Run(EMPTY, ops);
            var data := EmployeeData(None, None, Some(Some(boss)));
            var g := Supervisors(s.employees);
            && Closed(g[id := Some(boss)])
            && (Step(s, UpdateEmployee(id, data, actor, true, false)).1.Saved? <==> Acyclic(g[id := Some(boss)]))
  {
    var s := Run(EMPTY, ops);
    RunKeepsNoCycles(EMPTY, ops);
    WalkIsExact(Supervisors(s.employees), id, boss);
    if boss == id { MeetingIsNotClear(Supervisors(s.employees), Some(id), boss, 0); }
  }

  /** The same exactness for the parent of an organization. */
  lemma ParentAcceptedIff(ops: seq<Op>, id: nat, parent: nat)
    requires var s := Run(EMPTY, ops);
             && LiveOrganization(s, id) && parent < |s.organizations|
             && OrganizationValid(s, Some(id), s.organizations[id].(parent := None), true)
    ensures var s := Run(EMPTY, ops);
            var data := OrganizationData(Some(Some(parent)), None, None);
            var g := Parents(s.organizations);
            && Closed(g[id := Some(parent)])
            && (Step(s, UpdateOrganization(id, data, true, false)).1.Saved? <==> Acyclic(g[id := Some(parent)]))
  {
    var s := Run(EMPTY, ops);
    RunKeepsNoCycles(EMPTY, ops);
    WalkIsExact(Parents(s.organizations), id, parent);
    if parent == id { MeetingIsNotClear(Parents(s.organizations), Some(id), parent, 0); }
  }

  // ----- soft deletion -----------------------------------------------------

  /** Live rows refer to live rows only. */
  ghost predicate LiveClosed(s: State) {
    && (forall i :: 0 <= i < |s.employees| && !s.employees[i].deleted ==> EmployeeRefsLive(s, s.employees[i]))
    && (forall i :: 0 <= i < |s.organizations| && !s.organizations[i].deleted ==> OrganizationRefsLive(s, s.organizations[i]))
  }

  predicate EmployeeRefsLive(s: State, row: Employee) {
    && (row.supervisor.Some? ==> LiveEmployee(s, row.supervisor.value))
    && (row.organization.Some? ==> LiveOrganization(s, row.organization.value))
  }

  predicate OrganizationRefsLive(s: State, row: Organization) {
    && (row.parent.Some? ==> LiveOrganization(s, row.parent.value))
    && (row.head.Some? ==> LiveEmployee(s, row.head.value))
  }

  /** The references a request supplies are live when it is served, as the serializers check. */
  predicate LiveInputs(s: State, op: Op) {
    match op
    case HireEmployee(data, _, _, _) => EmployeeRefsLive(s, Patched(BLANK_EMPLOYEE, data))
    case UpdateEmployee(_, data, _, _, _) => EmployeeRefsLive(s, Patched(BLANK_EMPLOYEE, data))
    case CreateOrganization(data, _, _) => OrganizationRefsLive(s, PatchedOrganization(BLANK_ORGANIZATION, data))
    case UpdateOrganization(_, data, _, _) => OrganizationRefsLive(s, PatchedOrganization(BLANK_ORGANIZATION, data))
    case _ => true
  }

  ghost predicate AllInputsLive(s: State, ops: seq<Op>)
    requires Linked(s)
    decreases |ops|
  {
    ops != [] ==> LiveInputs(s, ops[0]) && AllInputsLive(Step(s, ops[0]).0, ops[1..])
  }

  lemma StepKeepsLiveClosed(s: State, op: Op)
    requires Linked(s) && LiveClosed(s) && LiveInputs(s, op)
    ensures LiveClosed(Step(s, op).0)
  {
    if op.DeleteEmployee? {
      DeletingEmployeeKeepsLiveClosed(s, op.employee);
    } else if op.DeleteOrganization? {
      DeletingOrganizationKeepsLiveClosed(s, op.organization, op.hasUsers, op.hasPositions);
    } else {
      SavingKeepsLiveClosed(s, op);
    }
  }

  lemma SavingKeepsLiveClosed(s: State, op: Op)
    requires Linked(s) && LiveClosed(s) && LiveInputs(s, op) && !op.DeleteEmployee? && !op.DeleteOrganization?
    ensures LiveClosed(Step(s, op).0)
  {
    var after := Step(s, op).0;
    forall i | 0 <= i < |after.employees| && !after.employees[i].deleted
      ensures EmployeeRefsLive(after, after.employees[i])
    {
      if i < |s.employees| { assert EmployeeRefsLive(s, s.employees[i]); }
    }
    forall i | 0 <= i < |after.organizations| && !after.organizations[i].deleted
      ensures OrganizationRefsLive(after, after.organizations[i])
    {
      if i < |s.organizations| { assert OrganizationRefsLive(s, s.organizations[i]); }
    }
  }

  lemma DeletingEmployeeKeepsLiveClosed(s: State, id: nat)
    requires LiveClosed(s)
    ensures LiveClosed(DeleteEmployeeStep(s, id).0)
  {
    var (after, r) := DeleteEmployeeStep(s, id);
    if r.Deleted? {
      assert EmployeeDependencies(s, id) == [];
      forall i | 0 <= i < |after.employees| && !after.employees[i].deleted
        ensures EmployeeRefsLive(after, after.employees[i])
      {
        assert EmployeeRefsLive(s, s.employees[i]);
        assert !HasLiveReports(s, id);
      }
      forall i | 0 <= i < |after.organizations| && !after.organizations[i].deleted
        ensures OrganizationRefsLive(after, after.organizations[i])
      {
        assert OrganizationRefsLive(s, s.organizations[i]);
        assert !HeadsLiveOrganization(s, id);
      }
    }
  }

  lemma DeletingOrganizationKeepsLiveClosed(s: State, id: nat, hasUsers: bool, hasPositions: bool)
    requires LiveClosed(s)
    ensures LiveClosed(DeleteOrganizationStep(s, id, hasUsers, hasPositions).0)
  {
    var (after, r) := DeleteOrganizationStep(s, id, hasUsers, hasPositions);
    if r.Deleted? {
      assert !HasLiveChildren(s, id) && !HasLiveStaff(s, id);
      forall i | 0 <= i < |after.employees| && !after.employees[i].deleted
        ensures EmployeeRefsLive(after, after.employees[i])
      {
        assert EmployeeRefsLive(s, s.employees[i]);
      }
      forall i | 0 <= i < |after.organizations| && !after.organizations[i].deleted
        ensures OrganizationRefsLive(after, after.organizations[i])
      {
        assert OrganizationRefsLive(s, s.organizations[i]);
      }
    }
  }

  lemma {:induction false} RunKeepsLiveClosed(s: State, ops: seq<Op>)
    requires Linked(s) && LiveClosed(s) && AllInputsLive(s, ops)
    ensures LiveClosed(Run(s, ops))
    decreases |ops|
  {
    if ops != [] {
      StepKeepsLiveClosed(s, ops[0]);
      RunKeepsLiveClosed(Step(s, ops[0]).0, ops[1..]);
    }
  }

  /** With live references supplied, both services together never leave a live employee under
      a deleted supervisor or organization, nor a live organization under a deleted parent or head. */
  lemma LiveRowsReferToLiveRows(ops: seq<Op>)
    requires AllInputsLive(EMPTY, ops)
    ensures LiveClosed(Run(EMPTY, ops))
  {
    RunKeepsLiveClosed(EMPTY, ops);
  }

  // ----- history rows ------------------------------------------------------

  /** The status reached from `status` through the employee's rows, if each row starts where the last ended
      and changes something. */
  function Replay(rows: seq<StatusRow>, e: nat, status: ServiceStatus): Option<ServiceStatus> {
    if rows == [] then Some(status)
    else
      var last := rows[|rows| - 1];
      var before := Replay(rows[..|rows| - 1], e, status);
      if last.employee != e then before
      else if before == Some(last.previous) && last.current != last.previous then Some(last.current)
      else None
  }

  lemma ReplayAppend(rows: seq<StatusRow>, row: StatusRow, e: nat, status: ServiceStatus)
    ensures Replay(rows + [row], e, status) ==
            var before := Replay(rows, e, status);
            if row.employee != e then before
            else if before == Some(row.previous) && row.current != row.previous then Some(row.current)
            else None
  {
    assert (rows + [row])[..|rows|] == rows;
  }

  lemma {:induction false} ReplayIgnoresOthers(rows: seq<StatusRow>, e: nat, status: ServiceStatus)
    requires forall i :: 0 <= i < |rows| ==> rows[i].employee != e
    ensures Replay(rows, e, status) == Some(status)
  {
    if rows != [] { ReplayIgnoresOthers(rows[..|rows| - 1], e, status); }
  }

  /** The employee's transfer rows, oldest first. */
  function TransfersOf(transfers: seq<Transfer>, e: nat): seq<Transfer> {
    if transfers == [] then []
    else
      var last := transfers[|transfers| - 1];
      TransfersOf(transfers[..|transfers| - 1], e) + if last.employee == e then [last] else []
  }

  lemma TransfersOfAppend(transfers: seq<Transfer>, row: Transfer, e: nat)
    ensures TransfersOf(transfers + [row], e) == TransfersOf(transfers, e) + if row.employee == e then [row] else []
  {
    assert (transfers + [row])[..|transfers|] == transfers;
  }

  lemma {:induction false} TransfersOfOthers(transfers: seq<Transfer>, e: nat)
    requires forall i :: 0 <= i < |transfers| ==> transfers[i].employee != e
    ensures TransfersOf(transfers, e) == []
  {
    if transfers != [] { TransfersOfOthers(transfers[..|transfers| - 1], e); }
  }

  /** First a recruitment, then transfers, each to a new organization, the last to the current one. */
  ghost predicate TransfersTell(rows: seq<Transfer>, organization: Option<nat>) {
    && rows != []
    && organization.Some?
    && rows[0].kind == Recruited
    && (forall k :: 0 < k < |rows| ==> rows[k].kind == Transferred && rows[k].organization != rows[k - 1].organization)
    && (forall k :: 0 <= k < |rows| ==> rows[k].organization.Some?)
    && rows[|rows| - 1].organization == organization
  }

  ghost predicate HistoryOk(s: State) {
    && (forall i :: 0 <= i < |s.statusRows| ==> s.statusRows[i].employee < |s.employees|)
    && (forall i :: 0 <= i < |s.transfers| ==> s.transfers[i].employee < |s.employees|)
    && (forall e :: 0 <= e < |s.employees| ==> TransfersTell(TransfersOf(s.transfers, e), s.employees[e].organization))
  }

  function ActorOf(op: Op): Option<nat> {
    if op.HireEmployee? || op.UpdateEmployee? then op.actor else None
  }

  /** What one step writes for one employee: exactly one row per change, and none otherwise. */
  ghost predicate TransfersMatchChange(before: State, after: State, e: nat, actor: Option<nat>)
    requires e < |after.employees|
  {
    var row := after.employees[e];
    var moved := TransfersOf(after.transfers, e);
    var earlier := TransfersOf(before.transfers, e);
    if e >= |before.employees| then
      |moved| == |earlier| + 1 && moved[..|earlier|] == earlier
      && moved[|earlier|] == Transfer(e, row.organization, Recruited, actor)
    else if before.employees[e].organization != row.organization then
      |moved| == |earlier| + 1 && moved[..|earlier|] == earlier
      && moved[|earlier|] == Transfer(e, row.organization, Transferred, actor)
    else moved == earlier
  }

  ghost predicate StatusRowsMatchChange(before: State, after: State)
    requires |before.employees| <= |after.employees|
  {
    || (after.statusRows == before.statusRows &&
        forall e :: 0 <= e < |before.employees| ==> after.employees[e].status == before.employees[e].status)
    || (exists id: nat :: id < |before.employees| && OneStatusRow(before, after, id))
  }

  ghost predicate OneStatusRow(before: State, after: State, id: nat)
    requires id < |before.employees| <= |after.employees|
  {
    var was, now := before.employees[id].status, after.employees[id].status;
    && was != now
    && after.statusRows == before.statusRows + [StatusRow(id, was, now)]
    && forall e :: 0 <= e < |before.employees| && e != id ==> after.employees[e].status == before.employees[e].status
  }

  /** A step that changes neither a status nor an assignment and writes no rows. */
  lemma QuietStepMatches(before: State, after: State, e: nat, actor: Option<nat>)
    requires e < |after.employees| && |after.employees| == |before.employees|
    requires after.transfers == before.transfers && after.statusRows == before.statusRows
    requires forall i :: 0 <= i < |after.employees| ==>
      && after.employees[i].status == before.employees[i].status
      && after.employees[i].organization == before.employees[i].organization
    ensures TransfersMatchChange(before, after, e, actor) && StatusRowsMatchChange(before, after)
  {
  }

  lemma HireMatches(s: State, row: Employee, actor: Option<nat>, e: nat)
    requires e <= |s.employees|
    ensures var after := s.(employees := s.employees + [row],
                            transfers := s.transfers + [Transfer(|s.employees|, row.organization, Recruited, actor)]);
            TransfersMatchChange(s, after, e, actor) && StatusRowsMatchChange(s, after)
  {
    TransfersOfAppend(s.transfers, Transfer(|s.employees|, row.organization, Recruited, actor), e);
  }

  lemma UpdateTransfersMatch(s: State, id: nat, row: Employee, actor: Option<nat>, e: nat)
    requires id < |s.employees| && e < |s.employees| && row.organization.Some?
    ensures var after := WithServiceHistory(SavedThroughModel(s, id, row, true), id, s.employees[id], row, actor);
            TransfersMatchChange(s, after, e, actor)
  {
    var moved := Transfer(id, row.organization, Transferred, actor);
    TransfersOfAppend(s.transfers, moved, e);
    assert (TransfersOf(s.transfers, e) + [moved])[..|TransfersOf(s.transfers, e)|] == TransfersOf(s.transfers, e);
  }

  lemma UpdateStatusRowsMatch(s: State, id: nat, row: Employee, actor: Option<nat>)
    requires id < |s.employees|
    ensures var after := WithServiceHistory(SavedThroughModel(s, id, row, true), id, s.employees[id], row, actor);
            StatusRowsMatchChange(s, after)
  {
    var after := WithServiceHistory(SavedThroughModel(s, id, row, true), id, s.employees[id], row, actor);
    if row.status != s.employees[id].status {
      assert OneStatusRow(s, after, id);
    }
  }

  /** Every accepted change writes exactly one history row, although each save runs the signals too. */
  lemma EachChangeWritesOneRow(s: State, op: Op, e: nat)
    requires Linked(s) && e < |Step(s, op).0.employees|
    ensures TransfersMatchChange(s, Step(s, op).0, e, ActorOf(op))
    ensures StatusRowsMatchChange(s, Step(s, op).0)
  {
    var (after, r) := Step(s, op);
    if op.HireEmployee? && r.Saved? {
      HireMatches(s, Patched(BLANK_EMPLOYEE, op.employeeData), op.actor, e);
    } else if op.UpdateEmployee? && r.Saved? {
      UpdateTransfersMatch(s, op.employee, Patched(s.employees[op.employee], op.employeeData), op.actor, e);
      UpdateStatusRowsMatch(s, op.employee, Patched(s.employees[op.employee], op.employeeData), op.actor);
    } else {
      QuietStepMatches(s, after, e, ActorOf(op));
    }
  }

  /** Rows refer to employees that exist, and a saved employee has an organization. */
  lemma StepKeepsRefs(s: State, op: Op)
    requires Linked(s) && HistoryOk(s)
    ensures var after := Step(s, op).0;
            && (forall i :: 0 <= i < |after.statusRows| ==> after.statusRows[i].employee < |after.employees|)
            && (forall i :: 0 <= i < |after.transfers| ==> after.transfers[i].employee < |after.employees|)
            && (forall e :: 0 <= e < |after.employees| ==> after.employees[e].organization.Some?)
  {
    forall e | 0 <= e < |s.employees| ensures s.employees[e].organization.Some? {
      assert TransfersTell(TransfersOf(s.transfers, e), s.employees[e].organization);
    }
  }

  lemma ChangeKeepsTelling(before: State, after: State, e: nat, actor: Option<nat>)
    requires HistoryOk(before) && e < |after.employees| && |before.employees| <= |after.employees|
    requires TransfersMatchChange(before, after, e, actor) && after.employees[e].organization.Some?
    ensures TransfersTell(TransfersOf(after.transfers, e), after.employees[e].organization)
  {
    if e < |before.employees| {
      assert TransfersTell(TransfersOf(before.transfers, e), before.employees[e].organization);
      var earlier, moved := TransfersOf(before.transfers, e), TransfersOf(after.transfers, e);
      assert forall k :: 0 <= k < |earlier| ==> moved[k] == earlier[k] by {
        assert moved[..|earlier|] == earlier;
      }
    } else {
      TransfersOfOthers(before.transfers, e);
    }
  }

  lemma StepKeepsHistory(s: State, op: Op)
    requires Linked(s) && HistoryOk(s)
    ensures HistoryOk(Step(s, op).0)
  {
    var after := Step(s, op).0;
    StepKeepsRefs(s, op);
    forall e | 0 <= e < |after.employees|
      ensures TransfersTell(TransfersOf(after.transfers, e), after.employees[e].organization)
    {
      EachChangeWritesOneRow(s, op, e);
      ChangeKeepsTelling(s, after, e, ActorOf(op));
    }
  }

  lemma {:induction false} RunKeepsHistory(s: State, ops: seq<Op>)
    requires Linked(s) && HistoryOk(s)
    ensures HistoryOk(Run(s, ops))
    decreases |ops|
  {
    if ops != [] {
      StepKeepsHistory(s, ops[0]);
      RunKeepsHistory(Step(s, ops[0]).0, ops[1..]);
    }
  }

  /** In every run an employee's transfer rows begin with the recruitment, never repeat an
      organization in a row, and end at the current one. */
  lemma TransfersEndAtCurrentOrganization(ops: seq<Op>, e: nat)
    requires e < |Run(EMPTY, ops).employees|
    ensures var s := Run(EMPTY, ops); TransfersTell(TransfersOf(s.transfers, e), s.employees[e].organization)
  {
    RunKeepsHistory(EMPTY, ops);
  }

  lemma StepReplays(s: State, op: Op, e: nat, status: ServiceStatus)
    requires Linked(s) && HistoryOk(s) && e < |s.employees|
    requires Replay(s.statusRows, e, status) == Some(s.employees[e].status)
    ensures var after := Step(s, op).0; Replay(after.statusRows, e, status) == Some(after.employees[e].status)
  {
    var after := Step(s, op).0;
    EachChangeWritesOneRow(s, op, e);
    if after.statusRows != s.statusRows {
      var id: nat :| id < |s.employees| && OneStatusRow(s, after, id);
      ReplayAppend(s.statusRows, after.statusRows[|s.statusRows|], e, status);
    }
  }

  lemma {:induction false} RunReplays(s: State, ops: seq<Op>, e: nat, status: ServiceStatus)
    requires Linked(s) && HistoryOk(s) && e < |s.employees|
    requires Replay(s.statusRows, e, status) == Some(s.employees[e].status)
    ensures Replay(Run(s, ops).statusRows, e, status) == Some(Run(s, ops).employees[e].status)
    decreases |ops|
  {
    if ops != [] {
      StepKeepsHistory(s, ops[0]);
      StepReplays(s, ops[0], e, status);
      RunReplays(Step(s, ops[0]).0, ops[1..], e, status);
    }
  }

  /** Replaying all status rows of an employee from the status at creation links them without
      a gap and ends at the current status. */
  lemma StatusRowsReplay(earlier: seq<Op>, hire: Op, later: seq<Op>)
    requires hire.HireEmployee? && Step(Run(EMPTY, earlier), hire).1.Saved?
    ensures var (hired, r) := Step(Run(EMPTY, earlier), hire);
            var s := Run(hired, later);
            && r.id < |hired.employees|
            && Replay(s.statusRows, r.id, hired.employees[r.id].status) == Some(s.employees[r.id].status)
  {
    var s := Run(EMPTY, earlier);
    RunKeepsHistory(EMPTY, earlier);
    StepKeepsHistory(s, hire);
    var (hired, r) := Step(s, hire);
    ReplayIgnoresOthers(s.statusRows, r.id, hired.employees[r.id].status);
    RunReplays(hired, later, r.id, hired.employees[r.id].status);
  }

  // ----- the second history writer -----------------------------------------

  function Anonymous(rows: seq<Transfer>): seq<Transfer> {
    seq(|rows|, i requires 0 <= i < |rows| => rows[i].(actor := None))
  }

  /** A save with tracking on records what the service would record exactly when the change does
      not take the employee into or out of having an organization. */
  lemma SignalsAgreeWithServiceIff(s: State, id: nat, row: Employee, actor: Option<nat>)
    requires LiveEmployee(s, id)
    ensures var was := s.employees[id];
            var bySignals := SavedThroughModel(s, id, row, false);
            var byService := WithServiceHistory(SavedThroughModel(s, id, row, true), id, was, row, actor);
            (bySignals.statusRows == byService.statusRows && bySignals.employees == byService.employees) &&
            (Anonymous(bySignals.transfers) == Anonymous(byService.transfers)
             <==> (was.organization.Some? <==> row.organization.Some?))
  {
    var was := s.employees[id];
    var bySignals := SavedThroughModel(s, id, row, false);
    var byService := WithServiceHistory(SavedThroughModel(s, id, row, true), id, was, row, actor);
    assert |bySignals.transfers| == |byService.transfers| <==>
           (was.organization.Some? <==> row.organization.Some?);
  }

  /** In every run the save signals would add for an accepted update exactly the status rows the
      service adds, and the same transfers but for the actor they cannot know. */
  lemma SignalsWouldRecordTheSame(ops: seq<Op>, op: Op)
    requires op.UpdateEmployee? && Step(Run(EMPTY, ops), op).1.Saved?
    ensures var s := Run(EMPTY, ops);
            && op.employee < |s.employees|
            && (var bySignals := SavedThroughModel(s, op.employee, Patched(s.employees[op.employee], op.employeeData), false);
                var byService := Step(s, op).0;
                && bySignals.employees == byService.employees
                && bySignals.statusRows == byService.statusRows
                && Anonymous(bySignals.transfers) == Anonymous(byService.transfers))
  {
    var s := Run(EMPTY, ops);
    RunKeepsHistory(EMPTY, ops);
    assert TransfersTell(TransfersOf(s.transfers, op.employee), s.employees[op.employee].organization);
    SignalsAgreeWithServiceIff(s, op.employee, Patched(s.employees[op.employee], op.employeeData), op.actor);
  }

  /** Without the skip flag an update of the status through the service would be recorded twice,
      and the rows would no longer replay. */
  lemma SkipFlagPreventsDoubleRows(s: State, id: nat, row: Employee, actor: Option<nat>, status: ServiceStatus)
    requires LiveEmployee(s, id) && row.status != s.employees[id].status
    requires Replay(s.statusRows, id, status) == Some(s.employees[id].status)
    ensures var was := s.employees[id];
            var twice := WithServiceHistory(SavedThroughModel(s, id, row, false), id, was, row, actor);
            |twice.statusRows| == |s.statusRows| + 2 && Replay(twice.statusRows, id, status).None?
  {
    var was := s.employees[id];
    var rowOnce := StatusRow(id, was.status, row.status);
    ReplayAppend(s.statusRows, rowOnce, id, status);
    ReplayAppend(s.statusRows + [rowOnce], rowOnce, id, status);
  }
}
