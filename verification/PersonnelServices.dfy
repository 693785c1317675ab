/** The employee and organization services, with the model checks and the save signals they pass through. */
module PersonnelServices {
  import opened Common
  import opened ParentWalk
  import opened PersonnelModel

  class PersonnelStore {
    var employees: seq<Employee>
    var organizations: seq<Organization>
    var statusRows: seq<StatusRow>
    var transfers: seq<Transfer>

    ghost function Contents(): State
      reads this
    {
      State(employees, organizations, statusRows, transfers)
    }

    constructor ()
      ensures Contents() == EMPTY
    {
      employees, organizations, statusRows, transfers := [], [], [], [];
    }

    /** Insert or update a row between the pre-save and the post-save receiver. */
    method SaveEmployee(pk: Option<nat>, row: Employee, skipTracking: bool) returns (id: nat)
      requires pk.Some? ==> pk.value < |employees|
      modifies this
      ensures pk.Some? ==> id == pk.value && Contents() == SavedThroughModel(old(Contents()), id, row, skipTracking)
      ensures pk.None? ==>
        && id == |old(employees)|
        && employees == old(employees) + [row]
        && organizations == old(organizations)
        && statusRows == old(statusRows)
        && transfers ==
             if !skipTracking && row.organization.Some?
             then old(transfers) + [Transfer(id, row.organization, Recruited, None)] else old(transfers)
    {
      // pre-save: remember the stored organization and status
      var oldOrganization: Option<nat> := None;
      var oldStatus: Option<ServiceStatus> := None;
      if !skipTracking && pk.Some? && !employees[pk.value].deleted {
        oldOrganization := employees[pk.value].organization;
        oldStatus := Some(employees[pk.value].status);
      }

      var created := pk.None?;
      if created {
        id := |employees|;
        employees := employees + [row];
      } else {
        id := pk.value;
        employees := employees[id := row];
      }

      // post-save: log recruitment, transfer and status change
      if skipTracking {
        return;
      }
      if created {
        if row.organization.Some? {
          transfers := transfers + [Transfer(id, row.organization, Recruited, None)];
        }
        return;
      }
      if oldOrganization.Some? && oldOrganization != row.organization {
        transfers := transfers + [Transfer(id, row.organization, Transferred, None)];
      }
      if oldStatus.Some? && oldStatus.value != row.status {
        statusRows := statusRows + [StatusRow(id, oldStatus.value, row.status)];
      }
    }

    method CreateTransfer(employee: nat, organization: Option<nat>, kind: TransferKind, actor: Option<nat>)
      modifies this`transfers
      ensures transfers == old(transfers) + [Transfer(employee, organization, kind, actor)]
    {
      transfers := transfers + [Transfer(employee, organization, kind, actor)];
    }

    method CreateStatusChange(employee: nat, previous: ServiceStatus, current: ServiceStatus)
      modifies this`statusRows
      ensures statusRows == old(statusRows) + [StatusRow(employee, previous, current)]
    {
      statusRows := statusRows + [StatusRow(employee, previous, current)];
    }

    /** `full_clean` of an employee, its supervisor walk included. */
    method CleanEmployee(pk: Option<nat>, row: Employee, formOk: bool) returns (valid: bool)
      requires Linked(Contents())
      ensures valid == EmployeeValid(Contents(), pk, row, formOk)
    {
      var errors: set<string> := {};
      if !formOk {
        errors := errors + {"form"};
      }
      if row.organization.None? || row.organization.value >= |organizations| {
        errors := errors + {"working_organization"};
      } else if row.status == InService && !organizations[row.organization.value].isActive {
        errors := errors + {"working_organization"};
      }
      if row.supervisor.Some? {
        if row.supervisor.value >= |employees| {
          errors := errors + {"supervisor"};
        } else if pk.Some? && row.supervisor.value == pk.value {
          errors := errors + {"supervisor"};
        } else {
          var cycle := FindsCycle(Supervisors(employees), pk, row.supervisor.value);
          if cycle {
            errors := errors + {"supervisor"};
          }
        }
      }
      valid := errors == {};
    }

    /** `full_clean` of an organization: the head check, then the early exit for a root, then the walk. */
    method CleanOrganization(pk: Option<nat>, row: Organization, formOk: bool) returns (valid: bool)
      requires Linked(Contents())
      ensures valid == OrganizationValid(Contents(), pk, row, formOk)
    {
      var errors: set<string> := {};
      if !formOk {
        errors := errors + {"form"};
      }
      if row.head.Some? {
        if row.head.value >= |employees| {
          errors := errors + {"head_employee"};
        } else if pk.Some? && employees[row.head.value].organization != pk {
          errors := errors + {"head_employee"};
        }
      }
      if row.parent.None? {
        return errors == {};
      }
      if row.parent.value >= |organizations| {
        errors := errors + {"parent_org"};
      } else if pk.Some? && row.parent.value == pk.value {
        errors := errors + {"parent_org"};
      } else {
        var cycle := FindsCycle(Parents(organizations), pk, row.parent.value);
        if cycle {
          errors := errors + {"parent_org"};
        }
      }
      valid := errors == {};
    }
  }

  class EmployeeService {
    const db: PersonnelStore

    constructor (db: PersonnelStore)
      ensures this.db == db
    {
      this.db := db;
    }

    method Create(data: EmployeeData, actor: Option<nat>, formOk: bool, conflict: bool) returns (r: Outcome)
      requires Linked(db.Contents())
      modifies db
      ensures (db.Contents(), r) == HireStep(old(db.Contents()), data, actor, formOk, conflict)
    {
      var row := Patched(BLANK_EMPLOYEE, data);
      var valid := db.CleanEmployee(None, row, formOk);
      if !valid {
        return Invalid;
      }
      if conflict {
        return Conflict;
      }
      var id := db.SaveEmployee(None, row, true);
      if row.organization.Some? {
        db.CreateTransfer(id, row.organization, Recruited, actor);
      }
      r := Saved(id);
    }

    method Update(id: nat, data: EmployeeData, actor: Option<nat>, formOk: bool, conflict: bool) returns (r: Outcome)
      requires Linked(db.Contents())
      modifies db
      ensures (db.Contents(), r) == UpdateEmployeeStep(old(db.Contents()), id, data, actor, formOk, conflict)
    {
      if id >= |db.employees| || db.employees[id].deleted {
        return NotFound;
      }
      var employee := db.employees[id];
      var oldOrganization := employee.organization;
      var oldStatus := employee.status;
      if data.status.Some? { employee := employee.(status := data.status.value); }
      if data.organization.Some? { employee := employee.(organization := data.organization.value); }
      if data.supervisor.Some? { employee := employee.(supervisor := data.supervisor.value); }

      var valid := db.CleanEmployee(Some(id), employee, formOk);
      if !valid {
        return Invalid;
      }
      if conflict {
        return Conflict;
      }
      var saved := db.SaveEmployee(Some(id), employee, true);
      if employee.organization.Some? && employee.organization != oldOrganization {
        db.CreateTransfer(saved, employee.organization, Transferred, actor);
      }
      if employee.status != oldStatus {
        db.CreateStatusChange(saved, oldStatus, employee.status);
      }
      r := Saved(saved);
    }

    method Delete(id: nat) returns (r: Outcome)
      modifies db
      ensures (db.Contents(), r) == DeleteEmployeeStep(old(db.Contents()), id)
    {
      if id >= |db.employees| || db.employees[id].deleted {
        return NotFound;
      }
      var dependencies := [];
      if exists i :: 0 <= i < |db.organizations| && !db.organizations[i].deleted && db.organizations[i].head == Some(id) {
        dependencies := dependencies + ["organization head assignments"];
      }
      if exists i :: 0 <= i < |db.employees| && !db.employees[i].deleted && db.employees[i].supervisor == Some(id) {
        dependencies := dependencies + ["direct reports"];
      }
      assert dependencies == EmployeeDependencies(db.Contents(), id);
      if dependencies != [] {
        return InUse(dependencies);
      }
      var saved := db.SaveEmployee(Some(id), db.employees[id].(deleted := true), false);
      r := Deleted;
    }
  }

  class OrganizationService {
    const db: PersonnelStore

    constructor (db: PersonnelStore)
      ensures this.db == db
    {
      this.db := db;
    }

    method Create(data: OrganizationData, formOk: bool, conflict: bool) returns (r: Outcome)
      requires Linked(db.Contents())
      modifies db
      ensures (db.Contents(), r) == CreateOrganizationStep(old(db.Contents()), data, formOk, conflict)
    {
      var row := PatchedOrganization(BLANK_ORGANIZATION, data);
      var valid := db.CleanOrganization(None, row, formOk);
      if !valid {
        return Invalid;
      }
      if conflict {
        return Conflict;
      }
      r := Saved(|db.organizations|);
      db.organizations := db.organizations + [row];
    }

    method Update(id: nat, data: OrganizationData, formOk: bool, conflict: bool) returns (r: Outcome)
      requires Linked(db.Contents())
      modifies db
      ensures (db.Contents(), r) == UpdateOrganizationStep(old(db.Contents()), id, data, formOk, conflict)
    {
      if id >= |db.organizations| || db.organizations[id].deleted {
        return NotFound;
      }
      var organization := db.organizations[id];
      if data.parent.Some? { organization := organization.(parent := data.parent.value); }
      if data.head.Some? { organization := organization.(head := data.head.value); }
      if data.isActive.Some? { organization := organization.(isActive := data.isActive.value); }

      var valid := db.CleanOrganization(Some(id), organization, formOk);
      if !valid {
        return Invalid;
      }
      if conflict {
        return Conflict;
      }
      db.organizations := db.organizations[id := organization];
      r := Saved(id);
    }

    method Delete(id: nat, hasUsers: bool, hasPositions: bool) returns (r: Outcome)
      modifies db
      ensures (db.Contents(), r) == DeleteOrganizationStep(old(db.Contents()), id, hasUsers, hasPositions)
    {
      if id >= |db.organizations| || db.organizations[id].deleted {
        return NotFound;
      }
      var s := State(db.employees, db.organizations, db.statusRows, db.transfers);
      var dependencies := [];
      if HasLiveChildren(s, id) {
        dependencies := dependencies + ["child organizations"];
      }
      if HasLiveStaff(s, id) {
        dependencies := dependencies + ["employees"];
      }
      if hasUsers {
        dependencies := dependencies + ["user accounts"];
      }
      if hasPositions {
        dependencies := dependencies + ["sanctioned positions"];
      }
      if HasTransfers(s, id) {
        dependencies := dependencies + ["office transfers"];
      }
      assert dependencies == OrganizationDependencies(s, id, hasUsers, hasPositions);
      if dependencies != [] {
        return InUse(dependencies);
      }
      db.organizations := db.organizations[id := db.organizations[id].(deleted := true)];
      r := Deleted;
    }
  }
}
