/**
 * The record store: the employees, designations and salary_sheets tables as maps from id to row,
 * with a counter standing in for `randomUUID`.
 */
module Storage {
  import opened Wrappers
  import opened Schema

  /** `{ ...existing, ...patch }` for employees: every supplied field wins, the rest is kept. */
  function MergeEmployee(e: Employee, p: EmployeePatch): (r: Employee)
    ensures r.id == e.id
  {
    Employee(e.id, p.name.GetOr(e.name), p.position.GetOr(e.position), p.basic.GetOr(e.basic),
             p.hra.GetOr(e.hra), p.allowance.GetOr(e.allowance),
             if p.esiRate.Some? then p.esiRate else e.esiRate,
             if p.pfRate.Some? then p.pfRate else e.pfRate,
             if p.otherDeduction.Some? then p.otherDeduction else e.otherDeduction,
             p.attendance.GetOr(e.attendance))
  }

  /** The body the attendance route writes back: the attendance field and nothing else. */
  function AttendancePatch(attendance: seq<Slot>): EmployeePatch {
    EmployeePatch(None, None, None, None, None, None, None, None, Some(attendance))
  }

  /**
   * A patch names the fields it changes: merging takes each supplied value and keeps every other
   * field of the existing row; an empty patch changes nothing and an attendance-only patch changes
   * only the attendance.
   */
  lemma MergeEmployeeFields(e: Employee, p: EmployeePatch)
    ensures var r := MergeEmployee(e, p);
      && r.name == (if p.name.Some? then p.name.value else e.name)
      && r.position == (if p.position.Some? then p.position.value else e.position)
      && r.basic == (if p.basic.Some? then p.basic.value else e.basic)
      && r.hra == (if p.hra.Some? then p.hra.value else e.hra)
      && r.allowance == (if p.allowance.Some? then p.allowance.value else e.allowance)
      && r.attendance == (if p.attendance.Some? then p.attendance.value else e.attendance)
      && r.esiRate == (if p.esiRate.Some? then p.esiRate else e.esiRate)
      && r.pfRate == (if p.pfRate.Some? then p.pfRate else e.pfRate)
      && r.otherDeduction == (if p.otherDeduction.Some? then p.otherDeduction else e.otherDeduction)
    ensures MergeEmployee(e, EmptyPatch) == e
    ensures forall a :: MergeEmployee(e, AttendancePatch(a)) == e.(attendance := a)
  {
  }

  /** Merging the same patch twice is merging it once. */
  lemma MergeEmployeeIdempotent(e: Employee, p: EmployeePatch)
    ensures MergeEmployee(MergeEmployee(e, p), p) == MergeEmployee(e, p)
  {
  }

  /** `{ ...existing, ...patch }` for designations: a supplied field wins, the other is kept. */
  function MergeDesignation(d: Designation, p: DesignationPatch): (r: Designation)
    ensures r.id == d.id
    ensures r.name == (if p.name.Some? then p.name.value else d.name)
    ensures r.isActive == (if p.isActive.Some? then p.isActive.value else d.isActive)
    ensures p == DesignationPatch(None, None) ==> r == d
  {
    Designation(d.id, p.name.GetOr(d.name), p.isActive.GetOr(d.isActive))
  }

  /** `{ ...existing, ...patch }` for salary sheets: every supplied field wins, the rest is kept. */
  function MergeSalarySheet(s: SalarySheet, p: SalarySheetPatch): (r: SalarySheet)
    ensures r.id == s.id
    ensures r.month == (if p.month.Some? then p.month.value else s.month)
    ensures r.year == (if p.year.Some? then p.year.value else s.year)
    ensures r.totalDays == (if p.totalDays.Some? then p.totalDays.value else s.totalDays)
    ensures r.employeeData == (if p.employeeData.Some? then p.employeeData.value else s.employeeData)
    ensures p == SalarySheetPatch(None, None, None, None) ==> r == s
  {
    SalarySheet(s.id, p.month.GetOr(s.month), p.year.GetOr(s.year), p.totalDays.GetOr(s.totalDays),
                p.employeeData.GetOr(s.employeeData))
  }

  /** The keys of the rows that `keep` selects, each once, in no particular order. */
  method SelectKeys<R>(table: map<Id, R>, keep: R -> bool) returns (ids: seq<Id>)
    ensures forall i, j | 0 <= i < j < |ids| :: ids[i] != ids[j]
    ensures forall k :: k in ids <==> k in table && keep(table[k])
  {
    ids := [];
    var todo := table.Keys;
    while todo != {}
      invariant todo <= table.Keys
      invariant forall i, j | 0 <= i < j < |ids| :: ids[i] != ids[j]
      invariant forall k :: k in ids <==> k in table && k !in todo && keep(table[k])
      decreases todo
    {
      var k :| k in todo;
      if keep(table[k]) {
        ids := ids + [k];
      }
      todo := todo - {k};
    }
  }

  /**
   * The three sample rows with the ESI rate at the 175 basis points (1.75%) that the salary table
   * charges; the seeding code writes 1750 instead.
   */
  function SampleEmployees(): (r: seq<NewEmployee>)
    ensures |r| == 3
    ensures forall i | 0 <= i < 3 :: r[i].attendance == Unset31() && FillsRequiredColumns(r[i])
    ensures r[0].esiRate == r[1].esiRate == Some(175) && r[2].esiRate == Some(0)
    ensures forall i | 0 <= i < 3 :: r[i].pfRate == Some(1200) && r[i].otherDeduction == Some(0)
  {
    [NewEmployee("राम कुमार", "Manager", 25000, 5000, 2000, Some(175), Some(1200), Some(0), Unset31()),
     NewEmployee("सीता देवी", "Assistant", 18000, 3600, 1500, Some(175), Some(1200), Some(0), Unset31()),
     NewEmployee("मोहन लाल", "Worker", 15000, 3000, 1000, Some(0), Some(1200), Some(0), Unset31())]
  }

  /** The sample rows that `initDB` inserts into an empty employees table, ESI at 1750. */
  function SampleEmployeesAsWritten(): (r: seq<NewEmployee>)
    ensures |r| == 3
    ensures forall i | 0 <= i < 3 :: r[i].attendance == Unset31() && FillsRequiredColumns(r[i])
    ensures forall i | 0 <= i < 3 :: r[i] == SampleEmployees()[i].(esiRate := if i < 2 then Some(1750) else Some(0))
  {
    [NewEmployee("राम कुमार", "Manager", 25000, 5000, 2000, Some(1750), Some(1200), Some(0), Unset31()),
     NewEmployee("सीता देवी", "Assistant", 18000, 3600, 1500, Some(1750), Some(1200), Some(0), Unset31()),
     NewEmployee("मोहन लाल", "Worker", 15000, 3000, 1000, Some(0), Some(1200), Some(0), Unset31())]
  }

  /** `Array(31).fill("NONE")`. */
  function Unset31(): (a: seq<Slot>)
    ensures |a| == 31 && forall i | 0 <= i < 31 :: a[i] == Some(NONE)
  {
    seq(31, _ => Some(NONE))
  }

  class Store {
    var employees: map<Id, Employee>
    var designations: map<Id, Designation>
    var salarySheets: map<Id, SalarySheet>
    /** Every id below this one has been handed out. */
    var nextId: Id

    /**
     * Each row is filed under its own id, every id in use is below nextId, and every employee row
     * fills the `NOT NULL` rate columns and holds attendance codes as read from their text.
     */
    ghost predicate Valid()
      reads this
    {
      && (forall k | k in employees :: k < nextId && employees[k].id == k)
      && (forall k | k in employees :: FillsRequiredColumns(WithoutId(employees[k])))
      && (forall k | k in employees :: CanonicalSlots(employees[k].attendance))
      && (forall k | k in designations :: k < nextId && designations[k].id == k)
      && (forall k | k in salarySheets :: k < nextId && salarySheets[k].id == k)
    }

    /** Empty tables, as `initDB` creates them. */
    constructor ()
      ensures Valid()
      ensures employees == map[] && designations == map[] && salarySheets == map[]
    {
      employees, designations, salarySheets := map[], map[], map[];
      nextId := 0;
    }

    /** The fresh-id oracle: an id no table holds. */
    method FreshId() returns (id: Id)
      requires Valid()
      modifies this`nextId
      ensures Valid()
      ensures id == old(nextId) && nextId == id + 1
      ensures id !in employees && id !in designations && id !in salarySheets
    {
      id := nextId;
      nextId := nextId + 1;
    }

    // ------------------------------------------------------------------------------ employees

    /** `getEmployees`: every row exactly once, in no particular order. */
    method GetEmployees() returns (rows: seq<Employee>)
      requires Valid()
      ensures |rows| == |employees|
      ensures forall i | 0 <= i < |rows| :: rows[i].id in employees && employees[rows[i].id] == rows[i]
      ensures forall i, j | 0 <= i < j < |rows| :: rows[i].id != rows[j].id
      ensures forall k | k in employees :: exists i | 0 <= i < |rows| :: rows[i].id == k
    {
      var ids := SelectKeys(employees, (_: Employee) => true);
      rows := [];
      for i := 0 to |ids|
        invariant |rows| == i
        invariant forall j | 0 <= j < i :: rows[j] == employees[ids[j]] && rows[j].id == ids[j]
      {
        rows := rows + [employees[ids[i]]];
      }
      DistinctKeysCover(ids, employees.Keys);
    }

    /** Distinct keys that are exactly the key set are as many as it holds. */
    static lemma DistinctKeysCover(ids: seq<Id>, keys: set<Id>)
      requires forall i, j | 0 <= i < j < |ids| :: ids[i] != ids[j]
      requires forall k :: k in ids <==> k in keys
      ensures |ids| == |keys|
      decreases |ids|
    {
      if ids != [] {
        var last := ids[|ids| - 1];
        var init := ids[..|ids| - 1];
        assert forall k :: k in init <==> k in keys - {last};
        DistinctKeysCover(init, keys - {last});
      } else {
        assert keys == {};
      }
    }

    /** `getEmployee`: the row with this id, or absent. */
    method GetEmployee(id: Id) returns (r: Option<Employee>)
      requires Valid()
      ensures r.Some? <==> id in employees
      ensures r.Some? ==> r.value == employees[id] && r.value.id == id
    {
      r := if id in employees then Some(employees[id]) else None;
    }

    /**
     * `createEmployee`: draws a fresh id and inserts the row. The insert fails, and nothing is
     * stored, when the row leaves a `NOT NULL` rate column empty; otherwise the new row has exactly
     * the given fields. (Attendance arrives as text, so its codes are the ones that text names.)
     */
    method CreateEmployee(employee: NewEmployee) returns (r: Option<Employee>)
      requires Valid() && CanonicalSlots(employee.attendance)
      modifies this
      ensures Valid()
      ensures r.Some? <==> FillsRequiredColumns(employee)
      ensures r.None? ==> employees == old(employees)
      ensures r.Some? ==> r.value.id !in old(employees) && WithoutId(r.value) == employee
      ensures r.Some? ==> employees == old(employees)[r.value.id := r.value]
      ensures nextId == old(nextId) + 1 && (r.Some? ==> r.value.id == old(nextId))
      ensures designations == old(designations) && salarySheets == old(salarySheets)
    {
      var id := FreshId();
      if !FillsRequiredColumns(employee) {
        return None;
      }
      var created := WithId(id, employee);
      employees := employees[id := created];
      r := Some(created);
    }

    /** `updateEmployee`: absent for a missing id and no write, otherwise the merged row, written back. */
    method UpdateEmployee(id: Id, patch: EmployeePatch) returns (r: Option<Employee>)
      requires Valid() && (patch.attendance.Some? ==> CanonicalSlots(patch.attendance.value))
      modifies this
      ensures Valid()
      ensures id !in old(employees) ==> r.None? && employees == old(employees)
      ensures id in old(employees) ==> r == Some(MergeEmployee(old(employees)[id], patch))
      ensures id in old(employees) ==> employees == old(employees)[id := r.value]
      ensures designations == old(designations) && salarySheets == old(salarySheets)
      ensures nextId == old(nextId)
    {
      var existing := GetEmployee(id);
      if existing.None? {
        return None;
      }
      var updated := MergeEmployee(existing.value, patch);
      MergeEmployeeFields(existing.value, patch);
      employees := employees[id := updated];
      r := Some(updated);
    }

    /** `deleteEmployee`: whether a row existed; afterwards it does not. */
    method DeleteEmployee(id: Id) returns (deleted: bool)
      requires Valid()
      modifies this
      ensures Valid()
      ensures deleted <==> id in old(employees)
      ensures employees == old(employees) - {id}
      ensures designations == old(designations) && salarySheets == old(salarySheets)
      ensures nextId == old(nextId)
    {
      deleted := id in employees;
      employees := employees - {id};
    }

    /** The start-up seeding: the sample rows, as written, go in only when the employees table is empty. */
    method SeedEmployees()
      requires Valid()
      modifies this
      ensures Valid()
      ensures |old(employees)| != 0 ==> employees == old(employees) && nextId == old(nextId)
      ensures |old(employees)| == 0 ==>
        && nextId == old(nextId) + 3
        && (forall k :: k in employees <==> old(nextId) <= k < old(nextId) + 3)
        && (forall i | 0 <= i < 3 :: employees[old(nextId) + i] == WithId(old(nextId) + i, SampleEmployeesAsWritten()[i]))
      ensures designations == old(designations) && salarySheets == old(salarySheets)
    {
      if |employees| != 0 {
        return;
      }
      assert employees == map[];
      InsertEmployees(SampleEmployeesAsWritten());
    }

    /** The insert loop of the seeding: one row per element, each under the next fresh id, in order. */
    method InsertEmployees(rows: seq<NewEmployee>)
      requires Valid()
      requires forall i | 0 <= i < |rows| :: FillsRequiredColumns(rows[i]) && CanonicalSlots(rows[i].attendance)
      modifies this
      ensures Valid()
      ensures nextId == old(nextId) + |rows|
      ensures forall k :: k in employees <==> k in old(employees) || old(nextId) <= k < nextId
      ensures forall k | k in old(employees) :: employees[k] == old(employees)[k]
      ensures forall i | 0 <= i < |rows| :: employees[old(nextId) + i] == WithId(old(nextId) + i, rows[i])
      ensures designations == old(designations) && salarySheets == old(salarySheets)
    {
      for i := 0 to |rows|
        invariant Valid()
        invariant nextId == old(nextId) + i
        invariant forall k :: k in employees <==> k in old(employees) || old(nextId) <= k < nextId
        invariant forall k | k in old(employees) :: employees[k] == old(employees)[k]
        invariant forall j | 0 <= j < i :: employees[old(nextId) + j] == WithId(old(nextId) + j, rows[j])
        invariant designations == old(designations) && salarySheets == old(salarySheets)
      {
        var created := CreateEmployee(rows[i]);
        assert created == Some(WithId(old(nextId) + i, rows[i]));
      }
    }

    // ------------------------------------------------------------------------------ designations

    /** `getDesignations`: exactly the rows whose active flag is 1, each once. */
    method GetDesignations() returns (rows: seq<Designation>)
      requires Valid()
      ensures forall i | 0 <= i < |rows| :: rows[i].id in designations && designations[rows[i].id] == rows[i]
      ensures forall i | 0 <= i < |rows| :: rows[i].isActive == 1
      ensures forall k | k in designations && designations[k].isActive == 1
                :: exists i | 0 <= i < |rows| :: rows[i].id == k
      ensures forall i, j | 0 <= i < j < |rows| :: rows[i].id != rows[j].id
    {
      var ids := SelectKeys(designations, (d: Designation) => d.isActive == 1);
      rows := [];
      for i := 0 to |ids|
        invariant |rows| == i
        invariant forall j | 0 <= j < i :: rows[j] == designations[ids[j]] && rows[j].id == ids[j]
      {
        rows := rows + [designations[ids[i]]];
      }
      forall k | k in designations && designations[k].isActive == 1
        ensures exists i | 0 <= i < |rows| :: rows[i].id == k
      {
        assert k in ids;
        var i :| 0 <= i < |ids| && ids[i] == k;
        assert rows[i].id == k;
      }
    }

    method GetDesignation(id: Id) returns (r: Option<Designation>)
      requires Valid()
      ensures r.Some? <==> id in designations
      ensures r.Some? ==> r.value == designations[id] && r.value.id == id
    {
      r := if id in designations then Some(designations[id]) else None;
    }

    method CreateDesignation(designation: NewDesignation) returns (r: Designation)
      requires Valid()
      modifies this
      ensures Valid()
      ensures r.id !in old(designations) && r.name == designation.name && r.isActive == designation.isActive
      ensures designations == old(designations)[r.id := r]
      ensures employees == old(employees) && salarySheets == old(salarySheets)
    {
      var id := FreshId();
      r := Designation(id, designation.name, designation.isActive);
      designations := designations[id := r];
    }

    method UpdateDesignation(id: Id, patch: DesignationPatch) returns (r: Option<Designation>)
      requires Valid()
      modifies this
      ensures Valid()
      ensures id !in old(designations) ==> r.None? && designations == old(designations)
      ensures id in old(designations) ==> r == Some(MergeDesignation(old(designations)[id], patch))
      ensures id in old(designations) ==> designations == old(designations)[id := r.value]
      ensures employees == old(employees) && salarySheets == old(salarySheets) && nextId == old(nextId)
    {
      var existing := GetDesignation(id);
      if existing.None? {
        return None;
      }
      var updated := MergeDesignation(existing.value, patch);
      designations := designations[id := updated];
      r := Some(updated);
    }

    method DeleteDesignation(id: Id) returns (deleted: bool)
      requires Valid()
      modifies this
      ensures Valid()
      ensures deleted <==> id in old(designations)
      ensures designations == old(designations) - {id}
      ensures employees == old(employees) && salarySheets == old(salarySheets) && nextId == old(nextId)
    {
      deleted := id in designations;
      designations := designations - {id};
    }

    // ------------------------------------------------------------------------------ salary sheets

    method GetSalarySheets() returns (rows: seq<SalarySheet>)
      requires Valid()
      ensures |rows| == |salarySheets|
      ensures forall i | 0 <= i < |rows| :: rows[i].id in salarySheets && salarySheets[rows[i].id] == rows[i]
      ensures forall i, j | 0 <= i < j < |rows| :: rows[i].id != rows[j].id
    {
      var ids := SelectKeys(salarySheets, (_: SalarySheet) => true);
      rows := [];
      for i := 0 to |ids|
        invariant |rows| == i
        invariant forall j | 0 <= j < i :: rows[j] == salarySheets[ids[j]] && rows[j].id == ids[j]
      {
        rows := rows + [salarySheets[ids[i]]];
      }
      DistinctKeysCover(ids, salarySheets.Keys);
    }

    method GetSalarySheet(id: Id) returns (r: Option<SalarySheet>)
      requires Valid()
      ensures r.Some? <==> id in salarySheets
      ensures r.Some? ==> r.value == salarySheets[id] && r.value.id == id
    {
      r := if id in salarySheets then Some(salarySheets[id]) else None;
    }

    method CreateSalarySheet(sheet: NewSalarySheet) returns (r: SalarySheet)
      requires Valid()
      modifies this
      ensures Valid()
      ensures r.id !in old(salarySheets) && r == SheetWithId(r.id, sheet)
      ensures salarySheets == old(salarySheets)[r.id := r]
      ensures employees == old(employees) && designations == old(designations)
    {
      var id := FreshId();
      r := SheetWithId(id, sheet);
      salarySheets := salarySheets[id := r];
    }

    method UpdateSalarySheet(id: Id, patch: SalarySheetPatch) returns (r: Option<SalarySheet>)
      requires Valid()
      modifies this
      ensures Valid()
      ensures id !in old(salarySheets) ==> r.None? && salarySheets == old(salarySheets)
      ensures id in old(salarySheets) ==> r == Some(MergeSalarySheet(old(salarySheets)[id], patch))
      ensures id in old(salarySheets) ==> salarySheets == old(salarySheets)[id := r.value]
      ensures employees == old(employees) && designations == old(designations) && nextId == old(nextId)
    {
      var existing := GetSalarySheet(id);
      if existing.None? {
        return None;
      }
      var updated := MergeSalarySheet(existing.value, patch);
      salarySheets := salarySheets[id := updated];
      r := Some(updated);
    }

    method DeleteSalarySheet(id: Id) returns (deleted: bool)
      requires Valid()
      modifies this
      ensures Valid()
      ensures deleted <==> id in old(salarySheets)
      ensures salarySheets == old(salarySheets) - {id}
      ensures employees == old(employees) && designations == old(designations) && nextId == old(nextId)
    {
      deleted := id in salarySheets;
      salarySheets := salarySheets - {id};
    }
  }
}
