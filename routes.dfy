/**
 * The HTTP handlers over the store: each validates its input, makes at most one store change and
 * answers with a status code and a reply.
 */
module Routes {
  import opened Wrappers
  import opened Schema
  import opened Storage
  import SalaryManagement

  datatype Reply =
    | EmployeeReply(employee: Employee)
    | EmployeesReply(employees: seq<Employee>)
    | DesignationReply(designation: Designation)
    | DesignationsReply(designations: seq<Designation>)
    | Message(message: string)
    | NoContent

  datatype Response = Response(status: int, reply: Reply)

  const NotFound := Response(404, Message("Employee not found"))
  const InvalidEmployee := Response(400, Message("Invalid employee data"))
  const InvalidDay := Response(400, Message("Invalid day index"))
  const InvalidCode := Response(400, Message("Invalid attendance code"))
  const CreateFailed := Response(500, Message("Failed to create employee"))

  /** The attendance sequence with slot d set to c; a slot past the end grows the sequence with holes. */
  function SetSlot(a: seq<Slot>, d: nat, c: Code): (r: seq<Slot>)
    ensures |r| == if d < |a| then |a| else d + 1
    ensures CanonicalSlots(a) && Canonical(c) ==> CanonicalSlots(r)
  {
    if d < |a| then a[d := Some(c)] else a + seq(d - |a|, _ => None) + [Some(c)]
  }

  /** Exactly slot d changes: it reads c afterwards and every other index reads what it read before. */
  lemma SetSlotLookup(a: seq<Slot>, d: nat, c: Code, i: nat)
    ensures Lookup(SetSlot(a, d, c), i) == if i == d then Some(c) else Lookup(a, i)
  {
    var r := SetSlot(a, d, c);
    if d >= |a| && |a| <= i < d {
      assert r[i] == seq(d - |a|, _ => None)[i - |a|];
    }
  }

  /** Marking a day at or past totalDays leaves the month's count unchanged. */
  lemma SetSlotPastMonth(a: seq<Slot>, d: nat, c: Code, totalDays: nat)
    requires d >= totalDays
    ensures SalaryManagement.HalfDays(SetSlot(a, d, c), totalDays) == SalaryManagement.HalfDays(a, totalDays)
  {
    forall i: nat | i < totalDays
      ensures Lookup(SetSlot(a, d, c), i) == Lookup(a, i)
    {
      SetSlotLookup(a, d, c, i);
    }
    SalaryManagement.HalfDaysReadsPrefix(SetSlot(a, d, c), a, totalDays);
  }

  /** `parseInt(day)` passed the guard. */
  predicate DayInRange(day: Option<int>) {
    day.Some? && 0 <= day.value < 31
  }

  /** GET /api/employees. */
  method GetEmployees(store: Store) returns (r: Response)
    requires store.Valid()
    ensures r.status == 200 && r.reply.EmployeesReply?
    ensures |r.reply.employees| == |store.employees|
    ensures forall e | e in r.reply.employees :: e.id in store.employees && store.employees[e.id] == e
    ensures forall i, j | 0 <= i < j < |r.reply.employees| :: r.reply.employees[i].id != r.reply.employees[j].id
    ensures forall k | k in store.employees :: store.employees[k] in r.reply.employees
  {
    var rows := store.GetEmployees();
    r := Response(200, EmployeesReply(rows));
    forall k | k in store.employees
      ensures store.employees[k] in rows
    {
      var i :| 0 <= i < |rows| && rows[i].id == k;
    }
  }

  /** GET /api/employees/:id. */
  method GetEmployee(store: Store, id: Id) returns (r: Response)
    requires store.Valid()
    ensures id !in store.employees ==> r == NotFound
    ensures id in store.employees ==> r == Response(200, EmployeeReply(store.employees[id]))
  {
    var employee := store.GetEmployee(id);
    if employee.None? {
      return NotFound;
    }
    r := Response(200, EmployeeReply(employee.value));
  }

  /**
   * POST /api/employees: 400 and no row for a body the insert schema rejects. A body it accepts has
   * lost any rates, so the insert leaves the required rate columns empty and fails: 500 and no row.
   * The 201 branch of the source is kept, but no parsed body reaches it.
   */
  method PostEmployee(store: Store, body: Body) returns (r: Response)
    requires store.Valid()
    modifies store
    ensures store.Valid()
    ensures ParseInsertEmployee(body).Failure? ==> r == InvalidEmployee && unchanged(store)
    ensures ParseInsertEmployee(body).Success? ==> r == CreateFailed && store.employees == old(store.employees)
    ensures store.designations == old(store.designations) && store.salarySheets == old(store.salarySheets)
  {
    var validated := ParseInsertEmployee(body);
    if validated.Failure? {
      return InvalidEmployee;
    }
    var employee := store.CreateEmployee(validated.value);
    match employee
    case None => r := CreateFailed;
    case Some(created) => r := Response(201, EmployeeReply(created));
  }

  /** PUT /api/employees/:id: 400 for a rejected body, 404 for a missing row, otherwise the merged row. */
  method PutEmployee(store: Store, id: Id, body: Body) returns (r: Response)
    requires store.Valid()
    modifies store
    ensures store.Valid()
    ensures ParseEmployeePatch(body).Failure? ==> r == InvalidEmployee && unchanged(store)
    ensures ParseEmployeePatch(body).Success? && id !in old(store.employees) ==>
      r == NotFound && store.employees == old(store.employees)
    ensures ParseEmployeePatch(body).Success? && id in old(store.employees) ==>
      && var e := MergeEmployee(old(store.employees)[id], ParseEmployeePatch(body).value);
      && r == Response(200, EmployeeReply(e))
      && store.employees == old(store.employees)[id := e]
    ensures store.designations == old(store.designations) && store.salarySheets == old(store.salarySheets)
    ensures store.nextId == old(store.nextId)
  {
    var validated := ParseEmployeePatch(body);
    if validated.Failure? {
      return InvalidEmployee;
    }
    var employee := store.UpdateEmployee(id, validated.value);
    if employee.None? {
      return NotFound;
    }
    r := Response(200, EmployeeReply(employee.value));
  }

  /** DELETE /api/employees/:id: 204 when the row existed, 404 otherwise; the row is gone either way. */
  method DeleteEmployee(store: Store, id: Id) returns (r: Response)
    requires store.Valid()
    modifies store
    ensures store.Valid()
    ensures r == if id in old(store.employees) then Response(204, NoContent) else NotFound
    ensures store.employees == old(store.employees) - {id}
    ensures store.designations == old(store.designations) && store.salarySheets == old(store.salarySheets)
    ensures store.nextId == old(store.nextId)
  {
    var deleted := store.DeleteEmployee(id);
    r := if deleted then Response(204, NoContent) else NotFound;
  }

  /**
   * PUT /api/employees/:id/attendance: the day is checked first, then the code, then the row; only
   * when all three pass is the copied attendance, with that one slot replaced, written back.
   */
  method PutAttendance(store: Store, id: Id, day: Option<int>, code: Json) returns (r: Response)
    requires store.Valid()
    modifies store
    ensures store.Valid()
    ensures !DayInRange(day) ==> r == InvalidDay && unchanged(store)
    ensures DayInRange(day) && ValidateCode(code).None? ==> r == InvalidCode && unchanged(store)
    ensures DayInRange(day) && ValidateCode(code).Some? && id !in old(store.employees) ==>
      r == NotFound && unchanged(store)
    ensures DayInRange(day) && ValidateCode(code).Some? && id in old(store.employees) ==>
      && var before := old(store.employees)[id];
      && var after := before.(attendance := SetSlot(before.attendance, day.value, ValidateCode(code).value));
      && r == Response(200, EmployeeReply(after))
      && store.employees == old(store.employees)[id := after]
    ensures store.designations == old(store.designations) && store.salarySheets == old(store.salarySheets)
    ensures store.nextId == old(store.nextId)
  {
    if day.None? || day.value < 0 || day.value >= 31 {
      return InvalidDay;
    }
    var dayIndex: nat := day.value;
    var validatedCode := ValidateCode(code);
    if validatedCode.None? {
      return InvalidCode;
    }
    var employee := store.GetEmployee(id);
    if employee.None? {
      return NotFound;
    }
    var attendance := employee.value.attendance;
    var updatedAttendance := new Slot[if dayIndex < |attendance| then |attendance| else dayIndex + 1]
      (i => if 0 <= i < |attendance| then attendance[i] else None);
    updatedAttendance[dayIndex] := Some(validatedCode.value);
    assert updatedAttendance[..] == SetSlot(attendance, dayIndex, validatedCode.value) by {
      var expected := SetSlot(attendance, dayIndex, validatedCode.value);
      forall i | 0 <= i < updatedAttendance.Length
        ensures updatedAttendance[i] == expected[i]
      {
        SetSlotLookup(attendance, dayIndex, validatedCode.value, i);
        assert Lookup(expected, i) == expected[i];
      }
    }
    var updatedEmployee := store.UpdateEmployee(id, AttendancePatch(updatedAttendance[..]));
    MergeEmployeeFields(employee.value, AttendancePatch(updatedAttendance[..]));
    r := Response(200, EmployeeReply(updatedEmployee.value));
  }

  /** GET /api/designations: the active designations. */
  method GetDesignations(store: Store) returns (r: Response)
    requires store.Valid()
    ensures r.status == 200 && r.reply.DesignationsReply?
    ensures forall d | d in r.reply.designations :: d.isActive == 1 && d.id in store.designations && store.designations[d.id] == d
    ensures forall k | k in store.designations && store.designations[k].isActive == 1 ::
      store.designations[k] in r.reply.designations
    ensures forall i, j | 0 <= i < j < |r.reply.designations| ::
      r.reply.designations[i].id != r.reply.designations[j].id
  {
    var rows := store.GetDesignations();
    r := Response(200, DesignationsReply(rows));
    forall k | k in store.designations && store.designations[k].isActive == 1
      ensures store.designations[k] in rows
    {
      var i :| 0 <= i < |rows| && rows[i].id == k;
    }
  }

  /** POST /api/designations, given the outcome of validating the body. */
  method PostDesignation(store: Store, validated: Result<NewDesignation, string>) returns (r: Response)
    requires store.Valid()
    modifies store
    ensures store.Valid()
    ensures validated.Failure? ==> r == Response(400, Message("Invalid designation data")) && unchanged(store)
    ensures validated.Success? ==>
      && r.status == 201 && r.reply.DesignationReply?
      && var d := r.reply.designation;
      && d.id !in old(store.designations)
      && NewDesignation(d.name, d.isActive) == validated.value
      && store.designations == old(store.designations)[d.id := d]
    ensures store.employees == old(store.employees) && store.salarySheets == old(store.salarySheets)
  {
    if validated.Failure? {
      return Response(400, Message("Invalid designation data"));
    }
    var designation := store.CreateDesignation(validated.value);
    r := Response(201, DesignationReply(designation));
  }

  /** DELETE /api/designations/:id. */
  method DeleteDesignation(store: Store, id: Id) returns (r: Response)
    requires store.Valid()
    modifies store
    ensures store.Valid()
    ensures r == if id in old(store.designations) then Response(204, NoContent)
                 else Response(404, Message("Designation not found"))
    ensures store.designations == old(store.designations) - {id}
    ensures store.employees == old(store.employees) && store.salarySheets == old(store.salarySheets)
    ensures store.nextId == old(store.nextId)
  {
    var deleted := store.DeleteDesignation(id);
    r := if deleted then Response(204, NoContent) else Response(404, Message("Designation not found"));
  }
}
