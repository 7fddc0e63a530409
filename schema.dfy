/**
 * Record shapes and boundary validators of the payroll application: attendance codes, employees,
 * designations and salary sheets, and the request-body parsers built from the insert schemas.
 */
module Schema {
  import opened Wrappers

  /** Record identifiers; the store hands out fresh ones in place of random UUIDs. */
  type Id = nat

  /**
   * A stored attendance marker. NONE is the "unset" marker the seeded rows carry; any other stored
   * string is kept verbatim as Other.
   */
  datatype Code = NONE | P | A | H | PP | Other(text: string)

  /** One entry of an attendance array; None is a hole or a JSON null. */
  type Slot = Option<Code>

  const CodeNames: seq<string> := ["NONE", "P", "A", "H", "PP"]

  function CodeText(c: Code): string {
    match c
    case NONE => "NONE"
    case P => "P"
    case A => "A"
    case H => "H"
    case PP => "PP"
    case Other(s) => s
  }

  /** Other never holds the text of a named marker, so each stored string has one Code. */
  predicate Canonical(c: Code) {
    c.Other? ==> c.text !in CodeNames
  }

  predicate CanonicalSlots(a: seq<Slot>) {
    forall i | 0 <= i < |a| :: a[i].Some? ==> Canonical(a[i].value)
  }

  /** The Code a stored string stands for. */
  function ParseCode(s: string): (c: Code)
    ensures Canonical(c) && CodeText(c) == s
  {
    if s == "NONE" then NONE
    else if s == "P" then P
    else if s == "A" then A
    else if s == "H" then H
    else if s == "PP" then PP
    else Other(s)
  }

  lemma ParseCodeOfText(c: Code)
    requires Canonical(c)
    ensures ParseCode(CodeText(c)) == c
  {
  }

  /** The codes `attendanceCodeSchema` accepts. */
  predicate Accepted(c: Code) {
    c.P? || c.A? || c.H? || c.PP?
  }

  const AttendanceCodes: seq<Code> := [P, A, H, PP]

  /** The attendance entry at index i; a hole and an index past the end both read as None. */
  function Lookup(a: seq<Slot>, i: nat): Slot {
    if i < |a| then a[i] else None
  }

  /** A JSON value as a request body carries it. */
  datatype Json =
    | JNull
    | JBool(b: bool)
    | JNumber(x: real)
    | JString(s: string)
    | JArray(items: seq<Json>)
    | JObject(fields: map<string, Json>)

  type Body = map<string, Json>

  /** `attendanceCodeSchema.parse`: a string naming one of the four accepted codes, or a rejection. */
  function ValidateCode(v: Json): (r: Option<Code>)
    ensures r.Some? <==> v.JString? && v.s in ["P", "A", "H", "PP"]
    ensures r.Some? ==> Accepted(r.value) && v == JString(CodeText(r.value))
  {
    if v.JString? && Accepted(ParseCode(v.s)) then Some(ParseCode(v.s)) else None
  }

  /** An employee row: the columns of the employees table. */
  datatype Employee = Employee(
    id: Id,
    name: string,
    position: string,
    basic: int,
    hra: int,
    allowance: int,
    esiRate: Option<int>,
    pfRate: Option<int>,
    otherDeduction: Option<int>,
    attendance: seq<Slot>)

  /** `InsertEmployee`: every employee column except the id. */
  datatype NewEmployee = NewEmployee(
    name: string,
    position: string,
    basic: int,
    hra: int,
    allowance: int,
    esiRate: Option<int>,
    pfRate: Option<int>,
    otherDeduction: Option<int>,
    attendance: seq<Slot>)

  /** `Partial<InsertEmployee>`: the fields a body supplies; None means the key was absent. */
  datatype EmployeePatch = EmployeePatch(
    name: Option<string>,
    position: Option<string>,
    basic: Option<int>,
    hra: Option<int>,
    allowance: Option<int>,
    esiRate: Option<int>,
    pfRate: Option<int>,
    otherDeduction: Option<int>,
    attendance: Option<seq<Slot>>)

  /** The partial that supplies no field. */
  const EmptyPatch: EmployeePatch := EmployeePatch(None, None, None, None, None, None, None, None, None)

  function WithId(id: Id, e: NewEmployee): (r: Employee)
    ensures r.id == id && WithoutId(r) == e
  {
    Employee(id, e.name, e.position, e.basic, e.hra, e.allowance, e.esiRate, e.pfRate,
             e.otherDeduction, e.attendance)
  }

  function WithoutId(e: Employee): NewEmployee {
    NewEmployee(e.name, e.position, e.basic, e.hra, e.allowance, e.esiRate, e.pfRate,
                e.otherDeduction, e.attendance)
  }

  /** A designation row; only rows whose flag is 1 are listed. */
  datatype Designation = Designation(id: Id, name: string, isActive: int)

  datatype NewDesignation = NewDesignation(name: string, isActive: int)

  datatype DesignationPatch = DesignationPatch(name: Option<string>, isActive: Option<int>)

  /** A salary-sheet row: a month's snapshot of employee data. */
  datatype SalarySheet = SalarySheet(
    id: Id, month: string, year: int, totalDays: int, employeeData: seq<Json>)

  /** `InsertSalarySheet`: month, year, totalDays and employeeData, and no id. */
  datatype NewSalarySheet = NewSalarySheet(
    month: string, year: int, totalDays: int, employeeData: seq<Json>)

  datatype SalarySheetPatch = SalarySheetPatch(
    month: Option<string>, year: Option<int>, totalDays: Option<int>,
    employeeData: Option<seq<Json>>)

  function SheetWithId(id: Id, s: NewSalarySheet): (r: SalarySheet)
    ensures r.id == id
    ensures NewSalarySheet(r.month, r.year, r.totalDays, r.employeeData) == s
  {
    SalarySheet(id, s.month, s.year, s.totalDays, s.employeeData)
  }

  // ---------------------------------------------------------------------------------------------
  // Request-body parsing against `insertEmployeeSchema` and its `.partial()`

  predicate IsInteger(x: real) {
    x.Floor as real == x
  }

  /** A required text column. */
  function TextField(body: Body, key: string): (r: Result<string, string>)
    ensures r.Success? <==> key in body && body[key].JString?
    ensures r.Success? ==> body[key] == JString(r.value)
  {
    if key in body && body[key].JString? then Success(body[key].s) else Failure(key)
  }

  /** A required integer column: a JSON number with no fractional part. */
  function IntegerField(body: Body, key: string): (r: Result<int, string>)
    ensures r.Success? <==> key in body && body[key].JNumber? && IsInteger(body[key].x)
    ensures r.Success? ==> body[key] == JNumber(r.value as real)
  {
    if key in body && body[key].JNumber? && IsInteger(body[key].x) then Success(body[key].x.Floor)
    else Failure(key)
  }

  function SlotJson(s: Slot): Json {
    match s
    case None => JNull
    case Some(c) => JString(CodeText(c))
  }

  function SlotsJson(a: seq<Slot>): seq<Json>
    decreases |a|
  {
    if a == [] then [] else [SlotJson(a[0])] + SlotsJson(a[1..])
  }

  /** An attendance array: strings become codes and nulls become holes. */
  function ParseSlots(items: seq<Json>): (r: Option<seq<Slot>>)
    ensures r.Some? ==> |r.value| == |items| && CanonicalSlots(r.value)
    decreases |items|
  {
    if items == [] then Some([])
    else
      var head: Option<Slot> :=
        match items[0]
        case JNull => Some(None)
        case JString(s) => Some(Some(ParseCode(s)))
        case _ => None;
      if head.None? then None
      else
        match ParseSlots(items[1..])
        case None => None
        case Some(rest) => Some([head.value] + rest)
  }

  /** The attendance column: absent means the declared default, the empty array. */
  function AttendanceField(body: Body): (r: Result<seq<Slot>, string>)
    ensures "attendance" !in body ==> r == Success([])
  {
    if "attendance" !in body then Success([])
    else if body["attendance"].JArray? && ParseSlots(body["attendance"].items).Some? then
      Success(ParseSlots(body["attendance"].items).value)
    else Failure("attendance")
  }

  /** The key holds a string. */
  predicate IsText(body: Body, key: string) {
    key in body && body[key].JString?
  }

  /** The key holds a whole number. */
  predicate IsIntegerValue(body: Body, key: string) {
    key in body && body[key].JNumber? && IsInteger(body[key].x)
  }

  /** The key holds an array of strings and nulls. */
  predicate IsSlots(body: Body, key: string) {
    key in body && body[key].JArray? && ParseSlots(body[key].items).Some?
  }

  /** The employees table declares every rate column `NOT NULL`: a row must carry all three. */
  predicate FillsRequiredColumns(e: NewEmployee) {
    e.esiRate.Some? && e.pfRate.Some? && e.otherDeduction.Some?
  }

  /**
   * `insertEmployeeSchema.parse`: name and position are strings, basic, hra and allowance integers,
   * attendance optional. The schema has no rate columns, so those keys are dropped.
   */
  function ParseInsertEmployee(body: Body): (r: Result<NewEmployee, string>)
    ensures r.Success? <==>
      && IsText(body, "name") && IsText(body, "position")
      && IsIntegerValue(body, "basic") && IsIntegerValue(body, "hra") && IsIntegerValue(body, "allowance")
      && ("attendance" in body ==> IsSlots(body, "attendance"))
    ensures r.Success? ==>
      && body["name"] == JString(r.value.name) && body["position"] == JString(r.value.position)
      && body["basic"] == JNumber(r.value.basic as real) && body["hra"] == JNumber(r.value.hra as real)
      && body["allowance"] == JNumber(r.value.allowance as real)
    ensures r.Success? ==>
      r.value.attendance == if "attendance" in body then ParseSlots(body["attendance"].items).value else []
    ensures r.Success? ==> r.value.esiRate.None? && r.value.pfRate.None? && r.value.otherDeduction.None?
  {
    var name :- TextField(body, "name");
    var position :- TextField(body, "position");
    var basic :- IntegerField(body, "basic");
    var hra :- IntegerField(body, "hra");
    var allowance :- IntegerField(body, "allowance");
    var attendance :- AttendanceField(body);
    Success(NewEmployee(name, position, basic, hra, allowance, None, None, None, attendance))
  }

  /** An optional rate key of a full body: absent reads as 0, present must be an integer. */
  function RateField(body: Body, key: string): (r: Result<int, string>)
    ensures key !in body ==> r == Success(0)
    ensures key in body ==> (r.Success? <==> IsIntegerValue(body, key))
    ensures r.Success? && key in body ==> body[key] == JNumber(r.value as real)
  {
    var rate :- OptionalInteger(body, key);
    Success(rate.GetOr(0))
  }

  /**
   * The insert schema with the three rate columns the table requires, each optional and 0 when
   * absent (the fallback the export applies to a missing rate): it accepts what the schema above
   * accepts, plus well-typed rates, and always fills the rate columns.
   */
  function ParseInsertEmployeeWithRates(body: Body): (r: Result<NewEmployee, string>)
    ensures r.Success? <==>
      && ParseInsertEmployee(body).Success?
      && ("esi_rate" in body ==> IsIntegerValue(body, "esi_rate"))
      && ("pf_rate" in body ==> IsIntegerValue(body, "pf_rate"))
      && ("other_deduction" in body ==> IsIntegerValue(body, "other_deduction"))
    ensures r.Success? ==> FillsRequiredColumns(r.value)
    ensures r.Success? ==>
      r.value.(esiRate := None, pfRate := None, otherDeduction := None) == ParseInsertEmployee(body).value
    ensures r.Success? ==>
      && r.value.esiRate == Some(RateField(body, "esi_rate").value)
      && r.value.pfRate == Some(RateField(body, "pf_rate").value)
      && r.value.otherDeduction == Some(RateField(body, "other_deduction").value)
  {
    var employee :- ParseInsertEmployee(body);
    var esiRate :- RateField(body, "esi_rate");
    var pfRate :- RateField(body, "pf_rate");
    var otherDeduction :- RateField(body, "other_deduction");
    Success(employee.(esiRate := Some(esiRate), pfRate := Some(pfRate), otherDeduction := Some(otherDeduction)))
  }

  /** An optional text key of a partial body: absent is fine, present must be a string. */
  function OptionalText(body: Body, key: string): (r: Result<Option<string>, string>)
    ensures key !in body ==> r == Success(None)
  {
    if key !in body then Success(None)
    else if body[key].JString? then Success(Some(body[key].s))
    else Failure(key)
  }

  function OptionalInteger(body: Body, key: string): (r: Result<Option<int>, string>)
    ensures key !in body ==> r == Success(None)
    ensures key in body ==> (r.Success? <==> IsIntegerValue(body, key))
    ensures r.Success? && key in body ==> r.value == Some(body[key].x.Floor) && body[key] == JNumber(body[key].x.Floor as real)
  {
    if key !in body then Success(None)
    else if body[key].JNumber? && IsInteger(body[key].x) then Success(Some(body[key].x.Floor))
    else Failure(key)
  }

  function OptionalSlots(body: Body): (r: Result<Option<seq<Slot>>, string>)
    ensures "attendance" !in body ==> r == Success(None)
  {
    if "attendance" !in body then Success(None)
    else if body["attendance"].JArray? && ParseSlots(body["attendance"].items).Some? then
      Success(Some(ParseSlots(body["attendance"].items).value))
    else Failure("attendance")
  }

  /** `insertEmployeeSchema.partial().parse`: every key optional, every present key well typed. */
  function ParseEmployeePatch(body: Body): (r: Result<EmployeePatch, string>)
    ensures r.Success? <==>
      && ("name" in body ==> IsText(body, "name")) && ("position" in body ==> IsText(body, "position"))
      && ("basic" in body ==> IsIntegerValue(body, "basic")) && ("hra" in body ==> IsIntegerValue(body, "hra"))
      && ("allowance" in body ==> IsIntegerValue(body, "allowance"))
      && ("attendance" in body ==> IsSlots(body, "attendance"))
    ensures r.Success? ==>
      && (r.value.name.Some? <==> "name" in body) && (r.value.position.Some? <==> "position" in body)
      && (r.value.basic.Some? <==> "basic" in body) && (r.value.hra.Some? <==> "hra" in body)
      && (r.value.allowance.Some? <==> "allowance" in body)
      && (r.value.attendance.Some? <==> "attendance" in body)
    ensures r.Success? ==>
      && (r.value.name.Some? ==> body["name"] == JString(r.value.name.value))
      && (r.value.position.Some? ==> body["position"] == JString(r.value.position.value))
      && (r.value.basic.Some? ==> body["basic"] == JNumber(r.value.basic.value as real))
      && (r.value.hra.Some? ==> body["hra"] == JNumber(r.value.hra.value as real))
      && (r.value.allowance.Some? ==> body["allowance"] == JNumber(r.value.allowance.value as real))
      && (r.value.attendance.Some? ==> Some(r.value.attendance.value) == ParseSlots(body["attendance"].items))
    ensures r.Success? ==> r.value.esiRate.None? && r.value.pfRate.None? && r.value.otherDeduction.None?
    ensures body == map[] ==> r == Success(EmptyPatch)
  {
    var name :- OptionalText(body, "name");
    var position :- OptionalText(body, "position");
    var basic :- OptionalInteger(body, "basic");
    var hra :- OptionalInteger(body, "hra");
    var allowance :- OptionalInteger(body, "allowance");
    var attendance :- OptionalSlots(body);
    Success(EmployeePatch(name, position, basic, hra, allowance, None, None, None, attendance))
  }

  /** Reading back an encoded attendance array restores it. */
  lemma {:induction false} ParseSlotsJson(a: seq<Slot>)
    requires CanonicalSlots(a)
    ensures ParseSlots(SlotsJson(a)) == Some(a)
    decreases |a|
  {
    if a != [] {
      assert CanonicalSlots(a[1..]) by {
        forall i | 0 <= i < |a[1..]| ensures a[1..][i].Some? ==> Canonical(a[1..][i].value) {
          assert a[1..][i] == a[i + 1];
        }
      }
      ParseSlotsJson(a[1..]);
      if a[0].Some? {
        ParseCodeOfText(a[0].value);
      }
      assert SlotsJson(a)[1..] == SlotsJson(a[1..]);
      assert [a[0]] + a[1..] == a;
    }
  }

  /** The JSON body a client sends for the six columns of the insert schema. */
  function EmployeeBody(name: string, position: string, basic: int, hra: int, allowance: int,
                        attendance: seq<Slot>): Body
  {
    map["name" := JString(name), "position" := JString(position),
        "basic" := JNumber(basic as real), "hra" := JNumber(hra as real),
        "allowance" := JNumber(allowance as real), "attendance" := JArray(SlotsJson(attendance))]
  }

  /** A full body parses back into the record it was built from, with no rates. */
  lemma ParseEmployeeBody(name: string, position: string, basic: int, hra: int, allowance: int,
                          attendance: seq<Slot>)
    requires CanonicalSlots(attendance)
    ensures ParseInsertEmployee(EmployeeBody(name, position, basic, hra, allowance, attendance))
            == Success(NewEmployee(name, position, basic, hra, allowance, None, None, None, attendance))
    ensures ParseEmployeePatch(EmployeeBody(name, position, basic, hra, allowance, attendance))
            == Success(EmployeePatch(Some(name), Some(position), Some(basic), Some(hra),
                                     Some(allowance), None, None, None, Some(attendance)))
  {
    ParseSlotsJson(attendance);
    assert (basic as real).Floor == basic;
    assert (hra as real).Floor == hra;
    assert (allowance as real).Floor == allowance;
  }
}
