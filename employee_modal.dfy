/** The add/edit employee dialog: the form's values, its validation rule and what submitting sends. */
module EmployeeModal {
  import opened Wrappers
  import opened Schema

  /** The six inputs of the form. */
  datatype FormValues = FormValues(
    name: string, position: string, basic: int, hra: int, allowance: int, attendance: seq<Slot>)

  /** `formSchema`: a name and a position, a basic salary of at least 1 and no negative HRA or allowance. */
  predicate FormValid(v: FormValues) {
    |v.name| >= 1 && |v.position| >= 1 && v.basic >= 1 && v.hra >= 0 && v.allowance >= 0
  }

  /** A money input keeps `parseInt(text) || 0`: text that does not parse (NaN) becomes 0. */
  function MoneyInput(parsed: Option<int>): (amount: int)
    ensures parsed.None? ==> amount == 0
    ensures parsed.Some? ==> amount == parsed.value
  {
    parsed.GetOr(0)
  }

  /** What the dialog shows for a new employee. */
  function DefaultValues(): (v: FormValues)
    ensures v.name == "" && v.position == ""
    ensures v.basic == 15000 && v.hra == 3000 && v.allowance == 1000
    ensures |v.attendance| == 31 && forall i | 0 <= i < 31 :: v.attendance[i] == Some(P)
  {
    FormValues("", "", 15000, 3000, 1000, seq(31, _ => Some(P)))
  }

  /** `isEditing`: the dialog was opened on an existing employee. */
  predicate IsEditing(employee: Option<Employee>) {
    employee.Some?
  }

  /** The values the form is reset to: the employee's own fields when editing, the defaults otherwise. */
  function InitialValues(employee: Option<Employee>): (v: FormValues)
    ensures !IsEditing(employee) ==> v == DefaultValues()
    ensures IsEditing(employee) ==>
      && v.name == employee.value.name && v.position == employee.value.position
      && v.basic == employee.value.basic && v.hra == employee.value.hra
      && v.allowance == employee.value.allowance && v.attendance == employee.value.attendance
  {
    match employee
    case None => DefaultValues()
    case Some(e) => FormValues(e.name, e.position, e.basic, e.hra, e.allowance, e.attendance)
  }

  /** The JSON body the dialog sends: exactly the six form fields. */
  function FormBody(v: FormValues): Body {
    EmployeeBody(v.name, v.position, v.basic, v.hra, v.allowance, v.attendance)
  }

  datatype Submission = CreateRequest(body: Body) | UpdateRequest(id: Id, body: Body)

  /**
   * `onSubmit` behind the resolver: an invalid form sends nothing; a valid one is a PUT to the
   * employee's id when editing and a POST otherwise, carrying the form's values.
   */
  function Submit(employee: Option<Employee>, v: FormValues): (r: Option<Submission>)
    ensures r.Some? <==> FormValid(v)
    ensures r.Some? ==> (r.value.UpdateRequest? <==> IsEditing(employee))
    ensures r.Some? && r.value.UpdateRequest? ==> r.value.id == employee.value.id
    ensures r.Some? ==> r.value.body == FormBody(v)
  {
    if !FormValid(v) then None
    else if IsEditing(employee) then Some(UpdateRequest(employee.value.id, FormBody(v)))
    else Some(CreateRequest(FormBody(v)))
  }

  /** The untouched add form cannot be submitted: the name and the position are still empty. */
  lemma DefaultsNeedNameAndPosition(name: string, position: string)
    ensures !FormValid(DefaultValues())
    ensures FormValid(DefaultValues().(name := name, position := position)) <==> |name| >= 1 && |position| >= 1
  {
  }

  /** A basic-salary field that does not parse, or reads 0, always fails validation. */
  lemma EmptyBasicFails(v: FormValues, parsed: Option<int>)
    requires parsed.None? || parsed.value < 1
    ensures !FormValid(v.(basic := MoneyInput(parsed)))
    ensures Submit(None, v.(basic := MoneyInput(parsed))).None?
  {
  }
}
