/**
 * Facts that span several parts of the system: the form and the server agree on what an employee
 * is, and the export and the salary table agree on the deductions when the rates are the fixed ones.
 */
module PayrollAgreement {
  import opened Wrappers
  import opened Schema
  import opened Arith
  import opened SalaryManagement
  import opened SalaryTable
  import opened ExcelExport
  import opened Storage
  import opened EmployeeModal

  /** At 175 and 1200 basis points and no other deduction, the export's row equals the table's row. */
  lemma FixedRatesAreBasisPoints(e: Employee, totalDays: nat)
    requires totalDays >= 1
    requires e.esiRate == Some(175) && e.pfRate == Some(1200) && e.otherDeduction.GetOr(0) == 0
    ensures ExportPayslip(e, totalDays) == TablePayslip(e, totalDays)
  {
    var gross := ExportPayslip(e, totalDays).gross;
    assert gross * 1200 == 100 * (gross * 12);
    FloorDivScale(gross * 12, 100, 100);
  }

  /** The sample employees as the seeding code writes them, with every day of a 31-day month present. */
  function SeededAsWrittenFullMonth(i: nat): (e: Employee)
    requires i < 3
    ensures e.attendance == seq(31, _ => Some(P))
    ensures WithoutId(e).(attendance := Unset31()) == SampleEmployeesAsWritten()[i]
  {
    WithId(i, SampleEmployeesAsWritten()[i]).(attendance := seq(31, _ => Some(P)))
  }

  /**
   * With ESI seeded at 1750 the export charges ten times the table's ESI: the Manager's full month
   * grosses 32000, the export's ESI is 5600 and the table's is 560.
   */
  lemma SeededEsiAsWrittenDisagrees()
    ensures var e := SeededAsWrittenFullMonth(0);
      && ExportPayslip(e, 31).gross == TablePayslip(e, 31).gross == 32000
      && ExportPayslip(e, 31).esi == 5600 && TablePayslip(e, 31).esi == 560
      && ExportPayslip(e, 31).pf == TablePayslip(e, 31).pf == 3840
      && ExportPayslip(e, 31).net == 22560 && TablePayslip(e, 31).net == 27600
  {
    var e := SeededAsWrittenFullMonth(0);
    HalfDaysAllPresent(e.attendance, 31);
    GrossAtFullAttendance(e, 31);
  }

  /**
   * With the corrected seed the two views agree for the employees that pay ESI, whatever their
   * attendance and the month's length.
   */
  lemma SeededEmployeesAgreeWithTable(i: nat, id: Id, attendance: seq<Slot>, totalDays: nat)
    requires i < 2 && totalDays >= 1
    ensures var e := WithId(id, SampleEmployees()[i]).(attendance := attendance);
      ExportPayslip(e, totalDays) == TablePayslip(e, totalDays)
  {
    FixedRatesAreBasisPoints(WithId(id, SampleEmployees()[i]).(attendance := attendance), totalDays);
  }

  /** A valid form is sent as a POST whose body parses into exactly the form's values and no rates. */
  lemma FormCreatesItsRecord(v: FormValues)
    requires FormValid(v) && CanonicalSlots(v.attendance)
    ensures Submit(None, v) == Some(CreateRequest(FormBody(v)))
    ensures ParseInsertEmployee(FormBody(v))
            == Success(NewEmployee(v.name, v.position, v.basic, v.hra, v.allowance, None, None, None, v.attendance))
  {
    ParseEmployeeBody(v.name, v.position, v.basic, v.hra, v.allowance, v.attendance);
  }

  /** Saving the edit form unchanged sends a patch that merges back into the very same record. */
  lemma UnchangedEditKeepsRecord(e: Employee)
    requires CanonicalSlots(e.attendance)
    ensures var body := FormBody(InitialValues(Some(e)));
      && ParseEmployeePatch(body).Success?
      && MergeEmployee(e, ParseEmployeePatch(body).value) == e
  {
    ParseEmployeeBody(e.name, e.position, e.basic, e.hra, e.allowance, e.attendance);
  }

  /**
   * As written, the form's POST can never be stored: the body parses, but the parsed record leaves
   * every `NOT NULL` rate column empty, so the insert fails and the route answers 500.
   */
  lemma FormPostAsWrittenFails(v: FormValues)
    requires FormValid(v) && CanonicalSlots(v.attendance)
    ensures ParseInsertEmployee(FormBody(v)).Success?
    ensures !FillsRequiredColumns(ParseInsertEmployee(FormBody(v)).value)
  {
    FormCreatesItsRecord(v);
  }

  /** With the rate columns in the schema the same body parses into a storable record with zero rates. */
  lemma FormPostWithRatesCreates(v: FormValues)
    requires FormValid(v) && CanonicalSlots(v.attendance)
    ensures ParseInsertEmployeeWithRates(FormBody(v))
            == Success(NewEmployee(v.name, v.position, v.basic, v.hra, v.allowance,
                                   Some(0), Some(0), Some(0), v.attendance))
    ensures FillsRequiredColumns(ParseInsertEmployeeWithRates(FormBody(v)).value)
  {
    FormCreatesItsRecord(v);
  }

  /** A record created through the form carries zero rates, so the export shows no ESI and no PF for it. */
  lemma FormRecordExportsNoDeductions(v: FormValues, id: Id, totalDays: nat)
    requires FormValid(v) && CanonicalSlots(v.attendance) && totalDays >= 1
    ensures ParseInsertEmployeeWithRates(FormBody(v)).Success?
    ensures var s := ExportPayslip(WithId(id, ParseInsertEmployeeWithRates(FormBody(v)).value), totalDays);
      s.esi == 0 && s.pf == 0 && s.totalDeduction == 0 && s.net == s.gross
  {
    FormPostWithRatesCreates(v);
  }
}
