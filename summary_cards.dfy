/** The summary cards: one `reduce` over the employees folding head count, gross, deductions, net. */
module SummaryCards {
  import opened Wrappers
  import opened Schema
  import opened Arith
  import opened SalaryManagement
  import opened SalaryTable

  datatype Summary = Summary(totalEmployees: nat, totalGross: int, totalDeductions: int, totalNet: int)

  const Zero: Summary := Summary(0, 0, 0, 0)

  /** One step of the reduce: a fresh accumulator with this employee's figures added. */
  function Step(acc: Summary, e: Employee, totalDays: nat): Summary
    requires totalDays >= 1
  {
    var attendanceCount := HalfDays(e.attendance, totalDays);
    var grossSalary := CalculateGrossSalary(e, attendanceCount, totalDays);
    var esi := FloorDiv(grossSalary * 175, 10000);
    var pf := FloorDiv(grossSalary * 12, 100);
    var deductions := esi + pf;
    var netSalary := grossSalary - deductions;
    Summary(acc.totalEmployees + 1, acc.totalGross + grossSalary,
            acc.totalDeductions + deductions, acc.totalNet + netSalary)
  }

  function Fold(acc: Summary, es: seq<Employee>, totalDays: nat): Summary
    requires totalDays >= 1
    decreases |es|
  {
    if es == [] then acc else Fold(Step(acc, es[0], totalDays), es[1..], totalDays)
  }

  function Summarize(es: seq<Employee>, totalDays: nat): Summary
    requires totalDays >= 1
  {
    Fold(Zero, es, totalDays)
  }

  /** The sum of the gross pay the salary table shows for each employee. */
  function TableGrossTotal(es: seq<Employee>, totalDays: nat): int
    requires totalDays >= 1
    decreases |es|
  {
    if es == [] then 0 else TablePayslip(es[0], totalDays).gross + TableGrossTotal(es[1..], totalDays)
  }

  /** The sum of the table's ESI + PF + other deduction for each employee. */
  function TableDeductionTotal(es: seq<Employee>, totalDays: nat): int
    requires totalDays >= 1
    decreases |es|
  {
    if es == [] then 0
    else TablePayslip(es[0], totalDays).totalDeduction + TableDeductionTotal(es[1..], totalDays)
  }

  /** Each step adds exactly the gross, deduction and net figures the salary table shows. */
  lemma StepMatchesTable(acc: Summary, e: Employee, totalDays: nat)
    requires totalDays >= 1
    ensures Step(acc, e, totalDays)
            == Summary(acc.totalEmployees + 1,
                       acc.totalGross + TablePayslip(e, totalDays).gross,
                       acc.totalDeductions + TablePayslip(e, totalDays).totalDeduction,
                       acc.totalNet + TablePayslip(e, totalDays).net)
  {
  }

  /** Folding from any accumulator adds the head count and the table totals of the rest. */
  lemma {:induction false} FoldTotals(acc: Summary, es: seq<Employee>, totalDays: nat)
    requires totalDays >= 1
    ensures Fold(acc, es, totalDays)
            == Summary(acc.totalEmployees + |es|,
                       acc.totalGross + TableGrossTotal(es, totalDays),
                       acc.totalDeductions + TableDeductionTotal(es, totalDays),
                       acc.totalNet + TableGrossTotal(es, totalDays) - TableDeductionTotal(es, totalDays))
    decreases |es|
  {
    if es != [] {
      StepMatchesTable(acc, es[0], totalDays);
      FoldTotals(Step(acc, es[0], totalDays), es[1..], totalDays);
    }
  }

  /**
   * The cards show the number of employees, the sum of table gross pay, the sum of table
   * deductions, and their difference as net; an empty list shows four zeros.
   */
  lemma SummaryTotals(es: seq<Employee>, totalDays: nat)
    requires totalDays >= 1
    ensures Summarize(es, totalDays).totalEmployees == |es|
    ensures Summarize(es, totalDays).totalGross == TableGrossTotal(es, totalDays)
    ensures Summarize(es, totalDays).totalDeductions == TableDeductionTotal(es, totalDays)
    ensures Summarize(es, totalDays).totalNet
            == Summarize(es, totalDays).totalGross - Summarize(es, totalDays).totalDeductions
    ensures es == [] ==> Summarize(es, totalDays) == Zero
  {
    FoldTotals(Zero, es, totalDays);
  }

  /** totalNet = totalGross - totalDeductions holds after every step of the fold. */
  lemma {:induction false} FoldKeepsNetIdentity(acc: Summary, es: seq<Employee>, totalDays: nat)
    requires totalDays >= 1
    requires acc.totalNet == acc.totalGross - acc.totalDeductions
    ensures Fold(acc, es, totalDays).totalNet
            == Fold(acc, es, totalDays).totalGross - Fold(acc, es, totalDays).totalDeductions
    decreases |es|
  {
    if es != [] {
      FoldKeepsNetIdentity(Step(acc, es[0], totalDays), es[1..], totalDays);
    }
  }

  /** When nobody's pay components are negative, the total net pay is not negative either. */
  lemma {:induction false} SummaryNetNonNegative(es: seq<Employee>, totalDays: nat)
    requires totalDays >= 1
    requires forall i | 0 <= i < |es| :: BaseSalary(es[i]) >= 0
    ensures TableGrossTotal(es, totalDays) - TableDeductionTotal(es, totalDays) >= 0
    decreases |es|
  {
    if es != [] {
      TableNetNonNegative(es[0], totalDays);
      SummaryNetNonNegative(es[1..], totalDays);
    }
  }
}
