/** One row of the salary table: fixed-rate deductions and the 31 day cells. */
module SalaryTable {
  import opened Wrappers
  import opened Schema
  import opened Arith
  import opened SalaryManagement

  /** ESI at the fixed 1.75%: floor(gross * 0.0175). */
  function FixedEsi(gross: int): (esi: int)
    ensures 10000 * esi <= 175 * gross < 10000 * (esi + 1)
  {
    FloorDiv(gross * 175, 10000)
  }

  /** PF at the fixed 12%: floor(gross * 0.12). */
  function FixedPf(gross: int): (pf: int)
    ensures 100 * pf <= 12 * gross < 100 * (pf + 1)
  {
    FloorDiv(gross * 12, 100)
  }

  /** The figures a table row derives for one employee; the other deduction is always 0. */
  function TablePayslip(e: Employee, totalDays: nat): (s: Payslip)
    requires totalDays >= 1
    ensures s.halfDays == HalfDays(e.attendance, totalDays)
    ensures s.otherDeduction == 0 && s.totalDeduction == s.esi + s.pf
    ensures s.net == s.gross - s.totalDeduction
  {
    var halfDays := HalfDays(e.attendance, totalDays);
    var gross := CalculateGrossSalary(e, halfDays, totalDays);
    var esi := FixedEsi(gross);
    var pf := FixedPf(gross);
    var otherDeduction := 0;
    var totalDeduction := esi + pf + otherDeduction;
    Payslip(halfDays, gross, esi, pf, otherDeduction, totalDeduction, gross - totalDeduction)
  }

  /** The fixed rates sum to 13.75%, so they never take more than a non-negative gross. */
  lemma FixedDeductionsWithinGross(gross: int)
    requires gross >= 0
    ensures 0 <= FixedEsi(gross) + FixedPf(gross) <= gross
  {
    var esi, pf := FixedEsi(gross), FixedPf(gross);
    assert 10000 * esi <= 175 * gross;
    assert 10000 * pf <= 1200 * gross;
    assert 10000 * (esi + pf) <= 10000 * gross;
    assert esi >= 0 by {
      assert 10000 * (esi + 1) > 0;
    }
    assert pf >= 0 by {
      assert 100 * (pf + 1) > 0;
    }
  }

  /** With non-negative pay components, the table's net pay is never negative. */
  lemma TableNetNonNegative(e: Employee, totalDays: nat)
    requires totalDays >= 1 && BaseSalary(e) >= 0
    ensures 0 <= TablePayslip(e, totalDays).net <= TablePayslip(e, totalDays).gross
  {
    var h := HalfDays(e.attendance, totalDays);
    GrossNonNegative(e, h, totalDays);
    FixedDeductionsWithinGross(CalculateGrossSalary(e, h, totalDays));
  }

  /** A day column: a selector for days inside the period, a dash for the rest. */
  datatype Cell = Dash | Selector(value: Code, options: seq<Code>)

  /** The selector's value: the stored code, or P for a hole or an empty string. */
  function DisplayedCode(s: Slot): (c: Code)
    ensures s.None? || s == Some(Other("")) ==> c == P
    ensures s.Some? && s != Some(Other("")) ==> c == s.value
  {
    if s.None? || s.value == Other("") then P else s.value
  }

  function DayCell(e: Employee, dayIndex: nat, totalDays: nat): Cell {
    if dayIndex < totalDays then Selector(DisplayedCode(Lookup(e.attendance, dayIndex)), AttendanceCodes)
    else Dash
  }

  /** The 31 day columns of a row, `Array.from({ length: 31 })`. */
  function DayCells(e: Employee, totalDays: nat): (cells: seq<Cell>)
    ensures |cells| == 31
    ensures forall i | 0 <= i < 31 :: cells[i] == DayCell(e, i, totalDays)
  {
    seq(31, (i: int) requires 0 <= i => DayCell(e, i, totalDays))
  }

  /**
   * Columns at or past totalDays show a dash and no selector; earlier columns offer exactly the
   * codes the server accepts, showing the stored code or P for an empty entry.
   */
  lemma DayCellsShape(e: Employee, totalDays: nat, i: nat)
    requires i < 31
    ensures DayCells(e, totalDays)[i].Dash? <==> i >= totalDays
    ensures i < totalDays ==> DayCells(e, totalDays)[i].value == DisplayedCode(Lookup(e.attendance, i))
    ensures i < totalDays ==> forall c :: c in DayCells(e, totalDays)[i].options <==> Accepted(c)
  {
  }
}
