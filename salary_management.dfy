/**
 * The salary page's two calculators: the attendance count over the first totalDays days and the
 * pro-rated gross salary. Counts are kept in half-days so that every figure is an exact integer.
 */
module SalaryManagement {
  import opened Wrappers
  import opened Schema
  import opened Arith

  /** What one day adds, in half-days: P one day, H half a day, PP two days, anything else none. */
  function HalfDayWeight(s: Slot): nat {
    match s
    case Some(P) => 2
    case Some(H) => 1
    case Some(PP) => 4
    case _ => 0
  }

  /** Twice the attendance count of days 0 .. n-1. */
  function HalfDays(a: seq<Slot>, n: nat): nat {
    if n == 0 then 0 else HalfDays(a, n - 1) + HalfDayWeight(Lookup(a, n - 1))
  }

  /** `calculateAttendanceCount`, returning twice the count. */
  method CalculateAttendanceCount(attendance: seq<Slot>, totalDays: nat) returns (halfDays: nat)
    ensures halfDays == HalfDays(attendance, totalDays)
  {
    halfDays := 0;
    for i := 0 to totalDays
      invariant halfDays == HalfDays(attendance, i)
    {
      var status := Lookup(attendance, i);
      if status == Some(P) {
        halfDays := halfDays + 2;
      } else if status == Some(H) {
        halfDays := halfDays + 1;
      } else if status == Some(PP) {
        halfDays := halfDays + 4;
      }
    }
  }

  /** The days of 0 .. n-1 marked with code c. */
  function DaysWith(a: seq<Slot>, n: nat, c: Code): set<nat> {
    set i: nat | i < n && Lookup(a, i) == Some(c)
  }

  /** Extending the range by day n adds n exactly when it carries code c. */
  lemma DaysWithStep(a: seq<Slot>, n: nat, c: Code)
    ensures |DaysWith(a, n + 1, c)| == |DaysWith(a, n, c)| + (if Lookup(a, n) == Some(c) then 1 else 0)
  {
    if Lookup(a, n) == Some(c) {
      assert DaysWith(a, n + 1, c) == DaysWith(a, n, c) + {n};
    } else {
      assert DaysWith(a, n + 1, c) == DaysWith(a, n, c);
    }
  }

  /** The count is one per P day, a half per H day and two per PP day; nothing else adds. */
  lemma {:induction false} HalfDaysByCode(a: seq<Slot>, n: nat)
    ensures HalfDays(a, n) == 2 * |DaysWith(a, n, P)| + |DaysWith(a, n, H)| + 4 * |DaysWith(a, n, PP)|
    decreases n
  {
    if n > 0 {
      HalfDaysByCode(a, n - 1);
      DaysWithStep(a, n - 1, P);
      DaysWithStep(a, n - 1, H);
      DaysWithStep(a, n - 1, PP);
    }
  }

  /** 0 <= count <= 2 * totalDays. */
  lemma {:induction false} HalfDaysBound(a: seq<Slot>, n: nat)
    ensures HalfDays(a, n) <= 4 * n
    decreases n
  {
    if n > 0 {
      HalfDaysBound(a, n - 1);
    }
  }

  /** Only days before n are read: attendance that agrees there has the same count. */
  lemma {:induction false} HalfDaysReadsPrefix(a: seq<Slot>, b: seq<Slot>, n: nat)
    requires forall i: nat | i < n :: Lookup(a, i) == Lookup(b, i)
    ensures HalfDays(a, n) == HalfDays(b, n)
    decreases n
  {
    if n > 0 {
      HalfDaysReadsPrefix(a, b, n - 1);
    }
  }

  /** A month of P days counts exactly totalDays. */
  lemma {:induction false} HalfDaysAllPresent(a: seq<Slot>, n: nat)
    requires forall i: nat | i < n :: Lookup(a, i) == Some(P)
    ensures HalfDays(a, n) == 2 * n
    decreases n
  {
    if n > 0 {
      HalfDaysAllPresent(a, n - 1);
    }
  }

  /** A month with no P, H or PP day counts zero. */
  lemma {:induction false} HalfDaysNonePresent(a: seq<Slot>, n: nat)
    requires forall i: nat | i < n :: Lookup(a, i) !in {Some(P), Some(H), Some(PP)}
    ensures HalfDays(a, n) == 0
    decreases n
  {
    if n > 0 {
      HalfDaysNonePresent(a, n - 1);
    }
  }

  function BaseSalary(e: Employee): int {
    e.basic + e.hra + e.allowance
  }

  /**
   * `calculateGrossSalary`: floor((basic + hra + allowance) / totalDays * count), as the greatest
   * integer whose product with 2 * totalDays does not exceed base * halfDays.
   */
  function CalculateGrossSalary(e: Employee, halfDays: nat, totalDays: nat): (gross: int)
    requires totalDays >= 1
    ensures 2 * totalDays * gross <= BaseSalary(e) * halfDays < 2 * totalDays * (gross + 1)
  {
    FloorDiv(BaseSalary(e) * halfDays, 2 * totalDays)
  }

  /** Full attendance pays the whole monthly base. */
  lemma GrossAtFullAttendance(e: Employee, totalDays: nat)
    requires totalDays >= 1
    ensures CalculateGrossSalary(e, 2 * totalDays, totalDays) == BaseSalary(e)
  {
    var d := 2 * totalDays;
    assert BaseSalary(e) * d == d * BaseSalary(e);
    FloorDivUnique(BaseSalary(e) * d, d, BaseSalary(e));
  }

  lemma GrossNonNegative(e: Employee, halfDays: nat, totalDays: nat)
    requires totalDays >= 1 && BaseSalary(e) >= 0
    ensures CalculateGrossSalary(e, halfDays, totalDays) >= 0
  {
    MulLeMonotone(BaseSalary(e), 0, halfDays);
    FloorDivMonotone(0, BaseSalary(e) * halfDays, 2 * totalDays);
    FloorDivUnique(0, 2 * totalDays, 0);
  }

  /** More attendance never lowers gross pay when the components are non-negative. */
  lemma GrossMonotone(e: Employee, h1: nat, h2: nat, totalDays: nat)
    requires totalDays >= 1 && BaseSalary(e) >= 0 && h1 <= h2
    ensures CalculateGrossSalary(e, h1, totalDays) <= CalculateGrossSalary(e, h2, totalDays)
  {
    MulLeMonotone(BaseSalary(e), h1, h2);
    assert BaseSalary(e) * h1 <= BaseSalary(e) * h2;
    FloorDivMonotone(BaseSalary(e) * h1, BaseSalary(e) * h2, 2 * totalDays);
  }

  /** Gross pay never exceeds twice the base, the pay of a month of PP days. */
  lemma GrossAtMostDouble(e: Employee, a: seq<Slot>, totalDays: nat)
    requires totalDays >= 1 && BaseSalary(e) >= 0
    ensures CalculateGrossSalary(e, HalfDays(a, totalDays), totalDays) <= 2 * BaseSalary(e)
  {
    HalfDaysBound(a, totalDays);
    GrossMonotone(e, HalfDays(a, totalDays), 4 * totalDays, totalDays);
    var d := 2 * totalDays;
    assert BaseSalary(e) * (4 * totalDays) == d * (2 * BaseSalary(e));
    FloorDivUnique(BaseSalary(e) * (4 * totalDays), d, 2 * BaseSalary(e));
  }

  /** The figures derived for one employee row. */
  datatype Payslip = Payslip(
    halfDays: nat, gross: int, esi: int, pf: int, otherDeduction: int, totalDeduction: int,
    net: int)
}
