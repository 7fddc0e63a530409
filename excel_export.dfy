/**
 * The salary-sheet export: per-employee figures with deductions taken from the employee's rates in
 * basis points, and the comma-separated text that is offered for download.
 */
module ExcelExport {
  import opened Wrappers
  import opened Schema
  import opened Arith
  import opened Text
  import opened SalaryManagement

  /** floor(amount * rate / 10000): a rate in basis points applied to an amount. */
  function BasisPoints(amount: int, rate: int): (r: int)
    ensures 10000 * r <= amount * rate < 10000 * (r + 1)
  {
    FloorDiv(amount * rate, 10000)
  }

  /** The figures an exported row carries; a missing rate or other deduction counts as 0. */
  function ExportPayslip(e: Employee, totalDays: nat): (s: Payslip)
    requires totalDays >= 1
    ensures s.halfDays == HalfDays(e.attendance, totalDays)
    ensures s.gross == CalculateGrossSalary(e, s.halfDays, totalDays)
    ensures s.esi == BasisPoints(s.gross, e.esiRate.GetOr(0))
    ensures s.pf == BasisPoints(s.gross, e.pfRate.GetOr(0))
    ensures s.otherDeduction == e.otherDeduction.GetOr(0)
    ensures s.totalDeduction == s.esi + s.pf + s.otherDeduction && s.net == s.gross - s.totalDeduction
  {
    var attendanceCount := HalfDays(e.attendance, totalDays);
    var grossSalary := CalculateGrossSalary(e, attendanceCount, totalDays);
    var esi := BasisPoints(grossSalary, e.esiRate.GetOr(0));
    var pf := BasisPoints(grossSalary, e.pfRate.GetOr(0));
    var otherDeduction := e.otherDeduction.GetOr(0);
    var totalDeduction := esi + pf + otherDeduction;
    Payslip(attendanceCount, grossSalary, esi, pf, otherDeduction, totalDeduction,
            grossSalary - totalDeduction)
  }

  /** An employee with no rates and no other deduction keeps the whole gross as net. */
  lemma ExportWithoutRates(e: Employee, totalDays: nat)
    requires totalDays >= 1
    requires e.esiRate.GetOr(0) == 0 && e.pfRate.GetOr(0) == 0 && e.otherDeduction.GetOr(0) == 0
    ensures ExportPayslip(e, totalDays).totalDeduction == 0
    ensures ExportPayslip(e, totalDays).net == ExportPayslip(e, totalDays).gross
  {
    var g := ExportPayslip(e, totalDays).gross;
    FloorDivUnique(g * 0, 10000, 0);
  }

  /** Net pay is passed through unclamped: an other deduction above gross makes it negative. */
  lemma ExportNetCanBeNegative(e: Employee, totalDays: nat)
    requires totalDays >= 1
    requires e.esiRate.GetOr(0) == 0 && e.pfRate.GetOr(0) == 0
    requires e.otherDeduction.GetOr(0) > ExportPayslip(e, totalDays).gross
    ensures ExportPayslip(e, totalDays).net < 0
  {
    var g := ExportPayslip(e, totalDays).gross;
    FloorDivUnique(g * 0, 10000, 0);
  }

  // ---------------------------------------------------------------------------------------------
  // The text of the export

  /** The UTF-8 byte-order mark the text starts with. */
  const Bom: char := '\U{FEFF}'

  const LeadingHeaders: seq<string> := ["क्रम", "कर्मचारी नाम", "पद", "मूल वेतन", "HRA", "अन्य भत्ता"]

  const TrailingHeaders: seq<string> :=
    ["उपस्थिति", "कुल वेतन", "ESI", "PF", "अन्य कटौती", "कुल कटौती", "नेट वेतन"]

  function DayHeader(day: nat): string {
    "दिन " + NatToString(day)
  }

  /** The headers of days 1 .. n. */
  function DayHeaders(n: nat): seq<string> {
    if n == 0 then [] else DayHeaders(n - 1) + [DayHeader(n)]
  }

  function HeaderFields(totalDays: nat): seq<string> {
    LeadingHeaders + DayHeaders(totalDays) + TrailingHeaders
  }

  /** A name or position between double quotes, with nothing inside escaped. */
  function Quote(s: string): (q: string)
    ensures |q| == |s| + 2 && q[0] == '"' && q[|q| - 1] == '"'
    ensures q[1..|q| - 1] == s
  {
    "\"" + s + "\""
  }

  /** A day cell: a dash for a hole, an empty string or NONE, otherwise the stored text. */
  function DayCellText(s: Slot): (t: string)
    ensures s.None? || s == Some(NONE) ==> t == "-"
    ensures s == Some(Other("")) ==> t == "-"
    ensures s.Some? && Accepted(s.value) ==> t == CodeText(s.value)
    ensures s.Some? && s.value.Other? && s.value.text != "" ==> t == s.value.text
  {
    var status := if s.None? || s.value == Other("") then NONE else s.value;
    if status == NONE then "-" else CodeText(status)
  }

  /** The cells of days 0 .. n-1. */
  function DayTexts(a: seq<Slot>, n: nat): seq<string> {
    if n == 0 then [] else DayTexts(a, n - 1) + [DayCellText(Lookup(a, n - 1))]
  }

  /** `(halfDays / 2).toFixed(1)`: the whole days, a point, and 0 or 5. */
  function FormatCount(halfDays: nat): string {
    NatToString(halfDays / 2) + (if halfDays % 2 == 0 then ".0" else ".5")
  }

  /** Position (from 1), quoted name and position, and the three pay components. */
  function LeadingFields(e: Employee, index: nat): seq<string> {
    [NatToString(index + 1), Quote(e.name), Quote(e.position),
     IntToString(e.basic), IntToString(e.hra), IntToString(e.allowance)]
  }

  /** Count, gross, ESI, PF, other deduction, total deduction and net. */
  function TrailingFields(s: Payslip): seq<string> {
    [FormatCount(s.halfDays), IntToString(s.gross), IntToString(s.esi), IntToString(s.pf),
     IntToString(s.otherDeduction), IntToString(s.totalDeduction), IntToString(s.net)]
  }

  function RowFields(e: Employee, index: nat, totalDays: nat): seq<string>
    requires totalDays >= 1
  {
    LeadingFields(e, index) + DayTexts(e.attendance, totalDays) + TrailingFields(ExportPayslip(e, totalDays))
  }

  function RowLine(e: Employee, index: nat, totalDays: nat): string
    requires totalDays >= 1
  {
    Join(RowFields(e, index, totalDays), ',') + "\n"
  }

  /** One newline-terminated line per employee, in order, numbered from 1. */
  function RowLines(es: seq<Employee>, totalDays: nat): string
    requires totalDays >= 1
    decreases |es|
  {
    if es == [] then "" else RowLines(es[..|es| - 1], totalDays) + RowLine(es[|es| - 1], |es| - 1, totalDays)
  }

  function HeaderLine(totalDays: nat): string {
    Join(HeaderFields(totalDays), ',') + "\n"
  }

  function CsvText(es: seq<Employee>, totalDays: nat): string
    requires totalDays >= 1
  {
    [Bom] + HeaderLine(totalDays) + RowLines(es, totalDays)
  }

  /** `exportToExcel` up to the download: builds the text with the loops of the source. */
  method ExportToExcel(employees: seq<Employee>, totalDays: nat) returns (csvContent: string)
    requires totalDays >= 1
    ensures csvContent == CsvText(employees, totalDays)
  {
    csvContent := [Bom];
    var headers := BuildHeaders(totalDays);
    csvContent := csvContent + (Join(headers, ',') + "\n");
    for index := 0 to |employees|
      invariant csvContent == CsvText(employees[..index], totalDays)
    {
      var row := BuildRow(employees[index], index, totalDays);
      CsvTextSnoc(employees, index, totalDays);
      csvContent := csvContent + (Join(row, ',') + "\n");
    }
    assert employees[..|employees|] == employees;
  }

  /** The header row: the six fixed headers, one per day, then the seven trailing ones. */
  method BuildHeaders(totalDays: nat) returns (headers: seq<string>)
    ensures headers == HeaderFields(totalDays)
  {
    headers := LeadingHeaders;
    for i := 1 to totalDays + 1
      invariant headers == LeadingHeaders + DayHeaders(i - 1)
    {
      headers := headers + [DayHeader(i)];
    }
    headers := headers + TrailingHeaders;
  }

  /** The text for the first index + 1 employees extends the text for the first index by one line. */
  lemma CsvTextSnoc(es: seq<Employee>, index: nat, totalDays: nat)
    requires totalDays >= 1 && index < |es|
    ensures CsvText(es[..index + 1], totalDays) == CsvText(es[..index], totalDays) + RowLine(es[index], index, totalDays)
  {
    assert es[..index + 1][..index] == es[..index];
    var head := [Bom] + HeaderLine(totalDays);
    var lines := RowLines(es[..index], totalDays);
    var line := RowLine(es[index], index, totalDays);
    assert head + (lines + line) == head + lines + line;
  }

  /** The body of the `forEach`: one employee's figures and cells, in column order. */
  method BuildRow(emp: Employee, index: nat, totalDays: nat) returns (row: seq<string>)
    requires totalDays >= 1
    ensures row == RowFields(emp, index, totalDays)
  {
    var attendanceCount := CalculateAttendanceCount(emp.attendance, totalDays);
    var grossSalary := CalculateGrossSalary(emp, attendanceCount, totalDays);
    var esi := BasisPoints(grossSalary, emp.esiRate.GetOr(0));
    var pf := BasisPoints(grossSalary, emp.pfRate.GetOr(0));
    var otherDeduction := emp.otherDeduction.GetOr(0);
    var totalDeduction := esi + pf + otherDeduction;
    var netSalary := grossSalary - totalDeduction;
    var leading := [NatToString(index + 1), Quote(emp.name), Quote(emp.position),
                    IntToString(emp.basic), IntToString(emp.hra), IntToString(emp.allowance)];
    row := leading;
    for i := 0 to totalDays
      invariant row == leading + DayTexts(emp.attendance, i)
    {
      var slot := Lookup(emp.attendance, i);
      var status := if slot.None? || slot.value == Other("") then NONE else slot.value;
      row := row + [if status == NONE then "-" else CodeText(status)];
    }
    var trailing := [FormatCount(attendanceCount), IntToString(grossSalary), IntToString(esi),
                     IntToString(pf), IntToString(otherDeduction), IntToString(totalDeduction),
                     IntToString(netSalary)];
    assert trailing == TrailingFields(ExportPayslip(emp, totalDays));
    row := row + trailing;
  }

  // ---------------------------------------------------------------------------------------------
  // Layout of the text

  lemma {:induction false} DayHeadersShape(n: nat)
    ensures |DayHeaders(n)| == n
    ensures forall k | 0 <= k < n :: DayHeaders(n)[k] == DayHeader(k + 1)
    decreases n
  {
    if n > 0 {
      DayHeadersShape(n - 1);
    }
  }

  /** The header has 6 + totalDays + 7 columns, the day columns numbered 1 .. totalDays in order. */
  lemma HeaderShape(totalDays: nat)
    ensures |HeaderFields(totalDays)| == 6 + totalDays + 7
    ensures HeaderFields(totalDays)[..6] == LeadingHeaders
    ensures forall k | 6 <= k < 6 + totalDays :: HeaderFields(totalDays)[k] == DayHeader(k - 5)
    ensures HeaderFields(totalDays)[6 + totalDays..] == TrailingHeaders
  {
    DayHeadersShape(totalDays);
    var h := HeaderFields(totalDays);
    forall k | 6 <= k < 6 + totalDays ensures h[k] == DayHeader(k - 5) {
      assert h[k] == DayHeaders(totalDays)[k - 6];
    }
    assert h[6 + totalDays..] == TrailingHeaders;
  }

  lemma {:induction false} DayTextsShape(a: seq<Slot>, n: nat)
    ensures |DayTexts(a, n)| == n
    ensures forall k: nat | k < n :: DayTexts(a, n)[k] == DayCellText(Lookup(a, k))
    decreases n
  {
    if n > 0 {
      DayTextsShape(a, n - 1);
    }
  }

  /**
   * A data row has as many fields as the header: its position counted from 1, the quoted name and
   * position, the three pay components, one cell per day, then count, gross, ESI, PF, other
   * deduction, total deduction and net.
   */
  lemma RowShape(e: Employee, index: nat, totalDays: nat)
    requires totalDays >= 1
    ensures |RowFields(e, index, totalDays)| == |HeaderFields(totalDays)| == 13 + totalDays
    ensures RowFields(e, index, totalDays)[..6] == LeadingFields(e, index)
    ensures RowFields(e, index, totalDays)[0] == NatToString(index + 1)
    ensures forall k | 6 <= k < 6 + totalDays
              :: RowFields(e, index, totalDays)[k] == DayCellText(Lookup(e.attendance, k - 6))
    ensures RowFields(e, index, totalDays)[6 + totalDays..] == TrailingFields(ExportPayslip(e, totalDays))
  {
    HeaderShape(totalDays);
    DayTextsShape(e.attendance, totalDays);
    var r := RowFields(e, index, totalDays);
    var d := DayTexts(e.attendance, totalDays);
    forall k | 6 <= k < 6 + totalDays ensures r[k] == DayCellText(Lookup(e.attendance, k - 6)) {
      assert r[k] == d[k - 6];
    }
    assert r[6 + totalDays..] == TrailingFields(ExportPayslip(e, totalDays));
  }

  /** The count shows one decimal: whole days, a point, then 0 for an even half-day total, 5 otherwise. */
  lemma FormatCountShape(halfDays: nat)
    ensures var t := FormatCount(halfDays);
      && |t| >= 3 && t[|t| - 2] == '.'
      && (t[|t| - 1] == '0' <==> halfDays % 2 == 0)
      && (t[|t| - 1] == '5' <==> halfDays % 2 == 1)
      && AllDigits(t[..|t| - 2])
      && 2 * ParseNat(t[..|t| - 2]) + (if t[|t| - 1] == '5' then 1 else 0) == halfDays
  {
    var t := FormatCount(halfDays);
    assert t[..|t| - 2] == NatToString(halfDays / 2);
    ParseNatOfNatToString(halfDays / 2);
  }

  /** Text that can stand in one CSV field: no comma and no line break. */
  predicate Plain(s: string) {
    ',' !in s && '\n' !in s
  }

  predicate AllPlain(fields: seq<string>) {
    forall k | 0 <= k < |fields| :: Plain(fields[k])
  }

  /** Names, positions and stored codes that hold no comma or line break. */
  predicate PlainEmployee(e: Employee) {
    && Plain(e.name) && Plain(e.position)
    && forall i | 0 <= i < |e.attendance| :: e.attendance[i].Some? ==> Plain(CodeText(e.attendance[i].value))
  }

  lemma PlainDigits(t: string)
    requires AllDigits(t)
    ensures Plain(t)
  {
    assert forall k | 0 <= k < |t| :: t[k] != ',' && t[k] != '\n';
  }

  lemma PlainNumber(i: int)
    ensures Plain(IntToString(i))
  {
    var t := IntToString(i);
    assert forall k | 0 <= k < |t| :: t[k] != ',' && t[k] != '\n';
  }

  lemma PlainAppend(a: seq<string>, b: seq<string>)
    requires AllPlain(a) && AllPlain(b)
    ensures AllPlain(a + b)
  {
    forall k | 0 <= k < |a + b| ensures Plain((a + b)[k]) {
      if k < |a| { assert (a + b)[k] == a[k]; } else { assert (a + b)[k] == b[k - |a|]; }
    }
  }

  lemma PlainLeadingHeaders()
    ensures AllPlain(LeadingHeaders)
  {
    forall k | 0 <= k < 6 ensures Plain(LeadingHeaders[k]) {
      if k == 0 {
        assert Plain("क्रम");
      } else if k == 1 {
        assert Plain("कर्मचारी नाम");
      } else if k == 2 {
        assert Plain("पद");
      } else if k == 3 {
        assert Plain("मूल वेतन");
      } else if k == 4 {
        assert Plain("HRA");
      } else {
        assert Plain("अन्य भत्ता");
      }
    }
  }

  lemma PlainTrailingHeaders()
    ensures AllPlain(TrailingHeaders)
  {
    forall k | 0 <= k < 7 ensures Plain(TrailingHeaders[k]) {
      if k == 0 {
        assert Plain("उपस्थिति");
      } else if k == 1 {
        assert Plain("कुल वेतन");
      } else if k == 2 {
        assert Plain("ESI");
      } else if k == 3 {
        assert Plain("PF");
      } else if k == 4 {
        assert Plain("अन्य कटौती");
      } else if k == 5 {
        assert Plain("कुल कटौती");
      } else {
        assert Plain("नेट वेतन");
      }
    }
  }

  lemma {:induction false} PlainDayHeaders(n: nat)
    ensures AllPlain(DayHeaders(n))
    decreases n
  {
    if n > 0 {
      PlainDayHeaders(n - 1);
      var d := NatToString(n);
      PlainDigits(d);
      assert Plain("दिन ");
      assert Plain(DayHeader(n)) by {
        assert DayHeader(n) == "दिन " + d;
      }
      PlainAppend(DayHeaders(n - 1), [DayHeader(n)]);
    }
  }

  lemma PlainHeaders(totalDays: nat)
    ensures AllPlain(HeaderFields(totalDays))
  {
    PlainLeadingHeaders();
    PlainTrailingHeaders();
    PlainDayHeaders(totalDays);
    PlainAppend(LeadingHeaders, DayHeaders(totalDays));
    PlainAppend(LeadingHeaders + DayHeaders(totalDays), TrailingHeaders);
  }

  lemma {:induction false} PlainDayTexts(e: Employee, n: nat)
    requires PlainEmployee(e)
    ensures AllPlain(DayTexts(e.attendance, n))
    decreases n
  {
    if n > 0 {
      PlainDayTexts(e, n - 1);
      var slot := Lookup(e.attendance, n - 1);
      assert Plain(DayCellText(slot)) by {
        if slot.Some? {
          assert slot == e.attendance[n - 1];
        }
      }
      PlainAppend(DayTexts(e.attendance, n - 1), [DayCellText(slot)]);
    }
  }

  lemma PlainLeadingFields(e: Employee, index: nat)
    requires PlainEmployee(e)
    ensures AllPlain(LeadingFields(e, index))
  {
    PlainDigits(NatToString(index + 1));
    PlainNumber(e.basic);
    PlainNumber(e.hra);
    PlainNumber(e.allowance);
  }

  lemma PlainTrailingFields(s: Payslip)
    ensures AllPlain(TrailingFields(s))
  {
    PlainDigits(NatToString(s.halfDays / 2));
    assert Plain(FormatCount(s.halfDays));
    PlainNumber(s.gross);
    PlainNumber(s.esi);
    PlainNumber(s.pf);
    PlainNumber(s.otherDeduction);
    PlainNumber(s.totalDeduction);
    PlainNumber(s.net);
  }

  lemma PlainRow(e: Employee, index: nat, totalDays: nat)
    requires totalDays >= 1 && PlainEmployee(e)
    ensures AllPlain(RowFields(e, index, totalDays))
  {
    var s := ExportPayslip(e, totalDays);
    PlainLeadingFields(e, index);
    PlainDayTexts(e, totalDays);
    PlainTrailingFields(s);
    PlainAppend(LeadingFields(e, index), DayTexts(e.attendance, totalDays));
    PlainAppend(LeadingFields(e, index) + DayTexts(e.attendance, totalDays), TrailingFields(s));
  }

  /**
   * When no name, position or stored code holds a comma, every data line splits at its commas into
   * exactly its fields, as many as the header line splits into.
   */
  lemma RowSplitsLikeHeader(e: Employee, index: nat, totalDays: nat)
    requires totalDays >= 1 && PlainEmployee(e)
    ensures Split(Join(RowFields(e, index, totalDays), ','), ',') == RowFields(e, index, totalDays)
    ensures Split(Join(HeaderFields(totalDays), ','), ',') == HeaderFields(totalDays)
    ensures |RowFields(e, index, totalDays)| == |HeaderFields(totalDays)| == 13 + totalDays
  {
    RowShape(e, index, totalDays);
    PlainRow(e, index, totalDays);
    PlainHeaders(totalDays);
    SplitJoin(RowFields(e, index, totalDays), ',');
    SplitJoin(HeaderFields(totalDays), ',');
  }

  lemma {:induction false} RowLinesBreaks(es: seq<Employee>, totalDays: nat)
    requires totalDays >= 1
    requires forall i | 0 <= i < |es| :: PlainEmployee(es[i])
    ensures Count(RowLines(es, totalDays), '\n') == |es|
    decreases |es|
  {
    if es != [] {
      var init := es[..|es| - 1];
      var last := es[|es| - 1];
      RowLinesBreaks(init, totalDays);
      var fields := RowFields(last, |es| - 1, totalDays);
      PlainRow(last, |es| - 1, totalDays);
      NotInJoin(fields, ',', '\n');
      CountAbsent(Join(fields, ','), '\n');
      CountConcat(Join(fields, ','), "\n", '\n');
      CountConcat(RowLines(init, totalDays), RowLine(last, |es| - 1, totalDays), '\n');
    }
  }

  /**
   * The text is the byte-order mark, the header line, then one line per employee in input order;
   * with plain names, positions and codes it holds exactly one line break per line.
   */
  lemma CsvLayout(es: seq<Employee>, totalDays: nat)
    requires totalDays >= 1
    ensures CsvText(es, totalDays)[0] == Bom
    ensures (forall i | 0 <= i < |es| :: PlainEmployee(es[i]))
            ==> Count(CsvText(es, totalDays), '\n') == |es| + 1
  {
    if forall i | 0 <= i < |es| :: PlainEmployee(es[i]) {
      HeaderLineBreaks(totalDays);
      RowLinesBreaks(es, totalDays);
      CountConcat([Bom] + HeaderLine(totalDays), RowLines(es, totalDays), '\n');
    }
  }

  /** The byte-order mark and the header line hold a single line break, the one that ends the header. */
  lemma HeaderLineBreaks(totalDays: nat)
    ensures Count([Bom] + HeaderLine(totalDays), '\n') == 1
  {
    var fields := HeaderFields(totalDays);
    PlainHeaders(totalDays);
    NotInJoin(fields, ',', '\n');
    var text := [Bom] + Join(fields, ',');
    CountAbsent(text, '\n');
    CountConcat(text, "\n", '\n');
    assert [Bom] + HeaderLine(totalDays) == text + "\n";
  }
}
