# Payroll: a Dafny model

This project models the core of a small payroll and attendance web application. An administrator
keeps employees with a basic salary, HRA and an allowance. Each employee has a month of attendance codes:
`P` (present), `A` (absent), `H` (half day), `PP` (double) and the seeded placeholder `NONE`.
From these the application derives gross pay, ESI and PF deductions and net pay.
The figures appear in four places: the salary table, the summary cards, a CSV export, and an Express
API over a PostgreSQL store.

Modules, one per source file (plus `Wrappers`, `Arith` and `Text` for `Option`/`Result`, floor
division and the string helpers `String(n)`, `join` and `split`):

- `Schema` is `shared/schema.ts`. It holds:
  - the attendance codes and the `attendanceCodeSchema` validator;
  - the employee, designation and salary-sheet records;
  - `insertEmployeeSchema` and its `.partial()` as parsers from a JSON body.
- `SalaryManagement` is the page's `calculateAttendanceCount` (a loop, proved against a recursive
  specification) and `calculateGrossSalary`. Counting is in half-days (P=2, H=1, PP=4), so the
  count is exact, and gross is a floor division.
- `SalaryTable` is the table row: fixed 1.75% ESI and 12% PF, no other deduction, plus the 31 day cells.
- `SummaryCards` is the `reduce` that produces the four totals.
- `ExcelExport` is `exportToExcel` up to the download. It covers the basis-point deductions and the
  CSV text, built with the source's loops and proved equal to a column-by-column definition.
- `Storage` is `server/storage.ts`. A `Store` class holds the three tables as maps from id to record,
  and a counter stands in for `randomUUID`.
- `Routes` is `server/routes.ts`: each handler's status codes, and the attendance update that copies
  the array and replaces one slot.
- `EmployeeModal` is the add/edit dialog: `formSchema`, the defaults, and the create-or-update choice.
- `PayrollAgreement` holds facts across files:
  - the form and the server agree on the record;
  - the export equals the table at the fixed rates;
  - the seeded ESI rate makes them disagree.

Where the parts of the code disagree with each other, the model follows each part as written:
- Rates: `server/storage.ts` seeds an ESI rate of 1750 (lines 70 and 81). The export divides a rate
  by 10000 (`client/src/lib/excel-export.ts:42`), so 1750 charges 17.5%. The salary table and the
  summary cards charge a fixed `0.0175`, i.e. 1.75% (see Findings). The seeding in the model
  inserts 1750, as written.
- `shared/schema.ts` declares no rate columns, so the insert schema drops any rates a body sends.
  The SQL table declares the three rate columns `NOT NULL`, and node-postgres sends a missing value
  as `NULL`. Every insert through the API is therefore refused by the database, and a valid
  POST answers 500 (see Findings). An update keeps the stored rates, because the merge writes back
  the existing row's values. The model keeps rates as `Option<int>`, and the export's `|| 0`
  becomes `GetOr(0)`.
- `shared/schema.ts` as it stands declares no designation table or designation insert schema.
  Designation records follow the SQL table in `server/storage.ts`. `server/routes.ts:4` still
  imports `insertDesignationSchema` from it, so as written the designation POST cannot validate
  anything. The model gives the route the outcome of validation as a `Result` instead (see
  "## Left out").

## Model

| member | source | states |
|---|---|---|
| Schema.ValidateCode | shared/schema.ts:38 | accepts a JSON value exactly when it is one of the strings P, A, H, PP (so NONE is rejected), and returns the code that string names |
| Schema.ParseCode | server/storage.ts:73 | every stored string reads as a canonical code whose text is that string |
| Schema.ParseCodeOfText | shared/schema.ts:38 | reading back a code's own text gives that code |
| Schema.WithId | shared/schema.ts:24-26 | a stored employee is the record to insert plus an id, and dropping the id gives back the insert record |
| Schema.SheetWithId | shared/schema.ts:16-22 | a stored salary sheet is month, year, totalDays and employeeData plus an id, and nothing else |
| Schema.ParseInsertEmployee | shared/schema.ts:6-14 | a body is accepted exactly when name and position are strings, basic, hra and allowance are integer numbers, and attendance, if present, is an array of strings and nulls; the parsed record holds exactly those values (attendance empty when the key is absent) and no rates |
| Schema.ParseEmployeePatch | shared/schema.ts:24-30 | in the partial schema every key is optional: a body is accepted exactly when each key it has is well typed, a field is set exactly when its key is present and then holds the body's value, rates are never set, and the empty body gives the empty patch |
| Schema.ParseSlots | shared/schema.ts:13 | a parsed attendance array keeps its length and holds only canonical codes |
| Schema.ParseSlotsJson | shared/schema.ts:13 | encoding an attendance sequence as JSON and parsing it back restores it |
| Schema.ParseEmployeeBody | shared/schema.ts:24-30 | a body with the six columns parses, in full and as a partial, to exactly those values and no rates |
| Schema.RateField | client/src/lib/excel-export.ts:42-44 | a missing rate reads as 0, as the export's fallback does; a present one must be an integer and is its value |
| Schema.ParseInsertEmployeeWithRates | server/storage.ts:33-35 | the insert schema extended with the three rate columns: it accepts what the schema as written accepts plus well-typed rates, keeps every other field, and always fills the three `NOT NULL` columns |
| SalaryManagement.CalculateAttendanceCount | client/src/pages/salary-management.tsx:80-90 | the loop returns twice the attendance count, i.e. the weighted sum over days [0, totalDays) with P=2, H=1, PP=4 half-days |
| SalaryManagement.HalfDaysByCode | client/src/pages/salary-management.tsx:84-87 | the count is 2 per P day, 1 per H day and 4 per PP day; every other code and every missing slot adds 0 |
| SalaryManagement.HalfDaysBound | client/src/pages/salary-management.tsx:80-90 | the count is at most 2·totalDays days (4·totalDays half-days) and never negative |
| SalaryManagement.HalfDaysReadsPrefix | client/src/pages/salary-management.tsx:82-88 | the count depends only on slots below totalDays |
| SalaryManagement.HalfDaysAllPresent | client/src/pages/salary-management.tsx:84 | with every day P the count is exactly totalDays |
| SalaryManagement.HalfDaysNonePresent | client/src/pages/salary-management.tsx:87 | with no P, H or PP day the count is 0 |
| SalaryManagement.CalculateGrossSalary | client/src/pages/salary-management.tsx:92-95 | gross is floor((basic+hra+allowance)·count / totalDays), stated as the two bounds of the floor |
| SalaryManagement.GrossAtFullAttendance | client/src/pages/salary-management.tsx:93-94 | with the count equal to totalDays, gross is exactly basic+hra+allowance |
| SalaryManagement.GrossNonNegative | client/src/pages/salary-management.tsx:93-94 | gross is non-negative when the pay components sum to a non-negative amount |
| SalaryManagement.GrossMonotone | client/src/pages/salary-management.tsx:93-94 | gross does not decrease as the count grows |
| SalaryManagement.GrossAtMostDouble | client/src/pages/salary-management.tsx:93-94 | gross is at most twice the monthly pay, the most that all-PP attendance can reach |
| SalaryTable.FixedEsi | client/src/components/salary-table.tsx:69 | ESI is floor(gross · 175/10000) |
| SalaryTable.FixedPf | client/src/components/salary-table.tsx:70 | PF is floor(gross · 12/100) |
| SalaryTable.TablePayslip | client/src/components/salary-table.tsx:66-73 | a table row uses the page's count, other deduction 0, total = ESI + PF, net = gross − total |
| SalaryTable.FixedDeductionsWithinGross | client/src/components/salary-table.tsx:69-72 | the fixed deductions lie between 0 and a non-negative gross |
| SalaryTable.TableNetNonNegative | client/src/components/salary-table.tsx:69-73 | with non-negative pay components, 0 ≤ net ≤ gross |
| SalaryTable.DisplayedCode | client/src/components/salary-table.tsx:89 | a missing or empty slot shows as P; any other slot shows its own code |
| SalaryTable.DayCells | client/src/components/salary-table.tsx:85 | there are always 31 day columns, one per day index |
| SalaryTable.DayCellsShape | client/src/components/salary-table.tsx:85-105 | a column is a dash exactly when its index is ≥ totalDays; earlier columns offer exactly P, A, H, PP and show the displayed code |
| SummaryCards.Step | client/src/components/summary-cards.tsx:18-31 | one reduce step: the employee's gross from the page's count, ESI floor(gross · 175/10000), PF floor(gross · 12/100), and a new accumulator with one more employee and these figures added |
| SummaryCards.Fold | client/src/components/summary-cards.tsx:17-34 | the reduce applies the step to each employee in list order |
| SummaryCards.Summarize | client/src/components/summary-cards.tsx:17-34 | the reduce starts from four zeros |
| SummaryCards.StepMatchesTable | client/src/components/summary-cards.tsx:18-31 | each reduce step adds one employee and exactly the gross, deductions and net that the table shows for them |
| SummaryCards.FoldTotals | client/src/components/summary-cards.tsx:17-34 | folding from any accumulator adds the head count and the salary table's gross and deduction totals |
| SummaryCards.SummaryTotals | client/src/components/summary-cards.tsx:17-34 | totalEmployees is the number of employees and totalGross and totalDeductions are the table sums, with totalNet = totalGross − totalDeductions; an empty list gives four zeros |
| SummaryCards.FoldKeepsNetIdentity | client/src/components/summary-cards.tsx:24-30 | totalNet = totalGross − totalDeductions is preserved by every step |
| SummaryCards.SummaryNetNonNegative | client/src/components/summary-cards.tsx:21-30 | with non-negative pay components, the total net is non-negative |
| ExcelExport.BasisPoints | client/src/lib/excel-export.ts:42-43 | a deduction is floor(gross · rate / 10000) |
| ExcelExport.ExportPayslip | client/src/lib/excel-export.ts:4-46 | the export's local count and gross helpers compute the page's values; ESI and PF are the employee's rates in basis points, a missing rate or other deduction counts 0, total = ESI + PF + other, net = gross − total |
| ExcelExport.ExportWithoutRates | client/src/lib/excel-export.ts:42-46 | without rates or other deduction, nothing is deducted and net equals gross |
| ExcelExport.ExportNetCanBeNegative | client/src/lib/excel-export.ts:44-46 | net is not clamped: an other deduction larger than gross gives a negative net |
| ExcelExport.Quote | client/src/lib/excel-export.ts:50-51 | a name or position is wrapped in one double quote on each side, and the text between them is the field unchanged, with nothing escaped |
| ExcelExport.FormatCount | client/src/lib/excel-export.ts:64 | `toFixed(1)` of a half-integer count: the whole number of days, then ".0" or ".5" |
| ExcelExport.DayCellText | client/src/lib/excel-export.ts:58-61 | a missing slot, the empty string or NONE prints as "-"; an accepted code prints as its own text, and any other non-empty text prints as itself |
| ExcelExport.ExportToExcel | client/src/lib/excel-export.ts:21-74 | the header loop and the per-employee loop build exactly the BOM, the header line and one line per employee, in order |
| ExcelExport.BuildHeaders | client/src/lib/excel-export.ts:25-34 | the header loop builds the six fixed headers, one header per day, then the seven trailing ones |
| ExcelExport.BuildRow | client/src/lib/excel-export.ts:40-71 | one employee's fields are the leading six, one cell per day and the seven figures, in column order |
| ExcelExport.DayHeadersShape | client/src/lib/excel-export.ts:30-32 | the day headers are numbered 1..totalDays in order |
| ExcelExport.HeaderShape | client/src/lib/excel-export.ts:25-34 | the header has 6 + totalDays + 7 columns: the six fixed ones, the day headers in order, and the seven trailing ones |
| ExcelExport.DayTextsShape | client/src/lib/excel-export.ts:58-61 | there is one cell per day below totalDays, each the day's cell text |
| ExcelExport.RowShape | client/src/lib/excel-export.ts:48-71 | a row has as many fields as the header; the first field is the 1-based position, then the day cells, then the seven figures |
| ExcelExport.FormatCountShape | client/src/lib/excel-export.ts:64 | the count prints with exactly one decimal, ".0" or ".5", and reads back as the count |
| ExcelExport.RowSplitsLikeHeader | client/src/lib/excel-export.ts:73 | when names, positions and codes contain no comma or line break, splitting a joined row at commas gives back its fields, as many as the header has |
| ExcelExport.RowLinesBreaks | client/src/lib/excel-export.ts:39-74 | the rows contribute exactly one line break per employee |
| ExcelExport.CsvLayout | client/src/lib/excel-export.ts:22-74 | the text starts with the byte-order mark, and it holds one line break for the header plus one per employee |
| Text.SplitJoin | client/src/lib/excel-export.ts:36 | joining fields that do not contain the separator can be undone by splitting |
| Text.ParseNatOfNatToString | client/src/lib/excel-export.ts:49 | the decimal text of a number reads back as that number |
| Text.IntToString | client/src/lib/excel-export.ts:52-54 | a number prints as digits, with a leading minus sign exactly when it is negative, and the digits read back as its absolute value |
| Storage.MergeEmployee | server/storage.ts:164 | a merge keeps the id |
| Storage.MergeEmployeeFields | server/storage.ts:160-184 | each of the nine fields is the patch's value when the patch supplies it and the stored one otherwise, rates included; the empty patch changes nothing; an attendance-only patch changes only the attendance |
| Storage.MergeEmployeeIdempotent | server/storage.ts:164 | applying the same patch twice is the same as once |
| Storage.MergeDesignation | server/storage.ts:210-220 | the designation merge keeps the id, and name and flag are the patch's when supplied and the stored ones otherwise; the empty patch changes nothing |
| Storage.MergeSalarySheet | server/storage.ts:252-270 | the sheet merge keeps the id, and month, year, totalDays and employeeData are the patch's when supplied and the stored ones otherwise; the empty patch changes nothing |
| Storage.SelectKeys | server/storage.ts:191-194 | the selected ids are distinct and are exactly the rows the filter accepts |
| Storage.SampleEmployees | server/storage.ts:63-97 | the corrected seed (see Findings): three employees with 31 NONE slots each, ESI 175, 175 and 0, PF 1200 and other deduction 0, all rate columns filled |
| Storage.SampleEmployeesAsWritten | server/storage.ts:63-97 | the seed as written: three employees with 31 NONE slots and filled rate columns, equal to the corrected seed except for ESI 1750 on the first two |
| Storage.Unset31 | server/storage.ts:73 | `Array(31).fill("NONE")` is 31 NONE slots |
| Storage.Store.constructor | server/storage.ts:23-56 | the tables start out empty |
| Storage.Store.FreshId | server/storage.ts:140 | the new id is in no table |
| Storage.Store.GetEmployees | server/storage.ts:129-132 | every employee row is returned, each exactly once and unchanged, and nothing else |
| Storage.Store.GetEmployee | server/storage.ts:134-137 | returns the row with that id, or absent |
| Storage.Store.CreateEmployee | server/storage.ts:139-158 | a fresh id is drawn; the insert fails and stores nothing exactly when a `NOT NULL` rate column would be empty; otherwise the new row has that id and exactly the given fields, and nothing else changes |
| Storage.Store.UpdateEmployee | server/storage.ts:160-184 | a missing id gives absent and no write; otherwise the merged row is returned and stored under the same id, and other rows and tables are untouched |
| Storage.Store.DeleteEmployee | server/storage.ts:186-189 | returns true iff the id was present; afterwards it is absent and nothing else changes |
| Storage.Store.SeedEmployees | server/storage.ts:58-117 | the sample rows as written (ESI 1750) are inserted, one per fresh id and in order, only when the employee table is empty; otherwise nothing changes |
| Storage.Store.InsertEmployees | server/storage.ts:99-116 | the insert loop stores each row, all of whose rate columns are filled, under the next fresh id, in order, and keeps every existing row |
| Storage.Store.GetDesignations | server/storage.ts:191-194 | returns exactly the designations whose active flag is 1, each once |
| Storage.Store.GetDesignation | server/storage.ts:196-199 | returns the designation with that id, or absent |
| Storage.Store.CreateDesignation | server/storage.ts:201-208 | the new designation has a fresh id and the given name and flag |
| Storage.Store.UpdateDesignation | server/storage.ts:210-220 | the same absent-or-merge rule as for employees |
| Storage.Store.DeleteDesignation | server/storage.ts:222-225 | returns true iff the id was present; afterwards it is absent |
| Storage.Store.GetSalarySheets | server/storage.ts:227-230 | every sheet is returned exactly once |
| Storage.Store.GetSalarySheet | server/storage.ts:232-235 | returns the sheet with that id, or absent |
| Storage.Store.CreateSalarySheet | server/storage.ts:237-250 | the new sheet has a fresh id and exactly the given fields |
| Storage.Store.UpdateSalarySheet | server/storage.ts:252-270 | the same absent-or-merge rule as for employees |
| Storage.Store.DeleteSalarySheet | server/storage.ts:272-275 | returns true iff the id was present; afterwards it is absent |
| Routes.SetSlot | server/routes.ts:88-89 | the copied array keeps its length, or grows to just past the day |
| Routes.SetSlotLookup | server/routes.ts:88-89 | only slot dayIndex changes, to the new code; every other index reads as before |
| Routes.SetSlotPastMonth | server/routes.ts:88-89 | marking a day at or past totalDays leaves the month's count unchanged |
| Routes.DayInRange | server/routes.ts:75-79 | the day guard passes exactly when `parseInt` gave a number in [0, 31) |
| Routes.GetEmployees | server/routes.ts:9-16 | 200 with every stored employee exactly once, unchanged, and nothing else |
| Routes.GetEmployee | server/routes.ts:18-28 | 404 for a missing id, otherwise 200 with the row |
| Routes.PostEmployee | server/routes.ts:30-41 | a body the insert schema rejects gives 400 and no change; every body it accepts gives 500 "Failed to create employee" and no new row, because the parsed record leaves the `NOT NULL` rate columns empty |
| Routes.PutEmployee | server/routes.ts:43-57 | a rejected body gives 400 and no change; a missing id gives 404 and no write; otherwise 200 with the merged row, now stored |
| Routes.DeleteEmployee | server/routes.ts:59-69 | 204 when the row existed and 404 otherwise |
| Routes.PutAttendance | server/routes.ts:72-102 | a day index that is not a number or lies outside [0, 31) gives 400 before any store access; then a code outside P, A, H, PP gives 400 "Invalid attendance code"; then a missing employee gives 404; each of these leaves the store unchanged. Otherwise only slot dayIndex of that employee's attendance changes, and nothing else does |
| Routes.GetDesignations | server/routes.ts:105-112 | 200 with exactly the active designations, each once and unchanged |
| Routes.PostDesignation | server/routes.ts:114-125 | a rejected body gives 400 and no change; otherwise 201 with a new designation |
| Routes.DeleteDesignation | server/routes.ts:127-137 | 204 when the designation existed and 404 otherwise |
| EmployeeModal.FormValid | client/src/components/employee-modal.tsx:24-30 | `formSchema`: a non-empty name and position, a basic salary of at least 1, and HRA and allowance of at least 0 |
| EmployeeModal.MoneyInput | client/src/components/employee-modal.tsx:179 | an input that does not parse becomes 0 |
| EmployeeModal.DefaultValues | client/src/components/employee-modal.tsx:38-45 | a new form holds an empty name and position, 15000/3000/1000 and 31 P slots |
| EmployeeModal.InitialValues | client/src/components/employee-modal.tsx:48-67 | editing pre-fills the employee's own name, position, amounts and attendance; otherwise the form holds the defaults |
| EmployeeModal.Submit | client/src/components/employee-modal.tsx:110-116 | only a valid form is sent; it is an update to the employee's id exactly when editing, and a create otherwise, carrying the form's values |
| EmployeeModal.DefaultsNeedNameAndPosition | client/src/components/employee-modal.tsx:24-45 | the untouched add form is invalid, and it becomes valid exactly when a name and a position are filled in |
| EmployeeModal.EmptyBasicFails | client/src/components/employee-modal.tsx:27 | a basic field that does not parse, or is below 1, always fails validation and sends nothing |
| PayrollAgreement.FixedRatesAreBasisPoints | client/src/lib/excel-export.ts:42-46 | at ESI 175 and PF 1200 basis points with no other deduction, the export's row equals the table's |
| PayrollAgreement.SeededAsWrittenFullMonth | server/storage.ts:63-97 | a seeded employee as written, marked present on each of 31 days |
| PayrollAgreement.SeededEsiAsWrittenDisagrees | server/storage.ts:70 | with the seeded 1750, the Manager's full month of 32000 exports an ESI of 5600 while the table shows 560 |
| PayrollAgreement.SeededEmployeesAgreeWithTable | server/storage.ts:63-86 | with the corrected seed, the export and the table agree for both ESI-paying sample employees, whatever the attendance |
| PayrollAgreement.FormCreatesItsRecord | client/src/components/employee-modal.tsx:110-116 | a valid add form is sent as a create, and the server parses its body into a record with exactly the form's values and no rates |
| PayrollAgreement.UnchangedEditKeepsRecord | client/src/components/employee-modal.tsx:49-57 | saving the edit form unchanged merges back into the very same record |
| PayrollAgreement.FormPostAsWrittenFails | server/routes.ts:32-39 | the body of every valid add form parses, but the parsed record leaves the rate columns empty, so the insert fails and the POST answers 500 |
| PayrollAgreement.FormPostWithRatesCreates | shared/schema.ts:6-14 | with the rate columns in the schema, the same body parses into the form's values with all three rates 0, which the table accepts |
| PayrollAgreement.FormRecordExportsNoDeductions | client/src/lib/excel-export.ts:42-45 | a record created through the form, with rates 0, exports an ESI, PF and total deduction of 0 and a net equal to gross |

## Left out

- Floating point: gross, ESI and PF are computed with exact rational arithmetic and floor division.
  `Math.floor(dailyRate * count)` and `gross * 0.0175` in IEEE doubles can differ from this by one
  at exact boundaries.
- Integer width: amounts are unbounded integers. The `integer`/`NUMERIC` column ranges are not
  modelled, and the SQL `NUMERIC` money columns are taken to hold integers.
- `parseInt`: its string semantics are not modelled. The route receives the day as `Option<int>`,
  with `None` for NaN, and the form receives each money input as `Option<int>`.
- zod and drizzle internals: each schema is modelled as a parser from a JSON body.
  - Attendance JSON other than an array of strings and nulls is rejected.
  - The zod error list in the 400 replies is not modelled.
- The form validates the amounts but not the attendance.
- A period of zero days: the JavaScript code then divides by zero and yields NaN. The calculators
  therefore require `totalDays >= 1`.
- Persistence failures other than the missing rate columns (the other 500 answers), connection
  setup, SSL, SQL text, table creation and logging are not modelled. Row-to-object column-name mapping (`is_active`, `total_days`) is not
  modelled either: records are taken as already mapped.
- Route ids are natural numbers from a counter instead of UUID strings. A malformed id, which
  PostgreSQL would reject as an error, is not modelled.
- Concurrency: requests are modelled one at a time. The lost-update race between two attendance
  writes to the same employee is not modelled.
- The `NOT NULL` constraints on the name, position and money columns are not modelled. The insert
  schema already requires those fields, so only the rate columns can be empty.
- node-postgres returns `NUMERIC` columns as strings. For rows read from the database,
  `basic + hra + allowance` (`client/src/pages/salary-management.tsx:93`) would therefore
  concatenate text. The model takes the columns as numbers, as `shared/schema.ts` types them.
- The export repeats the page's count and gross helpers (`client/src/lib/excel-export.ts:4-19`).
  The model uses the page's functions for both, so the two agree by construction. A divergence
  between the copies would not show.
- The row order of `SELECT *` is not modelled: the list methods promise each row once, in no
  particular order.
- React rendering, colour classes, `toLocaleString`, toasts, confirm dialogs, react-query
  refetching and the page's `useState` are UI and are left out.
- The CSV download (`Blob`, object URL, file name) at `exportToExcel`'s end is left out. Only the
  text it downloads is modelled.
- Names in the CSV are quoted without escaping, as in the source. A name with a comma or a line
  break therefore breaks the layout, so the layout lemmas assume plain names.
- Bulk "mark all" and "reset" attendance routes do not appear in `server/routes.ts` and are not
  part of this model.
- Routes.PostDesignation: modelled as if `shared/schema.ts` exported a designation insert schema.
  The method takes that schema's outcome as a parameter. As written, `server/routes.ts:4` imports a
  name the schema file does not export. The route then either fails when the module links or
  throws a non-zod error that answers 500, and it never answers 201 or 400.
- Storage.Store.CreateEmployee, Storage.Store.UpdateEmployee and Storage.Store.InsertEmployees
  require the attendance to hold canonical codes (no free text spelling P, A, H, PP or NONE). The
  source stores attendance as text, so each text has one code; every caller in the model passes
  parsed or seeded attendance, which meets this.
- SalaryTable.TablePayslip: its contract states the count and the deduction identities; what gross,
  ESI and PF are follows from `FixedEsi`, `FixedPf` and `CalculateGrossSalary`, which it calls.

## Findings

| source | as written | input that shows it | evidently intended | confidence | as-written member | corrected member |
|---|---|---|---|---|---|---|
| server/storage.ts:70-81 | the two ESI-paying sample employees are seeded with `esi_rate: 1750`, and the export divides the rate by 10000, charging 17.5% | the seeded Manager (25000 + 5000 + 2000) marked P on all 31 days of a 31-day month: gross 32000, exported ESI 5600 and net 22560, against ESI 560 and net 27600 in the salary table | `esi_rate: 175`, i.e. 1.75% in basis points, matching the fixed 1.75% of the table and the summary cards and the 1200 used for 12% PF | not executed; medium | PayrollAgreement.SeededEsiAsWrittenDisagrees | PayrollAgreement.SeededEmployeesAgreeWithTable |
| server/storage.ts:139-158 | `insertEmployeeSchema` has no rate columns, so `createEmployee` passes `undefined` (sent as `NULL`) for `esi_rate`, `pf_rate` and `other_deduction`, which the table (lines 33-35) declares `NOT NULL`; the insert throws and the route answers 500 (`server/routes.ts:39`) | the add form's body for any valid form, e.g. name "A", position "B", basic 15000, hra 3000, allowance 1000 and 31 P days: it parses, and the insert leaves all three rate columns empty | the insert schema carries the rate columns, or the insert supplies a default such as 0, so that a valid POST stores the employee and answers 201 | not executed; medium | PayrollAgreement.FormPostAsWrittenFails | Schema.ParseInsertEmployeeWithRates |
