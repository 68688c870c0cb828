# InvoiceModelTemplate exporters in Dafny

This project models the cell-generation core of the InvoiceModelTemplate program.
`ExcelExporter<T>` is a template-method base class. Its `transform` builds a list of
`Cell`s (row, column, value): first the header row, from the exporter's
`createHeadersList`, then the data cells, from the exporter's `AddElaborateValues`.
There are three concrete exporters over `InvoiceModel` line items:

- `FlatDataExporter`: one row of seven cells per item, in input order, from row 3.
- `SalesPerEmployeeExporter`: the items are grouped by employee (LINQ `GroupBy`).
  Each employee gets one row with their name and the sum of price × quantity.
- `BillInvoiceExporter`: the items are grouped by bill id. Each bill gets:
  - a header row (id, emission, employee, taken from the group's first item) in columns 1-3;
  - one detail row per item in columns 4-7;
  - one blank spacer row.

Modules:

- `Invoice` (`invoice.dfy`): the `InvoiceModel` and `Cell` records as datatypes.
- `Grouping` (`grouping.dfy`): LINQ `GroupBy`, `Sum` and `First` as pure
  functions. `GroupBy` is defined operationally: each element in turn is added to
  the group of its key, or opens a new group at the end. It is proved against a
  declarative specification (`IsGroupingOf`):
  - keys are distinct;
  - each group is exactly the filter of the input by its key, in source order,
    and is not empty;
  - every key is covered;
  - groups come in order of first occurrence.

  It is also proved to be a permutation of the input and to conserve sums.
- `FlatData`, `SalesPerEmployee`, `BillInvoice`: one module per concrete exporter.
  Each has its `createHeadersList` and its LINQ query as functions. The `foreach`
  loops of `AddElaborateValues` are methods with loop invariants. Each method is
  proved to append exactly a specification sequence of cells (`FlatCells`,
  `SalesCells`, `BillCells`). Lemmas state where every cell of those sequences lies.
- `Exporter` (`exporter.dfy`): the template method.
  - `ExporterKind` selects the override.
  - `AddHeaders` and `Transform` are methods.
  - Lemmas cover the layout of the whole cell list.
- `Sample` (`sample.dfy`): the six records of `Main` and the sales report they give.

The C# `List<Cell>` that the methods mutate is modelled as a `seq<Cell>` that each
method receives and returns with the new cells appended. The local `row` counter of
each `AddElaborateValues` loop is also returned, so that its final value can be
stated. A C# `decimal` is an exact integer count of minor units (cents in `Sample`).

## Model

| member | source | states |
|---|---|---|
| `Grouping.FirstIndex` | Pattern/InvoiceModelTemplate/Program.cs:202-203 | the position `g.First()` reads: the first element with key `k`, or the length when there is none; every earlier element has another key |
| `Grouping.Filter` | Pattern/InvoiceModelTemplate/Program.cs:156 | the elements a group of key `k` holds are elements of the input with key `k` |
| `Grouping.GroupBy` | Pattern/InvoiceModelTemplate/Program.cs:156 | `GroupBy` never yields an empty group |
| `Grouping.FilterNonEmpty` | Pattern/InvoiceModelTemplate/Program.cs:156 | a key has a non-empty filter exactly when it occurs in the input (both directions) |
| `Grouping.FilterFirst` | Pattern/InvoiceModelTemplate/Program.cs:202-203 | the first element of a group is the first input element with its key |
| `Grouping.InsertExisting` | Pattern/InvoiceModelTemplate/Program.cs:156 | an element whose key already has a group is appended to that group and to no other |
| `Grouping.InsertNew` | Pattern/InvoiceModelTemplate/Program.cs:156 | an element with a key not seen yet opens a new group at the end |
| `Grouping.GroupByIsGrouping` | Pattern/InvoiceModelTemplate/Program.cs:156 | `GroupBy` meets its specification: distinct keys, each group equal to the filter of the input by its key (source order, non-empty), every key covered, groups in first-occurrence order |
| `Grouping.GroupByPermutation` | Pattern/InvoiceModelTemplate/Program.cs:198 | the groups hold every input element exactly as often as the input does, and nothing else |
| `Grouping.GroupBySum` | Pattern/InvoiceModelTemplate/Program.cs:160 | summing `f` group by group gives the sum of `f` over the whole input |
| `FlatData.FlatCells` | Pattern/InvoiceModelTemplate/Program.cs:123-134 | the flat data cells number seven per item |
| `FlatData.FlatCellsAt` | Pattern/InvoiceModelTemplate/Program.cs:125-131 | item `k` fills cells `7k .. 7k+6`: on row `start + k`, its seven attributes in header order in columns 1-7 |
| `FlatData.FlatCellsPlacement` | Pattern/InvoiceModelTemplate/Program.cs:121-134 | every flat cell is on one of the item rows and in columns 1-7 |
| `FlatData.AddElaborateValues` | Pattern/InvoiceModelTemplate/Program.cs:119-135 | the loop appends exactly `FlatCells(items, 3)` to the cell list and leaves the row counter at `3 + |items|` |
| `SalesPerEmployee.TotalsDistinctInOrder` | Pattern/InvoiceModelTemplate/Program.cs:155-161 | no employee has two rows, and rows follow each employee's first appearance in the input |
| `SalesPerEmployee.TotalsCoverEmployees` | Pattern/InvoiceModelTemplate/Program.cs:155-161 | every employee of the input has a row |
| `SalesPerEmployee.TotalsOnlyEmployees` | Pattern/InvoiceModelTemplate/Program.cs:155-161 | every row names an employee who occurs in the input |
| `SalesPerEmployee.TotalsAreSums` | Pattern/InvoiceModelTemplate/Program.cs:160 | each row's total is the sum of price × quantity over exactly that employee's items |
| `SalesPerEmployee.SummarizeSum` | Pattern/InvoiceModelTemplate/Program.cs:157-161 | the totals column of the projection adds up to the sum of the per-group sums |
| `SalesPerEmployee.SalesConservation` | Pattern/InvoiceModelTemplate/Program.cs:155-161 | the totals column adds up to price × quantity over all items: no sale lost or counted twice |
| `SalesPerEmployee.SalesCells` | Pattern/InvoiceModelTemplate/Program.cs:165-171 | the sales cells number two per employee row |
| `SalesPerEmployee.SalesCellsAt` | Pattern/InvoiceModelTemplate/Program.cs:167-168 | row `j` of the result is on row `start + j`: the name in column 1 and the total in column 2 |
| `SalesPerEmployee.SalesCellsPlacement` | Pattern/InvoiceModelTemplate/Program.cs:163-171 | every sales cell is on one of the employee rows and in column 1 or 2 |
| `SalesPerEmployee.AddElaborateValues` | Pattern/InvoiceModelTemplate/Program.cs:153-172 | the loop appends exactly `SalesCells(TotalsPerEmployee(items), 3)` and leaves the row counter at 3 plus the number of distinct employees |
| `BillInvoice.BillsDistinctInOrder` | Pattern/InvoiceModelTemplate/Program.cs:197-213 | bill ids are distinct and bills follow the first appearance of their id in the input |
| `BillInvoice.BillsCoverItems` | Pattern/InvoiceModelTemplate/Program.cs:197-213 | every item's bill id has a bill |
| `BillInvoice.BillsFromFirstItem` | Pattern/InvoiceModelTemplate/Program.cs:201-212 | each bill's id occurs in the input; its emission and employee are those of the first item with that id; its lines are exactly that id's items, in input order |
| `BillInvoice.BillHeaderAgrees` | Pattern/InvoiceModelTemplate/Program.cs:202-203 | when all items of a bill agree on emission and employee, the header shows the values of every one of them |
| `BillInvoice.LinesAppend` | Pattern/InvoiceModelTemplate/Program.cs:205-211 | projecting items to invoice lines distributes over concatenation |
| `BillInvoice.LinesPermutation` | Pattern/InvoiceModelTemplate/Program.cs:205-211 | projecting two permutations of the same items gives permutations of the same lines |
| `BillInvoice.DetailLinesOf` | Pattern/InvoiceModelTemplate/Program.cs:199-212 | the detail lines of all bills, bill after bill, are the projection of the grouped items |
| `BillInvoice.BillsEveryItemOnce` | Pattern/InvoiceModelTemplate/Program.cs:197-213 | every item appears as a detail line exactly as often as in the input, and there are exactly `|items|` detail lines |
| `BillInvoice.RowsUsedCount` | Pattern/InvoiceModelTemplate/Program.cs:217-236 | the bills take two rows each besides their detail rows |
| `BillInvoice.BillRowCount` | Pattern/InvoiceModelTemplate/Program.cs:215-236 | the final row counter is 3 + 2 × (distinct bill ids) + |items| |
| `BillInvoice.DetailCells` | Pattern/InvoiceModelTemplate/Program.cs:225-233 | the detail cells number four per line |
| `BillInvoice.DetailCellsAt` | Pattern/InvoiceModelTemplate/Program.cs:227-230 | line `j` fills cells `4j .. 4j+3`: on row `start + j`, columns 4-7 |
| `BillInvoice.DetailCellsPlacement` | Pattern/InvoiceModelTemplate/Program.cs:225-233 | every detail cell is on one of the line rows and in columns 4-7 |
| `BillInvoice.BillBlockShape` | Pattern/InvoiceModelTemplate/Program.cs:219-233 | a bill's header cells are on its first row in columns 1-3; its detail cells are on the rows below, in columns 4-7 |
| `BillInvoice.BillCellsPrefix` | Pattern/InvoiceModelTemplate/Program.cs:217-236 | the cells of the first `i` bills are a prefix of the cells of all bills: later bills change nothing before them |
| `BillInvoice.BillCellsAt` | Pattern/InvoiceModelTemplate/Program.cs:217-236 | bill `i`'s block follows the blocks of the bills before it, with its header on row `start + RowsUsed(bills[..i])` |
| `BillInvoice.BillCellsPlacement` | Pattern/InvoiceModelTemplate/Program.cs:215-236 | every bill cell is on row `start` or below, above the final spacer row, in columns 1-7 |
| `BillInvoice.AddDetailRows` | Pattern/InvoiceModelTemplate/Program.cs:225-233 | the inner loop appends exactly the detail cells of the bill's lines and advances the row counter by their number |
| `BillInvoice.AddBills` | Pattern/InvoiceModelTemplate/Program.cs:215-236 | the outer loop appends exactly `BillCells(bills, 3)` and leaves the row counter at `3 + RowsUsed(bills)` |
| `BillInvoice.AddElaborateValues` | Pattern/InvoiceModelTemplate/Program.cs:195-238 | the override appends exactly the cells of the bills the query yields, and leaves the row counter at 3 plus the rows they use |
| `Exporter.HeaderCells` | Pattern/InvoiceModelTemplate/Program.cs:77-80 | one header cell per title: title `i` on row 1, column `i + 1` |
| `Exporter.AddHeaders` | Pattern/InvoiceModelTemplate/Program.cs:73-81 | appends exactly the header cells of the exporter's header list |
| `Exporter.AddElaborateValues` | Pattern/InvoiceModelTemplate/Program.cs:61 | the virtual call appends exactly the data cells of the selected exporter |
| `Exporter.Transform` | Pattern/InvoiceModelTemplate/Program.cs:63-71 | the returned cells are the header cells followed by the data cells |
| `Exporter.ElaborateValuesPlacement` | Pattern/InvoiceModelTemplate/Program.cs:119-238 | every data cell of every exporter is on row 3 or below, in a column that has a header |
| `Exporter.MatrixLayout` | Pattern/InvoiceModelTemplate/Program.cs:63-81 | header cells come first, in order, on row 1; every later cell is on row 3 or below; no cell is on row 2; every column is in 1..|headers| |
| `Exporter.EmptyInputHeadersOnly` | Pattern/InvoiceModelTemplate/Program.cs:63-71 | an exporter adds data cells exactly when it has at least one item (both directions); empty input gives the header cells alone |
| `Sample.SampleMarioGroup` | Pattern/InvoiceModelTemplate/Program.cs:15-17 | Mario's three sample records form one group |
| `Sample.SampleGroups` | Pattern/InvoiceModelTemplate/Program.cs:13-21 | grouping the sample by employee gives Mario's three records, then Luigi's three |
| `Sample.SampleMarioTotal` | Pattern/InvoiceModelTemplate/Program.cs:15-17 | Mario's sales are 639.97 |
| `Sample.SampleLuigiTotal` | Pattern/InvoiceModelTemplate/Program.cs:18-20 | Luigi's sales are 201.73 |
| `Sample.SampleSales` | Pattern/InvoiceModelTemplate/Program.cs:13-21 | the sales report of the sample is Mario 639.97, then Luigi 201.73 |

## Left out

- `writeOnExcel` and `Export`'s call to it are not modelled. They are file I/O through
  the EPPlus library, and `Value.ToString()` is culture-dependent text rendering.
  The model stops at the typed cell list that `transform` returns.
- `Main`'s output paths and `createDocument` are left out: they are file-system paths
  and the desktop folder. The sample records themselves are in `Sample`.
- `DateTime` is six plain integer fields. The range checks of the .NET constructor
  (month 1-12 and so on) are not modelled, because the exporters only copy the value.
- `decimal` is an unbounded integer of minor units at one fixed scale. The 28-digit
  overflow of `decimal` multiplication and sums, and its scale and rounding, are not
  modelled.
- `int` is unbounded. The row counters and ids are not limited to 32 bits, because no
  exporter comes near the limit for a sheet EPPlus can write.
- The `List<Cell>` is a value (`seq<Cell>`) passed in and returned. Aliasing of the
  list between caller and callee is not modelled, because only `transform` holds it.
- `BillInvoice.AddElaborateValues` keeps the source's nested loops, as two methods:
  `AddBills` for the outer loop and `AddDetailRows` for the inner one.
- The C# generic parameter `T` of `ExcelExporter<T>` is fixed to `InvoiceModel`,
  the only instantiation in the program.
- LINQ's deferred execution and `IEnumerable` laziness are not modelled. Each query
  is a function evaluated once, as the single `foreach` over it does.
- `BillInvoice.BillHeaderAgrees` assumes that all items of one bill agree on emission
  and employee. The source does not enforce this. Without that assumption,
  `BillsFromFirstItem` states what is shown: the values of the first item.
- Null is not modelled. A null `models` list makes `GroupBy` throw (lines 156 and 198).
  A null element makes the `foreach` at line 125 throw. Strings left null by the
  parameterless `InvoiceModel()` constructor (line 259) would form one null-key group.
  Every list, item and string in the model is a value and is never null.
