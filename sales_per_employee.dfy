/** `SalesPerEmployeeExporter`: one row per employee, in order of first
    appearance, with the employee's total of price times quantity. */
module SalesPerEmployee {
  import opened Invoice
  import opened Grouping

  /** One element of the LINQ projection: an employee and their total sales. */
  datatype EmployeeSales = EmployeeSales(name: string, totalSales: Decimal)

  /** The column titles of the sales report. */
  function CreateHeadersList(): seq<string>
  {
    ["Employee", "Total Sales"]
  }

  /** The grouping key, `x => x.Employee`. */
  function EmployeeOf(m: InvoiceModel): string
  {
    m.employee
  }

  /** The summed term, `i => i.ProductPrice * i.Quantity`. */
  function LineTotal(m: InvoiceModel): Decimal
  {
    m.productPrice * m.quantity
  }

  /** `Select(g => new { Name = g.Key, TotalSales = g.Sum(...) })` over the groups. */
  function Summarize(gs: seq<Group<string, InvoiceModel>>): seq<EmployeeSales>
  {
    seq(|gs|, i requires 0 <= i < |gs| => EmployeeSales(gs[i].key, Sum(gs[i].items, LineTotal)))
  }

  /** The query the exporter iterates: group by employee, then total each group. */
  function TotalsPerEmployee(items: seq<InvoiceModel>): seq<EmployeeSales>
  {
    Summarize(GroupBy(items, EmployeeOf))
  }

  /** The sum of the totals column. */
  function SalesSum(ts: seq<EmployeeSales>): Decimal
  {
    if ts == [] then 0 else ts[0].totalSales + SalesSum(ts[1..])
  }

  /** The employee names of the rows, in row order. Coverage is stated as
      membership in this sequence rather than as an existential over row positions. */
  function EmployeeNames(ts: seq<EmployeeSales>): (names: seq<string>)
    ensures |names| == |ts| && forall i :: 0 <= i < |ts| ==> names[i] == ts[i].name
  {
    if ts == [] then [] else [ts[0].name] + EmployeeNames(ts[1..])
  }

  /** No employee has two rows, and rows come in order of each employee's first appearance. */
  lemma TotalsDistinctInOrder(items: seq<InvoiceModel>)
    ensures var ts := TotalsPerEmployee(items);
      && (forall i, j :: 0 <= i < j < |ts| ==> ts[i].name != ts[j].name)
      && (forall i, j :: 0 <= i < j < |ts| ==>
            FirstIndex(items, EmployeeOf, ts[i].name) < FirstIndex(items, EmployeeOf, ts[j].name))
  {
    GroupByIsGrouping(items, EmployeeOf);
  }

  /** No employee of the input is missing from the rows. */
  lemma TotalsCoverEmployees(items: seq<InvoiceModel>)
    ensures forall p :: 0 <= p < |items| ==> items[p].employee in EmployeeNames(TotalsPerEmployee(items))
  {
    var gs := GroupBy(items, EmployeeOf);
    GroupByIsGrouping(items, EmployeeOf);
    assert EmployeeNames(TotalsPerEmployee(items)) == Keys(gs);
    forall p | 0 <= p < |items| ensures items[p].employee in Keys(gs) {
      assert EmployeeOf(items[p]) in Keys(gs);
    }
  }

  /** Every row names an employee of the input: the first item sold by them is at
      `FirstIndex`, inside the input. */
  lemma TotalsOnlyEmployees(items: seq<InvoiceModel>)
    ensures var ts := TotalsPerEmployee(items);
      forall i :: 0 <= i < |ts| ==> FirstIndex(items, EmployeeOf, ts[i].name) < |items|
  {
    var gs := GroupBy(items, EmployeeOf);
    GroupByIsGrouping(items, EmployeeOf);
    GroupKeysOccur(gs, items, EmployeeOf);
  }

  /** Each employee's total is the sum of price times quantity over exactly that employee's items. */
  lemma TotalsAreSums(items: seq<InvoiceModel>)
    ensures var ts := TotalsPerEmployee(items);
      forall i :: 0 <= i < |ts| ==>
        ts[i].totalSales == Sum(Filter(items, EmployeeOf, ts[i].name), LineTotal)
  {
    GroupByIsGrouping(items, EmployeeOf);
  }

  lemma {:induction false} SummarizeSum(gs: seq<Group<string, InvoiceModel>>)
    ensures SalesSum(Summarize(gs)) == GroupTotal(gs, LineTotal)
  {
    if gs != [] {
      assert Summarize(gs)[1..] == Summarize(gs[1..]);
      SummarizeSum(gs[1..]);
    }
  }

  /** Conservation: the totals column adds up to price times quantity over all items. */
  lemma SalesConservation(items: seq<InvoiceModel>)
    ensures SalesSum(TotalsPerEmployee(items)) == Sum(items, LineTotal)
  {
    SummarizeSum(GroupBy(items, EmployeeOf));
    GroupBySum(items, EmployeeOf, LineTotal);
  }

  /** The data cells of the sales report when its first employee goes on row `start`. */
  function SalesCells(ts: seq<EmployeeSales>, start: int): (cells: seq<Cell>)
    ensures |cells| == 2 * |ts|
  {
    if ts == [] then []
    else
      var n := |ts| - 1;
      SalesCells(ts[..n], start) + [Cell(start + n, 1, TextValue(ts[n].name)), Cell(start + n, 2, DecimalValue(ts[n].totalSales))]
  }

  /** Employee `j` fills the `j`-th pair of cells, on row `start + j`: name in column 1, total in column 2. */
  lemma {:induction false} SalesCellsAt(ts: seq<EmployeeSales>, start: int, j: nat)
    requires j < |ts|
    ensures SalesCells(ts, start)[2 * j] == Cell(start + j, 1, TextValue(ts[j].name))
    ensures SalesCells(ts, start)[2 * j + 1] == Cell(start + j, 2, DecimalValue(ts[j].totalSales))
  {
    var n := |ts| - 1;
    if j < n {
      SalesCellsAt(ts[..n], start, j);
    }
  }

  /** Every sales cell lies on one of the employee rows and in column 1 or 2. */
  lemma {:induction false} SalesCellsPlacement(ts: seq<EmployeeSales>, start: int)
    ensures forall c :: c in SalesCells(ts, start) ==>
      start <= c.row < start + |ts| && 1 <= c.column <= 2
  {
    if ts != [] {
      SalesCellsPlacement(ts[..|ts| - 1], start);
    }
  }

  /** `SalesPerEmployeeExporter.AddElaborateValues`: appends the sales cells to
      `cells`; `row` is the row counter when the loop ends. */
  method AddElaborateValues(cells: seq<Cell>, items: seq<InvoiceModel>) returns (out: seq<Cell>, row: int)
    ensures out == cells + SalesCells(TotalsPerEmployee(items), 3)
    ensures row == 3 + |TotalsPerEmployee(items)|
  {
    var result := TotalsPerEmployee(items);
    out := cells;
    row := 3;
    for k := 0 to |result|
      invariant out == cells + SalesCells(result[..k], 3)
      invariant row == 3 + k
    {
      var employee := result[k];
      out := out + [Cell(row, 1, TextValue(employee.name))];
      out := out + [Cell(row, 2, DecimalValue(employee.totalSales))];
      row := row + 1;
      assert result[..k + 1][..k] == result[..k];
    }
    assert result[..|result|] == result;
  }
}
