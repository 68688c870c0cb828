/** `ExcelExporter<T>`: the template method. `transform` lays out the header
    row, then lets the concrete exporter append its data cells. The three
    concrete exporters are the cases of `ExporterKind`; each overridden hook
    dispatches to the module of that exporter. */
module Exporter {
  import opened Invoice
  import FlatData
  import SalesPerEmployee
  import BillInvoice

  /** The concrete subclasses of `ExcelExporter<InvoiceModel>`. */
  datatype ExporterKind = FlatDataExporter | SalesPerEmployeeExporter | BillInvoiceExporter

  /** The `createHeadersList` override of each exporter. */
  function CreateHeadersList(e: ExporterKind): seq<string>
  {
    match e
    case FlatDataExporter => FlatData.CreateHeadersList()
    case SalesPerEmployeeExporter => SalesPerEmployee.CreateHeadersList()
    case BillInvoiceExporter => BillInvoice.CreateHeadersList()
  }

  /** The header cells: title `i` goes on row 1, column `i + 1`. */
  function HeaderCells(headers: seq<string>): (cells: seq<Cell>)
    ensures |cells| == |headers|
    ensures forall i :: 0 <= i < |headers| ==> cells[i] == Cell(1, i + 1, TextValue(headers[i]))
  {
    if headers == [] then []
    else
      var n := |headers| - 1;
      HeaderCells(headers[..n]) + [Cell(1, n + 1, TextValue(headers[n]))]
  }

  /** The data cells the `AddElaborateValues` override of each exporter appends. */
  function ElaborateValues(e: ExporterKind, items: seq<InvoiceModel>): seq<Cell>
  {
    match e
    case FlatDataExporter => FlatData.FlatCells(items, 3)
    case SalesPerEmployeeExporter => SalesPerEmployee.SalesCells(SalesPerEmployee.TotalsPerEmployee(items), 3)
    case BillInvoiceExporter => BillInvoice.BillCells(BillInvoice.Bills(items), 3)
  }

  /** The cell list `transform` returns: the header cells, then the data cells. */
  function Matrix(e: ExporterKind, items: seq<InvoiceModel>): seq<Cell>
  {
    HeaderCells(CreateHeadersList(e)) + ElaborateValues(e, items)
  }

  /** `AddHeaders`: appends one cell per header title to `cells`. */
  method AddHeaders(e: ExporterKind, cells: seq<Cell>) returns (out: seq<Cell>)
    ensures out == cells + HeaderCells(CreateHeadersList(e))
  {
    var headers := CreateHeadersList(e);
    out := cells;
    for i := 0 to |headers|
      invariant out == cells + HeaderCells(headers[..i])
    {
      out := out + [Cell(1, i + 1, TextValue(headers[i]))];
      assert headers[..i + 1][..i] == headers[..i];
    }
    assert headers[..|headers|] == headers;
  }

  /** The virtual call to `AddElaborateValues`, dispatched on the exporter. */
  method AddElaborateValues(e: ExporterKind, cells: seq<Cell>, items: seq<InvoiceModel>) returns (out: seq<Cell>)
    ensures out == cells + ElaborateValues(e, items)
  {
    var row: int;
    match e
    case FlatDataExporter =>
      out, row := FlatData.AddElaborateValues(cells, items);
    case SalesPerEmployeeExporter =>
      out, row := SalesPerEmployee.AddElaborateValues(cells, items);
    case BillInvoiceExporter =>
      out, row := BillInvoice.AddElaborateValues(cells, items);
  }

  /** `transform`: a fresh cell list, the header cells, then the data cells. */
  method Transform(e: ExporterKind, items: seq<InvoiceModel>) returns (cells: seq<Cell>)
    ensures cells == Matrix(e, items)
  {
    cells := [];
    cells := AddHeaders(e, cells);
    cells := AddElaborateValues(e, cells, items);
  }

  /** Every data cell lies on row 3 or below, in a column that has a header. */
  lemma ElaborateValuesPlacement(e: ExporterKind, items: seq<InvoiceModel>)
    ensures forall c :: c in ElaborateValues(e, items) ==>
      3 <= c.row && 1 <= c.column <= |CreateHeadersList(e)|
  {
    match e
    case FlatDataExporter =>
      FlatData.FlatCellsPlacement(items, 3);
    case SalesPerEmployeeExporter =>
      SalesPerEmployee.SalesCellsPlacement(SalesPerEmployee.TotalsPerEmployee(items), 3);
    case BillInvoiceExporter =>
      BillInvoice.BillCellsPlacement(BillInvoice.Bills(items), 3);
  }

  /** The layout of the whole sheet: the headers come first, in order, on row 1;
      every later cell is a data cell on row 3 or below; row 2 stays empty; and
      no cell falls outside the header columns. */
  lemma MatrixLayout(e: ExporterKind, items: seq<InvoiceModel>)
    ensures var m, headers := Matrix(e, items), CreateHeadersList(e);
      && |headers| <= |m|
      && (forall i :: 0 <= i < |headers| ==> m[i] == Cell(1, i + 1, TextValue(headers[i])))
      && (forall k :: |headers| <= k < |m| ==> 3 <= m[k].row)
      && (forall c :: c in m ==> c.row != 2 && 1 <= c.column <= |headers|)
  {
    var m, headers := Matrix(e, items), CreateHeadersList(e);
    var data := ElaborateValues(e, items);
    ElaborateValuesPlacement(e, items);
    forall k | |headers| <= k < |m| ensures 3 <= m[k].row {
      assert m[k] == data[k - |headers|];
    }
    forall c | c in m ensures c.row != 2 && 1 <= c.column <= |headers| {
      if c !in data {
        var i :| 0 <= i < |m| && m[i] == c;
        assert i < |headers|;
      }
    }
  }

  /** An exporter adds data cells exactly when it is given at least one item:
      empty input gives the header row alone. */
  lemma EmptyInputHeadersOnly(e: ExporterKind, items: seq<InvoiceModel>)
    ensures ElaborateValues(e, items) == [] <==> items == []
    ensures items == [] ==> Matrix(e, items) == HeaderCells(CreateHeadersList(e))
  {
    match e
    case FlatDataExporter =>
    case SalesPerEmployeeExporter =>
      var ts := SalesPerEmployee.TotalsPerEmployee(items);
      if items != [] {
        SalesPerEmployee.TotalsCoverEmployees(items);
        assert items[0].employee in SalesPerEmployee.EmployeeNames(ts);
      }
    case BillInvoiceExporter =>
      var bs := BillInvoice.Bills(items);
      if items != [] {
        BillInvoice.BillsCoverItems(items);
        assert items[0].billId in BillInvoice.BillIds(bs);
      }
  }
}
