/** `FlatDataExporter`: one row per item, in input order, from row 3. */
module FlatData {
  import opened Invoice

  /** The column titles of the flat report. */
  function CreateHeadersList(): seq<string>
  {
    ["Id", "ProductName", "ProductPrice", "Quantity", "BillId", "BillEmission", "Employee"]
  }

  /** The seven cells of one item on `row`, one per attribute, in header order. */
  function FlatRow(m: InvoiceModel, row: int): seq<Cell>
  {
    [ Cell(row, 1, IntValue(m.id)),
      Cell(row, 2, TextValue(m.productName)),
      Cell(row, 3, DecimalValue(m.productPrice)),
      Cell(row, 4, IntValue(m.quantity)),
      Cell(row, 5, IntValue(m.billId)),
      Cell(row, 6, DateValue(m.billEmission)),
      Cell(row, 7, TextValue(m.employee)) ]
  }

  /** The data cells of the flat report when its first item goes on row `start`. */
  function FlatCells(items: seq<InvoiceModel>, start: int): (cells: seq<Cell>)
    ensures |cells| == 7 * |items|
  {
    if items == [] then []
    else
      var n := |items| - 1;
      FlatCells(items[..n], start) + FlatRow(items[n], start + n)
  }

  /** Item `k` fills the `k`-th block of seven cells, on row `start + k`. */
  lemma {:induction false} FlatCellsAt(items: seq<InvoiceModel>, start: int, k: nat)
    requires k < |items|
    ensures FlatCells(items, start)[7 * k .. 7 * k + 7] == FlatRow(items[k], start + k)
  {
    var n := |items| - 1;
    if k < n {
      FlatCellsAt(items[..n], start, k);
      assert FlatCells(items, start)[7 * k .. 7 * k + 7] == FlatCells(items[..n], start)[7 * k .. 7 * k + 7];
    }
  }

  /** Every flat cell lies on one of the item rows and in one of the seven columns. */
  lemma {:induction false} FlatCellsPlacement(items: seq<InvoiceModel>, start: int)
    ensures forall c :: c in FlatCells(items, start) ==>
      start <= c.row < start + |items| && 1 <= c.column <= 7
  {
    if items != [] {
      FlatCellsPlacement(items[..|items| - 1], start);
    }
  }

  /** `FlatDataExporter.AddElaborateValues`: appends the flat cells to `cells`;
      `row` is the row counter when the loop ends. */
  method AddElaborateValues(cells: seq<Cell>, items: seq<InvoiceModel>) returns (out: seq<Cell>, row: int)
    ensures out == cells + FlatCells(items, 3)
    ensures row == 3 + |items|
  {
    out := cells;
    row := 3;
    for k := 0 to |items|
      invariant out == cells + FlatCells(items[..k], 3)
      invariant row == 3 + k
    {
      var value := items[k];
      out := out + [Cell(row, 1, IntValue(value.id))];
      out := out + [Cell(row, 2, TextValue(value.productName))];
      out := out + [Cell(row, 3, DecimalValue(value.productPrice))];
      out := out + [Cell(row, 4, IntValue(value.quantity))];
      out := out + [Cell(row, 5, IntValue(value.billId))];
      out := out + [Cell(row, 6, DateValue(value.billEmission))];
      out := out + [Cell(row, 7, TextValue(value.employee))];
      row := row + 1;
      assert items[..k + 1][..k] == items[..k];
    }
    assert items[..|items|] == items;
  }
}
