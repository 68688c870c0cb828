/** `BillInvoiceExporter`: per bill, a header row (columns 1-3), one detail
    row per item (columns 4-7) and a blank spacer row. */
module BillInvoice {
  import opened Invoice
  import opened Grouping

  /** One element of the inner projection `im => new { InvoiceId, ... }`. */
  datatype InvoiceLine = InvoiceLine(invoiceId: int, invoiceName: string, invoicePrice: Decimal, invoiceQuantity: int)

  /** One element of the outer projection: a bill and its lines. */
  datatype Bill = Bill(id: int, emission: DateTime, employeeName: string, invoices: seq<InvoiceLine>)

  /** The column titles of the bill report. */
  function CreateHeadersList(): seq<string>
  {
    ["Bill Id", "Emission Date", "Employee Name", "Invoice Id", "Product Name", "Product Price", "Quantity"]
  }

  /** The grouping key, `x => x.BillId`. */
  function BillIdOf(m: InvoiceModel): int
  {
    m.billId
  }

  function LineOf(m: InvoiceModel): InvoiceLine
  {
    InvoiceLine(m.id, m.productName, m.productPrice, m.quantity)
  }

  /** `Select(im => new { ... })` over a sequence of items. */
  function Lines(ms: seq<InvoiceModel>): seq<InvoiceLine>
  {
    seq(|ms|, i requires 0 <= i < |ms| => LineOf(ms[i]))
  }

  /** A group as the exporter projects it: emission and employee come from `g.First()`. */
  function BillOf(g: Group<int, InvoiceModel>): Bill
    requires g.items != []
  {
    Bill(g.key, g.items[0].billEmission, g.items[0].employee, Lines(g.items))
  }

  /** `Select(g => ...)` over the groups: one bill per group, in group order. */
  function BillsOf(gs: seq<Group<int, InvoiceModel>>): seq<Bill>
    requires forall i :: 0 <= i < |gs| ==> gs[i].items != []
  {
    seq(|gs|, i requires 0 <= i < |gs| => BillOf(gs[i]))
  }

  /** The query the exporter iterates: group by bill id, then project each group. */
  function Bills(items: seq<InvoiceModel>): seq<Bill>
  {
    BillsOf(GroupBy(items, BillIdOf))
  }

  /** The detail lines of all bills, bill after bill. */
  function DetailLines(bs: seq<Bill>): seq<InvoiceLine>
  {
    if bs == [] then [] else bs[0].invoices + DetailLines(bs[1..])
  }

  /** The rows one bill takes: its header, one per line, and the spacer. */
  function BlockRows(b: Bill): nat
  {
    |b.invoices| + 2
  }

  /** The rows a sequence of bills takes; the final row counter is 3 plus this. */
  function RowsUsed(bs: seq<Bill>): nat
  {
    if bs == [] then 0 else BlockRows(bs[0]) + RowsUsed(bs[1..])
  }

  function BillHeaderCells(b: Bill, row: int): seq<Cell>
  {
    [ Cell(row, 1, IntValue(b.id)),
      Cell(row, 2, DateValue(b.emission)),
      Cell(row, 3, TextValue(b.employeeName)) ]
  }

  function DetailRow(l: InvoiceLine, row: int): seq<Cell>
  {
    [ Cell(row, 4, IntValue(l.invoiceId)),
      Cell(row, 5, TextValue(l.invoiceName)),
      Cell(row, 6, DecimalValue(l.invoicePrice)),
      Cell(row, 7, IntValue(l.invoiceQuantity)) ]
  }

  /** The detail cells of lines `ls` when the first goes on row `start`. */
  function DetailCells(ls: seq<InvoiceLine>, start: int): (cells: seq<Cell>)
    ensures |cells| == 4 * |ls|
  {
    if ls == [] then []
    else
      var n := |ls| - 1;
      DetailCells(ls[..n], start) + DetailRow(ls[n], start + n)
  }

  /** The cells of one bill whose header goes on `row`; the spacer row has no cells. */
  function BillBlock(b: Bill, row: int): seq<Cell>
  {
    BillHeaderCells(b, row) + DetailCells(b.invoices, row + 1)
  }

  /** The data cells of the bill report when the first bill's header goes on row `start`. */
  function BillCells(bs: seq<Bill>, start: int): seq<Cell>
  {
    if bs == [] then []
    else
      var n := |bs| - 1;
      BillCells(bs[..n], start) + BillBlock(bs[n], start + RowsUsed(bs[..n]))
  }

  // ---------------------------------------------------------------------------
  // The bills the query yields

  /** Bill ids are distinct and come in order of their first appearance in the input. */
  lemma BillsDistinctInOrder(items: seq<InvoiceModel>)
    ensures var bs := Bills(items);
      && (forall i, j :: 0 <= i < j < |bs| ==> bs[i].id != bs[j].id)
      && (forall i, j :: 0 <= i < j < |bs| ==>
            FirstIndex(items, BillIdOf, bs[i].id) < FirstIndex(items, BillIdOf, bs[j].id))
  {
    GroupByIsGrouping(items, BillIdOf);
  }

  /** The ids of the bills, in bill order. Coverage is stated as membership in
      this sequence rather than as an existential over bill positions. */
  function BillIds(bs: seq<Bill>): (ids: seq<int>)
    ensures |ids| == |bs| && forall i :: 0 <= i < |bs| ==> ids[i] == bs[i].id
  {
    if bs == [] then [] else [bs[0].id] + BillIds(bs[1..])
  }

  /** Every item's bill id has a bill. */
  lemma BillsCoverItems(items: seq<InvoiceModel>)
    ensures forall p :: 0 <= p < |items| ==> items[p].billId in BillIds(Bills(items))
  {
    var gs := GroupBy(items, BillIdOf);
    GroupByIsGrouping(items, BillIdOf);
    assert BillIds(Bills(items)) == Keys(gs);
    forall p | 0 <= p < |items| ensures items[p].billId in Keys(gs) {
      assert BillIdOf(items[p]) in Keys(gs);
    }
  }

  /** Each bill's header values come from the first input item with its id,
      and its lines are exactly that id's items, in input order. */
  lemma BillsFromFirstItem(items: seq<InvoiceModel>)
    ensures var bs := Bills(items);
      forall i :: 0 <= i < |bs| ==>
        var f := FirstIndex(items, BillIdOf, bs[i].id);
        && f < |items|
        && bs[i].emission == items[f].billEmission
        && bs[i].employeeName == items[f].employee
        && bs[i].invoices == Lines(Filter(items, BillIdOf, bs[i].id))
  {
    var gs := GroupBy(items, BillIdOf);
    GroupByIsGrouping(items, BillIdOf);
    var bs := Bills(items);
    forall i | 0 <= i < |bs|
      ensures var f := FirstIndex(items, BillIdOf, bs[i].id);
        && f < |items|
        && bs[i].emission == items[f].billEmission
        && bs[i].employeeName == items[f].employee
        && bs[i].invoices == Lines(Filter(items, BillIdOf, bs[i].id))
    {
      assert bs[i] == BillOf(gs[i]);
      FilterFirst(items, BillIdOf, gs[i].key);
    }
  }

  /** When all items of a bill agree on emission and employee, as the record
      model requires, the header shows the values of every one of them. */
  lemma BillHeaderAgrees(items: seq<InvoiceModel>)
    requires forall p, q :: 0 <= p < |items| && 0 <= q < |items| && items[p].billId == items[q].billId ==>
      items[p].billEmission == items[q].billEmission && items[p].employee == items[q].employee
    ensures var bs := Bills(items);
      forall i, p :: 0 <= i < |bs| && 0 <= p < |items| && items[p].billId == bs[i].id ==>
        bs[i].emission == items[p].billEmission && bs[i].employeeName == items[p].employee
  {
    BillsFromFirstItem(items);
  }

  lemma {:induction false} LinesAppend(a: seq<InvoiceModel>, b: seq<InvoiceModel>)
    ensures Lines(a + b) == Lines(a) + Lines(b)
  {
  }

  /** Permuted items give permuted lines. */
  lemma {:induction false} LinesPermutation(a: seq<InvoiceModel>, b: seq<InvoiceModel>)
    requires multiset(a) == multiset(b)
    ensures multiset(Lines(a)) == multiset(Lines(b))
    decreases |a|
  {
    if a == [] {
      assert |b| == |multiset(b)| == 0;
    } else {
      var n := |a| - 1;
      var x := a[n];
      assert x in multiset(b);
      var q :| 0 <= q < |b| && b[q] == x;
      var b' := b[..q] + b[q + 1..];
      assert b == b[..q] + [x] + b[q + 1..];
      assert multiset(b) == multiset(b[..q]) + multiset{x} + multiset(b[q + 1..]);
      assert a == a[..n] + [x];
      assert multiset(a) == multiset(a[..n]) + multiset{x};
      calc {
        multiset(a[..n]);
        multiset(a) - multiset{x};
        multiset(b) - multiset{x};
        multiset(b[..q]) + multiset(b[q + 1..]);
        { assert b' == b[..q] + b[q + 1..]; }
        multiset(b');
      }
      LinesPermutation(a[..n], b');
      LinesAppend(a[..n], [x]);
      LinesAppend(b[..q] + [x], b[q + 1..]);
      LinesAppend(b[..q], [x]);
      LinesAppend(b[..q], b[q + 1..]);
    }
  }

  lemma {:induction false} DetailLinesOf(gs: seq<Group<int, InvoiceModel>>)
    requires forall i :: 0 <= i < |gs| ==> gs[i].items != []
    ensures DetailLines(BillsOf(gs)) == Lines(Flatten(gs))
  {
    if gs != [] {
      assert BillsOf(gs)[1..] == BillsOf(gs[1..]);
      DetailLinesOf(gs[1..]);
      LinesAppend(gs[0].items, Flatten(gs[1..]));
    }
  }

  /** Every input item appears exactly once among the detail lines. */
  lemma BillsEveryItemOnce(items: seq<InvoiceModel>)
    ensures multiset(DetailLines(Bills(items))) == multiset(Lines(items))
    ensures |DetailLines(Bills(items))| == |items|
  {
    var gs := GroupBy(items, BillIdOf);
    GroupByIsGrouping(items, BillIdOf);
    DetailLinesOf(gs);
    GroupByPermutation(items, BillIdOf);
    LinesPermutation(Flatten(gs), items);
  }

  // ---------------------------------------------------------------------------
  // Row arithmetic and cell placement

  /** Each bill takes two rows besides its detail rows. */
  lemma {:induction false} RowsUsedCount(bs: seq<Bill>)
    ensures RowsUsed(bs) == 2 * |bs| + |DetailLines(bs)|
  {
    if bs != [] {
      RowsUsedCount(bs[1..]);
    }
  }

  /** The final row counter is 3 + 2 * (distinct bill ids) + |items|: the spacer follows the last bill too. */
  lemma BillRowCount(items: seq<InvoiceModel>)
    ensures 3 + RowsUsed(Bills(items)) == 3 + 2 * |Bills(items)| + |items|
  {
    RowsUsedCount(Bills(items));
    BillsEveryItemOnce(items);
  }

  /** Laying out two runs of bills one after the other. */
  lemma {:induction false} RowsUsedAppend(a: seq<Bill>, b: seq<Bill>)
    ensures RowsUsed(a + b) == RowsUsed(a) + RowsUsed(b)
  {
    if a == [] {
      assert a + b == b;
    } else {
      assert (a + b)[1..] == a[1..] + b;
      RowsUsedAppend(a[1..], b);
    }
  }

  /** Laying out one more bill after a run of bills. */
  lemma BillCellsSnoc(bs: seq<Bill>, b: Bill, start: int)
    ensures RowsUsed(bs + [b]) == RowsUsed(bs) + BlockRows(b)
    ensures BillCells(bs + [b], start) == BillCells(bs, start) + BillBlock(b, start + RowsUsed(bs))
  {
    RowsUsedAppend(bs, [b]);
    assert (bs + [b])[..|bs|] == bs;
  }

  /** The cells of the first `i` bills come first, unchanged by the bills after them. */
  lemma {:induction false} BillCellsPrefix(bs: seq<Bill>, start: int, i: nat)
    requires i <= |bs|
    ensures BillCells(bs[..i], start) <= BillCells(bs, start)
  {
    if i < |bs| {
      var n := |bs| - 1;
      assert bs[..n][..i] == bs[..i];
      BillCellsPrefix(bs[..n], start, i);
    } else {
      assert bs[..i] == bs;
    }
  }

  /** Bill `i`'s block follows the blocks of the bills before it, with its
      header on row `start + RowsUsed(bs[..i])`. */
  lemma BillCellsAt(bs: seq<Bill>, start: int, i: nat)
    requires i < |bs|
    ensures BillCells(bs[..i], start) + BillBlock(bs[i], start + RowsUsed(bs[..i])) <= BillCells(bs, start)
  {
    BillCellsPrefix(bs, start, i + 1);
    assert bs[..i + 1][..i] == bs[..i];
  }

  /** Detail line `j` fills the `j`-th block of four cells, on row `start + j`. */
  lemma {:induction false} DetailCellsAt(ls: seq<InvoiceLine>, start: int, j: nat)
    requires j < |ls|
    ensures DetailCells(ls, start)[4 * j .. 4 * j + 4] == DetailRow(ls[j], start + j)
  {
    var n := |ls| - 1;
    if j < n {
      DetailCellsAt(ls[..n], start, j);
      assert DetailCells(ls, start)[4 * j .. 4 * j + 4] == DetailCells(ls[..n], start)[4 * j .. 4 * j + 4];
    }
  }

  lemma {:induction false} DetailCellsPlacement(ls: seq<InvoiceLine>, start: int)
    ensures forall c :: c in DetailCells(ls, start) ==>
      start <= c.row < start + |ls| && 4 <= c.column <= 7
  {
    if ls != [] {
      DetailCellsPlacement(ls[..|ls| - 1], start);
    }
  }

  /** A bill's header row fills only columns 1-3; its detail rows, right below, fill only columns 4-7. */
  lemma BillBlockShape(b: Bill, row: int)
    ensures forall c :: c in BillBlock(b, row) ==>
      || (c.row == row && 1 <= c.column <= 3)
      || (row < c.row <= row + |b.invoices| && 4 <= c.column <= 7)
  {
    DetailCellsPlacement(b.invoices, row + 1);
  }

  /** Every bill cell lies from row `start` on, in columns 1-7, and above the
      last row counted, which is the final spacer. */
  lemma {:induction false} BillCellsPlacement(bs: seq<Bill>, start: int)
    ensures forall c :: c in BillCells(bs, start) ==>
      start <= c.row < start + RowsUsed(bs) - 1 && 1 <= c.column <= 7
  {
    if bs != [] {
      var n := |bs| - 1;
      var r := start + RowsUsed(bs[..n]);
      var before, block := BillCells(bs[..n], start), BillBlock(bs[n], r);
      assert BillCells(bs, start) == before + block;
      RowsUsedAppend(bs[..n], [bs[n]]);
      assert bs[..n] + [bs[n]] == bs;
      assert RowsUsed(bs) == RowsUsed(bs[..n]) + BlockRows(bs[n]);
      BillBlockShape(bs[n], r);
      BillCellsPlacement(bs[..n], start);
      forall c: Cell | c in before + block
        ensures start <= c.row < start + RowsUsed(bs) - 1 && 1 <= c.column <= 7
      {
        if c in before {
        } else {
          assert c in block;
        }
      }
    }
  }

  // ---------------------------------------------------------------------------
  // The exporter's loop

  /** The inner loop of `BillInvoiceExporter.AddElaborateValues`: one row of four
      detail cells per line of a bill, from row `row`; `next` is the row counter after it. */
  method AddDetailRows(cells: seq<Cell>, invoices: seq<InvoiceLine>, row: int) returns (out: seq<Cell>, next: int)
    ensures out == cells + DetailCells(invoices, row)
    ensures next == row + |invoices|
  {
    out := cells;
    next := row;
    for j := 0 to |invoices|
      invariant out == cells + DetailCells(invoices[..j], row)
      invariant next == row + j
    {
      var invoice := invoices[j];
      out := out + [Cell(next, 4, IntValue(invoice.invoiceId))];
      out := out + [Cell(next, 5, TextValue(invoice.invoiceName))];
      out := out + [Cell(next, 6, DecimalValue(invoice.invoicePrice))];
      out := out + [Cell(next, 7, IntValue(invoice.invoiceQuantity))];
      next := next + 1;
      assert invoices[..j + 1][..j] == invoices[..j];
    }
    assert invoices[..|invoices|] == invoices;
  }

  lemma AppendAssoc<T>(a: seq<T>, b: seq<T>, c: seq<T>, d: seq<T>)
    ensures a + b + c + d == a + (b + (c + d))
  {
  }

  /** One turn of the outer loop: appending a bill's header and detail cells to
      the cells of the bills before it gives the cells of one more bill. */
  lemma AddBillStep(cells: seq<Cell>, bills: seq<Bill>, i: nat, before: seq<Cell>, withHeader: seq<Cell>, after: seq<Cell>)
    requires i < |bills|
    requires before == cells + BillCells(bills[..i], 3)
    requires withHeader == before + BillHeaderCells(bills[i], 3 + RowsUsed(bills[..i]))
    requires after == withHeader + DetailCells(bills[i].invoices, 3 + RowsUsed(bills[..i]) + 1)
    ensures after == cells + BillCells(bills[..i + 1], 3)
    ensures RowsUsed(bills[..i + 1]) == RowsUsed(bills[..i]) + BlockRows(bills[i])
  {
    var done, b := bills[..i], bills[i];
    var r := 3 + RowsUsed(done);
    assert bills[..i + 1] == done + [b];
    BillCellsSnoc(done, b, 3);
    AppendAssoc(cells, BillCells(done, 3), BillHeaderCells(b, r), DetailCells(b.invoices, r + 1));
  }

  /** The outer loop of `BillInvoiceExporter.AddElaborateValues` over the bills of
      the query: a header row, the detail rows, then one spacer row per bill. */
  method AddBills(cells: seq<Cell>, bills: seq<Bill>) returns (out: seq<Cell>, row: int)
    ensures out == cells + BillCells(bills, 3)
    ensures row == 3 + RowsUsed(bills)
  {
    out := cells;
    row := 3;
    for i := 0 to |bills|
      invariant out == cells + BillCells(bills[..i], 3)
      invariant row == 3 + RowsUsed(bills[..i])
    {
      var value := bills[i];
      ghost var before, headerRow := out, row;
      out := out + [Cell(row, 1, IntValue(value.id))];
      out := out + [Cell(row, 2, DateValue(value.emission))];
      out := out + [Cell(row, 3, TextValue(value.employeeName))];
      row := row + 1;
      ghost var withHeader := out;
      assert withHeader == before + BillHeaderCells(value, headerRow);
      out, row := AddDetailRows(out, value.invoices, row);
      row := row + 1;
      AddBillStep(cells, bills, i, before, withHeader, out);
    }
    assert bills[..|bills|] == bills;
  }

  /** `BillInvoiceExporter.AddElaborateValues`: groups the items into bills and
      appends the bill cells to `cells`; `row` is the row counter when the loop ends. */
  method AddElaborateValues(cells: seq<Cell>, items: seq<InvoiceModel>) returns (out: seq<Cell>, row: int)
    ensures out == cells + BillCells(Bills(items), 3)
    ensures row == 3 + RowsUsed(Bills(items))
  {
    var result := Bills(items);
    out, row := AddBills(cells, result);
  }
}
