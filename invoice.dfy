/** Plain records of the exporter: the invoice line-item and the output cell. */
module Invoice {

  /** A C# `decimal` amount, as an exact integer count of minor units at one
      fixed scale. Sums and products are exact, as decimal arithmetic is. */
  type Decimal = int

  /** The emission timestamp of a bill, as its six calendar components. */
  datatype DateTime = DateTime(year: int, month: int, day: int, hour: int, minute: int, second: int)

  /** One product sold within one bill. */
  datatype InvoiceModel = InvoiceModel(
    id: int,
    productName: string,
    productPrice: Decimal,
    quantity: int,
    billId: int,
    billEmission: DateTime,
    employee: string)

  /** The value a cell holds: the source stores any object and renders it as text on write. */
  datatype CellValue =
    | TextValue(text: string)
    | IntValue(number: int)
    | DecimalValue(amount: Decimal)
    | DateValue(timestamp: DateTime)

  /** One spreadsheet cell to be written, at a 1-based row and column. */
  datatype Cell = Cell(row: int, column: int, value: CellValue)
}
