/**
 The retail transaction table of the sales dashboard: one record per line item
 as loaded from the CSV, and the two columns appended to it at load time
 (net line revenue and the day-of-week name).

 Currency amounts are whole cents, so revenue is exact integer arithmetic.
 A date is a day number that orders like the calendar; parsing the CSV's
 DD-MM-YYYY text into that number is not part of this model.
 */
module Transactions {

  /** One line item as read from the CSV. Nothing is validated: quantity,
      price and discount may hold any integer. */
  datatype Transaction = Transaction(
    transactionId: string,
    date: int,
    storeLocation: string,
    channel: string,
    productCategory: string,
    customerSegment: string,
    productName: string,
    customerId: string,
    quantity: int,
    unitPrice: int,
    discountApplied: int)

  /** A line item with the derived columns appended; the transaction itself
      is carried unchanged. */
  datatype Row = Row(txn: Transaction, lineRevenue: int, dayOfWeek: string)

  /** The categorical columns the dashboard groups or counts by. */
  datatype Column =
    | TransactionId
    | CustomerId
    | ProductName
    | ProductCategory
    | StoreLocation
    | Channel
    | DayOfWeek

  /** The value of a categorical column in a row. */
  function KeyOf(r: Row, col: Column): string {
    match col
    case TransactionId => r.txn.transactionId
    case CustomerId => r.txn.customerId
    case ProductName => r.txn.productName
    case ProductCategory => r.txn.productCategory
    case StoreLocation => r.txn.storeLocation
    case Channel => r.txn.channel
    case DayOfWeek => r.dayOfWeek
  }

  /** Gross amount less discount. There is no clamping at zero: a discount
      larger than the gross amount gives a negative line revenue. */
  function LineRevenue(t: Transaction): (revenue: int)
    ensures revenue < 0 <==> t.discountApplied > t.quantity * t.unitPrice
    ensures revenue + t.discountApplied == t.quantity * t.unitPrice
  {
    t.quantity * t.unitPrice - t.discountApplied
  }

  /** Appends the derived columns to one transaction. The calendar
      computation of the weekday name is the caller's `dayName`. */
  function Derive(t: Transaction, dayName: int -> string): Row {
    Row(t, LineRevenue(t), dayName(t.date))
  }

  /** Derives the columns for every loaded transaction, keeping the table's
      length and row order. */
  method LoadTable(ts: seq<Transaction>, dayName: int -> string) returns (rows: seq<Row>)
    ensures |rows| == |ts|
    ensures forall i :: 0 <= i < |ts| ==> rows[i].txn == ts[i]
    ensures forall i :: 0 <= i < |ts| ==>
      rows[i].lineRevenue == ts[i].quantity * ts[i].unitPrice - ts[i].discountApplied
    ensures forall i :: 0 <= i < |ts| ==> rows[i].dayOfWeek == dayName(ts[i].date)
  {
    rows := [];
    var i := 0;
    while i < |ts|
      invariant 0 <= i <= |ts|
      invariant |rows| == i
      invariant forall j :: 0 <= j < i ==> rows[j] == Derive(ts[j], dayName)
    {
      rows := rows + [Derive(ts[i], dayName)];
      i := i + 1;
    }
  }
}
