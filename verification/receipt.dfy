/** The receipt the sales page shows, exports and prints: one line per cart
    line, then the grand total. */
module Receipts {
  import opened CartEngine
  import opened Sequences

  /** One printed line: the product name, the quantity, and the line total. */
  datatype ReceiptLine = ReceiptLine(name: string, quantity: int, lineTotal: int)

  /** The body of a receipt. The invoice number, date and time depend on the
      clock and are not modelled. */
  datatype Receipt = Receipt(lines: seq<ReceiptLine>, grandTotal: int)

  /** `line` is the printed form of cart line `item`. */
  predicate Describes(line: ReceiptLine, item: Item) {
    && line.name == item.product.name
    && line.quantity == item.quantity
    && line.lineTotal == item.product.price * item.quantity
  }

  /** The printed lines, one per cart line, in cart order. */
  function Lines(cart: Cart): (r: seq<ReceiptLine>)
    ensures |r| == |cart|
    ensures forall i :: 0 <= i < |cart| ==> Describes(r[i], cart[i])
  {
    if |cart| == 0 then []
    else
      var item := cart[0];
      TimesIsProduct(item.product.price, item.quantity);
      [ReceiptLine(item.product.name, item.quantity, item.LineTotal())] + Lines(cart[1..])
  }

  /** The sum of the line totals printed on a receipt. */
  function SumLineTotals(lines: seq<ReceiptLine>): int {
    if |lines| == 0 then 0 else lines[0].lineTotal + SumLineTotals(lines[1..])
  }

  /** The cart total, folded left to right over the cart, equals the sum of
      the line totals printed on the receipt. */
  lemma {:induction false} TotalIsSumOfLines(cart: Cart)
    ensures Total(cart) == SumLineTotals(Lines(cart))
  {
    if |cart| > 0 {
      var head, tail := cart[0], cart[1..];
      TotalIsSumOfLines(tail);
      HeadTail(cart);
      TotalAppend([head], tail);
      var line := ReceiptLine(head.product.name, head.quantity, head.LineTotal());
      assert Lines(cart) == [line] + Lines(tail);
      ConsTail(line, Lines(tail));
    }
  }

  /** The receipt for a cart: its lines describe the cart lines in order, and
      its grand total, the total the cart summary shows, is the sum of the
      printed line totals. An empty cart gives an empty receipt totalling
      zero. */
  function BuildReceipt(cart: Cart): (r: Receipt)
    ensures |r.lines| == |cart|
    ensures forall i :: 0 <= i < |cart| ==> Describes(r.lines[i], cart[i])
    ensures r.grandTotal == SumLineTotals(r.lines)
    ensures |cart| == 0 ==> r.lines == [] && r.grandTotal == 0
  {
    TotalIsSumOfLines(cart);
    Receipt(Lines(cart), Total(cart))
  }
}
