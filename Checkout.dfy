/**
 * Checking out the current order: the empty-order guard, the two ways a
 * customer can abandon checkout, the discount and its rounding, the
 * receipt, and the order in which the manager's state changes.
 * The three dialogs are given as parameters holding the customer's answers.
 */
module Checkout {
  import opened Wrappers
  import opened Text
  import opened Menu
  import opened Orders
  import opened OrderManagement

  /** The answer to the dining-option dialog; Closed is a dialog closed without a choice. */
  datatype DiningChoice = DineIn | TakeOut | Closed

  /** How a checkout ends: refused for an empty order, abandoned in a dialog, or completed. */
  datatype CheckoutResult = EmptyOrder | Abandoned | Completed(orderNumber: string, receipt: string)

  /** The tables offered to a dine-in customer. */
  const Tables: seq<string> := ["Table 1", "Table 2", "Table 3", "Table 4", "Table 5"]

  /** The discount options, in the order the discount dialog offers them. */
  const Discounts: seq<string> := ["No Discount", "10% Off", "20% Off"]

  /** The separator line of a receipt: 21 box-drawing horizontals. */
  const Rule: string := "─────────────────────"

  // ---------------------------------------------------------------------
  // Discount arithmetic
  // ---------------------------------------------------------------------

  /** The discount rate in tenths: 0.9 for option 1, 0.8 for option 2, 1.0 for anything else. */
  function RateTenths(discountChoice: int): (tenths: nat)
    ensures 8 <= tenths <= 10
    ensures tenths == 9 <==> discountChoice == 1
    ensures tenths == 8 <==> discountChoice == 2
    ensures tenths == 10 <==> discountChoice != 1 && discountChoice != 2
  {
    if discountChoice == 1 then 9 else if discountChoice == 2 then 8 else 10
  }

  /** The discount's description: the chosen option, "No Discount" for a closed dialog (-1). */
  function DiscountLabel(discountChoice: int): (desc: string)
    requires -1 <= discountChoice < |Discounts|
    ensures desc in Discounts
    ensures desc == "No Discount" <==> discountChoice <= 0
    ensures discountChoice >= 0 ==> desc == Discounts[discountChoice]
  {
    Discounts[if discountChoice < 0 then 0 else discountChoice]
  }

  /**
   * n / d rounded to the nearest integer, ties away from zero (RoundingMode.HALF_UP):
   * r is the integer within half a unit of n / d, and a tie lies on the side away from zero.
   */
  function RoundHalfUp(n: int, d: int): (r: int)
    requires d > 0
    ensures n >= 0 ==> d * (2 * r - 1) <= 2 * n < d * (2 * r + 1)
    ensures n < 0 ==> d * (2 * r - 1) < 2 * n <= d * (2 * r + 1)
  {
    if n >= 0 then
      var q := (2 * n + d) / (2 * d);
      DivBounds(2 * n + d, 2 * d);
      q
    else
      var q := (2 * -n + d) / (2 * d);
      DivBounds(2 * -n + d, 2 * d);
      -q
  }

  lemma DivBounds(a: int, b: int)
    requires b > 0
    ensures b * (a / b) <= a < b * (a / b) + b
  {
  }

  /** The quotient is the only q with b * q <= a < b * q + b. */
  lemma DivUnique(a: int, b: int, q: int)
    requires b > 0 && b * q <= a < b * q + b
    ensures a / b == q
  {
    var p := a / b;
    DivBounds(a, b);
    if p < q {
      MulMonotone(b, p + 1, q);
    } else if p > q {
      MulMonotone(b, q + 1, p);
    }
  }

  /** An exact quotient needs no rounding. */
  lemma RoundHalfUpExact(m: int, d: int)
    requires d > 0
    ensures RoundHalfUp(m * d, d) == m
  {
    if m >= 0 {
      MulMonotone(d, 0, m);
      DivUnique(2 * (m * d) + d, 2 * d, m);
    } else {
      MulMonotone(d, m, -1);
      assert -(m * d) == (-m) * d;
      DivUnique(2 * -(m * d) + d, 2 * d, -m);
    }
  }

  lemma MulMonotone(d: int, x: int, y: int)
    requires d > 0 && x <= y
    ensures d * x <= d * y
  {
  }

  /** finalTotal: original times the rate, rounded half up to whole cents. */
  function FinalTotal(original: int, discountChoice: int): (r: int)
    ensures original >= 0 ==> 0 <= r <= original
    ensures RateTenths(discountChoice) == 10 ==> r == original
  {
    ScaledBounds(original, RateTenths(discountChoice));
    RoundHalfUp(original * RateTenths(discountChoice), 10)
  }

  /** Scaling a non-negative amount by one of the rates and rounding stays within the amount. */
  lemma ScaledBounds(original: int, tenths: nat)
    requires tenths == 8 || tenths == 9 || tenths == 10
    ensures original >= 0 ==> 0 <= RoundHalfUp(original * tenths, 10) <= original
    ensures tenths == 10 ==> RoundHalfUp(original * tenths, 10) == original
  {
    if original >= 0 {
      if tenths == 8 {
        assert original * tenths == 8 * original;
      } else if tenths == 9 {
        assert original * tenths == 9 * original;
      } else {
        assert original * tenths == 10 * original;
      }
      RoundWithin(original * tenths, original);
    }
    if tenths == 10 {
      RoundHalfUpExact(original, 10);
    }
  }

  /** Rounding n / 10 for 0 <= n <= 10 * m gives a value between 0 and m. */
  lemma RoundWithin(n: int, m: int)
    requires 0 <= n <= 10 * m
    ensures 0 <= RoundHalfUp(n, 10) <= m
  {
  }

  /** saved: what the discount takes off; saved and final total add up to the original. */
  function Saved(original: int, discountChoice: int): (saved: int)
    ensures saved + FinalTotal(original, discountChoice) == original
    ensures original >= 0 ==> 0 <= saved <= original
    ensures RateTenths(discountChoice) == 10 ==> saved == 0
  {
    original - FinalTotal(original, discountChoice)
  }

  /** When original times the rate is a whole number of cents, the total is exactly that. */
  lemma FinalTotalExact(original: int, discountChoice: int)
    requires (original * RateTenths(discountChoice)) % 10 == 0
    ensures FinalTotal(original, discountChoice) * 10 == original * RateTenths(discountChoice)
  {
    var x := original * RateTenths(discountChoice);
    var m := x / 10;
    assert x == m * 10;
    RoundHalfUpExact(m, 10);
  }

  /**
   * Every menu price is a whole number of ten-cent units, so is every order
   * total, and then no discount needs rounding.
   */
  lemma WholeDimesExact(original: int, discountChoice: int)
    requires original % 10 == 0
    ensures FinalTotal(original, discountChoice) * 10 == original * RateTenths(discountChoice)
  {
    var t := RateTenths(discountChoice);
    var m := original / 10;
    assert original == 10 * m;
    if t == 8 {
      assert original * t == (8 * m) * 10;
      RoundHalfUpExact(8 * m, 10);
    } else if t == 9 {
      assert original * t == (9 * m) * 10;
      RoundHalfUpExact(9 * m, 10);
    } else {
      assert original * t == (10 * m) * 10;
      RoundHalfUpExact(10 * m, 10);
    }
  }

  /**
   * An order of menu items totals whole ten-cent units, so its discounted
   * total never needs rounding: it is exactly the original times the rate.
   */
  lemma MenuOrderExact(lines: seq<OrderItem>, discountChoice: int)
    requires forall k :: 0 <= k < |lines| ==> OnMenu(lines[k].menuItem)
    ensures FinalTotal(Sum(lines), discountChoice) * 10 == Sum(lines) * RateTenths(discountChoice)
  {
    forall k | 0 <= k < |lines|
      ensures lines[k].menuItem.price % 10 == 0
    {
      OnMenuWholeDimes(lines[k].menuItem);
    }
    SumWholeDimes(lines);
    WholeDimesExact(Sum(lines), discountChoice);
  }

  /** The discount is within half a cent of original times the rate. */
  lemma FinalTotalNearest(original: int, discountChoice: int)
    requires original >= 0
    ensures var x := original * RateTenths(discountChoice);
            var r := FinalTotal(original, discountChoice);
            10 * (2 * r - 1) <= 2 * x < 10 * (2 * r + 1)
  {
    assert original * RateTenths(discountChoice) >= 0;
  }

  /** The discounts worked out for a 50.00 and a 54.50 order. */
  lemma DiscountExamples()
    ensures FinalTotal(5000, 1) == 4500 && Saved(5000, 1) == 500
    ensures FinalTotal(5000, 2) == 4000 && Saved(5000, 2) == 1000
    ensures FinalTotal(5450, 2) == 4360 && Saved(5450, 2) == 1090
    ensures FinalTotal(5450, -1) == 5450 && FinalTotal(5450, 0) == 5450
    ensures FinalTotal(1005, 1) == 905
  {
    assert RoundHalfUp(45000, 10) == 4500;
    assert RoundHalfUp(40000, 10) == 4000;
    assert RoundHalfUp(43600, 10) == 4360;
    assert RoundHalfUp(9045, 10) == 905;
  }

  // ---------------------------------------------------------------------
  // The receipt
  // ---------------------------------------------------------------------

  /** " | " and the table, for a dine-in order; nothing for take-out. */
  function TableSuffix(table: Option<string>): string {
    match table
    case Some(t) => " | " + t
    case None => ""
  }

  /** The receipt's title, the order line and an empty line. */
  function ReceiptHeader(orderNumber: string, table: Option<string>): string {
    "=== ORDER RECEIPT ===" + "\n" + "Order: " + orderNumber + TableSuffix(table) + "\n" + "\n"
  }

  /** The separator, the three amounts (as rendered) and the closing greeting. */
  function ReceiptFooter(subtotal: string, discountDesc: string, saved: string, total: string): string {
    "\n" + Rule + "\n"
      + "Subtotal:     $" + subtotal + "\n"
      + discountDesc + "   -$" + saved + "\n"
      + "TOTAL:        $" + total + "\n"
      + "Thank you!"
  }

  /** generateReceipt: the header, each order line's text on its own line, then the footer. */
  function Receipt(orderNumber: string, table: Option<string>, lines: seq<OrderItem>,
                   original: int, discountDesc: string, saved: int, finalTotal: int): string
  {
    ReceiptOf(orderNumber, table, ItemTexts(lines, ""),
              FormatCents(original), discountDesc, FormatCents(saved), FormatCents(finalTotal))
  }

  /** A receipt over the texts of its order lines and of its amounts. */
  function ReceiptOf(orderNumber: string, table: Option<string>, items: seq<string>,
                     subtotal: string, discountDesc: string, saved: string, total: string): string
  {
    ReceiptHeader(orderNumber, table)
      + Terminated(items)
      + ReceiptFooter(subtotal, discountDesc, saved, total)
  }

  /** The three lines before the order lines. */
  function ReceiptHeadLines(orderNumber: string, table: Option<string>): seq<string> {
    ["=== ORDER RECEIPT ===", "Order: " + orderNumber + TableSuffix(table), ""]
  }

  /** The five lines after the order lines, before the last one. */
  function ReceiptTailLines(subtotal: string, discountDesc: string, saved: string, total: string): seq<string> {
    ["", Rule, "Subtotal:     $" + subtotal, discountDesc + "   -$" + saved, "TOTAL:        $" + total]
  }

  /** All lines of a receipt but the last. */
  function ReceiptLines(orderNumber: string, table: Option<string>, items: seq<string>,
                        subtotal: string, discountDesc: string, saved: string, total: string): seq<string>
  {
    ReceiptHeadLines(orderNumber, table) + items + ReceiptTailLines(subtotal, discountDesc, saved, total)
  }

  lemma ReceiptHeaderText(orderNumber: string, table: Option<string>)
    ensures ReceiptHeader(orderNumber, table) == Terminated(ReceiptHeadLines(orderNumber, table))
  {
    var order := "Order: " + orderNumber + TableSuffix(table);
    TerminatedThree("=== ORDER RECEIPT ===", order, "");
    HeaderRegroup("=== ORDER RECEIPT ===", "\n", "Order: ", orderNumber, TableSuffix(table));
  }

  /** The header's concatenation regrouped as its three terminated lines. */
  lemma HeaderRegroup(title: string, newline: string, orderLabel: string, orderNumber: string, suffix: string)
    ensures title + newline + orderLabel + orderNumber + suffix + newline + newline
         == title + newline + (orderLabel + orderNumber + suffix) + newline + [] + newline
  {
  }

  lemma ReceiptFooterText(subtotal: string, discountDesc: string, saved: string, total: string)
    ensures ReceiptFooter(subtotal, discountDesc, saved, total)
         == Terminated(ReceiptTailLines(subtotal, discountDesc, saved, total)) + "Thank you!"
  {
    var sub := "Subtotal:     $" + subtotal;
    var disc := discountDesc + "   -$" + saved;
    var tot := "TOTAL:        $" + total;
    TerminatedAppend(["", Rule], [sub, disc, tot]);
    assert ["", Rule] + [sub, disc, tot] == ReceiptTailLines(subtotal, discountDesc, saved, total);
    TerminatedThree(sub, disc, tot);
    assert ["", Rule][1..] == [Rule];
    TerminatedOne(Rule);
    FooterLinesRegroup("\n", Rule, "Subtotal:     $", subtotal, discountDesc, "   -$",
                       saved, "TOTAL:        $", total, "Thank you!");
  }

  /** The footer's concatenation regrouped as its five terminated lines and the greeting. */
  lemma FooterLinesRegroup(newline: string, rule: string, subtotalLabel: string, subtotal: string,
                           discountDesc: string, savedLabel: string, saved: string,
                           totalLabel: string, total: string, last: string)
    ensures newline + rule + newline + subtotalLabel + subtotal + newline + discountDesc + savedLabel + saved
            + newline + totalLabel + total + newline + last
         == ([] + newline + (rule + newline))
            + ((subtotalLabel + subtotal) + newline + (discountDesc + savedLabel + saved) + newline
               + (totalLabel + total) + newline)
            + last
  {
  }

  /** The receipt is made of terminated lines and the closing greeting. */
  lemma ReceiptText(orderNumber: string, table: Option<string>, items: seq<string>,
                    subtotal: string, discountDesc: string, saved: string, total: string)
    ensures ReceiptOf(orderNumber, table, items, subtotal, discountDesc, saved, total)
         == Terminated(ReceiptLines(orderNumber, table, items, subtotal, discountDesc, saved, total))
            + "Thank you!"
  {
    var head := ReceiptHeadLines(orderNumber, table);
    var tail := ReceiptTailLines(subtotal, discountDesc, saved, total);
    ReceiptHeaderText(orderNumber, table);
    ReceiptFooterText(subtotal, discountDesc, saved, total);
    TerminatedAppend(head, items);
    TerminatedAppend(head + items, tail);
  }

  lemma HeadLinesNoBreaks(orderNumber: string, table: Option<string>)
    requires '\n' !in orderNumber
    requires table.Some? ==> '\n' !in table.value
    ensures NoBreaks(ReceiptHeadLines(orderNumber, table))
  {
    assert '\n' !in TableSuffix(table);
  }

  lemma TailLinesNoBreaks(subtotal: string, discountDesc: string, saved: string, total: string)
    requires '\n' !in subtotal && '\n' !in discountDesc && '\n' !in saved && '\n' !in total
    ensures NoBreaks(ReceiptTailLines(subtotal, discountDesc, saved, total))
  {
  }

  lemma ReceiptLinesNoBreaks(orderNumber: string, table: Option<string>, items: seq<string>,
                             subtotal: string, discountDesc: string, saved: string, total: string)
    requires '\n' !in orderNumber && (table.Some? ==> '\n' !in table.value) && NoBreaks(items)
    requires '\n' !in subtotal && '\n' !in discountDesc && '\n' !in saved && '\n' !in total
    ensures NoBreaks(ReceiptLines(orderNumber, table, items, subtotal, discountDesc, saved, total))
  {
    HeadLinesNoBreaks(orderNumber, table);
    TailLinesNoBreaks(subtotal, discountDesc, saved, total);
    NoBreaksAppend(ReceiptHeadLines(orderNumber, table), items);
    NoBreaksAppend(ReceiptHeadLines(orderNumber, table) + items, ReceiptTailLines(subtotal, discountDesc, saved, total));
  }

  /** The line structure of a receipt over any line-free texts. */
  lemma ReceiptShape(orderNumber: string, table: Option<string>, items: seq<string>,
                     subtotal: string, discountDesc: string, saved: string, total: string)
    requires '\n' !in orderNumber && (table.Some? ==> '\n' !in table.value) && NoBreaks(items)
    requires '\n' !in subtotal && '\n' !in discountDesc && '\n' !in saved && '\n' !in total
    ensures SplitLines(ReceiptOf(orderNumber, table, items, subtotal, discountDesc, saved, total))
         == ["=== ORDER RECEIPT ===", "Order: " + orderNumber + TableSuffix(table), ""]
            + items
            + ["", Rule, "Subtotal:     $" + subtotal, discountDesc + "   -$" + saved, "TOTAL:        $" + total,
               "Thank you!"]
  {
    ReceiptText(orderNumber, table, items, subtotal, discountDesc, saved, total);
    ReceiptLinesNoBreaks(orderNumber, table, items, subtotal, discountDesc, saved, total);
    SplitTerminatedLast(ReceiptOf(orderNumber, table, items, subtotal, discountDesc, saved, total),
                        ReceiptLines(orderNumber, table, items, subtotal, discountDesc, saved, total),
                        "Thank you!");
    ReceiptLinesListed(orderNumber, table, items, subtotal, discountDesc, saved, total);
  }

  lemma ReceiptLinesListed(orderNumber: string, table: Option<string>, items: seq<string>,
                           subtotal: string, discountDesc: string, saved: string, total: string)
    ensures ReceiptLines(orderNumber, table, items, subtotal, discountDesc, saved, total) + ["Thank you!"]
         == ["=== ORDER RECEIPT ===", "Order: " + orderNumber + TableSuffix(table), ""]
            + items
            + ["", Rule, "Subtotal:     $" + subtotal, discountDesc + "   -$" + saved, "TOTAL:        $" + total,
               "Thank you!"]
  {
  }

  /**
   * The line structure of a receipt: title, order line (with " | " and the
   * table for dine-in), an empty line, one line per order line, an empty
   * line, the separator, subtotal, discount, total and "Thank you!".
   */
  lemma ReceiptLayout(orderNumber: string, table: Option<string>, lines: seq<OrderItem>,
                      original: int, discountDesc: string, saved: int, finalTotal: int)
    requires '\n' !in orderNumber && '\n' !in discountDesc
    requires table.Some? ==> '\n' !in table.value
    requires NamesWithoutNewline(lines)
    ensures SplitLines(Receipt(orderNumber, table, lines, original, discountDesc, saved, finalTotal))
         == ["=== ORDER RECEIPT ===", "Order: " + orderNumber + TableSuffix(table), ""]
            + ItemTexts(lines, "")
            + ["", Rule,
               "Subtotal:     $" + FormatCents(original),
               discountDesc + "   -$" + FormatCents(saved),
               "TOTAL:        $" + FormatCents(finalTotal),
               "Thank you!"]
  {
    ItemTextsWithoutNewline(lines, "");
    ReceiptShape(orderNumber, table, ItemTexts(lines, ""),
                 FormatCents(original), discountDesc, FormatCents(saved), FormatCents(finalTotal));
  }

  // ---------------------------------------------------------------------
  // finishOrder
  // ---------------------------------------------------------------------

  /** The customer leaves checkout: the dining dialog is closed, or no table is chosen for dine-in. */
  predicate Abandons(dining: DiningChoice, tableChoice: Option<string>) {
    dining == Closed || (dining == DineIn && tableChoice.None?)
  }

  /**
   * finishOrder with the dialogs' answers as parameters. An empty order is
   * refused and an abandoned checkout returns, both before any number is
   * taken, so nothing changes; otherwise the order is checked out.
   */
  method FinishOrder(manager: OrderManager, dining: DiningChoice, tableChoice: Option<string>,
                     discountChoice: int) returns (result: CheckoutResult)
    requires manager.Valid()
    requires tableChoice.Some? ==> tableChoice.value in Tables
    requires -1 <= discountChoice < |Discounts|
    modifies manager
    ensures manager.Valid()
    ensures old(manager.currentOrder) == [] ==> result == EmptyOrder
    ensures old(manager.currentOrder) != [] && Abandons(dining, tableChoice) ==> result == Abandoned
    ensures result.Completed? <==> old(manager.currentOrder) != [] && !Abandons(dining, tableChoice)
    ensures !result.Completed? ==>
              && manager.currentOrder == old(manager.currentOrder)
              && manager.orderHistory == old(manager.orderHistory)
              && manager.dineInCount == old(manager.dineInCount)
              && manager.takeOutCount == old(manager.takeOutCount)
    ensures result.Completed? ==>
              CheckedOut(old(manager.currentOrder), old(manager.orderHistory), old(manager.dineInCount),
                         old(manager.takeOutCount), dining == DineIn, if dining == DineIn then tableChoice else None,
                         discountChoice, result.orderNumber, result.receipt,
                         manager.currentOrder, manager.orderHistory, manager.dineInCount, manager.takeOutCount)
  {
    if manager.IsEmpty() {
      return EmptyOrder;
    }
    if dining == Closed {
      return Abandoned;
    }
    var table: Option<string> := None;
    if dining == DineIn {
      if tableChoice.None? {
        return Abandoned;
      }
      table := tableChoice;
    }
    var orderNumber, receipt := CheckOut(manager, dining == DineIn, table, discountChoice);
    result := Completed(orderNumber, receipt);
  }

  /**
   * The state after a completed checkout, given the state before it: the
   * number comes from the counter of the dining option, which alone moves
   * on; the receipt shows the lines as they were; the history gains the
   * record of those lines and the current order is empty.
   */
  ghost predicate CheckedOut(lines: seq<OrderItem>, history: seq<string>, dineInCount: nat, takeOutCount: nat,
                             dineIn: bool, table: Option<string>, discountChoice: int,
                             number: string, receipt: string,
                             lines': seq<OrderItem>, history': seq<string>, dineInCount': nat, takeOutCount': nat)
    requires -1 <= discountChoice < |Discounts|
  {
    var original := Sum(lines);
    var desc := DiscountLabel(discountChoice);
    var finalTotal := FinalTotal(original, discountChoice);
    var saved := Saved(original, discountChoice);
    && number == OrderNumber(dineIn, if dineIn then dineInCount else takeOutCount)
    && receipt == Receipt(number, table, lines, original, desc, saved, finalTotal)
    && history' == history + [HistoryRecord(number, table, lines, desc, saved, finalTotal)]
    && lines' == []
    && dineInCount' == dineInCount + (if dineIn then 1 else 0)
    && takeOutCount' == takeOutCount + (if dineIn then 0 else 1)
  }

  /**
   * The completing part of finishOrder: the discount is worked out, then the
   * number is taken, then the receipt is rendered from the current lines,
   * then completeOrder files the record and clears them.
   */
  method CheckOut(manager: OrderManager, dineIn: bool, table: Option<string>, discountChoice: int)
    returns (orderNumber: string, receipt: string)
    requires manager.Valid()
    requires -1 <= discountChoice < |Discounts|
    modifies manager
    ensures manager.Valid()
    ensures CheckedOut(old(manager.currentOrder), old(manager.orderHistory), old(manager.dineInCount),
                       old(manager.takeOutCount), dineIn, table, discountChoice, orderNumber, receipt,
                       manager.currentOrder, manager.orderHistory, manager.dineInCount, manager.takeOutCount)
  {
    ghost var lines := manager.currentOrder;
    var discountDesc := DiscountLabel(discountChoice);
    var original := manager.CalculateTotal();
    var finalTotal := FinalTotal(original, discountChoice);
    var saved := original - finalTotal;
    assert original == Sum(lines) && saved == Saved(original, discountChoice);
    orderNumber := manager.GenerateOrderNumber(dineIn);
    receipt := Receipt(orderNumber, table, manager.GetCurrentOrder(), original, discountDesc, saved, finalTotal);
    assert receipt == Receipt(orderNumber, table, lines, original, discountDesc, saved, finalTotal);
    manager.CompleteOrder(orderNumber, table, discountDesc, saved, finalTotal);
    assert manager.orderHistory == old(manager.orderHistory) + [HistoryRecord(orderNumber, table, lines, discountDesc, saved, finalTotal)];
  }
}
