/**
 * The order manager: the current order, the history of completed orders
 * and the two order-number counters, updated in place.
 */
module OrderManagement {
  import opened Wrappers
  import opened Text
  import opened Menu
  import opened Orders

  class OrderManager {
    var currentOrder: seq<OrderItem>
    var orderHistory: seq<string>
    var dineInCount: nat
    var takeOutCount: nat

    /** The current order has distinct items with positive quantities; counters start at 1. */
    ghost predicate Valid()
      reads this
    {
      WellFormed(currentOrder) && dineInCount >= 1 && takeOutCount >= 1
    }

    constructor ()
      ensures Valid()
      ensures currentOrder == [] && orderHistory == []
      ensures dineInCount == 1 && takeOutCount == 1
    {
      currentOrder := [];
      orderHistory := [];
      dineInCount := 1;
      takeOutCount := 1;
    }

    /**
     * addItem: ignored for a non-positive quantity; otherwise the search
     * for an equal item removes its line and re-appends it with the summed
     * quantity, or a new line is appended.
     */
    method AddItem(item: MenuItem, quantity: int)
      requires Valid()
      modifies this
      ensures Valid()
      ensures currentOrder == WithItemAdded(old(currentOrder), item, quantity)
      ensures orderHistory == old(orderHistory)
      ensures dineInCount == old(dineInCount) && takeOutCount == old(takeOutCount)
    {
      if quantity <= 0 {
        return;
      }
      AddPreservesWellFormed(currentOrder, item, quantity);
      var i := 0;
      while i < |currentOrder|
        invariant 0 <= i <= |currentOrder|
        invariant currentOrder == old(currentOrder)
        invariant forall k :: 0 <= k < i ==> currentOrder[k].menuItem != item
      {
        var existing := currentOrder[i];
        if existing.menuItem == item {
          // remove(existing) takes out the first line equal to existing, which is line i
          currentOrder := currentOrder[..i] + currentOrder[i + 1..] + [OrderItem(item, existing.quantity + quantity)];
          return;
        }
        i := i + 1;
      }
      currentOrder := currentOrder + [OrderItem(item, quantity)];
    }

    /** clearOrder: empties the current order; history and counters stay. */
    method ClearOrder()
      requires Valid()
      modifies this
      ensures Valid()
      ensures currentOrder == []
      ensures orderHistory == old(orderHistory)
      ensures dineInCount == old(dineInCount) && takeOutCount == old(takeOutCount)
    {
      currentOrder := [];
    }

    /** isEmpty: the current order has no lines; an empty order totals zero. */
    function IsEmpty(): (r: bool)
      reads this
      ensures r <==> |currentOrder| == 0
      ensures r ==> CalculateTotal() == 0
    {
      currentOrder == []
    }

    /** calculateTotal: the sum of price times quantity over the current lines. */
    function CalculateTotal(): (r: int)
      reads this
      ensures r == Sum(currentOrder)
    {
      OrderTotal(currentOrder)
    }

    /** getCurrentOrder: a read-only view of the current lines, which satisfy the order invariant. */
    function GetCurrentOrder(): (r: seq<OrderItem>)
      reads this
      requires Valid()
      ensures WellFormed(r)
      ensures |r| == 0 <==> IsEmpty()
    {
      currentOrder
    }

    /**
     * generateOrderNumber: the next number of the chosen counter, "A" for
     * dine-in and "B" for take-out; only that counter moves on.
     */
    method GenerateOrderNumber(dineIn: bool) returns (number: string)
      requires Valid()
      modifies this
      ensures Valid()
      ensures number == OrderNumber(dineIn, if dineIn then old(dineInCount) else old(takeOutCount))
      ensures dineInCount == old(dineInCount) + (if dineIn then 1 else 0)
      ensures takeOutCount == old(takeOutCount) + (if dineIn then 0 else 1)
      ensures currentOrder == old(currentOrder) && orderHistory == old(orderHistory)
    {
      var num: nat;
      if dineIn {
        num := dineInCount;
        dineInCount := dineInCount + 1;
      } else {
        num := takeOutCount;
        takeOutCount := takeOutCount + 1;
      }
      number := OrderNumber(dineIn, num);
    }

    /**
     * completeOrder: appends the record of the current lines to the history
     * and clears the current order.
     */
    method CompleteOrder(orderNumber: string, table: Option<string>, discountDesc: string,
                         discountAmount: int, finalTotal: int)
      requires Valid()
      modifies this
      ensures Valid()
      ensures orderHistory == old(orderHistory)
                + [HistoryRecord(orderNumber, table, old(currentOrder), discountDesc, discountAmount, finalTotal)]
      ensures currentOrder == []
      ensures dineInCount == old(dineInCount) && takeOutCount == old(takeOutCount)
    {
      var record := BuildRecord(orderNumber, table, currentOrder, discountDesc, discountAmount, finalTotal);
      orderHistory := orderHistory + [record];
      ClearOrder();
    }
  }

  /** The StringBuilder loop of completeOrder: header, one indented line per order line, totals. */
  method BuildRecord(orderNumber: string, table: Option<string>, lines: seq<OrderItem>,
                     discountDesc: string, discountAmount: int, finalTotal: int) returns (record: string)
    ensures record == HistoryRecord(orderNumber, table, lines, discountDesc, discountAmount, finalTotal)
  {
    var sb := "Order Number: " + orderNumber + "\n";
    if table.Some? {
      sb := sb + ("Table: " + table.value + "\n");
    }
    sb := sb + "Items:" + "\n";
    assert sb == RecordHeader(orderNumber, table);
    var i := 0;
    while i < |lines|
      invariant 0 <= i <= |lines|
      invariant sb == RecordHeader(orderNumber, table) + Terminated(ItemTexts(lines[..i], "  "))
    {
      RecordBuildStep(RecordHeader(orderNumber, table), lines, i, sb);
      sb := sb + "  " + ItemText(lines[i]) + "\n";
      i := i + 1;
    }
    assert lines[..i] == lines;
    var footer := "\n" + "Original Total: $" + FormatCents(OrderTotal(lines))
      + "\n" + discountDesc + ": -$" + FormatCents(discountAmount)
      + "\n" + "Final Total: $" + FormatCents(finalTotal);
    record := sb + footer;
  }
}
