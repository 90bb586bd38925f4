/**
 * Order lines and the pure logic over a current order: line and order
 * totals, adding an item with merge-and-move-to-end, order numbers and the
 * text of a completed order's history record. Amounts are in cents.
 */
module Orders {
  import opened Wrappers
  import opened Text
  import opened Menu

  /** One line of an order: a menu item and how many of it. */
  datatype OrderItem = OrderItem(menuItem: MenuItem, quantity: int)

  /** OrderItem.totalPrice: unit price times quantity. */
  function TotalPrice(line: OrderItem): (r: int)
    ensures line.quantity >= 0 ==> r >= 0
    ensures line.quantity > 0 ==> r >= line.menuItem.price
    ensures line.quantity == 1 ==> r == line.menuItem.price
  {
    line.menuItem.price * line.quantity
  }

  /** OrderItem.toString: name, " x", the quantity, " - $" and the line total with two decimals. */
  function ItemText(line: OrderItem): (s: string)
    ensures '\n' !in line.menuItem.name ==> '\n' !in s
  {
    line.menuItem.name + " x" + IntToString(line.quantity) + " - $" + FormatCents(TotalPrice(line))
  }

  /**
   * What a line's text shows: the item's name, " x", the quantity (which
   * reads back as the quantity), " - $", and the line total (which reads
   * back as the line total), with nothing else.
   */
  lemma ItemTextShape(line: OrderItem)
    ensures var s := ItemText(line);
            var head := line.menuItem.name + " x";
            var q := IntToString(line.quantity);
            var amount := FormatCents(TotalPrice(line));
            && |s| == |head| + |q| + 4 + |amount|
            && s[..|head|] == head
            && s[|head|..|head| + |q|] == q
            && (line.quantity >= 0 ==> AllDigits(q) && DigitsValue(q) == line.quantity)
            && s[|head| + |q|..|head| + |q| + 4] == " - $"
            && s[|head| + |q| + 4..] == amount
            && ParseCents(s[|head| + |q| + 4..]) == Some(TotalPrice(line))
  {
    FormatCentsRoundTrip(TotalPrice(line));
    FourPieces(line.menuItem.name + " x", IntToString(line.quantity), " - $", FormatCents(TotalPrice(line)));
  }

  /** The four pieces of a concatenation are found again at their offsets. */
  lemma FourPieces(a: string, b: string, c: string, d: string)
    ensures var s := a + b + c + d;
            && |s| == |a| + |b| + |c| + |d|
            && s[..|a|] == a
            && s[|a|..|a| + |b|] == b
            && s[|a| + |b|..|a| + |b| + |c|] == c
            && s[|a| + |b| + |c|..] == d
  {
    var s := a + b + c + d;
    assert s[..|a|] == a;
    assert s[|a|..|a| + |b|] == b;
    assert s[|a| + |b|..|a| + |b| + |c|] == c;
    assert s[|a| + |b| + |c|..] == d;
  }

  // ---------------------------------------------------------------------
  // Totals
  // ---------------------------------------------------------------------

  /** Reference definition: the sum of the line totals. */
  function Sum(lines: seq<OrderItem>): int {
    if |lines| == 0 then 0 else TotalPrice(lines[0]) + Sum(lines[1..])
  }

  /** The reduction the source performs: a left fold of the line totals onto acc. */
  function TotalFrom(acc: int, lines: seq<OrderItem>): int
    decreases |lines|
  {
    if |lines| == 0 then acc else TotalFrom(acc + TotalPrice(lines[0]), lines[1..])
  }

  lemma {:induction false} TotalFromIsSum(acc: int, lines: seq<OrderItem>)
    ensures TotalFrom(acc, lines) == acc + Sum(lines)
    decreases |lines|
  {
    if |lines| > 0 {
      TotalFromIsSum(acc + TotalPrice(lines[0]), lines[1..]);
    }
  }

  /** calculateTotal: the reduction from zero equals the sum of price times quantity. */
  function OrderTotal(lines: seq<OrderItem>): (r: int)
    ensures r == Sum(lines)
    ensures |lines| == 0 ==> r == 0
  {
    TotalFromIsSum(0, lines);
    TotalFrom(0, lines)
  }

  lemma {:induction false} SumAppend(a: seq<OrderItem>, b: seq<OrderItem>)
    ensures Sum(a + b) == Sum(a) + Sum(b)
    decreases |a|
  {
    if |a| == 0 {
      assert a + b == b;
    } else {
      SumAppend(a[1..], b);
      assert (a + b)[1..] == a[1..] + b;
    }
  }

  lemma {:induction false} SumNonNegative(lines: seq<OrderItem>)
    requires AllPositive(lines)
    ensures Sum(lines) >= 0
    decreases |lines|
  {
    if |lines| > 0 {
      SumNonNegative(lines[1..]);
    }
  }

  // ---------------------------------------------------------------------
  // The current order's invariant and adding an item
  // ---------------------------------------------------------------------

  /** No two lines share an equal menu item. */
  predicate Distinct(lines: seq<OrderItem>) {
    forall i, j :: 0 <= i < j < |lines| ==> lines[i].menuItem != lines[j].menuItem
  }

  predicate AllPositive(lines: seq<OrderItem>) {
    forall i :: 0 <= i < |lines| ==> lines[i].quantity > 0
  }

  /** The invariant of a current order: distinct items, positive quantities. */
  predicate WellFormed(lines: seq<OrderItem>) {
    Distinct(lines) && AllPositive(lines)
  }

  /** Position of the first line for item, if any (the for-each search of addItem). */
  function FindLine(lines: seq<OrderItem>, item: MenuItem): (r: Option<nat>)
    ensures r.Some? ==> r.value < |lines| && lines[r.value].menuItem == item
    ensures r.Some? ==> forall k :: 0 <= k < r.value ==> lines[k].menuItem != item
    ensures r.None? <==> forall k :: 0 <= k < |lines| ==> lines[k].menuItem != item
  {
    if |lines| == 0 then None
    else if lines[0].menuItem == item then Some(0)
    else
      match FindLine(lines[1..], item)
      case None => None
      case Some(i) => Some(i + 1)
  }

  /**
   * The order after addItem(item, quantity): unchanged for a non-positive
   * quantity; otherwise the first line for item, if there is one, is removed
   * and a line with the summed quantity is appended, else a new line is appended.
   */
  function WithItemAdded(lines: seq<OrderItem>, item: MenuItem, quantity: int): seq<OrderItem> {
    if quantity <= 0 then lines
    else
      match FindLine(lines, item)
      case None => lines + [OrderItem(item, quantity)]
      case Some(i) => lines[..i] + lines[i + 1..] + [OrderItem(item, lines[i].quantity + quantity)]
  }

  lemma AddNonPositive(lines: seq<OrderItem>, item: MenuItem, quantity: int)
    requires quantity <= 0
    ensures WithItemAdded(lines, item, quantity) == lines
  {
  }

  /** A new item is appended as one line, everything before it unchanged. */
  lemma AddNew(lines: seq<OrderItem>, item: MenuItem, quantity: int)
    requires quantity > 0
    requires forall k :: 0 <= k < |lines| ==> lines[k].menuItem != item
    ensures var r := WithItemAdded(lines, item, quantity);
            |r| == |lines| + 1 && r[..|lines|] == lines && r[|lines|] == OrderItem(item, quantity)
  {
    var r := WithItemAdded(lines, item, quantity);
    assert r == lines + [OrderItem(item, quantity)];
    assert r[..|lines|] == lines;
  }

  /**
   * An item already in a well-formed order: the length is unchanged, the
   * item's one line comes last with the summed quantity, and the other lines
   * keep their relative order.
   */
  lemma AddExisting(lines: seq<OrderItem>, item: MenuItem, quantity: int, i: nat)
    requires WellFormed(lines)
    requires quantity > 0 && i < |lines| && lines[i].menuItem == item
    ensures var r := WithItemAdded(lines, item, quantity);
            && |r| == |lines|
            && r[|r| - 1] == OrderItem(item, lines[i].quantity + quantity)
            && r[..|r| - 1] == lines[..i] + lines[i + 1..]
            && forall k :: 0 <= k < |r| - 1 ==> r[k].menuItem != item
  {
    var f := FindLine(lines, item);
    assert f == Some(i) by {
      if f.value != i {
        assert lines[f.value].menuItem == lines[i].menuItem;
      }
    }
    var r := WithItemAdded(lines, item, quantity);
    var rest := lines[..i] + lines[i + 1..];
    assert r == rest + [OrderItem(item, lines[i].quantity + quantity)];
    assert r[..|r| - 1] == rest;
    forall k | 0 <= k < |rest| ensures rest[k].menuItem != item {
      if k < i {
        assert rest[k] == lines[k];
      } else {
        assert rest[k] == lines[k + 1];
      }
    }
  }

  /** Adding keeps the invariant: distinct items and positive quantities. */
  lemma AddPreservesWellFormed(lines: seq<OrderItem>, item: MenuItem, quantity: int)
    requires WellFormed(lines)
    ensures WellFormed(WithItemAdded(lines, item, quantity))
  {
    if quantity > 0 {
      match FindLine(lines, item)
      case None =>
        SnocWellFormed(lines, OrderItem(item, quantity));
      case Some(i) =>
        RemoveKeepsWellFormed(lines, i);
        SnocWellFormed(lines[..i] + lines[i + 1..], OrderItem(item, lines[i].quantity + quantity));
    }
  }

  /** Removing a line keeps the invariant, and no remaining line holds the removed item. */
  lemma RemoveKeepsWellFormed(lines: seq<OrderItem>, i: nat)
    requires WellFormed(lines) && i < |lines|
    ensures WellFormed(lines[..i] + lines[i + 1..])
    ensures forall line :: line in lines[..i] + lines[i + 1..] ==> line.menuItem != lines[i].menuItem
  {
    var rest := lines[..i] + lines[i + 1..];
    assert forall k :: 0 <= k < |rest| ==> rest[k] == lines[if k < i then k else k + 1];
  }

  /** Appending a line for a new item with a positive quantity keeps the invariant. */
  lemma SnocWellFormed(lines: seq<OrderItem>, line: OrderItem)
    requires WellFormed(lines) && line.quantity > 0
    requires forall k :: 0 <= k < |lines| ==> lines[k].menuItem != line.menuItem
    ensures WellFormed(lines + [line])
  {
  }

  /** The lines for other items than item, in order. */
  function Without(lines: seq<OrderItem>, item: MenuItem): (r: seq<OrderItem>)
    ensures forall k :: 0 <= k < |r| ==> r[k].menuItem != item
    ensures |r| <= |lines|
  {
    if |lines| == 0 then []
    else if lines[0].menuItem == item then Without(lines[1..], item)
    else [lines[0]] + Without(lines[1..], item)
  }

  lemma {:induction false} WithoutAppend(a: seq<OrderItem>, b: seq<OrderItem>, item: MenuItem)
    ensures Without(a + b, item) == Without(a, item) + Without(b, item)
    decreases |a|
  {
    if |a| == 0 {
      assert a + b == b;
    } else {
      WithoutAppend(a[1..], b, item);
      assert (a + b)[1..] == a[1..] + b;
    }
  }

  /** Adding an item never reorders or changes the lines of the other items. */
  lemma AddKeepsOtherLines(lines: seq<OrderItem>, item: MenuItem, quantity: int)
    ensures Without(WithItemAdded(lines, item, quantity), item) == Without(lines, item)
  {
    if quantity > 0 {
      var added := OrderItem(item, quantity);
      match FindLine(lines, item)
      case None =>
        WithoutAppend(lines, [added], item);
        WithoutSame(added, item);
      case Some(i) =>
        var merged := OrderItem(item, lines[i].quantity + quantity);
        var before, after := lines[..i], lines[i + 1..];
        assert WithItemAdded(lines, item, quantity) == before + after + [merged];
        assert lines == before + ([lines[i]] + after);
        WithoutAppend(before, [lines[i]] + after, item);
        WithoutAppend([lines[i]], after, item);
        WithoutAppend(before + after, [merged], item);
        WithoutAppend(before, after, item);
        WithoutSame(lines[i], item);
        WithoutSame(merged, item);
    }
  }

  lemma WithoutSame(line: OrderItem, item: MenuItem)
    requires line.menuItem == item
    ensures Without([line], item) == []
  {
    assert [line][1..] == [];
  }

  /** How many of item the lines hold in all. */
  function QuantityOf(lines: seq<OrderItem>, item: MenuItem): int {
    if |lines| == 0 then 0
    else (if lines[0].menuItem == item then lines[0].quantity else 0) + QuantityOf(lines[1..], item)
  }

  lemma {:induction false} QuantityOfAppend(a: seq<OrderItem>, b: seq<OrderItem>, item: MenuItem)
    ensures QuantityOf(a + b, item) == QuantityOf(a, item) + QuantityOf(b, item)
    decreases |a|
  {
    if |a| == 0 {
      assert a + b == b;
    } else {
      QuantityOfAppend(a[1..], b, item);
      assert (a + b)[1..] == a[1..] + b;
    }
  }

  /** Adding q of an item raises its quantity by q and nothing else's. */
  lemma AddQuantity(lines: seq<OrderItem>, item: MenuItem, quantity: int, x: MenuItem)
    ensures QuantityOf(WithItemAdded(lines, item, quantity), x)
         == QuantityOf(lines, x) + (if x == item && quantity > 0 then quantity else 0)
  {
    if quantity > 0 {
      var added := OrderItem(item, quantity);
      match FindLine(lines, item)
      case None =>
        QuantityOfAppend(lines, [added], x);
        QuantitySingle(added, x);
      case Some(i) =>
        var merged := OrderItem(item, lines[i].quantity + quantity);
        var before, after := lines[..i], lines[i + 1..];
        assert WithItemAdded(lines, item, quantity) == before + after + [merged];
        assert lines == before + ([lines[i]] + after);
        QuantityOfAppend(before, [lines[i]] + after, x);
        QuantityOfAppend([lines[i]], after, x);
        QuantityOfAppend(before + after, [merged], x);
        QuantityOfAppend(before, after, x);
        QuantitySingle(lines[i], x);
        QuantitySingle(merged, x);
    }
  }

  lemma QuantitySingle(line: OrderItem, x: MenuItem)
    ensures QuantityOf([line], x) == if line.menuItem == x then line.quantity else 0
  {
    assert [line][1..] == [];
  }

  /** Adding q of an item raises the order total by q times its price. */
  lemma AddTotal(lines: seq<OrderItem>, item: MenuItem, quantity: int)
    ensures Sum(WithItemAdded(lines, item, quantity))
         == Sum(lines) + (if quantity > 0 then item.price * quantity else 0)
  {
    if quantity > 0 {
      var added := OrderItem(item, quantity);
      match FindLine(lines, item)
      case None =>
        SumAppend(lines, [added]);
        SumSingle(added);
      case Some(i) =>
        var merged := OrderItem(item, lines[i].quantity + quantity);
        var before, after := lines[..i], lines[i + 1..];
        assert WithItemAdded(lines, item, quantity) == before + after + [merged];
        assert lines == before + ([lines[i]] + after);
        SumAppend(before, [lines[i]] + after);
        SumAppend([lines[i]], after);
        SumAppend(before + after, [merged]);
        SumAppend(before, after);
        SumSingle(lines[i]);
        SumSingle(merged);
        Distribute(item.price, lines[i].quantity, quantity);
    }
  }

  lemma SumSingle(line: OrderItem)
    ensures Sum([line]) == TotalPrice(line)
  {
    assert [line][1..] == [];
  }

  lemma Distribute(p: int, a: int, b: int)
    ensures p * (a + b) == p * a + p * b
  {
  }

  /** Menu prices are whole ten-cent units; then so is the total of any order of menu items. */
  lemma {:induction false} SumWholeDimes(lines: seq<OrderItem>)
    requires forall k :: 0 <= k < |lines| ==> lines[k].menuItem.price % 10 == 0
    ensures Sum(lines) % 10 == 0
    decreases |lines|
  {
    if |lines| > 0 {
      SumWholeDimes(lines[1..]);
      var m := lines[0].menuItem.price / 10;
      var r := Sum(lines[1..]) / 10;
      assert lines[0].menuItem.price == 10 * m;
      assert Sum(lines[1..]) == 10 * r;
      ScaleByTen(m, lines[0].quantity);
      assert Sum(lines) == 10 * (m * lines[0].quantity + r);
    }
  }

  lemma ScaleByTen(m: int, q: int)
    ensures (10 * m) * q == 10 * (m * q)
  {
  }

  /** Adding a sequence of (item, quantity) requests, in order, to an empty order. */
  function AddAll(requests: seq<OrderItem>): seq<OrderItem> {
    if |requests| == 0 then []
    else
      var last := requests[|requests| - 1];
      WithItemAdded(AddAll(requests[..|requests| - 1]), last.menuItem, last.quantity)
  }

  /** Requests for distinct items with positive quantities give one line each, in request order. */
  lemma {:induction false} AddAllDistinct(requests: seq<OrderItem>)
    requires WellFormed(requests)
    ensures AddAll(requests) == requests
    decreases |requests|
  {
    if |requests| > 0 {
      var n := |requests| - 1;
      var front, last := requests[..n], requests[n];
      FrontWellFormed(requests);
      AddAllDistinct(front);
      assert AddAll(requests) == WithItemAdded(front, last.menuItem, last.quantity);
      LastIsNew(requests);
      assert FindLine(front, last.menuItem) == None;
      assert requests == front + [OrderItem(last.menuItem, last.quantity)];
    }
  }

  lemma FrontWellFormed(requests: seq<OrderItem>)
    requires WellFormed(requests) && |requests| > 0
    ensures WellFormed(requests[..|requests| - 1])
  {
    var front := requests[..|requests| - 1];
    assert forall k :: 0 <= k < |front| ==> front[k] == requests[k];
  }

  lemma LastIsNew(requests: seq<OrderItem>)
    requires WellFormed(requests) && |requests| > 0
    ensures var n := |requests| - 1;
            && requests[n].quantity > 0
            && forall k :: 0 <= k < n ==> requests[..n][k].menuItem != requests[n].menuItem
  {
  }

  // ---------------------------------------------------------------------
  // Order numbers
  // ---------------------------------------------------------------------

  /** "A" (dine-in) or "B" (take-out) followed by the counter, at least three digits. */
  function OrderNumber(dineIn: bool, counter: nat): (s: string)
    ensures |s| >= 4 && s[0] == (if dineIn then 'A' else 'B')
    ensures AllDigits(s[1..]) && DigitsValue(s[1..]) == counter
    ensures |s| > 4 ==> s[1] != '0'
    ensures '\n' !in s
    ensures counter < 1000 ==> |s| == 4
  {
    var s := (if dineIn then "A" else "B") + Pad3(counter);
    assert s[1..] == Pad3(counter);
    s
  }

  /** Two order numbers are equal exactly when type and counter agree. */
  lemma OrderNumberInjective(d1: bool, n1: nat, d2: bool, n2: nat)
    ensures OrderNumber(d1, n1) == OrderNumber(d2, n2) <==> d1 == d2 && n1 == n2
  {
    if OrderNumber(d1, n1) == OrderNumber(d2, n2) {
      assert OrderNumber(d1, n1)[0] == OrderNumber(d2, n2)[0];
      assert OrderNumber(d1, n1)[1..] == Pad3(n1);
      assert OrderNumber(d2, n2)[1..] == Pad3(n2);
    }
  }

  // ---------------------------------------------------------------------
  // Item listing and the history record
  // ---------------------------------------------------------------------

  /** The texts of the order lines, each after indent. */
  function ItemTexts(lines: seq<OrderItem>, indent: string): (r: seq<string>)
    ensures |r| == |lines|
    ensures forall k :: 0 <= k < |lines| ==> r[k] == indent + ItemText(lines[k])
  {
    if |lines| == 0 then [] else [indent + ItemText(lines[0])] + ItemTexts(lines[1..], indent)
  }

  predicate NamesWithoutNewline(lines: seq<OrderItem>) {
    forall k :: 0 <= k < |lines| ==> '\n' !in lines[k].menuItem.name
  }

  lemma ItemTextsWithoutNewline(lines: seq<OrderItem>, indent: string)
    requires NamesWithoutNewline(lines) && '\n' !in indent
    ensures NoBreaks(ItemTexts(lines, indent))
  {
    forall k | 0 <= k < |lines| ensures '\n' !in ItemTexts(lines, indent)[k] {
      assert '\n' !in ItemText(lines[k]);
    }
  }

  /** Rendering one more line of an order appends exactly that line's text. */
  lemma {:induction false} ItemTextsSnoc(front: seq<OrderItem>, last: OrderItem, indent: string)
    ensures ItemTexts(front + [last], indent) == ItemTexts(front, indent) + [indent + ItemText(last)]
    decreases |front|
  {
    if |front| == 0 {
      assert front + [last] == [last];
    } else {
      assert (front + [last])[1..] == front[1..] + [last];
      ItemTextsSnoc(front[1..], last, indent);
    }
  }

  /** Rendering one more line of an order appends exactly that line's terminated text. */
  lemma ItemBlockSnoc(lines: seq<OrderItem>, i: nat, indent: string)
    requires i < |lines|
    ensures Terminated(ItemTexts(lines[..i + 1], indent))
         == Terminated(ItemTexts(lines[..i], indent)) + (indent + ItemText(lines[i]) + "\n")
  {
    assert lines[..i + 1] == lines[..i] + [lines[i]];
    ItemTextsSnoc(lines[..i], lines[i], indent);
    TerminatedSnoc(ItemTexts(lines[..i], indent), indent + ItemText(lines[i]));
  }

  /** One pass of completeOrder's loop: appending a line's text extends the rendered block by that line. */
  lemma RecordBuildStep(header: string, lines: seq<OrderItem>, i: nat, sb: string)
    requires i < |lines|
    requires sb == header + Terminated(ItemTexts(lines[..i], "  "))
    ensures sb + "  " + ItemText(lines[i]) + "\n" == header + Terminated(ItemTexts(lines[..i + 1], "  "))
  {
    ItemBlockSnoc(lines, i, "  ");
    StepRegroup(header, Terminated(ItemTexts(lines[..i], "  ")), "  ", ItemText(lines[i]), "\n");
  }

  /** The table line of a record, present only for a table. */
  function TableLines(table: Option<string>): seq<string> {
    match table
    case Some(t) => ["Table: " + t]
    case None => []
  }

  /** The text completeOrder stores in the history for the given current lines. */
  function HistoryRecord(orderNumber: string, table: Option<string>, lines: seq<OrderItem>,
                         discountDesc: string, discountAmount: int, finalTotal: int): string
  {
    RecordOf(orderNumber, table, ItemTexts(lines, "  "), FormatCents(OrderTotal(lines)),
             discountDesc, FormatCents(discountAmount), FormatCents(finalTotal))
  }

  /** A history record over the texts of its order lines and of its amounts. */
  function RecordOf(orderNumber: string, table: Option<string>, items: seq<string>,
                    original: string, discountDesc: string, amount: string, final: string): string
  {
    RecordHeader(orderNumber, table) + Terminated(items) + RecordFooter(original, discountDesc, amount, final)
  }

  /** The order number, the table if any, and the "Items:" heading, each on its own line. */
  function RecordHeader(orderNumber: string, table: Option<string>): string {
    "Order Number: " + orderNumber + "\n"
      + (if table.Some? then "Table: " + table.value + "\n" else "")
      + "Items:" + "\n"
  }

  /** The totals that close a history record. */
  function RecordFooter(original: string, discountDesc: string, amount: string, final: string): string {
    "\n" + "Original Total: $" + original
      + "\n" + discountDesc + ": -$" + amount
      + "\n" + "Final Total: $" + final
  }

  /** The lines of a history record, all but the last. */
  function RecordLines(orderNumber: string, table: Option<string>, items: seq<string>,
                       original: string, discountDesc: string, amount: string): seq<string>
  {
    ["Order Number: " + orderNumber]
      + TableLines(table)
      + ["Items:"]
      + items
      + ["", "Original Total: $" + original, discountDesc + ": -$" + amount]
  }

  /** Appending one indented line to the built text, regrouped as header plus a longer items block. */
  lemma StepRegroup(header: string, block: string, indent: string, text: string, newline: string)
    ensures header + block + indent + text + newline == header + (block + (indent + text + newline))
  {
  }

  /** The footer's concatenation regrouped as its three terminated lines and the last line. */
  lemma RecordFooterRegroup(newline: string, originalLabel: string, original: string, discountDesc: string,
                            separator: string, amount: string, finalLabel: string, final: string)
    ensures newline + originalLabel + original + newline + discountDesc + separator + amount + newline + finalLabel + final
         == [] + newline + (originalLabel + original) + newline + (discountDesc + separator + amount) + newline
            + (finalLabel + final)
  {
  }

  /** The record's concatenation regrouped as its terminated lines and the last line. */
  lemma RecordRegroup(numberLine: string, newline: string, tableText: string, itemsHeading: string,
                      headingBreak: string, itemsBlock: string, closingBlock: string, lastLine: string)
    ensures numberLine + newline + tableText + itemsHeading + headingBreak + itemsBlock + (closingBlock + lastLine)
         == numberLine + newline + tableText + (itemsHeading + headingBreak) + itemsBlock + closingBlock + lastLine
  {
  }

  lemma RecordFooterText(original: string, discountDesc: string, amount: string, final: string)
    ensures RecordFooter(original, discountDesc, amount, final)
         == Terminated(["", "Original Total: $" + original, discountDesc + ": -$" + amount])
            + ("Final Total: $" + final)
  {
    TerminatedThree("", "Original Total: $" + original, discountDesc + ": -$" + amount);
    RecordFooterRegroup("\n", "Original Total: $", original, discountDesc, ": -$", amount, "Final Total: $", final);
  }

  lemma RecordText(orderNumber: string, table: Option<string>, items: seq<string>,
                   original: string, discountDesc: string, amount: string, final: string)
    ensures RecordOf(orderNumber, table, items, original, discountDesc, amount, final)
         == Terminated(RecordLines(orderNumber, table, items, original, discountDesc, amount))
            + ("Final Total: $" + final)
  {
    var h := "Order Number: " + orderNumber;
    var tableText := if table.Some? then "Table: " + table.value + "\n" else "";
    var closing := ["", "Original Total: $" + original, discountDesc + ": -$" + amount];
    assert Terminated(TableLines(table)) == tableText by {
      if table.Some? { TerminatedOne("Table: " + table.value); }
    }
    TerminatedOne(h);
    TerminatedOne("Items:");
    RecordFooterText(original, discountDesc, amount, final);
    TerminatedFive([h], TableLines(table), ["Items:"], items, closing);
    RecordRegroup(h, "\n", tableText, "Items:", "\n", Terminated(items), Terminated(closing), "Final Total: $" + final);
  }

  lemma RecordLinesNoBreaks(orderNumber: string, table: Option<string>, items: seq<string>,
                            original: string, discountDesc: string, amount: string)
    requires '\n' !in orderNumber && (table.Some? ==> '\n' !in table.value) && NoBreaks(items)
    requires '\n' !in original && '\n' !in discountDesc && '\n' !in amount
    ensures NoBreaks(RecordLines(orderNumber, table, items, original, discountDesc, amount))
  {
    var head := ["Order Number: " + orderNumber] + TableLines(table) + ["Items:"];
    NoBreaksAppend(["Order Number: " + orderNumber], TableLines(table));
    NoBreaksAppend(["Order Number: " + orderNumber] + TableLines(table), ["Items:"]);
    NoBreaksAppend(head, items);
    NoBreaksAppend(head + items, ["", "Original Total: $" + original, discountDesc + ": -$" + amount]);
  }

  /** The line structure of a history record over any line-free texts. */
  lemma RecordShape(orderNumber: string, table: Option<string>, items: seq<string>,
                    original: string, discountDesc: string, amount: string, final: string)
    requires '\n' !in orderNumber && (table.Some? ==> '\n' !in table.value) && NoBreaks(items)
    requires '\n' !in original && '\n' !in discountDesc && '\n' !in amount && '\n' !in final
    ensures SplitLines(RecordOf(orderNumber, table, items, original, discountDesc, amount, final))
         == ["Order Number: " + orderNumber] + TableLines(table) + ["Items:"] + items
            + ["", "Original Total: $" + original, discountDesc + ": -$" + amount, "Final Total: $" + final]
  {
    RecordText(orderNumber, table, items, original, discountDesc, amount, final);
    RecordLinesNoBreaks(orderNumber, table, items, original, discountDesc, amount);
    SplitTerminatedLast(RecordOf(orderNumber, table, items, original, discountDesc, amount, final),
                        RecordLines(orderNumber, table, items, original, discountDesc, amount),
                        "Final Total: $" + final);
    RecordLinesListed(orderNumber, table, items, original, discountDesc, amount, final);
  }

  lemma RecordLinesListed(orderNumber: string, table: Option<string>, items: seq<string>,
                          original: string, discountDesc: string, amount: string, final: string)
    ensures RecordLines(orderNumber, table, items, original, discountDesc, amount) + ["Final Total: $" + final]
         == ["Order Number: " + orderNumber] + TableLines(table) + ["Items:"] + items
            + ["", "Original Total: $" + original, discountDesc + ": -$" + amount, "Final Total: $" + final]
  {
  }

  /**
   * The line structure of a history record: the order number line, a table
   * line exactly when there is a table, "Items:", one indented line per
   * order line, an empty line and the three totals.
   */
  lemma RecordLayout(orderNumber: string, table: Option<string>, lines: seq<OrderItem>,
                     discountDesc: string, discountAmount: int, finalTotal: int)
    requires '\n' !in orderNumber && '\n' !in discountDesc
    requires table.Some? ==> '\n' !in table.value
    requires NamesWithoutNewline(lines)
    ensures SplitLines(HistoryRecord(orderNumber, table, lines, discountDesc, discountAmount, finalTotal))
         == ["Order Number: " + orderNumber]
            + TableLines(table)
            + ["Items:"]
            + ItemTexts(lines, "  ")
            + ["", "Original Total: $" + FormatCents(OrderTotal(lines)),
               discountDesc + ": -$" + FormatCents(discountAmount),
               "Final Total: $" + FormatCents(finalTotal)]
  {
    ItemTextsWithoutNewline(lines, "  ");
    RecordShape(orderNumber, table, ItemTexts(lines, "  "), FormatCents(OrderTotal(lines)),
                discountDesc, FormatCents(discountAmount), FormatCents(finalTotal));
  }
}
