# Restaurant ordering core in Dafny

This project models the in-memory core of a small restaurant ordering
program written in Java with a Swing front end. The core is:

- the fixed menu, with three categories and their items;
- order lines (`OrderItem`), each a menu item and a quantity;
- the `OrderManager`, which holds the current order, the history of
  completed orders and the two order-number counters;
- the checkout (`finishOrder`), which works out the discount, takes an
  order number, renders a receipt and files the order in the history.

Money is modelled as an integer number of cents. Every menu price is a
whole number of ten-cent units (`Menu.PricesWholeDimes`).
`BigDecimal.setScale(2, HALF_UP)` and `String.format("%.2f", …)` both become
`Text.FormatCents`, and `Text.ParseCents` reads such a text back. The
discount rate, a `double` in the source, is modelled exactly as a whole
number of tenths (9, 8 or 10). The multiplication is then rounded half up
to whole cents. `Checkout.MenuOrderExact` shows that for an order whose
items are all on the menu this rounding never changes anything: the
discounted total is exactly the original times the rate.

Modules:

- `Wrappers`: `Option`.
- `Text`: digits, `%03d`, `%.2f`, and line splitting with the semantics of
  `split("\n", -1)`. The splitting is used to state the receipt and record
  layouts line by line.
- `Menu`: menu items, categories and `fromDisplayName`.
- `Orders`: the pure logic of order lines. This covers line totals, the
  order total, the merge performed by `addItem` (as a function on sequences),
  order numbers and the text of a history record.
- `OrderManagement`: the `OrderManager` class. Its fields are updated in
  place by methods, each proved against the functions of `Orders`.
- `Checkout`: discount arithmetic, the receipt, and `finishOrder`, with the
  dialogs' answers as parameters.

## Model

| member | source | states |
|---|---|---|
| Menu.MenuItemText | RestaurantOrderingSystem.java:18-23 | the text is the name, " - $" and an amount that reads back as the item's price; no line break unless the name has one |
| Menu.PricesWholeDimes | RestaurantOrderingSystem.java:282-301 | every menu price is positive and a multiple of ten cents |
| Menu.OnMenuWholeDimes | RestaurantOrderingSystem.java:282-301 | an item on the menu has a positive price that is a multiple of ten cents |
| Menu.FindCategory | RestaurantOrderingSystem.java:312-314 | finds a category of the list with that display name, and finds none exactly when no category has it |
| Menu.FromDisplayName | RestaurantOrderingSystem.java:311-316 | a found category has the requested display name; nothing is found (the source throws) exactly when the name is none of the three display names |
| Menu.FromDisplayNameRoundTrip | RestaurantOrderingSystem.java:303-316 | every category is found again from its own display name |
| Orders.TotalPrice | RestaurantOrderingSystem.java:27-29 | a line total is non-negative for a non-negative quantity, at least the unit price for a positive one, and equal to it for quantity 1 |
| Orders.ItemText | RestaurantOrderingSystem.java:31-34 | a line's text has no line break when the item name has none; its full format is stated by Orders.ItemTextShape |
| Orders.ItemTextShape | RestaurantOrderingSystem.java:31-34 | a line's text is exactly the name, " x", the quantity (for a non-negative quantity, digits whose value is the quantity), " - $" and an amount that reads back as the line total |
| Orders.TotalFromIsSum | RestaurantOrderingSystem.java:65-69 | the left fold of line totals from an accumulator equals the accumulator plus the sum of the line totals |
| Orders.OrderTotal | RestaurantOrderingSystem.java:65-69 | the reduction from zero equals the sum of the line totals, and is 0 for an empty order |
| Orders.SumAppend | RestaurantOrderingSystem.java:65-69 | the total of two orders joined is the sum of their totals |
| Orders.SumNonNegative | RestaurantOrderingSystem.java:65-69 | with positive quantities the total is never negative |
| Orders.SumWholeDimes | RestaurantOrderingSystem.java:65-69 | when every price is a multiple of ten cents, so is the total |
| Orders.FindLine | RestaurantOrderingSystem.java:47-48 | the search returns the first line holding the item, and finds none exactly when no line holds it |
| Orders.AddNonPositive | RestaurantOrderingSystem.java:45 | a non-positive quantity leaves the order unchanged |
| Orders.AddNew | RestaurantOrderingSystem.java:54 | an item not yet ordered is appended as one new line and the earlier lines stay |
| Orders.AddExisting | RestaurantOrderingSystem.java:47-52 | an item already ordered has its line removed and appended at the end with the summed quantity; no other line holds the item |
| Orders.AddPreservesWellFormed | RestaurantOrderingSystem.java:44-55 | adding keeps the order's items distinct and its quantities positive |
| Orders.AddKeepsOtherLines | RestaurantOrderingSystem.java:44-55 | adding never changes or reorders the lines of the other items |
| Orders.AddQuantity | RestaurantOrderingSystem.java:44-55 | the quantity of the added item grows by the added amount when it is positive; every other item's quantity is unchanged |
| Orders.AddTotal | RestaurantOrderingSystem.java:44-55 | the order total grows by price times quantity for a positive quantity, and is unchanged otherwise |
| Orders.AddAllDistinct | RestaurantOrderingSystem.java:44-55 | adding distinct items with positive quantities, one by one, gives exactly one line per request, in request order |
| Text.Pad3 | RestaurantOrderingSystem.java:73 | the text has at least three digits (exactly three below 1000), their value is the number, and a longer text has no leading zero |
| Orders.OrderNumber | RestaurantOrderingSystem.java:73 | the number is "A" for dine-in or "B" for take-out followed by digits whose value is the counter, at least three of them and without a superfluous leading zero; it has exactly four characters below counter 1000 and no line break |
| Orders.OrderNumberInjective | RestaurantOrderingSystem.java:71-74 | two order numbers are equal exactly when the dining option and the counter are equal |
| Orders.ItemTextsWithoutNewline | RestaurantOrderingSystem.java:81-83 | no line of the items block has a line break when no item name has one |
| Orders.RecordLayout | RestaurantOrderingSystem.java:76-86 | split at line breaks, a history record is: the order number line, a table line exactly when there is a table, "Items:", one indented line per order line in order, an empty line, and the original, discount and final totals |
| OrderManagement.OrderManager.constructor | RestaurantOrderingSystem.java:39-42 | a new manager has an empty order, an empty history and both counters at 1 |
| OrderManagement.OrderManager.AddItem | RestaurantOrderingSystem.java:44-55 | the loop leaves the current order equal to the merge function of the old one; history and counters are unchanged |
| OrderManagement.OrderManager.ClearOrder | RestaurantOrderingSystem.java:57-59 | the current order becomes empty; history and counters are unchanged |
| OrderManagement.OrderManager.IsEmpty | RestaurantOrderingSystem.java:61-63 | true exactly when there are no lines, and an empty order totals zero |
| OrderManagement.OrderManager.CalculateTotal | RestaurantOrderingSystem.java:65-69 | the total is the sum of price times quantity over the current lines |
| OrderManagement.OrderManager.GetCurrentOrder | RestaurantOrderingSystem.java:110-112 | the lines returned have distinct items and positive quantities, and there are none exactly when the order is empty |
| OrderManagement.OrderManager.GenerateOrderNumber | RestaurantOrderingSystem.java:71-74 | the number is built from the chosen counter's old value, and only that counter goes up by one |
| OrderManagement.OrderManager.CompleteOrder | RestaurantOrderingSystem.java:76-90 | the history gains exactly the record of the old lines, the current order becomes empty, and the counters stay |
| OrderManagement.BuildRecord | RestaurantOrderingSystem.java:77-86 | the builder loop produces exactly the history record of the lines |
| Checkout.RateTenths | RestaurantOrderingSystem.java:236-240 | the rate is 9 tenths exactly for choice 1, 8 tenths exactly for choice 2, and 10 tenths for every other choice |
| Checkout.DiscountLabel | RestaurantOrderingSystem.java:241 | the description is one of the three options; it is "No Discount" exactly for a closed dialog or choice 0, and otherwise the chosen option |
| Checkout.RoundHalfUp | RestaurantOrderingSystem.java:244 | the result lies within half a unit of the exact quotient, and a tie goes away from zero |
| Checkout.RoundHalfUpExact | RestaurantOrderingSystem.java:244 | an exact quotient is left unchanged by rounding |
| Checkout.FinalTotal | RestaurantOrderingSystem.java:243-244 | a discounted total lies between 0 and the original, and equals the original when there is no discount |
| Checkout.Saved | RestaurantOrderingSystem.java:245 | the saving and the final total add up to the original; the saving lies between 0 and the original, and is 0 without a discount |
| Checkout.FinalTotalExact | RestaurantOrderingSystem.java:244 | when original times the rate is a whole number of cents, the final total is exactly that |
| Checkout.WholeDimesExact | RestaurantOrderingSystem.java:243-244 | for an order total in whole ten-cent units, the final total is exactly original times the rate |
| Checkout.MenuOrderExact | RestaurantOrderingSystem.java:243-244 | for an order whose items are all on the menu, the final total is exactly the original times the rate, with no rounding |
| Checkout.FinalTotalNearest | RestaurantOrderingSystem.java:244 | the final total is within half a cent of original times the rate |
| Checkout.DiscountExamples | RestaurantOrderingSystem.java:236-245 | worked values: 50.00 gives 45.00 at 10% off and 40.00 at 20% off, 54.50 gives 43.60 at 20% off, and no discount or a closed dialog leave the total as it is |
| Checkout.ReceiptLayout | RestaurantOrderingSystem.java:262-277 | split at line breaks, the receipt is: the title, the order line with the table after a bar for dine-in, an empty line, one line per order line in order, an empty line, the separator rule, subtotal, discount with its saving, total, "Thank you!" |
| Checkout.CheckOut | RestaurantOrderingSystem.java:243-254 | one checkout takes the number from the dining option's counter, renders the receipt from the lines as they were, files their record and empties the order |
| Checkout.FinishOrder | RestaurantOrderingSystem.java:210-260 | an empty order is refused and an abandoned dialog returns, both with all state unchanged; otherwise, and only otherwise, the order is completed as CheckOut states |

## Left out

- The Swing user interface is not modelled: windows, lists, labels, the menu dialog with its quantity spinner, and `showHistory` with its joining of the history for display. The dialogs of `finishOrder` become parameters: the dining choice, the chosen table (None when the dialog is closed) and the discount index (-1 when closed).
- The list model that mirrors the current order on screen is not modelled; only the manager's own state is.
- The showing of the receipt in a message dialog is not modelled; the receipt is returned as a value instead.
- Java `int` overflow is not modelled. Quantities and counters are unbounded integers, so a merged quantity or a counter beyond 2^31 - 1 does not wrap.
- `BigDecimal` scales are not modelled. Prices are whole cents, which covers every menu price. Equality of menu items is equality of name and value; the source compares the scale too, which makes no difference for the fixed menu.
- The `double` rate is written as exact tenths. `BigDecimal.valueOf` of 0.9, 0.8 and 1.0 gives those decimals exactly.
- `%.2f` is modelled with a dot as the decimal separator; locale-dependent separators are not modelled.
- Checkout.FinishOrder: requires the chosen table to be one of the five offered and the discount index to lie between -1 and 2, because the dialogs can return nothing else.
- Checkout.CheckedOut is a ghost predicate. It describes the new state of a checkout and has no contract of its own.
