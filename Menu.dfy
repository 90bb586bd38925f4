/**
 * The fixed menu: items with a name and a unit price, grouped into three
 * categories, and the lookup of a category by its display name.
 * Prices are in cents.
 */
module Menu {
  import opened Wrappers
  import opened Text

  /** A menu item; two items are the same item exactly when name and price agree. */
  datatype MenuItem = MenuItem(name: string, price: nat)

  /** The text of a menu item: its name, " - $" and its price with two decimals. */
  function MenuItemText(item: MenuItem): (s: string)
    ensures |s| > |item.name| + 4
    ensures s[..|item.name|] == item.name && s[|item.name|..|item.name| + 4] == " - $"
    ensures ParseCents(s[|item.name| + 4..]) == Some(item.price)
    ensures '\n' !in item.name ==> '\n' !in s
  {
    var s := item.name + " - $" + FormatCents(item.price);
    assert s[|item.name| + 4..] == FormatCents(item.price);
    FormatCentsRoundTrip(item.price);
    s
  }

  datatype MenuCategory = MainCourse | Dessert | Drink

  /** The categories in declaration order, as the enumeration lists them. */
  const AllCategories: seq<MenuCategory> := [MainCourse, Dessert, Drink]

  function DisplayName(c: MenuCategory): string {
    match c
    case MainCourse => "Main Course"
    case Dessert => "Dessert"
    case Drink => "Drink"
  }

  function Items(c: MenuCategory): seq<MenuItem> {
    match c
    case MainCourse => [
      MenuItem("Steak", 2500), MenuItem("Pasta", 2000), MenuItem("Pizza", 2000),
      MenuItem("Burger", 1800), MenuItem("Grilled Chicken", 2200), MenuItem("Salmon", 2800)]
    case Dessert => [
      MenuItem("Ice Cream", 500), MenuItem("Cheesecake", 750), MenuItem("Brownie", 650),
      MenuItem("Waffle", 800)]
    case Drink => [
      MenuItem("Latte", 450), MenuItem("Milk Tea", 400), MenuItem("Smoothie", 500),
      MenuItem("Lemonade", 350)]
  }

  /** Every price on the menu is a whole number of ten-cent units. */
  lemma PricesWholeDimes(c: MenuCategory, k: nat)
    requires k < |Items(c)|
    ensures Items(c)[k].price % 10 == 0 && Items(c)[k].price > 0
  {
  }

  /** The item is one of the menu's items, in some category. */
  predicate OnMenu(item: MenuItem) {
    exists c: MenuCategory, j: nat :: j < |Items(c)| && Items(c)[j] == item
  }

  /** Items on the menu are priced in whole ten-cent units. */
  lemma OnMenuWholeDimes(item: MenuItem)
    requires OnMenu(item)
    ensures item.price % 10 == 0 && item.price > 0
  {
    var c: MenuCategory, j: nat :| j < |Items(c)| && Items(c)[j] == item;
    PricesWholeDimes(c, j);
  }

  /** The first category of cats whose display name is name, if any. */
  function FindCategory(cats: seq<MenuCategory>, name: string): (r: Option<MenuCategory>)
    ensures r.Some? ==> r.value in cats && DisplayName(r.value) == name
    ensures r.None? <==> forall k :: 0 <= k < |cats| ==> DisplayName(cats[k]) != name
  {
    if |cats| == 0 then None
    else if DisplayName(cats[0]) == name then Some(cats[0])
    else
      var r := FindCategory(cats[1..], name);
      assert forall k :: 1 <= k < |cats| ==> cats[k] == cats[1..][k - 1];
      r
  }

  /**
   * MenuCategory.fromDisplayName: the category with that display name; the
   * source throws NoSuchElementException when there is none, modelled as None.
   */
  function FromDisplayName(name: string): (r: Option<MenuCategory>)
    ensures r.Some? ==> DisplayName(r.value) == name
    ensures r.None? <==> name !in {"Main Course", "Dessert", "Drink"}
  {
    FindCategory(AllCategories, name)
  }

  /** Every category is found again under its own display name. */
  lemma FromDisplayNameRoundTrip(c: MenuCategory)
    ensures FromDisplayName(DisplayName(c)) == Some(c)
  {
    var r := FromDisplayName(DisplayName(c));
    assert r.Some?;
    assert DisplayName(r.value) == DisplayName(c);
  }
}
