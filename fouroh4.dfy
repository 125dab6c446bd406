/**
 * `app/scrapers/fouroh4_scraper.py`, `extract_menu_items` once the
 * iframe's page is parsed: one item per meal card, whose header category
 * is overridden by the card's `data-category` attribute when it names a
 * course.
 */
module FourOhFour {
  import opened Wrappers
  import opened Text
  import opened Dates
  import opened Menu
  import opened Seqs
  import opened MealCards

  /** The category after the `data-category` override: appetizer, main and dessert replace it; anything else keeps it. */
  function Overridden(category: String, data: Option<String>): String
  {
    match data
    case None => category
    case Some(d) =>
      if d == "" then category
      else if d == "appetizer" then "Salat / Suppe"
      else if d == "main" then "Main Dish"
      else if d == "dessert" then "Dessert"
      else category
  }

  function CategoryOf(c: Card): String
  {
    Overridden(HeaderCategory(c), c.dataCategory)
  }

  /** The item of one card, or none when its description is too short. */
  function CardItems(c: Card, today: Date): seq<MenuItem>
  {
    var full := FullDescription(c);
    if Kept(full) then [MenuItem(today, CategoryOf(c), full, PriceOf(c))] else []
  }

  function ItemsOf(today: Date): Card -> seq<MenuItem>
  {
    c => CardItems(c, today)
  }

  /** The items of all cards, in card order. */
  function MenuItems(cards: seq<Card>, today: Date): seq<MenuItem>
  {
    FlatMap(ItemsOf(today), cards)
  }

  /** The body of the card loop: the item this card appends, if any. */
  method AssembleCard(c: Card, today: Date) returns (items: seq<MenuItem>)
    ensures items == CardItems(c, today)
  {
    var full, price, category := ReadCard(c);
    if c.dataCategory.Some? {
      var data := c.dataCategory.value;
      if data != "" {
        if data == "appetizer" {
          category := "Salat / Suppe";
        } else if data == "main" {
          category := "Main Dish";
        } else if data == "dessert" {
          category := "Dessert";
        }
      }
    }
    items := [];
    if full == "" || |Strip(full)| < 3 {
      return;
    }
    items := [MenuItem(today, category, full, price)];
  }

  /** Reading one more card, for the loop invariant. */
  lemma MenuItemsSnoc(cards: seq<Card>, k: nat, today: Date)
    requires k < |cards|
    ensures MenuItems(cards[..k + 1], today) == MenuItems(cards[..k], today) + CardItems(cards[k], today)
  {
    FlatMapPrefix(ItemsOf(today), cards, k);
  }

  /** `extract_menu_items` over the meal cards. */
  method ExtractMenuItems(cards: seq<Card>, today: Date) returns (items: seq<MenuItem>)
    ensures items == MenuItems(cards, today)
  {
    items := [];
    var k := 0;
    while k < |cards|
      invariant k <= |cards|
      invariant items == MenuItems(cards[..k], today)
    {
      var more := AssembleCard(cards[k], today);
      MenuItemsSnoc(cards, k, today);
      items := items + more;
      k := k + 1;
    }
    assert cards[..k] == cards;
  }

  // ---------------------------------------------------------------------
  // Properties.

  /** The three course values decide the category whatever the header says; any other value leaves the header's category. */
  lemma OverrideRule(category: String, data: Option<String>)
    ensures data == Some("appetizer") ==> Overridden(category, data) == "Salat / Suppe"
    ensures data == Some("main") ==> Overridden(category, data) == "Main Dish"
    ensures data == Some("dessert") ==> Overridden(category, data) == "Dessert"
    ensures data !in {Some("appetizer"), Some("main"), Some("dessert")} ==> Overridden(category, data) == category
  {
  }

  /** The category is the header's, `Main Dish` without one, unless `data-category` names a course. */
  lemma CategoryRule(c: Card)
    ensures c.dataCategory !in {Some("appetizer"), Some("main"), Some("dessert")} ==>
      CategoryOf(c) == (if c.header.Some? && c.header.value != "" then c.header.value else "Main Dish")
    ensures CategoryOf(c) != ""
  {
    OverrideRule(HeaderCategory(c), c.dataCategory);
  }

  /** A card yields one item, with its category, description and price, exactly when its description is kept. */
  lemma CardRule(c: Card, today: Date)
    ensures |CardItems(c, today)| == (if Kept(FullDescription(c)) then 1 else 0)
    ensures forall it :: it in CardItems(c, today) ==>
      it.menuDate == today && it.description == FullDescription(c) && |Strip(it.description)| >= 3 &&
      it.price == PriceOf(c) && it.category == CategoryOf(c)
  {
  }

  /** At most one item per card, each dated today with a description of 3 or more characters. */
  lemma {:induction false} MenuItemsFacts(cards: seq<Card>, today: Date)
    ensures |MenuItems(cards, today)| <= |cards|
    ensures forall it :: it in MenuItems(cards, today) ==> it.menuDate == today && |Strip(it.description)| >= 3
    decreases |cards|
  {
    if cards != [] {
      MenuItemsFacts(cards[1..], today);
      CardRule(cards[0], today);
    }
  }
}
