/**
 * `app/scrapers/cafegeorge_scraper.py`, `extract_menu_items` once the
 * iframe's page is parsed: one item per meal card, whose header category is
 * replaced by the first mapping key it contains, ignoring case.
 */
module CafeGeorge {
  import opened Wrappers
  import opened Text
  import opened Dates
  import opened Menu
  import opened Seqs
  import opened MealCards

  /** `category_mapping`, in its insertion order: key, then the category it gives. */
  const CategoryMapping: seq<(String, String)> := [
    ("Weekly", "Weekly Special"), ("Suppe", "Soup"), ("Salat", "Salad"), ("Hauptspeise", "Main Dish"),
    ("Vegetarisch", "Vegetarian"), ("Vegan", "Vegan"), ("Dessert", "Dessert")]

  /** The value of the first key that occurs in the category, both lower-cased; the category itself without one. */
  function Mapped(category: String, mapping: seq<(String, String)>): String
  {
    if mapping == [] then category
    else if Contains(Lower(category), Lower(mapping[0].0)) then mapping[0].1
    else Mapped(category, mapping[1..])
  }

  function CategoryOf(c: Card): String
  {
    Mapped(HeaderCategory(c), CategoryMapping)
  }

  /** The item of one card, or none when its description is too short. */
  function CardItems(c: Card, today: Date): seq<MenuItem>
  {
    var full := FullDescription(c);
    if Kept(full) then [MenuItem(today, CategoryOf(c), full, PriceOf(c))] else []
  }

  function ItemsOf(today: Date): Card -> seq<MenuItem>
  {
    c => CardItems(c, today)
  }

  /** The items of all cards, in card order. */
  function MenuItems(cards: seq<Card>, today: Date): seq<MenuItem>
  {
    FlatMap(ItemsOf(today), cards)
  }

  /** The loop over `category_mapping.items()` with its `break` on the first hit. */
  method MapCategory(category: String) returns (mapped: String)
    ensures mapped == Mapped(category, CategoryMapping)
  {
    mapped := category;
    var k := 0;
    while k < |CategoryMapping|
      invariant k <= |CategoryMapping|
      invariant Mapped(category, CategoryMapping[k..]) == Mapped(category, CategoryMapping)
    {
      var (key, value) := CategoryMapping[k];
      assert CategoryMapping[k..][0] == (key, value) && CategoryMapping[k..][1..] == CategoryMapping[k + 1..];
      if Contains(Lower(category), Lower(key)) {
        mapped := value;
        return;
      }
      k := k + 1;
    }
  }

  /** The body of the card loop: the item this card appends, if any. */
  method AssembleCard(c: Card, today: Date) returns (items: seq<MenuItem>)
    ensures items == CardItems(c, today)
  {
    var full, price, category := ReadCard(c);
    category := MapCategory(category);
    items := [];
    if full == "" || |Strip(full)| < 3 {
      return;
    }
    items := [MenuItem(today, category, full, price)];
  }

  /** Reading one more card, for the loop invariant. */
  lemma MenuItemsSnoc(cards: seq<Card>, k: nat, today: Date)
    requires k < |cards|
    ensures MenuItems(cards[..k + 1], today) == MenuItems(cards[..k], today) + CardItems(cards[k], today)
  {
    FlatMapPrefix(ItemsOf(today), cards, k);
  }

  /** `extract_menu_items` over the meal cards. */
  method ExtractMenuItems(cards: seq<Card>, today: Date) returns (items: seq<MenuItem>)
    ensures items == MenuItems(cards, today)
  {
    items := [];
    var k := 0;
    while k < |cards|
      invariant k <= |cards|
      invariant items == MenuItems(cards[..k], today)
    {
      var more := AssembleCard(cards[k], today);
      MenuItemsSnoc(cards, k, today);
      items := items + more;
      k := k + 1;
    }
    assert cards[..k] == cards;
  }

  // ---------------------------------------------------------------------
  // Properties.

  /** The first key that occurs decides, whatever the keys after it. */
  lemma {:induction false} MappedFirst(category: String, mapping: seq<(String, String)>, k: nat)
    requires k < |mapping| && Contains(Lower(category), Lower(mapping[k].0))
    requires forall j :: 0 <= j < k ==> !Contains(Lower(category), Lower(mapping[j].0))
    ensures Mapped(category, mapping) == mapping[k].1
    decreases k
  {
    if k > 0 {
      assert !Contains(Lower(category), Lower(mapping[0].0));
      forall j | 0 <= j < k - 1 ensures !Contains(Lower(category), Lower(mapping[1..][j].0)) {
        assert mapping[1..][j] == mapping[j + 1];
      }
      MappedFirst(category, mapping[1..], k - 1);
    }
  }

  /** The category is kept exactly as it is when no key occurs in it; otherwise it is one of the mapping's values. */
  lemma {:induction false} MappedKeeps(category: String, mapping: seq<(String, String)>)
    ensures (forall j :: 0 <= j < |mapping| ==> !Contains(Lower(category), Lower(mapping[j].0))) ==>
      Mapped(category, mapping) == category
    ensures (exists j :: 0 <= j < |mapping| && Contains(Lower(category), Lower(mapping[j].0))) ==>
      exists j :: 0 <= j < |mapping| && Mapped(category, mapping) == mapping[j].1
    decreases |mapping|
  {
    if mapping != [] {
      MappedKeeps(category, mapping[1..]);
      if !Contains(Lower(category), Lower(mapping[0].0)) {
        if exists j :: 0 <= j < |mapping| && Contains(Lower(category), Lower(mapping[j].0)) {
          var j :| 0 <= j < |mapping| && Contains(Lower(category), Lower(mapping[j].0));
          assert mapping[1..][j - 1] == mapping[j];
          var i :| 0 <= i < |mapping[1..]| && Mapped(category, mapping[1..]) == mapping[1..][i].1;
          assert mapping[i + 1] == mapping[1..][i];
        }
        forall j | 0 <= j < |mapping[1..]| ensures mapping[1..][j] == mapping[j + 1] {
        }
      }
    }
  }

  /** A card yields one item, with its mapped category, description and price, exactly when its description is kept. */
  lemma CardRule(c: Card, today: Date)
    ensures |CardItems(c, today)| == (if Kept(FullDescription(c)) then 1 else 0)
    ensures forall it :: it in CardItems(c, today) ==>
      it.menuDate == today && it.description == FullDescription(c) && |Strip(it.description)| >= 3 &&
      it.price == PriceOf(c) && it.category == Mapped(HeaderCategory(c), CategoryMapping)
  {
  }

  /** At most one item per card, each dated today with a description of 3 or more characters. */
  lemma {:induction false} MenuItemsFacts(cards: seq<Card>, today: Date)
    ensures |MenuItems(cards, today)| <= |cards|
    ensures forall it :: it in MenuItems(cards, today) ==> it.menuDate == today && |Strip(it.description)| >= 3
    decreases |cards|
  {
    if cards != [] {
      MenuItemsFacts(cards[1..], today);
      CardRule(cards[0], today);
    }
  }

  /** Cards without a title element are never skipped. */
  lemma {:induction false} UntitledCardsKept(cards: seq<Card>, today: Date)
    requires forall k :: 0 <= k < |cards| ==> cards[k].title.None?
    ensures |MenuItems(cards, today)| == |cards|
    decreases |cards|
  {
    if cards != [] {
      UntitledKept(cards[0]);
      UntitledCardsKept(cards[1..], today);
    }
  }
}
