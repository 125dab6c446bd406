/**
 * `app/scrapers/henry_scraper.py`, `extract_menu_items`: the cells of
 * today's column, each turned into one item, one item per price, or none.
 *
 * A cell is the record of what BeautifulSoup finds in a `div.td-menu`:
 * the text of its `menu-category` and `menu-name` elements when present,
 * and the texts of all its `menu-desc` and `menu-price` elements in
 * document order, each already `get_text(strip=True)`.
 */
module Henry {
  import opened Wrappers
  import opened Text
  import opened Dates
  import opened Menu
  import opened Seqs

  datatype Cell = Cell(category: Option<String>, name: Option<String>, descs: seq<String>, prices: seq<String>)

  /** The description texts that only name a portion size. */
  const SizeWords: seq<String> := ["klein", "groß", "small", "large"]

  predicate IsSizeWord(t: String) { Member(t, SizeWords) }

  /** The category element's text, or `Main Dish` without one (an empty text stays empty). */
  function CategoryOf(c: Cell): String
  {
    match c.category
    case Some(t) => t
    case None => "Main Dish"
  }

  function NameOf(c: Cell): String
  {
    match c.name
    case Some(t) => t
    case None => ""
  }

  /** The first `menu-desc` text, unless it is empty or a size word. */
  function Described(c: Cell): String
  {
    if |c.descs| > 0 && c.descs[0] != "" && !IsSizeWord(c.descs[0]) then c.descs[0] else ""
  }

  /** The name, followed by ` - ` and the description when there is one. */
  function FullDescription(c: Cell): String
  {
    var d := Described(c);
    NameOf(c) + (if d != "" then " - " + d else "")
  }

  function NonEmpty(): String -> bool
  {
    (t: String) => t != ""
  }

  function SizeWord(): String -> bool
  {
    (t: String) => IsSizeWord(t)
  }

  /** The non-empty price texts, in order. */
  function Prices(c: Cell): seq<String>
  {
    Filter(NonEmpty(), c.prices)
  }

  /** The size words among the description texts, in order. */
  function Sizes(c: Cell): seq<String>
  {
    Filter(SizeWord(), c.descs)
  }

  /** ` (size)` for the `i`-th price when there is an `i`-th size word. */
  function SizeSuffix(sizes: seq<String>, i: nat): String
  {
    if i < |sizes| then " (" + sizes[i] + ")" else ""
  }

  /** The `i`-th item of a cell with several prices. */
  function PricedItem(c: Cell, today: Date, i: nat): MenuItem
    requires i < |Prices(c)|
  {
    MenuItem(today, CategoryOf(c), FullDescription(c) + SizeSuffix(Sizes(c), i), Some(Prices(c)[i]))
  }

  /** Whether a name is too short to keep: `not name or len(name.strip()) < 2`. */
  predicate Nameless(name: String)
  {
    name == "" || |Strip(name)| < 2
  }

  /** The items of one cell. */
  function CellItems(c: Cell, today: Date): seq<MenuItem>
  {
    var prices := Prices(c);
    if |prices| > 1 then
      seq(|prices|, i requires 0 <= i < |prices| => PricedItem(c, today, i))
    else if Nameless(NameOf(c)) then []
    else [MenuItem(today, CategoryOf(c), FullDescription(c), if prices == [] then None else Some(prices[0]))]
  }

  function ItemsOf(today: Date): Cell -> seq<MenuItem>
  {
    c => CellItems(c, today)
  }

  /** The items of all cells, cell by cell. */
  function MenuItems(cells: seq<Cell>, today: Date): seq<MenuItem>
  {
    FlatMap(ItemsOf(today), cells)
  }

  // ---------------------------------------------------------------------
  // The statements of the cell loop.

  /** The loop over the `menu-price` elements that keeps the non-empty texts. */
  method CollectPrices(c: Cell) returns (prices: seq<String>)
    ensures prices == Prices(c)
  {
    prices := [];
    var k := 0;
    while k < |c.prices|
      invariant k <= |c.prices|
      invariant prices == Filter(NonEmpty(), c.prices[..k])
    {
      var text := c.prices[k];
      FilterSnoc(NonEmpty(), c.prices[..k], text);
      assert c.prices[..k + 1] == c.prices[..k] + [text];
      if text != "" {
        prices := prices + [text];
      }
      k := k + 1;
    }
    assert c.prices[..k] == c.prices;
  }

  /** The loop over the `menu-desc` elements that keeps the size words. */
  method CollectSizes(c: Cell) returns (sizes: seq<String>)
    ensures sizes == Sizes(c)
  {
    sizes := [];
    var k := 0;
    while k < |c.descs|
      invariant k <= |c.descs|
      invariant sizes == Filter(SizeWord(), c.descs[..k])
    {
      var text := c.descs[k];
      FilterSnoc(SizeWord(), c.descs[..k], text);
      assert c.descs[..k + 1] == c.descs[..k] + [text];
      if IsSizeWord(text) {
        sizes := sizes + [text];
      }
      k := k + 1;
    }
    assert c.descs[..k] == c.descs;
  }

  /** The category, name and combined description of a cell, as the start of the cell body computes them. */
  method ReadCell(c: Cell) returns (category: String, name: String, full: String)
    ensures category == CategoryOf(c) && name == NameOf(c) && full == FullDescription(c)
  {
    category := if c.category.Some? then c.category.value else "Main Dish";
    name := if c.name.Some? then c.name.value else "";
    var description := "";
    if |c.descs| > 0 {
      var text := c.descs[0];
      if text != "" && !IsSizeWord(text) {
        description := text;
      }
    }
    full := name;
    if description != "" {
      full := full + (" - " + description);
    }
  }

  /** The loop over `enumerate(prices)` of a cell with several prices. */
  method PricedItems(c: Cell, today: Date, category: String, full: String, prices: seq<String>)
    returns (items: seq<MenuItem>)
    requires category == CategoryOf(c) && full == FullDescription(c) && prices == Prices(c)
    ensures items == seq(|prices|, i requires 0 <= i < |prices| => PricedItem(c, today, i))
  {
    var sizes := CollectSizes(c);
    items := [];
    var i := 0;
    while i < |prices|
      invariant i <= |prices|
      invariant |items| == i
      invariant forall j :: 0 <= j < i ==> items[j] == PricedItem(c, today, j)
    {
      var size := "";
      if i < |sizes| {
        size := " (" + sizes[i] + ")";
      }
      assert size == SizeSuffix(sizes, i);
      items := items + [MenuItem(today, category, full + size, Some(prices[i]))];
      i := i + 1;
    }
  }

  /** The body of the cell loop: the items this cell appends. */
  method AssembleCell(c: Cell, today: Date) returns (items: seq<MenuItem>)
    ensures items == CellItems(c, today)
  {
    var category, name, full := ReadCell(c);
    var prices := CollectPrices(c);
    items := [];
    if |prices| > 1 {
      items := PricedItems(c, today, category, full, prices);
    } else {
      var price := if prices != [] then Some(prices[0]) else None;
      if !(name == "" || |Strip(name)| < 2) {
        items := [MenuItem(today, category, full, price)];
      }
    }
  }

  /** Reading one more cell, for the loop invariant. */
  lemma MenuItemsSnoc(cells: seq<Cell>, k: nat, today: Date)
    requires k < |cells|
    ensures MenuItems(cells[..k + 1], today) == MenuItems(cells[..k], today) + CellItems(cells[k], today)
  {
    FlatMapPrefix(ItemsOf(today), cells, k);
  }

  /** `extract_menu_items` over the cells of today's column. */
  method ExtractMenuItems(cells: seq<Cell>, today: Date) returns (items: seq<MenuItem>)
    ensures items == MenuItems(cells, today)
  {
    items := [];
    var k := 0;
    while k < |cells|
      invariant k <= |cells|
      invariant items == MenuItems(cells[..k], today)
    {
      var more := AssembleCell(cells[k], today);
      MenuItemsSnoc(cells, k, today);
      items := items + more;
      k := k + 1;
    }
    assert cells[..k] == cells;
  }

  // ---------------------------------------------------------------------
  // Properties.

  /** Every item of a cell carries the cell's category, `Main Dish` when it has none, and today's date. */
  lemma CellCategory(c: Cell, today: Date)
    ensures forall it :: it in CellItems(c, today) ==>
      it.menuDate == today && it.category == (if c.category.None? then "Main Dish" else c.category.value)
  {
  }

  /** The description is the first description text exactly when that text is non-empty and not a size word. */
  lemma DescribedIff(c: Cell)
    ensures Described(c) != "" <==> |c.descs| > 0 && c.descs[0] != "" && c.descs[0] !in SizeWords
    ensures Described(c) != "" ==> Described(c) == c.descs[0]
    ensures !IsSizeWord(Described(c))
  {
    MemberIsIn(Described(c), SizeWords);
    if |c.descs| > 0 {
      MemberIsIn(c.descs[0], SizeWords);
    }
  }

  /** ` - ` is appended to the name exactly when there is a description. */
  lemma FullDescriptionShape(c: Cell)
    ensures Described(c) == "" ==> FullDescription(c) == NameOf(c)
    ensures Described(c) != "" ==> FullDescription(c) == NameOf(c) + " - " + Described(c)
    ensures |FullDescription(c)| >= |NameOf(c)|
  {
  }

  /** The prices kept are exactly the non-empty price texts, in order. */
  lemma PricesKept(c: Cell)
    ensures forall i :: 0 <= i < |Prices(c)| ==> Prices(c)[i] != "" && Prices(c)[i] in c.prices
    ensures forall i :: 0 <= i < |c.prices| && c.prices[i] != "" ==> c.prices[i] in Prices(c)
    ensures |Prices(c)| <= |c.prices|
  {
    FilterFacts(NonEmpty(), c.prices);
  }

  /**
   * A cell with several prices yields one item per price, in order, whatever
   * its name; the `i`-th item names the `i`-th size word when there is one.
   */
  lemma SeveralPrices(c: Cell, today: Date)
    requires |Prices(c)| > 1
    ensures |CellItems(c, today)| == |Prices(c)|
    ensures forall i :: 0 <= i < |Prices(c)| ==>
      CellItems(c, today)[i].price == Some(Prices(c)[i]) &&
      CellItems(c, today)[i].description ==
        FullDescription(c) + (if i < |Sizes(c)| then " (" + Sizes(c)[i] + ")" else "")
  {
  }

  /** Every size suffix names a size word taken from the description texts. */
  lemma SizesAreSizeWords(c: Cell)
    ensures forall i :: 0 <= i < |Sizes(c)| ==> Sizes(c)[i] in SizeWords && Sizes(c)[i] in c.descs
  {
    FilterFacts(SizeWord(), c.descs);
    forall i | 0 <= i < |Sizes(c)| ensures Sizes(c)[i] in SizeWords {
      MemberIsIn(Sizes(c)[i], SizeWords);
    }
  }

  /**
   * A cell with at most one price yields one item when its stripped name has
   * at least two characters and none otherwise; the price is `None` exactly
   * when there is no non-empty price text.
   */
  lemma OnePriceAtMost(c: Cell, today: Date)
    requires |Prices(c)| <= 1
    ensures |CellItems(c, today)| == (if |Strip(NameOf(c))| < 2 then 0 else 1)
    ensures forall it :: it in CellItems(c, today) ==>
      it.description == FullDescription(c) && (it.price == None <==> Prices(c) == [])
    ensures forall it :: it in CellItems(c, today) && Prices(c) != [] ==> it.price == Some(Prices(c)[0])
  {
    if NameOf(c) == "" {
      assert Strip(NameOf(c)) == "";
    }
  }

  /** A cell with at most one price yields at most one item and several prices as many items as prices. */
  lemma CellCount(c: Cell, today: Date)
    ensures |CellItems(c, today)| <= if |Prices(c)| > 1 then |Prices(c)| else 1
    ensures |Prices(c)| > 1 ==> |CellItems(c, today)| > 1
  {
  }

  /** The items of the column are those of the first cells followed by those of the last one. */
  lemma {:induction false} MenuItemsSplit(cells: seq<Cell>, more: seq<Cell>, today: Date)
    ensures MenuItems(cells + more, today) == MenuItems(cells, today) + MenuItems(more, today)
  {
    FlatMapConcat(ItemsOf(today), cells, more);
  }

  /** A column whose cells have no prices and no names yields nothing. */
  lemma {:induction false} NamelessColumn(cells: seq<Cell>, today: Date)
    requires forall k :: 0 <= k < |cells| ==> cells[k].name == None && cells[k].prices == []
    ensures MenuItems(cells, today) == []
    decreases |cells|
  {
    if cells != [] {
      assert Prices(cells[0]) == [];
      NamelessColumn(cells[1..], today);
    }
  }
}
