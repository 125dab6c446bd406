/**
 * `app/scrapers/iki_scraper.py`: the choice of the weekly lunch PDF among
 * the links of the restaurant's page, and the dishes read from the text of
 * that PDF. A dish line holds a euro price with two decimals; the name is
 * what comes before it, and the next line may describe the dish.
 */
module Iki {
  import opened Wrappers
  import opened Text
  import opened Dates
  import opened Keywords
  import opened Menu
  import ErsteText
  import opened IkiLines
  import opened Seqs

  /** The item of a dish with its name, price and description (empty when there is none). */
  function Item(name: String, price: String, description: String, today: Date): (it: MenuItem)
    ensures it.menuDate == today && it.price == Some(price)
    ensures IkiCategory(it.category)
    ensures description == [] ==> it.description == name
    ensures description != [] ==> it.description == name + " - " + description
  {
    MenuItem(today, Categorize(name), if description != [] then name + " - " + description else name, Some(price))
  }

  /** What the parser looks at in one line: the text, its name and price when it is a dish line, whether it describes a dish. */
  datatype Reading = Reading(text: String, head: Option<(String, String)>, describes: bool)

  function Read(line: String): Reading
  {
    Reading(line, Head(line), Describes(line))
  }

  /** The readings of all lines, in order. */
  function Readings(lines: seq<String>): seq<Reading>
  {
    seq(|lines|, k requires 0 <= k < |lines| => Read(lines[k]))
  }

  /**
   * What the loop does at line `i`: the item and the index it resumes at
   * (past the description line when it took one), or `None` when the line
   * gives no dish.
   */
  function DishAt(rs: seq<Reading>, i: nat, today: Date): (r: Option<(MenuItem, nat)>)
    requires i < |rs|
    ensures r.Some? ==> i < r.value.1 <= i + 2 && r.value.1 <= |rs|
  {
    match rs[i].head
    case None => None
    case Some((name, price)) =>
      if i + 1 < |rs| && rs[i + 1].describes then Some((Item(name, price, rs[i + 1].text, today), i + 2))
      else Some((Item(name, price, "", today), i + 1))
  }

  /** The items from line `i` on. */
  function MenuFrom(rs: seq<Reading>, i: nat, today: Date): seq<MenuItem>
    requires i <= |rs|
    decreases |rs| - i
  {
    if i == |rs| then []
    else match DishAt(rs, i, today)
      case None => MenuFrom(rs, i + 1, today)
      case Some((item, j)) => [item] + MenuFrom(rs, j, today)
  }

  /** `parse_menu_items_from_text`: the items of the stripped non-empty lines of the PDF text. */
  function ParseMenuItemsSpec(text: String, today: Date): seq<MenuItem>
  {
    MenuFrom(Readings(ErsteText.BodyLines(text)), 0, today)
  }

  /**
   * The dish at line `i` takes the next line as its description exactly
   * when that line describes it, and the loop then goes on two lines
   * further; otherwise the description is the name alone.
   */
  lemma DishDescription(lines: seq<String>, i: nat, today: Date, name: String, price: String)
    requires i < |lines| && Head(lines[i]) == Some((name, price))
    ensures var r := DishAt(Readings(lines), i, today);
      r.Some? && r.value.0.price == Some(price)
      && (i + 1 < |lines| && Describes(lines[i + 1]) ==>
            r.value.0.description == name + " - " + lines[i + 1] && r.value.1 == i + 2)
      && (!(i + 1 < |lines| && Describes(lines[i + 1])) ==>
            r.value.0.description == name && r.value.1 == i + 1)
  {
    if i + 1 < |lines| && Describes(lines[i + 1]) {
      DescribedDish(lines, i, today, name, price);
      assert lines[i + 1] != [];
    } else {
      PlainDish(lines, i, today, name, price);
    }
  }

  /** A dish line followed by a describing line: the item's description joins the two. */
  lemma DescribedDish(lines: seq<String>, i: nat, today: Date, name: String, price: String)
    requires i + 1 < |lines| && Head(lines[i]) == Some((name, price)) && Describes(lines[i + 1])
    ensures DishAt(Readings(lines), i, today) == Some((Item(name, price, lines[i + 1], today), i + 2))
  {
    ReadingFields(lines, i);
    ReadingFields(lines, i + 1);
    var next := Readings(lines)[i + 1].text;
    assert next != [];
    assert DishAt(Readings(lines), i, today) == Some((Item(name, price, next, today), i + 2));
  }

  /** A dish line without a describing line after it: the item's description is the name. */
  lemma PlainDish(lines: seq<String>, i: nat, today: Date, name: String, price: String)
    requires i < |lines| && Head(lines[i]) == Some((name, price)) && !(i + 1 < |lines| && Describes(lines[i + 1]))
    ensures DishAt(Readings(lines), i, today) == Some((Item(name, price, "", today), i + 1))
  {
    ReadingFields(lines, i);
    if i + 1 < |lines| {
      ReadingFields(lines, i + 1);
      assert !Readings(lines)[i + 1].describes;
    }
  }

  /** The fields of the reading at `k`: line `k`, its name and price, whether it describes a dish. */
  lemma ReadingFields(lines: seq<String>, k: nat)
    requires k < |lines|
    ensures Readings(lines)[k].text == lines[k]
    ensures Readings(lines)[k].head == Head(lines[k])
    ensures Readings(lines)[k].describes == Describes(lines[k])
  {
  }

  /** A dish reading followed by a describing one: the item takes its text, and the walk skips both. */
  lemma TakesDescription(rs: seq<Reading>, i: nat, today: Date, name: String, price: String)
    requires i + 1 < |rs| && rs[i].head == Some((name, price)) && rs[i + 1].describes
    ensures DishAt(rs, i, today) == Some((Item(name, price, rs[i + 1].text, today), i + 2))
  {
  }

  /** A dish reading not followed by a describing one: the item has no description, and the walk goes to the next line. */
  lemma TakesNoDescription(rs: seq<Reading>, i: nat, today: Date, name: String, price: String)
    requires i < |rs| && rs[i].head == Some((name, price)) && !(i + 1 < |rs| && rs[i + 1].describes)
    ensures DishAt(rs, i, today) == Some((Item(name, price, "", today), i + 1))
  {
  }

  /** Every item is dated today, has a known category and a price that starts with the euro sign. */
  lemma {:induction false} MenuFromShape(rs: seq<Reading>, i: nat, today: Date)
    requires i <= |rs|
    requires EuroPrices(rs)
    ensures forall item :: item in MenuFrom(rs, i, today) ==>
      item.menuDate == today && item.price.Some? && EuroPrice(item.price.value)
      && IkiCategory(item.category)
    decreases |rs| - i
  {
    if i < |rs| {
      match DishAt(rs, i, today)
      case None => MenuFromShape(rs, i + 1, today);
      case Some((item, j)) => MenuFromShape(rs, j, today);
    }
  }

  /** Every dish reading carries a price that starts with the euro sign. */
  predicate EuroPrices(rs: seq<Reading>)
  {
    forall m :: 0 <= m < |rs| && rs[m].head.Some? ==> EuroPrice(rs[m].head.value.1)
  }

  /** The readings of real lines carry prices that start with the euro sign. */
  lemma ReadingsPrices(lines: seq<String>)
    ensures EuroPrices(Readings(lines))
  {
    var rs := Readings(lines);
    forall m | 0 <= m < |rs| && rs[m].head.Some? ensures EuroPrice(rs[m].head.value.1) {
      ReadingFields(lines, m);
      HeadEuro(lines[m]);
    }
  }

  /** No more items than lines: every item uses up at least its own dish line. */
  lemma {:induction false} MenuFromLength(rs: seq<Reading>, i: nat, today: Date)
    requires i <= |rs|
    ensures |MenuFrom(rs, i, today)| <= |rs| - i
    decreases |rs| - i
  {
    if i < |rs| {
      match DishAt(rs, i, today)
      case None => MenuFromLength(rs, i + 1, today);
      case Some((item, j)) => MenuFromLength(rs, j, today);
    }
  }

  /** Text without a dish line gives no items. */
  lemma {:induction false} NoDishNoItems(rs: seq<Reading>, i: nat, today: Date)
    requires i <= |rs|
    requires forall m :: i <= m < |rs| ==> rs[m].head.None?
    ensures MenuFrom(rs, i, today) == []
    decreases |rs| - i
  {
    if i < |rs| {
      NoDishNoItems(rs, i + 1, today);
    }
  }

  /** A line without a euro sign is no dish line. */
  lemma NoEuroNoDish(line: String)
    requires '€' !in line
    ensures Head(line).None?
  {
    NoEuroNoPrice(line, 0);
  }

  /** A line that yields no dish passes control to the next one. */
  lemma MenuFromSkip(rs: seq<Reading>, i: nat, today: Date)
    requires i < |rs| && DishAt(rs, i, today).None?
    ensures MenuFrom(rs, i, today) == MenuFrom(rs, i + 1, today)
  {
  }

  /** A dish line yields its item, and the walk resumes after it or after its description. */
  lemma MenuFromTake(rs: seq<Reading>, i: nat, today: Date, item: MenuItem, j: nat)
    requires i < |rs| && DishAt(rs, i, today) == Some((item, j))
    ensures MenuFrom(rs, i, today) == [item] + MenuFrom(rs, j, today)
  {
  }

  /** Appending a dish line's item keeps the items so far and those still to come equal to all the items. */
  lemma TakeKeepsWalk(rs: seq<Reading>, i: nat, today: Date, done: seq<MenuItem>, item: MenuItem, j: nat)
    requires i < |rs| && DishAt(rs, i, today) == Some((item, j))
    requires done + MenuFrom(rs, i, today) == MenuFrom(rs, 0, today)
    ensures (done + [item]) + MenuFrom(rs, j, today) == MenuFrom(rs, 0, today)
  {
    MenuFromTake(rs, i, today, item, j);
    assert (done + [item]) + MenuFrom(rs, j, today) == done + ([item] + MenuFrom(rs, j, today));
  }

  /** Passing over a line without a dish keeps the items so far and those still to come equal to all the items. */
  lemma SkipKeepsWalk(rs: seq<Reading>, i: nat, today: Date, done: seq<MenuItem>)
    requires i < |rs| && DishAt(rs, i, today).None?
    requires done + MenuFrom(rs, i, today) == MenuFrom(rs, 0, today)
    ensures done + MenuFrom(rs, i + 1, today) == MenuFrom(rs, 0, today)
  {
    MenuFromSkip(rs, i, today);
  }

  /**
   * The first part of a turn of the loop: the name and price of a dish
   * line, or `None` when the line has no euro sign, no price match or a
   * name that comes out empty.
   */
  method LineHead(line: String) returns (head: Option<(String, String)>)
    ensures head == Head(line)
  {
    head := None;
    if '€' in line {
      var priceMatch := SearchPrice(line, 0);
      if priceMatch.Some? {
        var p, a, e := priceMatch.value.start, priceMatch.value.groupStart, priceMatch.value.groupEnd;
        var price := "€" + Replace(line[a..e], ".", ",");
        var itemName := Strip(line[..p]);
        itemName := DropCode(itemName);
        if itemName != [] {
          head := Some((itemName, price));
        }
      }
    } else {
      NoEuroNoDish(line);
    }
  }

  /**
   * One turn of the `while` loop at line `i`: the item it appends, if any,
   * and the index the loop goes on with.
   */
  method DishStep(lines: seq<String>, i: nat, today: Date) returns (item: Option<MenuItem>, next: nat)
    requires i < |lines|
    ensures item.Some? ==> DishAt(Readings(lines), i, today) == Some((item.value, next))
    ensures item.None? ==> DishAt(Readings(lines), i, today).None? && next == i + 1
  {
    ghost var rs := Readings(lines);
    var head := LineHead(lines[i]);
    ReadingFields(lines, i);
    item, next := None, i + 1;
    if head.Some? {
      var itemName, price := head.value.0, head.value.1;
      var description := "";
      var j := i;
      if i + 1 < |lines| {
        var nextLine := lines[i + 1];
        ReadingFields(lines, i + 1);
        if '€' !in nextLine && !IsUpperStr(nextLine) && |nextLine| > 10 {
          description := nextLine;
          j := j + 1;
          TakesDescription(rs, i, today, itemName, price);
        } else {
          TakesNoDescription(rs, i, today, itemName, price);
        }
      } else {
        TakesNoDescription(rs, i, today, itemName, price);
      }
      item := Some(Item(itemName, price, description, today));
      next := j + 1;
    }
  }

  /** The `while` loop of `parse_menu_items_from_text` over the cleaned lines. */
  method ParseLines(lines: seq<String>, today: Date) returns (menuItems: seq<MenuItem>)
    ensures menuItems == MenuFrom(Readings(lines), 0, today)
  {
    ghost var rs := Readings(lines);
    menuItems := [];
    var i := 0;
    while i < |lines|
      invariant 0 <= i <= |lines|
      invariant menuItems + MenuFrom(rs, i, today) == MenuFrom(rs, 0, today)
      decreases |lines| - i
    {
      var item, next := DishStep(lines, i, today);
      if item.Some? {
        TakeKeepsWalk(rs, i, today, menuItems, item.value, next);
        menuItems := menuItems + [item.value];
      } else {
        SkipKeepsWalk(rs, i, today, menuItems);
      }
      i := next;
    }
  }

  /** `parse_menu_items_from_text`: the stripped non-empty lines of the PDF text, then the loop over them. */
  method ParseMenuItems(text: String, today: Date) returns (menuItems: seq<MenuItem>)
    ensures menuItems == ParseMenuItemsSpec(text, today)
  {
    var lines := ErsteText.BodyLines(text);
    menuItems := ParseLines(lines, today);
  }

  /** Every item of a PDF text is dated today, has a known category and a euro price, and there are no more items than lines. */
  lemma ParseMenuItemsShape(text: String, today: Date)
    ensures var items := ParseMenuItemsSpec(text, today);
      |items| <= |ErsteText.BodyLines(text)|
      && forall item :: item in items ==>
        item.menuDate == today && item.price.Some? && EuroPrice(item.price.value)
        && IkiCategory(item.category)
  {
    var lines := ErsteText.BodyLines(text);
    var rs := Readings(lines);
    ReadingsPrices(lines);
    MenuFromShape(rs, 0, today);
    MenuFromLength(rs, 0, today);
  }

  // ---- Choosing the PDF ----

  /** A PDF link of the page: its stripped text and its `href`. */
  datatype Link = Link(text: String, url: String)

  /** A lunch link: its lower-cased text holds `lunch`, `special`, `kw` or `week`. */
  predicate IsLunchLink(l: Link)
  {
    AnyIn(Lower(l.text), ["lunch", "special", "kw", "week"])
  }

  /** The lunch links, in page order. */
  function LunchLinks(links: seq<Link>): (r: seq<Link>)
    ensures |r| <= |links|
  {
    if links == [] then []
    else (if IsLunchLink(links[0]) then [links[0]] else []) + LunchLinks(links[1..])
  }

  /** A link is kept exactly when it is on the page and is a lunch link. */
  lemma {:induction false} LunchLinksFilter(links: seq<Link>)
    ensures forall l :: l in LunchLinks(links) <==> l in links && IsLunchLink(l)
  {
    if links != [] {
      LunchLinksFilter(links[1..]);
      assert links == [links[0]] + links[1..];
    }
  }

  /** The week a link names: searched in its lower-cased URL, a space and its lower-cased text. */
  function LinkWeek(l: Link): Option<nat>
  {
    var urlText := Lower(l.url) + " " + Lower(l.text);
    SearchWeek(urlText, 0)
  }

  /** A link for the current ISO 8601 week or the one after it. */
  predicate Current(l: Link, week: int)
  {
    LinkWeek(l).Some? && (LinkWeek(l).value == week || LinkWeek(l).value == week + 1)
  }

  /** The URL of the first current link. */
  function FirstCurrent(pdfs: seq<Link>, week: int): Option<String>
  {
    match FirstWhere(l => Current(l, week), pdfs)
    case Some(l) => Some(l.url)
    case None => None
  }

  /** The URL found is that of a current link, and no link before it is current. */
  lemma FirstCurrentAt(pdfs: seq<Link>, week: int) returns (k: nat)
    requires FirstCurrent(pdfs, week).Some?
    ensures k < |pdfs| && Current(pdfs[k], week) && FirstCurrent(pdfs, week) == Some(pdfs[k].url)
    ensures forall j :: 0 <= j < k ==> !Current(pdfs[j], week)
  {
    k := FirstWhereAt(l => Current(l, week), pdfs);
  }

  /** No URL is found only when no link is current. */
  lemma FirstCurrentNone(pdfs: seq<Link>, week: int)
    requires FirstCurrent(pdfs, week).None?
    ensures forall k :: 0 <= k < |pdfs| ==> !Current(pdfs[k], week)
  {
    FirstWhereNone(l => Current(l, week), pdfs);
  }

  /**
   * `find_current_lunch_pdf_url` once the page's PDF links are known:
   * `None` without lunch links, else the first lunch link of the current
   * or the next week, else the first lunch link.
   */
  function SelectPdf(links: seq<Link>, today: Date): (r: Option<String>)
    requires ValidDate(today)
  {
    var lunch := LunchLinks(links);
    if lunch == [] then None
    else match FirstCurrent(lunch, IsoCalendar(today).week)
      case Some(url) => Some(url)
      case None => Some(lunch[0].url)
  }

  /** There is a PDF exactly when some link is a lunch link, and it is the URL of a lunch link. */
  lemma SelectPdfFound(links: seq<Link>, today: Date)
    requires ValidDate(today)
    ensures SelectPdf(links, today).Some? <==> exists l :: l in links && IsLunchLink(l)
    ensures SelectPdf(links, today).Some? ==> exists l :: l in links && IsLunchLink(l) && SelectPdf(links, today) == Some(l.url)
  {
    var lunch := LunchLinks(links);
    LunchLinksFilter(links);
    if lunch != [] {
      assert lunch[0] in lunch;
      if FirstCurrent(lunch, IsoCalendar(today).week).Some? {
        var k := FirstCurrentAt(lunch, IsoCalendar(today).week);
        assert lunch[k] in lunch;
      }
    }
  }

  /** A lunch link of the current or the next week is chosen, the first of them; otherwise the first lunch link. */
  lemma SelectPdfChoice(links: seq<Link>, today: Date)
    requires ValidDate(today) && LunchLinks(links) != []
    ensures var lunch := LunchLinks(links); var week := IsoCalendar(today).week;
      ((exists k :: 0 <= k < |lunch| && Current(lunch[k], week)) ==>
         exists k :: 0 <= k < |lunch| && Current(lunch[k], week) && SelectPdf(links, today) == Some(lunch[k].url)
           && forall j :: 0 <= j < k ==> !Current(lunch[j], week))
      && ((forall k :: 0 <= k < |lunch| ==> !Current(lunch[k], week)) ==> SelectPdf(links, today) == Some(lunch[0].url))
  {
    var lunch, week := LunchLinks(links), IsoCalendar(today).week;
    if FirstCurrent(lunch, week).Some? {
      var k := FirstCurrentAt(lunch, week);
    } else {
      FirstCurrentNone(lunch, week);
    }
  }
}
