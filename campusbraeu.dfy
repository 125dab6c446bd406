/**
 * `app/scrapers/campusbraeu_scraper.py`, `extract_menu_items`: the menu
 * page lists, per weekday, an `h3` heading followed by a `ul` whose `li`s
 * carry a category tag and a `div.detail` with the dish and a
 * `span.price`.
 *
 * The primary pass reads the list of today's heading. When it yields
 * nothing, a fallback sweep reads the lists of Montag to Freitag. The
 * primary pass removes the price spans it meets (`decompose()`), so the
 * fallback sees today's list without them; the model threads the page
 * through both passes for that reason. The variable `price` is shared by
 * both passes and is not reset in the fallback: `Carried` is its value,
 * `Unbound` before its first assignment.
 */
module CampusBraeu {
  import opened Wrappers
  import opened Text
  import opened Dates
  import opened Menu
  import opened Seqs

  /** The texts of a detail and of its list item once the price span is removed. */
  datatype Removal = Removal(detailText: String, itemText: String)

  /** A `div.detail`: its text, and what removing its `span.price` leaves (`None` without such a span). */
  datatype Detail = Detail(text: String, span: Option<Removal>)

  /** An `li`: its whole text (`get_text(strip=True)`) and its detail element if any. */
  datatype Li = Li(text: String, detail: Option<Detail>)

  /** An `h3` and the `li`s of the `ul` that `find_next('ul')` reaches from it, if any. */
  datatype Section = Section(heading: String, list: Option<seq<Li>>)

  /** The local variable `price`: unassigned, or its last value. */
  datatype Carried = Unbound | Bound(price: Option<String>)

  /** The items so far and the value of `price`. */
  datatype Pass = Pass(items: seq<MenuItem>, price: Carried)

  /** `weekday_map`, Monday (0) to Friday (4). */
  const WeekdayNames: seq<String> := ["Montag", "Dienstag", "Mittwoch", "Donnerstag", "Freitag"]

  /** The heading the primary pass looks for: today's name, `Montag` on a weekend. */
  function DayName(today: Date): String
    requires ValidDate(today)
  {
    var w := Weekday(today);
    if w < 5 then WeekdayNames[w] else "Montag"
  }

  /** The category of a tag: `suppe`, then `hauptspeise`, then `nachspeise`, in lower case. */
  function CategoryFor(tag: String): String
  {
    var l := Lower(tag);
    if Contains(l, "suppe") then "Soup"
    else if Contains(l, "hauptspeise") then "Main Dish"
    else if Contains(l, "nachspeise") then "Dessert"
    else "Main Dish"
  }

  /** The price of a category in the primary pass. */
  function PriceFor(category: String): Option<String>
  {
    if category == "Main Dish" then Some("€ 15,50")
    else if category == "Soup" || category == "Dessert" then Some("€ 13,50")
    else None
  }

  predicate IsCategory(c: String) { c == "Soup" || c == "Main Dish" || c == "Dessert" }

  // ---------------------------------------------------------------------
  // The primary pass.

  /** A list item the primary loop gets past its two `continue`s: a tag and a detail. */
  predicate Reached(li: Li) { li.text != "" && li.detail.Some? }

  /** The detail's text once its price span is removed. */
  function Priceless(d: Detail): String
  {
    match d.span
    case Some(r) => r.detailText
    case None => d.text
  }

  /** The item the primary loop appends for one list item, if any. */
  function PrimaryItem(li: Li, today: Date): seq<MenuItem>
  {
    if !Reached(li) then []
    else
      var description := Priceless(li.detail.value);
      var category := CategoryFor(li.text);
      if description == "" || |Strip(description)| < 5 then []
      else [MenuItem(today, category, description, PriceFor(category))]
  }

  function PrimaryItemOf(today: Date): Li -> seq<MenuItem>
  {
    li => PrimaryItem(li, today)
  }

  /** The value of `price` after the primary loop has read `lis`. */
  function PriceAfter(lis: seq<Li>, price: Carried): Carried
    decreases |lis|
  {
    if lis == [] then price
    else
      var last := lis[|lis| - 1];
      if Reached(last) then Bound(PriceFor(CategoryFor(last.text)))
      else PriceAfter(lis[..|lis| - 1], price)
  }

  /** A list item after the primary loop: the price span of a reached item is gone. */
  function Decomposed(li: Li): Li
  {
    if Reached(li) && li.detail.value.span.Some? then
      var r := li.detail.value.span.value;
      Li(r.itemText, Some(Detail(r.detailText, None)))
    else li
  }

  function DecomposedAll(lis: seq<Li>): seq<Li>
  {
    seq(|lis|, i requires 0 <= i < |lis| => Decomposed(lis[i]))
  }

  lemma DecomposedSnoc(lis: seq<Li>, li: Li)
    ensures DecomposedAll(lis + [li]) == DecomposedAll(lis) + [Decomposed(li)]
  {
  }

  function HeadedWithList(day: String): Section -> bool
  {
    (s: Section) => s.heading == day && s.list.Some?
  }

  function Headed(day: String): Section -> bool
  {
    (s: Section) => s.heading == day
  }

  /**
   * The primary pass: the first heading named `day` that has a list is read
   * (a heading without one is passed over); the result is the items, the
   * value of `price`, and the page with that list's price spans removed.
   */
  function Primary(sections: seq<Section>, today: Date, day: String): (Pass, seq<Section>)
  {
    match FirstIndex(HeadedWithList(day), sections)
    case None => (Pass([], Unbound), sections)
    case Some(k) =>
      var lis := sections[k].list.value;
      (Pass(FlatMap(PrimaryItemOf(today), lis), PriceAfter(lis, Unbound)),
       sections[k := Section(sections[k].heading, Some(DecomposedAll(lis)))])
  }

  // ---------------------------------------------------------------------
  // The fallback sweep, as written.

  /** `item.get_text(strip=True).split('\n')[0]`. */
  function FirstLine(text: String): String
  {
    SplitOn(text, '\n')[0]
  }

  /** The price a tag assigns in the fallback; `None` when it names no course and `price` keeps its value. */
  function KeywordPrice(tag: String): Option<String>
  {
    var l := Lower(tag);
    if Contains(l, "suppe") then Some("€ 13,50")
    else if Contains(l, "hauptspeise") then Some("€ 15,50")
    else if Contains(l, "nachspeise") then Some("€ 13,50")
    else None
  }

  /** Whether the fallback keeps a description: `description and len(description.strip()) > 5`. */
  predicate LongEnough(description: String)
  {
    description != "" && |Strip(description)| > 5
  }

  /**
   * One list item of the fallback. Reading `price` while it is unassigned
   * raises `UnboundLocalError`, which the loop's handler swallows: the item
   * is then dropped.
   */
  function FallbackStep(li: Li, today: Date, day: String, acc: Pass): Pass
  {
    match li.detail
    case None => acc
    case Some(d) =>
      var line := FirstLine(li.text);
      var category := CategoryFor(line);
      var price := match KeywordPrice(line) case Some(p) => Bound(Some(p)) case None => acc.price;
      if LongEnough(d.text) then
        match price
        case Unbound => Pass(acc.items, price)
        case Bound(p) => Pass(acc.items + [MenuItem(today, category + " (" + day + ")", d.text, p)], price)
      else Pass(acc.items, price)
  }

  /** The fallback's loop over one list. */
  function FallbackList(lis: seq<Li>, today: Date, day: String, acc: Pass): Pass
    decreases |lis|
  {
    if lis == [] then acc else FallbackList(lis[1..], today, day, FallbackStep(lis[0], today, day, acc))
  }

  /** One day of the fallback: only the first heading named `day` is read, list or not. */
  function DaySweep(dom: seq<Section>, today: Date, day: String, acc: Pass): Pass
  {
    match FirstIndex(Headed(day), dom)
    case None => acc
    case Some(k) =>
      match dom[k].list
      case None => acc
      case Some(lis) => FallbackList(lis, today, day, acc)
  }

  /** The days of the fallback, stopping after a day once 9 items exist. */
  function Sweep(dom: seq<Section>, today: Date, days: seq<String>, acc: Pass): Pass
    decreases |days|
  {
    if days == [] then acc
    else
      var next := DaySweep(dom, today, days[0], acc);
      if |next.items| >= 9 then next else Sweep(dom, today, days[1..], next)
  }

  /** `extract_menu_items` once the page is parsed: the primary pass, else the fallback sweep. */
  function Scrape(sections: seq<Section>, today: Date): seq<MenuItem>
    requires ValidDate(today)
  {
    var (first, dom) := Primary(sections, today, DayName(today));
    if first.items != [] then first.items else Sweep(dom, today, WeekdayNames, first).items
  }

  // ---------------------------------------------------------------------
  // The loops of `extract_menu_items`.

  /** The body of the primary loop for one `li`: the item it appends, if any, and the new value of `price`. */
  method PrimaryBody(li: Li, today: Date, price: Carried) returns (added: seq<MenuItem>, price': Carried)
    ensures added == PrimaryItem(li, today)
    ensures price' == if Reached(li) then Bound(PriceFor(CategoryFor(li.text))) else price
  {
    added, price' := [], price;
    if li.text == "" || li.detail.None? {
      return;
    }
    var d := li.detail.value;
    var description := d.text;
    if d.span.Some? {
      description := d.span.value.detailText;
    }
    var category := "Main Dish";
    var tag := Lower(li.text);
    if Contains(tag, "suppe") {
      category := "Soup";
    } else if Contains(tag, "hauptspeise") {
      category := "Main Dish";
    } else if Contains(tag, "nachspeise") {
      category := "Dessert";
    }
    price' := Bound(None);
    if category == "Main Dish" {
      price' := Bound(Some("€ 15,50"));
    } else if category == "Soup" || category == "Dessert" {
      price' := Bound(Some("€ 13,50"));
    }
    if !(description == "" || |Strip(description)| < 5) {
      added := [MenuItem(today, category, description, price'.price)];
    }
  }

  /** Reading one more list item, for the primary loop's invariants. */
  lemma PrimarySnoc(lis: seq<Li>, j: nat, today: Date)
    requires j < |lis|
    ensures FlatMap(PrimaryItemOf(today), lis[..j + 1]) == FlatMap(PrimaryItemOf(today), lis[..j]) + PrimaryItem(lis[j], today)
    ensures PriceAfter(lis[..j + 1], Unbound) ==
      if Reached(lis[j]) then Bound(PriceFor(CategoryFor(lis[j].text))) else PriceAfter(lis[..j], Unbound)
    ensures DecomposedAll(lis[..j + 1]) == DecomposedAll(lis[..j]) + [Decomposed(lis[j])]
  {
    assert lis[..j + 1] == lis[..j] + [lis[j]];
    FlatMapAppend(PrimaryItemOf(today), lis[..j], lis[j]);
    assert lis[..j + 1][..j] == lis[..j];
    DecomposedSnoc(lis[..j], lis[j]);
  }

  /** The primary loop over the `li`s of today's list, removing the price spans it meets. */
  method PrimaryList(lis: seq<Li>, today: Date) returns (items: seq<MenuItem>, price: Carried, after: seq<Li>)
    ensures items == FlatMap(PrimaryItemOf(today), lis)
    ensures price == PriceAfter(lis, Unbound)
    ensures after == DecomposedAll(lis)
  {
    items, price, after := [], Unbound, [];
    var j := 0;
    while j < |lis|
      invariant j <= |lis|
      invariant items == FlatMap(PrimaryItemOf(today), lis[..j])
      invariant price == PriceAfter(lis[..j], Unbound)
      invariant after == DecomposedAll(lis[..j])
    {
      var li := lis[j];
      PrimarySnoc(lis, j, today);
      after := after + [Decomposed(li)];
      var added;
      added, price := PrimaryBody(li, today, price);
      items := items + added;
      j := j + 1;
    }
    assert lis[..j] == lis;
  }

  /** The primary loop over the headings: the first one named `day` with a list is read, then the loop stops. */
  method PrimaryPass(sections: seq<Section>, today: Date, day: String) returns (pass: Pass, dom: seq<Section>)
    ensures (pass, dom) == Primary(sections, today, day)
  {
    var i := 0;
    while i < |sections|
      invariant i <= |sections|
      invariant forall j :: 0 <= j < i ==> !HeadedWithList(day)(sections[j])
    {
      var section := sections[i];
      if section.heading == day {
        if section.list.None? {
          i := i + 1;
          continue;
        }
        var items, price, after := PrimaryList(section.list.value, today);
        FirstIndexIs(HeadedWithList(day), sections, i);
        pass := Pass(items, price);
        dom := sections[i := Section(section.heading, Some(after))];
        return;
      }
      i := i + 1;
    }
    FirstIndexNone(HeadedWithList(day), sections);
    pass, dom := Pass([], Unbound), sections;
  }

  /** The fallback's loop over the `li`s of one list. */
  method FallbackLoop(lis: seq<Li>, today: Date, day: String, start: Pass) returns (pass: Pass)
    ensures pass == FallbackList(lis, today, day, start)
  {
    pass := start;
    var j := 0;
    while j < |lis|
      invariant j <= |lis|
      invariant FallbackList(lis[j..], today, day, pass) == FallbackList(lis, today, day, start)
    {
      var li := lis[j];
      assert lis[j..][0] == li && lis[j..][1..] == lis[j + 1..];
      if li.detail.Some? {
        var description := li.detail.value.text;
        var line := FirstLine(li.text);
        var category := "Main Dish";
        var price := pass.price;
        var tag := Lower(line);
        if Contains(tag, "suppe") {
          category := "Soup";
          price := Bound(Some("€ 13,50"));
        } else if Contains(tag, "hauptspeise") {
          category := "Main Dish";
          price := Bound(Some("€ 15,50"));
        } else if Contains(tag, "nachspeise") {
          category := "Dessert";
          price := Bound(Some("€ 13,50"));
        }
        if description != "" && |Strip(description)| > 5 && price.Bound? {
          pass := Pass(pass.items + [MenuItem(today, category + " (" + day + ")", description, price.price)], price);
        } else {
          pass := Pass(pass.items, price);
        }
      }
      j := j + 1;
    }
  }

  /** One day of the fallback: the loop over the headings stops at the first one named `day`. */
  method DayLoop(dom: seq<Section>, today: Date, day: String, start: Pass) returns (pass: Pass)
    ensures pass == DaySweep(dom, today, day, start)
  {
    pass := start;
    var i := 0;
    while i < |dom|
      invariant i <= |dom|
      invariant forall j :: 0 <= j < i ==> !Headed(day)(dom[j])
    {
      if dom[i].heading == day {
        FirstIndexIs(Headed(day), dom, i);
        if dom[i].list.Some? {
          pass := FallbackLoop(dom[i].list.value, today, day, start);
        }
        return;
      }
      i := i + 1;
    }
    FirstIndexNone(Headed(day), dom);
  }

  /** The fallback's loop over Montag to Freitag, with its `break` at 9 items. */
  method SweepLoop(dom: seq<Section>, today: Date, start: Pass) returns (pass: Pass)
    ensures pass == Sweep(dom, today, WeekdayNames, start)
  {
    pass := start;
    var k := 0;
    while k < |WeekdayNames|
      invariant k <= |WeekdayNames|
      invariant Sweep(dom, today, WeekdayNames[k..], pass) == Sweep(dom, today, WeekdayNames, start)
    {
      assert WeekdayNames[k..][0] == WeekdayNames[k] && WeekdayNames[k..][1..] == WeekdayNames[k + 1..];
      pass := DayLoop(dom, today, WeekdayNames[k], pass);
      if |pass.items| >= 9 {
        return;
      }
      k := k + 1;
    }
  }

  /** `extract_menu_items` after the page is parsed. */
  method ExtractMenuItems(sections: seq<Section>, today: Date) returns (items: seq<MenuItem>)
    requires ValidDate(today)
    ensures items == Scrape(sections, today)
  {
    var w := Weekday(today);
    var day := if w < 5 then WeekdayNames[w] else "Montag";
    var first, dom := PrimaryPass(sections, today, day);
    items := first.items;
    if items == [] {
      var swept := SweepLoop(dom, today, first);
      items := swept.items;
    }
  }

  // ---------------------------------------------------------------------
  // Properties.

  /** Monday to Friday name their own heading; Saturday and Sunday use Montag's. */
  lemma DayNameRule(today: Date)
    requires ValidDate(today)
    ensures DayName(today) in WeekdayNames
    ensures Weekday(today) == 5 || Weekday(today) == 6 ==> DayName(today) == "Montag"
    ensures forall w :: 0 <= w < 5 && Weekday(today) == w ==> DayName(today) == WeekdayNames[w]
  {
  }

  /** The keywords are tried in order, and a tag with none of them is a main dish. */
  lemma CategoryRule(tag: String)
    ensures IsCategory(CategoryFor(tag))
    ensures CategoryFor(tag) == "Soup" <==> Contains(Lower(tag), "suppe")
    ensures CategoryFor(tag) == "Dessert" <==>
      !Contains(Lower(tag), "suppe") && !Contains(Lower(tag), "hauptspeise") && Contains(Lower(tag), "nachspeise")
  {
  }

  /** A main dish costs `€ 15,50`, soup and dessert `€ 13,50`; every category has a price. */
  lemma PriceRule(c: String)
    requires IsCategory(c)
    ensures PriceFor(c).Some?
    ensures PriceFor(c) == Some("€ 15,50") <==> c == "Main Dish"
  {
  }

  /** An item of the primary pass: dated today, a category with its price, a description of 5 or more characters. */
  predicate PrimaryShaped(it: MenuItem, today: Date)
  {
    it.menuDate == today && IsCategory(it.category) && it.price == PriceFor(it.category) &&
    |Strip(it.description)| >= 5
  }

  /** Every item of the primary loop is shaped so, and there is at most one per list item. */
  lemma {:induction false} PrimaryItems(lis: seq<Li>, today: Date)
    ensures |FlatMap(PrimaryItemOf(today), lis)| <= |lis|
    ensures forall it :: it in FlatMap(PrimaryItemOf(today), lis) ==> PrimaryShaped(it, today)
    decreases |lis|
  {
    if lis != [] {
      PrimaryItems(lis[1..], today);
      if Reached(lis[0]) {
        CategoryRule(lis[0].text);
      }
    }
  }

  /** The primary pass leaves every other heading, and every unreached list item, as it was. */
  lemma PrimaryPage(sections: seq<Section>, today: Date, day: String)
    ensures |Primary(sections, today, day).1| == |sections|
    ensures forall j :: 0 <= j < |sections| && !HeadedWithList(day)(sections[j]) ==>
      Primary(sections, today, day).1[j] == sections[j]
    ensures forall li :: !Reached(li) ==> Decomposed(li) == li
  {
  }

  /** The value `price` can hold: unassigned, or one of the two prices. */
  predicate KnownPrice(c: Carried)
  {
    c == Unbound || c == Bound(Some("€ 13,50")) || c == Bound(Some("€ 15,50"))
  }

  /** After the primary loop, `price` is unassigned or one of the two prices. */
  lemma {:induction false} PriceAfterKnown(lis: seq<Li>)
    ensures KnownPrice(PriceAfter(lis, Unbound))
    decreases |lis|
  {
    if lis != [] {
      var last := lis[|lis| - 1];
      if Reached(last) {
        CategoryRule(last.text);
      } else {
        PriceAfterKnown(lis[..|lis| - 1]);
      }
    }
  }

  /** An item of the fallback for `day`: dated today, a category suffixed ` (day)`, a description of more than 5 characters, one of the two prices. */
  predicate SweptShaped(it: MenuItem, today: Date, day: String)
  {
    it.menuDate == today && |Strip(it.description)| > 5 &&
    (it.category == "Soup" + " (" + day + ")" || it.category == "Main Dish" + " (" + day + ")" ||
     it.category == "Dessert" + " (" + day + ")") &&
    (it.price == Some("€ 13,50") || it.price == Some("€ 15,50"))
  }

  /** The fallback only appends, and what it appends for one list is shaped so. */
  lemma {:induction false} FallbackListItems(lis: seq<Li>, today: Date, day: String, acc: Pass)
    requires KnownPrice(acc.price)
    ensures KnownPrice(FallbackList(lis, today, day, acc).price)
    ensures |acc.items| <= |FallbackList(lis, today, day, acc).items| <= |acc.items| + |lis|
    ensures FallbackList(lis, today, day, acc).items[..|acc.items|] == acc.items
    ensures forall i :: |acc.items| <= i < |FallbackList(lis, today, day, acc).items| ==>
      SweptShaped(FallbackList(lis, today, day, acc).items[i], today, day)
    decreases |lis|
  {
    if lis != [] {
      var next := FallbackStep(lis[0], today, day, acc);
      FallbackStepItems(lis[0], today, day, acc);
      FallbackListItems(lis[1..], today, day, next);
      var r := FallbackList(lis, today, day, acc).items;
      assert r == FallbackList(lis[1..], today, day, next).items;
      assert r[..|acc.items|] == r[..|next.items|][..|acc.items|];
      forall i | |acc.items| <= i < |r| ensures SweptShaped(r[i], today, day) {
        if i < |next.items| {
          assert r[i] == next.items[i];
        }
      }
    }
  }

  /** One step of the fallback appends at most one item, shaped so, and `price` stays known. */
  lemma FallbackStepItems(li: Li, today: Date, day: String, acc: Pass)
    requires KnownPrice(acc.price)
    ensures var next := FallbackStep(li, today, day, acc);
      KnownPrice(next.price) &&
      (next.items == acc.items ||
       (next.items == acc.items + [next.items[|acc.items|]] && SweptShaped(next.items[|acc.items|], today, day)))
  {
    if li.detail.Some? {
      CategoryRule(FirstLine(li.text));
    }
  }

  /** A day of the fallback only appends, and what it appends is shaped so for that day. */
  lemma DaySweepItems(dom: seq<Section>, today: Date, day: String, acc: Pass)
    requires KnownPrice(acc.price)
    ensures KnownPrice(DaySweep(dom, today, day, acc).price)
    ensures |acc.items| <= |DaySweep(dom, today, day, acc).items|
    ensures DaySweep(dom, today, day, acc).items[..|acc.items|] == acc.items
    ensures forall i :: |acc.items| <= i < |DaySweep(dom, today, day, acc).items| ==>
      SweptShaped(DaySweep(dom, today, day, acc).items[i], today, day)
  {
    match FirstIndex(Headed(day), dom)
    case None =>
    case Some(k) =>
      match dom[k].list
      case None =>
      case Some(lis) => FallbackListItems(lis, today, day, acc);
  }

  /**
   * Once a day of the fallback ends with 9 or more items, the days after it
   * are never read: adding days at the end changes nothing.
   */
  lemma {:induction false} SweepStops(dom: seq<Section>, today: Date, days: seq<String>, more: seq<String>, acc: Pass)
    requires days != []
    requires |Sweep(dom, today, days, acc).items| >= 9
    ensures Sweep(dom, today, days + more, acc) == Sweep(dom, today, days, acc)
    decreases |days|
  {
    assert (days + more)[0] == days[0] && (days + more)[1..] == days[1..] + more;
    var next := DaySweep(dom, today, days[0], acc);
    if |next.items| < 9 {
      SweepStops(dom, today, days[1..], more, next);
    }
  }

  /** Every item of the sweep is an item of the fallback for one of the swept days, after those already there. */
  lemma {:induction false} SweepItems(dom: seq<Section>, today: Date, days: seq<String>, acc: Pass)
    requires KnownPrice(acc.price)
    ensures |acc.items| <= |Sweep(dom, today, days, acc).items|
    ensures Sweep(dom, today, days, acc).items[..|acc.items|] == acc.items
    ensures forall i :: |acc.items| <= i < |Sweep(dom, today, days, acc).items| ==>
      exists k :: 0 <= k < |days| && SweptShaped(Sweep(dom, today, days, acc).items[i], today, days[k])
    decreases |days|
  {
    if days != [] {
      var next := DaySweep(dom, today, days[0], acc);
      DaySweepItems(dom, today, days[0], acc);
      var r := Sweep(dom, today, days, acc).items;
      if |next.items| >= 9 {
        forall i | |acc.items| <= i < |r|
          ensures exists k :: 0 <= k < |days| && SweptShaped(r[i], today, days[k])
        {
          assert SweptShaped(r[i], today, days[0]);
        }
      } else {
        SweepItems(dom, today, days[1..], next);
        assert r == Sweep(dom, today, days[1..], next).items;
        assert r[..|acc.items|] == r[..|next.items|][..|acc.items|];
        forall i | |acc.items| <= i < |r|
          ensures exists k :: 0 <= k < |days| && SweptShaped(r[i], today, days[k])
        {
          if i < |next.items| {
            assert r[i] == next.items[i];
            assert SweptShaped(r[i], today, days[0]);
          } else {
            var k :| 0 <= k < |days[1..]| && SweptShaped(r[i], today, days[1..][k]);
            assert days[1..][k] == days[k + 1];
          }
        }
      }
    }
  }

  /**
   * Every item scraped is either a primary item (when there is any, all are)
   * or a fallback item for a weekday from Montag to Freitag.
   */
  lemma ScrapeItems(sections: seq<Section>, today: Date)
    requires ValidDate(today)
    ensures var first := Primary(sections, today, DayName(today)).0;
      first.items != [] ==> forall it :: it in Scrape(sections, today) ==> PrimaryShaped(it, today)
    ensures forall it :: it in Scrape(sections, today) ==>
      PrimaryShaped(it, today) || exists k :: 0 <= k < 5 && SweptShaped(it, today, WeekdayNames[k])
  {
    var day := DayName(today);
    match FirstIndex(HeadedWithList(day), sections)
    case None =>
      SweepItems(sections, today, WeekdayNames, Pass([], Unbound));
    case Some(k) =>
      var lis := sections[k].list.value;
      PrimaryItems(lis, today);
      PriceAfterKnown(lis);
      var (first, dom) := Primary(sections, today, day);
      SweepItems(dom, today, WeekdayNames, first);
  }

  // ---------------------------------------------------------------------
  // The fallback's price, as written and as intended.

  /**
   * As written, a fallback tag that names no course leaves `price` at the
   * previous item's value: the dish is filed as a main dish at whatever the
   * item before it cost.
   */
  lemma StalePrice(li: Li, today: Date, day: String, acc: Pass)
    requires li.detail.Some? && LongEnough(li.detail.value.text)
    requires KeywordPrice(FirstLine(li.text)).None?
    requires acc.price.Bound?
    ensures FallbackStep(li, today, day, acc).items ==
      acc.items + [MenuItem(today, "Main Dish" + " (" + day + ")", li.detail.value.text, acc.price.price)]
  {
  }

  /** After a soup, such a main dish is priced as a soup, unlike any main dish of the primary pass. */
  lemma StalePriceAfterSoup(soup: Li, dish: Li, today: Date, day: String)
    requires soup.detail.Some? && LongEnough(soup.detail.value.text)
    requires Contains(Lower(FirstLine(soup.text)), "suppe")
    requires dish.detail.Some? && LongEnough(dish.detail.value.text)
    requires KeywordPrice(FirstLine(dish.text)).None?
    ensures var items := FallbackList([soup, dish], today, day, Pass([], Unbound)).items;
      |items| == 2 && items[1].category == "Main Dish" + " (" + day + ")" &&
      items[1].price == Some("€ 13,50") && items[1].price != PriceFor("Main Dish")
  {
    var first := FallbackStep(soup, today, day, Pass([], Unbound));
    assert KeywordPrice(FirstLine(soup.text)) == Some("€ 13,50");
    assert first.price == Bound(Some("€ 13,50")) && |first.items| == 1;
    assert [soup, dish][1..] == [dish] && [dish][1..] == [];
    var second := FallbackStep(dish, today, day, first);
    assert FallbackList([soup, dish], today, day, Pass([], Unbound)) == FallbackList([dish], today, day, first);
    assert FallbackList([dish], today, day, first) == FallbackList([], today, day, second);
    StalePrice(dish, today, day, first);
  }

  /** As written, such an item is dropped when `price` has not been assigned yet. */
  lemma UnboundDropsItem(li: Li, today: Date, day: String, acc: Pass)
    requires li.detail.Some? && LongEnough(li.detail.value.text)
    requires KeywordPrice(FirstLine(li.text)).None?
    requires acc.price == Unbound
    ensures FallbackStep(li, today, day, acc) == acc
  {
  }

  /** The fallback step as evidently intended: the price follows the category, as in the primary pass. */
  function IntendedStep(li: Li, today: Date, day: String, items: seq<MenuItem>): seq<MenuItem>
  {
    match li.detail
    case None => items
    case Some(d) =>
      var category := CategoryFor(FirstLine(li.text));
      if LongEnough(d.text) then items + [MenuItem(today, category + " (" + day + ")", d.text, PriceFor(category))]
      else items
  }

  function IntendedList(lis: seq<Li>, today: Date, day: String, items: seq<MenuItem>): seq<MenuItem>
    decreases |lis|
  {
    if lis == [] then items else IntendedList(lis[1..], today, day, IntendedStep(lis[0], today, day, items))
  }

  /**
   * As intended, every list item with a long enough description yields an
   * item, whose price is that of its category: a main dish costs `€ 15,50`.
   */
  lemma {:induction false} IntendedItems(lis: seq<Li>, today: Date, day: String, items: seq<MenuItem>)
    ensures var r := IntendedList(lis, today, day, items);
      |items| <= |r| && r[..|items|] == items && forall i :: |items| <= i < |r| ==> PricedByCategory(r[i], day)
    decreases |lis|
  {
    if lis != [] {
      var next := IntendedStep(lis[0], today, day, items);
      IntendedStepItems(lis[0], today, day, items);
      IntendedItems(lis[1..], today, day, next);
      var r := IntendedList(lis, today, day, items);
      assert r == IntendedList(lis[1..], today, day, next);
      assert r[..|items|] == r[..|next|][..|items|];
      forall i | |items| <= i < |r| ensures PricedByCategory(r[i], day) {
        if i < |next| {
          assert r[i] == next[i];
        }
      }
    }
  }

  /** As intended, the fallback appends one item per list item with a detail whose description is long enough. */
  lemma {:induction false} IntendedCount(lis: seq<Li>, today: Date, day: String, items: seq<MenuItem>)
    ensures |IntendedList(lis, today, day, items)| == |items| + |Filter(Described(), lis)|
    decreases |lis|
  {
    if lis != [] {
      var next := IntendedStep(lis[0], today, day, items);
      IntendedStepItems(lis[0], today, day, items);
      IntendedCount(lis[1..], today, day, next);
      FilterCons(Described(), lis);
    }
  }

  /** An item whose price is that of its category, once the ` (day)` suffix is taken off. */
  predicate PricedByCategory(it: MenuItem, day: String)
  {
    IsCategory(Base(it.category, day)) && it.price == PriceFor(Base(it.category, day))
  }

  /** One intended step appends an item priced by its category exactly when the list item is described. */
  lemma IntendedStepItems(li: Li, today: Date, day: String, items: seq<MenuItem>)
    ensures var next := IntendedStep(li, today, day, items);
      if Described()(li) then next == items + [next[|items|]] && PricedByCategory(next[|items|], day)
      else next == items
  {
    if li.detail.Some? {
      CategoryRule(FirstLine(li.text));
      BaseOf(CategoryFor(FirstLine(li.text)), day);
    }
  }

  /** A list item the intended fallback keeps. */
  function Described(): Li -> bool
  {
    (li: Li) => li.detail.Some? && LongEnough(li.detail.value.text)
  }

  /** A category without its ` (day)` suffix. */
  function Base(category: String, day: String): String
  {
    var suffix := " (" + day + ")";
    if |suffix| <= |category| then category[..|category| - |suffix|] else category
  }

  lemma BaseOf(c: String, day: String)
    ensures Base(c + " (" + day + ")", day) == c
  {
    var suffix := " (" + day + ")";
    assert (c + suffix)[..|c + suffix| - |suffix|] == c;
  }
}
