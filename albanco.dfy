/**
 * `app/scrapers/albanco_scraper.py`: dishes from the text of the weekly
 * PDF. A dish line ends in a decimal price and holds an allergen list in
 * parentheses; up to three following lines describe it.
 */
module Albanco {
  import opened Wrappers
  import opened Text
  import opened Dates
  import opened Keywords
  import opened Menu
  import ErsteText
  import opened Decimals

  /**
   * `re.search(r'(\d+[,\.]\d+)\s*$', line).group(1)`: the decimal number
   * at the end of the line, trailing whitespace aside.
   */
  function TrailingNumber(line: String): Option<String>
  {
    TrailingDecimal(StripRight(line))
  }

  /** The number found is the leftmost match, and nothing is found only when no position matches. */
  lemma TrailingNumberLeftmost(line: String)
    ensures var t := StripRight(line); var r := TrailingNumber(line);
      (r.Some? ==> |r.value| <= |t| && r.value == t[|t| - |r.value|..] && DecimalAt(t, |t| - |r.value|)
                   && forall p :: 0 <= p < |t| - |r.value| ==> !DecimalAt(t, p))
      && (r.None? ==> forall p :: 0 <= p < |t| ==> !DecimalAt(t, p))
  {
    var t := StripRight(line);
    TrailingDecimalLeftmost(t);
    var r := TrailingDecimal(t);
    if r.Some? {
      assert r.value == t[|t| - |r.value|..];
    }
  }

  /** The number found is such a decimal. */
  lemma TrailingNumberDecimal(line: String)
    requires TrailingNumber(line).Some?
    ensures Decimal(TrailingNumber(line).value)
  {
    TrailingDecimalWhole(StripRight(line));
  }

  /** A dish line: a trailing decimal number and an opening parenthesis somewhere. */
  predicate IsDishLine(line: String)
  {
    TrailingNumber(line).Some? && '(' in line
  }

  /** `f"€ {price_str}"` with `price_str = number.replace(',', '.')`. */
  function CanonicalPrice(number: String): String
  {
    "€ " + Replace(number, ",", ".")
  }

  /** A decimal's separator becomes a point and the digits stay as they are: `11,9` and `11.9` both give `€ 11.9`. */
  lemma CanonicalPriceShape(x: String) returns (q: nat)
    requires Decimal(x)
    ensures 0 < q < |x| - 1 && IsSep(x[q])
    ensures CanonicalPrice(x) == "€ " + (x[..q] + "." + x[q + 1..])
  {
    q :| 0 < q < |x| - 1 && IsSep(x[q])
      && (forall k :: 0 <= k < q ==> IsDigit(x[k])) && (forall k :: q < k < |x| ==> IsDigit(x[k]));
    var a, b := x[..q], x[q + 1..];
    DigitsNoComma(a);
    DigitsNoComma(b);
    ReplaceSeparator(a, x[q], b);
    assert x == a + [x[q]] + b;
    assert Replace(x, ",", ".") == a + "." + b;
  }

  /** The example of the price format: `11,9` reads as `€ 11.9`. */
  lemma CanonicalPriceExample()
    ensures CanonicalPrice("11,9") == "€ 11.9"
  {
    ReplaceSeparator("11", ',', "9");
    assert "11,9" == "11" + [','] + "9";
  }

  /** Every character is a capital A to Z or whitespace. */
  predicate CapsOrSpace(s: String)
  {
    s == [] || ((IsAsciiUpper(s[0]) || IsSpace(s[0])) && CapsOrSpace(s[1..]))
  }

  /** `re.match(r'^[A-Z\s]+$', line)`: a heading of capitals and whitespace only. */
  predicate CapitalsOnly(line: String)
  {
    line != [] && CapsOrSpace(line)
  }

  /** The character-by-character reading of the pattern. */
  lemma {:induction false} CapsOrSpaceMeans(s: String)
    ensures CapsOrSpace(s) <==> forall k :: 0 <= k < |s| ==> IsAsciiUpper(s[k]) || IsSpace(s[k])
    decreases |s|
  {
    if s != [] {
      CapsOrSpaceMeans(s[1..]);
      assert forall k :: 0 < k < |s| ==> s[k] == s[1..][k - 1];
    }
  }

  /** A description line worth keeping: longer than 5 characters and not a capitals-only heading. */
  predicate Meaningful(line: String)
  {
    |line| > 5 && !CapitalsOnly(line)
  }

  /** A dish line's name and number, or `None` when its last `(` opens the line or the stripped name is shorter than 3 characters. */
  function Head(line: String): Option<(String, String)>
    requires IsDishLine(line)
  {
    var open := RFindChar(line, '(').value;
    if open == 0 then None
    else
      var name := Strip(line[..open]);
      if |name| < 3 then None else Some((name, TrailingNumber(line).value))
  }

  /** What the parser looks at in one line: the text, whether it is a dish line, its name and number, whether a description keeps it. */
  datatype Reading = Reading(text: String, dish: bool, head: Option<(String, String)>, meaningful: bool)

  function Read(line: String): (r: Reading)
    ensures r.text == line
    ensures r.head.Some? ==> r.dish
  {
    Reading(line, IsDishLine(line), if IsDishLine(line) then Head(line) else None, Meaningful(line))
  }

  /** The readings of all lines, in order. */
  function Readings(lines: seq<String>): (rs: seq<Reading>)
    ensures |rs| == |lines|
  {
    if lines == [] then [] else [Read(lines[0])] + Readings(lines[1..])
  }

  /** The fields of the reading at `k`, without the price search behind its head. */
  lemma ReadingFields(lines: seq<String>, k: nat)
    requires k < |lines|
    ensures Readings(lines)[k].text == lines[k]
    ensures Readings(lines)[k].dish == IsDishLine(lines[k])
    ensures Readings(lines)[k].meaningful == Meaningful(lines[k])
  {
    ReadingAt(lines, k);
  }

  /** The reading at `k` is that of line `k`. */
  lemma {:induction false} ReadingAt(lines: seq<String>, k: nat)
    requires k < |lines|
    ensures Readings(lines)[k] == Read(lines[k])
    decreases k
  {
    if k > 0 {
      ReadingAt(lines[1..], k - 1);
    }
  }

  /**
   * The description loop from index `j`, below `limit`, with the lines kept
   * so far in `acc`: the lines kept in the end and the index it stops at,
   * which is the limit, the end, or the next dish line.
   */
  function Describe(rs: seq<Reading>, limit: nat, j: nat, acc: seq<String>): (r: (seq<String>, nat))
    requires j <= |rs|
    ensures j <= r.1 <= |rs| && (r.1 <= limit || r.1 == j)
    decreases |rs| - j
  {
    if j >= |rs| || j >= limit || rs[j].dish then (acc, j)
    else Describe(rs, limit, j + 1, if rs[j].meaningful then acc + [rs[j].text] else acc)
  }

  /** The description: the kept lines joined by ` | `, or the dish name; cut to 200 characters plus `...`. */
  function DescriptionText(name: String, parts: seq<String>): (d: String)
    ensures |d| <= 203
  {
    var d := if parts == [] then name else Join(" | ", parts);
    if |d| > 200 then d[..200] + "..." else d
  }

  /** The categories, first match wins. */
  const DishTable: seq<(String, seq<String>)> := [
    ("Salad", ["insalata", "salat", "salad"]),
    ("Pasta", ["pasta", "penne", "spaghetti", "linguine", "cannelloni"]),
    ("Risotto", ["risotto"]),
    ("Burger", ["hamburger", "burger"]),
    ("Pizza", ["pizza"]),
    ("Soup", ["zuppa", "suppe", "soup"]),
    ("Dessert", ["dolce", "dessert", "tiramisu"])]

  lemma DishLabels()
    ensures Labels(DishTable, "Main Dish") == ["Salad", "Pasta", "Risotto", "Burger", "Pizza", "Soup", "Dessert", "Main Dish"]
  {
  }

  /** The eight categories a dish can get. */
  predicate DishCategory(c: String)
  {
    c in {"Salad", "Pasta", "Risotto", "Burger", "Pizza", "Soup", "Dessert", "Main Dish"}
  }

  /** Every label of the table, and the default, is one of the eight. */
  lemma LabelCategory(c: String)
    requires c in Labels(DishTable, "Main Dish")
    ensures DishCategory(c)
  {
    DishLabels();
  }

  /** `_categorize_dish`: the first entry with a word in the lower-cased name, else `Main Dish`. */
  function CategorizeDish(name: String): (c: String)
    ensures DishCategory(c)
  {
    ClassifyIn(Lower(name), DishTable, "Main Dish");
    LabelCategory(Classify(Lower(name), DishTable, "Main Dish"));
    Classify(Lower(name), DishTable, "Main Dish")
  }

  /** A salad word wins over every later entry, even when the name also names pasta. */
  lemma SaladFirst(name: String)
    requires AnyIn(Lower(name), ["insalata", "salat", "salad"])
    ensures CategorizeDish(name) == "Salad"
  {
    ClassifyFirst(Lower(name), DishTable, "Main Dish", 0);
  }

  /** A name with no word of any entry is a `Main Dish`. */
  lemma NoWordMainDish(name: String)
    requires forall k :: 0 <= k < |DishTable| ==> !AnyIn(Lower(name), DishTable[k].1)
    ensures CategorizeDish(name) == "Main Dish"
  {
    ClassifyDefault(Lower(name), DishTable, "Main Dish");
  }

  /** The item of a dish with its name, number and description lines. */
  function Item(name: String, number: String, parts: seq<String>, today: Date): (it: MenuItem)
    ensures it.menuDate == today && it.price.Some?
    ensures DishCategory(it.category)
  {
    MenuItem(today, CategorizeDish(name), name + " - " + DescriptionText(name, parts), Some(CanonicalPrice(number)))
  }

  /**
   * What the loop does at line `i`: the item and the index it resumes at,
   * or `None` when the line gives no dish.
   */
  function DishAt(rs: seq<Reading>, i: nat, today: Date): (r: Option<(MenuItem, nat)>)
    requires i < |rs|
    ensures r.Some? ==> i < r.value.1 <= i + 4 && r.value.1 <= |rs|
  {
    match rs[i].head
    case None => None
    case Some((name, number)) =>
      var (parts, j) := Describe(rs, i + 4, i + 1, []);
      Some((Item(name, number, parts, today), j))
  }

  /** The items from line `i` on. */
  function MenuFrom(rs: seq<Reading>, i: nat, today: Date): seq<MenuItem>
    requires i <= |rs|
    decreases |rs| - i
  {
    if i == |rs| then []
    else match DishAt(rs, i, today)
      case None => MenuFrom(rs, i + 1, today)
      case Some((item, j)) => [item] + MenuFrom(rs, j, today)
  }

  /** `_parse_menu_text`: the items of the stripped non-empty lines of the PDF text. */
  function ParseMenuTextSpec(text: String, today: Date): seq<MenuItem>
  {
    MenuFrom(Readings(ErsteText.BodyLines(text)), 0, today)
  }

  /**
   * A dish line's name is the stripped text before its last `(`, at least
   * 3 characters long, and its number is a decimal.
   */
  lemma HeadShape(line: String)
    requires IsDishLine(line) && Head(line).Some?
    ensures var (name, number) := Head(line).value;
      Decimal(number) && number == TrailingNumber(line).value && |name| >= 3
      && exists open :: 0 < open < |line| && line[open] == '(' && (forall k :: open < k < |line| ==> line[k] != '(')
           && name == Strip(line[..open])
  {
    TrailingNumberDecimal(line);
  }

  /**
   * An item: dated today, named by the dish with ` - ` and at most 203
   * characters after it; its price is `€ ` and the number with a point.
   */
  lemma ItemShape(name: String, number: String, parts: seq<String>, today: Date)
    requires Decimal(number)
    ensures var it := Item(name, number, parts, today);
      it.menuDate == today && it.category == CategorizeDish(name)
      && (exists d :: |d| <= 203 && it.description == name + " - " + d)
      && exists q :: 0 < q < |number| - 1 && it.price == Some("€ " + (number[..q] + "." + number[q + 1..]))
  {
    var q := CanonicalPriceShape(number);
    var d := DescriptionText(name, parts);
    assert |d| <= 203;
  }

  /** `x` is the text of a meaningful line from `j` up to `e`. */
  predicate KeptBetween(rs: seq<Reading>, j: nat, e: nat, x: String)
  {
    exists m :: j <= m < e && m < |rs| && rs[m].meaningful && x == rs[m].text
  }

  /**
   * The loop adds to what it was given only the texts of meaningful lines
   * it passes over, at most one per line.
   */
  lemma {:induction false} DescribeKeeps(rs: seq<Reading>, limit: nat, j: nat, acc: seq<String>)
    requires j <= |rs|
    ensures var (parts, e) := Describe(rs, limit, j, acc);
      |acc| <= |parts| <= |acc| + (e - j) && parts[..|acc|] == acc
      && (forall k :: |acc| <= k < |parts| ==> KeptBetween(rs, j, e, parts[k]))
    decreases |rs| - j
  {
    if !(j >= |rs| || j >= limit || rs[j].dish) {
      var acc' := if rs[j].meaningful then acc + [rs[j].text] else acc;
      DescribeKeeps(rs, limit, j + 1, acc');
      var (parts, e) := Describe(rs, limit, j + 1, acc');
      assert Describe(rs, limit, j, acc) == (parts, e);
      assert parts[..|acc|] == parts[..|acc'|][..|acc|];
      forall k | |acc| <= k < |parts|
        ensures KeptBetween(rs, j, e, parts[k])
      {
        if k < |acc'| {
          assert parts[k] == parts[..|acc'|][k] == acc'[k] == rs[j].text;
          assert j <= j < e && rs[j].meaningful;
        } else {
          assert KeptBetween(rs, j + 1, e, parts[k]);
          var m :| j + 1 <= m < e && m < |rs| && rs[m].meaningful && parts[k] == rs[m].text;
          assert j <= m < e;
        }
      }
    }
  }

  /** The loop passes over no dish line, and stops at the limit, the end or a dish line. */
  lemma {:induction false} DescribeStops(rs: seq<Reading>, limit: nat, j: nat, acc: seq<String>)
    requires j <= |rs|
    ensures var e := Describe(rs, limit, j, acc).1;
      (forall m :: j <= m < e ==> !rs[m].dish) && (e < |rs| && e < limit ==> rs[e].dish)
    decreases |rs| - j
  {
    if !(j >= |rs| || j >= limit || rs[j].dish) {
      DescribeStops(rs, limit, j + 1, if rs[j].meaningful then acc + [rs[j].text] else acc);
    }
  }

  /** A line whose reading is no dish is no dish line. */
  lemma NotDishLine(lines: seq<String>, m: nat)
    requires m < |lines| && !Readings(lines)[m].dish
    ensures !IsDishLine(lines[m])
  {
    ReadingFields(lines, m);
  }

  /** A line whose reading is a dish is a dish line. */
  lemma DishLineAt(lines: seq<String>, m: nat)
    requires m < |lines| && Readings(lines)[m].dish
    ensures IsDishLine(lines[m])
  {
    ReadingFields(lines, m);
  }

  /**
   * The description of the dish at line `i`: up to three lines from the
   * next three, each longer than 5 characters and not a capitals-only
   * heading; no dish line among the lines passed over, and the walk stops
   * at the end, three lines on, or the next dish line.
   */
  lemma DescribeLines(lines: seq<String>, i: nat)
    requires i < |lines|
    ensures var (parts, j) := Describe(Readings(lines), i + 4, i + 1, []);
      |parts| <= 3
      && (forall x :: x in parts ==> |x| > 5 && !CapitalsOnly(x) && exists m :: i < m < j && x == lines[m])
      && (forall m :: i < m < j ==> !IsDishLine(lines[m]))
      && (j == |lines| || j == i + 4 || IsDishLine(lines[j]))
  {
    var (parts, j) := Describe(Readings(lines), i + 4, i + 1, []);
    DescribedLines(lines, i, parts, j);
  }

  /** A kept text is a meaningful line between `j` and `e`. */
  lemma KeptLine(lines: seq<String>, j: nat, e: nat, x: String) returns (m: nat)
    requires KeptBetween(Readings(lines), j, e, x)
    ensures j <= m < e && m < |lines| && x == lines[m] && Meaningful(x)
  {
    var rs := Readings(lines);
    m :| j <= m < e && m < |rs| && rs[m].meaningful && x == rs[m].text;
    ReadingFields(lines, m);
  }

  /** `DescribeLines`, for the parts and the stop the walk is known to give. */
  lemma DescribedLines(lines: seq<String>, i: nat, parts: seq<String>, j: nat)
    requires i < |lines| && Describe(Readings(lines), i + 4, i + 1, []) == (parts, j)
    ensures |parts| <= 3
    ensures forall x :: x in parts ==> |x| > 5 && !CapitalsOnly(x) && exists m :: i < m < j && x == lines[m]
    ensures forall m :: i < m < j ==> !IsDishLine(lines[m])
    ensures j == |lines| || j == i + 4 || IsDishLine(lines[j])
  {
    DescribedParts(lines, i, parts, j);
    DescribedPassed(lines, i, parts, j);
  }

  /** The kept parts: at most three, each a meaningful line passed over. */
  lemma DescribedParts(lines: seq<String>, i: nat, parts: seq<String>, j: nat)
    requires i < |lines| && Describe(Readings(lines), i + 4, i + 1, []) == (parts, j)
    ensures |parts| <= 3
    ensures forall x :: x in parts ==> |x| > 5 && !CapitalsOnly(x) && exists m :: i < m < j && x == lines[m]
  {
    DescribeKeeps(Readings(lines), i + 4, i + 1, []);
    forall x | x in parts ensures |x| > 5 && !CapitalsOnly(x) && exists m :: i < m < j && x == lines[m] {
      var k :| 0 <= k < |parts| && parts[k] == x;
      var m := KeptLine(lines, i + 1, j, x);
    }
  }

  /** The lines passed over hold no dish, and the walk stops at the end, three lines on, or a dish line. */
  lemma DescribedPassed(lines: seq<String>, i: nat, parts: seq<String>, j: nat)
    requires i < |lines| && Describe(Readings(lines), i + 4, i + 1, []) == (parts, j)
    ensures forall m :: i < m < j ==> !IsDishLine(lines[m])
    ensures j == |lines| || j == i + 4 || IsDishLine(lines[j])
  {
    DescribeStops(Readings(lines), i + 4, i + 1, []);
    forall m | i < m < j ensures !IsDishLine(lines[m]) {
      NotDishLine(lines, m);
    }
    if j < |lines| && j < i + 4 {
      DishLineAt(lines, j);
    }
  }

  /** Every item is dated today, has a known category and a price. */
  lemma {:induction false} MenuFromShape(rs: seq<Reading>, i: nat, today: Date)
    requires i <= |rs|
    ensures forall item :: item in MenuFrom(rs, i, today) ==>
      item.menuDate == today && item.price.Some?
      && DishCategory(item.category)
    decreases |rs| - i
  {
    if i < |rs| {
      match DishAt(rs, i, today)
      case None => MenuFromShape(rs, i + 1, today);
      case Some((item, j)) => MenuFromShape(rs, j, today);
    }
  }

  /** No more items than lines: every item uses up at least its own dish line. */
  lemma {:induction false} MenuFromLength(rs: seq<Reading>, i: nat, today: Date)
    requires i <= |rs|
    ensures |MenuFrom(rs, i, today)| <= |rs| - i
    decreases |rs| - i
  {
    if i < |rs| {
      match DishAt(rs, i, today)
      case None => MenuFromLength(rs, i + 1, today);
      case Some((item, j)) => MenuFromLength(rs, j, today);
    }
  }

  /** Text without a dish line gives no items. */
  lemma {:induction false} NoDishNoItems(rs: seq<Reading>, i: nat, today: Date)
    requires i <= |rs|
    requires forall m :: i <= m < |rs| ==> rs[m].head.None?
    ensures MenuFrom(rs, i, today) == []
    decreases |rs| - i
  {
    if i < |rs| {
      NoDishNoItems(rs, i + 1, today);
    }
  }

  /** The inner `while` loop: collects the description lines after dish line `i`. */
  method CollectDescription(lines: seq<String>, i: nat) returns (parts: seq<String>, j: nat)
    requires i < |lines|
    ensures (parts, j) == Describe(Readings(lines), i + 4, i + 1, [])
  {
    ghost var rs := Readings(lines);
    parts := [];
    j := i + 1;
    while j < |lines| && j < i + 4
      invariant i + 1 <= j <= |lines|
      invariant Describe(rs, i + 4, j, parts) == Describe(rs, i + 4, i + 1, [])
      decreases |lines| - j
    {
      var nextLine := lines[j];
      ReadingFields(lines, j);
      if TrailingNumber(nextLine).Some? && '(' in nextLine {
        break;
      }
      if |nextLine| > 5 && !CapitalsOnly(nextLine) {
        parts := parts + [nextLine];
      }
      j := j + 1;
    }
  }

  /** A line that yields no dish passes control to the next one. */
  lemma MenuFromSkip(rs: seq<Reading>, i: nat, today: Date)
    requires i < |rs| && DishAt(rs, i, today).None?
    ensures MenuFrom(rs, i, today) == MenuFrom(rs, i + 1, today)
  {
  }

  /** A dish line yields its item, and the walk resumes where the description ended. */
  lemma MenuFromTake(rs: seq<Reading>, i: nat, today: Date, item: MenuItem, j: nat)
    requires i < |rs| && DishAt(rs, i, today) == Some((item, j))
    ensures MenuFrom(rs, i, today) == [item] + MenuFrom(rs, j, today)
  {
  }

  /** Taking a dish keeps the items so far and those still to come equal to all the items. */
  lemma TakeKeepsWalk(rs: seq<Reading>, i: nat, today: Date, done: seq<MenuItem>, item: MenuItem, j: nat)
    requires i < |rs| && DishAt(rs, i, today) == Some((item, j))
    requires done + MenuFrom(rs, i, today) == MenuFrom(rs, 0, today)
    ensures (done + [item]) + MenuFrom(rs, j, today) == MenuFrom(rs, 0, today)
  {
    MenuFromTake(rs, i, today, item, j);
    assert (done + [item]) + MenuFrom(rs, j, today) == done + ([item] + MenuFrom(rs, j, today));
  }

  /** Passing over a line without a dish keeps the items so far and those still to come equal to all the items. */
  lemma SkipKeepsWalk(rs: seq<Reading>, i: nat, today: Date, done: seq<MenuItem>)
    requires i < |rs| && DishAt(rs, i, today).None?
    requires done + MenuFrom(rs, i, today) == MenuFrom(rs, 0, today)
    ensures done + MenuFrom(rs, i + 1, today) == MenuFrom(rs, 0, today)
  {
    MenuFromSkip(rs, i, today);
  }

  /**
   * One turn of the outer loop of `_parse_menu_text` at line `i`: the item
   * it appends, if any, and the index the loop goes on with.
   */
  method DishStep(lines: seq<String>, i: nat, today: Date) returns (item: Option<MenuItem>, next: nat)
    requires i < |lines|
    ensures item.Some? ==> DishAt(Readings(lines), i, today) == Some((item.value, next))
    ensures item.None? ==> DishAt(Readings(lines), i, today).None? && next == i + 1
  {
    ghost var rs := Readings(lines);
    var line := lines[i];
    ReadingAt(lines, i);
    var priceMatch := TrailingNumber(line);
    if priceMatch.Some? && '(' in line {
      var price := "€ " + Replace(priceMatch.value, ",", ".");
      var allergenStart := RFindChar(line, '(').value;
      if allergenStart > 0 {
        var dishName := Strip(line[..allergenStart]);
        if |dishName| < 3 {
          return None, i + 1;
        }
        var descriptionParts, j := CollectDescription(lines, i);
        var description := if descriptionParts != [] then Join(" | ", descriptionParts) else dishName;
        var category := CategorizeDish(dishName);
        if |description| > 200 {
          description := description[..200] + "...";
        }
        assert description == DescriptionText(dishName, descriptionParts);
        item := Some(MenuItem(today, category, dishName + " - " + description, Some(price)));
        next := j;
      } else {
        item, next := None, i + 1;
      }
    } else {
      item, next := None, i + 1;
    }
  }

  /** The outer `while` loop of `_parse_menu_text` over the cleaned lines. */
  method ParseLines(lines: seq<String>, today: Date) returns (menuItems: seq<MenuItem>)
    ensures menuItems == MenuFrom(Readings(lines), 0, today)
  {
    ghost var rs := Readings(lines);
    menuItems := [];
    var i := 0;
    while i < |lines|
      invariant 0 <= i <= |lines|
      invariant menuItems + MenuFrom(rs, i, today) == MenuFrom(rs, 0, today)
      decreases |lines| - i
    {
      var item, next := DishStep(lines, i, today);
      if item.Some? {
        TakeKeepsWalk(rs, i, today, menuItems, item.value, next);
        menuItems := menuItems + [item.value];
      } else {
        SkipKeepsWalk(rs, i, today, menuItems);
      }
      i := next;
    }
  }

  /** `_parse_menu_text`: the stripped non-empty lines of the PDF text, then the loop over them. */
  method ParseMenuText(text: String, today: Date) returns (menuItems: seq<MenuItem>)
    ensures menuItems == ParseMenuTextSpec(text, today)
  {
    var lines := ErsteText.BodyLines(text);
    menuItems := ParseLines(lines, today);
  }
}
