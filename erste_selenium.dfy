/**
 * The field normalisers of `erste_campus_selenium_scraper.py`: the category
 * chain, description cleaning, price extraction and the weekday-name-to-date
 * conversion. The browser session that produces the text is not part of
 * this model.
 */
module ErsteSelenium {
  import opened Wrappers
  import opened Text
  import opened Dates
  import opened Keywords
  import opened Patterns

  // ---------------------------------------------------------------------
  // _determine_category

  const CategoryTable: seq<(String, seq<String>)> := [
    ("Soup", ["suppe", "soup"]),
    ("Salad", ["salat", "salad"]),
    ("Dessert", ["dessert", "obst"])
  ]

  /** The first category, in chain order, with a keyword in the lower-cased text; `Main Dish` otherwise. */
  function DetermineCategory(text: String): String
  {
    Classify(Lower(text), CategoryTable, "Main Dish")
  }

  /** The category is one of the three chain entries or `Main Dish`: there is no Vegetarian category. */
  lemma CategoryAmong(text: String)
    ensures DetermineCategory(text) in ["Soup", "Salad", "Dessert", "Main Dish"]
  {
    ClassifyIn(Lower(text), CategoryTable, "Main Dish");
    assert Labels(CategoryTable, "Main Dish") == ["Soup", "Salad", "Dessert", "Main Dish"];
  }

  // ---------------------------------------------------------------------
  // _clean_description

  /** `Menü:` and `Menu:` removed, the ü/ö/ä mojibake repaired, whitespace collapsed. */
  function CleanDescription(text: String): (r: String)
  {
    var t := Replace(Replace(text, "Menü:", ""), "Menu:", "");
    var u := Replace(Replace(Replace(t, "Ã¼", "ü"), "Ã¶", "ö"), "Ã¤", "ä");
    Collapse(u)
  }

  /** The cleaned description has single spaces between words and none at its ends. */
  lemma CleanNormalized(text: String)
    ensures Normalized(CleanDescription(text))
  {
    var t := Replace(Replace(text, "Menü:", ""), "Menu:", "");
    CollapseNormalized(Replace(Replace(Replace(t, "Ã¼", "ü"), "Ã¶", "ö"), "Ã¤", "ä"));
  }

  /** Every character of the result comes from the text, or is a repaired umlaut or the joining space. */
  lemma CleanChars(text: String)
    ensures forall c :: c in CleanDescription(text) ==> c in text || c in "üöä "
  {
    var t := Replace(Replace(text, "Menü:", ""), "Menu:", "");
    var u := Replace(Replace(Replace(t, "Ã¼", "ü"), "Ã¶", "ö"), "Ã¤", "ä");
    CollapseChars(u);
  }

  /** Text with no `M` and no `Ã` has nothing to remove or repair: cleaning only collapses whitespace. */
  lemma CleanPlain(text: String)
    requires 'M' !in text && 'Ã' !in text
    ensures CleanDescription(text) == Collapse(text)
  {
    ReplaceMissing(text, "Menü:", "");
    ReplaceMissing(text, "Menu:", "");
    ReplaceMissing(text, "Ã¼", "ü");
    ReplaceMissing(text, "Ã¶", "ö");
    ReplaceMissing(text, "Ã¤", "ä");
  }

  // ---------------------------------------------------------------------
  // _extract_price

  /** `€ ` and the group of `€\s*(\d+[,.]?\d*)`, separator unchanged; `""` when it does not match. */
  function ExtractPrice(text: String): (r: String)
  {
    match Search(text, Lead(["€"]))
    case Some(m) => "€ " + Group(text, m)
    case None => ""
  }

  /** A price is found exactly when the pattern matches, and it is then `€ ` and a number. */
  lemma ExtractPriceShape(text: String)
    ensures ExtractPrice(text) == "" <==> Search(text, Lead(["€"])).None?
    ensures var r := ExtractPrice(text); r != "" ==> |r| > 2 && r[..2] == "€ " && Number(r[2..])
  {
    if Search(text, Lead(["€"])).Some? {
      var m := Search(text, Lead(["€"])).value;
      SearchFound(text, 0, Lead(["€"]));
      GroupIsNumber(text, m.start, Lead(["€"]));
      var r := "€ " + Group(text, m);
      assert r[..2] == "€ " && r[2..] == Group(text, m);
    }
  }

  /** A price as the scraper writes it is read back as itself. */
  lemma ExtractPriceRoundTrip(g: String)
    requires Number(g)
    ensures ExtractPrice("€ " + g) == "€ " + g
  {
    EuroLeadWhole(g);
  }

  // ---------------------------------------------------------------------
  // _parse_weekday_to_date

  /** The keys of the weekday table in its order: the English names, then the German ones; name `k` is day `k % 7`. */
  const WeekdayNames: seq<String> := EnglishDayNames + GermanDayNames

  /**
   * The first weekday name in the lower-cased text moves `today` to that day
   * of its Monday-to-Sunday week, which may lie in the past; without one,
   * `today`. The move raises `OverflowError` when the day lies past
   * `date.max`.
   */
  function ParseWeekdayToDate(text: String, today: Date): (r: Result<Date>)
    requires Constructible(today)
  {
    match FirstIn(Lower(text), WeekdayNames)
    case Some(k) => DayInWeek(today, k % 7)
    case None => Ok(today)
  }

  /**
   * A named weekday gives the day of today's week that falls on it: the same
   * Monday, and the named weekday; it raises exactly when that day lies past
   * `date.max`, so only in the last week before it. Without a name the date
   * is today.
   */
  lemma WeekdayToDateFacts(text: String, today: Date)
    requires Constructible(today)
    ensures var r := ParseWeekdayToDate(text, today);
      match FirstIn(Lower(text), WeekdayNames)
      case Some(k) =>
        && (r.Ok? ==> Weekday(r.value) == k % 7 && Ord(r.value) - Weekday(r.value) == Ord(today) - Weekday(today))
        && (r.Raised? <==> Ord(today) - Weekday(today) + k % 7 > MaxOrdinal)
      case None => r.Ok? && r.value == today
    ensures var r := ParseWeekdayToDate(text, today);
      (r.Ok? ==> Constructible(r.value)) && (r.Raised? ==> Ord(today) > MaxOrdinal - 6)
  {
    match FirstIn(Lower(text), WeekdayNames)
    case Some(k) => assert ParseWeekdayToDate(text, today) == DayInWeek(today, k % 7);
    case None =>
  }

  /** On `date.max`, a Friday, `sunday` names the day two days on: Python raises `OverflowError`. */
  lemma WeekdayOverflow()
    ensures ParseWeekdayToDate("sunday", MaxDate) == Raised
  {
    MaxDateFacts();
    assert Lower("sunday") == "sunday";
    SundayFound();
    assert ParseWeekdayToDate("sunday", MaxDate) == DayInWeek(MaxDate, 6);
  }

  /** `sunday` is the first weekday name found in `sunday`: none of the six before it occurs there. */
  lemma SundayFound()
    ensures FirstIn("sunday", WeekdayNames) == Some(6)
  {
    var t: String := "sunday";
    forall i: nat | i <= |t|
      ensures !OccursAt(t, "monday", i) && !OccursAt(t, "friday", i)
    {
      if i == 0 {
        assert t[0] != "monday"[0] && t[0] != "friday"[0];
      }
    }
    assert OccursAt(t, "sunday", 0);
    var names := WeekdayNames;
    assert names[6..][0] == "sunday";
    assert FirstIn(t, names[6..]) == Some(0);
    assert names[5..][1..] == names[6..];
    assert FirstIn(t, names[5..]) == Some(1);
    assert names[4..][1..] == names[5..];
    assert FirstIn(t, names[4..]) == Some(2);
    assert names[3..][1..] == names[4..];
    assert FirstIn(t, names[3..]) == Some(3);
    assert names[2..][1..] == names[3..];
    assert FirstIn(t, names[2..]) == Some(4);
    assert names[1..][1..] == names[2..];
    assert FirstIn(t, names[1..]) == Some(5);
  }
}
