/**
 * The field normalisers of `erste_campus_advanced_scraper.py`: price
 * extraction, description cleaning, the category chain, the date test and
 * date parsing with its regular-expression fallback.
 */
module ErsteAdvanced {
  import opened Wrappers
  import opened Text
  import opened Dates
  import opened Keywords
  import opened Patterns
  import opened DateFormats
  import opened LooseDates

  // ---------------------------------------------------------------------
  // _extract_price

  /** `€\s*(\d+[,.]?\d*)`, then `(\d+[,.]?\d*)\s*€`. */
  const PricePatterns: seq<Pattern> := [Lead(["€"]), Trail(["€"])]

  /** `€ ` and the group of the first pattern that matches, separator unchanged; `""` when neither matches. */
  function ExtractPrice(text: String): (r: String)
  {
    match FirstGroup(text, PricePatterns)
    case Some(g) => "€ " + g
    case None => ""
  }

  /** A price is found exactly when one of the two patterns matches, and it is then `€ ` and a number. */
  lemma ExtractPriceShape(text: String)
    ensures ExtractPrice(text) == "" <==> Search(text, PricePatterns[0]).None? && Search(text, PricePatterns[1]).None?
    ensures var r := ExtractPrice(text); r != "" ==> |r| > 2 && r[..2] == "€ " && Number(r[2..])
  {
    FirstGroupFacts(text, PricePatterns);
    if FirstGroup(text, PricePatterns).Some? {
      FirstGroupNumber(text, PricePatterns);
      var g := FirstGroup(text, PricePatterns).value;
      var r := "€ " + g;
      assert r[..2] == "€ " && r[2..] == g;
    }
  }

  /** A price as the scraper writes it is read back as itself. */
  lemma ExtractPriceRoundTrip(g: String)
    requires Number(g)
    ensures ExtractPrice("€ " + g) == "€ " + g
  {
    EuroLeadWhole(g);
  }

  // ---------------------------------------------------------------------
  // _clean_description

  /** Amounts removed after and before `€`, whitespace collapsed and stripped. */
  function CleanDescription(text: String): String
  {
    Collapse(Remove(Remove(text, Lead(["€"])), Trail(["€"])))
  }

  /** The cleaned description has single spaces between words and none at its ends. */
  lemma CleanNormalized(text: String)
    ensures Normalized(CleanDescription(text))
  {
    CollapseNormalized(Remove(Remove(text, Lead(["€"])), Trail(["€"])));
  }

  /** Without a `€` there is no amount to remove: cleaning only collapses whitespace. */
  lemma CleanWithoutEuro(text: String)
    requires !Contains(text, "€")
    ensures CleanDescription(text) == Collapse(text)
  {
    NoAnchorNoMatch(text, Lead(["€"]));
    RemoveNothing(text, Lead(["€"]));
    NoAnchorNoMatch(text, Trail(["€"]));
    RemoveNothing(text, Trail(["€"]));
  }

  // ---------------------------------------------------------------------
  // _determine_category

  const CategoryTable: seq<(String, seq<String>)> := [
    ("Soup", ["suppe", "soup"]),
    ("Salad", ["salat", "salad"]),
    ("Dessert", ["dessert", "sweet", "kuchen"]),
    ("Vegetarian", ["vegetarisch", "vegetarian", "vegan"])
  ]

  /** The first category, in chain order, with a keyword in the lower-cased text; `Main Dish` otherwise. */
  function DetermineCategory(text: String): String
  {
    Classify(Lower(text), CategoryTable, "Main Dish")
  }

  /** The category is one of the four chain entries or `Main Dish`. */
  lemma CategoryAmong(text: String)
    ensures DetermineCategory(text) in ["Soup", "Salad", "Dessert", "Vegetarian", "Main Dish"]
  {
    ClassifyIn(Lower(text), CategoryTable, "Main Dish");
    assert Labels(CategoryTable, "Main Dish") == ["Soup", "Salad", "Dessert", "Vegetarian", "Main Dish"];
  }

  /** Dessert is tested before Vegetarian: a vegan cake is a dessert. */
  lemma VeganCakeIsDessert()
    ensures DetermineCategory("vegan kuchen") == "Dessert"
  {
    VeganCakeLower();
    VeganCakeClassified();
  }

  /** `vegan kuchen` is already lower case. */
  lemma VeganCakeLower()
    ensures Lower("vegan kuchen") == "vegan kuchen"
  {
    var t := "vegan kuchen";
    assert forall i :: 0 <= i < |t| ==> !IsUpperChar(t[i]);
    LowerOfLower(t);
  }

  /** In `vegan kuchen` neither soup nor salad words occur, and `kuchen` does. */
  lemma VeganCakeClassified()
    ensures Classify("vegan kuchen", CategoryTable, "Main Dish") == "Dessert"
  {
    var t := "vegan kuchen";
    assert !AnyIn(t, CategoryTable[0].1) by {
      NoneStartWith(t, CategoryTable[0].1, 's');
    }
    assert !AnyIn(t, CategoryTable[1].1) by {
      NoneStartWith(t, CategoryTable[1].1, 's');
    }
    assert AnyIn(t, CategoryTable[2].1) by {
      assert OccursAt(t, "kuchen", 6);
      assert CategoryTable[2].1[2] == "kuchen";
    }
    ClassifyFirst(t, CategoryTable, "Main Dish", 2);
  }

  // ---------------------------------------------------------------------
  // _is_date, _parse_date

  /** `\d{1,2}[.\s/]+\d{1,2}[.\s/]+\d{4}` occurs somewhere in the text. */
  predicate IsDate(text: String)
  {
    LooseFind(text, 0).Some?
  }

  /** The test holds exactly when the pattern matches at some position. */
  lemma IsDateMeans(text: String)
    ensures IsDate(text) <==> exists q :: 0 <= q <= |text| && LooseAt(text, q).Some?
  {
    LooseFindFacts(text, 0);
  }

  /** `%d.%m.%Y`, `%d. %m. %Y`, `%d/%m/%Y`, `%Y-%m-%d`, `%d %B %Y`, `%B %d, %Y`, in the order tried. */
  const DateFormatsTried: seq<seq<Directive>> :=
    [DotFormat, DotGapFormat, SlashFormat, IsoFormat, DayNameFormat, NameDayFormat]

  /**
   * The first format that parses the stripped text; else the groups of the
   * leftmost loose match, joined with `.` and parsed as `%d.%m.%Y`; else
   * `None`.
   */
  function ParseDate(text: String): (r: Option<Date>)
    ensures r.Some? ==> Constructible(r.value)
  {
    match FirstFormat(Strip(text), DateFormatsTried)
    case Some(d) => Some(d)
    case None =>
      match LooseSearch(text)
      case Some(g) => Strptime(g.day + "." + g.month + "." + g.year, DotFormat)
      case None => None
  }

  /**
   * The fallback reads the groups of a loose match as the iframe scraper's
   * `date(int(year), int(month), int(day))` does: the same date, or an
   * error in both.
   */
  lemma FallbackAgrees(g: Loose)
    requires LooseShape(g)
    ensures Strptime(g.day + "." + g.month + "." + g.year, DotFormat) == LooseDate(g)
  {
    var s := g.day + "." + g.month + "." + g.year;
    var a := |g.day|;
    var c: nat := a + 1 + |g.month|;
    assert s[..a] == g.day && s[a + 1..c] == g.month && s[c + 1..] == g.year;
    assert forall i :: 0 <= i < a ==> s[i] == g.day[i];
    assert forall i :: a + 1 <= i < c ==> s[i] == g.month[i - a - 1];
    assert forall i :: c + 1 <= i < |s| ==> s[i] == g.year[i - c - 1];
    DotJoinedMatch(s, a, c);
  }

  /** Parsing `%d.%m.%Y` reads a day run, a month run and a four-digit year, and fails when a field is out of range. */
  lemma DotJoinedMatch(s: String, a: nat, c: nat)
    requires 0 < a <= 2 && a + 1 < c <= a + 3 && |s| == c + 5
    requires DigitRun(s, 0, a) && s[a] == '.' && DigitRun(s, a + 1, c) && s[c] == '.' && DigitRun(s, c + 1, c + 5)
    ensures var dd, mm := DigitsValue(s[..a]), DigitsValue(s[a + 1..c]);
      MatchFrom(s, 0, DotFormat, Defaults)
      == if 1 <= dd <= 31 && 1 <= mm <= 12 then Some(Fields(dd, mm, DigitsValue(s[c + 1..]))) else None
  {
    var dd := DigitsValue(s[..a]);
    var f1 := Defaults.(day := dd);
    DotDayStep(s, a);
    if 1 <= dd <= 31 {
      StepMatch(s, 0, DotFormat, Defaults, a, f1);
      LitStep(s, a, f1, '.');
      assert DotFormat[1..][0] == Lit('.') && DotFormat[1..][1..] == DotFormat[2..];
      StepMatch(s, a, DotFormat[1..], f1, a + 1, f1);
      DotMonthRest(s, a, c, f1);
    }
  }

  /** `%d` reads the run of one or two digits at the start, when its value is a day. */
  lemma DotDayStep(s: String, a: nat)
    requires 0 < a <= 2 && a < |s| && DigitRun(s, 0, a) && s[a] == '.'
    ensures var dd := DigitsValue(s[..a]);
      Step(s, 0, Day, Defaults) == if 1 <= dd <= 31 then Some((a, Defaults.(day := dd))) else None
  {
    DigitRunEndAt(s, 0, a);
  }

  /** `%m.%Y` read from `a + 1`: the month run, a point and four digits. */
  lemma DotMonthRest(s: String, a: nat, c: nat, f: Fields)
    requires a + 1 < c <= a + 3 && |s| == c + 5
    requires DigitRun(s, a + 1, c) && s[c] == '.' && DigitRun(s, c + 1, c + 5)
    ensures var mm := DigitsValue(s[a + 1..c]);
      MatchFrom(s, a + 1, DotFormat[2..], f)
      == if 1 <= mm <= 12 then Some(f.(month := mm, year := DigitsValue(s[c + 1..]))) else None
  {
    DigitRunEndAt(s, a + 1, c);
    var mm := DigitsValue(s[a + 1..c]);
    if 1 <= mm <= 12 {
      var f2 := f.(month := mm);
      var c1: nat := c + 1;
      assert Step(s, a + 1, Month, f) == Some((c, f2));
      assert s[c1..c1 + 4] == s[c + 1..];
      assert DotFormat[2..][1..] == DotFormat[3..] && DotFormat[3..][1..] == DotFormat[4..];
      assert MatchFrom(s, c1, DotFormat[4..], f2) == Some(f2.(year := DigitsValue(s[c + 1..])));
      assert MatchFrom(s, c, DotFormat[3..], f2) == MatchFrom(s, c1, DotFormat[4..], f2);
    }
  }

  /** A date written `%d.%m.%Y` parses back as itself, through the first format. */
  lemma DotParses(d: Date)
    requires Constructible(d)
    ensures ParseDate(Render(d, DotFormat)) == Some(d)
  {
    var r := Render(d, DotFormat);
    assert Strip(r) == r by {
      DotChars(d);
      StrippedFixed(r);
    }
    assert Strptime(r, DotFormat) == Some(d) by {
      FormatsComplete();
      StrptimeRoundTrip(d, DotFormat);
    }
    assert FirstFormat(r, DateFormatsTried) == Some(d);
  }
}
