/**
 * The field normalisers and the fallback line parser of
 * `erste_campus_iframe_scraper.py`: price extraction, description cleaning,
 * the category table, the header and date tests, date parsing, and the
 * `_alternative_parsing` walk over the page's lines.
 */
module ErsteIframe {
  import opened Wrappers
  import opened Text
  import opened Dates
  import opened Menu
  import opened Keywords
  import opened Patterns
  import opened Decimals
  import opened DateFormats
  import opened LooseDates
  import opened ErsteText

  // ---------------------------------------------------------------------
  // _extract_price

  /** `[€]\s*(\d+[,.]?\d*)`, then `(\d+[,.]?\d*)\s*[€]`, then `EUR\s*(\d+[,.]?\d*)`. */
  const PricePatterns: seq<Pattern> := [Lead(["€"]), Trail(["€"]), Lead(["EUR"])]

  /** The group of the first pattern that matches, with `,` made `.`, after `€ `; `""` when none matches. */
  function ExtractPrice(text: String): (r: String)
  {
    match FirstGroup(text, PricePatterns)
    case Some(g) => "€ " + Replace(g, ",", ".")
    case None => ""
  }

  /** A price as `_extract_price` writes it: `€ `, then a number whose separator is a point. */
  predicate PointPrice(r: String)
  {
    |r| > 2 && r[..2] == "€ " && Number(r[2..]) && ',' !in r[2..]
  }

  /** Making the separator a point keeps a number a number, and leaves no comma. */
  lemma PointNumber(g: String)
    requires Number(g)
    ensures Number(Replace(g, ",", ".")) && ',' !in Replace(g, ",", ".")
  {
    var k :| 0 < k <= |g| && AllDigits(g[..k]) && (k == |g| || (IsSep(g[k]) && AllDigits(g[k + 1..])));
    DigitsNoComma(g[..k]);
    if k == |g| {
      assert g[..k] == g;
      ReplaceCharAbsent(g, ',', ".");
    } else {
      var a := g[..k];
      var b := g[k + 1..];
      DigitsNoComma(b);
      assert g == a + [g[k]] + b;
      ReplaceSeparator(a, g[k], b);
      var r := a + "." + b;
      assert r[..k] == a && r[k] == '.' && r[k + 1..] == b;
    }
  }

  /** A price is found exactly when one of the three patterns matches, and it is then a point price. */
  lemma ExtractPriceShape(text: String)
    ensures ExtractPrice(text) == "" <==> forall k :: 0 <= k < 3 ==> Search(text, PricePatterns[k]).None?
    ensures ExtractPrice(text) != "" ==> PointPrice(ExtractPrice(text))
  {
    FirstGroupFacts(text, PricePatterns);
    if FirstGroup(text, PricePatterns).Some? {
      FirstGroupNumber(text, PricePatterns);
      var g := FirstGroup(text, PricePatterns).value;
      PointNumber(g);
      var r := "€ " + Replace(g, ",", ".");
      assert r[..2] == "€ " && r[2..] == Replace(g, ",", ".");
    }
  }

  /** Extracting from an extracted price gives it back. */
  lemma ExtractPriceIdempotent(text: String)
    ensures ExtractPrice(ExtractPrice(text)) == ExtractPrice(text)
  {
    ExtractPriceShape(text);
    var r := ExtractPrice(text);
    if r != "" {
      ExtractPricePoint(r);
    } else {
      NothingInEmpty(PricePatterns[0]);
      NothingInEmpty(PricePatterns[1]);
      NothingInEmpty(PricePatterns[2]);
    }
  }

  /** No pattern matches the empty text. */
  lemma NothingInEmpty(pat: Pattern)
    ensures Search("", pat).None?
  {
    assert MatchAt("", 0, pat).None?;
  }

  /** A point price is read back as itself, through the first pattern at its start. */
  lemma ExtractPricePoint(r: String)
    requires PointPrice(r)
    ensures ExtractPrice(r) == r
  {
    var g := r[2..];
    assert r == "€ " + g;
    EuroLeadWhole(g);
    ReplaceCharAbsent(g, ',', ".");
  }

  // ---------------------------------------------------------------------
  // _clean_description

  /** `[€$]`: the signs whose amounts are removed. */
  const Signs: seq<String> := ["€", "$"]

  /**
   * `re.sub(r'\s*\(.*?\)\s*$', '', s)` on text without line breaks. The
   * pattern matches where the text, before its trailing whitespace, ends
   * with `)` and holds a `(` before it; the leftmost match starts at the
   * whitespace before the FIRST `(`, so everything from there is removed.
   */
  function DropParen(s: String): (r: String)
  {
    var e := |StripRight(s)|;
    match FindChar(s, '(')
    case Some(i) => if i + 1 < e && s[e - 1] == ')' then StripRight(s[..i]) else s
    case None => s
  }

  /** The parenthesis removal the comment `Remove parenthetical info at end` describes: from the LAST `(` before the closing `)`. */
  function DropLastParen(s: String): (r: String)
  {
    var e := |StripRight(s)|;
    if e > 0 && s[e - 1] == ')' then
      match RFindChar(s[..e - 1], '(')
      case Some(i) => StripRight(s[..i])
      case None => s
    else s
  }

  /** The removal keeps a prefix of the text. */
  lemma DropParenPrefix(s: String)
    ensures |DropParen(s)| <= |s| && DropParen(s) == s[..|DropParen(s)|]
  {
    match FindChar(s, '(')
    case Some(i) =>
      StripRightFacts(s[..i]);
      assert s == s[..|s|];
    case None =>
      assert s == s[..|s|];
  }

  /** `_clean_description`: amounts removed on either side of the sign, whitespace squeezed, a trailing parenthetical removed, stripped. */
  function CleanDescription(text: String): String
  {
    Strip(DropParen(Squeeze(Remove(Remove(text, Lead(Signs)), Trail(Signs)))))
  }

  /** The cleaned description has single spaces between words and none at its ends. */
  lemma CleanNormalized(text: String)
    ensures Normalized(CleanDescription(text))
  {
    var q := Squeeze(Remove(Remove(text, Lead(Signs)), Trail(Signs)));
    SqueezeFacts(Remove(Remove(text, Lead(Signs)), Trail(Signs)));
    DropParenPrefix(q);
    SqueezedPrefix(q, |DropParen(q)|);
    StripSqueezed(DropParen(q));
  }

  /** Text with trailing whitespace strips as the text. */
  lemma {:induction false} StripRightSpace(a: String, b: String)
    requires forall i :: 0 <= i < |b| ==> IsSpace(b[i])
    ensures StripRight(a + b) == StripRight(a)
    decreases |b|
  {
    if b != [] {
      var c := b[..|b| - 1];
      assert (a + b)[..|a + b| - 1] == a + c;
      StripRightSpace(a, c);
    } else {
      assert a + b == a;
    }
  }

  /** The intended removal: only the final parenthetical goes, whatever precedes it. */
  lemma DropLastParenFinal(a: String, b: String)
    requires '(' !in b
    ensures DropLastParen(a + " (" + b + ")") == StripRight(a)
  {
    var x := a + " (";
    var t := x + b;
    var s := t + ")";
    assert StripRight(s) == s;
    assert s[..|s| - 1] == t;
    LastCharFound(x, b, '(');
    assert s[..|x| - 1] == a + " " by {
      assert t[..|x| - 1] == x[..|x| - 1];
    }
    StripRightSpace(a, " ");
  }

  /** The last `c` of text that ends with `c` and goes on without one. */
  lemma {:induction false} LastCharFound(x: String, b: String, c: char)
    requires x != [] && x[|x| - 1] == c && c !in b
    ensures RFindChar(x + b, c) == Some(|x| - 1)
    decreases |b|
  {
    if b == [] {
      assert x + b == x;
    } else {
      var b' := b[..|b| - 1];
      assert (x + b)[|x + b| - 1] == b[|b| - 1];
      assert (x + b)[..|x + b| - 1] == x + b';
      LastCharFound(x, b', c);
    }
  }

  /** The removal as written goes back to the first `(`: `a (b) c (d)` keeps only `a`. */
  lemma DropParenFirst()
    ensures DropParen("a (b) c (d)") == "a"
    ensures DropLastParen("a (b) c (d)") == "a (b) c"
  {
    var s := "a (b) c (d)";
    assert StripRight(s) == s;
    assert FindChar(s, '(') == Some(2) by {
      assert s[2] == '(' && s[..2] == "a ";
    }
    assert s[..2] == "a " && StripRight("a ") == "a" by {
      assert "a "[..1] == "a";
    }
    DropLastParenFinal("a (b) c", "d");
    assert s == "a (b) c" + " (" + "d" + ")";
    assert StripRight("a (b) c") == "a (b) c";
  }

  // ---------------------------------------------------------------------
  // _determine_category

  const CategoryTable: seq<(String, seq<String>)> := [
    ("Soup", ["suppe", "soup", "brühe", "broth"]),
    ("Salad", ["salat", "salad"]),
    ("Vegetarian", ["vegetarisch", "vegetarian", "vegan", "veggie"]),
    ("Fish", ["fisch", "fish", "lachs", "salmon"]),
    ("Dessert", ["dessert", "sweet", "kuchen", "cake", "eis", "ice cream"])
  ]

  /** The first category, in table order, with a keyword in the lower-cased text; `Main Dish` otherwise. */
  function DetermineCategory(text: String): String
  {
    Classify(Lower(text), CategoryTable, "Main Dish")
  }

  /** The category is one of the five table entries or `Main Dish`. */
  lemma CategoryAmong(text: String)
    ensures DetermineCategory(text) in ["Soup", "Salad", "Vegetarian", "Fish", "Dessert", "Main Dish"]
  {
    ClassifyIn(Lower(text), CategoryTable, "Main Dish");
    assert Labels(CategoryTable, "Main Dish") == ["Soup", "Salad", "Vegetarian", "Fish", "Dessert", "Main Dish"];
  }

  /** `eis` matches inside a word: `reis` (rice) is classified as a dessert. */
  lemma RiceIsDessert()
    ensures DetermineCategory("reis") == "Dessert"
  {
    var t := "reis";
    assert Lower(t) == t by { LowerOfLower(t); }
    assert OccursAt(t, "eis", 1) by { assert t[1..4] == "eis"; }
    assert AnyIn(t, CategoryTable[4].1) by { assert CategoryTable[4].1[4] == "eis"; }
    NoneOf(t, CategoryTable[0].1);
    NoneOf(t, CategoryTable[1].1);
    NoneOf(t, CategoryTable[2].1);
    NoneOf(t, CategoryTable[3].1);
    ClassifyFirst(t, CategoryTable, "Main Dish", 4);
  }

  /** None of the words occurs in `reis`: each is longer, or as long and different. */
  lemma NoneOf(t: String, words: seq<String>)
    requires t == "reis"
    requires forall k :: 0 <= k < |words| ==> |words[k]| > 4 || (|words[k]| == 4 && words[k] != t)
    ensures !AnyIn(t, words)
  {
    forall k | 0 <= k < |words|
      ensures !Contains(t, words[k])
    {
      if |words[k]| > 4 {
        TooLong(t, words[k]);
      } else {
        SameLength(t, words[k]);
      }
    }
  }

  // ---------------------------------------------------------------------
  // _is_header_text, _is_date_text, _parse_date_text

  const HeaderWords: seq<String> := ["menu", "speisekarte", "woche", "week", "öffnungszeiten",
                                     "opening", "hours", "kantine", "restaurant", "erste campus"]

  /** A header keyword in the lower-cased text, and fewer than 50 characters. */
  predicate IsHeaderText(text: String)
  {
    AnyIn(Lower(text), HeaderWords) && |text| < 50
  }

  /** The loose or ISO date pattern, or a weekday name, in the lower-cased text. */
  predicate IsDateText(text: String)
  {
    var lower := Lower(text);
    LooseFind(lower, 0).Some? || LooseDates.IsoFrom(lower, 0) || AnyIn(lower, EnglishDayNames) || AnyIn(lower, GermanDayNames)
  }

  /** `%d.%m.%Y`, `%d. %m. %Y`, `%d/%m/%Y`, `%Y-%m-%d`, in the order tried. */
  const TextFormats: seq<seq<Directive>> := [DotFormat, DotGapFormat, SlashFormat, IsoFormat]

  /**
   * The first format that parses the stripped text; else the leftmost loose
   * match in the text, as `date(year, month, day)`; `None` when neither
   * gives a date that exists.
   */
  function ParseDateText(text: String): (r: Option<Date>)
    ensures r.Some? ==> Constructible(r.value)
  {
    match FirstFormat(Strip(text), TextFormats)
    case Some(d) => Some(d)
    case None =>
      match LooseFind(text, 0)
      case Some(q) =>
        LooseFindFacts(text, 0);
        LooseAtShape(text, q);
        LooseDate(LooseAt(text, q).value)
      case None => None
  }

  /** A date written `%d.%m.%Y` is date text: the loose pattern matches it. */
  lemma DotIsDateText(d: Date)
    requires Constructible(d)
    ensures IsDateText(Render(d, DotFormat))
  {
    var r := Render(d, DotFormat);
    DotChars(d);
    assert Lower(r) == r by {
      LowerOfLower(r);
    }
    assert LooseFind(r, 0).Some? by {
      LooseFinds(r, 2, 3, 5, 6);
    }
  }

  /** A date written `%d.%m.%Y` parses back as itself, through the first format. */
  lemma DotParses(d: Date)
    requires Constructible(d)
    ensures ParseDateText(Render(d, DotFormat)) == Some(d)
  {
    var r := Render(d, DotFormat);
    assert Strip(r) == r by {
      DotChars(d);
      StrippedFixed(r);
    }
    assert Strptime(r, DotFormat) == Some(d) by {
      FormatsComplete();
      StrptimeRoundTrip(d, DotFormat);
    }
    assert FirstFormat(r, TextFormats) == Some(d);
  }

  // ---------------------------------------------------------------------
  // _alternative_parsing

  /** The walk's state: the items so far and `current_date`. */
  datatype Walk = Walk(items: seq<MenuItem>, current: Option<Date>)

  /** The item a line makes under a date. */
  function Item(date: Date, line: String): MenuItem
  {
    MenuItem(date, DetermineCategory(line), CleanDescription(line), Some(ExtractPrice(line)))
  }

  /** Line `i` is long enough, not a header, and not a repeat of the line before it. */
  predicate Emits(lines: seq<String>, i: nat)
    requires i < |lines|
  {
    |lines[i]| > 15 && !IsHeaderText(lines[i]) && !(i > 0 && lines[i - 1] == lines[i])
  }

  /** What the walk sees in a line: date text and the date it parses to, or a line that may make an item. */
  datatype Line = DateLine(date: Option<Date>) | TextLine(text: String, emits: bool)

  /** How the walk reads line `i`. */
  function ReadLine(lines: seq<String>, i: nat): Line
    requires i < |lines|
  {
    if IsDateText(lines[i]) then DateLine(ParseDateText(lines[i])) else TextLine(lines[i], Emits(lines, i))
  }

  /** The lines as the walk reads them, one to one. */
  function Kinds(lines: seq<String>): (r: seq<Line>)
    ensures |r| == |lines| && forall i :: 0 <= i < |lines| ==> r[i] == ReadLine(lines, i)
  {
    seq(|lines|, i requires 0 <= i < |lines| => ReadLine(lines, i))
  }

  /** One line of the walk: a date line sets the current date (to `None` when it does not parse); any other line may make an item. */
  function StepLine(k: Line, w: Walk): Walk
  {
    match k
    case DateLine(d) => Walk(w.items, d)
    case TextLine(text, emits) =>
      if w.current.Some? && emits then Walk(w.items + [Item(w.current.value, text)], w.current) else w
  }

  /** The walk over the first `n` lines. */
  function WalkUpTo(kinds: seq<Line>, n: nat): Walk
    requires n <= |kinds|
  {
    if n == 0 then Walk([], None) else StepLine(kinds[n - 1], WalkUpTo(kinds, n - 1))
  }

  /** One more line of the walk: a date line sets the date; another line adds its item when there is a date and it emits. */
  lemma WalkStep(lines: seq<String>, i: nat)
    requires i < |lines|
    ensures var w, w' := WalkUpTo(Kinds(lines), i), WalkUpTo(Kinds(lines), i + 1);
      w' == if IsDateText(lines[i]) then Walk(w.items, ParseDateText(lines[i]))
        else if w.current.Some? && Emits(lines, i) then Walk(w.items + [Item(w.current.value, lines[i])], w.current)
        else w
  {
    assert Kinds(lines)[i] == ReadLine(lines, i);
  }

  /** `_alternative_parsing` over the text of the page. */
  method AlternativeParsing(allText: String) returns (items: seq<MenuItem>)
    ensures var kinds := Kinds(BodyLines(allText)); items == WalkUpTo(kinds, |kinds|).items
  {
    var lines := BodyLines(allText);
    items := WalkLines(lines);
  }

  /** The loop of `_alternative_parsing` over the page's lines. */
  method WalkLines(lines: seq<String>) returns (items: seq<MenuItem>)
    ensures items == WalkUpTo(Kinds(lines), |lines|).items
  {
    ghost var kinds := Kinds(lines);
    items := [];
    var current: Option<Date> := None;
    for i := 0 to |lines|
      invariant Walk(items, current) == WalkUpTo(kinds, i)
    {
      items, current := ReadStep(lines, i, items, current);
    }
  }

  /** The body of the loop for line `i`: a date line sets `current_date`; another line may append its item. */
  method ReadStep(lines: seq<String>, i: nat, items: seq<MenuItem>, current: Option<Date>)
    returns (items': seq<MenuItem>, current': Option<Date>)
    requires i < |lines|
    ensures Walk(items', current') == StepLine(ReadLine(lines, i), Walk(items, current))
  {
    items', current' := items, current;
    var line := lines[i];
    if IsDateText(line) {
      current' := ParseDateText(line);
    } else if current.Some? && |line| > 15 && !IsHeaderText(line) {
      if i > 0 && lines[i - 1] == line {
        return;
      }
      items' := items + [Item(current.value, line)];
    }
  }

  /** Item `it` comes from the text line `i`, under the date of the date line `j` before it. */
  predicate MadeFrom(kinds: seq<Line>, it: MenuItem, j: nat, i: nat)
    requires j < i < |kinds|
  {
    kinds[j] == DateLine(Some(it.menuDate))
    && kinds[i].TextLine? && kinds[i].emits && it == Item(it.menuDate, kinds[i].text)
  }

  /** The current date is that of some earlier date line. */
  lemma {:induction false} CurrentFromDateLine(kinds: seq<Line>, n: nat)
    requires n <= |kinds| && WalkUpTo(kinds, n).current.Some?
    ensures exists j :: 0 <= j < n && kinds[j] == DateLine(WalkUpTo(kinds, n).current)
  {
    if !kinds[n - 1].DateLine? {
      CurrentFromDateLine(kinds, n - 1);
    }
  }

  /** Item `it` comes from some text line before line `n` under the date of a date line before that. */
  predicate Traced(kinds: seq<Line>, it: MenuItem, n: nat)
    requires n <= |kinds|
  {
    exists j, i :: 0 <= j < i < n && MadeFrom(kinds, it, j, i)
  }

  /**
   * Every item comes from a line that is neither date text, nor a header, nor
   * a repeat of the line before it, nor 15 characters or shorter, under the
   * date of an earlier date line.
   */
  lemma {:induction false} ItemsFromLines(kinds: seq<Line>, n: nat)
    requires n <= |kinds|
    ensures forall k :: 0 <= k < |WalkUpTo(kinds, n).items| ==> Traced(kinds, WalkUpTo(kinds, n).items[k], n)
  {
    if n > 0 {
      ItemsFromLines(kinds, n - 1);
      var w := WalkUpTo(kinds, n - 1);
      var items := WalkUpTo(kinds, n).items;
      forall k | 0 <= k < |items|
        ensures Traced(kinds, items[k], n)
      {
        if k < |w.items| {
          assert Traced(kinds, w.items[k], n - 1);
          var j, i :| 0 <= j < i < n - 1 && MadeFrom(kinds, w.items[k], j, i);
          assert items[k] == w.items[k];
          assert MadeFrom(kinds, items[k], j, i);
        } else {
          CurrentFromDateLine(kinds, n - 1);
          var j :| 0 <= j < n - 1 && kinds[j] == DateLine(w.current);
          assert MadeFrom(kinds, items[k], j, n - 1);
        }
      }
    }
  }

  /** Before the first date line there is no current date, so no item. */
  lemma {:induction false} NoDateNoItems(kinds: seq<Line>, n: nat)
    requires n <= |kinds| && forall j :: 0 <= j < n ==> kinds[j].TextLine?
    ensures WalkUpTo(kinds, n) == Walk([], None)
  {
    if n > 0 {
      NoDateNoItems(kinds, n - 1);
    }
  }

  /** At most one item per line. */
  lemma {:induction false} ItemsBound(kinds: seq<Line>, n: nat)
    requires n <= |kinds|
    ensures |WalkUpTo(kinds, n).items| <= n
  {
    if n > 0 {
      ItemsBound(kinds, n - 1);
    }
  }
}
