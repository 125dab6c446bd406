/**
 * The "final" Erste Campus scraper: one day view of the page is cut into
 * dishes under the four category headers as in the production scraper,
 * but price lines open with the real euro sign, the length filter reads
 * the joined lines before they are cleaned, and the day's list is
 * deduplicated on the exact (category, description) pair. Its dishes carry
 * no date: the day view returns the date beside them.
 */
module ErsteFinal {
  import opened Wrappers
  import opened Text
  import opened Dates
  import opened ErsteText
  import opened Deduplication
  import opened Seqs
  import ErsteApp

  /** A dish of the day view: `{'category', 'description', 'price'}`. */
  datatype Dish = Dish(category: String, description: String, price: String)

  /** The table of `_normalize_category`: the production table with `DESSERT` added. */
  const CategoryNames: seq<(String, String)> :=
    [("SOUP", "Soup"), ("MAIN DISH", "Main Dish"), ("DESSERTS", "Dessert"), ("DESSERT", "Dessert"), ("SALAD", "Salad")]

  /** `_normalize_category`: the upper-cased text looked up, `Main Dish` by default. */
  function NormalizeCategory(text: String): (r: String)
    ensures r in ErsteApp.Categories
  {
    GetAmong(CategoryNames, Upper(text), "Main Dish", ErsteApp.Categories);
    Get(CategoryNames, Upper(text), "Main Dish")
  }

  /**
   * The table differs from the production one in the single key `DESSERT`:
   * every other text gets the same category from both.
   */
  lemma NormalizeAgrees(text: String)
    ensures Upper(text) != "DESSERT" ==> NormalizeCategory(text) == ErsteApp.NormalizeCategory(text)
    ensures Upper(text) == "DESSERT" ==> NormalizeCategory(text) == "Dessert" && ErsteApp.NormalizeCategory(text) == "Main Dish"
  {
    var a, b := ErsteApp.CategoryNames[..3], ErsteApp.CategoryNames[3..];
    assert CategoryNames == a + [("DESSERT", "Dessert")] + b;
    assert ErsteApp.CategoryNames == a + b;
    if Upper(text) != "DESSERT" {
      GetSkip(a, ("DESSERT", "Dessert"), b, Upper(text), "Main Dish");
    } else {
      var t := ErsteApp.CategoryNames;
      assert t[0].0 != "DESSERT" && t[1].0 != "DESSERT" && t[2].0 != "DESSERT" && t[3].0 != "DESSERT";
      assert Get(t[4..], "DESSERT", "Main Dish") == "Main Dish";
      assert Get(t[3..], "DESSERT", "Main Dish") == "Main Dish";
      assert Get(t[2..], "DESSERT", "Main Dish") == "Main Dish";
      assert Get(t[1..], "DESSERT", "Main Dish") == "Main Dish";
      assert CategoryNames[..3] + CategoryNames[3..] == CategoryNames;
      assert Get(CategoryNames[3..], "DESSERT", "Main Dish") == "Dessert";
      assert Get(CategoryNames[2..], "DESSERT", "Main Dish") == "Dessert";
      assert Get(CategoryNames[1..], "DESSERT", "Main Dish") == "Dessert";
    }
  }

  /**
   * The dish a piece becomes: it needs description lines whose joined text
   * has more than 10 characters before cleaning; the description is then the
   * cleaned text, which the filter never looks at.
   */
  function Emit(p: ErsteApp.Piece): (r: seq<Dish>)
    ensures |r| <= 1
  {
    if p.segment.lines == [] then []
    else
      var raw := Join(" ", p.segment.lines);
      if |raw| > 10 then [Dish(p.category, ErsteApp.CleanText(raw), p.segment.price)] else []
  }

  /** The dishes of a run of pieces, in order. */
  function Dishes(pieces: seq<ErsteApp.Piece>): seq<Dish>
  {
    FlatMap(Emit, pieces)
  }

  lemma DishesConcat(a: seq<ErsteApp.Piece>, b: seq<ErsteApp.Piece>)
    ensures Dishes(a + b) == Dishes(a) + Dishes(b)
  {
    FlatMapConcat(Emit, a, b);
  }

  lemma DishesAppend(a: seq<ErsteApp.Piece>, p: ErsteApp.Piece)
    ensures Dishes(a + [p]) == Dishes(a) + Emit(p)
  {
    FlatMapAppend(Emit, a, p);
  }

  /** The parsing loop from `i`, outside any category; price lines open with `€`. */
  function Outer(lines: seq<String>, i: nat): (r: seq<ErsteApp.Piece>)
    requires i <= |lines|
    decreases |lines| - i, 0
  {
    if i == |lines| then []
    else if IsHeader(lines[i]) then Inner(lines, i + 1, NormalizeCategory(lines[i]))
    else Outer(lines, i + 1)
  }

  /** The parsing loop from `i`, inside `category`. */
  function Inner(lines: seq<String>, i: nat, category: String): (r: seq<ErsteApp.Piece>)
    requires i <= |lines|
    decreases |lines| - i, 1
  {
    if i == |lines| then []
    else if IsHeader(lines[i]) then Outer(lines, i)
    else
      var s := ErsteApp.Cut(lines, i, Euro);
      [ErsteApp.Piece(category, s)] + Inner(lines, s.next, category)
  }

  /** The duplicate key: the exact category and description. */
  function DishKey(d: Dish): (String, String)
  {
    (d.category, d.description)
  }

  /**
   * What `_extract_current_day_menu` returns for the page text: the page
   * date with the deduplicated dishes, `None` when none remain or when the
   * header date raises.
   */
  function DayMenu(body: String, today: Date): (r: Option<(Date, seq<Dish>)>)
  {
    var lines := BodyLines(body);
    match HeaderDate(lines, today)
    case Raised => None
    case Ok(d) =>
      var unique := Dedup(Dishes(Outer(lines, 0)), DishKey);
      if unique == [] then None else Some((d, unique))
  }

  /** What a dish of this scraper looks like; its description may be short, since only the raw text was measured. */
  predicate WellFormed(x: Dish)
  {
    x.category in ErsteApp.Categories && Normalized(x.description) && (x.price == "" || PriceLineAfter(x.price, Euro))
  }

  predicate AllWellFormed(xs: seq<Dish>)
  {
    forall x :: x in xs ==> WellFormed(x)
  }

  predicate AllPiecesOk(ps: seq<ErsteApp.Piece>)
  {
    forall k :: 0 <= k < |ps| ==> ErsteApp.PieceOk(ps[k], Euro)
  }

  lemma PiecesCons(p: ErsteApp.Piece, r: seq<ErsteApp.Piece>)
    requires ErsteApp.PieceOk(p, Euro) && AllPiecesOk(r)
    ensures AllPiecesOk([p] + r)
  {
    assert forall k :: 0 < k < |[p] + r| ==> ([p] + r)[k] == r[k - 1];
  }

  /** Sound pieces become well-formed dishes. */
  lemma {:induction false} DishesWellFormed(pieces: seq<ErsteApp.Piece>)
    requires AllPiecesOk(pieces)
    ensures AllWellFormed(Dishes(pieces))
    decreases |pieces|
  {
    if pieces != [] {
      assert ErsteApp.PieceOk(pieces[0], Euro);
      DishesWellFormed(pieces[1..]);
    }
  }

  /** The walk puts every piece under a known category, with a price line or no price. */
  lemma {:induction false} OuterPiecesOk(lines: seq<String>, i: nat)
    requires i <= |lines|
    ensures AllPiecesOk(Outer(lines, i))
    decreases |lines| - i, 0
  {
    if i < |lines| {
      if IsHeader(lines[i]) {
        InnerPiecesOk(lines, i + 1, NormalizeCategory(lines[i]));
      } else {
        OuterPiecesOk(lines, i + 1);
      }
    }
  }

  lemma {:induction false} InnerPiecesOk(lines: seq<String>, i: nat, category: String)
    requires i <= |lines| && category in ErsteApp.Categories
    ensures AllPiecesOk(Inner(lines, i, category))
    decreases |lines| - i, 1
  {
    if i < |lines| {
      if IsHeader(lines[i]) {
        OuterPiecesOk(lines, i);
      } else {
        var s := ErsteApp.Cut(lines, i, Euro);
        InnerPiecesOk(lines, s.next, category);
        PiecesCons(ErsteApp.Piece(category, s), Inner(lines, s.next, category));
      }
    }
  }

  /**
   * A day menu holds the page date and a non-empty list of well-formed
   * dishes with distinct (category, description) pairs, each of them a
   * dish of the walk in the walk's order.
   */
  lemma DayMenuShape(body: String, today: Date)
    requires DayMenu(body, today).Some?
    ensures var lines := BodyLines(body); var items := DayMenu(body, today).value.1;
      DayMenu(body, today).value.0 == HeaderDate(lines, today).value
      && items != [] && KeysDistinct(items, DishKey) && Subseq(items, Dishes(Outer(lines, 0)))
      && AllWellFormed(items)
  {
    var lines := BodyLines(body);
    var all := Dishes(Outer(lines, 0));
    DedupKeysDistinct(all, DishKey, {});
    DedupSubseq(all, DishKey, {});
    SubseqMembers(Dedup(all, DishKey), all);
    OuterPiecesOk(lines, 0);
    DishesWellFormed(Outer(lines, 0));
  }

  /** There is no day menu exactly when the header date raises or the walk yields no dish. */
  lemma DayMenuNone(body: String, today: Date)
    ensures DayMenu(body, today).None? <==>
      HeaderDate(BodyLines(body), today).Raised? || Dishes(Outer(BodyLines(body), 0)) == []
  {
    DedupEmpty(Dishes(Outer(BodyLines(body), 0)), DishKey);
  }

  /**
   * A price is the line the collecting loop consumed last for that dish,
   * right after its description lines, so it never reaches another dish.
   */
  lemma PriceConsumed(lines: seq<String>, i: nat)
    requires i <= |lines|
    ensures var s := ErsteApp.Cut(lines, i, Euro);
      s.price != "" ==> s.next == i + |s.lines| + 1 && lines[s.next - 1] == s.price
  {
  }

  /**
   * The length filter reads the raw lines: `SALAD    x  y` passes it with
   * its 13 characters and is kept with the 3-character description `x y`,
   * where the production scraper, which measures the cleaned text, could
   * never emit a description that short.
   */
  lemma FilterBeforeCleaning()
    ensures Emit(ErsteApp.Piece("Salad", ErsteApp.Segment(["SALAD    x  y"], "", 1))) == [Dish("Salad", "x y", "")]
  {
    assert Join(" ", ["SALAD    x  y"]) == "SALAD    x  y";
    SaladCleaned();
  }

  lemma SaladCleaned()
    ensures ErsteApp.CleanText("SALAD    x  y") == "x y"
  {
    SaladLabel();
    ShortTextCleaned();
  }

  lemma SaladLabel()
    ensures StripLabel("SALAD    x  y") == "x  y"
  {
    assert "SALAD    x  y" == "SALAD" + "    " + "x  y";
    LabelThenWord("    ", "x  y");
  }

  /** `SALAD`, a run of spaces and text opening with a non-space: the label and the spaces go. */
  lemma LabelThenWord(spaces: String, w: String)
    requires forall k :: 0 <= k < |spaces| ==> spaces[k] == ' '
    requires w != [] && !IsSpace(w[0])
    ensures StripLabel("SALAD" + spaces + w) == w
  {
    var s := "SALAD" + spaces + w;
    assert s[..5] == "SALAD";
    assert s[0] == 'S' && s[1] == 'A' && s[2] == 'L' && s[3] == 'A' && s[4] == 'D';
    SaladLabelLength(s);
    var j := 5 + |spaces|;
    assert s[j] == w[0];
    forall k | 5 <= k < j ensures IsSpace(s[k]) {
      assert s[k] == spaces[k - 5];
    }
    SkipSpacesTo(s, 5, j);
    assert s[j..] == w;
  }

  /** Text opening with `SALAD` in capitals has the 5-character label. */
  lemma SaladLabelLength(s: String)
    requires |s| >= 5 && s[0] == 'S' && s[1] == 'A' && s[2] == 'L' && s[3] == 'A' && s[4] == 'D'
    ensures LabelLength(s) == 5
  {
    PrefixDiffers(s, "soup", 1);
    PrefixDiffers(s, "main dish", 0);
    PrefixDiffers(s, "desserts", 0);
    PrefixDiffers(s, "dessert", 0);
    PrefixMatches(s, "salad");
  }

  /** A prefix whose `k`th character lowers to something else than `w[k]` does not start with `w`, case aside. */
  lemma PrefixDiffers(s: String, w: String, k: nat)
    requires k < |w| && k < |s| && LowerChar(s[k]) != w[k]
    ensures !StartsWithIgnoreCase(s, w)
  {
    if |w| <= |s| {
      LowerAt(s[..|w|]);
      assert Lower(s[..|w|])[k] == LowerChar(s[k]);
    }
  }

  /** A prefix whose characters lower to those of `w` starts with `w`, case aside. */
  lemma PrefixMatches(s: String, w: String)
    requires |w| <= |s| && forall k :: 0 <= k < |w| ==> LowerChar(s[k]) == w[k]
    ensures StartsWithIgnoreCase(s, w)
  {
    LowerAt(s[..|w|]);
    assert Lower(s[..|w|]) == w;
  }

  lemma ShortTextCleaned()
    ensures Replace(StripLetterTail("x  y"), "/", " / ") == "x  y"
    ensures Strip(Collapse("x  y")) == "x y"
  {
    NoCapitalsKeepTail("x  y");
    XYReplace();
    XYWords();
  }

  lemma XYReplace()
    ensures Replace("x  y", "/", " / ") == "x  y"
  {
  }

  lemma XYWords()
    ensures Strip(Collapse("x  y")) == "x y"
  {
    XYSplit();
    XYJoin();
    CollapseNormalized("x  y");
    StripNormalized(Collapse("x  y"));
  }

  lemma XYJoin()
    ensures Join(" ", ["x", "y"]) == "x y"
  {
    JoinCons(" ", "x", ["y"]);
  }

  lemma XYSplit()
    ensures Words("x  y") == ["x", "y"]
  {
    XStart();
    SpaceYSplit();
  }

  lemma XStart()
    ensures StripLeft("x  y") == "x  y" && WordLength("x  y") == 1
    ensures "x  y"[..1] == "x" && "x  y"[1..] == "  y"
  {
  }

  lemma SpaceYSplit()
    ensures Words("  y") == ["y"]
  {
    var s2, s1, s0 := "  y", " y", "y";
    assert s2[1..] == s1 && s1[1..] == s0 && IsSpace(s2[0]) && IsSpace(s1[0]) && !IsSpace(s0[0]);
    assert StripLeft(s0) == s0;
    assert StripLeft(s1) == StripLeft(s0);
    assert StripLeft(s2) == StripLeft(s1);
    YSplit();
  }

  lemma YSplit()
    ensures Words("y") == ["y"]
  {
    assert StripLeft("y") == "y";
    assert WordLength("y") == 1;
    assert "y"[..1] == "y" && "y"[1..] == [];
    assert Words([]) == [];
  }

  /** A whole category walked from its header keeps the pieces so far a prefix of the walk. */
  lemma OuterHeaderStep(lines: seq<String>, i: nat, done: seq<ErsteApp.Piece>, pieces: seq<ErsteApp.Piece>, next: nat)
    requires i < next <= |lines| && IsHeader(lines[i])
    requires pieces + Outer(lines, next) == Inner(lines, i + 1, NormalizeCategory(lines[i]))
    ensures done + Outer(lines, i) == (done + pieces) + Outer(lines, next)
  {
  }

  /** One item cut inside a category keeps the pieces so far a prefix of the category. */
  lemma InnerItemStep(lines: seq<String>, start: nat, i: nat, category: String, pieces: seq<ErsteApp.Piece>, piece: ErsteApp.Piece)
    requires start <= i < |lines| && !IsHeader(lines[i])
    requires piece == ErsteApp.Piece(category, ErsteApp.Cut(lines, i, Euro))
    requires pieces + Inner(lines, i, category) == Inner(lines, start, category)
    ensures (pieces + [piece]) + Inner(lines, piece.segment.next, category) == Inner(lines, start, category)
  {
    var rest := Inner(lines, piece.segment.next, category);
    assert Inner(lines, i, category) == [piece] + rest;
    assert pieces + ([piece] + rest) == (pieces + [piece]) + rest;
  }

  /** The item loop of one category: the dishes up to the next header or the end. */
  method ParseCategory(lines: seq<String>, start: nat, category: String)
    returns (items: seq<Dish>, i: nat, ghost pieces: seq<ErsteApp.Piece>)
    requires start <= |lines|
    ensures start <= i <= |lines| && (i == |lines| || IsHeader(lines[i]))
    ensures pieces + Outer(lines, i) == Inner(lines, start, category)
    ensures items == Dishes(pieces)
  {
    items := [];
    i := start;
    pieces := [];
    while i < |lines| && !IsHeader(lines[i])
      invariant start <= i <= |lines|
      invariant pieces + Inner(lines, i, category) == Inner(lines, start, category)
      invariant items == Dishes(pieces)
      decreases |lines| - i
    {
      var itemLines, price, next := ErsteApp.CollectDish(lines, i, Euro);
      var piece := ErsteApp.Piece(category, ErsteApp.Segment(itemLines, price, next));
      InnerItemStep(lines, start, i, category, pieces, piece);
      DishesAppend(pieces, piece);
      items := items + Emit(piece);
      pieces := pieces + [piece];
      i := next;
    }
  }

  /** The category walk of `_extract_current_day_menu`. */
  method ParseLines(lines: seq<String>) returns (items: seq<Dish>)
    ensures items == Dishes(Outer(lines, 0))
  {
    items := [];
    var i := 0;
    ghost var done: seq<ErsteApp.Piece> := [];
    while i < |lines|
      invariant 0 <= i <= |lines|
      invariant done + Outer(lines, i) == Outer(lines, 0)
      invariant items == Dishes(done)
      decreases |lines| - i
    {
      if IsHeader(lines[i]) {
        var category := NormalizeCategory(lines[i]);
        var found, next, pieces := ParseCategory(lines, i + 1, category);
        OuterHeaderStep(lines, i, done, pieces, next);
        DishesConcat(done, pieces);
        items := items + found;
        done := done + pieces;
        i := next;
      } else {
        i := i + 1;
      }
    }
    assert done == Outer(lines, 0);
  }

  /** The `seen`-set loop over the exact (category, description) pairs. */
  method DeduplicateItems(items: seq<Dish>) returns (unique: seq<Dish>)
    ensures unique == Dedup(items, DishKey)
  {
    unique := [];
    var seen: set<(String, String)> := {};
    var i := 0;
    while i < |items|
      invariant 0 <= i <= |items|
      invariant unique + DedupFrom(items[i..], DishKey, seen) == Dedup(items, DishKey)
      decreases |items| - i
    {
      var key := DishKey(items[i]);
      assert items[i..][1..] == items[i + 1..];
      if key !in seen {
        seen := seen + {key};
        unique := unique + [items[i]];
      }
      i := i + 1;
    }
  }

  /** `_extract_current_day_menu` over the page text, with `today` for `date.today()`. */
  method ExtractCurrentDayMenu(body: String, today: Date) returns (r: Option<(Date, seq<Dish>)>)
    ensures r == DayMenu(body, today)
  {
    var lines := BodyLines(body);
    var found := ErsteApp.FindHeaderDate(lines, today);
    if found.Raised? {
      return None;
    }
    var items := ParseLines(lines);
    var unique := DeduplicateItems(items);
    r := if unique != [] then Some((found.value, unique)) else None;
  }

  /** The weekday table of `_parse_date_from_navigation`, in its iteration order. */
  const WeekdayCodes: seq<(String, int)> :=
    [("MON", 0), ("TUE", 1), ("WED", 2), ("THU", 3), ("FRI", 4),
     ("MONDAY", 0), ("TUESDAY", 1), ("WEDNESDAY", 2), ("THURSDAY", 3), ("FRIDAY", 4)]

  /** The number of the first entry whose name occurs in `text`. */
  function FirstCode(text: String, codes: seq<(String, int)>): (r: Option<int>)
  {
    if codes == [] then None
    else if Contains(text, codes[0].0) then Some(codes[0].1)
    else FirstCode(text, codes[1..])
  }

  /** The lookup is first-match: the entry found is the first whose name occurs. */
  lemma {:induction false} FirstCodeIsFirst(text: String, codes: seq<(String, int)>)
    ensures var r := FirstCode(text, codes);
      (r.None? <==> forall k :: 0 <= k < |codes| ==> !Contains(text, codes[k].0))
      && (r.Some? ==> exists k :: (0 <= k < |codes| && Contains(text, codes[k].0) && codes[k].1 == r.value
                                   && forall j :: 0 <= j < k ==> !Contains(text, codes[j].0)))
  {
    if codes != [] && !Contains(text, codes[0].0) {
      FirstCodeIsFirst(text, codes[1..]);
      assert forall k :: 0 < k < |codes| ==> codes[k] == codes[1..][k - 1];
      var r := FirstCode(text, codes[1..]);
      if r.Some? {
        var k :| 0 <= k < |codes[1..]| && Contains(text, codes[1..][k].0) && codes[1..][k].1 == r.value
          && forall j :: 0 <= j < k ==> !Contains(text, codes[1..][j].0);
        assert codes[k + 1] == codes[1..][k];
      }
    }
  }

  /**
   * `_parse_date_from_navigation`: a `DD.MM.YY` date (raising when
   * impossible), else the first day of this week or the next whose name
   * occurs in the upper-cased text (raising when that day is past
   * `date.max`), else `None`.
   */
  function ParseDateFromNavigation(nav: String, today: Date): (r: Result<Option<Date>>)
    requires Constructible(today)
  {
    match SearchDMY(nav)
    case Some(g) => (match DateOf(g) case Raised => Raised case Ok(d) => Ok(Some(d)))
    case None =>
      match FirstCode(Upper(nav), WeekdayCodes)
      case None => Ok(None)
      case Some(n) =>
        CodeRange(Upper(nav));
        match Shifted(today, DaysAhead(Weekday(today), n))
        case Raised => Raised
        case Ok(d) => Ok(Some(d))
  }

  /**
   * Without a date, a weekday name gives the day 0 to 6 days from today that
   * falls on that weekday; `today + timedelta(days_ahead)` raises exactly
   * when that day lies past `date.max`.
   */
  lemma NavigationWeekday(nav: String, today: Date, n: int)
    requires Constructible(today) && SearchDMY(nav).None? && FirstCode(Upper(nav), WeekdayCodes) == Some(n)
    ensures 0 <= n <= 4
    ensures var d := AddDays(today, DaysAhead(Weekday(today), n));
      && Weekday(d) == n && Ord(today) <= Ord(d) <= Ord(today) + 6
      && ParseDateFromNavigation(nav, today) == if Ord(d) <= MaxOrdinal then Ok(Some(d)) else Raised
    ensures ParseDateFromNavigation(nav, today).Ok? ==> Constructible(ParseDateFromNavigation(nav, today).value.value)
    ensures ParseDateFromNavigation(nav, today).Raised? ==> Ord(today) > MaxOrdinal - 6
  {
    CodeRange(Upper(nav));
    var k := DaysAhead(Weekday(today), n);
    ShiftedInRange(today, k);
    BeforeIsOrd(MinDate, today);
    WeekdayTarget(today, n);
  }

  /** On `date.max`, a Friday, the text `MON` names the Monday three days on, past `date.max`: Python raises `OverflowError`. */
  lemma NavigationOverflow()
    ensures ParseDateFromNavigation("MON", MaxDate) == Raised
  {
    MaxDateFacts();
    assert SearchDMY("MON").None? by {
      assert DMYAt("MON", 0).None? && DMYAt("MON", 1).None? && DMYAt("MON", 2).None? && DMYAt("MON", 3).None?;
    }
    assert Upper("MON") == "MON";
    assert OccursAt("MON", "MON", 0);
    assert FirstCode(Upper("MON"), WeekdayCodes) == Some(0);
    assert DaysAhead(Weekday(MaxDate), 0) == 3;
    ShiftedInRange(MaxDate, 3);
  }

  /** Today moved forward by `days_ahead` falls on weekday `n`, within the coming week. */
  lemma WeekdayTarget(today: Date, n: int)
    requires ValidDate(today) && 0 <= n < 7
    ensures var d := AddDays(today, DaysAhead(Weekday(today), n));
      Weekday(d) == n && Ord(today) <= Ord(d) <= Ord(today) + 6
  {
    var k := DaysAhead(Weekday(today), n);
    WeekdayLands(today, AddDays(today, k), k, n);
  }

  /** A text with neither a date nor a weekday name gives `None`. */
  lemma NavigationNone(nav: String, today: Date)
    requires Constructible(today) && SearchDMY(nav).None?
    ensures ParseDateFromNavigation(nav, today) == Ok(None) <==>
      forall k :: 0 <= k < |WeekdayCodes| ==> !Contains(Upper(nav), WeekdayCodes[k].0)
  {
    FirstCodeIsFirst(Upper(nav), WeekdayCodes);
  }

  /** Every weekday number of the table is a working day, 0 to 4. */
  lemma CodeRange(text: String)
    ensures FirstCode(text, WeekdayCodes).Some? ==> 0 <= FirstCode(text, WeekdayCodes).value <= 4
  {
    FirstCodeIsFirst(text, WeekdayCodes);
    assert forall k :: 0 <= k < |WeekdayCodes| ==> 0 <= WeekdayCodes[k].1 <= 4;
  }

  /** `days_ahead` from weekday `w` to weekday `n`, raised by 7 when negative: the days to the next `n`, today included. */
  function DaysAhead(w: int, n: int): (k: int)
    requires 0 <= w < 7 && 0 <= n < 7
    ensures 0 <= k <= 6 && (w + k == n || w + k == n + 7)
  {
    var ahead := n - w;
    if ahead < 0 then ahead + 7 else ahead
  }

  /** A date in the text wins over a weekday name, and an impossible one raises. */
  lemma NavigationDate(nav: String, today: Date)
    requires Constructible(today) && SearchDMY(nav).Some?
    ensures var g := SearchDMY(nav).value; var d := Date(2000 + g.year, g.month, g.day);
      ParseDateFromNavigation(nav, today) == if Constructible(d) then Ok(Some(d)) else Raised
  {
    var g := SearchDMY(nav).value;
    assert SearchDMY(nav) == Some(g);
    assert ParseDateFromNavigation(nav, today) == match DateOf(g) case Raised => Raised case Ok(d) => Ok(Some(d));
  }
}
