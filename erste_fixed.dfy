/**
 * The fixed final Erste Campus scraper: the line walk that cuts the visible
 * page text into dishes, its category, allergen and cleaning rules, the
 * order-preserving duplicate filter and the two date readers.
 */
module ErsteFixed {
  import opened Wrappers
  import opened Text
  import opened Dates
  import opened ErsteText
  import opened Deduplication

  /** One dish as the scraper emits it: `{'category', 'description', 'price'}`. */
  datatype Dish = Dish(category: String, description: String, price: String)

  /** The categories `_normalize_category` can produce. */
  const Categories: set<String> := {"Soup", "Main Dish", "Dessert", "Salad"}

  /** The table of `_normalize_category`, keyed by the upper-cased header; it also knows `DESSERT`. */
  const CategoryNames: seq<(String, String)> :=
    [("SOUP", "Soup"), ("MAIN DISH", "Main Dish"), ("DESSERTS", "Dessert"), ("DESSERT", "Dessert"), ("SALAD", "Salad")]

  /** `_normalize_category`: the upper-cased text looked up in the fixed table, `Main Dish` otherwise. */
  function NormalizeCategory(text: String): (r: String)
    ensures r in Categories
  {
    GetAmong(CategoryNames, Upper(text), "Main Dish", Categories);
    Get(CategoryNames, Upper(text), "Main Dish")
  }

  /** Each of the four headers is mapped to its own category. */
  lemma NormalizeHeader(h: String)
    requires IsHeader(h)
    ensures h == "SOUP" ==> NormalizeCategory(h) == "Soup"
    ensures h == "MAIN DISH" ==> NormalizeCategory(h) == "Main Dish"
    ensures h == "DESSERTS" ==> NormalizeCategory(h) == "Dessert"
    ensures h == "SALAD" ==> NormalizeCategory(h) == "Salad"
  {
    UpperHeader(h);
    HeaderCases(h);
    if h == "SOUP" {
      assert Get(CategoryNames, "SOUP", "Main Dish") == "Soup";
    } else if h == "MAIN DISH" {
      assert Get(CategoryNames, "MAIN DISH", "Main Dish") == "Main Dish";
    } else if h == "DESSERTS" {
      assert Get(CategoryNames, "DESSERTS", "Main Dish") == "Dessert";
    } else {
      assert Get(CategoryNames, "SALAD", "Main Dish") == "Salad";
    }
  }

  /** `_is_allergen_line`: after deleting spaces, 1 to 10 characters, all allergen codes. */
  predicate IsAllergenLine(line: String)
  {
    var chars := RemoveSpaces(line);
    0 < |chars| <= 10 && AllAllergens(chars)
  }

  /** The allergen test reads the non-space characters of the line, and nothing else. */
  lemma AllergenLineIff(line: String)
    ensures IsAllergenLine(line) <==>
      (0 < |NonSpaces(line)| <= 10 && forall c :: c in line && c != ' ' ==> c in AllergenCodes)
  {
    RemoveSpacesIsFilter(line);
  }

  /** `re.match(r'^€\s*\d+', line)`. */
  predicate IsPriceLine(line: String)
  {
    PriceLineAfter(line, Euro)
  }

  /** A line that ends the description of the item being collected. */
  predicate Stops(line: String)
  {
    IsPriceLine(line) || IsAllergenLine(line) || IsHeader(line)
  }

  /** The first index at or after `i` whose line stops an item, `|lines|` if none does. */
  function FirstStop(lines: seq<String>, i: nat): (j: nat)
    requires i <= |lines|
    ensures i <= j <= |lines|
    ensures forall k :: i <= k < j ==> !Stops(lines[k])
    ensures j < |lines| ==> Stops(lines[j])
    decreases |lines| - i
  {
    if i == |lines| then i
    else if Stops(lines[i]) then i
    else FirstStop(lines, i + 1)
  }

  /** The `(item_lines, price, next_index)` triple `_extract_menu_item` returns. */
  datatype Extracted = Extracted(lines: seq<String>, price: String, next: nat)

  /**
   * What `_extract_menu_item(lines, start)` returns: the description lines
   * up to the first stopping line, which as a price line is taken as the
   * price and consumed, as an allergen line is consumed, and as a header
   * is left for the caller. Without description lines only a price line
   * yields an item.
   */
  function ExtractItem(lines: seq<String>, start: nat): (r: Option<Extracted>)
    requires start <= |lines|
    ensures r.Some? ==> start < r.value.next <= |lines|
    ensures r.Some? && r.value.price != "" ==> IsPriceLine(r.value.price)
  {
    var j := FirstStop(lines, start);
    var body := lines[start..j];
    if j == |lines| then (if body != [] then Some(Extracted(body, "", j)) else None)
    else if IsPriceLine(lines[j]) then
      assert lines[j] != "";
      Some(Extracted(body, lines[j], j + 1))
    else if IsAllergenLine(lines[j]) then (if body != [] then Some(Extracted(body, "", j + 1)) else None)
    else if body != [] then Some(Extracted(body, "", j)) else None
  }

  /**
   * An item's description lines are the lines from `start` on, none of
   * which stops an item; an item without them has a price.
   */
  lemma ExtractItemLines(lines: seq<String>, start: nat)
    requires start <= |lines| && ExtractItem(lines, start).Some?
    ensures var e := ExtractItem(lines, start).value;
      start + |e.lines| <= |lines| && e.lines == lines[start..start + |e.lines|]
      && (forall k :: 0 <= k < |e.lines| ==> !Stops(e.lines[k]))
      && (e.lines == [] ==> e.price != "")
  {
  }

  /** A price line where an item starts is returned as its price, with no description lines. */
  lemma PriceLineAlone(lines: seq<String>, start: nat)
    requires start < |lines| && IsPriceLine(lines[start])
    ensures ExtractItem(lines, start) == Some(Extracted([], lines[start], start + 1))
  {
    assert FirstStop(lines, start) == start;
    assert lines[start..start] == [];
  }

  /** An allergen line or a header where an item starts yields nothing. */
  lemma StopWithoutLines(lines: seq<String>, start: nat)
    requires start < |lines| && !IsPriceLine(lines[start])
    requires IsAllergenLine(lines[start]) || IsHeader(lines[start])
    ensures ExtractItem(lines, start).None?
  {
  }

  /** `ExtractItem` read off at the stop the collecting loop has reached. */
  lemma ExtractAt(lines: seq<String>, start: nat, j: nat)
    requires start <= j <= |lines| && FirstStop(lines, start) == FirstStop(lines, j)
    requires j == |lines| || Stops(lines[j])
    ensures ExtractItem(lines, start) ==
      var body := lines[start..j];
      if j == |lines| then (if body != [] then Some(Extracted(body, "", j)) else None)
      else if IsPriceLine(lines[j]) then Some(Extracted(body, lines[j], j + 1))
      else if IsAllergenLine(lines[j]) then (if body != [] then Some(Extracted(body, "", j + 1)) else None)
      else if body != [] then Some(Extracted(body, "", j)) else None
  {
    assert FirstStop(lines, j) == j;
  }

  /** `_extract_menu_item`: the collecting loop. */
  method ExtractMenuItem(lines: seq<String>, start: nat) returns (r: Option<Extracted>)
    requires start <= |lines|
    ensures r == ExtractItem(lines, start)
  {
    var itemLines: seq<String> := [];
    var i := start;
    while i < |lines|
      invariant start <= i <= |lines|
      invariant itemLines == lines[start..i]
      invariant FirstStop(lines, start) == FirstStop(lines, i)
      decreases |lines| - i
    {
      var current := lines[i];
      if IsPriceLine(current) {
        ExtractAt(lines, start, i);
        return Some(Extracted(itemLines, current, i + 1));
      }
      if IsAllergenLine(current) {
        ExtractAt(lines, start, i);
        if itemLines != [] {
          return Some(Extracted(itemLines, "", i + 1));
        }
        return None;
      }
      if IsHeader(current) {
        ExtractAt(lines, start, i);
        if itemLines != [] {
          return Some(Extracted(itemLines, "", i));
        }
        return None;
      }
      itemLines := itemLines + [current];
      i := i + 1;
    }
    ExtractAt(lines, start, i);
    if itemLines != [] {
      return Some(Extracted(itemLines, "", i));
    }
    return None;
  }

  /** The lower-cased markers of link and navigation text that `_clean_description` refuses. */
  const Rejected: seq<String> := ["http", "www", ".html", ".php", "external", "single", "kantine-en", "?date=", "href="]

  /**
   * `_clean_description`: "" for link text; otherwise the leading category
   * label, the trailing run of single capitals and every other lone capital
   * go, `/` and `,` get one space on each side and whitespace collapses.
   */
  function CleanDescription(text: String): (r: String)
    ensures Normalized(r)
    ensures ContainsAny(Lower(text), Rejected) ==> r == []
  {
    if ContainsAny(Lower(text), Rejected) then []
    else
      var t := SpacePunct(DeleteLoneCapitals(StripLetterTail(StripLabel(text))));
      CollapseNormalized(t);
      StripNormalized(Collapse(t));
      Strip(Collapse(t))
  }

  /** An item as the walk extracts it, with the category it sits in. */
  datatype Piece = Piece(category: String, item: Extracted)

  /** The dish a piece becomes, if its cleaned text is long enough. */
  function Emit(p: Piece): (r: seq<Dish>)
    ensures |r| <= 1
  {
    var cleaned := CleanDescription(Join(" ", p.item.lines));
    if cleaned != [] && |cleaned| > 10 then [Dish(p.category, cleaned, p.item.price)] else []
  }

  /** The dishes of a run of pieces, in order. */
  function Dishes(pieces: seq<Piece>): (r: seq<Dish>)
    ensures |r| <= |pieces|
  {
    if pieces == [] then [] else Emit(pieces[0]) + Dishes(pieces[1..])
  }

  lemma {:induction false} DishesConcat(a: seq<Piece>, b: seq<Piece>)
    ensures Dishes(a + b) == Dishes(a) + Dishes(b)
    decreases |a|
  {
    if a == [] {
      assert a + b == b;
    } else {
      assert (a + b)[0] == a[0] && (a + b)[1..] == a[1..] + b;
      DishesConcat(a[1..], b);
    }
  }

  lemma DishesSingle(p: Piece)
    ensures Dishes([p]) == Emit(p)
  {
    assert [p][0] == p && [p][1..] == [];
  }

  lemma DishesAppend(a: seq<Piece>, p: Piece)
    ensures Dishes(a + [p]) == Dishes(a) + Emit(p)
  {
    DishesConcat(a, [p]);
    DishesSingle(p);
  }

  /** What a dish of the walk looks like. */
  predicate WellFormed(d: Dish)
  {
    d.category in Categories && |d.description| > 10 && Normalized(d.description)
    && (d.price == "" || IsPriceLine(d.price))
  }

  predicate AllWellFormed(ds: seq<Dish>)
  {
    forall k :: 0 <= k < |ds| ==> WellFormed(ds[k])
  }

  /** `_parse_menu_items` from index `i`, outside any category. */
  function ParseOuter(lines: seq<String>, i: nat): (r: seq<Piece>)
    requires i <= |lines|
    decreases |lines| - i, 0
  {
    if i == |lines| then []
    else if IsHeader(lines[i]) then ParseInner(lines, i + 1, NormalizeCategory(lines[i]))
    else ParseOuter(lines, i + 1)
  }

  /** `_parse_menu_items` from index `i`, inside the category `category`. */
  function ParseInner(lines: seq<String>, i: nat, category: String): (r: seq<Piece>)
    requires i <= |lines|
    decreases |lines| - i, 1
  {
    if i == |lines| then []
    else if IsHeader(lines[i]) then ParseOuter(lines, i)
    else match ExtractItem(lines, i)
      case Some(e) => [Piece(category, e)] + ParseInner(lines, e.next, category)
      case None => ParseInner(lines, i + 1, category)
  }

  /** What `_parse_menu_items` returns. */
  function MenuItems(lines: seq<String>): (r: seq<Dish>)
  {
    Dishes(ParseOuter(lines, 0))
  }

  /** A piece under a known category whose price, if any, is a price line. */
  predicate PieceOk(p: Piece)
  {
    p.category in Categories && (p.item.price == "" || IsPriceLine(p.item.price))
  }

  predicate AllPiecesOk(ps: seq<Piece>)
  {
    forall k :: 0 <= k < |ps| ==> PieceOk(ps[k])
  }

  lemma ConcatWellFormed(a: seq<Dish>, b: seq<Dish>)
    requires AllWellFormed(a) && AllWellFormed(b)
    ensures AllWellFormed(a + b)
  {
    assert forall k :: 0 <= k < |a + b| ==> (a + b)[k] == (if k < |a| then a[k] else b[k - |a|]);
  }

  lemma PiecesCons(p: Piece, r: seq<Piece>)
    requires PieceOk(p) && AllPiecesOk(r)
    ensures AllPiecesOk([p] + r)
  {
    assert forall k :: 0 < k < |[p] + r| ==> ([p] + r)[k] == r[k - 1];
  }

  /** Sound pieces become dishes with a known category, a clean description of more than 10 characters and a price line or no price. */
  lemma {:induction false} DishesWellFormed(pieces: seq<Piece>)
    requires AllPiecesOk(pieces)
    ensures AllWellFormed(Dishes(pieces))
    decreases |pieces|
  {
    if pieces != [] {
      assert PieceOk(pieces[0]);
      assert AllWellFormed(Emit(pieces[0]));
      DishesWellFormed(pieces[1..]);
      ConcatWellFormed(Emit(pieces[0]), Dishes(pieces[1..]));
    }
  }

  /** The walk puts every piece under a known category, with a price line or no price. */
  lemma {:induction false} OuterPiecesOk(lines: seq<String>, i: nat)
    requires i <= |lines|
    ensures AllPiecesOk(ParseOuter(lines, i))
    decreases |lines| - i, 0
  {
    if i < |lines| {
      if IsHeader(lines[i]) {
        InnerPiecesOk(lines, i + 1, NormalizeCategory(lines[i]));
      } else {
        OuterPiecesOk(lines, i + 1);
      }
    }
  }

  lemma {:induction false} InnerPiecesOk(lines: seq<String>, i: nat, category: String)
    requires i <= |lines| && category in Categories
    ensures AllPiecesOk(ParseInner(lines, i, category))
    decreases |lines| - i, 1
  {
    if i < |lines| {
      if IsHeader(lines[i]) {
        OuterPiecesOk(lines, i);
      } else {
        var x := ExtractItem(lines, i);
        if x.Some? {
          var e := x.value;
          InnerPiecesOk(lines, e.next, category);
          var r := ParseInner(lines, e.next, category);
          assert ParseInner(lines, i, category) == [Piece(category, e)] + r;
          PiecesCons(Piece(category, e), r);
        } else {
          InnerPiecesOk(lines, i + 1, category);
          InnerSkip(lines, i, category);
        }
      }
    }
  }

  /** Every dish `_parse_menu_items` returns has a known category, a clean description of more than 10 characters and a price line or no price. */
  lemma MenuItemsWellFormed(lines: seq<String>)
    ensures AllWellFormed(MenuItems(lines))
  {
    OuterPiecesOk(lines, 0);
    DishesWellFormed(ParseOuter(lines, 0));
  }

  /** A whole category walked from its header keeps the pieces so far a prefix of the walk. */
  lemma OuterHeaderStep(lines: seq<String>, i: nat, done: seq<Piece>, pieces: seq<Piece>, next: nat)
    requires i < next <= |lines| && IsHeader(lines[i])
    requires pieces + ParseOuter(lines, next) == ParseInner(lines, i + 1, NormalizeCategory(lines[i]))
    ensures done + ParseOuter(lines, i) == (done + pieces) + ParseOuter(lines, next)
  {
  }

  /** An item extracted inside a category keeps the pieces so far a prefix of the category. */
  lemma InnerTake(lines: seq<String>, start: nat, i: nat, category: String, pieces: seq<Piece>, e: Extracted)
    requires start <= i < |lines| && !IsHeader(lines[i]) && ExtractItem(lines, i) == Some(e)
    requires pieces + ParseInner(lines, i, category) == ParseInner(lines, start, category)
    ensures (pieces + [Piece(category, e)]) + ParseInner(lines, e.next, category) == ParseInner(lines, start, category)
  {
    InnerCons(lines, i, category, e);
    var rest := ParseInner(lines, e.next, category);
    assert pieces + ([Piece(category, e)] + rest) == (pieces + [Piece(category, e)]) + rest;
  }

  /** An extracted item becomes the next piece. */
  lemma InnerCons(lines: seq<String>, i: nat, category: String, e: Extracted)
    requires i < |lines| && !IsHeader(lines[i]) && ExtractItem(lines, i) == Some(e)
    ensures ParseInner(lines, i, category) == [Piece(category, e)] + ParseInner(lines, e.next, category)
  {
  }

  /** A line that yields no item is stepped over. */
  lemma InnerSkip(lines: seq<String>, i: nat, category: String)
    requires i < |lines| && !IsHeader(lines[i]) && ExtractItem(lines, i).None?
    ensures ParseInner(lines, i, category) == ParseInner(lines, i + 1, category)
  {
  }

  /** The inner loop of `_parse_menu_items`: the items of one category, up to the next header or the end. */
  method ParseCategory(lines: seq<String>, start: nat, category: String)
    returns (items: seq<Dish>, i: nat, ghost pieces: seq<Piece>)
    requires start <= |lines|
    ensures start <= i <= |lines| && (i == |lines| || IsHeader(lines[i]))
    ensures pieces + ParseOuter(lines, i) == ParseInner(lines, start, category)
    ensures items == Dishes(pieces)
  {
    items := [];
    i := start;
    pieces := [];
    while i < |lines| && !IsHeader(lines[i])
      invariant start <= i <= |lines|
      invariant pieces + ParseInner(lines, i, category) == ParseInner(lines, start, category)
      invariant items == Dishes(pieces)
      decreases |lines| - i
    {
      var itemData := ExtractMenuItem(lines, i);
      if itemData.Some? {
        var e := itemData.value;
        InnerTake(lines, start, i, category, pieces, e);
        DishesAppend(pieces, Piece(category, e));
        items := items + Emit(Piece(category, e));
        pieces := pieces + [Piece(category, e)];
        i := e.next;
      } else {
        InnerSkip(lines, i, category);
        i := i + 1;
      }
    }
  }

  /** `_parse_menu_items`: the category walk over all lines. */
  method ParseMenuItems(lines: seq<String>) returns (items: seq<Dish>)
    ensures items == MenuItems(lines)
  {
    items := [];
    var i := 0;
    ghost var done: seq<Piece> := [];
    while i < |lines|
      invariant 0 <= i <= |lines|
      invariant done + ParseOuter(lines, i) == ParseOuter(lines, 0)
      invariant items == Dishes(done)
      decreases |lines| - i
    {
      if IsHeader(lines[i]) {
        var category := NormalizeCategory(lines[i]);
        var found, next, pieces := ParseCategory(lines, i + 1, category);
        OuterHeaderStep(lines, i, done, pieces, next);
        DishesConcat(done, pieces);
        items := items + found;
        done := done + pieces;
        i := next;
      } else {
        i := i + 1;
      }
    }
    assert done == ParseOuter(lines, 0);
  }

  /** The duplicate key: the category and the lower-cased description. */
  function DishKey(d: Dish): (String, String)
  {
    (d.category, Lower(d.description))
  }

  /** `_deduplicate_items`: the `seen`-set loop. */
  method DeduplicateItems(items: seq<Dish>) returns (unique: seq<Dish>)
    ensures unique == Dedup(items, DishKey)
  {
    unique := [];
    var seen: set<(String, String)> := {};
    var i := 0;
    while i < |items|
      invariant 0 <= i <= |items|
      invariant unique + DedupFrom(items[i..], DishKey, seen) == Dedup(items, DishKey)
      decreases |items| - i
    {
      var key := DishKey(items[i]);
      assert items[i..][1..] == items[i + 1..];
      if key !in seen {
        seen := seen + {key};
        unique := unique + [items[i]];
      }
      i := i + 1;
    }
  }

  /** `_parse_date_string`: `DD.MM.YY` read as `date(2000 + YY, MM, DD)`; `None` where Python raises. */
  function ParseDateString(s: String): (r: Option<Date>)
    ensures r.Some? ==> Constructible(r.value)
  {
    var parts := SplitOn(s, '.');
    if |parts| != 3 then None else DateFromFields(parts[0], parts[1], parts[2])
  }

  /** Only text with exactly two dots is read as a date. */
  lemma ParseDateDots(s: String)
    requires ParseDateString(s).Some?
    ensures multiset(s)['.'] == 2
  {
    SplitOnCount(s, '.');
  }

  /** `date(2000 + int(year), int(month), int(day))`, `None` where a conversion or the date raises. */
  function DateFromFields(day: String, month: String, year: String): (r: Option<Date>)
    ensures r.Some? ==> Constructible(r.value)
  {
    var y, m, d := ParseInt(year), ParseInt(month), ParseInt(day);
    if y.None? || m.None? || d.None? then None
    else if Constructible(Date(2000 + y.value, m.value, d.value)) then Some(Date(2000 + y.value, m.value, d.value))
    else None
  }

  /** Splitting at the first separator peels off the text before it. */
  lemma SplitOnFirst(a: String, c: char, b: String)
    requires c !in a
    ensures SplitOn(a + [c] + b, c) == [a] + SplitOn(b, c)
  {
    var s := a + [c] + b;
    assert s[|a|] == c;
    assert s[..|a|] == a;
    assert s[|a| + 1..] == b;
  }

  lemma SplitOnNone(s: String, c: char)
    requires c !in s
    ensures SplitOn(s, c) == [s]
  {
  }

  /** `DD.MM.YY` splits at its two dots into the three fields. */
  lemma SplitDMY(dd: String, mm: String, yy: String)
    requires '.' !in dd && '.' !in mm && '.' !in yy
    ensures SplitOn(dd + "." + mm + "." + yy, '.') == [dd, mm, yy]
  {
    var t := mm + ['.'] + yy;
    assert dd + "." + mm + "." + yy == dd + ['.'] + t;
    SplitOnFirst(dd, '.', t);
    SplitOnFirst(mm, '.', yy);
    SplitOnNone(yy, '.');
    assert [dd] + ([mm] + [yy]) == [dd, mm, yy];
  }

  /** Three runs of digits joined by dots are read as day, month and two-digit year. */
  lemma ParseDateDigits(dd: String, mm: String, yy: String)
    requires dd != [] && mm != [] && yy != [] && AllDigits(dd) && AllDigits(mm) && AllDigits(yy)
    ensures var d := Date(2000 + DigitsValue(yy), DigitsValue(mm), DigitsValue(dd));
      ParseDateString(dd + "." + mm + "." + yy) == if Constructible(d) then Some(d) else None
  {
    assert !IsDigit('.');
    SplitDMY(dd, mm, yy);
    assert ParseDateString(dd + "." + mm + "." + yy) == DateFromFields(dd, mm, yy);
    FieldsDigits(dd, mm, yy);
  }

  lemma FieldsDigits(dd: String, mm: String, yy: String)
    requires dd != [] && mm != [] && yy != [] && AllDigits(dd) && AllDigits(mm) && AllDigits(yy)
    ensures var d := Date(2000 + DigitsValue(yy), DigitsValue(mm), DigitsValue(dd));
      DateFromFields(dd, mm, yy) == if Constructible(d) then Some(d) else None
  {
    ParseIntDigits(dd);
    ParseIntDigits(mm);
    ParseIntDigits(yy);
  }

  /** A date written as `DD.MM.YY` is read back as that date. */
  lemma ParseDateRoundTrip(d: Date)
    requires Constructible(d) && 2000 <= d.year < 2100
    ensures ParseDateString(Pad2(d.day) + "." + Pad2(d.month) + "." + Pad2(d.year - 2000)) == Some(d)
  {
    var dd, mm, yy := Pad2(d.day), Pad2(d.month), Pad2(d.year - 2000);
    assert Date(2000 + DigitsValue(yy), DigitsValue(mm), DigitsValue(dd)) == d;
    ParseDateDigits(dd, mm, yy);
  }

  /** The date a line's first `DD.MM.YY` match names, if Python can build it. */
  function LineDate(line: String): (r: Option<Date>)
    ensures r.Some? ==> Constructible(r.value)
  {
    match SearchDMY(line)
    case None => None
    case Some(g) => if DateOf(g).Ok? then Some(DateOf(g).value) else None
  }

  /**
   * `_find_date_in_content`: the date of the first of the first 20 lines
   * whose `DD.MM.YY` match Python can build, a line whose match is
   * impossible being passed over.
   */
  method FindDateInContent(lines: seq<String>) returns (r: Option<Date>)
    ensures r.None? <==> forall k :: 0 <= k < |lines| && k < 20 ==> LineDate(lines[k]).None?
    ensures r.Some? ==> exists k :: 0 <= k < |lines| && k < 20 && LineDate(lines[k]) == r && forall j :: 0 <= j < k ==> LineDate(lines[j]).None?
  {
    var n := if |lines| < 20 then |lines| else 20;
    var k := 0;
    while k < n
      invariant 0 <= k <= n
      invariant forall j :: 0 <= j < k ==> LineDate(lines[j]).None?
    {
      var d := LineDate(lines[k]);
      if d.Some? {
        return d;
      }
      k := k + 1;
    }
    return None;
  }
}
