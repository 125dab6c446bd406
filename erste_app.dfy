/**
 * The production Erste Campus scraper: the page text is cut into dishes
 * under the four category headers, a dish ending at a price line, an
 * allergen line or the next header. Its price lines start with the euro
 * sign as it reads after a wrong decoding.
 */
module ErsteApp {
  import opened Wrappers
  import opened Text
  import opened Dates
  import opened ErsteText

  /** A dish of the page with the date it is served: `{'menu_date', 'category', 'description', 'price'}`. */
  datatype DatedDish = DatedDish(menuDate: Date, category: String, description: String, price: String)

  const Categories: set<String> := {"Soup", "Main Dish", "Dessert", "Salad"}

  /** The table of `_normalize_category`, keyed by the upper-cased header. */
  const CategoryNames: seq<(String, String)> := [("SOUP", "Soup"), ("MAIN DISH", "Main Dish"), ("DESSERTS", "Dessert"), ("SALAD", "Salad")]

  /** `_normalize_category`: the four headers by their upper-cased text, `Main Dish` for anything else. */
  function NormalizeCategory(text: String): (r: String)
    ensures r in Categories
  {
    GetAmong(CategoryNames, Upper(text), "Main Dish", Categories);
    Get(CategoryNames, Upper(text), "Main Dish")
  }

  /** Each header names its own category. */
  lemma NormalizeHeader(h: String)
    requires IsHeader(h)
    ensures h == "SOUP" ==> NormalizeCategory(h) == "Soup"
    ensures h == "MAIN DISH" ==> NormalizeCategory(h) == "Main Dish"
    ensures h == "DESSERTS" ==> NormalizeCategory(h) == "Dessert"
    ensures h == "SALAD" ==> NormalizeCategory(h) == "Salad"
  {
    UpperHeader(h);
    HeaderCases(h);
    if h == "SOUP" {
      assert Get(CategoryNames, "SOUP", "Main Dish") == "Soup";
    } else if h == "MAIN DISH" {
      assert Get(CategoryNames, "MAIN DISH", "Main Dish") == "Main Dish";
    } else if h == "DESSERTS" {
      assert Get(CategoryNames, "DESSERTS", "Main Dish") == "Dessert";
    } else {
      assert Get(CategoryNames, "SALAD", "Main Dish") == "Salad";
    }
  }

  /** `_is_allergen_line`: some character besides spaces, and all of them allergen codes. */
  predicate IsAllergenLine(line: String)
  {
    var chars := RemoveSpaces(line);
    |chars| > 0 && AllAllergens(chars)
  }

  /** The test has no length cap: it reads the non-space characters only. */
  lemma AllergenLineIff(line: String)
    ensures IsAllergenLine(line) <==>
      (NonSpaces(line) != [] && forall c :: c in line && c != ' ' ==> c in AllergenCodes)
  {
    RemoveSpacesIsFilter(line);
  }

  /** Every header holds an `S`, which is no allergen code, so no header is an allergen line. */
  lemma HeaderNotAllergen(line: String)
    requires IsHeader(line)
    ensures !IsAllergenLine(line)
  {
    HeaderHasS(line);
    AllergenLineIff(line);
  }

  lemma HeaderHasS(line: String)
    requires IsHeader(line)
    ensures 'S' in line
  {
    HeaderCases(line);
    var k: nat := if line == "MAIN DISH" then 7 else if line == "DESSERTS" then 2 else 0;
    assert line[k] == 'S';
  }

  /** The three markers of link text `_clean_description` refuses. */
  const Rejected: seq<String> := ["http", ".html", "external"]

  /** The rewriting steps of `_clean_description`: label, trailing capitals, slash spacing, whitespace. */
  function CleanText(text: String): (r: String)
    ensures Normalized(r)
  {
    var t := Replace(StripLetterTail(StripLabel(text)), "/", " / ");
    CollapseNormalized(t);
    StripNormalized(Collapse(t));
    Strip(Collapse(t))
  }

  /** `_clean_description`: "" for link text, the rewritten text otherwise. */
  function CleanDescription(text: String): (r: String)
    ensures Normalized(r)
    ensures ContainsAny(Lower(text), Rejected) ==> r == []
    ensures !ContainsAny(Lower(text), Rejected) ==> r == CleanText(text)
  {
    if ContainsAny(Lower(text), Rejected) then [] else CleanText(text)
  }

  /** A line that ends the dish being collected, price lines being those after `prefix`. */
  predicate Stops(line: String, prefix: String)
  {
    PriceLineAfter(line, prefix) || IsAllergenLine(line) || IsHeader(line)
  }

  function FirstStop(lines: seq<String>, i: nat, prefix: String): (j: nat)
    requires i <= |lines|
    ensures i <= j <= |lines|
    ensures forall k :: i <= k < j ==> !Stops(lines[k], prefix)
    ensures j < |lines| ==> Stops(lines[j], prefix)
    decreases |lines| - i
  {
    if i == |lines| || Stops(lines[i], prefix) then i else FirstStop(lines, i + 1, prefix)
  }

  /** The description lines of one dish, its price ("" for none) and the index after it. */
  datatype Segment = Segment(lines: seq<String>, price: String, next: nat)

  /**
   * One pass of the collecting loop from `i`: lines up to the first stop;
   * a price line there is the price and is consumed, an allergen line is
   * consumed, a header is left in place.
   */
  function Cut(lines: seq<String>, i: nat, prefix: String): (r: Segment)
    requires i <= |lines|
    ensures i <= r.next <= |lines|
    ensures i < |lines| && !IsHeader(lines[i]) ==> i < r.next
    ensures r.price != "" ==> PriceLineAfter(r.price, prefix)
  {
    var j := FirstStop(lines, i, prefix);
    if j == |lines| then Segment(lines[i..j], "", j)
    else if PriceLineAfter(lines[j], prefix) then
      assert |lines[j]| > SkipSpaces(lines[j], |prefix|);
      Segment(lines[i..j], lines[j], j + 1)
    else if IsAllergenLine(lines[j]) then Segment(lines[i..j], "", j + 1)
    else Segment(lines[i..j], "", j)
  }

  /** An item as the walk cuts it, before its text is cleaned: its category and its segment. */
  datatype Piece = Piece(category: String, segment: Segment)

  /** The dish a piece becomes: only with description lines, and a cleaned text of more than 10 characters. */
  function Emit(d: Date, p: Piece): (r: seq<DatedDish>)
    ensures |r| <= 1
  {
    if p.segment.lines == [] then []
    else
      var cleaned := CleanDescription(Join(" ", p.segment.lines));
      if cleaned != [] && |cleaned| > 10 then [DatedDish(d, p.category, cleaned, p.segment.price)] else []
  }

  /** The dishes of a run of pieces, in order. */
  function Dishes(d: Date, pieces: seq<Piece>): (r: seq<DatedDish>)
    ensures |r| <= |pieces|
  {
    if pieces == [] then [] else Emit(d, pieces[0]) + Dishes(d, pieces[1..])
  }

  lemma {:induction false} DishesConcat(d: Date, a: seq<Piece>, b: seq<Piece>)
    ensures Dishes(d, a + b) == Dishes(d, a) + Dishes(d, b)
    decreases |a|
  {
    if a == [] {
      assert a + b == b;
    } else {
      assert (a + b)[0] == a[0] && (a + b)[1..] == a[1..] + b;
      DishesConcat(d, a[1..], b);
    }
  }

  lemma DishesAppend(d: Date, a: seq<Piece>, p: Piece)
    ensures Dishes(d, a + [p]) == Dishes(d, a) + Emit(d, p)
  {
    DishesConcat(d, a, [p]);
    assert [p][1..] == [];
  }

  /** The parsing loop from `i`, outside any category. */
  function Outer(lines: seq<String>, i: nat, prefix: String): (r: seq<Piece>)
    requires i <= |lines|
    decreases |lines| - i, 0
  {
    if i == |lines| then []
    else if IsHeader(lines[i]) then Inner(lines, i + 1, prefix, NormalizeCategory(lines[i]))
    else Outer(lines, i + 1, prefix)
  }

  /** The parsing loop from `i`, inside `category`. */
  function Inner(lines: seq<String>, i: nat, prefix: String, category: String): (r: seq<Piece>)
    requires i <= |lines|
    decreases |lines| - i, 1
  {
    if i == |lines| then []
    else if IsHeader(lines[i]) then Outer(lines, i, prefix)
    else
      var s := Cut(lines, i, prefix);
      [Piece(category, s)] + Inner(lines, s.next, prefix, category)
  }

  /** What `_extract_current_view` returns for the page text: [] when the header date raises. */
  function CurrentView(body: String, today: Date): (r: seq<DatedDish>)
  {
    var lines := BodyLines(body);
    match HeaderDate(lines, today)
    case Raised => []
    case Ok(d) => Dishes(d, Outer(lines, 0, MisdecodedEuro))
  }

  /** What a dish of this scraper looks like. */
  predicate WellFormed(x: DatedDish, d: Date, prefix: String)
  {
    x.menuDate == d && x.category in Categories && |x.description| > 10 && Normalized(x.description)
    && (x.price == "" || PriceLineAfter(x.price, prefix))
  }

  predicate AllWellFormed(xs: seq<DatedDish>, d: Date, prefix: String)
  {
    forall k :: 0 <= k < |xs| ==> WellFormed(xs[k], d, prefix)
  }

  /** A piece under a known category whose price, if any, is a price line. */
  predicate PieceOk(p: Piece, prefix: String)
  {
    p.category in Categories && (p.segment.price == "" || PriceLineAfter(p.segment.price, prefix))
  }

  predicate AllPiecesOk(ps: seq<Piece>, prefix: String)
  {
    forall k :: 0 <= k < |ps| ==> PieceOk(ps[k], prefix)
  }

  lemma ConcatWellFormed(a: seq<DatedDish>, b: seq<DatedDish>, d: Date, prefix: String)
    requires AllWellFormed(a, d, prefix) && AllWellFormed(b, d, prefix)
    ensures AllWellFormed(a + b, d, prefix)
  {
    assert forall k :: 0 <= k < |a + b| ==> (a + b)[k] == (if k < |a| then a[k] else b[k - |a|]);
  }

  /** Sound pieces become dishes with the date, a known category, a clean text of more than 10 characters and a price line or "". */
  lemma {:induction false} DishesWellFormed(d: Date, pieces: seq<Piece>, prefix: String)
    requires AllPiecesOk(pieces, prefix)
    ensures AllWellFormed(Dishes(d, pieces), d, prefix)
    decreases |pieces|
  {
    if pieces != [] {
      assert PieceOk(pieces[0], prefix);
      assert AllWellFormed(Emit(d, pieces[0]), d, prefix);
      DishesWellFormed(d, pieces[1..], prefix);
      ConcatWellFormed(Emit(d, pieces[0]), Dishes(d, pieces[1..]), d, prefix);
    }
  }

  /** The walk puts every piece under a known category, with a price line or no price. */
  lemma {:induction false} OuterPiecesOk(lines: seq<String>, i: nat, prefix: String)
    requires i <= |lines|
    ensures AllPiecesOk(Outer(lines, i, prefix), prefix)
    decreases |lines| - i, 0
  {
    if i < |lines| {
      if IsHeader(lines[i]) {
        InnerPiecesOk(lines, i + 1, prefix, NormalizeCategory(lines[i]));
      } else {
        OuterPiecesOk(lines, i + 1, prefix);
      }
    }
  }

  lemma {:induction false} InnerPiecesOk(lines: seq<String>, i: nat, prefix: String, category: String)
    requires i <= |lines| && category in Categories
    ensures AllPiecesOk(Inner(lines, i, prefix, category), prefix)
    decreases |lines| - i, 1
  {
    if i < |lines| {
      if IsHeader(lines[i]) {
        OuterPiecesOk(lines, i, prefix);
      } else {
        var s := Cut(lines, i, prefix);
        InnerPiecesOk(lines, s.next, prefix, category);
        var r := Inner(lines, s.next, prefix, category);
        assert forall k :: 0 < k < |[Piece(category, s)] + r| ==> ([Piece(category, s)] + r)[k] == r[k - 1];
      }
    }
  }

  /** Every dish of the page carries the page date, a known category, a clean text of more than 10 characters and a misdecoded-euro price line or "". */
  lemma CurrentViewWellFormed(body: String, today: Date)
    requires HeaderDate(BodyLines(body), today).Ok?
    ensures AllWellFormed(CurrentView(body, today), HeaderDate(BodyLines(body), today).value, MisdecodedEuro)
  {
    var lines := BodyLines(body);
    OuterPiecesOk(lines, 0, MisdecodedEuro);
    DishesWellFormed(HeaderDate(lines, today).value, Outer(lines, 0, MisdecodedEuro), MisdecodedEuro);
  }

  /** A line that opens with the correctly decoded euro sign is no price line here, and no stop at all. */
  lemma RealEuroIsText(line: String)
    requires PriceLineAfter(line, Euro)
    ensures !PriceLineAfter(line, MisdecodedEuro)
    ensures !Stops(line, MisdecodedEuro)
  {
    assert line[0] == '€';
    HeaderCases(line);
    RemoveSpacesIsFilter(line);
    assert '€' in NonSpaces(line);
  }

  /** An impossible date in the page header empties the whole result. */
  lemma RaisedDateEmpties(body: String, today: Date)
    requires HeaderDate(BodyLines(body), today).Raised?
    ensures CurrentView(body, today) == []
  {
  }

  /** A whole category walked from its header keeps the pieces so far a prefix of the walk. */
  lemma OuterHeaderStep(lines: seq<String>, i: nat, prefix: String, done: seq<Piece>, pieces: seq<Piece>, next: nat)
    requires i < next <= |lines| && IsHeader(lines[i])
    requires pieces + Outer(lines, next, prefix) == Inner(lines, i + 1, prefix, NormalizeCategory(lines[i]))
    ensures done + Outer(lines, i, prefix) == (done + pieces) + Outer(lines, next, prefix)
  {
  }

  /** One item cut inside a category keeps the pieces so far a prefix of the category. */
  lemma InnerItemStep(lines: seq<String>, start: nat, i: nat, prefix: String, category: String, pieces: seq<Piece>, piece: Piece)
    requires start <= i < |lines| && !IsHeader(lines[i])
    requires piece == Piece(category, Cut(lines, i, prefix))
    requires pieces + Inner(lines, i, prefix, category) == Inner(lines, start, prefix, category)
    ensures (pieces + [piece]) + Inner(lines, piece.segment.next, prefix, category) == Inner(lines, start, prefix, category)
  {
    var rest := Inner(lines, piece.segment.next, prefix, category);
    assert Inner(lines, i, prefix, category) == [piece] + rest;
    assert pieces + ([piece] + rest) == (pieces + [piece]) + rest;
  }

  /** The date loop of `_extract_current_view`: the first of the first 20 lines with a match decides. */
  method FindHeaderDate(lines: seq<String>, today: Date) returns (r: Result<Date>)
    ensures r == HeaderDate(lines, today)
  {
    var n := if |lines| < 20 then |lines| else 20;
    var head := lines[..n];
    var k := 0;
    while k < n
      invariant 0 <= k <= n
      invariant HeaderDateFrom(head[k..], today) == HeaderDate(lines, today)
      decreases n - k
    {
      assert head[k..][1..] == head[k + 1..];
      var m := SearchDMY(head[k]);
      if m.Some? {
        return DateOf(m.value);
      }
      k := k + 1;
    }
    return Ok(today);
  }

  /** `Cut` read off at the stop the collecting loop has reached. */
  lemma CutAt(lines: seq<String>, start: nat, j: nat, prefix: String)
    requires start <= j <= |lines| && FirstStop(lines, start, prefix) == FirstStop(lines, j, prefix)
    requires j == |lines| || Stops(lines[j], prefix)
    ensures Cut(lines, start, prefix) ==
      if j == |lines| then Segment(lines[start..j], "", j)
      else if PriceLineAfter(lines[j], prefix) then Segment(lines[start..j], lines[j], j + 1)
      else if IsAllergenLine(lines[j]) then Segment(lines[start..j], "", j + 1)
      else Segment(lines[start..j], "", j)
  {
    assert FirstStop(lines, j, prefix) == j;
  }

  /** The collecting loop for one dish, from a line that is not a header. */
  method CollectDish(lines: seq<String>, start: nat, prefix: String) returns (itemLines: seq<String>, price: String, i: nat)
    requires start < |lines| && !IsHeader(lines[start])
    ensures Segment(itemLines, price, i) == Cut(lines, start, prefix)
  {
    itemLines := [];
    price := "";
    i := start;
    while i < |lines|
      invariant start <= i <= |lines|
      invariant itemLines == lines[start..i] && price == ""
      invariant FirstStop(lines, start, prefix) == FirstStop(lines, i, prefix)
      decreases |lines| - i
    {
      var current := lines[i];
      if PriceLineAfter(current, prefix) {
        CutAt(lines, start, i, prefix);
        price := current;
        i := i + 1;
        return;
      } else if IsAllergenLine(current) {
        CutAt(lines, start, i, prefix);
        i := i + 1;
        return;
      } else if IsHeader(current) {
        CutAt(lines, start, i, prefix);
        return;
      } else {
        itemLines := itemLines + [current];
        i := i + 1;
      }
    }
    CutAt(lines, start, i, prefix);
  }

  /** `_extract_current_view` over the page text, with `today` for `date.today()`. */
  method ExtractCurrentView(body: String, today: Date) returns (items: seq<DatedDish>)
    ensures items == CurrentView(body, today)
  {
    var lines := BodyLines(body);
    var found := FindHeaderDate(lines, today);
    if found.Raised? {
      return [];
    }
    items := ParseLines(lines, found.value);
  }

  /** The inner loop of `_extract_current_view`: the dishes of one category, up to the next header or the end. */
  method ParseCategory(lines: seq<String>, start: nat, d: Date, prefix: String, category: String)
    returns (items: seq<DatedDish>, i: nat, ghost pieces: seq<Piece>)
    requires start <= |lines|
    ensures start <= i <= |lines| && (i == |lines| || IsHeader(lines[i]))
    ensures pieces + Outer(lines, i, prefix) == Inner(lines, start, prefix, category)
    ensures items == Dishes(d, pieces)
  {
    items := [];
    i := start;
    pieces := [];
    while i < |lines| && !IsHeader(lines[i])
      invariant start <= i <= |lines|
      invariant pieces + Inner(lines, i, prefix, category) == Inner(lines, start, prefix, category)
      invariant items == Dishes(d, pieces)
      decreases |lines| - i
    {
      var itemLines, price, next := CollectDish(lines, i, prefix);
      var piece := Piece(category, Segment(itemLines, price, next));
      InnerItemStep(lines, start, i, prefix, category, pieces, piece);
      DishesAppend(d, pieces, piece);
      items := items + Emit(d, piece);
      pieces := pieces + [piece];
      i := next;
    }
  }

  /** The category walk of `_extract_current_view`, dishes dated `d`. */
  method ParseLines(lines: seq<String>, d: Date) returns (items: seq<DatedDish>)
    ensures items == Dishes(d, Outer(lines, 0, MisdecodedEuro))
  {
    items := [];
    var i := 0;
    ghost var done: seq<Piece> := [];
    while i < |lines|
      invariant 0 <= i <= |lines|
      invariant done + Outer(lines, i, MisdecodedEuro) == Outer(lines, 0, MisdecodedEuro)
      invariant items == Dishes(d, done)
      decreases |lines| - i
    {
      if IsHeader(lines[i]) {
        var category := NormalizeCategory(lines[i]);
        var found, next, pieces := ParseCategory(lines, i + 1, d, MisdecodedEuro, category);
        OuterHeaderStep(lines, i, MisdecodedEuro, done, pieces, next);
        DishesConcat(d, done, pieces);
        items := items + found;
        done := done + pieces;
        i := next;
      } else {
        i := i + 1;
      }
    }
    assert done == Outer(lines, 0, MisdecodedEuro);
  }

  /** `scrape` after the page is loaded: `None` instead of an empty list. */
  method Scrape(body: String, today: Date) returns (r: Option<seq<DatedDish>>)
    ensures r.None? <==> CurrentView(body, today) == []
    ensures r.Some? ==> r.value == CurrentView(body, today)
  {
    var items := ExtractCurrentView(body, today);
    r := if items != [] then Some(items) else None;
  }
}
