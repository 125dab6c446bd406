/**
 * The debugging copy of the Erste Campus scraper. Its collecting loop
 * differs from the production one: on an allergen line it skips the whole
 * run of allergen lines and then takes the next line as the price when it
 * is a euro price line.
 */
module ErsteDebug {
  import opened Wrappers
  import opened Text
  import opened Dates
  import opened ErsteText
  import opened ErsteApp
  import opened Seqs

  /** The first index at or after `k` that is not an allergen line. */
  function AllergenRunEnd(lines: seq<String>, k: nat): (r: nat)
    requires k <= |lines|
    ensures k <= r <= |lines|
    decreases |lines| - k
  {
    if k < |lines| && IsAllergenLine(lines[k]) then AllergenRunEnd(lines, k + 1) else k
  }

  /** The run from `k` is made of allergen lines only and is maximal. */
  lemma {:induction false} AllergenRunShape(lines: seq<String>, k: nat)
    requires k <= |lines|
    ensures forall m :: k <= m < AllergenRunEnd(lines, k) ==> IsAllergenLine(lines[m])
    ensures AllergenRunEnd(lines, k) < |lines| ==> !IsAllergenLine(lines[AllergenRunEnd(lines, k)])
    decreases |lines| - k
  {
    if k < |lines| && IsAllergenLine(lines[k]) {
      AllergenRunShape(lines, k + 1);
    }
  }

  /** What the description loop does once it meets an allergen line at `k`: skip the run, then take a price line. */
  function AfterAllergens(lines: seq<String>, k: nat): (r: Segment)
    requires k <= |lines|
    ensures k <= r.next <= |lines| && r.lines == []
    ensures r.price != "" ==> PriceLineAfter(r.price, Euro)
  {
    var e := AllergenRunEnd(lines, k);
    if e < |lines| && PriceLineAfter(lines[e], Euro) then
      assert |lines[e]| > SkipSpaces(lines[e], |Euro|);
      Segment([], lines[e], e + 1)
    else Segment([], "", e)
  }

  /**
   * One item of the description loop from `i`, line by line: a header ends
   * it and is left in place; an allergen line ends it as `AfterAllergens`
   * says; a price line is the price and ends it; any other line is
   * description.
   */
  function DebugCut(lines: seq<String>, i: nat): (r: Segment)
    requires i <= |lines|
    ensures i <= r.next <= |lines|
    ensures i < |lines| && !IsHeader(lines[i]) ==> i < r.next
    ensures r.price != "" ==> PriceLineAfter(r.price, Euro)
    decreases |lines| - i
  {
    if i == |lines| then Segment([], "", i)
    else if IsHeader(lines[i]) then Segment([], "", i)
    else if IsAllergenLine(lines[i]) then AfterAllergens(lines, i)
    else if PriceLineAfter(lines[i], Euro) then
      assert |lines[i]| > SkipSpaces(lines[i], |Euro|);
      Segment([], lines[i], i + 1)
    else
      var r := DebugCut(lines, i + 1);
      Segment([lines[i]] + r.lines, r.price, r.next)
  }

  /** The description lines of an item are exactly those before the first header, allergen or price line. */
  lemma {:induction false} DebugCutLines(lines: seq<String>, i: nat)
    requires i <= |lines|
    ensures DebugCut(lines, i) == (var j := FirstStop(lines, i, Euro); var s := DebugCut(lines, j);
      Segment(lines[i..j], s.price, s.next))
    decreases |lines| - i
  {
    var j := FirstStop(lines, i, Euro);
    if i < |lines| && !Stops(lines[i], Euro) {
      DebugCutLines(lines, i + 1);
      var r := DebugCut(lines, i + 1);
      assert FirstStop(lines, i + 1, Euro) == j;
      assert DebugCut(lines, i) == Segment([lines[i]] + r.lines, r.price, r.next);
      ConsSlice(lines, i, j);
    } else {
      assert j == i && lines[i..j] == [];
    }
  }


  /** The parsing loop from `i`, outside any category. */
  function Outer(lines: seq<String>, i: nat): (r: seq<Piece>)
    requires i <= |lines|
    decreases |lines| - i, 0
  {
    if i == |lines| then []
    else if IsHeader(lines[i]) then Inner(lines, i + 1, NormalizeCategory(lines[i]))
    else Outer(lines, i + 1)
  }

  /** The parsing loop from `i`, inside `category`. */
  function Inner(lines: seq<String>, i: nat, category: String): (r: seq<Piece>)
    requires i <= |lines|
    decreases |lines| - i, 1
  {
    if i == |lines| then []
    else if IsHeader(lines[i]) then Outer(lines, i)
    else
      var s := DebugCut(lines, i);
      [Piece(category, s)] + Inner(lines, s.next, category)
  }

  /** What `_extract_current_view` returns: [] when the header date raises. */
  function CurrentView(body: String, today: Date): (r: seq<DatedDish>)
  {
    var lines := BodyLines(body);
    match HeaderDate(lines, today)
    case Raised => []
    case Ok(d) => Dishes(d, Outer(lines, 0))
  }

  /**
   * After description lines, an allergen line ends the item; the price is
   * the line after the whole allergen run exactly when that line is a
   * price line, and the walk resumes after what was consumed.
   */
  lemma AllergenRunPrice(lines: seq<String>, i: nat)
    requires i <= |lines|
    requires var j := FirstStop(lines, i, Euro); j < |lines| && IsAllergenLine(lines[j])
    ensures var j := FirstStop(lines, i, Euro); var k := AllergenRunEnd(lines, j);
      var s := DebugCut(lines, i);
      j < k
      && (s.price != "" <==> k < |lines| && PriceLineAfter(lines[k], Euro))
      && (s.price != "" ==> s.price == lines[k] && s.next == k + 1)
      && (s.price == "" ==> s.next == k)
  {
    var j := FirstStop(lines, i, Euro);
    DebugCutLines(lines, i);
    if IsHeader(lines[j]) {
      HeaderNotAllergen(lines[j]);
    }
  }

  /** A header ends the item without being consumed, so the next category opens there. */
  lemma HeaderLeft(lines: seq<String>, i: nat)
    requires i <= |lines|
    requires var j := FirstStop(lines, i, Euro); j < |lines| && IsHeader(lines[j])
    ensures DebugCut(lines, i).next == FirstStop(lines, i, Euro)
    ensures DebugCut(lines, i).price == ""
  {
    DebugCutLines(lines, i);
  }

  /** A price line ends the item and is consumed as its price. */
  lemma PriceLineTaken(lines: seq<String>, i: nat)
    requires i <= |lines|
    requires var j := FirstStop(lines, i, Euro); j < |lines| && PriceLineAfter(lines[j], Euro)
    ensures DebugCut(lines, i).price == lines[FirstStop(lines, i, Euro)]
    ensures DebugCut(lines, i).next == FirstStop(lines, i, Euro) + 1
  {
    var j := FirstStop(lines, i, Euro);
    DebugCutLines(lines, i);
    assert !IsHeader(lines[j]) && !IsAllergenLine(lines[j]) by {
      RealEuroIsText(lines[j]);
    }
  }

  /** The walk puts every piece under a known category, with a euro price line or no price. */
  lemma {:induction false} OuterPiecesOk(lines: seq<String>, i: nat)
    requires i <= |lines|
    ensures AllPiecesOk(Outer(lines, i), Euro)
    decreases |lines| - i, 0
  {
    if i < |lines| {
      if IsHeader(lines[i]) {
        InnerPiecesOk(lines, i + 1, NormalizeCategory(lines[i]));
      } else {
        OuterPiecesOk(lines, i + 1);
      }
    }
  }

  lemma {:induction false} InnerPiecesOk(lines: seq<String>, i: nat, category: String)
    requires i <= |lines| && category in Categories
    ensures AllPiecesOk(Inner(lines, i, category), Euro)
    decreases |lines| - i, 1
  {
    if i < |lines| {
      if IsHeader(lines[i]) {
        OuterPiecesOk(lines, i);
      } else {
        var s := DebugCut(lines, i);
        InnerPiecesOk(lines, s.next, category);
        var r := Inner(lines, s.next, category);
        assert forall k :: 0 < k < |[Piece(category, s)] + r| ==> ([Piece(category, s)] + r)[k] == r[k - 1];
      }
    }
  }

  /** Every dish carries the page date, a known category, a clean text of more than 10 characters and a euro price line or "". */
  lemma CurrentViewWellFormed(body: String, today: Date)
    requires HeaderDate(BodyLines(body), today).Ok?
    ensures AllWellFormed(CurrentView(body, today), HeaderDate(BodyLines(body), today).value, Euro)
  {
    var lines := BodyLines(body);
    OuterPiecesOk(lines, 0);
    DishesWellFormed(HeaderDate(lines, today).value, Outer(lines, 0), Euro);
  }

  /** A whole category walked from its header keeps the pieces so far a prefix of the walk. */
  lemma OuterHeaderStep(lines: seq<String>, i: nat, done: seq<Piece>, pieces: seq<Piece>, next: nat)
    requires i < next <= |lines| && IsHeader(lines[i])
    requires pieces + Outer(lines, next) == Inner(lines, i + 1, NormalizeCategory(lines[i]))
    ensures done + Outer(lines, i) == (done + pieces) + Outer(lines, next)
  {
  }

  /** One item cut inside a category keeps the pieces so far a prefix of the category. */
  lemma InnerItemStep(lines: seq<String>, start: nat, i: nat, category: String, pieces: seq<Piece>, piece: Piece)
    requires start <= i < |lines| && !IsHeader(lines[i])
    requires piece == Piece(category, DebugCut(lines, i))
    requires pieces + Inner(lines, i, category) == Inner(lines, start, category)
    ensures (pieces + [piece]) + Inner(lines, piece.segment.next, category) == Inner(lines, start, category)
  {
    var rest := Inner(lines, piece.segment.next, category);
    assert Inner(lines, i, category) == [piece] + rest;
    assert pieces + ([piece] + rest) == (pieces + [piece]) + rest;
  }

  /** `DebugCut` read off at the stop the description loop has reached. */
  lemma DebugCutAt(lines: seq<String>, start: nat, j: nat)
    requires start <= j <= |lines| && FirstStop(lines, start, Euro) == FirstStop(lines, j, Euro)
    requires j == |lines| || Stops(lines[j], Euro)
    ensures DebugCut(lines, start) ==
      if j == |lines| || IsHeader(lines[j]) then Segment(lines[start..j], "", j)
      else if IsAllergenLine(lines[j]) then
        var a := AfterAllergens(lines, j); Segment(lines[start..j], a.price, a.next)
      else Segment(lines[start..j], lines[j], j + 1)
  {
    DebugCutLines(lines, start);
    assert FirstStop(lines, j, Euro) == j;
  }

  /** The allergen branch of the description loop: skip the run of allergen lines, then take a price line if one follows. */
  method SkipAllergens(lines: seq<String>, k: nat) returns (price: String, i: nat)
    requires k <= |lines|
    ensures Segment([], price, i) == AfterAllergens(lines, k)
  {
    i := k;
    price := "";
    while i < |lines| && IsAllergenLine(lines[i])
      invariant k <= i <= |lines|
      invariant AllergenRunEnd(lines, k) == AllergenRunEnd(lines, i)
      decreases |lines| - i
    {
      i := i + 1;
    }
    if i < |lines| {
      if PriceLineAfter(lines[i], Euro) {
        price := lines[i];
        i := i + 1;
      }
    }
  }

  /**
   * The description loop for one item, from a line that is not a header.
   * Setting `description_complete` ends the loop with nothing after it, so
   * each such branch returns.
   */
  method CollectDish(lines: seq<String>, start: nat) returns (itemLines: seq<String>, price: String, i: nat)
    requires start < |lines| && !IsHeader(lines[start])
    ensures Segment(itemLines, price, i) == DebugCut(lines, start)
  {
    itemLines := [];
    price := "";
    i := start;
    while i < |lines|
      invariant start <= i <= |lines|
      invariant itemLines == lines[start..i] && price == ""
      invariant FirstStop(lines, start, Euro) == FirstStop(lines, i, Euro)
      decreases |lines| - i
    {
      var current := lines[i];
      if IsHeader(current) {
        DebugCutAt(lines, start, i);
        return;
      } else if IsAllergenLine(current) {
        DebugCutAt(lines, start, i);
        price, i := SkipAllergens(lines, i);
        return;
      } else if PriceLineAfter(current, Euro) {
        DebugCutAt(lines, start, i);
        price := current;
        i := i + 1;
        return;
      } else {
        itemLines := itemLines + [current];
        i := i + 1;
      }
    }
    DebugCutAt(lines, start, i);
  }

  /** The dishes of one category, from the line after its header up to the next header or the end. */
  method ParseCategory(lines: seq<String>, start: nat, d: Date, category: String)
    returns (items: seq<DatedDish>, i: nat, ghost pieces: seq<Piece>)
    requires start <= |lines|
    ensures start <= i <= |lines| && (i == |lines| || IsHeader(lines[i]))
    ensures pieces + Outer(lines, i) == Inner(lines, start, category)
    ensures items == Dishes(d, pieces)
  {
    items := [];
    i := start;
    pieces := [];
    while i < |lines| && !IsHeader(lines[i])
      invariant start <= i <= |lines|
      invariant pieces + Inner(lines, i, category) == Inner(lines, start, category)
      invariant items == Dishes(d, pieces)
      decreases |lines| - i
    {
      var itemLines, price, next := CollectDish(lines, i);
      var piece := Piece(category, Segment(itemLines, price, next));
      InnerItemStep(lines, start, i, category, pieces, piece);
      DishesAppend(d, pieces, piece);
      items := items + Emit(d, piece);
      pieces := pieces + [piece];
      i := next;
    }
  }

  /** The category walk of `_extract_current_view`, dishes dated `d`. */
  method ParseLines(lines: seq<String>, d: Date) returns (items: seq<DatedDish>)
    ensures items == Dishes(d, Outer(lines, 0))
  {
    items := [];
    var i := 0;
    ghost var done: seq<Piece> := [];
    while i < |lines|
      invariant 0 <= i <= |lines|
      invariant done + Outer(lines, i) == Outer(lines, 0)
      invariant items == Dishes(d, done)
      decreases |lines| - i
    {
      var line := lines[i];
      if IsHeader(line) {
        var category := NormalizeCategory(line);
        var emitted, next, pieces := ParseCategory(lines, i + 1, d, category);
        OuterHeaderStep(lines, i, done, pieces, next);
        DishesConcat(d, done, pieces);
        items := items + emitted;
        done := done + pieces;
        i := next;
      } else {
        i := i + 1;
      }
    }
    assert done == Outer(lines, 0);
  }

  /** `_extract_current_view` over the page text, with `today` for `date.today()`. */
  method ExtractCurrentView(body: String, today: Date) returns (items: seq<DatedDish>)
    ensures items == CurrentView(body, today)
  {
    var lines := BodyLines(body);
    var found := FindHeaderDate(lines, today);
    if found.Raised? {
      return [];
    }
    items := ParseLines(lines, found.value);
  }

  /** `scrape` after the page is loaded: `None` instead of an empty list. */
  method Scrape(body: String, today: Date) returns (r: Option<seq<DatedDish>>)
    ensures r.None? <==> CurrentView(body, today) == []
    ensures r.Some? ==> r.value == CurrentView(body, today)
  {
    var items := ExtractCurrentView(body, today);
    r := if items != [] then Some(items) else None;
  }
}
