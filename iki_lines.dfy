/**
 * The reading of single lines and link texts in
 * `app/scrapers/iki_scraper.py`: the euro price pattern and the name before
 * it, the description test for the next line, the categories, and the
 * calendar week pattern of a PDF link.
 */
module IkiLines {
  import opened Wrappers
  import opened Text
  import opened Keywords
  import opened Decimals
  import opened Patterns

  /** Whitespace from `j` up to `k`. */
  predicate SpaceRun(s: String, j: nat, k: nat)
    requires j <= k <= |s|
  {
    forall m :: j <= m < k ==> IsSpace(s[m])
  }

  /** Capitals A to Z from `j` up to `k`. */
  predicate CapsRun(s: String, j: nat, k: nat)
    requires j <= k <= |s|
  {
    forall m :: j <= m < k ==> IsAsciiUpper(s[m])
  }

  /** The end of the run of whitespace that starts at `k` (`\s*` taken greedily). */
  function SpacesEnd(s: String, k: nat): (e: nat)
    requires k <= |s|
    ensures k <= e <= |s|
    decreases |s| - k
  {
    if k < |s| && IsSpace(s[k]) then SpacesEnd(s, k + 1) else k
  }

  lemma {:induction false} SpacesEndFacts(s: String, k: nat)
    requires k <= |s|
    ensures var e := SpacesEnd(s, k); SpaceRun(s, k, e) && (e < |s| ==> !IsSpace(s[e]))
    decreases |s| - k
  {
    if k < |s| && IsSpace(s[k]) {
      SpacesEndFacts(s, k + 1);
    }
  }

  /**
   * `€\s*(\d+[,\.]\d{2})` tried at `p`: the bounds of the group. Neither
   * `\s*` nor `\d+` can give back a character and still match, so the
   * greedy runs decide.
   */
  function PriceAt(s: String, p: nat): (r: Option<(nat, nat)>)
    requires p <= |s|
    ensures r.Some? ==> p < r.value.0 && r.value.0 + 4 <= r.value.1 <= |s|
  {
    if p < |s| && s[p] == '€' then
      var a := SpacesEnd(s, p + 1);
      var b := DigitRunEnd(s, a);
      if a < b && b + 3 <= |s| && IsSep(s[b]) && IsDigit(s[b + 1]) && IsDigit(s[b + 2]) then Some((a, b + 3))
      else None
    else None
  }

  /** What the group matched at `p` is made of: whitespace after the euro sign, then digits, a separator and two digits. */
  lemma PriceAtShape(s: String, p: nat, a: nat, e: nat)
    requires p <= |s| && PriceAt(s, p) == Some((a, e))
    ensures s[p] == '€' && SpaceRun(s, p + 1, a) && DigitRun(s, a, e - 3)
    ensures IsSep(s[e - 3]) && IsDigit(s[e - 2]) && IsDigit(s[e - 1])
  {
    SpacesEndFacts(s, p + 1);
    DigitRunEndFacts(s, SpacesEnd(s, p + 1));
  }

  /** A match of the price pattern: where it starts and the bounds of its group. */
  datatype PriceMatch = PriceMatch(start: nat, groupStart: nat, groupEnd: nat)

  /** `re.search`: the leftmost position from `p` on where the price matches, with the group's bounds. */
  function SearchPrice(s: String, p: nat): (r: Option<PriceMatch>)
    requires p <= |s|
    ensures r.Some? ==> (p <= r.value.start <= |s|
      && PriceAt(s, r.value.start) == Some((r.value.groupStart, r.value.groupEnd)))
    decreases |s| - p
  {
    if p == |s| then None
    else if PriceAt(s, p).Some? then Some(PriceMatch(p, PriceAt(s, p).value.0, PriceAt(s, p).value.1))
    else SearchPrice(s, p + 1)
  }

  /** The price pattern matches at no position before `p`. */
  predicate NoPriceBefore(s: String, p: nat)
    requires p <= |s|
  {
    forall q :: 0 <= q < p ==> PriceAt(s, q).None?
  }

  /** The match found is the leftmost one from `p` on. */
  lemma {:induction false} SearchPriceLeftmost(s: String, p: nat)
    requires p <= |s| && SearchPrice(s, p).Some?
    ensures forall q :: p <= q < SearchPrice(s, p).value.start ==> PriceAt(s, q).None?
    decreases |s| - p
  {
    if PriceAt(s, p).None? {
      SearchPriceLeftmost(s, p + 1);
    }
  }

  /** No match is found only when the pattern matches at no position from `p` on. */
  lemma {:induction false} SearchPriceNone(s: String, p: nat)
    requires p <= |s| && SearchPrice(s, p).None?
    ensures forall q :: p <= q <= |s| ==> PriceAt(s, q).None?
    decreases |s| - p
  {
    if p < |s| {
      SearchPriceNone(s, p + 1);
    }
  }

  /** Without a euro sign the price pattern matches nowhere. */
  lemma {:induction false} NoEuroNoPrice(s: String, p: nat)
    requires p <= |s| && '€' !in s
    ensures SearchPrice(s, p).None?
    decreases |s| - p
  {
    if p < |s| {
      assert s[p] in s;
      NoEuroNoPrice(s, p + 1);
    }
  }

  /** The start of the run of capitals A to Z that ends at `k`. */
  function CapsBack(s: String, k: nat): (j: nat)
    requires k <= |s|
    ensures j <= k
  {
    if k > 0 && IsAsciiUpper(s[k - 1]) then CapsBack(s, k - 1) else k
  }

  /** The start of the run of whitespace that ends at `k`. */
  function SpacesBack(s: String, k: nat): (j: nat)
    requires k <= |s|
    ensures j <= k
  {
    if k > 0 && IsSpace(s[k - 1]) then SpacesBack(s, k - 1) else k
  }

  lemma {:induction false} CapsBackFacts(s: String, k: nat)
    requires k <= |s|
    ensures CapsRun(s, CapsBack(s, k), k)
  {
    if k > 0 && IsAsciiUpper(s[k - 1]) {
      CapsBackFacts(s, k - 1);
    }
  }

  lemma {:induction false} SpacesBackFacts(s: String, k: nat)
    requires k <= |s|
    ensures var j := SpacesBack(s, k); SpaceRun(s, j, k) && (j > 0 ==> !IsSpace(s[j - 1]))
  {
    if k > 0 && IsSpace(s[k - 1]) {
      SpacesBackFacts(s, k - 1);
    }
  }

  /**
   * `re.sub(r'\s+[A-Z]+\s*$', '', s).strip()`: a last word of capitals
   * (an allergen code) is removed with the whitespace before it. The match
   * can only start where that whitespace starts.
   */
  function DropCode(s: String): String
  {
    var t := StripRight(s);
    var k := CapsBack(t, |t|);
    if 0 < k < |t| && IsSpace(t[k - 1]) then Strip(t[..SpacesBack(t, k)]) else Strip(s)
  }

  /** Text that ends in whitespace and then capitals A to Z only. */
  predicate CodeTail(s: String)
  {
    exists j, k :: 0 <= j < k < |s| && SpaceRun(s, j, k) && CapsRun(s, k, |s|)
  }

  /**
   * On stripped text: when it ends in whitespace and capitals, the result
   * is the text before them; otherwise the text is kept as it is.
   */
  lemma DropCodeMeans(s: String)
    requires Stripped(s)
    ensures CodeTail(s) ==> exists j, k :: 0 < j < k < |s| && DropCode(s) == s[..j] && SpaceRun(s, j, k) && CapsRun(s, k, |s|)
    ensures !CodeTail(s) ==> DropCode(s) == s
  {
    if CodeTail(s) {
      var j, k := DropCodeCut(s);
    } else {
      DropCodeKeep(s);
    }
  }

  /** Stripped text with an allergen code: the code and the whitespace before it go. */
  lemma DropCodeCut(s: String) returns (j: nat, k: nat)
    requires Stripped(s) && CodeTail(s)
    ensures 0 < j < k < |s| && DropCode(s) == s[..j] && SpaceRun(s, j, k) && CapsRun(s, k, |s|)
  {
    TailAtCaps(s);
    k := CapsBack(s, |s|);
    j := CapsCut(s);
    StrippedFixed(s);
    assert StripRight(s) == s;
    var pre := s[..j];
    assert pre[0] == s[0] && pre[|pre| - 1] == s[j - 1];
    StrippedFixed(pre);
  }

  /** Stripped text without an allergen code is kept as it is. */
  lemma DropCodeKeep(s: String)
    requires Stripped(s) && !CodeTail(s)
    ensures DropCode(s) == s
  {
    StrippedFixed(s);
    assert StripRight(s) == s;
    var k := CapsBack(s, |s|);
    if 0 < k < |s| && IsSpace(s[k - 1]) {
      var j := CapsCut(s);
      assert false;
    }
  }

  /** A code tail's capitals are exactly the run of capitals at the end. */
  lemma TailAtCaps(s: String)
    requires CodeTail(s)
    ensures var k := CapsBack(s, |s|); 0 < k < |s| && IsSpace(s[k - 1])
  {
    var j0, k0 :| 0 <= j0 < k0 < |s| && SpaceRun(s, j0, k0) && CapsRun(s, k0, |s|);
    assert IsSpace(s[k0 - 1]);
    CapsBackStops(s, |s|, k0);
  }

  /** Whitespace before the run of capitals at the end: where it starts. */
  lemma CapsCut(s: String) returns (j: nat)
    requires Stripped(s)
    requires var k := CapsBack(s, |s|); 0 < k < |s| && IsSpace(s[k - 1])
    ensures var k := CapsBack(s, |s|); 0 < j < k && j == SpacesBack(s, k)
    ensures SpaceRun(s, j, CapsBack(s, |s|)) && CapsRun(s, CapsBack(s, |s|), |s|) && !IsSpace(s[j - 1])
  {
    var k := CapsBack(s, |s|);
    CapsBackFacts(s, |s|);
    j := SpacesBack(s, k);
    SpacesBackFacts(s, k);
    assert SpacesBack(s, k) == SpacesBack(s, k - 1);
  }

  /** The run of capitals ending at `k` reaches back exactly to a non-capital at `k0 - 1`. */
  lemma {:induction false} CapsBackStops(s: String, k: nat, k0: nat)
    requires 0 < k0 <= k <= |s| && !IsAsciiUpper(s[k0 - 1])
    requires CapsRun(s, k0, k)
    ensures CapsBack(s, k) == k0
    decreases k
  {
    if k > k0 {
      CapsBackStops(s, k - 1, k0);
    }
  }

  /** `.replace('.', ',')` on digits, a separator and digits: the separator becomes a comma. */
  lemma CommaSeparator(a: String, c: char, b: String)
    requires IsSep(c) && '.' !in a && '.' !in b
    ensures Replace(a + [c] + b, ".", ",") == a + "," + b
  {
    ReplaceCharConcat(a + [c], b, '.', ",");
    ReplaceCharConcat(a, [c], '.', ",");
    ReplaceCharAbsent(a, '.', ",");
    ReplaceCharAbsent(b, '.', ",");
    assert Replace([c], ".", ",") == ",";
  }

  /**
   * A dish line's name and price: the stripped text before the leftmost
   * price without its allergen code, and `€` with the group's separator as
   * a comma. `None` when the line holds no price or the name comes out empty.
   */
  function Head(line: String): Option<(String, String)>
  {
    match SearchPrice(line, 0)
      case None => None
      case Some(m) =>
        var name := ItemName(line, m.start);
        if name == [] then None else Some((name, "€" + Replace(line[m.groupStart..m.groupEnd], ".", ",")))
  }

  /** The name before a price found at `p`: the stripped text before it without its allergen code. */
  function ItemName(line: String, p: nat): String
    requires p <= |line|
  {
    DropCode(Strip(line[..p]))
  }

  /** A dish line's name and price come from the leftmost match of the price pattern. */
  lemma HeadMatch(line: String) returns (m: PriceMatch)
    requires Head(line).Some?
    ensures SearchPrice(line, 0) == Some(m) && m.start < m.groupStart && m.groupStart + 4 <= m.groupEnd <= |line|
    ensures Head(line).value.0 == ItemName(line, m.start) != []
    ensures Head(line).value.1 == "€" + Replace(line[m.groupStart..m.groupEnd], ".", ",")
  {
    m := SearchPrice(line, 0).value;
  }

  /** The leftmost match: no match before it, the euro sign, whitespace, the digits, the separator and two decimals. */
  lemma MatchShape(line: String, m: PriceMatch)
    requires SearchPrice(line, 0) == Some(m)
    ensures var p, a, e := m.start, m.groupStart, m.groupEnd;
      p < a && a + 3 < e <= |line| && NoPriceBefore(line, p)
      && line[p] == '€' && SpaceRun(line, p + 1, a) && DigitRun(line, a, e - 3) && IsSep(line[e - 3])
      && IsDigit(line[e - 2]) && IsDigit(line[e - 1])
      && Replace(line[a..e], ".", ",") == line[a..e - 3] + "," + line[e - 2..e]
  {
    SearchPriceLeftmost(line, 0);
    PriceAtShape(line, m.start, m.groupStart, m.groupEnd);
    GroupComma(line, m.groupStart, m.groupEnd);
  }

  /** The group of a match, with its separator made a comma: the digits, a comma and the two decimals. */
  lemma GroupComma(line: String, a: nat, e: nat)
    requires a + 3 < e <= |line| && DigitRun(line, a, e - 3) && IsSep(line[e - 3])
    requires IsDigit(line[e - 2]) && IsDigit(line[e - 1])
    ensures Replace(line[a..e], ".", ",") == line[a..e - 3] + "," + line[e - 2..e]
  {
    var d, two := line[a..e - 3], line[e - 2..e];
    assert forall m :: 0 <= m < |d| ==> d[m] == line[a + m];
    DigitsNoPoint(d);
    DigitsNoPoint(two);
    CommaSeparator(d, line[e - 3], two);
    assert line[a..e] == d + [line[e - 3]] + two;
  }

  /** A price written as a euro amount: it starts with the euro sign. */
  predicate EuroPrice(price: String)
  {
    price != [] && price[0] == '€'
  }

  /** A dish line's price starts with the euro sign. */
  lemma HeadEuro(line: String)
    ensures Head(line).Some? ==> EuroPrice(Head(line).value.1)
  {
  }

  /** Digits hold no point. */
  lemma DigitsNoPoint(s: String)
    requires forall k :: 0 <= k < |s| ==> IsDigit(s[k])
    ensures '.' !in s
  {
  }

  /** `next_line` describes the dish: no euro sign, not all upper case, longer than 10 characters. */
  predicate Describes(line: String)
  {
    '€' !in line && !IsUpperStr(line) && |line| > 10
  }

  /** The categories, first match wins. */
  const IkiTable: seq<(String, seq<String>)> := [
    ("Bento Box", ["bento", "box"]),
    ("Salad", ["salad", "salat"]),
    ("Noodles", ["ramen", "nudeln"]),
    ("Sushi", ["roll", "sushi"]),
    ("Beverages", ["limonade", "drink"])]

  lemma IkiLabels()
    ensures Labels(IkiTable, "Main Dish") == ["Bento Box", "Salad", "Noodles", "Sushi", "Beverages", "Main Dish"]
  {
  }

  /** The six categories a dish can get. */
  predicate IkiCategory(c: String)
  {
    c in {"Bento Box", "Salad", "Noodles", "Sushi", "Beverages", "Main Dish"}
  }

  /** The category of a dish: the first entry with a word in the lower-cased name, else `Main Dish`. */
  function Categorize(name: String): (c: String)
    ensures IkiCategory(c)
  {
    ClassifyIn(Lower(name), IkiTable, "Main Dish");
    IkiLabels();
    Classify(Lower(name), IkiTable, "Main Dish")
  }

  /** A bento word wins over every later entry, even in a salad box. */
  lemma BentoFirst(name: String)
    requires AnyIn(Lower(name), ["bento", "box"])
    ensures Categorize(name) == "Bento Box"
  {
    ClassifyFirst(Lower(name), IkiTable, "Main Dish", 0);
  }

  /** A name with no word of any entry is a `Main Dish`. */
  lemma NoWordMainDish(name: String)
    requires forall k :: 0 <= k < |IkiTable| ==> !AnyIn(Lower(name), IkiTable[k].1)
    ensures Categorize(name) == "Main Dish"
  {
    ClassifyDefault(Lower(name), IkiTable, "Main Dish");
  }

  /** The end of the run of `-` and whitespace that starts at `k`. */
  function DashesEnd(s: String, k: nat): (e: nat)
    requires k <= |s|
    ensures k <= e <= |s|
    ensures e < |s| ==> s[e] != '-' && !IsSpace(s[e])
    decreases |s| - k
  {
    if k < |s| && (s[k] == '-' || IsSpace(s[k])) then DashesEnd(s, k + 1) else k
  }

  /** `kw[-\s]*(\d+)` tried at `p`: the week number, the whole run of digits. */
  function WeekAt(s: String, p: nat): (r: Option<nat>)
    requires p <= |s|
  {
    if p + 2 <= |s| && s[p] == 'k' && s[p + 1] == 'w' then
      var a := DashesEnd(s, p + 2);
      var b := DigitRunEnd(s, a);
      DigitRunEndFacts(s, a);
      assert forall i :: 0 <= i < b - a ==> s[a..b][i] == s[a + i];
      if a < b then Some(DigitsValue(s[a..b])) else None
    else None
  }

  /** `re.search`: the week at the leftmost position from `p` on where the pattern matches. */
  function SearchWeek(s: String, p: nat): (r: Option<nat>)
    requires p <= |s|
    decreases |s| - p
  {
    if p == |s| then None
    else if WeekAt(s, p).Some? then WeekAt(s, p)
    else SearchWeek(s, p + 1)
  }

  /** The week found is that of the leftmost position from `p` on where the pattern matches. */
  lemma {:induction false} SearchWeekLeftmost(s: String, p: nat) returns (q: nat)
    requires p <= |s| && SearchWeek(s, p).Some?
    ensures p <= q < |s| && SearchWeek(s, p) == WeekAt(s, q)
    ensures forall q' :: p <= q' < q ==> WeekAt(s, q').None?
    decreases |s| - p
  {
    if WeekAt(s, p).Some? {
      q := p;
    } else {
      q := SearchWeekLeftmost(s, p + 1);
    }
  }

  /** No week is found only when the pattern matches at no position from `p` on. */
  lemma {:induction false} SearchWeekNone(s: String, p: nat)
    requires p <= |s| && SearchWeek(s, p).None?
    ensures forall q :: p <= q <= |s| ==> WeekAt(s, q).None?
    decreases |s| - p
  {
    if p < |s| {
      SearchWeekNone(s, p + 1);
    }
  }
}
