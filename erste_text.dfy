/**
 * Text handling shared by the Erste Campus scrapers: the visible page text
 * split into lines, the category headers, allergen-code lines, price lines,
 * the `DD.MM.YY` date pattern and the regular-expression steps of the
 * description cleaners.
 */
module ErsteText {
  import opened Wrappers
  import opened Text
  import opened Dates

  /** Keeps the stripped, non-empty lines: `[l.strip() for l in body.split('\n') if l.strip()]`. */
  function KeepStripped(parts: seq<String>): (lines: seq<String>)
    ensures |lines| <= |parts|
  {
    if parts == [] then []
    else
      var t := Strip(parts[0]);
      if t == [] then KeepStripped(parts[1..]) else [t] + KeepStripped(parts[1..])
  }

  /** A kept line: non-empty, already stripped, and on one line. */
  predicate CleanLine(line: String)
  {
    line != [] && Stripped(line) && '\n' !in line
  }

  predicate AllClean(lines: seq<String>)
  {
    forall k :: 0 <= k < |lines| ==> CleanLine(lines[k])
  }

  /** Every kept line is clean when no part spans a line break. */
  lemma {:induction false} KeepStrippedClean(parts: seq<String>)
    requires forall j :: 0 <= j < |parts| ==> '\n' !in parts[j]
    ensures AllClean(KeepStripped(parts))
  {
    if parts != [] {
      KeepStrippedClean(parts[1..]);
      if Strip(parts[0]) != [] {
        StripClean(parts[0]);
        ConsClean(Strip(parts[0]), KeepStripped(parts[1..]));
      }
    }
  }

  lemma StripClean(s: String)
    requires '\n' !in s && Strip(s) != []
    ensures CleanLine(Strip(s))
  {
    StripFacts(s);
  }

  lemma ConsClean(line: String, rest: seq<String>)
    requires CleanLine(line) && AllClean(rest)
    ensures AllClean([line] + rest)
  {
    assert forall k :: 1 <= k < |[line] + rest| ==> ([line] + rest)[k] == rest[k - 1];
  }

  lemma StripIdempotent(s: String)
    ensures Strip(Strip(s)) == Strip(s)
  {
    var t := Strip(s);
    if t != [] {
      assert StripLeft(t) == t;
      assert StripRight(t) == t;
    }
  }

  /** The lines of the page body as every Erste Campus scraper computes them. */
  function BodyLines(body: String): (lines: seq<String>)
    ensures AllClean(lines)
  {
    var parts := SplitOn(body, '\n');
    KeepStrippedClean(parts);
    KeepStripped(parts)
  }

  /** The four exact header lines that open a category. */
  const Headers: seq<String> := ["SOUP", "MAIN DISH", "DESSERTS", "SALAD"]

  predicate IsHeader(line: String) { Member(line, Headers) }

  /** The header test spelled out. */
  lemma HeaderCases(line: String)
    ensures IsHeader(line) <==> line == "SOUP" || line == "MAIN DISH" || line == "DESSERTS" || line == "SALAD"
  {
    MemberIsIn(line, Headers);
  }

  /** Headers are already upper case. */
  lemma UpperHeader(line: String)
    requires IsHeader(line)
    ensures Upper(line) == line
  {
    HeaderCases(line);
    assert forall i :: 0 <= i < |line| ==> IsAsciiUpper(line[i]) || line[i] == ' ';
    UpperOfUpper(line);
  }

  /** The allergen letters of the canteen's legend. */
  const AllergenCodes: set<char> := {'A', 'B', 'C', 'D', 'E', 'F', 'G', 'H', 'L', 'M', 'N', 'O', 'P', 'R'}

  /** `line.replace(' ', '')`. */
  function RemoveSpaces(line: String): String
  {
    Replace(line, " ", "")
  }

  /** The characters of `line` other than the plain space, in order. */
  function NonSpaces(line: String): (r: String)
    ensures |r| <= |line|
    ensures forall c :: c in r <==> c in line && c != ' '
  {
    if line == [] then []
    else (if line[0] == ' ' then [] else [line[0]]) + NonSpaces(line[1..])
  }

  /** Deleting every space with `replace` keeps exactly the other characters. */
  lemma {:induction false} RemoveSpacesIsFilter(line: String)
    ensures RemoveSpaces(line) == NonSpaces(line)
    decreases |line|
  {
    if line != [] {
      RemoveSpacesIsFilter(line[1..]);
      assert (line[..1] == " ") == (line[0] == ' ');
    }
  }

  predicate AllAllergens(chars: String) { forall c :: c in chars ==> c in AllergenCodes }

  /** `re.match(prefix + r'\s*\d+', line)`: the prefix, optional whitespace, then a digit. */
  predicate PriceLineAfter(line: String, prefix: String)
  {
    StartsWith(line, prefix) && var j := SkipSpaces(line, |prefix|); j < |line| && IsDigit(line[j])
  }

  /** The euro sign, and the three characters UTF-8 `€` becomes when read as Windows-1252. */
  const Euro: String := "€"
  const MisdecodedEuro: String := "â‚¬"

  /** Number of digits `\d{1,2}` takes at `p`: the digit run there, at most 2. */
  function Digits2(s: String, p: nat): (n: nat)
    ensures n <= 2 && (p + n <= |s| || n == 0)
    ensures forall k :: p <= k < p + n ==> IsDigit(s[k])
  {
    if p < |s| && IsDigit(s[p]) then (if p + 1 < |s| && IsDigit(s[p + 1]) then 2 else 1) else 0
  }

  datatype DMY = DMY(day: nat, month: nat, year: nat)

  /**
   * `(\d{1,2})\.(\d{1,2})\.(\d{2})` anchored at `p`. A run of digits longer
   * than the group allows can never be followed by the dot, so the groups
   * take the run itself and backtracking never helps.
   */
  function DMYAt(s: String, p: nat): (r: Option<DMY>)
    ensures r.Some? ==> r.value.day < 100 && r.value.month < 100 && r.value.year < 100
  {
    var a := Digits2(s, p);
    if a == 0 || p + a >= |s| || s[p + a] != '.' then None
    else
      var q := p + a + 1;
      var b := Digits2(s, q);
      if b == 0 || q + b >= |s| || s[q + b] != '.' then None
      else
        var y := q + b + 1;
        if y + 2 <= |s| && IsDigit(s[y]) && IsDigit(s[y + 1]) then
          DigitsBound(s[p..p + a]);
          DigitsBound(s[q..q + b]);
          DigitsBound(s[y..y + 2]);
          Some(DMY(DigitsValue(s[p..p + a]), DigitsValue(s[q..q + b]), DigitsValue(s[y..y + 2])))
        else None
  }

  lemma DigitsBound(s: String)
    requires |s| <= 2 && AllDigits(s)
    ensures DigitsValue(s) < 100
  {
    if |s| == 2 { assert DigitsValue(s) == DigitsValue(s[..1]) * 10 + DigitValue(s[1]); }
  }

  function SearchDMYFrom(s: String, p: nat): (r: Option<DMY>)
    requires p <= |s|
    ensures r.Some? ==> exists k :: p <= k <= |s| && DMYAt(s, k) == r
    ensures r.None? ==> forall k :: p <= k <= |s| ==> DMYAt(s, k).None?
    decreases |s| - p
  {
    match DMYAt(s, p)
    case Some(v) => Some(v)
    case None => if p == |s| then None else SearchDMYFrom(s, p + 1)
  }

  /** `re.search(r'(\d{1,2})\.(\d{1,2})\.(\d{2})', s)`: the groups of the leftmost match. */
  function SearchDMY(s: String): (r: Option<DMY>)
  {
    SearchDMYFrom(s, 0)
  }

  /** Two decimal digits of `n`, as `%02d` writes it. */
  function Pad2(n: nat): (r: String)
    requires n < 100
    ensures |r| == 2 && AllDigits(r) && DigitsValue(r) == n
  {
    var r := [('0' as int + n / 10) as char, ('0' as int + n % 10) as char];
    assert DigitsValue(r) == DigitsValue(r[..1]) * 10 + DigitValue(r[1]);
    r
  }

  /** A `DD.MM.YY` text is read back as the numbers it was written from. */
  lemma SearchDMYRoundTrip(d: nat, m: nat, y: nat)
    requires d < 100 && m < 100 && y < 100
    ensures SearchDMY(Pad2(d) + "." + Pad2(m) + "." + Pad2(y)) == Some(DMY(d, m, y))
  {
    var s := Pad2(d) + "." + Pad2(m) + "." + Pad2(y);
    assert s[0..2] == Pad2(d) && s[3..5] == Pad2(m) && s[6..8] == Pad2(y);
  }

  /** `date(2000 + int(year), int(month), int(day))`, which raises on an impossible date. */
  function DateOf(g: DMY): (r: Result<Date>)
    ensures r.Ok? <==> Constructible(Date(2000 + g.year, g.month, g.day))
    ensures r.Ok? ==> r.value == Date(2000 + g.year, g.month, g.day)
  {
    var d := Date(2000 + g.year, g.month, g.day);
    if Constructible(d) then Ok(d) else Raised
  }

  /**
   * The date loop of the page scrapers: the first of the first 20 lines with
   * a `DD.MM.YY` match decides; an impossible date there raises.
   */
  function HeaderDate(lines: seq<String>, today: Date): (r: Result<Date>)
  {
    HeaderDateFrom(lines[..if |lines| < 20 then |lines| else 20], today)
  }

  function HeaderDateFrom(lines: seq<String>, today: Date): (r: Result<Date>)
    ensures (forall k :: 0 <= k < |lines| ==> SearchDMY(lines[k]).None?) ==> r == Ok(today)
  {
    if lines == [] then Ok(today)
    else match SearchDMY(lines[0])
      case Some(g) => DateOf(g)
      case None => HeaderDateFrom(lines[1..], today)
  }

  /** Python's `re.I` comparison of a prefix of `s` with the lower-case word `w`. */
  predicate StartsWithIgnoreCase(s: String, w: String)
  {
    |w| <= |s| && Lower(s[..|w|]) == w
  }

  /** Length of the label `^(SOUP|MAIN DISH|DESSERTS?|SALAD)` matches, 0 for none. */
  function LabelLength(s: String): (n: nat)
    ensures n <= |s|
  {
    if StartsWithIgnoreCase(s, "soup") then 4
    else if StartsWithIgnoreCase(s, "main dish") then 9
    else if StartsWithIgnoreCase(s, "desserts") then 8
    else if StartsWithIgnoreCase(s, "dessert") then 7
    else if StartsWithIgnoreCase(s, "salad") then 5
    else 0
  }

  /** `re.sub(r'^(SOUP|MAIN DISH|DESSERTS?|SALAD)\s*', '', s, flags=re.I)`. */
  function StripLabel(s: String): (r: String)
    ensures LabelLength(s) == 0 ==> r == s
    ensures LabelLength(s) > 0 ==> r == s[SkipSpaces(s, LabelLength(s))..]
    ensures r != [] && LabelLength(s) > 0 ==> !IsSpace(r[0])
  {
    var n := LabelLength(s);
    if n == 0 then s else s[SkipSpaces(s, n)..]
  }

  /** Whether `t` is all of `\s+[A-Z](\s+[A-Z])*\s*`: whitespace and lone capitals, opening with whitespace. */
  predicate LetterTail(t: String)
  {
    |t| > 0 && IsSpace(t[0])
    && (forall i :: 0 <= i < |t| ==> IsSpace(t[i]) || IsAsciiUpper(t[i]))
    && (exists i :: 0 <= i < |t| && IsAsciiUpper(t[i]))
    && (forall i :: 0 <= i < |t| - 1 && IsAsciiUpper(t[i]) ==> !IsAsciiUpper(t[i + 1]))
  }

  function TailStart(s: String, p: nat): (r: Option<nat>)
    requires p <= |s|
    ensures r.Some? ==> p <= r.value <= |s| && LetterTail(s[r.value..])
    ensures forall k :: p <= k <= |s| && (r.Some? ==> k < r.value) ==> !LetterTail(s[k..])
    decreases |s| - p
  {
    if LetterTail(s[p..]) then Some(p)
    else if p == |s| then None
    else TailStart(s, p + 1)
  }

  /** `re.sub(r'\s+[A-Z](\s+[A-Z])*\s*$', '', s)`: cut at the leftmost position whose rest is such a tail. */
  function StripLetterTail(s: String): (r: String)
    ensures |r| <= |s| && r == s[..|r|]
    ensures |r| < |s| ==> LetterTail(s[|r|..])
    ensures forall k :: 0 <= k < |r| ==> !LetterTail(s[k..])
  {
    match TailStart(s, 0)
    case None => s
    case Some(p) => s[..p]
  }

  /** Text without capitals has no allergen tail to lose. */
  lemma NoCapitalsKeepTail(s: String)
    requires forall i :: 0 <= i < |s| ==> !IsAsciiUpper(s[i])
    ensures StripLetterTail(s) == s
  {
  }

  /** A tail of capitals that starts before position `n` extends to the tail that starts at `n`. */
  lemma TailGrows(s: String, n: nat, q: nat)
    requires q < n < |s| && LetterTail(s[n..])
    ensures LetterTail(s[..n][q..]) ==> LetterTail(s[n - 1..]) || LetterTail(s[q..])
  {
    var t := s[n..];
    if LetterTail(s[..n][q..]) {
      var u := s[..n][q..];
      assert s[q..] == u + t;
      if IsSpace(s[n - 1]) {
        var tail := s[n - 1..];
        assert tail == [s[n - 1]] + t;
        assert forall i :: 1 <= i < |tail| ==> tail[i] == t[i - 1];
        assert LetterTail(tail);
      } else {
        assert u[|u| - 1] == s[n - 1];
        var w := u + t;
        assert forall i :: 0 <= i < |u| ==> w[i] == u[i];
        assert forall i :: |u| <= i < |w| ==> w[i] == t[i - |u|];
        assert LetterTail(w);
      }
    }
  }

  /** Cutting the trailing capitals once leaves nothing for a second pass to cut. */
  lemma StripLetterTailIdempotent(s: String)
    ensures StripLetterTail(StripLetterTail(s)) == StripLetterTail(s)
  {
    var r := StripLetterTail(s);
    if |r| < |s| {
      forall q | 0 <= q < |r| ensures !LetterTail(r[q..]) {
        TailGrows(s, |r|, q);
      }
    }
    assert !LetterTail(r[|r|..]);
    match TailStart(r, 0) {
      case None =>
      case Some(p) =>
    }
  }

  /** A capital letter with no word character on either side: a match of `\b[A-Z]\b`. */
  predicate Lone(s: String, i: nat)
    requires i < |s|
  {
    IsAsciiUpper(s[i]) && (i == 0 || !IsWordChar(s[i - 1])) && (i == |s| - 1 || !IsWordChar(s[i + 1]))
  }

  function DeleteLoneFrom(s: String, i: nat): (r: String)
    requires i <= |s|
    ensures |r| <= |s| - i
    ensures forall c :: c in r ==> c in s[i..]
    ensures (forall k :: i <= k < |s| ==> !Lone(s, k)) ==> r == s[i..]
    decreases |s| - i
  {
    if i == |s| then []
    else (if Lone(s, i) then [] else [s[i]]) + DeleteLoneFrom(s, i + 1)
  }

  /** `re.sub(r'\b[A-Z]\b', '', s)`: every lone capital goes, judged on the original text. */
  function DeleteLoneCapitals(s: String): (r: String)
  {
    DeleteLoneFrom(s, 0)
  }

  /** `re.sub(r'\s*([/,])\s*', r' \1 ', s)`. */
  function SpacePunct(s: String): (r: String)
    ensures forall c :: c in r ==> c in s || c == ' '
    decreases |s|
  {
    if s == [] then []
    else
      var j := SkipSpaces(s, 0);
      if j < |s| && (s[j] == '/' || s[j] == ',') then
        " " + [s[j]] + " " + SpacePunct(s[SkipSpaces(s, j + 1)..])
      else [s[0]] + SpacePunct(s[1..])
  }

  predicate ContainsAny(s: String, pats: seq<String>)
  {
    exists k :: 0 <= k < |pats| && Contains(s, pats[k])
  }

  /** A collapsed text is already stripped. */
  lemma StripNormalized(s: String)
    requires Normalized(s)
    ensures Strip(s) == s
  {
    if s != [] {
      assert !IsSpace(s[0]) && !IsSpace(s[|s| - 1]);
    }
  }
}
