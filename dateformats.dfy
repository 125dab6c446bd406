/**
 * Python's `datetime.strptime` for the formats the Erste Campus scrapers
 * try (`%d`, `%m`, `%Y`, `%B`, literal characters and spaces), and the
 * loose `D.M.YYYY` and ISO `YYYY-M-D` patterns they search for.
 *
 * `strptime` turns a format into a regular expression: `%d` is
 * `3[01]|[12]\d|0[1-9]|[1-9]| [1-9]`, `%m` is `1[0-2]|0[1-9]|[1-9]`, `%Y` is
 * four digits, `%B` the English month names without regard to case, and a
 * space in the format is `\s+`. The text must match to its very end, and the
 * date read must exist. In the formats used a day or month is never followed
 * by something that accepts a digit, so a field is the whole run of digits
 * where it starts, and a month name is always followed by a space, so it is
 * the whole run of non-space characters.
 */
module DateFormats {
  import opened Wrappers
  import opened Text
  import opened Dates
  import opened Patterns
  import opened ErsteText

  /** The pieces of a format: `%d`, `%m`, `%Y`, `%B`, a literal character, and a space. */
  datatype Directive = Day | Month | Year | MonthName | Lit(c: char) | Gap

  /** The fields read so far. */
  datatype Fields = Fields(day: int, month: int, year: int)

  /** What `strptime` assumes for a field the format does not name: 1 January 1900. */
  const Defaults: Fields := Fields(1, 1, 1900)

  const DotFormat: seq<Directive> := [Day, Lit('.'), Month, Lit('.'), Year]                  // %d.%m.%Y
  const DotGapFormat: seq<Directive> := [Day, Lit('.'), Gap, Month, Lit('.'), Gap, Year]     // %d. %m. %Y
  const SlashFormat: seq<Directive> := [Day, Lit('/'), Month, Lit('/'), Year]                // %d/%m/%Y
  const IsoFormat: seq<Directive> := [Year, Lit('-'), Month, Lit('-'), Day]                  // %Y-%m-%d
  const DayNameFormat: seq<Directive> := [Day, Gap, MonthName, Gap, Year]                    // %d %B %Y
  const NameDayFormat: seq<Directive> := [MonthName, Gap, Day, Lit(','), Gap, Year]          // %B %d, %Y

  const MonthNames: seq<String> := ["january", "february", "march", "april", "may", "june", "july",
                                    "august", "september", "october", "november", "december"]

  /** The first index of `w` among `names`, or `|names|`. */
  function IndexIn(w: String, names: seq<String>): (r: nat)
    ensures r <= |names|
  {
    if names == [] then 0 else if SameChars(names[0], w) then 0 else 1 + IndexIn(w, names[1..])
  }

  /** Two texts compared character by character. */
  predicate SameChars(a: String, b: String)
  {
    if a == [] then b == [] else b != [] && a[0] == b[0] && SameChars(a[1..], b[1..])
  }

  /** Comparing character by character is equality. */
  lemma {:induction false} SameCharsIsEqual(a: String, b: String)
    ensures SameChars(a, b) <==> a == b
  {
    if a != [] && b != [] {
      SameCharsIsEqual(a[1..], b[1..]);
      if a[0] == b[0] && a[1..] == b[1..] {
        assert a == [a[0]] + a[1..] && b == [b[0]] + b[1..];
      }
    }
  }

  /** The index found holds `w`, and no name before it does. */
  lemma {:induction false} IndexInFacts(w: String, names: seq<String>)
    ensures var r := IndexIn(w, names);
      (r < |names| ==> names[r] == w) && forall j :: 0 <= j < r ==> names[j] != w
  {
    if names != [] {
      SameCharsIsEqual(names[0], w);
      if names[0] != w {
        IndexInFacts(w, names[1..]);
      }
    }
  }

  /** The month a word names, without regard to case: 1 to 12, or 0 for none. */
  function MonthOf(w: String): (m: nat)
    ensures m <= 12
  {
    var i := IndexIn(Lower(w), MonthNames);
    if i < 12 then i + 1 else 0
  }

  /** `%d` or `%m` at `p`: the value and where the field ends; `top` is 31 or 12. */
  function NumberField(s: String, p: nat, top: nat): (r: Option<(nat, nat)>)
    requires p <= |s|
    ensures r.Some? ==> 1 <= r.value.0 <= top && p < r.value.1 <= |s|
  {
    if p < |s| && IsDigit(s[p]) then
      var e := DigitRunEnd(s, p);
      DigitRunEndFacts(s, p);
      var v := DigitsValue(s[p..e]);
      if e - p <= 2 && 1 <= v <= top then Some((v, e)) else None
    else None
  }

  /** `%d` at `p`: a day field, or a space and one digit from 1 to 9 that no digit follows. */
  function DayField(s: String, p: nat): (r: Option<(nat, nat)>)
    requires p <= |s|
    ensures r.Some? ==> 1 <= r.value.0 <= 31 && p < r.value.1 <= |s|
  {
    if p < |s| && IsDigit(s[p]) then NumberField(s, p, 31)
    else if p + 1 < |s| && s[p] == ' ' && '1' <= s[p + 1] <= '9' && !(p + 2 < |s| && IsDigit(s[p + 2])) then
      Some((DigitValue(s[p + 1]), p + 2))
    else None
  }

  /** `%B` at `p`: the month the run of non-space characters names, and where the run ends. */
  function NameField(s: String, p: nat): (r: Option<(nat, nat)>)
    requires p <= |s|
    ensures r.Some? ==> 1 <= r.value.0 <= 12 && p <= r.value.1 <= |s|
  {
    MonthAt(s, p, p + WordLength(s[p..]))
  }

  /** The month `s[p..e]` names, and `e`. */
  function MonthAt(s: String, p: nat, e: nat): (r: Option<(nat, nat)>)
    requires p <= e <= |s|
    ensures r.Some? ==> 1 <= r.value.0 <= 12 && r.value.1 == e
  {
    if MonthOf(s[p..e]) == 0 then None else Some((MonthOf(s[p..e]), e))
  }

  /** One directive read at `p`: where it ends and the fields then known. */
  function Step(s: String, p: nat, dir: Directive, f: Fields): (r: Option<(nat, Fields)>)
    requires p <= |s|
    ensures r.Some? ==> p <= r.value.0 <= |s|
  {
    match dir
    case Day =>
      (match DayField(s, p)
       case Some((v, e)) => Some((e, f.(day := v)))
       case None => None)
    case Month =>
      (match NumberField(s, p, 12)
       case Some((v, e)) => Some((e, f.(month := v)))
       case None => None)
    case Year =>
      if p + 4 <= |s| && DigitRun(s, p, p + 4) then Some((p + 4, f.(year := DigitsValue(s[p..p + 4])))) else None
    case MonthName =>
      (match NameField(s, p)
       case Some((m, e)) => Some((e, f.(month := m)))
       case None => None)
    case Lit(c) =>
      if p < |s| && s[p] == c then Some((p + 1, f)) else None
    case Gap =>
      var e := SkipSpaces(s, p);
      if e == p then None else Some((e, f))
  }

  /** The text from `p` matched against the directives, to its end, with the fields read so far. */
  function MatchFrom(s: String, p: nat, fmt: seq<Directive>, f: Fields): (r: Option<Fields>)
    requires p <= |s|
    decreases |fmt|
  {
    if fmt == [] then (if p == |s| then Some(f) else None)
    else
      if Step(s, p, fmt[0], f).None? then None
      else MatchFrom(s, Step(s, p, fmt[0], f).value.0, fmt[1..], Step(s, p, fmt[0], f).value.1)
  }

  /** `datetime.strptime(s, fmt).date()`, `None` where it raises `ValueError`. */
  function Strptime(s: String, fmt: seq<Directive>): (r: Option<Date>)
    ensures r.Some? ==> Constructible(r.value)
  {
    match MatchFrom(s, 0, fmt, Defaults)
    case Some(f) => var d := Date(f.year, f.month, f.day); if Constructible(d) then Some(d) else None
    case None => None
  }

  /** The loop over formats: the date of the first that parses. */
  function FirstFormat(s: String, fmts: seq<seq<Directive>>): (r: Option<Date>)
    ensures r.Some? ==> Constructible(r.value)
  {
    if fmts == [] then None
    else if Strptime(s, fmts[0]).Some? then Strptime(s, fmts[0])
    else FirstFormat(s, fmts[1..])
  }

  /** The format that decides is the first that parses; nothing is found only when none does. */
  lemma {:induction false} FirstFormatFacts(s: String, fmts: seq<seq<Directive>>)
    ensures FirstFormat(s, fmts).None? <==> forall k :: 0 <= k < |fmts| ==> Strptime(s, fmts[k]).None?
    ensures FirstFormat(s, fmts).Some? ==>
      exists k :: 0 <= k < |fmts| && FirstFormat(s, fmts) == Strptime(s, fmts[k])
        && forall j :: 0 <= j < k ==> Strptime(s, fmts[j]).None?
  {
    if fmts != [] && Strptime(s, fmts[0]).None? {
      FirstFormatFacts(s, fmts[1..]);
      assert forall k :: 1 <= k < |fmts| ==> fmts[k] == fmts[1..][k - 1];
      if FirstFormat(s, fmts).Some? {
        var k :| 0 <= k < |fmts[1..]| && FirstFormat(s, fmts) == Strptime(s, fmts[1..][k])
          && forall j :: 0 <= j < k ==> Strptime(s, fmts[1..][j]).None?;
        assert FirstFormat(s, fmts) == Strptime(s, fmts[k + 1]);
      }
    } else if fmts != [] {
      assert FirstFormat(s, fmts) == Strptime(s, fmts[0]);
    }
  }

  /** The month names are lower-case ASCII words, all different. */
  lemma MonthNamesShape()
    ensures forall i :: 0 <= i < 12 ==> MonthNames[i] != [] && forall j :: 0 <= j < |MonthNames[i]| ==> IsAsciiLower(MonthNames[i][j])
    ensures forall i, j :: 0 <= i < j < 12 ==> MonthNames[i] != MonthNames[j]
  {
  }

  /** Text with no upper-case letter is its own lower case. */
  lemma {:induction false} LowerOfLower(s: String)
    requires forall i :: 0 <= i < |s| ==> !IsUpperChar(s[i])
    ensures Lower(s) == s
  {
    if s != [] {
      LowerOfLower(s[1..]);
    }
  }

  /** A month name is a word read back as its month. */
  lemma MonthNameWord(m: nat)
    requires 1 <= m <= 12
    ensures SpaceFree(MonthNames[m - 1])
    ensures MonthOf(MonthNames[m - 1]) == m
  {
    MonthNamesShape();
    MonthOfName(m);
  }

  /** Each month name is read back as its month. */
  lemma MonthOfName(m: nat)
    requires 1 <= m <= 12
    ensures MonthOf(MonthNames[m - 1]) == m
  {
    MonthNamesShape();
    LowerOfLower(MonthNames[m - 1]);
    IndexInFacts(MonthNames[m - 1], MonthNames);
  }

  // ---------------------------------------------------------------------
  // Writing a date with a format, and reading it back.

  /** A number of two digits followed by two more: a hundred times the first plus the second. */
  lemma DigitsAppend2(a: String, b: String)
    requires AllDigits(a) && |b| == 2 && AllDigits(b)
    ensures AllDigits(a + b) && DigitsValue(a + b) == DigitsValue(a) * 100 + DigitsValue(b)
  {
    var r := a + b;
    var a1 := a + b[..1];
    assert r[..|r| - 1] == a1 && r[|r| - 1] == b[1];
    assert a1[..|a1| - 1] == a && a1[|a1| - 1] == b[0];
    assert b[..1][..0] == [];
    var v, x, y := DigitsValue(a), DigitValue(b[0]), DigitValue(b[1]);
    assert DigitsValue(a1) == v * 10 + x;
    assert DigitsValue(r) == DigitsValue(a1) * 10 + y;
    assert DigitsValue(b) == x * 10 + y by {
      assert DigitsValue(b[..1]) == x;
    }
    Shift2(v, x, y);
  }

  /** Two decimal shifts are one shift by a hundred. */
  lemma Shift2(v: int, x: int, y: int)
    ensures (v * 10 + x) * 10 + y == v * 100 + (x * 10 + y)
  {
  }

  /** `%04d`: four decimal digits of `n`. */
  function Pad4(n: nat): (r: String)
    requires n < 10000
    ensures |r| == 4 && AllDigits(r) && DigitsValue(r) == n
  {
    DigitsAppend2(Pad2(n / 100), Pad2(n % 100));
    Pad2(n / 100) + Pad2(n % 100)
  }

  /** The fields of a date fit the widths it is written with: a day up to 31, a month up to 12, a year of four digits. */
  predicate Writable(d: Date)
  {
    1 <= d.day <= 31 && 1 <= d.month <= 12 && 1 <= d.year <= 9999
  }

  /** How a date writes one directive: a two-digit day or month, a four-digit year, the month's name, the character, one space. */
  function RenderOne(d: Date, dir: Directive): (r: String)
    requires Writable(d)
    ensures r != []
  {
    match dir
    case Day => Pad2(d.day)
    case Month => Pad2(d.month)
    case Year => Pad4(d.year)
    case MonthName => MonthNamesShape(); MonthNames[d.month - 1]
    case Lit(c) => [c]
    case Gap => " "
  }

  /** A date written with a format. */
  function Render(d: Date, fmt: seq<Directive>): String
    requires Writable(d)
  {
    if fmt == [] then [] else RenderOne(d, fmt[0]) + Render(d, fmt[1..])
  }

  predicate IsNumeric(dir: Directive) { dir.Day? || dir.Month? || dir.Year? }

  /** What a directive needs of the next one for the text it reads to end where the next begins. */
  predicate Follows(dir: Directive, next: Directive)
  {
    match dir
    case Day => !IsNumeric(next) && !(next.Lit? && IsDigit(next.c))
    case Month => !IsNumeric(next) && !(next.Lit? && IsDigit(next.c))
    case MonthName => next == Gap || (next.Lit? && IsSpace(next.c))
    case Gap => next != Gap && !(next.Lit? && IsSpace(next.c))
    case Year => true
    case Lit(_) => true
  }

  /** Each directive is followed by one it allows. */
  predicate WellFormed(fmt: seq<Directive>)
  {
    |fmt| < 2 || (Follows(fmt[0], fmt[1]) && WellFormed(fmt[1..]))
  }

  /** The fields a directive reads from a date written with it. */
  function Put(f: Fields, d: Date, dir: Directive): Fields
  {
    match dir
    case Day => f.(day := d.day)
    case Month => f.(month := d.month)
    case MonthName => f.(month := d.month)
    case Year => f.(year := d.year)
    case Lit(_) => f
    case Gap => f
  }

  function Apply(f: Fields, d: Date, fmt: seq<Directive>): Fields
    decreases |fmt|
  {
    if fmt == [] then f else Apply(Put(f, d, fmt[0]), d, fmt[1..])
  }

  /** The fields a format reads, in one step: those it names come from the date, the rest stay. */
  function Read(f: Fields, d: Date, fmt: seq<Directive>): Fields
  {
    Fields(if Day in fmt then d.day else f.day,
           if Month in fmt || MonthName in fmt then d.month else f.month,
           if Year in fmt then d.year else f.year)
  }

  lemma {:induction false} ApplyIsRead(f: Fields, d: Date, fmt: seq<Directive>)
    ensures Apply(f, d, fmt) == Read(f, d, fmt)
    decreases |fmt|
  {
    if fmt != [] {
      ApplyIsRead(Put(f, d, fmt[0]), d, fmt[1..]);
      assert fmt == [fmt[0]] + fmt[1..];
    }
  }

  /** A written format starts with what its first directive writes. */
  lemma RenderHead(d: Date, fmt: seq<Directive>)
    requires Writable(d) && fmt != []
    ensures Render(d, fmt) != [] && Render(d, fmt)[0] == RenderOne(d, fmt[0])[0]
  {
  }

  /** A two-digit field that no digit follows is read as its value. */
  lemma ReadNumber(s: String, p: nat, v: nat, top: nat)
    requires 1 <= v <= top && top < 100 && p + 2 <= |s| && s[p..p + 2] == Pad2(v)
    requires p + 2 < |s| ==> !IsDigit(s[p + 2])
    ensures NumberField(s, p, top) == Some((v, p + 2))
  {
    assert s[p] == Pad2(v)[0] && s[p + 1] == Pad2(v)[1];
    DigitRunEndAt(s, p, p + 2);
  }

  /** `%d` reads a written day. */
  lemma DayStep(s: String, p: nat, f: Fields, v: nat)
    requires 1 <= v <= 31 && p + 2 <= |s| && s[p..p + 2] == Pad2(v)
    requires p + 2 < |s| ==> !IsDigit(s[p + 2])
    ensures Step(s, p, Day, f) == Some((p + 2, f.(day := v)))
  {
    assert IsDigit(s[p]) by { assert s[p] == Pad2(v)[0]; }
    ReadNumber(s, p, v, 31);
  }

  /** `%m` reads a written month. */
  lemma MonthStep(s: String, p: nat, f: Fields, v: nat)
    requires 1 <= v <= 12 && p + 2 <= |s| && s[p..p + 2] == Pad2(v)
    requires p + 2 < |s| ==> !IsDigit(s[p + 2])
    ensures Step(s, p, Month, f) == Some((p + 2, f.(month := v)))
  {
    ReadNumber(s, p, v, 12);
  }

  /** `%Y` reads a written year. */
  lemma YearStep(s: String, p: nat, f: Fields, y: nat)
    requires y < 10000 && p + 4 <= |s| && s[p..p + 4] == Pad4(y)
    ensures Step(s, p, Year, f) == Some((p + 4, f.(year := y)))
  {
    assert forall k :: p <= k < p + 4 ==> s[k] == Pad4(y)[k - p];
  }

  /** `%B` reads a word that names a month and that whitespace or nothing follows. */
  lemma NameStep(s: String, p: nat, f: Fields, w: String, m: nat, rest: String)
    requires MonthOf(w) == m && m != 0 && SpaceFree(w)
    requires p <= |s| && s[p..] == w + rest && (rest != [] ==> IsSpace(rest[0]))
    ensures p + |w| <= |s|
    ensures Step(s, p, MonthName, f) == Some((p + |w|, f.(month := m)))
  {
    var e := p + |w|;
    WordAt(s, p, w, rest);
    SameMonth(s[p..e], w);
    NameAt(s, p, e, m);
    NameRead(s, p, f, m, e);
  }

  lemma NameRead(s: String, p: nat, f: Fields, m: nat, e: nat)
    requires p <= e <= |s| && NameField(s, p) == Some((m, e))
    ensures Step(s, p, MonthName, f) == Some((e, f.(month := m)))
  {
  }

  /** A word followed by whitespace or nothing is the word `%B` reads. */
  lemma WordAt(s: String, p: nat, w: String, rest: String)
    requires SpaceFree(w)
    requires p <= |s| && s[p..] == w + rest && (rest != [] ==> IsSpace(rest[0]))
    ensures p + |w| <= |s| && WordLength(s[p..]) == |w| && s[p..p + |w|] == w
  {
    WordLengthOf(w, rest);
    PrefixOfSuffix(s, p, |w|);
    assert (w + rest)[..|w|] == w;
  }

  /** A word that names a month is read as that month. */
  lemma NameAt(s: String, p: nat, e: nat, m: nat)
    requires p <= e <= |s| && WordLength(s[p..]) == e - p && MonthOf(s[p..e]) == m && m != 0
    ensures NameField(s, p) == Some((m, e))
  {
    NameFieldAt(s, p, e);
    MonthAtNamed(s, p, e, m);
  }

  /** `%B` reads up to the end of the word at `p`. */
  lemma NameFieldAt(s: String, p: nat, e: nat)
    requires p <= e <= |s| && WordLength(s[p..]) == e - p
    ensures NameField(s, p) == MonthAt(s, p, e)
  {
  }

  lemma MonthAtNamed(s: String, p: nat, e: nat, m: nat)
    requires p <= e <= |s| && MonthOf(s[p..e]) == m && m != 0
    ensures MonthAt(s, p, e) == Some((m, e))
  {
  }

  lemma SameMonth(a: String, b: String)
    requires a == b
    ensures MonthOf(a) == MonthOf(b)
  {
  }

  /** A word followed by whitespace or nothing is one word long. */
  lemma {:induction false} WordLengthOf(w: String, rest: String)
    requires forall i :: 0 <= i < |w| ==> !IsSpace(w[i])
    requires rest != [] ==> IsSpace(rest[0])
    ensures WordLength(w + rest) == |w|
  {
    if w != [] {
      assert (w + rest)[1..] == w[1..] + rest;
      WordLengthOf(w[1..], rest);
    } else {
      assert w + rest == rest;
    }
  }

  /** What a directive needs of the character after the text it wrote, if there is one. */
  predicate Ends(dir: Directive, s: String, e: nat)
  {
    e < |s| ==>
      match dir
      case Day => !IsDigit(s[e])
      case Month => !IsDigit(s[e])
      case MonthName => IsSpace(s[e])
      case Gap => !IsSpace(s[e])
      case Year => true
      case Lit(_) => true
  }

  /** A directive reads back exactly what it wrote, when the character after it is one it allows. */
  lemma ReadDirective(s: String, p: nat, d: Date, dir: Directive, f: Fields)
    requires Writable(d) && p + |RenderOne(d, dir)| <= |s|
    requires s[p..p + |RenderOne(d, dir)|] == RenderOne(d, dir) && Ends(dir, s, p + |RenderOne(d, dir)|)
    ensures Step(s, p, dir, f) == Some((p + |RenderOne(d, dir)|, Put(f, d, dir)))
  {
    match dir
    case Day => ReadDay(s, p, d, f);
    case Month => ReadMonth(s, p, d, f);
    case Year => ReadYear(s, p, d, f);
    case MonthName => ReadMonthName(s, p, d, f);
    case Lit(c) => ReadLit(s, p, d, c, f);
    case Gap => ReadGap(s, p, d, f);
  }

  lemma ReadDay(s: String, p: nat, d: Date, f: Fields)
    requires Writable(d) && p + |RenderOne(d, Day)| <= |s|
    requires s[p..p + |RenderOne(d, Day)|] == RenderOne(d, Day) && Ends(Day, s, p + |RenderOne(d, Day)|)
    ensures Step(s, p, Day, f) == Some((p + |RenderOne(d, Day)|, Put(f, d, Day)))
  {
    DayStep(s, p, f, d.day);
  }

  lemma ReadMonth(s: String, p: nat, d: Date, f: Fields)
    requires Writable(d) && p + |RenderOne(d, Month)| <= |s|
    requires s[p..p + |RenderOne(d, Month)|] == RenderOne(d, Month) && Ends(Month, s, p + |RenderOne(d, Month)|)
    ensures Step(s, p, Month, f) == Some((p + |RenderOne(d, Month)|, Put(f, d, Month)))
  {
    MonthStep(s, p, f, d.month);
  }

  lemma ReadYear(s: String, p: nat, d: Date, f: Fields)
    requires Writable(d) && p + |RenderOne(d, Year)| <= |s|
    requires s[p..p + |RenderOne(d, Year)|] == RenderOne(d, Year) && Ends(Year, s, p + |RenderOne(d, Year)|)
    ensures Step(s, p, Year, f) == Some((p + |RenderOne(d, Year)|, Put(f, d, Year)))
  {
    YearStep(s, p, f, d.year);
  }

  lemma ReadMonthName(s: String, p: nat, d: Date, f: Fields)
    requires Writable(d) && p + |RenderOne(d, MonthName)| <= |s|
    requires s[p..p + |RenderOne(d, MonthName)|] == RenderOne(d, MonthName) && Ends(MonthName, s, p + |RenderOne(d, MonthName)|)
    ensures Step(s, p, MonthName, f) == Some((p + |RenderOne(d, MonthName)|, Put(f, d, MonthName)))
  {
    var a := RenderOne(d, MonthName);
    var g := Put(f, d, MonthName);
    assert g == f.(month := d.month);
    assert p + |a| < |s| ==> IsSpace(s[p + |a|]);
    RenderedName(d);
    ReadName(s, p, f, a, d.month);
  }

  /** The name a date writes for `%B` is a word read back as its month. */
  lemma RenderedName(d: Date)
    requires Writable(d)
    ensures SpaceFree(RenderOne(d, MonthName)) && MonthOf(RenderOne(d, MonthName)) == d.month
  {
    MonthNameWord(d.month);
  }

  /** A month's word in the text, with whitespace or nothing after it, is read as that month. */
  lemma ReadName(s: String, p: nat, f: Fields, w: String, m: nat)
    requires MonthOf(w) == m && m != 0 && SpaceFree(w)
    requires p + |w| <= |s| && s[p..p + |w|] == w && (p + |w| < |s| ==> IsSpace(s[p + |w|]))
    ensures Step(s, p, MonthName, f) == Some((p + |w|, f.(month := m)))
  {
    var rest := s[p + |w|..];
    assert s[p..] == w + rest by {
      assert s[p..] == s[p..p + |w|] + s[p + |w|..];
    }
    NameStep(s, p, f, w, m, rest);
  }

  lemma ReadLit(s: String, p: nat, d: Date, c: char, f: Fields)
    requires Writable(d) && p + |RenderOne(d, Lit(c))| <= |s|
    requires s[p..p + |RenderOne(d, Lit(c))|] == RenderOne(d, Lit(c))
    ensures Step(s, p, Lit(c), f) == Some((p + |RenderOne(d, Lit(c))|, Put(f, d, Lit(c))))
  {
    var a := RenderOne(d, Lit(c));
    assert s[p] == a[0];
    LitStep(s, p, f, c);
  }

  lemma ReadGap(s: String, p: nat, d: Date, f: Fields)
    requires Writable(d) && p + |RenderOne(d, Gap)| <= |s|
    requires s[p..p + |RenderOne(d, Gap)|] == RenderOne(d, Gap) && Ends(Gap, s, p + |RenderOne(d, Gap)|)
    ensures Step(s, p, Gap, f) == Some((p + |RenderOne(d, Gap)|, Put(f, d, Gap)))
  {
    var a := RenderOne(d, Gap);
    assert s[p] == a[0];
    GapStep(s, p, f);
  }

  /** A literal character reads itself. */
  lemma LitStep(s: String, p: nat, f: Fields, c: char)
    requires p < |s| && s[p] == c
    ensures Step(s, p, Lit(c), f) == Some((p + 1, f))
  {
  }

  /** A space in the format reads one space that a non-space or nothing follows. */
  lemma GapStep(s: String, p: nat, f: Fields)
    requires p < |s| && s[p] == ' ' && (p + 1 < |s| ==> !IsSpace(s[p + 1]))
    ensures Step(s, p, Gap, f) == Some((p + 1, f))
  {
    if p + 1 < |s| {
      SkipSpacesTo(s, p, p + 1);
    }
  }

  /** Whatever a directive allows after it, its text ends where it should. */
  lemma FollowsEnds(d: Date, dir: Directive, next: Directive, s: String, e: nat)
    requires Writable(d) && Follows(dir, next) && (e < |s| ==> s[e] == RenderOne(d, next)[0])
    ensures Ends(dir, s, e)
  {
    HeadChar(d, next);
  }

  /** The first character a directive writes: a digit for a number, a non-space for a name. */
  lemma HeadChar(d: Date, dir: Directive)
    requires Writable(d)
    ensures IsNumeric(dir) ==> IsDigit(RenderOne(d, dir)[0])
    ensures dir == MonthName ==> !IsSpace(RenderOne(d, dir)[0])
    ensures dir.Lit? ==> RenderOne(d, dir)[0] == dir.c
    ensures dir == Gap ==> RenderOne(d, dir)[0] == ' '
  {
    match dir
    case Day =>
      assert IsDigit(Pad2(d.day)[0]);
    case Month =>
      assert IsDigit(Pad2(d.month)[0]);
    case Year =>
      assert IsDigit(Pad4(d.year)[0]);
    case MonthName =>
      MonthNameWord(d.month);
    case Lit(c) =>
    case Gap =>
  }

  /** A text from `p` that is `a` then `rest` holds `a` at `p`, and the head of `rest` after it. */
  lemma PrefixAndNext(s: String, p: nat, a: String, rest: String)
    requires p <= |s| && s[p..] == a + rest
    ensures p + |a| <= |s| && s[p..p + |a|] == a
    ensures p + |a| < |s| ==> rest != [] && s[p + |a|] == rest[0]
  {
    PrefixOfSuffix(s, p, |a|);
    assert (a + rest)[..|a|] == a;
    if p + |a| < |s| {
      assert s[p + |a|] == s[p..][|a|];
    }
  }

  /**
   * The text from `p` is what the format writes for `d`, each directive's
   * text followed by a character that directive allows.
   */
  predicate WrittenAt(s: String, p: nat, d: Date, fmt: seq<Directive>)
    requires Writable(d) && p <= |s|
    decreases |fmt|
  {
    if fmt == [] then p == |s|
    else
      p + |RenderOne(d, fmt[0])| <= |s| && s[p..p + |RenderOne(d, fmt[0])|] == RenderOne(d, fmt[0])
      && Ends(fmt[0], s, p + |RenderOne(d, fmt[0])|) && WrittenAt(s, p + |RenderOne(d, fmt[0])|, d, fmt[1..])
  }

  /** A text that is a written well-formed format is written directive by directive. */
  lemma {:induction false} RenderWritten(s: String, p: nat, d: Date, fmt: seq<Directive>)
    requires Writable(d) && WellFormed(fmt) && p <= |s| && s[p..] == Render(d, fmt)
    ensures WrittenAt(s, p, d, fmt)
    decreases |fmt|
  {
    if fmt != [] {
      var a := RenderOne(d, fmt[0]);
      var rest := Render(d, fmt[1..]);
      PrefixAndNext(s, p, a, rest);
      if p + |a| < |s| {
        RenderHead(d, fmt[1..]);
        FollowsEnds(d, fmt[0], fmt[1], s, p + |a|);
      }
      assert s[p + |a|..] == rest by {
        assert s[p + |a|..] == s[p..][|a|..];
      }
      RenderWritten(s, p + |a|, d, fmt[1..]);
    }
  }

  /** A format whose first directive reads up to `e` matches as the rest of it does from `e`. */
  lemma StepMatch(s: String, p: nat, fmt: seq<Directive>, f: Fields, e: nat, g: Fields)
    requires fmt != [] && p <= |s| && Step(s, p, fmt[0], f).Some?
    requires Step(s, p, fmt[0], f).value.0 == e && Step(s, p, fmt[0], f).value.1 == g
    ensures MatchFrom(s, p, fmt, f) == MatchFrom(s, e, fmt[1..], g)
  {
  }

  /** The first directive of a written format reads its own text. */
  lemma WrittenStep(s: String, p: nat, d: Date, fmt: seq<Directive>, f: Fields)
    requires Writable(d) && fmt != [] && p <= |s| && WrittenAt(s, p, d, fmt)
    ensures p + |RenderOne(d, fmt[0])| <= |s| && WrittenAt(s, p + |RenderOne(d, fmt[0])|, d, fmt[1..])
    ensures MatchFrom(s, p, fmt, f) == MatchFrom(s, p + |RenderOne(d, fmt[0])|, fmt[1..], Put(f, d, fmt[0]))
  {
    WrittenHead(s, p, d, fmt);
    ReadMatch(s, p, d, fmt, f);
  }

  /** A format whose first directive's text is at `p` matches as the rest of it does after that text. */
  lemma ReadMatch(s: String, p: nat, d: Date, fmt: seq<Directive>, f: Fields)
    requires Writable(d) && fmt != [] && p + |RenderOne(d, fmt[0])| <= |s|
    requires s[p..p + |RenderOne(d, fmt[0])|] == RenderOne(d, fmt[0]) && Ends(fmt[0], s, p + |RenderOne(d, fmt[0])|)
    ensures MatchFrom(s, p, fmt, f) == MatchFrom(s, p + |RenderOne(d, fmt[0])|, fmt[1..], Put(f, d, fmt[0]))
  {
    match fmt[0]
    case Day => MatchDay(s, p, d, fmt, f);
    case Month => MatchMonth(s, p, d, fmt, f);
    case Year => MatchYear(s, p, d, fmt, f);
    case MonthName => MatchMonthName(s, p, d, fmt, f);
    case Lit(c) => MatchLit(s, p, d, fmt, f);
    case Gap => MatchGap(s, p, d, fmt, f);
  }

  lemma MatchDay(s: String, p: nat, d: Date, fmt: seq<Directive>, f: Fields)
    requires Writable(d) && fmt != [] && fmt[0] == Day && p + |RenderOne(d, Day)| <= |s|
    requires s[p..p + |RenderOne(d, Day)|] == RenderOne(d, Day) && Ends(Day, s, p + |RenderOne(d, Day)|)
    ensures MatchFrom(s, p, fmt, f) == MatchFrom(s, p + |RenderOne(d, fmt[0])|, fmt[1..], Put(f, d, fmt[0]))
  {
    ReadDay(s, p, d, f);
    StepMatch(s, p, fmt, f, p + |RenderOne(d, Day)|, Put(f, d, Day));
  }

  lemma MatchMonth(s: String, p: nat, d: Date, fmt: seq<Directive>, f: Fields)
    requires Writable(d) && fmt != [] && fmt[0] == Month && p + |RenderOne(d, Month)| <= |s|
    requires s[p..p + |RenderOne(d, Month)|] == RenderOne(d, Month) && Ends(Month, s, p + |RenderOne(d, Month)|)
    ensures MatchFrom(s, p, fmt, f) == MatchFrom(s, p + |RenderOne(d, fmt[0])|, fmt[1..], Put(f, d, fmt[0]))
  {
    ReadMonth(s, p, d, f);
    StepMatch(s, p, fmt, f, p + |RenderOne(d, Month)|, Put(f, d, Month));
  }

  lemma MatchYear(s: String, p: nat, d: Date, fmt: seq<Directive>, f: Fields)
    requires Writable(d) && fmt != [] && fmt[0] == Year && p + |RenderOne(d, Year)| <= |s|
    requires s[p..p + |RenderOne(d, Year)|] == RenderOne(d, Year) && Ends(Year, s, p + |RenderOne(d, Year)|)
    ensures MatchFrom(s, p, fmt, f) == MatchFrom(s, p + |RenderOne(d, fmt[0])|, fmt[1..], Put(f, d, fmt[0]))
  {
    ReadYear(s, p, d, f);
    StepMatch(s, p, fmt, f, p + |RenderOne(d, Year)|, Put(f, d, Year));
  }

  lemma MatchMonthName(s: String, p: nat, d: Date, fmt: seq<Directive>, f: Fields)
    requires Writable(d) && fmt != [] && fmt[0] == MonthName && p + |RenderOne(d, MonthName)| <= |s|
    requires s[p..p + |RenderOne(d, MonthName)|] == RenderOne(d, MonthName) && Ends(MonthName, s, p + |RenderOne(d, MonthName)|)
    ensures MatchFrom(s, p, fmt, f) == MatchFrom(s, p + |RenderOne(d, fmt[0])|, fmt[1..], Put(f, d, fmt[0]))
  {
    ReadMonthName(s, p, d, f);
    StepMatch(s, p, fmt, f, p + |RenderOne(d, MonthName)|, Put(f, d, MonthName));
  }

  lemma MatchLit(s: String, p: nat, d: Date, fmt: seq<Directive>, f: Fields)
    requires Writable(d) && fmt != [] && fmt[0].Lit? && p + |RenderOne(d, Lit(fmt[0].c))| <= |s|
    requires s[p..p + |RenderOne(d, Lit(fmt[0].c))|] == RenderOne(d, Lit(fmt[0].c)) && Ends(Lit(fmt[0].c), s, p + |RenderOne(d, Lit(fmt[0].c))|)
    ensures MatchFrom(s, p, fmt, f) == MatchFrom(s, p + |RenderOne(d, fmt[0])|, fmt[1..], Put(f, d, fmt[0]))
  {
    ReadLit(s, p, d, fmt[0].c, f);
    StepMatch(s, p, fmt, f, p + |RenderOne(d, Lit(fmt[0].c))|, Put(f, d, Lit(fmt[0].c)));
  }

  lemma MatchGap(s: String, p: nat, d: Date, fmt: seq<Directive>, f: Fields)
    requires Writable(d) && fmt != [] && fmt[0] == Gap && p + |RenderOne(d, Gap)| <= |s|
    requires s[p..p + |RenderOne(d, Gap)|] == RenderOne(d, Gap) && Ends(Gap, s, p + |RenderOne(d, Gap)|)
    ensures MatchFrom(s, p, fmt, f) == MatchFrom(s, p + |RenderOne(d, fmt[0])|, fmt[1..], Put(f, d, fmt[0]))
  {
    ReadGap(s, p, d, f);
    StepMatch(s, p, fmt, f, p + |RenderOne(d, Gap)|, Put(f, d, Gap));
  }

  /** A written format holds its first directive's text at `p`, and the rest after it. */
  lemma WrittenHead(s: String, p: nat, d: Date, fmt: seq<Directive>)
    requires Writable(d) && fmt != [] && p <= |s| && WrittenAt(s, p, d, fmt)
    ensures p + |RenderOne(d, fmt[0])| <= |s| && s[p..p + |RenderOne(d, fmt[0])|] == RenderOne(d, fmt[0])
    ensures Ends(fmt[0], s, p + |RenderOne(d, fmt[0])|) && WrittenAt(s, p + |RenderOne(d, fmt[0])|, d, fmt[1..])
  {
  }

  /** Reading a text written directive by directive gives back the date's fields. */
  lemma {:induction false} MatchWritten(s: String, p: nat, d: Date, fmt: seq<Directive>, f: Fields)
    requires Writable(d) && p <= |s| && WrittenAt(s, p, d, fmt)
    ensures MatchFrom(s, p, fmt, f) == Some(Apply(f, d, fmt))
    decreases |fmt|
  {
    if fmt != [] {
      var e, g := p + |RenderOne(d, fmt[0])|, Put(f, d, fmt[0]);
      WrittenHead(s, p, d, fmt);
      MatchWritten(s, e, d, fmt[1..], g);
      MatchCons(s, p, d, fmt, f);
    }
  }

  /** A written format matches when what follows its first directive's text matches the rest. */
  lemma MatchCons(s: String, p: nat, d: Date, fmt: seq<Directive>, f: Fields)
    requires Writable(d) && fmt != [] && p <= |s| && WrittenAt(s, p, d, fmt)
    requires p + |RenderOne(d, fmt[0])| <= |s|
    requires MatchFrom(s, p + |RenderOne(d, fmt[0])|, fmt[1..], Put(f, d, fmt[0])) == Some(Apply(Put(f, d, fmt[0]), d, fmt[1..]))
    ensures MatchFrom(s, p, fmt, f) == Some(Apply(f, d, fmt))
  {
    WrittenStep(s, p, d, fmt, f);
  }

  /** A well-formed format that names a day, a month and a year. */
  predicate DateFormat(fmt: seq<Directive>)
  {
    WellFormed(fmt) && Day in fmt && Year in fmt && (Month in fmt || MonthName in fmt)
  }

  /** Every date written with such a format is read back as itself. */
  lemma StrptimeRoundTrip(d: Date, fmt: seq<Directive>)
    requires Constructible(d) && DateFormat(fmt)
    ensures Strptime(Render(d, fmt), fmt) == Some(d)
  {
    RenderWritten(Render(d, fmt), 0, d, fmt);
    MatchWritten(Render(d, fmt), 0, d, fmt, Defaults);
    ApplyIsRead(Defaults, d, fmt);
  }

  /** A format each of whose directives allows the next is well formed. */
  lemma {:induction false} WellFormedPairs(fmt: seq<Directive>)
    requires forall i :: 0 <= i < |fmt| - 1 ==> Follows(fmt[i], fmt[i + 1])
    ensures WellFormed(fmt)
    decreases |fmt|
  {
    if |fmt| >= 2 {
      assert Follows(fmt[0], fmt[1]);
      var t := fmt[1..];
      forall i | 0 <= i < |t| - 1
        ensures Follows(t[i], t[i + 1])
      {
        assert t[i] == fmt[i + 1] && t[i + 1] == fmt[i + 2];
      }
      WellFormedPairs(fmt[1..]);
    }
  }

  /** The six formats used are complete and well formed. */
  lemma FormatsComplete()
    ensures DateFormat(DotFormat) && DateFormat(DotGapFormat) && DateFormat(SlashFormat)
    ensures DateFormat(IsoFormat) && DateFormat(DayNameFormat) && DateFormat(NameDayFormat)
  {
    DotComplete();
    DotGapComplete();
    SlashComplete();
    IsoComplete();
    DayNameComplete();
    NameDayComplete();
  }

  lemma DotComplete()
    ensures DateFormat(DotFormat)
  {
    WellFormedPairs(DotFormat);
    assert DotFormat[0] == Day && DotFormat[2] == Month && DotFormat[4] == Year;
  }

  lemma DotGapComplete()
    ensures DateFormat(DotGapFormat)
  {
    WellFormedPairs(DotGapFormat);
    assert DotGapFormat[0] == Day && DotGapFormat[3] == Month && DotGapFormat[6] == Year;
  }

  lemma SlashComplete()
    ensures DateFormat(SlashFormat)
  {
    WellFormedPairs(SlashFormat);
    assert SlashFormat[0] == Day && SlashFormat[2] == Month && SlashFormat[4] == Year;
  }

  lemma IsoComplete()
    ensures DateFormat(IsoFormat)
  {
    WellFormedPairs(IsoFormat);
    assert IsoFormat[0] == Year && IsoFormat[2] == Month && IsoFormat[4] == Day;
  }

  lemma DayNameComplete()
    ensures DateFormat(DayNameFormat)
  {
    WellFormedPairs(DayNameFormat);
    assert DayNameFormat[0] == Day && DayNameFormat[2] == MonthName && DayNameFormat[4] == Year;
  }

  lemma NameDayComplete()
    ensures DateFormat(NameDayFormat)
  {
    WellFormedPairs(NameDayFormat);
    assert NameDayFormat[0] == MonthName && NameDayFormat[2] == Day && NameDayFormat[5] == Year;
  }

  /** The characters of a date written `%d.%m.%Y`. */
  lemma DotChars(d: Date)
    requires Writable(d)
    ensures var r := Render(d, DotFormat);
      |r| == 10 && r[2] == '.' && r[5] == '.'
      && (forall i :: 0 <= i < 2 ==> IsDigit(r[i])) && (forall i :: 3 <= i < 5 ==> IsDigit(r[i]))
      && (forall i :: 6 <= i < 10 ==> IsDigit(r[i]))
  {
    var a, b, c := Pad2(d.day), Pad2(d.month), Pad4(d.year);
    assert Render(d, DotFormat[4..]) == c;
    var m := b + "." + c;
    assert Render(d, DotFormat[2..]) == m;
    var r := a + "." + m;
    assert Render(d, DotFormat) == r;
    assert forall i :: 0 <= i < 2 ==> r[i] == a[i];
    assert forall i :: 3 <= i < 5 ==> r[i] == b[i - 3];
    assert forall i :: 6 <= i < 10 ==> r[i] == c[i - 6];
  }
}
