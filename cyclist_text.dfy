/**
 * What the Cyclist scrapers share: the menu item they return, the German
 * day names their parsers look for, the `D.D` line pattern, the weekday
 * name `strftime("%A").upper()` gives, and the hard-coded week menu that
 * every variant falls back to.
 */
module CyclistText {
  import opened Wrappers
  import opened Text
  import opened Dates

  /** One returned item: `{menu_date, category, description, price}`. */
  datatype Item = Item(menuDate: Date, category: String, description: String, price: String)

  /** `today.strftime("%A").upper()`, indexed by `weekday()` (Monday = 0). */
  const EnglishDays: seq<String> := ["MONDAY", "TUESDAY", "WEDNESDAY", "THURSDAY", "FRIDAY", "SATURDAY", "SUNDAY"]

  function DayName(today: Date): (r: String)
    requires ValidDate(today)
    ensures r in EnglishDays
  {
    EnglishDays[Weekday(today)]
  }

  /** The parsers' `days` table: German day name to English day name, in insertion order. */
  const GermanDays: seq<(String, String)> := [
    ("MONTAG", "MONDAY"), ("DIENSTAG", "TUESDAY"), ("MITTWOCH", "WEDNESDAY"),
    ("DONNERSTAG", "THURSDAY"), ("FREITAG", "FRIDAY"), ("SAMSTAG", "SATURDAY"),
    ("SONNTAG", "SUNDAY")]

  /** `any(d in upper for d in days.keys())`. */
  predicate HasDayName(upper: String)
  {
    exists k :: 0 <= k < |GermanDays| && Contains(upper, GermanDays[k].0)
  }

  /** The English name of the first table entry whose German name occurs in `upper` (the `for ... break` over `days.items()`). */
  function FirstDayFrom(upper: String, k: nat): Option<String>
    requires k <= |GermanDays|
    decreases |GermanDays| - k
  {
    if k == |GermanDays| then None
    else if Contains(upper, GermanDays[k].0) then Some(GermanDays[k].1)
    else FirstDayFrom(upper, k + 1)
  }

  /** A day is found from entry `k` on exactly when one of those German names occurs, and it is a weekday name. */
  lemma {:induction false} FirstDayFromFound(upper: String, k: nat)
    requires k <= |GermanDays|
    ensures FirstDayFrom(upper, k).Some? <==> exists j :: k <= j < |GermanDays| && Contains(upper, GermanDays[j].0)
    ensures FirstDayFrom(upper, k).Some? ==> FirstDayFrom(upper, k).value in EnglishDays
    decreases |GermanDays| - k
  {
    if k < |GermanDays| {
      FirstDayFromFound(upper, k + 1);
      assert GermanDays[k].1 == EnglishDays[k];
    }
  }

  function FirstDay(upper: String): Option<String>
  {
    FirstDayFrom(upper, 0)
  }

  /** A day is found exactly when the line names one, and it is a weekday name. */
  lemma FirstDayFound(upper: String)
    ensures FirstDay(upper).Some? <==> HasDayName(upper)
    ensures FirstDay(upper).Some? ==> FirstDay(upper).value in EnglishDays
  {
    FirstDayFromFound(upper, 0);
  }

  /** `re.match(r'^\d{1,2}\.\d{1,2}', line)`: one or two digits, a dot, a digit. */
  predicate StartsDayMonth(line: String)
  {
    |line| >= 3 && IsDigit(line[0])
    && ((line[1] == '.' && IsDigit(line[2]))
        || (IsDigit(line[1]) && |line| >= 4 && line[2] == '.' && IsDigit(line[3])))
  }

  /** The hard-coded week menu of every Cyclist fallback table: two dish names per day, in table order. */
  const WeekMenu: seq<(String, seq<String>)> := [
    ("MONDAY", ["Minute Steak mit Senfmarinade",
                "Pasta mit Sonnengetrocknetes Tomatenpesto, Spinat, Paprika & Zucchini"]),
    ("TUESDAY", ["Gegrilltes Hähnchen mit Teriyaki Sauce",
                 "Wok - Gemüse mit Erbsen & Reis"]),
    ("WEDNESDAY", ["Veganer Burger mit Falafel",
                   "Chili sin Carne mit Reis, Tortilla Chips & Guacamole"]),
    ("THURSDAY", ["Schweineschulter mit Zwiebelsauce",
                  "Kartoffelknödel mit Ofentomate & Basilikum"]),
    ("FRIDAY", ["Lachsfilet mit Zitronensauce",
                "Ratatouille mit Penne Aglio e Olio"]),
    ("SATURDAY", ["Leberkäse & Putenleberkäse",
                  "Grüne Bohnen mit Karotten & Röllgerste"]),
    ("SUNDAY", ["Ofenkartoffel mit Pulled Chicken, gebratener Lachs & Gemüse",
                "Ofenkartoffel mit Käse, Gemüse & Kräuter"])]

  /** The table is keyed by the weekday names in weekday order. */
  lemma WeekMenuKeys()
    ensures |WeekMenu| == 7
    ensures forall w :: 0 <= w < 7 ==> WeekMenu[w].0 == EnglishDays[w] && |WeekMenu[w].1| == 2
  {
  }

  /** In a table whose keys are distinct, looking up the key of entry `i` gives entry `i`'s value. */
  lemma {:induction false} GetIndex<K, V>(entries: seq<(K, V)>, i: nat, default: V)
    requires i < |entries|
    requires forall j :: 0 <= j < i ==> entries[j].0 != entries[i].0
    ensures Get(entries, entries[i].0, default) == entries[i].1
    decreases i
  {
    if i > 0 {
      GetIndex(entries[1..], i - 1, default);
    }
  }

  /** No weekday name is repeated. */
  lemma EnglishDaysDistinct()
    ensures forall i, j :: 0 <= i < j < 7 ==> EnglishDays[i] != EnglishDays[j]
  {
  }

  /** Today's names in the hard-coded table: `menu[weekday]` for the weekday's name. */
  function TableNames(today: Date): (names: seq<String>)
    requires ValidDate(today)
  {
    Get(WeekMenu, DayName(today), [])
  }

  /** Every day of the week finds its own two names in the table. */
  lemma TableNamesOfDay(today: Date)
    requires ValidDate(today)
    ensures TableNames(today) == WeekMenu[Weekday(today)].1
    ensures |TableNames(today)| == 2
  {
    var w := Weekday(today);
    WeekMenuKeys();
    EnglishDaysDistinct();
    GetIndex(WeekMenu, w, []);
  }

  /** The items built from a list of names: dated today, under one category, with no price, in order. */
  function ItemsOf(names: seq<String>, today: Date, category: String): (r: seq<Item>)
    ensures |r| == |names|
    ensures forall k :: 0 <= k < |r| ==> r[k] == Item(today, category, names[k], "")
  {
    if names == [] then [] else [Item(today, category, names[0], "")] + ItemsOf(names[1..], today, category)
  }

  /** `get_fallback_menu` / `fallback_to_hardcoded`: today's table names as `Main Dish (Fallback)` items, `None` when there are none. */
  function Fallback(today: Date): (r: Option<seq<Item>>)
    requires ValidDate(today)
  {
    var items := ItemsOf(TableNames(today), today, "Main Dish (Fallback)");
    if items == [] then None else Some(items)
  }

  /** Every weekday's fallback is two items, with today's date, the fallback category and no price. */
  lemma FallbackTwoItems(today: Date)
    requires ValidDate(today)
    ensures Fallback(today).Some? && |Fallback(today).value| == 2
    ensures forall k :: 0 <= k < 2 ==>
      Fallback(today).value[k] == Item(today, "Main Dish (Fallback)", WeekMenu[Weekday(today)].1[k], "")
  {
    TableNamesOfDay(today);
  }

  /** The kept lines of a text: `[l.strip() for l in text.split('\n') if keep(l.strip())]`. */
  function KeptLines(parts: seq<String>, minLength: nat): (lines: seq<String>)
    ensures |lines| <= |parts|
  {
    if parts == [] then []
    else
      var t := Strip(parts[0]);
      if |t| > minLength then [t] + KeptLines(parts[1..], minLength) else KeptLines(parts[1..], minLength)
  }

  /** A kept line is the stripped form of a part, longer than `minLength`; every such stripped part is kept. */
  lemma {:induction false} KeptLinesMembers(parts: seq<String>, minLength: nat, x: String)
    ensures x in KeptLines(parts, minLength) <==> |x| > minLength && exists p :: p in parts && Strip(p) == x
    ensures x in KeptLines(parts, minLength) ==> Stripped(x)
  {
    if parts != [] {
      KeptLinesMembers(parts[1..], minLength, x);
      var t := Strip(parts[0]);
      assert Stripped(t);
      if |x| > minLength && Strip(parts[0]) != x && (exists p :: p in parts && Strip(p) == x) {
        var p :| p in parts && Strip(p) == x;
        assert p in parts[1..];
      }
      if exists p :: p in parts[1..] && Strip(p) == x {
        var p :| p in parts[1..] && Strip(p) == x;
        assert p in parts;
      }
    }
  }

  /** The length of the run of ASCII digits that starts at `i`. */
  function DigitRun(s: String, i: nat): (n: nat)
    requires i <= |s|
    ensures i + n <= |s|
    ensures forall k :: i <= k < i + n ==> IsDigit(s[k])
    ensures i + n < |s| ==> !IsDigit(s[i + n])
    decreases |s| - i
  {
    if i < |s| && IsDigit(s[i]) then 1 + DigitRun(s, i + 1) else 0
  }

  /**
   * What the date-range patterns allow between the two `D.M` halves:
   * `\.?[\s-]+`, `\.?-` or a bare `-`.
   */
  datatype Sep = SpacesOrDashes | OptDotDash | Dash

  /** The four captured numbers of a date-range match. */
  datatype RangeMatch = RangeMatch(startDay: nat, startMonth: nat, endDay: nat, endMonth: nat)

  /**
   * `(\d{1,2})\.` at `i`: the number and the index after the dot. A run of
   * three or more digits cannot match, since every split of `\d{1,2}` leaves
   * a digit where the dot must be.
   */
  function NumberDot(s: String, i: nat): (r: Option<(nat, nat)>)
    requires i <= |s|
    ensures r.Some? ==> i + 2 <= r.value.1 <= |s| && s[r.value.1 - 1] == '.'
  {
    var n := DigitRun(s, i);
    if 1 <= n <= 2 && i + n < |s| && s[i + n] == '.' then Some((DigitsValue(s[i..i + n]), i + n + 1)) else None
  }

  /** The first index at or after `k` that is neither whitespace nor `-`. */
  function SkipSepChars(s: String, k: nat): (e: nat)
    requires k <= |s|
    ensures k <= e <= |s|
    ensures forall j :: k <= j < e ==> IsSpace(s[j]) || s[j] == '-'
    ensures e < |s| ==> !IsSpace(s[e]) && s[e] != '-'
    decreases |s| - k
  {
    if k < |s| && (IsSpace(s[k]) || s[k] == '-') then SkipSepChars(s, k + 1) else k
  }

  /** The separator after the first half, which ends at `k`: the index after it. */
  function SepEnd(s: String, k: nat, sep: Sep): (r: Option<nat>)
    requires k <= |s|
    ensures r.Some? ==> k < r.value <= |s| && s[r.value - 1] != '.'
  {
    var k1 := if sep != Dash && k < |s| && s[k] == '.' then k + 1 else k;
    match sep
    case SpacesOrDashes =>
      var e := SkipSepChars(s, k1);
      if e > k1 then Some(e) else None
    case _ =>
      if k1 < |s| && s[k1] == '-' then Some(k1 + 1) else None
  }

  /** The second half `(\d{1,2})\.(\d{1,2})` at `p`; the last run gives its first two digits. */
  function SecondHalf(s: String, d1: nat, m1: nat, p: nat): (r: Option<RangeMatch>)
    requires p <= |s|
  {
    match NumberDot(s, p)
    case None => None
    case Some((d2, q)) =>
      var n4 := DigitRun(s, q);
      if n4 == 0 then None
      else
        var m4 := if n4 > 2 then 2 else n4;
        Some(RangeMatch(d1, m1, d2, DigitsValue(s[q..q + m4])))
  }

  /** After `(\d{1,2})\.` ends at `j`: the month, the separator and the second half. */
  function AfterFirstDot(s: String, d1: nat, j: nat, sep: Sep): (r: Option<RangeMatch>)
    requires j <= |s|
  {
    var n2 := DigitRun(s, j);
    if n2 < 1 || n2 > 2 then None
    else
      match SepEnd(s, j + n2, sep)
      case None => None
      case Some(p) => SecondHalf(s, d1, DigitsValue(s[j..j + n2]), p)
  }

  /** The pattern `(\d{1,2})\.(\d{1,2})<sep>(\d{1,2})\.(\d{1,2})` matched at `i`; the greedy choices are forced. */
  function MatchAt(s: String, i: nat, sep: Sep): (r: Option<RangeMatch>)
    requires i <= |s|
  {
    match NumberDot(s, i)
    case None => None
    case Some((d1, j)) => AfterFirstDot(s, d1, j, sep)
  }

  /** `re.search`: the leftmost match at or after `from`. */
  function Search(s: String, sep: Sep, from: nat): Option<RangeMatch>
    requires from <= |s|
    decreases |s| - from
  {
    if MatchAt(s, from, sep).Some? then MatchAt(s, from, sep)
    else if from == |s| then None
    else Search(s, sep, from + 1)
  }

  /** A match found is the one at some position from `from` on, and no earlier position matches. */
  lemma {:induction false} SearchFound(s: String, sep: Sep, from: nat) returns (i: nat)
    requires from <= |s| && Search(s, sep, from).Some?
    ensures from <= i <= |s| && MatchAt(s, i, sep) == Search(s, sep, from)
    ensures forall k :: from <= k < i ==> MatchAt(s, k, sep).None?
    decreases |s| - from
  {
    if MatchAt(s, from, sep).Some? {
      i := from;
    } else {
      assert from < |s| && Search(s, sep, from) == Search(s, sep, from + 1);
      i := SearchFound(s, sep, from + 1);
      forall k | from <= k < i ensures MatchAt(s, k, sep).None? {
        if k > from {
          assert from + 1 <= k < i;
        }
      }
    }
  }

  /** Nothing is found only when no position from `from` on matches. */
  lemma {:induction false} SearchNone(s: String, sep: Sep, from: nat)
    requires from <= |s| && Search(s, sep, from).None?
    ensures forall k :: from <= k <= |s| ==> MatchAt(s, k, sep).None?
    decreases |s| - from
  {
    if from < |s| {
      SearchNone(s, sep, from + 1);
    }
  }

  /** Where a number follows `\.?-`, the wider separator stops at the same place. */
  lemma SepEndAgree(s: String, k: nat)
    requires k <= |s|
    requires SepEnd(s, k, OptDotDash).Some? && NumberDot(s, SepEnd(s, k, OptDotDash).value).Some?
    ensures SepEnd(s, k, SpacesOrDashes) == SepEnd(s, k, OptDotDash)
  {
    var p := SepEnd(s, k, OptDotDash).value;
    assert DigitRun(s, p) >= 1;
    assert IsDigit(s[p]);
  }

  /** Every `\.?-` match is a `\.?[\s-]+` match with the same numbers. */
  lemma DashMatchIsSpaceMatch(s: String, i: nat)
    requires i <= |s|
    requires MatchAt(s, i, OptDotDash).Some?
    ensures MatchAt(s, i, SpacesOrDashes) == MatchAt(s, i, OptDotDash)
  {
    var j := NumberDot(s, i).value.1;
    var k := j + DigitRun(s, j);
    var p := SepEnd(s, k, OptDotDash).value;
    assert NumberDot(s, p).Some?;
    SepEndAgree(s, k);
  }

  /**
   * The try-block of `get_date_range_from_text`: both dates in the current
   * year, the end moved to the next year when it falls before the start, and
   * `None` where `date(...)` raises `ValueError`.
   */
  function RangeIn(m: RangeMatch, year: int): (r: Option<(Date, Date)>)
  {
    var a := Date(year, m.startMonth, m.startDay);
    var b := Date(year, m.endMonth, m.endDay);
    if !Constructible(a) || !Constructible(b) then None
    else if Before(b, a) then
      var b2 := Date(year + 1, m.endMonth, m.endDay);
      if Constructible(b2) then Some((a, b2)) else None
    else Some((a, b))
  }

  /** A range that builds starts in the given year, ends no earlier and at most one year later, and carries the matched days and months. */
  lemma RangeInOrdered(m: RangeMatch, year: int)
    requires RangeIn(m, year).Some?
    ensures var (a, b) := RangeIn(m, year).value;
      Constructible(a) && Constructible(b) && AtMost(a, b)
      && a == Date(year, m.startMonth, m.startDay)
      && b.month == m.endMonth && b.day == m.endDay && (b.year == year || b.year == year + 1)
  {
  }

  /** The OCR step's outcome: no image URL, a failed download, an OCR failure, or the recognised text. */
  datatype Ocr = NoImage | DownloadFailed | OcrFailed | Recognised(text: String)
}
