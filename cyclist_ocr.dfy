/**
 * `app/scrapers/cyclist_scraper_ocr.py`: per-day lists from the OCR text,
 * where a day header is a line that is exactly a German day name and an
 * item takes the following line along without consuming it; the week's
 * date range, which raises on an impossible date; and `scrape`, which has
 * no fallback.
 */
module CyclistOcr {
  import opened Wrappers
  import opened Text
  import opened Dates
  import opened CyclistText

  /** The loop state of `parse_menu_text`: `current_day`, `current_items` and `menu_by_day`. */
  datatype State = State(day: Option<String>, items: seq<String>, menu: map<String, seq<String>>)

  const Start: State := State(None, [], map[])

  /** The English name of the first table entry from `k` on whose German name is the whole of `upper`. */
  function HeaderFrom(upper: String, k: nat): (r: Option<String>)
    requires k <= |GermanDays|
    ensures r.Some? <==> exists j :: k <= j < |GermanDays| && upper == GermanDays[j].0
    ensures r.Some? ==> r.value in EnglishDays
    decreases |GermanDays| - k
  {
    if k == |GermanDays| then None
    else if upper == GermanDays[k].0 then Some(GermanDays[k].1)
    else HeaderFrom(upper, k + 1)
  }

  /** `day_mappings[line_upper]` when `line_upper in day_mappings`: the whole line must be the German name. */
  function HeaderDay(upper: String): (r: Option<String>)
    ensures r.Some? <==> exists j :: 0 <= j < |GermanDays| && upper == GermanDays[j].0
    ensures r.Some? ==> r.value in EnglishDays
  {
    HeaderFrom(upper, 0)
  }

  /** `line in ['****', '...', ''] or line.startswith('€')`. */
  predicate Skipped(line: String)
  {
    line == "****" || line == "..." || line == "" || StartsWith(line, "€")
  }

  /** `re.search(r'\d{1,2}\.\d{1,2}-\d{1,2}\.\d{1,2}', line)`. */
  predicate HasRange(line: String)
  {
    Search(line, Dash, 0).Some?
  }

  /** A non-header, non-skipped line that becomes an item once a day is open. */
  predicate ItemLine(line: String)
  {
    |line| > 5 && !StartsDayMonth(line) && !HasRange(line)
  }

  /** The following line is taken along: not a header, not starting with `*`, `€` or a digit, longer than 3. */
  predicate Continuation(next: String)
  {
    HeaderDay(Upper(next)).None? && !StartsWith(next, "*") && !StartsWith(next, "€")
    && |next| > 3 && !IsDigit(next[0])
  }

  /** The item text of `line`: with the following line appended after a space when it continues it. */
  function Describe(line: String, next: Option<String>): (d: String)
    ensures StartsWith(d, line)
  {
    if next.Some? && Continuation(next.value) then line + " " + next.value else line
  }

  function Flush(st: State): map<String, seq<String>>
  {
    if st.day.Some? && st.items != [] then st.menu[st.day.value := st.items] else st.menu
  }

  /** One pass of the loop over `line`, with `next` the following line if there is one. */
  function Step(st: State, line: String, next: Option<String>): State
  {
    match HeaderDay(Upper(line))
    case Some(d) =>
      State(Some(d), if st.day.Some? && st.items != [] then [] else st.items, Flush(st))
    case None =>
      if !Skipped(line) && st.day.Some? && ItemLine(line) then st.(items := st.items + [Describe(line, next)])
      else st
  }

  function NextOf(lines: seq<String>, i: nat): Option<String>
  {
    if i + 1 < |lines| then Some(lines[i + 1]) else None
  }

  /** The state the loop ends in when it resumes in state `st` at line `i`. */
  function RunFrom(st: State, lines: seq<String>, i: nat): State
    requires i <= |lines|
    decreases |lines| - i
  {
    if i == |lines| then st else RunFrom(Step(st, lines[i], NextOf(lines, i)), lines, i + 1)
  }

  /** The stripped non-empty lines. */
  function Lines(text: String): seq<String>
  {
    KeptLines(SplitOn(text, '\n'), 0)
  }

  /** `parse_menu_text`: the stored lists, the last open one included. */
  function ParseMenuText(text: String): map<String, seq<String>>
  {
    var lines := Lines(text);
    Flush(RunFrom(Start, lines, 0))
  }

  /** Item `x` is made from line `i`: the line alone or followed by a space and line `i + 1`. */
  predicate MadeFrom(x: String, lines: seq<String>, i: nat)
    requires i < |lines|
  {
    ItemLine(lines[i]) && !Skipped(lines[i]) && HeaderDay(Upper(lines[i])).None?
    && x == Describe(lines[i], NextOf(lines, i))
  }

  /** An item made from one of the lines. */
  predicate ItemFrom(x: String, lines: seq<String>)
  {
    exists i :: 0 <= i < |lines| && MadeFrom(x, lines, i)
  }

  predicate MenuGood(menu: map<String, seq<String>>, lines: seq<String>)
  {
    (forall d :: d in menu ==> d in EnglishDays && menu[d] != [])
    && (forall d, x :: d in menu && x in menu[d] ==> ItemFrom(x, lines))
  }

  predicate Good(st: State, lines: seq<String>)
  {
    (st.day.Some? ==> st.day.value in EnglishDays)
    && (st.day.None? ==> st.items == [])
    && (forall x :: x in st.items ==> ItemFrom(x, lines))
    && MenuGood(st.menu, lines)
  }

  lemma FlushGood(st: State, lines: seq<String>)
    requires Good(st, lines)
    ensures MenuGood(Flush(st), lines)
  {
    if st.day.Some? && st.items != [] {
      var m := Flush(st);
      forall d | d in m
        ensures d in EnglishDays && m[d] != []
      {
        if d != st.day.value {
          assert d in st.menu;
        }
      }
      forall d, x | d in m && x in m[d]
        ensures ItemFrom(x, lines)
      {
        if d != st.day.value {
          assert d in st.menu;
        }
      }
    }
  }

  lemma StepGood(st: State, lines: seq<String>, i: nat)
    requires i < |lines| && Good(st, lines)
    ensures Good(Step(st, lines[i], NextOf(lines, i)), lines)
  {
    var line := lines[i];
    if HeaderDay(Upper(line)).Some? {
      FlushGood(st, lines);
    } else if !Skipped(line) && st.day.Some? && ItemLine(line) {
      assert MadeFrom(Describe(line, NextOf(lines, i)), lines, i);
    }
  }

  /** A good state stays good for the rest of the lines. */
  lemma {:induction false} RunGood(st: State, lines: seq<String>, i: nat)
    requires i <= |lines| && Good(st, lines)
    ensures Good(RunFrom(st, lines, i), lines)
    decreases |lines| - i
  {
    if i < |lines| {
      StepGood(st, lines, i);
      RunGood(Step(st, lines[i], NextOf(lines, i)), lines, i + 1);
    }
  }

  /** Days with no items are never stored; every stored day is a weekday name and every item comes from an item line. */
  lemma ParsedDays(text: String)
    ensures var menu := ParseMenuText(text);
      forall d :: d in menu ==> d in EnglishDays && menu[d] != [] && forall x :: x in menu[d] ==> ItemFrom(x, Lines(text))
  {
    var lines := Lines(text);
    RunGood(Start, lines, 0);
    FlushGood(RunFrom(Start, lines, 0), lines);
  }

  /** A header stores the open list, replacing an earlier list of the same day, and is never an item itself. */
  lemma HeaderStep(st: State, line: String, next: Option<String>)
    requires (st.day.None? ==> st.items == []) && HeaderDay(Upper(line)).Some?
    ensures Step(st, line, next).day == HeaderDay(Upper(line)) && Step(st, line, next).items == []
    ensures st.day.Some? && st.items != [] ==> Step(st, line, next).menu[st.day.value] == st.items
  {
  }

  /** The continuation line is not consumed: when it is an item line too, it becomes the next item as well. */
  lemma ContinuationKept(st: State, a: String, b: String, c: Option<String>)
    requires st.day.Some?
    requires HeaderDay(Upper(a)).None? && !Skipped(a) && ItemLine(a)
    requires HeaderDay(Upper(b)).None? && !Skipped(b) && ItemLine(b) && Continuation(b)
    ensures Step(Step(st, a, Some(b)), b, c).items == st.items + [a + " " + b, Describe(b, c)]
  {
  }

  /** The body of the `for` loop of `parse_menu_text`, `continue` being an early return. */
  method LineStep(day: Option<String>, items: seq<String>, menu: map<String, seq<String>>, line: String, next: Option<String>)
    returns (day': Option<String>, items': seq<String>, menu': map<String, seq<String>>)
    ensures State(day', items', menu') == Step(State(day, items, menu), line, next)
  {
    day', items', menu' := day, items, menu;
    var header := HeaderDay(Upper(line));
    if header.Some? {
      if day'.Some? && items' != [] {
        menu' := menu'[day'.value := items'];
        items' := [];
      }
      day' := header;
      return;
    }
    if Skipped(line) {
      return;
    }
    if day'.Some? && |line| > 5 && !StartsDayMonth(line) {
      if HasRange(line) {
        return;
      }
      var description := line;
      if next.Some? && Continuation(next.value) {
        description := description + " " + next.value;
      }
      items' := items' + [description];
    }
  }

  method ParseMenuTextLoop(text: String) returns (menu: map<String, seq<String>>)
    ensures menu == ParseMenuText(text)
  {
    var lines := Lines(text);
    var currentDay: Option<String> := None;
    var currentItems: seq<String> := [];
    menu := map[];
    for i := 0 to |lines|
      invariant RunFrom(State(currentDay, currentItems, menu), lines, i) == RunFrom(Start, lines, 0)
    {
      var next := if i + 1 < |lines| then Some(lines[i + 1]) else None;
      currentDay, currentItems, menu := LineStep(currentDay, currentItems, menu, lines[i], next);
    }
    if currentDay.Some? && currentItems != [] {
      menu := menu[currentDay.value := currentItems];
    }
  }

  /** The body of `extract_date_range` for one match: like the guarded reading, but an impossible date raises. */
  function ReadRange(m: RangeMatch, year: int): (r: Result<(Date, Date)>)
  {
    var a := Date(year, m.startMonth, m.startDay);
    var b := Date(year, m.endMonth, m.endDay);
    if !Constructible(a) || !Constructible(b) then Raised
    else if Before(b, a) then
      var b2 := Date(year + 1, m.endMonth, m.endDay);
      if Constructible(b2) then Ok((a, b2)) else Raised
    else Ok((a, b))
  }

  /** It raises exactly where the guarded reading gives up, and otherwise gives the same range. */
  lemma ReadRangeAgrees(m: RangeMatch, year: int)
    ensures ReadRange(m, year).Raised? <==> RangeIn(m, year).None?
    ensures ReadRange(m, year).Ok? ==> RangeIn(m, year) == Some(ReadRange(m, year).value)
  {
  }

  /** `extract_date_range`: the leftmost `D.M.?-D.M` match read as dates; `Ok(None)` without a match. */
  function ExtractDateRange(text: String, today: Date): (r: Result<Option<(Date, Date)>>)
  {
    match Search(text, OptDotDash, 0)
    case None => Ok(None)
    case Some(m) =>
      match ReadRange(m, today.year)
      case Raised => Raised
      case Ok(p) => Ok(Some(p))
  }

  /** A range read starts this year, ends no earlier, and carries the numbers of a match in the text. */
  lemma ExtractOrdered(text: String, today: Date)
    requires ExtractDateRange(text, today).Ok? && ExtractDateRange(text, today).value.Some?
    ensures var (a, b) := ExtractDateRange(text, today).value.value;
      Constructible(a) && Constructible(b) && AtMost(a, b) && a.year == today.year
      && exists i :: 0 <= i <= |text| && MatchAt(text, i, OptDotDash) == Some(RangeMatch(a.day, a.month, b.day, b.month))
  {
    var m := Search(text, OptDotDash, 0).value;
    var i := SearchFound(text, OptDotDash, 0);
    ReadRangeAgrees(m, today.year);
    RangeInOrdered(m, today.year);
  }

  /** `is_menu_current`: false without a range, else `start <= today <= end`; the exception passes through. */
  function IsMenuCurrent(text: String, today: Date): (r: Result<bool>)
  {
    match ExtractDateRange(text, today)
    case Raised => Raised
    case Ok(None) => Ok(false)
    case Ok(Some((a, b))) => Ok(AtMost(a, today) && AtMost(today, b))
  }

  /** Day numbers `start <= today <= end`. */
  predicate OrdWithin(a: Date, b: Date, today: Date)
  {
    ValidDate(a) && ValidDate(b) && ValidDate(today) && Ord(a) <= Ord(today) <= Ord(b)
  }

  /** The menu is current exactly when a range was read and today's day number lies within it. */
  lemma MenuCurrentMeans(text: String, today: Date)
    requires ValidDate(today)
    ensures IsMenuCurrent(text, today) == Ok(true) <==>
      var e := ExtractDateRange(text, today);
      e.Ok? && e.value.Some? && OrdWithin(e.value.value.0, e.value.value.1, today)
    ensures IsMenuCurrent(text, today).Raised? <==> ExtractDateRange(text, today).Raised?
  {
    var e := ExtractDateRange(text, today);
    if e.Ok? && e.value.Some? {
      ExtractOrdered(text, today);
      var (a, b) := e.value.value;
      BeforeIsOrd(a, today);
      BeforeIsOrd(today, b);
    }
  }

  /** `scrape`: `None` on any failure and when today has no items, no fallback; the currency check runs first and its exception escapes. */
  function Scrape(ocr: Ocr, today: Date): (r: Result<Option<seq<Item>>>)
    requires ValidDate(today)
  {
    match ocr
    case Recognised(text) =>
      if text == [] then Ok(None)
      else if IsMenuCurrent(text, today).Raised? then Raised
      else
        var menu := ParseMenuText(text);
        var items := if DayName(today) in menu then ItemsOf(menu[DayName(today)], today, "Main Dish") else [];
        Ok(if items == [] then None else Some(items))
    case _ => Ok(None)
  }

  /** The outcomes: it raises exactly on an impossible date range, gives today's items when today was parsed, and `None` otherwise. */
  lemma ScrapeOutcome(ocr: Ocr, today: Date)
    requires ValidDate(today)
    ensures Scrape(ocr, today).Raised? <==> ocr.Recognised? && ocr.text != [] && ExtractDateRange(ocr.text, today).Raised?
    ensures !ocr.Recognised? || ocr.text == [] ==> Scrape(ocr, today) == Ok(None)
    ensures Scrape(ocr, today).Ok? && ocr.Recognised? && ocr.text != [] ==>
      (Scrape(ocr, today).value.Some? <==> DayName(today) in ParseMenuText(ocr.text))
    ensures Scrape(ocr, today).Ok? && Scrape(ocr, today).value.Some? ==>
      Scrape(ocr, today).value.value == ItemsOf(ParseMenuText(ocr.text)[DayName(today)], today, "Main Dish")
  {
    if ocr.Recognised? && ocr.text != [] {
      MenuCurrentMeans(ocr.text, today);
      ParsedDays(ocr.text);
    }
  }
}
