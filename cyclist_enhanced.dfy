/**
 * `app/scrapers/cyclist_scraper_enhanced.py`: per-day lists from the OCR
 * text, with `|` repaired, whitespace collapsed and a lower-case following
 * line merged into the item; the week's date range read from the text; and
 * the hard-coded fallback.
 */
module CyclistEnhanced {
  import opened Wrappers
  import opened Text
  import opened Dates
  import opened CyclistText

  /** The loop state of `parse_menu_from_text`: `current_day`, `current_items`, `menu_by_day` and `skip_next`. */
  datatype State = State(day: Option<String>, items: seq<String>, menu: map<String, seq<String>>, skip: bool)

  const Start: State := State(None, [], map[], false)

  const Stars: String := "****"
  const Euros: String := "€€€€"
  const Euro: String := "€"
  const DailyDish: String := "Tagesteller"
  const Cyclist: String := "CYCLIST"
  const Pasta: String := "PASTA"
  const Wok: String := "WOK"
  const Chili: String := "CHILI"

  /** Lines that never become items: `****`, `€€€€`, `Tagesteller` or `CYCLIST` inside, or a leading `D.D`. */
  predicate Noise(line: String)
  {
    Contains(line, Stars) || Contains(line, Euros) || Contains(line, DailyDish) || Contains(line, Cyclist)
    || StartsDayMonth(line)
  }

  /** A line that becomes an item once a day is open: longer than 5 characters and not noise. */
  predicate ItemLine(x: String)
  {
    |x| > 5 && !Noise(x)
  }

  /** `re.sub(r'\s+', ' ', line.replace('|', 'l'))`; the line is already stripped, so this is the word-join. */
  function Clean(line: String): String
  {
    Collapse(Replace(line, "|", "l"))
  }

  /** A cleaned item holds no `|` and has single spaces between words and none at the ends. */
  lemma CleanShape(line: String)
    ensures '|' !in Clean(line) && Normalized(Clean(line))
  {
    ReplaceCharRemoves(line, '|', "l");
    CollapseChars(Replace(line, "|", "l"));
    CollapseNormalized(Replace(line, "|", "l"));
  }

  /** The following line continues the item: no day name, none of `****`, `€`, `PASTA`, `WOK`, `CHILI`, longer than 3, lower-case first. */
  predicate Continues(next: String)
  {
    !HasDayName(Upper(next))
    && !Contains(next, Stars) && !Contains(next, Euro) && !Contains(next, Pasta)
    && !Contains(next, Wok) && !Contains(next, Chili)
    && |next| > 3 && IsLowerChar(next[0])
  }

  /** `if current_day and current_items: menu_by_day[current_day] = current_items`. */
  function Flush(st: State): map<String, seq<String>>
  {
    if st.day.Some? && st.items != [] then st.menu[st.day.value := st.items] else st.menu
  }

  /** The day search of one pass: a line naming a day stores the open list and opens that day's. */
  function Open(st: State, line: String): State
  {
    match FirstDay(Upper(line))
    case None => st
    case Some(d) => State(Some(d), [], Flush(st), false)
  }

  /** One pass of the loop over `line`, with `next` the following line if there is one. */
  function Step(st: State, line: String, next: Option<String>): State
  {
    if st.skip then st.(skip := false)
    else
      var st1 := Open(st, line);
      if st1.day.None? || !ItemLine(line) then st1
      else if next.Some? && Continues(next.value) then
        st1.(items := st1.items + [Clean(line) + " " + next.value], skip := true)
      else st1.(items := st1.items + [Clean(line)])
  }

  /** The line after index `i`, if any. */
  function NextOf(lines: seq<String>, i: nat): Option<String>
  {
    if i + 1 < |lines| then Some(lines[i + 1]) else None
  }

  /** The state the loop ends in when it resumes in state `st` at line `i`. */
  function RunFrom(st: State, lines: seq<String>, i: nat): State
    requires i <= |lines|
    decreases |lines| - i
  {
    if i == |lines| then st else RunFrom(Step(st, lines[i], NextOf(lines, i)), lines, i + 1)
  }

  /** The stripped lines longer than 2 characters. */
  function Lines(text: String): seq<String>
  {
    KeptLines(SplitOn(text, '\n'), 2)
  }

  /** `parse_menu_from_text`: the stored lists, the last open one included. */
  function ParseMenuFromText(text: String): map<String, seq<String>>
  {
    var lines := Lines(text);
    Flush(RunFrom(Start, lines, 0))
  }

  /** Item `x` is made from line `i`: the cleaned line, or the cleaned line, a space and the continuing line after it. */
  predicate MadeFrom(x: String, lines: seq<String>, i: nat)
    requires i < |lines|
  {
    ItemLine(lines[i])
    && (x == Clean(lines[i]) || (i + 1 < |lines| && Continues(lines[i + 1]) && x == Clean(lines[i]) + " " + lines[i + 1]))
  }

  /** An item made from one of the lines. */
  predicate ItemFrom(x: String, lines: seq<String>)
  {
    exists i :: 0 <= i < |lines| && MadeFrom(x, lines, i)
  }

  /** Stored lists: under weekday names, non-empty, holding items made from the lines. */
  predicate MenuGood(menu: map<String, seq<String>>, lines: seq<String>)
  {
    (forall d :: d in menu ==> d in EnglishDays && menu[d] != [])
    && (forall d, x :: d in menu && x in menu[d] ==> ItemFrom(x, lines))
  }

  predicate Good(st: State, lines: seq<String>)
  {
    (st.day.Some? ==> st.day.value in EnglishDays)
    && (st.day.None? ==> st.items == [])
    && (forall x :: x in st.items ==> ItemFrom(x, lines))
    && MenuGood(st.menu, lines)
  }

  lemma FlushGood(st: State, lines: seq<String>)
    requires Good(st, lines)
    ensures MenuGood(Flush(st), lines)
  {
    if st.day.Some? && st.items != [] {
      var m := Flush(st);
      forall d | d in m
        ensures d in EnglishDays && m[d] != []
      {
        if d != st.day.value {
          assert d in st.menu;
        }
      }
      forall d, x | d in m && x in m[d]
        ensures ItemFrom(x, lines)
      {
        if d != st.day.value {
          assert d in st.menu;
        }
      }
    }
  }

  /** The item a step adds from line `i` is made from that line. */
  lemma StepGood(st: State, lines: seq<String>, i: nat)
    requires i < |lines| && Good(st, lines)
    ensures Good(Step(st, lines[i], NextOf(lines, i)), lines)
  {
    if !st.skip {
      var line := lines[i];
      var st1 := Open(st, line);
      if FirstDay(Upper(line)).Some? {
        FlushGood(st, lines);
      }
      assert Good(st1, lines);
      if st1.day.Some? && ItemLine(line) {
        var x := if NextOf(lines, i).Some? && Continues(NextOf(lines, i).value)
          then Clean(line) + " " + lines[i + 1] else Clean(line);
        assert MadeFrom(x, lines, i);
      }
    }
  }

  /** A good state stays good for the rest of the lines. */
  lemma {:induction false} RunGood(st: State, lines: seq<String>, i: nat)
    requires i <= |lines| && Good(st, lines)
    ensures Good(RunFrom(st, lines, i), lines)
    decreases |lines| - i
  {
    if i < |lines| {
      StepGood(st, lines, i);
      RunGood(Step(st, lines[i], NextOf(lines, i)), lines, i + 1);
    }
  }

  /** Every stored day is a weekday name whose list is non-empty and made of items built from the lines. */
  lemma ParsedDays(text: String)
    ensures var menu := ParseMenuFromText(text);
      forall d :: d in menu ==> d in EnglishDays && menu[d] != [] && forall x :: x in menu[d] ==> ItemFrom(x, Lines(text))
  {
    var lines := Lines(text);
    RunGood(Start, lines, 0);
    FlushGood(RunFrom(Start, lines, 0), lines);
  }

  /** A line naming a day stores the open list, replacing any earlier list of that day, and is itself the new day's first item when it is an item line. */
  lemma DayLineStep(st: State, line: String, next: Option<String>)
    requires !st.skip && FirstDay(Upper(line)).Some?
    ensures Step(st, line, next).day == FirstDay(Upper(line))
    ensures st.day.Some? && st.items != [] ==> Step(st, line, next).menu[st.day.value] == st.items
    ensures !ItemLine(line) ==> Step(st, line, next).items == []
    ensures ItemLine(line) ==> |Step(st, line, next).items| == 1 && StartsWith(Step(st, line, next).items[0], Clean(line))
  {
  }

  /** A merged line is consumed: the step after a merge only clears the flag, whatever that line holds. */
  lemma MergedLineConsumed(st: State, line: String, next: String, after: Option<String>)
    requires !st.skip && Step(st, line, Some(next)).skip
    ensures Continues(next)
    ensures Step(st, line, Some(next)).items[|Step(st, line, Some(next)).items| - 1] == Clean(line) + " " + next
    ensures Step(Step(st, line, Some(next)), next, after) == Step(st, line, Some(next)).(skip := false)
  {
  }

  /** `parse_menu_from_text`: the `for i, line in enumerate(lines)` loop over the four variables, then the last flush. */
  method ParseMenuFromTextLoop(text: String) returns (menu: map<String, seq<String>>)
    ensures menu == ParseMenuFromText(text)
  {
    var lines := Lines(text);
    var currentDay: Option<String> := None;
    var currentItems: seq<String> := [];
    var skipNext := false;
    menu := map[];
    for i := 0 to |lines|
      invariant RunFrom(State(currentDay, currentItems, menu, skipNext), lines, i) == RunFrom(Start, lines, 0)
    {
      if skipNext {
        skipNext := false;
      } else {
        currentDay, currentItems, menu, skipNext := ProcessLine(lines, i, currentDay, currentItems, menu);
      }
    }
    if currentDay.Some? && currentItems != [] {
      menu := menu[currentDay.value := currentItems];
    }
  }

  /** One pass of the loop over line `i` when it is not skipped: the day search, the noise tests and the item with its continuation. */
  method ProcessLine(lines: seq<String>, i: nat, day: Option<String>, items: seq<String>, menu: map<String, seq<String>>)
    returns (day': Option<String>, items': seq<String>, menu': map<String, seq<String>>, skip': bool)
    requires i < |lines|
    ensures State(day', items', menu', skip') == Step(State(day, items, menu, false), lines[i], NextOf(lines, i))
  {
    var line := lines[i];
    day', items', menu' := SwitchDay(line, day, items, menu);
    skip' := false;
    if day'.None? || !ItemLine(line) {
      return;
    }
    var item := Clean(line);
    if i + 1 < |lines| && Continues(lines[i + 1]) {
      item := item + " " + lines[i + 1];
      skip' := true;
    }
    items' := items' + [item];
  }

  /** The `for german_day, english_day in days.items()` loop with its `break`. */
  method SwitchDay(line: String, day: Option<String>, items: seq<String>, menu: map<String, seq<String>>)
    returns (day': Option<String>, items': seq<String>, menu': map<String, seq<String>>)
    ensures State(day', items', menu', false) == Open(State(day, items, menu, false), line)
  {
    var upper := Upper(line);
    day', items', menu' := day, items, menu;
    var k := 0;
    while k < |GermanDays|
      invariant k <= |GermanDays|
      invariant FirstDayFrom(upper, k) == FirstDay(upper)
    {
      if Contains(upper, GermanDays[k].0) {
        if day.Some? && items != [] {
          menu' := menu[day.value := items];
        }
        day' := Some(GermanDays[k].1);
        items' := [];
        return;
      }
      k := k + 1;
    }
  }

  /** `get_date_range_from_text`: the first pattern's leftmost match, then the second's, each given up when a date does not build. */
  function DateRangeFromText(text: String, today: Date): (r: Option<(Date, Date)>)
  {
    var first := match Search(text, SpacesOrDashes, 0)
      case None => None
      case Some(m) => RangeIn(m, today.year);
    if first.Some? then first
    else
      match Search(text, OptDotDash, 0)
      case None => None
      case Some(m) => RangeIn(m, today.year)
  }

  /** A range found starts this year, ends no earlier and at most a year later, and carries the numbers of a match in the text. */
  lemma DateRangeOrdered(text: String, today: Date)
    requires DateRangeFromText(text, today).Some?
    ensures var (a, b) := DateRangeFromText(text, today).value;
      Constructible(a) && Constructible(b) && AtMost(a, b) && a.year == today.year
      && (b.year == today.year || b.year == today.year + 1)
      && exists i, sep :: 0 <= i <= |text| && MatchAt(text, i, sep) == Some(RangeMatch(a.day, a.month, b.day, b.month))
  {
    if Search(text, SpacesOrDashes, 0).Some? && RangeIn(Search(text, SpacesOrDashes, 0).value, today.year).Some? {
      var i := SearchFound(text, SpacesOrDashes, 0);
      RangeInOrdered(Search(text, SpacesOrDashes, 0).value, today.year);
    } else {
      var i := SearchFound(text, OptDotDash, 0);
      RangeInOrdered(Search(text, OptDotDash, 0).value, today.year);
    }
  }

  /** Text with no `D.M<spaces or dashes>D.M` anywhere gives no range: the second pattern finds nothing the first did not. */
  lemma NoMatchNoRange(text: String, today: Date)
    requires forall i :: 0 <= i <= |text| ==> MatchAt(text, i, SpacesOrDashes).None?
    ensures DateRangeFromText(text, today).None?
  {
    if Search(text, SpacesOrDashes, 0).Some? {
      var i := SearchFound(text, SpacesOrDashes, 0);
      assert false;
    }
    if Search(text, OptDotDash, 0).Some? {
      var i := SearchFound(text, OptDotDash, 0);
      DashMatchIsSpaceMatch(text, i);
    }
  }

  /** `scrape`: today's list as `Main Dish` items; the fallback when a step fails, the text is empty or today has no list. The date range is only logged. */
  function Scrape(ocr: Ocr, today: Date): (r: Option<seq<Item>>)
    requires ValidDate(today)
  {
    match ocr
    case Recognised(text) =>
      if text == [] then Fallback(today)
      else
        var menu := ParseMenuFromText(text);
        if DayName(today) in menu then
          var items := ItemsOf(menu[DayName(today)], today, "Main Dish");
          if items == [] then None else Some(items)
        else Fallback(today)
    case _ => Fallback(today)
  }

  /** The routing: failures and a missing day give the fallback; otherwise today's items, so `scrape` never returns `None`. */
  lemma ScrapeRouting(ocr: Ocr, today: Date)
    requires ValidDate(today)
    ensures Scrape(ocr, today).Some?
    ensures !ocr.Recognised? || ocr.text == [] ==> Scrape(ocr, today) == Fallback(today)
    ensures ocr.Recognised? && ocr.text != [] && DayName(today) in ParseMenuFromText(ocr.text) ==>
      Scrape(ocr, today).value == ItemsOf(ParseMenuFromText(ocr.text)[DayName(today)], today, "Main Dish")
    ensures ocr.Recognised? && ocr.text != [] && DayName(today) !in ParseMenuFromText(ocr.text) ==>
      Scrape(ocr, today) == Fallback(today)
  {
    FallbackTwoItems(today);
    if ocr.Recognised? && ocr.text != [] {
      ParsedDays(ocr.text);
    }
  }
}
