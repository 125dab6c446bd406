/**
 * `app/scrapers/cyclist_scraper_simple_ocr.py`: the OCR text of the menu
 * image is cut into per-day lists of lines; `scrape` returns today's list,
 * or the hard-coded fallback whenever a step fails or today is missing.
 */
module CyclistSimpleOcr {
  import opened Wrappers
  import opened Text
  import opened Dates
  import opened CyclistText

  /** The loop state of `parse_menu_text`: `current_day`, `current_items` and `menu_by_day`. */
  datatype State = State(day: Option<String>, items: seq<String>, menu: map<String, seq<String>>)

  const Start: State := State(None, [], map[])

  const Stars: String := "****"
  const Euros: String := "€€€€"
  const DailyDish: String := "Tagesteller"

  /** Lines that never become items: `****`, `€€€€` or `Tagesteller` inside, or a leading `D.D`. */
  predicate Noise(line: String)
  {
    Contains(line, Stars) || Contains(line, Euros) || Contains(line, DailyDish) || StartsDayMonth(line)
  }

  /** `if current_day and current_items: menu_by_day[current_day] = current_items`. */
  function Flush(st: State): map<String, seq<String>>
  {
    if st.day.Some? && st.items != [] then st.menu[st.day.value := st.items] else st.menu
  }

  /** One pass of the `for line in lines` loop. */
  function Step(st: State, line: String): State
  {
    var st1 := match FirstDay(Upper(line))
      case None => st
      case Some(d) => State(Some(d), [], Flush(st));
    if st1.day.None? || Noise(line) || |line| <= 5 then st1
    else st1.(items := st1.items + [line])
  }

  /** The state the loop ends in when it resumes in state `st` at line `i`. */
  function RunFrom(st: State, lines: seq<String>, i: nat): State
    requires i <= |lines|
    decreases |lines| - i
  {
    if i == |lines| then st else RunFrom(Step(st, lines[i]), lines, i + 1)
  }

  /** The stripped lines longer than 2 characters. */
  function Lines(text: String): seq<String>
  {
    KeptLines(SplitOn(text, '\n'), 2)
  }

  /** `parse_menu_text`: the stored lists, the last open one included. */
  function ParseMenuText(text: String): map<String, seq<String>>
  {
    Flush(RunFrom(Start, Lines(text), 0))
  }

  /** An item line: longer than 5 characters and not noise. */
  predicate ItemLine(x: String)
  {
    |x| > 5 && !Noise(x)
  }

  /** An item line of the input. */
  predicate ItemOf(x: String, lines: seq<String>)
  {
    x in lines && ItemLine(x)
  }

  /** Stored lists: under weekday names, non-empty, holding item lines of the input. */
  predicate MenuGood(menu: map<String, seq<String>>, lines: seq<String>)
  {
    (forall d :: d in menu ==> d in EnglishDays && menu[d] != [])
    && (forall d, x :: d in menu && x in menu[d] ==> ItemOf(x, lines))
  }

  /** What every state of the loop satisfies: the open day is a weekday name, the open list holds item lines of the input, the stored lists are good. */
  predicate Good(st: State, lines: seq<String>)
  {
    (st.day.Some? ==> st.day.value in EnglishDays)
    && (st.day.None? ==> st.items == [])
    && (forall x :: x in st.items ==> ItemOf(x, lines))
    && MenuGood(st.menu, lines)
  }

  /** Storing the open list keeps the stored lists good. */
  lemma FlushGood(st: State, all: seq<String>)
    requires Good(st, all)
    ensures MenuGood(Flush(st), all)
  {
    if st.day.Some? && st.items != [] {
      var m := Flush(st);
      forall d | d in m
        ensures d in EnglishDays && m[d] != []
      {
        if d != st.day.value {
          assert d in st.menu;
        }
      }
      forall d, x | d in m && x in m[d]
        ensures ItemOf(x, all)
      {
        if d != st.day.value {
          assert d in st.menu;
        }
      }
    }
  }

  /** One step keeps `Good` for a line of the input. */
  lemma StepGood(st: State, line: String, all: seq<String>)
    requires Good(st, all) && line in all
    ensures Good(Step(st, line), all)
  {
    match FirstDay(Upper(line))
    case None =>
    case Some(d) =>
      FlushGood(st, all);
      assert Good(State(Some(d), [], Flush(st)), all);
  }

  /** A good state stays good for the rest of the lines. */
  lemma {:induction false} RunGood(st: State, lines: seq<String>, i: nat)
    requires i <= |lines| && Good(st, lines)
    ensures Good(RunFrom(st, lines, i), lines)
    decreases |lines| - i
  {
    if i < |lines| {
      StepGood(st, lines[i], lines);
      RunGood(Step(st, lines[i]), lines, i + 1);
    }
  }

  /** Every stored day is a weekday name whose list is non-empty and holds input lines longer than 5 characters that are not noise. */
  lemma ParsedDays(text: String)
    ensures var menu := ParseMenuText(text);
      forall d :: d in menu ==>
        d in EnglishDays && menu[d] != [] && forall x :: x in menu[d] ==> ItemOf(x, Lines(text))
  {
    var lines := Lines(text);
    RunGood(Start, lines, 0);
    FlushGood(RunFrom(Start, lines, 0), lines);
  }

  /** A line naming a day stores the open list under its day, replacing any earlier list of that day, and starts the new day empty or with the line itself. */
  lemma DayLineStep(st: State, line: String)
    requires FirstDay(Upper(line)).Some?
    ensures Step(st, line).day == FirstDay(Upper(line))
    ensures st.day.Some? && st.items != [] ==> Step(st, line).menu[st.day.value] == st.items
    ensures Step(st, line).items == if ItemLine(line) then [line] else []
  {
  }

  /** Any other line adds itself, whole and unmerged, to the open day when it is an item line, and changes nothing otherwise. */
  lemma OtherLineStep(st: State, line: String)
    requires FirstDay(Upper(line)).None?
    ensures Step(st, line) == if st.day.Some? && ItemLine(line) then st.(items := st.items + [line]) else st
  {
  }

  /** `parse_menu_text`: the `for line in lines` loop over the three variables, then the last flush. */
  method ParseMenuTextLoop(text: String) returns (menu: map<String, seq<String>>)
    ensures menu == ParseMenuText(text)
  {
    var lines := Lines(text);
    var currentDay: Option<String> := None;
    var currentItems: seq<String> := [];
    menu := map[];
    for i := 0 to |lines|
      invariant RunFrom(State(currentDay, currentItems, menu), lines, i) == RunFrom(Start, lines, 0)
    {
      currentDay, currentItems, menu := ProcessLine(lines[i], currentDay, currentItems, menu);
    }
    if currentDay.Some? && currentItems != [] {
      menu := menu[currentDay.value := currentItems];
    }
  }

  /** One pass of the loop: the `for german_day, english_day in days.items()` search with its `break`, then the `continue`s and the item. */
  method ProcessLine(line: String, day: Option<String>, items: seq<String>, menu: map<String, seq<String>>)
    returns (day': Option<String>, items': seq<String>, menu': map<String, seq<String>>)
    ensures State(day', items', menu') == Step(State(day, items, menu), line)
  {
    var upper := Upper(line);
    day', items', menu' := day, items, menu;
    var k := 0;
    while k < |GermanDays|
      invariant k <= |GermanDays|
      invariant FirstDayFrom(upper, k) == FirstDay(upper)
      invariant State(day', items', menu') == State(day, items, menu)
    {
      if Contains(upper, GermanDays[k].0) {
        if day'.Some? && items' != [] {
          menu' := menu'[day'.value := items'];
        }
        day' := Some(GermanDays[k].1);
        items' := [];
        break;
      }
      k := k + 1;
    }
    if day'.None? {
      return;
    }
    if Noise(line) {
      return;
    }
    if |line| > 5 {
      items' := items' + [line];
    }
  }

  /** `scrape`: today's list as `Main Dish` items; the fallback when there is no image, the download or OCR fails, the text is empty, or today has no list. */
  function Scrape(ocr: Ocr, today: Date): (r: Option<seq<Item>>)
    requires ValidDate(today)
  {
    match ocr
    case Recognised(text) =>
      if text == [] then Fallback(today)
      else
        var menu := ParseMenuText(text);
        if DayName(today) in menu then
          var items := ItemsOf(menu[DayName(today)], today, "Main Dish");
          if items == [] then None else Some(items)
        else Fallback(today)
    case _ => Fallback(today)
  }

  /** The routing: every failure and a missing day give the fallback; otherwise today's lines become `Main Dish` items, so `scrape` never returns `None`. */
  lemma ScrapeRouting(ocr: Ocr, today: Date)
    requires ValidDate(today)
    ensures Scrape(ocr, today).Some?
    ensures !ocr.Recognised? || ocr.text == [] ==> Scrape(ocr, today) == Fallback(today)
    ensures ocr.Recognised? && ocr.text != [] && DayName(today) in ParseMenuText(ocr.text) ==>
      Scrape(ocr, today).value == ItemsOf(ParseMenuText(ocr.text)[DayName(today)], today, "Main Dish")
    ensures ocr.Recognised? && ocr.text != [] && DayName(today) !in ParseMenuText(ocr.text) ==>
      Scrape(ocr, today) == Fallback(today)
  {
    FallbackTwoItems(today);
    if ocr.Recognised? && ocr.text != [] {
      ParsedDays(ocr.text);
    }
  }
}
