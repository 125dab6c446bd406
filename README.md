# lunch_app menu extraction, modelled in Dafny

The lunch app collects the week's lunch menus of restaurants near a campus. Each scraper
fetches a page, a PDF or an image, turns it into text, and extracts a list of menu items
`{menu_date, category, description, price}`. The items are then saved per restaurant and date.
This project models the extraction logic of the scrapers once the browser, HTTP, OCR and PDF
calls are stripped away. Each scraper then works on a list of text lines or on a small record of
extracted fields. The project also models the per-date replace of the store and the scraping
service's bookkeeping.

Shared modules:
- `Wrappers`: `Option` and `Result` (`Raised` stands for a Python exception).
- `Text`: Python string operations over `seq<char>`, such as `strip`, `split`, `join`, `lower`, `upper`, `in`, `find` and `replace`.
- `Dates`: proleptic Gregorian dates, `toordinal`, `weekday`, `+ timedelta` and ISO 8601 weeks, as in Python's `datetime.date`.
- `Deduplication`: first-wins deduplication by a key.
- `ErsteText`: the line splitting and patterns shared by the Erste Campus scrapers.
- `Seqs`: `FlatMap`, `Filter` and first-match searches over sequences, with the lemmas loops need.
- `Patterns`, `Decimals`, `LooseDates`: the price and date regular expressions as predicates, with `re.search` (leftmost match) and `re.sub`.
- `DateFormats`: `datetime.strptime` for the formats the scrapers try (`%d`, `%m`, `%Y`, `%B`, literals), with its round trip.
- `Keywords`: first-match keyword tables, the shape of every `_determine_category`.
- `Menu`: the menu item record `{menu_date, category, description, price}`.
- `MealCards`: the meal-card markup shared by the Café George and 4oh4 scrapers.
- `Store`: `save_to_db` and `cleanup_old_data` over a database class whose tables are sequences of rows.
- `Service`: the scraping service's `run_all_scrapers` and `run_single_scraper`, with each scraper's outcome as input.
- `LegacyBase`: `validate_data` of the older base scraper.

There is one module per scraper file, for example `ErsteApp` for `app/scrapers/erste_campus_scraper.py`.
The clock (`date.today()`) is a parameter `today`.

A scraper that walks lines with index loops is modelled in two parts:
- a specification function, such as `Outer`/`Inner` or `ParseOuter`/`ParseInner`, which cuts the lines into pieces;
- a method with the same `while` loops as the source, proved equal to the specification.

Properties are then proved about the specification functions.

A function that only defines a computation (a specification function, or the model of a helper
such as `_extract_price`) has no row of its own in the table below: a row needs a member whose
contract states something, so its properties are stated by the lemmas and methods listed, whose
source cells cite its lines. The list under "## Definitions" gives the source lines of the main
definitions.

## Model

| member | source | states |
|---|---|---|
| ErsteText.BodyLines | app/scrapers/erste_campus_scraper.py:68 | the page text split at newlines, with each line stripped and blank lines dropped: every line is non-empty, has no newline and no surrounding whitespace |
| ErsteText.KeepStrippedClean | app/scrapers/erste_campus_scraper.py:68 | every kept line is stripped and non-empty |
| ErsteText.HeaderCases | app/scrapers/erste_campus_scraper.py:85 | a line opens a category iff it is exactly SOUP, MAIN DISH, DESSERTS or SALAD |
| ErsteText.UpperHeader | app/scrapers/erste_campus_scraper.py:128-135 | a header is its own upper-case form, so the category table is looked up with the header itself |
| ErsteText.RemoveSpacesIsFilter | app/scrapers/erste_campus_scraper.py:137-140 | `replace(' ', '')` keeps exactly the non-space characters, in order |
| ErsteText.SearchDMYFrom | app/scrapers/erste_campus_scraper.py:73 | `re.search(r'(\d{1,2})\.(\d{1,2})\.(\d{2})')`: a match is the leftmost position where the pattern matches; no match means no position matches |
| ErsteText.SearchDMYRoundTrip | app/scrapers/erste_campus_scraper.py:73-75 | the two-digit text DD.MM.YY of any day, month and year is found again with those values |
| ErsteText.DateOf | app/scrapers/erste_campus_scraper.py:75-76 | `date(2000+yy, mm, dd)` succeeds iff that date exists (year 1..9999), otherwise it raises |
| ErsteText.HeaderDateFrom | app/scrapers/erste_campus_scraper.py:71-77 | without any DD.MM.YY in the scanned lines the date stays `today` |
| ErsteText.StripLabel | app/scrapers/erste_campus_scraper.py:149 | `re.sub(r'^(SOUP\|MAIN DISH\|DESSERTS?\|SALAD)\s*', '', flags=re.I)`: removes the leading label (longest alternative first) and the whitespace after it, and nothing when no label leads |
| ErsteText.StripLetterTail | app/scrapers/erste_campus_scraper.py:150 | `re.sub(r'\s+[A-Z](\s+[A-Z])*\s*$', '')`: the result is a prefix of the text; what was cut is a run of single capitals; no earlier cut point would match |
| ErsteText.StripLetterTailIdempotent | app/scrapers/erste_campus_scraper.py:150 | removing the trailing allergen letters a second time changes nothing |
| ErsteText.NoCapitalsKeepTail | app/scrapers/erste_campus_scraper.py:150 | text without capitals is left unchanged by the allergen-tail removal |
| ErsteText.DeleteLoneFrom | erste_campus_final_scraper_fixed.py:384 | deleting lone capitals only removes characters, and text without a lone capital is unchanged |
| ErsteText.SpacePunct | erste_campus_final_scraper_fixed.py:387 | spacing punctuation adds nothing but spaces |
| ErsteText.StripNormalized | app/scrapers/erste_campus_scraper.py:153 | the `' '.join(text.split())` result is unchanged by the final `strip()` |
| Deduplication.DedupFrom | erste_campus_final_scraper_fixed.py:394-407 | the output is no longer than the input and holds no key already seen |
| Deduplication.DedupKeysDistinct | erste_campus_final_scraper_fixed.py:399-405 | no two kept items share a key |
| Deduplication.DedupSubseq | erste_campus_final_scraper_fixed.py:399-405 | the output is a subsequence of the input: order is preserved |
| Deduplication.DedupKeepsFirst | erste_campus_final_scraper_fixed.py:399-405 | the first item with each key is kept |
| Deduplication.DedupCoversKeys | erste_campus_final_scraper_fixed.py:399-405 | every key of the input occurs in the output |
| Deduplication.DedupOfDistinct | erste_campus_final_scraper_fixed.py:399-405 | a list without repeated keys is returned unchanged |
| Deduplication.DedupIdempotent | erste_campus_final_scraper_fixed.py:394-407 | deduplicating twice equals deduplicating once |
| Deduplication.DedupEmpty | erste_campus_final_scraper_fixed.py:394-407 | the output is empty iff the input is |
| ErsteApp.NormalizeCategory | app/scrapers/erste_campus_scraper.py:128-135 | the category is always one of Soup, Main Dish, Dessert, Salad |
| ErsteApp.NormalizeHeader | app/scrapers/erste_campus_scraper.py:128-135 | SOUP → Soup, MAIN DISH → Main Dish, DESSERTS → Dessert, SALAD → Salad |
| ErsteApp.AllergenLineIff | app/scrapers/erste_campus_scraper.py:137-140 | a line is an allergen line iff it has a non-space character and all its non-space characters are among the 14 codes; there is no length cap |
| ErsteApp.HeaderNotAllergen | app/scrapers/erste_campus_scraper.py:137-140 | no category header is an allergen line |
| ErsteApp.CleanDescription | app/scrapers/erste_campus_scraper.py:142-153 | "" when the lower-cased text contains http, .html or external; otherwise the label, allergen-tail, ` / ` and whitespace cleaning; the result is trimmed with single spaces |
| ErsteApp.FirstStop | app/scrapers/erste_campus_scraper.py:93-107 | the description lines run up to the first price, allergen or header line |
| ErsteApp.Cut | app/scrapers/erste_campus_scraper.py:93-107 | the item's next index never goes back, advances past any non-header line, and a price is always a price line |
| ErsteApp.CutAt | app/scrapers/erste_campus_scraper.py:93-107 | at the stopping line: a price line is taken as the price and consumed; an allergen line is consumed with no price; a header is left for the outer loop |
| ErsteApp.RealEuroIsText | app/scrapers/erste_campus_scraper.py:96-107 | a line starting with a real € is not a price line for this scraper, which matches the mis-decoded `â‚¬` |
| ErsteApp.DishesConcat | app/scrapers/erste_campus_scraper.py:109-118 | the dishes of two runs of pieces are the dishes of each, in order |
| ErsteApp.DishesWellFormed | app/scrapers/erste_campus_scraper.py:109-118 | every emitted dish has the page date, a known category, a trimmed single-spaced description longer than 10 characters, and an empty price or a price line |
| ErsteApp.OuterPiecesOk | app/scrapers/erste_campus_scraper.py:82-120 | every piece the walk cuts has a known category and an empty price or a price line |
| ErsteApp.CurrentViewWellFormed | app/scrapers/erste_campus_scraper.py:64-126 | every item extracted from a page is well formed |
| ErsteApp.RaisedDateEmpties | app/scrapers/erste_campus_scraper.py:71-126 | an impossible header date makes the extraction return [] |
| ErsteApp.FindHeaderDate | app/scrapers/erste_campus_scraper.py:71-77 | the date loop returns the first DD.MM.YY of the first 20 lines, raising on an impossible date, else `today` |
| ErsteApp.CollectDish | app/scrapers/erste_campus_scraper.py:93-107 | the inner collection loop computes the item's cut |
| ErsteApp.ParseCategory | app/scrapers/erste_campus_scraper.py:88-119 | the loop under one header stops at the next header or the end, and emits that header's dishes |
| ErsteApp.ParseLines | app/scrapers/erste_campus_scraper.py:79-120 | the outer walk emits the dishes of all pieces of the page, in order |
| ErsteApp.ExtractCurrentView | app/scrapers/erste_campus_scraper.py:64-126 | `_extract_current_view` returns the items of the page, or [] when the date raises |
| ErsteApp.Scrape | app/scrapers/erste_campus_scraper.py:51-55 | `scrape` returns None iff no items were found, else the items |
| ErsteFixed.NormalizeCategory | erste_campus_final_scraper_fixed.py:344-353 | the category is always one of the table's values |
| ErsteFixed.NormalizeHeader | erste_campus_final_scraper_fixed.py:344-353 | each header maps to its category |
| ErsteFixed.AllergenLineIff | erste_campus_final_scraper_fixed.py:355-361 | an allergen line has 1 to 10 non-space characters, all among the 14 codes, and conversely |
| ErsteFixed.FirstStop | erste_campus_final_scraper_fixed.py:317-338 | the item's lines run up to the first price, allergen or header line |
| ErsteFixed.ExtractItem | erste_campus_final_scraper_fixed.py:311-342 | a returned item's next index is strictly past the start, so the outer loop terminates; its price is a price line |
| ErsteFixed.ExtractItemLines | erste_campus_final_scraper_fixed.py:317-338 | the item's lines are the consecutive lines from the start, none of them a stop line; an item without lines has a price |
| ErsteFixed.PriceLineAlone | erste_campus_final_scraper_fixed.py:326-328 | a price line at the start is returned as the price of an item with no lines |
| ErsteFixed.StopWithoutLines | erste_campus_final_scraper_fixed.py:331-336 | an allergen line or header at the start yields None |
| ErsteFixed.ExtractAt | erste_campus_final_scraper_fixed.py:317-342 | the outcome at the stopping line, case by case |
| ErsteFixed.ExtractMenuItem | erste_campus_final_scraper_fixed.py:311-342 | the `while` loop of `_extract_menu_item` computes the item |
| ErsteFixed.CleanDescription | erste_campus_final_scraper_fixed.py:363-392 | "" when the lower-cased text contains one of the nine boilerplate markers; the result is always trimmed with single spaces |
| ErsteFixed.DishesConcat | erste_campus_final_scraper_fixed.py:288-299 | the dishes of two runs of pieces are the dishes of each, in order |
| ErsteFixed.MenuItemsWellFormed | erste_campus_final_scraper_fixed.py:269-309 | every item has a known category, a trimmed single-spaced description longer than 10 characters, and an empty price or a price line |
| ErsteFixed.ParseCategory | erste_campus_final_scraper_fixed.py:283-305 | the loop under one header stops at the next header or the end, and emits that header's dishes |
| ErsteFixed.ParseMenuItems | erste_campus_final_scraper_fixed.py:269-309 | the nested loops of `_parse_menu_items` compute the menu items of the lines |
| ErsteFixed.DeduplicateItems | erste_campus_final_scraper_fixed.py:394-407 | the `seen`-set loop keeps the first item per (category, lower-cased description) |
| ErsteFixed.ParseDateString | erste_campus_final_scraper_fixed.py:216-222 | a parsed date is a date Python can construct |
| ErsteFixed.ParseDateDots | erste_campus_final_scraper_fixed.py:219 | a parsed text has exactly two dots |
| ErsteFixed.ParseDateDigits | erste_campus_final_scraper_fixed.py:216-222 | DD.MM.YY digit fields give `date(2000+YY, MM, DD)` when it exists, None otherwise |
| ErsteFixed.ParseDateRoundTrip | erste_campus_final_scraper_fixed.py:216-222 | writing a 21st-century date as DD.MM.YY and parsing it gives the date back |
| ErsteFixed.LineDate | erste_campus_final_scraper_fixed.py:260-265 | the date of a line is the parsed first DD.MM.YY match, and it is a valid date |
| ErsteFixed.FindDateInContent | erste_campus_final_scraper_fixed.py:257-267 | None iff none of the first 20 lines has a valid date; otherwise the first valid one, skipping invalid ones |
| ErsteDebug.AllergenRunShape | debug_actual_scraper.py:83-102 | the allergen run is every consecutive allergen line, and it stops before a non-allergen line |
| ErsteDebug.AfterAllergens | debug_actual_scraper.py:83-102 | after an allergen run the next index never goes back, and a price taken is a price line |
| ErsteDebug.AllergenRunPrice | debug_actual_scraper.py:83-102 | after the allergen run, the next line is the price iff it is a price line; then it is consumed, else the price stays "" |
| ErsteDebug.PriceLineTaken | debug_actual_scraper.py:104-108 | a price line with no preceding allergen run is attached and ends the item |
| ErsteDebug.HeaderLeft | debug_actual_scraper.py:78-81 | a header ends the item without being consumed, so the next category starts at it |
| ErsteDebug.DebugCut | debug_actual_scraper.py:60-113 | the item's next index advances past any non-header line, and its price is a price line |
| ErsteDebug.DebugCutLines | debug_actual_scraper.py:60-113 | the item's lines are the lines up to the first stop line |
| ErsteDebug.SkipAllergens | debug_actual_scraper.py:83-102 | the allergen-run loop and the price lookahead compute the price and index after the run |
| ErsteDebug.CollectDish | debug_actual_scraper.py:60-113 | the collection loop computes the item's cut |
| ErsteDebug.CurrentViewWellFormed | debug_actual_scraper.py:40-140 | every emitted item has the page date, a known category, a cleaned description longer than 10 characters and an empty price or a price line |
| ErsteDebug.ParseCategory | debug_actual_scraper.py:63-129 | the loop under one header stops at the next header or the end, and emits that header's dishes |
| ErsteDebug.ParseLines | debug_actual_scraper.py:57-131 | the outer walk emits the dishes of all pieces, in order |
| ErsteDebug.ExtractCurrentView | debug_actual_scraper.py:40-140 | the items of the page, or [] when the date raises |
| ErsteDebug.Scrape | debug_actual_scraper.py:28-37 | None iff no items were found |
| ErsteFinal.NormalizeCategory | erste_campus_final_scraper.py:216-225 | the category is always one of Soup, Main Dish, Dessert, Salad |
| ErsteFinal.NormalizeAgrees | erste_campus_final_scraper.py:216-225 | the table agrees with the app scraper's except that DESSERT maps to Dessert instead of the default Main Dish |
| ErsteFinal.Emit | erste_campus_final_scraper.py:184-194 | a piece gives at most one dish |
| ErsteFinal.DishesConcat | erste_campus_final_scraper.py:184-194 | the dishes of two runs of pieces are the dishes of each, in order |
| ErsteFinal.FilterBeforeCleaning | erste_campus_final_scraper.py:186-193 | the length filter applies to the raw joined lines: a raw text of 13 characters passes it and gives the 3-character description "x y" |
| ErsteFinal.PriceConsumed | erste_campus_final_scraper.py:170-197 | a price belongs to the item whose loop consumed the price line, which is the line right after its description lines |
| ErsteFinal.OuterPiecesOk | erste_campus_final_scraper.py:150-199 | every piece of the walk has a known category and an empty price or a price line |
| ErsteFinal.DayMenuShape | erste_campus_final_scraper.py:131-214 | a returned menu has the header date, at least one item, no repeated exact (category, description), items in walk order taken from the walk's dishes, all well formed |
| ErsteFinal.DayMenuNone | erste_campus_final_scraper.py:138-214 | None iff the header date raises or the walk finds no dishes |
| ErsteFinal.ParseCategory | erste_campus_final_scraper.py:157-198 | the loop under one header stops at the next header or the end, and emits that header's dishes |
| ErsteFinal.ParseLines | erste_campus_final_scraper.py:150-199 | the walk emits the dishes of all pieces, in order |
| ErsteFinal.DeduplicateItems | erste_campus_final_scraper.py:201-208 | the `seen`-set loop keeps the first item per exact (category, description) |
| ErsteFinal.ExtractCurrentDayMenu | erste_campus_final_scraper.py:131-214 | `_extract_current_day_menu` returns the day menu |
| ErsteFinal.FirstCodeIsFirst | erste_campus_final_scraper.py:265-272 | the weekday loop returns the number of the first table name occurring in the text, and nothing iff none occurs |
| ErsteFinal.CodeRange | erste_campus_final_scraper.py:260-263 | every weekday number in the table is 0..4 |
| ErsteFinal.DaysAhead | erste_campus_final_scraper.py:269-271 | `days_ahead` (plus 7 when negative) is 0..6 and lands on the wanted weekday |
| ErsteFinal.NavigationDate | erste_campus_final_scraper.py:254-257 | a DD.MM.YY in the text gives `date(2000+YY, MM, DD)`, raising when it does not exist |
| ErsteFinal.NavigationWeekday | erste_campus_final_scraper.py:259-272 | otherwise the first weekday name gives the date on that weekday 0 to 6 days after today; `today + timedelta` raises exactly when that date lies past `date.max`, so only within six days of it |
| ErsteFinal.NavigationOverflow | erste_campus_final_scraper.py:265-272 | on `date.max`, a Friday, `MON` asks for the Monday after it, and `today + timedelta` raises `OverflowError` |
| ErsteFinal.WeekdayTarget | erste_campus_final_scraper.py:268-272 | today plus `days_ahead` days is on the wanted weekday, within the coming week |
| ErsteFinal.NavigationNone | erste_campus_final_scraper.py:259-274 | without a date, None iff no weekday name occurs in the upper-cased text |
| Dates.AddDays | erste_campus_final_scraper.py:272 | `date + timedelta(k)` is a valid date whose ordinal is k more |
| Dates.WeekdayShift | erste_campus_final_scraper.py:269-272 | k days later the weekday is k more, modulo 7 |
| Dates.DaysBeforeYearFormula | erste_campus_final_scraper.py:272 | the year-by-year day count equals Python's closed form for `toordinal` |
| Dates.ShiftedInRange | erste_campus_final_scraper.py:272 | `date + timedelta(k)` succeeds exactly when the ordinal plus k stays between those of `date.min` (1) and `date.max`, and then it is the date k days on |
| Dates.MondayConstructible | erste_campus_nextjs_scraper.py:416-423 | `date.min` is a Monday, so stepping back to the Monday of any date's week never raises |
| Dates.MaxDateFacts | erste_campus_final_scraper.py:272 | `date.max`, 9999-12-31, is a valid Friday with ordinal 3652059 |
| Dates.DayInWeek | erste_campus_nextjs_scraper.py:416-423 | `today + timedelta(days=n - today.weekday())` is a constructible date on weekday `n` of today's Monday-to-Sunday week, and raises exactly when that day lies past `date.max` |
| Cyclist.ScrapeTwoItems | app/scrapers/cyclist_scraper.py:31-87 | every day of the week, weekend included, `scrape` returns exactly the table's two dishes for today's weekday, in table order, as `Main Dish` items dated today with an empty price |
| CyclistText.DayName | app/scrapers/cyclist_scraper.py:32 | `today.strftime("%A").upper()` is one of the seven upper-case English weekday names |
| CyclistText.WeekMenuKeys | app/scrapers/cyclist_scraper.py:36-65 | the hard-coded week table has seven entries, keyed by the weekday names in weekday order, each with two dishes |
| CyclistText.EnglishDaysDistinct | app/scrapers/cyclist_scraper.py:36-65 | no weekday key of the table is repeated |
| CyclistText.GetIndex | app/scrapers/cyclist_scraper.py:70-71 | in a table with distinct keys, the lookup of entry `i`'s key gives entry `i`'s value |
| CyclistText.TableNamesOfDay | app/scrapers/cyclist_scraper.py:70-71 | the lookup `weekly_menu[weekday]` gives the two names of today's weekday entry |
| CyclistText.ItemsOf | app/scrapers/cyclist_scraper.py:71-77 | one item per name, in order, dated today, under the given category, with description the name and an empty price |
| CyclistText.FallbackTwoItems | app/scrapers/cyclist_scraper_simple_ocr.py:185-233 | `get_fallback_menu` always returns today's two table dishes as `Main Dish (Fallback)` items with an empty price |
| CyclistText.KeptLines | app/scrapers/cyclist_scraper_simple_ocr.py:88 | the kept lines are no more than the lines of the text |
| CyclistText.KeptLinesMembers | app/scrapers/cyclist_scraper_simple_ocr.py:88 | a line is kept iff it is the stripped form of a line of the text and longer than the minimum length; every kept line is stripped |
| CyclistText.FirstDayFromFound | app/scrapers/cyclist_scraper_simple_ocr.py:107-113 | searching the table from entry `k` finds a day iff one of those German names occurs in the line, and the day found is an English weekday name |
| CyclistText.FirstDayFound | app/scrapers/cyclist_scraper_simple_ocr.py:107-113 | the `for german_day, english_day in days.items()` search with `break` finds a day iff the upper-cased line contains a German day name, and gives an English weekday name |
| CyclistText.DigitRun | app/scrapers/cyclist_scraper_ocr.py:176 | `\d` runs: the run starting at `i` stays in the text, holds only digits, and is followed by a non-digit or the end |
| CyclistText.NumberDot | app/scrapers/cyclist_scraper_ocr.py:176 | `(\d{1,2})\.` matched at `i` consumes at least two characters and ends with the dot |
| CyclistText.SkipSepChars | app/scrapers/cyclist_scraper_enhanced.py:347-348 | `[\s-]+` consumes exactly the whitespace and dashes from `k` on, up to the first other character |
| CyclistText.SepEnd | app/scrapers/cyclist_scraper_ocr.py:176 | the separator between the two halves of a range consumes at least one character and does not end on a dot |
| CyclistText.SearchFound | app/scrapers/cyclist_scraper_ocr.py:177 | `re.search` returns the match at the leftmost position from which the pattern matches |
| CyclistText.SearchNone | app/scrapers/cyclist_scraper_ocr.py:177 | `re.search` returns no match only when the pattern matches at no position |
| CyclistText.SepEndAgree | app/scrapers/cyclist_scraper_enhanced.py:347-348 | where a number follows `\.?-`, the enhanced scraper's wider separator `\.?[\s-]+` stops at the same place |
| CyclistText.DashMatchIsSpaceMatch | app/scrapers/cyclist_scraper_enhanced.py:347-348 | every match of the OCR scraper's date-range pattern is a match of the enhanced scraper's pattern with the same four numbers |
| CyclistText.RangeInOrdered | app/scrapers/cyclist_scraper_ocr.py:180-192 | a range that builds starts on the matched day and month of the given year and ends on the matched day and month of that year or the next, never before the start |
| CyclistSimpleOcr.FlushGood | app/scrapers/cyclist_scraper_simple_ocr.py:109-110 | storing the open list under the current day keeps every stored list non-empty and made of input item lines |
| CyclistSimpleOcr.StepGood | app/scrapers/cyclist_scraper_simple_ocr.py:103-128 | one pass of the loop over an input line keeps the stored days and open list made of weekday names and input item lines |
| CyclistSimpleOcr.RunGood | app/scrapers/cyclist_scraper_simple_ocr.py:103-128 | the rest of the loop keeps that invariant |
| CyclistSimpleOcr.ParsedDays | app/scrapers/cyclist_scraper_simple_ocr.py:84-133 | every stored day is an English weekday name with a non-empty list, and every listed line is an input line longer than 5 characters that is not noise or a date |
| CyclistSimpleOcr.DayLineStep | app/scrapers/cyclist_scraper_simple_ocr.py:107-113 | a line naming a day stores the open non-empty list under the old day, replacing an earlier list of that day, and starts the new day with the line itself when it is an item line |
| CyclistSimpleOcr.OtherLineStep | app/scrapers/cyclist_scraper_simple_ocr.py:115-128 | any other line is appended whole to the open day's list when there is a day and it is an item line, and changes nothing otherwise |
| CyclistSimpleOcr.ParseMenuTextLoop | app/scrapers/cyclist_scraper_simple_ocr.py:84-133 | the `for line in lines` loop and the final flush compute the per-day menu |
| CyclistSimpleOcr.ProcessLine | app/scrapers/cyclist_scraper_simple_ocr.py:104-128 | the body of the loop, with its inner day search, `break` and `continue`s, is one step of the walk |
| CyclistSimpleOcr.ScrapeRouting | app/scrapers/cyclist_scraper_simple_ocr.py:135-183 | `scrape` never returns None: every download or OCR failure and a day missing from the menu give the fallback; otherwise today's lines become `Main Dish` items |
| CyclistOcr.HeaderFrom | app/scrapers/cyclist_scraper_ocr.py:134 | from entry `k` on, a day is found iff the whole upper-cased line equals one of those German names, and it is an English weekday name |
| CyclistOcr.HeaderDay | app/scrapers/cyclist_scraper_ocr.py:134-139 | `line_upper in day_mappings` holds iff the whole line is a German day name, and it maps to an English weekday name |
| CyclistOcr.Describe | app/scrapers/cyclist_scraper_ocr.py:154-160 | the item text always starts with the line itself |
| CyclistOcr.FlushGood | app/scrapers/cyclist_scraper_ocr.py:136-138 | storing the open list keeps every stored list non-empty and made of items taken from input lines |
| CyclistOcr.StepGood | app/scrapers/cyclist_scraper_ocr.py:131-165 | one pass of the loop keeps the stored days and open list made of weekday names and items from input lines |
| CyclistOcr.RunGood | app/scrapers/cyclist_scraper_ocr.py:131-165 | the rest of the loop keeps that invariant |
| CyclistOcr.ParsedDays | app/scrapers/cyclist_scraper_ocr.py:110-171 | days with no items are never stored; every stored day is an English weekday name and every item comes from an item line of the text |
| CyclistOcr.HeaderStep | app/scrapers/cyclist_scraper_ocr.py:134-140 | a header line stores the open non-empty list under the old day, sets the new day, and is never an item itself |
| CyclistOcr.ContinuationKept | app/scrapers/cyclist_scraper_ocr.py:153-165 | the continuation line is not consumed: when it is an item line too, it becomes the next item as well |
| CyclistOcr.LineStep | app/scrapers/cyclist_scraper_ocr.py:132-165 | the body of the loop, `continue` being an early return, is one step of the walk |
| CyclistOcr.ParseMenuTextLoop | app/scrapers/cyclist_scraper_ocr.py:110-171 | the `for i, line in enumerate(lines)` loop and the final flush compute the per-day menu |
| CyclistOcr.ReadRangeAgrees | app/scrapers/cyclist_scraper_ocr.py:179-192 | reading the range raises exactly when a `date(...)` call gets an impossible date, and otherwise gives the range |
| CyclistOcr.ExtractOrdered | app/scrapers/cyclist_scraper_ocr.py:173-194 | a range read starts in today's year, ends no earlier, and carries the four numbers of a pattern match in the text |
| CyclistOcr.MenuCurrentMeans | app/scrapers/cyclist_scraper_ocr.py:196-209 | the menu is current iff a range was read and today lies within it; the check raises iff reading the range raises |
| CyclistOcr.ScrapeOutcome | app/scrapers/cyclist_scraper_ocr.py:211-264 | `scrape` raises exactly on an impossible date range, returns None on any fetch or OCR failure, has no fallback, and otherwise gives today's parsed lines as `Main Dish` items, None iff today has none |
| CyclistEnhanced.CleanShape | app/scrapers/cyclist_scraper_enhanced.py:319-320 | after `replace('\|', 'l')` and `re.sub(r'\s+', ' ')` an item holds no `\|`; with the stripped line it has single spaces between words and none at the ends |
| CyclistEnhanced.FlushGood | app/scrapers/cyclist_scraper_enhanced.py:302-303 | storing the open list keeps every stored list non-empty and made of items built from input lines |
| CyclistEnhanced.StepGood | app/scrapers/cyclist_scraper_enhanced.py:292-335 | one pass of the loop keeps the stored days and open list made of weekday names and items built from input lines |
| CyclistEnhanced.RunGood | app/scrapers/cyclist_scraper_enhanced.py:292-335 | the rest of the loop keeps that invariant |
| CyclistEnhanced.ParsedDays | app/scrapers/cyclist_scraper_enhanced.py:266-341 | every stored day is an English weekday name with a non-empty list made of items built from the lines |
| CyclistEnhanced.DayLineStep | app/scrapers/cyclist_scraper_enhanced.py:300-306 | a line naming a day stores the open non-empty list under the old day, replacing an earlier list of that day, and is itself the new day's first item when it is an item line |
| CyclistEnhanced.MergedLineConsumed | app/scrapers/cyclist_scraper_enhanced.py:322-330 | a continuation line is appended after a space and consumed: the next pass only clears `skip_next`, whatever that line holds |
| CyclistEnhanced.ParseMenuFromTextLoop | app/scrapers/cyclist_scraper_enhanced.py:266-341 | the `for i, line in enumerate(lines)` loop over the four variables and the final flush compute the per-day menu |
| CyclistEnhanced.ProcessLine | app/scrapers/cyclist_scraper_enhanced.py:297-335 | one pass over a line that is not skipped is one step of the walk |
| CyclistEnhanced.SwitchDay | app/scrapers/cyclist_scraper_enhanced.py:300-306 | the day search with its `break` opens the first German day name's day |
| CyclistEnhanced.DateRangeOrdered | app/scrapers/cyclist_scraper_enhanced.py:343-369 | a range found starts in today's year, ends no earlier and at most a year later, and carries the four numbers of a pattern match in the text |
| CyclistEnhanced.NoMatchNoRange | app/scrapers/cyclist_scraper_enhanced.py:346-369 | text where the first pattern matches nowhere gives no range: the second pattern finds nothing the first did not |
| CyclistEnhanced.ScrapeRouting | app/scrapers/cyclist_scraper_enhanced.py:371-422 | `scrape` never returns None: every failure and a day missing from the menu give the fallback; otherwise today's items as `Main Dish` items |
| CyclistImproved.ApplyAllAppend | app/scrapers/cyclist_scraper_improved.py:189-190 | applying two replacement tables in turn is applying their concatenation |
| CyclistImproved.CleanOcrText | app/scrapers/cyclist_scraper_improved.py:172-192 | the loop over the replacement table, reassigning the text, computes the cleaned text |
| CyclistImproved.NoCharAfter | app/scrapers/cyclist_scraper_improved.py:189-190 | a character that neither the text nor any replacement holds is absent from the result |
| CyclistImproved.WordFixesCapitals | app/scrapers/cyclist_scraper_improved.py:179-186 | the replacement texts of the word entries hold only capitals and `*` |
| CyclistImproved.WordFixesLack | app/scrapers/cyclist_scraper_improved.py:179-186 | a character that is neither a capital nor `*` occurs in no word replacement |
| CyclistImproved.CharFixesRemove | app/scrapers/cyclist_scraper_improved.py:176-178 | the three single-character entries remove every `\|`, `0` and `1` |
| CyclistImproved.CleanedChars | app/scrapers/cyclist_scraper_improved.py:172-192 | after cleaning no `\|`, `0` or `1` is left: each is replaced and no later replacement brings one back |
| CyclistImproved.ImprovedLines | app/scrapers/cyclist_scraper_improved.py:200-205 | the kept lines are no more than the lines of the text |
| CyclistImproved.ImprovedLinesShape | app/scrapers/cyclist_scraper_improved.py:200-205 | every kept line is stripped, longer than 3 characters and does not start with `©` |
| CyclistImproved.Repeat | app/scrapers/cyclist_scraper_improved.py:230 | `[english_day] * count` has `count` entries |
| CyclistImproved.RepeatMembers | app/scrapers/cyclist_scraper_improved.py:230 | every entry of `[english_day] * count` is that day |
| CyclistImproved.FoundDaysFirst | app/scrapers/cyclist_scraper_improved.py:225-232 | `found_days` is non-empty iff the line names a day, and its first entry is the first table entry named, as the other Cyclist parsers find it |
| CyclistImproved.FoundDaysHit | app/scrapers/cyclist_scraper_improved.py:226-230 | a table entry adds its English name once per occurrence of its German name, after what came before |
| CyclistImproved.FindDays | app/scrapers/cyclist_scraper_improved.py:225-230 | the `for german_day, english_day in days.items()` loop builds `found_days` |
| CyclistImproved.FoundDaysEnglish | app/scrapers/cyclist_scraper_improved.py:225-230 | every name in `found_days` is an English weekday name |
| CyclistImproved.NamesDayFound | app/scrapers/cyclist_scraper_improved.py:243 | the block's stop test holds iff `found_days` would be non-empty for that line |
| CyclistImproved.Block | app/scrapers/cyclist_scraper_improved.py:237-258 | the block collected from index `j` ends at or after `j` and within the lines |
| CyclistImproved.Kept | app/scrapers/cyclist_scraper_improved.py:247-256 | the lines a block keeps are no more than its lines |
| CyclistImproved.KeptShape | app/scrapers/cyclist_scraper_improved.py:247-256 | a kept line is a line of the block, longer than 5 characters and not noise |
| CyclistImproved.BlockEnds | app/scrapers/cyclist_scraper_improved.py:238-244 | a block ends at the next line naming a day, or at the end, and no line before that names one |
| CyclistImproved.BlockKept | app/scrapers/cyclist_scraper_improved.py:237-258 | a block holds exactly the kept lines before its end, in order |
| CyclistImproved.CollectBlock | app/scrapers/cyclist_scraper_improved.py:237-258 | the inner `while` loop computes `menu_lines` and the index where it stopped |
| CyclistImproved.HitAtExists | app/scrapers/cyclist_scraper_improved.py:310-314 | position `p` is recorded iff some keyword's first occurrence is at `p` |
| CyclistImproved.HitsFrom | app/scrapers/cyclist_scraper_improved.py:310-317 | the sorted keyword positions lie in the line and strictly increase |
| CyclistImproved.HitsFromMembers | app/scrapers/cyclist_scraper_improved.py:310-317 | the positions listed are exactly those where some keyword first occurs |
| CyclistImproved.Pieces | app/scrapers/cyclist_scraper_improved.py:322-336 | `line[last_pos:pos]` for each cut, then `line[last_pos:]`: one more piece than cuts |
| CyclistImproved.PiecesContained | app/scrapers/cyclist_scraper_improved.py:322-336 | every piece is a slice of the line |
| CyclistImproved.PiecesConcat | app/scrapers/cyclist_scraper_improved.py:322-336 | the pieces put back together are the line: the split loses and repeats nothing |
| CyclistImproved.KeptPieces | app/scrapers/cyclist_scraper_improved.py:330-338 | the kept pieces are no more than the pieces |
| CyclistImproved.KeptPieceShape | app/scrapers/cyclist_scraper_improved.py:330-338 | a kept piece is stripped, longer than 3 characters, and occurs in one of the pieces |
| CyclistImproved.KeptPiecesLong | app/scrapers/cyclist_scraper_improved.py:330-338 | every kept piece is longer than 3 characters |
| CyclistImproved.KeywordItemsInLine | app/scrapers/cyclist_scraper_improved.py:319-342 | every item of the keyword split is a stripped piece of the line longer than 3 characters |
| CyclistImproved.KeywordItemsLong | app/scrapers/cyclist_scraper_improved.py:319-342 | keyword items are longer than 3 characters |
| CyclistImproved.FirstSplit | app/scrapers/cyclist_scraper_improved.py:356-373 | the split word found, if any, is at or after `j` and within the words |
| CyclistImproved.FirstSplitFirst | app/scrapers/cyclist_scraper_improved.py:356-373 | the split found is good and no earlier word is; when none is found, no word from `j` on is good |
| CyclistImproved.WordSplitRejoins | app/scrapers/cyclist_scraper_improved.py:351-376 | the split gives two dishes longer than 5 characters that, joined by a space, are the line with its whitespace collapsed; otherwise the line is kept whole |
| CyclistImproved.WordSplitLong | app/scrapers/cyclist_scraper_improved.py:351-376 | every dish of the split is the line or longer than 5 characters |
| CyclistImproved.LineItemsLong | app/scrapers/cyclist_scraper_improved.py:304-379 | a line longer than 5 characters gives dishes longer than 3 characters, whatever strategy applies |
| CyclistImproved.TwoColumnStep | app/scrapers/cyclist_scraper_improved.py:287-381 | a pass over a line that does not start a beans-and-carrots pair adds that line's dishes |
| CyclistImproved.TwoColumnPair | app/scrapers/cyclist_scraper_improved.py:295-302 | a `GRÜNE BOHNEN` line followed by a `Karotten` line gives one combined dish and skips both |
| CyclistImproved.ParseTwoColumnMenuItems | app/scrapers/cyclist_scraper_improved.py:281-383 | the `while i < len(menu_lines)` loop computes the two-column dishes |
| CyclistImproved.TwoColumnItemsLong | app/scrapers/cyclist_scraper_improved.py:281-383 | lines longer than 5 characters give dishes longer than 3 characters |
| CyclistImproved.SingleColumnPair | app/scrapers/cyclist_scraper_improved.py:394-401 | a `GRÜNE BOHNEN` line followed by a `Karotten` line gives one combined dish and skips both |
| CyclistImproved.SingleColumnStep | app/scrapers/cyclist_scraper_improved.py:403-404 | any other line gives itself, stripped |
| CyclistImproved.SingleColumnNext | app/scrapers/cyclist_scraper_improved.py:390-404 | one pass appends one dish and moves forward by one or two lines |
| CyclistImproved.ParseSingleColumnMenuItems | app/scrapers/cyclist_scraper_improved.py:385-406 | the `while` loop computes the single-column dishes |
| CyclistImproved.StripEach | app/scrapers/cyclist_scraper_improved.py:391 | stripping every line keeps the number of lines |
| CyclistImproved.StripEachAt | app/scrapers/cyclist_scraper_improved.py:391 | entry `k` is line `k` stripped |
| CyclistImproved.SingleColumnOnePerLine | app/scrapers/cyclist_scraper_improved.py:385-406 | without a beans-and-carrots pair every line gives exactly one dish, itself stripped |
| CyclistImproved.ExtendKeeps | app/scrapers/cyclist_scraper_improved.py:264-275 | `extend` or first assignment adds the day, appends to its list and leaves every other entry alone |
| CyclistImproved.UpdateExtends | app/scrapers/cyclist_scraper_improved.py:261-275 | a block updates only the first day found; earlier lists stay prefixes; with other than one or two days found, or an empty block, the menu is unchanged |
| CyclistImproved.ParseExtends | app/scrapers/cyclist_scraper_improved.py:219-277 | the outer loop only extends lists: every earlier list is a prefix of the final one, and every new key is a weekday name |
| CyclistImproved.ParsedDays | app/scrapers/cyclist_scraper_improved.py:194-279 | every day in the parsed menu is an English weekday name |
| CyclistImproved.HeaderBlock | app/scrapers/cyclist_scraper_improved.py:232-275 | the `if found_days:` branch collects the block after the header and parses it into the menu |
| CyclistImproved.ParseMenuIntelligentlyLoop | app/scrapers/cyclist_scraper_improved.py:194-279 | cleaning, then the outer loop with its day search and block collection, computes the menu |
| CyclistImproved.ParseFromMiss | app/scrapers/cyclist_scraper_improved.py:276-277 | the outer loop skips a line that names no day |
| CyclistImproved.ParseFromHit | app/scrapers/cyclist_scraper_improved.py:232-275 | the outer loop goes on after the block of a line that names a day |
| CyclistImproved.ParseLine | app/scrapers/cyclist_scraper_improved.py:220-277 | one pass of the outer loop moves forward and leaves the rest of the walk's result unchanged |
| CyclistImproved.ScrapeValidated | app/scrapers/cyclist_scraper_improved.py:408-486 | `scrape` never returns None: parsed dishes are returned only when they pass the under-200-characters validation, otherwise the two fallback dishes |
| Albanco.TrailingNumberLeftmost | app/scrapers/albanco_scraper.py:138 | `re.search(r'(\d+[,\.]\d+)\s*$')`: the number found ends the line, trailing whitespace aside, and starts at the leftmost position where the pattern matches; nothing is found only when no position matches |
| Albanco.TrailingNumberDecimal | app/scrapers/albanco_scraper.py:138 | the number found is digits, a comma or point, and digits |
| Albanco.CanonicalPriceShape | app/scrapers/albanco_scraper.py:142-143 | the price is `€ ` and the number with its separator replaced by a point, the digits unchanged |
| Albanco.CanonicalPriceExample | app/scrapers/albanco_scraper.py:142-143 | `11,9` gives `€ 11.9` |
| Albanco.CapsOrSpaceMeans | app/scrapers/albanco_scraper.py:168 | `re.match(r'^[A-Z\s]+$')` holds iff the line is non-empty and made of capitals and whitespace only |
| Albanco.Read | app/scrapers/albanco_scraper.py:138-153 | a line's reading keeps its text, and only a dish line has a name and price |
| Albanco.Readings | app/scrapers/albanco_scraper.py:130-133 | there is one reading per line |
| Albanco.ReadingFields | app/scrapers/albanco_scraper.py:138-168 | the reading of line `k` records its text, whether it is a dish line and whether it is a meaningful description line |
| Albanco.ReadingAt | app/scrapers/albanco_scraper.py:133-138 | the reading at `k` is that of line `k` |
| Albanco.Describe | app/scrapers/albanco_scraper.py:156-171 | the description loop stops at or after its start, within the lines, and not past the limit unless it did not move |
| Albanco.DescriptionText | app/scrapers/albanco_scraper.py:174-181 | the description is at most 203 characters: 200 plus `...` |
| Albanco.DishLabels | app/scrapers/albanco_scraper.py:202-221 | the category chain is Salad, Pasta, Risotto, Burger, Pizza, Soup, Dessert, in that order, then Main Dish |
| Albanco.LabelCategory | app/scrapers/albanco_scraper.py:202-221 | every label of the chain, and the default, is one of the eight categories |
| Albanco.CategorizeDish | app/scrapers/albanco_scraper.py:202-221 | `_categorize_dish` always returns one of the eight categories |
| Albanco.SaladFirst | app/scrapers/albanco_scraper.py:206-207 | a salad word wins over every later entry, even when the name also names pasta |
| Albanco.NoWordMainDish | app/scrapers/albanco_scraper.py:220-221 | a name with no word of any entry is a `Main Dish` |
| Albanco.Item | app/scrapers/albanco_scraper.py:183-188 | an item is dated today, has one of the eight categories and a price |
| Albanco.DishAt | app/scrapers/albanco_scraper.py:138-197 | a dish at line `i` moves the loop forward by one to four lines, within the lines |
| Albanco.HeadShape | app/scrapers/albanco_scraper.py:138-151 | a dish line's name is the stripped text before its last `(`, which is not at index 0, at least 3 characters long, and its number is the trailing decimal |
| Albanco.ItemShape | app/scrapers/albanco_scraper.py:174-188 | an item is dated today, categorised from its name, described as the name, ` - ` and at most 203 characters, and priced `€ ` with the number's separator made a point |
| Albanco.DescribeKeeps | app/scrapers/albanco_scraper.py:160-171 | the description loop adds only the texts of meaningful lines it passes over, at most one per line, after what it was given |
| Albanco.DescribeStops | app/scrapers/albanco_scraper.py:160-171 | the description loop passes over no dish line, and stops at the limit, the end or a dish line |
| Albanco.NotDishLine | app/scrapers/albanco_scraper.py:164 | a line whose reading is no dish is no dish line |
| Albanco.DishLineAt | app/scrapers/albanco_scraper.py:164 | a line whose reading is a dish is a dish line |
| Albanco.DescribeLines | app/scrapers/albanco_scraper.py:155-171 | the description of the dish at line `i` keeps at most three of the next three lines, each longer than 5 characters and not capitals only; no dish line is passed over; the walk stops at the end, three lines on, or the next dish line |
| Albanco.KeptLine | app/scrapers/albanco_scraper.py:168-169 | a kept text is a meaningful line between the start and the stop of the loop |
| Albanco.DescribedLines | app/scrapers/albanco_scraper.py:155-171 | the same facts, for the parts and the stop the walk gives |
| Albanco.DescribedParts | app/scrapers/albanco_scraper.py:167-169 | the kept parts are at most three, each a meaningful line passed over |
| Albanco.DescribedPassed | app/scrapers/albanco_scraper.py:160-165 | the lines passed over hold no dish, and the walk stops at the end, three lines on, or a dish line |
| Albanco.MenuFromShape | app/scrapers/albanco_scraper.py:132-197 | every item is dated today, has a known category and a price |
| Albanco.MenuFromLength | app/scrapers/albanco_scraper.py:132-197 | there are no more items than lines |
| Albanco.NoDishNoItems | app/scrapers/albanco_scraper.py:132-197 | text without a dish line gives no items |
| Albanco.CollectDescription | app/scrapers/albanco_scraper.py:156-171 | the inner `while` loop computes the description lines and the index it stops at |
| Albanco.MenuFromSkip | app/scrapers/albanco_scraper.py:151-153 | a line that yields no dish passes control to the next one |
| Albanco.MenuFromTake | app/scrapers/albanco_scraper.py:183-193 | a dish line yields its item, and the walk resumes where the description ended |
| Albanco.TakeKeepsWalk | app/scrapers/albanco_scraper.py:183-193 | taking a dish keeps the items so far and those still to come equal to all the items |
| Albanco.SkipKeepsWalk | app/scrapers/albanco_scraper.py:194-197 | passing over a line keeps the items so far and those still to come equal to all the items |
| Albanco.DishStep | app/scrapers/albanco_scraper.py:134-197 | one pass of the outer loop at line `i` appends the dish found there, if any, and goes on at the index the walk gives |
| Albanco.ParseLines | app/scrapers/albanco_scraper.py:132-197 | the outer `while` loop computes the items of the lines |
| Albanco.ParseMenuText | app/scrapers/albanco_scraper.py:117-200 | `_parse_menu_text` splits the text into stripped non-empty lines and returns the items of the walk over them |
| Iki.Item | app/scrapers/iki_scraper.py:177-187 | an item is dated today with the line's price and an IKI category; its description is the name, followed by ` - ` and the description when there is one |
| Iki.DishAt | app/scrapers/iki_scraper.py:136-191 | a dish at line `i` moves the loop on by one line, or two when it took a description, within the lines |
| Iki.DishDescription | app/scrapers/iki_scraper.py:168-180 | the dish takes the next line as its description exactly when that line has no `€`, is not all capitals and is longer than 10 characters, and the loop then goes on two lines further; otherwise the description is the name alone |
| Iki.DescribedDish | app/scrapers/iki_scraper.py:168-187 | a dish line followed by a describing line gives the item that joins the two |
| Iki.PlainDish | app/scrapers/iki_scraper.py:168-187 | a dish line without a describing line after it gives the item described by its name |
| Iki.ReadingFields | app/scrapers/iki_scraper.py:134-175 | the reading of line `k` records the line, its name and price, and whether it describes a dish |
| Iki.TakesDescription | app/scrapers/iki_scraper.py:170-175 | a dish reading followed by a describing one takes its text, and the walk skips both |
| Iki.TakesNoDescription | app/scrapers/iki_scraper.py:169-191 | a dish reading not followed by a describing one has no description, and the walk goes to the next line |
| Iki.MenuFromShape | app/scrapers/iki_scraper.py:132-191 | every item is dated today, has an IKI category and a price starting with `€` |
| Iki.ReadingsPrices | app/scrapers/iki_scraper.py:141 | every dish line's price starts with `€` |
| Iki.MenuFromLength | app/scrapers/iki_scraper.py:132-191 | there are no more items than lines |
| Iki.NoDishNoItems | app/scrapers/iki_scraper.py:132-191 | text without a dish line gives no items |
| Iki.NoEuroNoDish | app/scrapers/iki_scraper.py:137 | a line without `€` is no dish line |
| Iki.MenuFromSkip | app/scrapers/iki_scraper.py:149-151 | a line that yields no dish passes control to the next one |
| Iki.MenuFromTake | app/scrapers/iki_scraper.py:182-191 | a dish line yields its item, and the walk resumes after it or after its description |
| Iki.TakeKeepsWalk | app/scrapers/iki_scraper.py:182-191 | appending a dish line's item keeps the items so far and those still to come equal to all the items |
| Iki.SkipKeepsWalk | app/scrapers/iki_scraper.py:149-151 | passing over a line without a dish keeps the items so far and those still to come equal to all the items |
| Iki.LineHead | app/scrapers/iki_scraper.py:137-151 | the first part of a pass computes the name and price of a dish line, or none when the line has no `€`, no price match or an empty name |
| Iki.DishStep | app/scrapers/iki_scraper.py:134-191 | one pass of the `while` loop at line `i` appends the dish found there, if any, and goes on at the index the walk gives |
| Iki.ParseLines | app/scrapers/iki_scraper.py:132-191 | the `while` loop computes the items of the lines |
| Iki.ParseMenuItems | app/scrapers/iki_scraper.py:122-194 | `parse_menu_items_from_text` splits the text into stripped non-empty lines and returns the items of the walk over them |
| Iki.ParseMenuItemsShape | app/scrapers/iki_scraper.py:122-194 | every item of a PDF text is dated today, has an IKI category and a `€` price, and there are no more items than lines |
| Iki.LunchLinks | app/scrapers/iki_scraper.py:48-58 | the lunch links are no more than the PDF links |
| Iki.LunchLinksFilter | app/scrapers/iki_scraper.py:48-58 | a link is kept iff it is on the page and its lower-cased text names lunch, special, kw or week |
| Iki.FirstCurrentAt | app/scrapers/iki_scraper.py:67-77 | the URL found is that of a link of the current or next ISO week, and no earlier link is |
| Iki.FirstCurrentNone | app/scrapers/iki_scraper.py:67-77 | no URL is found only when no link is of the current or next week |
| Iki.SelectPdfFound | app/scrapers/iki_scraper.py:29-82 | there is a PDF iff some link is a lunch link, and it is the URL of a lunch link |
| Iki.SelectPdfChoice | app/scrapers/iki_scraper.py:60-82 | the first lunch link of the current or next ISO week is chosen; without one, the first lunch link |
| IkiLines.SpacesEnd | app/scrapers/iki_scraper.py:139 | the `\s*` run from `k` ends within the line |
| IkiLines.SpacesEndFacts | app/scrapers/iki_scraper.py:139 | the `\s*` run is whitespace and is followed by a non-space or the end |
| IkiLines.PriceAt | app/scrapers/iki_scraper.py:139 | `€\s*(\d+[,\.]\d{2})` matched at `p` has a group of at least four characters after the `€` |
| IkiLines.PriceAtShape | app/scrapers/iki_scraper.py:139 | a match is `€`, whitespace, digits, a separator and two digits |
| IkiLines.SearchPrice | app/scrapers/iki_scraper.py:139 | a match found by `re.search` is one at some position from `p` on, with its group's bounds |
| IkiLines.SearchPriceLeftmost | app/scrapers/iki_scraper.py:139 | the match found is the leftmost one |
| IkiLines.SearchPriceNone | app/scrapers/iki_scraper.py:139 | no match is found only when the pattern matches at no position |
| IkiLines.NoEuroNoPrice | app/scrapers/iki_scraper.py:137-140 | without `€` the price pattern matches nowhere |
| IkiLines.CapsBack | app/scrapers/iki_scraper.py:147 | the run of capitals ending at `k` starts at or before `k` |
| IkiLines.SpacesBack | app/scrapers/iki_scraper.py:147 | the run of whitespace ending at `k` starts at or before `k` |
| IkiLines.CapsBackFacts | app/scrapers/iki_scraper.py:147 | that run is made of capitals A to Z |
| IkiLines.SpacesBackFacts | app/scrapers/iki_scraper.py:147 | that whitespace run reaches back to a non-space or the start |
| IkiLines.CapsBackStops | app/scrapers/iki_scraper.py:147 | the run of capitals reaches back exactly to the first non-capital |
| IkiLines.DropCodeMeans | app/scrapers/iki_scraper.py:147 | `re.sub(r'\s+[A-Z]+\s*$', '')` on stripped text: when it ends in whitespace and capitals, the result is the text before them; otherwise the text is kept |
| IkiLines.DropCodeCut | app/scrapers/iki_scraper.py:147 | stripped text with an allergen code loses the code and the whitespace before it |
| IkiLines.DropCodeKeep | app/scrapers/iki_scraper.py:147 | stripped text without an allergen code is kept as it is |
| IkiLines.TailAtCaps | app/scrapers/iki_scraper.py:147 | a code tail's capitals are exactly the run of capitals at the end, preceded by whitespace |
| IkiLines.CapsCut | app/scrapers/iki_scraper.py:147 | the cut point is where the whitespace before the final capitals starts |
| IkiLines.CommaSeparator | app/scrapers/iki_scraper.py:141 | `.replace('.', ',')` on digits, a separator and digits makes the separator a comma |
| IkiLines.HeadMatch | app/scrapers/iki_scraper.py:139-147 | a dish line's name is cut before the leftmost price match and is non-empty; its price is `€` and the group with its separator made a comma |
| IkiLines.MatchShape | app/scrapers/iki_scraper.py:139-141 | the leftmost match is `€`, whitespace, digits, a separator and two decimals, and its price text has a comma |
| IkiLines.GroupComma | app/scrapers/iki_scraper.py:141 | the price group with its separator made a comma is the digits, a comma and the two decimals |
| IkiLines.HeadEuro | app/scrapers/iki_scraper.py:141 | a dish line's price starts with `€` |
| IkiLines.DigitsNoPoint | app/scrapers/iki_scraper.py:141 | digits hold no point |
| IkiLines.IkiLabels | app/scrapers/iki_scraper.py:154-166 | the category chain is Bento Box, Salad, Noodles, Sushi, Beverages, then Main Dish |
| IkiLines.Categorize | app/scrapers/iki_scraper.py:154-166 | the category is always one of the six |
| IkiLines.BentoFirst | app/scrapers/iki_scraper.py:157-158 | a bento word wins over every later entry, even in a salad box |
| IkiLines.NoWordMainDish | app/scrapers/iki_scraper.py:154 | a name with no word of any entry stays `Main Dish` |
| IkiLines.DashesEnd | app/scrapers/iki_scraper.py:71 | the `[-\s]*` run from `k` ends within the text at a character that is neither `-` nor whitespace, or at the end |
| IkiLines.SearchWeekLeftmost | app/scrapers/iki_scraper.py:71-73 | `re.search(r'kw[-\s]*(\d+)')` gives the week of the leftmost position where the pattern matches |
| IkiLines.SearchWeekNone | app/scrapers/iki_scraper.py:71-72 | no week is found only when the pattern matches at no position |
| Henry.CollectPrices | app/scrapers/henry_scraper.py:97-102 | the loop over the `menu-price` elements keeps the non-empty texts |
| Henry.CollectSizes | app/scrapers/henry_scraper.py:108-112 | the loop over the `menu-desc` elements keeps the size words |
| Henry.ReadCell | app/scrapers/henry_scraper.py:74-94 | the start of the cell body computes the cell's category, name and combined description |
| Henry.PricedItems | app/scrapers/henry_scraper.py:115-127 | the loop over `enumerate(prices)` gives one item per price, in order |
| Henry.AssembleCell | app/scrapers/henry_scraper.py:73-141 | the body of the cell loop appends the cell's items |
| Henry.MenuItemsSnoc | app/scrapers/henry_scraper.py:72-145 | reading one more cell appends that cell's items |
| Henry.ExtractMenuItems | app/scrapers/henry_scraper.py:69-147 | the loop over the cells of today's column computes the items |
| Henry.CellCategory | app/scrapers/henry_scraper.py:75-76 | every item of a cell carries the cell's category, `Main Dish` when it has none, and today's date |
| Henry.DescribedIff | app/scrapers/henry_scraper.py:83-89 | the description is the first description text exactly when that text is non-empty and not `klein`, `groß`, `small` or `large` |
| Henry.FullDescriptionShape | app/scrapers/henry_scraper.py:91-94 | ` - ` and the description are appended to the name exactly when there is a description |
| Henry.PricesKept | app/scrapers/henry_scraper.py:97-102 | the prices kept are exactly the non-empty price texts, in order |
| Henry.SeveralPrices | app/scrapers/henry_scraper.py:106-127 | a cell with several prices yields one item per price, in order, whatever its name; the `i`-th item names the `i`-th size word when there is one |
| Henry.SizesAreSizeWords | app/scrapers/henry_scraper.py:108-112 | every size suffix is a size word taken from the description texts |
| Henry.OnePriceAtMost | app/scrapers/henry_scraper.py:128-141 | a cell with at most one price yields one item when its stripped name has at least two characters and none otherwise; the price is None exactly when there is no non-empty price text |
| Henry.CellCount | app/scrapers/henry_scraper.py:104-141 | a cell with at most one price yields at most one item, and several prices as many items as prices |
| Henry.MenuItemsSplit | app/scrapers/henry_scraper.py:72-145 | the items of the column are those of the first cells followed by those of the rest |
| Henry.NamelessColumn | app/scrapers/henry_scraper.py:128-134 | a column whose cells have no prices and no names yields nothing |
| CampusBraeu.DecomposedSnoc | app/scrapers/campusbraeu_scraper.py:120-122 | removing the price spans of one more list item appends that item's cleaned form |
| CampusBraeu.PrimaryBody | app/scrapers/campusbraeu_scraper.py:105-152 | the body of the primary loop for one `li` appends that item's entry, if any, and sets `price` only when the body gets as far as the price |
| CampusBraeu.PrimarySnoc | app/scrapers/campusbraeu_scraper.py:104-158 | reading one more list item appends its entry, updates `price` and removes its price span |
| CampusBraeu.PrimaryList | app/scrapers/campusbraeu_scraper.py:104-158 | the primary loop over today's list items computes the items, the last `price` and the page with the price spans removed |
| CampusBraeu.PrimaryPass | app/scrapers/campusbraeu_scraper.py:87-161 | the primary loop over the headings reads the first one named today with a list, then stops |
| CampusBraeu.FallbackLoop | app/scrapers/campusbraeu_scraper.py:175-201 | the fallback's loop over the list items of one day computes that day's pass |
| CampusBraeu.DayLoop | app/scrapers/campusbraeu_scraper.py:168-202 | one day of the fallback: the loop over the headings stops at the first one named that day |
| CampusBraeu.SweepLoop | app/scrapers/campusbraeu_scraper.py:163-206 | the fallback loop over Montag to Freitag stops once 9 items are collected |
| CampusBraeu.ExtractMenuItems | app/scrapers/campusbraeu_scraper.py:67-218 | `extract_menu_items` after the page is parsed computes the scrape |
| CampusBraeu.DayNameRule | app/scrapers/campusbraeu_scraper.py:69-82 | Monday to Friday name their own heading; Saturday and Sunday use Montag's |
| CampusBraeu.CategoryRule | app/scrapers/campusbraeu_scraper.py:125-134 | the category is Soup iff the lower-cased tag contains `suppe`, Dessert iff it contains `nachspeise` but neither `suppe` nor `hauptspeise`, and Main Dish otherwise |
| CampusBraeu.PriceRule | app/scrapers/campusbraeu_scraper.py:136-141 | every category has a price, and it is `€ 15,50` exactly for a main dish, `€ 13,50` otherwise |
| CampusBraeu.PrimaryItems | app/scrapers/campusbraeu_scraper.py:104-158 | there is at most one primary item per list item, each dated today, with a description of at least 5 characters and the price of its category |
| CampusBraeu.PrimaryPage | app/scrapers/campusbraeu_scraper.py:87-161 | the primary pass leaves every other heading, and every list item it does not reach, as it was |
| CampusBraeu.PriceAfterKnown | app/scrapers/campusbraeu_scraper.py:137-141 | after the primary loop `price` is unassigned or one of the two prices |
| CampusBraeu.FallbackListItems | app/scrapers/campusbraeu_scraper.py:175-201 | the fallback only appends, at most one item per list item, each tagged with its day, and `price` stays known |
| CampusBraeu.FallbackStepItems | app/scrapers/campusbraeu_scraper.py:176-201 | one step of the fallback appends at most one item, tagged with its day, and `price` stays known |
| CampusBraeu.DaySweepItems | app/scrapers/campusbraeu_scraper.py:168-202 | a day of the fallback only appends, and what it appends is tagged with that day |
| CampusBraeu.SweepStops | app/scrapers/campusbraeu_scraper.py:204-206 | once a day ends with 9 or more items, the days after it are never read |
| CampusBraeu.SweepItems | app/scrapers/campusbraeu_scraper.py:163-206 | every item of the sweep is a fallback item for one of the swept days, after those already there |
| CampusBraeu.ScrapeItems | app/scrapers/campusbraeu_scraper.py:87-206 | every item scraped is a primary item (when there is any, all are) or a fallback item for a weekday from Montag to Freitag |
| CampusBraeu.StalePrice | app/scrapers/campusbraeu_scraper.py:182-199 | as written, a fallback tag that names no course leaves `price` at the previous item's value |
| CampusBraeu.StalePriceAfterSoup | app/scrapers/campusbraeu_scraper.py:182-199 | as written, a main dish after a soup is priced `€ 13,50`, unlike any main dish of the primary pass |
| CampusBraeu.UnboundDropsItem | app/scrapers/campusbraeu_scraper.py:182-201 | as written, such an item is dropped when `price` has not been assigned yet (the `UnboundLocalError` is caught by the `except`) |
| CampusBraeu.IntendedItems | app/scrapers/campusbraeu_scraper.py:182-199 | corrected: every appended item's price is that of its category, so a main dish costs `€ 15,50` |
| CampusBraeu.IntendedCount | app/scrapers/campusbraeu_scraper.py:175-199 | corrected: one item per list item with a detail whose description is long enough |
| CampusBraeu.IntendedStepItems | app/scrapers/campusbraeu_scraper.py:176-199 | corrected: a step appends an item priced by its category exactly when the list item is described |
| CampusBraeu.BaseOf | app/scrapers/campusbraeu_scraper.py:196 | the `{category} ({day_name})` label gives back its category |
| MealCards.ReadCard | app/scrapers/cafegeorge_scraper.py:81-113 | the statements shared by both card scrapers compute the combined description, the price and the header's category of a card |
| MealCards.BreakBecomesBar | app/scrapers/cafegeorge_scraper.py:89-92 | a `<br>` replaced by ` \| ` and read with `get_text(strip=True)` becomes a bare `\|` between the pieces around it |
| MealCards.FullDescriptionShape | app/scrapers/cafegeorge_scraper.py:82-97 | a card without a title is `Unknown Dish…`; ` - ` and the text are appended exactly when the text is not empty |
| MealCards.PriceRule | app/scrapers/cafegeorge_scraper.py:99-105 | the price is present iff the price element has a span, and then it is that span's text |
| MealCards.HeaderCategoryRule | app/scrapers/cafegeorge_scraper.py:107-113 | the category is never empty, and anything other than `Main Dish` is the header's text |
| MealCards.UntitledKept | app/scrapers/cafegeorge_scraper.py:133 | a card without a title element always passes the length test |
| CafeGeorge.MapCategory | app/scrapers/cafegeorge_scraper.py:115-130 | the loop over the mapping with its `break` computes the mapped category |
| CafeGeorge.AssembleCard | app/scrapers/cafegeorge_scraper.py:80-141 | the body of the card loop appends the card's item, if any |
| CafeGeorge.ExtractMenuItems | app/scrapers/cafegeorge_scraper.py:75-141 | the loop over the meal cards computes the items of all cards, in order |
| CafeGeorge.MappedFirst | app/scrapers/cafegeorge_scraper.py:127-130 | the first key, in the mapping's order, that occurs case-insensitively in the category decides it |
| CafeGeorge.MappedKeeps | app/scrapers/cafegeorge_scraper.py:127-130 | the category is kept iff no key occurs in it; otherwise it becomes one of the mapping's values |
| CafeGeorge.CardRule | app/scrapers/cafegeorge_scraper.py:94-141 | a card yields one item iff its stripped description has 3 or more characters, and the item is dated today with the description, price and mapped category |
| CafeGeorge.MenuItemsFacts | app/scrapers/cafegeorge_scraper.py:79-141 | at most one item per card, each dated today with a description of 3 or more characters |
| CafeGeorge.UntitledCardsKept | app/scrapers/cafegeorge_scraper.py:133 | cards without a title element are never skipped |
| FourOhFour.AssembleCard | app/scrapers/fouroh4_scraper.py:80-135 | the body of the card loop appends the card's item, if any |
| FourOhFour.ExtractMenuItems | app/scrapers/fouroh4_scraper.py:79-135 | the loop over the meal cards computes the items of all cards, in order |
| FourOhFour.OverrideRule | app/scrapers/fouroh4_scraper.py:115-123 | `appetizer`, `main` and `dessert` give `Salat / Suppe`, `Main Dish` and `Dessert`; any other value leaves the category as it was |
| FourOhFour.CategoryRule | app/scrapers/fouroh4_scraper.py:107-123 | without a course attribute the category is the non-empty header, else `Main Dish`; it is never empty |
| FourOhFour.CardRule | app/scrapers/fouroh4_scraper.py:95-135 | a card yields one item iff its stripped description has 3 or more characters, and the item is dated today with the description, price and category |
| FourOhFour.MenuItemsFacts | app/scrapers/fouroh4_scraper.py:79-135 | at most one item per card, each dated today with a description of 3 or more characters |
| Store.NewRowFields | app/scrapers/base_scraper.py:93-100 | a new row carries the restaurant and the item's date; a missing category is stored as `N/A`, a missing description or price as `""`, and a present value as given, a `None` price included |
| Store.DateOrderFacts | app/scrapers/base_scraper.py:69-74 | the dates of `items_by_date` are exactly the items' dates, each once |
| Store.DateOrderPrefix | app/scrapers/base_scraper.py:69-74 | the dates seen in a prefix of the items come first, in the same order |
| Store.DateOrderSnoc | app/scrapers/base_scraper.py:72-73 | one item more adds its date at the end iff the date is new |
| Store.GroupMembers | app/scrapers/base_scraper.py:69-74 | every item grouped under a date has that date, and every item with that date is in the group |
| Store.GroupEmpty | app/scrapers/base_scraper.py:69-74 | a date that no item has gets no group |
| Store.GroupByDate | app/scrapers/base_scraper.py:69-74 | the grouping loop computes the dates in order of first occurrence and each date's items in input order |
| Store.GroupsSnoc | app/scrapers/base_scraper.py:74 | appending an item to its date's group keeps each group equal to the items of that date |
| Store.SaveDaysStep | app/scrapers/base_scraper.py:76-104 | the dates are replaced one after another, in the order of `items_by_date` |
| Store.NothingToDelete | app/scrapers/base_scraper.py:78-90 | without existing rows for that restaurant and date the delete step changes nothing |
| Store.NewRowsKeyed | app/scrapers/base_scraper.py:93-101 | the new rows of a date all carry the restaurant and that date |
| Store.ReplaceDayRows | app/scrapers/base_scraper.py:76-101 | after one date is replaced, its rows are exactly the new ones and every other (restaurant, date) keeps its rows |
| Store.SaveDaysRows | app/scrapers/base_scraper.py:76-104 | after the listed dates are replaced, each of them holds its new rows and all other rows stay |
| Store.SavedDay | app/scrapers/base_scraper.py:48-108 | after `save_to_db`, every date of the items holds exactly that date's items for the restaurant |
| Store.SavedOthers | app/scrapers/base_scraper.py:48-108 | other restaurants, and the restaurant's dates the items do not have, keep their rows |
| Store.SavedIdempotent | app/scrapers/base_scraper.py:48-108 | saving the same items twice leaves the same rows as saving them once |
| Store.Database.SaveToDb | app/scrapers/base_scraper.py:48-108 | `save_to_db` changes the database as the specification function `Save` does: nothing for an empty list, the restaurant created when missing, each date replaced |
| Store.Database.ReplaceDates | app/scrapers/base_scraper.py:76-104 | the loop over `items_by_date` replaces the dates in order and leaves the restaurants alone |
| Store.Database.ReplaceDate | app/scrapers/base_scraper.py:77-101 | one date: delete the restaurant's rows of that date, then append the new rows |
| Store.Database.CleanupOldData | app/services/scraping_service.py:283-309 | `cleanup_old_data` deletes exactly the rows dated before the cutoff and returns how many went; with no cutoff date (the error path) nothing changes and 0 is returned |
| Store.CutoffDays | app/services/scraping_service.py:291 | the cutoff is `days_to_keep` days before today |
| Store.KeptRows | app/services/scraping_service.py:294-296 | exactly the rows dated on or after the cutoff stay, and no row stays more often than it was there |
| Store.DeletedCount | app/services/scraping_service.py:294-304 | the count returned is the number of rows dated strictly before the cutoff |
| Service.TallyBalance | app/services/scraping_service.py:73-124 | `successful` counts the non-empty lists; `failed` counts the scrapers that failed plus the successes whose first item has no description (the debug line at 103-106 raises after the success was counted), so `successful + failed` exceeds the number run by exactly those; each failure leaves one error; `total_items` is the total length of the saved lists |
| Service.DoubleCount | app/services/scraping_service.py:96-120 | a success whose first item has no description is counted both as a success and as a failure, with `'NoneType' object is not subscriptable` as its error |
| Service.IntendedBalance | app/services/scraping_service.py:73-124 | with a debug line that does not raise, each scraper counts exactly once, as a success or a failure, so `successful + failed` is the number run; each failure leaves one error |
| Service.TallyAsIntended | app/services/scraping_service.py:88-120 | when no non-empty list opens with an item lacking a description, the statistics as written equal the intended ones |
| Service.TallyErrors | app/services/scraping_service.py:103-121 | every error comes from a failed scraper, or from a success whose debug line raised, and names it |
| Service.StepAll | app/services/scraping_service.py:82-124 | one scraper more adds its outcome to the counters and saves its items |
| Service.SaveAllUntouched | app/services/scraping_service.py:82-124 | a restaurant none of whose scrapers returned items keeps all its rows |
| Service.FirstNamedIsFirst | app/services/scraping_service.py:154-158 | the lookup finds the first scraper whose name equals the request ignoring case, and nothing iff there is none |
| Service.ScrapingService.RunAllScrapers | app/services/scraping_service.py:62-139 | `run_all_scrapers` returns the tallied statistics (a raising debug line counted as a failure too), saves every non-empty list and notifies clients iff something succeeded |
| Service.ScrapingService.FindScraper | app/services/scraping_service.py:153-158 | the search loop with `break` finds the first scraper with that name |
| Service.ScrapingService.RunSingleScraper | app/services/scraping_service.py:141-195 | an unknown name returns `No scraper configured for …` and changes nothing; otherwise the scraper's outcome is reported, a non-empty list saved, and clients notified iff it succeeded |
| LegacyBase.AllPresent | scrapers/base_scraper.py:38 | `all(...)` holds iff every listed field is a key |
| LegacyBase.ValidateData | scrapers/base_scraper.py:35-38 | `validate_data` is true iff both `date` and `items` are keys |
| LegacyBase.ValuesIgnored | scrapers/base_scraper.py:35-38 | the values are never looked at: replacing one keeps the verdict |
| LegacyBase.NoneValuesValidate | scrapers/base_scraper.py:35-38 | a dictionary whose two values are both `None` still validates |
| LegacyBase.ExtraKeysIgnored | scrapers/base_scraper.py:35-38 | dictionaries with the same required keys agree, whatever other keys they have |
| ErsteIframe.PointNumber | erste_campus_iframe_scraper.py:383 | replacing `,` by `.` keeps a number a number and leaves no comma |
| ErsteIframe.ExtractPriceShape | erste_campus_iframe_scraper.py:372-387 | a price is found iff one of `€ n`, `n €`, `EUR n` matches, and it is then `€ ` and a number with a point |
| ErsteIframe.ExtractPriceIdempotent | erste_campus_iframe_scraper.py:372-387 | extracting the price from an extracted price gives it back |
| ErsteIframe.NothingInEmpty | erste_campus_iframe_scraper.py:381-387 | no price pattern matches the empty text, so its price is `""` |
| ErsteIframe.ExtractPricePoint | erste_campus_iframe_scraper.py:372-387 | a price written `€ n.m` is read back as itself |
| ErsteIframe.DropParenPrefix | erste_campus_iframe_scraper.py:368 | the parenthetical removal keeps a prefix of the text |
| ErsteIframe.CleanNormalized | erste_campus_iframe_scraper.py:358-370 | the cleaned description has single spaces between words and none at its ends |
| ErsteIframe.StripRightSpace | erste_campus_iframe_scraper.py:368 | trailing whitespace does not change the right-stripped text |
| ErsteIframe.DropLastParenFinal | erste_campus_iframe_scraper.py:368 | corrected: removing only the final parenthetical leaves the text before it, whatever that holds |
| ErsteIframe.LastCharFound | erste_campus_iframe_scraper.py:368 | the last `(` is found where it is, when none follows it |
| ErsteIframe.DropParenFirst | erste_campus_iframe_scraper.py:368 | as written, `a (b) c (d)` becomes `a`; the final-parenthetical removal would give `a (b) c` |
| ErsteIframe.CategoryAmong | erste_campus_iframe_scraper.py:340-356 | the category is Soup, Salad, Vegetarian, Fish, Dessert or Main Dish |
| ErsteIframe.RiceIsDessert | erste_campus_iframe_scraper.py:346-353 | `eis` matches inside a word, so `reis` is classified as Dessert |
| ErsteIframe.NoneOf | erste_campus_iframe_scraper.py:346-353 | no Soup, Salad, Vegetarian or Fish word occurs in `reis` |
| ErsteIframe.ParseDateText | erste_campus_iframe_scraper.py:313-338 | every date `_parse_date_text` returns is one `date()` accepts |
| ErsteIframe.DotIsDateText | erste_campus_iframe_scraper.py:288-301 | a date written `%d.%m.%Y` is date text |
| ErsteIframe.DotParses | erste_campus_iframe_scraper.py:313-338 | a date written `%d.%m.%Y` parses back as itself |
| ErsteIframe.Kinds | erste_campus_iframe_scraper.py:267-277 | the lines are read one to one, each as a date line, an item line or a skipped line |
| ErsteIframe.WalkStep | erste_campus_iframe_scraper.py:267-284 | a date line sets the current date (possibly to `None`); another line adds its item when there is a date and it is long enough, not a header and not a repeat |
| ErsteIframe.AlternativeParsing | erste_campus_iframe_scraper.py:256-286 | `_alternative_parsing` over the stripped, non-empty lines computes the walk's items |
| ErsteIframe.WalkLines | erste_campus_iframe_scraper.py:264-286 | the loop over the lines computes the walk's items |
| ErsteIframe.ReadStep | erste_campus_iframe_scraper.py:268-284 | the loop body for one line takes the walk one step: a date line sets `current_date`, an emitting line under a date appends its item, any other line changes nothing |
| ErsteIframe.CurrentFromDateLine | erste_campus_iframe_scraper.py:269-270 | the current date is always that of an earlier date line |
| ErsteIframe.ItemsFromLines | erste_campus_iframe_scraper.py:267-284 | every item comes from a line that is not date text, not a header, not a repeat of the line before and longer than 15 characters, dated by an earlier date line |
| ErsteIframe.NoDateNoItems | erste_campus_iframe_scraper.py:274 | before the first date line there is no current date and no item |
| ErsteIframe.ItemsBound | erste_campus_iframe_scraper.py:267-284 | at most one item per line |
| ErsteAdvanced.ExtractPriceShape | erste_campus_advanced_scraper.py:302-311 | a price is found iff `€ n` or `n €` matches, and it is then `€ ` and a number with its separator unchanged |
| ErsteAdvanced.ExtractPriceRoundTrip | erste_campus_advanced_scraper.py:302-311 | a price written `€ n` is read back as itself |
| ErsteAdvanced.CleanNormalized | erste_campus_advanced_scraper.py:291-300 | the cleaned description has single spaces between words and none at its ends |
| ErsteAdvanced.CleanWithoutEuro | erste_campus_advanced_scraper.py:291-300 | text without `€` is only whitespace-collapsed |
| ErsteAdvanced.CategoryAmong | erste_campus_advanced_scraper.py:276-289 | the category is Soup, Salad, Dessert, Vegetarian or Main Dish |
| ErsteAdvanced.VeganCakeIsDessert | erste_campus_advanced_scraper.py:276-289 | Dessert is tested before Vegetarian, so `vegan kuchen` is a Dessert |
| ErsteAdvanced.VeganCakeLower | erste_campus_advanced_scraper.py:278 | `vegan kuchen` is unchanged by lower-casing |
| ErsteAdvanced.VeganCakeClassified | erste_campus_advanced_scraper.py:280-285 | no soup or salad word occurs in `vegan kuchen`, and `kuchen` does |
| ErsteAdvanced.IsDateMeans | erste_campus_advanced_scraper.py:272-274 | `_is_date` holds iff the loose date pattern matches at some position |
| ErsteAdvanced.ParseDate | erste_campus_advanced_scraper.py:242-270 | every date `_parse_date` returns is one `date()` accepts |
| ErsteAdvanced.FallbackAgrees | erste_campus_advanced_scraper.py:259-268 | the fallback's `strptime` of the joined groups gives the same date as `date(year, month, day)`, or fails in the same cases |
| ErsteAdvanced.DotJoinedMatch | erste_campus_advanced_scraper.py:263-266 | `%d.%m.%Y` reads the day, month and year runs of the joined groups and fails when a field is out of range |
| ErsteAdvanced.DotDayStep | erste_campus_advanced_scraper.py:263-266 | `%d` reads a run of one or two digits when its value is a day |
| ErsteAdvanced.DotMonthRest | erste_campus_advanced_scraper.py:263-266 | `%m.%Y` reads the month run, a point and four digits |
| ErsteAdvanced.DotParses | erste_campus_advanced_scraper.py:242-256 | a date written `%d.%m.%Y` parses back as itself through the first format |
| ErsteSelenium.CategoryAmong | erste_campus_selenium_scraper.py:203-214 | the category is Soup, Salad, Dessert or Main Dish; there is no Vegetarian |
| ErsteSelenium.CleanNormalized | erste_campus_selenium_scraper.py:216-227 | the cleaned description has single spaces between words and none at its ends |
| ErsteSelenium.CleanChars | erste_campus_selenium_scraper.py:216-227 | every character of the result comes from the text or is a repaired umlaut or a joining space |
| ErsteSelenium.CleanPlain | erste_campus_selenium_scraper.py:216-227 | text with no `M` and no `Ã` is only whitespace-collapsed |
| ErsteSelenium.ExtractPriceShape | erste_campus_selenium_scraper.py:229-235 | a price is found iff `€ n` matches, and it is then `€ ` and a number |
| ErsteSelenium.ExtractPriceRoundTrip | erste_campus_selenium_scraper.py:229-235 | a price written `€ n` is read back as itself |
| ErsteSelenium.WeekdayToDateFacts | erste_campus_selenium_scraper.py:237-256 | the first weekday name found gives the day of today's Monday-to-Sunday week with that weekday (possibly in the past), raising exactly when that day lies past `date.max`, so only in the last week before it; without one the date is today; every date returned is constructible |
| ErsteSelenium.WeekdayOverflow | erste_campus_selenium_scraper.py:251-254 | on `date.max`, a Friday, `sunday` names the day two days on, and `today + timedelta` raises `OverflowError` |
| ErsteSelenium.SundayFound | erste_campus_selenium_scraper.py:242-253 | in `sunday` the dictionary loop finds no earlier weekday name, so it stops at `sunday`, day 6 |
| ErsteNextjs.FirstKeyFacts | erste_campus_nextjs_scraper.py:224-227 | the value found is that of the first listed key present in the dict; nothing is found iff no key is present |
| ErsteNextjs.FirstPresentObject | erste_campus_nextjs_scraper.py:198-201 | on a dict the `key in` loop never raises and finds the first key present |
| ErsteNextjs.CategoryAmong | erste_campus_nextjs_scraper.py:440-455 | the category is Soup, Salad, Vegetarian, Dessert or Main Dish |
| ErsteNextjs.VeganCakeIsVegetarian | erste_campus_nextjs_scraper.py:440-455 | Vegetarian is tested before Dessert, so `vegan kuchen` is Vegetarian |
| ErsteNextjs.VeganCakeClassified | erste_campus_nextjs_scraper.py:440-455 | no soup or salad word occurs in `vegan kuchen`, and `vegan` does |
| ErsteNextjs.RepairsSpaceFree | erste_campus_nextjs_scraper.py:463-467 | none of the mojibake patterns or their replacements holds whitespace |
| ErsteNextjs.RepairSqueezed | erste_campus_nextjs_scraper.py:457-468 | repairing mojibake after the whitespace is collapsed keeps it collapsed |
| ErsteNextjs.CleanNormalized | erste_campus_nextjs_scraper.py:457-468 | the cleaned description has single spaces between words and none at its ends |
| ErsteNextjs.ParseDateRaises | erste_campus_nextjs_scraper.py:381-407 | a falsy value gives `None`; only a truthy value that is not a string raises (in `strptime`) |
| ErsteNextjs.IsoParses | erste_campus_nextjs_scraper.py:381-399 | a date written `%Y-%m-%d` is read back as itself |
| ErsteNextjs.GetDateForWeekday | erste_campus_nextjs_scraper.py:409-426 | a date returned is constructible and lies in today's Monday-to-Sunday week; `today + timedelta` raises only when that week runs past `date.max` |
| ErsteNextjs.EnglishDaysDistinct | erste_campus_nextjs_scraper.py:411-415 | the English weekday names are distinct |
| ErsteNextjs.WeekdayDateFacts | erste_campus_nextjs_scraper.py:409-426 | the English name of weekday `k`, in any case, gives the day of today's week with weekday `k`, raising exactly when that day lies past `date.max`; any other text gives today |
| ErsteNextjs.DayIndexUnique | erste_campus_nextjs_scraper.py:411-415 | two positions holding the same weekday name are the same |
| ErsteNextjs.PriceShape | erste_campus_nextjs_scraper.py:240-248 | a price is empty or `€ ` and a number; an integer JSON price is written with `.00` |
| ErsteNextjs.ItemDescriptionNormalized | erste_campus_nextjs_scraper.py:219-255 | an item carries the date given and a normalised description |
| ErsteNextjs.ItemCategoryStripped | erste_campus_nextjs_scraper.py:233-237 | an item's category is stripped text |
| ErsteNextjs.ItemPriceShape | erste_campus_nextjs_scraper.py:239-254 | an item's price is present, and empty or starting with `€ ` |
| ErsteNextjs.NoDescriptionNoItem | erste_campus_nextjs_scraper.py:221-230 | without any description key there is no item |
| ErsteNextjs.DefaultCategory | erste_campus_nextjs_scraper.py:233-237 | without a category key the category is `Main Dish` |
| ErsteNextjs.FirstPriceKeyDecides | erste_campus_nextjs_scraper.py:241-248 | the first price key present alone decides the price, whatever the later keys hold |
| ErsteNextjs.DayDataItemsFacts | erste_campus_nextjs_scraper.py:282-308 | every item of a weekday's data carries the date given and a normalised description |
| ErsteNextjs.ExtractItemsFromDayData | erste_campus_nextjs_scraper.py:282-308 | `_extract_items_from_day_data` reads a list or a dict by its own loop and gives nothing for anything else |
| ErsteNextjs.ExtractFromList | erste_campus_nextjs_scraper.py:286-298 | the loop over a list turns strings longer than 10 characters and dicts into items |
| ErsteNextjs.ExtractFromDict | erste_campus_nextjs_scraper.py:300-306 | the loop over a dict turns the elements of every list value into items |
| ErsteNextjs.ExtractWrapped | erste_campus_nextjs_scraper.py:303-306 | each element of a list value is parsed as `{'description': element}` |
| ErsteNextjs.DayItemsDated | erste_campus_nextjs_scraper.py:182-217 | every item of a day carries the day's date; plain items are stripped text of more than 10 characters before stripping |
| ErsteNextjs.UndatedDayIsToday | erste_campus_nextjs_scraper.py:186-194 | a day with neither `date` nor `day` never raises and is dated today |
| ErsteNextjs.ParseDayData | erste_campus_nextjs_scraper.py:182-217 | `_parse_day_data` computes the day's date, finds the first items key and reads its list |
| ErsteNextjs.ParseDayEntries | erste_campus_nextjs_scraper.py:203-215 | the loop over the day's list turns dicts and strings longer than 10 characters into items |
| ErsteNextjs.ParseMenuItem | erste_campus_nextjs_scraper.py:257-280 | `_parse_menu_item` reads a day, a single item or plain text longer than 10 characters |
| ErsteNextjs.WeekdayInThisWeek | erste_campus_nextjs_scraper.py:157-163 | the keys of a weekday raise exactly when one of them is present and the weekday's date raises; otherwise every item is dated within today's week and has a normalised description |
| ErsteNextjs.WeeklyInThisWeek | erste_campus_nextjs_scraper.py:154-163 | a weekly menu raises exactly when some weekday raises, which needs today's week to run past `date.max`; otherwise each of its items is dated within today's week with a normalised description |
| ErsteNextjs.WeeklyOverflow | erste_campus_nextjs_scraper.py:155-163 | on `date.max`, a Friday, a weekly menu with a `sunday` key raises `OverflowError` |
| ErsteNextjs.ParseMenuStructure | erste_campus_nextjs_scraper.py:150-180 | `_parse_menu_structure` reads the first of the weekly, `days` and direct shapes the dict has |
| ErsteNextjs.ParseWeekly | erste_campus_nextjs_scraper.py:155-163 | the weekly loops read every weekday, Monday to Sunday, and stop at the first that raises |
| ErsteNextjs.ParseWeekday | erste_campus_nextjs_scraper.py:158-163 | the inner loop reads the day's full, capitalised and three-letter keys, each dated by `_get_date_for_weekday`, and stops when that date raises |
| ErsteNextjs.ParseDays | erste_campus_nextjs_scraper.py:166-169 | the loop over a `days` list reads every day |
| ErsteNextjs.ParseDirect | erste_campus_nextjs_scraper.py:172-178 | the loop over a direct item list reads every item |
| ErsteNextjs.ExtendsTrans | erste_campus_nextjs_scraper.py:139 | extending a list twice extends it |
| ErsteNextjs.FoundGrows | erste_campus_nextjs_scraper.py:127-148 | the search only appends: the items accumulated before are kept, in place |
| ErsteNextjs.EntriesGrow | erste_campus_nextjs_scraper.py:142-144 | the loop over a dict's entries only appends |
| ErsteNextjs.ElemsGrow | erste_campus_nextjs_scraper.py:147-148 | the loop over a list only appends |
| ErsteNextjs.DepthLimit | erste_campus_nextjs_scraper.py:129-130 | the search never descends past depth 10: at depth 10 the children add nothing |
| ErsteNextjs.EntriesPastLimit | erste_campus_nextjs_scraper.py:129-130 | the entries of a dict at depth 10 add nothing |
| ErsteNextjs.ElemsPastLimit | erste_campus_nextjs_scraper.py:129-130 | the elements of a list at depth 10 add nothing |
| ErsteNextjs.EntriesPrefix | erste_campus_nextjs_scraper.py:142-144 | the search through a dict's entries depends only on the entries searched |
| ErsteNextjs.SkipsInternals | erste_campus_nextjs_scraper.py:143 | `_app`, `__N_SSG` and `buildId` are never entered |
| ErsteNextjs.SearchSkipsInternals | erste_campus_nextjs_scraper.py:132-144 | the search of a whole dict skips the Next.js internals |
| ErsteNextjs.EntriesStop | erste_campus_nextjs_scraper.py:142-144 | once a call has raised, the later entries change nothing |
| ErsteNextjs.ElemsStop | erste_campus_nextjs_scraper.py:147-148 | once a call has raised, the later elements change nothing |
| ErsteNextjs.MenuSearch.SearchForMenuData | erste_campus_nextjs_scraper.py:127-148 | `_search_for_menu_data` appends to the shared list what the specification search finds, and reports whether a call raised |
| ErsteNextjs.MenuSearch.SearchEntries | erste_campus_nextjs_scraper.py:142-144 | the loop over a dict's entries, skipping the internals, computes the specification search |
| ErsteNextjs.MenuSearch.SearchElems | erste_campus_nextjs_scraper.py:147-148 | the loop over a list's elements computes the specification search |
| Text.StripFacts | erste_campus_iframe_scraper.py:262 | `str.strip()` keeps a contiguous slice of the text, empty only when the text is all whitespace |
| Text.SplitOnJoin | erste_campus_iframe_scraper.py:262 | `split('\n')` loses nothing: joining the parts with the separator gives the text back |
| Text.SqueezeFacts | erste_campus_iframe_scraper.py:365 | `re.sub(r'\s+', ' ', s)` leaves single spaces only, and starts with a space iff the text does |
| Text.CollapseNormalized | erste_campus_selenium_scraper.py:224 | `' '.join(text.split())` is normalised text whatever the input |
| Patterns.SearchFacts | erste_campus_advanced_scraper.py:304 | `re.search` finds the leftmost position where the pattern matches, and nothing iff it matches nowhere |
| Patterns.FirstGroupFacts | erste_campus_iframe_scraper.py:381-385 | the price pattern that decides is the first, in list order, that matches; nothing is found iff none does |
| Patterns.RemoveNothing | erste_campus_advanced_scraper.py:294-295 | `re.sub` of a pattern that matches nowhere changes nothing |
| Patterns.EuroLeadWhole | erste_campus_selenium_scraper.py:232 | in `€ ` followed by a number, `€\s*(\d+[,.]?\d*)` matches at the start and its group is the whole number |
| Keywords.ClassifyFirst | erste_campus_advanced_scraper.py:276-289 | the if/elif chain over keyword lists gives the first category one of whose words occurs |
| Keywords.ClassifyDefault | erste_campus_advanced_scraper.py:288-289 | when no category's word occurs, the chain gives its default |
| Keywords.ClassifyAmong | erste_campus_advanced_scraper.py:276-289 | the chain's result is one of its categories or the default |
| Keywords.FirstInFacts | erste_campus_selenium_scraper.py:251-254 | the loop over the weekday table finds the first name that occurs, and nothing iff none does |
| LooseDates.LooseFindFacts | erste_campus_advanced_scraper.py:272-274 | `re.search` of `\d{1,2}[.\s/]+\d{1,2}[.\s/]+\d{4}` finds the leftmost match, and nothing iff nothing matches |
| LooseDates.LooseFinds | erste_campus_iframe_scraper.py:330 | a text starting with one or two digits, separators, one or two digits, separators and four digits is matched at its start with those groups |
| LooseDates.LooseSearchShape | erste_campus_advanced_scraper.py:260-262 | the groups found are digit runs of the widths the pattern names |
| DateFormats.FirstFormatFacts | erste_campus_advanced_scraper.py:253-257 | the loop over formats returns the date of the first format that parses, and nothing iff none does |
| DateFormats.StrptimeRoundTrip | erste_campus_advanced_scraper.py:244-256 | every date written with one of the formats is read back as itself by `strptime` with that format |
| DateFormats.FormatsComplete | erste_campus_advanced_scraper.py:244-251 | the six formats tried are well formed, so the round trip applies to each |
| Dates.MoveInWeek | erste_campus_selenium_scraper.py:251-254 | `today + timedelta(days=n - today.weekday())` falls on weekday `n` of today's Monday-to-Sunday week |
| Dates.BeforeIsOrd | app/services/scraping_service.py:294-296 | comparing dates field by field agrees with comparing their ordinals |

## Definitions

- `Service.Record`, app/services/scraping_service.py:88-120: one scraper's outcome added to the statistics, as written
- `Service.IntendedRecord`, app/services/scraping_service.py:88-120: the same step with a debug line that does not raise
- `Service.Tally`, app/services/scraping_service.py:73-124: the statistics after the scrapers run in order
- `Service.SaveAll`, app/services/scraping_service.py:88-92: the tables after every non-empty list is saved in order
- `Service.Single`, app/services/scraping_service.py:166-195: the answer of `run_single_scraper` for a found scraper
- `Store.NewRow`, app/scrapers/base_scraper.py:93-100: the `MenuItem` built for one item, with the `get` defaults
- `Store.DateOrder`, app/scrapers/base_scraper.py:69-74: the keys of `items_by_date` in first-occurrence order
- `Store.Group`, app/scrapers/base_scraper.py:69-74: one date's items in `items_by_date`
- `Store.ReplaceDay`, app/scrapers/base_scraper.py:77-101: one date of a save: delete that date's rows, then add the new ones
- `Store.Saved`, app/scrapers/base_scraper.py:76-101: the `menu_item` table after all dates are replaced
- `Store.Save`, app/scrapers/base_scraper.py:48-108: both tables after `save_to_db`
- `Store.Cutoff`, app/services/scraping_service.py:291: `date.today() - timedelta(days=days_to_keep)`
- `Store.Kept`, app/services/scraping_service.py:294-296: the rows the delete of `cleanup_old_data` leaves
- `ErsteIframe.ExtractPrice`, erste_campus_iframe_scraper.py:372-387: `_extract_price`
- `ErsteIframe.CleanDescription`, erste_campus_iframe_scraper.py:358-370: `_clean_description`
- `ErsteIframe.DropParen`, erste_campus_iframe_scraper.py:368: the trailing-parenthesis `re.sub` of `_clean_description`
- `ErsteIframe.DetermineCategory`, erste_campus_iframe_scraper.py:340-356: `_determine_category`
- `ErsteIframe.IsHeaderText`, erste_campus_iframe_scraper.py:303-311: `_is_header_text`
- `ErsteIframe.IsDateText`, erste_campus_iframe_scraper.py:288-301: `_is_date_text`
- `ErsteNextjs.ParseDate`, erste_campus_nextjs_scraper.py:381-407: `_parse_date`
- `ErsteNextjs.ParseSingleMenuItem`, erste_campus_nextjs_scraper.py:219-255: `_parse_single_menu_item`
- `ErsteNextjs.DayItems`, erste_campus_nextjs_scraper.py:182-217: `_parse_day_data`
- `ErsteNextjs.StructureItems`, erste_campus_nextjs_scraper.py:150-180: `_parse_menu_structure`
- `ErsteNextjs.Found`, erste_campus_nextjs_scraper.py:127-148: `_search_for_menu_data`
- `ErsteNextjs.CleanDescription`, erste_campus_nextjs_scraper.py:457-468: `_clean_description`
- `ErsteNextjs.ExtractPrice`, erste_campus_nextjs_scraper.py:470-475: `_extract_price`
- `ErsteAdvanced.ExtractPrice`, erste_campus_advanced_scraper.py:302-311: `_extract_price`
- `ErsteAdvanced.CleanDescription`, erste_campus_advanced_scraper.py:291-300: `_clean_description`
- `ErsteAdvanced.DetermineCategory`, erste_campus_advanced_scraper.py:276-289: `_determine_category`
- `ErsteSelenium.ExtractPrice`, erste_campus_selenium_scraper.py:229-235: `_extract_price`
- `ErsteSelenium.CleanDescription`, erste_campus_selenium_scraper.py:216-227: `_clean_description`
- `ErsteSelenium.DetermineCategory`, erste_campus_selenium_scraper.py:203-214: `_determine_category`
- `ErsteSelenium.ParseWeekdayToDate`, erste_campus_selenium_scraper.py:237-256: `_parse_weekday_to_date`, `Raised` where the `timedelta` addition overflows
- `Dates.Shifted`, erste_campus_final_scraper.py:272: `date + timedelta(days=k)`, `Raised` where Python raises `OverflowError`
- `Albanco.TrailingNumber`, app/scrapers/albanco_scraper.py:138: the price search `(\d+[,\.]\d+)\s*$` of `_parse_menu_text`
- `Albanco.Head`, app/scrapers/albanco_scraper.py:146-153: a dish line's name before its last `(`, and the length check
- `Albanco.MenuFrom`, app/scrapers/albanco_scraper.py:133-197: the `while i < len(lines)` loop of `_parse_menu_text`

## Left out

- Browser, HTTP, DOM traversal, OCR, PDF text extraction, the database session and client notification are I/O or foreign calls. The model starts from the text, the lines or the field records they produce.
- `date.today()` is a parameter. `date(y, m, d)` raising outside years 1..9999 is modelled by `Constructible`, and `date + timedelta` raising `OverflowError` past those years by `Shifted`.
- Python's `re` module and full Unicode are not modelled. Each regular expression is a hand-written predicate over ASCII plus the characters the code names (`€`, `â‚¬`, `ä`, `ö`, `ü`, `ß`, `é`, `ã`, `â` and the capitals `Ä`, `Ö`, `Ü`, `É`, `Ã`, `Â`). `\s` is `Text.IsSpace`: ASCII whitespace plus U+001C–U+001F, U+0085 and U+00A0. `lower`/`upper` change ASCII letters and ä/ö/ü/é/ã/â with their capitals, and `ß` upper-cases to `SS`; these letters are also word characters for `\b`. Every other non-ASCII character is taken to be uncased.
- ErsteApp.Emit, ErsteFixed.Emit, ErsteFinal.Emit: state only that a piece gives at most one dish. What an emitted dish looks like is stated over whole walks by the well-formedness lemmas.
- Floating-point prices: a JSON number is an integer (`JNum`), so the `f"€ {price_val:.2f}"` branch of `_parse_single_menu_item` is modelled for whole numbers only.
- `datetime.fromisoformat` and `str()` of a JSON list or dict are parameters of the Next.js context (`fromIso`, `show`), not modelled.
- A JSON object is a list of entries in document order; a repeated key is read at its first entry, where `json.loads` keeps the last one.
- `_extract_menu_from_next_data`, `_try_api_endpoints`, `_fallback_scraping` and `_is_date_text` of the Next.js scraper walk fixed paths, call HTTP endpoints or traverse the DOM; they are not part of this model.
- `_parse_container`, `_extract_date_from_container`, `_extract_by_date_patterns` and `_extract_from_tables` of the iframe scraper, and `_extract_menu_from_page` and the `_scrape_*` methods of the advanced scraper, traverse the DOM; they are not part of this model.
- The `scrape` and `extract_menu_items` wrappers of the Albanco, IKI, Henry, Campus Bräu, Café George and 4oh4 scrapers fetch pages and PDFs; the model starts from the lines or the records of the elements they find (`CampusBraeu`, `Henry`, `MealCards` model a page as records of headings, list items and cards). In `CampusBraeu` each heading holds its own copy of its list, so a `ul` that `find_next('ul')` returns for two headings (one of them without a list of its own) is not shared: a price span removed under today's heading is still seen under the other heading in the fallback.
- ErsteIframe.DropParen: models `re.sub(r'\s*\(.*?\)\s*$', '', s)` on text without line breaks only, which is what it is applied to after whitespace is squeezed.
- `str.capitalize()` upper-cases the first character as `str.upper()` does; Unicode title case is not modelled.
- `get_scraper_status` and `notify_clients_of_update` of the scraping service only query the database and broadcast over Socket.IO.
- Store.Save, Store.SavedDay, Store.Database.SaveToDb, Service.ScrapingService.RunSingleScraper: a scraped item's `category` and `description` are a string or absent, never `None`. Those columns are `NOT NULL` (app/models.py:23,25), so such an item would make the commit of `save_to_db` raise `IntegrityError`; that path is not modelled.
- `save_to_db` commits several times; a failure between two commits is not modelled. `last_scraped = datetime.utcnow()` is the parameter `now`.

## Findings

| source | as written | input that shows it | evidently intended | confidence | as-written member | corrected member |
|---|---|---|---|---|---|---|
| app/scrapers/campusbraeu_scraper.py:182-199 | the fallback loop sets `price` only for a tag naming `suppe`, `nachspeise` or `hauptspeise` and never resets it, so a main dish after a soup gets the soup's price, and while `price` has never been assigned such an item raises `UnboundLocalError` and is dropped | a fallback list with a `Suppe` item followed by an item whose tag names no course | each item priced by its own category (`€ 15,50` for a main dish, `€ 13,50` otherwise), as the primary pass does | not executed; high | CampusBraeu.StalePriceAfterSoup | CampusBraeu.IntendedItems |
| app/services/scraping_service.py:103-106 | after a success has been saved and counted, the debug line formats `sample.get('description')[:50]`; the f-string is built whatever the log level, so a first item without a description raises `TypeError`, and the handler counts the scraper as failed as well | a scraper returning one item with no `description` key: `successful` 1, `failed` 1, one scraper run | a debug line that cannot fail, so each scraper counts once | not executed; high | Service.DoubleCount | Service.IntendedBalance |
| erste_campus_iframe_scraper.py:368 | `\s*\(.*?\)\s*$` starts its leftmost match at the first `(`, so everything from the first parenthesis on is removed | `a (b) c (d)` becomes `a` | only the final parenthetical removed, `a (b) c` | not executed; medium | ErsteIframe.DropParenFirst | ErsteIframe.DropLastParenFinal |

The scraper models keep the behaviour as written, since that is what the program does; the corrected definitions (`CampusBraeu.IntendedStep`, `ErsteIframe.DropLastParen`, `Service.IntendedRecord`) sit beside them with the intended property proved.
