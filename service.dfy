/**
 * `app/services/scraping_service.py`: running the configured scrapers,
 * saving what they return, and the statistics of a run. What each
 * `scrape()` call returns is given as a parameter, one per scraper.
 */
module Service {
  import opened Wrappers
  import opened Text
  import opened Dates
  import opened Seqs
  import opened Store

  /** A configured scraper: its restaurant name and URL. */
  datatype Scraper = Scraper(name: String, url: String)

  /** What `scraper.scrape()` did: returned a value (`None` or a list), or raised an exception with this message. */
  datatype Scraped = Returned(items: Option<seq<Entry>>) | Threw(message: String)

  /** An entry of `stats['errors']`. */
  datatype ErrorEntry = ErrorEntry(scraper: String, error: String)

  /** The `stats` dictionary of `run_all_scrapers`. */
  datatype Stats = Stats(totalScrapers: nat, successful: nat, failed: nat, totalItems: nat, errors: seq<ErrorEntry>)

  /** The answer of `run_single_scraper`. */
  datatype SingleResult =
    | NotConfigured(error: String)
    | Success(itemsCount: nat, restaurant: String)
    | Failure(error: String, restaurant: String)

  /** `if menu_items:`: the scraper returned a non-empty list. */
  predicate Succeeded(s: Scraped)
  {
    s.Returned? && s.items.Some? && s.items.value != []
  }

  function Failed(s: Scraped): bool
  {
    !Succeeded(s)
  }

  /** The items saved for one scraper: its list when it succeeded, nothing otherwise. */
  function Saving(s: Scraped): seq<Entry>
  {
    if Succeeded(s) then s.items.value else []
  }

  /** The message of the `TypeError` Python raises when `None` is sliced. */
  const NotSubscriptable: String := "'NoneType' object is not subscriptable"

  /**
   * After a success `run_all_scrapers` formats `sample.get('description')[:50]`
   * for the first item. The f-string is built before `logger.debug` looks at
   * the level, so a first item without a description raises there, after
   * the items were saved and the success was counted.
   */
  predicate LogRaises(s: Scraped)
  {
    Succeeded(s) && s.items.value[0].description.None?
  }

  /** The scraper leaves an entry in `stats['errors']`: it failed, or its debug line raised. */
  predicate Errs(s: Scraped)
  {
    Failed(s) || LogRaises(s)
  }

  /** The error recorded for a scraper that did not succeed, or whose debug line raised. */
  function ErrorOf(sc: Scraper, s: Scraped): ErrorEntry
  {
    match s
    case Threw(m) => ErrorEntry(sc.name, m)
    case Returned(_) => ErrorEntry(sc.name, if LogRaises(s) then NotSubscriptable else "No data returned")
  }

  /** One failure more, with its error. */
  function Fail(st: Stats, sc: Scraper, s: Scraped): Stats
  {
    st.(failed := st.failed + 1, errors := st.errors + [ErrorOf(sc, s)])
  }

  /** The statistics after one more scraper, as `run_all_scrapers` is written: a success whose debug line raises is counted as a failure too. */
  function Record(st: Stats, sc: Scraper, s: Scraped): Stats
  {
    if Succeeded(s) then
      var counted := st.(successful := st.successful + 1, totalItems := st.totalItems + |s.items.value|);
      if LogRaises(s) then Fail(counted, sc, s) else counted
    else Fail(st, sc, s)
  }

  /** The statistics after running `scrapers` with outcomes `results`, out of `total` configured scrapers. */
  function Tally(total: nat, scrapers: seq<Scraper>, results: seq<Scraped>): Stats
    requires |results| == |scrapers|
    decreases |results|
  {
    if results == [] then Stats(total, 0, 0, 0, [])
    else
      var n := |results| - 1;
      Record(Tally(total, scrapers[..n], results[..n]), scrapers[n], results[n])
  }

  /**
   * Each success and each error is counted once, so `successful + failed`
   * exceeds the number of scrapers run by the successes whose debug line
   * raised; each failure leaves one error; the item total is the length of
   * all saved lists together.
   */
  lemma {:induction false} TallyBalance(total: nat, scrapers: seq<Scraper>, results: seq<Scraped>)
    requires |results| == |scrapers|
    ensures var st := Tally(total, scrapers, results);
      && st.totalScrapers == total
      && st.successful == |Filter(Succeeded, results)|
      && st.failed == |Filter(Errs, results)|
      && st.successful + st.failed == |results| + |Filter(LogRaises, results)|
      && |st.errors| == st.failed
      && st.totalItems == |FlatMap(Saving, results)|
    decreases |results|
  {
    if results != [] {
      var n := |results| - 1;
      TallyBalance(total, scrapers[..n], results[..n]);
      assert results == results[..n] + [results[n]];
      FilterSnoc(Succeeded, results[..n], results[n]);
      FilterSnoc(Errs, results[..n], results[n]);
      FilterSnoc(LogRaises, results[..n], results[n]);
      FlatMapAppend(Saving, results[..n], results[n]);
    }
  }

  /** A success whose first item has no description is counted both as a success and as a failure, with the `TypeError` as its error. */
  lemma DoubleCount(st: Stats, sc: Scraper, s: Scraped)
    requires LogRaises(s)
    ensures Record(st, sc, s).successful == st.successful + 1
    ensures Record(st, sc, s).failed == st.failed + 1
    ensures Record(st, sc, s).errors == st.errors + [ErrorEntry(sc.name, NotSubscriptable)]
  {
  }

  /** The errors are those of the failed scrapers and of the successes whose debug line raised, in order, each naming its scraper. */
  lemma {:induction false} TallyErrors(total: nat, scrapers: seq<Scraper>, results: seq<Scraped>, e: ErrorEntry)
    requires |results| == |scrapers|
    requires e in Tally(total, scrapers, results).errors
    ensures exists i :: 0 <= i < |results| && Errs(results[i]) && e == ErrorOf(scrapers[i], results[i])
    decreases |results|
  {
    var n := |results| - 1;
    var before := Tally(total, scrapers[..n], results[..n]);
    if e in before.errors {
      TallyErrors(total, scrapers[..n], results[..n], e);
      var i :| 0 <= i < n && Errs(results[..n][i]) && e == ErrorOf(scrapers[..n][i], results[..n][i]);
      assert results[..n][i] == results[i] && scrapers[..n][i] == scrapers[i];
    } else {
      assert Errs(results[n]) && e == ErrorOf(scrapers[n], results[n]);
    }
  }

  /** The statistics after one more scraper as evidently intended: the debug line does not fail, so a success is only a success. */
  function IntendedRecord(st: Stats, sc: Scraper, s: Scraped): Stats
  {
    if Succeeded(s) then st.(successful := st.successful + 1, totalItems := st.totalItems + |s.items.value|)
    else Fail(st, sc, s)
  }

  /** `Tally` with the intended step. */
  function IntendedTally(total: nat, scrapers: seq<Scraper>, results: seq<Scraped>): Stats
    requires |results| == |scrapers|
    decreases |results|
  {
    if results == [] then Stats(total, 0, 0, 0, [])
    else
      var n := |results| - 1;
      IntendedRecord(IntendedTally(total, scrapers[..n], results[..n]), scrapers[n], results[n])
  }

  /** With the intended step every scraper counts exactly once, as a success or a failure, and each failure leaves one error. */
  lemma {:induction false} IntendedBalance(total: nat, scrapers: seq<Scraper>, results: seq<Scraped>)
    requires |results| == |scrapers|
    ensures var st := IntendedTally(total, scrapers, results);
      && st.totalScrapers == total
      && st.successful == |Filter(Succeeded, results)|
      && st.failed == |Filter(Failed, results)|
      && st.successful + st.failed == |results|
      && |st.errors| == st.failed
      && st.totalItems == |FlatMap(Saving, results)|
    decreases |results|
  {
    if results != [] {
      var n := |results| - 1;
      IntendedBalance(total, scrapers[..n], results[..n]);
      assert results == results[..n] + [results[n]];
      FilterSnoc(Succeeded, results[..n], results[n]);
      FilterSnoc(Failed, results[..n], results[n]);
      FlatMapAppend(Saving, results[..n], results[n]);
    }
  }

  /** When no first item lacks a description, the program's statistics are the intended ones. */
  lemma {:induction false} TallyAsIntended(total: nat, scrapers: seq<Scraper>, results: seq<Scraped>)
    requires |results| == |scrapers|
    requires forall i :: 0 <= i < |results| ==> !LogRaises(results[i])
    ensures Tally(total, scrapers, results) == IntendedTally(total, scrapers, results)
    decreases |results|
  {
    if results != [] {
      var n := |results| - 1;
      forall i | 0 <= i < n ensures !LogRaises(results[..n][i]) {
        assert results[..n][i] == results[i];
      }
      TallyAsIntended(total, scrapers[..n], results[..n]);
      assert !LogRaises(results[n]);
    }
  }

  /** The tables after saving, scraper by scraper, every non-empty list. */
  function SaveAll(s: State, scrapers: seq<Scraper>, results: seq<Scraped>, now: int): State
    requires |results| == |scrapers|
    decreases |results|
  {
    if results == [] then s
    else
      var n := |results| - 1;
      Save(SaveAll(s, scrapers[..n], results[..n], now), scrapers[n].name, scrapers[n].url, Saving(results[n]), now)
  }

  /** One scraper more. */
  lemma StepAll(s: State, total: nat, scrapers: seq<Scraper>, results: seq<Scraped>, now: int, i: nat)
    requires |results| == |scrapers| && i < |results|
    ensures Tally(total, scrapers[..i + 1], results[..i + 1]) == Record(Tally(total, scrapers[..i], results[..i]), scrapers[i], results[i])
    ensures SaveAll(s, scrapers[..i + 1], results[..i + 1], now)
      == Save(SaveAll(s, scrapers[..i], results[..i], now), scrapers[i].name, scrapers[i].url, Saving(results[i]), now)
  {
    assert scrapers[..i + 1][..i] == scrapers[..i] && results[..i + 1][..i] == results[..i];
  }

  /** A restaurant none of whose scrapers returned items keeps all its rows. */
  lemma {:induction false} SaveAllUntouched(s: State, scrapers: seq<Scraper>, results: seq<Scraped>, now: int, n: String, d: Date)
    requires |results| == |scrapers|
    requires forall i :: 0 <= i < |results| && scrapers[i].name == n ==> Failed(results[i])
    ensures RowsOf(SaveAll(s, scrapers, results, now).menuItems, n, d) == RowsOf(s.menuItems, n, d)
    decreases |results|
  {
    if results != [] {
      var k := |results| - 1;
      SaveAllUntouched(s, scrapers[..k], results[..k], now, n, d);
      var before := SaveAll(s, scrapers[..k], results[..k], now);
      if Succeeded(results[k]) {
        SavedOthers(before.menuItems, scrapers[k].name, Saving(results[k]), n, d);
      }
    }
  }

  /** The first scraper whose name equals `request` ignoring case. */
  function FirstNamed(scrapers: seq<Scraper>, request: String): (r: Option<nat>)
    ensures r.Some? ==> r.value < |scrapers|
  {
    if scrapers == [] then None
    else if Lower(scrapers[0].name) == Lower(request) then Some(0)
    else match FirstNamed(scrapers[1..], request)
      case None => None
      case Some(i) => Some(i + 1)
  }

  /** A scraper with that name, with none before it, is the one found. */
  lemma {:induction false} FirstNamedAt(scrapers: seq<Scraper>, request: String, i: nat)
    requires i < |scrapers| && Lower(scrapers[i].name) == Lower(request)
    requires forall j :: 0 <= j < i ==> Lower(scrapers[j].name) != Lower(request)
    ensures FirstNamed(scrapers, request) == Some(i)
    decreases i
  {
    if i > 0 {
      assert Lower(scrapers[0].name) != Lower(request);
      forall j | 0 <= j < i - 1 ensures Lower(scrapers[1..][j].name) != Lower(request) {
        assert scrapers[1..][j] == scrapers[j + 1];
      }
      FirstNamedAt(scrapers[1..], request, i - 1);
    }
  }

  /** Without a scraper of that name, nothing is found. */
  lemma {:induction false} FirstNamedNone(scrapers: seq<Scraper>, request: String)
    requires forall j :: 0 <= j < |scrapers| ==> Lower(scrapers[j].name) != Lower(request)
    ensures FirstNamed(scrapers, request) == None
    decreases |scrapers|
  {
    if scrapers != [] {
      assert Lower(scrapers[0].name) != Lower(request);
      forall j | 0 <= j < |scrapers| - 1 ensures Lower(scrapers[1..][j].name) != Lower(request) {
        assert scrapers[1..][j] == scrapers[j + 1];
      }
      FirstNamedNone(scrapers[1..], request);
    }
  }

  /** The lookup finds the first scraper with that name, ignoring case, and nothing exactly when there is none. */
  lemma {:induction false} FirstNamedIsFirst(scrapers: seq<Scraper>, request: String)
    ensures match FirstNamed(scrapers, request)
      case Some(i) => i < |scrapers| && Lower(scrapers[i].name) == Lower(request)
        && forall j :: 0 <= j < i ==> Lower(scrapers[j].name) != Lower(request)
      case None => forall j :: 0 <= j < |scrapers| ==> Lower(scrapers[j].name) != Lower(request)
    decreases |scrapers|
  {
    if scrapers != [] && Lower(scrapers[0].name) != Lower(request) {
      FirstNamedIsFirst(scrapers[1..], request);
      forall j | 1 <= j < |scrapers| ensures scrapers[j] == scrapers[1..][j - 1] {
      }
    }
  }

  /** `ScrapingService`: the configured scrapers, in order. */
  class ScrapingService {
    const scrapers: seq<Scraper>

    constructor (configured: seq<Scraper>)
      ensures scrapers == configured
    {
      scrapers := configured;
    }

    /** `run_all_scrapers`: each scraper's outcome counted, a raising debug line included, each non-empty list saved; clients are notified when something succeeded. */
    method RunAllScrapers(db: Database, results: seq<Scraped>, now: int) returns (stats: Stats, notified: bool)
      requires |results| == |scrapers|
      modifies db
      ensures stats == Tally(|scrapers|, scrapers, results)
      ensures notified <==> stats.successful > 0
      ensures db.Current() == SaveAll(old(db.Current()), scrapers, results, now)
    {
      stats := Stats(|scrapers|, 0, 0, 0, []);
      var i := 0;
      while i < |scrapers|
        invariant 0 <= i <= |scrapers|
        invariant stats == Tally(|scrapers|, scrapers[..i], results[..i])
        invariant db.Current() == SaveAll(old(db.Current()), scrapers[..i], results[..i], now)
      {
        var scraper := scrapers[i];
        StepAll(old(db.Current()), |scrapers|, scrapers, results, now, i);
        ghost var counted := Record(stats, scraper, results[i]);
        ghost var saved := Save(db.Current(), scraper.name, scraper.url, Saving(results[i]), now);
        match results[i] {
          case Returned(menuItems) =>
            if menuItems.Some? && menuItems.value != [] {
              db.SaveToDb(scraper.name, scraper.url, menuItems.value, now);
              stats := stats.(successful := stats.successful + 1, totalItems := stats.totalItems + |menuItems.value|);
              if menuItems.value[0].description.None? {
                stats := stats.(failed := stats.failed + 1, errors := stats.errors + [ErrorEntry(scraper.name, NotSubscriptable)]);
              }
            } else {
              stats := stats.(failed := stats.failed + 1, errors := stats.errors + [ErrorEntry(scraper.name, "No data returned")]);
            }
          case Threw(message) =>
            stats := stats.(failed := stats.failed + 1, errors := stats.errors + [ErrorEntry(scraper.name, message)]);
        }
        assert stats == counted && db.Current() == saved;
        i := i + 1;
      }
      assert scrapers[..i] == scrapers && results[..i] == results;
      notified := stats.successful > 0;
    }

    /** The loop of `run_single_scraper` that looks the scraper up by name. */
    method FindScraper(request: String) returns (found: Option<nat>)
      ensures found == FirstNamed(scrapers, request)
    {
      var i := 0;
      while i < |scrapers|
        invariant 0 <= i <= |scrapers|
        invariant forall j :: 0 <= j < i ==> Lower(scrapers[j].name) != Lower(request)
      {
        if Lower(scrapers[i].name) == Lower(request) {
          FirstNamedAt(scrapers, request, i);
          return Some(i);
        }
        i := i + 1;
      }
      FirstNamedNone(scrapers, request);
      return None;
    }

    /** `run_single_scraper`: runs the scraper named `request` (whose outcome is `results` at its index) and saves a non-empty list. */
    method RunSingleScraper(db: Database, request: String, results: seq<Scraped>, now: int) returns (r: SingleResult, notified: bool)
      requires |results| == |scrapers|
      modifies db
      ensures match FirstNamed(scrapers, request)
        case None =>
          r == NotConfigured("No scraper configured for " + request) && !notified && db.Current() == old(db.Current())
        case Some(i) =>
          && r == Single(results[i], request)
          && (notified <==> Succeeded(results[i]))
          && db.Current() == Save(old(db.Current()), scrapers[i].name, scrapers[i].url, Saving(results[i]), now)
    {
      var found := FindScraper(request);
      if found.None? {
        return NotConfigured("No scraper configured for " + request), false;
      }
      var scraper := scrapers[found.value];
      match results[found.value]
      case Threw(message) =>
        r, notified := Failure(message, request), false;
      case Returned(menuItems) =>
        if menuItems.Some? && menuItems.value != [] {
          db.SaveToDb(scraper.name, scraper.url, menuItems.value, now);
          r, notified := Success(|menuItems.value|, request), true;
        } else {
          r, notified := Failure("No menu items found", request), false;
        }
    }
  }

  /** The answer of `run_single_scraper` once the scraper is found. */
  function Single(s: Scraped, request: String): SingleResult
  {
    match s
    case Threw(m) => Failure(m, request)
    case Returned(items) =>
      if items.Some? && items.value != [] then Success(|items.value|, request)
      else Failure("No menu items found", request)
  }
}
