/**
 * `app/scrapers/base_scraper.py`, `save_to_db`, and the table operations of
 * `app/services/scraping_service.py`: the `restaurant` and `menu_item`
 * tables, the per-date replace a save performs, and the cleanup of old rows.
 * A restaurant is identified by its unique name; the table is a sequence of
 * rows, whose order no query relies on.
 */
module Store {
  import opened Wrappers
  import opened Text
  import opened Dates
  import opened Seqs

  /** A column value: SQL `NULL` (Python `None`) or a string. */
  datatype Value = Null | Str(s: String)

  /**
   * One scraped item: its `menu_date` and the `category`, `description` and
   * `price` keys, each `None` when the dictionary lacks it. The first two
   * columns are `NOT NULL`, so a present category or description is a string.
   */
  datatype Entry = Entry(menuDate: Date, category: Option<String>, description: Option<String>, price: Option<Value>)

  /** A `menu_item` row, with its restaurant given by name; only `price` may be `NULL`. */
  datatype Row = Row(restaurant: String, menuDate: Date, category: String, description: String, price: Value)

  /** A `restaurant` row; `last_scraped` is a timestamp. */
  datatype RestaurantRow = RestaurantRow(url: String, lastScraped: int)

  /** Both tables. */
  datatype State = State(restaurants: map<String, RestaurantRow>, menuItems: seq<Row>)

  /** The `MenuItem` built for one scraped item of restaurant `name`, with the `item.get(key, default)` defaults. */
  function NewRow(name: String, e: Entry): Row
  {
    Row(name, e.menuDate, e.category.UnwrapOr("N/A"), e.description.UnwrapOr(""), e.price.UnwrapOr(Str("")))
  }

  /** A missing category is stored as `N/A`, a missing description or price as ""; present values are stored as given, a `None` price included. */
  lemma NewRowFields(name: String, e: Entry)
    ensures NewRow(name, e).restaurant == name && NewRow(name, e).menuDate == e.menuDate
    ensures NewRow(name, e).category == if e.category.Some? then e.category.value else "N/A"
    ensures NewRow(name, e).description == if e.description.Some? then e.description.value else ""
    ensures NewRow(name, e).price == if e.price.Some? then e.price.value else Str("")
  {
  }

  /** The rows for a list of items, in order. */
  function NewRows(name: String, es: seq<Entry>): seq<Row>
  {
    seq(|es|, i requires 0 <= i < |es| => NewRow(name, es[i]))
  }

  /** One item more adds its row at the end. */
  lemma NewRowsSnoc(name: String, es: seq<Entry>, e: Entry)
    ensures NewRows(name, es + [e]) == NewRows(name, es) + [NewRow(name, e)]
  {
  }

  /** Updating a key twice keeps the second value. */
  lemma UpdateTwice<K, V>(m: map<K, V>, k: K, a: V, b: V)
    ensures m[k := a][k := b] == m[k := b]
  {
  }

  /** Some item is dated `d`. */
  predicate HasDate(items: seq<Entry>, d: Date)
  {
    exists i :: 0 <= i < |items| && items[i].menuDate == d
  }

  /** The keys of `items_by_date`: each date of the items once, in order of first occurrence. */
  function DateOrder(items: seq<Entry>): seq<Date>
  {
    if items == [] then []
    else
      var ds := DateOrder(items[..|items| - 1]);
      var d := items[|items| - 1].menuDate;
      if d in ds then ds else ds + [d]
  }

  /** The dates listed are exactly the items' dates, each once. */
  lemma {:induction false} DateOrderFacts(items: seq<Entry>)
    ensures forall d :: d in DateOrder(items) <==> HasDate(items, d)
    ensures forall i, j :: 0 <= i < j < |DateOrder(items)| ==> DateOrder(items)[i] != DateOrder(items)[j]
    decreases |items|
  {
    if items != [] {
      var prefix := items[..|items| - 1];
      var d := items[|items| - 1].menuDate;
      DateOrderFacts(prefix);
      forall d' | HasDate(items, d') && d' != d ensures HasDate(prefix, d') {
        var i :| 0 <= i < |items| && items[i].menuDate == d';
        assert items[i] == prefix[i];
      }
      forall d' | HasDate(prefix, d') ensures HasDate(items, d') {
        var i :| 0 <= i < |prefix| && prefix[i].menuDate == d';
        assert items[i] == prefix[i];
      }
      assert HasDate(items, d) by {
        assert items[|items| - 1].menuDate == d;
      }
    }
  }

  /** The dates seen in a prefix of the items come first, in the same order. */
  lemma {:induction false} DateOrderPrefix(items: seq<Entry>, n: nat)
    requires n <= |items|
    ensures DateOrder(items[..n]) <= DateOrder(items)
    decreases |items| - n
  {
    if n < |items| {
      DateOrderPrefix(items, n + 1);
      assert items[..n + 1][..n] == items[..n];
    } else {
      assert items[..n] == items;
    }
  }

  function IsOn(d: Date): Entry -> bool
  {
    (e: Entry) => e.menuDate == d
  }

  /** `items_by_date[d]`: the items dated `d`, in their order. */
  function Group(items: seq<Entry>, d: Date): seq<Entry>
  {
    Filter(IsOn(d), items)
  }

  /** Every item of a group has its date, and every item with that date is in it. */
  lemma GroupMembers(items: seq<Entry>, d: Date)
    ensures forall i :: 0 <= i < |Group(items, d)| ==> Group(items, d)[i].menuDate == d
    ensures forall i :: 0 <= i < |items| && items[i].menuDate == d ==> items[i] in Group(items, d)
  {
    FilterFacts(IsOn(d), items);
  }

  /** The group of a date no item has is empty. */
  lemma GroupEmpty(items: seq<Entry>, d: Date)
    requires !HasDate(items, d)
    ensures Group(items, d) == []
  {
    FilterNone(IsOn(d), items);
  }

  function Keyed(name: String, d: Date): Row -> bool
  {
    (r: Row) => r.restaurant == name && r.menuDate == d
  }

  function NotKeyed(name: String, d: Date): Row -> bool
  {
    (r: Row) => !(r.restaurant == name && r.menuDate == d)
  }

  /** `MenuItem.query.filter_by(restaurant_id=..., menu_date=d)`: the rows of restaurant `name` on `d`. */
  function RowsOf(table: seq<Row>, name: String, d: Date): seq<Row>
  {
    Filter(Keyed(name, d), table)
  }

  /** The table after `.delete()` on that query. */
  function Without(table: seq<Row>, name: String, d: Date): seq<Row>
  {
    Filter(NotKeyed(name, d), table)
  }

  /** One date of a save: delete the rows of (`name`, `d`), then add that date's new rows. */
  function ReplaceDay(table: seq<Row>, name: String, items: seq<Entry>, d: Date): seq<Row>
  {
    Without(table, name, d) + NewRows(name, Group(items, d))
  }

  /** The dates `ds` replaced one after the other. */
  function SaveDays(table: seq<Row>, name: String, items: seq<Entry>, ds: seq<Date>): seq<Row>
    decreases |ds|
  {
    if ds == [] then table
    else ReplaceDay(SaveDays(table, name, items, ds[..|ds| - 1]), name, items, ds[|ds| - 1])
  }

  /** Replacing one date more, in the order of `ds`. */
  lemma SaveDaysStep(table: seq<Row>, name: String, items: seq<Entry>, ds: seq<Date>, k: nat)
    requires k < |ds|
    ensures SaveDays(table, name, items, ds[..k + 1]) == ReplaceDay(SaveDays(table, name, items, ds[..k]), name, items, ds[k])
  {
    assert ds[..k + 1][..k] == ds[..k];
  }

  /** The `menu_item` table after `save_to_db(items)` for restaurant `name`. */
  function Saved(table: seq<Row>, name: String, items: seq<Entry>): seq<Row>
  {
    SaveDays(table, name, items, DateOrder(items))
  }

  /** The state after `save_to_db`: nothing for an empty list; otherwise the restaurant exists (keeping its URL when it did), is stamped `now`, and its dates are replaced. */
  function Save(s: State, name: String, url: String, items: seq<Entry>, now: int): State
  {
    if items == [] then s
    else
      var known := if name in s.restaurants then s.restaurants[name].url else url;
      State(s.restaurants[name := RestaurantRow(known, now)], Saved(s.menuItems, name, items))
  }

  /** Deleting a key with no rows leaves the table as it is. */
  lemma NothingToDelete(table: seq<Row>, name: String, d: Date)
    requires RowsOf(table, name, d) == []
    ensures Without(table, name, d) == table
  {
    FilterFacts(Keyed(name, d), table);
    FilterAll(NotKeyed(name, d), table);
  }

  /** The new rows of a date all carry the restaurant and that date. */
  lemma NewRowsKeyed(name: String, items: seq<Entry>, d: Date)
    ensures forall i :: 0 <= i < |NewRows(name, Group(items, d))| ==> Keyed(name, d)(NewRows(name, Group(items, d))[i])
  {
    GroupMembers(items, d);
  }

  /** After replacing one date, its rows are exactly the new ones, and every other (restaurant, date) keeps its rows. */
  lemma ReplaceDayRows(table: seq<Row>, name: String, items: seq<Entry>, d: Date, n: String, e: Date)
    ensures RowsOf(ReplaceDay(table, name, items, d), n, e)
      == if n == name && e == d then NewRows(name, Group(items, d)) else RowsOf(table, n, e)
  {
    var added := NewRows(name, Group(items, d));
    FilterConcat(Keyed(n, e), Without(table, name, d), added);
    NewRowsKeyed(name, items, d);
    if n == name && e == d {
      FilterFilter(Keyed(n, e), NotKeyed(name, d), (r: Row) => false, table);
      FilterNone((r: Row) => false, table);
      FilterAll(Keyed(n, e), added);
    } else {
      FilterFilter(Keyed(n, e), NotKeyed(name, d), Keyed(n, e), table);
      FilterNone(Keyed(n, e), added);
    }
  }

  /** After replacing the dates `ds`, the rows of each of them are its new rows; all other rows stay. */
  lemma {:induction false} SaveDaysRows(table: seq<Row>, name: String, items: seq<Entry>, ds: seq<Date>, n: String, e: Date)
    ensures RowsOf(SaveDays(table, name, items, ds), n, e)
      == if n == name && e in ds then NewRows(name, Group(items, e)) else RowsOf(table, n, e)
    decreases |ds|
  {
    if ds != [] {
      var ds' := ds[..|ds| - 1];
      var d := ds[|ds| - 1];
      assert ds == ds' + [d];
      SaveDaysRows(table, name, items, ds', n, e);
      ReplaceDayRows(SaveDays(table, name, items, ds'), name, items, d, n, e);
    }
  }

  /** For every date of the saved items, the store then holds exactly that date's items. */
  lemma SavedDay(table: seq<Row>, name: String, items: seq<Entry>, d: Date)
    requires HasDate(items, d)
    ensures RowsOf(Saved(table, name, items), name, d) == NewRows(name, Group(items, d))
  {
    DateOrderFacts(items);
    SaveDaysRows(table, name, items, DateOrder(items), name, d);
  }

  /** Every other restaurant, and every date of this one that the items do not have, keeps its rows. */
  lemma SavedOthers(table: seq<Row>, name: String, items: seq<Entry>, n: String, e: Date)
    requires !(n == name && HasDate(items, e))
    ensures RowsOf(Saved(table, name, items), n, e) == RowsOf(table, n, e)
  {
    DateOrderFacts(items);
    SaveDaysRows(table, name, items, DateOrder(items), n, e);
  }

  /** Saving the same items twice leaves every (restaurant, date) with the rows that saving once leaves. */
  lemma SavedIdempotent(table: seq<Row>, name: String, items: seq<Entry>, n: String, e: Date)
    ensures RowsOf(Saved(Saved(table, name, items), name, items), n, e) == RowsOf(Saved(table, name, items), n, e)
  {
    if n == name && HasDate(items, e) {
      SavedDay(Saved(table, name, items), name, items, e);
      SavedDay(table, name, items, e);
    } else {
      SavedOthers(Saved(table, name, items), name, items, n, e);
    }
  }

  /** One item more adds its date at the end when it is new. */
  lemma DateOrderSnoc(items: seq<Entry>, item: Entry)
    ensures DateOrder(items + [item])
      == if item.menuDate in DateOrder(items) then DateOrder(items) else DateOrder(items) + [item.menuDate]
  {
    assert (items + [item])[..|items|] == items;
  }

  /** The grouping loop of `save_to_db`: the dates in first-occurrence order and each date's items. */
  method GroupByDate(items: seq<Entry>) returns (order: seq<Date>, groups: map<Date, seq<Entry>>)
    ensures order == DateOrder(items)
    ensures forall d :: d in groups <==> d in order
    ensures forall d :: d in groups ==> groups[d] == Group(items, d)
  {
    order := [];
    groups := map[];
    var i := 0;
    while i < |items|
      invariant 0 <= i <= |items|
      invariant order == DateOrder(items[..i])
      invariant forall d :: d in groups <==> d in order
      invariant forall d :: d in groups ==> groups[d] == Group(items[..i], d)
    {
      var item := items[i];
      var d := item.menuDate;
      assert items[..i + 1] == items[..i] + [item];
      DateOrderSnoc(items[..i], item);
      if d !in groups {
        DateOrderFacts(items[..i]);
        GroupEmpty(items[..i], d);
        groups := groups[d := []];
        order := order + [d];
      }
      GroupsSnoc(groups, items[..i], item);
      groups := groups[d := groups[d] + [item]];
      i := i + 1;
    }
    assert items[..i] == items;
  }

  /** Appending an item to its date's group keeps every group equal to the filter of the longer list. */
  lemma GroupsSnoc(groups: map<Date, seq<Entry>>, items: seq<Entry>, item: Entry)
    requires item.menuDate in groups
    requires forall d :: d in groups ==> groups[d] == Group(items, d)
    ensures forall d :: d in groups ==> groups[item.menuDate := groups[item.menuDate] + [item]][d] == Group(items + [item], d)
  {
    forall d | d in groups
      ensures groups[item.menuDate := groups[item.menuDate] + [item]][d] == Group(items + [item], d)
    {
      FilterSnoc(IsOn(d), items, item);
    }
  }

  /** The store: the `restaurant` and `menu_item` tables. */
  class Database {
    var restaurants: map<String, RestaurantRow>
    var menuItems: seq<Row>

    function Current(): State
      reads this
    {
      State(restaurants, menuItems)
    }

    constructor ()
      ensures restaurants == map[] && menuItems == []
    {
      restaurants := map[];
      menuItems := [];
    }

    /** `save_to_db`: replaces, date by date, restaurant `name`'s rows with the given items. */
    method SaveToDb(name: String, url: String, items: seq<Entry>, now: int)
      modifies this
      ensures Current() == Save(old(Current()), name, url, items, now)
    {
      if items == [] {
        return;
      }
      var known := restaurants;
      if name !in restaurants {
        restaurants := restaurants[name := RestaurantRow(url, now)];
      }
      var order, groups := GroupByDate(items);
      ReplaceDates(name, items, order, groups);
      var stamped := RestaurantRow(restaurants[name].url, now);
      if name !in known {
        UpdateTwice(known, name, RestaurantRow(url, now), stamped);
      }
      restaurants := restaurants[name := stamped];
    }

    /** The loop over `items_by_date` of `save_to_db`. */
    method ReplaceDates(name: String, items: seq<Entry>, order: seq<Date>, groups: map<Date, seq<Entry>>)
      requires forall d :: d in groups <==> d in order
      requires forall d :: d in groups ==> groups[d] == Group(items, d)
      modifies this
      ensures menuItems == SaveDays(old(menuItems), name, items, order)
      ensures restaurants == old(restaurants)
    {
      var k := 0;
      while k < |order|
        invariant 0 <= k <= |order|
        invariant menuItems == SaveDays(old(menuItems), name, items, order[..k])
        invariant restaurants == old(restaurants)
      {
        var d := order[k];
        ReplaceDate(name, d, groups[d]);
        SaveDaysStep(old(menuItems), name, items, order, k);
        k := k + 1;
      }
      assert order[..k] == order;
    }

    /** One date of `save_to_db`: delete the restaurant's rows of that date if there are any, then add the new rows. */
    method ReplaceDate(name: String, d: Date, group: seq<Entry>)
      modifies this
      ensures menuItems == Without(old(menuItems), name, d) + NewRows(name, group)
      ensures restaurants == old(restaurants)
    {
      if RowsOf(menuItems, name, d) != [] {
        menuItems := Without(menuItems, name, d);
      } else {
        NothingToDelete(menuItems, name, d);
      }
      var j := 0;
      while j < |group|
        invariant 0 <= j <= |group|
        invariant menuItems == Without(old(menuItems), name, d) + NewRows(name, group[..j])
        invariant restaurants == old(restaurants)
      {
        NewRowsSnoc(name, group[..j], group[j]);
        assert group[..j + 1] == group[..j] + [group[j]];
        menuItems := menuItems + [NewRow(name, group[j])];
        j := j + 1;
      }
      assert group[..j] == group;
    }

    /** `cleanup_old_data`: deletes every row dated before the cutoff and returns how many went; 0 and no change when the cutoff date cannot be formed. */
    method CleanupOldData(today: Date, daysToKeep: int) returns (deleted: nat)
      requires Constructible(today)
      modifies this
      ensures restaurants == old(restaurants)
      ensures match Cutoff(today, daysToKeep)
        case None => menuItems == old(menuItems) && deleted == 0
        case Some(c) => menuItems == Kept(old(menuItems), c) && deleted == |old(menuItems)| - |menuItems|
    {
      var cutoff := Cutoff(today, daysToKeep);
      if cutoff.None? {
        return 0;
      }
      var kept := Kept(menuItems, cutoff.value);
      deleted := |menuItems| - |kept|;
      menuItems := kept;
    }
  }

  /** `date.today() - timedelta(days=days_to_keep)`, or None where Python raises `OverflowError`. */
  function Cutoff(today: Date, daysToKeep: int): (c: Option<Date>)
    requires ValidDate(today)
  {
    var c := AddDays(today, -daysToKeep);
    if Constructible(c) then Some(c) else None
  }

  /** The cutoff is `days_to_keep` days before today. */
  lemma CutoffDays(today: Date, daysToKeep: int)
    requires ValidDate(today) && Cutoff(today, daysToKeep).Some?
    ensures Ord(Cutoff(today, daysToKeep).value) == Ord(today) - daysToKeep
  {
  }

  function Recent(cutoff: Date): Row -> bool
  {
    (r: Row) => !Before(r.menuDate, cutoff)
  }

  function Old(cutoff: Date): Row -> bool
  {
    (r: Row) => Before(r.menuDate, cutoff)
  }

  /** The rows `MenuItem.menu_date < cutoff` does not select. */
  function Kept(table: seq<Row>, cutoff: Date): seq<Row>
  {
    Filter(Recent(cutoff), table)
  }

  /** Exactly the rows dated on or after the cutoff stay. */
  lemma KeptRows(table: seq<Row>, cutoff: Date)
    ensures forall i :: 0 <= i < |Kept(table, cutoff)| ==> !Before(Kept(table, cutoff)[i].menuDate, cutoff)
    ensures forall i :: 0 <= i < |table| && !Before(table[i].menuDate, cutoff) ==> table[i] in Kept(table, cutoff)
    ensures multiset(Kept(table, cutoff)) <= multiset(table)
  {
    FilterFacts(Recent(cutoff), table);
    FilterSubMultiset(Recent(cutoff), table);
  }

  /** The count returned is the number of rows dated strictly before the cutoff. */
  lemma DeletedCount(table: seq<Row>, cutoff: Date)
    ensures |table| - |Kept(table, cutoff)| == |Filter(Old(cutoff), table)|
  {
    FilterSplit(Old(cutoff), Recent(cutoff), table);
  }
}
