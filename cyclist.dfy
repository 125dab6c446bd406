/**
 * `app/scrapers/cyclist_scraper.py`: the Cyclist menu is not read at all;
 * `scrape` returns today's two dishes from a hard-coded week table.
 */
module Cyclist {
  import opened Wrappers
  import opened Dates
  import opened CyclistText

  /** `scrape`: today's table names as `Main Dish` items with no price, `None` when the day has none. */
  function Scrape(today: Date): (r: Option<seq<Item>>)
    requires ValidDate(today)
  {
    var items := ItemsOf(TableNames(today), today, "Main Dish");
    if items == [] then None else Some(items)
  }

  /** Every day of the week, including the weekend, gives exactly the table's two dishes, in table order. */
  lemma ScrapeTwoItems(today: Date)
    requires ValidDate(today)
    ensures Scrape(today).Some? && |Scrape(today).value| == 2
    ensures forall k :: 0 <= k < 2 ==>
      Scrape(today).value[k] == Item(today, "Main Dish", WeekMenu[Weekday(today)].1[k], "")
  {
    TableNamesOfDay(today);
  }
}
