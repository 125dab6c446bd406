/**
 * The menu item every scraper of the `app/scrapers` package returns:
 * `{'menu_date', 'category', 'description', 'price'}`, where the price is
 * `None` for some scrapers.
 */
module Menu {
  import opened Wrappers
  import opened Dates
  import opened Text

  datatype MenuItem = MenuItem(menuDate: Date, category: String, description: String, price: Option<String>)
}
