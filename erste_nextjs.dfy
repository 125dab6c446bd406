/**
 * `erste_campus_nextjs_scraper.py`: the walk over the page's `__NEXT_DATA__`
 * JSON that collects menu items, the three menu shapes it recognises, the
 * day and item readers, and the field normalisers. The HTTP request, the
 * reading of the script tag, the API endpoints and the HTML fallback are
 * not part of this model.
 */
module ErsteNextjs {
  import opened Wrappers
  import opened Text
  import opened Dates
  import opened Menu
  import opened Keywords
  import opened Patterns
  import opened DateFormats
  import opened Seqs
  import ErsteSelenium
  import ErsteAdvanced

  // ---------------------------------------------------------------------
  // The JSON values `json.loads` returns

  /** A JSON value; numbers are integers, and an object keeps its keys in document order. */
  datatype Json =
    | JNull
    | JBool(b: bool)
    | JNum(n: int)
    | JStr(s: String)
    | JArr(elems: seq<Json>)
    | JObj(entries: seq<(String, Json)>)

  /** A date Python can hold, such as `date.today()`. */
  type Today = d: Date | Constructible(d) witness Date(2000, 1, 1)

  /**
   * What the scraper reads besides the JSON: `date.today()`,
   * `datetime.fromisoformat(...).date()` (`None` where it raises), and the
   * `str()` of a list or a dict.
   */
  datatype Context = Context(today: Today, fromIso: String -> Option<Date>, show: Json -> String)

  /** `obj[k]` for a key of the object: the value of its first entry with that key. */
  function Value(entries: seq<(String, Json)>, k: String): Option<Json>
  {
    if entries == [] then None
    else if entries[0].0 == k then Some(entries[0].1)
    else Value(entries[1..], k)
  }

  /** `k in obj` for an object. */
  predicate Has(entries: seq<(String, Json)>, k: String)
  {
    Value(entries, k).Some?
  }

  /** `k in x` for any value: a key of an object, an element of a list, a substring of a string; other values raise `TypeError`. */
  function In(k: String, x: Json): Result<bool>
  {
    match x
    case JObj(entries) => Ok(Has(entries, k))
    case JArr(elems) => Ok(JStr(k) in elems)
    case JStr(s) => Ok(Contains(s, k))
    case _ => Raised
  }

  /** `x[k] if k in x else None`: a list or a string that passes the test raises `TypeError` when indexed by a string. */
  function Lookup(x: Json, k: String): Result<Option<Json>>
  {
    match In(k, x)
    case Raised => Raised
    case Ok(found) =>
      if !found then Ok(None)
      else if x.JObj? then Ok(Value(x.entries, k))
      else Raised
  }

  /** `for key in keys: if key in x: ... x[key] ... break`: the value of the first key present, for any value. */
  function FirstPresent(x: Json, keys: seq<String>): Result<Option<Json>>
  {
    if keys == [] then Ok(None)
    else
      match Lookup(x, keys[0])
      case Raised => Raised
      case Ok(Some(v)) => Ok(Some(v))
      case Ok(None) => FirstPresent(x, keys[1..])
  }

  /** The same loop over an object: the value of the first key it has. */
  function FirstKey(entries: seq<(String, Json)>, keys: seq<String>): Option<Json>
  {
    match FirstIndex((k: String) => Has(entries, k), keys)
    case Some(i) => Value(entries, keys[i])
    case None => None
  }

  /** The value found is that of the first key present; nothing is found only when no key is present. */
  lemma FirstKeyFacts(entries: seq<(String, Json)>, keys: seq<String>)
    ensures FirstKey(entries, keys).None? <==> forall j :: 0 <= j < |keys| ==> !Has(entries, keys[j])
    ensures FirstKey(entries, keys).Some? ==>
      exists i :: 0 <= i < |keys| && FirstKey(entries, keys) == Value(entries, keys[i])
        && forall j :: 0 <= j < i ==> !Has(entries, keys[j])
  {
    var p := (k: String) => Has(entries, k);
    FirstIndexNone(p, keys);
    if FirstIndex(p, keys).Some? {
      FirstIndexFirst(p, keys);
    }
  }

  /** On an object the general loop never raises and finds what the object loop finds. */
  lemma {:induction false} FirstPresentObject(entries: seq<(String, Json)>, keys: seq<String>)
    ensures FirstPresent(JObj(entries), keys) == Ok(FirstKey(entries, keys))
    decreases |keys|
  {
    var p := (k: String) => Has(entries, k);
    if keys != [] {
      FirstPresentObject(entries, keys[1..]);
      if !Has(entries, keys[0]) {
        match FirstIndex(p, keys[1..])
        case Some(i) =>
          FirstIndexFirst(p, keys[1..]);
          FirstIndexIs(p, keys, i + 1);
        case None =>
          FirstIndexNone(p, keys[1..]);
          FirstIndexNone(p, keys);
      } else {
        FirstIndexIs(p, keys, 0);
      }
    }
  }

  /** Python's truth value of a JSON value. */
  predicate Falsy(v: Json)
  {
    v == JNull || v == JBool(false) || v == JNum(0) || v == JStr("") || v == JArr([]) || v == JObj([])
  }

  /** `str(v)`. */
  function Str(ctx: Context, v: Json): String
  {
    match v
    case JNull => "None"
    case JBool(b) => if b then "True" else "False"
    case JNum(n) => IntString(n)
    case JStr(s) => s
    case _ => ctx.show(v)
  }

  // ---------------------------------------------------------------------
  // _determine_category, _clean_description, _extract_price

  const CategoryTable: seq<(String, seq<String>)> := [
    ("Soup", ["suppe", "soup"]),
    ("Salad", ["salat", "salad"]),
    ("Vegetarian", ["vegetarisch", "vegetarian", "vegan"]),
    ("Dessert", ["dessert", "sweet", "kuchen", "obst"])
  ]

  /** The first category, in table order, with a keyword in the lower-cased text; `Main Dish` otherwise. */
  function DetermineCategory(text: String): String
  {
    Classify(Lower(text), CategoryTable, "Main Dish")
  }

  /** The category is one of the four table entries or `Main Dish`. */
  lemma CategoryAmong(text: String)
    ensures DetermineCategory(text) in ["Soup", "Salad", "Vegetarian", "Dessert", "Main Dish"]
  {
    ClassifyIn(Lower(text), CategoryTable, "Main Dish");
    assert Labels(CategoryTable, "Main Dish") == ["Soup", "Salad", "Vegetarian", "Dessert", "Main Dish"];
  }

  /** Vegetarian is tested before Dessert here: a vegan cake is vegetarian, where the advanced scraper calls it a dessert. */
  lemma VeganCakeIsVegetarian()
    ensures DetermineCategory("vegan kuchen") == "Vegetarian"
    ensures ErsteAdvanced.DetermineCategory("vegan kuchen") == "Dessert"
  {
    ErsteAdvanced.VeganCakeIsDessert();
    ErsteAdvanced.VeganCakeLower();
    VeganCakeClassified();
  }

  /** In `vegan kuchen` neither soup nor salad words occur, and `vegan` does. */
  lemma VeganCakeClassified()
    ensures Classify("vegan kuchen", CategoryTable, "Main Dish") == "Vegetarian"
  {
    var t := "vegan kuchen";
    assert !AnyIn(t, CategoryTable[0].1) by {
      NoneStartWith(t, CategoryTable[0].1, 's');
    }
    assert !AnyIn(t, CategoryTable[1].1) by {
      NoneStartWith(t, CategoryTable[1].1, 's');
    }
    assert AnyIn(t, CategoryTable[2].1) by {
      assert OccursAt(t, "vegan", 0);
      assert CategoryTable[2].1[2] == "vegan";
    }
    ClassifyFirst(t, CategoryTable, "Main Dish", 2);
  }

  /** The mojibake repairs, in order: `Ã¼`, `Ã¶`, `Ã¤`, `ÃŸ`, `Ã©` become ü, ö, ä, ß, é. */
  function RepairMojibake(t: String): String
  {
    Replace(Replace(Replace(Replace(Replace(t, "Ã¼", "ü"), "Ã¶", "ö"), "Ã¤", "ä"), "ÃŸ", "ß"), "Ã©", "é")
  }

  /**
   * `Menü:` with the whitespace after it and every `€` amount removed,
   * whitespace runs squeezed to one space, the mojibake repaired, the ends
   * stripped.
   */
  function CleanDescription(text: String): String
  {
    Strip(RepairMojibake(Squeeze(Remove(Remove(text, Label("Menü:")), Lead(["€"])))))
  }

  /** None of the repair patterns and replacements holds whitespace. */
  lemma RepairsSpaceFree()
    ensures SpaceFreeText("Ã¼") && SpaceFreeText("Ã¶") && SpaceFreeText("Ã¤") && SpaceFreeText("ÃŸ") && SpaceFreeText("Ã©")
    ensures SpaceFreeText("ü") && SpaceFreeText("ö") && SpaceFreeText("ä") && SpaceFreeText("ß") && SpaceFreeText("é")
  {
  }

  /** Repairing mojibake neither creates nor joins whitespace. */
  lemma RepairSqueezed(t: String)
    requires Squeezed(t)
    ensures Squeezed(RepairMojibake(t))
  {
    RepairsSpaceFree();
    var t1 := Replace(t, "Ã¼", "ü");
    ReplaceSqueezed(t, "Ã¼", "ü");
    var t2 := Replace(t1, "Ã¶", "ö");
    ReplaceSqueezed(t1, "Ã¶", "ö");
    var t3 := Replace(t2, "Ã¤", "ä");
    ReplaceSqueezed(t2, "Ã¤", "ä");
    var t4 := Replace(t3, "ÃŸ", "ß");
    ReplaceSqueezed(t3, "ÃŸ", "ß");
    ReplaceSqueezed(t4, "Ã©", "é");
  }

  /** The cleaned description has single spaces between words and none at its ends. */
  lemma CleanNormalized(text: String)
    ensures Normalized(CleanDescription(text))
  {
    var t := Squeeze(Remove(Remove(text, Label("Menü:")), Lead(["€"])));
    SqueezeFacts(Remove(Remove(text, Label("Menü:")), Lead(["€"])));
    RepairSqueezed(t);
    StripSqueezed(RepairMojibake(t));
  }

  /** `_extract_price` is the selenium scraper's: `€ ` and the group of `€\s*(\d+[,.]?\d*)`, or `""`. */
  function ExtractPrice(text: String): String
  {
    ErsteSelenium.ExtractPrice(text)
  }

  // ---------------------------------------------------------------------
  // _parse_date, _get_date_for_weekday

  /** `%Y-%m-%d`, `%d.%m.%Y`, `%d/%m/%Y`, `%B %d, %Y`, `%d %B %Y`, in the order tried. */
  const NextFormats: seq<seq<Directive>> := [IsoFormat, DotFormat, SlashFormat, NameDayFormat, DayNameFormat]

  /**
   * `None` for a falsy value; for a string, the first format that parses it,
   * else `fromisoformat` with `Z` read as `+00:00`, else `None`; any other
   * value raises `TypeError` in `strptime`.
   */
  function ParseDate(ctx: Context, v: Json): Result<Option<Date>>
  {
    if Falsy(v) then Ok(None)
    else
      match v
      case JStr(s) =>
        Ok(match FirstFormat(s, NextFormats)
          case Some(d) => Some(d)
          case None => ctx.fromIso(Replace(s, "Z", "+00:00")))
      case _ => Raised
  }

  /** Only a truthy value that is not a string raises. */
  lemma ParseDateRaises(ctx: Context, v: Json)
    ensures ParseDate(ctx, v).Raised? <==> !Falsy(v) && !v.JStr?
  {
  }

  /** A date written `%Y-%m-%d` is read back as itself by the first format. */
  lemma IsoParses(ctx: Context, d: Date)
    requires Constructible(d)
    ensures ParseDate(ctx, JStr(Render(d, IsoFormat))) == Ok(Some(d))
  {
    var r := Render(d, IsoFormat);
    assert Strptime(r, IsoFormat) == Some(d) by {
      FormatsComplete();
      StrptimeRoundTrip(d, IsoFormat);
    }
    assert r != [] by {
      RenderHead(d, IsoFormat);
    }
    assert FirstFormat(r, NextFormats) == Some(d);
  }

  /**
   * The day named by an English weekday, in any case, in today's
   * Monday-to-Sunday week, which may lie in the past; today for any other
   * text. Adding the `timedelta` raises `OverflowError` when the day lies
   * past `date.max`.
   */
  function GetDateForWeekday(today: Today, weekday: String): (r: Result<Date>)
    ensures r.Ok? ==> Constructible(r.value) && Ord(r.value) - Weekday(r.value) == Ord(today) - Weekday(today)
    ensures r.Raised? ==> Ord(today) - Weekday(today) + 6 > MaxOrdinal
  {
    match IndexOf(EnglishDayNames, Lower(weekday))
    case Some(k) => DayInWeek(today, k)
    case None => Ok(today)
  }

  /** The English weekday names are distinct. */
  lemma EnglishDaysDistinct()
    ensures forall i, j :: 0 <= i < j < |EnglishDayNames| ==> EnglishDayNames[i] != EnglishDayNames[j]
  {
  }

  /**
   * The English name at position `k` gives the day of today's week that
   * falls on weekday `k` (the name's position is unique), and raises exactly
   * when that day lies past `date.max`; any other text gives today.
   */
  lemma WeekdayDateFacts(today: Today, weekday: String)
    ensures var r := GetDateForWeekday(today, weekday);
      var found := IndexOf(EnglishDayNames, Lower(weekday));
      found.Some? ==>
        var k := found.value;
        && EnglishDayNames[k] == Lower(weekday)
        && (r.Ok? ==> Weekday(r.value) == k && Ord(r.value) - k == Ord(today) - Weekday(today))
        && (r.Raised? <==> Ord(today) - Weekday(today) + k > MaxOrdinal)
    ensures var r := GetDateForWeekday(today, weekday);
      IndexOf(EnglishDayNames, Lower(weekday)).None? ==> Lower(weekday) !in EnglishDayNames && r.Ok? && r.value == today
  {
    var found := IndexOf(EnglishDayNames, Lower(weekday));
    if found.Some? {
      assert GetDateForWeekday(today, weekday) == DayInWeek(today, found.value);
    }
  }

  /** Two positions holding the same weekday name are the same. */
  lemma DayIndexUnique(i: nat, k: nat)
    requires i < |EnglishDayNames| && k < |EnglishDayNames| && EnglishDayNames[i] == EnglishDayNames[k]
    ensures i == k
  {
    EnglishDaysDistinct();
  }

  // ---------------------------------------------------------------------
  // _parse_single_menu_item

  const DescriptionKeys: seq<String> := ["description", "name", "title", "meal", "dish", "text"]
  const CategoryKeys: seq<String> := ["category", "type", "mealType"]
  const PriceKeys: seq<String> := ["price", "cost", "preis"]

  /** `€ ` and two decimals for a number (a bool is 0 or 1), `_extract_price` of a string, `""` for anything else. */
  function PriceOf(v: Json): String
  {
    match v
    case JNum(n) => "€ " + IntString(n) + ".00"
    case JBool(b) => if b then "€ 1.00" else "€ 0.00"
    case JStr(s) => ExtractPrice(s)
    case _ => ""
  }

  /** A price is empty or `€ ` and a number: digits, with a point and two decimals for a JSON number. */
  lemma PriceShape(v: Json)
    ensures var r := PriceOf(v);
      r == "" || (|r| > 2 && r[..2] == "€ " && (v.JStr? ==> Number(r[2..])))
    ensures v.JNum? && v.n >= 0 ==> PriceOf(v)[2..] == NatString(v.n) + ".00"
  {
    match v
    case JStr(s) => ErsteSelenium.ExtractPriceShape(s);
    case JNum(n) =>
      var r := PriceOf(v);
      assert r[..2] == "€ ";
      if n >= 0 {
        assert r[2..] == NatString(n) + ".00";
      }
    case _ =>
  }

  /**
   * The item of a dict: its description from the first description key,
   * stripped, and none when there is no such key or it is shorter than five
   * characters; its category from the first category key, stripped, or
   * `Main Dish`; its price from the first price key alone, or `""`.
   */
  function ParseSingleMenuItem(ctx: Context, item: seq<(String, Json)>, date: Date): Option<MenuItem>
  {
    match FirstKey(item, DescriptionKeys)
    case None => None
    case Some(v) =>
      var description := Strip(Str(ctx, v));
      if |description| < 5 then None
      else
        var category := match FirstKey(item, CategoryKeys) case Some(c) => Strip(Str(ctx, c)) case None => "Main Dish";
        var price := match FirstKey(item, PriceKeys) case Some(p) => PriceOf(p) case None => "";
        Some(MenuItem(date, category, CleanDescription(description), Some(price)))
  }

  /** An item carries the date given and a normalised description. */
  lemma ItemDescriptionNormalized(ctx: Context, item: seq<(String, Json)>, date: Date)
    ensures var r := ParseSingleMenuItem(ctx, item, date);
      r.Some? ==> r.value.menuDate == date && Normalized(r.value.description)
  {
    if ParseSingleMenuItem(ctx, item, date).Some? {
      CleanNormalized(Strip(Str(ctx, FirstKey(item, DescriptionKeys).value)));
    }
  }

  /** An item's category is stripped text. */
  lemma ItemCategoryStripped(ctx: Context, item: seq<(String, Json)>, date: Date)
    ensures var r := ParseSingleMenuItem(ctx, item, date);
      r.Some? ==> Stripped(r.value.category)
  {
    if ParseSingleMenuItem(ctx, item, date).Some? {
      if FirstKey(item, CategoryKeys).None? {
        assert Stripped("Main Dish");
      }
    }
  }

  /** An item's price is present, and empty or starting with `€ `. */
  lemma ItemPriceShape(ctx: Context, item: seq<(String, Json)>, date: Date)
    ensures var r := ParseSingleMenuItem(ctx, item, date);
      r.Some? ==> r.value.price.Some? && (r.value.price.value == "" || StartsWith(r.value.price.value, "€ "))
  {
    if ParseSingleMenuItem(ctx, item, date).Some? {
      match FirstKey(item, PriceKeys)
      case Some(p) => PriceShape(p);
      case None =>
    }
  }

  /** Without any description key there is no item. */
  lemma NoDescriptionNoItem(ctx: Context, item: seq<(String, Json)>, date: Date)
    requires forall j :: 0 <= j < |DescriptionKeys| ==> !Has(item, DescriptionKeys[j])
    ensures ParseSingleMenuItem(ctx, item, date).None?
  {
    FirstKeyFacts(item, DescriptionKeys);
  }

  /** Without a category key the category is `Main Dish`. */
  lemma DefaultCategory(ctx: Context, item: seq<(String, Json)>, date: Date)
    requires forall j :: 0 <= j < |CategoryKeys| ==> !Has(item, CategoryKeys[j])
    requires ParseSingleMenuItem(ctx, item, date).Some?
    ensures ParseSingleMenuItem(ctx, item, date).value.category == "Main Dish"
  {
    FirstKeyFacts(item, CategoryKeys);
  }

  /** The first price key present alone decides the price, whatever the later keys hold. */
  lemma FirstPriceKeyDecides(ctx: Context, item: seq<(String, Json)>, date: Date, i: nat)
    requires i < |PriceKeys| && Has(item, PriceKeys[i])
    requires forall j :: 0 <= j < i ==> !Has(item, PriceKeys[j])
    requires ParseSingleMenuItem(ctx, item, date).Some?
    ensures ParseSingleMenuItem(ctx, item, date).value.price == Some(PriceOf(Value(item, PriceKeys[i]).value))
  {
    FirstIndexIs((k: String) => Has(item, k), PriceKeys, i);
  }

  // ---------------------------------------------------------------------
  // _extract_items_from_day_data

  /** A string longer than ten characters as an item: its category, its cleaned text and its price. */
  function TextItem(date: Date, s: String): MenuItem
  {
    MenuItem(date, DetermineCategory(s), CleanDescription(s), Some(ExtractPrice(s)))
  }

  /** The item, if any, as a list of at most one. */
  function AsSeq(r: Option<MenuItem>): seq<MenuItem>
  {
    match r
    case Some(it) => [it]
    case None => []
  }

  /** An element of a day's list: a long string is a text item, a dict a single item, anything else nothing. */
  function ListEntryItems(ctx: Context, date: Date, x: Json): seq<MenuItem>
  {
    match x
    case JStr(s) => if |s| > 10 then [TextItem(date, s)] else []
    case JObj(e) => AsSeq(ParseSingleMenuItem(ctx, e, date))
    case _ => []
  }

  /** An element of a list held under any key of a day's dict, read as `{'description': element}`. */
  function WrappedItems(ctx: Context, date: Date, x: Json): seq<MenuItem>
  {
    AsSeq(ParseSingleMenuItem(ctx, [("description", x)], date))
  }

  /** An entry of a day's dict: the wrapped elements of a list value, nothing for any other value. */
  function EntryItems(ctx: Context, date: Date, entry: (String, Json)): seq<MenuItem>
  {
    match entry.1
    case JArr(xs) => FlatMap((x: Json) => WrappedItems(ctx, date, x), xs)
    case _ => []
  }

  /** The items of a day's data: from each element of a list, or from every list value of a dict. */
  function DayDataItems(ctx: Context, dayData: Json, date: Date): seq<MenuItem>
  {
    match dayData
    case JArr(xs) => FlatMap((x: Json) => ListEntryItems(ctx, date, x), xs)
    case JObj(e) => FlatMap((en: (String, Json)) => EntryItems(ctx, date, en), e)
    case _ => []
  }

  /** Every item of a day's data carries the date given and a normalised description. */
  lemma DayDataItemsFacts(ctx: Context, dayData: Json, date: Date)
    ensures var items := DayDataItems(ctx, dayData, date);
      forall j :: 0 <= j < |items| ==> items[j].menuDate == date && Normalized(items[j].description)
  {
    var p := (it: MenuItem) => it.menuDate == date && Normalized(it.description);
    match dayData
    case JArr(xs) =>
      var f := (x: Json) => ListEntryItems(ctx, date, x);
      forall i, j | 0 <= i < |xs| && 0 <= j < |f(xs[i])| ensures p(f(xs[i])[j]) {
        match xs[i]
        case JStr(s) => CleanNormalized(s);
        case JObj(e) => ItemDescriptionNormalized(ctx, e, date);
        case _ =>
      }
      FlatMapAll(f, xs, p);
    case JObj(e) =>
      var g := (x: Json) => WrappedItems(ctx, date, x);
      var f := (en: (String, Json)) => EntryItems(ctx, date, en);
      forall i, j | 0 <= i < |e| && 0 <= j < |f(e[i])| ensures p(f(e[i])[j]) {
        if e[i].1.JArr? {
          var xs := e[i].1.elems;
          forall a, b | 0 <= a < |xs| && 0 <= b < |g(xs[a])| ensures p(g(xs[a])[b]) {
            ItemDescriptionNormalized(ctx, [("description", xs[a])], date);
          }
          FlatMapAll(g, xs, p);
        }
      }
      FlatMapAll(f, e, p);
    case _ =>
  }

  /** `_extract_items_from_day_data`: a list or a dict is read by its own loop, anything else gives nothing. */
  method ExtractItemsFromDayData(ctx: Context, dayData: Json, date: Date) returns (items: seq<MenuItem>)
    ensures items == DayDataItems(ctx, dayData, date)
  {
    match dayData {
      case JArr(xs) => items := ExtractFromList(ctx, xs, date);
      case JObj(e) => items := ExtractFromDict(ctx, e, date);
      case _ => items := [];
    }
  }

  /** The loop over a day's list: long strings and dicts become items. */
  method ExtractFromList(ctx: Context, xs: seq<Json>, date: Date) returns (items: seq<MenuItem>)
    ensures items == FlatMap((x: Json) => ListEntryItems(ctx, date, x), xs)
  {
    items := [];
    for i := 0 to |xs|
      invariant items == FlatMap((x: Json) => ListEntryItems(ctx, date, x), xs[..i])
    {
      FlatMapPrefix((x: Json) => ListEntryItems(ctx, date, x), xs, i);
      match xs[i] {
        case JStr(s) =>
          if |s| > 10 {
            items := items + [TextItem(date, s)];
          }
        case JObj(e) =>
          var parsed := ParseSingleMenuItem(ctx, e, date);
          if parsed.Some? {
            items := items + [parsed.value];
          }
        case _ =>
      }
    }
    assert xs[..|xs|] == xs;
  }

  /** The loop over a day's dict: the elements of every list value become items. */
  method ExtractFromDict(ctx: Context, e: seq<(String, Json)>, date: Date) returns (items: seq<MenuItem>)
    ensures items == FlatMap((en: (String, Json)) => EntryItems(ctx, date, en), e)
  {
    items := [];
    for i := 0 to |e|
      invariant items == FlatMap((en: (String, Json)) => EntryItems(ctx, date, en), e[..i])
    {
      FlatMapPrefix((en: (String, Json)) => EntryItems(ctx, date, en), e, i);
      if e[i].1.JArr? {
        var more := ExtractWrapped(ctx, e[i].1.elems, date);
        items := items + more;
      }
    }
    assert e[..|e|] == e;
  }

  /** The inner loop over one list value of a day's dict. */
  method ExtractWrapped(ctx: Context, xs: seq<Json>, date: Date) returns (items: seq<MenuItem>)
    ensures items == FlatMap((x: Json) => WrappedItems(ctx, date, x), xs)
  {
    items := [];
    for k := 0 to |xs|
      invariant items == FlatMap((x: Json) => WrappedItems(ctx, date, x), xs[..k])
    {
      FlatMapPrefix((x: Json) => WrappedItems(ctx, date, x), xs, k);
      var parsed := ParseSingleMenuItem(ctx, [("description", xs[k])], date);
      if parsed.Some? {
        items := items + [parsed.value];
      }
    }
    assert xs[..|xs|] == xs;
  }

  // ---------------------------------------------------------------------
  // _parse_day_data

  const ItemKeys: seq<String> := ["items", "meals", "menu", "dishes"]

  /**
   * The date of a day: from `date` when present (today when it does not
   * parse), else from the weekday under `day`, else today. A value that
   * `in` or indexing rejects raises, as does a non-string `day`.
   */
  function DayDate(ctx: Context, dayData: Json): Result<Date>
  {
    match Lookup(dayData, "date")
    case Raised => Raised
    case Ok(Some(v)) =>
      (match ParseDate(ctx, v)
       case Raised => Raised
       case Ok(d) => Ok(d.UnwrapOr(ctx.today)))
    case Ok(None) =>
      match Lookup(dayData, "day")
      case Raised => Raised
      case Ok(Some(JStr(w))) => GetDateForWeekday(ctx.today, w)
      case Ok(Some(_)) => Raised
      case Ok(None) => Ok(ctx.today)
  }

  /** An element of a day's item list: a dict is a single item, a string longer than ten characters a plain `Main Dish`. */
  function DayEntryItems(ctx: Context, date: Date, x: Json): seq<MenuItem>
  {
    match x
    case JObj(e) => AsSeq(ParseSingleMenuItem(ctx, e, date))
    case JStr(s) => if |s| > 10 then [MenuItem(date, "Main Dish", Strip(s), Some(""))] else []
    case _ => []
  }

  /** The items of a day: those of the list under the first items key present, all dated with the day's date. */
  function DayItems(ctx: Context, dayData: Json): Result<seq<MenuItem>>
  {
    match DayDate(ctx, dayData)
    case Raised => Raised
    case Ok(date) =>
      match FirstPresent(dayData, ItemKeys)
      case Raised => Raised
      case Ok(Some(JArr(xs))) => Ok(FlatMap((x: Json) => DayEntryItems(ctx, date, x), xs))
      case Ok(_) => Ok([])
  }

  /** Every item of a day carries the day's date, and plain items are stripped text longer than ten characters before stripping. */
  lemma DayItemsDated(ctx: Context, dayData: Json)
    ensures DayItems(ctx, dayData).Ok? ==> DayDate(ctx, dayData).Ok?
    ensures var r := DayItems(ctx, dayData);
      r.Ok? ==> forall j :: 0 <= j < |r.value| ==> r.value[j].menuDate == DayDate(ctx, dayData).value
  {
    var r := DayItems(ctx, dayData);
    if r.Ok? {
      var date := DayDate(ctx, dayData).value;
      if FirstPresent(dayData, ItemKeys).value.Some? && FirstPresent(dayData, ItemKeys).value.value.JArr? {
        var xs := FirstPresent(dayData, ItemKeys).value.value.elems;
        var f := (x: Json) => DayEntryItems(ctx, date, x);
        var p := (it: MenuItem) => it.menuDate == date;
        forall i, j | 0 <= i < |xs| && 0 <= j < |f(xs[i])| ensures p(f(xs[i])[j]) {
          if xs[i].JObj? {
            ItemDescriptionNormalized(ctx, xs[i].entries, date);
          }
        }
        FlatMapAll(f, xs, p);
      }
    }
  }

  /** A day given as a dict with neither `date` nor `day` never raises and is dated today. */
  lemma UndatedDayIsToday(ctx: Context, e: seq<(String, Json)>)
    requires !Has(e, "date") && !Has(e, "day")
    ensures DayItems(ctx, JObj(e)).Ok?
    ensures DayDate(ctx, JObj(e)).Ok? && DayDate(ctx, JObj(e)).value == ctx.today
  {
    FirstPresentObject(e, ItemKeys);
  }

  /** `_parse_day_data`: the date, the search for the items key, and the loop over its list. */
  method ParseDayData(ctx: Context, dayData: Json) returns (r: Result<seq<MenuItem>>)
    ensures r == DayItems(ctx, dayData)
  {
    var menuDate := DayDate(ctx, dayData);
    if menuDate.Raised? {
      return Raised;
    }
    var date := menuDate.value;
    var found := FirstPresent(dayData, ItemKeys);
    if found.Raised? {
      return Raised;
    }
    var items: seq<MenuItem> := [];
    if found.value.Some? && found.value.value.JArr? {
      items := ParseDayEntries(ctx, found.value.value.elems, date);
    }
    r := Ok(items);
  }

  /** The loop of `_parse_day_data` over the day's item list. */
  method ParseDayEntries(ctx: Context, xs: seq<Json>, date: Date) returns (items: seq<MenuItem>)
    ensures items == FlatMap((x: Json) => DayEntryItems(ctx, date, x), xs)
  {
    items := [];
    for i := 0 to |xs|
      invariant items == FlatMap((x: Json) => DayEntryItems(ctx, date, x), xs[..i])
    {
      FlatMapPrefix((x: Json) => DayEntryItems(ctx, date, x), xs, i);
      match xs[i] {
        case JObj(e) =>
          var parsed := ParseSingleMenuItem(ctx, e, date);
          if parsed.Some? {
            items := items + [parsed.value];
          }
        case JStr(s) =>
          if |s| > 10 {
            items := items + [MenuItem(date, "Main Dish", Strip(s), Some(""))];
          }
        case _ =>
      }
    }
    assert xs[..|xs|] == xs;
  }

  // ---------------------------------------------------------------------
  // _parse_menu_item

  /** A dict with `date` or `day` is a day; another dict a single item of today; a long string a text item of today. */
  function MenuItemItems(ctx: Context, item: Json): Result<seq<MenuItem>>
  {
    match item
    case JObj(e) =>
      if Has(e, "date") || Has(e, "day") then DayItems(ctx, item)
      else Ok(AsSeq(ParseSingleMenuItem(ctx, e, ctx.today)))
    case JStr(s) => Ok(if |s| > 10 then [TextItem(ctx.today, s)] else [])
    case _ => Ok([])
  }

  /** `_parse_menu_item`. */
  method ParseMenuItem(ctx: Context, item: Json) returns (r: Result<seq<MenuItem>>)
    ensures r == MenuItemItems(ctx, item)
  {
    match item {
      case JObj(e) =>
        if Has(e, "date") || Has(e, "day") {
          r := ParseDayData(ctx, item);
        } else {
          r := Ok(AsSeq(ParseSingleMenuItem(ctx, e, ctx.today)));
        }
      case JStr(s) =>
        r := Ok(if |s| > 10 then [TextItem(ctx.today, s)] else []);
      case _ =>
        r := Ok([]);
    }
  }

  // ---------------------------------------------------------------------
  // _parse_menu_structure

  /** The keys tried for a weekday: `[day, day.capitalize(), day[:3]]`. */
  function DayKeys(day: String): seq<String>
  {
    [day, Capitalize(day), if |day| <= 3 then day else day[..3]]
  }

  /** The items under one key of a weekly menu, dated with its weekday of this week; computing that date may raise. */
  function WeekKeyItems(ctx: Context, data: seq<(String, Json)>, day: String, key: String): Result<seq<MenuItem>>
  {
    match Value(data, key)
    case Some(v) =>
      (match GetDateForWeekday(ctx.today, day)
       case Raised => Raised
       case Ok(d) => Ok(DayDataItems(ctx, v, d)))
    case None => Ok([])
  }

  /** The items under the keys of one weekday; the first key that raises makes the whole raise. */
  function WeekdayItems(ctx: Context, data: seq<(String, Json)>, day: String): Result<seq<MenuItem>>
  {
    FlatMapResult((key: String) => WeekKeyItems(ctx, data, day, key), DayKeys(day))
  }

  /** The items of a weekly menu, Monday to Sunday; the first weekday that raises makes the whole raise. */
  function WeekItems(ctx: Context, data: seq<(String, Json)>): Result<seq<MenuItem>>
  {
    FlatMapResult((day: String) => WeekdayItems(ctx, data, day), EnglishDayNames)
  }

  /** The items of a list of days; the first day that raises makes the whole raise. */
  function DaysItems(ctx: Context, ds: seq<Json>): Result<seq<MenuItem>>
  {
    FlatMapResult((d: Json) => DayItems(ctx, d), ds)
  }

  /** The items of a direct item list; the first entry that raises makes the whole raise. */
  function DirectItems(ctx: Context, xs: seq<Json>): Result<seq<MenuItem>>
  {
    FlatMapResult((x: Json) => MenuItemItems(ctx, x), xs)
  }

  /** The key of the direct item list: `items`, else `meals`, else `menu`. */
  function DirectKey(data: seq<(String, Json)>): String
  {
    if Has(data, "items") then "items" else if Has(data, "meals") then "meals" else "menu"
  }

  /**
   * The items of a menu dict, by the first shape it has: a weekly menu
   * keyed by weekday names; a `days` list of days; a direct item list under
   * `items`, `meals` or `menu`.
   */
  function StructureItems(ctx: Context, data: seq<(String, Json)>): Result<seq<MenuItem>>
  {
    if Has(data, "monday") || Has(data, "Monday") || Has(data, "mon") then
      WeekItems(ctx, data)
    else if Has(data, "days") && Value(data, "days").value.JArr? then
      DaysItems(ctx, Value(data, "days").value.elems)
    else if Has(data, "items") || Has(data, "meals") || Has(data, "menu") then
      match Value(data, DirectKey(data))
      case Some(JArr(xs)) => DirectItems(ctx, xs)
      case _ => Ok([])
    else Ok([])
  }

  /**
   * The keys of a weekday raise exactly when one of them is present and the
   * weekday's date raises; otherwise every item is dated within today's week
   * and carries a normalised description.
   */
  lemma WeekdayInThisWeek(ctx: Context, data: seq<(String, Json)>, day: String)
    ensures WeekdayItems(ctx, data, day).Raised? <==>
      GetDateForWeekday(ctx.today, day).Raised? && exists k :: 0 <= k < |DayKeys(day)| && Has(data, DayKeys(day)[k])
    ensures var r := WeekdayItems(ctx, data, day);
      r.Ok? ==> forall j :: 0 <= j < |r.value| ==> InThisWeek(ctx, r.value[j])
  {
    var f := (key: String) => WeekKeyItems(ctx, data, day, key);
    var keys := DayKeys(day);
    var date := GetDateForWeekday(ctx.today, day);
    forall i, j | 0 <= i < |keys| && f(keys[i]).Ok? && 0 <= j < |f(keys[i]).value|
      ensures InThisWeek(ctx, f(keys[i]).value[j])
    {
      if Has(data, keys[i]) {
        DayDataItemsFacts(ctx, Value(data, keys[i]).value, date.value);
      }
    }
    FlatMapResultAll(f, keys, (it: MenuItem) => InThisWeek(ctx, it));
    FlatMapResultRaisedIff(f, keys);
  }

  /** An item dated within today's Monday-to-Sunday week, with a normalised description. */
  predicate InThisWeek(ctx: Context, it: MenuItem)
  {
    ValidDate(it.menuDate)
    && Ord(it.menuDate) - Weekday(it.menuDate) == Ord(ctx.today) - Weekday(ctx.today)
    && Normalized(it.description)
  }

  /**
   * A weekly menu raises exactly when some weekday raises, which happens only
   * when today's week runs past `date.max`; otherwise each of its items is
   * dated within today's Monday-to-Sunday week and carries a normalised
   * description.
   */
  lemma WeeklyInThisWeek(ctx: Context, data: seq<(String, Json)>)
    ensures WeekItems(ctx, data).Raised? <==>
      exists i :: 0 <= i < |EnglishDayNames| && WeekdayItems(ctx, data, EnglishDayNames[i]).Raised?
    ensures WeekItems(ctx, data).Raised? ==> Ord(ctx.today) - Weekday(ctx.today) + 6 > MaxOrdinal
    ensures var r := WeekItems(ctx, data);
      r.Ok? ==> forall j :: 0 <= j < |r.value| ==> InThisWeek(ctx, r.value[j])
  {
    var f := (day: String) => WeekdayItems(ctx, data, day);
    forall i | 0 <= i < |EnglishDayNames|
      ensures f(EnglishDayNames[i]).Ok? ==> forall j :: 0 <= j < |f(EnglishDayNames[i]).value| ==> InThisWeek(ctx, f(EnglishDayNames[i]).value[j])
      ensures f(EnglishDayNames[i]).Raised? ==> Ord(ctx.today) - Weekday(ctx.today) + 6 > MaxOrdinal
    {
      WeekdayInThisWeek(ctx, data, EnglishDayNames[i]);
    }
    FlatMapResultAll(f, EnglishDayNames, (it: MenuItem) => InThisWeek(ctx, it));
    FlatMapResultRaisedIff(f, EnglishDayNames);
  }

  /** On `date.max`, a Friday, a weekly menu with a `sunday` key raises `OverflowError`. */
  lemma WeeklyOverflow(ctx: Context)
    requires ctx.today == MaxDate
    ensures WeekItems(ctx, [("sunday", JArr([]))]).Raised?
  {
    var data := [("sunday", JArr([]))];
    MaxDateFacts();
    assert Lower("sunday") == "sunday";
    assert IndexOf(EnglishDayNames, "sunday") == Some(6) by {
      var r := IndexOf(EnglishDayNames, "sunday");
      assert "sunday" in EnglishDayNames by {
        assert EnglishDayNames[6] == "sunday";
      }
      DayIndexUnique(r.value, 6);
    }
    ShiftedInRange(MaxDate, 2);
    assert GetDateForWeekday(ctx.today, "sunday").Raised?;
    assert Has(data, DayKeys("sunday")[0]);
    WeekdayInThisWeek(ctx, data, "sunday");
    assert EnglishDayNames[6] == "sunday";
    WeeklyInThisWeek(ctx, data);
  }

  /** `_parse_menu_structure`: the first shape the dict has decides which loop reads it. */
  method ParseMenuStructure(ctx: Context, data: seq<(String, Json)>) returns (r: Result<seq<MenuItem>>)
    ensures r == StructureItems(ctx, data)
  {
    if Has(data, "monday") || Has(data, "Monday") || Has(data, "mon") {
      r := ParseWeekly(ctx, data);
    } else if Has(data, "days") && Value(data, "days").value.JArr? {
      r := ParseDays(ctx, Value(data, "days").value.elems);
    } else if Has(data, "items") || Has(data, "meals") || Has(data, "menu") {
      var key := DirectKey(data);
      if Value(data, key).value.JArr? {
        r := ParseDirect(ctx, Value(data, key).value.elems);
      } else {
        r := Ok([]);
      }
    } else {
      r := Ok([]);
    }
  }

  /** The weekly loops of `_parse_menu_structure`: every weekday, Monday to Sunday, until one raises. */
  method ParseWeekly(ctx: Context, data: seq<(String, Json)>) returns (r: Result<seq<MenuItem>>)
    ensures r == WeekItems(ctx, data)
  {
    var f := (day: String) => WeekdayItems(ctx, data, day);
    var items: seq<MenuItem> := [];
    for d := 0 to |EnglishDayNames|
      invariant FlatMapResult(f, EnglishDayNames[..d]) == Ok(items)
    {
      FlatMapResultPrefix(f, EnglishDayNames, d);
      var more := ParseWeekday(ctx, data, EnglishDayNames[d]);
      if more.Raised? {
        FlatMapResultRaised(f, EnglishDayNames, d + 1, |EnglishDayNames|);
        assert EnglishDayNames[..|EnglishDayNames|] == EnglishDayNames;
        return Raised;
      }
      items := items + more.value;
    }
    assert EnglishDayNames[..|EnglishDayNames|] == EnglishDayNames;
    r := Ok(items);
  }

  /** The inner weekly loop: every key tried for one weekday, until the weekday's date raises. */
  method ParseWeekday(ctx: Context, data: seq<(String, Json)>, day: String) returns (r: Result<seq<MenuItem>>)
    ensures r == WeekdayItems(ctx, data, day)
  {
    var f := (key: String) => WeekKeyItems(ctx, data, day, key);
    var items: seq<MenuItem> := [];
    var keys := DayKeys(day);
    for k := 0 to |keys|
      invariant FlatMapResult(f, keys[..k]) == Ok(items)
    {
      FlatMapResultPrefix(f, keys, k);
      if Has(data, keys[k]) {
        var menuDate := GetDateForWeekday(ctx.today, day);
        if menuDate.Raised? {
          FlatMapResultRaised(f, keys, k + 1, |keys|);
          assert keys[..|keys|] == keys;
          return Raised;
        }
        var more := ExtractItemsFromDayData(ctx, Value(data, keys[k]).value, menuDate.value);
        assert f(keys[k]) == Ok(more);
        assert FlatMapResult(f, keys[..k + 1]) == Ok(items + more);
        items := items + more;
      } else {
        assert f(keys[k]) == Ok([]);
        assert FlatMapResult(f, keys[..k + 1]) == Ok(items + []);
        assert items + [] == items;
      }
    }
    assert keys[..|keys|] == keys;
    r := Ok(items);
  }

  /** The loop over a `days` list of `_parse_menu_structure`. */
  method ParseDays(ctx: Context, ds: seq<Json>) returns (r: Result<seq<MenuItem>>)
    ensures r == DaysItems(ctx, ds)
  {
    var items: seq<MenuItem> := [];
    for i := 0 to |ds|
      invariant FlatMapResult((d: Json) => DayItems(ctx, d), ds[..i]) == Ok(items)
    {
      FlatMapResultPrefix((d: Json) => DayItems(ctx, d), ds, i);
      var parsed := ParseDayData(ctx, ds[i]);
      if parsed.Raised? {
        FlatMapResultRaised((d: Json) => DayItems(ctx, d), ds, i + 1, |ds|);
        assert ds[..|ds|] == ds;
        return Raised;
      }
      items := items + parsed.value;
    }
    assert ds[..|ds|] == ds;
    r := Ok(items);
  }

  /** The loop over a direct item list of `_parse_menu_structure`. */
  method ParseDirect(ctx: Context, xs: seq<Json>) returns (r: Result<seq<MenuItem>>)
    ensures r == DirectItems(ctx, xs)
  {
    var items: seq<MenuItem> := [];
    for i := 0 to |xs|
      invariant FlatMapResult((x: Json) => MenuItemItems(ctx, x), xs[..i]) == Ok(items)
    {
      FlatMapResultPrefix((x: Json) => MenuItemItems(ctx, x), xs, i);
      var parsed := ParseMenuItem(ctx, xs[i]);
      if parsed.Raised? {
        FlatMapResultRaised((x: Json) => MenuItemItems(ctx, x), xs, i + 1, |xs|);
        assert xs[..|xs|] == xs;
        return Raised;
      }
      items := items + parsed.value;
    }
    assert xs[..|xs|] == xs;
    r := Ok(items);
  }

  // ---------------------------------------------------------------------
  // _search_for_menu_data

  /** Next.js internals the search does not enter. */
  const Skipped: seq<String> := ["_app", "__N_SSG", "buildId"]

  /** An entry the search enters. */
  predicate Kept(entry: (String, Json))
  {
    entry.0 !in Skipped
  }

  /** A dict that looks like a menu: `date` and `description`, or `day` and `menu`, or `meals`. */
  predicate LooksLikeMenu(data: seq<(String, Json)>)
  {
    (Has(data, "date") && Has(data, "description")) || (Has(data, "day") && Has(data, "menu")) || Has(data, "meals")
  }

  /** How a dict that looks like a menu is read: `_parse_menu_structure`, or the exception it raises. */
  type Parse = seq<(String, Json)> -> Result<seq<MenuItem>>

  /** The structure reader the scraper uses. */
  function Structure(ctx: Context): Parse
  {
    (e: seq<(String, Json)>) => StructureItems(ctx, e)
  }

  /**
   * The accumulator after searching `obj` at `depth`, and whether the search
   * finished without raising. Nothing below depth 10 is looked at; a dict
   * that looks like a menu adds its structure's items, then every entry but
   * the skipped ones is searched one level deeper, as is every element of a
   * list. A structure that raises ends the whole search, keeping what was
   * added before.
   */
  function Found(parse: Parse, obj: Json, depth: nat, acc: seq<MenuItem>): (seq<MenuItem>, bool)
    decreases obj, 1, 0
  {
    if depth > 10 then (acc, true)
    else
      match obj
      case JObj(e) =>
        if LooksLikeMenu(e) then
          match parse(e)
          case Raised => (acc, false)
          case Ok(items) => FoundEntries(parse, e, |e|, depth, acc + items)
        else FoundEntries(parse, e, |e|, depth, acc)
      case JArr(xs) => FoundElems(parse, xs, |xs|, depth, acc)
      case _ => (acc, true)
  }

  /** The search through the first `n` entries of a dict. */
  function FoundEntries(parse: Parse, e: seq<(String, Json)>, n: nat, depth: nat, acc: seq<MenuItem>): (seq<MenuItem>, bool)
    requires n <= |e|
    decreases JObj(e), 0, n
  {
    if n == 0 then (acc, true)
    else
      var (a, ok) := FoundEntries(parse, e, n - 1, depth, acc);
      if !ok || !Kept(e[n - 1]) then (a, ok)
      else Found(parse, e[n - 1].1, depth + 1, a)
  }

  /** The search through the first `n` elements of a list. */
  function FoundElems(parse: Parse, xs: seq<Json>, n: nat, depth: nat, acc: seq<MenuItem>): (seq<MenuItem>, bool)
    requires n <= |xs|
    decreases JArr(xs), 0, n
  {
    if n == 0 then (acc, true)
    else
      var (a, ok) := FoundElems(parse, xs, n - 1, depth, acc);
      if !ok then (a, ok)
      else Found(parse, xs[n - 1], depth + 1, a)
  }

  /** `r` is `acc` with items appended. */
  predicate Extends(acc: seq<MenuItem>, r: seq<MenuItem>)
  {
    |acc| <= |r| && r[..|acc|] == acc
  }

  lemma ExtendsTrans(a: seq<MenuItem>, b: seq<MenuItem>, c: seq<MenuItem>)
    requires Extends(a, b) && Extends(b, c)
    ensures Extends(a, c)
  {
    assert c[..|a|] == c[..|b|][..|a|];
  }

  /** The search only appends: what was accumulated before is kept, in place. */
  lemma {:induction false} FoundGrows(parse: Parse, obj: Json, depth: nat, acc: seq<MenuItem>)
    ensures Extends(acc, Found(parse, obj, depth, acc).0)
    decreases obj, 1, 0
  {
    if depth <= 10 {
      match obj
      case JObj(e) =>
        if LooksLikeMenu(e) && parse(e).Ok? {
          var a := acc + parse(e).value;
          assert a[..|acc|] == acc;
          EntriesGrow(parse, e, |e|, depth, a);
          ExtendsTrans(acc, a, Found(parse, obj, depth, acc).0);
        } else if !LooksLikeMenu(e) {
          EntriesGrow(parse, e, |e|, depth, acc);
        }
      case JArr(xs) => ElemsGrow(parse, xs, |xs|, depth, acc);
      case _ =>
    }
  }

  lemma {:induction false} EntriesGrow(parse: Parse, e: seq<(String, Json)>, n: nat, depth: nat, acc: seq<MenuItem>)
    requires n <= |e|
    ensures Extends(acc, FoundEntries(parse, e, n, depth, acc).0)
    decreases JObj(e), 0, n
  {
    if n > 0 {
      EntriesGrow(parse, e, n - 1, depth, acc);
      var (a, ok) := FoundEntries(parse, e, n - 1, depth, acc);
      if ok && Kept(e[n - 1]) {
        FoundGrows(parse, e[n - 1].1, depth + 1, a);
        ExtendsTrans(acc, a, FoundEntries(parse, e, n, depth, acc).0);
      }
    }
  }

  lemma {:induction false} ElemsGrow(parse: Parse, xs: seq<Json>, n: nat, depth: nat, acc: seq<MenuItem>)
    requires n <= |xs|
    ensures Extends(acc, FoundElems(parse, xs, n, depth, acc).0)
    decreases JArr(xs), 0, n
  {
    if n > 0 {
      ElemsGrow(parse, xs, n - 1, depth, acc);
      var (a, ok) := FoundElems(parse, xs, n - 1, depth, acc);
      if ok {
        FoundGrows(parse, xs[n - 1], depth + 1, a);
        ExtendsTrans(acc, a, FoundElems(parse, xs, n, depth, acc).0);
      }
    }
  }

  /** What a dict or list at depth 10 adds: its own structure's items, none of its children's. */
  function OwnItems(parse: Parse, obj: Json, acc: seq<MenuItem>): (seq<MenuItem>, bool)
  {
    match obj
    case JObj(e) =>
      if LooksLikeMenu(e) then
        (match parse(e)
         case Raised => (acc, false)
         case Ok(items) => (acc + items, true))
      else (acc, true)
    case _ => (acc, true)
  }

  /** The search never descends past depth 10: at depth 10 the children of a dict or list add nothing. */
  lemma DepthLimit(parse: Parse, obj: Json, acc: seq<MenuItem>)
    ensures Found(parse, obj, 10, acc) == OwnItems(parse, obj, acc)
  {
    match obj
    case JObj(e) =>
      if LooksLikeMenu(e) && parse(e).Ok? {
        EntriesPastLimit(parse, e, |e|, acc + parse(e).value);
      } else if !LooksLikeMenu(e) {
        EntriesPastLimit(parse, e, |e|, acc);
      }
    case JArr(xs) => ElemsPastLimit(parse, xs, |xs|, acc);
    case _ =>
  }

  lemma {:induction false} EntriesPastLimit(parse: Parse, e: seq<(String, Json)>, n: nat, acc: seq<MenuItem>)
    requires n <= |e|
    ensures FoundEntries(parse, e, n, 10, acc) == (acc, true)
  {
    if n > 0 {
      EntriesPastLimit(parse, e, n - 1, acc);
    }
  }

  lemma {:induction false} ElemsPastLimit(parse: Parse, xs: seq<Json>, n: nat, acc: seq<MenuItem>)
    requires n <= |xs|
    ensures FoundElems(parse, xs, n, 10, acc) == (acc, true)
  {
    if n > 0 {
      ElemsPastLimit(parse, xs, n - 1, acc);
    }
  }

  /** The search through a dict's entries depends only on the entries searched. */
  lemma {:induction false} EntriesPrefix(parse: Parse, e: seq<(String, Json)>, e': seq<(String, Json)>, n: nat, depth: nat, acc: seq<MenuItem>)
    requires n <= |e| && n <= |e'| && e[..n] == e'[..n]
    ensures FoundEntries(parse, e, n, depth, acc) == FoundEntries(parse, e', n, depth, acc)
  {
    if n > 0 {
      assert e[..n - 1] == e'[..n - 1] by {
        assert e[..n - 1] == e[..n][..n - 1] && e'[..n - 1] == e'[..n][..n - 1];
      }
      EntriesPrefix(parse, e, e', n - 1, depth, acc);
      assert e[n - 1] == e[..n][n - 1] == e'[n - 1];
    }
  }

  /** Searching a dict's entries is searching its kept entries alone: `_app`, `__N_SSG` and `buildId` are never entered. */
  lemma {:induction false} SkipsInternals(parse: Parse, e: seq<(String, Json)>, n: nat, depth: nat, acc: seq<MenuItem>)
    requires n <= |e|
    ensures var kept := Filter(Kept, e[..n]);
      FoundEntries(parse, e, n, depth, acc) == FoundEntries(parse, kept, |kept|, depth, acc)
  {
    if n > 0 {
      var x := e[n - 1];
      SkipsInternals(parse, e, n - 1, depth, acc);
      assert e[..n] == e[..n - 1] + [x];
      FilterSnoc(Kept, e[..n - 1], x);
      var k := Filter(Kept, e[..n - 1]);
      if !Kept(x) {
        assert Filter(Kept, e[..n]) == k + [] == k;
      } else {
        var k' := k + [x];
        assert k'[..|k|] == k[..|k|];
        EntriesPrefix(parse, k', k, |k|, depth, acc);
        assert k'[|k'| - 1] == x && |k'| - 1 == |k|;
      }
    }
  }

  /** The search over a whole dict at one level skips the Next.js internals. */
  lemma SearchSkipsInternals(parse: Parse, e: seq<(String, Json)>, depth: nat, acc: seq<MenuItem>)
    ensures var kept := Filter(Kept, e);
      FoundEntries(parse, e, |e|, depth, acc) == FoundEntries(parse, kept, |kept|, depth, acc)
  {
    SkipsInternals(parse, e, |e|, depth, acc);
    assert e[..|e|] == e;
  }

  /** Once the search through a dict's entries has raised, the later entries change nothing. */
  lemma {:induction false} EntriesStop(parse: Parse, e: seq<(String, Json)>, i: nat, n: nat, depth: nat, acc: seq<MenuItem>)
    requires i <= n <= |e| && !FoundEntries(parse, e, i, depth, acc).1
    ensures FoundEntries(parse, e, n, depth, acc) == FoundEntries(parse, e, i, depth, acc)
    decreases n - i
  {
    if i < n {
      EntriesStop(parse, e, i, n - 1, depth, acc);
    }
  }

  /** Once the search through a list has raised, the later elements change nothing. */
  lemma {:induction false} ElemsStop(parse: Parse, xs: seq<Json>, i: nat, n: nat, depth: nat, acc: seq<MenuItem>)
    requires i <= n <= |xs| && !FoundElems(parse, xs, i, depth, acc).1
    ensures FoundElems(parse, xs, n, depth, acc) == FoundElems(parse, xs, i, depth, acc)
    decreases n - i
  {
    if i < n {
      ElemsStop(parse, xs, i, n - 1, depth, acc);
    }
  }

  /** The `menu_items` list the search appends to. */
  class MenuSearch {
    var menuItems: seq<MenuItem>

    constructor ()
      ensures menuItems == []
    {
      menuItems := [];
    }

    /**
     * `_search_for_menu_data(obj, menu_items, depth)`; `ok` is false when a
     * call raised, which ends the search with the items appended so far.
     */
    method SearchForMenuData(ctx: Context, obj: Json, depth: nat) returns (ok: bool)
      modifies this
      ensures (menuItems, ok) == Found(Structure(ctx), obj, depth, old(menuItems))
      decreases obj, 1
    {
      if depth > 10 {
        return true;
      }
      match obj {
        case JObj(e) =>
          if LooksLikeMenu(e) {
            var extracted := ParseMenuStructure(ctx, e);
            if extracted.Raised? {
              return false;
            }
            menuItems := menuItems + extracted.value;
          }
          ok := SearchEntries(ctx, e, depth);
        case JArr(xs) =>
          ok := SearchElems(ctx, xs, depth);
        case _ =>
          ok := true;
      }
    }

    /** The loop over a dict's entries, skipping the Next.js internals. */
    method SearchEntries(ctx: Context, e: seq<(String, Json)>, depth: nat) returns (ok: bool)
      requires depth <= 10
      modifies this
      ensures (menuItems, ok) == FoundEntries(Structure(ctx), e, |e|, depth, old(menuItems))
      decreases JObj(e), 0
    {
      for i := 0 to |e|
        invariant (menuItems, true) == FoundEntries(Structure(ctx), e, i, depth, old(menuItems))
      {
        if Kept(e[i]) {
          ok := SearchForMenuData(ctx, e[i].1, depth + 1);
          if !ok {
            EntriesStop(Structure(ctx), e, i + 1, |e|, depth, old(menuItems));
            return;
          }
        }
      }
      ok := true;
    }

    /** The loop over a list's elements. */
    method SearchElems(ctx: Context, xs: seq<Json>, depth: nat) returns (ok: bool)
      requires depth <= 10
      modifies this
      ensures (menuItems, ok) == FoundElems(Structure(ctx), xs, |xs|, depth, old(menuItems))
      decreases JArr(xs), 0
    {
      for i := 0 to |xs|
        invariant (menuItems, true) == FoundElems(Structure(ctx), xs, i, depth, old(menuItems))
      {
        ok := SearchForMenuData(ctx, xs[i], depth + 1);
        if !ok {
          ElemsStop(Structure(ctx), xs, i + 1, |xs|, depth, old(menuItems));
          return;
        }
      }
      ok := true;
    }
  }
}
