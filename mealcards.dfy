/**
 * The `div.meal-card` markup that `app/scrapers/cafegeorge_scraper.py` and
 * `app/scrapers/fouroh4_scraper.py` both read, and the fields both compute
 * the same way: the title, the text with its line breaks, the price span
 * and the header.
 *
 * `get_text(strip=True)` strips every text node, drops the empty ones and
 * concatenates the rest with no separator. The text element is therefore
 * kept as its sequence of text nodes and `<br>`s; after `replace_with(' | ')`
 * a `<br>` is a text node ` | `, which stripping turns into `|`.
 */
module MealCards {
  import opened Wrappers
  import opened Text
  import opened Dates
  import opened Menu
  import opened Seqs

  /** A node of the `meal-card-text` element: a text node or a `<br>`. */
  datatype Node = Chars(s: String) | Br

  /** A `meal-card-price` element: the stripped text of its `span`, if it has one. */
  datatype PriceBox = PriceBox(span: Option<String>)

  /**
   * A card: the stripped texts of its title and header elements when present,
   * the nodes of its text element when present, its price element when
   * present, and its `data-category` attribute when present.
   */
  datatype Card = Card(title: Option<String>, text: Option<seq<Node>>, price: Option<PriceBox>,
                       header: Option<String>, dataCategory: Option<String>)

  /** What `get_text(strip=True)` makes of one node once the `<br>`s are replaced. */
  function NodeText(n: Node): String
  {
    match n
    case Chars(s) => Strip(s)
    case Br => Strip(" | ")
  }

  /** `get_text(strip=True)` of the text element. */
  function TextOf(nodes: seq<Node>): String
  {
    FlatMap(NodeText, nodes)
  }

  function TitleOf(c: Card): String
  {
    match c.title
    case Some(t) => t
    case None => "Unknown Dish"
  }

  function DescriptionOf(c: Card): String
  {
    match c.text
    case Some(nodes) => TextOf(nodes)
    case None => ""
  }

  /** The title, followed by ` - ` and the text when there is text. */
  function FullDescription(c: Card): String
  {
    var d := DescriptionOf(c);
    TitleOf(c) + (if d != "" then " - " + d else "")
  }

  /** The text of the price element's span, `None` without either. */
  function PriceOf(c: Card): Option<String>
  {
    match c.price
    case Some(box) => box.span
    case None => None
  }

  /** The header's text when it is non-empty, else `Main Dish`. */
  function HeaderCategory(c: Card): String
  {
    match c.header
    case Some(h) => if h != "" then h else "Main Dish"
    case None => "Main Dish"
  }

  /** Whether a card is kept: `not full_description or len(full_description.strip()) < 3` skips it. */
  predicate Kept(full: String)
  {
    !(full == "" || |Strip(full)| < 3)
  }

  /** The statements both scrapers share: title, combined description, price and header category. */
  method ReadCard(c: Card) returns (full: String, price: Option<String>, category: String)
    ensures full == FullDescription(c) && price == PriceOf(c) && category == HeaderCategory(c)
  {
    var title := if c.title.Some? then c.title.value else "Unknown Dish";
    var description := "";
    if c.text.Some? {
      description := TextOf(c.text.value);
    }
    full := title;
    if description != "" {
      full := full + (" - " + description);
    }
    price := None;
    if c.price.Some? {
      if c.price.value.span.Some? {
        price := c.price.value.span;
      }
    }
    category := "Main Dish";
    if c.header.Some? {
      var header := c.header.value;
      if header != "" {
        category := header;
      }
    }
  }

  // ---------------------------------------------------------------------
  // Properties.

  /** A line break between two pieces of text becomes a bare `|`, with no spaces around it. */
  lemma BreakBecomesBar(before: seq<Node>, after: seq<Node>)
    ensures TextOf(before + [Br] + after) == TextOf(before) + "|" + TextOf(after)
  {
    FlatMapConcat(NodeText, before + [Br], after);
    FlatMapAppend(NodeText, before, Br);
    StripBar();
  }

  lemma StripBar()
    ensures Strip(" | ") == "|"
  {
    assert StripLeft(" | ") == "| " by {
      assert " | "[1..] == "| ";
    }
    assert StripRight("| ") == "|" by {
      assert "| "[..1] == "|";
    }
  }

  /** The title is `Unknown Dish` without a title element, and ` - ` is appended exactly when there is text. */
  lemma FullDescriptionShape(c: Card)
    ensures c.title.None? ==> StartsWith(FullDescription(c), "Unknown Dish")
    ensures DescriptionOf(c) == "" <==> FullDescription(c) == TitleOf(c)
    ensures DescriptionOf(c) != "" ==> FullDescription(c) == TitleOf(c) + " - " + DescriptionOf(c)
  {
    assert StartsWith(TitleOf(c) + (if DescriptionOf(c) != "" then " - " + DescriptionOf(c) else ""), TitleOf(c));
  }

  /** The price is `None` unless the price element has a span, and then it is the span's text. */
  lemma PriceRule(c: Card)
    ensures PriceOf(c).Some? <==> c.price.Some? && c.price.value.span.Some?
    ensures PriceOf(c).Some? ==> PriceOf(c) == c.price.value.span
  {
  }

  /** The header category is never empty: an empty or missing header gives `Main Dish`. */
  lemma HeaderCategoryRule(c: Card)
    ensures HeaderCategory(c) != ""
    ensures HeaderCategory(c) != "Main Dish" ==> c.header == Some(HeaderCategory(c))
  {
  }

  /** A card without title element is always kept: its description starts with `Unknown Dish`. */
  lemma UntitledKept(c: Card)
    requires c.title.None?
    ensures Kept(FullDescription(c))
  {
    var title := "Unknown Dish";
    var tail := if DescriptionOf(c) != "" then " - " + DescriptionOf(c) else "";
    assert FullDescription(c) == title + tail;
    assert title[0] == 'U' && title[1] == 'n' && title[2] == 'k';
    LeadingLetters(title, tail);
  }

  /** Three leading non-space characters survive any continuation. */
  lemma LeadingLetters(head: String, tail: String)
    requires |head| >= 3 && !IsSpace(head[0]) && !IsSpace(head[1]) && !IsSpace(head[2])
    ensures Kept(head + tail)
  {
    var s := head + tail;
    assert s[0] == head[0] && s[1] == head[1] && s[2] == head[2];
    StripKeepsLetters(s);
  }

  /** Stripping a text whose first three characters are not spaces keeps at least three characters. */
  lemma StripKeepsLetters(s: String)
    requires |s| >= 3 && !IsSpace(s[0]) && !IsSpace(s[1]) && !IsSpace(s[2])
    ensures |Strip(s)| >= 3
  {
    assert StripLeft(s) == s;
    StripRightFacts(s);
  }
}
