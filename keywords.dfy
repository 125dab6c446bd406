/**
 * First-match keyword tables: the `if any(word in text for word in [...])`
 * chains and the `for category, keywords in categories.items()` loops that
 * the scrapers use to pick a category. The first entry with a keyword
 * occurring in the text wins; without one the default is returned.
 */
module Keywords {
  import opened Wrappers
  import opened Text

  /** `any(word in text for word in words)`. */
  predicate AnyIn(text: String, words: seq<String>)
  {
    exists k :: 0 <= k < |words| && Contains(text, words[k])
  }

  /** The category of the first entry one of whose words occurs in `text`, else `default`. */
  function Classify(text: String, table: seq<(String, seq<String>)>, default: String): String
  {
    if table == [] then default
    else if AnyIn(text, table[0].1) then table[0].0
    else Classify(text, table[1..], default)
  }

  /** The entry that decides: the first whose words occur. */
  lemma {:induction false} ClassifyFirst(text: String, table: seq<(String, seq<String>)>, default: String, k: nat)
    requires k < |table| && AnyIn(text, table[k].1)
    requires forall j :: 0 <= j < k ==> !AnyIn(text, table[j].1)
    ensures Classify(text, table, default) == table[k].0
    decreases k
  {
    if k > 0 {
      assert !AnyIn(text, table[0].1);
      ClassifyFirst(text, table[1..], default, k - 1);
    }
  }

  /** Without any entry's word in the text, the default. */
  lemma {:induction false} ClassifyDefault(text: String, table: seq<(String, seq<String>)>, default: String)
    requires forall j :: 0 <= j < |table| ==> !AnyIn(text, table[j].1)
    ensures Classify(text, table, default) == default
    decreases |table|
  {
    if table != [] {
      assert !AnyIn(text, table[0].1);
      ClassifyDefault(text, table[1..], default);
    }
  }

  /** The result is one of the table's categories or the default. */
  lemma {:induction false} ClassifyAmong(text: String, table: seq<(String, seq<String>)>, default: String)
    ensures Classify(text, table, default) == default
      || exists k :: 0 <= k < |table| && Classify(text, table, default) == table[k].0
    decreases |table|
  {
    if table != [] && !AnyIn(text, table[0].1) {
      ClassifyAmong(text, table[1..], default);
      if Classify(text, table, default) != default {
        var k :| 0 <= k < |table[1..]| && Classify(text, table[1..], default) == table[1..][k].0;
        assert table[k + 1].0 == table[1..][k].0;
      }
    }
  }

  /** The categories a table can give, in table order, the default last. */
  function Labels(table: seq<(String, seq<String>)>, default: String): (cs: seq<String>)
    ensures |cs| == |table| + 1 && cs[|table|] == default
    ensures forall k :: 0 <= k < |table| ==> cs[k] == table[k].0
  {
    if table == [] then [default] else [table[0].0] + Labels(table[1..], default)
  }

  /** Whatever the text, the result is among the table's categories. */
  lemma ClassifyIn(text: String, table: seq<(String, seq<String>)>, default: String)
    ensures Classify(text, table, default) in Labels(table, default)
  {
    ClassifyAmong(text, table, default);
    var cs := Labels(table, default);
    if Classify(text, table, default) != default {
      var k :| 0 <= k < |table| && Classify(text, table, default) == table[k].0;
      assert cs[k] == table[k].0;
    }
  }

  /** A word longer than the text cannot occur in it. */
  lemma TooLong(text: String, w: String)
    requires |w| > |text|
    ensures !Contains(text, w)
  {
  }

  /** A word as long as the text occurs in it only as the text itself. */
  lemma SameLength(text: String, w: String)
    requires |w| == |text| && w != text
    ensures !Contains(text, w)
  {
  }

  /** The text occurs in itself. */
  lemma ContainsSelf(text: String)
    ensures Contains(text, text)
  {
    assert OccursAt(text, text, 0);
  }

  /** The index of the first of `names` that occurs in the text: a loop over names that returns on the first hit. */
  function FirstIn(text: String, names: seq<String>): (r: Option<nat>)
    ensures r.Some? ==> r.value < |names| && Contains(text, names[r.value])
  {
    if names == [] then None
    else if Contains(text, names[0]) then Some(0)
    else
      match FirstIn(text, names[1..])
      case Some(k) => Some(k + 1)
      case None => None
  }

  /** The index found is the first whose name occurs; nothing is found only when no name occurs. */
  lemma {:induction false} FirstInFacts(text: String, names: seq<String>)
    ensures var r := FirstIn(text, names);
      (r.Some? ==> forall j :: 0 <= j < r.value ==> !Contains(text, names[j]))
      && (r.None? ==> forall j :: 0 <= j < |names| ==> !Contains(text, names[j]))
  {
    if names != [] && !Contains(text, names[0]) {
      FirstInFacts(text, names[1..]);
      assert forall j :: 1 <= j < |names| ==> names[j] == names[1..][j - 1];
    }
  }

  /** A word whose first character the text lacks does not occur in it. */
  lemma FirstCharAbsent(t: String, w: String)
    requires w != [] && w[0] !in t
    ensures !Contains(t, w)
  {
  }

  /** Words that all start with a character the text lacks do not occur in it. */
  lemma NoneStartWith(t: String, words: seq<String>, c: char)
    requires c !in t && forall k :: 0 <= k < |words| ==> words[k] != [] && words[k][0] == c
    ensures !AnyIn(t, words)
  {
    forall k | 0 <= k < |words|
      ensures !Contains(t, words[k])
    {
      FirstCharAbsent(t, words[k]);
    }
  }
}
