/**
 * `app/scrapers/cyclist_scraper_improved.py`: the OCR text is repaired by a
 * substitution table, cut into day blocks headed by lines naming a German
 * day, and each block is read as one or two columns of dishes; lists are
 * extended under the first day named, never replaced. `scrape` checks the
 * result and otherwise falls back to the hard-coded table.
 *
 * The functions here carry only cheap contracts (lengths, bounds); what
 * they mean is stated by the lemmas beside them.
 */
module CyclistImproved {
  import opened Wrappers
  import opened Text
  import opened Dates
  import opened CyclistText

  // ---------------------------------------------------------------------
  // clean_ocr_text
  // ---------------------------------------------------------------------

  /** The single-character entries of the `replacements` table. */
  const CharFixes: seq<(String, String)> := [("|", "l"), ("0", "o"), ("1", "i")]

  /** The remaining entries: the euro run and the misread day names. */
  const WordFixes: seq<(String, String)> := [
    ("€€€€", "****"),
    ("MOHNTAG", "MONTAG"), ("DIENSTAC", "DIENSTAG"), ("MITTWDCH", "MITTWOCH"),
    ("DONNERSTAC", "DONNERSTAG"), ("FREITAC", "FREITAG"), ("SAMSTAC", "SAMSTAG"),
    ("SONNTAC", "SONNTAG")]

  /** The `replacements` table of `clean_ocr_text`, in insertion order. */
  const Replacements: seq<(String, String)> := CharFixes + WordFixes

  /** No pattern of a table is empty. */
  predicate Patterns(reps: seq<(String, String)>)
  {
    forall k :: 0 <= k < |reps| ==> |reps[k].0| > 0
  }

  /** `text.replace(old, new)` for each entry in turn. */
  function ApplyAll(text: String, reps: seq<(String, String)>): String
    requires Patterns(reps)
    decreases |reps|
  {
    if reps == [] then text else ApplyAll(Replace(text, reps[0].0, reps[0].1), reps[1..])
  }

  /** Applying two tables one after the other is applying their concatenation. */
  lemma {:induction false} ApplyAllAppend(text: String, a: seq<(String, String)>, b: seq<(String, String)>)
    requires Patterns(a) && Patterns(b)
    ensures Patterns(a + b)
    ensures ApplyAll(text, a + b) == ApplyAll(ApplyAll(text, a), b)
    decreases |a|
  {
    if a == [] {
      assert a + b == b;
    } else {
      assert (a + b)[0] == a[0];
      assert (a + b)[1..] == a[1..] + b;
      ApplyAllAppend(Replace(text, a[0].0, a[0].1), a[1..], b);
    }
  }

  /** The text `clean_ocr_text` returns. */
  function Cleaned(text: String): String
  {
    ApplyAll(text, Replacements)
  }

  /** `clean_ocr_text`: the loop over the table, reassigning the text. */
  method CleanOcrText(text: String) returns (r: String)
    ensures r == Cleaned(text)
  {
    var reps := Replacements;
    r := text;
    var k := 0;
    while k < |reps|
      invariant k <= |reps|
      invariant ApplyAll(r, reps[k..]) == Cleaned(text)
    {
      assert reps[k..][1..] == reps[k + 1..];
      r := Replace(r, reps[k].0, reps[k].1);
      k := k + 1;
    }
    assert reps[k..] == [];
  }

  /** A character that neither the text nor any replacement holds does not appear. */
  lemma {:induction false} NoCharAfter(s: String, reps: seq<(String, String)>, c: char)
    requires Patterns(reps) && c !in s
    requires forall k :: 0 <= k < |reps| ==> c !in reps[k].1
    ensures c !in ApplyAll(s, reps)
    decreases |reps|
  {
    if reps != [] {
      NoCharAfter(Replace(s, reps[0].0, reps[0].1), reps[1..], c);
    }
  }

  /** The replacement texts of the word entries hold only capitals and `*`. */
  lemma WordFixesCapitals()
    ensures forall k, c :: 0 <= k < |WordFixes| && c in WordFixes[k].1 ==> IsAsciiUpper(c) || c == '*'
  {
  }

  /** A character that is neither a capital nor `*` is in no word replacement. */
  lemma WordFixesLack(c: char)
    requires !IsAsciiUpper(c) && c != '*'
    ensures forall k :: 0 <= k < |WordFixes| ==> c !in WordFixes[k].1
  {
    WordFixesCapitals();
  }

  /** The three single-character entries remove every `|`, `0` and `1`. */
  lemma CharFixesRemove(text: String)
    ensures '|' !in ApplyAll(text, CharFixes) && '0' !in ApplyAll(text, CharFixes) && '1' !in ApplyAll(text, CharFixes)
  {
    var t1 := Replace(text, "|", "l");
    var t2 := Replace(t1, "0", "o");
    var t3 := Replace(t2, "1", "i");
    assert CharFixes[1..][1..][1..] == [];
    assert ApplyAll(text, CharFixes) == t3;
    ReplaceCharRemoves(text, '|', "l");
    ReplaceCharRemoves(t1, '0', "o");
    ReplaceCharRemoves(t2, '1', "i");
  }

  /** After cleaning, no `|`, `0` or `1` is left: each is replaced, and no later replacement brings one back. */
  lemma CleanedChars(text: String)
    ensures '|' !in Cleaned(text) && '0' !in Cleaned(text) && '1' !in Cleaned(text)
  {
    var t := ApplyAll(text, CharFixes);
    CharFixesRemove(text);
    ApplyAllAppend(text, CharFixes, WordFixes);
    WordFixesLack('|');
    NoCharAfter(t, WordFixes, '|');
    WordFixesLack('0');
    NoCharAfter(t, WordFixes, '0');
    WordFixesLack('1');
    NoCharAfter(t, WordFixes, '1');
  }

  // ---------------------------------------------------------------------
  // parse_menu_intelligently: lines, day headers and blocks
  // ---------------------------------------------------------------------

  const Copyright: String := "©"

  /** The kept lines: stripped, longer than 3 characters and not starting with `©`. */
  function ImprovedLines(parts: seq<String>): (lines: seq<String>)
    ensures |lines| <= |parts|
  {
    if parts == [] then []
    else
      var t := Strip(parts[0]);
      if |t| > 3 && !StartsWith(t, Copyright) then [t] + ImprovedLines(parts[1..]) else ImprovedLines(parts[1..])
  }

  /** Every kept line is stripped, longer than 3 characters and does not start with `©`. */
  lemma {:induction false} ImprovedLinesShape(parts: seq<String>)
    ensures forall x :: x in ImprovedLines(parts) ==> |x| > 3 && Stripped(x) && !StartsWith(x, Copyright)
  {
    if parts != [] {
      ImprovedLinesShape(parts[1..]);
      var t := Strip(parts[0]);
      var rest := ImprovedLines(parts[1..]);
      if |t| > 3 && !StartsWith(t, Copyright) {
        assert ImprovedLines(parts) == [t] + rest;
      } else {
        assert ImprovedLines(parts) == rest;
      }
    }
  }

  /** `[x] * n`. */
  function Repeat(x: String, n: nat): (r: seq<String>)
    ensures |r| == n
  {
    if n == 0 then [] else [x] + Repeat(x, n - 1)
  }

  /** `found_days` from table entry `k` on: each English name as often as `count` finds its German name. */
  function FoundDaysFrom(upper: String, k: nat): seq<String>
    requires k <= |GermanDays|
    decreases |GermanDays| - k
  {
    if k == |GermanDays| then []
    else Repeat(GermanDays[k].1, Count(upper, GermanDays[k].0)) + FoundDaysFrom(upper, k + 1)
  }

  /** Some day is found exactly when the line names one, and the first found is the first table entry named, as in the other parsers. */
  lemma {:induction false} FoundDaysFirst(upper: String, k: nat)
    requires k <= |GermanDays|
    ensures FoundDaysFrom(upper, k) != [] <==> FirstDayFrom(upper, k).Some?
    ensures FoundDaysFrom(upper, k) != [] ==> FoundDaysFrom(upper, k)[0] == FirstDayFrom(upper, k).value
    decreases |GermanDays| - k
  {
    if k < |GermanDays| {
      CountContains(upper, GermanDays[k].0);
      FoundDaysFirst(upper, k + 1);
    }
  }

  /** An entry adds its English name once per occurrence of its German name, after what came before. */
  lemma FoundDaysHit(found: seq<String>, upper: String, k: nat)
    requires k < |GermanDays|
    ensures found + FoundDaysFrom(upper, k)
      == (found + Repeat(GermanDays[k].1, Count(upper, GermanDays[k].0))) + FoundDaysFrom(upper, k + 1)
  {
  }

  /**
   * The `for german_day, english_day in days.items()` loop building
   * `found_days`: `[english_day] * count` is empty when the name does not
   * occur, so extending by it for every entry is what the `in` guard does.
   */
  method FindDays(upper: String) returns (found: seq<String>)
    ensures found == FoundDaysFrom(upper, 0)
  {
    found := [];
    var k := 0;
    while k < |GermanDays|
      invariant k <= |GermanDays|
      invariant found + FoundDaysFrom(upper, k) == FoundDaysFrom(upper, 0)
    {
      var german := GermanDays[k].0;
      var count := Count(upper, german);
      FoundDaysHit(found, upper, k);
      found := found + Repeat(GermanDays[k].1, count);
      k := k + 1;
    }
  }

  /** `any(p in u for p in pats)`. */
  predicate AnyIn(u: String, pats: seq<String>)
  {
    pats != [] && (Contains(u, pats[0]) || AnyIn(u, pats[1..]))
  }

  /** The markers of lines inside a block that are not dishes. */
  const SkipMarkers: seq<String> := ["TAGESTELLER", "CYCLIST", "****", "....", "WOCHENMEN"]

  /** Lines inside a block that are not dishes: a marker in the upper-cased line, or a leading `D.D`. */
  predicate BlockNoise(line: String)
  {
    AnyIn(Upper(line), SkipMarkers) || StartsDayMonth(line)
  }

  /** `any(d in next_upper for d in days.keys())`, table entry `k` on. */
  predicate NamesDayFrom(upper: String, k: nat)
    decreases |GermanDays| - k
  {
    k < |GermanDays| && (Contains(upper, GermanDays[k].0) || NamesDayFrom(upper, k + 1))
  }

  predicate NamesDay(line: String)
  {
    NamesDayFrom(Upper(line), 0)
  }

  /** The stop test of a block agrees with the header test: a line names a day exactly when its `found_days` is non-empty, and exactly when the other parsers find a day in it. */
  lemma {:induction false} NamesDayFound(upper: String, k: nat)
    requires k <= |GermanDays|
    ensures NamesDayFrom(upper, k) <==> FoundDaysFrom(upper, k) != []
    ensures NamesDayFrom(upper, k) <==> FirstDayFrom(upper, k).Some?
    decreases |GermanDays| - k
  {
    if k < |GermanDays| {
      CountContains(upper, GermanDays[k].0);
      NamesDayFound(upper, k + 1);
    }
  }

  /** The block from index `j`: the dish lines up to the next line naming a day, and that line's index. */
  function Block(lines: seq<String>, j: nat): (r: (seq<String>, nat))
    requires j <= |lines|
    ensures j <= r.1 <= |lines|
    decreases |lines| - j
  {
    if j == |lines| || NamesDay(lines[j]) then ([], j)
    else
      var rest := Block(lines, j + 1);
      if BlockNoise(lines[j]) || |lines[j]| <= 5 then rest else ([lines[j]] + rest.0, rest.1)
  }

  /** The lines a block keeps: longer than 5 characters and not noise. */
  function Kept(ls: seq<String>): (r: seq<String>)
    ensures |r| <= |ls|
  {
    if ls == [] then []
    else if BlockNoise(ls[0]) || |ls[0]| <= 5 then Kept(ls[1..])
    else [ls[0]] + Kept(ls[1..])
  }

  /** Kept lines are lines of the input, longer than 5 characters and not noise. */
  lemma {:induction false} KeptShape(ls: seq<String>)
    ensures forall k :: 0 <= k < |Kept(ls)| ==> Kept(ls)[k] in ls && |Kept(ls)[k]| > 5 && !BlockNoise(Kept(ls)[k])
  {
    if ls != [] {
      KeptShape(ls[1..]);
      var rest := Kept(ls[1..]);
      forall k | 0 <= k < |rest|
        ensures rest[k] in ls
      {
        assert rest[k] in ls[1..];
      }
    }
  }

  /** A block ends at the next line naming a day, or at the end, and no line before that names one. */
  lemma {:induction false} BlockEnds(lines: seq<String>, j: nat)
    requires j <= |lines|
    ensures Block(lines, j).1 < |lines| ==> NamesDay(lines[Block(lines, j).1])
    ensures forall k :: j <= k < Block(lines, j).1 ==> !NamesDay(lines[k])
    decreases |lines| - j
  {
    if j < |lines| && !NamesDay(lines[j]) {
      BlockEnds(lines, j + 1);
      assert Block(lines, j).1 == Block(lines, j + 1).1;
    }
  }

  /** A block holds exactly the kept lines before its end, in order. */
  lemma {:induction false} BlockKept(lines: seq<String>, j: nat)
    requires j <= |lines|
    ensures Block(lines, j).0 == Kept(lines[j..Block(lines, j).1])
    decreases |lines| - j
  {
    if j < |lines| && !NamesDay(lines[j]) {
      BlockKept(lines, j + 1);
      var rest := Block(lines, j + 1);
      var s := lines[j..rest.1];
      assert s[0] == lines[j];
      assert s[1..] == lines[j + 1..rest.1];
      if BlockNoise(lines[j]) || |lines[j]| <= 5 {
        assert Block(lines, j) == rest;
        assert Kept(s) == Kept(s[1..]);
      } else {
        assert Block(lines, j) == ([lines[j]] + rest.0, rest.1);
        assert Kept(s) == [s[0]] + Kept(s[1..]);
      }
    } else {
      assert lines[j..j] == [];
    }
  }

  /** The inner `while` loop collecting `menu_lines`. */
  method CollectBlock(lines: seq<String>, start: nat) returns (menuLines: seq<String>, i: nat)
    requires start <= |lines|
    ensures (menuLines, i) == Block(lines, start)
  {
    i := start;
    menuLines := [];
    while i < |lines|
      invariant start <= i <= |lines|
      invariant Block(lines, start).0 == menuLines + Block(lines, i).0
      invariant Block(lines, start).1 == Block(lines, i).1
      decreases |lines| - i
    {
      var nextLine := lines[i];
      if NamesDay(nextLine) {
        break;
      }
      if BlockNoise(nextLine) {
        i := i + 1;
        continue;
      }
      if |nextLine| > 5 {
        menuLines := menuLines + [nextLine];
      }
      i := i + 1;
    }
    assert Block(lines, i).0 == [];
    assert menuLines + [] == menuLines;
  }

  // ---------------------------------------------------------------------
  // parse_two_column_menu_items
  // ---------------------------------------------------------------------

  /** The fifteen `menu_keywords`, in order. */
  const Keywords: seq<String> := [
    "PASTA", "WOK", "CHILI", "MINUTE", "VEGANER", "LACHS", "LEBERKÄSE", "OFENKARTOFFEL",
    "GEGRILLTES", "SCHWEINE", "KARTOFFEL", "RATATOUILLE", "Pasta", "Wok", "Chili"]

  /** Some keyword of `kws` has its first occurrence (`line.find(keyword)`) at `p`. */
  predicate HitAt(line: String, p: nat, kws: seq<String>)
  {
    kws != [] && (Find(line, kws[0]) == Some(p) || HitAt(line, p, kws[1..]))
  }

  /** The recursive test is the existential one. */
  lemma {:induction false} HitAtExists(line: String, p: nat, kws: seq<String>)
    ensures HitAt(line, p, kws) <==> exists m :: 0 <= m < |kws| && Find(line, kws[m]) == Some(p)
  {
    if kws != [] {
      HitAtExists(line, p, kws[1..]);
      if HitAt(line, p, kws[1..]) {
        var m :| 0 <= m < |kws[1..]| && Find(line, kws[1..][m]) == Some(p);
        assert Find(line, kws[m + 1]) == Some(p);
      }
      if exists m :: 0 <= m < |kws| && Find(line, kws[m]) == Some(p) {
        var m :| 0 <= m < |kws| && Find(line, kws[m]) == Some(p);
        if m > 0 {
          assert Find(line, kws[1..][m - 1]) == Some(p);
        }
      }
    }
  }

  /** The sorted `keyword_positions` from `p` on, as positions. */
  function HitsFrom(line: String, p: nat): (r: seq<nat>)
    requires p <= |line|
    ensures forall k :: 0 <= k < |r| ==> p <= r[k] < |line|
    ensures forall k, l :: 0 <= k < l < |r| ==> r[k] < r[l]
    decreases |line| - p
  {
    if p == |line| then [] else (if HitAt(line, p, Keywords) then [p] else []) + HitsFrom(line, p + 1)
  }

  /** The positions listed are exactly those at or after `p` where some keyword first occurs. */
  lemma {:induction false} HitsFromMembers(line: String, p: nat, q: nat)
    requires p <= |line|
    ensures q in HitsFrom(line, p) <==> p <= q < |line| && HitAt(line, q, Keywords)
    decreases |line| - p
  {
    if p < |line| {
      HitsFromMembers(line, p + 1, q);
    }
  }

  /** `line[last_pos:pos]` for each cut in turn, then `line[last_pos:]`. */
  function Pieces(line: String, from: nat, cuts: seq<nat>): (r: seq<String>)
    requires from <= |line|
    requires forall k :: 0 <= k < |cuts| ==> from <= cuts[k] <= |line|
    requires forall k, l :: 0 <= k < l < |cuts| ==> cuts[k] < cuts[l]
    ensures |r| == |cuts| + 1
    decreases |cuts|
  {
    if cuts == [] then [line[from..]]
    else [line[from..cuts[0]]] + Pieces(line, cuts[0], cuts[1..])
  }

  /** Every piece is a slice of the line. */
  lemma {:induction false} PiecesContained(line: String, from: nat, cuts: seq<nat>)
    requires from <= |line|
    requires forall k :: 0 <= k < |cuts| ==> from <= cuts[k] <= |line|
    requires forall k, l :: 0 <= k < l < |cuts| ==> cuts[k] < cuts[l]
    ensures forall x :: x in Pieces(line, from, cuts) ==> Contains(line, x)
    decreases |cuts|
  {
    SliceContained(line, from, |line|);
    assert line[from..] == line[from..|line|];
    if cuts != [] {
      SliceContained(line, from, cuts[0]);
      PiecesContained(line, cuts[0], cuts[1..]);
    }
  }

  function Concat(ps: seq<String>): String
  {
    if ps == [] then [] else ps[0] + Concat(ps[1..])
  }

  /** The pieces put back together are the line: the split loses and repeats nothing. */
  lemma {:induction false} PiecesConcat(line: String, from: nat, cuts: seq<nat>)
    requires from <= |line|
    requires forall k :: 0 <= k < |cuts| ==> from <= cuts[k] <= |line|
    requires forall k, l :: 0 <= k < l < |cuts| ==> cuts[k] < cuts[l]
    ensures Concat(Pieces(line, from, cuts)) == line[from..]
    decreases |cuts|
  {
    if cuts != [] {
      PiecesConcat(line, cuts[0], cuts[1..]);
      assert line[from..] == line[from..cuts[0]] + line[cuts[0]..];
    }
  }

  /** The stripped pieces longer than 3 characters. */
  function KeptPieces(ps: seq<String>): (r: seq<String>)
    ensures |r| <= |ps|
  {
    if ps == [] then []
    else
      var t := Strip(ps[0]);
      if |t| > 3 then [t] + KeptPieces(ps[1..]) else KeptPieces(ps[1..])
  }

  /** A kept piece is stripped, longer than 3 characters, and occurs in one of the pieces. */
  lemma {:induction false} KeptPieceShape(ps: seq<String>, x: String)
    requires x in KeptPieces(ps)
    ensures |x| > 3 && Stripped(x) && exists p :: p in ps && Contains(p, x)
  {
    var t := Strip(ps[0]);
    if |t| > 3 && x == t {
      StripFacts(ps[0]);
      assert ps[0] in ps;
    } else {
      KeptPieceShape(ps[1..], x);
      var p :| p in ps[1..] && Contains(p, x);
      assert p in ps;
    }
  }

  /** Every kept piece is longer than 3 characters. */
  lemma {:induction false} KeptPiecesLong(ps: seq<String>)
    ensures forall x :: x in KeptPieces(ps) ==> |x| > 3
  {
    if ps != [] {
      KeptPiecesLong(ps[1..]);
    }
  }

  /** Strategy 1: split before every keyword hit after the first. */
  function KeywordItems(line: String): seq<String>
    requires |HitsFrom(line, 0)| >= 2
  {
    var hits := HitsFrom(line, 0);
    KeptPieces(Pieces(line, 0, hits[1..]))
  }

  /** Every keyword item is a stripped piece of the line longer than 3 characters. */
  lemma KeywordItemsInLine(line: String)
    requires |HitsFrom(line, 0)| >= 2
    ensures forall x :: x in KeywordItems(line) ==> |x| > 3 && Stripped(x) && Contains(line, x)
  {
    var ps := Pieces(line, 0, HitsFrom(line, 0)[1..]);
    PiecesContained(line, 0, HitsFrom(line, 0)[1..]);
    forall x | x in KeywordItems(line)
      ensures |x| > 3 && Stripped(x) && Contains(line, x)
    {
      KeptPieceShape(ps, x);
      var p :| p in ps && Contains(p, x);
      ContainsTrans(line, p, x);
    }
  }

  /** The words strategy 3 will not split before; none is longer than 3 characters. */
  const StopWords: seq<String> := ["&", "MIT", "UND", "VON", "ZU", "IN", "AN", "AUF"]

  const Ampersand: String := "&"
  const With: String := "mit"

  /** Words `j` on start a second dish: a capitalised word longer than 3, both sides longer than 5, no `&` at the joint, no `mit` before it. */
  predicate GoodSplit(ws: seq<String>, j: nat)
    requires 1 <= j < |ws|
  {
    var w := ws[j];
    var left := Strip(Join(" ", ws[..j]));
    var right := Strip(Join(" ", ws[j..]));
    w != [] && IsUpperChar(w[0]) && |w| > 3 && w !in StopWords
    && |left| > 5 && |right| > 5
    && !EndsWith(left, Ampersand) && !StartsWith(right, Ampersand) && !EndsWith(left, With)
  }

  /** The first good split point from `j` on (the `for ... break`). */
  function FirstSplit(ws: seq<String>, j: nat): (r: Option<nat>)
    requires 1 <= j <= |ws|
    ensures r.Some? ==> j <= r.value < |ws|
    decreases |ws| - j
  {
    if j == |ws| then None else if GoodSplit(ws, j) then Some(j) else FirstSplit(ws, j + 1)
  }

  /** The split found is good and no earlier word is; when none is found, no word from `j` on is good. */
  lemma {:induction false} FirstSplitFirst(ws: seq<String>, j: nat)
    requires 1 <= j <= |ws|
    ensures FirstSplit(ws, j).Some? ==> GoodSplit(ws, FirstSplit(ws, j).value)
    ensures forall k :: j <= k < |ws| && (FirstSplit(ws, j).Some? ==> k < FirstSplit(ws, j).value) ==> !GoodSplit(ws, k)
    decreases |ws| - j
  {
    if j < |ws| && !GoodSplit(ws, j) {
      FirstSplitFirst(ws, j + 1);
    }
  }

  /** Strategy 3: the line's words split at the first good point into two dishes, or the whole line. */
  function WordSplit(line: String): seq<String>
  {
    var ws := Words(line);
    var split := if |ws| < 2 then None else FirstSplit(ws, 1);
    match split
    case None => [line]
    case Some(j) => [Strip(Join(" ", ws[..j])), Strip(Join(" ", ws[j..]))]
  }

  /** A split gives two dishes longer than 5 characters that, joined by a space, are the line with its whitespace collapsed; otherwise the line is kept whole. */
  lemma WordSplitRejoins(line: String)
    ensures |WordSplit(line)| == 1 || |WordSplit(line)| == 2
    ensures |WordSplit(line)| == 1 ==> WordSplit(line) == [line]
    ensures |WordSplit(line)| == 2 ==>
      |WordSplit(line)[0]| > 5 && |WordSplit(line)[1]| > 5
      && WordSplit(line)[0] + " " + WordSplit(line)[1] == Collapse(line)
  {
    var ws := Words(line);
    if |ws| >= 2 && FirstSplit(ws, 1).Some? {
      var j := FirstSplit(ws, 1).value;
      FirstSplitFirst(ws, 1);
      WordsShape(line);
      AllWordsSlices(ws, j);
      JoinWordsStripped(ws[..j]);
      JoinWordsStripped(ws[j..]);
      StrippedFixed(Join(" ", ws[..j]));
      StrippedFixed(Join(" ", ws[j..]));
      JoinSplit(ws, j);
    }
  }

  /** A word split keeps the line or gives dishes longer than 5 characters. */
  lemma WordSplitLong(line: String)
    ensures forall y :: y in WordSplit(line) ==> y == line || |y| > 5
  {
    WordSplitRejoins(line);
  }

  /** The texts of the beans-and-carrots special case. */
  const Beans: String := "GRÜNE BOHNEN"
  const Carrots: String := "Karotten"
  const CarrotsUpper: String := "KAROTTEN"

  /** Strategy 2's test: `GRÜNE BOHNEN` and `Karotten` or `KAROTTEN` in the line. */
  predicate BeansWithCarrots(line: String)
  {
    Contains(line, Beans) && (Contains(line, Carrots) || Contains(line, CarrotsUpper))
  }

  /** The dishes of one two-column line: keyword split, the beans-and-carrots line whole, word split for long lines, else the line. */
  function LineItems(line: String): seq<String>
  {
    if |HitsFrom(line, 0)| >= 2 then KeywordItems(line)
    else if BeansWithCarrots(line) then [line]
    else if |line| > 20 then WordSplit(line)
    else [line]
  }

  /** Line `i` is exactly `GRÜNE BOHNEN` and the next line starts with `Karotten` or `KAROTTEN`. */
  predicate BeansThenCarrots(ls: seq<String>, i: nat)
  {
    i + 1 < |ls| && Strip(ls[i]) == Beans
    && (StartsWith(Strip(ls[i + 1]), Carrots) || StartsWith(Strip(ls[i + 1]), CarrotsUpper))
  }

  /** `parse_two_column_menu_items` from line `i` on. */
  function TwoColumnFrom(ls: seq<String>, i: nat): seq<String>
    decreases |ls| - i
  {
    if i >= |ls| then []
    else
      var line := Strip(ls[i]);
      if line == [] then TwoColumnFrom(ls, i + 1)
      else if BeansThenCarrots(ls, i) then [line + " " + Strip(ls[i + 1])] + TwoColumnFrom(ls, i + 2)
      else LineItems(line) + TwoColumnFrom(ls, i + 1)
  }

  /** One pass of the loop when line `i` does not start a beans-and-carrots pair. */
  lemma TwoColumnStep(ls: seq<String>, i: nat)
    requires i < |ls| && Strip(ls[i]) != [] && !BeansThenCarrots(ls, i)
    ensures TwoColumnFrom(ls, i) == LineItems(Strip(ls[i])) + TwoColumnFrom(ls, i + 1)
  {
  }

  /** One pass of the loop over a beans-and-carrots pair. */
  lemma TwoColumnPair(ls: seq<String>, i: nat)
    requires BeansThenCarrots(ls, i)
    ensures TwoColumnFrom(ls, i) == [Strip(ls[i]) + " " + Strip(ls[i + 1])] + TwoColumnFrom(ls, i + 2)
  {
    assert Strip(ls[i]) != [];
  }

  /** `parse_two_column_menu_items`: the `while i < len(menu_lines)` loop. */
  method ParseTwoColumnMenuItems(ls: seq<String>) returns (items: seq<String>)
    ensures items == TwoColumnFrom(ls, 0)
  {
    items := [];
    var i := 0;
    while i < |ls|
      invariant items + TwoColumnFrom(ls, i) == TwoColumnFrom(ls, 0)
      decreases |ls| - i
    {
      var line := Strip(ls[i]);
      if line == [] {
        assert TwoColumnFrom(ls, i) == TwoColumnFrom(ls, i + 1);
        i := i + 1;
        continue;
      }
      if BeansThenCarrots(ls, i) {
        var nextLine := Strip(ls[i + 1]);
        TwoColumnPair(ls, i);
        assert items + TwoColumnFrom(ls, i) == (items + [line + " " + nextLine]) + TwoColumnFrom(ls, i + 2);
        items := items + [line + " " + nextLine];
        i := i + 2;
        continue;
      }
      TwoColumnStep(ls, i);
      assert items + TwoColumnFrom(ls, i) == (items + LineItems(line)) + TwoColumnFrom(ls, i + 1);
      items := items + LineItems(line);
      i := i + 1;
    }
  }

  /** Keyword items are longer than 3 characters. */
  lemma KeywordItemsLong(line: String)
    requires |HitsFrom(line, 0)| >= 2
    ensures forall y :: y in KeywordItems(line) ==> |y| > 3
  {
    KeptPiecesLong(Pieces(line, 0, HitsFrom(line, 0)[1..]));
  }

  /** A line longer than 5 characters gives dishes longer than 3 characters, whatever strategy applies. */
  lemma LineItemsLong(line: String)
    requires |line| > 5
    ensures forall y :: y in LineItems(line) ==> |y| > 3
  {
    if |HitsFrom(line, 0)| >= 2 {
      assert LineItems(line) == KeywordItems(line);
      KeywordItemsLong(line);
    } else if BeansWithCarrots(line) {
      assert LineItems(line) == [line];
    } else if |line| > 20 {
      assert LineItems(line) == WordSplit(line);
      WordSplitLong(line);
    } else {
      assert LineItems(line) == [line];
    }
  }

  /** Lines longer than 5 characters give dishes longer than 3 characters. */
  lemma {:induction false} TwoColumnItemsLong(ls: seq<String>, i: nat)
    requires forall k :: 0 <= k < |ls| ==> |Strip(ls[k])| > 5
    ensures forall y :: y in TwoColumnFrom(ls, i) ==> |y| > 3
    decreases |ls| - i
  {
    if i < |ls| {
      if BeansThenCarrots(ls, i) {
        TwoColumnItemsLong(ls, i + 2);
        TwoColumnPair(ls, i);
      } else {
        TwoColumnItemsLong(ls, i + 1);
        TwoColumnStep(ls, i);
        LineItemsLong(Strip(ls[i]));
      }
    }
  }

  // ---------------------------------------------------------------------
  // parse_single_column_menu_items
  // ---------------------------------------------------------------------

  /** `parse_single_column_menu_items` from line `i` on: one dish per line, the beans line joined with its carrots line. */
  function SingleColumnFrom(ls: seq<String>, i: nat): seq<String>
    decreases |ls| - i
  {
    if i >= |ls| then []
    else if BeansThenCarrots(ls, i) then [Strip(ls[i]) + " " + Strip(ls[i + 1])] + SingleColumnFrom(ls, i + 2)
    else [Strip(ls[i])] + SingleColumnFrom(ls, i + 1)
  }

  /** One pass of the loop over a beans-and-carrots pair. */
  lemma SingleColumnPair(ls: seq<String>, i: nat)
    requires BeansThenCarrots(ls, i)
    ensures SingleColumnFrom(ls, i) == [Strip(ls[i]) + " " + Strip(ls[i + 1])] + SingleColumnFrom(ls, i + 2)
  {
  }

  /** One pass of the loop over any other line. */
  lemma SingleColumnStep(ls: seq<String>, i: nat)
    requires i < |ls| && !BeansThenCarrots(ls, i)
    ensures SingleColumnFrom(ls, i) == [Strip(ls[i])] + SingleColumnFrom(ls, i + 1)
  {
  }

  /** `parse_single_column_menu_items`: the `while i < len(menu_lines)` loop. */
  method ParseSingleColumnMenuItems(ls: seq<String>) returns (items: seq<String>)
    ensures items == SingleColumnFrom(ls, 0)
  {
    items := [];
    var i := 0;
    while i < |ls|
      invariant i <= |ls|
      invariant items + SingleColumnFrom(ls, i) == SingleColumnFrom(ls, 0)
      decreases |ls| - i
    {
      var item, next := SingleColumnNext(ls, i);
      items := items + [item];
      i := next;
    }
  }

  /** One pass of the loop: the dish appended at line `i` and where the next pass starts. */
  method SingleColumnNext(ls: seq<String>, i: nat) returns (item: String, next: nat)
    requires i < |ls|
    ensures i < next <= |ls|
    ensures SingleColumnFrom(ls, i) == [item] + SingleColumnFrom(ls, next)
  {
    if BeansThenCarrots(ls, i) {
      SingleColumnPair(ls, i);
      item, next := Strip(ls[i]) + " " + Strip(ls[i + 1]), i + 2;
    } else {
      SingleColumnStep(ls, i);
      item, next := Strip(ls[i]), i + 1;
    }
  }

  /** Every line stripped. */
  function StripEach(ls: seq<String>): (r: seq<String>)
    ensures |r| == |ls|
  {
    if ls == [] then [] else [Strip(ls[0])] + StripEach(ls[1..])
  }

  /** Entry `k` is line `k` stripped. */
  lemma {:induction false} StripEachAt(ls: seq<String>)
    ensures forall k :: 0 <= k < |ls| ==> StripEach(ls)[k] == Strip(ls[k])
  {
    if ls != [] {
      StripEachAt(ls[1..]);
      forall k | 0 < k < |ls| ensures StripEach(ls)[k] == Strip(ls[k]) {
        assert StripEach(ls)[k] == StripEach(ls[1..])[k - 1];
        assert ls[1..][k - 1] == ls[k];
      }
    }
  }

  /** Without a beans-and-carrots pair, every line gives exactly one dish, itself stripped, even an empty one. */
  lemma {:induction false} SingleColumnOnePerLine(ls: seq<String>, i: nat)
    requires i <= |ls|
    requires forall k :: i <= k < |ls| ==> !BeansThenCarrots(ls, k)
    ensures SingleColumnFrom(ls, i) == StripEach(ls[i..])
    decreases |ls| - i
  {
    if i < |ls| {
      SingleColumnOnePerLine(ls, i + 1);
      SingleColumnStep(ls, i);
      assert ls[i..][1..] == ls[i + 1..];
    }
  }

  // ---------------------------------------------------------------------
  // parse_menu_intelligently: the outer loop
  // ---------------------------------------------------------------------

  /** `menu_by_day[day].extend(items)`, or a new entry. */
  function Extend(menu: map<String, seq<String>>, day: String, items: seq<String>): map<String, seq<String>>
  {
    if day in menu then menu[day := menu[day] + items] else menu[day := items]
  }

  /** Extending adds the day, appends to its list and leaves every other entry alone. */
  lemma ExtendKeeps(menu: map<String, seq<String>>, day: String, items: seq<String>)
    ensures var m := Extend(menu, day, items);
      day in m && m[day] == (if day in menu then menu[day] else []) + items
      && (forall d :: d in menu ==> d in m && menu[d] <= m[d])
      && (forall d :: d in m && d != day ==> d in menu && m[d] == menu[d])
  {
    if day !in menu {
      assert [] + items == items;
    }
  }

  /** What a header line with `found` days and its block add to the menu: two columns for two names, one for one, nothing otherwise. */
  function Update(menu: map<String, seq<String>>, found: seq<String>, block: seq<String>): map<String, seq<String>>
  {
    if |found| == 2 && block != [] then Extend(menu, found[0], TwoColumnFrom(block, 0))
    else if |found| == 1 && block != [] then Extend(menu, found[0], SingleColumnFrom(block, 0))
    else menu
  }

  /** An update extends the first day found and leaves every other entry alone; with other than one or two days, or an empty block, it changes nothing. */
  lemma UpdateExtends(menu: map<String, seq<String>>, found: seq<String>, block: seq<String>)
    ensures var m := Update(menu, found, block);
      (forall d :: d in menu ==> d in m && menu[d] <= m[d])
      && (forall d :: d in m && d !in menu ==> d == found[0])
      && (forall d :: d in menu && (found == [] || d != found[0]) ==> m[d] == menu[d])
    ensures (|found| != 1 && |found| != 2) || block == [] ==> Update(menu, found, block) == menu
  {
    if |found| == 2 && block != [] {
      ExtendKeeps(menu, found[0], TwoColumnFrom(block, 0));
    } else if |found| == 1 && block != [] {
      ExtendKeeps(menu, found[0], SingleColumnFrom(block, 0));
    }
  }

  /** The outer `while i < len(lines)` loop from index `i` with the menu so far. */
  function ParseFrom(lines: seq<String>, i: nat, menu: map<String, seq<String>>): map<String, seq<String>>
    requires i <= |lines|
    decreases |lines| - i
  {
    if i == |lines| then menu
    else
      var found := FoundDaysFrom(Upper(lines[i]), 0);
      if found == [] then ParseFrom(lines, i + 1, menu)
      else
        var (block, next) := Block(lines, i + 1);
        ParseFrom(lines, next, Update(menu, found, block))
  }

  function TextLines(text: String): seq<String>
  {
    ImprovedLines(SplitOn(Cleaned(text), '\n'))
  }

  /** `parse_menu_intelligently`. */
  function ParseMenuIntelligently(text: String): map<String, seq<String>>
  {
    ParseFrom(TextLines(text), 0, map[])
  }

  /** Every name in `found_days` is a weekday name. */
  lemma {:induction false} FoundDaysEnglish(upper: String, k: nat)
    requires k <= |GermanDays|
    ensures forall x :: x in FoundDaysFrom(upper, k) ==> x in EnglishDays
    decreases |GermanDays| - k
  {
    if k < |GermanDays| {
      FoundDaysEnglish(upper, k + 1);
      var r := Repeat(GermanDays[k].1, Count(upper, GermanDays[k].0));
      RepeatMembers(GermanDays[k].1, Count(upper, GermanDays[k].0));
      assert GermanDays[k].1 in EnglishDays;
    }
  }

  lemma {:induction false} RepeatMembers(x: String, n: nat)
    ensures forall y :: y in Repeat(x, n) ==> y == x
  {
    if n > 0 {
      RepeatMembers(x, n - 1);
    }
  }

  /** Lists are only ever extended: every earlier list is a prefix of the final one, and every new key is a weekday name. */
  lemma {:induction false} ParseExtends(lines: seq<String>, i: nat, menu: map<String, seq<String>>)
    requires i <= |lines|
    ensures var r := ParseFrom(lines, i, menu);
      (forall d :: d in menu ==> d in r && menu[d] <= r[d])
      && (forall d :: d in r ==> d in menu || d in EnglishDays)
    decreases |lines| - i
  {
    if i < |lines| {
      var found := FoundDaysFrom(Upper(lines[i]), 0);
      if found == [] {
        ParseFromMiss(lines, i, menu);
        ParseExtends(lines, i + 1, menu);
      } else {
        var (block, next) := Block(lines, i + 1);
        var m := Update(menu, found, block);
        ParseFromHit(lines, i, menu);
        UpdateExtends(menu, found, block);
        FoundDaysEnglish(Upper(lines[i]), 0);
        assert found[0] in found;
        ParseExtends(lines, next, m);
      }
    }
  }

  /** Every day in the parsed menu is a weekday name. */
  lemma ParsedDays(text: String)
    ensures forall d :: d in ParseMenuIntelligently(text) ==> d in EnglishDays
  {
    ParseExtends(TextLines(text), 0, map[]);
  }

  /** The `if found_days:` branch: the block after the header is collected and parsed into the menu. */
  method HeaderBlock(lines: seq<String>, i: nat, found: seq<String>, menu: map<String, seq<String>>)
    returns (menu': map<String, seq<String>>, next: nat)
    requires i < |lines|
    ensures (Update(menu, found, Block(lines, i + 1).0), Block(lines, i + 1).1) == (menu', next)
  {
    var menuLines;
    menuLines, next := CollectBlock(lines, i + 1);
    menu' := menu;
    if |found| == 2 && menuLines != [] {
      var items := ParseTwoColumnMenuItems(menuLines);
      if found[0] in menu' {
        menu' := menu'[found[0] := menu'[found[0]] + items];
      } else {
        menu' := menu'[found[0] := items];
      }
    } else if |found| == 1 && menuLines != [] {
      var items := ParseSingleColumnMenuItems(menuLines);
      if found[0] in menu' {
        menu' := menu'[found[0] := menu'[found[0]] + items];
      } else {
        menu' := menu'[found[0] := items];
      }
    }
  }

  /** `parse_menu_intelligently`: cleaning, then the outer loop with its day search and block collection. */
  method ParseMenuIntelligentlyLoop(text: String) returns (menu: map<String, seq<String>>)
    ensures menu == ParseMenuIntelligently(text)
  {
    var cleaned := CleanOcrText(text);
    var lines := ImprovedLines(SplitOn(cleaned, '\n'));
    menu := map[];
    var i := 0;
    while i < |lines|
      invariant i <= |lines|
      invariant ParseFrom(lines, i, menu) == ParseMenuIntelligently(text)
      decreases |lines| - i
    {
      menu, i := ParseLine(lines, i, menu);
    }
  }

  /** The outer loop skips a line that names no day. */
  lemma ParseFromMiss(lines: seq<String>, i: nat, menu: map<String, seq<String>>)
    requires i < |lines| && FoundDaysFrom(Upper(lines[i]), 0) == []
    ensures ParseFrom(lines, i, menu) == ParseFrom(lines, i + 1, menu)
  {
  }

  /** The outer loop goes on after the block of a line that names a day. */
  lemma ParseFromHit(lines: seq<String>, i: nat, menu: map<String, seq<String>>)
    requires i < |lines|
    requires FoundDaysFrom(Upper(lines[i]), 0) != []
    ensures ParseFrom(lines, i, menu)
      == ParseFrom(lines, Block(lines, i + 1).1, Update(menu, FoundDaysFrom(Upper(lines[i]), 0), Block(lines, i + 1).0))
  {
  }

  /** One pass of the outer loop: the days line `i` names, and its block when it names some. */
  method ParseLine(lines: seq<String>, i: nat, menu: map<String, seq<String>>)
    returns (menu': map<String, seq<String>>, next: nat)
    requires i < |lines|
    ensures i < next <= |lines|
    ensures ParseFrom(lines, next, menu') == ParseFrom(lines, i, menu)
  {
    var found := FindDays(Upper(lines[i]));
    if found != [] {
      ParseFromHit(lines, i, menu);
      menu', next := HeaderBlock(lines, i, found, menu);
    } else {
      ParseFromMiss(lines, i, menu);
      menu', next := menu, i + 1;
    }
  }

  // ---------------------------------------------------------------------
  // scrape
  // ---------------------------------------------------------------------

  /** The validation in `scrape`: a non-empty list whose descriptions are all shorter than 200 characters. */
  predicate Plausible(items: seq<Item>)
  {
    items != [] && forall k :: 0 <= k < |items| ==> |items[k].description| < 200
  }

  /** `scrape`: today's dishes as `Main Dish` items when they pass the validation, the fallback otherwise. */
  function Scrape(ocr: Ocr, today: Date): Option<seq<Item>>
    requires ValidDate(today)
  {
    match ocr
    case Recognised(text) =>
      if text == [] then Fallback(today)
      else
        var menu := ParseMenuIntelligently(text);
        if DayName(today) !in menu then Fallback(today)
        else
          var items := ItemsOf(menu[DayName(today)], today, "Main Dish");
          if Plausible(items) then Some(items) else Fallback(today)
    case _ => Fallback(today)
  }

  /** It never returns `None`: parsed dishes are returned only when they pass the validation, otherwise the two fallback dishes are. */
  lemma ScrapeValidated(ocr: Ocr, today: Date)
    requires ValidDate(today)
    ensures Scrape(ocr, today).Some?
    ensures !ocr.Recognised? || ocr.text == [] ==> Scrape(ocr, today) == Fallback(today)
    ensures Scrape(ocr, today) == Fallback(today) || (ocr.Recognised?
      && DayName(today) in ParseMenuIntelligently(ocr.text)
      && Scrape(ocr, today).value == ItemsOf(ParseMenuIntelligently(ocr.text)[DayName(today)], today, "Main Dish")
      && Plausible(Scrape(ocr, today).value))
  {
    FallbackTwoItems(today);
  }
}
