/**
 * The regular expressions with which the Erste Campus scrapers find and
 * delete prices and labels, each matched at one position as Python's `re`
 * engine matches it, with `re.search` (the leftmost match) and
 * `re.sub(pattern, '', text)` (every match deleted, left to right).
 *
 * For these patterns backtracking never changes the outcome: a greedy run of
 * digits or whitespace that gave a character back would leave a digit or a
 * space where the rest of the pattern needs something else, so each match is
 * decided by greedy runs, and that is what the functions compute.
 */
module Patterns {
  import opened Wrappers
  import opened Text
  import opened Decimals
  import opened Seqs

  /** Digits from `j` up to `k`. */
  predicate DigitRun(s: String, j: nat, k: nat)
    requires j <= k <= |s|
  {
    forall m :: j <= m < k ==> IsDigit(s[m])
  }

  /** The end of the run of digits that starts at `k` (`\d+` taken greedily). */
  function DigitRunEnd(s: String, k: nat): (e: nat)
    requires k <= |s|
    ensures k <= e <= |s|
    decreases |s| - k
  {
    if k < |s| && IsDigit(s[k]) then DigitRunEnd(s, k + 1) else k
  }

  lemma {:induction false} DigitRunEndFacts(s: String, k: nat)
    requires k <= |s|
    ensures var e := DigitRunEnd(s, k); DigitRun(s, k, e) && (e < |s| ==> !IsDigit(s[e]))
    decreases |s| - k
  {
    if k < |s| && IsDigit(s[k]) {
      DigitRunEndFacts(s, k + 1);
    }
  }


  /** A greedy run of digits that stops at `e` ends at `e`. */
  lemma {:induction false} DigitRunEndAt(s: String, k: nat, e: nat)
    requires k <= e <= |s| && DigitRun(s, k, e) && (e < |s| ==> !IsDigit(s[e]))
    ensures DigitRunEnd(s, k) == e
    decreases e - k
  {
    if k < e {
      DigitRunEndAt(s, k + 1, e);
    }
  }

  /** The end of `\d+[,.]?\d*` matched from the digit at `a`. */
  function NumberEnd(s: String, a: nat): (e: nat)
    requires a < |s| && IsDigit(s[a])
    ensures a < e <= |s|
  {
    var b := DigitRunEnd(s, a);
    if b < |s| && IsSep(s[b]) then DigitRunEnd(s, b + 1) else b
  }

  /** Text that `\d+[,.]?\d*` matches whole: digits, then at most one separator and more digits. */
  predicate Number(g: String)
  {
    exists k :: 0 < k <= |g| && AllDigits(g[..k]) && (k == |g| || (IsSep(g[k]) && AllDigits(g[k + 1..])))
  }

  /** What the number pattern takes from `a` is a number. */
  lemma NumberEndShape(s: String, a: nat)
    requires a < |s| && IsDigit(s[a])
    ensures Number(s[a..NumberEnd(s, a)])
  {
    var b := DigitRunEnd(s, a);
    DigitRunEndFacts(s, a);
    var g := s[a..NumberEnd(s, a)];
    var h := g[..b - a];
    assert forall i :: 0 <= i < |h| ==> h[i] == s[a + i];
    assert AllDigits(h);
    if b < |s| && IsSep(s[b]) {
      DigitRunEndFacts(s, b + 1);
      assert g[b - a] == s[b];
      var t := g[b - a + 1..];
      assert forall i :: 0 <= i < |t| ==> t[i] == s[b + 1 + i];
    }
  }

  /** A number that runs to the end of the text is taken whole. */
  lemma NumberEndWhole(x: String, g: String)
    requires Number(g)
    ensures IsDigit((x + g)[|x|]) && NumberEnd(x + g, |x|) == |x + g|
  {
    var k :| 0 < k <= |g| && AllDigits(g[..k]) && (k == |g| || (IsSep(g[k]) && AllDigits(g[k + 1..])));
    NumberEndSplit(x, g, k);
  }

  /** The same, for a number whose digits before the separator end at `k`. */
  lemma NumberEndSplit(x: String, g: String, k: nat)
    requires 0 < k <= |g| && AllDigits(g[..k]) && (k == |g| || (IsSep(g[k]) && AllDigits(g[k + 1..])))
    ensures IsDigit((x + g)[|x|]) && NumberEnd(x + g, |x|) == |x + g|
  {
    var s := x + g;
    AppendSlice(x, g, 0, k);
    DigitsAt(s, |x|, g[..k]);
    DigitRunEndAt(s, |x|, |x| + k);
    if k < |g| {
      assert s[|x| + k] == g[k];
      AppendSlice(x, g, k + 1, |g|);
      DigitsAt(s, |x| + k + 1, g[k + 1..]);
      DigitRunEndAt(s, |x| + k + 1, |s|);
    }
  }

  /** A slice of the second part of a concatenation. */
  lemma AppendSlice(x: String, g: String, i: nat, j: nat)
    requires i <= j <= |g|
    ensures (x + g)[|x| + i..|x| + j] == g[i..j]
  {
    assert forall n :: 0 <= n < j - i ==> (x + g)[|x| + i..|x| + j][n] == g[i..j][n];
  }

  /** Digits placed at `a` form a run there. */
  lemma DigitsAt(s: String, a: nat, h: String)
    requires a + |h| <= |s| && s[a..a + |h|] == h && AllDigits(h)
    ensures DigitRun(s, a, a + |h|)
    ensures |h| > 0 ==> IsDigit(s[a])
  {
    assert forall i :: a <= i < a + |h| ==> s[i] == h[i - a];
  }

  /** The three shapes of pattern used, with their alternatives for the sign written out. */
  datatype Pattern =
    | Lead(signs: seq<String>)  // `(?:sign)\s*(\d+[,.]?\d*)`
    | Trail(signs: seq<String>) // `(\d+[,.]?\d*)\s*(?:sign)`
    | Label(word: String)       // `word\s*`

  /** A match: where it starts, the bounds of its group (the label itself for `Label`) and where it ends. */
  datatype Match = Match(start: nat, groupStart: nat, groupEnd: nat, end: nat)

  /** The length of the first non-empty sign that occurs at `p`. */
  function SignAt(s: String, p: nat, signs: seq<String>): (n: Option<nat>)
    ensures n.Some? ==> 0 < n.value && p + n.value <= |s|
  {
    if signs == [] then None
    else if signs[0] != [] && OccursAt(s, signs[0], p) then Some(|signs[0]|)
    else SignAt(s, p, signs[1..])
  }

  /** The sign found is one of the signs, occurring at `p`. */
  lemma {:induction false} SignAtOccurs(s: String, p: nat, signs: seq<String>)
    requires SignAt(s, p, signs).Some?
    ensures exists k :: 0 <= k < |signs| && OccursAt(s, signs[k], p)
  {
    if !(signs[0] != [] && OccursAt(s, signs[0], p)) {
      SignAtOccurs(s, p, signs[1..]);
      var k :| 0 <= k < |signs[1..]| && OccursAt(s, signs[1..][k], p);
      assert signs[1..][k] == signs[k + 1];
    }
  }

  /** The pattern tried at `p` alone: its match there, if any. */
  function MatchAt(s: String, p: nat, pat: Pattern): (r: Option<Match>)
    requires p <= |s|
    ensures r.Some? ==> var m := r.value;
      m.start == p && p <= m.groupStart <= m.groupEnd <= m.end <= |s| && p < m.end
  {
    match pat
    case Lead(signs) =>
      (match SignAt(s, p, signs)
       case None => None
       case Some(n) =>
         var a := SkipSpaces(s, p + n);
         if a < |s| && IsDigit(s[a]) then Some(Match(p, a, NumberEnd(s, a), NumberEnd(s, a))) else None)
    case Trail(signs) =>
      if p < |s| && IsDigit(s[p]) then
        var e := NumberEnd(s, p);
        var k := SkipSpaces(s, e);
        (match SignAt(s, k, signs)
         case None => None
         case Some(n) => Some(Match(p, p, e, k + n)))
      else None
    case Label(word) =>
      if word != [] && OccursAt(s, word, p) then Some(Match(p, p, p + |word|, SkipSpaces(s, p + |word|))) else None
  }

  /** The text a match's group took. */
  function Group(s: String, m: Match): String
    requires m.groupStart <= m.groupEnd <= |s|
  {
    s[m.groupStart..m.groupEnd]
  }

  /** The group of a price pattern is a number. */
  lemma GroupIsNumber(s: String, p: nat, pat: Pattern)
    requires p <= |s| && !pat.Label? && MatchAt(s, p, pat).Some?
    ensures Number(Group(s, MatchAt(s, p, pat).value))
  {
    NumberEndShape(s, MatchAt(s, p, pat).value.groupStart);
  }

  /** A match of a price pattern shows one of its signs somewhere; a label shows itself. */
  lemma MatchShowsAnchor(s: String, p: nat, pat: Pattern)
    requires p <= |s| && MatchAt(s, p, pat).Some?
    ensures exists k :: 0 <= k < |Anchors(pat)| && Contains(s, Anchors(pat)[k])
  {
    match pat
    case Lead(signs) =>
      SignAtOccurs(s, p, signs);
      var k :| 0 <= k < |signs| && OccursAt(s, signs[k], p);
      assert Contains(s, signs[k]) && Anchors(pat)[k] == signs[k];
    case Trail(signs) =>
      var q := SkipSpaces(s, NumberEnd(s, p));
      SignAtOccurs(s, q, signs);
      var k :| 0 <= k < |signs| && OccursAt(s, signs[k], q);
      assert Contains(s, signs[k]) && Anchors(pat)[k] == signs[k];
    case Label(word) =>
      assert Contains(s, Anchors(pat)[0]);
  }

  /** The literal texts a match needs: the signs, or the label. */
  function Anchors(pat: Pattern): seq<String>
  {
    match pat
    case Lead(signs) => signs
    case Trail(signs) => signs
    case Label(word) => [word]
  }

  /** `re.search` from `p`: the leftmost position from `p` on where the pattern matches. */
  function SearchFrom(s: String, p: nat, pat: Pattern): (r: Option<Match>)
    requires p <= |s|
    ensures r.Some? ==> var m := r.value;
      p <= m.start <= m.groupStart <= m.groupEnd <= m.end <= |s| && m.start < m.end
    decreases |s| - p
  {
    if MatchAt(s, p, pat).Some? then MatchAt(s, p, pat)
    else if p == |s| then None
    else SearchFrom(s, p + 1, pat)
  }

  /** The match found is the pattern's match at the position found. */
  lemma {:induction false} SearchFound(s: String, p: nat, pat: Pattern)
    requires p <= |s| && SearchFrom(s, p, pat).Some?
    ensures MatchAt(s, SearchFrom(s, p, pat).value.start, pat) == SearchFrom(s, p, pat)
    decreases |s| - p
  {
    if MatchAt(s, p, pat).None? {
      SearchFound(s, p + 1, pat);
    }
  }

  /** `re.search(pattern, s)`. */
  function Search(s: String, pat: Pattern): Option<Match>
  {
    SearchFrom(s, 0, pat)
  }

  /** The match found is the leftmost, and nothing is found only when nothing matches. */
  lemma {:induction false} SearchFacts(s: String, p: nat, pat: Pattern)
    requires p <= |s|
    ensures var r := SearchFrom(s, p, pat);
      (r.Some? ==> forall q :: p <= q < r.value.start ==> MatchAt(s, q, pat).None?)
      && (r.None? ==> forall q :: p <= q <= |s| ==> MatchAt(s, q, pat).None?)
    decreases |s| - p
  {
    if MatchAt(s, p, pat).None? && p < |s| {
      SearchFacts(s, p + 1, pat);
    }
  }

  /** Without any of its anchors in the text, a pattern matches nowhere. */
  lemma NoAnchorNoMatch(s: String, pat: Pattern)
    requires forall k :: 0 <= k < |Anchors(pat)| ==> !Contains(s, Anchors(pat)[k])
    ensures Search(s, pat).None?
  {
    if Search(s, pat).Some? {
      SearchFound(s, 0, pat);
      MatchShowsAnchor(s, Search(s, pat).value.start, pat);
    }
  }

  /** `re.sub(pattern, '', s[p:])` with matches tried on the whole text: each match is deleted and the scan resumes after it. */
  function RemoveFrom(s: String, p: nat, pat: Pattern): (r: String)
    requires p <= |s|
    ensures |r| <= |s| - p
    decreases |s| - p
  {
    if p == |s| then []
    else
      match MatchAt(s, p, pat)
      case Some(m) => RemoveFrom(s, m.end, pat)
      case None => [s[p]] + RemoveFrom(s, p + 1, pat)
  }

  /** `re.sub(pattern, '', s)`. */
  function Remove(s: String, pat: Pattern): String
  {
    RemoveFrom(s, 0, pat)
  }

  /** Where the pattern does not match at `p`, the character there is kept and the search moves on. */
  lemma NoMatchStep(s: String, p: nat, pat: Pattern)
    requires p < |s| && MatchAt(s, p, pat).None?
    ensures RemoveFrom(s, p, pat) == [s[p]] + RemoveFrom(s, p + 1, pat)
    ensures SearchFrom(s, p, pat) == SearchFrom(s, p + 1, pat)
  {
  }

  /** Without a match from `p` on, deleting keeps everything. */
  lemma {:induction false} RemoveNone(s: String, p: nat, pat: Pattern)
    requires p <= |s| && SearchFrom(s, p, pat).None?
    ensures RemoveFrom(s, p, pat) == s[p..]
    decreases |s| - p
  {
    if p < |s| {
      NoMatchStep(s, p, pat);
      RemoveNone(s, p + 1, pat);
      ConsSlice(s, p, |s|);
    }
  }

  /** Where the pattern matches nowhere, nothing is deleted. */
  lemma RemoveNothing(s: String, pat: Pattern)
    requires Search(s, pat).None?
    ensures Remove(s, pat) == s
  {
    RemoveNone(s, 0, pat);
  }

  /** `€ ` and a number: the `€` pattern matches at the start and its group is the whole number. */
  lemma EuroLeadWhole(g: String)
    requires Number(g)
    ensures var r := "€ " + g;
      Search(r, Lead(["€"])) == Some(Match(0, 2, |r|, |r|)) && Group(r, Match(0, 2, |r|, |r|)) == g
  {
    var r := "€ " + g;
    NumberEndWhole("€ ", g);
    assert SkipSpaces(r, 1) == 2 by {
      SkipSpacesTo(r, 1, 2);
    }
    assert OccursAt(r, "€", 0);
    assert MatchAt(r, 0, Lead(["€"])) == Some(Match(0, 2, |r|, |r|));
  }

  /** The group of the first of `pats` that matches anywhere, the patterns tried in order. */
  function FirstGroup(s: String, pats: seq<Pattern>): (r: Option<String>)
  {
    if pats == [] then None
    else
      match Search(s, pats[0])
      case Some(m) => Some(Group(s, m))
      case None => FirstGroup(s, pats[1..])
  }

  /** The pattern that decides is the first that matches; nothing is found only when none does. */
  lemma {:induction false} FirstGroupFacts(s: String, pats: seq<Pattern>)
    ensures var r := FirstGroup(s, pats);
      (r.None? <==> forall k :: 0 <= k < |pats| ==> Search(s, pats[k]).None?)
      && (r.Some? ==>
            exists k :: 0 <= k < |pats| && Search(s, pats[k]).Some?
              && (forall j :: 0 <= j < k ==> Search(s, pats[j]).None?)
              && r.value == Group(s, Search(s, pats[k]).value))
  {
    if pats != [] && Search(s, pats[0]).None? {
      FirstGroupFacts(s, pats[1..]);
      assert forall k :: 1 <= k < |pats| ==> pats[k] == pats[1..][k - 1];
      if FirstGroup(s, pats).Some? {
        var k :| 0 <= k < |pats[1..]| && Search(s, pats[1..][k]).Some?
          && (forall j :: 0 <= j < k ==> Search(s, pats[1..][j]).None?)
          && FirstGroup(s, pats).value == Group(s, Search(s, pats[1..][k]).value);
        assert forall j :: 1 <= j < k + 1 ==> pats[j] == pats[1..][j - 1];
      }
    }
  }

  /** The first of price patterns finds a number. */
  lemma FirstGroupNumber(s: String, pats: seq<Pattern>)
    requires forall k :: 0 <= k < |pats| ==> !pats[k].Label?
    requires FirstGroup(s, pats).Some?
    ensures Number(FirstGroup(s, pats).value)
  {
    FirstGroupFacts(s, pats);
    var k :| 0 <= k < |pats| && Search(s, pats[k]).Some?
      && FirstGroup(s, pats).value == Group(s, Search(s, pats[k]).value);
    SearchFound(s, 0, pats[k]);
    GroupIsNumber(s, Search(s, pats[k]).value.start, pats[k]);
  }
}
