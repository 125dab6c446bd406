/**
 * The two date patterns the Erste Campus iframe and advanced scrapers search
 * for: the loose `(\d{1,2})[.\s/]+(\d{1,2})[.\s/]+(\d{4})` and the ISO
 * `\d{4}-\d{1,2}-\d{1,2}`.
 *
 * A `\d{1,2}` that backtracked to one digit would leave a digit where a
 * separator or `-` is needed, so at a given position each pattern matches
 * only when the run of digits there has one or two digits, and then the
 * match is decided without backtracking.
 */
module LooseDates {
  import opened Wrappers
  import opened Text
  import opened Dates
  import opened Patterns

  /** `[.\s/]`. */
  predicate IsLooseSep(c: char) { c == '.' || c == '/' || IsSpace(c) }

  /** The end of the run of separators that starts at `k`. */
  function SepRunEnd(s: String, k: nat): (e: nat)
    requires k <= |s|
    ensures k <= e <= |s|
    decreases |s| - k
  {
    if k < |s| && IsLooseSep(s[k]) then SepRunEnd(s, k + 1) else k
  }

  /** `\d{1,2}` at `p` where the pattern goes on with a non-digit: the end of a run of one or two digits. */
  function ShortNumber(s: String, p: nat): (r: Option<nat>)
    requires p <= |s|
    ensures r.Some? ==> p < r.value <= p + 2 && r.value <= |s|
  {
    var e := DigitRunEnd(s, p);
    if p < e <= p + 2 then Some(e) else None
  }

  /** The three groups of a loose date: day, month and year as written. */
  datatype Loose = Loose(day: String, month: String, year: String)

  /** The loose pattern tried at `p` alone: its groups, if it matches there. */
  function LooseAt(s: String, p: nat): (r: Option<Loose>)
    requires p <= |s|
  {
    match ShortNumber(s, p)
    case None => None
    case Some(a) =>
      var b := SepRunEnd(s, a);
      if b == a then None
      else
        match ShortNumber(s, b)
        case None => None
        case Some(c) =>
          var d := SepRunEnd(s, c);
          if d == c || |s| < d + 4 || !DigitRun(s, d, d + 4) then None
          else Some(Loose(s[p..a], s[b..c], s[d..d + 4]))
  }

  /** `re.search` of the loose pattern from `p`: where the leftmost match starts. */
  function LooseFind(s: String, p: nat): (r: Option<nat>)
    requires p <= |s|
    ensures r.Some? ==> p <= r.value <= |s|
    decreases |s| - p
  {
    if LooseAt(s, p).Some? then Some(p)
    else if p == |s| then None
    else LooseFind(s, p + 1)
  }

  /** `re.search(pattern, s)` and the groups of its match. */
  function LooseSearch(s: String): (r: Option<Loose>)
  {
    match LooseFind(s, 0)
    case Some(q) => LooseAt(s, q)
    case None => None
  }

  /** Groups of one or two digits, one or two digits, and four digits. */
  predicate LooseShape(g: Loose)
  {
    1 <= |g.day| <= 2 && 1 <= |g.month| <= 2 && |g.year| == 4
    && AllDigits(g.day) && AllDigits(g.month) && AllDigits(g.year)
  }

  /** A match's groups are digits of the widths the pattern names. */
  lemma LooseAtShape(s: String, p: nat)
    requires p <= |s| && LooseAt(s, p).Some?
    ensures LooseShape(LooseAt(s, p).value)
  {
    var a := ShortNumber(s, p).value;
    var c := ShortNumber(s, SepRunEnd(s, a)).value;
    DigitRunEndFacts(s, p);
    DigitRunEndFacts(s, SepRunEnd(s, a));
    var g := LooseAt(s, p).value;
    assert forall i :: 0 <= i < |g.day| ==> g.day[i] == s[p + i];
    assert forall i :: 0 <= i < |g.month| ==> g.month[i] == s[SepRunEnd(s, a) + i];
    assert forall i :: 0 <= i < 4 ==> g.year[i] == s[SepRunEnd(s, c) + i];
  }

  /** The match found is the leftmost, and nothing is found only when nothing matches. */
  lemma LooseFindFacts(s: String, p: nat)
    requires p <= |s|
    ensures var r := LooseFind(s, p);
      (r.Some? ==> LooseAt(s, r.value).Some? && forall q :: p <= q < r.value ==> LooseAt(s, q).None?)
      && (r.None? ==> forall q :: p <= q <= |s| ==> LooseAt(s, q).None?)
  {
    if LooseFind(s, p).Some? {
      LooseFound(s, p);
    } else {
      LooseNotFound(s, p);
    }
  }

  /** A match found is one, and no position before it matches. */
  lemma {:induction false} LooseFound(s: String, p: nat)
    requires p <= |s| && LooseFind(s, p).Some?
    ensures LooseAt(s, LooseFind(s, p).value).Some?
    ensures forall q :: p <= q < LooseFind(s, p).value ==> LooseAt(s, q).None?
    decreases |s| - p
  {
    if LooseAt(s, p).None? {
      var r := LooseFind(s, p + 1);
      assert LooseFind(s, p) == r;
      LooseFound(s, p + 1);
      forall q | p <= q < r.value
        ensures LooseAt(s, q).None?
      {
        if q > p {
          assert p + 1 <= q < r.value;
        }
      }
    }
  }

  /** Nothing is found only when no position matches. */
  lemma {:induction false} LooseNotFound(s: String, p: nat)
    requires p <= |s| && LooseFind(s, p).None?
    ensures forall q :: p <= q <= |s| ==> LooseAt(s, q).None?
    decreases |s| - p
  {
    if p < |s| {
      assert LooseFind(s, p) == LooseFind(s, p + 1);
      LooseNotFound(s, p + 1);
      forall q | p <= q <= |s|
        ensures LooseAt(s, q).None?
      {
        if q > p {
          assert p + 1 <= q <= |s|;
        }
      }
    }
  }

  /** Whatever the loose search finds has the pattern's shape. */
  lemma LooseSearchShape(s: String)
    requires LooseSearch(s).Some?
    ensures LooseShape(LooseSearch(s).value)
  {
    LooseAtShape(s, LooseFind(s, 0).value);
  }

  /** Separators followed by a non-separator make a run that ends there. */
  lemma {:induction false} SepRunAt(s: String, k: nat, e: nat)
    requires k <= e <= |s| && (forall i :: k <= i < e ==> IsLooseSep(s[i]))
    requires e < |s| ==> !IsLooseSep(s[e])
    ensures SepRunEnd(s, k) == e
    decreases e - k
  {
    if k < e {
      SepRunAt(s, k + 1, e);
    }
  }

  /** Runs of the right kinds and widths one after another make a match. */
  lemma LooseAtRuns(s: String, p: nat, a: nat, b: nat, c: nat, d: nat)
    requires p < a <= p + 2 && a < b && b < c <= b + 2 && c < d && d + 4 <= |s|
    requires DigitRunEnd(s, p) == a && SepRunEnd(s, a) == b && DigitRunEnd(s, b) == c && SepRunEnd(s, c) == d
    requires DigitRun(s, d, d + 4)
    ensures LooseAt(s, p) == Some(Loose(s[p..a], s[b..c], s[d..d + 4]))
  {
  }

  /**
   * A text that starts with one or two digits, separators, one or two digits,
   * separators and four digits is matched at its start, with those groups.
   */
  lemma LooseFinds(s: String, a: nat, b: nat, c: nat, d: nat)
    requires 0 < a <= 2 && a < b && b < c <= b + 2 && c < d && d + 4 <= |s|
    requires forall i :: 0 <= i < a ==> IsDigit(s[i])
    requires forall i :: a <= i < b ==> IsLooseSep(s[i])
    requires forall i :: b <= i < c ==> IsDigit(s[i])
    requires forall i :: c <= i < d ==> IsLooseSep(s[i])
    requires forall i :: d <= i < d + 4 ==> IsDigit(s[i])
    ensures LooseSearch(s) == Some(Loose(s[..a], s[b..c], s[d..d + 4]))
  {
    DigitRunEndAt(s, 0, a);
    SepRunAt(s, a, b);
    DigitRunEndAt(s, b, c);
    SepRunAt(s, c, d);
    LooseAtRuns(s, 0, a, b, c, d);
    SearchAtStart(s);
  }

  /** A match at the very start is the one found. */
  lemma SearchAtStart(s: String)
    requires LooseAt(s, 0).Some?
    ensures LooseSearch(s) == LooseAt(s, 0)
  {
    assert LooseFind(s, 0) == Some(0);
  }

  /** `date(int(year), int(month), int(day))`, `None` where it raises `ValueError`. */
  function LooseDate(g: Loose): (r: Option<Date>)
    requires LooseShape(g)
    ensures r.Some? <==> Constructible(Date(DigitsValue(g.year), DigitsValue(g.month), DigitsValue(g.day)))
    ensures r.Some? ==> r.value == Date(DigitsValue(g.year), DigitsValue(g.month), DigitsValue(g.day))
  {
    var d := Date(DigitsValue(g.year), DigitsValue(g.month), DigitsValue(g.day));
    if Constructible(d) then Some(d) else None
  }

  // ---------------------------------------------------------------------
  // The ISO pattern.

  /** `\d{4}-\d{1,2}-\d{1,2}` tried at `p` alone. */
  predicate IsoAt(s: String, p: nat)
    requires p <= |s|
  {
    p + 5 <= |s| && DigitRun(s, p, p + 4) && s[p + 4] == '-'
    && match ShortNumber(s, p + 5)
       case None => false
       case Some(c) => c + 1 < |s| && s[c] == '-' && IsDigit(s[c + 1])
  }

  /** `re.search` of the ISO pattern from `p` finds something. */
  predicate IsoFrom(s: String, p: nat)
    requires p <= |s|
    decreases |s| - p
  {
    IsoAt(s, p) || (p < |s| && IsoFrom(s, p + 1))
  }

  /** Some position matches exactly when the search finds one. */
  lemma {:induction false} IsoFromFacts(s: String, p: nat)
    requires p <= |s|
    ensures IsoFrom(s, p) <==> exists q :: p <= q <= |s| && IsoAt(s, q)
    decreases |s| - p
  {
    if p < |s| {
      IsoFromFacts(s, p + 1);
      if IsoFrom(s, p) && !IsoAt(s, p) {
        var q :| p + 1 <= q <= |s| && IsoAt(s, q);
      }
      if exists q :: p <= q <= |s| && IsoAt(s, q) {
        var q :| p <= q <= |s| && IsoAt(s, q);
        if q != p {
          assert IsoFrom(s, p + 1);
        }
      }
    }
  }

  /** A text that starts with four digits, `-`, one or two digits, `-` and a digit holds an ISO date. */
  lemma IsoFinds(s: String, c: nat)
    requires 6 <= c <= 7 && c + 1 < |s|
    requires forall i :: 0 <= i < 4 ==> IsDigit(s[i])
    requires s[4] == '-' && s[c] == '-' && IsDigit(s[c + 1])
    requires forall i :: 5 <= i < c ==> IsDigit(s[i])
    ensures IsoFrom(s, 0)
  {
    DigitRunEndAt(s, 5, c);
    assert IsoAt(s, 0);
  }
}
