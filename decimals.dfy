/**
 * Decimal numbers in menu text, as the scrapers' price patterns find them:
 * a run of digits, a comma or point, and more digits.
 */
module Decimals {
  import opened Wrappers
  import opened Text
  predicate IsSep(c: char) { c == ',' || c == '.' }

  /** The length of the run of digits that ends just before index `e`. */
  function DigitsBefore(s: String, e: nat): (n: nat)
    requires e <= |s|
    ensures n <= e
    decreases e
  {
    if e > 0 && IsDigit(s[e - 1]) then 1 + DigitsBefore(s, e - 1) else 0
  }

  /** The run counted is all digits and is not preceded by a digit. */
  lemma {:induction false} DigitsBeforeRun(s: String, e: nat)
    requires e <= |s|
    ensures var n := DigitsBefore(s, e);
      (forall k :: e - n <= k < e ==> IsDigit(s[k])) && (n < e ==> !IsDigit(s[e - n - 1]))
    decreases e
  {
    if e > 0 && IsDigit(s[e - 1]) {
      DigitsBeforeRun(s, e - 1);
    }
  }

  /** `\d+[,\.]\d+` matches at `p` and runs to the end of `t`. */
  predicate DecimalAt(t: String, p: nat)
  {
    exists q :: p < q < |t| - 1 && IsSep(t[q])
      && (forall k :: p <= k < q ==> IsDigit(t[k]))
      && (forall k :: q < k < |t| ==> IsDigit(t[k]))
  }

  /** A separator at `q`, digits from `p` up to it and digits after it up to the end: a match at `p`. */
  lemma DecimalAtWitness(t: String, p: nat, q: nat)
    requires p < q < |t| - 1 && IsSep(t[q])
    requires forall k :: p <= k < q ==> IsDigit(t[k])
    requires forall k :: q < k < |t| ==> IsDigit(t[k])
    ensures DecimalAt(t, p)
  {
  }

  /** A run of `n` digits ending before `e` that is not preceded by a digit is the whole run. */
  lemma {:induction false} DigitsBeforeExact(s: String, e: nat, n: nat)
    requires n <= e <= |s|
    requires forall k :: e - n <= k < e ==> IsDigit(s[k])
    requires n < e ==> !IsDigit(s[e - n - 1])
    ensures DigitsBefore(s, e) == n
    decreases n
  {
    if n > 0 {
      DigitsBeforeExact(s, e - 1, n - 1);
    }
  }

  /** `n` digits before `e` make a run at least `n` long. */
  lemma {:induction false} DigitsBeforeAtLeast(s: String, e: nat, n: nat)
    requires n <= e <= |s|
    requires forall k :: e - n <= k < e ==> IsDigit(s[k])
    ensures DigitsBefore(s, e) >= n
    decreases n
  {
    if n > 0 {
      DigitsBeforeAtLeast(s, e - 1, n - 1);
    }
  }

  /** The decimal number with which `t` ends, if any. */
  function TrailingDecimal(t: String): (r: Option<String>)
    ensures r.Some? ==> |r.value| <= |t| && r.value == t[|t| - |r.value|..]
  {
    var b := DigitsBefore(t, |t|);
    if b == 0 || b == |t| || !IsSep(t[|t| - b - 1]) then None
    else
      var a := DigitsBefore(t, |t| - b - 1);
      if a == 0 then None else Some(t[|t| - b - 1 - a..])
  }

  /** Any match forces the shape the function looks for, and starts no earlier than its result. */
  lemma DecimalAtForces(t: String, p: nat)
    requires p < |t| && DecimalAt(t, p)
    ensures TrailingDecimal(t).Some? && p >= |t| - |TrailingDecimal(t).value|
  {
    var q :| p < q < |t| - 1 && IsSep(t[q])
      && (forall k :: p <= k < q ==> IsDigit(t[k])) && (forall k :: q < k < |t| ==> IsDigit(t[k]));
    DigitsBeforeExact(t, |t|, |t| - q - 1);
    DigitsBeforeAtLeast(t, q, q - p);
  }

  /** The decimal found matches where it starts. */
  lemma TrailingDecimalMatches(t: String)
    requires TrailingDecimal(t).Some?
    ensures DecimalAt(t, |t| - |TrailingDecimal(t).value|)
  {
    var b := DigitsBefore(t, |t|);
    var q := |t| - b - 1;
    var a := DigitsBefore(t, q);
    DigitsBeforeRun(t, |t|);
    DigitsBeforeRun(t, q);
    assert |TrailingDecimal(t).value| == |t| - (q - a);
    assert forall k :: q - a <= k < q ==> IsDigit(t[k]);
    assert forall k :: q < k < |t| ==> IsDigit(t[k]);
    DecimalAtWitness(t, q - a, q);
  }

  /** A decimal number `D,D` or `D.D` that occupies the whole text. */
  predicate Decimal(x: String)
  {
    DecimalAt(x, 0)
  }

  /** A separator with digits on both sides up to the ends: the slice from the first digit is a whole decimal. */
  lemma DecimalSuffix(t: String, p: nat, q: nat)
    requires p < q < |t| - 1 && IsSep(t[q])
    requires forall k :: p <= k < q ==> IsDigit(t[k])
    requires forall k :: q < k < |t| ==> IsDigit(t[k])
    ensures Decimal(t[p..])
  {
    var x := t[p..];
    assert forall k :: 0 <= k < |x| ==> x[k] == t[p + k];
    DecimalAtWitness(x, 0, q - p);
  }

  /** The decimal found at the end of `t` is itself a whole decimal. */
  lemma TrailingDecimalWhole(t: String)
    requires TrailingDecimal(t).Some?
    ensures Decimal(TrailingDecimal(t).value)
  {
    var b := DigitsBefore(t, |t|);
    var q := |t| - b - 1;
    var a := DigitsBefore(t, q);
    DigitsBeforeRun(t, |t|);
    DigitsBeforeRun(t, q);
    DecimalSuffix(t, q - a, q);
    assert TrailingDecimal(t).value == t[q - a..];
  }

  /** Replacing one character by text distributes over concatenation. */
  lemma {:induction false} ReplaceCharConcat(a: String, b: String, c: char, rep: String)
    ensures Replace(a + b, [c], rep) == Replace(a, [c], rep) + Replace(b, [c], rep)
    decreases |a|
  {
    if a != [] {
      ReplaceCharConcat(a[1..], b, c, rep);
      assert (a + b)[1..] == a[1..] + b;
      assert (a + b)[..1] == a[..1];
    } else {
      assert a + b == b;
    }
  }

  /** Text without the character is left alone. */
  lemma {:induction false} ReplaceCharAbsent(a: String, c: char, rep: String)
    requires c !in a
    ensures Replace(a, [c], rep) == a
    decreases |a|
  {
    if a != [] {
      ReplaceCharAbsent(a[1..], c, rep);
      assert a[0] in a;
      assert a[..1] != [c];
    }
  }


  /** Replacing the comma by a point in `a`, a separator and `b`, with no comma in `a` or `b`: only the separator can change, and it becomes a point. */
  lemma ReplaceSeparator(a: String, c: char, b: String)
    requires IsSep(c) && ',' !in a && ',' !in b
    ensures Replace(a + [c] + b, ",", ".") == a + "." + b
  {
    ReplaceCharConcat(a + [c], b, ',', ".");
    ReplaceCharConcat(a, [c], ',', ".");
    ReplaceCharAbsent(a, ',', ".");
    ReplaceCharAbsent(b, ',', ".");
    assert Replace([c], ",", ".") == ".";
  }

  /** Digits hold no comma. */
  lemma DigitsNoComma(s: String)
    requires forall k :: 0 <= k < |s| ==> IsDigit(s[k])
    ensures ',' !in s
  {
  }

  /** The decimal found is the leftmost match, and nothing is found only when no position matches. */
  lemma TrailingDecimalLeftmost(t: String)
    ensures var r := TrailingDecimal(t);
      (r.Some? ==> DecimalAt(t, |t| - |r.value|) && forall p :: 0 <= p < |t| - |r.value| ==> !DecimalAt(t, p))
      && (r.None? ==> forall p :: 0 <= p < |t| ==> !DecimalAt(t, p))
  {
    forall p | 0 <= p < |t| && DecimalAt(t, p)
      ensures TrailingDecimal(t).Some? && p >= |t| - |TrailingDecimal(t).value|
    {
      DecimalAtForces(t, p);
    }
    if TrailingDecimal(t).Some? {
      TrailingDecimalMatches(t);
    }
  }
}
