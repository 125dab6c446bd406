/**
 * The parts of Python's `str` behaviour that the scrapers rely on, over
 * ASCII plus the non-ASCII characters the scrapers name (the euro sign,
 * the German umlauts, sharp s, e acute and the mis-decoded `Ã`/`â`).
 */
module Text {
  import opened Wrappers

  type String = seq<char>

  /** Python's `str.isspace()` / `\s` for the characters modelled. */
  predicate IsSpace(c: char)
  {
    c == ' ' || c == '\t' || c == '\n' || c == '\r' || c == '\U{0B}' || c == '\U{0C}'
    || ('\U{1C}' <= c <= '\U{1F}') || c == '\U{85}' || c == '\U{A0}'
  }

  /** `\d`, restricted to ASCII digits. */
  predicate IsDigit(c: char) { '0' <= c <= '9' }

  function DigitValue(c: char): (r: nat)
    requires IsDigit(c)
    ensures r < 10
  {
    (c as int) - ('0' as int)
  }

  predicate IsAsciiUpper(c: char) { 'A' <= c <= 'Z' }
  predicate IsAsciiLower(c: char) { 'a' <= c <= 'z' }

  /** Cased characters that Python reports as lower case. */
  predicate IsLowerChar(c: char)
  {
    IsAsciiLower(c) || c == 'ä' || c == 'ö' || c == 'ü' || c == 'ß' || c == 'é' || c == 'ã' || c == 'â'
  }

  /** Cased characters that Python reports as upper case. */
  predicate IsUpperChar(c: char)
  {
    IsAsciiUpper(c) || c == 'Ä' || c == 'Ö' || c == 'Ü' || c == 'É' || c == 'Ã' || c == 'Â'
  }

  /** A word character for `\b`: letters, digits and `_`. */
  predicate IsWordChar(c: char)
  {
    IsLowerChar(c) || IsUpperChar(c) || IsDigit(c) || c == '_'
  }

  /** `str.isupper()`: at least one cased character and no lower-case one. */
  predicate IsUpperStr(s: String)
  {
    (exists i :: 0 <= i < |s| && IsUpperChar(s[i])) && forall i :: 0 <= i < |s| ==> !IsLowerChar(s[i])
  }

  function LowerChar(c: char): (r: char)
    ensures !IsUpperChar(r)
    ensures IsUpperChar(c) || r == c
  {
    if IsAsciiUpper(c) then (c as int + 32) as char
    else if c == 'Ä' then 'ä' else if c == 'Ö' then 'ö' else if c == 'Ü' then 'ü'
    else if c == 'É' then 'é' else if c == 'Ã' then 'ã' else if c == 'Â' then 'â'
    else c
  }

  /** `str.lower()`: character by character. */
  function Lower(s: String): (r: String)
    ensures |r| == |s|
  {
    if s == [] then [] else [LowerChar(s[0])] + Lower(s[1..])
  }

  /** Each character is lowered on its own. */
  lemma {:induction false} LowerAt(s: String)
    ensures forall i :: 0 <= i < |s| ==> Lower(s)[i] == LowerChar(s[i])
    decreases |s|
  {
    if s != [] {
      LowerAt(s[1..]);
    }
  }

  /** `str.upper()` of one character; sharp s becomes two letters. */
  function UpperChar(c: char): (r: String)
    ensures 1 <= |r| <= 2
    ensures forall i :: 0 <= i < |r| ==> !IsLowerChar(r[i])
  {
    if IsAsciiLower(c) then [(c as int - 32) as char]
    else if c == 'ä' then "Ä" else if c == 'ö' then "Ö" else if c == 'ü' then "Ü"
    else if c == 'é' then "É" else if c == 'ã' then "Ã" else if c == 'â' then "Â"
    else if c == 'ß' then "SS"
    else [c]
  }

  /** `str.capitalize()`: the first character upper-cased (title case is taken to be upper case), the rest lower-cased. */
  function Capitalize(s: String): String
  {
    if s == [] then [] else UpperChar(s[0]) + Lower(s[1..])
  }

  /** `str.upper()`. */
  function Upper(s: String): (r: String)
    ensures |r| >= |s|
  {
    if s == [] then [] else UpperChar(s[0]) + Upper(s[1..])
  }

  /** Upper-cased text holds no lower-case character. */
  lemma {:induction false} UpperNoLower(s: String)
    ensures forall i :: 0 <= i < |Upper(s)| ==> !IsLowerChar(Upper(s)[i])
  {
    if s != [] {
      UpperNoLower(s[1..]);
      var a := UpperChar(s[0]);
      var b := Upper(s[1..]);
      assert Upper(s) == a + b;
      forall i | 0 <= i < |a + b|
        ensures !IsLowerChar((a + b)[i])
      {
        if i >= |a| {
          assert (a + b)[i] == b[i - |a|];
        }
      }
    }
  }

  /** Text of ASCII capitals and spaces is its own upper case. */
  lemma {:induction false} UpperOfUpper(s: String)
    requires forall i :: 0 <= i < |s| ==> IsAsciiUpper(s[i]) || s[i] == ' '
    ensures Upper(s) == s
  {
    if s != [] {
      UpperOfUpper(s[1..]);
      assert UpperChar(s[0]) == [s[0]];
    }
  }

  /** `x in xs` for a Python list, tested element by element. */
  predicate Member<T(==)>(x: T, xs: seq<T>)
  {
    xs != [] && (x == xs[0] || Member(x, xs[1..]))
  }

  lemma {:induction false} MemberIsIn<T>(x: T, xs: seq<T>)
    ensures Member(x, xs) <==> x in xs
  {
    if xs != [] {
      MemberIsIn(x, xs[1..]);
      assert xs == [xs[0]] + xs[1..];
    }
  }

  /** `dict.get(key, default)` for a dictionary written as its entries: the value of the entry with `key`, `default` without one. */
  function Get<K(==), V>(entries: seq<(K, V)>, key: K, default: V): V
  {
    if entries == [] then default
    else if entries[0].0 == key then entries[0].1
    else Get(entries[1..], key, default)
  }

  /** A lookup returns one of the table's values or the default. */
  lemma {:induction false} GetAmong<K, V>(entries: seq<(K, V)>, key: K, default: V, values: set<V>)
    requires default in values
    requires forall k :: 0 <= k < |entries| ==> entries[k].1 in values
    ensures Get(entries, key, default) in values
  {
    if entries != [] && entries[0].0 != key {
      GetAmong(entries[1..], key, default, values);
    }
  }

  /** An entry whose key differs from the one looked up does not change the lookup. */
  lemma {:induction false} GetSkip<K, V>(a: seq<(K, V)>, e: (K, V), b: seq<(K, V)>, key: K, default: V)
    requires e.0 != key
    ensures Get(a + [e] + b, key, default) == Get(a + b, key, default)
    decreases |a|
  {
    if a == [] {
      assert a + [e] + b == [e] + b && ([e] + b)[1..] == b && a + b == b;
      assert ([e] + b)[0] == e;
    } else {
      assert (a + [e] + b)[0] == a[0] && (a + b)[0] == a[0];
      assert (a + [e] + b)[1..] == a[1..] + [e] + b;
      assert (a + b)[1..] == a[1..] + b;
      GetSkip(a[1..], e, b, key, default);
    }
  }

  function StripLeft(s: String): (r: String)
    ensures |r| <= |s|
  {
    if s != [] && IsSpace(s[0]) then StripLeft(s[1..]) else s
  }

  /** `StripLeft` drops exactly the leading whitespace. */
  lemma {:induction false} StripLeftFacts(s: String)
    ensures var r := StripLeft(s);
      && r == s[|s| - |r|..]
      && (r != [] ==> !IsSpace(r[0]))
      && (forall i :: 0 <= i < |s| - |r| ==> IsSpace(s[i]))
  {
    if s != [] && IsSpace(s[0]) {
      StripLeftFacts(s[1..]);
    }
  }

  function StripRight(s: String): (r: String)
    ensures |r| <= |s|
  {
    if s != [] && IsSpace(s[|s| - 1]) then StripRight(s[..|s| - 1]) else s
  }

  /** `StripRight` drops exactly the trailing whitespace. */
  lemma {:induction false} StripRightFacts(s: String)
    ensures var r := StripRight(s);
      && r == s[..|r|]
      && (r != [] ==> !IsSpace(r[|r| - 1]))
      && (forall i :: |r| <= i < |s| ==> IsSpace(s[i]))
  {
    if s != [] && IsSpace(s[|s| - 1]) {
      StripRightFacts(s[..|s| - 1]);
    }
  }

  /** `str.strip()`: the text without its leading and trailing whitespace. */
  function Strip(s: String): (r: String)
    ensures |r| <= |s|
    ensures r != [] ==> !IsSpace(r[0]) && !IsSpace(r[|r| - 1])
  {
    StripLeftFacts(s);
    StripRightFacts(StripLeft(s));
    StripRight(StripLeft(s))
  }

  /** The stripped text is the slice of `s` from `|s| - |StripLeft(s)|` on. */
  lemma StripSlice(s: String)
    ensures var p := |s| - |StripLeft(s)|;
      p + |Strip(s)| <= |s| && Strip(s) == s[p..p + |Strip(s)|]
  {
    var l := StripLeft(s);
    var r := StripRight(l);
    var p := |s| - |l|;
    StripLeftFacts(s);
    StripRightFacts(l);
    assert l == s[p..];
    assert r == l[..|r|];
    PrefixOfSuffix(s, p, |r|);
  }

  /** A prefix of a suffix is a middle slice. */
  lemma PrefixOfSuffix(s: String, p: nat, n: nat)
    requires p + n <= |s|
    ensures s[p..][..n] == s[p..p + n]
  {
  }

  /** What stripping keeps: a contiguous slice of the text, empty only when the text is all whitespace. */
  lemma StripFacts(s: String)
    ensures Contains(s, Strip(s))
    ensures forall c :: c in Strip(s) ==> c in s
    ensures Strip(s) == [] <==> forall i :: 0 <= i < |s| ==> IsSpace(s[i])
  {
    StripSlice(s);
    StripLeftFacts(s);
    StripRightFacts(StripLeft(s));
    var p := |s| - |StripLeft(s)|;
    assert OccursAt(s, Strip(s), p);
  }

  /** Text with no whitespace at either end. */
  predicate Stripped(s: String)
  {
    s != [] ==> !IsSpace(s[0]) && !IsSpace(s[|s| - 1])
  }

  /** Such text is its own `strip()`. */
  lemma StrippedFixed(s: String)
    requires Stripped(s)
    ensures Strip(s) == s
  {
  }

  /** The first index at or after `from` that does not hold whitespace (`\s*` taken greedily). */
  function SkipSpaces(s: String, from: nat): (j: nat)
    requires from <= |s|
    ensures from <= j <= |s|
    ensures forall k :: from <= k < j ==> IsSpace(s[k])
    ensures j < |s| ==> !IsSpace(s[j])
    decreases |s| - from
  {
    if from < |s| && IsSpace(s[from]) then SkipSpaces(s, from + 1) else from
  }

  /** `\s*` from `from` stops at the first non-space `j` after a run of spaces. */
  lemma SkipSpacesTo(s: String, from: nat, j: nat)
    requires from <= j < |s| && !IsSpace(s[j])
    requires forall k :: from <= k < j ==> IsSpace(s[k])
    ensures SkipSpaces(s, from) == j
  {
  }

  /** Length of the non-space run that starts `s`. */
  function WordLength(s: String): (n: nat)
    ensures n <= |s|
    ensures forall i :: 0 <= i < n ==> !IsSpace(s[i])
    ensures n < |s| ==> IsSpace(s[n])
  {
    if s == [] || IsSpace(s[0]) then 0 else 1 + WordLength(s[1..])
  }

  predicate SpaceFree(w: String) { forall i :: 0 <= i < |w| ==> !IsSpace(w[i]) }

  /** `str.split()` with no argument: the maximal runs of non-whitespace. */
  function Words(s: String): seq<String>
    decreases |s|
  {
    var a := StripLeft(s);
    if a == [] then []
    else
      var n := WordLength(a);
      assert n > 0 by { StripLeftFacts(s); assert !IsSpace(a[0]); }
      [a[..n]] + Words(a[n..])
  }

  /** Every word is non-empty and holds no whitespace. */
  predicate AllWords(ws: seq<String>)
  {
    forall k :: 0 <= k < |ws| ==> ws[k] != [] && SpaceFree(ws[k])
  }

  /** Both sides of a cut through a word list are word lists. */
  lemma AllWordsSlices(ws: seq<String>, j: nat)
    requires AllWords(ws) && j <= |ws|
    ensures AllWords(ws[..j]) && AllWords(ws[j..])
  {
    forall k | 0 <= k < |ws[j..]| ensures ws[j..][k] != [] && SpaceFree(ws[j..][k]) {
      assert ws[j..][k] == ws[j + k];
    }
  }

  lemma ConsWords(w: String, rest: seq<String>)
    requires w != [] && SpaceFree(w) && AllWords(rest)
    ensures AllWords([w] + rest)
  {
    assert forall k :: 1 <= k < |[w] + rest| ==> ([w] + rest)[k] == rest[k - 1];
  }

  lemma {:induction false} WordsShape(s: String)
    ensures AllWords(Words(s))
    decreases |s|
  {
    var a := StripLeft(s);
    if a != [] {
      var n := WordLength(a);
      assert n > 0 by { StripLeftFacts(s); assert !IsSpace(a[0]); }
      WordsShape(a[n..]);
      assert SpaceFree(a[..n]);
      ConsWords(a[..n], Words(a[n..]));
    }
  }

  /** `sep.join(parts)`. */
  function Join(sep: String, parts: seq<String>): (r: String)
  {
    if parts == [] then [] else if |parts| == 1 then parts[0]
    else parts[0] + sep + Join(sep, parts[1..])
  }

  lemma JoinCons(sep: String, w: String, rest: seq<String>)
    requires rest != []
    ensures Join(sep, [w] + rest) == w + sep + Join(sep, rest)
  {
    assert ([w] + rest)[1..] == rest;
  }

  /** `' '.join(s.split())` and `re.sub(r'\s+', ' ', s).strip()`. */
  function Collapse(s: String): String
  {
    Join(" ", Words(s))
  }

  /** Text with single spaces between words and none at the ends. */
  predicate Normalized(s: String)
  {
    (forall i :: 0 <= i < |s| && IsSpace(s[i]) ==> s[i] == ' ')
    && (s != [] ==> s[0] != ' ' && s[|s| - 1] != ' ')
    && (forall i :: 0 <= i < |s| - 1 && s[i] == ' ' ==> s[i + 1] != ' ')
  }

  lemma {:induction false} JoinWordsNormalized(ws: seq<String>)
    requires AllWords(ws)
    ensures Normalized(Join(" ", ws))
    ensures |ws| > 0 ==> |Join(" ", ws)| > 0
  {
    if |ws| > 1 {
      JoinWordsNormalized(ws[1..]);
      var t := Join(" ", ws[1..]);
      var r := ws[0] + " " + t;
      assert Join(" ", ws) == r;
      var n := |ws[0]|;
      assert forall i :: 0 <= i < n ==> r[i] == ws[0][i];
      assert forall i :: n < i < |r| ==> r[i] == t[i - n - 1];
      assert r[n] == ' ' && r[n + 1] == t[0];
    }
  }

  /** The collapsed text is normalised whatever the input. */
  lemma CollapseNormalized(s: String)
    ensures Normalized(Collapse(s))
  {
    WordsShape(s);
    JoinWordsNormalized(Words(s));
  }

  /** Every character of a word is a character of the text. */
  lemma {:induction false} WordsChars(s: String)
    ensures forall w, c :: w in Words(s) && c in w ==> c in s
    decreases |s|
  {
    var a := StripLeft(s);
    if a != [] {
      var n := WordLength(a);
      assert n > 0 by { StripLeftFacts(s); assert !IsSpace(a[0]); }
      WordsChars(a[n..]);
      StripLeftFacts(s);
      assert forall c :: c in a[n..] ==> c in s;
      assert forall c :: c in a[..n] ==> c in s;
    }
  }

  /** Joining parts and a separator drawn from `allowed` gives text drawn from `allowed`. */
  lemma {:induction false} JoinChars(sep: String, parts: seq<String>, allowed: set<char>)
    requires forall c :: c in sep ==> c in allowed
    requires forall p, c :: p in parts && c in p ==> c in allowed
    ensures forall c :: c in Join(sep, parts) ==> c in allowed
    decreases |parts|
  {
    if |parts| > 1 {
      assert forall p :: p in parts[1..] ==> p in parts;
      JoinChars(sep, parts[1..], allowed);
      assert parts[0] in parts;
    } else if |parts| == 1 {
      assert parts[0] in parts;
    }
  }

  /** Collapsing adds no character but the single space. */
  lemma CollapseChars(s: String)
    ensures forall c :: c in Collapse(s) ==> c in s || c == ' '
  {
    WordsChars(s);
    var allowed := (set c | c in s) + {' '};
    JoinChars(" ", Words(s), allowed);
  }

  predicate OccursAt(s: String, t: String, i: nat)
  {
    i + |t| <= |s| && s[i..i + |t|] == t
  }

  /** Python's `t in s`. */
  predicate Contains(s: String, t: String)
  {
    exists i: nat :: i <= |s| && OccursAt(s, t, i)
  }

  /** A slice is contained in the text it is cut from. */
  lemma SliceContained(s: String, a: nat, b: nat)
    requires a <= b <= |s|
    ensures Contains(s, s[a..b])
  {
    assert OccursAt(s, s[a..b], a);
  }

  /** Containment is transitive. */
  lemma ContainsTrans(a: String, b: String, c: String)
    requires Contains(a, b) && Contains(b, c)
    ensures Contains(a, c)
  {
    var i: nat :| i <= |a| && OccursAt(a, b, i);
    var j: nat :| j <= |b| && OccursAt(b, c, j);
    assert b == a[i..i + |b|];
    assert j + |c| <= |b|;
    var x := a[i..i + |b|][j..j + |c|];
    var y := a[i + j..i + j + |c|];
    forall k | 0 <= k < |c|
      ensures x[k] == y[k]
    {
      assert x[k] == a[i + j + k];
    }
    assert x == y;
    assert OccursAt(a, c, i + j);
  }

  /** Words joined by single spaces have no whitespace at either end. */
  lemma JoinWordsStripped(ws: seq<String>)
    requires AllWords(ws)
    ensures Stripped(Join(" ", ws))
  {
    JoinWordsNormalized(ws);
  }

  /** Joining the words before and after a split point with one more space gives the whole join. */
  lemma {:induction false} JoinSplit(ws: seq<String>, j: nat)
    requires 0 < j < |ws|
    ensures Join(" ", ws[..j]) + " " + Join(" ", ws[j..]) == Join(" ", ws)
    decreases j
  {
    if j > 1 {
      JoinSplit(ws[1..], j - 1);
      assert ws[1..][..j - 1] == ws[..j][1..];
      assert ws[1..][j - 1..] == ws[j..];
      JoinCons(" ", ws[0], ws[1..]);
      assert ws[..j] == [ws[0]] + ws[..j][1..];
      JoinCons(" ", ws[0], ws[..j][1..]);
      assert ws == [ws[0]] + ws[1..];
    } else {
      assert ws[..1] == [ws[0]];
      assert ws == [ws[0]] + ws[1..];
      JoinCons(" ", ws[0], ws[1..]);
    }
  }

  predicate StartsWith(s: String, t: String) { |t| <= |s| && s[..|t|] == t }

  predicate EndsWith(s: String, t: String) { |t| <= |s| && s[|s| - |t|..] == t }

  /** `s.find(t)` from position `from`, as an absolute index. */
  function FindFrom(s: String, t: String, from: nat): (r: Option<nat>)
    requires from <= |s|
    ensures r.Some? ==> from <= r.value && OccursAt(s, t, r.value)
    ensures forall j: nat :: from <= j && (r.Some? ==> j < r.value) ==> !OccursAt(s, t, j)
    decreases |s| - from
  {
    if OccursAt(s, t, from) then Some(from)
    else if from + |t| >= |s| then
      assert forall j: nat :: from < j ==> !OccursAt(s, t, j);
      None
    else FindFrom(s, t, from + 1)
  }

  /** `s.find(t)`: the leftmost occurrence, `None` for Python's -1. */
  function Find(s: String, t: String): (r: Option<nat>)
    ensures r.Some? <==> Contains(s, t)
    ensures r.Some? ==> OccursAt(s, t, r.value) && forall j: nat :: j < r.value ==> !OccursAt(s, t, j)
  {
    FindFrom(s, t, 0)
  }

  /** `s.rfind(c)` for one character: the rightmost index holding `c`. */
  function RFindChar(s: String, c: char): (r: Option<nat>)
    ensures r.Some? ==> r.value < |s| && s[r.value] == c && forall j :: r.value < j < |s| ==> s[j] != c
    ensures r.None? ==> forall j :: 0 <= j < |s| ==> s[j] != c
  {
    if s == [] then None
    else if s[|s| - 1] == c then Some(|s| - 1)
    else RFindChar(s[..|s| - 1], c)
  }

  /** `s.count(t)`: non-overlapping occurrences, scanning left to right. */
  function Count(s: String, t: String): (n: nat)
    requires |t| > 0
    decreases |s|
  {
    if |s| < |t| then 0
    else if s[..|t|] == t then 1 + Count(s[|t|..], t)
    else Count(s[1..], t)
  }

  /** An occurrence in the tail is an occurrence one place later in the whole. */
  lemma ContainsTail(s: String, t: String)
    requires s != []
    ensures Contains(s[1..], t) ==> Contains(s, t)
  {
    if Contains(s[1..], t) {
      var i: nat :| i <= |s| - 1 && OccursAt(s[1..], t, i);
      assert s[i + 1..i + 1 + |t|] == s[1..][i..i + |t|];
      assert OccursAt(s, t, i + 1);
    }
  }

  /** An occurrence that does not start at 0 lies in the tail. */
  lemma ContainsShift(s: String, t: String)
    requires s != [] && !OccursAt(s, t, 0)
    ensures Contains(s, t) ==> Contains(s[1..], t)
  {
    if Contains(s, t) {
      var i: nat :| i <= |s| && OccursAt(s, t, i);
      assert i != 0;
      assert s[1..][i - 1..i - 1 + |t|] == s[i..i + |t|];
      assert OccursAt(s[1..], t, i - 1);
    }
  }

  /** `t` is counted at least once exactly when it occurs. */
  lemma {:induction false} CountContains(s: String, t: String)
    requires |t| > 0
    ensures Count(s, t) > 0 <==> Contains(s, t)
    decreases |s|
  {
    if |s| < |t| {
      assert forall i: nat :: !OccursAt(s, t, i);
    } else if s[..|t|] == t {
      assert OccursAt(s, t, 0);
      CountContains(s[|t|..], t);
    } else {
      CountContains(s[1..], t);
      ContainsTail(s, t);
      ContainsShift(s, t);
    }
  }

  /** `s.replace(pat, rep)`: non-overlapping, left to right. */
  function Replace(s: String, pat: String, rep: String): (r: String)
    requires |pat| > 0
    ensures forall c :: c in r ==> c in s || c in rep
    decreases |s|
  {
    if |s| < |pat| then s
    else if s[..|pat|] == pat then rep + Replace(s[|pat|..], pat, rep)
    else [s[0]] + Replace(s[1..], pat, rep)
  }

  /** Text without the first character of `pat` holds no copy of it: nothing is replaced. */
  lemma {:induction false} ReplaceMissing(s: String, pat: String, rep: String)
    requires |pat| > 0 && pat[0] !in s
    ensures Replace(s, pat, rep) == s
    decreases |s|
  {
    if |s| >= |pat| {
      assert s[..|pat|][0] == s[0];
      ReplaceMissing(s[1..], pat, rep);
      assert [s[0]] + s[1..] == s;
    }
  }

  /** Replacing a single character by text without it removes every copy. */
  lemma {:induction false} ReplaceCharRemoves(s: String, c: char, rep: String)
    requires c !in rep
    ensures c !in Replace(s, [c], rep)
    decreases |s|
  {
    if |s| >= 1 {
      ReplaceCharRemoves(s[1..], c, rep);
      if s[0] != c {
        assert s[..1] != [c];
      }
    }
  }

  /** Replacing with text that holds no copy of `pat` leaves no copy behind, when `pat` is one character. */
  lemma ReplaceCharContains(s: String, c: char, rep: String)
    requires c !in rep
    ensures !Contains(Replace(s, [c], rep), [c])
  {
    ReplaceCharRemoves(s, c, rep);
    var r := Replace(s, [c], rep);
    forall i: nat | i < |r| ensures !OccursAt(r, [c], i) {
      assert r[i..i + 1] == [r[i]];
    }
  }

  function DigitsValue(s: String): (n: nat)
    requires forall i :: 0 <= i < |s| ==> IsDigit(s[i])
  {
    if s == [] then 0 else DigitsValue(s[..|s| - 1]) * 10 + DigitValue(s[|s| - 1])
  }

  predicate AllDigits(s: String) { forall i :: 0 <= i < |s| ==> IsDigit(s[i]) }

  /** The decimal digits of `n`, as `str` writes a non-negative integer. */
  function NatString(n: nat): (r: String)
    ensures |r| > 0 && AllDigits(r)
  {
    if n < 10 then [('0' as int + n) as char]
    else NatString(n / 10) + [('0' as int + n % 10) as char]
  }

  /** `str` of an integer: a minus sign before the digits of a negative one. */
  function IntString(n: int): String
  {
    if n < 0 then "-" + NatString(-n) else NatString(n)
  }

  /** Reading the digits back gives the number, and only zero is written with a leading zero. */
  lemma {:induction false} NatStringValue(n: nat)
    ensures DigitsValue(NatString(n)) == n
    ensures NatString(n)[0] == '0' <==> n == 0
  {
    if n >= 10 {
      NatStringValue(n / 10);
      var s := NatString(n);
      assert s[..|s| - 1] == NatString(n / 10);
    }
  }

  /** Digit groups joined by single underscores, as Python's `int()` accepts them. */
  predicate IntBody(s: String)
  {
    s != [] && IsDigit(s[0]) && IsDigit(s[|s| - 1])
    && (forall i :: 0 <= i < |s| ==> IsDigit(s[i]) || s[i] == '_')
    && (forall i :: 0 <= i < |s| - 1 && s[i] == '_' ==> s[i + 1] != '_')
  }

  function DropUnderscores(s: String): (r: String)
    requires forall i :: 0 <= i < |s| ==> IsDigit(s[i]) || s[i] == '_'
    ensures AllDigits(r)
    ensures |r| <= |s|
  {
    if s == [] then [] else (if s[0] == '_' then [] else [s[0]]) + DropUnderscores(s[1..])
  }

  /** Python's `int(s)` on a `str`: `None` where it raises `ValueError`. */
  function ParseInt(s: String): (r: Option<int>)
  {
    var t := Strip(s);
    if t == [] then None
    else
      var neg := t[0] == '-';
      var body := if t[0] == '-' || t[0] == '+' then t[1..] else t;
      if !IntBody(body) then None
      else
        var v: int := DigitsValue(DropUnderscores(body));
        Some(if neg then -v else v)
  }

  /** `int()` accepts nothing without a digit. */
  lemma ParseIntHasDigit(s: String)
    requires ParseInt(s).Some?
    ensures exists k: nat :: k < |s| && IsDigit(s[k])
  {
    var t := Strip(s);
    var body := if t[0] == '-' || t[0] == '+' then t[1..] else t;
    var c := body[0];
    StripFacts(s);
    assert IsDigit(c) && c in t;
    var k :| 0 <= k < |s| && s[k] == c;
  }

  /** A plain run of digits reads as its decimal value. */
  lemma ParseIntDigits(s: String)
    requires s != [] && AllDigits(s)
    ensures ParseInt(s) == Some(DigitsValue(s))
  {
    StripDigits(s);
    DropPlainDigits(s);
    assert s[0] != '-' && s[0] != '+';
    assert IntBody(s);
  }

  lemma {:induction false} DropPlainDigits(s: String)
    requires AllDigits(s)
    ensures DropUnderscores(s) == s
  {
    if s != [] { DropPlainDigits(s[1..]); }
  }

  lemma StripDigits(s: String)
    requires AllDigits(s)
    ensures Strip(s) == s
  {
    if s != [] {
      assert !IsSpace(s[0]) && !IsSpace(s[|s| - 1]);
    }
  }

  /** `s.split(c)` for one separator character. */
  function SplitOn(s: String, c: char): (parts: seq<String>)
    ensures |parts| >= 1
    ensures forall k :: 0 <= k < |parts| ==> c !in parts[k]
    decreases |s|
  {
    match FindChar(s, c)
    case None => [s]
    case Some(i) => [s[..i]] + SplitOn(s[i + 1..], c)
  }

  /** Joining the parts with the separator gives the text back. */
  lemma {:induction false} SplitOnJoin(s: String, c: char)
    ensures Join([c], SplitOn(s, c)) == s
    decreases |s|
  {
    match FindChar(s, c)
    case None =>
    case Some(i) =>
      SplitOnJoin(s[i + 1..], c);
      var rest := SplitOn(s[i + 1..], c);
      JoinCons([c], s[..i], rest);
      assert s == s[..i] + [c] + s[i + 1..];
  }

  /** There is one part more than there are separators. */
  lemma {:induction false} SplitOnCount(s: String, c: char)
    ensures |SplitOn(s, c)| == multiset(s)[c] + 1
    decreases |s|
  {
    match FindChar(s, c)
    case None =>
      assert c !in multiset(s);
    case Some(i) =>
      SplitOnCount(s[i + 1..], c);
      assert s == s[..i] + [c] + s[i + 1..];
      assert multiset(s) == multiset(s[..i]) + multiset{c} + multiset(s[i + 1..]);
      assert c !in multiset(s[..i]);
  }

  /** Index of the first `c` in `s`. */
  function FindChar(s: String, c: char): (r: Option<nat>)
    ensures r.Some? ==> r.value < |s| && s[r.value] == c && c !in s[..r.value]
    ensures r.None? ==> c !in s
  {
    if s == [] then None
    else if s[0] == c then Some(0)
    else match FindChar(s[1..], c)
      case None => None
      case Some(i) => assert s[..i + 1] == [s[0]] + s[1..][..i]; Some(i + 1)
  }

  /** `re.sub(r'\s+', ' ', s)`: every run of whitespace becomes one space. */
  function Squeeze(s: String): (r: String)
    ensures |r| <= |s|
  {
    if s == [] then []
    else if IsSpace(s[0]) then
      (if |s| > 1 && IsSpace(s[1]) then Squeeze(s[1..]) else " " + Squeeze(s[1..]))
    else [s[0]] + Squeeze(s[1..])
  }

  /** Text whose only whitespace is single spaces. */
  predicate Squeezed(s: String)
  {
    (forall i :: 0 <= i < |s| && IsSpace(s[i]) ==> s[i] == ' ')
    && (forall i :: 0 <= i < |s| - 1 && s[i] == ' ' ==> s[i + 1] != ' ')
  }

  /** The squeezed text has single spaces only, and starts with a space exactly when the text does. */
  lemma {:induction false} SqueezeFacts(s: String)
    ensures Squeezed(Squeeze(s))
    ensures s != [] ==> Squeeze(s) != [] && (Squeeze(s)[0] == ' ' <==> IsSpace(s[0]))
    decreases |s|
  {
    if s != [] {
      var t := Squeeze(s[1..]);
      SqueezeFacts(s[1..]);
      if IsSpace(s[0]) && |s| > 1 && IsSpace(s[1]) {
      } else if IsSpace(s[0]) {
        var r := " " + t;
        assert forall i :: 1 <= i < |r| ==> r[i] == t[i - 1];
      } else {
        var r := [s[0]] + t;
        assert forall i :: 1 <= i < |r| ==> r[i] == t[i - 1];
      }
    }
  }

  /** A prefix of squeezed text is squeezed. */
  lemma SqueezedPrefix(s: String, n: nat)
    requires Squeezed(s) && n <= |s|
    ensures Squeezed(s[..n])
  {
    assert forall i :: 0 <= i < n ==> s[..n][i] == s[i];
  }

  /** Stripping squeezed text normalises it. */
  lemma StripSqueezed(s: String)
    requires Squeezed(s)
    ensures Normalized(Strip(s))
  {
    StripSlice(s);
    var p := |s| - |StripLeft(s)|;
    var r := Strip(s);
    assert forall i :: 0 <= i < |r| ==> r[i] == s[p + i];
  }

  /** A suffix of squeezed text is squeezed. */
  lemma SqueezedSuffix(s: String, n: nat)
    requires Squeezed(s) && n <= |s|
    ensures Squeezed(s[n..])
  {
    assert forall i :: 0 <= i < |s| - n ==> s[n..][i] == s[n + i];
  }

  /** Squeezed parts joined where they do not both put a space make squeezed text. */
  lemma SqueezedConcat(a: String, b: String)
    requires Squeezed(a) && Squeezed(b)
    requires a != [] && b != [] ==> !(a[|a| - 1] == ' ' && b[0] == ' ')
    ensures Squeezed(a + b)
  {
    var r := a + b;
    assert forall i :: 0 <= i < |a| ==> r[i] == a[i];
    assert forall i :: |a| <= i < |r| ==> r[i] == b[i - |a|];
  }

  /** Text without whitespace. */
  predicate SpaceFreeText(s: String)
  {
    forall i :: 0 <= i < |s| ==> !IsSpace(s[i])
  }

  /** Replacing space-free text by non-empty space-free text keeps text squeezed, and keeps whether it starts with a space. */
  lemma {:induction false} ReplaceSqueezed(s: String, pat: String, rep: String)
    requires Squeezed(s) && |pat| > 0 && |rep| > 0 && SpaceFreeText(pat) && SpaceFreeText(rep)
    ensures var r := Replace(s, pat, rep);
      Squeezed(r) && (s != [] ==> r != [] && (r[0] == ' ' <==> s[0] == ' '))
    decreases |s|
  {
    if |s| >= |pat| {
      if s[..|pat|] == pat {
        var t := s[|pat|..];
        SqueezedSuffix(s, |pat|);
        ReplaceSqueezed(t, pat, rep);
        assert Squeezed(rep);
        SqueezedConcat(rep, Replace(t, pat, rep));
        assert s[0] == pat[0];
      } else {
        var t := s[1..];
        SqueezedSuffix(s, 1);
        ReplaceSqueezed(t, pat, rep);
        assert Squeezed([s[0]]);
        if s[0] == ' ' && t != [] {
          assert s[1] == t[0];
        }
        SqueezedConcat([s[0]], Replace(t, pat, rep));
      }
    }
  }
}
