/** Sequences built piece by piece. */
module Seqs {
  import opened Wrappers

  /** The outputs of `f` on each element of `xs`, concatenated in order. */
  function FlatMap<T, U>(f: T -> seq<U>, xs: seq<T>): (r: seq<U>)
    ensures xs == [] ==> r == []
  {
    if xs == [] then [] else f(xs[0]) + FlatMap(f, xs[1..])
  }

  /** Mapping a concatenation maps each part. */
  lemma {:induction false} FlatMapConcat<T, U>(f: T -> seq<U>, a: seq<T>, b: seq<T>)
    ensures FlatMap(f, a + b) == FlatMap(f, a) + FlatMap(f, b)
    decreases |a|
  {
    if a == [] {
      assert a + b == b;
    } else {
      assert (a + b)[0] == a[0] && (a + b)[1..] == a[1..] + b;
      FlatMapConcat(f, a[1..], b);
    }
  }

  /** Mapping one element more appends its output. */
  lemma FlatMapAppend<T, U>(f: T -> seq<U>, a: seq<T>, x: T)
    ensures FlatMap(f, a + [x]) == FlatMap(f, a) + f(x)
  {
    FlatMapConcat(f, a, [x]);
    assert [x][1..] == [];
  }

  /** A prefix one longer is the shorter prefix and the next element. */
  lemma SnocSlice<T>(xs: seq<T>, k: nat)
    requires k < |xs|
    ensures xs[..k + 1] == xs[..k] + [xs[k]]
  {
  }

  /** Mapping a prefix one longer appends the output of the next element. */
  lemma FlatMapPrefix<T, U>(f: T -> seq<U>, xs: seq<T>, k: nat)
    requires k < |xs|
    ensures FlatMap(f, xs[..k + 1]) == FlatMap(f, xs[..k]) + f(xs[k])
  {
    SnocSlice(xs, k);
    FlatMapAppend(f, xs[..k], xs[k]);
  }

  /** Every element of the output satisfies `p` when every output of `f` on an element of `xs` does. */
  lemma {:induction false} FlatMapAll<T, U>(f: T -> seq<U>, xs: seq<T>, p: U -> bool)
    requires forall i, j :: 0 <= i < |xs| && 0 <= j < |f(xs[i])| ==> p(f(xs[i])[j])
    ensures forall j :: 0 <= j < |FlatMap(f, xs)| ==> p(FlatMap(f, xs)[j])
    decreases |xs|
  {
    if xs != [] {
      var a := f(xs[0]);
      var rest := xs[1..];
      assert forall i, j :: 0 <= i < |rest| && 0 <= j < |f(rest[i])| ==> f(rest[i])[j] == f(xs[i + 1])[j];
      FlatMapAll(f, rest, p);
      var r := FlatMap(f, xs);
      assert forall j :: 0 <= j < |a| ==> r[j] == a[j];
      assert forall j :: |a| <= j < |r| ==> r[j] == FlatMap(f, rest)[j - |a|];
    }
  }

  /**
   * The outputs of `f` on each element, concatenated, when no call raises;
   * the first call that raises makes the whole raise.
   */
  function FlatMapResult<T, U>(f: T -> Result<seq<U>>, xs: seq<T>): Result<seq<U>>
  {
    if xs == [] then Ok([])
    else
      match FlatMapResult(f, xs[..|xs| - 1])
      case Raised => Raised
      case Ok(a) =>
        match f(xs[|xs| - 1])
        case Raised => Raised
        case Ok(b) => Ok(a + b)
  }

  /** A prefix one longer adds the next element's output, or raises with it. */
  lemma FlatMapResultPrefix<T, U>(f: T -> Result<seq<U>>, xs: seq<T>, k: nat)
    requires k < |xs|
    ensures FlatMapResult(f, xs[..k + 1]) ==
      match FlatMapResult(f, xs[..k])
      case Raised => Raised
      case Ok(a) => (match f(xs[k]) case Raised => Raised case Ok(b) => Ok(a + b))
  {
    assert xs[..k + 1][..k] == xs[..k];
  }

  /** Once a prefix raises, every longer prefix raises. */
  lemma {:induction false} FlatMapResultRaised<T, U>(f: T -> Result<seq<U>>, xs: seq<T>, k: nat, n: nat)
    requires k <= n <= |xs| && FlatMapResult(f, xs[..k]).Raised?
    ensures FlatMapResult(f, xs[..n]).Raised?
    decreases n - k
  {
    if k < n {
      FlatMapResultPrefix(f, xs, k);
      FlatMapResultRaised(f, xs, k + 1, n);
    }
  }

  /** Every element of an `Ok` output satisfies `p` when every element of every `Ok` output of `f` on an element of `xs` does. */
  lemma {:induction false} FlatMapResultAll<T, U>(f: T -> Result<seq<U>>, xs: seq<T>, p: U -> bool)
    requires forall i, j :: 0 <= i < |xs| && f(xs[i]).Ok? && 0 <= j < |f(xs[i]).value| ==> p(f(xs[i]).value[j])
    ensures var r := FlatMapResult(f, xs);
      r.Ok? ==> forall j :: 0 <= j < |r.value| ==> p(r.value[j])
    decreases |xs|
  {
    if xs != [] {
      var init := xs[..|xs| - 1];
      assert forall i :: 0 <= i < |init| ==> init[i] == xs[i];
      FlatMapResultAll(f, init, p);
      var r := FlatMapResult(f, xs);
      if r.Ok? {
        var a := FlatMapResult(f, init).value;
        var b := f(xs[|xs| - 1]).value;
        assert r.value == a + b;
        assert forall j :: |a| <= j < |r.value| ==> r.value[j] == b[j - |a|];
      }
    }
  }

  /** The whole raises exactly when the call on some element raises. */
  lemma {:induction false} FlatMapResultRaisedIff<T, U>(f: T -> Result<seq<U>>, xs: seq<T>)
    ensures FlatMapResult(f, xs).Raised? <==> exists i :: 0 <= i < |xs| && f(xs[i]).Raised?
    decreases |xs|
  {
    if xs != [] {
      var init := xs[..|xs| - 1];
      FlatMapResultRaisedIff(f, init);
      assert forall i :: 0 <= i < |init| ==> init[i] == xs[i];
      assert (exists i :: 0 <= i < |xs| && f(xs[i]).Raised?) <==>
        (exists i :: 0 <= i < |init| && f(init[i]).Raised?) || f(xs[|xs| - 1]).Raised?;
    }
  }

  /** `xs.index(x)` guarded by `x in xs`: the first position holding `x`, or `None` when there is none. */
  function IndexOf<T(==)>(xs: seq<T>, x: T): (r: Option<nat>)
    ensures r.Some? ==> r.value < |xs| && xs[r.value] == x && x !in xs[..r.value]
    ensures r.None? <==> x !in xs
  {
    if xs == [] then None
    else if xs[0] == x then Some(0)
    else
      match IndexOf(xs[1..], x)
      case Some(k) => assert xs[..k + 1] == [xs[0]] + xs[1..][..k]; Some(k + 1)
      case None => None
  }

  /** The first element of `xs` that satisfies `p`. */
  function FirstWhere<T>(p: T -> bool, xs: seq<T>): Option<T>
  {
    if xs == [] then None
    else if p(xs[0]) then Some(xs[0])
    else FirstWhere(p, xs[1..])
  }

  /** The element found satisfies `p`, and none before it does. */
  lemma {:induction false} FirstWhereAt<T>(p: T -> bool, xs: seq<T>) returns (k: nat)
    requires FirstWhere(p, xs).Some?
    ensures k < |xs| && p(xs[k]) && FirstWhere(p, xs) == Some(xs[k])
    ensures forall j :: 0 <= j < k ==> !p(xs[j])
  {
    if p(xs[0]) {
      k := 0;
    } else {
      var k' := FirstWhereAt(p, xs[1..]);
      k := k' + 1;
      assert xs[k] == xs[1..][k'];
      forall j | 0 <= j < k ensures !p(xs[j]) {
        if j > 0 {
          assert xs[j] == xs[1..][j - 1];
        }
      }
    }
  }

  /** Nothing is found only when no element satisfies `p`. */
  lemma {:induction false} FirstWhereNone<T>(p: T -> bool, xs: seq<T>)
    requires FirstWhere(p, xs).None?
    ensures forall k :: 0 <= k < |xs| ==> !p(xs[k])
  {
    if xs != [] {
      FirstWhereNone(p, xs[1..]);
      forall k | 1 <= k < |xs| ensures !p(xs[k]) {
        assert xs[k] == xs[1..][k - 1];
      }
    }
  }

  /** The position of the first element of `xs` that satisfies `p`. */
  function FirstIndex<T>(p: T -> bool, xs: seq<T>): (r: Option<nat>)
    ensures r.Some? ==> r.value < |xs| && p(xs[r.value])
    decreases |xs|
  {
    if xs == [] then None
    else if p(xs[0]) then Some(0)
    else
      match FirstIndex(p, xs[1..])
      case None => None
      case Some(k) => Some(k + 1)
  }

  /** A position whose element satisfies `p`, with none before it that does, is the one found. */
  lemma {:induction false} FirstIndexIs<T>(p: T -> bool, xs: seq<T>, k: nat)
    requires k < |xs| && p(xs[k])
    requires forall j :: 0 <= j < k ==> !p(xs[j])
    ensures FirstIndex(p, xs) == Some(k)
    decreases k
  {
    if k > 0 {
      assert !p(xs[0]);
      forall j | 0 <= j < k - 1 ensures !p(xs[1..][j]) {
        assert xs[1..][j] == xs[j + 1];
      }
      FirstIndexIs(p, xs[1..], k - 1);
    }
  }

  /** Nothing is found exactly when no element satisfies `p`. */
  lemma {:induction false} FirstIndexNone<T>(p: T -> bool, xs: seq<T>)
    ensures FirstIndex(p, xs).None? <==> forall j :: 0 <= j < |xs| ==> !p(xs[j])
    decreases |xs|
  {
    if xs != [] {
      FirstIndexNone(p, xs[1..]);
      if forall j :: 0 <= j < |xs| ==> !p(xs[j]) {
        forall j | 0 <= j < |xs| - 1 ensures !p(xs[1..][j]) {
          assert xs[1..][j] == xs[j + 1];
        }
      } else if !p(xs[0]) {
        var j :| 0 <= j < |xs| && p(xs[j]);
        assert xs[1..][j - 1] == xs[j];
      }
    }
  }

  /** No element before the one found satisfies `p`. */
  lemma {:induction false} FirstIndexFirst<T>(p: T -> bool, xs: seq<T>)
    requires FirstIndex(p, xs).Some?
    ensures forall j :: 0 <= j < FirstIndex(p, xs).value ==> !p(xs[j])
    decreases |xs|
  {
    if !p(xs[0]) {
      FirstIndexFirst(p, xs[1..]);
      forall j | 1 <= j < FirstIndex(p, xs).value ensures !p(xs[j]) {
        assert xs[j] == xs[1..][j - 1];
      }
    }
  }

  /** A slice is its first element followed by the rest. */
  lemma ConsSlice<T>(s: seq<T>, i: nat, j: nat)
    requires i < j <= |s|
    ensures [s[i]] + s[i + 1..j] == s[i..j]
  {
    assert ([s[i]] + s[i + 1..j])[0] == s[i..j][0];
  }

  /** The elements of `xs` that satisfy `p`, in order: a list comprehension with a condition. */
  function Filter<T>(p: T -> bool, xs: seq<T>): (r: seq<T>)
    ensures |r| <= |xs|
  {
    if xs == [] then []
    else Filter(p, xs[..|xs| - 1]) + (if p(xs[|xs| - 1]) then [xs[|xs| - 1]] else [])
  }

  /** The elements kept are elements of `xs` that satisfy `p`, and every such element is kept. */
  lemma {:induction false} FilterFacts<T>(p: T -> bool, xs: seq<T>)
    ensures forall i :: 0 <= i < |Filter(p, xs)| ==> p(Filter(p, xs)[i]) && Filter(p, xs)[i] in xs
    ensures forall i :: 0 <= i < |xs| && p(xs[i]) ==> xs[i] in Filter(p, xs)
    decreases |xs|
  {
    if xs != [] {
      var xs' := xs[..|xs| - 1];
      var x := xs[|xs| - 1];
      FilterFacts(p, xs');
      assert xs == xs' + [x];
      forall i | 0 <= i < |xs| && p(xs[i]) ensures xs[i] in Filter(p, xs) {
        if i < |xs'| {
          assert xs[i] == xs'[i];
        }
      }
    }
  }

  /** No element is kept more often than it occurs. */
  lemma {:induction false} FilterSubMultiset<T>(p: T -> bool, xs: seq<T>)
    ensures multiset(Filter(p, xs)) <= multiset(xs)
    decreases |xs|
  {
    if xs != [] {
      var xs' := xs[..|xs| - 1];
      FilterSubMultiset(p, xs');
      assert xs == xs' + [xs[|xs| - 1]];
    }
  }

  /** Filtering one element more keeps it exactly when it satisfies `p`. */
  lemma FilterSnoc<T>(p: T -> bool, xs: seq<T>, x: T)
    ensures Filter(p, xs + [x]) == Filter(p, xs) + (if p(x) then [x] else [])
  {
    assert (xs + [x])[..|xs|] == xs;
  }

  /** Filtering a concatenation filters each part. */
  lemma {:induction false} FilterConcat<T>(p: T -> bool, a: seq<T>, b: seq<T>)
    ensures Filter(p, a + b) == Filter(p, a) + Filter(p, b)
    decreases |b|
  {
    if b == [] {
      assert a + b == a;
    } else {
      var b' := b[..|b| - 1];
      var x := b[|b| - 1];
      assert b == b' + [x];
      assert a + b == (a + b') + [x];
      FilterConcat(p, a, b');
      FilterSnoc(p, a + b', x);
      FilterSnoc(p, b', x);
    }
  }

  /** A list whose elements all satisfy `p` is kept whole. */
  lemma {:induction false} FilterAll<T>(p: T -> bool, xs: seq<T>)
    requires forall i :: 0 <= i < |xs| ==> p(xs[i])
    ensures Filter(p, xs) == xs
    decreases |xs|
  {
    if xs != [] {
      FilterAll(p, xs[..|xs| - 1]);
      assert xs[..|xs| - 1] + [xs[|xs| - 1]] == xs;
    }
  }

  /** Filtering with two predicates that agree everywhere gives the same list. */
  lemma {:induction false} FilterSame<T>(p: T -> bool, q: T -> bool, xs: seq<T>)
    requires forall x :: p(x) == q(x)
    ensures Filter(p, xs) == Filter(q, xs)
    decreases |xs|
  {
    if xs != [] {
      FilterSame(p, q, xs[..|xs| - 1]);
    }
  }

  /** Filtering twice keeps the elements that satisfy both predicates. */
  lemma {:induction false} FilterFilter<T>(p: T -> bool, q: T -> bool, r: T -> bool, xs: seq<T>)
    requires forall x :: r(x) == (q(x) && p(x))
    ensures Filter(p, Filter(q, xs)) == Filter(r, xs)
    decreases |xs|
  {
    if xs != [] {
      var xs' := xs[..|xs| - 1];
      var x := xs[|xs| - 1];
      FilterFilter(p, q, r, xs');
      assert Filter(r, xs) == Filter(r, xs') + (if r(x) then [x] else []);
      if q(x) {
        assert Filter(q, xs) == Filter(q, xs') + [x];
        FilterSnoc(p, Filter(q, xs'), x);
        assert r(x) == p(x);
      } else {
        assert Filter(q, xs) == Filter(q, xs');
        assert !r(x);
      }
    }
  }

  /** Every element satisfies `p` or fails it: the two filters share out the list. */
  lemma {:induction false} FilterSplit<T>(p: T -> bool, q: T -> bool, xs: seq<T>)
    requires forall x :: q(x) == !p(x)
    ensures |Filter(p, xs)| + |Filter(q, xs)| == |xs|
    decreases |xs|
  {
    if xs != [] {
      FilterSplit(p, q, xs[..|xs| - 1]);
    }
  }

  /** Filtering a non-empty list counts its first element when it passes. */
  lemma {:induction false} FilterCons<T>(p: T -> bool, xs: seq<T>)
    requires xs != []
    ensures |Filter(p, xs)| == |Filter(p, xs[1..])| + (if p(xs[0]) then 1 else 0)
  {
    assert xs == [xs[0]] + xs[1..];
    FilterConcat(p, [xs[0]], xs[1..]);
    assert [xs[0]][..0] == [];
  }

  /** A filter no element passes gives nothing. */
  lemma FilterNone<T>(p: T -> bool, xs: seq<T>)
    requires forall i :: 0 <= i < |xs| ==> !p(xs[i])
    ensures Filter(p, xs) == []
  {
    FilterFacts(p, xs);
  }
}
