/**
 * Order-preserving, first-wins removal of duplicates under a key, the
 * `seen`-set loop several scrapers write out.
 */
module Deduplication {
  /** What the loop produces from `xs` when the keys in `seen` were met before. */
  function DedupFrom<T, K(==)>(xs: seq<T>, key: T -> K, seen: set<K>): (r: seq<T>)
    ensures |r| <= |xs|
    ensures forall j :: 0 <= j < |r| ==> key(r[j]) !in seen
  {
    if xs == [] then []
    else if key(xs[0]) in seen then DedupFrom(xs[1..], key, seen)
    else [xs[0]] + DedupFrom(xs[1..], key, seen + {key(xs[0])})
  }

  function Dedup<T, K(==)>(xs: seq<T>, key: T -> K): seq<T>
  {
    DedupFrom(xs, key, {})
  }

  predicate KeysDistinct<T, K(==)>(xs: seq<T>, key: T -> K)
  {
    forall i, j :: 0 <= i < j < |xs| ==> key(xs[i]) != key(xs[j])
  }

  /** `a` is `b` with some elements left out and the rest in their order. */
  predicate Subseq<T(==)>(a: seq<T>, b: seq<T>)
    decreases |b|
  {
    if a == [] then true
    else if b == [] then false
    else if a[0] == b[0] then Subseq(a[1..], b[1..])
    else Subseq(a, b[1..])
  }

  lemma {:induction false} DedupKeysDistinct<T, K>(xs: seq<T>, key: T -> K, seen: set<K>)
    ensures KeysDistinct(DedupFrom(xs, key, seen), key)
  {
    if xs != [] {
      if key(xs[0]) in seen {
        DedupKeysDistinct(xs[1..], key, seen);
      } else {
        DedupKeysDistinct(xs[1..], key, seen + {key(xs[0])});
        var rest := DedupFrom(xs[1..], key, seen + {key(xs[0])});
        var r := [xs[0]] + rest;
        forall i, j | 0 <= i < j < |r| ensures key(r[i]) != key(r[j]) {
          if i > 0 { assert r[i] == rest[i - 1] && r[j] == rest[j - 1]; }
          else { assert r[j] == rest[j - 1]; }
        }
      }
    }
  }

  lemma {:induction false} DedupSubseq<T, K>(xs: seq<T>, key: T -> K, seen: set<K>)
    ensures Subseq(DedupFrom(xs, key, seen), xs)
  {
    if xs != [] {
      if key(xs[0]) in seen {
        DedupSubseq(xs[1..], key, seen);
        SubseqSkip(DedupFrom(xs[1..], key, seen), xs);
      } else {
        DedupSubseq(xs[1..], key, seen + {key(xs[0])});
      }
    }
  }

  lemma SubseqSkip<T>(a: seq<T>, b: seq<T>)
    requires b != [] && Subseq(a, b[1..])
    ensures Subseq(a, b)
    decreases |b|, 1
  {
    if a != [] && a[0] == b[0] {
      SubseqDrop(a, b[1..]);
    }
  }

  lemma SubseqDrop<T>(a: seq<T>, c: seq<T>)
    requires a != [] && Subseq(a, c)
    ensures Subseq(a[1..], c)
    decreases |c|, 2
  {
    if a[0] == c[0] {
      SubseqSkip(a[1..], c);
    } else {
      SubseqDrop(a, c[1..]);
      SubseqSkip(a[1..], c);
    }
  }

  /** The first element with each key not yet seen is kept. */
  lemma {:induction false} DedupKeepsFirst<T, K>(xs: seq<T>, key: T -> K, seen: set<K>, i: nat)
    requires i < |xs| && key(xs[i]) !in seen
    requires forall k :: 0 <= k < i ==> key(xs[k]) != key(xs[i])
    ensures xs[i] in DedupFrom(xs, key, seen)
  {
    if i == 0 {
    } else if key(xs[0]) in seen {
      DedupKeepsFirst(xs[1..], key, seen, i - 1);
    } else {
      DedupKeepsFirst(xs[1..], key, seen + {key(xs[0])}, i - 1);
    }
  }

  /** Every key of the input outside `seen` is represented in the output. */
  lemma {:induction false} DedupCoversKeys<T, K>(xs: seq<T>, key: T -> K, seen: set<K>, i: nat)
    requires i < |xs| && key(xs[i]) !in seen
    ensures exists j :: 0 <= j < |DedupFrom(xs, key, seen)| && key(DedupFrom(xs, key, seen)[j]) == key(xs[i])
  {
    if i == 0 {
      assert key(DedupFrom(xs, key, seen)[0]) == key(xs[0]);
    } else if key(xs[0]) in seen {
      DedupCoversKeys(xs[1..], key, seen, i - 1);
      assert DedupFrom(xs, key, seen) == DedupFrom(xs[1..], key, seen);
    } else if key(xs[i]) == key(xs[0]) {
      assert key(DedupFrom(xs, key, seen)[0]) == key(xs[0]);
    } else {
      DedupCoversKeys(xs[1..], key, seen + {key(xs[0])}, i - 1);
      var rest := DedupFrom(xs[1..], key, seen + {key(xs[0])});
      var j :| 0 <= j < |rest| && key(rest[j]) == key(xs[i]);
      assert DedupFrom(xs, key, seen)[j + 1] == rest[j];
    }
  }

  /** Input whose keys are already distinct comes out unchanged. */
  lemma {:induction false} DedupOfDistinct<T, K>(xs: seq<T>, key: T -> K, seen: set<K>)
    requires KeysDistinct(xs, key)
    requires forall k :: 0 <= k < |xs| ==> key(xs[k]) !in seen
    ensures DedupFrom(xs, key, seen) == xs
  {
    if xs != [] {
      DedupOfDistinct(xs[1..], key, seen + {key(xs[0])});
    }
  }

  /** Removing duplicates twice is the same as once. */
  lemma DedupIdempotent<T, K>(xs: seq<T>, key: T -> K)
    ensures Dedup(Dedup(xs, key), key) == Dedup(xs, key)
  {
    DedupKeysDistinct(xs, key, {});
    DedupOfDistinct(Dedup(xs, key), key, {});
  }

  /** The first element is always kept, so only an empty list comes out empty. */
  lemma DedupEmpty<T, K>(xs: seq<T>, key: T -> K)
    ensures Dedup(xs, key) == [] <==> xs == []
  {
  }

  /** Every element of a subsequence is an element of the whole. */
  lemma {:induction false} SubseqMembers<T>(a: seq<T>, b: seq<T>)
    requires Subseq(a, b)
    ensures forall x :: x in a ==> x in b
    decreases |b|
  {
    if a != [] && b != [] {
      if a[0] == b[0] {
        SubseqMembers(a[1..], b[1..]);
        assert a == [a[0]] + a[1..];
      } else {
        SubseqMembers(a, b[1..]);
      }
    }
  }
}
