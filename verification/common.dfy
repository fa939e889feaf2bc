/** Shared vocabulary: optional values, results carrying the source's exceptions,
    and the sequence helpers several modules need (duplicate removal in
    first-occurrence order, membership positions, sums). */
module Common {

  /** A value that may be absent (Python's None, Java's null). */
  datatype Option<+T> = None | Some(value: T)

  /** A computation that either succeeds or raises; `error` names the exception. */
  datatype Result<+T> = Ok(value: T) | Err(error: string)

  /** No element occurs twice. */
  predicate NoDup<T(==)>(s: seq<T>)
  {
    forall i, j :: 0 <= i < j < |s| ==> s[i] != s[j]
  }

  /** Position of the first occurrence of `x` in `s`. */
  function FirstIndex<T(==)>(s: seq<T>, x: T): (k: nat)
    requires x in s
    ensures k < |s| && s[k] == x
    ensures x !in s[..k]
  {
    if s[0] == x then 0 else 1 + FirstIndex(s[1..], x)
  }

  /** The first occurrence of an element lies in a prefix exactly when the element does. */
  lemma {:induction false} FirstIndexPrefix<T>(s: seq<T>, m: nat, x: T)
    requires m <= |s| && x in s
    ensures x in s[..m] ==> FirstIndex(s, x) == FirstIndex(s[..m], x)
    ensures x !in s[..m] ==> FirstIndex(s, x) >= m
  {
    if s[0] == x {
      if m > 0 {
        assert s[..m][0] == x;
      }
    } else if m > 0 {
      assert s[..m][1..] == s[1..][..m - 1];
      FirstIndexPrefix(s[1..], m - 1, x);
      if x in s[..m] {
        assert x in s[..m][1..];
      } else {
        assert x !in s[1..][..m - 1];
      }
    } else {
      assert FirstIndex(s, x) >= 0;
    }
  }

  /** Python's `list(dict.fromkeys(s))`: every element once, in the order of its first occurrence. */
  function Dedup<T(==,!new)>(s: seq<T>): (r: seq<T>)
    ensures NoDup(r)
    ensures forall x :: x in r <==> x in s
    ensures forall i, j :: 0 <= i < j < |r| ==> FirstIndex(s, r[i]) < FirstIndex(s, r[j])
  {
    if |s| == 0 then []
    else
      var n := |s| - 1;
      var p := Dedup(s[..n]);
      assert s == s[..n] + [s[n]];
      assert forall i :: 0 <= i < |p| ==> FirstIndex(s, p[i]) == FirstIndex(s[..n], p[i]) by {
        forall i | 0 <= i < |p| {
          FirstIndexPrefix(s, n, p[i]);
        }
      }
      if s[n] in p then p
      else
        var r := p + [s[n]];
        FirstIndexPrefix(s, n, s[n]);
        assert forall i :: 0 <= i < |p| ==> FirstIndex(s[..n], p[i]) < n;
        r
  }

  /** A sequence without repetitions is its own de-duplication. */
  lemma {:induction false} DedupOfDistinct<T(!new)>(s: seq<T>)
    requires NoDup(s)
    ensures Dedup(s) == s
  {
    if |s| > 0 {
      var n := |s| - 1;
      DedupOfDistinct(s[..n]);
      assert s[n] !in s[..n];
      assert s == s[..n] + [s[n]];
    }
  }

  /** Appending an element already present changes nothing. */
  lemma DedupAppendPresent<T(!new)>(s: seq<T>, x: T)
    requires x in s
    ensures Dedup(s + [x]) == Dedup(s)
  {
    assert (s + [x])[..|s|] == s;
  }

  /** Sum of a sequence of reals. */
  function Sum(s: seq<real>): real
  {
    if |s| == 0 then 0.0 else Sum(s[..|s| - 1]) + s[|s| - 1]
  }

  /** Sum distributes over concatenation. */
  lemma {:induction false} SumConcat(a: seq<real>, b: seq<real>)
    ensures Sum(a + b) == Sum(a) + Sum(b)
  {
    if |b| == 0 {
      assert a + b == a;
    } else {
      var n := |b| - 1;
      assert (a + b)[..|a + b| - 1] == a + b[..n];
      SumConcat(a, b[..n]);
    }
  }

  /** A sequence of `n` copies of `v` sums to `n * v`. */
  lemma {:induction false} SumConstant(s: seq<real>, v: real)
    requires forall i :: 0 <= i < |s| ==> s[i] == v
    ensures Sum(s) == (|s| as real) * v
  {
    if |s| > 0 {
      SumConstant(s[..|s| - 1], v);
    }
  }

  /** A sum of values within [lo, hi] lies within [|s| lo, |s| hi]. */
  lemma {:induction false} SumBounds(s: seq<real>, lo: real, hi: real)
    requires forall i :: 0 <= i < |s| ==> lo <= s[i] <= hi
    ensures (|s| as real) * lo <= Sum(s) <= (|s| as real) * hi
  {
    if |s| > 0 {
      SumBounds(s[..|s| - 1], lo, hi);
    }
  }

  /** The quotient is the unique factor: x = q d gives x / d = q. */
  lemma DivUnique(x: real, d: real, q: real)
    requires d != 0.0 && q * d == x
    ensures x / d == q
  {
    var z := x / d;
    assert z * d == x;
    assert (z - q) * d == 0.0;
    assert z - q == ((z - q) * d) / d;
  }

  /** Dividing by a positive n keeps n lo <= x <= n hi as lo <= x / n <= hi. */
  lemma QuotientBounds(x: real, n: real, lo: real, hi: real)
    requires n > 0.0 && n * lo <= x <= n * hi
    ensures lo <= x / n <= hi
  {
    var q := x / n;
    DivUnique(x - lo * n, n, q - lo);
    DivUnique(hi * n - x, n, hi - q);
  }
}
