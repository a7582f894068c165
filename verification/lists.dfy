/** The Python list operations the rule engine relies on (`list.remove`, a
    filtering comprehension, positional removal), over Dafny sequences. */
module Lists {
  import opened Wrappers

  /** No value occurs at two positions of `s`. */
  predicate NoDup<T(==)>(s: seq<T>) {
    forall i, j | 0 <= i < |s| && 0 <= j < |s| && i != j :: s[i] != s[j]
  }

  /** No value occurs twice in the multiset `m`: NoDup for a collection
      whose order does not matter. */
  predicate Distinct<T>(m: multiset<T>) {
    forall x | x in m :: m[x] <= 1
  }

  /** A sub-multiset of a duplicate-free multiset is duplicate-free. */
  lemma DistinctSub<T>(a: multiset<T>, b: multiset<T>)
    requires a <= b
    requires Distinct(b)
    ensures Distinct(a)
  {
    forall x | x in a ensures a[x] <= 1 {
      assert a[x] <= b[x];
    }
  }

  /** The two ways of saying "no duplicates" agree. */
  lemma {:induction false} NoDupCounts<T>(s: seq<T>)
    ensures NoDup(s) <==> Distinct(multiset(s))
  {
    if |s| > 0 {
      var t := s[1..];
      assert s == [s[0]] + t;
      NoDupCounts(t);
      assert multiset(s) == multiset{s[0]} + multiset(t);
      if NoDup(s) {
        forall i, j | 0 <= i < |t| && 0 <= j < |t| && i != j
          ensures t[i] != t[j]
        {
          assert t[i] == s[i + 1] && t[j] == s[j + 1];
        }
        assert s[0] !in t;
        assert multiset(t)[s[0]] == 0;
      }
      if Distinct(multiset(s)) {
        assert multiset(s)[s[0]] <= 1;
        assert multiset(s)[s[0]] == 1 + multiset(t)[s[0]];
        assert multiset(t)[s[0]] == 0;
        forall x ensures multiset(t)[x] <= 1 {
          assert multiset(s)[x] == multiset(t)[x] + (if x == s[0] then 1 else 0);
        }
        forall i, j | 0 <= i < |s| && 0 <= j < |s| && i != j
          ensures s[i] != s[j]
        {
          if i == 0 {
            assert s[j] == t[j - 1];
          } else if j == 0 {
            assert s[i] == t[i - 1];
          } else {
            assert s[i] == t[i - 1] && s[j] == t[j - 1];
          }
        }
      }
    }
  }

  /** A sub-multiset of a duplicate-free sequence is duplicate-free. */
  lemma NoDupSub<T>(a: seq<T>, b: seq<T>)
    requires multiset(a) <= multiset(b)
    requires NoDup(b)
    ensures NoDup(a)
  {
    NoDupCounts(a);
    NoDupCounts(b);
  }

  /** `list.remove(x)`: drops the first occurrence of `x`; `None` stands for
      the `ValueError` raised when `x` is absent. */
  function RemoveFirst<T(==)>(s: seq<T>, x: T): (r: Option<seq<T>>)
    ensures r.Some? <==> x in s
    ensures r.Some? ==> |r.value| == |s| - 1
    ensures r.Some? ==> multiset(r.value) == multiset(s) - multiset{x}
  {
    if |s| == 0 then None
    else if s[0] == x then
      assert s == [s[0]] + s[1..];
      Some(s[1..])
    else
      match RemoveFirst(s[1..], x)
      case None => None
      case Some(t) =>
        assert s == [s[0]] + s[1..];
        Some([s[0]] + t)
  }

  /** Drops position `i`, keeping the order of the others. */
  function RemoveAt<T>(s: seq<T>, i: nat): (r: seq<T>)
    requires i < |s|
    ensures |r| == |s| - 1
    ensures multiset(r) == multiset(s) - multiset{s[i]}
  {
    assert s == s[..i] + [s[i]] + s[i + 1..];
    s[..i] + s[i + 1..]
  }

  /** `[c for c in s if c not in xs]`. */
  function Without<T(==,!new)>(s: seq<T>, xs: seq<T>): (r: seq<T>)
    ensures forall y :: multiset(r)[y] == if y in xs then 0 else multiset(s)[y]
  {
    if |s| == 0 then []
    else
      assert s == [s[0]] + s[1..];
      (if s[0] in xs then [] else [s[0]]) + Without(s[1..], xs)
  }

  /** On a duplicate-free sequence, filtering out a sub-multiset removes
      exactly that sub-multiset. */
  lemma WithoutRemovesExactly<T(!new)>(s: seq<T>, xs: seq<T>)
    requires NoDup(s)
    requires multiset(xs) <= multiset(s)
    ensures multiset(Without(s, xs)) == multiset(s) - multiset(xs)
    ensures |Without(s, xs)| == |s| - |xs|
  {
    NoDupCounts(s);
    var r := Without(s, xs);
    forall y ensures multiset(r)[y] == (multiset(s) - multiset(xs))[y] {
      if y in xs {
        assert multiset(xs)[y] >= 1;
      }
    }
    assert multiset(r) == multiset(s) - multiset(xs);
    assert |multiset(s) - multiset(xs)| == |multiset(s)| - |multiset(xs)| by {
      assert multiset(s) == (multiset(s) - multiset(xs)) + multiset(xs);
    }
  }

  /** Splitting a sub-multiset test on the first element of a sequence. */
  lemma SubMultisetCons<T>(x: T, rest: seq<T>, m: multiset<T>)
    ensures multiset([x] + rest) <= m <==> x in m && multiset(rest) <= m - multiset{x}
  {
    var a := multiset([x] + rest);
    assert a == multiset{x} + multiset(rest);
    if a <= m {
      assert a[x] >= 1;
      forall y ensures multiset(rest)[y] <= (m - multiset{x})[y] {
        assert a[y] <= m[y];
      }
    }
    if x in m && multiset(rest) <= m - multiset{x} {
      forall y ensures a[y] <= m[y] {
        assert multiset(rest)[y] <= (m - multiset{x})[y];
      }
    }
  }

  /** Taking out a sub-multiset and putting it back restores the whole. */
  lemma MultisetSubAdd<T>(a: multiset<T>, b: multiset<T>)
    requires b <= a
    ensures (a - b) + b == a
    ensures |a - b| == |a| - |b|
  {
    forall x ensures ((a - b) + b)[x] == a[x] {
      assert b[x] <= a[x];
    }
    assert (a - b) + b == a;
  }
}
