/**
 * `Array.from(new Set(xs))` and `Array.prototype.sort()` with no comparator,
 * for arrays of strings: the default sort orders strings lexicographically
 * by their characters.
 */
module JsArrays {

  predicate NoDuplicates<T(==)>(s: seq<T>)
  {
    forall i, j :: 0 <= i < j < |s| ==> s[i] != s[j]
  }

  /**
   * `Array.from(new Set(s))`: the distinct elements of `s`, each once. The
   * order (a Set iterates in insertion order) is left unstated, since the
   * list is sorted next.
   */
  function Distinct(s: seq<string>): (r: seq<string>)
    ensures NoDuplicates(r)
    ensures forall x :: x in r <==> x in s
    ensures |r| <= |s|
  {
    if s == [] then []
    else
      var d := Distinct(s[..|s| - 1]);
      var last := s[|s| - 1];
      assert forall x :: x in s <==> x in s[..|s| - 1] || x == last;
      if last in d then d else d + [last]
  }

  /** Strict lexicographic order on strings, comparing characters from the left. */
  predicate Below(a: string, b: string)
  {
    if a == [] then b != []
    else b != [] && (a[0] < b[0] || (a[0] == b[0] && Below(a[1..], b[1..])))
  }

  lemma {:induction false} BelowIrreflexive(a: string)
    ensures !Below(a, a)
  {
    if a != [] {
      BelowIrreflexive(a[1..]);
    }
  }

  lemma {:induction false} BelowTransitive(a: string, b: string, c: string)
    requires Below(a, b) && Below(b, c)
    ensures Below(a, c)
  {
    if a != [] && b != [] && c != [] && a[0] == b[0] == c[0] {
      BelowTransitive(a[1..], b[1..], c[1..]);
    }
  }

  lemma {:induction false} BelowTotal(a: string, b: string)
    requires a != b
    ensures Below(a, b) || Below(b, a)
  {
    if a != [] && b != [] && a[0] == b[0] {
      assert a == [a[0]] + a[1..] && b == [b[0]] + b[1..];
      BelowTotal(a[1..], b[1..]);
    }
  }

  lemma BelowAsymmetric(a: string, b: string)
    requires Below(a, b)
    ensures !Below(b, a)
  {
    if Below(b, a) {
      BelowTransitive(a, b, a);
      BelowIrreflexive(a);
    }
  }

  predicate StrictlyIncreasing(s: seq<string>)
  {
    forall i, j :: 0 <= i < j < |s| ==> Below(s[i], s[j])
  }

  lemma StrictlyIncreasingHasNoDuplicates(s: seq<string>)
    requires StrictlyIncreasing(s)
    ensures NoDuplicates(s)
  {
    forall i, j | 0 <= i < j < |s|
      ensures s[i] != s[j]
    {
      if s[i] == s[j] {
        BelowIrreflexive(s[i]);
      }
    }
  }

  /** Puts `x` in front of the first element it is not above. */
  function Insert(x: string, s: seq<string>): (r: seq<string>)
    ensures multiset(r) == multiset(s) + multiset{x}
  {
    if s == [] then [x]
    else if !Below(s[0], x) then [x] + s
    else
      assert s == [s[0]] + s[1..];
      [s[0]] + Insert(x, s[1..])
  }

  /** The default `sort()`, as an insertion sort by `Below`. */
  function Sort(s: seq<string>): (r: seq<string>)
    ensures multiset(r) == multiset(s)
  {
    if s == [] then []
    else
      assert s == [s[0]] + s[1..];
      Insert(s[0], Sort(s[1..]))
  }

  lemma {:induction false} InsertKeepsStrictOrder(x: string, s: seq<string>)
    requires StrictlyIncreasing(s) && x !in s
    ensures StrictlyIncreasing(Insert(x, s))
  {
    if s == [] {
    } else if !Below(s[0], x) {
      BelowTotal(x, s[0]);
      forall j | 0 < j < |s|
        ensures Below(x, s[j])
      {
        BelowTransitive(x, s[0], s[j]);
      }
    } else {
      var tail := Insert(x, s[1..]);
      InsertKeepsStrictOrder(x, s[1..]);
      forall y | y in tail
        ensures Below(s[0], y)
      {
        assert y in multiset(tail);
        if y != x {
          assert y in multiset(s[1..]);
          assert y in s[1..];
        }
      }
      var r := [s[0]] + tail;
      forall i, j | 0 <= i < j < |r|
        ensures Below(r[i], r[j])
      {
        if i == 0 {
          assert r[j] == tail[j - 1] && tail[j - 1] in tail;
        } else {
          assert r[i] == tail[i - 1] && r[j] == tail[j - 1];
        }
      }
    }
  }

  /** Sorting a duplicate-free list yields a strictly increasing one. */
  lemma {:induction false} SortIsStrictlyIncreasing(s: seq<string>)
    requires NoDuplicates(s)
    ensures StrictlyIncreasing(Sort(s))
  {
    if s != [] {
      NoDuplicatesTail(s);
      SortIsStrictlyIncreasing(s[1..]);
      var rest := Sort(s[1..]);
      assert s[0] !in s[1..] by {
        forall k | 0 <= k < |s| - 1
          ensures s[1..][k] != s[0]
        {
          assert s[1..][k] == s[k + 1];
        }
      }
      assert s[0] !in rest by {
        assert s[0] !in multiset(s[1..]);
        assert s[0] !in multiset(rest);
      }
      InsertKeepsStrictOrder(s[0], rest);
    }
  }

  /**
   * A strictly increasing list is determined by its elements: any two that
   * enumerate the same strings are equal. So `Sort(Distinct(s))` is the one
   * strictly increasing enumeration of the strings in `s`.
   */
  lemma {:induction false} StrictEnumerationIsUnique(a: seq<string>, b: seq<string>)
    requires StrictlyIncreasing(a) && StrictlyIncreasing(b)
    requires forall x :: x in a <==> x in b
    ensures a == b
  {
    assert a == [] || a[0] in a;
    assert b == [] || b[0] in b;
    if a != [] && b != [] {
      if a[0] != b[0] {
        assert b[0] in a && a[0] in b;
        var i :| 0 <= i < |a| && a[i] == b[0];
        var j :| 0 <= j < |b| && b[j] == a[0];
        assert i > 0 && j > 0;
        BelowAsymmetric(a[0], b[0]);
        assert false;
      }
      assert a == [a[0]] + a[1..] && b == [b[0]] + b[1..];
      forall x
        ensures x in a[1..] <==> x in b[1..]
      {
        if x in a[1..] {
          MemberOfTail(a, b, x);
        }
        if x in b[1..] {
          MemberOfTail(b, a, x);
        }
      }
      StrictEnumerationIsUnique(a[1..], b[1..]);
    }
  }

  lemma MemberOfTail(a: seq<string>, b: seq<string>, x: string)
    requires StrictlyIncreasing(a) && a != [] && b != [] && a[0] == b[0]
    requires forall y :: y in a <==> y in b
    requires x in a[1..]
    ensures x in b[1..]
  {
    var i :| 0 <= i < |a| - 1 && a[1..][i] == x;
    assert a[i + 1] == x;
    BelowIrreflexive(x);
    assert x in b;
    var j :| 0 <= j < |b| && b[j] == x;
    assert b[1..][j - 1] == x;
  }

  lemma NoDuplicatesTail(s: seq<string>)
    requires NoDuplicates(s) && s != []
    ensures NoDuplicates(s[1..])
  {
    forall i, j | 0 <= i < j < |s| - 1
      ensures s[1..][i] != s[1..][j]
    {
      assert s[1..][i] == s[i + 1] && s[1..][j] == s[j + 1];
    }
  }

  lemma {:induction false} NoDuplicatesOccurOnce(s: seq<string>, x: string)
    requires NoDuplicates(s) && x in s
    ensures multiset(s)[x] == 1
  {
    assert s == [s[0]] + s[1..];
    if s[0] == x {
      assert x !in s[1..] by {
        forall k | 0 <= k < |s| - 1
          ensures s[1..][k] != x
        {
          assert s[1..][k] == s[k + 1];
        }
      }
    } else {
      NoDuplicatesTail(s);
      NoDuplicatesOccurOnce(s[1..], x);
    }
  }
}
