/**
 * The relational building blocks SQLite supplies to the queries: WHERE (Filter),
 * ORDER BY over a key (SortBy), and the reversal that turns insertion order into
 * newest-first order.
 */
module Sequences {
  import opened Text

  /** An ORDER BY key: a text column under the BINARY collation, then an integer column. */
  datatype SortKey = SortKey(text: string, rank: int)

  predicate KeyLe(a: SortKey, b: SortKey)
  {
    StrLess(a.text, b.text) || (a.text == b.text && a.rank <= b.rank)
  }

  lemma KeyLeTotal(a: SortKey, b: SortKey)
    ensures KeyLe(a, b) || KeyLe(b, a)
  {
    StrLessTotal(a.text, b.text);
  }

  lemma KeyLeTransitive(a: SortKey, b: SortKey, c: SortKey)
    requires KeyLe(a, b) && KeyLe(b, c)
    ensures KeyLe(a, c)
  {
    if StrLess(a.text, b.text) && StrLess(b.text, c.text) {
      StrLessTransitive(a.text, b.text, c.text);
    }
  }

  lemma KeyLeAntisymmetric(a: SortKey, b: SortKey)
    requires KeyLe(a, b) && KeyLe(b, a)
    ensures a == b
  {
    if StrLess(a.text, b.text) {
      StrLessAsymmetric(a.text, b.text);
    } else if StrLess(b.text, a.text) {
      StrLessAsymmetric(b.text, a.text);
    }
  }

  predicate SortedBy<T>(s: seq<T>, key: T -> SortKey)
  {
    forall i, j :: 0 <= i < j < |s| ==> KeyLe(key(s[i]), key(s[j]))
  }

  /** Places `x` in front of the first element whose key is not below it. */
  function Insert<T(==)>(x: T, s: seq<T>, key: T -> SortKey): (r: seq<T>)
    ensures |r| == |s| + 1
    ensures multiset(r) == multiset(s) + multiset{x}
  {
    if s == [] then [x]
    else if KeyLe(key(x), key(s[0])) then [x] + s
    else
      assert s == [s[0]] + s[1..];
      [s[0]] + Insert(x, s[1..], key)
  }

  /** Insertion sort: the ORDER BY of the queries. */
  function SortBy<T(==)>(s: seq<T>, key: T -> SortKey): (r: seq<T>)
    ensures |r| == |s|
    ensures multiset(r) == multiset(s)
  {
    if s == [] then []
    else
      assert s == [s[0]] + s[1..];
      Insert(s[0], SortBy(s[1..], key), key)
  }

  lemma {:induction false} InsertSorted<T>(x: T, s: seq<T>, key: T -> SortKey)
    requires SortedBy(s, key)
    ensures SortedBy(Insert(x, s, key), key)
  {
    if s == [] {
    } else if KeyLe(key(x), key(s[0])) {
      var r := [x] + s;
      forall i, j | 0 <= i < j < |r| ensures KeyLe(key(r[i]), key(r[j])) {
        if i == 0 && j > 1 {
          KeyLeTransitive(key(x), key(s[0]), key(s[j - 1]));
        }
      }
    } else {
      KeyLeTotal(key(x), key(s[0]));
      InsertSorted(x, s[1..], key);
      var rest := Insert(x, s[1..], key);
      assert Insert(x, s, key) == [s[0]] + rest;
      forall k | 0 <= k < |rest| ensures KeyLe(key(s[0]), key(rest[k])) {
        assert rest[k] in multiset(rest);
        if rest[k] != x {
          assert rest[k] in multiset(s[1..]);
          var m :| 0 <= m < |s[1..]| && s[1..][m] == rest[k];
          assert s[m + 1] == rest[k];
        }
      }
    }
  }

  /** The result of SortBy is ordered by the key. */
  lemma {:induction false} SortBySorted<T>(s: seq<T>, key: T -> SortKey)
    ensures SortedBy(SortBy(s, key), key)
  {
    if s != [] {
      SortBySorted(s[1..], key);
      InsertSorted(s[0], SortBy(s[1..], key), key);
    }
  }

  /** WHERE p: the rows satisfying p, in table order. */
  function Filter<T>(s: seq<T>, p: T -> bool): (r: seq<T>)
    ensures |r| <= |s|
    ensures forall i :: 0 <= i < |r| ==> r[i] in s && p(r[i])
    ensures forall i :: 0 <= i < |s| && p(s[i]) ==> s[i] in r
  {
    if s == [] then []
    else (if p(s[0]) then [s[0]] else []) + Filter(s[1..], p)
  }

  lemma {:induction false} FilterMultiset<T>(s: seq<T>, p: T -> bool)
    ensures forall x :: multiset(Filter(s, p))[x] == if p(x) then multiset(s)[x] else 0
  {
    if s != [] {
      FilterMultiset(s[1..], p);
      assert s == [s[0]] + s[1..];
    }
  }

  /** A WHERE that no row satisfies selects nothing. */
  lemma {:induction false} FilterNone<T>(s: seq<T>, p: T -> bool)
    requires forall i :: 0 <= i < |s| ==> !p(s[i])
    ensures Filter(s, p) == []
  {
    if s != [] {
      FilterNone(s[1..], p);
    }
  }

  lemma FilterSingle<T>(x: T, p: T -> bool)
    ensures Filter([x], p) == if p(x) then [x] else []
  {
    assert [x][1..] == [];
  }

  /** WHERE distributes over the concatenation of two tables. */
  lemma {:induction false} FilterConcat<T>(a: seq<T>, b: seq<T>, p: T -> bool)
    ensures Filter(a + b, p) == Filter(a, p) + Filter(b, p)
  {
    if a == [] {
      assert a + b == b;
    } else {
      assert (a + b)[0] == a[0];
      assert (a + b)[1..] == a[1..] + b;
      FilterConcat(a[1..], b, p);
    }
  }

  /** A column that strictly increases along the table strictly increases along every WHERE. */
  predicate StrictlyIncreasing<T>(s: seq<T>, f: T -> int)
  {
    forall i, j :: 0 <= i < j < |s| ==> f(s[i]) < f(s[j])
  }

  predicate StrictlyDecreasing<T>(s: seq<T>, f: T -> int)
  {
    forall i, j :: 0 <= i < j < |s| ==> f(s[i]) > f(s[j])
  }

  /** Two tests that agree on every value keep the same elements. */
  lemma {:induction false} FilterAgree<T>(s: seq<T>, p: T -> bool, q: T -> bool)
    requires forall x :: p(x) == q(x)
    ensures Filter(s, p) == Filter(s, q)
  {
    if s != [] {
      FilterAgree(s[1..], p, q);
    }
  }

  /** Filtering one element further along a sequence appends it when it passes. */
  lemma FilterSnoc<T>(s: seq<T>, i: nat, p: T -> bool)
    requires i < |s|
    ensures Filter(s[..i + 1], p) == Filter(s[..i], p) + (if p(s[i]) then [s[i]] else [])
  {
    assert s[..i + 1] == s[..i] + [s[i]];
    FilterConcat(s[..i], [s[i]], p);
    FilterSingle(s[i], p);
  }

  lemma {:induction false} FilterIncreasing<T>(s: seq<T>, p: T -> bool, f: T -> int)
    requires StrictlyIncreasing(s, f)
    ensures StrictlyIncreasing(Filter(s, p), f)
  {
    if s != [] {
      FilterIncreasing(s[1..], p, f);
      var rest := Filter(s[1..], p);
      forall k | 0 <= k < |rest| ensures f(s[0]) < f(rest[k]) {
        assert rest[k] in s[1..];
      }
    }
  }

  function Reverse<T>(s: seq<T>): (r: seq<T>)
    ensures |r| == |s|
    ensures forall k :: 0 <= k < |s| ==> r[k] == s[|s| - 1 - k]
  {
    if s == [] then [] else Reverse(s[1..]) + [s[0]]
  }

  lemma ReverseDecreasing<T>(s: seq<T>, f: T -> int)
    requires StrictlyIncreasing(s, f)
    ensures StrictlyDecreasing(Reverse(s), f)
  {
  }

  lemma {:induction false} ReverseMultiset<T>(s: seq<T>)
    ensures multiset(Reverse(s)) == multiset(s)
  {
    if s != [] {
      ReverseMultiset(s[1..]);
      assert s == [s[0]] + s[1..];
    }
  }

  /** LIMIT n. */
  function Take<T>(s: seq<T>, n: nat): (r: seq<T>)
    ensures |r| == if |s| < n then |s| else n
    ensures r == s[..|r|]
  {
    if |s| <= n then s else s[..n]
  }
}
