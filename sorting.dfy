/** `ORDER BY <key>` over a result set, modelled as a stable insertion sort by
    a real-valued key. SQL leaves the order of equal keys unspecified; this
    model keeps them in table order. */
module Sorting {

  ghost predicate SortedBy<T>(s: seq<T>, key: T -> real) {
    forall i, j :: 0 <= i < j < |s| ==> key(s[i]) <= key(s[j])
  }

  /** Inserts `x` before the first element whose key is not smaller. */
  function Insert<T(!new)>(x: T, s: seq<T>, key: T -> real): (r: seq<T>)
    requires SortedBy(s, key)
    ensures SortedBy(r, key)
    ensures forall y :: y in r <==> y == x || y in s
    ensures multiset(r) == multiset(s) + multiset{x}
  {
    if s == [] then [x]
    else if key(x) <= key(s[0]) then
      assert SortedBy([x] + s, key) by {
        forall i, j | 0 <= i < j < |[x] + s| ensures key(([x] + s)[i]) <= key(([x] + s)[j]) {
          if i > 0 { assert ([x] + s)[i] == s[i - 1]; }
        }
      }
      [x] + s
    else
      var rest := Insert(x, s[1..], key);
      assert s == [s[0]] + s[1..];
      assert forall y :: y in rest ==> key(s[0]) <= key(y) by {
        forall y | y in rest ensures key(s[0]) <= key(y) {
          if y != x { var k :| 1 <= k < |s| && s[k] == y; }
        }
      }
      InsertHead(s[0], rest, key);
      [s[0]] + rest
  }

  lemma InsertHead<T>(h: T, s: seq<T>, key: T -> real)
    requires SortedBy(s, key)
    requires forall y :: y in s ==> key(h) <= key(y)
    ensures SortedBy([h] + s, key)
  {
    forall i, j | 0 <= i < j < |[h] + s| ensures key(([h] + s)[i]) <= key(([h] + s)[j]) {
      assert ([h] + s)[j] == s[j - 1];
      if i > 0 { assert ([h] + s)[i] == s[i - 1]; }
    }
  }

  /** Sorts `s` by ascending key; elements with equal keys keep their order. */
  function SortBy<T(!new)>(s: seq<T>, key: T -> real): (r: seq<T>)
    ensures SortedBy(r, key)
    ensures multiset(r) == multiset(s)
  {
    if s == [] then []
    else
      assert s == [s[0]] + s[1..];
      Insert(s[0], SortBy(s[1..], key), key)
  }

  /** No two elements of `s` share a key. */
  ghost predicate DistinctKeys<T, K>(s: seq<T>, key: T -> K) {
    forall i, j :: 0 <= i < j < |s| ==> key(s[i]) != key(s[j])
  }

  /** With distinct keys, no element occurs twice. */
  lemma {:induction false} DistinctKeysOnce<T, K>(s: seq<T>, key: T -> K, x: T)
    requires DistinctKeys(s, key)
    ensures multiset(s)[x] <= 1
  {
    if s != [] {
      assert s == [s[0]] + s[1..];
      assert DistinctKeys(s[1..], key) by {
        forall a, b | 0 <= a < b < |s| - 1 ensures key(s[1..][a]) != key(s[1..][b]) {
          assert s[1..][a] == s[a + 1] && s[1..][b] == s[b + 1];
        }
      }
      DistinctKeysOnce(s[1..], key, x);
      if s[0] == x {
        forall k | 0 <= k < |s| - 1 ensures s[1..][k] != x {
          assert s[1..][k] == s[k + 1] && key(s[0]) != key(s[k + 1]);
        }
      }
    }
  }

  /** Reordering keeps the keys distinct. */
  lemma PermutationKeepsDistinctKeys<T, K>(a: seq<T>, b: seq<T>, key: T -> K)
    requires multiset(a) == multiset(b) && DistinctKeys(a, key)
    ensures DistinctKeys(b, key)
  {
    forall i, j | 0 <= i < j < |b| ensures key(b[i]) != key(b[j]) {
      if b[i] == b[j] {
        assert b == b[..j] + b[j..];
        assert b[..j][i] == b[i] && b[j..][0] == b[j];
        assert multiset(b)[b[i]] == multiset(b[..j])[b[i]] + multiset(b[j..])[b[i]];
        DistinctKeysOnce(a, key, b[i]);
        assert false;
      } else {
        assert b[i] in multiset(a) && b[j] in multiset(a);
        var p :| 0 <= p < |a| && a[p] == b[i];
        var q :| 0 <= q < |a| && a[q] == b[j];
        assert p < q || q < p;
      }
    }
  }

  /** Sorting neither adds nor drops rows. */
  lemma SortByMembers<T(!new)>(s: seq<T>, key: T -> real, x: T)
    ensures x in SortBy(s, key) <==> x in s
  {
    assert x in multiset(SortBy(s, key)) <==> x in multiset(s);
  }
}
