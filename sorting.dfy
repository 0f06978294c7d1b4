/** `Array.prototype.sort` with the comparators the extension uses: every
    listing is ordered by its string label, and the default sort of
    `getLanguages` orders strings themselves. */
module Sorting {
  import opened Strings

  predicate SortedBy<T>(s: seq<T>, key: T -> string) {
    forall i, j :: 0 <= i < j < |s| ==> LexLe(key(s[i]), key(s[j]))
  }

  /** Puts `x` in front of the first element whose key is not smaller. */
  function Insert<T>(x: T, s: seq<T>, key: T -> string): (r: seq<T>)
    requires SortedBy(s, key)
    ensures multiset(r) == multiset(s) + multiset{x}
    ensures SortedBy(r, key)
  {
    if |s| == 0 then [x]
    else if LexLe(key(x), key(s[0])) then
      InFront(x, s, key);
      [x] + s
    else
      LexLeTotal(key(x), key(s[0]));
      var t := Insert(x, s[1..], key);
      assert s == [s[0]] + s[1..];
      Behind(s, x, t, key);
      [s[0]] + t
  }

  /** An element no greater than the least of a sorted sequence goes in
      front of it. */
  lemma InFront<T>(x: T, s: seq<T>, key: T -> string)
    requires SortedBy(s, key) && |s| > 0 && LexLe(key(x), key(s[0]))
    ensures SortedBy([x] + s, key)
  {
    forall j | 0 < j < |s| ensures LexLe(key(x), key(s[j])) {
      LexLeTransitive(key(x), key(s[0]), key(s[j]));
    }
    forall i, j | 0 <= i < j < |[x] + s| ensures LexLe(key(([x] + s)[i]), key(([x] + s)[j])) {
      if i > 0 {
        assert ([x] + s)[i] == s[i - 1] && ([x] + s)[j] == s[j - 1];
      } else {
        assert ([x] + s)[j] == s[j - 1];
      }
    }
  }

  /** The head of a sorted sequence stays in front of the rest with `x`
      inserted, when `x` is not smaller. */
  lemma Behind<T>(s: seq<T>, x: T, t: seq<T>, key: T -> string)
    requires SortedBy(s, key) && |s| > 0 && LexLe(key(s[0]), key(x))
    requires multiset(t) == multiset(s[1..]) + multiset{x} && SortedBy(t, key)
    ensures SortedBy([s[0]] + t, key)
  {
    forall j | 0 <= j < |t| ensures LexLe(key(s[0]), key(t[j])) {
      assert t[j] in multiset(t);
      if t[j] != x {
        assert t[j] in multiset(s[1..]);
        var k :| 0 <= k < |s[1..]| && s[1..][k] == t[j];
        assert s[k + 1] == t[j];
      }
    }
    forall i, j | 0 <= i < j < |[s[0]] + t| ensures LexLe(key(([s[0]] + t)[i]), key(([s[0]] + t)[j])) {
      if i > 0 {
        assert ([s[0]] + t)[i] == t[i - 1] && ([s[0]] + t)[j] == t[j - 1];
      } else {
        assert ([s[0]] + t)[j] == t[j - 1];
      }
    }
  }

  /** Insertion sort: a permutation of `xs` in ascending key order. */
  function SortBy<T>(xs: seq<T>, key: T -> string): (r: seq<T>)
    ensures multiset(r) == multiset(xs)
    ensures SortedBy(r, key)
  {
    if |xs| == 0 then []
    else
      assert xs == xs[..|xs| - 1] + [xs[|xs| - 1]];
      Insert(xs[|xs| - 1], SortBy(xs[..|xs| - 1], key), key)
  }
}
