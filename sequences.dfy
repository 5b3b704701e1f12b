/** Sequence operations that the C# code gets from LINQ: Where, a stable OrderBy /
  * ThenBy, and Distinct with a key comparer. */
module Sequences {

  /** Enumerable.Where: the elements satisfying p, in their original order. */
  function Filter<T>(s: seq<T>, p: T -> bool): (r: seq<T>)
    ensures |r| <= |s|
  {
    if s == [] then [] else (if p(s[0]) then [s[0]] else []) + Filter(s[1..], p)
  }

  /** The elements of Filter(s, p) are exactly the elements of s satisfying p. */
  lemma {:induction false} FilterMembers<T>(s: seq<T>, p: T -> bool, x: T)
    ensures x in Filter(s, p) <==> x in s && p(x)
  {
    if s != [] {
      FilterMembers(s[1..], p, x);
      assert s == [s[0]] + s[1..];
    }
  }

  /** Nothing passes the filter when no element satisfies p. */
  lemma FilterNone<T>(s: seq<T>, p: T -> bool)
    requires forall x :: x in s ==> !p(x)
    ensures Filter(s, p) == []
  {
    if Filter(s, p) != [] {
      FilterMembers(s, p, Filter(s, p)[0]);
    }
  }

  lemma {:induction false} FilterAppend<T>(a: seq<T>, b: seq<T>, p: T -> bool)
    ensures Filter(a + b, p) == Filter(a, p) + Filter(b, p)
  {
    if a != [] {
      assert (a + b)[1..] == a[1..] + b;
      FilterAppend(a[1..], b, p);
    } else {
      assert a + b == b;
    }
  }

  lemma {:induction false} FilterPermutation<T>(s: seq<T>, p: T -> bool)
    ensures multiset(Filter(s, p)) <= multiset(s)
  {
    if s != [] {
      FilterPermutation(s[1..], p);
      assert s == [s[0]] + s[1..];
    }
  }

  /** Enumerable.Select: f applied to each element. */
  function Map<T, U>(s: seq<T>, f: T -> U): (r: seq<U>)
    ensures |r| == |s|
  {
    if s == [] then [] else [f(s[0])] + Map(s[1..], f)
  }

  lemma {:induction false} MapAt<T, U>(s: seq<T>, f: T -> U, i: nat)
    requires i < |s|
    ensures Map(s, f)[i] == f(s[i])
  {
    if i > 0 { MapAt(s[1..], f, i - 1); }
  }

  lemma {:induction false} MapAppend<T, U>(a: seq<T>, b: seq<T>, f: T -> U)
    ensures Map(a + b, f) == Map(a, f) + Map(b, f)
  {
    if a == [] {
      assert a + b == b;
    } else {
      assert (a + b)[1..] == a[1..] + b;
      MapAppend(a[1..], b, f);
    }
  }

  /** Enumerable.SelectMany over the first k elements: the lists f gives for
    * s[0], ..., s[k - 1], concatenated. */
  function FlatMapUpTo<T, U>(s: seq<T>, k: nat, f: T -> seq<U>): seq<U>
    requires k <= |s|
  {
    if k == 0 then [] else FlatMapUpTo(s, k - 1, f) + f(s[k - 1])
  }

  function FlatMap<T, U>(s: seq<T>, f: T -> seq<U>): seq<U> {
    FlatMapUpTo(s, |s|, f)
  }

  /** An element of the concatenation comes from the list of one of the k elements. */
  lemma {:induction false} FlatMapUpToMembers<T, U>(s: seq<T>, k: nat, f: T -> seq<U>, x: U)
    requires k <= |s|
    ensures x in FlatMapUpTo(s, k, f) <==> exists i :: 0 <= i < k && x in f(s[i])
  {
    if k > 0 { FlatMapUpToMembers(s, k - 1, f, x); }
  }

  /** Whatever f gives for an element of s is in the concatenation. */
  lemma FlatMapHas<T, U>(s: seq<T>, f: T -> seq<U>, y: T, x: U)
    requires y in s && x in f(y)
    ensures x in FlatMap(s, f)
  {
    var i :| 0 <= i < |s| && s[i] == y;
    FlatMapUpToMembers(s, |s|, f, x);
  }

  /** The concatenation is empty exactly when each of the k lists is. */
  lemma {:induction false} FlatMapUpToEmpty<T, U>(s: seq<T>, k: nat, f: T -> seq<U>)
    requires k <= |s|
    ensures FlatMapUpTo(s, k, f) == [] <==> forall i :: 0 <= i < k ==> f(s[i]) == []
  {
    if k > 0 { FlatMapUpToEmpty(s, k - 1, f); }
  }

  /** Two functions that agree on the first k elements give the same concatenation. */
  lemma {:induction false} FlatMapUpToCongruent<T, U>(s: seq<T>, k: nat, f: T -> seq<U>, g: T -> seq<U>)
    requires k <= |s|
    requires forall i :: 0 <= i < k ==> f(s[i]) == g(s[i])
    ensures FlatMapUpTo(s, k, f) == FlatMapUpTo(s, k, g)
  {
    if k > 0 { FlatMapUpToCongruent(s, k - 1, f, g); }
  }

  /** Three lists joined from the left are the same lists joined from the right. */
  lemma Associative<T>(a: seq<T>, b: seq<T>, c: seq<T>)
    ensures a + b + c == a + (b + c)
  {
  }

  lemma ConcatAssociative<T>(a: seq<T>, b: seq<T>, c: seq<T>, d: seq<T>)
    ensures a + (b + (c + d)) == a + b + c + d
  {
  }

  /** The list of s[0] comes first in the concatenation. */
  lemma {:induction false} FlatMapPrefix<T, U>(s: seq<T>, k: nat, f: T -> seq<U>)
    requires 1 <= k <= |s|
    ensures f(s[0]) <= FlatMapUpTo(s, k, f)
  {
    if k > 1 {
      FlatMapPrefix(s, k - 1, f);
    }
  }

  /** When only the list of s[g] is non-empty, the concatenation is that list. */
  lemma {:induction false} FlatMapSingle<T, U>(s: seq<T>, k: nat, f: T -> seq<U>, g: nat)
    requires g < k <= |s|
    requires forall i :: 0 <= i < |s| && i != g ==> f(s[i]) == []
    ensures FlatMapUpTo(s, k, f) == f(s[g])
  {
    if k - 1 == g {
      FlatMapUpToEmpty(s, g, f);
    } else {
      FlatMapSingle(s, k - 1, f, g);
    }
  }

  /** When g yields [f(x)] for the x satisfying p and nothing for the others, the
    * concatenation is f mapped over the elements satisfying p. */
  lemma {:induction false} FlatMapOfOptional<T, U>(s: seq<T>, k: nat, g: T -> seq<U>, p: T -> bool, f: T -> U)
    requires k <= |s|
    requires forall x :: g(x) == if p(x) then [f(x)] else []
    ensures FlatMapUpTo(s, k, g) == Map(Filter(s[..k], p), f)
  {
    if k > 0 {
      var x := s[k - 1];
      FlatMapOfOptional(s, k - 1, g, p, f);
      assert s[..k] == s[..k - 1] + [x];
      FilterAppend(s[..k - 1], [x], p);
      var kept := if p(x) then [x] else [];
      assert Filter([x], p) == kept + Filter([x][1..], p);
      assert Filter([x], p) == kept;
      MapAppend(Filter(s[..k - 1], p), kept, f);
      assert Map(kept, f) == g(x) by {
        if p(x) { assert Map(kept, f) == [f(x)] + Map(kept[1..], f); }
      }
    }
  }

  /** With g as in FlatMapOfOptional, the concatenation holds f(x) for exactly the
    * elements x satisfying p. */
  lemma FlatMapOptionalMembers<T, U>(s: seq<T>, g: T -> seq<U>, p: T -> bool, f: T -> U, y: U)
    requires forall x :: g(x) == if p(x) then [f(x)] else []
    ensures y in FlatMap(s, g) <==> exists x :: x in s && p(x) && y == f(x)
  {
    FlatMapUpToMembers(s, |s|, g, y);
    if y in FlatMap(s, g) {
      var i :| 0 <= i < |s| && y in g(s[i]);
    }
    if x :| x in s && p(x) && y == f(x) {
      var i :| 0 <= i < |s| && s[i] == x;
      assert y in g(s[i]);
    }
  }

  /** Lexicographic order on integer keys.  Every LINQ OrderBy / ThenBy chain of the
    * model sorts by such a key: ascending components as they are, descending ones
    * negated. */
  predicate LexLe(a: seq<int>, b: seq<int>)
    decreases |a|
  {
    a == [] || (b != [] && (a[0] < b[0] || (a[0] == b[0] && LexLe(a[1..], b[1..]))))
  }

  lemma {:induction false} LexLeTotal(a: seq<int>, b: seq<int>)
    ensures LexLe(a, b) || LexLe(b, a)
    decreases |a|
  {
    if a != [] && b != [] && a[0] == b[0] { LexLeTotal(a[1..], b[1..]); }
  }

  lemma {:induction false} LexLeTrans(a: seq<int>, b: seq<int>, c: seq<int>)
    requires LexLe(a, b) && LexLe(b, c)
    ensures LexLe(a, c)
    decreases |a|
  {
    if a != [] && b != [] && c != [] && a[0] == b[0] && b[0] == c[0] {
      LexLeTrans(a[1..], b[1..], c[1..]);
    }
  }

  lemma {:induction false} LexLeAntisym(a: seq<int>, b: seq<int>)
    requires LexLe(a, b) && LexLe(b, a)
    ensures a == b
    decreases |a|
  {
    if a != [] {
      LexLeAntisym(a[1..], b[1..]);
      assert a == [a[0]] + a[1..] && b == [b[0]] + b[1..];
    }
  }

  /** s is ordered by key. */
  ghost predicate SortedBy<T>(s: seq<T>, key: T -> seq<int>) {
    forall i, j :: 0 <= i < j < |s| ==> LexLe(key(s[i]), key(s[j]))
  }

  /** Inserts x in front of the first element whose key is not smaller. */
  function Insert<T>(x: T, s: seq<T>, key: T -> seq<int>): (r: seq<T>)
    ensures |r| == |s| + 1
  {
    if s == [] then [x]
    else if LexLe(key(x), key(s[0])) then [x] + s
    else [s[0]] + Insert(x, s[1..], key)
  }

  lemma {:induction false} InsertPermutes<T>(x: T, s: seq<T>, key: T -> seq<int>)
    ensures multiset(Insert(x, s, key)) == multiset(s) + multiset{x}
  {
    if s != [] && !LexLe(key(x), key(s[0])) {
      InsertPermutes(x, s[1..], key);
      assert s == [s[0]] + s[1..];
    }
  }

  /** The stable sort LINQ's OrderBy performs: elements with equal keys keep their
    * relative order (proved in SortByKeepsTies). */
  function SortBy<T>(s: seq<T>, key: T -> seq<int>): (r: seq<T>)
    ensures |r| == |s|
  {
    if s == [] then [] else Insert(s[0], SortBy(s[1..], key), key)
  }

  /** SortBy only reorders: the result is a permutation of the input. */
  lemma {:induction false} SortByPermutes<T>(s: seq<T>, key: T -> seq<int>)
    ensures multiset(SortBy(s, key)) == multiset(s)
  {
    if s != [] {
      SortByPermutes(s[1..], key);
      InsertPermutes(s[0], SortBy(s[1..], key), key);
      assert s == [s[0]] + s[1..];
    }
  }

  lemma SortedTail<T>(s: seq<T>, key: T -> seq<int>)
    requires s != [] && SortedBy(s, key)
    ensures SortedBy(s[1..], key)
  {
    var t := s[1..];
    forall i, j | 0 <= i < j < |t| ensures LexLe(key(t[i]), key(t[j])) {
      assert t[i] == s[i + 1] && t[j] == s[j + 1];
    }
  }

  /** A sorted list stays sorted under a new head no greater than its first element. */
  lemma SortedCons<T>(x: T, s: seq<T>, key: T -> seq<int>)
    requires SortedBy(s, key)
    requires s != [] ==> LexLe(key(x), key(s[0]))
    ensures SortedBy([x] + s, key)
  {
    var r := [x] + s;
    forall i, j | 0 <= i < j < |r| ensures LexLe(key(r[i]), key(r[j])) {
      assert r[j] == s[j - 1];
      if i == 0 {
        if j > 1 { LexLeTrans(key(x), key(s[0]), key(s[j - 1])); }
      } else {
        assert r[i] == s[i - 1];
      }
    }
  }

  lemma {:induction false} InsertSorted<T>(x: T, s: seq<T>, key: T -> seq<int>)
    requires SortedBy(s, key)
    ensures SortedBy(Insert(x, s, key), key)
  {
    if s == [] {
    } else if LexLe(key(x), key(s[0])) {
      SortedCons(x, s, key);
    } else {
      SortedTail(s, key);
      InsertSorted(x, s[1..], key);
      var t := Insert(x, s[1..], key);
      LexLeTotal(key(x), key(s[0]));
      if |s| > 1 {
        assert t[0] == x || t[0] == s[1];
      }
      SortedCons(s[0], t, key);
    }
  }

  /** SortBy keeps exactly the elements it is given. */
  lemma SortByMembers<T>(s: seq<T>, key: T -> seq<int>, x: T)
    ensures x in SortBy(s, key) <==> x in s
  {
    SortByPermutes(s, key);
    assert x in SortBy(s, key) <==> x in multiset(SortBy(s, key));
  }

  /** The result of SortBy is ordered by key. */
  lemma {:induction false} SortBySorted<T>(s: seq<T>, key: T -> seq<int>)
    ensures SortedBy(SortBy(s, key), key)
  {
    if s != [] {
      SortBySorted(s[1..], key);
      InsertSorted(s[0], SortBy(s[1..], key), key);
    }
  }

  lemma LexLeRefl(a: seq<int>)
    ensures LexLe(a, a)
  {
    LexLeTotal(a, a);
  }

  /** The index of the first element of s whose key is maximal. */
  function FirstMaxIndex<T>(s: seq<T>, key: T -> seq<int>): (w: nat)
    requires s != []
    ensures w < |s|
    decreases |s|
  {
    if |s| == 1 then 0
    else
      var k := 1 + FirstMaxIndex(s[1..], key);
      if LexLe(key(s[k]), key(s[0])) then 0 else k
  }

  /** The key at FirstMaxIndex is maximal, and no earlier element has the same key. */
  lemma {:induction false} FirstMaxIndexIsFirstMax<T>(s: seq<T>, key: T -> seq<int>)
    requires s != []
    ensures forall j :: 0 <= j < |s| ==> LexLe(key(s[j]), key(s[FirstMaxIndex(s, key)]))
    ensures forall j :: 0 <= j < FirstMaxIndex(s, key) ==> key(s[j]) != key(s[FirstMaxIndex(s, key)])
    decreases |s|
  {
    LexLeRefl(key(s[0]));
    if |s| > 1 {
      var t := s[1..];
      FirstMaxIndexIsFirstMax(t, key);
      var k := 1 + FirstMaxIndex(t, key);
      assert forall j :: 1 <= j < |s| ==> s[j] == t[j - 1];
      if LexLe(key(s[k]), key(s[0])) {
        forall j | 1 <= j < |s| ensures LexLe(key(s[j]), key(s[0])) {
          LexLeTrans(key(s[j]), key(s[k]), key(s[0]));
        }
      } else {
        LexLeTotal(key(s[k]), key(s[0]));
      }
    }
  }

  function Negate(a: seq<int>): (r: seq<int>)
    ensures |r| == |a| && forall i :: 0 <= i < |a| ==> r[i] == -a[i]
  {
    seq(|a|, i requires 0 <= i < |a| => -a[i])
  }

  lemma {:induction false} LexLeNegate(a: seq<int>, b: seq<int>)
    requires |a| == |b|
    ensures LexLe(Negate(a), Negate(b)) <==> LexLe(b, a)
    decreases |a|
  {
    if a != [] {
      LexLeNegate(a[1..], b[1..]);
      assert Negate(a)[1..] == Negate(a[1..]) && Negate(b)[1..] == Negate(b[1..]);
    }
  }

  /** The key of a descending sort (OrderByDescending / ThenByDescending). */
  function NegKey<T>(key: T -> seq<int>): T -> seq<int> {
    x => Negate(key(x))
  }

  /** Sorting by descending key puts the first maximal element in front. */
  lemma {:induction false} FirstMaxIsHeadOfDescendingSort<T>(s: seq<T>, key: T -> seq<int>)
    requires s != []
    requires forall x, y :: |key(x)| == |key(y)|
    ensures SortBy(s, NegKey(key))[0] == s[FirstMaxIndex(s, key)]
    decreases |s|
  {
    if |s| > 1 {
      FirstMaxIsHeadOfDescendingSort(s[1..], key);
      var k := 1 + FirstMaxIndex(s[1..], key);
      var t := SortBy(s[1..], NegKey(key));
      assert t[0] == s[k];
      LexLeNegate(key(s[0]), key(s[k]));
    }
  }

  /** Filtering keeps a list sorted. */
  lemma {:induction false} FilterSorted<T>(s: seq<T>, p: T -> bool, key: T -> seq<int>)
    requires SortedBy(s, key)
    ensures SortedBy(Filter(s, p), key)
  {
    if s != [] {
      FilterSorted(s[1..], p, key);
      var t := Filter(s[1..], p);
      if p(s[0]) {
        var r := [s[0]] + t;
        forall i, j | 0 <= i < j < |r| ensures LexLe(key(r[i]), key(r[j])) {
          if i == 0 {
            assert r[j] == t[j - 1];
            FilterMembers(s[1..], p, t[j - 1]);
            var k :| 0 <= k < |s[1..]| && s[1..][k] == t[j - 1];
            assert s[k + 1] == r[j];
          } else {
            assert r[i] == t[i - 1] && r[j] == t[j - 1];
          }
        }
      }
    }
  }

  /** Mapping with a function that carries each key over keeps a list sorted. */
  lemma MapSorted<T, U>(s: seq<T>, f: T -> U, key: T -> seq<int>, key2: U -> seq<int>)
    requires SortedBy(s, key)
    requires forall x :: key2(f(x)) == key(x)
    ensures SortedBy(Map(s, f), key2)
  {
    var r := Map(s, f);
    forall i, j | 0 <= i < j < |r| ensures LexLe(key2(r[i]), key2(r[j])) {
      MapAt(s, f, i);
      MapAt(s, f, j);
    }
  }

  /** The elements whose key is k, as a filter predicate. */
  function HasKey<T>(key: T -> seq<int>, k: seq<int>): T -> bool {
    z => key(z) == k
  }

  lemma FilterCons<T>(x: T, s: seq<T>, p: T -> bool)
    ensures Filter([x] + s, p) == (if p(x) then [x] else []) + Filter(s, p)
  {
    assert ([x] + s)[1..] == s;
  }

  lemma InsertPastHead<T>(x: T, s: seq<T>, key: T -> seq<int>)
    requires s != [] && !LexLe(key(x), key(s[0]))
    ensures Insert(x, s, key) == [s[0]] + Insert(x, s[1..], key)
  {
  }

  lemma FilterHead<T>(s: seq<T>, p: T -> bool)
    requires s != []
    ensures Filter(s, p) == (if p(s[0]) then [s[0]] else []) + Filter(s[1..], p)
  {
  }

  lemma {:induction false} InsertTies<T>(x: T, s: seq<T>, key: T -> seq<int>, k: seq<int>)
    ensures Filter(Insert(x, s, key), HasKey(key, k))
         == (if key(x) == k then [x] else []) + Filter(s, HasKey(key, k))
  {
    var c := HasKey(key, k);
    if s == [] || LexLe(key(x), key(s[0])) {
      assert Insert(x, s, key) == [x] + s;
      FilterCons(x, s, c);
    } else {
      var t := Insert(x, s[1..], key);
      InsertTies(x, s[1..], key, k);
      InsertPastHead(x, s, key);
      FilterCons(s[0], t, c);
      FilterHead(s, c);
      if key(x) == k {
        assert key(s[0]) != k by { LexLeTotal(k, k); }
      }
    }
  }

  /** Stability: for every key k, the elements with key k appear in the sorted result
    * in the same order, and the same number of times, as in the input. */
  lemma {:induction false} SortByKeepsTies<T>(s: seq<T>, key: T -> seq<int>, k: seq<int>)
    ensures Filter(SortBy(s, key), HasKey(key, k)) == Filter(s, HasKey(key, k))
  {
    if s != [] {
      SortByKeepsTies(s[1..], key, k);
      InsertTies(s[0], SortBy(s[1..], key), key, k);
      assert s == [s[0]] + s[1..];
      FilterCons(s[0], s[1..], HasKey(key, k));
    }
  }

  /** The keys of the elements of s. */
  function KeySet<T, K>(s: seq<T>, key: T -> K): set<K> {
    set i | 0 <= i < |s| :: key(s[i])
  }

  /** No element before position j has the key of s[j]. */
  predicate FirstOfKey<T, K(==)>(s: seq<T>, key: T -> K, j: nat)
    requires j < |s|
  {
    forall k :: 0 <= k < j ==> key(s[k]) != key(s[j])
  }

  lemma KeySetAppend<T, K>(s: seq<T>, key: T -> K, x: T)
    ensures KeySet(s + [x], key) == KeySet(s, key) + {key(x)}
  {
    var t := s + [x];
    assert forall i :: 0 <= i < |s| ==> t[i] == s[i];
    assert t[|s|] == x;
  }

  /** The values of a dictionary, in insertion order, after adding each element of s
    * whose key it does not hold yet: one element per key, keys in first-seen order. */
  function FirstByKey<T, K(==)>(s: seq<T>, key: T -> K): (r: seq<T>)
    ensures KeySet(r, key) == KeySet(s, key)
    ensures forall i, j :: 0 <= i < j < |r| ==> key(r[i]) != key(r[j])
    ensures forall i :: 0 <= i < |r| ==> r[i] in s
    decreases |s|
  {
    if s == [] then []
    else
      var init := s[..|s| - 1];
      var x := s[|s| - 1];
      assert s == init + [x];
      KeySetAppend(init, key, x);
      var r := FirstByKey(init, key);
      if key(x) in KeySet(r, key) then r
      else
        KeySetAppend(r, key, x);
        r + [x]
  }

  /** Adding one more element keeps the dictionary as it is when its key is present and
    * appends the element otherwise. */
  lemma FirstByKeyStep<T, K>(s: seq<T>, key: T -> K, x: T)
    ensures FirstByKey(s + [x], key) ==
      if key(x) in KeySet(FirstByKey(s, key), key) then FirstByKey(s, key) else FirstByKey(s, key) + [x]
  {
    assert (s + [x])[..|s|] == s;
  }

  /** An element is kept exactly when it is the first of the elements with its key. */
  lemma FirstByKeyIff<T, K>(s: seq<T>, key: T -> K, x: T)
    ensures x in FirstByKey(s, key) <==> exists j :: 0 <= j < |s| && s[j] == x && FirstOfKey(s, key, j)
  {
    if x in FirstByKey(s, key) {
      var j := KeptIsFirst(s, key, x);
    }
    if exists j :: 0 <= j < |s| && s[j] == x && FirstOfKey(s, key, j) {
      var j :| 0 <= j < |s| && s[j] == x && FirstOfKey(s, key, j);
      FirstIsKept(s, key, j);
    }
  }

  /** A kept element sits at a position where no earlier element has its key. */
  lemma {:induction false} KeptIsFirst<T, K>(s: seq<T>, key: T -> K, x: T) returns (j: nat)
    requires x in FirstByKey(s, key)
    ensures j < |s| && s[j] == x && FirstOfKey(s, key, j)
    decreases |s|
  {
    var init := s[..|s| - 1];
    var l := s[|s| - 1];
    assert s == init + [l];
    if x in FirstByKey(init, key) {
      j := KeptIsFirst(init, key, x);
      assert forall k :: 0 <= k <= j ==> s[k] == init[k];
    } else {
      assert x == l && key(l) !in KeySet(init, key) by {
        FirstByKeyStep(init, key, l);
      }
      j := |s| - 1;
      assert forall k :: 0 <= k < |init| ==> key(s[k]) == key(init[k]) && key(init[k]) in KeySet(init, key);
    }
  }

  lemma {:induction false} FirstIsKept<T, K>(s: seq<T>, key: T -> K, j: nat)
    requires j < |s| && FirstOfKey(s, key, j)
    ensures s[j] in FirstByKey(s, key)
    decreases |s|
  {
    var init := s[..|s| - 1];
    var l := s[|s| - 1];
    assert s == init + [l];
    FirstByKeyStep(init, key, l);
    assert forall k :: 0 <= k < |init| ==> s[k] == init[k];
    if j == |s| - 1 {
      assert key(l) !in KeySet(init, key);
    } else {
      assert FirstOfKey(init, key, j);
      FirstIsKept(init, key, j);
    }
  }

  /** The position of the first element of s with key k. */
  function FirstIndex<T, K(==)>(s: seq<T>, key: T -> K, k: K): (j: nat)
    requires k in KeySet(s, key)
    ensures j < |s| && key(s[j]) == k && FirstOfKey(s, key, j)
    decreases |s|
  {
    if key(s[0]) == k then 0
    else
      var i :| 0 <= i < |s| && key(s[i]) == k;
      assert key(s[1..][i - 1]) == k;
      var j := 1 + FirstIndex(s[1..], key, k);
      assert forall m :: 1 <= m < j ==> s[m] == s[1..][m - 1];
      j
  }

  /** Only one position holds the first element of a key. */
  lemma FirstIndexUnique<T, K>(s: seq<T>, key: T -> K, j: nat)
    requires j < |s| && FirstOfKey(s, key, j)
    ensures key(s[j]) in KeySet(s, key) && FirstIndex(s, key, key(s[j])) == j
  {
  }

  /** Appending an element does not move the first position of a key already present. */
  lemma FirstIndexAppend<T, K>(s: seq<T>, key: T -> K, x: T, k: K)
    requires k in KeySet(s, key)
    ensures k in KeySet(s + [x], key) && FirstIndex(s + [x], key, k) == FirstIndex(s, key, k)
  {
    var t := s + [x];
    var j := FirstIndex(s, key, k);
    assert forall m :: 0 <= m < |s| ==> t[m] == s[m];
    assert FirstOfKey(t, key, j);
    FirstIndexUnique(t, key, j);
  }

  /** FirstByKey keeps, for each key, the first element of s with that key, and keeps them
    * in the order in which their keys first occur in s. */
  lemma {:induction false} FirstByKeyOrder<T, K>(s: seq<T>, key: T -> K)
    ensures var r := FirstByKey(s, key);
      forall i :: 0 <= i < |r| ==>
        key(r[i]) in KeySet(s, key) && r[i] == s[FirstIndex(s, key, key(r[i]))]
    ensures var r := FirstByKey(s, key);
      forall i, m :: 0 <= i < m < |r| ==>
        key(r[i]) in KeySet(s, key) && key(r[m]) in KeySet(s, key)
        && FirstIndex(s, key, key(r[i])) < FirstIndex(s, key, key(r[m]))
    decreases |s|
  {
    var r := FirstByKey(s, key);
    if s != [] {
      var init := s[..|s| - 1];
      var x := s[|s| - 1];
      assert s == init + [x];
      FirstByKeyStep(init, key, x);
      FirstByKeyOrder(init, key);
      var q := FirstByKey(init, key);
      assert forall i :: 0 <= i < |q| ==> key(q[i]) in KeySet(init, key);
      forall i | 0 <= i < |q|
        ensures FirstIndex(s, key, key(q[i])) == FirstIndex(init, key, key(q[i]))
        ensures FirstIndex(init, key, key(q[i])) < |init|
      {
        FirstIndexAppend(init, key, x, key(q[i]));
      }
      assert forall m :: 0 <= m < |init| ==> s[m] == init[m];
      if r != q {
        assert r == q + [x] && key(x) !in KeySet(init, key);
        assert FirstOfKey(s, key, |init|) by {
          forall m | 0 <= m < |init| ensures key(s[m]) != key(x) {
            assert key(init[m]) in KeySet(init, key);
          }
        }
        FirstIndexUnique(s, key, |init|);
        assert r[|q|] == x;
      }
    }
  }
}
