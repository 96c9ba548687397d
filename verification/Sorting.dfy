/** Sorting as the operator uses it: sort.Strings, slices.Sort, sort.Slice with a two-field order, and
    the sorted key lists made from maps. */
module Sorting {
  type Order<!T> = (T, T) -> bool

  ghost predicate Strict<T(!new)>(less: Order<T>) {
    && (forall a, b :: less(a, b) ==> !less(b, a))
    && (forall a, b :: a == b || less(a, b) || less(b, a))
    && (forall a, b, c :: !less(b, a) && !less(c, b) ==> !less(c, a))
  }

  ghost predicate Sorted<T>(less: Order<T>, s: seq<T>) {
    forall i, j :: 0 <= i < j < |s| ==> !less(s[j], s[i])
  }

  function Insert<T>(less: Order<T>, x: T, s: seq<T>): seq<T> {
    if s == [] then [x]
    else if less(s[0], x) then [s[0]] + Insert(less, x, s[1..])
    else [x] + s
  }

  lemma {:induction false} InsertSorted<T(!new)>(less: Order<T>, x: T, s: seq<T>)
    requires Strict(less)
    ensures multiset(Insert(less, x, s)) == multiset(s) + multiset{x}
    ensures Sorted(less, s) ==> Sorted(less, Insert(less, x, s))
  {
    if s != [] {
      assert s == [s[0]] + s[1..];
      if less(s[0], x) {
        InsertSorted(less, x, s[1..]);
        var rest := Insert(less, x, s[1..]);
        forall y | y in rest && Sorted(less, s) ensures !less(y, s[0])
        {
          assert y in multiset(rest);
          assert y == x || y in s[1..];
        }
      } else {
        forall i | 0 < i < |s| && Sorted(less, s) ensures !less(s[i], x)
        {
          assert !less(s[0], x) && !less(s[i], s[0]);
        }
      }
    }
  }

  function Sort<T(!new)>(less: Order<T>, s: seq<T>): (r: seq<T>)
    requires Strict(less)
    ensures Sorted(less, r) && multiset(r) == multiset(s)
  {
    if s == [] then []
    else
      assert s == [s[0]] + s[1..];
      InsertSorted(less, s[0], Sort(less, s[1..]));
      Insert(less, s[0], Sort(less, s[1..]))
  }

  lemma SortedFirst<T(!new)>(less: Order<T>, p: seq<T>, x: T)
    requires Strict(less) && Sorted(less, p) && x in multiset(p)
    ensures p != [] && !less(x, p[0])
  {
    assert x in p;
    var i :| 0 <= i < |p| && p[i] == x;
    if i == 0 { assert less(x, x) ==> !less(x, x); }
  }

  /** A sorted sequence is determined by its elements. */
  lemma {:induction false} SortedUnique<T(!new)>(less: Order<T>, p: seq<T>, q: seq<T>)
    requires Strict(less) && Sorted(less, p) && Sorted(less, q) && multiset(p) == multiset(q)
    ensures p == q
  {
    if p == [] || q == [] {
      assert |p| == |multiset(p)| && |q| == |multiset(q)|;
    } else {
      SortedFirst(less, p, q[0]);
      SortedFirst(less, q, p[0]);
      assert p == [p[0]] + p[1..] && q == [q[0]] + q[1..];
      assert multiset(p[1..]) == multiset(p) - multiset{p[0]};
      assert multiset(q[1..]) == multiset(q) - multiset{q[0]};
      SortedUnique(less, p[1..], q[1..]);
    }
  }

  /** The elements of a set in order. */
  ghost function SortedSet<T(!new)>(less: Order<T>, s: set<T>): (r: seq<T>)
    requires Strict(less)
    ensures Sorted(less, r) && multiset(r) == multiset(s)
    ensures forall x :: x in r <==> x in s
    ensures |r| == |s|
  {
    if s == {} then []
    else
      var x :| x in s;
      assert multiset(s) == multiset(s - {x}) + multiset{x};
      InsertSorted(less, x, SortedSet(less, s - {x}));
      var r := Insert(less, x, SortedSet(less, s - {x}));
      assert forall y :: y in r <==> y in multiset(r);
      r
  }

  lemma CountTwice<T>(r: seq<T>, i: int, j: int)
    requires 0 <= i < j < |r| && r[i] == r[j]
    ensures multiset(r)[r[i]] >= 2
  {
    assert r == r[..j] + r[j..];
    assert r[..j][i] in multiset(r[..j]) && r[j..][0] in multiset(r[j..]);
  }

  lemma DistinctElements<T>(s: set<T>, r: seq<T>, i: int, j: int)
    requires multiset(r) == multiset(s) && 0 <= i < j < |r|
    ensures r[i] != r[j]
  {
    assert multiset(s)[r[i]] <= 1;
    if r[i] == r[j] { CountTwice(r, i, j); }
  }

  /** Collects the keys of a map, in whatever order the map yields them, and sorts them. */
  method SortedKeys<T(==, !new)>(less: Order<T>, s: set<T>) returns (keys: seq<T>)
    requires Strict(less)
    ensures keys == SortedSet(less, s)
  {
    keys := [];
    var todo := s;
    while todo != {}
      invariant todo <= s
      invariant multiset(keys) == multiset(s - todo)
    {
      var k :| k in todo;
      assert s - (todo - {k}) == (s - todo) + {k};
      assert multiset((s - todo) + {k}) == multiset(s - todo) + multiset{k};
      keys := keys + [k];
      todo := todo - {k};
    }
    assert s - todo == s;
    keys := Sort(less, keys);
    SortedUnique(less, keys, SortedSet(less, s));
  }

  // Orders. -------------------------------------------------------------------------------------

  /** Byte order of UTF-8 text, which is the order of its code points. */
  predicate Less(a: string, b: string) {
    if b == "" then false
    else if a == "" then true
    else if a[0] != b[0] then a[0] < b[0]
    else Less(a[1..], b[1..])
  }

  predicate PairLess(a: (string, string), b: (string, string)) {
    if a.0 != b.0 then Less(a.0, b.0) else Less(a.1, b.1)
  }

  lemma {:induction false} LessTotal(a: string, b: string)
    ensures a == b || Less(a, b) || Less(b, a)
    ensures !(Less(a, b) && Less(b, a))
  {
    if a != "" && b != "" && a[0] == b[0] {
      LessTotal(a[1..], b[1..]);
      assert a == [a[0]] + a[1..] && b == [b[0]] + b[1..];
    }
  }

  lemma {:induction false} LessTransitive(a: string, b: string, c: string)
    requires !Less(b, a) && !Less(c, b)
    ensures !Less(c, a)
  {
    if a != "" && b != "" && c != "" && a[0] == b[0] == c[0] {
      LessTransitive(a[1..], b[1..], c[1..]);
    }
  }

  lemma LessStrict()
    ensures Strict(Less)
  {
    forall a, b ensures (a == b || Less(a, b) || Less(b, a)) && !(Less(a, b) && Less(b, a)) { LessTotal(a, b); }
    forall a, b, c | !Less(b, a) && !Less(c, b) ensures !Less(c, a) { LessTransitive(a, b, c); }
  }

  lemma PairLessStrict()
    ensures Strict(PairLess)
  {
    LessStrict();
    assert forall a, b :: Less(a, b) ==> !Less(b, a);
    assert forall a, b :: a == b || Less(a, b) || Less(b, a);
    forall a, b, c | !PairLess(b, a) && !PairLess(c, b) ensures !PairLess(c, a)
    {
      LessTransitive(a.0, b.0, c.0) by { LessTotal(a.0, b.0); LessTotal(b.0, c.0); }
      LessTotal(a.0, c.0);
      LessTotal(a.0, b.0);
      LessTotal(b.0, c.0);
      if a.0 == b.0 == c.0 { LessTransitive(a.1, b.1, c.1); }
    }
  }

  /** sort.Strings. */
  function SortStrings(s: seq<string>): (r: seq<string>)
    ensures multiset(r) == multiset(s)
    ensures forall x :: x in r <==> x in s
  {
    LessStrict();
    var r := Sort(Less, s);
    assert forall x :: x in r <==> x in multiset(r);
    assert forall x :: x in s <==> x in multiset(s);
    r
  }

  /** The strings of a set in order, and the pairs of a set in order. */
  ghost function InOrder(s: set<string>): (r: seq<string>)
    ensures forall x :: x in r <==> x in s
    ensures |r| == |s|
  {
    LessStrict();
    SortedSet(Less, s)
  }

  ghost function PairsInOrder(s: set<(string, string)>): (r: seq<(string, string)>)
    ensures forall x :: x in r <==> x in s
    ensures |r| == |s|
    ensures forall i, j :: 0 <= i < j < |r| ==> r[i] != r[j]
  {
    PairLessStrict();
    var r := SortedSet(PairLess, s);
    assert forall i, j :: 0 <= i < j < |r| ==> r[i] != r[j] by {
      forall i, j | 0 <= i < j < |r| ensures r[i] != r[j] { DistinctElements(s, r, i, j); }
    }
    r
  }

  lemma InOrderIsSorted(s: set<string>)
    ensures forall i, j :: 0 <= i < j < |InOrder(s)| ==> Less(InOrder(s)[i], InOrder(s)[j])
  {
    LessStrict();
    var r := SortedSet(Less, s);
    forall i, j | 0 <= i < j < |r| ensures Less(r[i], r[j]) { DistinctElements(s, r, i, j); }
  }

  lemma PairsAreSorted(s: set<(string, string)>)
    ensures forall i, j :: 0 <= i < j < |PairsInOrder(s)| ==> PairLess(PairsInOrder(s)[i], PairsInOrder(s)[j])
  {
    PairLessStrict();
    var r := SortedSet(PairLess, s);
    forall i, j | 0 <= i < j < |r| ensures PairLess(r[i], r[j]) { DistinctElements(s, r, i, j); }
  }

  method SortedStringKeys(s: set<string>) returns (keys: seq<string>)
    ensures keys == InOrder(s)
  {
    assert Strict(Less) by { LessStrict(); }
    keys := SortedKeys(Less, s);
  }

  method SortedPairKeys(s: set<(string, string)>) returns (keys: seq<(string, string)>)
    ensures keys == PairsInOrder(s)
  {
    assert Strict(PairLess) by { PairLessStrict(); }
    keys := SortedKeys(PairLess, s);
  }
}
