/** Sorting by a caller-supplied comparator, and the byte order on strings.
    Several components sort a slice (`sort.Strings`, `sort.Slice`, `sort.SliceStable`);
    what they rely on is stated here once. */
module Sorting {

  /** `less` behaves as a comparator: asymmetric, and "not less" is transitive. */
  ghost predicate Comparator<T(!new)>(less: (T, T) -> bool) {
    && (forall x, y :: less(x, y) ==> !less(y, x))
    && (forall x, y, z :: !less(y, x) && !less(z, y) ==> !less(z, x))
  }

  /** No later element is less than an earlier one. */
  ghost predicate Sorted<T(!new)>(s: seq<T>, less: (T, T) -> bool) {
    forall i, j | 0 <= i < j < |s| :: !less(s[j], s[i])
  }

  /** Any two different elements of `s` are ordered by `less`. */
  ghost predicate Separates<T(!new)>(s: seq<T>, less: (T, T) -> bool) {
    forall x, y | x in s && y in s && x != y :: less(x, y) || less(y, x)
  }

  /** Puts `x` behind every element that is not greater, so equal elements keep their order. */
  function Insert<T(!new)>(s: seq<T>, x: T, less: (T, T) -> bool): (r: seq<T>)
    requires Comparator(less) && Sorted(s, less)
    ensures Sorted(r, less)
    ensures multiset(r) == multiset(s) + multiset{x}
  {
    if s == [] || !less(x, s[|s| - 1]) then
      assert forall i | 0 <= i < |s| :: !less(x, s[i]);
      s + [x]
    else
      var front, last := s[..|s| - 1], s[|s| - 1];
      var r := Insert(front, x, less);
      assert s == front + [last];
      StaysLast(front, last, x, r, less);
      r + [last]
  }

  /** What no element of `front` exceeds, and `x` does not, stays behind both. */
  lemma StaysLast<T(!new)>(front: seq<T>, last: T, x: T, r: seq<T>, less: (T, T) -> bool)
    requires Sorted(r, less) && multiset(r) == multiset(front) + multiset{x}
    requires !less(last, x) && forall i | 0 <= i < |front| :: !less(last, front[i])
    ensures Sorted(r + [last], less)
  {
    forall i | 0 <= i < |r| ensures !less(last, r[i]) {
      assert r[i] in multiset(r);
      assert r[i] == x || r[i] in multiset(front);
    }
  }

  method SortSlice<T(!new)>(s: seq<T>, less: (T, T) -> bool) returns (r: seq<T>)
    requires Comparator(less)
    ensures Sorted(r, less)
    ensures multiset(r) == multiset(s)
  {
    r := [];
    for i := 0 to |s|
      invariant Sorted(r, less)
      invariant multiset(r) == multiset(s[..i])
    {
      assert s[..i + 1] == s[..i] + [s[i]];
      r := Insert(r, s[i], less);
    }
    assert s[..|s|] == s;
  }

  lemma SameHead<T(!new)>(a: seq<T>, b: seq<T>, less: (T, T) -> bool)
    requires a != [] && b != [] && multiset(a) == multiset(b)
    requires Sorted(a, less) && Sorted(b, less) && Separates(a, less)
    ensures a[0] == b[0]
  {
    assert a[0] in multiset(b) && b[0] in multiset(a);
    var i :| 0 <= i < |b| && b[i] == a[0];
    var j :| 0 <= j < |a| && a[j] == b[0];
    assert i == 0 || !less(b[i], b[0]);
    assert j == 0 || !less(a[j], a[0]);
  }

  /** A sorted arrangement is unique once the comparator separates the elements. */
  lemma {:induction false} SortedUnique<T(!new)>(a: seq<T>, b: seq<T>, less: (T, T) -> bool)
    requires multiset(a) == multiset(b)
    requires Sorted(a, less) && Sorted(b, less) && Separates(a, less)
    ensures a == b
  {
    assert |a| == |multiset(a)| == |multiset(b)| == |b|;
    if a != [] {
      SameHead(a, b, less);
      TailOf(a);
      TailOf(b);
      assert Separates(a[1..], less) by {
        assert forall x :: x in a[1..] ==> x in a;
      }
      SortedUnique(a[1..], b[1..], less);
    }
  }

  lemma TailOf<T>(a: seq<T>)
    requires a != []
    ensures a == [a[0]] + a[1..] && multiset(a[1..]) == multiset(a) - multiset{a[0]}
  {
    assert a == [a[0]] + a[1..];
  }

  lemma SameMembers<T>(a: seq<T>, b: seq<T>)
    requires multiset(a) == multiset(b)
    ensures forall x :: x in a <==> x in b
  {
    forall x ensures x in a <==> x in b {
      assert x in a <==> x in multiset(a);
      assert x in b <==> x in multiset(b);
    }
  }

  /** Lexicographic order on strings. */
  predicate StrLess(a: string, b: string) {
    b != "" && (a == "" || a[0] < b[0] || (a[0] == b[0] && StrLess(a[1..], b[1..])))
  }

  lemma {:induction false} StrTotal(a: string, b: string)
    ensures !(StrLess(a, b) && StrLess(b, a))
    ensures a == b || StrLess(a, b) || StrLess(b, a)
  {
    if a != "" && b != "" {
      StrTotal(a[1..], b[1..]);
      if a[0] == b[0] && a[1..] == b[1..] {
        assert a == [a[0]] + a[1..] && b == [b[0]] + b[1..];
      }
    }
  }

  lemma {:induction false} StrTransitive(a: string, b: string, c: string)
    requires !StrLess(b, a) && !StrLess(c, b)
    ensures !StrLess(c, a)
  {
    if a != "" && b != "" && c != "" && a[0] == b[0] == c[0] {
      StrTransitive(a[1..], b[1..], c[1..]);
    }
  }

  /** What the order means: up to some place the strings agree, and there the first one ends or has the
      smaller character. */
  lemma {:induction false} StrLessMeans(a: string, b: string)
    ensures StrLess(a, b) <==> exists i: nat :: i <= |a| && i < |b| && a[..i] == b[..i] && (i == |a| || a[i] < b[i])
  {
    if StrLess(a, b) {
      var i := FirstDifference(a, b);
    } else {
      forall i: nat | i <= |a| && i < |b| && a[..i] == b[..i] ensures !(i == |a| || a[i] < b[i]) {
        NotBefore(a, b, i);
      }
    }
  }

  lemma {:induction false} FirstDifference(a: string, b: string) returns (i: nat)
    requires StrLess(a, b)
    ensures i <= |a| && i < |b| && a[..i] == b[..i] && (i == |a| || a[i] < b[i])
  {
    i := 0;
    if a != "" && a[0] == b[0] {
      var j := FirstDifference(a[1..], b[1..]);
      i := j + 1;
      assert a[..i] == [a[0]] + a[1..][..j] && b[..i] == [b[0]] + b[1..][..j];
    }
  }

  lemma {:induction false} NotBefore(a: string, b: string, i: nat)
    requires !StrLess(a, b) && i <= |a| && i < |b| && a[..i] == b[..i]
    ensures i < |a| && !(a[i] < b[i])
    decreases i
  {
    if i > 0 {
      assert a[0] == a[..i][0] && b[0] == b[..i][0];
      assert a[1..][..i - 1] == a[..i][1..] && b[1..][..i - 1] == b[..i][1..];
      NotBefore(a[1..], b[1..], i - 1);
    }
  }

  lemma StrComparator()
    ensures Comparator(StrLess)
  {
    forall a, b ensures StrLess(a, b) ==> !StrLess(b, a) { StrTotal(a, b); }
    forall a, b, c | !StrLess(b, a) && !StrLess(c, b) ensures !StrLess(c, a) { StrTransitive(a, b, c); }
  }

  lemma StrSeparates(s: seq<string>)
    ensures Separates(s, StrLess)
  {
    forall x, y | x in s && y in s && x != y ensures StrLess(x, y) || StrLess(y, x) {
      StrTotal(x, y);
    }
  }

  /** `l` lists exactly the strings of `m`, in order and without repeats. */
  ghost predicate IsListing(l: seq<string>, m: set<string>) {
    && Sorted(l, StrLess)
    && multiset(l) == multiset(m)
  }

  lemma ListingUnique(a: seq<string>, b: seq<string>, m: set<string>)
    requires IsListing(a, m) && IsListing(b, m)
    ensures a == b
  {
    StrSeparates(a);
    SortedUnique(a, b, StrLess);
  }

  lemma TwiceCounts<T>(l: seq<T>, i: nat, j: nat)
    requires i < j < |l| && l[i] == l[j]
    ensures multiset(l)[l[i]] >= 2
  {
    assert l == l[..i] + [l[i]] + l[i + 1..j] + [l[j]] + l[j + 1..];
  }

  lemma ListingElements(l: seq<string>, m: set<string>)
    requires IsListing(l, m)
    ensures forall x :: x in l <==> x in m
    ensures forall i, j | 0 <= i < j < |l| :: StrLess(l[i], l[j])
  {
    forall x ensures x in l <==> x in m {
      assert x in l <==> x in multiset(l);
      assert x in m <==> x in multiset(m);
    }
    forall i, j | 0 <= i < j < |l| ensures StrLess(l[i], l[j]) {
      StrTotal(l[i], l[j]);
      if l[i] == l[j] { TwiceCounts(l, i, j); }
      assert multiset(l)[l[i]] <= 1;
    }
  }

  /** The keys of a set, sorted: the append loop over a map, then the sort. */
  method SortedKeys(m: set<string>) returns (out: seq<string>)
    ensures IsListing(out, m)
  {
    StrComparator();
    var keys: seq<string>, todo := [], m;
    while todo != {}
      invariant todo <= m
      invariant multiset(keys) == multiset(m - todo)
      decreases todo
    {
      var k :| k in todo;
      assert m - (todo - {k}) == (m - todo) + {k};
      keys, todo := keys + [k], todo - {k};
    }
    assert m - todo == m;
    out := SortSlice(keys, StrLess);
  }

  lemma {:induction false} ListingExists(m: set<string>)
    ensures exists l :: IsListing(l, m)
    decreases |m|
  {
    StrComparator();
    if m == {} {
      assert IsListing([], m);
    } else {
      var k :| k in m;
      ListingExists(m - {k});
      var l :| IsListing(l, m - {k});
      assert m == (m - {k}) + {k};
      assert IsListing(Insert(l, k, StrLess), m);
    }
  }

  /** The sorted listing of a set, as a value. */
  ghost function Listing(m: set<string>): (l: seq<string>)
    ensures IsListing(l, m)
  {
    ListingExists(m);
    var l :| IsListing(l, m);
    l
  }
}
