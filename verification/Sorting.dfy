/** What `std::ranges::sort` guarantees: a sorted permutation, and a unique one whenever the order is total on the elements. */
module Sorting {

  ghost predicate Connected<T(!new)>(less: (T, T) -> bool, s: seq<T>) {
    forall x, y | x in s && y in s :: x == y || less(x, y) || less(y, x)
  }

  ghost predicate Strict<T(!new)>(less: (T, T) -> bool, s: seq<T>) {
    && (forall x | x in s :: !less(x, x))
    && (forall x, y, z | x in s && y in s && z in s && less(x, y) && less(y, z) :: less(x, z))
  }

  /** `less` is a strict total order on the elements of `s`. */
  ghost predicate TotalOn<T(!new)>(less: (T, T) -> bool, s: seq<T>) {
    Connected(less, s) && Strict(less, s)
  }

  ghost predicate Sorted<T>(less: (T, T) -> bool, s: seq<T>) {
    forall i, j | 0 <= i < j < |s| :: !less(s[j], s[i])
  }

  function Insert<T>(less: (T, T) -> bool, x: T, s: seq<T>): seq<T> {
    if s == [] || less(x, s[0]) then [x] + s else [s[0]] + Insert(less, x, s[1..])
  }

  function Sort<T>(less: (T, T) -> bool, s: seq<T>): seq<T> {
    if s == [] then [] else Insert(less, s[0], Sort(less, s[1..]))
  }

  lemma {:induction false} InsertBag<T>(less: (T, T) -> bool, x: T, s: seq<T>)
    ensures multiset(Insert(less, x, s)) == multiset(s) + multiset{x}
  {
    if !(s == [] || less(x, s[0])) {
      InsertBag(less, x, s[1..]);
      assert s == [s[0]] + s[1..];
    }
  }

  lemma {:induction false} SortBag<T>(less: (T, T) -> bool, s: seq<T>)
    ensures multiset(Sort(less, s)) == multiset(s)
    ensures |Sort(less, s)| == |s|
    ensures forall x :: x in Sort(less, s) <==> x in s
  {
    if s != [] {
      SortBag(less, s[1..]);
      InsertBag(less, s[0], Sort(less, s[1..]));
      assert s == [s[0]] + s[1..];
    }
    SameBag(Sort(less, s), s);
  }

  lemma SameBag<T>(a: seq<T>, b: seq<T>)
    requires multiset(a) == multiset(b)
    ensures |a| == |b|
    ensures forall x :: x in a <==> x in b
  {
    assert |a| == |multiset(a)| == |multiset(b)| == |b|;
    forall x ensures x in a <==> x in b {
      assert x in a <==> x in multiset(a);
      assert x in b <==> x in multiset(b);
    }
  }

  lemma {:induction false} InsertSorted<T(!new)>(less: (T, T) -> bool, x: T, s: seq<T>)
    requires Sorted(less, s) && TotalOn(less, [x] + s)
    ensures Sorted(less, Insert(less, x, s))
  {
    assert x in [x] + s;
    if s == [] {
    } else if less(x, s[0]) {
      forall j | 0 <= j < |s| ensures !less(s[j], x) {
        assert s[j] in [x] + s && s[0] in [x] + s;
        assert !less(s[j], s[0]) || j == 0;
      }
    } else {
      assert forall y | y in [x] + s[1..] :: y in [x] + s;
      InsertSorted(less, x, s[1..]);
      var t := Insert(less, x, s[1..]);
      InsertBag(less, x, s[1..]);
      forall j | 0 <= j < |t| ensures !less(t[j], s[0]) {
        assert t[j] in multiset(t);
        assert t[j] == x || t[j] in s[1..];
        assert s[0] in [x] + s;
      }
    }
  }

  /** On a strict total order the result of sorting is ordered. */
  lemma {:induction false} SortSorted<T(!new)>(less: (T, T) -> bool, s: seq<T>)
    requires TotalOn(less, s)
    ensures Sorted(less, Sort(less, s))
  {
    if s != [] {
      assert forall y | y in s[1..] :: y in s;
      SortSorted(less, s[1..]);
      SortBag(less, s[1..]);
      assert forall y | y in [s[0]] + Sort(less, s[1..]) :: y in s;
      InsertSorted(less, s[0], Sort(less, s[1..]));
    }
  }

  /** On a connected order a bag has one ordered listing. */
  lemma {:induction false} SortedUnique<T(!new)>(less: (T, T) -> bool, a: seq<T>, b: seq<T>)
    requires Sorted(less, a) && Sorted(less, b)
    requires Connected(less, a)
    requires multiset(a) == multiset(b)
    ensures a == b
  {
    SameBag(a, b);
    if a != [] {
      FirstsAgree(less, a, b);
      TailBag(a, b);
      TailOrder(less, a);
      TailOrder(less, b);
      SortedUnique(less, a[1..], b[1..]);
    }
  }

  lemma TailBag<T>(a: seq<T>, b: seq<T>)
    requires a != [] && b != [] && a[0] == b[0] && multiset(a) == multiset(b)
    ensures multiset(a[1..]) == multiset(b[1..])
    ensures a[1..] == b[1..] ==> a == b
  {
    assert a == [a[0]] + a[1..] && b == [b[0]] + b[1..];
    assert multiset(a[1..]) == multiset(a) - multiset{a[0]};
    assert multiset(b[1..]) == multiset(b) - multiset{b[0]};
  }

  lemma TailOrder<T(!new)>(less: (T, T) -> bool, a: seq<T>)
    requires a != [] && Sorted(less, a)
    ensures Sorted(less, a[1..])
    ensures Connected(less, a) ==> Connected(less, a[1..])
  {
    forall i, j | 0 <= i < j < |a[1..]| ensures !less(a[1..][j], a[1..][i]) {
      assert a[1..][j] == a[j + 1] && a[1..][i] == a[i + 1];
    }
    assert forall y | y in a[1..] :: y in a;
  }

  lemma FirstsAgree<T(!new)>(less: (T, T) -> bool, a: seq<T>, b: seq<T>)
    requires Sorted(less, a) && Sorted(less, b) && Connected(less, a)
    requires a != [] && b != [] && a[0] in b && b[0] in a
    ensures a[0] == b[0]
  {
    var i :| 0 <= i < |b| && b[i] == a[0];
    var j :| 0 <= j < |a| && a[j] == b[0];
    assert a[0] in a;
    assert i == 0 || !less(b[i], b[0]);
    assert j == 0 || !less(a[j], a[0]);
  }

  /** Sorting forgets the order its input came in. */
  lemma SortIgnoresArrival<T(!new)>(less: (T, T) -> bool, s: seq<T>, t: seq<T>)
    requires TotalOn(less, s) && multiset(s) == multiset(t)
    ensures Sort(less, s) == Sort(less, t)
  {
    SameBag(s, t);
    SortSorted(less, s);
    SortSorted(less, t);
    SortBag(less, s);
    SortBag(less, t);
    SortedUnique(less, Sort(less, s), Sort(less, t));
  }

  /** When everything in `low` precedes everything in `high`, sorting splits at that border. */
  lemma SortSplits<T(!new)>(less: (T, T) -> bool, s: seq<T>, low: seq<T>, high: seq<T>)
    requires TotalOn(less, s) && multiset(s) == multiset(low) + multiset(high)
    requires forall x, y | x in low && y in high :: less(x, y)
    ensures Sort(less, s) == Sort(less, low) + Sort(less, high)
  {
    SortKeeps(less, s, s);
    SortKeeps(less, s, low);
    SortKeeps(less, s, high);
    var t := Sort(less, low) + Sort(less, high);
    assert forall x | x in t :: x in s;
    ConcatSorted(less, Sort(less, low), Sort(less, high));
    SortedUnique(less, Sort(less, s), Sort(less, low) + Sort(less, high));
  }

  lemma SortKeeps<T(!new)>(less: (T, T) -> bool, s: seq<T>, part: seq<T>)
    requires TotalOn(less, s) && multiset(part) <= multiset(s)
    ensures Sorted(less, Sort(less, part)) && multiset(Sort(less, part)) == multiset(part)
    ensures forall x | x in Sort(less, part) :: x in part && x in s
  {
    forall x | x in part ensures x in s {
      assert x in multiset(part) && x in multiset(s);
    }
    SortSorted(less, part);
    SortBag(less, part);
  }

  lemma ConcatSorted<T(!new)>(less: (T, T) -> bool, a: seq<T>, b: seq<T>)
    requires Sorted(less, a) && Sorted(less, b) && Strict(less, a + b)
    requires forall x, y | x in a && y in b :: less(x, y)
    ensures Sorted(less, a + b)
  {
    var t := a + b;
    forall i, j | 0 <= i < j < |t| ensures !less(t[j], t[i]) {
      assert t[i] in t && t[j] in t;
      if i < |a| <= j {
        assert t[i] in a && t[j] in b;
      }
    }
  }

  /** Two orders that agree on the elements sort them alike. */
  lemma {:induction false} SortCongruent<T(!new)>(less: (T, T) -> bool, less': (T, T) -> bool, s: seq<T>)
    requires TotalOn(less, s)
    requires forall x, y | x in s && y in s :: less(x, y) == less'(x, y)
    ensures Sort(less, s) == Sort(less', s)
  {
    SortSorted(less, s);
    SortSorted(less', s);
    SortBag(less, s);
    SortBag(less', s);
    var t := Sort(less', s);
    forall i, j | 0 <= i < j < |t| ensures !less(t[j], t[i]) {
      assert t[i] in t && t[j] in t;
    }
    SortedUnique(less, Sort(less, s), t);
  }
}
