/** Sequence helpers shared by the engine: the JavaScript array operations it
    relies on (`filter`, `flat`, `map`, stable `sort`) as functions with
    their defining properties. */
module Collections {

  datatype Option<T> = None | Some(value: T)

  /** `Array.prototype.filter`: the elements of `s` that satisfy `f`, in order. */
  function Filter<T>(s: seq<T>, f: T -> bool): (r: seq<T>)
    ensures |r| <= |s|
  {
    if s == [] then []
    else Filter(s[..|s| - 1], f) + (if f(s[|s| - 1]) then [s[|s| - 1]] else [])
  }

  /** Exactly the elements of `s` that satisfy `f` survive the filter. */
  lemma {:induction false} FilterMembers<T>(s: seq<T>, f: T -> bool)
    ensures forall x :: x in Filter(s, f) <==> x in s && f(x)
  {
    if s != [] {
      FilterMembers(s[..|s| - 1], f);
      assert s == s[..|s| - 1] + [s[|s| - 1]];
    }
  }

  /** Nothing survives a filter that no element satisfies. */
  lemma {:induction false} FilterNone<T>(s: seq<T>, f: T -> bool)
    requires forall x | x in s :: !f(x)
    ensures Filter(s, f) == []
  {
    if s != [] {
      FilterNone(s[..|s| - 1], f);
    }
  }

  /** Filtering a single element. */
  lemma FilterOne<T>(x: T, f: T -> bool)
    ensures Filter([x], f) == if f(x) then [x] else []
  {
    assert [x][..0] == [];
  }

  /** Filtering a sequence with a given head. */
  lemma {:induction false} FilterCons<T>(x: T, s: seq<T>, f: T -> bool)
    ensures Filter([x] + s, f) == (if f(x) then [x] else []) + Filter(s, f)
  {
    if s != [] {
      var init := s[..|s| - 1];
      assert ([x] + s)[..|s|] == [x] + init;
      FilterCons(x, init, f);
    }
  }

  /** Filtering distributes over concatenation. */
  lemma {:induction false} FilterAppend<T>(a: seq<T>, b: seq<T>, f: T -> bool)
    ensures Filter(a + b, f) == Filter(a, f) + Filter(b, f)
  {
    if b == [] {
      assert a + b == a;
    } else {
      var init := b[..|b| - 1];
      FilterAppend(a, init, f);
      assert (a + b)[..|a + b| - 1] == a + init;
    }
  }

  /** Two filters that never both keep an element, and keep only what `h` keeps,
      keep together no more than `h` does. */
  lemma {:induction false} FilterDisjointBound<T>(s: seq<T>, f: T -> bool, g: T -> bool, h: T -> bool)
    requires forall x | x in s :: !(f(x) && g(x)) && (f(x) ==> h(x)) && (g(x) ==> h(x))
    ensures |Filter(s, f)| + |Filter(s, g)| <= |Filter(s, h)|
  {
    if s != [] {
      FilterDisjointBound(s[..|s| - 1], f, g, h);
    }
  }

  /** Filtering by `f` and by its negation splits `s` without losing or adding anything. */
  lemma {:induction false} FilterSplit<T(!new)>(s: seq<T>, f: T -> bool, g: T -> bool)
    requires forall x :: g(x) == !f(x)
    ensures multiset(Filter(s, f)) + multiset(Filter(s, g)) == multiset(s)
  {
    if s != [] {
      FilterSplit(s[..|s| - 1], f, g);
      assert s == s[..|s| - 1] + [s[|s| - 1]];
    }
  }

  /** `Array.prototype.flat`: the groups of `ss` one after the other. */
  function Flatten<T>(ss: seq<seq<T>>): seq<T>
  {
    if ss == [] then [] else Flatten(ss[..|ss| - 1]) + ss[|ss| - 1]
  }

  /** Appending an element to one group adds exactly that element to the flattened whole. */
  lemma {:induction false} FlattenAppendToGroup<T>(ss: seq<seq<T>>, i: nat, x: T)
    requires i < |ss|
    ensures multiset(Flatten(ss[i := ss[i] + [x]])) == multiset(Flatten(ss)) + multiset{x}
  {
    var last := |ss| - 1;
    var ss' := ss[i := ss[i] + [x]];
    assert Flatten(ss') == Flatten(ss'[..last]) + ss'[last];
    assert Flatten(ss) == Flatten(ss[..last]) + ss[last];
    if i < last {
      assert ss'[..last] == ss[..last][i := ss[i] + [x]];
      FlattenAppendToGroup(ss[..last], i, x);
    } else {
      assert ss'[..last] == ss[..last];
      assert ss'[last] == ss[last] + [x];
    }
  }

  /** `Array.prototype.map`. */
  function MapSeq<A, B>(s: seq<A>, f: A -> B): (r: seq<B>)
    ensures |r| == |s|
  {
    if s == [] then [] else [f(s[0])] + MapSeq(s[1..], f)
  }

  /** Mapping distributes over concatenation. */
  lemma {:induction false} MapSeqAppend<A, B>(u: seq<A>, v: seq<A>, f: A -> B)
    ensures MapSeq(u + v, f) == MapSeq(u, f) + MapSeq(v, f)
  {
    if u == [] {
      assert u + v == v;
    } else {
      assert (u + v)[1..] == u[1..] + v;
      MapSeqAppend(u[1..], v, f);
    }
  }

  /** The `i`-th image is the image of the `i`-th element. */
  lemma {:induction false} MapSeqAt<A, B>(s: seq<A>, f: A -> B, i: nat)
    requires i < |s|
    ensures MapSeq(s, f)[i] == f(s[i])
  {
    if i > 0 {
      MapSeqAt(s[1..], f, i - 1);
    }
  }

  /** Exactly the images of the elements occur in the mapped sequence. */
  lemma {:induction false} MapSeqMember<A, B>(s: seq<A>, f: A -> B, y: B)
    ensures y in MapSeq(s, f) <==> exists k | 0 <= k < |s| :: y == f(s[k])
  {
    if s != [] {
      MapSeqMember(s[1..], f, y);
      if exists k | 0 <= k < |s| - 1 :: y == f(s[1..][k]) {
        var k :| 0 <= k < |s| - 1 && y == f(s[1..][k]);
        assert y == f(s[k + 1]);
      }
      if exists k | 0 <= k < |s| :: y == f(s[k]) {
        var k :| 0 <= k < |s| && y == f(s[k]);
        if k > 0 {
          assert y == f(s[1..][k - 1]);
        }
      }
    }
  }

  /** Two rearrangements of the same elements with the same head have rearranged tails. */
  lemma TailsRearranged<A>(a: seq<A>, b: seq<A>)
    requires multiset(a) == multiset(b) && a != [] && b != [] && a[0] == b[0]
    ensures multiset(a[1..]) == multiset(b[1..])
  {
    DropMatching(a, b, 0);
    assert b[..0] + b[1..] == b[1..];
  }

  /** Removing the element at `j` removes exactly one copy of it. */
  lemma RemoveAt<A>(b: seq<A>, j: nat)
    requires j < |b|
    ensures multiset(b[..j] + b[j + 1..]) == multiset(b) - multiset{b[j]}
  {
    assert b == b[..j] + [b[j]] + b[j + 1..];
  }

  /** Dropping the head of `a` and the equal element at `j` from `b` keeps them rearrangements. */
  lemma DropMatching<A>(a: seq<A>, b: seq<A>, j: nat)
    requires multiset(a) == multiset(b)
    requires a != [] && j < |b| && b[j] == a[0]
    ensures multiset(a[1..]) == multiset(b[..j] + b[j + 1..])
  {
    RemoveAt(b, j);
    assert a == [a[0]] + a[1..];
  }

  /** Mapping two rearrangements of the same elements gives two rearrangements of the same images. */
  lemma {:induction false} MapSeqMultiset<A, B>(a: seq<A>, b: seq<A>, f: A -> B)
    requires multiset(a) == multiset(b)
    ensures multiset(MapSeq(a, f)) == multiset(MapSeq(b, f))
  {
    if a == [] {
      assert |b| == |multiset(b)| == 0;
    } else {
      var x := a[0];
      assert x in multiset(b);
      var j :| 0 <= j < |b| && b[j] == x;
      var left, right := b[..j], b[j + 1..];
      DropMatching(a, b, j);
      MapSeqMultiset(a[1..], left + right, f);
      assert b == left + ([x] + right);
      MapSeqAppend(left, [x] + right, f);
      MapSeqAppend(left, right, f);
      var ma, ml, mr := MapSeq(a[1..], f), MapSeq(left, f), MapSeq(right, f);
      assert MapSeq(a, f) == [f(x)] + ma;
      assert MapSeq([x] + right, f) == [f(x)] + mr;
      assert MapSeq(b, f) == ml + ([f(x)] + mr);
    }
  }

  /** `before(a, b)` says that `a` sorts strictly ahead of `b`, as a JavaScript
      comparator returning a negative number does. A consistent comparator is a
      strict weak order: asymmetric, and "neither ahead of the other" is transitive. */
  ghost predicate StrictWeakOrder<T(!new)>(before: (T, T) -> bool)
  {
    && (forall a, b :: before(a, b) ==> !before(b, a))
    && (forall a, b, c :: !before(a, b) && !before(b, c) ==> !before(a, c))
  }

  /** No element sorts strictly ahead of an element placed before it. */
  ghost predicate SortedBy<T>(s: seq<T>, before: (T, T) -> bool)
  {
    forall i, j | 0 <= i < j < |s| :: !before(s[j], s[i])
  }

  /** Places `x` ahead of the first element that does not sort strictly ahead of it. */
  function Insert<T(!new)>(x: T, s: seq<T>, before: (T, T) -> bool): (r: seq<T>)
    requires StrictWeakOrder(before)
    requires SortedBy(s, before)
    ensures multiset(r) == multiset(s) + multiset{x}
    ensures SortedBy(r, before)
  {
    if s == [] || !before(s[0], x) then
      PrependSorted(x, s, before);
      [x] + s
    else
      var tail := Insert(x, s[1..], before);
      assert s == [s[0]] + s[1..];
      forall y | y in tail ensures !before(y, s[0]) {
        assert y in multiset(tail);
        assert y == x || y in s[1..];
      }
      PrependSorted(s[0], tail, before);
      [s[0]] + tail
  }

  /** An element that no element of a sorted sequence sorts strictly ahead of may lead it. */
  lemma PrependSorted<T(!new)>(x: T, s: seq<T>, before: (T, T) -> bool)
    requires StrictWeakOrder(before)
    requires SortedBy(s, before)
    requires s != [] ==> !before(s[0], x)
    ensures SortedBy([x] + s, before)
  {
    var r := [x] + s;
    forall i, j | 0 <= i < j < |r| ensures !before(r[j], r[i]) {
      if i == 0 && j > 1 {
        assert !before(s[j - 1], s[0]);
      }
    }
  }

  /** `Array.prototype.sort` with a consistent comparator: a stable insertion sort
      (an element is inserted ahead of the equal elements that followed it). */
  function InsertionSort<T(!new)>(s: seq<T>, before: (T, T) -> bool): (r: seq<T>)
    requires StrictWeakOrder(before)
    ensures multiset(r) == multiset(s)
    ensures SortedBy(r, before)
  {
    if s == [] then []
    else
      assert s == [s[0]] + s[1..];
      Insert(s[0], InsertionSort(s[1..], before), before)
  }

  /** The heads of two sorted rearrangements of the same elements are equal when
      `before` orders every two distinct elements. */
  lemma SortedHeadsEqual<T>(a: seq<T>, b: seq<T>, before: (T, T) -> bool)
    requires multiset(a) == multiset(b) && a != []
    requires SortedBy(a, before) && SortedBy(b, before)
    requires forall x, y | x in a && y in a && x != y :: before(x, y) || before(y, x)
    ensures b != [] && a[0] == b[0]
  {
    assert |b| == |multiset(b)| == |a|;
    assert b[0] in multiset(a) && a[0] in multiset(b);
    var k :| 0 <= k < |a| && a[k] == b[0];
    var m :| 0 <= m < |b| && b[m] == a[0];
    assert k > 0 ==> !before(b[0], a[0]);
    assert m > 0 ==> !before(a[0], b[0]);
  }

  /** The tail of a sorted sequence is sorted. */
  lemma SortedTail<T>(s: seq<T>, before: (T, T) -> bool)
    requires SortedBy(s, before) && s != []
    ensures SortedBy(s[1..], before)
  {
    forall i, j | 0 <= i < j < |s| - 1 ensures !before(s[1..][j], s[1..][i]) {
      assert s[1..][j] == s[j + 1] && s[1..][i] == s[i + 1];
    }
  }

  /** An order on the elements of `a` orders those of its tail. */
  lemma TotalOnTail<T>(a: seq<T>, before: (T, T) -> bool)
    requires a != []
    requires forall x, y | x in a && y in a && x != y :: before(x, y) || before(y, x)
    ensures forall x, y | x in a[1..] && y in a[1..] && x != y :: before(x, y) || before(y, x)
  {
    forall x, y | x in a[1..] && y in a[1..] && x != y ensures before(x, y) || before(y, x) {
      assert x in a && y in a;
    }
  }

  /** When `before` orders every two distinct elements, a sorted rearrangement is unique:
      two sequences sorted by `before` with the same elements are equal. */
  lemma {:induction false} SortedRearrangementUnique<T>(a: seq<T>, b: seq<T>, before: (T, T) -> bool)
    requires multiset(a) == multiset(b)
    requires SortedBy(a, before) && SortedBy(b, before)
    requires forall x, y | x in a && y in a && x != y :: before(x, y) || before(y, x)
    ensures a == b
  {
    if a == [] {
      assert |b| == |multiset(b)| == 0;
    } else {
      SortedHeadsEqual(a, b, before);
      TailsRearranged(a, b);
      SortedTail(a, before);
      SortedTail(b, before);
      TotalOnTail(a, before);
      SortedRearrangementUnique(a[1..], b[1..], before);
      assert a == [a[0]] + a[1..] && b == [b[0]] + b[1..];
    }
  }

  /** Occurrences of `v` in `s`. */
  function Count<T(==)>(s: seq<T>, v: T): nat
  {
    if s == [] then 0 else (if s[0] == v then 1 else 0) + Count(s[1..], v)
  }

  /** Counting over a sequence with a given head. */
  lemma CountCons<T>(x: T, s: seq<T>, v: T)
    ensures Count([x] + s, v) == (if x == v then 1 else 0) + Count(s, v)
  {
    assert ([x] + s)[1..] == s;
  }

  /** `Count` is the multiplicity the multiset of `s` gives `v`. */
  lemma {:induction false} CountIsMultiplicity<T>(s: seq<T>, v: T)
    ensures multiset(s)[v] == Count(s, v)
  {
    if s != [] {
      CountIsMultiplicity(s[1..], v);
      assert s == [s[0]] + s[1..];
    }
  }
}
