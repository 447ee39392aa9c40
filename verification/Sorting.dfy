/** Filtering, mapping and the stable sort the source's array methods provide. */
module Sorting {

  /** Keys compare lexicographically, smaller first. */
  type Key = (int, int)

  predicate KeyLe(a: Key, b: Key) {
    a.0 < b.0 || (a.0 == b.0 && a.1 <= b.1)
  }

  predicate SortedBy<T>(xs: seq<T>, key: T -> Key) {
    forall i, j :: 0 <= i < j < |xs| ==> KeyLe(key(xs[i]), key(xs[j]))
  }

  function Insert<T>(x: T, xs: seq<T>, key: T -> Key): seq<T> {
    if xs == [] || KeyLe(key(x), key(xs[0])) then [x] + xs
    else [xs[0]] + Insert(x, xs[1..], key)
  }

  /** Equal keys keep their input order: an element goes in front of everything not smaller. */
  function StableSort<T>(xs: seq<T>, key: T -> Key): seq<T> {
    if xs == [] then [] else Insert(xs[0], StableSort(xs[1..], key), key)
  }

  function Filter<T(!new)>(xs: seq<T>, p: T -> bool): (r: seq<T>)
    ensures forall x :: x in r <==> x in xs && p(x)
    ensures |r| <= |xs|
  {
    if xs == [] then []
    else if p(xs[0]) then [xs[0]] + Filter(xs[1..], p)
    else Filter(xs[1..], p)
  }

  function Map<S, T>(xs: seq<S>, f: S -> T): (r: seq<T>)
    ensures |r| == |xs| && forall i :: 0 <= i < |xs| ==> r[i] == f(xs[i])
  {
    seq(|xs|, i requires 0 <= i < |xs| => f(xs[i]))
  }

  /** No two positions share an `f`. */
  ghost predicate Distinct<S, T>(xs: seq<S>, f: S -> T) {
    forall i, j :: 0 <= i < j < |xs| ==> f(xs[i]) != f(xs[j])
  }

  lemma {:induction false} InsertPermutes<T>(x: T, xs: seq<T>, key: T -> Key)
    ensures multiset(Insert(x, xs, key)) == multiset{x} + multiset(xs)
  {
    if xs != [] && !KeyLe(key(x), key(xs[0])) {
      InsertPermutes(x, xs[1..], key);
      assert xs == [xs[0]] + xs[1..];
    }
  }

  lemma {:induction false} InsertSorts<T>(x: T, xs: seq<T>, key: T -> Key)
    requires SortedBy(xs, key)
    ensures SortedBy(Insert(x, xs, key), key)
  {
    if xs != [] && !KeyLe(key(x), key(xs[0])) {
      InsertSorts(x, xs[1..], key);
      InsertPermutes(x, xs[1..], key);
      var rest := Insert(x, xs[1..], key);
      forall i | 0 <= i < |rest| ensures KeyLe(key(xs[0]), key(rest[i])) {
        assert rest[i] in multiset{x} + multiset(xs[1..]);
      }
    }
  }

  /** A sort loses nothing, invents nothing and leaves everything in key order. */
  lemma {:induction false} StableSortSorts<T>(xs: seq<T>, key: T -> Key)
    ensures SortedBy(StableSort(xs, key), key)
    ensures multiset(StableSort(xs, key)) == multiset(xs)
  {
    if xs != [] {
      StableSortSorts(xs[1..], key);
      InsertSorts(xs[0], StableSort(xs[1..], key), key);
      InsertPermutes(xs[0], StableSort(xs[1..], key), key);
      assert xs == [xs[0]] + xs[1..];
    }
  }

  function HasKey<T>(key: T -> Key, k: Key): T -> bool {
    (x: T) => key(x) == k
  }

  lemma {:induction false} InsertIsStable<T(!new)>(x: T, xs: seq<T>, key: T -> Key, k: Key)
    ensures Filter(Insert(x, xs, key), HasKey(key, k)) == Filter([x] + xs, HasKey(key, k))
  {
    assert ([x] + xs)[1..] == xs;
    if xs != [] && !KeyLe(key(x), key(xs[0])) {
      var rest := Insert(x, xs[1..], key);
      assert ([xs[0]] + rest)[1..] == rest && ([x] + xs[1..])[1..] == xs[1..];
      InsertIsStable(x, xs[1..], key, k);
    }
  }

  /** Among equal keys a sort leaves the order it found. */
  lemma {:induction false} StableSortIsStable<T(!new)>(xs: seq<T>, key: T -> Key, k: Key)
    ensures Filter(StableSort(xs, key), HasKey(key, k)) == Filter(xs, HasKey(key, k))
  {
    if xs != [] {
      var rest := StableSort(xs[1..], key);
      StableSortIsStable(xs[1..], key, k);
      InsertIsStable(xs[0], rest, key, k);
      assert ([xs[0]] + rest)[1..] == rest;
    }
  }

  /** `x` stands somewhere before `y`. */
  ghost predicate Before<T(!new)>(xs: seq<T>, x: T, y: T) {
    exists i, j :: 0 <= i < j < |xs| && xs[i] == x && xs[j] == y
  }

  lemma BeforeInTail<T(!new)>(head: T, tail: seq<T>, x: T, y: T)
    requires Before(tail, x, y) || (head == x && y in tail)
    ensures Before([head] + tail, x, y)
  {
    var xs := [head] + tail;
    if Before(tail, x, y) {
      var i, j :| 0 <= i < j < |tail| && tail[i] == x && tail[j] == y;
      assert xs[i + 1] == x && xs[j + 1] == y;
    } else {
      var j :| 0 <= j < |tail| && tail[j] == y;
      assert xs[0] == x && xs[j + 1] == y;
    }
  }

  lemma BeforeFrom<T(!new)>(xs: seq<T>, x: T, y: T)
    requires xs != [] && Before(xs, x, y)
    ensures Before(xs[1..], x, y) || (xs[0] == x && y in xs[1..])
  {
    var i, j :| 0 <= i < j < |xs| && xs[i] == x && xs[j] == y;
    assert xs[1..][j - 1] == y;
    if i > 0 { assert xs[1..][i - 1] == x; }
  }

  lemma {:induction false} FilterKeepsOrder<T(!new)>(xs: seq<T>, p: T -> bool, x: T, y: T)
    requires Before(xs, x, y) && p(x) && p(y)
    ensures Before(Filter(xs, p), x, y)
  {
    var rest := xs[1..];
    BeforeFrom(xs, x, y);
    if Before(rest, x, y) { FilterKeepsOrder(rest, p, x, y); }
    if p(xs[0]) { BeforeInTail(xs[0], Filter(rest, p), x, y); }
  }

  lemma {:induction false} InsertKeepsOrder<T(!new)>(z: T, xs: seq<T>, key: T -> Key, x: T, y: T)
    requires Before(xs, x, y)
    ensures Before(Insert(z, xs, key), x, y)
  {
    if KeyLe(key(z), key(xs[0])) {
      BeforeInTail(z, xs, x, y);
    } else {
      var rest := Insert(z, xs[1..], key);
      BeforeFrom(xs, x, y);
      InsertMember(z, xs[1..], key, y);
      if Before(xs[1..], x, y) { InsertKeepsOrder(z, xs[1..], key, x, y); }
      BeforeInTail(xs[0], rest, x, y);
    }
  }

  lemma InsertMember<T(!new)>(z: T, xs: seq<T>, key: T -> Key, y: T)
    ensures y in Insert(z, xs, key) <==> y == z || y in xs
  {
  }

  /** What is inserted stands before everything it does not exceed. */
  lemma {:induction false} InsertBefore<T(!new)>(x: T, xs: seq<T>, key: T -> Key, y: T)
    requires SortedBy(xs, key) && y in xs && KeyLe(key(x), key(y))
    ensures Before(Insert(x, xs, key), x, y)
  {
    if KeyLe(key(x), key(xs[0])) {
      BeforeInTail(x, xs, x, y);
    } else {
      InsertBefore(x, xs[1..], key, y);
      BeforeInTail(xs[0], Insert(x, xs[1..], key), x, y);
    }
  }

  /** And everything smaller stands before what is inserted. */
  lemma {:induction false} InsertAfter<T(!new)>(x: T, xs: seq<T>, key: T -> Key, y: T)
    requires SortedBy(xs, key) && y in xs && !KeyLe(key(x), key(y))
    ensures Before(Insert(x, xs, key), y, x)
  {
    var k :| 0 <= k < |xs| && xs[k] == y;
    assert k > 0 ==> KeyLe(key(xs[0]), key(xs[k]));
    var rest := Insert(x, xs[1..], key);
    InsertMember(x, xs[1..], key, x);
    if k > 0 { InsertAfter(x, xs[1..], key, y); }
    BeforeInTail(xs[0], rest, y, x);
  }

  /** A sort puts the smaller first, and of two that tie the one it found first. */
  lemma {:induction false} SortPutsBefore<T(!new)>(xs: seq<T>, key: T -> Key, x: T, y: T)
    requires x in xs && y in xs && KeyLe(key(x), key(y))
    requires key(x) == key(y) ==> Before(xs, x, y)
    ensures x != y ==> Before(StableSort(xs, key), x, y)
  {
    if x != y {
      var rest := StableSort(xs[1..], key);
      StableSortSorts(xs[1..], key);
      SameElements(rest, xs[1..]);
      if key(x) == key(y) { BeforeFrom(xs, x, y); }
      if x in xs[1..] && y in xs[1..] && (key(x) == key(y) ==> Before(xs[1..], x, y)) {
        SortPutsBefore(xs[1..], key, x, y);
        InsertKeepsOrder(xs[0], rest, key, x, y);
      } else if xs[0] == x {
        InsertBefore(x, rest, key, y);
      } else {
        InsertAfter(y, rest, key, x);
      }
    }
  }

  lemma MapKeepsOrder<S(!new), T(!new)>(xs: seq<S>, f: S -> T, x: S, y: S)
    requires Before(xs, x, y)
    ensures Before(Map(xs, f), f(x), f(y))
  {
    var i, j :| 0 <= i < j < |xs| && xs[i] == x && xs[j] == y;
    assert Map(xs, f)[i] == f(x) && Map(xs, f)[j] == f(y);
  }

  lemma BeforeWithin<T(!new)>(front: seq<T>, xs: seq<T>, back: seq<T>, x: T, y: T)
    requires Before(xs, x, y)
    ensures Before(front + xs + back, x, y)
  {
    var i, j :| 0 <= i < j < |xs| && xs[i] == x && xs[j] == y;
    var all := front + xs + back;
    assert all[|front| + i] == x && all[|front| + j] == y;
  }

  lemma SameElements<T(!new)>(xs: seq<T>, ys: seq<T>)
    requires multiset(xs) == multiset(ys)
    ensures |xs| == |ys|
    ensures forall x :: x in xs <==> x in ys
  {
    assert |multiset(xs)| == |multiset(ys)|;
    forall x ensures x in xs <==> x in ys {
      assert x in xs <==> x in multiset(xs);
      assert x in ys <==> x in multiset(ys);
    }
  }

  lemma MappedAndKept<S, T(!new)>(xs: seq<S>, f: S -> T, p: T -> bool, x: S)
    requires x in xs && p(f(x))
    ensures f(x) in Filter(Map(xs, f), p)
  {
    var k :| 0 <= k < |xs| && xs[k] == x;
    assert Map(xs, f)[k] == f(x);
  }

  lemma FilterKeepsDistinct<S(!new), T>(xs: seq<S>, p: S -> bool, f: S -> T)
    requires Distinct(xs, f)
    ensures Distinct(Filter(xs, p), f)
  {
    if xs != [] {
      FilterKeepsDistinct(xs[1..], p, f);
      var rest := Filter(xs[1..], p);
      if p(xs[0]) {
        forall j | 0 <= j < |rest| ensures f(xs[0]) != f(rest[j]) {
          assert rest[j] in xs[1..];
        }
      }
    }
  }

  lemma InsertKeepsDistinct<S(!new), T>(x: S, xs: seq<S>, key: S -> Key, f: S -> T)
    requires Distinct(xs, f) && forall y :: y in xs ==> f(y) != f(x)
    ensures Distinct(Insert(x, xs, key), f)
    ensures forall y :: y in Insert(x, xs, key) <==> y == x || y in xs
  {
    if xs != [] && !KeyLe(key(x), key(xs[0])) {
      InsertKeepsDistinct(x, xs[1..], key, f);
      var rest := Insert(x, xs[1..], key);
      forall j | 0 <= j < |rest| ensures f(xs[0]) != f(rest[j]) {
        assert rest[j] in rest;
        if rest[j] != x {
          var k :| 0 <= k < |xs[1..]| && xs[1..][k] == rest[j];
          assert xs[k + 1] == rest[j];
        }
      }
    }
  }

  lemma SortKeepsDistinct<S(!new), T>(xs: seq<S>, key: S -> Key, f: S -> T)
    requires Distinct(xs, f)
    ensures Distinct(StableSort(xs, key), f)
    ensures forall y :: y in StableSort(xs, key) <==> y in xs
  {
    if xs != [] {
      SortKeepsDistinct(xs[1..], key, f);
      forall y | y in StableSort(xs[1..], key) ensures f(y) != f(xs[0]) {
        assert y in xs[1..];
        var i :| 0 <= i < |xs[1..]| && xs[1..][i] == y;
        assert xs[i + 1] == y;
      }
      InsertKeepsDistinct(xs[0], StableSort(xs[1..], key), key, f);
    }
  }

  lemma FilterConcat<T(!new)>(xs: seq<T>, ys: seq<T>, p: T -> bool)
    ensures Filter(xs + ys, p) == Filter(xs, p) + Filter(ys, p)
  {
    if xs == [] {
      assert xs + ys == ys;
    } else {
      assert (xs + ys)[1..] == xs[1..] + ys;
      FilterConcat(xs[1..], ys, p);
    }
  }

  lemma MapSameOn<S(!new), T>(xs: seq<S>, f: S -> T, g: S -> T)
    requires forall x :: x in xs ==> f(x) == g(x)
    ensures Map(xs, f) == Map(xs, g)
  {
    forall i | 0 <= i < |xs| ensures f(xs[i]) == g(xs[i]) {
      assert xs[i] in xs;
    }
  }

  lemma FilterSameOn<T(!new)>(xs: seq<T>, p: T -> bool, q: T -> bool)
    requires forall x :: x in xs ==> p(x) == q(x)
    ensures Filter(xs, p) == Filter(xs, q)
  {
    if xs != [] { FilterSameOn(xs[1..], p, q); }
  }

  lemma InsertSameOn<T(!new)>(x: T, xs: seq<T>, key: T -> Key, other: T -> Key)
    requires key(x) == other(x) && forall y :: y in xs ==> key(y) == other(y)
    ensures Insert(x, xs, key) == Insert(x, xs, other)
    ensures forall y :: y in Insert(x, xs, key) ==> y == x || y in xs
  {
    if xs != [] { InsertSameOn(x, xs[1..], key, other); }
  }

  lemma SortSameOn<T(!new)>(xs: seq<T>, key: T -> Key, other: T -> Key)
    requires forall x :: x in xs ==> key(x) == other(x)
    ensures StableSort(xs, key) == StableSort(xs, other)
    ensures forall y :: y in StableSort(xs, key) ==> y in xs
  {
    if xs != [] {
      SortSameOn(xs[1..], key, other);
      InsertSameOn(xs[0], StableSort(xs[1..], key), key, other);
    }
  }

  // --- totals over a sequence --------------------------------------------------------------------

  function Total<T>(xs: seq<T>, f: T -> int): int {
    if xs == [] then 0 else f(xs[0]) + Total(xs[1..], f)
  }

  lemma TotalConcat<T>(xs: seq<T>, ys: seq<T>, f: T -> int)
    ensures Total(xs + ys, f) == Total(xs, f) + Total(ys, f)
  {
    if xs == [] {
      assert xs + ys == ys;
    } else {
      assert (xs + ys)[1..] == xs[1..] + ys;
      TotalConcat(xs[1..], ys, f);
    }
  }

  function Without<T>(xs: seq<T>, k: nat): seq<T>
    requires k < |xs|
  {
    xs[..k] + xs[k + 1..]
  }

  lemma WithoutOne<T>(xs: seq<T>, k: nat)
    requires k < |xs|
    ensures multiset(Without(xs, k)) == multiset(xs) - multiset{xs[k]}
  {
    assert xs == xs[..k] + [xs[k]] + xs[k + 1..];
  }

  lemma {:induction false} TotalWithoutOne<T>(xs: seq<T>, k: nat, f: T -> int)
    requires k < |xs|
    ensures Total(xs, f) == f(xs[k]) + Total(Without(xs, k), f)
  {
    if k == 0 {
      assert Without(xs, 0) == xs[1..];
    } else {
      TotalWithoutOne(xs[1..], k - 1, f);
      assert Without(xs, k)[1..] == Without(xs[1..], k - 1);
    }
  }

  /** A total does not depend on the order it is taken in. */
  lemma {:induction false} TotalPermutation<T>(xs: seq<T>, ys: seq<T>, f: T -> int)
    requires multiset(xs) == multiset(ys)
    ensures Total(xs, f) == Total(ys, f)
  {
    if xs == [] {
      assert |multiset(ys)| == 0;
    } else {
      assert xs[0] in multiset(ys);
      var k :| 0 <= k < |ys| && ys[k] == xs[0];
      WithoutOne(xs, 0);
      WithoutOne(ys, k);
      assert Without(xs, 0) == xs[1..];
      TotalWithoutOne(ys, k, f);
      TotalPermutation(xs[1..], Without(ys, k), f);
    }
  }

  lemma TotalOfFilter<T(!new)>(xs: seq<T>, p: T -> bool, f: T -> int)
    requires forall x :: x in xs && !p(x) ==> f(x) == 0
    ensures Total(Filter(xs, p), f) == Total(xs, f)
  {
    if xs != [] {
      TotalOfFilter(xs[1..], p, f);
    }
  }

  lemma TotalSameOn<T(!new)>(xs: seq<T>, f: T -> int, g: T -> int)
    requires forall x :: x in xs ==> f(x) == g(x)
    ensures Total(xs, f) == Total(xs, g)
  {
    if xs != [] {
      TotalSameOn(xs[1..], f, g);
    }
  }

  lemma TotalLinear<T>(xs: seq<T>, f: T -> int, g: T -> int, h: T -> int)
    requires forall i :: 0 <= i < |xs| ==> h(xs[i]) == f(xs[i]) + g(xs[i])
    ensures Total(xs, h) == Total(xs, f) + Total(xs, g)
  {
    if xs != [] {
      TotalLinear(xs[1..], f, g, h);
    }
  }

  // --- the keys of a map -----------------------------------------------------------------------------

  /** The keys of a map, in some order, each once. */
  method Enumerate(keys: set<int>) returns (ks: seq<int>)
    ensures forall k :: k in ks <==> k in keys
    ensures forall i, j :: 0 <= i < j < |ks| ==> ks[i] != ks[j]
  {
    ks := [];
    var rest := keys;
    while true
      invariant rest <= keys
      invariant forall k :: k in ks <==> k in keys && k !in rest
      invariant forall i, j :: 0 <= i < j < |ks| ==> ks[i] != ks[j]
      decreases rest
    {
      if next :| next in rest {
        assert next !in ks;
        ks := ks + [next];
        rest := rest - {next};
      } else {
        break;
      }
    }
  }

  function Itself(k: int): int { k }

  function Ascending(k: int): Key { (k, 0) }

  /** The keys of a map, in ascending order. */
  method SortedKeys(keys: set<int>) returns (sorted: seq<int>)
    ensures forall p :: p in sorted <==> p in keys
    ensures forall i, j :: 0 <= i < j < |sorted| ==> sorted[i] < sorted[j]
  {
    var ks := Enumerate(keys);
    sorted := StableSort(ks, Ascending);
    StableSortSorts(ks, Ascending);
    SortKeepsDistinct(ks, Ascending, Itself);
    forall i, j | 0 <= i < j < |sorted| ensures sorted[i] < sorted[j] {
      assert KeyLe(Ascending(sorted[i]), Ascending(sorted[j]));
      assert Itself(sorted[i]) != Itself(sorted[j]);
    }
  }
}
