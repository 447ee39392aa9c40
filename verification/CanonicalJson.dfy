/**
 * The key order a signed message is canonicalised to. An object is its members in enumeration
 * order, as the host language enumerates them: array indices first, numerically, then the other
 * keys in the order they were put in.
 */
module CanonicalJson {
  import opened FixedPoint

  datatype Json =
    | Null
    | Bool(b: bool)
    | Number(n: int)
    | String(s: string)
    | Array(items: seq<Json>)
    | Object(members: seq<Member>)

  datatype Member = Member(key: string, value: Json)

  /** Assigning to this key sets an object's prototype and leaves no member behind. */
  const PROTO := "__proto__"

  const MAX_INDEX: nat := 4_294_967_294

  // --- the order of keys ------------------------------------------------------------------------------------

  predicate LexLess(a: string, b: string) {
    if b == [] then false
    else if a == [] then true
    else if a[0] != b[0] then a[0] < b[0]
    else LexLess(a[1..], b[1..])
  }

  /** A key the host treats as an array index: the shortest text of a number in range. */
  predicate IsIndex(key: string) {
    AllDigits(key) && Digits(Read(key)) == key && Read(key) <= MAX_INDEX
  }

  /** Where enumeration puts two keys of an object filled in ascending order. */
  predicate Before(a: string, b: string) {
    if IsIndex(a) then !IsIndex(b) || Read(a) < Read(b)
    else !IsIndex(b) && LexLess(a, b)
  }

  /** Which keys the host enumerates as indices: digits with no spare leading zero, up to 2^32 - 2. */
  lemma IsIndexIff(key: string)
    ensures IsIndex(key) <==>
              key != "" && AllDigits(key) && (|key| == 1 || key[0] != '0') && Read(key) <= 4_294_967_294
  {
    if key != "" && AllDigits(key) {
      if |key| == 1 || key[0] != '0' {
        DigitsOfRead(key);
      } else if Digits(Read(key)) == key {
        NoLeadingZero(Read(key));
      }
    }
  }

  lemma {:induction false} DigitsOfRead(s: string)
    requires s != "" && AllDigits(s) && (|s| == 1 || s[0] != '0')
    ensures Digits(Read(s)) == s
    ensures s[0] != '0' ==> Read(s) > 0
  {
    var front := s[..|s| - 1];
    if |s| == 1 {
      assert front == "";
    } else {
      DigitsOfRead(front);
      assert s == front + [s[|s| - 1]];
    }
  }

  lemma {:induction false} NoLeadingZero(n: nat)
    ensures |Digits(n)| > 1 ==> Digits(n)[0] != '0'
    ensures n > 0 ==> Digits(n)[0] != '0'
  {
    if n >= 10 { NoLeadingZero(n / 10); }
  }

  lemma {:induction false} LexTotal(a: string, b: string)
    ensures !LexLess(a, a)
    ensures a == b || LexLess(a, b) || LexLess(b, a)
    ensures !(LexLess(a, b) && LexLess(b, a))
  {
    if a != [] {
      LexTotal(a[1..], if b != [] then b[1..] else []);
      if b != [] && a[0] == b[0] && a[1..] == b[1..] {
        assert a == [a[0]] + a[1..] && b == [b[0]] + b[1..];
      }
    }
  }

  lemma {:induction false} LexTransitive(a: string, b: string, c: string)
    requires LexLess(a, b) && LexLess(b, c)
    ensures LexLess(a, c)
  {
    if a != [] && a[0] == b[0] && b[0] == c[0] {
      LexTransitive(a[1..], b[1..], c[1..]);
    }
  }

  /** A strict total order on keys. */
  ghost predicate Order(less: (string, string) -> bool) {
    && (forall a, b :: a == b || less(a, b) || less(b, a))
    && (forall a, b :: less(a, b) ==> a != b && !less(b, a))
    && (forall a, b, c :: less(a, b) && less(b, c) ==> less(a, c))
  }

  lemma OrdersAreTotal()
    ensures Order(LexLess) && Order(Before)
  {
    forall a, b ensures (a == b || LexLess(a, b) || LexLess(b, a)) && (LexLess(a, b) ==> a != b && !LexLess(b, a)) {
      LexTotal(a, b);
    }
    forall a, b, c | LexLess(a, b) && LexLess(b, c) ensures LexLess(a, c) {
      LexTransitive(a, b, c);
    }
  }

  // --- members in order -----------------------------------------------------------------------------------------

  function Insert(m: Member, ms: seq<Member>, less: (string, string) -> bool): seq<Member> {
    if ms == [] || less(m.key, ms[0].key) then [m] + ms else [ms[0]] + Insert(m, ms[1..], less)
  }

  function SortMembers(ms: seq<Member>, less: (string, string) -> bool): seq<Member> {
    if ms == [] then [] else Insert(ms[0], SortMembers(ms[1..], less), less)
  }

  ghost predicate Ordered(ms: seq<Member>, less: (string, string) -> bool) {
    forall i, j :: 0 <= i < j < |ms| ==> less(ms[i].key, ms[j].key)
  }

  ghost predicate HasKey(ms: seq<Member>, key: string) {
    exists m :: m in ms && m.key == key
  }

  ghost predicate DistinctKeys(ms: seq<Member>) {
    forall i, j :: 0 <= i < j < |ms| ==> ms[i].key != ms[j].key
  }

  lemma {:induction false} InsertOrders(m: Member, ms: seq<Member>, less: (string, string) -> bool)
    requires Order(less) && Ordered(ms, less) && !HasKey(ms, m.key)
    ensures Ordered(Insert(m, ms, less), less)
    ensures forall x :: x in Insert(m, ms, less) <==> x == m || x in ms
  {
    if ms != [] && !less(m.key, ms[0].key) {
      var rest := Insert(m, ms[1..], less);
      assert ms[0] in ms;
      InsertOrders(m, ms[1..], less);
      forall j | 0 <= j < |rest| ensures less(ms[0].key, rest[j].key) {
        assert rest[j] in rest;
        if rest[j] != m {
          var k :| 0 <= k < |ms[1..]| && ms[1..][k] == rest[j];
          assert ms[k + 1] == rest[j];
        }
      }
    } else if ms != [] {
      forall j | 0 <= j < |ms| ensures less(m.key, ms[j].key) {
        if j > 0 { assert less(ms[0].key, ms[j].key); }
      }
    }
  }

  lemma {:induction false} SortOrders(ms: seq<Member>, less: (string, string) -> bool)
    requires Order(less) && DistinctKeys(ms)
    ensures Ordered(SortMembers(ms, less), less)
    ensures forall x :: x in SortMembers(ms, less) <==> x in ms
  {
    if ms != [] {
      SortOrders(ms[1..], less);
      assert !HasKey(SortMembers(ms[1..], less), ms[0].key) by {
        forall x | x in SortMembers(ms[1..], less) ensures x.key != ms[0].key {
          assert x in ms[1..];
          var k :| 0 <= k < |ms[1..]| && ms[1..][k] == x;
          assert ms[k + 1] == x;
        }
      }
      InsertOrders(ms[0], SortMembers(ms[1..], less), less);
    }
  }

  /** There is one way to put given members in order. */
  lemma {:induction false} OrderedIsUnique(xs: seq<Member>, ys: seq<Member>, less: (string, string) -> bool)
    requires Order(less) && Ordered(xs, less) && Ordered(ys, less)
    requires forall m :: m in xs <==> m in ys
    ensures xs == ys
  {
    assert ys == [] || ys[0] in ys;
    if xs == [] {
    } else {
      assert xs[0] in ys;
      assert ys[0] in xs;
      var i :| 0 <= i < |ys| && ys[i] == xs[0];
      var j :| 0 <= j < |xs| && xs[j] == ys[0];
      assert i == 0;
      forall m ensures m in xs[1..] <==> m in ys[1..] {
        TailMembers(xs, m, less);
        TailMembers(ys, m, less);
      }
      OrderedIsUnique(xs[1..], ys[1..], less);
      assert xs == [xs[0]] + xs[1..] && ys == [ys[0]] + ys[1..];
    }
  }

  lemma TailMembers(xs: seq<Member>, m: Member, less: (string, string) -> bool)
    requires Order(less) && Ordered(xs, less) && xs != []
    ensures m in xs[1..] <==> m in xs && m != xs[0]
  {
    assert xs == [xs[0]] + xs[1..];
    if m in xs[1..] {
      var k :| 0 <= k < |xs[1..]| && xs[1..][k] == m;
      assert xs[k + 1] == m && less(xs[0].key, xs[k + 1].key);
    }
  }

  // --- the canonical form -------------------------------------------------------------------------------------

  /** Every object enumerates each of its keys once. */
  ghost predicate WellFormed(v: Json)
    decreases v, 1
  {
    match v
    case Array(items) => forall i :: 0 <= i < |items| ==> WellFormed(items[i])
    case Object(members) => DistinctKeys(members) && forall i :: 0 <= i < |members| ==> WellFormed(members[i].value)
    case _ => true
  }

  function Canonical(v: Json): Json
    decreases v, 1
  {
    match v
    case Array(items) => Array(CanonicalAll(items))
    case Object(members) => Object(SortMembers(CanonicalMembers(members), Before))
    case _ => v
  }

  function CanonicalAll(items: seq<Json>): (r: seq<Json>)
    ensures |r| == |items|
    decreases items, 0
  {
    if items == [] then [] else [Canonical(items[0])] + CanonicalAll(items[1..])
  }

  function CanonicalMembers(ms: seq<Member>): seq<Member>
    decreases ms, 0
  {
    if ms == [] then []
    else (if ms[0].key == PROTO then [] else [Member(ms[0].key, Canonical(ms[0].value))]) + CanonicalMembers(ms[1..])
  }

  lemma {:induction false} CanonicalAllAt(items: seq<Json>, i: nat)
    requires i < |items|
    ensures CanonicalAll(items)[i] == Canonical(items[i])
  {
    if i > 0 { CanonicalAllAt(items[1..], i - 1); }
  }

  /** A canonical member is a member canonicalised, and none but the prototype key's is lost. */
  lemma {:induction false} CanonicalMembersAre(ms: seq<Member>, x: Member)
    ensures x in CanonicalMembers(ms) <==>
              exists i :: 0 <= i < |ms| && ms[i].key != PROTO && x == Member(ms[i].key, Canonical(ms[i].value))
  {
    if ms != [] {
      CanonicalMembersAre(ms[1..], x);
      if i :| 0 <= i < |ms| && ms[i].key != PROTO && x == Member(ms[i].key, Canonical(ms[i].value)) {
        if i > 0 { assert ms[1..][i - 1] == ms[i]; }
      }
      if i :| 0 <= i < |ms[1..]| && ms[1..][i].key != PROTO
              && x == Member(ms[1..][i].key, Canonical(ms[1..][i].value)) {
        assert ms[i + 1] == ms[1..][i];
      }
    }
  }

  lemma MemberIsCanonical(ms: seq<Member>, i: nat)
    requires i < |ms| && ms[i].key != PROTO
    ensures Member(ms[i].key, Canonical(ms[i].value)) in CanonicalMembers(ms)
  {
    CanonicalMembersAre(ms, Member(ms[i].key, Canonical(ms[i].value)));
  }

  lemma {:induction false} CanonicalMembersDistinct(ms: seq<Member>)
    requires DistinctKeys(ms)
    ensures DistinctKeys(CanonicalMembers(ms))
  {
    if ms != [] {
      CanonicalMembersDistinct(ms[1..]);
      forall x | x in CanonicalMembers(ms[1..]) ensures x.key != ms[0].key {
        CanonicalMembersAre(ms[1..], x);
        var i :| 0 <= i < |ms[1..]| && x.key == ms[1..][i].key;
        assert ms[i + 1] == ms[1..][i];
      }
    }
  }

  /** The members of a canonical object: in enumeration order, and exactly the canonical members. */
  lemma CanonicalObject(ms: seq<Member>)
    requires DistinctKeys(ms)
    ensures var sorted := SortMembers(CanonicalMembers(ms), Before);
            Ordered(sorted, Before) && forall x :: x in sorted <==> x in CanonicalMembers(ms)
  {
    OrdersAreTotal();
    CanonicalMembersDistinct(ms);
    SortOrders(CanonicalMembers(ms), Before);
  }

  // --- equal up to key order -------------------------------------------------------------------------------------

  /** The same value but for the order of keys, at every depth; prototype keys carry nothing. */
  ghost predicate Same(a: Json, b: Json)
    decreases a
  {
    match a
    case Array(xs) =>
      b.Array? && |xs| == |b.items| && forall i :: 0 <= i < |xs| ==> Same(xs[i], b.items[i])
    case Object(ms) =>
      && b.Object?
      && (forall i {:trigger FoundIn(ms[i], b.members)} :: 0 <= i < |ms| && ms[i].key != PROTO ==>
            FoundIn(ms[i], b.members))
      && (forall j {:trigger Matches(ms, b.members[j])} :: 0 <= j < |b.members| && b.members[j].key != PROTO ==>
            Matches(ms, b.members[j]))
    case _ => a == b
  }

  /** Some member of `ns` has the key of `x` and the same value. */
  ghost predicate FoundIn(x: Member, ns: seq<Member>)
    decreases x
  {
    exists j :: 0 <= j < |ns| && ns[j].key == x.key && Same(x.value, ns[j].value)
  }

  /** Some member of `ms` has the key of `y`, and the same value as it. */
  ghost predicate Matches(ms: seq<Member>, y: Member)
    decreases ms
  {
    exists i :: 0 <= i < |ms| && ms[i].key == y.key && Same(ms[i].value, y.value)
  }

  /** Two values have one canonical form exactly when they are the same but for key order. */
  lemma {:induction false} CanonicalIffSame(a: Json, b: Json)
    requires WellFormed(a) && WellFormed(b)
    ensures Same(a, b) <==> Canonical(a) == Canonical(b)
    decreases a
  {
    if a.Array? && b.Array? {
      SameArrays(a.items, b.items);
    } else if a.Object? && b.Object? {
      if Same(a, b) { SameObjects(a, b); }
      if Canonical(a) == Canonical(b) { EqualObjects(a, b); }
    }
  }

  lemma {:induction false} SameArrays(xs: seq<Json>, ys: seq<Json>)
    requires WellFormed(Array(xs)) && WellFormed(Array(ys))
    ensures Same(Array(xs), Array(ys)) <==> CanonicalAll(xs) == CanonicalAll(ys)
    decreases xs
  {
    if |xs| == |ys| {
      forall i | 0 <= i < |xs| ensures Same(xs[i], ys[i]) <==> CanonicalAll(xs)[i] == CanonicalAll(ys)[i] {
        assert WellFormed(Array(xs).items[i]) && WellFormed(Array(ys).items[i]);
        CanonicalAllAt(xs, i);
        CanonicalAllAt(ys, i);
        CanonicalIffSame(xs[i], ys[i]);
      }
    }
  }

  /** Same objects have the same canonical members, so the same canonical form. */
  lemma {:induction false} SameObjects(a: Json, b: Json)
    requires a.Object? && b.Object? && WellFormed(a) && WellFormed(b) && Same(a, b)
    ensures Canonical(a) == Canonical(b)
    decreases a, 1
  {
    var ms, ns := a.members, b.members;
    forall x ensures x in CanonicalMembers(ms) <==> x in CanonicalMembers(ns) {
      if x in CanonicalMembers(ms) { SharedFromLeft(a, b, x); }
      if x in CanonicalMembers(ns) { SharedFromRight(a, b, x); }
    }
    CanonicalObject(ms);
    CanonicalObject(ns);
    OrdersAreTotal();
    OrderedIsUnique(SortMembers(CanonicalMembers(ms), Before), SortMembers(CanonicalMembers(ns), Before), Before);
  }

  /** Where a canonical member comes from. */
  lemma KeptAt(ms: seq<Member>, x: Member) returns (i: nat)
    requires x in CanonicalMembers(ms)
    ensures i < |ms| && ms[i].key != PROTO && x == Member(ms[i].key, Canonical(ms[i].value))
  {
    CanonicalMembersAre(ms, x);
    i :| 0 <= i < |ms| && ms[i].key != PROTO && x == Member(ms[i].key, Canonical(ms[i].value));
  }

  lemma SameFromLeft(a: Json, b: Json, i: nat) returns (j: nat)
    requires a.Object? && b.Object? && Same(a, b) && i < |a.members| && a.members[i].key != PROTO
    ensures j < |b.members| && b.members[j].key == a.members[i].key && Same(a.members[i].value, b.members[j].value)
  {
    assert FoundIn(a.members[i], b.members);
    j :| 0 <= j < |b.members| && b.members[j].key == a.members[i].key && Same(a.members[i].value, b.members[j].value);
  }

  lemma SameFromRight(a: Json, b: Json, j: nat) returns (i: nat)
    requires a.Object? && b.Object? && Same(a, b) && j < |b.members| && b.members[j].key != PROTO
    ensures i < |a.members| && a.members[i].key == b.members[j].key && Same(a.members[i].value, b.members[j].value)
  {
    assert Matches(a.members, b.members[j]);
    i :| 0 <= i < |a.members| && a.members[i].key == b.members[j].key && Same(a.members[i].value, b.members[j].value);
  }

  /** Members of one key and the same value are one canonical member. */
  lemma SharedMember(ms: seq<Member>, ns: seq<Member>, i: nat, j: nat)
    requires i < |ms| && j < |ns| && ms[i].key == ns[j].key != PROTO
    requires Canonical(ms[i].value) == Canonical(ns[j].value)
    ensures Member(ms[i].key, Canonical(ms[i].value)) in CanonicalMembers(ms)
    ensures Member(ms[i].key, Canonical(ms[i].value)) in CanonicalMembers(ns)
  {
    MemberIsCanonical(ms, i);
    MemberIsCanonical(ns, j);
  }

  lemma {:induction false} SharedFromLeft(a: Json, b: Json, x: Member)
    requires a.Object? && b.Object? && WellFormed(a) && WellFormed(b) && Same(a, b)
    requires x in CanonicalMembers(a.members)
    ensures x in CanonicalMembers(b.members)
    decreases a, 0
  {
    var i := KeptAt(a.members, x);
    var j := SameFromLeft(a, b, i);
    CanonicalIffSame(a.members[i].value, b.members[j].value);
    SharedMember(a.members, b.members, i, j);
  }

  lemma {:induction false} SharedFromRight(a: Json, b: Json, x: Member)
    requires a.Object? && b.Object? && WellFormed(a) && WellFormed(b) && Same(a, b)
    requires x in CanonicalMembers(b.members)
    ensures x in CanonicalMembers(a.members)
    decreases a, 0
  {
    var j := KeptAt(b.members, x);
    var i := SameFromRight(a, b, j);
    CanonicalIffSame(a.members[i].value, b.members[j].value);
    SharedMember(a.members, b.members, i, j);
  }

  /** Equal canonical forms share every member, so the objects are the same. */
  lemma {:induction false} EqualObjects(a: Json, b: Json)
    requires a.Object? && b.Object? && WellFormed(a) && WellFormed(b) && Canonical(a) == Canonical(b)
    ensures Same(a, b)
    decreases a, 1
  {
    CanonicalObject(a.members);
    CanonicalObject(b.members);
    forall x ensures x in CanonicalMembers(a.members) <==> x in CanonicalMembers(b.members) {
      assert x in Canonical(a).members <==> x in CanonicalMembers(a.members);
    }
    forall i | 0 <= i < |a.members| && a.members[i].key != PROTO
      ensures FoundIn(a.members[i], b.members)
    {
      var j := MatchFromLeft(a, b, i);
    }
    forall j | 0 <= j < |b.members| && b.members[j].key != PROTO
      ensures Matches(a.members, b.members[j])
    {
      var i := MatchFromRight(a, b, j);
    }
  }

  lemma {:induction false} MatchFromLeft(a: Json, b: Json, i: nat) returns (j: nat)
    requires a.Object? && b.Object? && WellFormed(a) && WellFormed(b)
    requires forall x :: x in CanonicalMembers(a.members) <==> x in CanonicalMembers(b.members)
    requires i < |a.members| && a.members[i].key != PROTO
    ensures j < |b.members| && b.members[j].key == a.members[i].key && Same(a.members[i].value, b.members[j].value)
    decreases a, 0
  {
    var ms, ns := a.members, b.members;
    var x := Member(ms[i].key, Canonical(ms[i].value));
    CanonicalMembersAre(ms, x);
    CanonicalMembersAre(ns, x);
    j :| 0 <= j < |ns| && ns[j].key != PROTO && x == Member(ns[j].key, Canonical(ns[j].value));
    CanonicalIffSame(ms[i].value, ns[j].value);
  }

  lemma {:induction false} MatchFromRight(a: Json, b: Json, j: nat) returns (i: nat)
    requires a.Object? && b.Object? && WellFormed(a) && WellFormed(b)
    requires forall x :: x in CanonicalMembers(a.members) <==> x in CanonicalMembers(b.members)
    requires j < |b.members| && b.members[j].key != PROTO
    ensures i < |a.members| && a.members[i].key == b.members[j].key && Same(a.members[i].value, b.members[j].value)
    decreases a, 0
  {
    var ms, ns := a.members, b.members;
    var x := Member(ns[j].key, Canonical(ns[j].value));
    CanonicalMembersAre(ms, x);
    CanonicalMembersAre(ns, x);
    i :| 0 <= i < |ms| && ms[i].key != PROTO && x == Member(ms[i].key, Canonical(ms[i].value));
    CanonicalIffSame(ms[i].value, ns[j].value);
  }

  /** The canonical form is the value it came from but for key order: no binding is lost or moved. */
  lemma {:induction false} CanonicalPreserves(v: Json)
    requires WellFormed(v)
    ensures WellFormed(Canonical(v)) && Same(Canonical(v), v)
    decreases v, 1
  {
    match v
    case Array(items) =>
      forall i | 0 <= i < |items| ensures WellFormed(CanonicalAll(items)[i]) && Same(CanonicalAll(items)[i], items[i]) {
        CanonicalAllAt(items, i);
        CanonicalPreserves(items[i]);
      }
    case Object(ms) => CanonicalPreservesObject(v);
    case _ =>
  }

  lemma {:induction false} CanonicalPreservesObject(v: Json)
    requires v.Object? && WellFormed(v)
    ensures WellFormed(Canonical(v)) && Same(Canonical(v), v)
    decreases v, 0
  {
    var c, ms := Canonical(v), v.members;
    CanonicalObject(ms);
    OrdersAreTotal();
    forall i | 0 <= i < |c.members|
      ensures WellFormed(c.members[i].value) && c.members[i].key != PROTO
      ensures FoundIn(c.members[i], ms)
    {
      assert c.members[i] in c.members;
      var j := KeptAt(ms, c.members[i]);
      CanonicalPreserves(ms[j].value);
    }
    forall j | 0 <= j < |ms| && ms[j].key != PROTO
      ensures Matches(c.members, ms[j])
    {
      MemberIsCanonical(ms, j);
      var i :| 0 <= i < |c.members| && c.members[i] == Member(ms[j].key, Canonical(ms[j].value));
      CanonicalPreserves(ms[j].value);
    }
  }

  /** Canonicalising twice is canonicalising once. */
  lemma CanonicalIsIdempotent(v: Json)
    requires WellFormed(v)
    ensures Canonical(Canonical(v)) == Canonical(v)
  {
    CanonicalPreserves(v);
    CanonicalIffSame(Canonical(v), v);
  }

  /** The keys an object keeps put their array indices where plain ascending order would put them. */
  ghost predicate IndicesSortAsText(ms: seq<Member>) {
    forall i, j :: 0 <= i < |ms| && 0 <= j < |ms| && ms[i].key != PROTO && ms[j].key != PROTO ==>
      && (IsIndex(ms[i].key) && !IsIndex(ms[j].key) ==> LexLess(ms[i].key, ms[j].key))
      && (IsIndex(ms[i].key) && IsIndex(ms[j].key) && Read(ms[i].key) < Read(ms[j].key) ==>
            LexLess(ms[i].key, ms[j].key))
  }

  /**
   * An object's keys come out ascending if and only if every index key sorts below every other key
   * and index keys sort alike as numbers and as text.
   */
  lemma ObjectAscendsIff(ms: seq<Member>)
    requires DistinctKeys(ms)
    ensures Ordered(Canonical(Object(ms)).members, LexLess) <==> IndicesSortAsText(ms)
  {
    CanonicalObject(ms);
    var sorted := SortMembers(CanonicalMembers(ms), Before);
    if IndicesSortAsText(ms) {
      forall i, j | 0 <= i < j < |sorted| ensures LexLess(sorted[i].key, sorted[j].key) {
        assert sorted[i] in sorted && sorted[j] in sorted;
        CanonicalMembersAre(ms, sorted[i]);
        CanonicalMembersAre(ms, sorted[j]);
      }
    }
    if Ordered(sorted, LexLess) {
      forall i, j | 0 <= i < |ms| && 0 <= j < |ms| && ms[i].key != PROTO && ms[j].key != PROTO
                    && Before(ms[i].key, ms[j].key)
        ensures LexLess(ms[i].key, ms[j].key)
      {
        OrderedAgrees(sorted, ms, i, j);
      }
    }
  }

  /** What two orders both put in a row, they compare alike. */
  lemma OrderedAgrees(sorted: seq<Member>, ms: seq<Member>, i: nat, j: nat)
    requires Ordered(sorted, Before) && Ordered(sorted, LexLess)
    requires forall m :: m in sorted <==> m in CanonicalMembers(ms)
    requires i < |ms| && j < |ms| && ms[i].key != PROTO && ms[j].key != PROTO
    requires Before(ms[i].key, ms[j].key)
    ensures LexLess(ms[i].key, ms[j].key)
  {
    var x, y := Member(ms[i].key, Canonical(ms[i].value)), Member(ms[j].key, Canonical(ms[j].value));
    MemberIsCanonical(ms, i);
    MemberIsCanonical(ms, j);
    OrdersAreTotal();
    var p :| 0 <= p < |sorted| && sorted[p] == x;
    var q :| 0 <= q < |sorted| && sorted[q] == y;
    assert p != q && !(q < p);
  }

  /** Every object in a value, at every depth, has its keys ascending. */
  ghost predicate Ascending(v: Json)
    decreases v
  {
    match v
    case Array(items) => forall i :: 0 <= i < |items| ==> Ascending(items[i])
    case Object(ms) => Ordered(ms, LexLess) && forall i :: 0 <= i < |ms| ==> Ascending(ms[i].value)
    case _ => true
  }

  /** Every object in a value that the canonical form keeps has indices that sort as text. */
  ghost predicate SortsAsText(v: Json)
    decreases v
  {
    match v
    case Array(items) => forall i :: 0 <= i < |items| ==> SortsAsText(items[i])
    case Object(ms) =>
      IndicesSortAsText(ms) && forall i :: 0 <= i < |ms| && ms[i].key != PROTO ==> SortsAsText(ms[i].value)
    case _ => true
  }

  /** The promise of ascending keys, however deeply nested, is kept for exactly these values. */
  lemma {:induction false} AscendingIff(v: Json)
    requires WellFormed(v)
    ensures Ascending(Canonical(v)) <==> SortsAsText(v)
    decreases v
  {
    match v
    case Array(items) =>
      forall i | 0 <= i < |items| ensures Ascending(CanonicalAll(items)[i]) <==> SortsAsText(items[i]) {
        CanonicalAllAt(items, i);
        AscendingIff(items[i]);
      }
    case Object(ms) =>
      ObjectAscendsIff(ms);
      forall i | 0 <= i < |ms| && ms[i].key != PROTO
        ensures Ascending(Canonical(ms[i].value)) <==> SortsAsText(ms[i].value)
      {
        AscendingIff(ms[i].value);
      }
      ValuesAscendIff(ms);
    case _ =>
  }

  /** The values of a canonical object are the canonical values of the members it keeps. */
  lemma ValuesAscendIff(ms: seq<Member>)
    requires DistinctKeys(ms)
    ensures var sorted := Canonical(Object(ms)).members;
            (forall i :: 0 <= i < |sorted| ==> Ascending(sorted[i].value))
              <==> (forall i :: 0 <= i < |ms| && ms[i].key != PROTO ==> Ascending(Canonical(ms[i].value)))
  {
    CanonicalObject(ms);
    var sorted := SortMembers(CanonicalMembers(ms), Before);
    if forall i :: 0 <= i < |sorted| ==> Ascending(sorted[i].value) {
      forall i | 0 <= i < |ms| && ms[i].key != PROTO ensures Ascending(Canonical(ms[i].value)) {
        MemberIsCanonical(ms, i);
        var k :| 0 <= k < |sorted| && sorted[k] == Member(ms[i].key, Canonical(ms[i].value));
      }
    }
    if forall i :: 0 <= i < |ms| && ms[i].key != PROTO ==> Ascending(Canonical(ms[i].value)) {
      forall k | 0 <= k < |sorted| ensures Ascending(sorted[k].value) {
        assert sorted[k] in sorted;
        CanonicalMembersAre(ms, sorted[k]);
      }
    }
  }

  /** With no key that is an array index, the keys come out in plain ascending order. */
  lemma AscendingWithoutIndices(ms: seq<Member>)
    requires DistinctKeys(ms) && forall i :: 0 <= i < |ms| ==> !IsIndex(ms[i].key)
    ensures Ordered(Canonical(Object(ms)).members, LexLess)
  {
    ObjectAscendsIff(ms);
  }

  lemma TenAndNine()
    ensures IsIndex("9") && Read("9") == 9 && IsIndex("10") && Read("10") == 10
    ensures LexLess("10", "9") && !LexLess("9", "10")
    ensures "10" != PROTO && "9" != PROTO
  {
    assert "10"[..1] == "1" && "1"[..0] == "" && "9"[..0] == "";
    assert Read("1") == 1;
    assert Digits(1) == "1";
  }

  /** Otherwise not: of the keys "10" and "9" the host enumerates "9" first. */
  lemma IndicesComeOutNumerically()
    ensures var v := Object([Member("10", Null), Member("9", Null)]);
            && Canonical(v) == Object([Member("9", Null), Member("10", Null)])
            && !Ordered(Canonical(v).members, LexLess)
  {
    var ten, nine := Member("10", Null), Member("9", Null);
    TenAndNine();
    CanonicalOfTwo(ten, nine);
    SortOfTwo(ten, nine);
    assert [nine, ten][0].key == "9" && [nine, ten][1].key == "10";
  }

  lemma SortOfTwo(a: Member, b: Member)
    requires !Before(a.key, b.key)
    ensures SortMembers([a, b], Before) == [b, a]
  {
    var both, last := [a, b], [b];
    assert both[1..] == last && last[1..] == [];
    assert SortMembers(last, Before) == last;
    assert Insert(a, last, Before) == [b] + Insert(a, [], Before);
  }

  lemma CanonicalOfTwo(a: Member, b: Member)
    requires a.value == Null && b.value == Null && a.key != PROTO && b.key != PROTO
    ensures CanonicalMembers([a, b]) == [a, b]
  {
    assert [a, b][1..] == [b] && [b][1..] == [];
    assert CanonicalMembers([b]) == [b];
  }

  // --- the step-by-step form ---------------------------------------------------------------------------------------

  /** Assigning a member: in place when the key is there, among the indices, or at the end. */
  function Put(ms: seq<Member>, m: Member): seq<Member> {
    if m.key == PROTO then ms
    else if IsIndex(m.key) then PutIndex(ms, m)
    else ms + [m]
  }

  function PutIndex(ms: seq<Member>, m: Member): seq<Member>
    requires IsIndex(m.key)
  {
    if ms == [] || !IsIndex(ms[0].key) || Read(m.key) < Read(ms[0].key) then [m] + ms
    else [ms[0]] + PutIndex(ms[1..], m)
  }

  lemma {:induction false} PutIndexIsInsert(ms: seq<Member>, m: Member)
    requires IsIndex(m.key)
    ensures PutIndex(ms, m) == Insert(m, ms, Before)
  {
    if ms != [] && IsIndex(ms[0].key) && Read(m.key) >= Read(ms[0].key) {
      PutIndexIsInsert(ms[1..], m);
    }
  }

  /** Filling an object in ascending key order keeps it in enumeration order. */
  lemma PutOrders(ms: seq<Member>, m: Member)
    requires Ordered(ms, Before) && m.key != PROTO && !HasKey(ms, m.key)
    requires forall x :: x in ms ==> LexLess(x.key, m.key)
    ensures Ordered(Put(ms, m), Before)
    ensures forall x :: x in Put(ms, m) <==> x == m || x in ms
  {
    OrdersAreTotal();
    if IsIndex(m.key) {
      PutIndexIsInsert(ms, m);
      InsertOrders(m, ms, Before);
    } else {
      forall i | 0 <= i < |ms| ensures Before(ms[i].key, m.key) {
        assert ms[i] in ms;
      }
    }
  }

  /** Rebuild a value with its keys in canonical order. */
  method SortJsonKeys(value: Json) returns (r: Json)
    requires WellFormed(value)
    ensures r == Canonical(value)
    decreases value
  {
    match value
    case Array(items) =>
      var sorted := [];
      for i := 0 to |items|
        invariant sorted == CanonicalAll(items)[..i]
      {
        var item := SortJsonKeys(items[i]);
        CanonicalAllAt(items, i);
        sorted := sorted + [item];
      }
      assert CanonicalAll(items)[..|items|] == CanonicalAll(items);
      return Array(sorted);
    case Object(members) =>
      var built := Rebuild(members);
      CanonicalObject(members);
      OrdersAreTotal();
      OrderedIsUnique(built, SortMembers(CanonicalMembers(members), Before), Before);
      return Object(built);
    case _ => return value;
  }

  /** `built` is the first `n` members, canonicalised, in enumeration order. */
  ghost predicate Filled(built: seq<Member>, ms: seq<Member>, n: nat)
    requires n <= |ms|
  {
    && Ordered(built, Before)
    && forall x :: x in built <==>
         exists j :: 0 <= j < n && ms[j].key != PROTO && x == Member(ms[j].key, Canonical(ms[j].value))
  }

  lemma FilledOneMore(built: seq<Member>, ms: seq<Member>, n: nat)
    requires n < |ms| && Ordered(ms, LexLess) && Filled(built, ms, n)
    ensures Filled(Put(built, Member(ms[n].key, Canonical(ms[n].value))), ms, n + 1)
  {
    var m := Member(ms[n].key, Canonical(ms[n].value));
    OrdersAreTotal();
    if m.key != PROTO {
      forall x | x in built ensures LexLess(x.key, m.key) {
        var j :| 0 <= j < n && ms[j].key != PROTO && x == Member(ms[j].key, Canonical(ms[j].value));
      }
      PutOrders(built, m);
    }
  }

  /** Fill a fresh object from the keys in ascending order. */
  method Rebuild(members: seq<Member>) returns (built: seq<Member>)
    requires WellFormed(Object(members))
    ensures Ordered(built, Before)
    ensures forall x :: x in built <==> x in CanonicalMembers(members)
    decreases members
  {
    OrdersAreTotal();
    SortOrders(members, LexLess);
    var ascending := SortMembers(members, LexLess);
    built := [];
    for i := 0 to |ascending|
      invariant Filled(built, ascending, i)
    {
      assert ascending[i] in members;
      var value := SortJsonKeys(ascending[i].value);
      FilledOneMore(built, ascending, i);
      built := Put(built, Member(ascending[i].key, value));
    }
    forall x ensures x in built <==> x in CanonicalMembers(members) {
      SameMembers(members, ascending, x);
    }
  }

  lemma SameMembers(ms: seq<Member>, ns: seq<Member>, x: Member)
    requires forall m :: m in ms <==> m in ns
    ensures x in CanonicalMembers(ms) <==>
              exists j :: 0 <= j < |ns| && ns[j].key != PROTO && x == Member(ns[j].key, Canonical(ns[j].value))
  {
    CanonicalMembersAre(ms, x);
    if i :| 0 <= i < |ms| && ms[i].key != PROTO && x == Member(ms[i].key, Canonical(ms[i].value)) {
      assert ms[i] in ns;
      var j :| 0 <= j < |ns| && ns[j] == ms[i];
    }
    if j :| 0 <= j < |ns| && ns[j].key != PROTO && x == Member(ns[j].key, Canonical(ns[j].value)) {
      assert ns[j] in ms;
      var i :| 0 <= i < |ms| && ms[i] == ns[j];
    }
  }
}
