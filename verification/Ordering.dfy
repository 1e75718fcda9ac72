/** Lexicographic order on identifiers and the stable sort the program relies on. */
module Ordering {
  import opened Outcomes

  /** Dictionary order of sequences, given a strict order of their elements. */
  predicate Lex<T(==)>(a: seq<T>, b: seq<T>, less: (T, T) -> bool) {
    if b == [] then false
    else if a == [] then true
    else if a[0] == b[0] then Lex(a[1..], b[1..], less)
    else less(a[0], b[0])
  }

  ghost predicate StrictTotal<T(!new)>(less: (T, T) -> bool) {
    && (forall x :: !less(x, x))
    && (forall x, y :: less(x, y) || less(y, x) || x == y)
    && (forall x, y, z :: less(x, y) && less(y, z) ==> less(x, z))
  }

  lemma {:induction false} LexIrreflexive<T(!new)>(a: seq<T>, less: (T, T) -> bool)
    ensures !Lex(a, a, less)
  {
    if a != [] { LexIrreflexive(a[1..], less); }
  }

  lemma {:induction false} LexTotal<T(!new)>(a: seq<T>, b: seq<T>, less: (T, T) -> bool)
    requires StrictTotal(less)
    ensures Lex(a, b, less) || Lex(b, a, less) || a == b
  {
    if a != [] && b != [] && a[0] == b[0] {
      LexTotal(a[1..], b[1..], less);
      assert a == [a[0]] + a[1..] && b == [b[0]] + b[1..];
    }
  }

  lemma {:induction false} LexTransitive<T(!new)>(a: seq<T>, b: seq<T>, c: seq<T>, less: (T, T) -> bool)
    requires StrictTotal(less)
    requires Lex(a, b, less) && Lex(b, c, less)
    ensures Lex(a, c, less)
  {
    if a != [] && a[0] == b[0] && b[0] == c[0] {
      LexTransitive(a[1..], b[1..], c[1..], less);
    }
  }

  /** String order by code point. */
  predicate StrLess(a: string, b: string) {
    Lex(a, b, (x: char, y: char) => x < y)
  }

  /** Order of tuples of strings. */
  predicate IdsLess(a: seq<string>, b: seq<string>) {
    Lex(a, b, StrLess)
  }

  lemma StrOrder()
    ensures StrictTotal(StrLess)
  {
    var less := (x: char, y: char) => x < y;
    assert StrictTotal(less);
    forall a: string ensures !StrLess(a, a) { LexIrreflexive(a, less); }
    forall a: string, b: string ensures StrLess(a, b) || StrLess(b, a) || a == b { LexTotal(a, b, less); }
    forall a: string, b: string, c: string | StrLess(a, b) && StrLess(b, c) ensures StrLess(a, c) {
      LexTransitive(a, b, c, less);
    }
  }

  lemma IdsOrder()
    ensures StrictTotal(IdsLess)
  {
    StrOrder();
    forall a: seq<string> ensures !IdsLess(a, a) { LexIrreflexive(a, StrLess); }
    forall a: seq<string>, b: seq<string> ensures IdsLess(a, b) || IdsLess(b, a) || a == b { LexTotal(a, b, StrLess); }
    forall a: seq<string>, b: seq<string>, c: seq<string> | IdsLess(a, b) && IdsLess(b, c) ensures IdsLess(a, c) {
      LexTransitive(a, b, c, StrLess);
    }
  }

  /** A strict weak order: what a sort key induces. */
  ghost predicate WeakOrder<T(!new)>(less: (T, T) -> bool) {
    && (forall x, y :: less(x, y) ==> !less(y, x))
    && (forall x, y, z :: !less(y, x) && !less(z, y) ==> !less(z, x))
  }

  /** Compare by a key made of strings. */
  function ByKey<T>(key: T -> seq<string>): (T, T) -> bool {
    (x: T, y: T) => IdsLess(key(x), key(y))
  }

  lemma ByKeyOrder<T(!new)>(key: T -> seq<string>)
    ensures WeakOrder(ByKey(key))
  {
    IdsOrder();
    var less := ByKey(key);
    forall x, y | less(x, y) ensures !less(y, x) {
      assert IdsLess(key(x), key(y));
      assert IdsLess(key(y), key(x)) ==> IdsLess(key(x), key(x));
    }
    forall x, y, z | !less(y, x) && !less(z, y) ensures !less(z, x) {
      var a, b, c := key(x), key(y), key(z);
      assert !IdsLess(b, a) && !IdsLess(c, b);
      assert IdsLess(a, b) || a == b;
      assert IdsLess(b, c) || b == c;
    }
  }

  ghost predicate Sorted<T>(s: seq<T>, less: (T, T) -> bool) {
    forall i, j :: 0 <= i < j < |s| ==> !less(s[j], s[i])
  }

  /** Place x before the first element that is not smaller. */
  function Insert<T>(x: T, s: seq<T>, less: (T, T) -> bool): seq<T> {
    if s == [] || !less(s[0], x) then [x] + s
    else [s[0]] + Insert(x, s[1..], less)
  }

  /** Stable sort. */
  function Sort<T>(s: seq<T>, less: (T, T) -> bool): seq<T> {
    if s == [] then [] else Insert(s[0], Sort(s[1..], less), less)
  }

  function SortBy<T>(s: seq<T>, key: T -> seq<string>): seq<T> {
    Sort(s, ByKey(key))
  }

  lemma SortOne<T>(x: T, less: (T, T) -> bool)
    ensures Sort([x], less) == [x]
  {
    assert [x][1..] == [];
  }

  lemma {:induction false} InsertPermutes<T>(x: T, s: seq<T>, less: (T, T) -> bool)
    ensures multiset(Insert(x, s, less)) == multiset{x} + multiset(s)
  {
    if s != [] && less(s[0], x) {
      InsertPermutes(x, s[1..], less);
      assert s == [s[0]] + s[1..];
    }
  }

  lemma {:induction false} SortPermutes<T>(s: seq<T>, less: (T, T) -> bool)
    ensures multiset(Sort(s, less)) == multiset(s)
    ensures |Sort(s, less)| == |s|
    ensures forall x :: x in Sort(s, less) <==> x in s
  {
    if s != [] {
      SortPermutes(s[1..], less);
      InsertPermutes(s[0], Sort(s[1..], less), less);
      assert s == [s[0]] + s[1..];
    }
    assert |Sort(s, less)| == |multiset(Sort(s, less))| == |multiset(s)|;
    forall x ensures x in Sort(s, less) <==> x in s {
      assert x in Sort(s, less) <==> x in multiset(Sort(s, less));
      assert x in s <==> x in multiset(s);
    }
  }

  lemma {:induction false} InsertSorted<T(!new)>(x: T, s: seq<T>, less: (T, T) -> bool)
    requires WeakOrder(less) && Sorted(s, less)
    ensures Sorted(Insert(x, s, less), less)
  {
    if s != [] && less(s[0], x) {
      InsertSorted(x, s[1..], less);
      InsertPermutes(x, s[1..], less);
      var r := Insert(x, s[1..], less);
      forall j | 0 <= j < |r| ensures !less(r[j], s[0]) {
        assert r[j] in multiset(r);
        assert r[j] == x || r[j] in s[1..];
      }
    } else if s != [] {
      forall j | 0 <= j < |s| ensures !less(s[j], x) {
        assert j > 0 ==> !less(s[j], s[0]);
      }
    }
  }

  lemma {:induction false} SortSorts<T(!new)>(s: seq<T>, less: (T, T) -> bool)
    requires WeakOrder(less)
    ensures Sorted(Sort(s, less), less)
  {
    if s != [] {
      SortSorts(s[1..], less);
      InsertSorted(s[0], Sort(s[1..], less), less);
    }
  }

  /** Elements that tie under the order are equal. */
  ghost predicate Separates<T>(s: seq<T>, less: (T, T) -> bool) {
    forall x, y :: x in s && y in s && !less(x, y) && !less(y, x) ==> x == y
  }

  lemma HeadsAgree<T>(a: seq<T>, b: seq<T>, less: (T, T) -> bool)
    requires Sorted(a, less) && Sorted(b, less) && Separates(a, less)
    requires a != [] && b != [] && a[0] in b && b[0] in a
    ensures a[0] == b[0]
  {
    var i :| 0 <= i < |b| && b[i] == a[0];
    var j :| 0 <= j < |a| && a[j] == b[0];
    if i > 0 && j > 0 {
      assert !less(a[j], a[0]) && !less(b[i], b[0]);
    }
  }

  lemma TailKeepsOrder<T>(a: seq<T>, less: (T, T) -> bool)
    requires a != []
    ensures multiset(a) == multiset{a[0]} + multiset(a[1..])
    ensures Sorted(a, less) ==> Sorted(a[1..], less)
    ensures Separates(a, less) ==> Separates(a[1..], less)
  {
    assert a == [a[0]] + a[1..];
    assert forall x :: x in a[1..] ==> x in a;
  }

  lemma {:induction false} SortedUnique<T>(a: seq<T>, b: seq<T>, less: (T, T) -> bool)
    requires Sorted(a, less) && Sorted(b, less)
    requires multiset(a) == multiset(b)
    requires Separates(a, less)
    ensures a == b
    decreases |a|
  {
    assert |a| == |multiset(a)| == |multiset(b)| == |b|;
    if a != [] {
      assert a[0] in multiset(a) && b[0] in multiset(b);
      HeadsAgree(a, b, less);
      TailKeepsOrder(a, less);
      TailKeepsOrder(b, less);
      assert multiset(a[1..]) == multiset(a) - multiset{a[0]};
      assert multiset(b[1..]) == multiset(b) - multiset{b[0]};
      SortedUnique(a[1..], b[1..], less);
    }
  }

  /** When no two elements tie, the sorted order forgets how the input was arranged. */
  lemma SortForgetsOrder<T(!new)>(a: seq<T>, b: seq<T>, less: (T, T) -> bool)
    requires WeakOrder(less)
    requires multiset(a) == multiset(b)
    requires Separates(a, less)
    ensures Sort(a, less) == Sort(b, less)
  {
    SortPermutes(a, less);
    SortPermutes(b, less);
    SortSorts(a, less);
    SortSorts(b, less);
    SortedUnique(Sort(a, less), Sort(b, less), less);
  }

  lemma {:induction false} InsertFlatMap<T, U>(x: T, s: seq<T>, less: (T, T) -> bool, f: T -> seq<U>)
    ensures multiset(FlatMap(Insert(x, s, less), f)) == multiset(f(x)) + multiset(FlatMap(s, f))
  {
    if s == [] || !less(s[0], x) {
      assert ([x] + s)[1..] == s;
    } else {
      InsertFlatMap(x, s[1..], less, f);
      assert Insert(x, s, less)[1..] == Insert(x, s[1..], less);
    }
  }

  /** Sorting first only rearranges what a sequence is expanded into. */
  lemma {:induction false} SortFlatMap<T, U>(s: seq<T>, less: (T, T) -> bool, f: T -> seq<U>)
    ensures multiset(FlatMap(Sort(s, less), f)) == multiset(FlatMap(s, f))
  {
    if s != [] {
      SortFlatMap(s[1..], less, f);
      InsertFlatMap(s[0], Sort(s[1..], less), less, f);
    }
  }

  /** No value occurs twice. */
  predicate Distinct<T(==)>(s: seq<T>) {
    forall i, j :: 0 <= i < j < |s| ==> s[i] != s[j]
  }

  lemma DistinctTail<T, U>(s: seq<T>, f: T -> U)
    requires s != []
    ensures Distinct(Map(s, f)) <==> Distinct(Map(s[1..], f)) && forall y :: y in s[1..] ==> f(y) != f(s[0])
  {
    var keys, tail := Map(s, f), Map(s[1..], f);
    assert forall i :: 0 <= i < |tail| ==> tail[i] == keys[i + 1];
    if Distinct(keys) {
      forall y | y in s[1..] ensures f(y) != f(s[0]) {
        var k :| 0 <= k < |s[1..]| && s[1..][k] == y;
        assert keys[0] != keys[k + 1];
      }
    }
    if Distinct(tail) && forall y :: y in s[1..] ==> f(y) != f(s[0]) {
      forall i, j | 0 <= i < j < |keys| ensures keys[i] != keys[j] {
        assert keys[j] == tail[j - 1] && s[j] == s[1..][j - 1];
        if i > 0 { assert keys[i] == tail[i - 1]; }
      }
    }
  }

  lemma {:induction false} InsertKeepsDistinct<T, U>(x: T, s: seq<T>, less: (T, T) -> bool, f: T -> U)
    requires Distinct(Map(s, f)) && forall y :: y in s ==> f(y) != f(x)
    ensures Distinct(Map(Insert(x, s, less), f))
  {
    var inserted := Insert(x, s, less);
    DistinctTail(inserted, f);
    if s == [] || !less(s[0], x) {
      assert inserted[1..] == s;
    } else {
      DistinctTail(s, f);
      InsertKeepsDistinct(x, s[1..], less, f);
      InsertPermutes(x, s[1..], less);
      assert inserted[1..] == Insert(x, s[1..], less);
      forall y | y in inserted[1..] ensures f(y) != f(s[0]) {
        assert y in multiset(inserted[1..]);
      }
    }
  }

  /** Sorting keeps keys distinct. */
  lemma {:induction false} SortKeepsDistinct<T, U>(s: seq<T>, less: (T, T) -> bool, f: T -> U)
    requires Distinct(Map(s, f))
    ensures Distinct(Map(Sort(s, less), f))
  {
    if s != [] {
      DistinctTail(s, f);
      SortKeepsDistinct(s[1..], less, f);
      SortPermutes(s[1..], less);
      forall y | y in Sort(s[1..], less) ensures f(y) != f(s[0]) {
        assert y in multiset(Sort(s[1..], less)) && y in multiset(s[1..]);
      }
      InsertKeepsDistinct(s[0], Sort(s[1..], less), less, f);
    }
  }

  /** So does dropping elements. */
  lemma {:induction false} FilterKeepsDistinct<T(!new), U>(s: seq<T>, keep: T -> bool, f: T -> U)
    requires Distinct(Map(s, f))
    ensures Distinct(Map(Filter(s, keep), f))
  {
    if s != [] {
      DistinctTail(s, f);
      FilterKeepsDistinct(s[1..], keep, f);
      if keep(s[0]) {
        var kept := Filter(s, keep);
        assert kept[1..] == Filter(s[1..], keep);
        DistinctTail(kept, f);
      }
    }
  }

  /** First occurrences, in order: the keys of a dictionary filled from s. */
  function Dedup<T(==)>(s: seq<T>): (r: seq<T>)
    ensures Distinct(r)
    ensures |r| <= |s|
  {
    if s == [] then []
    else
      var before := Dedup(s[..|s| - 1]);
      if s[|s| - 1] in before then before else before + [s[|s| - 1]]
  }

  lemma {:induction false} DedupKeeps<T>(s: seq<T>, x: T)
    ensures x in Dedup(s) <==> x in s
  {
    if s != [] {
      DedupKeeps(s[..|s| - 1], x);
      assert s == s[..|s| - 1] + [s[|s| - 1]];
    }
  }

  predicate IsLeast<T(==)>(least: T, items: set<T>, less: (T, T) -> bool) {
    least in items && forall x :: x in items && x != least ==> less(least, x)
  }

  lemma {:induction false} LeastExists<T(!new)>(items: set<T>, less: (T, T) -> bool)
    requires StrictTotal(less) && items != {}
    ensures exists least :: IsLeast(least, items, less)
  {
    var one :| one in items;
    if items == {one} {
      assert IsLeast(one, items, less);
    } else {
      LeastExists(items - {one}, less);
      var other :| IsLeast(other, items - {one}, less);
      if less(one, other) {
        forall x | x in items && x != one ensures less(one, x) {
          assert x in items - {one};
          assert x == other || less(other, x);
        }
        assert IsLeast(one, items, less);
      } else {
        assert IsLeast(other, items, less);
      }
    }
  }

  /** The members of a set in increasing order. */
  function SortedSet<T(!new)>(items: set<T>, less: (T, T) -> bool): (r: seq<T>)
    requires StrictTotal(less)
    ensures |r| == |items|
    ensures forall x :: x in r <==> x in items
  {
    if items == {} then []
    else
      LeastExists(items, less);
      var least :| IsLeast(least, items, less);
      [least] + SortedSet(items - {least}, less)
  }

  lemma {:induction false} SortedSetIncreases<T(!new)>(items: set<T>, less: (T, T) -> bool)
    requires StrictTotal(less)
    ensures forall i, j ::
            0 <= i < j < |SortedSet(items, less)| ==> less(SortedSet(items, less)[i], SortedSet(items, less)[j])
    ensures Distinct(SortedSet(items, less))
  {
    if items != {} {
      var s := SortedSet(items, less);
      var least := s[0];
      assert IsLeast(least, items, less) && s[1..] == SortedSet(items - {least}, less);
      SortedSetIncreases(items - {least}, less);
      forall i, j | 0 <= i < j < |s| ensures less(s[i], s[j]) {
        if i == 0 {
          assert s[j] == s[1..][j - 1] && s[j] in s[1..];
        } else {
          assert s[i] == s[1..][i - 1] && s[j] == s[1..][j - 1];
        }
      }
    }
  }

  function SortedIds(ids: set<string>): (r: seq<string>)
    ensures |r| == |ids|
    ensures forall x :: x in r <==> x in ids
  {
    StrOrder();
    SortedSet(ids, StrLess)
  }

  lemma SortedIdsIncrease(ids: set<string>)
    ensures forall i, j :: 0 <= i < j < |SortedIds(ids)| ==> StrLess(SortedIds(ids)[i], SortedIds(ids)[j])
    ensures Distinct(SortedIds(ids))
  {
    StrOrder();
    SortedSetIncreases(ids, StrLess);
  }

  function SortedTuples(items: set<seq<string>>): (r: seq<seq<string>>)
    ensures |r| == |items|
    ensures forall x :: x in r <==> x in items
  {
    IdsOrder();
    SortedSet(items, IdsLess)
  }

  lemma TakeOut<T>(a: seq<T>, i: nat)
    requires i < |a|
    ensures multiset(a) == multiset(a[..i] + a[i + 1..]) + multiset{a[i]}
    ensures |a[..i] + a[i + 1..]| == |a| - 1
  {
    assert a == a[..i] + [a[i]] + a[i + 1..];
  }

  lemma SameMembers<T>(a: seq<T>, b: seq<T>)
    requires multiset(a) == multiset(b)
    ensures |a| == |b| && forall x :: x in a <==> x in b
  {
    assert |a| == |multiset(a)| == |multiset(b)| == |b|;
    forall x ensures x in a <==> x in b {
      assert x in a <==> x in multiset(a);
      assert x in b <==> x in multiset(b);
    }
  }

  lemma TakenOutSame<T>(a: seq<T>, i: nat, b: seq<T>)
    requires b != [] && i < |a| && a[i] == b[0] && multiset(a) == multiset(b)
    ensures multiset(a[..i] + a[i + 1..]) == multiset(b[1..])
  {
    TakeOut(a, i);
    assert b == [b[0]] + b[1..];
    assert multiset(b[1..]) == multiset(b) - multiset{b[0]};
    assert multiset(a[..i] + a[i + 1..]) == multiset(a) - multiset{a[i]};
  }

  /** Distinctness of keys survives any rearrangement. */
  lemma {:induction false} RearrangedKeys<T, U>(a: seq<T>, b: seq<T>, f: T -> U)
    requires multiset(a) == multiset(b)
    ensures Distinct(Map(a, f)) ==> Distinct(Map(b, f))
    decreases |b|
  {
    SameMembers(a, b);
    if b != [] && Distinct(Map(a, f)) {
      assert b[0] in a;
      var i :| 0 <= i < |a| && a[i] == b[0];
      var rest := a[..i] + a[i + 1..];
      TakenOutSame(a, i, b);
      DistinctWithout(a, i, f);
      RearrangedKeys(rest, b[1..], f);
      SameMembers(rest, b[1..]);
      DistinctTail(b, f);
    }
  }

  lemma DistinctWithout<T, U>(a: seq<T>, i: nat, f: T -> U)
    requires i < |a| && Distinct(Map(a, f))
    ensures var rest := a[..i] + a[i + 1..];
            Distinct(Map(rest, f)) && forall y :: y in rest ==> f(y) != f(a[i])
  {
    var rest := a[..i] + a[i + 1..];
    forall k | 0 <= k < |rest| ensures f(rest[k]) == Map(a, f)[if k < i then k else k + 1] {}
    forall y | y in rest ensures f(y) != f(a[i]) {
      var k :| 0 <= k < |rest| && rest[k] == y;
      assert Map(a, f)[if k < i then k else k + 1] != Map(a, f)[i];
    }
  }
}
