/** Optional values and the outcome of code that may raise. */
module Outcomes {

  datatype Option<+T> = None | Some(value: T)

  /** A returned value, or the exception raised in its place. */
  datatype Result<+T, +E> = Ok(value: T) | Raise(error: E) {

    predicate IsFailure() {
      Raise?
    }

    function PropagateFailure<U>(): Result<U, E>
      requires Raise?
    {
      Raise(error)
    }

    function Extract(): T
      requires Ok?
    {
      value
    }
  }

  /** Apply a raising function to each element in order; the first exception wins. */
  function Traverse<T, U, E>(s: seq<T>, f: T -> Result<U, E>): Result<seq<U>, E> {
    if s == [] then Ok([])
    else
      var head :- f(s[0]);
      var tail :- Traverse(s[1..], f);
      Ok([head] + tail)
  }

  /** Traverse succeeds exactly when every application does, and is then pointwise. */
  lemma {:induction false} TraversePointwise<T, U, E>(s: seq<T>, f: T -> Result<U, E>)
    ensures Traverse(s, f).Ok? <==> forall i :: 0 <= i < |s| ==> f(s[i]).Ok?
    ensures Traverse(s, f).Ok? ==> |Traverse(s, f).value| == |s|
    ensures Traverse(s, f).Ok? ==> forall i :: 0 <= i < |s| ==> f(s[i]) == Ok(Traverse(s, f).value[i])
  {
    if s != [] {
      TraversePointwise(s[1..], f);
      assert forall i :: 1 <= i < |s| ==> s[i] == s[1..][i - 1];
      if Traverse(s, f).Ok? {
        forall i | 0 <= i < |s| ensures f(s[i]) == Ok(Traverse(s, f).value[i]) {
          if i > 0 { assert s[i] == s[1..][i - 1]; }
        }
      }
      if forall i :: 0 <= i < |s| ==> f(s[i]).Ok? {
        forall i | 0 <= i < |s[1..]| ensures f(s[1..][i]).Ok? {
          assert s[1..][i] == s[i + 1];
        }
      }
    }
  }

  lemma TraverseOne<T, U, E>(x: T, f: T -> Result<U, E>, u: U)
    requires f(x) == Ok(u)
    ensures Traverse([x], f) == Ok([u])
  {
    assert [x][1..] == [] && [u] + [] == [u];
  }

  /** One step of a loop that appends f(s[i]) to what it has collected so far. */
  lemma TraverseExtend<T, U, E>(s: seq<T>, i: nat, f: T -> Result<U, E>)
    requires i < |s|
    ensures Traverse(s[i..], f) ==
            match f(s[i])
            case Raise(e) => Raise(e)
            case Ok(u) =>
              match Traverse(s[i + 1..], f)
              case Raise(e) => Raise(e)
              case Ok(us) => Ok([u] + us)
  {
    assert s[i..][1..] == s[i + 1..];
  }

  /** What a loop has collected, followed by what is still to come. */
  function After<U, E>(done: seq<U>, rest: Result<seq<U>, E>): Result<seq<U>, E> {
    match rest
    case Raise(e) => Raise(e)
    case Ok(us) => Ok(done + us)
  }

  /** A loop over all of s starts with nothing collected. */
  lemma LoopStarts<T, U, E>(s: seq<T>, f: T -> Result<U, E>)
    ensures Traverse(s, f) == After([], Traverse(s[0..], f))
  {
    assert s[0..] == s;
    if Traverse(s, f).Ok? { assert [] + Traverse(s, f).value == Traverse(s, f).value; }
  }

  /** One round of a loop over s: it stops with the exception, or collects the result and goes on. */
  lemma LoopStep<T, U, E>(s: seq<T>, i: nat, f: T -> Result<U, E>, done: seq<U>)
    requires i < |s|
    ensures After(done, Traverse(s[i..], f)) ==
            match f(s[i])
            case Raise(e) => Raise(e)
            case Ok(u) => After(done + [u], Traverse(s[i + 1..], f))
  {
    TraverseExtend(s, i, f);
    match f(s[i])
    case Raise(_) =>
    case Ok(u) =>
      match Traverse(s[i + 1..], f)
      case Raise(_) =>
      case Ok(us) => assert done + ([u] + us) == done + [u] + us;
  }

  lemma LoopEnds<T, U, E>(s: seq<T>, f: T -> Result<U, E>, done: seq<U>)
    ensures After(done, Traverse(s[|s|..], f)) == Ok(done)
  {
    assert s[|s|..] == [] && done + [] == done;
  }

  /** Traversing with functions that agree on the elements. */
  lemma {:induction false} TraverseSame<T, U, E>(s: seq<T>, f: T -> Result<U, E>, g: T -> Result<U, E>)
    requires forall x :: x in s ==> f(x) == g(x)
    ensures Traverse(s, f) == Traverse(s, g)
  {
    if s != [] {
      assert s[0] in s && forall x :: x in s[1..] ==> x in s;
      TraverseSame(s[1..], f, g);
    }
  }

  /** items are the results of g on the sources, all of which return. */
  ghost predicate Lists<S(!new), T(!new), E>(items: seq<T>, from: seq<S>, g: S -> Result<T, E>) {
    && (forall v :: v in from ==> g(v).Ok? && g(v).value in items)
    && (forall x :: x in items ==> exists v :: v in from && g(v) == Ok(x))
  }

  /** Traversing what g lists gives what h lists, where h goes on from g. */
  lemma {:induction false} TraverseLists<S(!new), T(!new), U(!new), E>(
    items: seq<T>, f: T -> Result<U, E>, from: seq<S>, g: S -> Result<T, E>, h: S -> Result<U, E>)
    requires Lists(items, from, g)
    requires forall v :: v in from && g(v).Ok? ==> h(v).Ok? && f(g(v).value) == h(v)
    ensures Traverse(items, f).Ok? && Lists(Traverse(items, f).value, from, h)
  {
    TraversePointwise(items, f);
    forall i | 0 <= i < |items| ensures f(items[i]).Ok? {
      assert items[i] in items;
    }
    var results := Traverse(items, f).value;
    forall u | u in results ensures exists v :: v in from && h(v) == Ok(u) {
      var i :| 0 <= i < |results| && results[i] == u;
      assert items[i] in items && f(items[i]) == Ok(u);
    }
    forall v | v in from ensures h(v).Ok? && h(v).value in results {
      var i :| 0 <= i < |items| && items[i] == g(v).value;
      assert f(items[i]) == Ok(results[i]);
    }
  }

  function Map<T, U>(s: seq<T>, f: T -> U): (r: seq<U>)
    ensures |r| == |s|
    ensures forall i :: 0 <= i < |s| ==> r[i] == f(s[i])
  {
    if s == [] then [] else [f(s[0])] + Map(s[1..], f)
  }

  lemma MapSnoc<T, U>(s: seq<T>, x: T, f: T -> U)
    ensures Map(s + [x], f) == Map(s, f) + [f(x)]
  {
  }

  function Filter<T(!new)>(s: seq<T>, keep: T -> bool): (r: seq<T>)
    ensures forall x :: x in r <==> x in s && keep(x)
    ensures |r| <= |s|
  {
    if s == [] then []
    else if keep(s[0]) then [s[0]] + Filter(s[1..], keep)
    else Filter(s[1..], keep)
  }

  lemma {:induction false} FilterAppend<T(!new)>(a: seq<T>, b: seq<T>, keep: T -> bool)
    ensures Filter(a + b, keep) == Filter(a, keep) + Filter(b, keep)
  {
    if a == [] {
      assert a + b == b;
    } else {
      assert (a + b)[1..] == a[1..] + b;
      FilterAppend(a[1..], b, keep);
    }
  }

  /** Conditions that agree on the elements keep the same ones. */
  lemma {:induction false} SameFilter<T(!new)>(s: seq<T>, p: T -> bool, q: T -> bool)
    requires forall x :: x in s ==> p(x) == q(x)
    ensures Filter(s, p) == Filter(s, q)
  {
    if s != [] {
      assert s[0] in s;
      SameFilter(s[1..], p, q);
    }
  }

  lemma {:induction false} NoneKept<T(!new)>(s: seq<T>, keep: T -> bool)
    requires forall x :: x in s ==> !keep(x)
    ensures Filter(s, keep) == []
  {
    if s != [] {
      assert s[0] in s;
      NoneKept(s[1..], keep);
    }
  }

  lemma {:induction false} KeptTwice<T(!new)>(s: seq<T>, keep: T -> bool, also: T -> bool)
    requires forall x :: x in s && keep(x) ==> also(x)
    ensures Filter(Filter(s, also), keep) == Filter(s, keep)
  {
    if s != [] {
      assert s[0] in s;
      KeptTwice(s[1..], keep, also);
    }
  }

  /** The results of f, one after the other. */
  function FlatMap<T, U>(s: seq<T>, f: T -> seq<U>): seq<U> {
    if s == [] then [] else f(s[0]) + FlatMap(s[1..], f)
  }

  lemma {:induction false} FlatMapMembers<T, U>(s: seq<T>, f: T -> seq<U>, u: U)
    ensures u in FlatMap(s, f) <==> exists i :: 0 <= i < |s| && u in f(s[i])
  {
    if s != [] {
      FlatMapMembers(s[1..], f, u);
      if i :| 0 <= i < |s| && u in f(s[i]) {
        if i > 0 { assert s[i] == s[1..][i - 1]; }
      }
      if j :| 0 <= j < |s[1..]| && u in f(s[1..][j]) { assert s[1..][j] == s[j + 1]; }
    }
  }

  lemma {:induction false} FlatMapAppend<T, U>(a: seq<T>, b: seq<T>, f: T -> seq<U>)
    ensures FlatMap(a + b, f) == FlatMap(a, f) + FlatMap(b, f)
  {
    if a == [] {
      assert a + b == b;
    } else {
      assert (a + b)[1..] == a[1..] + b;
      FlatMapAppend(a[1..], b, f);
    }
  }

  lemma {:induction false} FlatMapPointwise<S, T, U>(s: seq<S>, t: seq<T>, f: S -> seq<U>, g: T -> seq<U>)
    requires |s| == |t| && forall i :: 0 <= i < |s| ==> f(s[i]) == g(t[i])
    ensures FlatMap(s, f) == FlatMap(t, g)
  {
    if s != [] {
      forall i | 0 <= i < |s[1..]| ensures f(s[1..][i]) == g(t[1..][i]) {
        assert s[1..][i] == s[i + 1] && t[1..][i] == t[i + 1];
      }
      FlatMapPointwise(s[1..], t[1..], f, g);
    }
  }

  /** Lengths when one expansion is always longer than the other by one. */
  lemma {:induction false} FlatMapLonger<S, T, U, V>(s: seq<S>, t: seq<T>, f: S -> seq<U>, g: T -> seq<V>)
    requires |s| == |t| && forall i :: 0 <= i < |s| ==> |f(s[i])| == 1 + |g(t[i])|
    ensures |FlatMap(s, f)| == |s| + |FlatMap(t, g)|
  {
    if s != [] {
      forall i | 0 <= i < |s[1..]| ensures |f(s[1..][i])| == 1 + |g(t[1..][i])| {
        assert s[1..][i] == s[i + 1] && t[1..][i] == t[i + 1];
      }
      FlatMapLonger(s[1..], t[1..], f, g);
    }
  }

  lemma {:induction false} MapIsFlatMap<T, U>(s: seq<T>, f: T -> U, g: T -> seq<U>)
    requires forall x :: x in s ==> g(x) == [f(x)]
    ensures Map(s, f) == FlatMap(s, g)
  {
    if s != [] {
      assert s[0] in s && forall x :: x in s[1..] ==> x in s;
      MapIsFlatMap(s[1..], f, g);
    }
  }
}
