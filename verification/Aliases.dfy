/** Resolving a text through the frozen identity aliases. */
module Aliases {
  import opened Outcomes
  import opened Domain
  import opened GraphModels

  /** Follow aliases from current; visited holds what has been followed already. */
  function Follow(aliases: map<string, string>, current: string, visited: set<string>): Result<string, Error>
    requires visited <= aliases.Keys
    decreases |aliases.Keys - visited|
  {
    if current !in aliases then Ok(current)
    else if current in visited then Raise(AliasCycle)
    else
      assert aliases.Keys - (visited + {current}) < aliases.Keys - visited;
      SmallerSet(aliases.Keys - (visited + {current}), aliases.Keys - visited);
      Follow(aliases, aliases[current], visited + {current})
  }

  lemma {:induction false} SmallerSet<T>(a: set<T>, b: set<T>)
    requires a < b
    ensures |a| < |b|
  {
    assert b == a + (b - a);
    assert a !! (b - a);
    assert b - a != {};
  }

  function Canonical(host: Host, aliases: map<string, string>, value: string): Result<string, Error> {
    Follow(aliases, host.fold(value), {})
  }

  method CanonicalLoop(host: Host, aliases: map<string, string>, value: string) returns (r: Result<string, Error>)
    ensures r == Canonical(host, aliases, value)
  {
    var current := host.fold(value);
    var visited: set<string> := {};
    while current in aliases
      invariant visited <= aliases.Keys
      invariant Canonical(host, aliases, value) == Follow(aliases, current, visited)
      decreases |aliases.Keys - visited|
    {
      if current in visited {
        return Raise(AliasCycle);
      }
      SmallerSet(aliases.Keys - (visited + {current}), aliases.Keys - visited);
      visited := visited + {current};
      current := aliases[current];
    }
    r := Ok(current);
  }

  /** The value after n alias steps, where there are that many. */
  function Steps(aliases: map<string, string>, from: string, n: nat): Option<string>
    decreases n
  {
    if n == 0 then Some(from)
    else if from in aliases then Steps(aliases, aliases[from], n - 1)
    else None
  }

  /** Following aliases from the text never ends. */
  ghost predicate Endless(aliases: map<string, string>, from: string) {
    forall n: nat :: Steps(aliases, from, n).Some?
  }

  lemma {:induction false} StepsAdd(aliases: map<string, string>, from: string, m: nat, n: nat)
    requires Steps(aliases, from, m).Some?
    ensures Steps(aliases, from, m + n) == Steps(aliases, Steps(aliases, from, m).value, n)
    decreases m
  {
    if m > 0 { StepsAdd(aliases, aliases[from], m - 1, n); }
  }

  /** A text that leads back to itself leads on for ever. */
  lemma {:induction false} LoopIsEndless(aliases: map<string, string>, at: string, period: nat, n: nat)
    requires period > 0 && Steps(aliases, at, period) == Some(at)
    ensures Steps(aliases, at, n).Some?
    decreases n
  {
    if n >= period {
      StepsAdd(aliases, at, period, n - period);
      LoopIsEndless(aliases, at, period, n - period);
    } else {
      StepsPrefix(aliases, at, n, period);
    }
  }

  lemma {:induction false} StepsPrefix(aliases: map<string, string>, from: string, m: nat, n: nat)
    requires m <= n && Steps(aliases, from, n).Some?
    ensures Steps(aliases, from, m).Some?
    decreases m
  {
    if m > 0 { StepsPrefix(aliases, aliases[from], m - 1, n - 1); }
  }

  /** A positive number of alias steps leads from one text to the other. */
  ghost predicate LeadsTo(aliases: map<string, string>, from: string, to: string) {
    exists n: nat :: n > 0 && Steps(aliases, from, n) == Some(to)
  }

  lemma LeadsFurther(aliases: map<string, string>, from: string, via: string)
    requires via in aliases && (from == via || LeadsTo(aliases, from, via))
    ensures LeadsTo(aliases, from, aliases[via])
  {
    assert Steps(aliases, via, 1) == Steps(aliases, aliases[via], 0) == Some(aliases[via]);
    if from != via {
      var n: nat :| n > 0 && Steps(aliases, from, n) == Some(via);
      StepsAdd(aliases, from, n, 1);
      assert Steps(aliases, from, n + 1) == Some(aliases[via]);
    }
  }

  /** Follow stops at a text without an alias after some steps, or raises on an endless trail. */
  lemma {:induction false} FollowExact(aliases: map<string, string>, current: string, visited: set<string>)
    requires visited <= aliases.Keys
    requires forall v :: v in visited ==> LeadsTo(aliases, v, current)
    ensures var r := Follow(aliases, current, visited);
            && (r.Raise? ==> r.error == AliasCycle && Endless(aliases, current))
            && (r.Ok? ==> r.value !in aliases && exists n: nat :: Steps(aliases, current, n) == Some(r.value))
    decreases |aliases.Keys - visited|
  {
    if current !in aliases {
      assert Steps(aliases, current, 0) == Some(current);
    } else if current in visited {
      var period: nat :| period > 0 && Steps(aliases, current, period) == Some(current);
      forall n: nat ensures Steps(aliases, current, n).Some? { LoopIsEndless(aliases, current, period, n); }
    } else {
      var next := aliases[current];
      SmallerSet(aliases.Keys - (visited + {current}), aliases.Keys - visited);
      forall v | v in visited + {current} ensures LeadsTo(aliases, v, next) {
        LeadsFurther(aliases, v, current);
      }
      FollowExact(aliases, next, visited + {current});
      var r := Follow(aliases, next, visited + {current});
      if r.Raise? {
        forall n: nat ensures Steps(aliases, current, n).Some? {
          if n > 0 { assert Steps(aliases, next, n - 1).Some?; }
        }
      } else {
        var n: nat :| Steps(aliases, next, n) == Some(r.value);
        assert Steps(aliases, current, n + 1) == Some(r.value);
      }
    }
  }

  /** Resolution raises exactly on an endless alias trail, and otherwise ends where no alias applies. */
  lemma CanonicalExact(host: Host, aliases: map<string, string>, value: string)
    ensures Canonical(host, aliases, value).Raise? <==> Endless(aliases, host.fold(value))
    ensures Canonical(host, aliases, value).Raise? ==> Canonical(host, aliases, value).error == AliasCycle
    ensures Canonical(host, aliases, value).Ok? ==> Canonical(host, aliases, value).value !in aliases
  {
    var start := host.fold(value);
    FollowExact(aliases, start, {});
    var r := Follow(aliases, start, {});
    if r.Ok? {
      var n: nat :| Steps(aliases, start, n) == Some(r.value);
      StepsAdd(aliases, start, n, 1);
      assert Steps(aliases, start, n + 1).None?;
    }
  }

  /** The alias targets are stored folded, and folding twice is folding once. */
  ghost predicate Folded(host: Host, aliases: map<string, string>) {
    && (forall s :: host.fold(host.fold(s)) == host.fold(s))
    && (forall s :: s in aliases ==> host.fold(aliases[s]) == aliases[s])
  }

  lemma {:induction false} StepsStayFolded(host: Host, aliases: map<string, string>, from: string, n: nat)
    requires Folded(host, aliases) && host.fold(from) == from
    requires Steps(aliases, from, n).Some?
    ensures host.fold(Steps(aliases, from, n).value) == Steps(aliases, from, n).value
    decreases n
  {
    if n > 0 { StepsStayFolded(host, aliases, aliases[from], n - 1); }
  }

  /** Resolving a resolved value changes nothing. */
  lemma CanonicalIdempotent(host: Host, aliases: map<string, string>, value: string)
    requires Folded(host, aliases)
    requires Canonical(host, aliases, value).Ok?
    ensures Canonical(host, aliases, Canonical(host, aliases, value).value) == Canonical(host, aliases, value)
  {
    var start := host.fold(value);
    FollowExact(aliases, start, {});
    var r := Follow(aliases, start, {}).value;
    var n: nat :| Steps(aliases, start, n) == Some(r);
    StepsStayFolded(host, aliases, start, n);
  }
}
