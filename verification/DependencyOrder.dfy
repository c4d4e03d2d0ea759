/** The order in which a master process starts what depends on what: a depth-first walk
    over a dictionary of dependencies, with shared marks and a shared result list. */
module DependencyOrder {

  type Name = string

  type Dependencies = map<Name, seq<Name>>

  /** What a name depends on directly; a name without an entry depends on nothing. */
  function Needs(deps: Dependencies, name: Name): seq<Name>
  {
    if name in deps then deps[name] else []
  }

  /** Every name the dictionary mentions. */
  ghost function Mentioned(deps: Dependencies): set<Name>
  {
    deps.Keys + set n, d | n in deps && d in deps[n] :: d
  }

  // ---------------------------------------------------------------- dependency chains

  ghost predicate Chain(deps: Dependencies, c: seq<Name>)
  {
    c != [] && forall i :: 0 <= i < |c| - 1 ==> c[i+1] in Needs(deps, c[i])
  }

  ghost predicate ChainBetween(deps: Dependencies, a: Name, b: Name, c: seq<Name>)
  {
    Chain(deps, c) && c[0] == a && c[|c|-1] == b
  }

  /** `a` depends on `b`, directly or through others. */
  ghost predicate DependsOn(deps: Dependencies, a: Name, b: Name)
  {
    exists c :: |c| >= 2 && ChainBetween(deps, a, b, c)
  }

  ghost predicate Acyclic(deps: Dependencies)
  {
    forall a :: !DependsOn(deps, a, a)
  }

  /** Names one gets to from the keys of the dictionary. */
  ghost predicate Reachable(deps: Dependencies, name: Name)
  {
    exists c :: Chain(deps, c) && c[0] in deps && c[|c|-1] == name
  }

  lemma ReachableStep(deps: Dependencies, a: Name, b: Name)
    requires Reachable(deps, a) && b in Needs(deps, a)
    ensures Reachable(deps, b)
  {
    var c :| Chain(deps, c) && c[0] in deps && c[|c|-1] == a;
    var c' := c + [b];
    assert Chain(deps, c') && c'[0] in deps && c'[|c'|-1] == b;
  }

  lemma ReachableKey(deps: Dependencies, name: Name)
    requires name in deps
    ensures Reachable(deps, name)
  {
    assert Chain(deps, [name]) && [name][0] in deps;
  }

  // ---------------------------------------------------------------- orders

  ghost predicate Distinct(order: seq<Name>)
  {
    forall i, j :: 0 <= i < j < |order| ==> order[i] != order[j]
  }

  /** Everything a listed name needs is listed before it. */
  ghost predicate NeedsFirst(deps: Dependencies, order: seq<Name>)
  {
    forall i, d :: 0 <= i < |order| && d in Needs(deps, order[i]) ==> d in order[..i]
  }

  /** Everything a listed name needs is listed before it, unless the need depends on the
      name in turn. */
  ghost predicate NeedsFirstOrCycle(deps: Dependencies, order: seq<Name>)
  {
    forall i, d :: 0 <= i < |order| && d in Needs(deps, order[i]) ==> d in order[..i] || DependsOn(deps, d, order[i])
  }

  lemma NeedsFirstUnlessCycle(deps: Dependencies, order: seq<Name>)
    requires NeedsFirstOrCycle(deps, order) && Acyclic(deps)
    ensures NeedsFirst(deps, order)
  {
    forall i, d | 0 <= i < |order| && d in Needs(deps, order[i]) ensures d in order[..i] {
      if DependsOn(deps, d, order[i]) { NeedClosesCycle(deps, order[i], d); }
    }
  }

  lemma NeedClosesCycle(deps: Dependencies, n: Name, d: Name)
    requires d in Needs(deps, n) && DependsOn(deps, d, n)
    ensures DependsOn(deps, n, n)
  {
    var c :| |c| >= 2 && ChainBetween(deps, d, n, c);
    var c' := [n] + c;
    forall i | 0 <= i < |c'| - 1 ensures c'[i+1] in Needs(deps, c'[i]) {
      if i > 0 { assert c'[i] == c[i-1] && c'[i+1] == c[i]; }
    }
    assert ChainBetween(deps, n, n, c');
  }

  /** The walk in progress: `pending` are the names being visited, each needed by the one
      before it; everything else visited has been listed. */
  ghost predicate Walking(deps: Dependencies, visited: set<Name>, order: seq<Name>, pending: seq<Name>)
  {
    && visited <= Mentioned(deps)
    && (forall n :: n in visited <==> n in order || n in pending)
    && (forall n :: n in order ==> n !in pending)
    && Distinct(order) && Distinct(pending)
    && (pending != [] ==> Chain(deps, pending))
    && (forall n :: n in visited ==> Reachable(deps, n))
    && (forall n, d :: n in order && d in Needs(deps, n) ==> d in visited)
    && NeedsFirstOrCycle(deps, order)
  }

  /** A name may be visited next: it is the first, or the last pending name needs it. */
  ghost predicate MayVisit(deps: Dependencies, pending: seq<Name>, name: Name)
  {
    && name in Mentioned(deps) && Reachable(deps, name)
    && (pending != [] ==> name in Needs(deps, pending[|pending|-1]))
  }

  lemma BeginVisit(deps: Dependencies, visited: set<Name>, order: seq<Name>, pending: seq<Name>, name: Name)
    requires Walking(deps, visited, order, pending) && MayVisit(deps, pending, name) && name !in visited
    ensures name in Mentioned(deps)
    ensures Walking(deps, visited + {name}, order, pending + [name])
    ensures forall d :: d in Needs(deps, name) ==> MayVisit(deps, pending + [name], d)
  {
    var pending' := pending + [name];
    assert Chain(deps, pending') by {
      forall i | 0 <= i < |pending'| - 1 ensures pending'[i+1] in Needs(deps, pending'[i]) {
        if i < |pending| - 1 { assert pending[i+1] in Needs(deps, pending[i]); }
      }
    }
    forall d | d in Needs(deps, name) ensures MayVisit(deps, pending', d) { ReachableStep(deps, name, d); }
  }

  /** A pending name that the last pending name needs depends on it in turn. */
  lemma PendingNeedDependsBack(deps: Dependencies, pending: seq<Name>, d: Name)
    requires pending != [] && Chain(deps, pending) && d in pending && d in Needs(deps, pending[|pending|-1])
    ensures DependsOn(deps, d, pending[|pending|-1])
  {
    var n := |pending| - 1;
    var k :| 0 <= k <= n && pending[k] == d;
    var c := if k == n then [d, d] else pending[k..];
    forall i | 0 <= i < |c| - 1 ensures c[i+1] in Needs(deps, c[i]) {
      if k < n { assert c[i] == pending[k+i] && c[i+1] == pending[k+i+1]; }
    }
    assert ChainBetween(deps, d, pending[n], c);
  }

  lemma EndVisit(deps: Dependencies, visited: set<Name>, order: seq<Name>, pending: seq<Name>, name: Name)
    requires Walking(deps, visited, order, pending + [name])
    requires forall d :: d in Needs(deps, name) ==> d in visited
    ensures Walking(deps, visited, order + [name], pending)
  {
    var pending', order' := pending + [name], order + [name];
    assert pending'[|pending|] == name;
    assert name in pending' && name !in order;
    forall i | 0 <= i < |pending| ensures pending[i] != name { assert pending[i] == pending'[i]; }
    if pending != [] {
      forall i | 0 <= i < |pending| - 1 ensures pending[i+1] in Needs(deps, pending[i]) {
        assert pending'[i+1] in Needs(deps, pending'[i]);
      }
    }
    assert Distinct(pending) by { assert forall i :: 0 <= i < |pending| ==> pending[i] == pending'[i]; }
    forall i, d | 0 <= i < |order'| && d in Needs(deps, order'[i])
      ensures d in order'[..i] || DependsOn(deps, d, order'[i])
    {
      if i < |order| {
        assert order[..i] == order'[..i];
      } else {
        assert order'[..i] == order;
        if d in pending' { PendingNeedDependsBack(deps, pending', d); }
      }
    }
  }

  class DependencyWalk {
    var visited: set<Name>
    var order: seq<Name>

    constructor ()
      ensures visited == {} && order == []
    {
      visited, order := {}, [];
    }

    /** Visits a name once: what it needs first, then the name itself. */
    method Visit(deps: Dependencies, name: Name, ghost pending: seq<Name>)
      requires Walking(deps, visited, order, pending) && MayVisit(deps, pending, name)
      modifies this
      ensures Walking(deps, visited, order, pending)
      ensures name in visited && old(visited) <= visited && old(order) <= order
      decreases Mentioned(deps) - visited
    {
      hide Walking, MayVisit, Needs, Mentioned;
      if name in visited {
        return;
      }
      visited := visited + {name};
      BeginVisit(deps, old(visited), order, pending, name);
      var needs := Needs(deps, name);
      for i := 0 to |needs|
        invariant Walking(deps, visited, order, pending + [name])
        invariant old(visited) + {name} <= visited && old(order) <= order
        invariant forall j :: 0 <= j < i ==> needs[j] in visited
      {
        Visit(deps, needs[i], pending + [name]);
      }
      EndVisit(deps, visited, order, pending, name);
      order := order + [name];
    }
  }

  /** The dependency order, for every dictionary, cyclic ones included: each name one can
      reach from the keys exactly once, and everything a name needs before the name, unless
      the need depends on the name in turn. `names` is the dictionary's own key order. */
  method GetDependencyOrder(deps: Dependencies, names: seq<Name>) returns (order: seq<Name>)
    requires forall n :: n in names <==> n in deps
    ensures Distinct(order)
    ensures forall n :: n in order <==> Reachable(deps, n)
    ensures NeedsFirstOrCycle(deps, order)
    ensures Acyclic(deps) <==> NeedsFirst(deps, order)
  {
    hide NeedsFirstOrCycle, Walking, Reachable, Acyclic, NeedsFirst, Distinct;
    var walk := new DependencyWalk();
    WalkEmpty(deps);
    for i := 0 to |names|
      invariant Walking(deps, walk.visited, walk.order, [])
      invariant forall j :: 0 <= j < i ==> names[j] in walk.visited
    {
      ReachableKey(deps, names[i]);
      walk.Visit(deps, names[i], []);
    }
    order := walk.order;
    WalkComplete(deps, walk.visited, order);
  }

  lemma WalkEmpty(deps: Dependencies)
    ensures Walking(deps, {}, [], [])
  {}

  lemma WalkComplete(deps: Dependencies, visited: set<Name>, order: seq<Name>)
    requires Walking(deps, visited, order, []) && forall n :: n in deps ==> n in visited
    ensures Distinct(order)
    ensures forall n :: n in order <==> Reachable(deps, n)
    ensures NeedsFirstOrCycle(deps, order)
    ensures Acyclic(deps) <==> NeedsFirst(deps, order)
  {
    hide Acyclic, NeedsFirst, NeedsFirstOrCycle, Reachable;
    if Acyclic(deps) { NeedsFirstUnlessCycle(deps, order); }
    forall n | Reachable(deps, n) ensures n in order { ClosedHoldsReachable(deps, order, n); }
    if NeedsFirst(deps, order) { OrderedMeansAcyclic(deps, order); }
  }

  lemma ClosedHoldsReachable(deps: Dependencies, order: seq<Name>, n: Name)
    requires forall k :: k in deps ==> k in order
    requires forall m, d :: m in order && d in Needs(deps, m) ==> d in order
    requires Reachable(deps, n)
    ensures n in order
  {
    var c :| Chain(deps, c) && c[0] in deps && c[|c|-1] == n;
    for i := 0 to |c| - 1
      invariant c[i] in order
    {}
  }

  // ---------------------------------------------------------------- what the order is for

  /** Position in a list of distinct names. */
  ghost predicate Before(order: seq<Name>, a: Name, b: Name)
  {
    exists i, j :: 0 <= i < j < |order| && order[i] == a && order[j] == b
  }

  lemma BeforeTransitive(order: seq<Name>, a: Name, b: Name, c: Name)
    requires Distinct(order) && Before(order, a, b) && Before(order, b, c)
    ensures Before(order, a, c)
  {
    var i, j :| 0 <= i < j < |order| && order[i] == a && order[j] == b;
    var k, l :| 0 <= k < l < |order| && order[k] == b && order[l] == c;
    assert j == k;
  }

  /** In an order that lists needs first, a name comes after everything it depends on,
      however indirectly. */
  lemma {:induction false} AfterAllDependencies(deps: Dependencies, order: seq<Name>, a: Name, b: Name, c: seq<Name>)
    requires Distinct(order) && NeedsFirst(deps, order) && a in order
    requires |c| >= 2 && ChainBetween(deps, a, b, c)
    ensures Before(order, b, a)
    decreases |c|
  {
    var i :| 0 <= i < |order| && order[i] == a;
    assert c[1] in Needs(deps, c[0]);
    assert c[1] in order[..i];
    var j :| 0 <= j < i && order[..i][j] == c[1];
    assert Before(order, c[1], a);
    if |c| > 2 {
      var tail := c[1..];
      assert ChainBetween(deps, c[1], b, tail) by {
        forall k | 0 <= k < |tail| - 1 ensures tail[k+1] in Needs(deps, tail[k]) { assert c[k+2] in Needs(deps, c[k+1]); }
      }
      AfterAllDependencies(deps, order, c[1], b, tail);
      BeforeTransitive(order, b, c[1], a);
    }
  }

  /** In such an order whatever the dictionary lists for a name stands before the name. */
  lemma ListedStandBefore(deps: Dependencies, order: seq<Name>)
    requires NeedsFirst(deps, order) && forall n :: n in deps ==> n in order
    ensures forall n, d :: n in deps && d in deps[n] ==> Before(order, d, n)
  {
    forall n, d | n in deps && d in deps[n] ensures Before(order, d, n) {
      var j :| 0 <= j < |order| && order[j] == n;
      assert d in order[..j];
      var i :| 0 <= i < j && order[..j][i] == d;
      assert order[i] == d;
    }
  }

  /** Only an acyclic dictionary can be ordered so. */
  lemma OrderedMeansAcyclic(deps: Dependencies, order: seq<Name>)
    requires Distinct(order) && NeedsFirst(deps, order) && forall n :: n in deps ==> n in order
    ensures Acyclic(deps)
  {
    forall a ensures !DependsOn(deps, a, a) {
      if DependsOn(deps, a, a) {
        var c :| |c| >= 2 && ChainBetween(deps, a, a, c);
        assert c[1] in Needs(deps, c[0]);
        AfterAllDependencies(deps, order, a, a, c);
      }
    }
  }

  /** What is started, in turn: the ordered names that are registered. */
  function Started(order: seq<Name>, deps: Dependencies): (s: seq<Name>)
    ensures forall n :: n in s <==> n in order && n in deps
  {
    if order == [] then [] else (if order[0] in deps then [order[0]] else []) + Started(order[1..], deps)
  }

  function Reversed(s: seq<Name>): (r: seq<Name>)
    ensures |r| == |s| && forall i :: 0 <= i < |r| ==> r[i] == s[|s| - 1 - i]
  {
    if s == [] then [] else Reversed(s[1..]) + [s[0]]
  }

  lemma {:induction false} StartedKeepsOrder(order: seq<Name>, deps: Dependencies, a: Name, b: Name)
    requires Before(order, a, b) && a in deps && b in deps
    ensures Before(Started(order, deps), a, b)
  {
    var i, j :| 0 <= i < j < |order| && order[i] == a && order[j] == b;
    var tail, s := Started(order[1..], deps), Started(order, deps);
    if i == 0 {
      assert order[1..][j-1] == b && b in tail;
      var k :| 0 <= k < |tail| && tail[k] == b;
      assert s[0] == a && s[k+1] == b;
    } else {
      assert order[1..][i-1] == a && order[1..][j-1] == b;
      StartedKeepsOrder(order[1..], deps, a, b);
      var k, l :| 0 <= k < l < |tail| && tail[k] == a && tail[l] == b;
      var n := |s| - |tail|;
      assert s[n+k] == a && s[n+l] == b;
    }
  }

  /** Starting and stopping: on an acyclic dictionary, whatever a registered component
      depends on, however indirectly, is started before it and stopped after it. */
  lemma StartAndStopRespectDependencies(deps: Dependencies, order: seq<Name>, a: Name, b: Name)
    requires Distinct(order) && NeedsFirst(deps, order) && forall n :: n in order <==> Reachable(deps, n)
    requires a in deps && b in deps && DependsOn(deps, a, b)
    ensures Before(Started(order, deps), b, a)
    ensures Before(Reversed(Started(order, deps)), a, b)
  {
    hide Before, Distinct, NeedsFirst, Reachable, Started, Reversed, ChainBetween;
    ReachableKey(deps, a);
    var c :| |c| >= 2 && ChainBetween(deps, a, b, c);
    AfterAllDependencies(deps, order, a, b, c);
    StartedKeepsOrder(order, deps, b, a);
    ReversedTurnsRound(Started(order, deps), b, a);
  }

  lemma ReversedTurnsRound(s: seq<Name>, a: Name, b: Name)
    requires Before(s, a, b)
    ensures Before(Reversed(s), b, a)
  {
    var i, j :| 0 <= i < j < |s| && s[i] == a && s[j] == b;
    var r := Reversed(s);
    assert r[|s|-1-j] == b && r[|s|-1-i] == a;
  }
}
