/** Reachability over a finite graph of names, the independent specification of the
    exporter's two worklists. */
module Reachability {

  type Graph = string -> set<string>

  ghost predicate IsPath(succ: Graph, path: seq<string>) {
    |path| > 0 && forall i :: 0 <= i < |path| - 1 ==> path[i + 1] in succ(path[i])
  }

  ghost predicate Reachable(succ: Graph, start: set<string>, name: string) {
    exists path :: IsPath(succ, path) && path[0] in start && path[|path| - 1] == name
  }

  ghost predicate Closed(succ: Graph, names: set<string>) {
    forall n :: n in names ==> succ(n) <= names
  }

  ghost predicate IsReachableSet(succ: Graph, start: set<string>, names: set<string>) {
    forall n :: n in names <==> Reachable(succ, start, n)
  }

  lemma StartReachable(succ: Graph, start: set<string>, name: string)
    requires name in start
    ensures Reachable(succ, start, name)
  {
    assert IsPath(succ, [name]);
    assert [name][0] in start;
  }

  lemma StepReachable(succ: Graph, start: set<string>, name: string, next: string)
    requires Reachable(succ, start, name) && next in succ(name)
    ensures Reachable(succ, start, next)
  {
    var path :| IsPath(succ, path) && path[0] in start && path[|path| - 1] == name;
    var longer := path + [next];
    assert IsPath(succ, longer);
    assert longer[0] in start && longer[|longer| - 1] == next;
  }

  lemma {:induction false} PathStaysInside(succ: Graph, names: set<string>, path: seq<string>)
    requires Closed(succ, names) && IsPath(succ, path) && path[0] in names
    ensures path[|path| - 1] in names
    decreases |path|
  {
    if |path| > 1 {
      var rest := path[1..];
      assert path[1] in succ(path[0]);
      forall i | 0 <= i < |rest| - 1 ensures rest[i + 1] in succ(rest[i]) {
        assert path[(i + 1) + 1] in succ(path[i + 1]);
      }
      PathStaysInside(succ, names, rest);
    }
  }

  /** A closed superset of the start names holds every reachable name. */
  lemma ReachableInside(succ: Graph, start: set<string>, names: set<string>)
    requires start <= names && Closed(succ, names)
    ensures forall n :: Reachable(succ, start, n) ==> n in names
  {
    forall n | Reachable(succ, start, n) ensures n in names {
      var path :| IsPath(succ, path) && path[0] in start && path[|path| - 1] == n;
      PathStaysInside(succ, names, path);
    }
  }

  /** The reachable set is the least set holding the start names and closed under the graph. */
  lemma ReachableSetIsLeast(succ: Graph, start: set<string>, names: set<string>)
    requires IsReachableSet(succ, start, names)
    ensures start <= names && Closed(succ, names)
    ensures forall other: set<string> :: start <= other && Closed(succ, other) ==> names <= other
  {
    forall n | n in start ensures n in names {
      StartReachable(succ, start, n);
    }
    forall n, m | n in names && m in succ(n) ensures m in names {
      StepReachable(succ, start, n, m);
    }
    forall other: set<string> | start <= other && Closed(succ, other) ensures names <= other {
      ReachableInside(succ, start, other);
    }
  }

  lemma PathCarries(before: Graph, after: Graph, names: set<string>, path: seq<string>)
    requires Closed(before, names) && IsPath(before, path) && path[0] in names
    requires forall n :: n in names ==> after(n) == before(n)
    ensures IsPath(after, path)
  {
    forall i | 0 <= i < |path| - 1 ensures path[i + 1] in after(path[i]) {
      var prefix := path[..i + 1];
      assert IsPath(before, prefix);
      PathStaysInside(before, names, prefix);
      assert prefix[|prefix| - 1] == path[i];
    }
  }

  lemma ReachCarries(before: Graph, after: Graph, start: set<string>, names: set<string>, n: string)
    requires start <= names && Closed(before, names) && Reachable(before, start, n)
    requires forall m :: m in names ==> after(m) == before(m)
    ensures Reachable(after, start, n)
  {
    var path :| IsPath(before, path) && path[0] in start && path[|path| - 1] == n;
    PathCarries(before, after, names, path);
  }

  lemma ClosedCarries(before: Graph, after: Graph, names: set<string>)
    requires Closed(before, names) && forall n :: n in names ==> after(n) == before(n)
    ensures Closed(after, names)
  {
  }

  /** Graphs that agree on the reachable names reach the same names. */
  lemma SameReach(before: Graph, after: Graph, start: set<string>, names: set<string>)
    requires IsReachableSet(before, start, names)
    requires forall n :: n in names ==> after(n) == before(n)
    ensures IsReachableSet(after, start, names)
  {
    ReachableSetIsLeast(before, start, names);
    forall n | n in names ensures Reachable(after, start, n) {
      ReachCarries(before, after, start, names, n);
    }
    ClosedCarries(before, after, names);
    ReachableInside(after, start, names);
  }

  /** All names reachable inside a closed universe, as a set. */
  ghost function ReachableSet(succ: Graph, start: set<string>, universe: set<string>): (names: set<string>)
    requires start <= universe && Closed(succ, universe)
    ensures IsReachableSet(succ, start, names)
  {
    ReachableInside(succ, start, universe);
    set n | n in universe && Reachable(succ, start, n)
  }

  /** What a worklist keeps: seen and pending names are reachable, and nothing is forgotten. */
  ghost predicate Frontier(succ: Graph, start: set<string>, seen: set<string>, todo: set<string>) {
    && (forall n :: n in seen + todo ==> Reachable(succ, start, n))
    && start <= seen + todo
    && (forall n :: n in seen ==> succ(n) <= seen + todo)
  }

  lemma FrontierInit(succ: Graph, start: set<string>)
    ensures Frontier(succ, start, {}, start)
  {
    forall n | n in start ensures Reachable(succ, start, n) {
      StartReachable(succ, start, n);
    }
  }

  /** Visiting a pending name and adding its unseen successors. */
  lemma FrontierVisit(succ: Graph, start: set<string>, seen: set<string>, rest: set<string>, name: string)
    requires Frontier(succ, start, seen, rest + {name})
    ensures Frontier(succ, start, seen + {name}, rest + (succ(name) - (seen + {name})))
  {
    forall n | n in succ(name) ensures Reachable(succ, start, n) {
      StepReachable(succ, start, name, n);
    }
  }

  lemma FrontierDone(succ: Graph, start: set<string>, seen: set<string>)
    requires Frontier(succ, start, seen, {})
    ensures IsReachableSet(succ, start, seen)
  {
    assert seen + {} == seen;
    ReachableInside(succ, start, seen);
  }

  /** A pending name already seen can be dropped. */
  lemma FrontierSkip(succ: Graph, start: set<string>, seen: set<string>, rest: set<string>, name: string)
    requires Frontier(succ, start, seen, rest + {name}) && name in seen
    ensures Frontier(succ, start, seen, rest)
  {
  }

  function Elements(names: seq<string>): set<string> {
    set n | n in names
  }

  lemma ElementsPush(names: seq<string>, n: string)
    ensures Elements(names + [n]) == Elements(names) + {n}
  {
    assert forall m :: m in names + [n] <==> m in names || m == n;
  }

  lemma ElementsPop(names: seq<string>)
    requires names != []
    ensures Elements(names) == Elements(names[..|names| - 1]) + {names[|names| - 1]}
  {
    ElementsPush(names[..|names| - 1], names[|names| - 1]);
    assert names == names[..|names| - 1] + [names[|names| - 1]];
  }
}
