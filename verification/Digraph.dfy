/** Finite directed graphs: paths, reachability and strongly connected components. */
module Digraph {

  datatype Graph<T> = Graph(nodes: set<T>, edges: set<(T, T)>)

  ghost predicate WellFormed<T>(g: Graph<T>) {
    forall e :: e in g.edges ==> e.0 in g.nodes && e.1 in g.nodes
  }

  ghost predicate IsPath<T>(g: Graph<T>, p: seq<T>) {
    p != [] && forall i :: 0 <= i < |p| - 1 ==> (p[i], p[i + 1]) in g.edges
  }

  ghost predicate Reach<T(!new)>(g: Graph<T>, x: T, y: T) {
    exists p: seq<T> :: IsPath(g, p) && p[0] == x && p[|p| - 1] == y
  }

  lemma ReachSelf<T(!new)>(g: Graph<T>, x: T)
    ensures Reach(g, x, x)
  {
    assert IsPath(g, [x]);
  }

  lemma ReachEdge<T(!new)>(g: Graph<T>, x: T, y: T)
    requires (x, y) in g.edges
    ensures Reach(g, x, y)
  {
    assert IsPath(g, [x, y]);
  }

  lemma ReachTrans<T(!new)>(g: Graph<T>, x: T, y: T, z: T)
    requires Reach(g, x, y) && Reach(g, y, z)
    ensures Reach(g, x, z)
  {
    var p :| IsPath(g, p) && p[0] == x && p[|p| - 1] == y;
    var q :| IsPath(g, q) && q[0] == y && q[|q| - 1] == z;
    var r := p + q[1..];
    forall i | 0 <= i < |r| - 1 ensures (r[i], r[i + 1]) in g.edges {
      if i >= |p| - 1 { assert r[i] == q[i - |p| + 1] && r[i + 1] == q[i - |p| + 2]; }
    }
    assert IsPath(g, r) && r[0] == x && r[|r| - 1] == z;
  }

  ghost predicate ClosedSet<T>(g: Graph<T>, s: set<T>) {
    forall e :: e in g.edges && e.0 in s ==> e.1 in s
  }

  /** A set that no edge leaves contains everything reachable from it. */
  lemma {:induction false} ClosedReach<T(!new)>(g: Graph<T>, s: set<T>, x: T, y: T)
    requires ClosedSet(g, s) && x in s && Reach(g, x, y)
    ensures y in s
  {
    var p :| IsPath(g, p) && p[0] == x && p[|p| - 1] == y;
    var i := 0;
    while i < |p| - 1
      invariant 0 <= i < |p| && p[i] in s
    {
      assert (p[i], p[i + 1]) in g.edges;
      i := i + 1;
    }
  }

  /** The strongly connected component of `x`. */
  ghost function Component<T(!new)>(g: Graph<T>, x: T): set<T> {
    set y | y in g.nodes && Reach(g, x, y) && Reach(g, y, x)
  }

  /** More than one member, or a member with an edge to itself. */
  ghost predicate Cyclic<T>(g: Graph<T>, members: set<T>) {
    |members| > 1 || exists x :: x in members && (x, x) in g.edges
  }

  ghost predicate OnCycle<T(!new)>(g: Graph<T>, x: T) {
    exists y :: (x, y) in g.edges && Reach(g, y, x)
  }

  lemma SameComponent<T(!new)>(g: Graph<T>, x: T, y: T)
    requires y in Component(g, x)
    ensures Component(g, x) == Component(g, y)
  {
    forall z | z in Component(g, x) ensures z in Component(g, y) {
      ReachTrans(g, y, x, z);
      ReachTrans(g, z, x, y);
    }
    forall z | z in Component(g, y) ensures z in Component(g, x) {
      ReachTrans(g, x, y, z);
      ReachTrans(g, z, y, x);
    }
  }

  /** A node lies on a cycle exactly when its component is cyclic. */
  lemma CyclicComponent<T(!new)>(g: Graph<T>, x: T)
    requires WellFormed(g) && x in g.nodes
    ensures OnCycle(g, x) <==> Cyclic(g, Component(g, x))
  {
    var c := Component(g, x);
    ReachSelf(g, x);
    assert x in c;
    if OnCycle(g, x) {
      var y :| (x, y) in g.edges && Reach(g, y, x);
      ReachEdge(g, x, y);
      assert y in c;
      if y != x { assert {x, y} <= c; Bigger({x, y}, c); }
    }
    if |c| > 1 {
      var z := AnotherMember(c, x);
      var p :| IsPath(g, p) && p[0] == x && p[|p| - 1] == z;
      assert (p[0], p[1]) in g.edges;
      assert IsPath(g, p[1..]) && p[1..][|p| - 2] == z;
      ReachTrans(g, p[1], z, x);
    } else {
      Singleton(c, x);
    }
  }

  lemma Bigger<T>(a: set<T>, b: set<T>)
    requires a <= b
    ensures |a| <= |b|
  {
    if a != {} {
      var x :| x in a;
      Bigger(a - {x}, b - {x});
    }
  }

  lemma Singleton<T>(c: set<T>, x: T)
    requires x in c && |c| <= 1
    ensures c == {x}
  {
    assert c == {x} + (c - {x});
  }

  lemma AnotherMember<T>(c: set<T>, x: T) returns (z: T)
    requires x in c && |c| > 1
    ensures z in c && z != x
  {
    assert |c - {x}| > 0;
    z :| z in c - {x};
  }
}
