/** Import cycles of the code graph: Tarjan's strongly connected components, with its counter,
    index map, low links, stack and on-stack set held as fields and changed in place. */
module CycleGroups {
  import opened Ordering
  import opened Digraph

  type Id = string

  datatype GraphNode = GraphNode(id: Id, package: string, test: bool)
  datatype GraphEdge = GraphEdge(source: Id, target: Id, typeOnly: bool)

  // ---------------------------------------------------------------- the graph being analysed

  function Active(nodes: seq<GraphNode>): set<Id> {
    set n | n in nodes && !n.test :: n.id
  }

  predicate ValueImport(active: set<Id>, e: GraphEdge) {
    !e.typeOnly && e.source in active && e.target in active
  }

  /** Non-test modules and their value imports: everything the report may depend on. */
  function ImportGraph(nodes: seq<GraphNode>, edges: seq<GraphEdge>): Graph<Id> {
    var active := Active(nodes);
    Graph(active, Pairs(edges, e => ValueImport(active, e)))
  }

  /** The source-target pairs of the edges that are kept. */
  function Pairs(edges: seq<GraphEdge>, keep: GraphEdge -> bool): set<(Id, Id)> {
    set e | e in edges && keep(e) :: (e.source, e.target)
  }

  type Adjacency = map<Id, seq<Id>>

  function Targets(adjacent: Adjacency, id: Id): seq<Id> {
    if id in adjacent then adjacent[id] else []
  }

  ghost predicate Represents(adjacent: Adjacency, pairs: set<(Id, Id)>) {
    forall u, v :: (u, v) in pairs <==> v in Targets(adjacent, u)
  }

  /** Groups the targets of the kept edges by source. */
  method GroupTargets(edges: seq<GraphEdge>, keep: GraphEdge -> bool) returns (adjacent: Adjacency)
    ensures Represents(adjacent, Pairs(edges, keep))
  {
    adjacent := map[];
    for i := 0 to |edges|
      invariant Represents(adjacent, Pairs(edges[..i], keep))
    {
      var e := edges[i];
      PairsGrow(edges, keep, i);
      if keep(e) {
        adjacent := adjacent[e.source := Targets(adjacent, e.source) + [e.target]];
      }
    }
    assert edges[..|edges|] == edges;
  }

  lemma PairsGrow(edges: seq<GraphEdge>, keep: GraphEdge -> bool, i: nat)
    requires i < |edges|
    ensures Pairs(edges[..i + 1], keep)
         == Pairs(edges[..i], keep) + (if keep(edges[i]) then {(edges[i].source, edges[i].target)} else {})
  {
    assert edges[..i + 1] == edges[..i] + [edges[i]];
    forall p | p in Pairs(edges[..i], keep) ensures p in Pairs(edges[..i + 1], keep) {
      var e :| e in edges[..i] && keep(e) && (e.source, e.target) == p;
      assert e in edges[..i + 1];
    }
    if keep(edges[i]) { assert edges[i] in edges[..i + 1]; }
  }

  // ---------------------------------------------------------------- the search state

  type Indices = map<Id, nat>

  datatype State = State(next: nat, indices: Indices, low: map<Id, nat>, stack: seq<Id>, groups: seq<seq<Id>>)

  /** Modules whose component has been taken off the stack. */
  ghost function Popped(indices: Indices, stack: seq<Id>): set<Id> {
    indices.Keys - Elements(stack)
  }

  ghost predicate Indexed(stack: seq<Id>, indices: Indices) {
    forall x :: x in stack ==> x in indices
  }

  /** The index and low maps cover the same modules; the stack is ordered by index. */
  ghost predicate Shape(g: Graph<Id>, s: State, gray: set<Id>) {
    && s.indices.Keys <= g.nodes
    && s.low.Keys == s.indices.Keys
    && (forall x :: x in s.indices ==> s.indices[x] < s.next)
    && Indexed(s.stack, s.indices)
    && (forall i, j :: 0 <= i < j < |s.stack| ==> s.indices[s.stack[i]] < s.indices[s.stack[j]])
    && (forall x :: x in gray ==> x in s.stack)
  }

  /** No finished module imports an unvisited one. */
  ghost predicate Explored(g: Graph<Id>, indices: Indices, gray: set<Id>) {
    forall e :: e in g.edges && e.0 in indices && e.0 !in gray ==> e.1 in indices
  }

  /** Every stacked module reaches all later ones, and an unfinished one at or below it. */
  ghost predicate Linked(g: Graph<Id>, stack: seq<Id>, gray: set<Id>) {
    && (forall i, j :: 0 <= i <= j < |stack| ==> Reach(g, stack[i], stack[j]))
    && (forall j :: 0 <= j < |stack| ==> Anchored(g, stack, gray, j))
  }

  ghost predicate Anchored(g: Graph<Id>, stack: seq<Id>, gray: set<Id>, j: nat)
    requires j < |stack|
  {
    exists i :: 0 <= i <= j && stack[i] in gray && Reach(g, stack[j], stack[i])
  }

  /** A reported group lists one cyclic component. */
  ghost predicate GroupOf(g: Graph<Id>, group: seq<Id>) {
    && group != []
    && Cyclic(g, Component(g, group[0]))
    && Lists(CodeUnitLe, group, Component(g, group[0]))
  }

  ghost predicate Grouped(groups: seq<seq<Id>>, x: Id) {
    exists k :: 0 <= k < |groups| && x in groups[k]
  }

  ghost predicate Disjoint(groups: seq<seq<Id>>) {
    forall k, l, x :: 0 <= k < l < |groups| && x in groups[k] ==> x !in groups[l]
  }

  /** The groups are exactly the cyclic components among `modules`, each once. */
  ghost predicate Reports(g: Graph<Id>, groups: seq<seq<Id>>, modules: set<Id>) {
    && (forall k :: 0 <= k < |groups| ==> GroupOf(g, groups[k]) && groups[k][0] in modules)
    && (forall x :: x in modules && Cyclic(g, Component(g, x)) ==> Grouped(groups, x))
    && Disjoint(groups)
  }

  ghost predicate Inv(g: Graph<Id>, s: State, gray: set<Id>) {
    && WellFormed(g)
    && Shape(g, s, gray)
    && Explored(g, s.indices, gray)
    && Linked(g, s.stack, gray)
    && ClosedSet(g, Popped(s.indices, s.stack))
    && Reports(g, s.groups, Popped(s.indices, s.stack))
  }

  /** `t` continues `s`: visited modules keep their indices and low links, the stack only grows. */
  ghost predicate Extends(s: State, t: State) {
    && s.indices.Keys <= t.indices.Keys && s.low.Keys <= t.low.Keys
    && (forall x :: x in s.indices ==> t.indices[x] == s.indices[x])
    && (forall x :: x in s.low ==> t.low[x] == s.low[x])
    && s.stack <= t.stack
    && (forall x :: x in t.stack && x !in s.stack ==> x in t.indices && t.indices[x] >= s.next)
    && s.next <= t.next
  }

  /** The low link is the index of a stacked module that `id` reaches. */
  ghost predicate LowReached(g: Graph<Id>, stack: seq<Id>, indices: Indices, id: Id, low: nat)
    requires Indexed(stack, indices)
  {
    exists y :: y in stack && indices[y] == low && Reach(g, id, y)
  }

  /** The low link bounds the index of everything numbered below `root` and imported by something
      numbered `root` or above. Imports of `id` itself count only once their target is in `done`. */
  ghost predicate LowBounds(
    g: Graph<Id>, stack: seq<Id>, indices: Indices, root: nat, id: Id, done: set<Id>, low: nat)
    requires Indexed(stack, indices)
  {
    forall e ::
      (&& e in g.edges && e.0 in stack && indices[e.0] >= root && (e.0 != id || e.1 in done)
       && e.1 in stack && indices[e.1] < root)
      ==> low <= indices[e.1]
  }

  ghost predicate LowLink(g: Graph<Id>, s: State, root: nat, id: Id, done: set<Id>)
    requires Indexed(s.stack, s.indices) && id in s.indices && id in s.low
  {
    && s.low[id] <= s.indices[id]
    && LowReached(g, s.stack, s.indices, id, s.low[id])
    && LowBounds(g, s.stack, s.indices, root, id, done, s.low[id])
  }

  ghost predicate VisitPre(g: Graph<Id>, s: State, gray: set<Id>, id: Id) {
    && Inv(g, s, gray)
    && id in g.nodes && id !in s.indices
    && (forall x :: x in gray ==> Reach(g, x, id))
  }

  ghost predicate VisitPost(g: Graph<Id>, s: State, t: State, gray: set<Id>, id: Id) {
    && Inv(g, t, gray)
    && Extends(s, t)
    && id in t.indices
    && t.indices[id] == s.next
    && if id in t.stack then LowLink(g, t, s.next, id, g.nodes)
       else t.stack == s.stack && t.low[id] == t.indices[id]
  }

  /** Holds while the imports of `id` are examined; `done` are those seen so far. */
  ghost predicate Visiting(g: Graph<Id>, s: State, t: State, gray: set<Id>, id: Id, done: set<Id>) {
    && VisitPre(g, s, gray, id)
    && Inv(g, t, gray + {id})
    && Extends(s, t)
    && id in t.indices
    && t.indices[id] == s.next
    && s.stack + [id] <= t.stack
    && done <= t.indices.Keys
    && LowLink(g, t, s.next, id, done)
  }

  // ---------------------------------------------------------------- one lemma per step

  function Push(s: State, id: Id): State {
    s.(next := s.next + 1, indices := s.indices[id := s.next], low := s.low[id := s.next], stack := s.stack + [id])
  }

  lemma PushKeeps(g: Graph<Id>, s: State, gray: set<Id>, id: Id)
    requires VisitPre(g, s, gray, id)
    ensures Visiting(g, s, Push(s, id), gray, id, {})
  {
    hide Reports, Reach, Linked;
    var t := Push(s, id);
    assert id !in s.stack;
    assert Popped(t.indices, t.stack) == Popped(s.indices, s.stack);
    PushLinked(g, s, gray, id);
    ReachSelf(g, id);
    assert id == t.stack[|s.stack|];
  }

  lemma PushLinked(g: Graph<Id>, s: State, gray: set<Id>, id: Id)
    requires VisitPre(g, s, gray, id)
    ensures Linked(g, Push(s, id).stack, gray + {id})
  {
    hide Reports, Explored, ClosedSet;
    var t := Push(s, id);
    var n := |s.stack|;
    ReachSelf(g, id);
    forall j | 0 <= j < n ensures Reach(g, s.stack[j], id) && Anchored(g, t.stack, gray + {id}, j) {
      assert Anchored(g, s.stack, gray, j);
      var i :| 0 <= i <= j && s.stack[i] in gray && Reach(g, s.stack[j], s.stack[i]);
      ReachTrans(g, s.stack[j], s.stack[i], id);
      assert t.stack[i] == s.stack[i] && t.stack[j] == s.stack[j];
    }
    assert t.stack[n] == id && Anchored(g, t.stack, gray + {id}, n);
    forall i, j | 0 <= i <= j < |t.stack| ensures Reach(g, t.stack[i], t.stack[j]) {
      if j < n {
        assert t.stack[i] == s.stack[i] && t.stack[j] == s.stack[j];
      }
    }
  }

  function Min(a: nat, b: nat): nat { if b < a then b else a }

  function Lower(s: State, id: Id, bound: nat): State
    requires id in s.low
  {
    s.(low := s.low[id := Min(s.low[id], bound)])
  }

  lemma ChildMayStart(g: Graph<Id>, s: State, t: State, gray: set<Id>, id: Id, done: set<Id>, target: Id)
    requires Visiting(g, s, t, gray, id, done)
    requires (id, target) in g.edges && target !in t.indices
    ensures VisitPre(g, t, gray + {id}, target)
  {
    hide Reports, Explored, ClosedSet, Linked, Reach, LowReached, LowBounds;
    ReachEdge(g, id, target);
    forall x | x in gray ensures Reach(g, x, target) { ReachTrans(g, x, id, target); }
  }

  lemma ChildReturns(g: Graph<Id>, s: State, t: State, u: State, gray: set<Id>, id: Id, done: set<Id>, target: Id)
    requires Visiting(g, s, t, gray, id, done)
    requires (id, target) in g.edges && target !in t.indices
    requires VisitPost(g, t, u, gray + {id}, target)
    ensures Visiting(g, s, Lower(u, id, u.low[target]), gray, id, done + {target})
  {
    hide Reports, Explored, ClosedSet, Linked, Reach, LowReached, LowBounds;
    ReachEdge(g, id, target);
    ChildLowReached(g, t, u, id, target);
    ChildLowBounds(g, s, t, u, id, done, target);
    ExtendsLowered(s, t, u, id, u.low[target]);
    LowerKeepsInv(g, u, gray + {id}, id, u.low[target]);
    assert s.stack + [id] <= u.stack && done + {target} <= u.indices.Keys;
    hide Extends, Inv, Shape, WellFormed;
  }

  lemma LowerKeepsInv(g: Graph<Id>, s: State, gray: set<Id>, id: Id, bound: nat)
    requires Inv(g, s, gray) && id in s.low
    ensures Inv(g, Lower(s, id, bound), gray)
  {
    hide Reports, Explored, ClosedSet, Linked, Reach, Popped;
  }

  lemma ExtendsLowered(s: State, t: State, u: State, id: Id, bound: nat)
    requires Extends(s, t) && Extends(t, u) && id in t.low && id !in s.low
    requires Indexed(t.stack, t.indices)
    ensures Extends(s, Lower(u, id, bound)) && u.low[id] == t.low[id]
  {}

  /** After a child returns, the lower of the two links is still the index of a reachable stacked module. */
  lemma ChildLowReached(g: Graph<Id>, t: State, u: State, id: Id, target: Id)
    requires Indexed(t.stack, t.indices) && Indexed(u.stack, u.indices) && Extends(t, u)
    requires id in t.low && target in u.low && Reach(g, id, target)
    requires LowReached(g, t.stack, t.indices, id, t.low[id])
    requires if target in u.stack then LowReached(g, u.stack, u.indices, target, u.low[target])
             else u.low[target] >= t.low[id]
    ensures LowReached(g, u.stack, u.indices, id, Min(u.low[id], u.low[target]))
  {
    hide Reach;
    if u.low[target] < u.low[id] {
      var y :| y in u.stack && u.indices[y] == u.low[target] && Reach(g, target, y);
      ReachTrans(g, id, target, y);
    } else {
      var y :| y in t.stack && t.indices[y] == t.low[id] && Reach(g, id, y);
      assert y in u.stack;
    }
  }

  lemma ChildLowBounds(g: Graph<Id>, s: State, t: State, u: State, id: Id, done: set<Id>, target: Id)
    requires WellFormed(g) && Shape(g, t, {}) && Shape(g, u, {}) && Extends(t, u)
    requires id in t.low && target in u.low && target !in t.indices
    requires s.next <= t.next
    requires LowBounds(g, t.stack, t.indices, s.next, id, done, t.low[id])
    requires if target in u.stack then LowBounds(g, u.stack, u.indices, t.next, target, g.nodes, u.low[target])
             else u.stack == t.stack
    ensures LowBounds(g, u.stack, u.indices, s.next, id, done + {target}, Min(u.low[id], u.low[target]))
  {
    hide Shape, Reach;
    ShapeIndexed(g, t);
    ShapeIndexed(g, u);
    forall e | e in g.edges && e.0 in u.stack && e.1 in u.stack && u.indices[e.1] < s.next
      ensures e.1 in t.stack && u.indices[e.1] == t.indices[e.1]
      ensures u.indices[e.0] >= s.next && e.0 in t.stack ==> t.indices[e.0] >= s.next
      ensures e.0 !in t.stack ==> u.indices[e.0] >= t.next && target in u.stack
    {
      OldStackEntry(t, u, e.1);
      if e.0 in t.stack { OldStackEntry(t, u, e.0); }
    }
    assert u.low[id] == t.low[id];
    assert forall e :: e in g.edges ==> e.1 in g.nodes;
    hide Extends;
  }

  lemma ShapeIndexed(g: Graph<Id>, s: State)
    requires Shape(g, s, {})
    ensures Indexed(s.stack, s.indices) && forall x :: x in s.indices ==> s.indices[x] < s.next
  {}

  /** An entry of the later stack below the later numbers was on the earlier stack already. */
  lemma OldStackEntry(t: State, u: State, x: Id)
    requires Extends(t, u) && x in u.stack && Indexed(t.stack, t.indices) && Indexed(u.stack, u.indices)
    ensures u.indices[x] < t.next ==> x in t.stack
    ensures x in t.stack ==> u.indices[x] == t.indices[x]
  {}

  lemma VisitedTarget(g: Graph<Id>, s: State, t: State, gray: set<Id>, id: Id, done: set<Id>, target: Id)
    requires Visiting(g, s, t, gray, id, done)
    requires (id, target) in g.edges && target in t.indices
    ensures target in t.stack ==> Visiting(g, s, Lower(t, id, t.indices[target]), gray, id, done + {target})
    ensures target !in t.stack ==> Visiting(g, s, t, gray, id, done + {target})
  {
    hide Reports, Explored, ClosedSet, Linked, Reach;
    if target in t.stack {
      StackedTarget(g, s, t, id, done, target);
      LowerKeepsInv(g, t, gray + {id}, id, t.indices[target]);
      assert Extends(s, Lower(t, id, t.indices[target]));
      hide Inv, Extends, LowBounds, LowReached;
    } else {
      hide Extends;
    }
  }

  lemma StackedTarget(g: Graph<Id>, s: State, t: State, id: Id, done: set<Id>, target: Id)
    requires Indexed(t.stack, t.indices) && id in t.indices && id in t.low && LowLink(g, t, s.next, id, done)
    requires (id, target) in g.edges && target in t.stack
    ensures LowLink(g, Lower(t, id, t.indices[target]), s.next, id, done + {target})
  {
    ReachEdge(g, id, target);
    hide Reach;
  }

  // ---------------------------------------------------------------- a finished module

  /** Every import of `id` has been examined. */
  ghost predicate Examined(g: Graph<Id>, s: State, t: State, gray: set<Id>, id: Id, done: set<Id>) {
    Visiting(g, s, t, gray, id, done) && forall e :: e in g.edges && e.0 == id ==> e.1 in done
  }

  lemma StackPositions(g: Graph<Id>, s: State, t: State, gray: set<Id>, id: Id, done: set<Id>)
    requires Visiting(g, s, t, gray, id, done)
    ensures |s.stack| < |t.stack| && t.stack[|s.stack|] == id
    ensures forall j :: 0 <= j < |s.stack| ==> t.stack[j] == s.stack[j]
    ensures forall j :: 0 <= j < |t.stack| ==> (t.indices[t.stack[j]] >= s.next <==> j >= |s.stack|)
    ensures forall j :: |s.stack| < j < |t.stack| ==> t.stack[j] != id && t.stack[j] !in gray
  {
    hide Reports, Explored, ClosedSet, Linked, Reach, LowReached, LowBounds;
    var base := |s.stack|;
    assert t.stack[base] == (s.stack + [id])[base];
    forall j | 0 <= j < base ensures t.stack[j] == s.stack[j] && t.indices[t.stack[j]] < s.next {
      assert t.stack[j] == (s.stack + [id])[j];
    }
  }

  /** Whatever was stacked above `id` reaches it. */
  lemma ReachesRoot(g: Graph<Id>, s: State, t: State, gray: set<Id>, id: Id, done: set<Id>, j: nat)
    requires Visiting(g, s, t, gray, id, done) && |s.stack| <= j < |t.stack|
    ensures Reach(g, t.stack[j], id) && Reach(g, id, t.stack[j])
  {
    hide Reports, Explored, ClosedSet, Reach, LowReached, LowBounds;
    StackPositions(g, s, t, gray, id, done);
    assert Reach(g, t.stack[|s.stack|], t.stack[j]);
    assert Anchored(g, t.stack, gray + {id}, j);
    var i :| 0 <= i <= j && t.stack[i] in gray + {id} && Reach(g, t.stack[j], t.stack[i]);
    ReachSelf(g, id);
    ReachTrans(g, t.stack[j], t.stack[i], id);
  }

  /** The module stays stacked: its low link anchors everything above the old stack. */
  lemma StayKeeps(g: Graph<Id>, s: State, t: State, gray: set<Id>, id: Id, done: set<Id>)
    requires Examined(g, s, t, gray, id, done) && t.low[id] != t.indices[id]
    ensures VisitPost(g, s, t, gray, id)
  {
    hide Reports, ClosedSet, Reach, Linked;
    var a := StayAnchor(g, s, t, gray, id, done);
    StayLinked(g, s, t, gray, id, done, a);
    assert id in t.stack by { StackPositions(g, s, t, gray, id, done); }
    StayBounds(g, s, t, gray, id, done);
  }

  lemma StayBounds(g: Graph<Id>, s: State, t: State, gray: set<Id>, id: Id, done: set<Id>)
    requires Examined(g, s, t, gray, id, done)
    ensures Explored(g, t.indices, gray)
    ensures LowBounds(g, t.stack, t.indices, s.next, id, g.nodes, t.low[id])
  {
    hide Reports, ClosedSet, Reach, Linked, LowReached;
    forall e |
      (&& e in g.edges && e.0 in t.stack && t.indices[e.0] >= s.next && (e.0 != id || e.1 in g.nodes)
       && e.1 in t.stack && t.indices[e.1] < s.next)
      ensures t.low[id] <= t.indices[e.1]
    {
      assert e.0 == id ==> e.1 in done;
    }
  }

  lemma StayAnchor(g: Graph<Id>, s: State, t: State, gray: set<Id>, id: Id, done: set<Id>) returns (a: nat)
    requires Visiting(g, s, t, gray, id, done) && t.low[id] != t.indices[id]
    ensures a < |s.stack| && a < |t.stack| && t.stack[a] in gray + {id} && Reach(g, id, t.stack[a])
  {
    hide Reports, ClosedSet, Explored, Reach, LowBounds;
    StackPositions(g, s, t, gray, id, done);
    var y :| y in t.stack && t.indices[y] == t.low[id] && Reach(g, id, y);
    var k :| 0 <= k < |t.stack| && t.stack[k] == y;
    assert Anchored(g, t.stack, gray + {id}, k);
    a :| 0 <= a <= k && t.stack[a] in gray + {id} && Reach(g, y, t.stack[a]);
    ReachTrans(g, id, y, t.stack[a]);
  }

  lemma StayLinked(g: Graph<Id>, s: State, t: State, gray: set<Id>, id: Id, done: set<Id>, a: nat)
    requires Visiting(g, s, t, gray, id, done)
    requires a < |s.stack| && a < |t.stack| && t.stack[a] in gray + {id} && Reach(g, id, t.stack[a])
    ensures Linked(g, t.stack, gray)
  {
    hide Reports, ClosedSet, Explored, Reach, LowBounds, LowReached;
    StackPositions(g, s, t, gray, id, done);
    forall j | 0 <= j < |t.stack| ensures Anchored(g, t.stack, gray, j) {
      if j < |s.stack| {
        assert Anchored(g, t.stack, gray + {id}, j);
      } else {
        ReachesRoot(g, s, t, gray, id, done, j);
        ReachTrans(g, t.stack[j], id, t.stack[a]);
      }
    }
  }

  lemma PopParts(g: Graph<Id>, s: State, t: State, gray: set<Id>, id: Id, done: set<Id>)
    requires Visiting(g, s, t, gray, id, done)
    ensures |s.stack| < |t.stack| && t.stack[..|s.stack|] == s.stack
    ensures forall x :: x in t.stack[|s.stack|..] <==> x in t.stack && x in t.indices && t.indices[x] >= s.next
    ensures Popped(t.indices, s.stack) == Popped(t.indices, t.stack) + Elements(t.stack[|s.stack|..])
  {
    StackPositions(g, s, t, gray, id, done);
    VisitingFacts(g, s, t, gray, id, done);
    hide Visiting;
    StackSplit(t.stack, |s.stack|, t.indices, s.next);
    assert t.stack[..|s.stack|] == s.stack;
  }

  lemma StackSplit(stack: seq<Id>, base: nat, indices: Indices, root: nat)
    requires base <= |stack| && Indexed(stack, indices)
    requires forall j :: 0 <= j < |stack| ==> (indices[stack[j]] >= root <==> j >= base)
    ensures forall x :: x in stack[base..] <==> x in stack && indices[x] >= root
    ensures Popped(indices, stack[..base]) == Popped(indices, stack) + Elements(stack[base..])
  {
    forall x | x in stack ensures x in stack[base..] <==> indices[x] >= root {
      var j :| 0 <= j < |stack| && stack[j] == x;
      if j >= base { assert stack[base..][j - base] == x; }
      if x in stack[base..] {
        var k :| 0 <= k < |stack| - base && stack[base..][k] == x;
        assert stack[base + k] == x;
      }
    }
    assert stack == stack[..base] + stack[base..];
    forall x | x in stack[..base] ensures indices[x] < root {
      var j :| 0 <= j < base && stack[..base][j] == x;
      assert stack[j] == x;
    }
  }

  /** The modules popped together leave no import behind on the stack. */
  lemma PoppedClosed(g: Graph<Id>, s: State, t: State, gray: set<Id>, id: Id, done: set<Id>)
    requires Examined(g, s, t, gray, id, done) && t.low[id] == t.indices[id]
    ensures ClosedSet(g, Popped(t.indices, s.stack))
  {
    hide Reports, Linked, Reach, LowReached;
    PopParts(g, s, t, gray, id, done);
    forall e | e in g.edges && e.0 in t.stack && t.indices[e.0] >= s.next
      ensures e.1 in t.indices && (e.1 in t.stack ==> t.indices[e.1] >= s.next)
    {
      UnfinishedAbove(g, s, t, gray, id, done, e.0);
      assert e.0 == id ==> e.1 in done;
    }
  }

  lemma UnfinishedAbove(g: Graph<Id>, s: State, t: State, gray: set<Id>, id: Id, done: set<Id>, x: Id)
    requires Visiting(g, s, t, gray, id, done) && x in t.stack && t.indices[x] >= s.next
    ensures x == id || x !in gray + {id}
  {
    hide Reports, ClosedSet, Explored, Linked, Reach, LowBounds, LowReached;
    StackPositions(g, s, t, gray, id, done);
    var j :| 0 <= j < |t.stack| && t.stack[j] == x;
  }

  /** What is popped is one whole component. */
  lemma PoppedComponent(g: Graph<Id>, s: State, t: State, gray: set<Id>, id: Id, done: set<Id>)
    requires Examined(g, s, t, gray, id, done) && t.low[id] == t.indices[id]
    ensures Elements(t.stack[|s.stack|..]) == Component(g, id)
    ensures Component(g, id) !! Popped(t.indices, t.stack)
  {
    hide Reports, Linked, ClosedSet, Reach, LowReached, LowBounds, Explored;
    var base := |s.stack|;
    var taken := Elements(t.stack[base..]);
    PopParts(g, s, t, gray, id, done);
    PoppedClosed(g, s, t, gray, id, done);
    StackPositions(g, s, t, gray, id, done);
    assert id in t.stack;
    forall x | x in taken ensures x in Component(g, id) {
      var j :| base <= j < |t.stack| && t.stack[j] == x;
      ReachesRoot(g, s, t, gray, id, done, j);
    }
    forall z | z in Component(g, id) ensures z in taken {
      ClosedReach(g, Popped(t.indices, s.stack), id, z);
      if z in Popped(t.indices, t.stack) { ClosedReach(g, Popped(t.indices, t.stack), z, id); }
    }
  }

  /** The component is taken off the stack and reported when it is cyclic. */
  ghost predicate GroupsAfter(g: Graph<Id>, before: seq<seq<Id>>, groups: seq<seq<Id>>, id: Id) {
    if Cyclic(g, Component(g, id))
    then |groups| == |before| + 1 && groups[..|before|] == before &&
        Lists(CodeUnitLe, groups[|before|], Component(g, id))
    else groups == before
  }

  lemma PopKeeps(g: Graph<Id>, s: State, t: State, gray: set<Id>, id: Id, done: set<Id>, groups: seq<seq<Id>>)
    requires Examined(g, s, t, gray, id, done) && t.low[id] == t.indices[id]
    requires GroupsAfter(g, t.groups, groups, id)
    ensures VisitPost(g, s, t.(stack := s.stack, groups := groups), gray, id)
  {
    hide Reports, Linked, ClosedSet, Reach, LowReached, LowBounds, GroupsAfter, Component, Popped;
    PoppedClosed(g, s, t, gray, id, done);
    PopShape(g, s, t, gray, id, done);
    PopReports(g, s, t, gray, id, done, groups);
  }

  lemma PopShape(g: Graph<Id>, s: State, t: State, gray: set<Id>, id: Id, done: set<Id>)
    requires Examined(g, s, t, gray, id, done)
    ensures Shape(g, t.(stack := s.stack), gray) && Explored(g, t.indices, gray)
    ensures Extends(s, t.(stack := s.stack)) && id !in s.stack
  {
    hide Reports, Linked, ClosedSet, Reach, LowReached, LowBounds, Popped;
    assert forall e :: e in g.edges && e.0 == id ==> e.1 in t.indices;
  }

  lemma PopReports(g: Graph<Id>, s: State, t: State, gray: set<Id>, id: Id, done: set<Id>, groups: seq<seq<Id>>)
    requires Examined(g, s, t, gray, id, done) && t.low[id] == t.indices[id]
    requires GroupsAfter(g, t.groups, groups, id)
    ensures Reports(g, groups, Popped(t.indices, s.stack))
  {
    hide Reports, Linked, ClosedSet, Reach, LowReached, LowBounds, GroupsAfter, Component, Explored, Extends;
    PopParts(g, s, t, gray, id, done);
    PoppedComponent(g, s, t, gray, id, done);
    ReportsGrow(g, t.groups, Popped(t.indices, t.stack), id, groups);
  }

  lemma OwnComponent(g: Graph<Id>, id: Id)
    requires id in g.nodes
    ensures id in Component(g, id) && forall x :: x in Component(g, id) ==> Component(g, x) == Component(g, id)
  {
    ReachSelf(g, id);
    assert id in Component(g, id);
    hide Reach, Component;
    forall x | x in Component(g, id) ensures Component(g, x) == Component(g, id) { SameComponent(g, id, x); }
  }

  /** Popping one more component keeps the report exact. */
  lemma ReportsGrow(g: Graph<Id>, before: seq<seq<Id>>, modules: set<Id>, id: Id, groups: seq<seq<Id>>)
    requires Reports(g, before, modules) && ClosedSet(g, modules) && id in g.nodes
    requires Component(g, id) !! modules
    requires GroupsAfter(g, before, groups, id)
    ensures Reports(g, groups, modules + Component(g, id))
  {
    hide Reach, ClosedSet, Cyclic, Lists, Component, GroupOf;
    OwnComponent(g, id);
    if Cyclic(g, Component(g, id)) {
      GroupAdded(g, before, modules, id, groups[|before|]);
      assert groups == before + [groups[|before|]];
    }
  }

  lemma GroupAdded(g: Graph<Id>, before: seq<seq<Id>>, modules: set<Id>, id: Id, group: seq<Id>)
    requires Reports(g, before, modules) && ClosedSet(g, modules)
    requires Component(g, id) !! modules && id in Component(g, id) && Cyclic(g, Component(g, id))
    requires forall x :: x in Component(g, id) ==> Component(g, x) == Component(g, id)
    requires Lists(CodeUnitLe, group, Component(g, id))
    ensures Reports(g, before + [group], modules + Component(g, id))
  {
    hide Reach, Cyclic, Component, ClosedSet;
    var c := Component(g, id);
    var groups := before + [group];
    assert group != [] && forall x :: x in c <==> x in group by {
      EmptyListing(CodeUnitLe, group, c);
      assert Elements(group) == c;
    }
    assert GroupOf(g, group) by { hide Lists; }
    hide Lists, GroupOf;
    forall k, x | 0 <= k < |before| && x in before[k] ensures x !in group { EarlierGroup(g, before, modules, k, x); }
    OneMoreGroup(g, before, modules, group, c);
  }

  lemma OneMoreGroup(g: Graph<Id>, before: seq<seq<Id>>, modules: set<Id>, group: seq<Id>, c: set<Id>)
    requires Reports(g, before, modules) && GroupOf(g, group) && forall x :: x in c <==> x in group
    requires forall k, x :: 0 <= k < |before| && x in before[k] ==> x !in group
    ensures Reports(g, before + [group], modules + c)
  {
    assert group[0] in c;
    hide Cyclic, Component, GroupOf, Grouped;
    var groups := before + [group];
    assert Disjoint(groups) by {
      assert forall k :: 0 <= k < |before| ==> groups[k] == before[k];
    }
    hide Disjoint;
    forall k | 0 <= k < |groups| ensures GroupOf(g, groups[k]) && groups[k][0] in modules + c {
      assert groups[k] == if k < |before| then before[k] else group;
    }
    forall x | Grouped(before, x) || x in group ensures Grouped(groups, x) { StillGrouped(before, group, x); }
  }

  lemma StillGrouped(before: seq<seq<Id>>, group: seq<Id>, x: Id)
    requires Grouped(before, x) || x in group
    ensures Grouped(before + [group], x)
  {
    var groups := before + [group];
    if x in group {
      assert x in groups[|before|];
    } else {
      var k :| 0 <= k < |before| && x in before[k];
      assert x in groups[k];
    }
  }

  lemma EarlierGroup(g: Graph<Id>, groups: seq<seq<Id>>, modules: set<Id>, k: nat, x: Id)
    requires Reports(g, groups, modules) && ClosedSet(g, modules)
    requires k < |groups| && x in groups[k]
    ensures x in modules
  {
    hide ClosedSet, Reach;
    assert GroupOf(g, groups[k]);
    assert x in Elements(groups[k]);
    ClosedReach(g, modules, groups[k][0], x);
  }

  lemma AllExamined(g: Graph<Id>, adjacent: Adjacency, s: State, t: State, gray: set<Id>, id: Id)
    requires Represents(adjacent, g.edges)
    requires Visiting(g, s, t, gray, id, Elements(Targets(adjacent, id)))
    ensures Examined(g, s, t, gray, id, Elements(Targets(adjacent, id)))
  {
    hide Visiting;
  }

  lemma VisitingFacts(g: Graph<Id>, s: State, t: State, gray: set<Id>, id: Id, done: set<Id>)
    requires Visiting(g, s, t, gray, id, done)
    ensures id in t.indices && id in t.low && s.indices.Keys < t.indices.Keys <= g.nodes
    ensures Indexed(t.stack, t.indices) && t.low.Keys == t.indices.Keys
  {
    hide Explored, Linked, Reports, ClosedSet, LowLink;
    assert id !in s.indices;
  }

  lemma VisitFacts(g: Graph<Id>, s: State, t: State, gray: set<Id>, id: Id)
    requires VisitPost(g, s, t, gray, id)
    ensures id in t.indices && s.low.Keys <= t.low.Keys == t.indices.Keys
  {
    hide Explored, Linked, Reports, ClosedSet, LowLink;
  }

  lemma ExaminedVisits(g: Graph<Id>, s: State, t: State, gray: set<Id>, id: Id, done: set<Id>)
    requires Examined(g, s, t, gray, id, done)
    ensures Visiting(g, s, t, gray, id, done)
  {
    hide Visiting;
  }

  /** The report's size-or-self-import test finds exactly the cyclic components. */
  lemma GroupsAfterPop(g: Graph<Id>, adjacent: Adjacency, before: seq<seq<Id>>, group: seq<Id>, id: Id)
    requires Represents(adjacent, g.edges) && Distinct(group) && Elements(group) == Component(g, id) && id in g.nodes
    ensures GroupsAfter(g, before,
      if |group| > 1 || id in Targets(adjacent, id) then before + [SortBy(CodeUnitLe, group)] else before, id)
  {
    ReachSelf(g, id);
    assert id in Component(g, id);
    hide Reach, Component;
    CodeUnitOrder();
    SortLists(CodeUnitLe, group);
    hide TotalPreorder;
    CyclicTest(g, adjacent, group, id);
    hide Cyclic, SortBy, Lists;
  }

  lemma CyclicTest(g: Graph<Id>, adjacent: Adjacency, group: seq<Id>, id: Id)
    requires Represents(adjacent, g.edges) && Distinct(group) && id in group
    ensures Cyclic(g, Elements(group)) <==> |group| > 1 || id in Targets(adjacent, id)
  {
    DistinctSize(group);
    assert id in Elements(group);
    if |group| <= 1 { Singleton(Elements(group), id); }
  }

  lemma StackDistinct(g: Graph<Id>, s: State, t: State, gray: set<Id>, id: Id, done: set<Id>)
    requires Visiting(g, s, t, gray, id, done)
    ensures Distinct(t.stack) && |s.stack| < |t.stack| && t.stack[|s.stack|] == id
  {
    hide Explored, Linked, Reports, ClosedSet, LowLink;
    StackPositions(g, s, t, gray, id, done);
    forall i, j | 0 <= i < j < |t.stack| ensures t.stack[i] != t.stack[j] {
      assert t.indices[t.stack[i]] < t.indices[t.stack[j]];
    }
  }

  // ---------------------------------------------------------------- the search

  class Search {
    const adjacent: Adjacency
    ghost const graph: Graph<Id>
    var next: nat
    var indices: Indices
    var low: map<Id, nat>
    var stacked: set<Id>
    var stack: seq<Id>
    var groups: seq<seq<Id>>

    ghost predicate Valid()
      reads this
    {
      Represents(adjacent, graph.edges) && stacked == Elements(stack)
    }

    ghost function View(): State
      reads this
    {
      State(next, indices, low, stack, groups)
    }

    constructor (adjacency: Adjacency, ghost g: Graph<Id>)
      requires WellFormed(g) && Represents(adjacency, g.edges)
      ensures Valid() && graph == g && adjacent == adjacency
      ensures Inv(g, View(), {}) && indices == map[]
    {
      adjacent, graph := adjacency, g;
      next, indices, low, stacked, stack, groups := 0, map[], map[], {}, [], [];
    }

    /** Visits `id`; `gray` are the modules whose visits are still open. */
    method Visit(id: Id, ghost gray: set<Id>)
      requires Valid() && VisitPre(graph, View(), gray, id)
      modifies this
      ensures Valid() && VisitPost(graph, old(View()), View(), gray, id)
      decreases graph.nodes - indices.Keys
    {
      hide VisitPre, VisitPost, Visiting, Examined;
      ghost var start := View();
      PushKeeps(graph, start, gray, id);
      var index := next;
      next := next + 1;
      indices, low := indices[id := index], low[id := index];
      stack, stacked := stack + [id], stacked + {id};
      assert View() == Push(start, id);
      assert stacked == Elements(stack);
      var targets := Targets(adjacent, id);
      var i := 0;
      assert Elements(targets[..0]) == {};
      while i < |targets|
        invariant 0 <= i <= |targets|
        invariant Valid() && Visiting(graph, start, View(), gray, id, Elements(targets[..i]))
      {
        var target := targets[i];
        assert (id, target) in graph.edges;
        assert Elements(targets[..i + 1]) == Elements(targets[..i]) + {target};
        ghost var before, done := View(), Elements(targets[..i]);
        VisitingFacts(graph, start, before, gray, id, done);
        if target !in indices {
          ChildMayStart(graph, start, before, gray, id, done, target);
          Visit(target, gray + {id});
          VisitFacts(graph, before, View(), gray + {id}, target);
          ChildReturns(graph, start, before, View(), gray, id, done, target);
          low := low[id := Min(low[id], low[target])];
        } else {
          VisitedTarget(graph, start, before, gray, id, done, target);
          if target in stacked {
            low := low[id := Min(low[id], indices[target])];
          }
        }
        i := i + 1;
      }
      assert targets[..i] == targets;
      AllExamined(graph, adjacent, start, View(), gray, id);
      Finish(id, targets, start, gray);
    }

    /** Every import of `id` is examined: leave it stacked, or pop and report its component. */
    method Finish(id: Id, targets: seq<Id>, ghost start: State, ghost gray: set<Id>)
      requires Valid() && targets == Targets(adjacent, id)
      requires Examined(graph, start, View(), gray, id, Elements(targets))
      modifies this
      ensures Valid() && VisitPost(graph, start, View(), gray, id)
    {
      hide VisitPre, VisitPost, Visiting, Examined, GroupsAfter, Component, Cyclic, SortBy, Represents, Popped;
      ghost var last, done := View(), Elements(targets);
      ExaminedVisits(graph, start, last, gray, id, done);
      VisitingFacts(graph, start, last, gray, id, done);
      if low[id] != indices[id] {
        StayKeeps(graph, start, last, gray, id, done);
        return;
      }
      PopParts(graph, start, last, gray, id, done);
      StackDistinct(graph, start, last, gray, id, done);
      PoppedComponent(graph, start, last, gray, id, done);
      var group := PopGroup(id, |start.stack|);
      GroupsAfterPop(graph, adjacent, groups, group, id);
      if |group| > 1 || id in targets {
        groups := groups + [SortBy(CodeUnitLe, group)];
      }
      PopKeeps(graph, start, last, gray, id, done, groups);
      assert View() == last.(stack := start.stack, groups := groups);
    }

    /** Takes the modules above position `base` off the stack, last first, down to and including `id`. */
    method PopGroup(id: Id, ghost base: nat) returns (group: seq<Id>)
      requires Valid() && base < |stack| && stack[base] == id && Distinct(stack)
      modifies this`stack, this`stacked
      ensures Valid() && stack == old(stack)[..base]
      ensures |group| == |old(stack)| - base
      ensures forall i :: 0 <= i < |group| ==> group[i] == old(stack)[|old(stack)| - 1 - i]
      ensures Distinct(group) && Elements(group) == Elements(old(stack)[base..])
    {
      group := [];
      ghost var all := stack;
      while true
        invariant base < |stack| <= |all| && stack == all[..|stack|] && Valid()
        invariant |group| == |all| - |stack|
        invariant forall i :: 0 <= i < |group| ==> group[i] == all[|all| - 1 - i]
        decreases |stack|
      {
        var member := stack[|stack| - 1];
        assert stack == stack[..|stack| - 1] + [member];
        assert member !in stack[..|stack| - 1];
        stack, stacked := stack[..|stack| - 1], stacked - {member};
        group := group + [member];
        if member == id { break; }
      }
      ReversedTail(all, base, group);
    }
  }

  lemma ReversedTail(all: seq<Id>, base: nat, group: seq<Id>)
    requires Distinct(all) && base <= |all| && |group| == |all| - base
    requires forall i :: 0 <= i < |group| ==> group[i] == all[|all| - 1 - i]
    ensures Distinct(group) && Elements(group) == Elements(all[base..])
  {
    forall x | x in all[base..] ensures x in group {
      var i :| 0 <= i < |all| - base && all[base..][i] == x;
      assert group[|all| - 1 - (base + i)] == x;
    }
    forall x | x in group ensures x in all[base..] {
      var i :| 0 <= i < |group| && group[i] == x;
      assert all[base..][|all| - 1 - i - base] == x;
    }
  }

  // ---------------------------------------------------------------- the report

  function Head(group: seq<Id>): Id { if group == [] then [] else group[0] }

  /** Longer groups first, then by the first module in collation order. */
  function GroupLe(collate: (Id, Id) -> bool): (seq<Id>, seq<Id>) -> bool {
    (a: seq<Id>, b: seq<Id>) => |a| > |b| || (|a| == |b| && collate(Head(a), Head(b)))
  }

  ghost predicate CycleReport(g: Graph<Id>, collate: (Id, Id) -> bool, report: seq<seq<Id>>) {
    Reports(g, report, g.nodes) && Sorted(GroupLe(collate), report)
  }

  lemma ImportGraphWellFormed(nodes: seq<GraphNode>, edges: seq<GraphEdge>)
    ensures WellFormed(ImportGraph(nodes, edges))
  {}

  /** `cycleGroups`: the groups are the cyclic components of the import graph, each once, in order. */
  method CycleGroups(nodes: seq<GraphNode>, edges: seq<GraphEdge>, collate: (Id, Id) -> bool)
    returns (report: seq<seq<Id>>)
    requires TotalOrder(collate)
    ensures CycleReport(ImportGraph(nodes, edges), collate, report)
    ensures forall x, y :: Together(report, x, y) <==> CycleThrough(nodes, edges, x, y)
    ensures GroupsOrdered(collate, report)
  {
    ghost var g := ImportGraph(nodes, edges);
    ImportGraphWellFormed(nodes, edges);
    var active := Active(nodes);
    var adjacent := GroupTargets(edges, e => ValueImport(active, e));
    var search := new Search(adjacent, g);
    CodeUnitOrder();
    var ids := ListSet(CodeUnitLe, active);
    hide TotalOrder, Inv, Reports, ImportGraph, Sorted, Distinct;
    assert forall x :: x in ids <==> x in g.nodes by { assert Elements(ids) == g.nodes; }
    VisitAll(search, g, ids);
    AllPopped(g, search.View());
    report := SortBy(GroupLe(collate), search.groups);
    SortedReport(g, collate, search.groups);
    forall x, y ensures Together(report, x, y) <==> CycleThrough(nodes, edges, x, y) {
      TogetherIff(nodes, edges, collate, report, x, y);
    }
    ReportOrdered(g, collate, report);
  }

  /** Starts a visit from every module not reached yet. */
  method VisitAll(search: Search, ghost g: Graph<Id>, ids: seq<Id>)
    requires search.Valid() && search.graph == g && Inv(g, search.View(), {}) && forall x :: x in ids ==> x in g.nodes
    modifies search
    ensures search.Valid() && search.graph == g && Inv(g, search.View(), {})
    ensures forall x :: x in ids ==> x in search.indices
  {
    hide Inv;
    for i := 0 to |ids|
      invariant search.Valid() && search.graph == g && Inv(g, search.View(), {})
      invariant forall j :: 0 <= j < i ==> ids[j] in search.indices
    {
      ghost var before := search.View();
      if ids[i] !in search.indices {
        MayStart(g, before, ids[i]);
        search.Visit(ids[i], {});
        VisitResult(g, before, search.View(), ids[i]);
      }
    }
  }

  lemma MayStart(g: Graph<Id>, s: State, id: Id)
    requires Inv(g, s, {}) && id in g.nodes && id !in s.indices
    ensures VisitPre(g, s, {}, id)
  {
    hide Inv;
  }

  lemma VisitResult(g: Graph<Id>, s: State, t: State, id: Id)
    requires VisitPost(g, s, t, {}, id)
    ensures Inv(g, t, {}) && id in t.indices && s.indices.Keys <= t.indices.Keys
  {
    hide Inv, LowLink;
  }

  /** With no visit open the stack is empty, so every module's component has been popped. */
  lemma AllPopped(g: Graph<Id>, s: State)
    requires Inv(g, s, {}) && g.nodes <= s.indices.Keys
    ensures Reports(g, s.groups, g.nodes)
  {
    hide Reports, Explored, ClosedSet;
    if s.stack != [] { StackHasOpenVisit(g, s.stack, {}); }
    assert Popped(s.indices, s.stack) == g.nodes;
  }

  lemma StackHasOpenVisit(g: Graph<Id>, stack: seq<Id>, gray: set<Id>)
    requires Linked(g, stack, gray) && stack != []
    ensures gray != {}
  {
    assert Anchored(g, stack, gray, 0);
  }

  lemma GroupOrder(collate: (Id, Id) -> bool)
    requires TotalOrder(collate)
    ensures TotalPreorder(GroupLe(collate))
  {
    var le := GroupLe(collate);
    forall a, b ensures le(a, b) || le(b, a) {
      assert collate(Head(a), Head(b)) || collate(Head(b), Head(a));
    }
    forall a, b, c | le(a, b) && le(b, c) ensures le(a, c) {
      assert collate(Head(a), Head(b)) && collate(Head(b), Head(c)) ==> collate(Head(a), Head(c));
    }
  }

  lemma SortedReport(g: Graph<Id>, collate: (Id, Id) -> bool, groups: seq<seq<Id>>)
    requires TotalOrder(collate) && Reports(g, groups, g.nodes)
    ensures CycleReport(g, collate, SortBy(GroupLe(collate), groups))
  {
    var le, r := GroupLe(collate), SortBy(GroupLe(collate), groups);
    GroupsDistinct(g, groups);
    GroupOrder(collate);
    SortLists(le, groups);
    SameReport(g, groups, r);
    hide Reports;
  }

  lemma SameReport(g: Graph<Id>, groups: seq<seq<Id>>, r: seq<seq<Id>>)
    requires Reports(g, groups, g.nodes)
    requires Distinct(groups) && Distinct(r) && Elements(r) == Elements(groups)
    ensures Reports(g, r, g.nodes)
  {
    hide Cyclic, Component, GroupOf;
    forall k | 0 <= k < |r| ensures r[k] in groups { assert r[k] in Elements(r); }
    forall k | 0 <= k < |groups| ensures groups[k] in r { assert groups[k] in Elements(groups); }
    forall k, l, x | 0 <= k < l < |r| && x in r[k] ensures x !in r[l] { DisjointGroups(g, groups, r[k], r[l]); }
    forall x | Grouped(groups, x) ensures Grouped(r, x) {
      var a :| 0 <= a < |groups| && x in groups[a];
      var k :| 0 <= k < |r| && r[k] == groups[a];
    }
  }

  lemma DisjointGroups(g: Graph<Id>, groups: seq<seq<Id>>, a: seq<Id>, b: seq<Id>)
    requires Reports(g, groups, g.nodes) && a in groups && b in groups && a != b
    ensures forall x :: x in a ==> x !in b
  {
    hide Cyclic, Component, GroupOf;
    var k :| 0 <= k < |groups| && groups[k] == a;
    var l :| 0 <= l < |groups| && groups[l] == b;
    assert k < l || l < k;
  }

  lemma GroupsDistinct(g: Graph<Id>, groups: seq<seq<Id>>)
    requires Reports(g, groups, g.nodes)
    ensures Distinct(groups)
  {
    forall k, l | 0 <= k < l < |groups| ensures groups[k] != groups[l] {
      assert GroupOf(g, groups[k]);
      assert groups[k][0] !in groups[l];
    }
  }

  // ---------------------------------------------------------------- what the report means

  /** A maximal set of modules that all reach one another. */
  ghost predicate StrongComponent(g: Graph<Id>, members: set<Id>) {
    && members != {} && members <= g.nodes
    && (forall x, y :: x in members && y in members ==> Reach(g, x, y))
    && (forall x, y :: x in members && y in g.nodes && Reach(g, x, y) && Reach(g, y, x) ==> y in members)
  }

  lemma StrongComponentOf(g: Graph<Id>, members: set<Id>, x: Id)
    requires x in members && x in g.nodes
    ensures StrongComponent(g, members) <==> members == Component(g, x)
  {
    hide Reach;
    ReachSelf(g, x);
    if members == Component(g, x) {
      forall y, z | y in members && z in members ensures Reach(g, y, z) { ReachTrans(g, y, x, z); }
      forall y, z | y in members && z in g.nodes && Reach(g, y, z) && Reach(g, z, y) ensures z in members {
        ReachTrans(g, x, y, z);
        ReachTrans(g, z, y, x);
      }
    }
  }

  /** The report lists exactly the strongly connected components that contain a cycle, each once. */
  lemma ReportExact(g: Graph<Id>, collate: (Id, Id) -> bool, report: seq<seq<Id>>, members: set<Id>)
    requires CycleReport(g, collate, report)
    ensures StrongComponent(g, members) && Cyclic(g, members) <==>
            exists k :: 0 <= k < |report| && Elements(report[k]) == members
    ensures forall k, l :: 0 <= k < l < |report| ==> Elements(report[k]) !! Elements(report[l])
  {
    hide Reach, Cyclic, Component, StrongComponent, GroupOf, Grouped, Sorted;
    if StrongComponent(g, members) && Cyclic(g, members) {
      var k := ReportHolds(g, collate, report, members);
    }
    forall k | 0 <= k < |report| && Elements(report[k]) == members
      ensures StrongComponent(g, members) && Cyclic(g, members)
    {
      ReportSound(g, collate, report, k);
    }
    forall k, l | 0 <= k < l < |report| ensures Elements(report[k]) !! Elements(report[l]) {
      ReportDisjoint(g, collate, report, k, l);
    }
  }

  lemma ReportHolds(g: Graph<Id>, collate: (Id, Id) -> bool, report: seq<seq<Id>>, members: set<Id>) returns (k: nat)
    requires CycleReport(g, collate, report) && StrongComponent(g, members) && Cyclic(g, members)
    ensures k < |report| && Elements(report[k]) == members
  {
    hide Reach, Cyclic, Component, StrongComponent, Sorted;
    var x := MemberOf(g, members);
    StrongComponentOf(g, members, x);
    assert Grouped(report, x);
    k :| 0 <= k < |report| && x in report[k];
    assert GroupOf(g, report[k]);
    assert x in Elements(report[k]);
    InComponent(g, report[k][0], x);
  }

  lemma ReportSound(g: Graph<Id>, collate: (Id, Id) -> bool, report: seq<seq<Id>>, k: nat)
    requires CycleReport(g, collate, report) && k < |report|
    ensures StrongComponent(g, Elements(report[k])) && Cyclic(g, Elements(report[k]))
  {
    hide Reach, Cyclic, Component, StrongComponent, Sorted;
    assert GroupOf(g, report[k]);
    assert report[k][0] in Elements(report[k]);
    StrongComponentOf(g, Elements(report[k]), report[k][0]);
  }

  lemma ReportDisjoint(g: Graph<Id>, collate: (Id, Id) -> bool, report: seq<seq<Id>>, k: nat, l: nat)
    requires CycleReport(g, collate, report) && k < l < |report|
    ensures Elements(report[k]) !! Elements(report[l])
  {
    hide Reach, Cyclic, Component, Sorted;
  }

  lemma MemberOf(g: Graph<Id>, members: set<Id>) returns (x: Id)
    requires StrongComponent(g, members)
    ensures x in members && x in g.nodes
  {
    hide Reach;
    x :| x in members;
  }

  lemma InComponent(g: Graph<Id>, x: Id, y: Id)
    requires y in Component(g, x)
    ensures Component(g, y) == Component(g, x)
  {
    SameComponent(g, x, y);
  }

  /** The report is empty exactly when no module lies on an import cycle. */
  lemma EmptyReportIffAcyclic(g: Graph<Id>, collate: (Id, Id) -> bool, report: seq<seq<Id>>)
    requires WellFormed(g) && CycleReport(g, collate, report)
    ensures report == [] <==> forall x :: x in g.nodes ==> !OnCycle(g, x)
  {
    hide Cyclic, Component, OnCycle;
    forall x | x in g.nodes ensures OnCycle(g, x) <==> Cyclic(g, Component(g, x)) { CyclicComponent(g, x); }
    if report != [] { assert GroupOf(g, report[0]) && report[0][0] in g.nodes; }
  }

  /** Two reports on one graph are equal. */
  lemma ReportUnique(g: Graph<Id>, collate: (Id, Id) -> bool, r: seq<seq<Id>>, t: seq<seq<Id>>)
    requires TotalOrder(collate) && CycleReport(g, collate, r) && CycleReport(g, collate, t)
    ensures r == t
  {
    hide Cyclic, Component, GroupOf;
    GroupOrder(collate);
    GroupsDistinct(g, r);
    GroupsDistinct(g, t);
    SameGroups(g, r, t);
    SameGroups(g, t, r);
    assert Elements(r) == Elements(t);
    HeadsDiffer(g, collate, r);
    ListingUnique(GroupLe(collate), r, t, Elements(r));
  }

  lemma HeadsDiffer(g: Graph<Id>, collate: (Id, Id) -> bool, r: seq<seq<Id>>)
    requires TotalOrder(collate) && Reports(g, r, g.nodes)
    ensures AntisymmetricOn(GroupLe(collate), Elements(r))
  {
    var le := GroupLe(collate);
    forall a, b | a in Elements(r) && b in Elements(r) && le(a, b) && le(b, a) ensures a == b {
      assert collate(Head(a), Head(b)) && collate(Head(b), Head(a)) ==> Head(a) == Head(b);
      SameHead(g, r, a, b);
    }
  }

  lemma SameHead(g: Graph<Id>, r: seq<seq<Id>>, a: seq<Id>, b: seq<Id>)
    requires Reports(g, r, g.nodes) && a in r && b in r && Head(a) == Head(b)
    ensures a == b
  {
    hide Cyclic, Component, Reach, Lists;
    var k :| 0 <= k < |r| && r[k] == a;
    var l :| 0 <= l < |r| && r[l] == b;
    assert GroupOf(g, r[k]) && GroupOf(g, r[l]);
    InOneGroup(g, r, k, l, a[0]);
  }

  lemma InOneGroup(g: Graph<Id>, r: seq<seq<Id>>, k: nat, l: nat, x: Id)
    requires Reports(g, r, g.nodes) && k < |r| && l < |r| && x in r[k] && x in r[l]
    ensures k == l
  {
    hide Cyclic, Component, GroupOf;
  }

  lemma SameGroups(g: Graph<Id>, r: seq<seq<Id>>, t: seq<seq<Id>>)
    requires Reports(g, r, g.nodes) && Reports(g, t, g.nodes)
    ensures Elements(r) <= Elements(t)
  {
    hide Cyclic, Reach, Component, Lists, Reports, GroupOf;
    forall a | a in r ensures a in t { GroupIn(g, r, t, a); }
  }

  lemma GroupIn(g: Graph<Id>, r: seq<seq<Id>>, t: seq<seq<Id>>, a: seq<Id>)
    requires Reports(g, r, g.nodes) && Reports(g, t, g.nodes) && a in r
    ensures a in t
  {
    hide Reports, Cyclic, Reach, Component, Lists;
    CyclicHead(g, r, a);
    var b := GroupWith(g, t, a[0]);
    SameListing(g, a, b);
  }

  lemma CyclicHead(g: Graph<Id>, r: seq<seq<Id>>, a: seq<Id>)
    requires Reports(g, r, g.nodes) && a in r
    ensures GroupOf(g, a) && a[0] in g.nodes
  {
    hide Cyclic, Reach, Component, Lists, GroupOf;
  }

  lemma GroupWith(g: Graph<Id>, t: seq<seq<Id>>, x: Id) returns (b: seq<Id>)
    requires Reports(g, t, g.nodes) && x in g.nodes && Cyclic(g, Component(g, x))
    ensures b in t && x in b && GroupOf(g, b)
  {
    hide Cyclic, Reach, Component, Lists, GroupOf;
    assert Grouped(t, x);
    var l :| 0 <= l < |t| && x in t[l];
    b := t[l];
  }

  lemma SameListing(g: Graph<Id>, a: seq<Id>, b: seq<Id>)
    requires GroupOf(g, a) && GroupOf(g, b) && a[0] in b
    ensures a == b
  {
    hide Cyclic, Reach, Component, CodeUnitLe;
    assert a[0] in Elements(b);
    InComponent(g, b[0], a[0]);
    CodeUnitOrder();
    ListingUnique(CodeUnitLe, a, b, Component(g, a[0]));
  }

  /** Reordering or repeating nodes and edges, or adding erased, test or dangling imports, never changes the report. */
  lemma ReportDependsOnGraph(
    nodes: seq<GraphNode>, edges: seq<GraphEdge>, nodes': seq<GraphNode>, edges': seq<GraphEdge>,
    collate: (Id, Id) -> bool, r: seq<seq<Id>>, r': seq<seq<Id>>)
    requires TotalOrder(collate)
    requires CycleReport(ImportGraph(nodes, edges), collate, r) && CycleReport(ImportGraph(nodes', edges'), collate, r')
    requires forall x :: x in Active(nodes) <==> x in Active(nodes')
    requires forall e :: ValueImport(Active(nodes), e) ==>
      (Imports(edges, e.source, e.target) <==> Imports(edges', e.source, e.target))
    ensures r == r'
  {
    hide CycleReport;
    var g, g' := ImportGraph(nodes, edges), ImportGraph(nodes', edges');
    assert g.nodes == g'.nodes;
    forall u, v ensures (u, v) in g.edges <==> (u, v) in g'.edges {
      EdgeIffImports(nodes, edges, u, v);
      EdgeIffImports(nodes', edges', u, v);
      assert u in Active(nodes) && v in Active(nodes) ==> ValueImport(Active(nodes), GraphEdge(u, v, false));
    }
    assert g.edges == g'.edges;
    ReportUnique(g, collate, r, r');
  }

  ghost predicate Imports(edges: seq<GraphEdge>, u: Id, v: Id) {
    GraphEdge(u, v, false) in edges
  }

  lemma EdgeIffImports(nodes: seq<GraphNode>, edges: seq<GraphEdge>, u: Id, v: Id)
    ensures (u, v) in ImportGraph(nodes, edges).edges <==>
      u in Active(nodes) && v in Active(nodes) && Imports(edges, u, v)
  {
    var e := GraphEdge(u, v, false);
    if u in Active(nodes) && v in Active(nodes) && e in edges {
      assert ValueImport(Active(nodes), e);
      assert (e.source, e.target) == (u, v);
    }
  }

  // ---------------------------------------------------------------- the report over the input

  /** A module that is listed as something other than a test. */
  ghost predicate Production(nodes: seq<GraphNode>, x: Id) {
    exists n :: n in nodes && n.id == x && !n.test
  }

  ghost predicate ImportsValue(nodes: seq<GraphNode>, edges: seq<GraphEdge>, u: Id, v: Id) {
    && Production(nodes, u) && Production(nodes, v)
    && exists e :: e in edges && e.source == u && e.target == v && !e.typeOnly
  }

  ghost predicate ImportPath(nodes: seq<GraphNode>, edges: seq<GraphEdge>, p: seq<Id>) {
    forall i :: 0 <= i < |p| - 1 ==> ImportsValue(nodes, edges, p[i], p[i + 1])
  }

  /** Value imports of production modules lead from `x` through `y` back to `x`. */
  ghost predicate CycleThrough(nodes: seq<GraphNode>, edges: seq<GraphEdge>, x: Id, y: Id) {
    exists p :: |p| > 1 && p[0] == x == p[|p| - 1] && y in p && ImportPath(nodes, edges, p)
  }

  ghost predicate Together(report: seq<seq<Id>>, x: Id, y: Id) {
    exists k :: 0 <= k < |report| && x in report[k] && y in report[k]
  }

  /** Longer groups come first, equally long ones by their first module; within a group every module
      comes strictly before the next in code-unit order. */
  ghost predicate GroupsOrdered(collate: (Id, Id) -> bool, report: seq<seq<Id>>) {
    && (forall k :: 0 <= k < |report| ==> report[k] != [])
    && (forall k, l :: 0 <= k < l < |report| ==>
          |report[k]| > |report[l]| || (|report[k]| == |report[l]| && collate(report[k][0], report[l][0])))
    && (forall k, i, j :: 0 <= k < |report| && 0 <= i < j < |report[k]| ==>
          report[k][i] != report[k][j] && ReadsBefore(report[k][i], report[k][j]))
  }

  lemma ImportGraphIs(nodes: seq<GraphNode>, edges: seq<GraphEdge>)
    ensures forall x :: x in ImportGraph(nodes, edges).nodes <==> Production(nodes, x)
    ensures forall u, v :: (u, v) in ImportGraph(nodes, edges).edges <==> ImportsValue(nodes, edges, u, v)
  {
    var g := ImportGraph(nodes, edges);
    forall u, v ensures (u, v) in g.edges <==> ImportsValue(nodes, edges, u, v) {
      EdgeIffImports(nodes, edges, u, v);
      if ImportsValue(nodes, edges, u, v) {
        var e :| e in edges && e.source == u && e.target == v && !e.typeOnly;
        assert e == GraphEdge(u, v, false);
      }
    }
  }

  /** Two modules are reported in one group exactly when a cycle of value imports between production
      modules goes through both; a module is reported exactly when one goes through it. */
  lemma TogetherIff(nodes: seq<GraphNode>, edges: seq<GraphEdge>, collate: (Id, Id) -> bool, report: seq<seq<Id>>,
      x: Id, y: Id)
    requires CycleReport(ImportGraph(nodes, edges), collate, report)
    ensures Together(report, x, y) <==> CycleThrough(nodes, edges, x, y)
  {
    hide ImportGraph, Sorted, Reports, Component, OnCycle, Reach, ImportsValue;
    var g := ImportGraph(nodes, edges);
    ImportGraphIs(nodes, edges);
    ImportGraphWellFormed(nodes, edges);
    TogetherComponent(g, collate, report, x, y);
    if x in g.nodes && y in Component(g, x) && OnCycle(g, x) {
      var p := ClosedPath(g, x, y);
      assert ImportPath(nodes, edges, p);
    }
    if CycleThrough(nodes, edges, x, y) {
      var p :| |p| > 1 && p[0] == x == p[|p| - 1] && y in p && ImportPath(nodes, edges, p);
      assert IsPath(g, p);
      OnClosedPath(g, p, y);
    }
  }

  lemma TogetherComponent(g: Graph<Id>, collate: (Id, Id) -> bool, report: seq<seq<Id>>, x: Id, y: Id)
    requires WellFormed(g) && CycleReport(g, collate, report)
    ensures Together(report, x, y) <==> x in g.nodes && y in Component(g, x) && OnCycle(g, x)
  {
    hide Sorted, Reach, Cyclic, OnCycle;
    if Together(report, x, y) {
      var k :| 0 <= k < |report| && x in report[k] && y in report[k];
      assert GroupOf(g, report[k]);
      assert x in Elements(report[k]) && y in Elements(report[k]);
      InComponent(g, report[k][0], x);
      CyclicComponent(g, x);
    }
    if x in g.nodes && y in Component(g, x) && OnCycle(g, x) {
      CyclicComponent(g, x);
      assert Grouped(report, x);
      var k :| 0 <= k < |report| && x in report[k];
      assert GroupOf(g, report[k]) && x in Elements(report[k]);
      InComponent(g, report[k][0], x);
      assert y in Elements(report[k]);
    }
  }

  lemma ClosedPath(g: Graph<Id>, x: Id, y: Id) returns (p: seq<Id>)
    requires WellFormed(g) && x in g.nodes && y in Component(g, x) && OnCycle(g, x)
    ensures |p| > 1 && p[0] == x == p[|p| - 1] && y in p && IsPath(g, p)
  {
    if x == y {
      var z :| (x, z) in g.edges && Reach(g, z, x);
      var q :| IsPath(g, q) && q[0] == z && q[|q| - 1] == x;
      p := [x] + q;
      assert forall i :: 0 < i < |p| - 1 ==> (p[i], p[i + 1]) == (q[i - 1], q[i]);
    } else {
      var q :| IsPath(g, q) && q[0] == x && q[|q| - 1] == y;
      var r :| IsPath(g, r) && r[0] == y && r[|r| - 1] == x;
      p := q + r[1..];
      assert forall i :: |q| - 1 <= i < |p| - 1 ==> (p[i], p[i + 1]) == (r[i - |q| + 1], r[i - |q| + 2]);
      assert p[|q| - 1] == y;
    }
  }

  lemma OnClosedPath(g: Graph<Id>, p: seq<Id>, y: Id)
    requires WellFormed(g) && |p| > 1 && p[0] == p[|p| - 1] && y in p && IsPath(g, p)
    ensures p[0] in g.nodes && y in Component(g, p[0]) && OnCycle(g, p[0])
  {
    var i :| 0 <= i < |p| && p[i] == y;
    assert IsPath(g, p[..i + 1]) && p[..i + 1][i] == y;
    assert IsPath(g, p[i..]) && p[i..][|p| - i - 1] == p[0];
    assert IsPath(g, p[1..]) && p[1..][|p| - 2] == p[0];
    assert (p[0], p[1]) in g.edges;
    if i < |p| - 1 { assert (p[i], p[i + 1]) in g.edges; }
  }

  lemma ReportOrdered(g: Graph<Id>, collate: (Id, Id) -> bool, report: seq<seq<Id>>)
    requires CycleReport(g, collate, report)
    ensures GroupsOrdered(collate, report)
  {
    hide GroupOf, Sorted, ReadsBefore, GroupLe;
    forall k | 0 <= k < |report| ensures report[k] != [] { WithinGroup(g, report[k]); }
    forall k, l | 0 <= k < l < |report|
      ensures |report[k]| > |report[l]| || (|report[k]| == |report[l]| && collate(report[k][0], report[l][0]))
    {
      BetweenGroups(collate, report, k, l);
    }
    forall k, i, j | 0 <= k < |report| && 0 <= i < j < |report[k]|
      ensures report[k][i] != report[k][j] && ReadsBefore(report[k][i], report[k][j])
    {
      WithinGroup(g, report[k]);
    }
  }

  lemma BetweenGroups(collate: (Id, Id) -> bool, report: seq<seq<Id>>, k: nat, l: nat)
    requires Sorted(GroupLe(collate), report) && k < l < |report| && report[k] != [] && report[l] != []
    ensures |report[k]| > |report[l]| || (|report[k]| == |report[l]| && collate(report[k][0], report[l][0]))
  {
    var le, a, b := GroupLe(collate), report[k], report[l];
    assert le(a, b);
    assert Head(a) == a[0] && Head(b) == b[0];
  }

  lemma WithinGroup(g: Graph<Id>, group: seq<Id>)
    requires GroupOf(g, group)
    ensures group != []
    ensures forall i, j :: 0 <= i < j < |group| ==> group[i] != group[j] && ReadsBefore(group[i], group[j])
  {
    hide Component, Cyclic, CodeUnitLe, ReadsBefore;
    forall i, j | 0 <= i < j < |group| ensures group[i] != group[j] && ReadsBefore(group[i], group[j]) {
      CodeUnitMeaning(group[i], group[j]);
    }
  }
}
