/** Reachability rules of the code graph: from each entry module, a breadth-first search over
    runtime imports reports one path to every forbidden module it can reach through permitted ones. */
module EntryRules {
  import opened Ordering
  import opened Digraph
  import opened CycleGroups

  datatype EntryRule = EntryRule(start: Id, name: string, forbidden: Id -> bool)

  /** `path` is what the message joins with arrows. */
  datatype Violation = Violation(rule: string, source: Id, target: Id, path: seq<Id>)

  // ---------------------------------------------------------------- runtime imports

  /** The node a later duplicate of the same id leaves in the lookup table. */
  function NodeOf(nodes: seq<GraphNode>, id: Id): Option<GraphNode> {
    if nodes == [] then None
    else if nodes[|nodes| - 1].id == id then Some(nodes[|nodes| - 1])
    else NodeOf(nodes[..|nodes| - 1], id)
  }

  /** Erased imports and imports of tests are not followed; an unknown target is. */
  predicate RuntimeImport(nodes: seq<GraphNode>, e: GraphEdge) {
    !e.typeOnly && match NodeOf(nodes, e.target) case Some(n) => !n.test case None => true
  }

  function RuntimeGraph(nodes: seq<GraphNode>, edges: seq<GraphEdge>): Graph<Id> {
    var pairs := Pairs(edges, e => RuntimeImport(nodes, e));
    Graph((set p | p in pairs :: p.0) + (set p | p in pairs :: p.1), pairs)
  }

  /** The repository's two rules. */
  function Rules(nodes: seq<GraphNode>): seq<EntryRule> {
    [ EntryRule("platform/bun/src/create-host.ts", "host-without-http",
        id => (match NodeOf(nodes, id) case Some(n) => n.package == "packages/deprecated/http" case None => false)
              || "packages/deprecated/host/src/transport/http/" <= id),
      EntryRule("packages/deprecated/http/src/http.ts", "http-without-agent-runtime",
        id => "packages/deprecated/agent/" <= id &&
              id !in ["packages/deprecated/agent/src/model/access.ts",
                  "packages/deprecated/agent/src/model/reference.ts"]) ]
  }

  // ---------------------------------------------------------------- specification

  function Last(path: seq<Id>): Id
    requires path != []
  {
    path[|path| - 1]
  }

  /** A runtime import path from the entry whose inner modules are all permitted. */
  ghost predicate PermittedPath(g: Graph<Id>, rule: EntryRule, path: seq<Id>) {
    && IsPath(g, path) && path[0] == rule.start
    && forall i :: 0 < i < |path| - 1 ==> !rule.forbidden(path[i])
  }

  /** `path` is a permitted path to `id`, and no permitted path to it is shorter. */
  ghost predicate ShortestTo(g: Graph<Id>, rule: EntryRule, id: Id, path: seq<Id>) {
    && PermittedPath(g, rule, path) && Last(path) == id
    && forall other :: PermittedPath(g, rule, other) && Last(other) == id ==> |path| <= |other|
  }

  /** One report for each forbidden module that permitted imports lead to, with a shortest path. */
  ghost predicate Reported(g: Graph<Id>, rule: EntryRule, vs: seq<Violation>) {
    && (forall v :: v in vs ==>
          && v.rule == rule.name && v.source == rule.start
          && rule.forbidden(v.target) && v.target != rule.start && ShortestTo(g, rule, v.target, v.path))
    && (forall path :: PermittedPath(g, rule, path) && rule.forbidden(Last(path)) && Last(path) != rule.start ==>
          exists v :: v in vs && v.target == Last(path))
    && (forall i, j :: 0 <= i < j < |vs| ==> vs[i].target != vs[j].target)
  }

  // ---------------------------------------------------------------- the search state

  /** `dist` holds the length of the path by which each seen module was found; `expanded` are the
      modules whose imports have all been followed. */
  datatype Walk = Walk(queue: seq<seq<Id>>, seen: set<Id>, vs: seq<Violation>, dist: map<Id, nat>, expanded: set<Id>)

  ghost predicate Found(g: Graph<Id>, rule: EntryRule, dist: map<Id, nat>, path: seq<Id>) {
    PermittedPath(g, rule, path) && Last(path) in dist && dist[Last(path)] == |path| - 1
  }

  ghost predicate Queued(g: Graph<Id>, rule: EntryRule, w: Walk) {
    && (forall i :: 0 <= i < |w.queue| ==>
          && Found(g, rule, w.dist, w.queue[i])
          && Last(w.queue[i]) !in w.expanded
          && (Last(w.queue[i]) == rule.start || !rule.forbidden(Last(w.queue[i]))))
    && (forall i, j :: 0 <= i < j < |w.queue| ==> |w.queue[i]| <= |w.queue[j]| && Last(w.queue[i]) != Last(w.queue[j]))
  }

  ghost predicate Listed(g: Graph<Id>, rule: EntryRule, w: Walk) {
    && (forall v :: v in w.vs ==>
          && v.rule == rule.name && v.source == rule.start && rule.forbidden(v.target) && v.target != rule.start
          && Found(g, rule, w.dist, v.path) && Last(v.path) == v.target)
    && (forall i, j :: 0 <= i < j < |w.vs| ==> w.vs[i].target != w.vs[j].target)
  }

  /** Every seen module is expanded, waiting, reported, or the one being expanded. */
  ghost predicate Accounted(rule: EntryRule, w: Walk, current: set<Id>) {
    && w.seen == w.dist.Keys && rule.start in w.seen && w.dist[rule.start] == 0
    && w.expanded <= w.seen
    && (forall x :: x in w.expanded ==> x == rule.start || !rule.forbidden(x))
    && forall x :: x in w.seen ==>
        || x in w.expanded || x in current
        || (exists i :: 0 <= i < |w.queue| && w.queue[i] != [] && Last(w.queue[i]) == x)
        || (exists v :: v in w.vs && v.target == x)
  }

  /** Following an import from an expanded module never lengthens the known distance by more than one. */
  ghost predicate Relaxed(g: Graph<Id>, rule: EntryRule, w: Walk) {
    forall e :: e in g.edges && e.0 in w.expanded ==>
      e.0 in w.dist && e.1 in w.dist && w.dist[e.1] <= w.dist[e.0] + 1
  }

  ghost predicate Inv(g: Graph<Id>, rule: EntryRule, w: Walk, current: set<Id>) {
    Queued(g, rule, w) && Listed(g, rule, w) && Accounted(rule, w, current) && Relaxed(g, rule, w)
  }

  /** Between expansions: no seen module is further than the front of the queue plus one. */
  ghost predicate Ready(g: Graph<Id>, rule: EntryRule, w: Walk) {
    && Inv(g, rule, w, {})
    && (w.queue != [] ==> w.queue[0] != [] && LevelBound(w, |w.queue[0]|))
  }

  ghost predicate LevelBound(w: Walk, level: nat) {
    && (forall x :: x in w.dist ==> w.dist[x] <= level)
    && (forall i :: 0 <= i < |w.queue| ==> level <= |w.queue[i]| <= level + 1)
  }

  /** While `path` is being extended; imports of its last module in `done` have been followed. */
  ghost predicate Expanding(g: Graph<Id>, rule: EntryRule, w: Walk, path: seq<Id>, done: set<Id>) {
    && path != []
    && Inv(g, rule, w, {Last(path)}) && LevelBound(w, |path|)
    && Found(g, rule, w.dist, path)
    && Last(path) !in w.expanded && (Last(path) == rule.start || !rule.forbidden(Last(path)))
    && (forall i :: 0 <= i < |w.queue| ==> w.queue[i] != [] && Last(w.queue[i]) != Last(path))
    && (forall x :: x in done ==> x in w.dist)
  }

  // ---------------------------------------------------------------- one lemma per step

  lemma Begins(g: Graph<Id>, rule: EntryRule)
    ensures Ready(g, rule, Walk([[rule.start]], {rule.start}, [], map[rule.start := 0], {}))
  {
    var w := Walk([[rule.start]], {rule.start}, [], map[rule.start := 0], {});
    assert PermittedPath(g, rule, [rule.start]);
    assert w.queue[0] == [rule.start];
  }

  lemma Dequeues(g: Graph<Id>, rule: EntryRule, w: Walk)
    requires Ready(g, rule, w) && w.queue != []
    ensures Expanding(g, rule, w.(queue := w.queue[1..]), w.queue[0], {})
  {
    var t, path := w.(queue := w.queue[1..]), w.queue[0];
    hide Relaxed, Listed;
    assert Relaxed(g, rule, t) by { assert t.expanded == w.expanded && t.dist == w.dist; }
    DequeueAccounts(rule, w);
    hide Accounted, Found;
    assert forall i :: 0 <= i < |t.queue| ==> t.queue[i] == w.queue[i + 1];
  }

  lemma DequeueAccounts(rule: EntryRule, w: Walk)
    requires Accounted(rule, w, {}) && w.queue != [] && w.queue[0] != []
    ensures Accounted(rule, w.(queue := w.queue[1..]), {Last(w.queue[0])})
  {
    var t := w.(queue := w.queue[1..]);
    forall i | 0 < i < |w.queue| && w.queue[i] != []
      ensures exists j :: 0 <= j < |t.queue| && t.queue[j] != [] && Last(t.queue[j]) == Last(w.queue[i])
    {
      assert t.queue[i - 1] == w.queue[i];
    }
  }

  function Discover(rule: EntryRule, w: Walk, path: seq<Id>, target: Id): Walk {
    var next := path + [target];
    var w' := w.(seen := w.seen + {target}, dist := w.dist[target := |path|]);
    if rule.forbidden(target) then w'.(vs := w.vs + [Violation(rule.name, rule.start, target, next)])
    else w'.(queue := w.queue + [next])
  }

  lemma Discovers(g: Graph<Id>, rule: EntryRule, w: Walk, path: seq<Id>, done: set<Id>, target: Id)
    requires Expanding(g, rule, w, path, done)
    requires (Last(path), target) in g.edges && target !in w.seen
    ensures Expanding(g, rule, Discover(rule, w, path, target), path, done + {target})
  {
    hide Queued, Listed, Accounted, Relaxed, Found, PermittedPath;
    AccountedFacts(rule, w, {Last(path)});
    DiscoverFinds(g, rule, w, path, target);
    DiscoverAccounts(rule, w, path, target);
    DiscoverQueues(g, rule, w, path, target);
    DiscoverLists(g, rule, w, path, target);
    DiscoverRelaxes(g, rule, w, path, target);
    assert Last(path + [target]) == target;
  }

  lemma AccountedFacts(rule: EntryRule, w: Walk, current: set<Id>)
    requires Accounted(rule, w, current)
    ensures w.seen == w.dist.Keys && w.expanded <= w.dist.Keys && rule.start in w.dist && w.dist[rule.start] == 0
  {}

  lemma DiscoverFinds(g: Graph<Id>, rule: EntryRule, w: Walk, path: seq<Id>, target: Id)
    requires path != [] && Found(g, rule, w.dist, path) && (Last(path) == rule.start || !rule.forbidden(Last(path)))
    requires (Last(path), target) in g.edges && target !in w.dist && rule.start in w.dist && w.dist[rule.start] == 0
    ensures var dist := Discover(rule, w, path, target).dist;
      && Found(g, rule, dist, path + [target])
      && forall p :: Found(g, rule, w.dist, p) ==> Found(g, rule, dist, p) && Last(p) != target
  {
    assert Last(path + [target]) == target;
    assert PermittedPath(g, rule, path + [target]);
    hide PermittedPath;
  }

  lemma DiscoverRelaxes(g: Graph<Id>, rule: EntryRule, w: Walk, path: seq<Id>, target: Id)
    requires Relaxed(g, rule, w) && target !in w.dist
    ensures Relaxed(g, rule, Discover(rule, w, path, target))
  {}

  lemma DiscoverAccounts(rule: EntryRule, w: Walk, path: seq<Id>, target: Id)
    requires path != [] && Accounted(rule, w, {Last(path)}) && target !in w.seen
    ensures Accounted(rule, Discover(rule, w, path, target), {Last(path)})
  {
    var t, next := Discover(rule, w, path, target), path + [target];
    if rule.forbidden(target) {
      assert t.vs[|w.vs|].target == target;
    } else {
      assert t.queue[|w.queue|] == next && Last(next) == target;
      assert forall i :: 0 <= i < |w.queue| ==> t.queue[i] == w.queue[i];
    }
    assert forall v :: v in w.vs ==> v in t.vs;
  }

  lemma DiscoverQueues(g: Graph<Id>, rule: EntryRule, w: Walk, path: seq<Id>, target: Id)
    requires path != [] && Queued(g, rule, w) && LevelBound(w, |path|)
    requires w.expanded <= w.dist.Keys && target !in w.dist
    requires var dist := Discover(rule, w, path, target).dist;
      Found(g, rule, dist, path + [target]) && forall p :: Found(g, rule, w.dist, p) ==>
          Found(g, rule, dist, p) && Last(p) != target
    ensures Queued(g, rule, Discover(rule, w, path, target)) && LevelBound(Discover(rule, w, path, target), |path|)
  {
    hide Found;
    var t, n := Discover(rule, w, path, target), |w.queue|;
    assert forall i :: 0 <= i < n ==> t.queue[i] == w.queue[i];
    assert !rule.forbidden(target) ==> t.queue[n] == path + [target];
  }

  lemma DiscoverLists(g: Graph<Id>, rule: EntryRule, w: Walk, path: seq<Id>, target: Id)
    requires path != [] && Listed(g, rule, w) && target !in w.dist && rule.start in w.dist
    requires var dist := Discover(rule, w, path, target).dist;
      Found(g, rule, dist, path + [target]) && forall p :: Found(g, rule, w.dist, p) ==>
          Found(g, rule, dist, p) && Last(p) != target
    ensures Listed(g, rule, Discover(rule, w, path, target))
  {
    hide Found;
    assert forall v :: v in w.vs ==> v.target != target;
  }

  function Close(w: Walk, id: Id): Walk {
    w.(expanded := w.expanded + {id})
  }

  lemma Closes(g: Graph<Id>, rule: EntryRule, w: Walk, path: seq<Id>, done: set<Id>)
    requires Expanding(g, rule, w, path, done)
    requires forall e :: e in g.edges && e.0 == Last(path) ==> e.1 in done
    ensures Ready(g, rule, Close(w, Last(path)))
  {
    hide Listed, PermittedPath, Relaxed, Accounted;
    var t := Close(w, Last(path));
    CloseAccounts(rule, w, Last(path));
    CloseRelaxes(g, rule, w, path, done);
    assert Listed(g, rule, t) by { CloseLists(g, rule, w, Last(path)); }
    assert t.queue != [] ==> |path| <= |t.queue[0]|;
    hide Found;
  }

  lemma CloseAccounts(rule: EntryRule, w: Walk, id: Id)
    requires Accounted(rule, w, {id}) && id in w.dist && (id == rule.start || !rule.forbidden(id))
    ensures Accounted(rule, Close(w, id), {})
  {}

  lemma CloseLists(g: Graph<Id>, rule: EntryRule, w: Walk, id: Id)
    requires Listed(g, rule, w)
    ensures Listed(g, rule, Close(w, id))
  {
    hide Found;
  }

  lemma CloseRelaxes(g: Graph<Id>, rule: EntryRule, w: Walk, path: seq<Id>, done: set<Id>)
    requires path != [] && Relaxed(g, rule, w) && Found(g, rule, w.dist, path) && LevelBound(w, |path|)
    requires forall e :: e in g.edges && e.0 == Last(path) ==> e.1 in done
    requires forall x :: x in done ==> x in w.dist
    ensures Relaxed(g, rule, Close(w, Last(path)))
  {
    hide PermittedPath;
  }

  /** Once nothing waits, every permitted path is as long as the recorded distance. */
  lemma {:induction false} Covers(g: Graph<Id>, rule: EntryRule, w: Walk, path: seq<Id>)
    requires Inv(g, rule, w, {}) && w.queue == []
    requires PermittedPath(g, rule, path)
    ensures Last(path) in w.dist && w.dist[Last(path)] <= |path| - 1
    decreases |path|
  {
    if |path| > 1 {
      var prefix := path[..|path| - 1];
      assert forall i :: 0 <= i < |prefix| - 1 ==> (prefix[i], prefix[i + 1]) == (path[i], path[i + 1]);
      assert PermittedPath(g, rule, prefix);
      Covers(g, rule, w, prefix);
      var x := Last(prefix);
      assert (x, Last(path)) in g.edges;
      assert x == path[|path| - 2];
      assert x == rule.start || !rule.forbidden(x);
      assert x in w.expanded;
    }
  }

  lemma Completes(g: Graph<Id>, rule: EntryRule, w: Walk)
    requires Inv(g, rule, w, {}) && w.queue == []
    ensures Reported(g, rule, w.vs)
  {
    forall v | v in w.vs ensures ShortestTo(g, rule, v.target, v.path) {
      forall other | PermittedPath(g, rule, other) && Last(other) == v.target ensures |v.path| <= |other| {
        Covers(g, rule, w, other);
      }
    }
    forall path | PermittedPath(g, rule, path) && rule.forbidden(Last(path)) && Last(path) != rule.start
      ensures exists v :: v in w.vs && v.target == Last(path)
    {
      Covers(g, rule, w, path);
      ForbiddenReported(g, rule, w, Last(path));
    }
  }

  lemma ForbiddenReported(g: Graph<Id>, rule: EntryRule, w: Walk, id: Id)
    requires Inv(g, rule, w, {}) && w.queue == [] && id in w.dist && rule.forbidden(id) && id != rule.start
    ensures exists v :: v in w.vs && v.target == id
  {}

  // ---------------------------------------------------------------- the search

  method Search(outgoing: Adjacency, rule: EntryRule, ghost g: Graph<Id>) returns (vs: seq<Violation>)
    requires WellFormed(g) && Represents(outgoing, g.edges)
    ensures Reported(g, rule, vs)
  {
    hide Inv, Expanding, PermittedPath, Found;
    var queue, seen := [[rule.start]], {rule.start};
    vs := [];
    ghost var dist: map<Id, nat>, expanded: set<Id> := map[rule.start := 0], {};
    ghost var universe := g.nodes + {rule.start};
    Begins(g, rule);
    while queue != []
      invariant Ready(g, rule, Walk(queue, seen, vs, dist, expanded))
      invariant seen <= universe && expanded <= universe
      decreases universe - expanded
    {
      ghost var before := Walk(queue, seen, vs, dist, expanded);
      var path := queue[0];
      queue := queue[1..];
      var last := Last(path);
      Dequeues(g, rule, before);
      var targets := Targets(outgoing, last);
      ghost var done: set<Id> := {};
      for i := 0 to |targets|
        invariant Expanding(g, rule, Walk(queue, seen, vs, dist, expanded), path, done)
        invariant done == Elements(targets[..i]) && seen <= universe
      {
        ghost var w := Walk(queue, seen, vs, dist, expanded);
        var target := targets[i];
        assert (last, target) in g.edges;
        assert Elements(targets[..i + 1]) == done + {target};
        Follows(g, rule, w, path, done, target);
        if target !in seen {
          seen := seen + {target};
          var next := path + [target];
          dist := dist[target := |path|];
          if rule.forbidden(target) {
            vs := vs + [Violation(rule.name, rule.start, target, next)];
          } else {
            queue := queue + [next];
          }
        }
        done := done + {target};
      }
      assert targets[..|targets|] == targets;
      Closes(g, rule, Walk(queue, seen, vs, dist, expanded), path, done);
      Unexpanded(g, rule, Walk(queue, seen, vs, dist, expanded), path, done);
      expanded := expanded + {last};
    }
    Completes(g, rule, Walk(queue, seen, vs, dist, expanded));
  }

  lemma Follows(g: Graph<Id>, rule: EntryRule, w: Walk, path: seq<Id>, done: set<Id>, target: Id)
    requires Expanding(g, rule, w, path, done) && (Last(path), target) in g.edges
    ensures target in w.seen ==> Expanding(g, rule, w, path, done + {target})
    ensures target !in w.seen ==> Expanding(g, rule, Discover(rule, w, path, target), path, done + {target})
  {
    if target !in w.seen {
      Discovers(g, rule, w, path, done, target);
    } else {
      hide Queued, Listed, Relaxed, Found;
    }
  }

  lemma Unexpanded(g: Graph<Id>, rule: EntryRule, w: Walk, path: seq<Id>, done: set<Id>)
    requires Expanding(g, rule, w, path, done)
    ensures Last(path) !in w.expanded && Last(path) in w.seen
  {
    hide Queued, Listed, Relaxed, PermittedPath;
  }

  /** The two entry rules of `boundaryViolations`. */
  method EntryViolations(nodes: seq<GraphNode>, edges: seq<GraphEdge>) returns (violations: seq<Violation>)
    ensures RulesReported(RuntimeGraph(nodes, edges), Rules(nodes), violations)
    ensures Flagged(nodes, edges, violations, "host-without-http", HOST_ENTRY, x => OfHttp(nodes, x))
    ensures Flagged(nodes, edges, violations, "http-without-agent-runtime", HTTP_ENTRY, OfAgentRuntime)
    ensures forall v :: v in violations ==> v.rule in ["host-without-http", "http-without-agent-runtime"]
  {
    hide RulesReported, Rules, Flagged;
    violations := ViolationsOf(nodes, edges, Rules(nodes));
    FlaggedByRules(nodes, edges, violations);
  }

  /** Rules that walk runtime imports, one after another. */
  method ViolationsOf(nodes: seq<GraphNode>, edges: seq<GraphEdge>, rules: seq<EntryRule>)
    returns (violations: seq<Violation>)
    ensures RulesReported(RuntimeGraph(nodes, edges), rules, violations)
  {
    hide Reported;
    ghost var g, parts: seq<seq<Violation>> := RuntimeGraph(nodes, edges), [];
    var outgoing := GroupTargets(edges, e => RuntimeImport(nodes, e));
    violations := [];
    for k := 0 to |rules|
      invariant |parts| == k && violations == Flatten(parts)
      invariant forall j :: 0 <= j < k ==> Reported(g, rules[j], parts[j])
    {
      var found := Search(outgoing, rules[k], g);
      assert (parts + [found])[..k] == parts;
      violations, parts := violations + found, parts + [found];
    }
    assert PartReported(g, rules, violations, parts);
  }

  /** The violations are those of each rule, one rule after another. */
  ghost predicate RulesReported(g: Graph<Id>, rules: seq<EntryRule>, violations: seq<Violation>) {
    exists parts :: PartReported(g, rules, violations, parts)
  }

  ghost predicate PartReported(g: Graph<Id>, rules: seq<EntryRule>, violations: seq<Violation>,
      parts: seq<seq<Violation>>) {
    && |parts| == |rules| && violations == Flatten(parts)
    && forall k :: 0 <= k < |rules| ==> Reported(g, rules[k], parts[k])
  }

  // ---------------------------------------------------------------- what the reports mean

  /** A rule is silent exactly when no forbidden module other than the entry is reachable at all,
      through permitted modules or not. */
  lemma SilentIffUnreachable(g: Graph<Id>, rule: EntryRule, vs: seq<Violation>)
    requires Reported(g, rule, vs)
    ensures vs == [] <==> forall x :: rule.forbidden(x) && x != rule.start ==> !Reach(g, rule.start, x)
  {
    if vs != [] {
      var v := vs[0];
      assert ShortestTo(g, rule, v.target, v.path);
      assert Reach(g, rule.start, v.target);
    }
    forall x | rule.forbidden(x) && x != rule.start && Reach(g, rule.start, x) ensures vs != [] {
      var p :| IsPath(g, p) && p[0] == rule.start && p[|p| - 1] == x;
      var q := FirstForbidden(g, rule, p);
    }
  }

  /** A path to a forbidden module starts with a permitted path to its first forbidden module. */
  lemma {:induction false} FirstForbidden(g: Graph<Id>, rule: EntryRule, p: seq<Id>) returns (q: seq<Id>)
    requires IsPath(g, p) && p[0] == rule.start && rule.forbidden(Last(p)) && Last(p) != rule.start
    ensures PermittedPath(g, rule, q) && rule.forbidden(Last(q)) && Last(q) != rule.start
    decreases |p|
  {
    if i :| 0 < i < |p| - 1 && rule.forbidden(p[i]) {
      if p[i] == rule.start {
        assert forall j :: 0 <= j < |p[i..]| - 1 ==> (p[i..][j], p[i..][j + 1]) == (p[i + j], p[i + j + 1]);
        q := FirstForbidden(g, rule, p[i..]);
      } else {
        assert forall j :: 0 <= j < i ==> (p[..i + 1][j], p[..i + 1][j + 1]) == (p[j], p[j + 1]);
        q := FirstForbidden(g, rule, p[..i + 1]);
      }
    } else {
      q := p;
    }
  }

  // ---------------------------------------------------------------- the reports over the input

  const HOST_ENTRY := "platform/bun/src/create-host.ts"
  const HTTP_ENTRY := "packages/deprecated/http/src/http.ts"

  /** The last of the nodes with this id. */
  ghost predicate LastWith(nodes: seq<GraphNode>, id: Id, n: GraphNode) {
    exists i :: 0 <= i < |nodes| && nodes[i] == n && n.id == id && forall j :: i < j < |nodes| ==> nodes[j].id != id
  }

  /** An import that is not erased, of something that is not a test. */
  ghost predicate Followed(nodes: seq<GraphNode>, edges: seq<GraphEdge>, u: Id, v: Id) {
    && (exists e :: e in edges && e.source == u && e.target == v && !e.typeOnly)
    && !(exists n :: LastWith(nodes, v, n) && n.test)
  }

  ghost predicate FollowedPath(nodes: seq<GraphNode>, edges: seq<GraphEdge>, path: seq<Id>) {
    path != [] && forall i :: 0 <= i < |path| - 1 ==> Followed(nodes, edges, path[i], path[i + 1])
  }

  ghost predicate OfHttp(nodes: seq<GraphNode>, x: Id) {
    || (exists n :: LastWith(nodes, x, n) && n.package == "packages/deprecated/http")
    || "packages/deprecated/host/src/transport/http/" <= x
  }

  predicate OfAgentRuntime(x: Id) {
    && "packages/deprecated/agent/" <= x
    && x != "packages/deprecated/agent/src/model/access.ts" && x != "packages/deprecated/agent/src/model/reference.ts"
  }

  ghost predicate PathTo(nodes: seq<GraphNode>, edges: seq<GraphEdge>, start: Id, forbidden: Id -> bool, x: Id,
      path: seq<Id>) {
    && FollowedPath(nodes, edges, path) && path[0] == start && Last(path) == x
    && forall i :: 0 < i < |path| - 1 ==> !forbidden(path[i])
  }

  /** A forbidden module other than the entry is reported under `name` exactly when followed imports lead
      to it through modules that are not forbidden; the reported path is such a path and none is shorter. */
  ghost predicate Flagged(nodes: seq<GraphNode>, edges: seq<GraphEdge>, vs: seq<Violation>, name: string, start: Id,
      forbidden: Id -> bool) {
    && (forall x :: (exists v :: v in vs && v.rule == name && v.target == x) <==>
          forbidden(x) && x != start && exists path :: PathTo(nodes, edges, start, forbidden, x, path))
    && (forall v, path :: v in vs && v.rule == name && PathTo(nodes, edges, start, forbidden, v.target, path) ==>
          |v.path| <= |path|)
    && (forall v :: v in vs && v.rule == name ==>
          v.source == start && PathTo(nodes, edges, start, forbidden, v.target, v.path))
  }

  lemma {:induction false} NodeOfIs(nodes: seq<GraphNode>, id: Id)
    ensures forall n :: NodeOf(nodes, id) == Some(n) <==> LastWith(nodes, id, n)
  {
    if nodes != [] {
      var prefix, last := nodes[..|nodes| - 1], nodes[|nodes| - 1];
      NodeOfIs(prefix, id);
      assert forall i :: 0 <= i < |prefix| ==> prefix[i] == nodes[i];
      if last.id == id {
        assert LastWith(nodes, id, last);
      } else {
        forall n ensures LastWith(prefix, id, n) <==> LastWith(nodes, id, n) {
          if i :| 0 <= i < |prefix| && prefix[i] == n && n.id == id && forall j :: i < j < |prefix| ==>
              prefix[j].id != id {
            assert nodes[i] == n;
          }
        }
      }
    }
  }

  lemma RuntimeGraphIs(nodes: seq<GraphNode>, edges: seq<GraphEdge>)
    ensures forall u, v :: (u, v) in RuntimeGraph(nodes, edges).edges <==> Followed(nodes, edges, u, v)
  {
    hide NodeOf, LastWith;
    forall u, v ensures (u, v) in RuntimeGraph(nodes, edges).edges <==> Followed(nodes, edges, u, v) {
      NodeOfIs(nodes, v);
      if (u, v) in RuntimeGraph(nodes, edges).edges {
        var e :| e in edges && RuntimeImport(nodes, e) && (e.source, e.target) == (u, v);
      }
      if Followed(nodes, edges, u, v) {
        var e :| e in edges && e.source == u && e.target == v && !e.typeOnly;
        assert RuntimeImport(nodes, e) by {
          if NodeOf(nodes, v).Some? { assert LastWith(nodes, v, NodeOf(nodes, v).value);
          }
        }
        assert (e.source, e.target) == (u, v);
      }
    }
  }

  lemma FlaggedByRules(nodes: seq<GraphNode>, edges: seq<GraphEdge>, vs: seq<Violation>)
    requires RulesReported(RuntimeGraph(nodes, edges), Rules(nodes), vs)
    ensures Flagged(nodes, edges, vs, "host-without-http", HOST_ENTRY, x => OfHttp(nodes, x))
    ensures Flagged(nodes, edges, vs, "http-without-agent-runtime", HTTP_ENTRY, OfAgentRuntime)
    ensures forall v :: v in vs ==> v.rule in ["host-without-http", "http-without-agent-runtime"]
  {
    hide Reported, NodeOf, LastWith, RuntimeGraph, Flagged;
    var g, rules := RuntimeGraph(nodes, edges), Rules(nodes);
    var parts :| PartReported(g, rules, vs, parts);
    assert parts == [parts[0], parts[1]];
    FlattenTwo(parts[0], parts[1]);
    RuleNames(g, rules[0], parts[0]);
    RuleNames(g, rules[1], parts[1]);
    forall x ensures rules[0].forbidden(x) <==> OfHttp(nodes, x) {
      NodeOfIs(nodes, x);
      if NodeOf(nodes, x).Some? { assert LastWith(nodes, x, NodeOf(nodes, x).value); }
    }
    PartFlagged(nodes, edges, rules[0], vs, parts[0], parts[1], x => OfHttp(nodes, x));
    PartFlagged(nodes, edges, rules[1], vs, parts[1], parts[0], OfAgentRuntime);
  }

  lemma FlattenTwo<T>(a: seq<T>, b: seq<T>)
    ensures Flatten([a, b]) == a + b
  {
    assert [a, b][..1] == [a] && [a][..0] == [];
    assert Flatten([a]) == a;
  }

  lemma RuleNames(g: Graph<Id>, rule: EntryRule, part: seq<Violation>)
    requires Reported(g, rule, part)
    ensures forall v :: v in part ==> v.rule == rule.name
  {}

  lemma PartFlagged(nodes: seq<GraphNode>, edges: seq<GraphEdge>, rule: EntryRule, vs: seq<Violation>,
      part: seq<Violation>, other: seq<Violation>, forbidden: Id -> bool)
    requires Reported(RuntimeGraph(nodes, edges), rule, part)
    requires forall v :: v in vs <==> v in part || v in other
    requires forall v :: v in other ==> v.rule != rule.name
    requires forall x :: rule.forbidden(x) <==> forbidden(x)
    ensures Flagged(nodes, edges, vs, rule.name, rule.start, forbidden)
  {
    var g := RuntimeGraph(nodes, edges);
    RuntimeGraphIs(nodes, edges);
    hide RuntimeGraph, Followed;
    forall x, path
      ensures PathTo(nodes, edges, rule.start, forbidden, x, path) <==> PermittedPath(g, rule, path) && Last(path) == x
    {
    }
    hide PathTo, PermittedPath;
    forall v | v in vs && v.rule == rule.name
      ensures v in part && v.source == rule.start && PathTo(nodes, edges, rule.start, forbidden, v.target, v.path)
      ensures rule.forbidden(v.target) && v.target != rule.start && ShortestTo(g, rule, v.target, v.path)
    {
    }
    forall x
      ensures (exists v :: v in vs && v.rule == rule.name && v.target == x) <==>
        forbidden(x) && x != rule.start && exists path :: PathTo(nodes, edges, rule.start, forbidden, x, path)
    {
      if path :| PathTo(nodes, edges, rule.start, forbidden, x, path) && forbidden(x) && x != rule.start {
        var v :| v in part && v.target == x;
        assert v in vs && v.rule == rule.name;
      }
    }
  }
}
