/** The thread tree of one actor: registered threads arranged below their parents, within bounds on
    where the walk starts, how deep it goes and how many threads it builds. */
module ThreadTree {
  import opened Digraph
  import opened Ordering

  const LEGACY_PREFIX := "ag."

  /** `publicThreadId`: legacy names lose one prefix, every other name is kept. */
  function PublicThreadId(thread: string): string {
    if LEGACY_PREFIX <= thread then thread[|LEGACY_PREFIX|..] else thread
  }

  /** Two stored names share a public id exactly when one is the other behind one legacy prefix and
      the shorter has no such prefix itself. */
  lemma PublicIdCollision(a: string, b: string)
    requires a != b
    ensures PublicThreadId(a) == PublicThreadId(b) <==>
      || (a == LEGACY_PREFIX + b && !(LEGACY_PREFIX <= b))
      || (b == LEGACY_PREFIX + a && !(LEGACY_PREFIX <= a))
  {
    if LEGACY_PREFIX <= a { assert a == LEGACY_PREFIX + a[|LEGACY_PREFIX|..]; }
    if LEGACY_PREFIX <= b { assert b == LEGACY_PREFIX + b[|LEGACY_PREFIX|..]; }
  }

  datatype Row = Row(thread: string, parentThread: Option<string>, depth: int, placement: Option<string>)
  datatype Entry = Entry(id: string, parent: Option<string>, depth: int, placement: Option<string>)
  datatype Tree = Tree(entry: Entry, children: seq<Tree>)
  datatype Bounds = Bounds(root: Option<string>, maxDepth: Option<int>, maxNodes: Option<int>)
  datatype Answer = Trees(trees: seq<Tree>) | UnknownRoot | Ambiguous | Cycle | Orphan

  const NO_BOUNDS := Bounds(None, None, None)

  type Roster = map<string, Entry>

  // ---------------------------------------------------------------- the roster

  function EntryOf(row: Row): Entry {
    Entry(PublicThreadId(row.thread),
          if row.parentThread.None? then None else Some(PublicThreadId(row.parentThread.value)),
          row.depth, row.placement)
  }

  predicate WellKeyed(roster: Roster) {
    forall id :: id in roster ==> roster[id].id == id
  }

  ghost predicate DistinctIds(rows: seq<Row>) {
    forall i, j :: 0 <= i < j < |rows| ==> PublicThreadId(rows[i].thread) != PublicThreadId(rows[j].thread)
  }

  function RosterOf(rows: seq<Row>): (roster: Roster)
    ensures WellKeyed(roster)
    ensures forall id :: id in roster <==> exists i :: 0 <= i < |rows| && PublicThreadId(rows[i].thread) == id
  {
    if rows == [] then map[]
    else
      var last := EntryOf(rows[|rows| - 1]);
      RosterOf(rows[..|rows| - 1])[last.id := last]
  }

  ghost function ChildSet(roster: Roster, parent: Option<string>): set<string> {
    set id | id in roster && roster[id].parent == parent
  }

  /** The threads below `parent`, or the roots, in code-unit order. */
  ghost function Kids(roster: Roster, parent: Option<string>): (kids: seq<string>)
    ensures Distinct(kids) && forall id :: id in kids <==> id in roster && roster[id].parent == parent
  {
    CodeUnitOrder();
    var kids := Listing(CodeUnitLe, ChildSet(roster, parent));
    assert forall id :: id in kids <==> id in Elements(kids);
    kids
  }

  // ---------------------------------------------------------------- what a read returns

  /** The trees below `ids`, `d` levels deep. */
  ghost function Unroll(roster: Roster, ids: seq<string>, d: nat): (ts: seq<Tree>)
    requires forall id :: id in ids ==> id in roster
    decreases d, |ids|
  {
    if ids == [] then []
    else
      [Tree(roster[ids[0]], if d == 0 then [] else Unroll(roster, Kids(roster, Some(ids[0])), d - 1))]
      + Unroll(roster, ids[1..], d)
  }

  function Preorder(ts: seq<Tree>): seq<string> {
    if ts == [] then [] else [ts[0].entry.id] + Preorder(ts[0].children) + Preorder(ts[1..])
  }

  function Size(ts: seq<Tree>): nat {
    if ts == [] then 0 else 1 + Size(ts[0].children) + Size(ts[1..])
  }

  /** Some thread stands below itself, or below one of `ancestors` it belongs to. */
  predicate Repeats(ts: seq<Tree>, ancestors: set<string>) {
    ts != [] &&
    (|| ts[0].entry.id in ancestors
     || Repeats(ts[0].children, ancestors + {ts[0].entry.id})
     || Repeats(ts[1..], ancestors))
  }

  function Left(cap: Option<int>, used: nat): Option<int> {
    if cap.None? then None else Some(cap.value - used)
  }

  predicate Spent(cap: Option<int>) {
    cap.Some? && cap.value <= 0
  }

  /** The first threads of `ts` in preorder, as many as `cap` allows. */
  function Take(cap: Option<int>, ts: seq<Tree>): seq<Tree>
    decreases ts
  {
    if ts == [] || Spent(cap) then []
    else
      var first := Tree(ts[0].entry, Take(Left(cap, 1), ts[0].children));
      [first] + Take(Left(cap, 1 + Size(first.children)), ts[1..])
  }

  /** Levels left to build. A path longer than the roster repeats a thread, so without a bound the
      roster's size is enough. */
  function Remaining(roster: Roster, maxDepth: Option<int>, level: nat): nat {
    var limit := if maxDepth.None? then |roster| else maxDepth.value;
    if level < limit then limit - level else 0
  }

  ghost function Planned(roster: Roster, bounds: Bounds, ids: seq<string>, level: nat, built: nat): seq<Tree>
    requires forall id :: id in ids ==> id in roster
  {
    Take(Left(bounds.maxNodes, built), Unroll(roster, ids, Remaining(roster, bounds.maxDepth, level)))
  }

  ghost function Starts(roster: Roster, root: Option<string>): seq<string> {
    if root.None? then Kids(roster, None) else [root.value]
  }

  /** What `threadTreeOf` answers. */
  ghost function TreeOf(rows: seq<Row>, bounds: Bounds): Answer {
    var roster := RosterOf(rows);
    if !DistinctIds(rows) then Ambiguous
    else if bounds.root.Some? && bounds.root.value !in roster then UnknownRoot
    else
      var trees := Planned(roster, bounds, Starts(roster, bounds.root), 0, 0);
      if Repeats(trees, {}) then Cycle
      else if bounds == NO_BOUNDS && Elements(Preorder(trees)) != roster.Keys then Orphan
      else Trees(trees)
  }

  // ---------------------------------------------------------------- indexing the rows

  function ChildrenOf(children: map<string, seq<string>>, parent: string): seq<string> {
    if parent in children then children[parent] else []
  }

  ghost predicate Holds(ids: seq<string>, members: set<string>) {
    Distinct(ids) && Elements(ids) == members
  }

  ghost predicate Indexed(roster: Roster, children: map<string, seq<string>>, roots: seq<string>) {
    && WellKeyed(roster)
    && Holds(roots, ChildSet(roster, None))
    && forall p :: Holds(ChildrenOf(children, p), ChildSet(roster, Some(p)))
  }

  lemma HoldsMore(ids: seq<string>, members: set<string>, id: string)
    requires Holds(ids, members) && id !in members
    ensures Holds(ids + [id], members + {id})
  {
    forall i | 0 <= i < |ids| ensures ids[i] != id { assert ids[i] in Elements(ids); }
    assert forall x :: x in ids + [id] <==> x in Elements(ids) || x == id;
  }

  lemma IndexRow(roster: Roster, children: map<string, seq<string>>, roots: seq<string>, entry: Entry)
    requires Indexed(roster, children, roots) && entry.id !in roster
    ensures entry.parent.None? ==> Indexed(roster[entry.id := entry], children, roots + [entry.id])
    ensures entry.parent.Some? ==> var p := entry.parent.value;
      Indexed(roster[entry.id := entry], children[p := ChildrenOf(children, p) + [entry.id]], roots)
  {
    var next := roster[entry.id := entry];
    assert forall p :: p != entry.parent ==> ChildSet(next, p) == ChildSet(roster, p);
    assert ChildSet(next, entry.parent) == ChildSet(roster, entry.parent) + {entry.id};
    HoldsMore(if entry.parent.None? then roots
        else ChildrenOf(children, entry.parent.value), ChildSet(roster, entry.parent), entry.id);
    hide Holds, ChildSet;
  }

  /** Sorting the collected children of a parent lists them in code-unit order. */
  lemma SortedKids(roster: Roster, ids: seq<string>, parent: Option<string>)
    requires Holds(ids, ChildSet(roster, parent))
    ensures SortBy(CodeUnitLe, ids) == Kids(roster, parent)
  {
    CodeUnitOrder();
    SortLists(CodeUnitLe, ids);
    ListingUnique(CodeUnitLe, SortBy(CodeUnitLe, ids), Listing(CodeUnitLe, ChildSet(roster, parent)),
        ChildSet(roster, parent));
  }

  lemma RosterEmpty()
    ensures RosterOf([]) == map[] && DistinctIds([])
  {}

  lemma RosterStep(rows: seq<Row>, i: nat)
    requires i < |rows|
    ensures var entry := EntryOf(rows[i]);
      && RosterOf(rows[..i + 1]) == RosterOf(rows[..i])[entry.id := entry]
      && (DistinctIds(rows[..i]) ==> (DistinctIds(rows[..i + 1]) <==> entry.id !in RosterOf(rows[..i])))
      && (DistinctIds(rows) ==> DistinctIds(rows[..i + 1]))
  {
    assert rows[..i + 1][..i] == rows[..i];
    var prefix, next := rows[..i], rows[..i + 1];
    if EntryOf(rows[i]).id in RosterOf(prefix) {
      var j :| 0 <= j < i && PublicThreadId(prefix[j].thread) == EntryOf(rows[i]).id;
      assert next[j] == prefix[j] && next[i] == rows[i];
    } else if DistinctIds(prefix) {
      forall a, b | 0 <= a < b < |next| ensures PublicThreadId(next[a].thread) != PublicThreadId(next[b].thread) {
        assert next[a] == prefix[a];
        if b < i { assert next[b] == prefix[b]; }
      }
    }
  }

  lemma WellKeyedEntry(roster: Roster, children: map<string, seq<string>>, roots: seq<string>, id: string)
    requires Indexed(roster, children, roots) && id in roster
    ensures roster[id].id == id
  {}

  // ---------------------------------------------------------------- the walk

  datatype Walk = Stopped | Failed | Node(tree: Tree)
  datatype Walks = Broken | Nodes(trees: seq<Tree>)

  lemma FullAncestors(roster: Roster, ancestors: set<string>, id: string)
    requires ancestors <= roster.Keys && id in roster && id !in ancestors
    ensures |ancestors| < |roster| && |ancestors + {id}| == |ancestors| + 1
  {
    Bigger(ancestors + {id}, roster.Keys);
  }

  lemma UnrollStep(roster: Roster, ids: seq<string>, d: nat)
    requires ids != [] && forall id :: id in ids ==> id in roster
    ensures var all := Unroll(roster, ids, d);
      all != [] && Unroll(roster, [ids[0]], d) == [all[0]] && all[1..] == Unroll(roster, ids[1..], d)
  {
    hide Kids;
    assert [ids[0]][1..] == [] && Unroll(roster, [], d) == [];
  }

  /** A planned list is its first tree, planned alone, followed by the rest planned with what is left. */
  lemma PlannedStep(roster: Roster, bounds: Bounds, ids: seq<string>, level: nat, built: nat)
    requires ids != [] && forall id :: id in ids ==> id in roster
    ensures var head := Planned(roster, bounds, [ids[0]], level, built);
      && (Spent(Left(bounds.maxNodes, built)) ==> Planned(roster, bounds, ids, level, built) == [] == head)
      && (!Spent(Left(bounds.maxNodes, built)) ==>
            |head| == 1 && Planned(roster, bounds, ids, level, built) ==
                head + Planned(roster, bounds, ids[1..], level, built + Size(head)))
  {
    var d := Remaining(roster, bounds.maxDepth, level);
    UnrollStep(roster, ids, d);
    var all := Unroll(roster, ids, d);
    hide Unroll, Kids, Remaining;
    var cap := Left(bounds.maxNodes, built);
    if !Spent(cap) {
      var first := Tree(all[0].entry, Take(Left(cap, 1), all[0].children));
      assert Take(cap, [all[0]]) == [first];
      assert Size([first]) == 1 + Size(first.children);
    }
  }

  lemma {:induction false} RepeatsAppend(a: seq<Tree>, b: seq<Tree>, ancestors: set<string>)
    ensures Repeats(a + b, ancestors) <==> Repeats(a, ancestors) || Repeats(b, ancestors)
  {
    if a == [] {
      assert a + b == b;
    } else {
      assert (a + b)[1..] == a[1..] + b;
      RepeatsAppend(a[1..], b, ancestors);
    }
  }

  lemma {:induction false} PreorderAppend(a: seq<Tree>, b: seq<Tree>)
    ensures Preorder(a + b) == Preorder(a) + Preorder(b) && Size(a + b) == Size(a) + Size(b)
  {
    if a == [] {
      assert a + b == b;
    } else {
      assert (a + b)[1..] == a[1..] + b;
      PreorderAppend(a[1..], b);
    }
  }

  lemma RepeatsStep(t: Tree, ts: seq<Tree>, ancestors: set<string>)
    ensures Repeats([t] + ts, ancestors) <==>
      t.entry.id in ancestors || Repeats(t.children, ancestors + {t.entry.id}) || Repeats(ts, ancestors)
  {
    assert ([t] + ts)[1..] == ts;
  }

  /** The trees returned are the planned ones, none repeats a thread, and the builder has counted and
      marked exactly their threads. */
  ghost predicate Grown(plan: seq<Tree>, ancestors: set<string>, trees: seq<Tree>,
                        built: nat, visited: set<string>, built': nat, visited': set<string>)
  {
    && trees == plan && !Repeats(plan, ancestors)
    && built' == built + Size(plan) && visited' == visited + Elements(Preorder(plan))
  }

  lemma NodeGrown(plan: seq<Tree>, id: string, ancestors: set<string>, below: seq<Tree>, cap: Option<int>,
                  built: nat, visited: set<string>, built': nat, visited': set<string>)
    requires |plan| == 1 && NodeFacts(plan, id, ancestors) && id !in ancestors && !Spent(cap)
    requires Grown(plan[0].children, ancestors + {id}, below, built + 1, visited + {id}, built', visited')
    ensures NodeWalked(plan, cap, ancestors, Node(Tree(plan[0].entry, below)), built, visited, built', visited')
  {
    hide Repeats, Preorder, Size;
    assert plan == [Tree(plan[0].entry, plan[0].children)];
  }

  /** What walking one thread does: nothing once the budget is spent, a failure only where the plan
      repeats a thread, and otherwise the planned tree. */
  ghost predicate NodeWalked(plan: seq<Tree>, cap: Option<int>, ancestors: set<string>, r: Walk,
                             built: nat, visited: set<string>, built': nat, visited': set<string>)
  {
    match r
    case Stopped => Spent(cap) && built' == built && visited' == visited
    case Failed => !Spent(cap) && Repeats(plan, ancestors)
    case Node(tree) => !Spent(cap) && Grown(plan, ancestors, [tree], built, visited, built', visited')
  }

  lemma NodeRepeats(plan: seq<Tree>, id: string, ancestors: set<string>, cap: Option<int>,
                    built: nat, visited: set<string>, built': nat, visited': set<string>)
    requires |plan| == 1 && NodeFacts(plan, id, ancestors) && !Spent(cap)
    requires id in ancestors || Repeats(plan[0].children, ancestors + {id})
    ensures NodeWalked(plan, cap, ancestors, Failed, built, visited, built', visited')
  {}

  lemma BudgetLeft(maxNodes: Option<int>, built: nat)
    ensures Spent(Left(maxNodes, built)) <==> maxNodes.Some? && built >= maxNodes.value
  {}

  lemma NodeStops(plan: seq<Tree>, cap: Option<int>, ancestors: set<string>, built: nat, visited: set<string>)
    requires Spent(cap)
    ensures NodeWalked(plan, cap, ancestors, Stopped, built, visited, built, visited)
  {}

  lemma NothingGrown(ancestors: set<string>, built: nat, visited: set<string>)
    ensures Grown([], ancestors, [], built, visited, built, visited)
  {}

  class Builder {
    const bounds: Bounds
    var entries: Roster
    var children: map<string, seq<string>>
    var roots: seq<string>
    var visited: set<string>
    var built: nat

    constructor (bounds: Bounds)
      ensures this.bounds == bounds && entries == map[] && Indexed(entries, children, roots)
      ensures visited == {} && built == 0
    {
      this.bounds := bounds;
      entries, children, roots, visited, built := map[], map[], [], {}, 0;
    }

    /** Fills the maps; false when two rows have one public id. */
    method Index(rows: seq<Row>) returns (ok: bool)
      requires entries == map[] && Indexed(entries, children, roots)
      modifies this`entries, this`children, this`roots
      ensures ok <==> DistinctIds(rows)
      ensures ok ==> entries == RosterOf(rows) && Indexed(entries, children, roots)
    {
      hide Indexed, RosterOf, DistinctIds;
      assert rows[..0] == [];
      RosterEmpty();
      for i := 0 to |rows|
        invariant entries == RosterOf(rows[..i]) && DistinctIds(rows[..i])
        invariant Indexed(entries, children, roots)
      {
        RosterStep(rows, i);
        var entry := EntryOf(rows[i]);
        if entry.id in entries { return false; }
        IndexRow(entries, children, roots, entry);
        entries := entries[entry.id := entry];
        if entry.parent.None? {
          roots := roots + [entry.id];
        } else {
          children := children[entry.parent.value := ChildrenOf(children, entry.parent.value) + [entry.id]];
        }
      }
      assert rows[..|rows|] == rows;
      ok := true;
    }

    /** Builds the tree below one thread, unless the node budget is spent. */
    method BuildNode(id: string, ancestors: set<string>, level: nat) returns (r: Walk)
      requires Indexed(entries, children, roots)
      requires id in entries && ancestors <= entries.Keys && level == |ancestors|
      modifies this`visited, this`built
      ensures NodeWalked(Planned(entries, bounds, [id], level, old(built)), Left(bounds.maxNodes, old(built)),
        ancestors, r,
                         old(built), old(visited), built, visited)
      decreases |entries| - level, 0
    {
      hide Indexed, Planned, Repeats, Kids, Grown, NodeFacts, NodeWalked, Left, Spent;
      ghost var cap, plan, built0, visited0 :=
        Left(bounds.maxNodes, built), Planned(entries, bounds, [id], level, built), built, visited;
      BudgetLeft(bounds.maxNodes, built);
      if bounds.maxNodes.Some? && built >= bounds.maxNodes.value {
        NodeStops(plan, cap, ancestors, built, visited);
        return Stopped;
      }
      WellKeyedEntry(entries, children, roots, id);
      NodePlan(entries, bounds, id, level, built, ancestors);
      if id in ancestors {
        NodeRepeats(plan, id, ancestors, cap, built0, visited0, built, visited);
        return Failed;
      }
      if id !in entries { assert false; }
      FullAncestors(entries, ancestors, id);
      var entry := entries[id];
      built := built + 1;
      visited := visited + {id};
      if (bounds.maxDepth.None? || level < bounds.maxDepth.value) &&
          (bounds.maxNodes.None? || built < bounds.maxNodes.value) {
        var kids := SortedChildren(id);
        var below := BuildNodes(kids, ancestors + {id}, level + 1);
        if below.Broken? {
          NodeRepeats(plan, id, ancestors, cap, built0, visited0, built, visited);
          return Failed;
        }
        NodeGrown(plan, id, ancestors, below.trees, cap, built0, visited0, built, visited);
        r := Node(Tree(entry, below.trees));
      } else {
        NothingGrown(ancestors + {id}, built, visited);
        NodeGrown(plan, id, ancestors, [], cap, built0, visited0, built, visited);
        r := Node(Tree(entry, []));
      }
    }

    /** The requested root, or every root in code-unit order. */
    method StartIds() returns (starts: seq<string>)
      requires Indexed(entries, children, roots)
      ensures starts == Starts(entries, bounds.root)
    {
      SortedKids(entries, roots, None);
      starts := if bounds.root.None? then SortBy(CodeUnitLe, roots) else [bounds.root.value];
    }

    method SortedChildren(id: string) returns (kids: seq<string>)
      requires Indexed(entries, children, roots)
      ensures kids == Kids(entries, Some(id))
    {
      SortedKids(entries, ChildrenOf(children, id), Some(id));
      kids := SortBy(CodeUnitLe, ChildrenOf(children, id));
    }

    /** Builds a list of trees, stopping when the node budget is spent. */
    method BuildNodes(ids: seq<string>, ancestors: set<string>, level: nat) returns (r: Walks)
      requires Indexed(entries, children, roots)
      requires (forall id :: id in ids ==> id in entries) && ancestors <= entries.Keys && level == |ancestors|
      modifies this`visited, this`built
      ensures var plan := Planned(entries, bounds, ids, level, old(built));
        && (r.Broken? ==> Repeats(plan, ancestors))
        && (r.Nodes? ==> Grown(plan, ancestors, r.trees, old(built), old(visited), built, visited))
      decreases |entries| - level, 1
    {
      hide Indexed, Planned, Repeats, Preorder, Size;
      ghost var plan := Planned(entries, bounds, ids, level, built);
      var tree: seq<Tree> := [];
      EmptyTrees(ancestors);
      for i := 0 to |ids|
        invariant plan == tree + Planned(entries, bounds, ids[i..], level, built)
        invariant !Repeats(tree, ancestors)
        invariant built == old(built) + Size(tree) && visited == old(visited) + Elements(Preorder(tree))
      {
        PlannedStep(entries, bounds, ids[i..], level, built);
        ghost var rest := Planned(entries, bounds, ids[i + 1..], level,
            built + Size(Planned(entries, bounds, [ids[i]], level, built)));
        assert ids[i..][1..] == ids[i + 1..] && ids[i..][0] == ids[i];
        var result := BuildNode(ids[i], ancestors, level);
        if result.Stopped? {
          assert plan == tree;
          return Nodes(tree);
        }
        if result.Failed? {
          FirstRepeats(tree, Planned(entries, bounds, [ids[i]], level, old(built) + Size(tree)), rest, ancestors);
          return Broken;
        }
        RepeatsAppend(tree, [result.tree], ancestors);
        PreorderAppend(tree, [result.tree]);
        assert tree + ([result.tree] + rest) == tree + [result.tree] + rest;
        tree := tree + [result.tree];
      }
      PlannedEmpty(entries, bounds, level, built);
      assert ids[|ids|..] == [] && plan == tree;
      r := Nodes(tree);
    }
  }

  lemma EmptyTrees(ancestors: set<string>)
    ensures !Repeats([], ancestors) && Size([]) == 0 && Preorder([]) == []
  {}

  lemma PlannedEmpty(roster: Roster, bounds: Bounds, level: nat, built: nat)
    ensures Planned(roster, bounds, [], level, built) == []
  {}

  lemma FirstRepeats(a: seq<Tree>, b: seq<Tree>, c: seq<Tree>, ancestors: set<string>)
    requires Repeats(b, ancestors)
    ensures Repeats(a + (b + c), ancestors)
  {
    RepeatsAppend(b, c, ancestors);
    RepeatsAppend(a, b + c, ancestors);
  }

  predicate Descends(bounds: Bounds, level: nat, built: nat) {
    && (bounds.maxDepth.None? || level < bounds.maxDepth.value)
    && (bounds.maxNodes.None? || built < bounds.maxNodes.value)
  }

  /** One planned thread: itself above the plan for its children with one node less to build. */
  lemma NodePlan(roster: Roster, bounds: Bounds, id: string, level: nat, built: nat, ancestors: set<string>)
    requires id in roster && roster[id].id == id && !Spent(Left(bounds.maxNodes, built)) && level == |ancestors|
    ensures var plan := Planned(roster, bounds, [id], level, built);
      |plan| == 1 && plan[0].entry == roster[id] && NodeFacts(plan, id, ancestors)
    ensures id !in ancestors && ancestors <= roster.Keys ==>
      Planned(roster, bounds, [id], level, built)[0].children ==
        if Descends(bounds, level, built + 1) then Planned(roster, bounds, Kids(roster, Some(id)), level + 1, built + 1)
            else []
  {
    hide Kids, Unroll, Take, Repeats, Size, Preorder, NodeFacts, Spent;
    var d, cap := Remaining(roster, bounds.maxDepth, level), Left(bounds.maxNodes, built);
    UnrollOne(roster, id, d);
    var below := Below(roster, id, d);
    TakeOne(cap, Tree(roster[id], below));
    NodeFactsHold(Tree(roster[id], Take(Left(cap, 1), below)), ancestors);
    if id !in ancestors && ancestors <= roster.Keys {
      FullAncestors(roster, ancestors, id);
      BudgetLeft(bounds.maxNodes, built + 1);
      TakeNone(Left(cap, 1), below);
    }
  }

  lemma UnrollOne(roster: Roster, id: string, d: nat)
    requires id in roster
    ensures Unroll(roster, [id], d) == [Tree(roster[id], Below(roster, id, d))]
  {
    hide Kids;
    assert [id][1..] == [] && Unroll(roster, [], d) == [];
  }

  lemma TakeNone(cap: Option<int>, ts: seq<Tree>)
    ensures Spent(cap) || ts == [] ==> Take(cap, ts) == []
  {}

  lemma TakeOne(cap: Option<int>, t: Tree)
    requires !Spent(cap)
    ensures Take(cap, [t]) == [Tree(t.entry, Take(Left(cap, 1), t.children))]
  {
    var first := Tree(t.entry, Take(Left(cap, 1), t.children));
    assert [t][1..] == [] && Take(Left(cap, 1 + Size(first.children)), []) == [];
  }

  lemma NodeFactsHold(t: Tree, ancestors: set<string>)
    ensures NodeFacts([t], t.entry.id, ancestors)
  {
    assert [t][1..] == [];
    assert Preorder([t]) == [t.entry.id] + Preorder(t.children);
  }

  ghost predicate NodeFacts(plan: seq<Tree>, id: string, ancestors: set<string>)
    requires |plan| == 1
  {
    && (Repeats(plan, ancestors) <==> id in ancestors || Repeats(plan[0].children, ancestors + {id}))
    && Size(plan) == 1 + Size(plan[0].children)
    && Elements(Preorder(plan)) == {id} + Elements(Preorder(plan[0].children))
  }

  method ThreadTreeOf(rows: seq<Row>, bounds: Bounds) returns (answer: Answer)
    ensures answer == TreeOf(rows, bounds)
  {
    hide Indexed, RosterOf, DistinctIds, Planned, Repeats, Preorder, Holds;
    var builder := new Builder(bounds);
    var ok := builder.Index(rows);
    if !ok { return Ambiguous; }
    if bounds.root.Some? && bounds.root.value !in builder.entries { return UnknownRoot; }
    ghost var roster := builder.entries;
    var starts := builder.StartIds();
    var tree := builder.BuildNodes(starts, {}, 0);
    if tree.Broken? { return Cycle; }
    ghost var seen := Elements(Preorder(tree.trees));
    if bounds == NO_BOUNDS && |builder.visited| != |builder.entries| { return Orphan; }
    PlannedKnown(roster, bounds, starts, 0, 0);
    SameSize(seen, roster.Keys);
    return Trees(tree.trees);
  }

  lemma SameSize(a: set<string>, b: set<string>)
    requires a <= b
    ensures |a| == |b| <==> a == b
  {
    assert b == a + (b - a);
  }

  lemma PlannedKnown(roster: Roster, bounds: Bounds, ids: seq<string>, level: nat, built: nat)
    requires WellKeyed(roster) && forall id :: id in ids ==> id in roster
    ensures Elements(Preorder(Planned(roster, bounds, ids, level, built))) <= roster.Keys
  {
    UnrollKnown(roster, ids, Remaining(roster, bounds.maxDepth, level));
    TakePreorder(Left(bounds.maxNodes, built), Unroll(roster, ids, Remaining(roster, bounds.maxDepth, level)));
  }

  lemma {:induction false} UnrollKnown(roster: Roster, ids: seq<string>, d: nat)
    requires WellKeyed(roster) && forall id :: id in ids ==> id in roster
    ensures forall x :: x in Preorder(Unroll(roster, ids, d)) ==> x in roster
    decreases d, |ids|
  {
    hide Kids;
    if ids != [] {
      if d > 0 { UnrollKnown(roster, Kids(roster, Some(ids[0])), d - 1); }
      UnrollKnown(roster, ids[1..], d);
    }
  }

  lemma {:induction false} SizePreorder(ts: seq<Tree>)
    ensures Size(ts) == |Preorder(ts)|
  {
    if ts != [] {
      SizePreorder(ts[0].children);
      SizePreorder(ts[1..]);
    }
  }

  function Prefix(cap: Option<int>, s: seq<string>): seq<string> {
    if cap.None? || |s| <= cap.value then s else if cap.value <= 0 then [] else s[..cap.value]
  }

  lemma PrefixSplit(cap: Option<int>, x: string, a: seq<string>, b: seq<string>)
    requires !Spent(cap)
    ensures Prefix(cap, [x] + a + b) ==
      [x] + Prefix(Left(cap, 1), a) + Prefix(Left(cap, 1 + |Prefix(Left(cap, 1), a)|), b)
  {}

  lemma PreorderStep(t: Tree, ts: seq<Tree>)
    ensures Preorder([t] + ts) == [t.entry.id] + Preorder(t.children) + Preorder(ts)
  {
    assert ([t] + ts)[1..] == ts;
  }

  /** Taking trees under a node budget takes that many ids of the preorder. */
  lemma {:induction false} TakePreorder(cap: Option<int>, ts: seq<Tree>)
    ensures Preorder(Take(cap, ts)) == Prefix(cap, Preorder(ts))
    decreases ts
  {
    if ts != [] && !Spent(cap) {
      TakePreorder(Left(cap, 1), ts[0].children);
      var below := Take(Left(cap, 1), ts[0].children);
      SizePreorder(below);
      TakePreorder(Left(cap, 1 + Size(below)), ts[1..]);
      PreorderStep(Tree(ts[0].entry, below), Take(Left(cap, 1 + Size(below)), ts[1..]));
      PrefixSplit(cap, ts[0].entry.id, Preorder(ts[0].children), Preorder(ts[1..]));
      hide Prefix;
    }
  }

  // ---------------------------------------------------------------- forests

  /** `k` steps from child to parent lead from `x` to a root. */
  ghost predicate HasDepth(roster: Roster, x: string, k: nat)
    decreases k
  {
    x in roster &&
    match roster[x].parent
    case None => k == 0
    case Some(p) => k > 0 && HasDepth(roster, p, k - 1)
  }

  ghost predicate Grounded(roster: Roster, x: string) { exists k: nat :: HasDepth(roster, x, k) }

  /** Every thread's parents lead to a root. */
  ghost predicate Forest(roster: Roster) {
    forall x :: x in roster ==> Grounded(roster, x)
  }

  ghost predicate ParentsPresent(roster: Roster) {
    forall x :: x in roster && roster[x].parent.Some? ==> roster[x].parent.value in roster
  }

  /** An edge from every thread to its parent. */
  ghost function ParentGraph(roster: Roster): Graph<string> {
    Graph(roster.Keys, set x | x in roster && roster[x].parent.Some? :: (x, roster[x].parent.value))
  }

  ghost predicate Acyclic(roster: Roster) {
    forall x :: x in roster ==> !OnCycle(ParentGraph(roster), x)
  }

  lemma {:induction false} DepthUnique(roster: Roster, x: string, j: nat, k: nat)
    requires HasDepth(roster, x, j) && HasDepth(roster, x, k)
    ensures j == k
    decreases j
  {
    if j > 0 { DepthUnique(roster, roster[x].parent.value, j - 1, k - 1); }
  }

  lemma OtherDepth(roster: Roster, x: string, k: nat, m: nat)
    requires HasDepth(roster, x, k) && m != k
    ensures !HasDepth(roster, x, m)
  {
    if HasDepth(roster, x, m) { DepthUnique(roster, x, k, m); }
  }

  ghost predicate DepthBelow(roster: Roster, x: string, level: nat) {
    exists j: nat :: j < level && HasDepth(roster, x, j)
  }

  ghost predicate DepthFrom(roster: Roster, x: string, level: nat) {
    exists j: nat :: j >= level && HasDepth(roster, x, j)
  }

  /** Nothing of depth `level` is also above or below that depth. */
  lemma DepthApart(roster: Roster, x: string, level: nat)
    requires HasDepth(roster, x, level)
    ensures !DepthBelow(roster, x, level) && !DepthFrom(roster, x, level + 1)
  {
    forall j: nat | j != level ensures !HasDepth(roster, x, j) { OtherDepth(roster, x, level, j); }
  }

  /** Walking a path of parents lowers the depth by one at each edge. */
  lemma {:induction false} PathDepth(roster: Roster, path: seq<string>, k: nat)
    requires IsPath(ParentGraph(roster), path) && HasDepth(roster, path[0], k)
    ensures |path| - 1 <= k && HasDepth(roster, path[|path| - 1], k - (|path| - 1))
    decreases |path|
  {
    if |path| > 1 {
      assert (path[0], path[1]) in ParentGraph(roster).edges;
      PathDepth(roster, path[1..], k - 1);
    }
  }

  lemma GroundedOffCycle(roster: Roster, x: string, k: nat)
    requires HasDepth(roster, x, k)
    ensures !OnCycle(ParentGraph(roster), x)
  {
    var g := ParentGraph(roster);
    forall y, path | (x, y) in g.edges && IsPath(g, path) && path[0] == y ensures path[|path| - 1] != x {
      PathDepth(roster, path, k - 1);
      OtherDepth(roster, x, k, k - 1 - (|path| - 1));
    }
  }

  lemma ClosedTrail(g: Graph<string>, trail: seq<string>, i: nat)
    requires IsPath(g, trail) && i < |trail|
    ensures (trail[|trail| - 1], trail[i]) in g.edges ==> OnCycle(g, trail[|trail| - 1])
  {
    var rest := trail[i..];
    assert IsPath(g, rest) && rest[0] == trail[i] && rest[|rest| - 1] == trail[|trail| - 1];
    assert Reach(g, trail[i], trail[|trail| - 1]);
  }

  /** Without cycles or missing parents, climbing ends at a root: a trail that went on would outgrow the roster. */
  lemma {:induction false} Climbs(roster: Roster, trail: seq<string>)
    requires ParentsPresent(roster) && Acyclic(roster)
    requires IsPath(ParentGraph(roster), trail) && Distinct(trail) && forall x :: x in trail ==> x in roster
    ensures Grounded(roster, trail[|trail| - 1])
    decreases |roster| - |trail|
  {
    var g, x := ParentGraph(roster), trail[|trail| - 1];
    if roster[x].parent.None? {
      assert HasDepth(roster, x, 0);
    } else {
      var p := roster[x].parent.value;
      assert (x, p) in g.edges;
      forall i | 0 <= i < |trail| ensures trail[i] != p { ClosedTrail(g, trail, i); }
      DistinctSize(trail + [p]);
      Bigger(Elements(trail + [p]), roster.Keys);
      Climbs(roster, trail + [p]);
      var k: nat :| HasDepth(roster, p, k);
      assert HasDepth(roster, x, k + 1);
    }
  }

  /** A forest is a roster that holds every parent and has no cycle of parents. */
  lemma ForestIffAcyclic(roster: Roster)
    ensures Forest(roster) <==> ParentsPresent(roster) && Acyclic(roster)
  {
    if Forest(roster) {
      forall x | x in roster ensures !OnCycle(ParentGraph(roster), x) {
        assert Grounded(roster, x);
        var k: nat :| HasDepth(roster, x, k);
        GroundedOffCycle(roster, x, k);
      }
      forall x | x in roster && roster[x].parent.Some? ensures roster[x].parent.value in roster {
        assert Grounded(roster, x);
        var k: nat :| HasDepth(roster, x, k);
        assert HasDepth(roster, roster[x].parent.value, k - 1);
      }
    }
    if ParentsPresent(roster) && Acyclic(roster) {
      forall x | x in roster ensures Grounded(roster, x) { Climbs(roster, [x]); }
    }
  }

  /** A depth stays below the size of the roster. */
  lemma {:induction false} DepthBound(roster: Roster, x: string, k: nat) returns (above: set<string>)
    requires HasDepth(roster, x, k)
    ensures above <= roster.Keys && |above| == k + 1 && k < |roster|
    ensures forall y :: y in above ==> DepthBelow(roster, y, k + 1)
    decreases k
  {
    if k == 0 {
      above := {x};
    } else {
      var rest := DepthBound(roster, roster[x].parent.value, k - 1);
      DepthApart(roster, x, k);
      above := rest + {x};
    }
    Bigger(above, roster.Keys);
  }

  // ---------------------------------------------------------------- what the walk reaches

  ghost predicate AtDepth(roster: Roster, ids: seq<string>, level: nat) {
    forall id :: id in ids ==> HasDepth(roster, id, level)
  }

  ghost function Below(roster: Roster, id: string, d: nat): seq<Tree> {
    if d == 0 then [] else Unroll(roster, Kids(roster, Some(id)), d - 1)
  }

  lemma UnrollHead(roster: Roster, ids: seq<string>, d: nat)
    requires WellKeyed(roster) && ids != [] && forall id :: id in ids ==> id in roster
    ensures var ts := Unroll(roster, ids, d);
      && ts == [Tree(roster[ids[0]], Below(roster, ids[0], d))] + Unroll(roster, ids[1..], d)
      && Preorder(ts) == [ids[0]] + Preorder(Below(roster, ids[0], d)) + Preorder(Unroll(roster, ids[1..], d))
  {
    hide Kids;
    PreorderStep(Tree(roster[ids[0]], Below(roster, ids[0], d)), Unroll(roster, ids[1..], d));
  }

  lemma NothingListed(roster: Roster, d: nat)
    ensures Unroll(roster, [], d) == [] && Preorder(Unroll(roster, [], d)) == []
  {}

  lemma KidsAtDepth(roster: Roster, id: string, level: nat)
    requires HasDepth(roster, id, level)
    ensures AtDepth(roster, Kids(roster, Some(id)), level + 1)
  {}

  lemma RootsAtDepth(roster: Roster)
    ensures AtDepth(roster, Kids(roster, None), 0)
  {}

  /** Everything the walk lists below threads of one depth has a depth of its own, at least as deep. */
  lemma {:induction false} ListedDeeper(roster: Roster, ids: seq<string>, d: nat, level: nat, x: string)
    requires WellKeyed(roster) && AtDepth(roster, ids, level) && x in Preorder(Unroll(roster, ids, d))
    ensures DepthFrom(roster, x, level)
    decreases d, |ids|
  {
    hide Kids, Unroll, Preorder;
    NothingListed(roster, d);
    UnrollHead(roster, ids, d);
    hide HasDepth;
    if x == ids[0] {
      assert HasDepth(roster, x, level);
    } else if d > 0 && x in Preorder(Unroll(roster, Kids(roster, Some(ids[0])), d - 1)) {
      KidsAtDepth(roster, ids[0], level);
      ListedDeeper(roster, Kids(roster, Some(ids[0])), d - 1, level + 1, x);
      assert DepthFrom(roster, x, level + 1);
    } else {
      ListedDeeper(roster, ids[1..], d, level, x);
    }
  }

  /** Below threads of one depth nothing repeats. */
  lemma {:induction false} NoRepeats(roster: Roster, ids: seq<string>, d: nat, level: nat, ancestors: set<string>)
    requires WellKeyed(roster) && AtDepth(roster, ids, level)
    requires forall a :: a in ancestors ==> DepthBelow(roster, a, level)
    ensures !Repeats(Unroll(roster, ids, d), ancestors)
    decreases d, |ids|
  {
    hide Kids, Preorder, Unroll, Repeats;
    NothingListed(roster, d);
    EmptyTrees(ancestors);
    EmptyTrees(ancestors + (if ids == [] then {} else {ids[0]}));
    if ids != [] {
      UnrollHead(roster, ids, d);
      RepeatsStep(Tree(roster[ids[0]], Below(roster, ids[0], d)), Unroll(roster, ids[1..], d), ancestors);
      DepthApart(roster, ids[0], level);
      assert DepthBelow(roster, ids[0], level + 1);
      forall a | a in ancestors ensures DepthBelow(roster, a, level + 1) { assert DepthBelow(roster, a, level); }
      hide DepthBelow;
      if d > 0 {
        KidsAtDepth(roster, ids[0], level);
        NoRepeats(roster, Kids(roster, Some(ids[0])), d - 1, level + 1, ancestors + {ids[0]});
      }
      NoRepeats(roster, ids[1..], d, level, ancestors);
    }
  }

  /** A listed thread brings its children into the list while levels are left. */
  lemma {:induction false} ChildListed(roster: Roster, ids: seq<string>, d: nat, level: nat, p: string, m: nat,
      x: string)
    requires WellKeyed(roster) && AtDepth(roster, ids, level) && p in Preorder(Unroll(roster, ids, d))
    requires HasDepth(roster, p, m) && m < level + d && x in Kids(roster, Some(p))
    ensures x in Preorder(Unroll(roster, ids, d))
    decreases d, |ids|
  {
    hide Unroll, Preorder;
    NothingListed(roster, d);
    EmptyTrees({});
    UnrollHead(roster, ids, d);
    var kids := Kids(roster, Some(ids[0]));
    if p == ids[0] {
      DepthUnique(roster, p, m, level);
      TopListed(roster, kids, d - 1, x);
    } else if d > 0 && p in Preorder(Unroll(roster, kids, d - 1)) {
      KidsAtDepth(roster, ids[0], level);
      ChildListed(roster, kids, d - 1, level + 1, p, m, x);
    } else {
      ChildListed(roster, ids[1..], d, level, p, m, x);
    }
  }

  lemma {:induction false} TopListed(roster: Roster, ids: seq<string>, d: nat, x: string)
    requires WellKeyed(roster) && (forall id :: id in ids ==> id in roster) && x in ids
    ensures x in Preorder(Unroll(roster, ids, d))
    decreases |ids|
  {
    UnrollHead(roster, ids, d);
    hide Kids, Unroll;
    if x != ids[0] { TopListed(roster, ids[1..], d, x); }
  }

  /** A thread of depth `k` is listed from the roots when `k` levels are built. */
  lemma {:induction false} ListedFromRoots(roster: Roster, x: string, k: nat, d: nat)
    requires WellKeyed(roster) && HasDepth(roster, x, k) && k <= d
    ensures x in Preorder(Unroll(roster, Kids(roster, None), d))
    decreases k
  {
    RootsAtDepth(roster);
    if k == 0 {
      TopListed(roster, Kids(roster, None), d, x);
    } else {
      ListedFromRoots(roster, roster[x].parent.value, k - 1, d);
      ChildListed(roster, Kids(roster, None), d, 0, roster[x].parent.value, k - 1, x);
    }
  }

  // ---------------------------------------------------------------- whole trees

  function Heads(ts: seq<Tree>): seq<string> {
    if ts == [] then [] else [ts[0].entry.id] + Heads(ts[1..])
  }

  /** Every thread carries its roster entry and has all its children below it, in code-unit order. */
  ghost predicate Whole(roster: Roster, ts: seq<Tree>) {
    ts != [] ==>
      var id := ts[0].entry.id;
      && id in roster && ts[0].entry == roster[id]
      && Heads(ts[0].children) == Kids(roster, Some(id))
      && Whole(roster, ts[0].children) && Whole(roster, ts[1..])
  }

  /** The roster determines a whole tree. */
  lemma {:induction false} WholeUnique(roster: Roster, a: seq<Tree>, b: seq<Tree>)
    requires Whole(roster, a) && Whole(roster, b) && Heads(a) == Heads(b)
    ensures a == b
  {
    if a != [] {
      HeadsFirst(a);
      HeadsFirst(b);
      WholeUnique(roster, a[0].children, b[0].children);
      WholeUnique(roster, a[1..], b[1..]);
      assert a == [a[0]] + a[1..] && b == [b[0]] + b[1..];
    }
  }

  lemma HeadsFirst(ts: seq<Tree>)
    ensures ts != [] ==> Heads(ts) != [] && Heads(ts)[0] == ts[0].entry.id && Heads(ts)[1..] == Heads(ts[1..])
  {}

  lemma {:induction false} UnrollHeads(roster: Roster, ids: seq<string>, d: nat)
    requires WellKeyed(roster) && forall id :: id in ids ==> id in roster
    ensures Heads(Unroll(roster, ids, d)) == ids
    decreases |ids|
  {
    hide Kids, Preorder;
    if ids != [] {
      UnrollHead(roster, ids, d);
      UnrollHeads(roster, ids[1..], d);
      hide Unroll;
      assert Unroll(roster, ids, d)[1..] == Unroll(roster, ids[1..], d);
    }
  }

  /** As many levels as the roster has threads build whole trees, unless a thread repeats. */
  lemma {:induction false} EnoughLevels(roster: Roster, ids: seq<string>, d: nat, ancestors: set<string>)
    requires WellKeyed(roster) && (forall id :: id in ids ==> id in roster) && ancestors <= roster.Keys
    requires |roster| <= |ancestors| + d && !Repeats(Unroll(roster, ids, d), ancestors)
    ensures Whole(roster, Unroll(roster, ids, d))
    decreases d, |ids|
  {
    hide Kids, Preorder, Unroll, Whole, Repeats, Heads;
    if ids == [] {
      NothingListed(roster, d);
      WholeNone(roster);
    } else {
      UnrollHead(roster, ids, d);
      var kids, below, rest := Kids(roster, Some(ids[0])), Below(roster, ids[0], d), Unroll(roster, ids[1..], d);
      RepeatsStep(Tree(roster[ids[0]], below), rest, ancestors);
      FullAncestors(roster, ancestors, ids[0]);
      EnoughLevels(roster, kids, d - 1, ancestors + {ids[0]});
      UnrollHeads(roster, kids, d - 1);
      EnoughLevels(roster, ids[1..], d, ancestors);
      WholeStep(roster, Tree(roster[ids[0]], below), rest);
    }
  }

  lemma WholeNone(roster: Roster)
    ensures Whole(roster, [])
  {}

  lemma WholeStep(roster: Roster, t: Tree, ts: seq<Tree>)
    requires t.entry.id in roster && t.entry == roster[t.entry.id]
    requires Heads(t.children) == Kids(roster, Some(t.entry.id))
    requires Whole(roster, t.children) && Whole(roster, ts)
    ensures Whole(roster, [t] + ts)
  {
    hide Kids, Heads;
    assert ([t] + ts)[1..] == ts;
  }

  /** Trees cut off below level `d`. */
  function Truncate(d: int, ts: seq<Tree>): seq<Tree>
    decreases ts
  {
    if ts == [] then []
    else [Tree(ts[0].entry, if d <= 0 then [] else Truncate(d - 1, ts[0].children))] + Truncate(d, ts[1..])
  }

  lemma TruncateNone(d: int)
    ensures Truncate(d, []) == []
  {}

  lemma TruncateStep(d: int, t: Tree, ts: seq<Tree>)
    ensures Truncate(d, [t] + ts) ==
      [Tree(t.entry, if d <= 0 then [] else Truncate(d - 1, t.children))] + Truncate(d, ts)
  {
    assert ([t] + ts)[1..] == ts;
  }

  lemma {:induction false} UnrollTruncates(roster: Roster, ids: seq<string>, d: nat, more: nat)
    requires WellKeyed(roster) && (forall id :: id in ids ==> id in roster) && d <= more
    ensures Truncate(d, Unroll(roster, ids, more)) == Unroll(roster, ids, d)
    decreases d, |ids|
  {
    hide Kids, Preorder, Unroll, Truncate;
    NothingListed(roster, d);
    NothingListed(roster, more);
    TruncateNone(d);
    if ids != [] {
      UnrollHead(roster, ids, d);
      UnrollHead(roster, ids, more);
      UnrollTruncates(roster, ids[1..], d, more);
      if d > 0 { UnrollTruncates(roster, Kids(roster, Some(ids[0])), d - 1, more - 1); }
      TruncateStep(d, Tree(roster[ids[0]], Below(roster, ids[0], more)), Unroll(roster, ids[1..], more));
    }
  }

  lemma {:induction false} TruncateNegative(d: int, ts: seq<Tree>)
    requires d <= 0
    ensures Truncate(d, ts) == Truncate(0, ts)
  {
    if ts != [] { TruncateNegative(d, ts[1..]); }
  }

  // ---------------------------------------------------------------- nothing is listed twice

  /** Climbing `j` parents from `x` gives `a`. */
  ghost predicate Climb(roster: Roster, x: string, a: string, j: nat)
    decreases j
  {
    if j == 0 then x == a
    else x in roster && roster[x].parent.Some? && Climb(roster, roster[x].parent.value, a, j - 1)
  }

  lemma {:induction false} ClimbUnique(roster: Roster, x: string, a: string, b: string, j: nat)
    requires Climb(roster, x, a, j) && Climb(roster, x, b, j)
    ensures a == b
    decreases j
  {
    if j > 0 { ClimbUnique(roster, roster[x].parent.value, a, b, j - 1); }
  }

  lemma {:induction false} ClimbStep(roster: Roster, x: string, a: string, p: string, j: nat)
    requires Climb(roster, x, a, j) && a in roster && roster[a].parent == Some(p)
    ensures Climb(roster, x, p, j + 1)
    decreases j
  {
    if j > 0 { ClimbStep(roster, roster[x].parent.value, a, p, j - 1); }
  }

  lemma {:induction false} ClimbDepth(roster: Roster, x: string, a: string, j: nat, level: nat)
    requires Climb(roster, x, a, j) && HasDepth(roster, a, level)
    ensures HasDepth(roster, x, level + j)
    decreases j
  {
    if j > 0 { ClimbDepth(roster, roster[x].parent.value, a, j - 1, level); }
  }

  ghost predicate Under(roster: Roster, x: string, id: string) { exists j: nat :: Climb(roster, x, id, j) }

  lemma {:induction false} ListedUnder(roster: Roster, ids: seq<string>, d: nat, x: string) returns (id: string)
    requires WellKeyed(roster) && (forall id :: id in ids ==> id in roster) && x in Preorder(Unroll(roster, ids, d))
    ensures id in ids && Under(roster, x, id)
    decreases d, |ids|
  {
    hide Kids, Preorder;
    if ids == [] { EmptyTrees({}); }
    UnrollHead(roster, ids, d);
    EmptyTrees({});
    hide Unroll;
    if x == ids[0] {
      id := x;
      assert Climb(roster, x, x, 0);
    } else if d > 0 && x in Preorder(Unroll(roster, Kids(roster, Some(ids[0])), d - 1)) {
      var kid := ListedUnder(roster, Kids(roster, Some(ids[0])), d - 1, x);
      var j: nat :| Climb(roster, x, kid, j);
      ClimbStep(roster, x, kid, ids[0], j);
      id := ids[0];
    } else {
      id := ListedUnder(roster, ids[1..], d, x);
    }
  }

  /** Two threads of one depth have no thread below both. */
  lemma UnderOne(roster: Roster, x: string, a: string, b: string, level: nat)
    requires HasDepth(roster, a, level) && HasDepth(roster, b, level) && Under(roster, x, a) && Under(roster, x, b)
    ensures a == b
  {
    var i: nat :| Climb(roster, x, a, i);
    var j: nat :| Climb(roster, x, b, j);
    ClimbDepth(roster, x, a, i, level);
    ClimbDepth(roster, x, b, j, level);
    DepthUnique(roster, x, level + i, level + j);
    ClimbUnique(roster, x, a, b, i);
  }

  lemma DistinctJoin(x: string, a: seq<string>, b: seq<string>)
    requires Distinct(a) && Distinct(b) && x !in a && x !in b && forall y :: y in a ==> y !in b
    ensures Distinct([x] + a + b)
  {
    var s := [x] + a + b;
    forall i, j | 0 <= i < j < |s| ensures s[i] != s[j] {
      if j <= |a| { assert s[j] == a[j - 1] && (i > 0 ==> s[i] == a[i - 1]); }
      else { assert s[j] == b[j - 1 - |a|] && (0 < i <= |a| ==> s[i] in a) && (i > |a| ==> s[i] == b[i - 1 - |a|]); }
    }
  }

  lemma {:induction false} ListedOnce(roster: Roster, ids: seq<string>, d: nat, level: nat)
    requires WellKeyed(roster) && AtDepth(roster, ids, level) && Distinct(ids)
    ensures Distinct(Preorder(Unroll(roster, ids, d)))
    decreases d, |ids|
  {
    hide Kids, Preorder, AtDepth, Unroll, Distinct, HasDepth;
    NothingListed(roster, d);
    EmptyTrees({});
    DistinctNone();
    if ids != [] {
      AtDepthTail(roster, ids, level);
      DistinctTail(ids);
      UnrollHead(roster, ids, d);
      ListedOnce(roster, ids[1..], d, level);
      if d > 0 {
        KidsAtDepth(roster, ids[0], level);
        ListedOnce(roster, Kids(roster, Some(ids[0])), d - 1, level + 1);
      }
      OncePieces(roster, ids, d, level);
      DistinctJoin(ids[0], Preorder(Below(roster, ids[0], d)), Preorder(Unroll(roster, ids[1..], d)));
    }
  }

  lemma DistinctNone()
    ensures Distinct<string>([])
  {}

  lemma DistinctTail(ids: seq<string>)
    requires Distinct(ids) && ids != []
    ensures Distinct(ids[1..])
  {}

  lemma AtDepthTail(roster: Roster, ids: seq<string>, level: nat)
    requires AtDepth(roster, ids, level) && ids != []
    ensures AtDepth(roster, ids[1..], level) && HasDepth(roster, ids[0], level) && forall id :: id in ids ==>
      id in roster
  {}

  lemma OncePieces(roster: Roster, ids: seq<string>, d: nat, level: nat)
    requires WellKeyed(roster) && AtDepth(roster, ids, level) && Distinct(ids) && ids != []
    requires forall id :: id in ids ==> id in roster
    ensures ids[0] !in Preorder(Below(roster, ids[0], d)) && ids[0] !in Preorder(Unroll(roster, ids[1..], d))
    ensures forall y :: y in Preorder(Below(roster, ids[0], d)) ==> y !in Preorder(Unroll(roster, ids[1..], d))
  {
    hide Preorder, Unroll, HasDepth, Kids, Climb, DepthBelow, DepthFrom, Repeats, Size;
    var first, rest, kids := ids[0], ids[1..], Kids(roster, Some(ids[0]));
    EmptyTrees({});
    DepthApart(roster, first, level);
    KidsAtDepth(roster, first, level);
    forall y | y in Preorder(Below(roster, first, d)) ensures y != first && Under(roster, y, first) {
      ListedDeeper(roster, kids, d - 1, level + 1, y);
      var kid := ListedUnder(roster, kids, d - 1, y);
      var j: nat :| Climb(roster, y, kid, j);
      ClimbStep(roster, y, kid, first, j);
    }
    UnderSelf(roster, first);
    forall y | y in Preorder(Unroll(roster, rest, d)) ensures !Under(roster, y, first) {
      var other := ListedUnder(roster, rest, d, y);
      assert other != first;
      NotUnder(roster, y, first, other, level);
    }
  }

  lemma UnderSelf(roster: Roster, x: string)
    ensures Under(roster, x, x)
  {
    assert Climb(roster, x, x, 0);
  }

  lemma NotUnder(roster: Roster, x: string, a: string, b: string, level: nat)
    requires HasDepth(roster, a, level) && HasDepth(roster, b, level) && a != b && Under(roster, x, b)
    ensures !Under(roster, x, a)
  {
    if Under(roster, x, a) { UnderOne(roster, x, a, b, level); }
  }

  // ---------------------------------------------------------------- the theorems

  lemma {:induction false} TakeAll(ts: seq<Tree>)
    ensures Take(None, ts) == ts
    decreases ts
  {
    if ts != [] {
      TakeAll(ts[0].children);
      TakeAll(ts[1..]);
      assert ts == [ts[0]] + ts[1..];
    }
  }

  /** The unbounded trees: from every root, one level for each thread of the roster. */
  ghost function AllTrees(roster: Roster): seq<Tree> {
    Unroll(roster, Kids(roster, None), |roster|)
  }

  /** Walking from the roots never repeats a thread, lists only threads whose parents lead to a root,
      lists all of those, and lists each once. */
  lemma RootWalk(roster: Roster)
    requires WellKeyed(roster)
    ensures !Repeats(AllTrees(roster), {}) && Whole(roster, AllTrees(roster))
    ensures Distinct(Preorder(AllTrees(roster)))
    ensures Elements(Preorder(AllTrees(roster))) == roster.Keys <==> Forest(roster)
  {
    var roots, n := Kids(roster, None), |roster|;
    RootsAtDepth(roster);
    NoRepeats(roster, roots, n, 0, {});
    EnoughLevels(roster, roots, n, {});
    ListedOnce(roster, roots, n, 0);
    hide Unroll, Preorder, Kids, HasDepth;
    forall x | x in Preorder(AllTrees(roster)) ensures x in roster && Grounded(roster, x) {
      UnrollKnown(roster, roots, n);
      ListedDeeper(roster, roots, n, 0, x);
    }
    forall x | x in roster && Grounded(roster, x) ensures x in Preorder(AllTrees(roster)) {
      var k: nat :| HasDepth(roster, x, k);
      var above := DepthBound(roster, x, k);
      ListedFromRoots(roster, x, k, n);
    }
  }

  /** An unbounded read: it refuses rows that share a public id, refuses rows that do not form a
      forest with every parent present, and otherwise returns the whole forest with every thread once. */
  lemma UnboundedRead(rows: seq<Row>)
    ensures TreeOf(rows, NO_BOUNDS).Trees? <==>
      DistinctIds(rows) && ParentsPresent(RosterOf(rows)) && Acyclic(RosterOf(rows))
    ensures TreeOf(rows, NO_BOUNDS) == Ambiguous <==> !DistinctIds(rows)
    ensures TreeOf(rows, NO_BOUNDS) != Cycle
    ensures TreeOf(rows, NO_BOUNDS).Trees? ==>
      var ts, roster := TreeOf(rows, NO_BOUNDS).trees, RosterOf(rows);
      && Heads(ts) == Kids(roster, None) && Whole(roster, ts)
      && Distinct(Preorder(ts)) && Elements(Preorder(ts)) == roster.Keys
  {
    hide RosterOf, DistinctIds, Unroll, Kids, Preorder, Forest, Acyclic, ParentsPresent, Whole, Heads, Take, Repeats;
    var roster := RosterOf(rows);
    RootWalk(roster);
    ForestIffAcyclic(roster);
    TakeAll(AllTrees(roster));
    UnrollHeads(roster, Kids(roster, None), |roster|);
    assert Planned(roster, NO_BOUNDS, Starts(roster, None), 0, 0) == AllTrees(roster);
  }

  /** On a forest a bounded read from the roots, or from a known thread, answers the whole trees from
      there, cut below `maxDepth`, as far as `maxNodes` threads of their preorder. */
  lemma BoundedRead(rows: seq<Row>, bounds: Bounds) returns (whole: seq<Tree>)
    requires DistinctIds(rows) && Forest(RosterOf(rows))
    requires bounds.root.Some? ==> bounds.root.value in RosterOf(rows)
    ensures Whole(RosterOf(rows), whole) && Heads(whole) == Starts(RosterOf(rows), bounds.root)
    ensures TreeOf(rows, bounds.(maxDepth := None, maxNodes := None)) == Trees(whole)
    ensures var cut := if bounds.maxDepth.None? then whole else Truncate(bounds.maxDepth.value, whole);
      && TreeOf(rows, bounds) == Trees(Take(bounds.maxNodes, cut))
      && Preorder(Take(bounds.maxNodes, cut)) == Prefix(bounds.maxNodes, Preorder(cut))
  {
    hide RosterOf, DistinctIds, Unroll, Kids, Preorder, Forest, Whole, Heads, Truncate, Take, Repeats, AtDepth;
    var roster := RosterOf(rows);
    var starts := Starts(roster, bounds.root);
    var level := StartLevel(roster, bounds.root);
    whole := Unroll(roster, starts, |roster|);
    NoRepeats(roster, starts, |roster|, level, {});
    EnoughLevels(roster, starts, |roster|, {});
    UnrollHeads(roster, starts, |roster|);
    TakeAll(whole);
    RootWalk(roster);
    var cut := if bounds.maxDepth.None? then whole else Truncate(bounds.maxDepth.value, whole);
    CutMeansLevels(roster, starts, level, bounds.maxDepth);
    TakePreorder(bounds.maxNodes, cut);
    var d := Remaining(roster, bounds.maxDepth, 0);
    NoRepeats(roster, starts, d, level, {});
    TakeKeepsSingle(bounds.maxNodes, cut, {});
    assert Left(bounds.maxNodes, 0) == bounds.maxNodes;
    assert Planned(roster, bounds, starts, 0, 0) == Take(bounds.maxNodes, cut);
    assert Planned(roster, bounds.(maxDepth := None, maxNodes := None), starts, 0, 0) == Take(None, whole);
  }

  lemma StartLevel(roster: Roster, root: Option<string>) returns (level: nat)
    requires Forest(roster) && (root.Some? ==> root.value in roster)
    ensures AtDepth(roster, Starts(roster, root), level)
  {
    if root.None? {
      RootsAtDepth(roster);
      level := 0;
    } else {
      assert Grounded(roster, root.value);
      level :| HasDepth(roster, root.value, level);
    }
  }

  lemma CutMeansLevels(roster: Roster, starts: seq<string>, level: nat, maxDepth: Option<int>)
    requires WellKeyed(roster) && AtDepth(roster, starts, level)
    ensures var whole := Unroll(roster, starts, |roster|);
      Unroll(roster, starts, Remaining(roster, maxDepth, 0)) == if maxDepth.None? then whole
          else Truncate(maxDepth.value, whole)
  {
    if maxDepth.Some? {
      var d, n := Remaining(roster, maxDepth, 0), |roster|;
      if d <= n {
        UnrollTruncates(roster, starts, d, n);
        if maxDepth.value < 0 { TruncateNegative(maxDepth.value, Unroll(roster, starts, n)); }
      } else {
        NoRepeats(roster, starts, d, level, {});
        EnoughLevels(roster, starts, d, {});
        NoRepeats(roster, starts, n, level, {});
        EnoughLevels(roster, starts, n, {});
        UnrollHeads(roster, starts, d);
        UnrollHeads(roster, starts, n);
        WholeUnique(roster, Unroll(roster, starts, d), Unroll(roster, starts, n));
        UnrollTruncates(roster, starts, d, d);
      }
    }
  }

  lemma {:induction false} TakeKeepsSingle(cap: Option<int>, ts: seq<Tree>, ancestors: set<string>)
    requires !Repeats(ts, ancestors)
    ensures !Repeats(Take(cap, ts), ancestors)
    decreases ts
  {
    if ts != [] && !Spent(cap) {
      TakeKeepsSingle(Left(cap, 1), ts[0].children, ancestors + {ts[0].entry.id});
      var first := Tree(ts[0].entry, Take(Left(cap, 1), ts[0].children));
      var rest := Take(Left(cap, 1 + Size(first.children)), ts[1..]);
      TakeKeepsSingle(Left(cap, 1 + Size(first.children)), ts[1..], ancestors);
      assert ([first] + rest)[1..] == rest;
    }
  }

  // ---------------------------------------------------------------- reads from a thread on a cycle

  lemma {:induction false} ClimbStrip(roster: Roster, x: string, a: string, b: string, i: nat, j: nat)
    requires Climb(roster, x, a, i) && Climb(roster, x, b, i + j)
    ensures Climb(roster, a, b, j)
    decreases i
  {
    if i > 0 { ClimbStrip(roster, roster[x].parent.value, a, b, i - 1, j); }
  }

  lemma {:induction false} ClimbReaches(roster: Roster, x: string, a: string, j: nat)
    requires Climb(roster, x, a, j)
    ensures Reach(ParentGraph(roster), x, a)
    decreases j
  {
    ReachSelf(ParentGraph(roster), x);
    if j > 0 {
      var p := roster[x].parent.value;
      ClimbReaches(roster, p, a, j - 1);
      ReachEdge(ParentGraph(roster), x, p);
      ReachTrans(ParentGraph(roster), x, p, a);
    }
  }

  lemma {:induction false} ClimbLast(roster: Roster, x: string, a: string, j: nat) returns (kid: string)
    requires j > 0 && Climb(roster, x, a, j)
    ensures kid in roster && roster[kid].parent == Some(a) && Climb(roster, x, kid, j - 1)
    decreases j
  {
    if j == 1 {
      assert Climb(roster, roster[x].parent.value, a, 0);
      kid := x;
    } else {
      kid := ClimbLast(roster, roster[x].parent.value, a, j - 1);
    }
  }

  /** At most `n` parents, and at least one, lead from `x` to `a`. */
  ghost predicate Ancestor(roster: Roster, x: string, a: string, n: int) {
    exists j: nat :: 0 < j <= n && Climb(roster, x, a, j)
  }

  lemma AncestorOfKid(roster: Roster, kid: string, id: string, a: string, n: nat)
    requires kid in roster && roster[kid].parent == Some(id) && (id == a || Ancestor(roster, id, a, n))
    ensures Ancestor(roster, kid, a, n + 1)
  {
    var j: nat :| j <= n && Climb(roster, id, a, j);
    assert Climb(roster, kid, a, j + 1);
  }

  /** A repeat `d` levels down means that `root`, some levels above, is its own ancestor within the
      levels walked. */
  lemma {:induction false} RepeatReturns(roster: Roster, ids: seq<string>, d: nat, ancestors: set<string>, root: string,
      level: nat)
    requires WellKeyed(roster) && forall id :: id in ids ==> id in roster && Climb(roster, id, root, level)
    requires forall id, a :: id in ids && a in ancestors ==> Ancestor(roster, id, a, level)
    requires Repeats(Unroll(roster, ids, d), ancestors)
    ensures Ancestor(roster, root, root, level + d)
    decreases d, |ids|
  {
    hide Preorder, Ancestor, Climb;
    NothingListed(roster, d);
    UnrollHead(roster, ids, d);
    hide Unroll;
    var id, rest := ids[0], Unroll(roster, ids[1..], d);
    assert ([Tree(roster[id], Below(roster, id, d))] + rest)[1..] == rest;
    if id in ancestors {
      ReturnsAtRoot(roster, id, root, level, d);
    } else if d > 0 && Repeats(Below(roster, id, d), ancestors + {id}) {
      var kids := Kids(roster, Some(id));
      forall kid, a | kid in kids && a in ancestors + {id} ensures Ancestor(roster, kid, a, level + 1) {
        AncestorOfKid(roster, kid, id, a, level);
      }
      forall kid | kid in kids ensures Climb(roster, kid, root, level + 1) { ClimbOne(roster, kid, id, root, level); }
      RepeatReturns(roster, kids, d - 1, ancestors + {id}, root, level + 1);
    } else {
      RepeatReturns(roster, ids[1..], d, ancestors, root, level);
    }
  }

  lemma ClimbOne(roster: Roster, kid: string, id: string, a: string, j: nat)
    requires kid in roster && roster[kid].parent == Some(id) && Climb(roster, id, a, j)
    ensures Climb(roster, kid, a, j + 1)
  {}

  lemma ReturnsAtRoot(roster: Roster, x: string, root: string, level: nat, d: nat)
    requires Climb(roster, x, root, level) && Ancestor(roster, x, x, level)
    ensures Ancestor(roster, root, root, level + d)
  {
    var j: nat :| 0 < j <= level && Climb(roster, x, x, j);
    ClimbStrip(roster, x, x, root, j, level - j);
    ClimbStrip(roster, x, root, root, level - j, j);
  }

  /** A walk that gets from `p` down to `x`, standing above `p`, repeats `x`. */
  lemma {:induction false} ReturnRepeats(roster: Roster, ids: seq<string>, d: nat, ancestors: set<string>, x: string,
      p: string, j: nat)
    requires WellKeyed(roster) && forall id :: id in ids ==> id in roster
    requires p in ids && j <= d && Climb(roster, x, p, j) && (x in ancestors || (x == p && j > 0))
    ensures Repeats(Unroll(roster, ids, d), ancestors)
    decreases d, |ids|
  {
    hide Preorder;
    UnrollHead(roster, ids, d);
    hide Unroll;
    var id, rest := ids[0], Unroll(roster, ids[1..], d);
    assert ([Tree(roster[id], Below(roster, id, d))] + rest)[1..] == rest;
    if p != id {
      ReturnRepeats(roster, ids[1..], d, ancestors, x, p, j);
    } else if j > 0 {
      var kid := ClimbLast(roster, x, p, j);
      ReturnRepeats(roster, Kids(roster, Some(p)), d - 1, ancestors + {p}, x, kid, j - 1);
    }
  }

  /** The ids below the first level of `ts`. */
  function Lower(ts: seq<Tree>): seq<string> {
    if ts == [] then [] else Preorder(ts[0].children) + Lower(ts[1..])
  }

  lemma {:induction false} LowerListed(ts: seq<Tree>)
    ensures forall x :: x in Lower(ts) || x in Heads(ts) ==> x in Preorder(ts)
  {
    if ts != [] { LowerListed(ts[1..]); }
  }

  /** In whole trees a child of any listed thread is listed below the first level. */
  lemma {:induction false} WholeClosed(roster: Roster, ts: seq<Tree>, p: string, x: string)
    requires Whole(roster, ts) && p in Preorder(ts) && x in Kids(roster, Some(p))
    ensures x in Lower(ts)
  {
    hide Kids;
    if p == ts[0].entry.id {
      LowerListed(ts[0].children);
    } else if p in Preorder(ts[0].children) {
      WholeClosed(roster, ts[0].children, p, x);
      LowerListed(ts[0].children);
    } else {
      WholeClosed(roster, ts[1..], p, x);
    }
  }

  lemma {:induction false} UnrepeatedListed(ts: seq<Tree>, ancestors: set<string>)
    requires !Repeats(ts, ancestors)
    ensures forall a :: a in ancestors ==> a !in Preorder(ts)
  {
    if ts != [] {
      UnrepeatedListed(ts[0].children, ancestors + {ts[0].entry.id});
      UnrepeatedListed(ts[1..], ancestors);
    }
  }

  /** Whole trees list whatever a path of parents connects to a listed thread. */
  lemma {:induction false} PathListed(roster: Roster, ts: seq<Tree>, path: seq<string>)
    requires Whole(roster, ts) && IsPath(ParentGraph(roster), path) && path[|path| - 1] in Preorder(ts)
    ensures path[0] in Preorder(ts)
    decreases |path|
  {
    if |path| > 1 {
      assert (path[0], path[1]) in ParentGraph(roster).edges;
      assert IsPath(ParentGraph(roster), path[1..]);
      PathListed(roster, ts, path[1..]);
      hide Preorder, Whole, IsPath;
      WholeClosed(roster, ts, path[1], path[0]);
      LowerListed(ts);
    }
  }

  lemma OneLower(t: Tree)
    ensures Lower([t]) == Preorder(t.children) && Preorder([t])[0] == t.entry.id
    ensures Repeats([t], {}) <==> Repeats(t.children, {t.entry.id})
  {
    assert [t][1..] == [];
    assert {} + {t.entry.id} == {t.entry.id};
  }

  lemma CyclicRootRepeats(roster: Roster, root: string)
    requires WellKeyed(roster) && root in roster && !Repeats(Unroll(roster, [root], |roster|), {})
    ensures !OnCycle(ParentGraph(roster), root)
  {
    var n, g := |roster|, ParentGraph(roster);
    var ts := Unroll(roster, [root], n);
    EnoughLevels(roster, [root], n, {});
    UnrollHead(roster, [root], n);
    assert ts == [ts[0]] && ts[0].entry.id == root;
    OneLower(ts[0]);
    UnrepeatedListed(ts[0].children, {root});
    hide Unroll, Kids, Preorder, Repeats, Whole, Lower;
    forall y | (root, y) in g.edges ensures !Reach(g, y, root) {
      forall path | IsPath(g, path) && path[0] == y ensures path[|path| - 1] != root {
        CycleBreaks(roster, ts, root, y, path);
      }
    }
  }

  lemma CycleBreaks(roster: Roster, ts: seq<Tree>, root: string, y: string, path: seq<string>)
    requires Whole(roster, ts) && root in Preorder(ts) && root !in Lower(ts)
    requires (root, y) in ParentGraph(roster).edges && IsPath(ParentGraph(roster), path) && path[0] == y
    ensures path[|path| - 1] != root
  {
    hide Whole, Preorder, Lower;
    if path[|path| - 1] in Preorder(ts) {
      PathListed(roster, ts, path);
      WholeClosed(roster, ts, y, root);
    }
  }

  /** A read of one thread's subtree, without other bounds, reports a cycle exactly when that thread
      is its own ancestor. */
  lemma SubtreeRead(rows: seq<Row>, root: string)
    requires DistinctIds(rows) && root in RosterOf(rows)
    ensures TreeOf(rows, Bounds(Some(root), None, None)) == Cycle <==> OnCycle(ParentGraph(RosterOf(rows)), root)
    ensures TreeOf(rows, Bounds(Some(root), None, None)) != Cycle ==>
      var answer := TreeOf(rows, Bounds(Some(root), None, None));
      answer.Trees? && Heads(answer.trees) == [root] && Whole(RosterOf(rows), answer.trees)
  {
    hide Unroll, Repeats, Whole, Kids, Preorder, RosterOf, DistinctIds, Take, Heads, Under, Ancestor, OnCycle;
    var roster := RosterOf(rows);
    var n, bounds := |roster|, Bounds(Some(root), None, None);
    var ts := Unroll(roster, [root], n);
    TakeAll(ts);
    UnrollHeads(roster, [root], n);
    assert Planned(roster, bounds, [root], 0, 0) == ts;
    if Repeats(ts, {}) {
      RepeatReturns(roster, [root], n, {}, root, 0);
      OwnAncestor(roster, root, n);
    } else {
      EnoughLevels(roster, [root], n, {});
      CyclicRootRepeats(roster, root);
    }
  }

  lemma OwnAncestor(roster: Roster, root: string, n: nat)
    requires Ancestor(roster, root, root, n)
    ensures OnCycle(ParentGraph(roster), root)
  {
    var j: nat :| 0 < j <= n && Climb(roster, root, root, j);
    var p := roster[root].parent.value;
    ClimbReaches(roster, p, root, j - 1);
    assert (root, p) in ParentGraph(roster).edges;
  }

  /** Bounded only by `maxDepth`, a read from a thread reports a cycle exactly when that many parents
      lead from the thread back to it. */
  lemma DepthRead(rows: seq<Row>, root: string, maxDepth: int)
    requires DistinctIds(rows) && root in RosterOf(rows)
    ensures TreeOf(rows, Bounds(Some(root), Some(maxDepth), None)) == Cycle <==>
      Ancestor(RosterOf(rows), root, root, maxDepth)
  {
    hide Unroll, Repeats, Kids, RosterOf, DistinctIds, Take;
    var roster, bounds := RosterOf(rows), Bounds(Some(root), Some(maxDepth), None);
    var d := Remaining(roster, Some(maxDepth), 0);
    var ts := Unroll(roster, [root], d);
    TakeAll(ts);
    assert Planned(roster, bounds, [root], 0, 0) == ts;
    if Repeats(ts, {}) { RepeatReturns(roster, [root], d, {}, root, 0); }
    if Ancestor(roster, root, root, maxDepth) {
      var j: nat :| 0 < j <= maxDepth && Climb(roster, root, root, j);
      ReturnRepeats(roster, [root], d, {}, root, root, j);
    }
  }

  /** Under any bounds a reported cycle goes through the thread the read starts from, and is no longer
      than `maxDepth`. */
  lemma CycleAtRoot(rows: seq<Row>, bounds: Bounds)
    requires TreeOf(rows, bounds) == Cycle
    ensures bounds.root.Some? && OnCycle(ParentGraph(RosterOf(rows)), bounds.root.value)
    ensures bounds.maxDepth.Some? ==>
      Ancestor(RosterOf(rows), bounds.root.value, bounds.root.value, bounds.maxDepth.value)
  {
    hide Unroll, Repeats, Kids, RosterOf, DistinctIds, Take, OnCycle;
    var roster := RosterOf(rows);
    var d := Remaining(roster, bounds.maxDepth, 0);
    var starts := Starts(roster, bounds.root);
    var ts := Unroll(roster, starts, d);
    assert Left(bounds.maxNodes, 0) == bounds.maxNodes;
    if !Repeats(ts, {}) { TakeKeepsSingle(bounds.maxNodes, ts, {}); }
    if bounds.root.None? {
      RootsAtDepth(roster);
      NoRepeats(roster, starts, d, 0, {});
    }
    RepeatReturns(roster, starts, d, {}, bounds.root.value, 0);
    OwnAncestor(roster, bounds.root.value, d);
  }

  // ---------------------------------------------------------------- nodes and their rows

  /** A stored name and the id it is shown under. */
  predicate ShownAs(thread: string, id: string) {
    if "ag." <= thread then thread == "ag." + id else thread == id
  }

  /** The entry carries the id, the parent's id, the depth and the placement of one of the rows. */
  ghost predicate IsRow(rows: seq<Row>, entry: Entry) {
    exists i :: 0 <= i < |rows| && ShowsRow(rows[i], entry)
  }

  predicate ShowsRow(row: Row, entry: Entry) {
    && ShownAs(row.thread, entry.id)
    && (if row.parentThread.None? then entry.parent.None?
        else entry.parent.Some? && ShownAs(row.parentThread.value, entry.parent.value))
    && entry.depth == row.depth && entry.placement == row.placement
  }

  predicate AllBelow(ts: seq<Tree>, parent: Option<string>) {
    forall i :: 0 <= i < |ts| ==> ts[i].entry.parent == parent
  }

  /** Every node shows a row, and its children name it as their parent. */
  ghost predicate ShowsRows(rows: seq<Row>, ts: seq<Tree>) {
    ts != [] ==>
      && IsRow(rows, ts[0].entry)
      && AllBelow(ts[0].children, Some(ts[0].entry.id))
      && ShowsRows(rows, ts[0].children) && ShowsRows(rows, ts[1..])
  }

  lemma ShownPublicly(thread: string)
    ensures ShownAs(thread, PublicThreadId(thread))
  {
    if LEGACY_PREFIX <= thread { assert thread == LEGACY_PREFIX + thread[|LEGACY_PREFIX|..]; }
  }

  lemma EntryShowsRow(row: Row)
    ensures ShowsRow(row, EntryOf(row))
  {
    ShownPublicly(row.thread);
    if row.parentThread.Some? { ShownPublicly(row.parentThread.value); }
  }

  lemma {:induction false} RosterShowsRows(rows: seq<Row>, id: string)
    requires id in RosterOf(rows)
    ensures IsRow(rows, RosterOf(rows)[id])
  {
    var before, last := rows[..|rows| - 1], rows[|rows| - 1];
    if EntryOf(last).id == id {
      EntryShowsRow(last);
      assert ShowsRow(rows[|rows| - 1], RosterOf(rows)[id]);
    } else {
      RosterShowsRows(before, id);
      var i :| 0 <= i < |before| && ShowsRow(before[i], RosterOf(before)[id]);
      assert ShowsRow(rows[i], RosterOf(rows)[id]);
    }
  }

  lemma {:induction false} UnrollShowsRows(rows: seq<Row>, ids: seq<string>, d: nat)
    requires forall id :: id in ids ==> id in RosterOf(rows)
    ensures ShowsRows(rows, Unroll(RosterOf(rows), ids, d))
    decreases d, |ids|
  {
    hide IsRow, RosterOf, Preorder, AllBelow, ShowsRows, Unroll, Kids;
    var roster := RosterOf(rows);
    NothingBelow(rows, None);
    if ids == [] {
      NothingListed(roster, d);
    } else {
      UnrollHead(roster, ids, d);
      RosterShowsRows(rows, ids[0]);
      UnrollShowsRows(rows, ids[1..], d);
      if d > 0 {
        KidsNameParent(roster, ids[0]);
        UnrollShowsRows(rows, Kids(roster, Some(ids[0])), d - 1);
        UnrollParents(roster, Kids(roster, Some(ids[0])), d - 1, Some(ids[0]));
      } else {
        NothingBelow(rows, Some(ids[0]));
      }
      FirstShows(rows, Tree(roster[ids[0]], Below(roster, ids[0], d)), Unroll(roster, ids[1..], d));
    }
  }

  lemma KidsNameParent(roster: Roster, id: string)
    ensures forall kid :: kid in Kids(roster, Some(id)) ==> kid in roster && roster[kid].parent == Some(id)
  {}

  lemma NothingBelow(rows: seq<Row>, parent: Option<string>)
    ensures ShowsRows(rows, []) && AllBelow([], parent)
  {}

  lemma {:induction false} UnrollParents(roster: Roster, ids: seq<string>, d: nat, parent: Option<string>)
    requires WellKeyed(roster) && forall id :: id in ids ==> id in roster && roster[id].parent == parent
    ensures AllBelow(Unroll(roster, ids, d), parent)
    decreases |ids|
  {
    if ids != [] {
      UnrollHead(roster, ids, d);
      UnrollParents(roster, ids[1..], d, parent);
    }
  }

  lemma {:induction false} TakeAllBelow(cap: Option<int>, ts: seq<Tree>, parent: Option<string>)
    requires AllBelow(ts, parent)
    ensures AllBelow(Take(cap, ts), parent)
    decreases ts
  {
    if ts != [] && !Spent(cap) {
      var first := Tree(ts[0].entry, Take(Left(cap, 1), ts[0].children));
      TakeAllBelow(Left(cap, 1 + Size(first.children)), ts[1..], parent);
    }
  }

  lemma {:induction false} TakeShowsRows(rows: seq<Row>, cap: Option<int>, ts: seq<Tree>)
    requires ShowsRows(rows, ts)
    ensures ShowsRows(rows, Take(cap, ts))
    decreases ts
  {
    hide IsRow, AllBelow;
    if ts != [] && !Spent(cap) {
      var first := Tree(ts[0].entry, Take(Left(cap, 1), ts[0].children));
      var rest := Take(Left(cap, 1 + Size(first.children)), ts[1..]);
      TakeShowsRows(rows, Left(cap, 1), ts[0].children);
      TakeAllBelow(Left(cap, 1), ts[0].children, Some(ts[0].entry.id));
      TakeShowsRows(rows, Left(cap, 1 + Size(first.children)), ts[1..]);
      assert Take(cap, ts) == [first] + rest;
      FirstShows(rows, first, rest);
    }
  }

  lemma FirstShows(rows: seq<Row>, t: Tree, rest: seq<Tree>)
    requires IsRow(rows, t.entry) && AllBelow(t.children, Some(t.entry.id))
    requires ShowsRows(rows, t.children) && ShowsRows(rows, rest)
    ensures ShowsRows(rows, [t] + rest)
  {
    assert ([t] + rest)[1..] == rest;
  }

  /** Whatever a read returns shows rows: id, parent, depth and placement are those of one row, and
      children stand below the parent they name. */
  lemma NodesShowRows(rows: seq<Row>, bounds: Bounds)
    requires TreeOf(rows, bounds).Trees?
    ensures ShowsRows(rows, TreeOf(rows, bounds).trees)
  {
    hide ShowsRows, RosterOf, DistinctIds, Unroll, Take, Repeats;
    var roster, starts := RosterOf(rows), Starts(RosterOf(rows), bounds.root);
    var d := Remaining(roster, bounds.maxDepth, 0);
    UnrollShowsRows(rows, starts, d);
    TakeShowsRows(rows, Left(bounds.maxNodes, 0), Unroll(roster, starts, d));
  }

  /** Children, and roots, are listed strictly ascending by code units. */
  lemma KidsAscend(roster: Roster, parent: Option<string>, i: nat, j: nat)
    requires i < j < |Kids(roster, parent)|
    ensures Kids(roster, parent)[i] != Kids(roster, parent)[j]
    ensures ReadsBefore(Kids(roster, parent)[i], Kids(roster, parent)[j])
  {
    CodeUnitOrder();
    assert Sorted(CodeUnitLe, Kids(roster, parent));
    CodeUnitMeaning(Kids(roster, parent)[i], Kids(roster, parent)[j]);
  }

  // ---------------------------------------------------------------- refused reads

  /** Whatever the bounds, a read is ambiguous exactly when two rows are shown under one id; otherwise a
      start is unknown exactly when no row is shown under it. */
  lemma RefusedReads(rows: seq<Row>, bounds: Bounds)
    ensures TreeOf(rows, bounds) == Ambiguous <==> exists i, j, id :: SharedId(rows, i, j, id)
    ensures TreeOf(rows, bounds) != Ambiguous ==>
      (TreeOf(rows, bounds) == UnknownRoot <==>
         bounds.root.Some? && forall i :: 0 <= i < |rows| ==> !ShownAs(rows[i].thread, bounds.root.value))
    ensures TreeOf(rows, bounds) == Orphan ==> bounds == NO_BOUNDS
  {
    hide Unroll, Take, Repeats, RosterOf, Preorder;
    forall i | 0 <= i < |rows|
      ensures forall id :: ShownAs(rows[i].thread, id) <==> PublicThreadId(rows[i].thread) == id
    {
      ShownOnce(rows[i].thread);
    }
    if !DistinctIds(rows) {
      var i, j :| 0 <= i < j < |rows| && PublicThreadId(rows[i].thread) == PublicThreadId(rows[j].thread);
      assert SharedId(rows, i, j, PublicThreadId(rows[i].thread));
    }
  }

  ghost predicate SharedId(rows: seq<Row>, i: int, j: int, id: string) {
    0 <= i < j < |rows| && ShownAs(rows[i].thread, id) && ShownAs(rows[j].thread, id)
  }

  lemma ShownOnce(thread: string)
    ensures forall id :: ShownAs(thread, id) <==> PublicThreadId(thread) == id
  {
    ShownPublicly(thread);
    forall id | ShownAs(thread, id) ensures PublicThreadId(thread) == id {
      if LEGACY_PREFIX <= thread { assert thread[|LEGACY_PREFIX|..] == id; }
    }
  }
}
