/** Reading a stored catalog back: the rows of the active generation, ordered by their ordinals and
    grouped by provider. */
module CatalogReads {
  import opened Ordering
  import opened Catalog

  // ---------------------------------------------------------------- queries

  predicate ByOrdinal(a: ProviderRow, b: ProviderRow) {
    a.ordinal <= b.ordinal
  }

  predicate ByOrdinals(a: ModelRow, b: ModelRow) {
    a.providerOrdinal < b.providerOrdinal || (a.providerOrdinal == b.providerOrdinal && a.ordinal <= b.ordinal)
  }

  /** Without a list of providers every one is wanted. */
  predicate Wanted(ids: Option<seq<string>>, id: string) {
    ids.None? || id in ids.value
  }

  function WantedProviders(t: Tables, url: string, generation: string, ids: Option<seq<string>>): set<ProviderRow> {
    set r | r in ProvidersIn(t, url, generation) && Wanted(ids, r.providerId)
  }

  function WantedModels(t: Tables, url: string, generation: string, ids: Option<seq<string>>): set<ModelRow> {
    set r | r in ModelsIn(t, url, generation) && Wanted(ids, r.providerId)
  }

  // ---------------------------------------------------------------- assembling a snapshot

  function Keep<T>(s: seq<T>, p: T -> bool): seq<T> {
    if s == [] then [] else Keep(s[..|s| - 1], p) + (if p(s[|s| - 1]) then [s[|s| - 1]] else [])
  }

  function OfProvider(id: string): ModelRow -> bool { (r: ModelRow) => r.providerId == id }

  function ModelFrom(codec: Codec, r: ModelRow): Model {
    Model(r.modelId, r.name, codec.parse(r.metadataJson))
  }

  function ModelsFrom(codec: Codec, rows: seq<ModelRow>): seq<Model> {
    seq(|rows|, i requires 0 <= i < |rows| => ModelFrom(codec, rows[i]))
  }

  function ProviderFrom(codec: Codec, r: ProviderRow, models: seq<ModelRow>): Provider {
    Provider(r.providerId, r.name, r.api, r.npm, codec.parse(r.envJson),
        ModelsFrom(codec, Keep(models, OfProvider(r.providerId))))
  }

  function Assemble(codec: Codec, source: SourceRow, providers: seq<ProviderRow>, models: seq<ModelRow>): Snapshot {
    Snapshot(source.source, source.revision, source.refreshedAt, Cached,
             seq(|providers|, i requires 0 <= i < |providers| => ProviderFrom(codec, providers[i], models)))
  }

  method SnapshotOf(codec: Codec, source: SourceRow, providers: seq<ProviderRow>, models: seq<ModelRow>)
    returns (s: Snapshot)
    ensures s == Assemble(codec, source, providers, models)
  {
    var byProvider := GroupModels(models);
    var list: seq<Provider> := [];
    for i := 0 to |providers|
      invariant |list| == i && forall j :: 0 <= j < i ==> list[j] == ProviderFrom(codec, providers[j], models)
    {
      var r := providers[i];
      var rows := if r.providerId in byProvider then byProvider[r.providerId] else [];
      list := list + [Provider(r.providerId, r.name, r.api, r.npm, codec.parse(r.envJson), ModelsFrom(codec, rows))];
    }
    s := Snapshot(source.source, source.revision, source.refreshedAt, Cached, list);
  }

  /** Model rows by provider, each group in query order. */
  method GroupModels(models: seq<ModelRow>) returns (byProvider: map<string, seq<ModelRow>>)
    ensures forall id :: (if id in byProvider then byProvider[id] else []) == Keep(models, OfProvider(id))
  {
    byProvider := map[];
    for n := 0 to |models|
      invariant forall id :: (if id in byProvider then byProvider[id] else []) == Keep(models[..n], OfProvider(id))
    {
      assert models[..n + 1][..n] == models[..n];
      var model := models[n];
      var entries := if model.providerId in byProvider then byProvider[model.providerId] else [];
      byProvider := byProvider[model.providerId := entries + [model]];
    }
    assert models[..|models|] == models;
  }

  /** `r` is an answer to the two ordered queries for the source row. */
  ghost predicate Answers(t: Tables, codec: Codec, url: string, row: SourceRow, ids: Option<seq<string>>, r: Snapshot) {
    exists ps, ms :: AnswerOf(t, codec, url, row, ids, ps, ms, r)
  }

  ghost predicate AnswerOf(t: Tables, codec: Codec, url: string, row: SourceRow, ids: Option<seq<string>>,
                           ps: seq<ProviderRow>, ms: seq<ModelRow>, r: Snapshot) {
    && Lists(ByOrdinal, ps, WantedProviders(t, url, row.activeGeneration, ids))
    && Lists(ByOrdinals, ms, WantedModels(t, url, row.activeGeneration, ids))
    && r == Assemble(codec, row, ps, ms)
  }

  lemma RowOrders()
    ensures TotalPreorder(ByOrdinal) && TotalPreorder(ByOrdinals)
  {}

  /** `readStored`: the source row is read from `before`, the rows from the later state `after`. */
  method ReadStored(before: Tables, after: Tables, codec: Codec, url: string, ids: Option<seq<string>>)
    returns (r: Option<Snapshot>)
    ensures r.None? <==> url !in before.sources
    ensures r.Some? ==> Answers(after, codec, url, before.sources[url], ids, r.value)
  {
    if url !in before.sources { return None; }
    var source := before.sources[url];
    RowOrders();
    hide TotalPreorder, Lists;
    if ids == Some([]) {
      NothingWanted(after, url, source.activeGeneration);
      var empty := SnapshotOf(codec, source, [], []);
      assert AnswerOf(after, codec, url, source, ids, [], [], empty);
      return Some(empty);
    }
    var ps := ListSet(ByOrdinal, WantedProviders(after, url, source.activeGeneration, ids));
    var ms := ListSet(ByOrdinals, WantedModels(after, url, source.activeGeneration, ids));
    var s := SnapshotOf(codec, source, ps, ms);
    assert AnswerOf(after, codec, url, source, ids, ps, ms, s);
    r := Some(s);
  }

  lemma NothingWanted(t: Tables, url: string, generation: string)
    ensures Lists(ByOrdinal, [], WantedProviders(t, url, generation, Some([])))
    ensures Lists(ByOrdinals, [], WantedModels(t, url, generation, Some([])))
  {}

  // ---------------------------------------------------------------- keeping

  lemma {:induction false} KeepMembers<T>(s: seq<T>, p: T -> bool)
    ensures forall x :: x in Keep(s, p) <==> x in s && p(x)
  {
    if s != [] {
      KeepMembers(s[..|s| - 1], p);
      assert s == s[..|s| - 1] + [s[|s| - 1]];
    }
  }

  lemma {:induction false} KeptMember<T>(s: seq<T>, p: T -> bool, i: nat)
    requires i < |Keep(s, p)|
    ensures Keep(s, p)[i] in s
  {
    if i < |Keep(s[..|s| - 1], p)| { KeptMember(s[..|s| - 1], p, i); }
  }

  lemma {:induction false} KeepLists<T>(le: (T, T) -> bool, s: seq<T>, p: T -> bool)
    requires Sorted(le, s) && Distinct(s)
    ensures Sorted(le, Keep(s, p)) && Distinct(Keep(s, p))
  {
    if s != [] {
      var prefix := s[..|s| - 1];
      KeepLists(le, prefix, p);
      var kept := Keep(prefix, p);
      forall i | 0 <= i < |kept| ensures le(kept[i], s[|s| - 1]) && kept[i] != s[|s| - 1] {
        KeptMember(prefix, p, i);
        var j :| 0 <= j < |prefix| && prefix[j] == kept[i];
        assert s[j] == prefix[j];
      }
    }
  }

  lemma {:induction false} KeepAppend<T>(a: seq<T>, b: seq<T>, p: T -> bool)
    ensures Keep(a + b, p) == Keep(a, p) + Keep(b, p)
  {
    if b == [] {
      assert a + b == a;
    } else {
      assert (a + b)[..|a + b| - 1] == a + b[..|b| - 1];
      KeepAppend(a, b[..|b| - 1], p);
    }
  }

  lemma {:induction false} KeepAll<T>(s: seq<T>, p: T -> bool)
    requires forall x :: x in s ==> p(x)
    ensures Keep(s, p) == s
  {
    if s != [] {
      KeepAll(s[..|s| - 1], p);
      assert s == s[..|s| - 1] + [s[|s| - 1]];
    }
  }

  lemma {:induction false} KeepNone<T>(s: seq<T>, p: T -> bool)
    requires forall x :: x in s ==> !p(x)
    ensures Keep(s, p) == []
  {
    if s != [] { KeepNone(s[..|s| - 1], p); }
  }

  lemma KeepOne<T>(s: seq<T>, x: T, p: T -> bool)
    ensures Keep(s + [x], p) == Keep(s, p) + if p(x) then [x] else []
  {
    assert (s + [x])[..|s|] == s;
  }

  lemma {:induction false} KeepKeep<T>(s: seq<T>, p: T -> bool, q: T -> bool)
    requires forall x :: x in s && q(x) ==> p(x)
    ensures Keep(Keep(s, p), q) == Keep(s, q)
  {
    if s != [] {
      var kept, last := Keep(s[..|s| - 1], p), s[|s| - 1];
      KeepKeep(s[..|s| - 1], p, q);
      assert last in s;
      KeepOne(kept, last, q);
      assert kept + [] == kept;
    }
  }

  // ---------------------------------------------------------------- the rows of a snapshot, in order

  function ProviderRows(url: string, generation: string, codec: Codec, providers: seq<Provider>,
      n: nat): (rows: seq<ProviderRow>)
    requires n <= |providers|
    ensures |rows| == n && forall i :: 0 <= i < n ==> rows[i] == ProviderRowOf(url, generation, codec, providers[i], i)
  {
    seq(n, i requires 0 <= i < n => ProviderRowOf(url, generation, codec, providers[i], i))
  }

  function AllModelRows(url: string, generation: string, codec: Codec, providers: seq<Provider>, n: nat): seq<ModelRow>
    requires n <= |providers|
  {
    if n == 0 then []
    else AllModelRows(url, generation, codec, providers, n - 1)
         + ModelRows(url, generation, codec, providers[n - 1], n - 1, |providers[n - 1].models|)
  }

  lemma {:induction false} StatementRows(url: string, generation: string, codec: Codec, providers: seq<Provider>,
      n: nat)
    requires n <= |providers|
    ensures Providers(StatementsOf(url, generation, codec, providers, n)) ==
      Elements(ProviderRows(url, generation, codec, providers, n))
    ensures Models(StatementsOf(url, generation, codec, providers, n)) ==
      Elements(AllModelRows(url, generation, codec, providers, n))
  {
    hide ModelRowOf, ProviderRowOf, Inserts, Providers, Models;
    NoStatements();
    if n > 0 {
      StatementRows(url, generation, codec, providers, n - 1);
      var p := providers[n - 1];
      var before, row, rows := StatementsOf(url, generation, codec, providers, n - 1),
        ProviderRowOf(url, generation, codec, p, n - 1), ModelRows(url, generation, codec, p, n - 1, |p.models|);
      InsertedRows(before, row, rows);
      assert ProviderRows(url, generation, codec, providers, n) ==
          ProviderRows(url, generation, codec, providers, n - 1) + [row];
    }
  }

  lemma NoStatements()
    ensures Providers([]) == {} && Models([]) == {}
  {}

  lemma InsertedRows(before: seq<Statement>, row: ProviderRow, rows: seq<ModelRow>)
    ensures Providers(before + [InsertProvider(row)] + Inserts(rows)) == Providers(before) + {row}
    ensures Models(before + [InsertProvider(row)] + Inserts(rows)) == Models(before) + Elements(rows)
  {
    var all := before + [InsertProvider(row)] + Inserts(rows);
    forall r | r in Models(before) + Elements(rows) ensures r in Models(all) {
      if r in rows {
        var i :| 0 <= i < |rows| && rows[i] == r;
        assert Inserts(rows)[i] == InsertModel(r);
      }
    }
    forall r | r in Models(all) ensures r in Models(before) + Elements(rows) {
      assert InsertModel(r) in before || InsertModel(r) in Inserts(rows);
    }
    assert InsertProvider(row) in all;
  }

  /** The rows before `n` carry the position of their provider and model. */
  lemma {:induction false} RowPlace(url: string, generation: string, codec: Codec, providers: seq<Provider>, n: nat,
      r: ModelRow)
    requires n <= |providers| && r in AllModelRows(url, generation, codec, providers, n)
    ensures r.providerOrdinal < n && r.ordinal < |providers[r.providerOrdinal].models|
    ensures r == ModelRowOf(url, generation, codec, providers[r.providerOrdinal], r.providerOrdinal,
                            providers[r.providerOrdinal].models[r.ordinal], r.ordinal)
  {
    if r in AllModelRows(url, generation, codec, providers, n - 1) {
      RowPlace(url, generation, codec, providers, n - 1, r);
    }
  }

  lemma {:induction false} ModelRowsOrdered(url: string, generation: string, codec: Codec, providers: seq<Provider>,
      n: nat)
    requires n <= |providers|
    ensures Sorted(ByOrdinals, AllModelRows(url, generation, codec, providers, n))
    ensures Distinct(AllModelRows(url, generation, codec, providers, n))
  {
    if n > 0 {
      ModelRowsOrdered(url, generation, codec, providers, n - 1);
      var before := AllModelRows(url, generation, codec, providers, n - 1);
      forall i | 0 <= i < |before| ensures before[i].providerOrdinal < n - 1 {
        RowPlace(url, generation, codec, providers, n - 1, before[i]);
      }
    }
  }

  lemma ProviderRowsOrdered(url: string, generation: string, codec: Codec, providers: seq<Provider>)
    ensures Sorted(ByOrdinal, ProviderRows(url, generation, codec, providers, |providers|))
    ensures Distinct(ProviderRows(url, generation, codec, providers, |providers|))
  {}

  // ---------------------------------------------------------------- the round trip

  /** Provider ids are unique, and model ids within each provider. */
  ghost predicate Storable(providers: seq<Provider>) {
    && (forall i, j :: 0 <= i < j < |providers| ==> providers[i].id != providers[j].id)
    && (forall i :: 0 <= i < |providers| ==> DistinctModels(providers[i].models))
  }

  ghost predicate DistinctModels(models: seq<Model>) {
    forall a, b :: 0 <= a < b < |models| ==> models[a].id != models[b].id
  }

  function WantedRow(ids: Option<seq<string>>): ProviderRow -> bool { (r: ProviderRow) => Wanted(ids, r.providerId) }
  function WantedModel(ids: Option<seq<string>>): ModelRow -> bool { (r: ModelRow) => Wanted(ids, r.providerId) }
  function WantedEntry(ids: Option<seq<string>>): Provider -> bool { (p: Provider) => Wanted(ids, p.id) }

  /** What a reader sees of a snapshot. */
  function Visible(s: Snapshot, ids: Option<seq<string>>): Snapshot {
    s.(status := Cached, providers := Keep(s.providers, WantedEntry(ids)))
  }

  /** Among the rows of the first `n` providers, those of provider `k`. */
  lemma {:induction false} RowsOfOne(url: string, generation: string, codec: Codec, providers: seq<Provider>, n: nat,
      k: nat)
    requires n <= |providers| && k < |providers| && Storable(providers)
    ensures Keep(AllModelRows(url, generation, codec, providers, n), OfProvider(providers[k].id)) ==
      if k < n then ModelRows(url, generation, codec, providers[k], k, |providers[k].models|) else []
  {
    hide Storable, Keep, OfProvider;
    KeepNone([], OfProvider(providers[k].id));
    if n > 0 {
      RowsOfOne(url, generation, codec, providers, n - 1, k);
      var own := ModelRows(url, generation, codec, providers[n - 1], n - 1, |providers[n - 1].models|);
      KeepAppend(AllModelRows(url, generation, codec, providers, n - 1), own, OfProvider(providers[k].id));
      OwnRows(url, generation, codec, providers[n - 1], n - 1, providers[k].id);
      DistinctProviders(providers, n - 1, k);
    }
  }

  lemma DistinctProviders(providers: seq<Provider>, i: nat, j: nat)
    requires Storable(providers) && i < |providers| && j < |providers|
    ensures providers[i].id == providers[j].id <==> i == j
  {}

  lemma OwnRows(url: string, generation: string, codec: Codec, p: Provider, ordinal: nat, id: string)
    ensures var rows := ModelRows(url, generation, codec, p, ordinal, |p.models|);
      Keep(rows, OfProvider(id)) == if id == p.id then rows else []
  {
    var rows := ModelRows(url, generation, codec, p, ordinal, |p.models|);
    if id == p.id { KeepAll(rows, OfProvider(id)); } else { KeepNone(rows, OfProvider(id)); }
  }

  lemma ProviderBack(url: string, generation: string, codec: Codec, providers: seq<Provider>, ids: Option<seq<string>>,
      k: nat)
    requires RoundTrips(codec) && Storable(providers) && k < |providers| && Wanted(ids, providers[k].id)
    ensures ProviderFrom(codec, ProviderRowOf(url, generation, codec, providers[k], k),
                         Keep(AllModelRows(url, generation, codec, providers, |providers|), WantedModel(ids))) ==
                             providers[k]
  {
    var rows := AllModelRows(url, generation, codec, providers, |providers|);
    KeepKeep(rows, WantedModel(ids), OfProvider(providers[k].id));
    RowsOfOne(url, generation, codec, providers, |providers|, k);
    hide Storable;
    assert ModelsFrom(codec, ModelRows(url, generation, codec, providers[k], k, |providers[k].models|)) ==
        providers[k].models;
  }

  /** The providers read back from the wanted rows of the first `n`, given models `ms`. */
  lemma {:induction false} ProvidersBack(url: string, generation: string, codec: Codec, providers: seq<Provider>,
                                         ids: Option<seq<string>>, n: nat, ms: seq<ModelRow>, source: SourceRow)
    requires RoundTrips(codec) && Storable(providers) && n <= |providers|
    requires ms == Keep(AllModelRows(url, generation, codec, providers, |providers|), WantedModel(ids))
    ensures Assemble(codec, source, Keep(ProviderRows(url, generation, codec, providers, n), WantedRow(ids)),
      ms).providers ==
      Keep(providers[..n], WantedEntry(ids))
  {
    hide RoundTrips, Storable, AllModelRows, ProviderFrom;
    if n > 0 {
      ProvidersBack(url, generation, codec, providers, ids, n - 1, ms, source);
      var rows, row := ProviderRows(url, generation, codec, providers, n), ProviderRowOf(url, generation, codec,
          providers[n - 1], n - 1);
      assert rows[..n - 1] == ProviderRows(url, generation, codec, providers, n - 1) && rows[n - 1] == row;
      assert providers[..n][..n - 1] == providers[..n - 1];
      if Wanted(ids, providers[n - 1].id) { ProviderBack(url, generation, codec, providers, ids, n - 1); }
      var kept := Keep(rows[..n - 1], WantedRow(ids));
      AssembleMore(codec, source, kept, row, ms);
    }
  }

  lemma AssembleMore(codec: Codec, source: SourceRow, kept: seq<ProviderRow>, row: ProviderRow, ms: seq<ModelRow>)
    ensures Assemble(codec, source, kept + [row], ms).providers ==
      Assemble(codec, source, kept, ms).providers + [ProviderFrom(codec, row, ms)]
    ensures Assemble(codec, source, kept + [], ms).providers == Assemble(codec, source, kept, ms).providers
  {
    assert kept + [] == kept;
  }

  /** Any answer to the queries over a complete generation is the snapshot it was written from, with
      provider and model order intact. */
  lemma AnswerIsSnapshot(t: Tables, codec: Codec, url: string, row: SourceRow, ids: Option<seq<string>>, s: Snapshot,
      r: Snapshot)
    requires RoundTrips(codec) && Storable(s.providers) && Complete(t, codec, url, row.activeGeneration, s)
    requires row == SourceRow(s.source, s.revision, s.refreshedAt, row.activeGeneration)
    requires Answers(t, codec, url, row, ids, r)
    ensures r == Visible(s, ids)
  {
    var ps, ms :| AnswerOf(t, codec, url, row, ids, ps, ms, r);
    var n := |s.providers|;
    WantedRows(t, codec, url, row.activeGeneration, ids, s, ps, ms);
    ProvidersBack(url, row.activeGeneration, codec, s.providers, ids, n, ms, row);
    assert s.providers[..n] == s.providers;
  }

  lemma WantedRows(t: Tables, codec: Codec, url: string, generation: string, ids: Option<seq<string>>, s: Snapshot,
                   ps: seq<ProviderRow>, ms: seq<ModelRow>)
    requires Complete(t, codec, url, generation, s)
    requires Lists(ByOrdinal, ps, WantedProviders(t, url, generation, ids))
    requires Lists(ByOrdinals, ms, WantedModels(t, url, generation, ids))
    ensures ps == Keep(ProviderRows(url, generation, codec, s.providers, |s.providers|), WantedRow(ids))
    ensures ms == Keep(AllModelRows(url, generation, codec, s.providers, |s.providers|), WantedModel(ids))
  {
    RowOrders();
    hide TotalPreorder, AllModelRows, Keep, Sorted, Distinct, StatementsOf;
    var n := |s.providers|;
    StatementRows(url, generation, codec, s.providers, n);
    var allPs, allMs := ProviderRows(url, generation, codec, s.providers, n), AllModelRows(url, generation, codec,
        s.providers, n);
    ProviderRowsOrdered(url, generation, codec, s.providers);
    KeepLists(ByOrdinal, allPs, WantedRow(ids));
    KeepMembers(allPs, WantedRow(ids));
    ModelRowsOrdered(url, generation, codec, s.providers, n);
    KeepLists(ByOrdinals, allMs, WantedModel(ids));
    KeepMembers(allMs, WantedModel(ids));
    assert ProvidersIn(t, url, generation) == Elements(allPs) && ModelsIn(t, url, generation) == Elements(allMs);
    forall a, b | a in allMs && b in allMs && ByOrdinals(a, b) && ByOrdinals(b, a) ensures a == b {
      RowPlace(url, generation, codec, s.providers, n, a);
      RowPlace(url, generation, codec, s.providers, n, b);
    }
    assert Elements(Keep(allPs, WantedRow(ids))) == WantedProviders(t, url, generation, ids);
    assert Elements(Keep(allMs, WantedModel(ids))) == WantedModels(t, url, generation, ids);
    ListingUnique(ByOrdinal, ps, Keep(allPs, WantedRow(ids)), WantedProviders(t, url, generation, ids));
    ListingUnique(ByOrdinals, ms, Keep(allMs, WantedModel(ids)), WantedModels(t, url, generation, ids));
  }

  // ---------------------------------------------------------------- what a reader sees

  /** `x` stands before `y` in the list. */
  ghost predicate InOrder<T>(all: seq<T>, x: T, y: T) {
    exists a, b :: 0 <= a < b < |all| && all[a] == x && all[b] == y
  }

  /** The providers a reader sees of a snapshot: all of them, or the wanted ones, in the same order. */
  lemma VisibleIs(s: Snapshot, ids: Option<seq<string>>)
    ensures var seen := Visible(s, ids);
      && seen.source == s.source && seen.revision == s.revision && seen.refreshedAt == s.refreshedAt
      && seen.status == Cached
      && (ids.None? ==> seen.providers == s.providers)
      && (forall p :: p in seen.providers <==> p in s.providers && (ids.None? || p.id in ids.value))
      && (forall i, j :: 0 <= i < j < |seen.providers| ==>
            InOrder(s.providers, seen.providers[i], seen.providers[j]))
  {
    KeptAre(s.providers, WantedEntry(ids));
    if ids.None? { EverythingKept(s.providers, WantedEntry(ids)); }
    forall i, j | 0 <= i < j < |Visible(s, ids).providers|
      ensures InOrder(s.providers, Visible(s, ids).providers[i], Visible(s, ids).providers[j])
    {
      var a, b := KeptInOrder(s.providers, WantedEntry(ids), i, j);
    }
  }

  lemma {:induction false} KeptAre<T>(all: seq<T>, p: T -> bool)
    ensures forall x :: x in Keep(all, p) <==> x in all && p(x)
  {
    if all != [] {
      KeptAre(all[..|all| - 1], p);
      assert forall x :: x in all <==> x in all[..|all| - 1] || x == all[|all| - 1];
    }
  }

  lemma {:induction false} EverythingKept<T>(all: seq<T>, p: T -> bool)
    requires forall i :: 0 <= i < |all| ==> p(all[i])
    ensures Keep(all, p) == all
  {
    if all != [] {
      var last := |all| - 1;
      EverythingKept(all[..last], p);
      assert all == all[..last] + [all[last]];
    }
  }

  lemma {:induction false} KeptInOrder<T>(all: seq<T>, p: T -> bool, i: nat, j: nat) returns (a: nat, b: nat)
    requires i < j < |Keep(all, p)|
    ensures a < b < |all| && all[a] == Keep(all, p)[i] && all[b] == Keep(all, p)[j]
  {
    var before := Keep(all[..|all| - 1], p);
    if j < |before| {
      a, b := KeptInOrder(all[..|all| - 1], p, i, j);
    } else {
      b := |all| - 1;
      a := KeptAt(all[..b], p, i);
    }
  }

  lemma {:induction false} KeptAt<T>(all: seq<T>, p: T -> bool, i: nat) returns (a: nat)
    requires i < |Keep(all, p)|
    ensures a < |all| && all[a] == Keep(all, p)[i]
  {
    var before := Keep(all[..|all| - 1], p);
    if i < |before| { a := KeptAt(all[..|all| - 1], p, i); } else { a := |all| - 1; }
  }
}
