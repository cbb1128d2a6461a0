/** What a catalog database holds after any run of concurrent writers, and the writer itself. */
module CatalogWrites {
  import opened Ordering
  import opened Runs
  import opened Catalog
  import opened CatalogReads

  // ---------------------------------------------------------------- primary keys

  ghost predicate KeysUnique(t: Tables) {
    && (forall a, b :: a in t.providers && b in t.providers && SameProviderKey(a, b) ==> a == b)
    && (forall a, b :: a in t.models && b in t.models && SameModelKey(a, b) ==> a == b)
  }

  lemma {:induction false} ExecuteKeepsKeys(t: Tables, batch: seq<Statement>)
    requires KeysUnique(t) && Execute(t, batch).Some?
    ensures KeysUnique(Execute(t, batch).value)
    decreases batch
  {
    if batch != [] { ExecuteKeepsKeys(InsertRow(t, batch[0]), batch[1..]); }
  }

  lemma StepKeepsKeys(s: State, codec: Codec, e: Event)
    requires KeysUnique(s.tables) && Enabled(s, codec, e)
    ensures KeysUnique(Apply(s, codec, e).tables)
  {
    if e.RunBatch? || (e.BatchFails? && e.applied) {
      ExecuteKeepsKeys(s.tables, s.writers[e.w].batches[s.writers[e.w].phase.next]);
    }
    hide SameProviderKey, SameModelKey, Execute, StatementsOf;
  }

  lemma {:induction false} RunKeepsKeys(codec: Codec, events: seq<Event>)
    requires Run(EMPTY, codec, events).Some?
    ensures KeysUnique(Run(EMPTY, codec, events).value.tables)
  {
    hide KeysUnique, Enabled, Apply;
    NoKeys();
    if events != [] {
      RunKeepsKeys(codec, events[..|events| - 1]);
      StepKeepsKeys(Run(EMPTY, codec, events[..|events| - 1]).value, codec, events[|events| - 1]);
    }
  }

  lemma NoKeys()
    ensures KeysUnique(EMPTY.tables)
  {}

  lemma {:induction false} RowListed(url: string, generation: string, codec: Codec, providers: seq<Provider>, n: nat,
      i: nat, a: nat)
    requires i < n <= |providers| && a < |providers[i].models|
    ensures ModelRowOf(url, generation, codec, providers[i], i, providers[i].models[a], a) in AllModelRows(url,
      generation, codec, providers, n)
  {
    if i < n - 1 {
      RowListed(url, generation, codec, providers, n - 1, i, a);
    } else {
      var rows := ModelRows(url, generation, codec, providers[i], i, |providers[i].models|);
      assert rows[a] in rows;
    }
  }

  /** Only snapshots whose provider ids, and model ids within a provider, are unique can be stored whole. */
  lemma StoredIsStorable(t: Tables, codec: Codec, url: string, generation: string, snapshot: Snapshot)
    requires KeysUnique(t) && Complete(t, codec, url, generation, snapshot)
    ensures Storable(snapshot.providers)
  {
    var ps, n := snapshot.providers, |snapshot.providers|;
    StatementRows(url, generation, codec, ps, n);
    var rows := ProviderRows(url, generation, codec, ps, n);
    hide StatementsOf;
    forall i, j | 0 <= i < j < n ensures ps[i].id != ps[j].id {
      assert rows[i] in ProvidersIn(t, url, generation) && rows[j] in ProvidersIn(t, url, generation);
      assert rows[i].ordinal != rows[j].ordinal;
    }
    forall i | 0 <= i < n ensures DistinctModels(ps[i].models) {
      forall a, b | 0 <= a < b < |ps[i].models| ensures ps[i].models[a].id != ps[i].models[b].id {
        RowListed(url, generation, codec, ps, n, i, a);
        RowListed(url, generation, codec, ps, n, i, b);
        StoredApart(t, url, generation, ModelRowOf(url, generation, codec, ps[i], i, ps[i].models[a], a),
                    ModelRowOf(url, generation, codec, ps[i], i, ps[i].models[b], b));
      }
    }
  }

  lemma StoredApart(t: Tables, url: string, generation: string, a: ModelRow, b: ModelRow)
    requires KeysUnique(t) && a in ModelsIn(t, url, generation) && b in ModelsIn(t, url, generation)
    ensures a != b ==> !SameModelKey(a, b)
  {}

  // ---------------------------------------------------------------- when a write can succeed

  predicate Clash(a: Statement, b: Statement) {
    || (a.InsertProvider? && b.InsertProvider? && SameProviderKey(a.provider, b.provider))
    || (a.InsertModel? && b.InsertModel? && SameModelKey(a.model, b.model))
  }

  ghost predicate ClashFree(batch: seq<Statement>) {
    forall i, j :: 0 <= i < j < |batch| ==> !Clash(batch[i], batch[j])
  }

  lemma {:induction false} ClashFreeExecutes(t: Tables, batch: seq<Statement>)
    requires ClashFree(batch) && forall s :: s in batch ==> !Conflicts(t, s)
    ensures Execute(t, batch).Some?
    decreases batch
  {
    if batch != [] {
      var t', rest := InsertRow(t, batch[0]), batch[1..];
      forall s | s in rest ensures !Conflicts(t', s) {
        var j :| 0 <= j < |rest| && rest[j] == s;
        assert s == batch[j + 1] && s in batch && !Clash(batch[0], batch[j + 1]);
      }
      ClashFreeExecutes(t', rest);
    }
  }

  lemma ClashFreeAppend(a: seq<Statement>, b: seq<Statement>)
    requires ClashFree(a) && ClashFree(b) && forall x, y :: x in a && y in b ==> !Clash(x, y)
    ensures ClashFree(a + b)
  {
    var s := a + b;
    forall i, j | 0 <= i < j < |s| ensures !Clash(s[i], s[j]) {
      if i < |a| { assert s[i] in a; }
      if j >= |a| { assert s[j] in b; }
    }
  }

  /** Statements of the first `n` providers name one of those providers. */
  lemma {:induction false} StatementProvider(url: string, generation: string, codec: Codec, providers: seq<Provider>,
      n: nat, s: Statement)
    returns (i: nat)
    requires n <= |providers| && s in StatementsOf(url, generation, codec, providers, n)
    ensures i < n && providers[i].id == if s.InsertProvider? then s.provider.providerId else s.model.providerId
  {
    if s in StatementsOf(url, generation, codec, providers, n - 1) {
      i := StatementProvider(url, generation, codec, providers, n - 1, s);
    } else {
      i := n - 1;
    }
  }

  lemma {:induction false} StorableIsClashFree(url: string, generation: string, codec: Codec, providers: seq<Provider>,
      n: nat)
    requires n <= |providers| && Storable(providers)
    ensures ClashFree(StatementsOf(url, generation, codec, providers, n))
  {
    if n > 0 {
      var p := providers[n - 1];
      StorableIsClashFree(url, generation, codec, providers, n - 1);
      var before := StatementsOf(url, generation, codec, providers, n - 1);
      var head := [InsertProvider(ProviderRowOf(url, generation, codec, p, n - 1))];
      var rest := Inserts(ModelRows(url, generation, codec, p, n - 1, |p.models|));
      assert DistinctModels(p.models);
      ClashFreeAppend(head, rest);
      forall x, y | x in before && y in head + rest ensures !Clash(x, y) {
        var i := StatementProvider(url, generation, codec, providers, n - 1, x);
        DistinctProviders(providers, i, n - 1);
      }
      hide Storable, ClashFree, Clash;
      ClashFreeAppend(before, head + rest);
      assert before + (head + rest) == before + head + rest;
    }
  }

  /** All statements of a write under an unused generation go through exactly when the snapshot's ids
      are unique; otherwise a primary key refuses one of them. */
  lemma WriteGoesThroughIff(t: Tables, codec: Codec, url: string, generation: string, snapshot: Snapshot)
    requires KeysUnique(t) && Holds(t, url, generation, [])
    ensures Execute(t, StatementsOf(url, generation, codec, snapshot.providers, |snapshot.providers|)).Some? <==>
      Storable(snapshot.providers)
  {
    var all := StatementsOf(url, generation, codec, snapshot.providers, |snapshot.providers|);
    StatementsTarget(url, generation, codec, snapshot.providers, |snapshot.providers|);
    if Execute(t, all).Some? {
      BatchExtends(t, url, generation, [], all);
      ExecuteKeepsKeys(t, all);
      assert [] + all == all;
      hide Execute, StatementsOf;
      StoredIsStorable(Execute(t, all).value, codec, url, generation, snapshot);
    }
    if Storable(snapshot.providers) {
      StorableIsClashFree(url, generation, codec, snapshot.providers, |snapshot.providers|);
      hide Execute, StatementsOf, ClashFree, Storable;
      forall s | s in all ensures !Conflicts(t, s) {
        assert Targets(s, url, generation);
        FreeKey(t, url, generation, s);
      }
      ClashFreeExecutes(t, all);
    }
  }

  lemma FreeKey(t: Tables, url: string, generation: string, s: Statement)
    requires Holds(t, url, generation, []) && Targets(s, url, generation)
    ensures !Conflicts(t, s)
  {
    assert forall q :: q in t.providers ==> q !in ProvidersIn(t, url, generation);
    assert forall q :: q in t.models ==> q !in ModelsIn(t, url, generation);
  }

  // ---------------------------------------------------------------- published snapshots were written

  ghost predicate WrittenBy(events: seq<Event>, url: string, generation: string, snapshot: Snapshot) {
    exists e :: e in events && Wrote(e, url, generation, snapshot)
  }

  predicate Wrote(e: Event, url: string, generation: string, snapshot: Snapshot) {
    e.Begin? && e.url == url && e.generation == generation && e.snapshot == snapshot
  }

  ghost predicate AllWritten(s: State, events: seq<Event>) {
    && (forall g :: g in s.published ==> WrittenBy(events, s.published[g].url, g, s.published[g].snapshot))
    && (forall w :: w in s.writers ==>
        WrittenBy(events, s.writers[w].url, s.writers[w].generation, s.writers[w].snapshot))
  }

  lemma {:induction false} RunWasWritten(codec: Codec, events: seq<Event>)
    requires Run(EMPTY, codec, events).Some?
    ensures AllWritten(Run(EMPTY, codec, events).value, events)
  {
    hide AllWritten, Enabled, Apply;
    NothingWritten();
    if events != [] {
      var prefix, e := events[..|events| - 1], events[|events| - 1];
      RunWasWritten(codec, prefix);
      StepWasWritten(Run(EMPTY, codec, prefix).value, codec, prefix, e);
      assert events == prefix + [e];
    }
  }

  lemma NothingWritten()
    ensures AllWritten(EMPTY, [])
  {}

  lemma StepWasWritten(s: State, codec: Codec, prefix: seq<Event>, e: Event)
    requires AllWritten(s, prefix) && Enabled(s, codec, e)
    ensures AllWritten(Apply(s, codec, e), prefix + [e])
  {
    hide WrittenBy, Execute, StatementsOf;
    var t, events := Apply(s, codec, e), prefix + [e];
    forall g | g in s.published ensures WrittenBy(events, s.published[g].url, g, s.published[g].snapshot) {
      StillWritten(prefix, e, s.published[g].url, g, s.published[g].snapshot);
    }
    forall w | w in s.writers
      ensures WrittenBy(events, s.writers[w].url, s.writers[w].generation, s.writers[w].snapshot)
    {
      StillWritten(prefix, e, s.writers[w].url, s.writers[w].generation, s.writers[w].snapshot);
    }
    if e.Begin? { NowWritten(prefix, e); }
  }

  lemma StillWritten(prefix: seq<Event>, e: Event, url: string, generation: string, snapshot: Snapshot)
    requires WrittenBy(prefix, url, generation, snapshot)
    ensures WrittenBy(prefix + [e], url, generation, snapshot)
  {
    var b :| b in prefix && Wrote(b, url, generation, snapshot);
    assert b in prefix + [e];
  }

  lemma NowWritten(prefix: seq<Event>, e: Event)
    requires e.Begin?
    ensures WrittenBy(prefix + [e], e.url, e.generation, e.snapshot)
  {
    assert e in prefix + [e] && Wrote(e, e.url, e.generation, e.snapshot);
  }

  // ---------------------------------------------------------------- what readers see

  lemma StoredProvider(t: Tables, codec: Codec, url: string, g: string, x: Snapshot) returns (row: ProviderRow)
    requires Complete(t, codec, url, g, x) && x.providers != []
    ensures row in t.providers && row.sourceUrl == url && row.generation == g
  {
    var n := |x.providers|;
    var statements := StatementsOf(url, g, codec, x.providers, n);
    row := ProviderRowOf(url, g, codec, x.providers[n - 1], n - 1);
    assert InsertProvider(row) in statements;
    assert row in Providers(statements);
    assert row in ProvidersIn(t, url, g);
  }

  /** A generation without rows is complete exactly for a snapshot without providers. */
  lemma CompleteWhenUnstored(t: Tables, codec: Codec, url: string, g: string, x: Snapshot)
    requires Unstored(t, url, g)
    ensures Complete(t, codec, url, g, x) <==> x.providers == []
  {
    if Complete(t, codec, url, g, x) && x.providers != [] { CompleteIsStored(t, codec, url, g, x); }
  }

  lemma CompleteIsStored(t: Tables, codec: Codec, url: string, g: string, x: Snapshot)
    requires Complete(t, codec, url, g, x) && x.providers != []
    ensures !Unstored(t, url, g)
  {
    var row := StoredProvider(t, codec, url, g, x);
    assert row in ProvidersIn(t, url, g);
  }

  /** What is left to see of a generation's snapshot: nothing once its own writer has removed its rows. */
  function Shown(s: State, generation: string, snapshot: Snapshot): Snapshot {
    if generation in s.gone then snapshot.(providers := []) else snapshot
  }

  /** In every run: a read whose source row was taken after `events` and whose rows are queried after
      `more`, with no switch of that url in between, returns the whole of one snapshot some writer was
      given for that url, provider and model order intact, for every batch size; or its head without any
      providers, when a writer whose switch took effect has removed its rows. */
  lemma ReadReturnsWritten(codec: Codec, events: seq<Event>, more: seq<Event>, url: string, ids: Option<seq<string>>,
      r: Snapshot)
    returns (generation: string, snapshot: Snapshot)
    requires RoundTrips(codec)
    requires Run(EMPTY, codec, events).Some? && Run(EMPTY, codec, events + more).Some?
    requires url in Run(EMPTY, codec, events).value.tables.sources
    requires url in Run(EMPTY, codec, events + more).value.tables.sources
    requires Run(EMPTY, codec, events + more).value.tables.sources[url] ==
      Run(EMPTY, codec, events).value.tables.sources[url]
    requires Answers(Run(EMPTY, codec, events + more).value.tables, codec, url,
      Run(EMPTY, codec, events).value.tables.sources[url], ids, r)
    ensures WrittenBy(events + more, url, generation, snapshot)
    ensures generation == Run(EMPTY, codec, events).value.tables.sources[url].activeGeneration
    ensures var shown := Shown(Run(EMPTY, codec, events + more).value, generation, snapshot);
      Storable(shown.providers) && r == Visible(shown, ids)
  {
    hide Run, Answers, RoundTrips, Storable, Inv, AllWritten, KeysUnique;
    var s, later := Run(EMPTY, codec, events).value, Run(EMPTY, codec, events + more).value;
    RunKeepsInv(codec, events + more);
    RunKeepsKeys(codec, events + more);
    RunWasWritten(codec, events + more);
    generation := s.tables.sources[url].activeGeneration;
    snapshot := ActiveSnapshot(later, codec, events + more, url);
    var shown := Shown(later, generation, snapshot);
    StoredIsStorable(later.tables, codec, url, generation, shown);
    AnswerIsSnapshot(later.tables, codec, url, s.tables.sources[url], ids, shown, r);
  }

  lemma ActiveSnapshot(s: State, codec: Codec, events: seq<Event>, url: string) returns (snapshot: Snapshot)
    requires Inv(s, codec) && AllWritten(s, events) && url in s.tables.sources
    ensures var row := s.tables.sources[url];
      && WrittenBy(events, url, row.activeGeneration, snapshot)
      && row == SourceRow(snapshot.source, snapshot.revision, snapshot.refreshedAt, row.activeGeneration)
      && Complete(s.tables, codec, url, row.activeGeneration, Shown(s, row.activeGeneration, snapshot))
  {
    hide Complete, WrittenBy, Unstored;
    var row := s.tables.sources[url];
    assert RowOk(s.tables, s.published, s.gone, codec, url, row);
    snapshot := s.published[row.activeGeneration].snapshot;
    if row.activeGeneration in s.gone {
      CompleteWhenUnstored(s.tables, codec, url, row.activeGeneration, snapshot.(providers := []));
    }
  }

  /** The rows of every active generation are the whole of its snapshot, if and only if that has no
      providers or the generation's own writer has not removed them. */
  lemma ActiveCompleteIff(codec: Codec, events: seq<Event>, url: string)
    requires Run(EMPTY, codec, events).Some? && url in Run(EMPTY, codec, events).value.tables.sources
    ensures var s := Run(EMPTY, codec, events).value;
      var g := s.tables.sources[url].activeGeneration;
      && g in s.published && s.published[g].url == url
      && (Complete(s.tables, codec, url, g, s.published[g].snapshot) <==>
            s.published[g].snapshot.providers == [] || !RemovedByOwner(codec, events, g))
  {
    hide Run, Complete, Unstored;
    RunKeepsInv(codec, events);
    var s := Run(EMPTY, codec, events).value;
    var g := s.tables.sources[url].activeGeneration;
    assert RowOk(s.tables, s.published, s.gone, codec, url, s.tables.sources[url]);
    GoneIffRemoved(codec, events, g);
    if g in s.gone { CompleteWhenUnstored(s.tables, codec, url, g, s.published[g].snapshot); }
  }

  /** Some step of these events is an applied clean-up by the writer of this generation. */
  ghost predicate RemovedByOwner(codec: Codec, events: seq<Event>, g: string) {
    exists n: nat :: RemovesOwn(codec, events, n, g)
  }

  ghost predicate RemovesOwn(codec: Codec, events: seq<Event>, n: nat, g: string) {
    && n < |events| && (events[n].CleanUp? || (events[n].CleanUpFails? && events[n].applied))
    && Run(EMPTY, codec, events[..n]).Some?
    && var s := Run(EMPTY, codec, events[..n]).value;
       events[n].w in s.writers && s.writers[events[n].w].generation == g
  }

  lemma {:induction false} GoneIffRemoved(codec: Codec, events: seq<Event>, g: string)
    requires Run(EMPTY, codec, events).Some?
    ensures g in Run(EMPTY, codec, events).value.gone <==> RemovedByOwner(codec, events, g)
  {
    if events != [] {
      var prefix, n := events[..|events| - 1], |events| - 1;
      GoneIffRemoved(codec, prefix, g);
      var s := Run(EMPTY, codec, prefix).value;
      StepGone(s, codec, events[n]);
      hide RunOf, Enabled, Apply;
      assert Run(EMPTY, codec, events) == Some(Apply(s, codec, events[n])) by {
        assert events == prefix + [events[n]];
        RunOne(StepOf(codec), EMPTY, prefix, events[n]);
      }
      assert prefix == events[..n];
      if RemovedByOwner(codec, prefix, g) {
        var m: nat :| RemovesOwn(codec, prefix, m, g);
        assert prefix[..m] == events[..m] && RemovesOwn(codec, events, m, g);
      }
      if RemovedByOwner(codec, events, g) {
        var m: nat :| RemovesOwn(codec, events, m, g);
        if m < n { assert prefix[..m] == events[..m] && RemovesOwn(codec, prefix, m, g); }
      }
      if g in Apply(s, codec, events[n]).gone && g !in s.gone { assert RemovesOwn(codec, events, n, g); }
    }
  }

  lemma StepGone(s: State, codec: Codec, e: Event)
    requires Enabled(s, codec, e)
    ensures Apply(s, codec, e).gone ==
      if e.CleanUp? || (e.CleanUpFails? && e.applied) then s.gone + {s.writers[e.w].generation} else s.gone
    ensures e.CleanUp? || e.CleanUpFails? ==> e.w in s.writers
  {
    hide Execute, StatementsOf;
  }

  /** When no switch that was applied reports an error, no published generation is removed by its own
      writer: every active generation is complete. */
  lemma {:induction false} HonestKeepsPublished(codec: Codec, events: seq<Event>)
    requires Run(EMPTY, codec, events).Some? && AllHonest(events)
    ensures Run(EMPTY, codec, events).value.gone !! Run(EMPTY, codec, events).value.published.Keys
    ensures var s := Run(EMPTY, codec, events).value;
      forall w :: w in s.writers && s.writers[w].phase.Cleaning? ==> s.writers[w].generation !in s.published
  {
    if events != [] {
      var prefix, e := events[..|events| - 1], events[|events| - 1];
      HonestKeepsPublished(codec, prefix);
      RunKeepsInv(codec, prefix);
      assert Honest(e);
      HonestStep(Run(EMPTY, codec, prefix).value, codec, e);
    }
  }

  lemma HonestStep(s: State, codec: Codec, e: Event)
    requires Inv(s, codec) && Honest(e) && Enabled(s, codec, e) && s.gone !! s.published.Keys
    requires forall w :: w in s.writers && s.writers[w].phase.Cleaning? ==> s.writers[w].generation !in s.published
    ensures var t := Apply(s, codec, e);
      && t.gone !! t.published.Keys
      && forall w :: w in t.writers && t.writers[w].phase.Cleaning? ==> t.writers[w].generation !in t.published
  {
    hide ActiveOk, Execute, StatementsOf, Holds, Unstored, NotActive;
    if !e.Begin? { assert WriterOk(s.tables, s.published, codec, s.writers[e.w]); }
  }

  // ---------------------------------------------------------------- a write with nothing beside it

  /** Every stored row belongs to the active generation of its url. */
  ghost predicate Tidy(t: Tables) {
    && (forall r :: r in t.providers ==>
        r.sourceUrl in t.sources && t.sources[r.sourceUrl].activeGeneration == r.generation)
    && (forall r :: r in t.models ==>
        r.sourceUrl in t.sources && t.sources[r.sourceUrl].activeGeneration == r.generation)
  }

  lemma {:induction false} FlattenPrefix<T>(batches: seq<seq<T>>, k: nat) returns (rest: seq<T>)
    requires k <= |batches|
    ensures Flatten(batches) == Flatten(batches[..k]) + rest
  {
    if k == |batches| {
      assert batches[..k] == batches;
      rest := [];
    } else {
      rest := FlattenPrefix(batches[..|batches| - 1], k);
      assert batches[..|batches| - 1][..k] == batches[..k];
      rest := rest + batches[|batches| - 1];
    }
  }

  /** The batches of a lone writer go through one after the other. */
  lemma InsertAll(s: State, codec: Codec, w: WriterId) returns (events: seq<Event>)
    requires w in s.writers && s.writers[w].phase == Inserting(0)
    requires Execute(s.tables, Flatten(s.writers[w].batches)).Some?
    ensures AllHonest(events)
    ensures var x := s.writers[w];
      Run(s, codec, events) == Some(To(s.(tables := Execute(s.tables, Flatten(x.batches)).value), w,
          Inserting(|x.batches|)))
  {
    hide UpTo;
    events := [];
    NoneInserted(s, codec, w);
    for k := 0 to |s.writers[w].batches|
      invariant AllHonest(events) && UpTo(s, codec, w, k, events)
    {
      OneMore(s, codec, w, k, events);
      events := events + [RunBatch(w)];
    }
    AllInserted(s, codec, w, events);
  }

  /** After `events` the first `k` batches of `w` are in and nothing else changed. */
  ghost predicate UpTo(s: State, codec: Codec, w: WriterId, k: nat, events: seq<Event>)
    requires w in s.writers && k <= |s.writers[w].batches|
  {
    var x := s.writers[w];
    && Execute(s.tables, Flatten(x.batches[..k])).Some?
    && Run(s, codec, events) ==
        Some(To(s.(tables := Execute(s.tables, Flatten(x.batches[..k])).value), w, Inserting(k)))
  }

  lemma NoneInserted(s: State, codec: Codec, w: WriterId)
    requires w in s.writers && s.writers[w].phase == Inserting(0)
    ensures UpTo(s, codec, w, 0, [])
  {
    assert s.writers[w].batches[..0] == [];
    ExecuteNothing(s.tables);
    RunNothing(s, codec);
    assert To(s, w, Inserting(0)) == s;
  }

  lemma AllInserted(s: State, codec: Codec, w: WriterId, events: seq<Event>)
    requires w in s.writers && UpTo(s, codec, w, |s.writers[w].batches|, events)
    ensures var x := s.writers[w];
      && Execute(s.tables, Flatten(x.batches)).Some?
      && Run(s, codec, events) ==
          Some(To(s.(tables := Execute(s.tables, Flatten(x.batches)).value), w, Inserting(|x.batches|)))
  {
    var x := s.writers[w];
    assert x.batches[..|x.batches|] == x.batches;
  }

  lemma OneMore(s: State, codec: Codec, w: WriterId, k: nat, events: seq<Event>)
    requires w in s.writers && k < |s.writers[w].batches| && Execute(s.tables, Flatten(s.writers[w].batches)).Some?
    requires UpTo(s, codec, w, k, events)
    ensures UpTo(s, codec, w, k + 1, events + [RunBatch(w)])
  {
    hide RunOf, Enabled, Apply, Execute, To;
    var x := s.writers[w];
    var done, t := Flatten(x.batches[..k]), Execute(s.tables, Flatten(x.batches[..k])).value;
    assert x.batches[..k + 1][..k] == x.batches[..k];
    var rest := FlattenPrefix(x.batches, k + 1);
    assert Flatten(x.batches) == done + (x.batches[k] + rest);
    ExecuteAppend(s.tables, done, x.batches[k] + rest);
    ExecuteAppend(t, x.batches[k], rest);
    ExecuteAppend(s.tables, done, x.batches[k]);
    BatchGoes(s, codec, w, k, t);
    RunOne(StepOf(codec), s, events, RunBatch(w));
  }

  lemma RunNothing(s: State, codec: Codec)
    ensures Run(s, codec, []) == Some(s)
  {}

  lemma ExecuteNothing(t: Tables)
    ensures Execute(t, Flatten([])) == Some(t)
  {}

  lemma BatchGoes(s: State, codec: Codec, w: WriterId, k: nat, t: Tables)
    requires w in s.writers && k < |s.writers[w].batches| && Execute(t, s.writers[w].batches[k]).Some?
    ensures var now := To(s.(tables := t), w, Inserting(k));
      && Enabled(now, codec, RunBatch(w))
      && Apply(now, codec, RunBatch(w)) ==
          To(s.(tables := Execute(t, s.writers[w].batches[k]).value), w, Inserting(k + 1))
  {}

  /** With no other writer and no failure, a write of a snapshot with unique ids completes, makes its
      generation the active one and leaves only active rows behind. */
  lemma WriteAlone(s: State, codec: Codec, w: WriterId, url: string, snapshot: Snapshot, batches: seq<seq<Statement>>,
      generation: string)
    returns (events: seq<Event>)
    requires Inv(s, codec) && KeysUnique(s.tables) && Tidy(s.tables) && s.writers == map[]
    requires Enabled(s, codec, Begin(w, url, snapshot, batches, generation)) && Storable(snapshot.providers)
    ensures Run(s, codec, events).Some? && AllHonest(events)
    ensures var t := Run(s, codec, events).value;
      && Tidy(t.tables) && t.writers == map[]
      && url in t.tables.sources && t.tables.sources[url].activeGeneration == generation
      && Complete(t.tables, codec, url, generation, snapshot)
  {
    var begin := Begin(w, url, snapshot, batches, generation);
    var s1 := Apply(s, codec, begin);
    RunNothing(s, codec);
    RunOne(StepOf(codec), s, [], begin);
    assert [] + [begin] == [begin];
    UnusedEmpty(s, codec, url, generation);
    WriteGoesThroughIff(s.tables, codec, url, generation, snapshot);
    var inserts := InsertAll(s1, codec, w);
    RunJoin(StepOf(codec), s, [begin], inserts);
    events := [begin] + inserts;
    var s2 := Run(s, codec, events).value;
    LastSteps(s, s2, codec, w, generation);
    RunOne(StepOf(codec), s, events, Switch(w));
    events := events + [Switch(w)];
    if s1.writers[w].previous.Some? {
      RunOne(StepOf(codec), s, events, Retire(w));
      events := events + [Retire(w)];
    }
  }

  lemma UnusedEmpty(s: State, codec: Codec, url: string, generation: string)
    requires Inv(s, codec) && generation !in s.used
    ensures Holds(s.tables, url, generation, [])
  {}

  /** From the last batch on: the switch is enabled, and after it and the removal of the previous
      generation only active rows are left. */
  lemma LastSteps(s: State, s2: State, codec: Codec, w: WriterId, generation: string)
    requires Inv(s, codec) && Tidy(s.tables) && s.writers == map[] && generation !in s.used
    requires s2.writers.Keys == {w} && s2.writers[w].generation == generation && AtSwitch(s2.writers[w])
    requires var x := s2.writers[w];
      && x.previous == (if x.url in s.tables.sources then Some(s.tables.sources[x.url].activeGeneration) else None)
      && Holds(s.tables, x.url, generation, [])
      && Flatten(x.batches) == StatementsOf(x.url, generation, codec, x.snapshot.providers, |x.snapshot.providers|)
      && Execute(s.tables, Flatten(x.batches)) == Some(s2.tables)
    ensures Enabled(s2, codec, Switch(w))
    ensures var x, s3 := s2.writers[w], Apply(s2, codec, Switch(w));
      && (x.previous.None? ==> Finished(s3, codec, x))
      && (x.previous.Some? ==> Enabled(s3, codec, Retire(w)) && Finished(Apply(s3, codec, Retire(w)), codec, x))
  {
    hide Execute, StatementsOf;
    var x := s2.writers[w];
    var all := StatementsOf(x.url, generation, codec, x.snapshot.providers, |x.snapshot.providers|);
    StatementsTarget(x.url, generation, codec, x.snapshot.providers, |x.snapshot.providers|);
    BatchExtends(s.tables, x.url, generation, [], all);
    assert [] + all == all;
    ExecuteAdds(s.tables, all);
    assert x.previous.Some? ==> x.previous.value in s.published && x.previous.value != generation by {
      PreviousKnown(s, codec, x);
    }
  }

  lemma PreviousKnown(s: State, codec: Codec, x: Writer)
    requires Inv(s, codec) && x.generation !in s.used
    requires x.previous == (if x.url in s.tables.sources then Some(s.tables.sources[x.url].activeGeneration) else None)
    ensures x.previous.Some? ==> x.previous.value in s.published && x.previous.value != x.generation
  {
    if x.url in s.tables.sources { assert RowOk(s.tables, s.published, s.gone, codec, x.url, s.tables.sources[x.url]); }
  }

  ghost predicate Finished(s: State, codec: Codec, x: Writer) {
    && Tidy(s.tables) && s.writers == map[]
    && x.url in s.tables.sources && s.tables.sources[x.url].activeGeneration == x.generation
    && Complete(s.tables, codec, x.url, x.generation, x.snapshot)
  }

  // ---------------------------------------------------------------- where the guarantees end

  function OneProvider(env: Json): Snapshot {
    Snapshot("models.dev", "r1", 0.0, Fresh, [Provider("p", "P", None, None, env, [])])
  }

  function OneRow(codec: Codec, generation: string, env: Json): ProviderRow {
    ProviderRowOf("u", generation, codec, OneProvider(env).providers[0], 0)
  }

  function BeginOne(w: WriterId, codec: Codec, generation: string, env: Json): Event {
    Begin(w, "u", OneProvider(env), [[InsertProvider(OneRow(codec, generation, env))]], generation)
  }

  lemma BeginOneFits(s: State, w: WriterId, codec: Codec, generation: string, env: Json)
    requires w !in s.writers && generation !in s.used
    ensures Enabled(s, codec, BeginOne(w, codec, generation, env))
    ensures StatementsOf("u", generation, codec, OneProvider(env).providers, 1) ==
      [InsertProvider(OneRow(codec, generation, env))]
  {
    var batches := BeginOne(w, codec, generation, env).batches;
    assert batches[..0] == [] && Flatten(batches) == Flatten(batches[..0]) + batches[0];
    assert StatementsOf("u", generation, codec, OneProvider(env).providers, 0) == [];
  }

  lemma OneInsert(t: Tables, codec: Codec, generation: string, env: Json)
    requires forall r :: r in t.providers ==> r.generation != generation
    ensures Execute(t, [InsertProvider(OneRow(codec, generation, env))]) ==
      Some(t.(providers := t.providers + {OneRow(codec, generation, env)}))
  {
    var batch := [InsertProvider(OneRow(codec, generation, env))];
    assert batch[1..] == [];
  }

  lemma NextState(codec: Codec, events: seq<Event>, n: nat, s: State) returns (t: State)
    requires n < |events| && Run(EMPTY, codec, events[..n]) == Some(s) && Enabled(s, codec, events[n])
    ensures t == Apply(s, codec, events[n]) && Run(EMPTY, codec, events[..n + 1]) == Some(t)
  {
    t := Apply(s, codec, events[n]);
    assert events[..n + 1][..n] == events[..n];
  }

  /** When a switch that was applied reports an error, the cleanup removes the active generation: the
      source row then names a generation without rows. */
  lemma LostSwitchEmptiesActive(codec: Codec, w: WriterId, env: Json) returns (events: seq<Event>)
    ensures Run(EMPTY, codec, events).Some? && !AllHonest(events)
    ensures var s := Run(EMPTY, codec, events).value;
      && "u" in s.tables.sources && s.tables.sources["u"].activeGeneration in s.published
      && !Complete(s.tables, codec, "u", s.tables.sources["u"].activeGeneration,
          s.published[s.tables.sources["u"].activeGeneration].snapshot)
  {
    hide Run, Execute, StatementsOf;
    var e := SwitchFails(w, true);
    events := [BeginOne(w, codec, "g", env), RunBatch(w), e, CleanUp(w)];
    RunNothing(EMPTY, codec);
    BeginOneFits(EMPTY, w, codec, "g", env);
    var s1 := NextState(codec, events, 0, EMPTY);
    OneInsert(s1.tables, codec, "g", env);
    var s2 := NextState(codec, events, 1, s1);
    var s3 := NextState(codec, events, 2, s2);
    var s4 := NextState(codec, events, 3, s3);
    assert events[..4] == events;
    assert events[2] == e && e in events;
    assert s4.tables.sources["u"].activeGeneration == "g" && s4.published["g"].snapshot == OneProvider(env);
    assert s4.tables.providers == {};
    assert OneRow(codec, "g", env) in Providers([InsertProvider(OneRow(codec, "g", env))]) by {
      assert InsertProvider(OneRow(codec, "g", env)) in [InsertProvider(OneRow(codec, "g", env))];
    }
  }

  ghost function OverlapEvents(codec: Codec, v: WriterId, w: WriterId, env: Json): seq<Event> {
    [BeginOne(v, codec, "g", env), BeginOne(w, codec, "h", env), RunBatch(v), Switch(v), RunBatch(w), Switch(w)]
  }

  lemma FirstSwitches(codec: Codec, v: WriterId, w: WriterId, env: Json) returns (s: State)
    requires v != w
    ensures Run(EMPTY, codec, OverlapEvents(codec, v, w, env)[..4]) == Some(s)
    ensures s.writers == map[w := Writer("u", OneProvider(env), "h", BeginOne(w, codec, "h", env).batches, None,
      Inserting(0))]
    ensures s.tables == Tables(map["u" := SourceRow("models.dev", "r1", 0.0, "g")], {OneRow(codec, "g", env)}, {})
    ensures s.used == {"g", "h"} && s.published.Keys == {"g"}
  {
    hide Run, Execute, StatementsOf;
    var events := OverlapEvents(codec, v, w, env);
    RunNothing(EMPTY, codec);
    BeginOneFits(EMPTY, v, codec, "g", env);
    var s1 := NextState(codec, events, 0, EMPTY);
    BeginOneFits(s1, w, codec, "h", env);
    var s2 := NextState(codec, events, 1, s1);
    OneInsert(s2.tables, codec, "g", env);
    var s3 := NextState(codec, events, 2, s2);
    s := NextState(codec, events, 3, s3);
  }

  /** A generation that is not active and that no writer will activate or remove. */
  ghost predicate Abandoned(s: State, g: string) {
    && g in s.used && NotActive(s.tables, g)
    && forall w :: w in s.writers ==> s.writers[w].generation != g && s.writers[w].previous != Some(g)
  }

  lemma StepAbandoned(s: State, codec: Codec, e: Event, g: string)
    requires UsedOk(s.tables, s.published, s.writers, s.used) && BatchesOwn(s, codec) && Abandoned(s, g)
    requires Enabled(s, codec, e)
    ensures Abandoned(Apply(s, codec, e), g) && SameRowsOf(s.tables, Apply(s, codec, e).tables, g)
  {
    hide StatementsOf, Execute, BatchesOwn, UsedOk;
    if e.RunBatch? || e.BatchFails? { BatchAbandoned(s, codec, e, g); }
    else if e.Begin? { BeginAbandoned(s, codec, e, g); }
    else { OtherAbandoned(s, codec, e, g); }
  }

  lemma BatchAbandoned(s: State, codec: Codec, e: Event, g: string)
    requires BatchesOwn(s, codec) && Abandoned(s, g) && Enabled(s, codec, e) && (e.RunBatch? || e.BatchFails?)
    ensures Abandoned(Apply(s, codec, e), g) && SameRowsOf(s.tables, Apply(s, codec, e).tables, g)
  {
    hide StatementsOf, Execute, BatchesOwn;
    if e.RunBatch? || e.applied { OwnBatch(s, codec, e.w); }
  }

  lemma BeginAbandoned(s: State, codec: Codec, e: Event, g: string)
    requires Abandoned(s, g) && Enabled(s, codec, e) && e.Begin?
    ensures Abandoned(Apply(s, codec, e), g) && SameRowsOf(s.tables, Apply(s, codec, e).tables, g)
  {
    hide StatementsOf;
  }

  lemma OtherAbandoned(s: State, codec: Codec, e: Event, g: string)
    requires Abandoned(s, g) && Enabled(s, codec, e) && !e.Begin? && !e.RunBatch? && !e.BatchFails?
    ensures Abandoned(Apply(s, codec, e), g) && SameRowsOf(s.tables, Apply(s, codec, e).tables, g)
  {
    hide StatementsOf, Execute;
  }

  ghost predicate SameRowsOf(t: Tables, t': Tables, g: string) {
    && (forall r: ProviderRow :: r.generation == g ==> (r in t'.providers <==> r in t.providers))
    && (forall r: ModelRow :: r.generation == g ==> (r in t'.models <==> r in t.models))
  }

  /** Every writer's batches insert rows of its own generation. */
  ghost predicate BatchesOwn(s: State, codec: Codec) {
    forall w :: w in s.writers ==> WriterOwns(s.writers[w], codec)
  }

  ghost predicate WriterOwns(x: Writer, codec: Codec) {
    Flatten(x.batches) == StatementsOf(x.url, x.generation, codec, x.snapshot.providers, |x.snapshot.providers|)
  }

  lemma OwnBatch(s: State, codec: Codec, w: WriterId)
    requires BatchesOwn(s, codec) && w in s.writers && AtBatch(s.tables, s.writers[w], true)
    ensures ChangesOnly(s.tables, Execute(s.tables, s.writers[w].batches[s.writers[w].phase.next]).value,
      s.writers[w].generation)
  {
    hide StatementsOf, Execute;
    var x := s.writers[w];
    assert WriterOwns(x, codec);
    StatementsTarget(x.url, x.generation, codec, x.snapshot.providers, |x.snapshot.providers|);
    FlattenMembers(x.batches);
    ExecuteAdds(s.tables, x.batches[x.phase.next]);
    assert forall y :: y in x.batches[x.phase.next] ==> Targets(y, x.url, x.generation);
  }

  lemma StepOwns(s: State, codec: Codec, e: Event)
    requires UsedOk(s.tables, s.published, s.writers, s.used) && BatchesOwn(s, codec) && Enabled(s, codec, e)
    ensures UsedOk(Apply(s, codec, e).tables, Apply(s, codec, e).published, Apply(s, codec, e).writers,
      Apply(s, codec, e).used)
    ensures BatchesOwn(Apply(s, codec, e), codec)
  {
    hide StatementsOf;
    if e.RunBatch? || (e.BatchFails? && e.applied) { OwnBatch(s, codec, e.w); }
    hide Execute;
  }

  /** The rows of an abandoned generation stay as they are in every continuation, whatever fails. */
  lemma {:induction false} AbandonedForever(s: State, codec: Codec, events: seq<Event>, g: string)
    requires UsedOk(s.tables, s.published, s.writers, s.used) && BatchesOwn(s, codec) && Abandoned(s, g)
    requires Run(s, codec, events).Some?
    ensures var t := Run(s, codec, events).value;
      && UsedOk(t.tables, t.published, t.writers, t.used) && BatchesOwn(t, codec)
      && Abandoned(t, g) && SameRowsOf(s.tables, t.tables, g)
  {
    hide UsedOk, BatchesOwn, Abandoned, Enabled, Apply;
    if events != [] {
      var before, e := events[..|events| - 1], events[|events| - 1];
      AbandonedForever(s, codec, before, g);
      StepAbandoned(Run(s, codec, before).value, codec, e, g);
      StepOwns(Run(s, codec, before).value, codec, e);
    }
  }

  /** Two overlapping writers that both read the source before either switched leave the first one's
      rows behind, without any failure and for good: they are there in every continuation. */
  lemma OverlapLeavesRows(codec: Codec, v: WriterId, w: WriterId, env: Json, more: seq<Event>)
    requires v != w
    ensures var events := OverlapEvents(codec, v, w, env);
      && Run(EMPTY, codec, events).Some? && AllHonest(events) && Run(EMPTY, codec, events).value.writers == map[]
      && !Tidy(Run(EMPTY, codec, events).value.tables)
      && (Run(EMPTY, codec, events + more).Some? ==>
            var t := Run(EMPTY, codec, events + more).value.tables;
            OneRow(codec, "g", env) in t.providers && NotActive(t, "g") && !Tidy(t))
  {
    hide RunOf, Execute, StatementsOf;
    var events := OverlapEvents(codec, v, w, env);
    var s := BothSwitched(codec, v, w, env);
    RunJoin(StepOf(codec), EMPTY, events, more);
    if Run(s, codec, more).Some? {
      AbandonedForever(s, codec, more, "g");
      var t := Run(s, codec, more).value;
      assert OneRow(codec, "g", env).generation == "g" && OneRow(codec, "g", env) in t.tables.providers;
      assert NotActive(t.tables, "g");
    }
  }

  lemma BothSwitched(codec: Codec, v: WriterId, w: WriterId, env: Json) returns (s: State)
    requires v != w
    ensures Run(EMPTY, codec, OverlapEvents(codec, v, w, env)) == Some(s)
    ensures s.writers == map[] && OneRow(codec, "g", env) in s.tables.providers && !Tidy(s.tables)
    ensures UsedOk(s.tables, s.published, s.writers, s.used) && BatchesOwn(s, codec) && Abandoned(s, "g")
  {
    hide Run, Execute, StatementsOf;
    var events := OverlapEvents(codec, v, w, env);
    var s4 := FirstSwitches(codec, v, w, env);
    OneInsert(s4.tables, codec, "h", env);
    var s5 := NextState(codec, events, 4, s4);
    s := NextState(codec, events, 5, s5);
    assert events[..6] == events;
    assert s.tables.sources["u"].activeGeneration == "h" && OneRow(codec, "g", env).generation == "g";
  }

  // ---------------------------------------------------------------- the writer

  predicate Concerns(e: Event, w: WriterId) {
    e.w == w
  }

  ghost predicate OthersOnly(events: seq<Event>, w: WriterId) {
    forall e :: e in events ==> !Concerns(e, w)
  }

  /** Other writers never touch a writer's own state. */
  lemma {:induction false} OthersKeepWriter(s: State, codec: Codec, events: seq<Event>, w: WriterId)
    requires Run(s, codec, events).Some? && OthersOnly(events, w)
    ensures w in Run(s, codec, events).value.writers <==> w in s.writers
    ensures w in s.writers ==> Run(s, codec, events).value.writers[w] == s.writers[w]
  {
    if events != [] {
      OthersKeepWriter(s, codec, events[..|events| - 1], w);
      assert !Concerns(events[|events| - 1], w);
      hide Execute, StatementsOf;
    }
  }

  ghost predicate Kept(before: map<string, Publication>, after: map<string, Publication>) {
    forall g :: g in before ==> g in after && after[g] == before[g]
  }

  /** Generations belong to one writer each, and are published by its switch alone. */
  ghost predicate Apart(s: State) {
    && s.published.Keys <= s.used
    && (forall w :: w in s.writers ==> s.writers[w].generation in s.used)
    && (forall w :: w in s.writers && s.writers[w].phase.Inserting? ==> s.writers[w].generation !in s.published)
    && (forall v, w :: v in s.writers && w in s.writers && v != w ==>
        s.writers[v].generation != s.writers[w].generation)
  }

  lemma StepKeepsApart(s: State, codec: Codec, e: Event)
    requires Apart(s) && Enabled(s, codec, e)
    ensures Apart(Apply(s, codec, e))
  {
    hide Execute, StatementsOf, AtBatch;
    StepPublishes(s, codec, e);
    StepMoves(s, codec, e);
    hide Enabled, Apply;
  }

  /** The generations one step publishes: that of the writer whose switch is applied. */
  lemma StepPublishes(s: State, codec: Codec, e: Event)
    requires Enabled(s, codec, e)
    ensures Apply(s, codec, e).published ==
      if e.Switch? || (e.SwitchFails? && e.applied)
      then s.published[s.writers[e.w].generation := Publication(s.writers[e.w].url, s.writers[e.w].snapshot)]
      else s.published
  {
    hide Execute, StatementsOf;
  }

  /** A step moves one writer, which keeps its generation; a new one draws an unused generation. */
  lemma StepMoves(s: State, codec: Codec, e: Event)
    requires Enabled(s, codec, e)
    ensures var t := Apply(s, codec, e);
      && (e.Begin? ==> e.generation !in s.used && t.used == s.used + {e.generation})
      && (!e.Begin? ==> e.w in s.writers && t.used == s.used)
      && (forall w :: w in t.writers && w != e.w ==> w in s.writers && t.writers[w] == s.writers[w])
      && (e.w in t.writers ==> t.writers[e.w].generation == if e.Begin? then e.generation
          else s.writers[e.w].generation)
      && (e.w in t.writers && t.writers[e.w].phase.Inserting? ==>
          e.Begin? || (e.RunBatch? && s.writers[e.w].phase.Inserting?))
      && (e.Switch? || e.SwitchFails? ==> s.writers[e.w].phase.Inserting?)
  {
    hide Execute, StatementsOf;
  }

  /** What a generation was published for never changes, and other writers never publish a writer's
      generation, whatever fails and whatever a failure hides. */
  lemma {:induction false} RunKeepsPublished(s: State, codec: Codec, events: seq<Event>)
    requires Apart(s) && Run(s, codec, events).Some?
    ensures Apart(Run(s, codec, events).value) && Kept(s.published, Run(s, codec, events).value.published)
    ensures forall w :: w in s.writers && OthersOnly(events, w) && s.writers[w].generation !in s.published ==>
      s.writers[w].generation !in Run(s, codec, events).value.published
  {
    hide Apart, Enabled, Apply;
    if events != [] {
      var prefix, e := events[..|events| - 1], events[|events| - 1];
      RunKeepsPublished(s, codec, prefix);
      var t := Run(s, codec, prefix).value;
      StepKeepsApart(t, codec, e);
      StepPublishes(t, codec, e);
      if e.Switch? || e.SwitchFails? { ApartHere(t, codec, e); }
      forall w | w in s.writers && OthersOnly(events, w) && s.writers[w].generation !in s.published
        ensures s.writers[w].generation !in Run(s, codec, events).value.published
      {
        assert e in events && !Concerns(e, w);
        OthersKeepWriter(s, codec, prefix, w);
      }
    }
  }

  /** A published generation is not published again, and no other writer's with it. */
  lemma ApartHere(s: State, codec: Codec, e: Event)
    requires Apart(s) && Enabled(s, codec, e) && (e.Switch? || e.SwitchFails?)
    ensures s.writers[e.w].generation !in s.published
    ensures forall w :: w in s.writers && w != e.w ==> s.writers[w].generation != s.writers[e.w].generation
  {}

  lemma HistoryApart(codec: Codec, history: seq<Event>, s: State)
    requires Run(EMPTY, codec, history) == Some(s)
    ensures Apart(s)
  {
    RunKeepsPublished(EMPTY, codec, history);
  }

  class CatalogDatabase {
    const codec: Codec
    var sources: map<string, SourceRow>
    var providers: set<ProviderRow>
    var models: set<ModelRow>
    ghost var writers: map<WriterId, Writer>
    ghost var used: set<string>
    ghost var published: map<string, Publication>
    ghost var gone: set<string>
    ghost var history: seq<Event>

    ghost function View(): State
      reads this
    {
      State(Tables(sources, providers, models), writers, used, published, gone)
    }

    ghost predicate Valid()
      reads this
    {
      Run(EMPTY, codec, history) == Some(View())
    }

    constructor (codec: Codec)
      ensures Valid() && this.codec == codec && View() == EMPTY
    {
      this.codec := codec;
      sources, providers, models := map[], {}, {};
      writers, used, published, gone, history := map[], {}, map[], {}, [];
    }

    /** Whatever other writers do between two statements of `w`. */
    method OtherWriters(ghost w: WriterId)
      requires Valid()
      modifies this
      ensures Valid() && old(history) <= history && OthersOnly(history[|old(history)|..], w)
      ensures w in writers <==> w in old(writers)
      ensures w in writers ==> writers[w] == old(writers[w])
      ensures w in writers && writers[w].generation !in old(published) ==> writers[w].generation !in published
      ensures Kept(old(published), published)
    {}

    /** Records one step and moves the ghost part of the state along with it. */
    ghost method Record(e: Event)
      requires Run(EMPTY, codec, history).Some?
      requires Enabled(Run(EMPTY, codec, history).value, codec, e)
      requires Tables(sources, providers, models) == Apply(Run(EMPTY, codec, history).value, codec, e).tables
      modifies this`writers, this`used, this`published, this`gone, this`history
      ensures Valid() && history == old(history) + [e]
      ensures View() == Apply(Run(EMPTY, codec, old(history)).value, codec, e)
    {
      hide Enabled, Apply;
      RunOne(StepOf(codec), EMPTY, history, e);
      var s := Apply(Run(EMPTY, codec, history).value, codec, e);
      history, writers, used, published, gone := history + [e], s.writers, s.used, s.published, s.gone;
    }

    /** The writer has read the source row and drawn its generation. */
    ghost method Start(w: WriterId, url: string, snapshot: Snapshot, batches: seq<seq<Statement>>, generation: string)
      requires Valid() && w !in writers && generation !in used
      requires Flatten(batches) == StatementsOf(url, generation, codec, snapshot.providers, |snapshot.providers|)
      modifies this
      ensures Valid() && history == old(history) + [Begin(w, url, snapshot, batches, generation)]
      ensures View().tables == old(View()).tables && published == old(published)
      ensures writers == old(writers)[w := Writer(url, snapshot, generation, batches,
        if url in sources then Some(sources[url].activeGeneration) else None, Inserting(0))]
    {
      hide Run, Execute, StatementsOf;
      Record(Begin(w, url, snapshot, batches, generation));
    }

    /** `db.batch`: one transaction. A reported failure may hide that it was applied. */
    method Batch(ghost w: WriterId, batch: seq<Statement>) returns (ok: bool, ghost hidden: bool)
      requires Valid() && w in writers && writers[w].phase.Inserting? && writers[w].phase.next < |writers[w].batches|
      requires batch == writers[w].batches[writers[w].phase.next]
      modifies this
      ensures Valid() && w in writers && history == old(history) + [if ok then RunBatch(w) else BatchFails(w, hidden)]
      ensures writers[w] == old(writers[w]).(phase := if ok then Inserting(old(writers[w].phase.next) + 1)
        else Cleaning)
      ensures published == old(published)
      ensures ok ==> Execute(old(View()).tables, batch) == Some(View().tables)
    {
      hide Execute, Run;
      var t := Execute(Tables(sources, providers, models), batch);
      var answered: bool := *;
      var applied: bool := *;
      ok := answered && t.Some?;
      if t.Some? && (ok || applied) {
        providers, models := t.value.providers, t.value.models;
        ExecuteSources(old(View()).tables, batch);
      }
      hidden := t.Some? && applied;
      Record(if ok then RunBatch(w) else BatchFails(w, hidden));
    }

    /** The upsert of the source row. A reported error may hide that it was applied; then it is `lost`. */
    method SwitchSource(ghost w: WriterId, url: string, snapshot: Snapshot, generation: string)
      returns (ok: bool, ghost lost: bool)
      requires Valid() && w in writers && AtSwitch(writers[w])
      requires writers[w].url == url && writers[w].snapshot == snapshot && writers[w].generation == generation
      modifies this
      ensures Valid() && history == old(history) + [if ok then Switch(w) else SwitchFails(w, lost)] && (ok ==> !lost)
      ensures sources == if ok || lost
        then old(sources)[url := SourceRow(snapshot.source, snapshot.revision, snapshot.refreshedAt, generation)]
        else old(sources)
      ensures published == if ok || lost then old(published)[generation := Publication(url, snapshot)]
        else old(published)
      ensures providers == old(providers) && models == old(models)
      ensures ok && old(writers[w]).previous.Some? ==> w in writers && writers[w] == old(writers[w]).(phase := Retiring)
      ensures ok && old(writers[w]).previous.None? ==> w !in writers
      ensures !ok ==> w in writers && writers[w] == old(writers[w]).(phase := Cleaning)
    {
      hide Run;
      ok := *;
      var applied: bool := *;
      if ok || applied {
        sources := sources[url := SourceRow(snapshot.source, snapshot.revision, snapshot.refreshedAt, generation)];
      }
      lost := !ok && applied;
      Record(if ok then Switch(w) else SwitchFails(w, lost));
    }

    /** `removeGeneration`, for a failed or for a replaced generation. */
    method Remove(ghost w: WriterId, url: string, generation: string) returns (ok: bool, ghost hidden: bool)
      requires Valid() && w in writers && writers[w].url == url
      requires writers[w].phase.Cleaning? || (writers[w].phase.Retiring? && writers[w].previous.Some?)
      requires generation == if writers[w].phase.Cleaning? then writers[w].generation else writers[w].previous.value
      modifies this
      ensures Valid() && w !in writers
      ensures history == old(history) + [
        if old(writers[w]).phase.Cleaning? then (if ok then CleanUp(w) else CleanUpFails(w, hidden))
        else if ok then Retire(w) else RetireFails(w, hidden)]
      ensures sources == old(sources) && published == old(published)
      ensures ok ==> Unstored(View().tables, url, generation)
      ensures forall r :: r in providers <==>
        r in old(providers) && (r.sourceUrl != url || r.generation != generation || (!ok && !hidden))
      ensures forall r :: r in models <==>
        r in old(models) && (r.sourceUrl != url || r.generation != generation || (!ok && !hidden))
    {
      hide Run;
      ok := *;
      var applied: bool := *;
      ghost var cleaning := writers[w].phase.Cleaning?;
      if ok || applied {
        var t := RemoveGeneration(Tables(sources, providers, models), url, generation);
        providers, models := t.providers, t.models;
      }
      hidden := applied;
      Record(if cleaning then (if ok then CleanUp(w) else CleanUpFails(w, hidden))
             else if ok then Retire(w) else RetireFails(w, hidden));
    }

    /** Runs the batches until one fails. */
    method InsertBatches(ghost w: WriterId, batches: seq<seq<Statement>>) returns (ok: bool)
      requires Valid() && w in writers && writers[w].phase == Inserting(0) && writers[w].batches == batches
      modifies this
      ensures Valid() && old(history) <= history && w in writers
      ensures writers[w] == old(writers[w]).(phase := if ok then Inserting(|batches|) else Cleaning)
      ensures writers[w].generation !in old(published) ==> writers[w].generation !in published
    {
      hide Run, Execute;
      for k := 0 to |batches|
        invariant Valid() && old(history) <= history && w in writers
        invariant writers[w] == old(writers[w]).(phase := Inserting(k))
        invariant writers[w].generation !in old(published) ==> writers[w].generation !in published
      {
        OtherWriters(w);
        ghost var hidden;
        ok, hidden := Batch(w, batches[k]);
        if !ok { return; }
      }
      ok := true;
    }

    /** The `catch` block: removes the rows of a refused write. */
    method Refuse(ghost w: WriterId, url: string, generation: string) returns (r: Outcome)
      requires Valid() && w in writers && writers[w].phase.Cleaning?
      requires writers[w].url == url && writers[w].generation == generation
      modifies this
      ensures Valid() && w !in writers && old(history) <= history && (r.Cleaned? || r.NotCleaned?)
      ensures generation in published <==> generation in old(published)
      ensures r.Cleaned? ==> Unstored(View().tables, url, generation)
    {
      hide Run, Unstored;
      OtherWriters(w);
      ghost var hidden;
      var ok;
      ok, hidden := Remove(w, url, generation);
      r := if ok then Cleaned else NotCleaned;
    }

    /** After the switch: removes the rows of the generation that was active before. */
    method Replace(ghost w: WriterId, url: string, generation: string, previous: string) returns (r: Outcome)
      requires Valid() && w in writers && writers[w].phase.Retiring? && generation in published
      requires writers[w].url == url && writers[w].previous == Some(previous)
      modifies this
      ensures Valid() && w !in writers && old(history) <= history && (r.Stored? || r.NotRetired?)
      ensures generation in published && published[generation] == old(published[generation])
      ensures r.Stored? ==> Unstored(View().tables, url, previous)
    {
      hide Run, Unstored;
      OtherWriters(w);
      ghost var hidden;
      var ok;
      ok, hidden := Remove(w, url, previous);
      r := if ok then Stored else NotRetired;
    }

    /** `writeStored`: publishes the snapshot under its own generation, or cleans up after itself. When the
        write is refused its generation is published if and only if the switch was `lost`. */
    method Write(ghost w: WriterId, url: string, snapshot: Snapshot, batchSize: nat, generation: string)
      returns (r: Outcome, ghost lost: bool)
      requires Valid() && w !in writers && generation !in used && batchSize > 0
      modifies this
      ensures Valid() && w !in writers && old(history) <= history
      ensures r.Stored? || r.NotRetired? ==>
        generation in published && published[generation] == Publication(url, snapshot)
      ensures r.Stored? && url in old(sources) ==> Unstored(View().tables, url, old(sources[url].activeGeneration))
      ensures r.Cleaned? || r.NotCleaned? ==> (generation in published <==> lost)
      ensures r.Cleaned? ==> Unstored(View().tables, url, generation)
      ensures lost ==> (r.Cleaned? || r.NotCleaned?) && SwitchFails(w, true) in history
    {
      hide Run, Execute, StatementsOf, Enabled, Apply, Unstored, Kept;
      var previous := if url in sources then Some(sources[url].activeGeneration) else None;
      var statements := Statements(url, generation, codec, snapshot);
      var batches := BatchesOf(statements, batchSize);
      HistoryApart(codec, history, View());
      Start(w, url, snapshot, batches, generation);
      lost := false;
      var ok := InsertBatches(w, batches);
      if ok {
        OtherWriters(w);
        ok, lost := SwitchSource(w, url, snapshot, generation);
        if ok {
          if previous.None? { return Stored, false; }
          r := Replace(w, url, generation, previous.value);
          return;
        }
      }
      ghost var failed := history;
      r := Refuse(w, url, generation);
      if lost { LastStays(failed, history); }
    }
  }

  lemma LastStays(before: seq<Event>, after: seq<Event>)
    requires before != [] && before <= after
    ensures before[|before| - 1] in after
  {
    assert after[|before| - 1] == before[|before| - 1];
  }

  /** How a write ends. `NotRetired`: published, but removing its predecessor failed; `Cleaned` and
      `NotCleaned`: refused, with its rows removed or not. All but `Stored` are reported as errors. */
  datatype Outcome = Stored | NotRetired | Cleaned | NotCleaned

  lemma ExecuteSources(t: Tables, batch: seq<Statement>)
    ensures Execute(t, batch).Some? ==> Execute(t, batch).value.sources == t.sources
  {
    ExecuteAdds(t, batch);
  }
}
