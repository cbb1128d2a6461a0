/** The model catalog in a relational store: every write inserts a new generation of rows in batches,
    switches the source row to it, and then removes the generation it replaced. */
module Catalog {
  import opened Ordering
  import opened Runs

  /** Values kept as JSON text. */
  type Json(==, !new)
  datatype Codec = Codec(stringify: Json -> string, parse: string -> Json)

  datatype Model = Model(id: string, name: Option<string>, metadata: Json)
  datatype Provider = Provider(id: string, name: string, api: Option<string>, npm: Option<string>, env: Json,
      models: seq<Model>)
  datatype Status = Fresh | Cached
  datatype Snapshot = Snapshot(source: string, revision: string, refreshedAt: real, status: Status,
      providers: seq<Provider>)

  datatype SourceRow = SourceRow(source: string, revision: string, refreshedAt: real, activeGeneration: string)
  datatype ProviderRow = ProviderRow(sourceUrl: string, generation: string, ordinal: nat, providerId: string,
                                     name: string, api: Option<string>, npm: Option<string>, envJson: string)
  datatype ModelRow = ModelRow(sourceUrl: string, generation: string, providerOrdinal: nat, ordinal: nat,
      providerId: string,
                               modelId: string, name: Option<string>, metadataJson: string)
  datatype Statement = InsertProvider(provider: ProviderRow) | InsertModel(model: ModelRow)

  datatype Tables = Tables(sources: map<string, SourceRow>, providers: set<ProviderRow>, models: set<ModelRow>)

  ghost predicate RoundTrips(codec: Codec) {
    forall j :: codec.parse(codec.stringify(j)) == j
  }

  // ---------------------------------------------------------------- statements

  predicate SameProviderKey(a: ProviderRow, b: ProviderRow) {
    a.sourceUrl == b.sourceUrl && a.generation == b.generation && a.providerId == b.providerId
  }

  predicate SameModelKey(a: ModelRow, b: ModelRow) {
    a.sourceUrl == b.sourceUrl && a.generation == b.generation && a.providerId == b.providerId && a.modelId == b.modelId
  }

  /** The primary key of the statement's table is taken. */
  predicate Conflicts(t: Tables, s: Statement) {
    match s
    case InsertProvider(r) => exists q :: q in t.providers && SameProviderKey(q, r)
    case InsertModel(r) => exists q :: q in t.models && SameModelKey(q, r)
  }

  function InsertRow(t: Tables, s: Statement): Tables {
    match s
    case InsertProvider(r) => t.(providers := t.providers + {r})
    case InsertModel(r) => t.(models := t.models + {r})
  }

  /** A batch is one transaction: every statement, or none when a key is taken. */
  function Execute(t: Tables, batch: seq<Statement>): Option<Tables>
    decreases batch
  {
    if batch == [] then Some(t)
    else if Conflicts(t, batch[0]) then None
    else Execute(InsertRow(t, batch[0]), batch[1..])
  }

  function RemoveGeneration(t: Tables, url: string, generation: string): Tables {
    t.(providers := (set r | r in t.providers && !(r.sourceUrl == url && r.generation == generation)),
       models := (set r | r in t.models && !(r.sourceUrl == url && r.generation == generation)))
  }

  function ProviderRowOf(url: string, generation: string, codec: Codec, p: Provider, ordinal: nat): ProviderRow {
    ProviderRow(url, generation, ordinal, p.id, p.name, p.api, p.npm, codec.stringify(p.env))
  }

  function ModelRowOf(url: string, generation: string, codec: Codec, p: Provider, providerOrdinal: nat, m: Model,
      ordinal: nat): ModelRow {
    ModelRow(url, generation, providerOrdinal, ordinal, p.id, m.id, m.name, codec.stringify(m.metadata))
  }

  /** The rows of the first `n` models of one provider. */
  function ModelRows(url: string, generation: string, codec: Codec, p: Provider, providerOrdinal: nat,
      n: nat): (rows: seq<ModelRow>)
    requires n <= |p.models|
    ensures |rows| == n
    ensures forall i :: 0 <= i < n ==> rows[i] == ModelRowOf(url, generation, codec, p, providerOrdinal, p.models[i], i)
  {
    seq(n, i requires 0 <= i < n => ModelRowOf(url, generation, codec, p, providerOrdinal, p.models[i], i))
  }

  function Inserts(rows: seq<ModelRow>): seq<Statement> {
    seq(|rows|, i requires 0 <= i < |rows| => InsertModel(rows[i]))
  }

  /** The statements that insert the first `n` providers and their models. */
  function StatementsOf(url: string, generation: string, codec: Codec, providers: seq<Provider>, n: nat): seq<Statement>
    requires n <= |providers|
  {
    if n == 0 then []
    else
      var p := providers[n - 1];
      StatementsOf(url, generation, codec, providers, n - 1)
      + [InsertProvider(ProviderRowOf(url, generation, codec, p, n - 1))]
      + Inserts(ModelRows(url, generation, codec, p, n - 1, |p.models|))
  }

  method Statements(url: string, generation: string, codec: Codec, snapshot: Snapshot)
    returns (statements: seq<Statement>)
    ensures statements == StatementsOf(url, generation, codec, snapshot.providers, |snapshot.providers|)
  {
    statements := [];
    for n := 0 to |snapshot.providers|
      invariant statements == StatementsOf(url, generation, codec, snapshot.providers, n)
    {
      var provider := snapshot.providers[n];
      ghost var before := statements + [InsertProvider(ProviderRowOf(url, generation, codec, provider, n))];
      statements := statements + [InsertProvider(ProviderRowOf(url, generation, codec, provider, n))];
      for i := 0 to |provider.models|
        invariant statements == before + Inserts(ModelRows(url, generation, codec, provider, n, i))
      {
        statements := statements + [InsertModel(ModelRowOf(url, generation, codec, provider, n, provider.models[i],
            i))];
      }
    }
  }

  // ---------------------------------------------------------------- batches

  /** Cuts `values` into consecutive batches of `size`, the last one possibly shorter. */
  method BatchesOf<T>(values: seq<T>, size: nat) returns (batches: seq<seq<T>>)
    requires size > 0
    ensures Flatten(batches) == values
    ensures forall i :: 0 <= i < |batches| ==> 0 < |batches[i]| <= size && (i + 1 < |batches| ==> |batches[i]| == size)
  {
    batches := [];
    var offset := 0;
    while offset < |values|
      invariant Flatten(batches) == values[..if offset <= |values| then offset else |values|]
      invariant forall i :: 0 <= i < |batches| ==>
        0 < |batches[i]| <= size && (offset < |values| || i + 1 < |batches| ==> |batches[i]| == size)
      decreases |values| - offset
    {
      var batch := values[offset..if offset + size <= |values| then offset + size else |values|];
      assert (batches + [batch])[..|batches|] == batches;
      batches := batches + [batch];
      offset := offset + size;
    }
  }

  // ---------------------------------------------------------------- the rows of one generation

  function Providers(statements: seq<Statement>): set<ProviderRow> {
    set s | s in statements && s.InsertProvider? :: s.provider
  }

  function Models(statements: seq<Statement>): set<ModelRow> {
    set s | s in statements && s.InsertModel? :: s.model
  }

  function ProvidersIn(t: Tables, url: string, generation: string): set<ProviderRow> {
    set r | r in t.providers && r.sourceUrl == url && r.generation == generation
  }

  function ModelsIn(t: Tables, url: string, generation: string): set<ModelRow> {
    set r | r in t.models && r.sourceUrl == url && r.generation == generation
  }

  /** The rows stored for one generation are exactly the ones these statements insert. */
  ghost predicate Holds(t: Tables, url: string, generation: string, statements: seq<Statement>) {
    ProvidersIn(t, url, generation) == Providers(statements) && ModelsIn(t, url, generation) == Models(statements)
  }

  /** Every row of the snapshot, and no other row, is stored under the generation. */
  ghost predicate Complete(t: Tables, codec: Codec, url: string, generation: string, snapshot: Snapshot) {
    Holds(t, url, generation, StatementsOf(url, generation, codec, snapshot.providers, |snapshot.providers|))
  }

  ghost predicate Unstored(t: Tables, url: string, generation: string) {
    ProvidersIn(t, url, generation) == {} && ModelsIn(t, url, generation) == {}
  }

  predicate Targets(s: Statement, url: string, generation: string) {
    match s
    case InsertProvider(r) => r.sourceUrl == url && r.generation == generation
    case InsertModel(r) => r.sourceUrl == url && r.generation == generation
  }

  lemma {:induction false} StatementsTarget(url: string, generation: string, codec: Codec, providers: seq<Provider>,
      n: nat)
    requires n <= |providers|
    ensures forall s :: s in StatementsOf(url, generation, codec, providers, n) ==> Targets(s, url, generation)
  {
    if n > 0 { StatementsTarget(url, generation, codec, providers, n - 1); }
  }

  lemma {:induction false} ExecuteAdds(t: Tables, batch: seq<Statement>)
    ensures Execute(t, batch).Some? ==>
      Execute(t, batch).value == t.(providers := t.providers + Providers(batch), models := t.models + Models(batch))
    decreases batch
  {
    if batch != [] && Execute(t, batch).Some? {
      ExecuteAdds(InsertRow(t, batch[0]), batch[1..]);
      assert batch == [batch[0]] + batch[1..];
    }
  }

  lemma {:induction false} ExecuteAppend(t: Tables, a: seq<Statement>, b: seq<Statement>)
    ensures Execute(t, a + b) == if Execute(t, a).None? then None else Execute(Execute(t, a).value, b)
    decreases a
  {
    if a == [] {
      assert a + b == b;
    } else {
      assert (a + b)[1..] == a[1..] + b;
      ExecuteAppend(InsertRow(t, a[0]), a[1..], b);
    }
  }

  /** Only rows of `generation` differ. */
  ghost predicate ChangesOnly(t: Tables, t': Tables, generation: string) {
    && t'.sources == t.sources
    && (forall r: ProviderRow :: r.generation != generation ==> (r in t'.providers <==> r in t.providers))
    && (forall r: ModelRow :: r.generation != generation ==> (r in t'.models <==> r in t.models))
  }

  lemma OtherGenerationsStay(t: Tables, t': Tables, generation: string, url: string, other: string,
      statements: seq<Statement>)
    requires ChangesOnly(t, t', generation) && other != generation && Holds(t, url, other, statements)
    ensures Holds(t', url, other, statements)
  {
    assert ProvidersIn(t', url, other) == ProvidersIn(t, url, other);
    assert ModelsIn(t', url, other) == ModelsIn(t, url, other);
  }

  lemma BatchExtends(t: Tables, url: string, generation: string, done: seq<Statement>, batch: seq<Statement>)
    requires Holds(t, url, generation, done) && Execute(t, batch).Some?
    requires forall s :: s in batch ==> Targets(s, url, generation)
    ensures Holds(Execute(t, batch).value, url, generation, done + batch)
    ensures ChangesOnly(t, Execute(t, batch).value, generation)
  {
    ExecuteAdds(t, batch);
    var u := Execute(t, batch).value;
    hide Execute;
    assert Providers(done + batch) == Providers(done) + Providers(batch);
    assert Models(done + batch) == Models(done) + Models(batch);
    assert ProvidersIn(u, url, generation) == ProvidersIn(t, url, generation) + Providers(batch);
    assert ModelsIn(u, url, generation) == ModelsIn(t, url, generation) + Models(batch);
  }

  lemma RemovalChanges(t: Tables, url: string, generation: string)
    ensures ChangesOnly(t, RemoveGeneration(t, url, generation), generation)
    ensures Holds(RemoveGeneration(t, url, generation), url, generation, [])
  {}

  // ---------------------------------------------------------------- concurrent writers

  type WriterId(==, !new)

  datatype Phase = Inserting(next: nat) | Cleaning | Retiring
  datatype Writer = Writer(url: string, snapshot: Snapshot, generation: string, batches: seq<seq<Statement>>,
                           previous: Option<string>, phase: Phase)
  /** `published` and `gone` are history: which snapshot each generation that ever became active was
      written for, and the generations whose own writer has removed their rows. */
  datatype Publication = Publication(url: string, snapshot: Snapshot)
  datatype State = State(tables: Tables, writers: map<WriterId, Writer>, used: set<string>,
      published: map<string, Publication>, gone: set<string>)

  const EMPTY := State(Tables(map[], {}, {}), map[], {}, map[], {})

  /** The steps of `writeStored`. A failing statement reports an error; `applied` says whether it took
      effect all the same. A crash ends a writer anywhere. */
  datatype Event =
    | Begin(w: WriterId, url: string, snapshot: Snapshot, batches: seq<seq<Statement>>, generation: string)
    | RunBatch(w: WriterId)
    | BatchFails(w: WriterId, applied: bool)
    | Switch(w: WriterId)
    | SwitchFails(w: WriterId, applied: bool)
    | CleanUp(w: WriterId)
    | CleanUpFails(w: WriterId, applied: bool)
    | Retire(w: WriterId)
    | RetireFails(w: WriterId, applied: bool)
    | Crash(w: WriterId)

  predicate AtBatch(t: Tables, writer: Writer, applied: bool) {
    && writer.phase.Inserting? && writer.phase.next < |writer.batches|
    && (applied ==> Execute(t, writer.batches[writer.phase.next]).Some?)
  }

  predicate AtSwitch(writer: Writer) {
    writer.phase.Inserting? && writer.phase.next == |writer.batches|
  }

  predicate Enabled(s: State, codec: Codec, e: Event) {
    match e
    case Begin(w, url, snapshot, batches, generation) =>
      w !in s.writers && generation !in s.used
      && Flatten(batches) == StatementsOf(url, generation, codec, snapshot.providers, |snapshot.providers|)
    case RunBatch(w) => w in s.writers && AtBatch(s.tables, s.writers[w], true)
    case BatchFails(w, applied) => w in s.writers && AtBatch(s.tables, s.writers[w], applied)
    case Switch(w) => w in s.writers && AtSwitch(s.writers[w])
    case SwitchFails(w, _) => w in s.writers && AtSwitch(s.writers[w])
    case CleanUp(w) => w in s.writers && s.writers[w].phase.Cleaning?
    case CleanUpFails(w, _) => w in s.writers && s.writers[w].phase.Cleaning?
    case Retire(w) => w in s.writers && s.writers[w].phase.Retiring? && s.writers[w].previous.Some?
    case RetireFails(w, _) => w in s.writers && s.writers[w].phase.Retiring? && s.writers[w].previous.Some?
    case Crash(w) => w in s.writers
  }

  function Switched(t: Tables, writer: Writer): Tables {
    var x := writer.snapshot;
    t.(sources := t.sources[writer.url := SourceRow(x.source, x.revision, x.refreshedAt, writer.generation)])
  }

  function Publish(s: State, writer: Writer): State {
    s.(tables := Switched(s.tables, writer),
       published := s.published[writer.generation := Publication(writer.url, writer.snapshot)])
  }

  function To(s: State, w: WriterId, phase: Phase): State
    requires w in s.writers
  {
    s.(writers := s.writers[w := s.writers[w].(phase := phase)])
  }

  function Without(s: State, w: WriterId): State {
    s.(writers := s.writers - {w})
  }

  function Batched(s: State, w: WriterId, applied: bool): State
    requires w in s.writers && AtBatch(s.tables, s.writers[w], applied)
  {
    if applied then s.(tables := Execute(s.tables, s.writers[w].batches[s.writers[w].phase.next]).value) else s
  }

  function Removed(s: State, url: string, generation: string, applied: bool): State {
    if applied then s.(tables := RemoveGeneration(s.tables, url, generation)) else s
  }

  function Cleaned(s: State, w: Writer, applied: bool): State {
    if applied then Removed(s, w.url, w.generation, true).(gone := s.gone + {w.generation}) else s
  }

  function Apply(s: State, codec: Codec, e: Event): State
    requires Enabled(s, codec, e)
  {
    match e
    case Begin(w, url, snapshot, batches, generation) =>
      var previous := if url in s.tables.sources then Some(s.tables.sources[url].activeGeneration) else None;
      s.(writers := s.writers[w := Writer(url, snapshot, generation, batches, previous, Inserting(0))],
         used := s.used + {generation})
    case RunBatch(w) => To(Batched(s, w, true), w, Inserting(s.writers[w].phase.next + 1))
    case BatchFails(w, applied) => To(Batched(s, w, applied), w, Cleaning)
    case Switch(w) =>
      if s.writers[w].previous.Some? then To(Publish(s, s.writers[w]), w, Retiring)
          else Without(Publish(s, s.writers[w]), w)
    case SwitchFails(w, applied) => To(if applied then Publish(s, s.writers[w]) else s, w, Cleaning)
    case CleanUp(w) => Without(Cleaned(s, s.writers[w], true), w)
    case CleanUpFails(w, applied) => Without(Cleaned(s, s.writers[w], applied), w)
    case Retire(w) => Without(Removed(s, s.writers[w].url, s.writers[w].previous.value, true), w)
    case RetireFails(w, applied) => Without(Removed(s, s.writers[w].url, s.writers[w].previous.value, applied), w)
    case Crash(w) => Without(s, w)
  }

  function StepOf(codec: Codec): (State, Event) -> Option<State> {
    (s, e) => if Enabled(s, codec, e) then Some(Apply(s, codec, e)) else None
  }

  function Run(s: State, codec: Codec, events: seq<Event>): Option<State> {
    RunOf(StepOf(codec), s, events)
  }

  /** Nothing is taken for granted: a writer may crash anywhere, and every statement may report an error,
      having taken effect or not. */
  lemma AnythingMayFail(s: State, codec: Codec, w: WriterId)
    requires w in s.writers
    ensures Enabled(s, codec, Crash(w)) && Apply(s, codec, Crash(w)).tables == s.tables
    ensures AtBatch(s.tables, s.writers[w], true) ==>
      && Enabled(s, codec, BatchFails(w, true)) && Enabled(s, codec, BatchFails(w, false))
      && Apply(s, codec, BatchFails(w, true)).tables == Apply(s, codec, RunBatch(w)).tables
      && Apply(s, codec, BatchFails(w, false)).tables == s.tables
    ensures AtSwitch(s.writers[w]) ==>
      && Enabled(s, codec, SwitchFails(w, true)) && Enabled(s, codec, SwitchFails(w, false))
      && Apply(s, codec, SwitchFails(w, true)).tables == Apply(s, codec, Switch(w)).tables
      && Apply(s, codec, SwitchFails(w, false)).tables == s.tables
    ensures s.writers[w].phase.Cleaning? ==>
      && Enabled(s, codec, CleanUpFails(w, true)) && Enabled(s, codec, CleanUpFails(w, false))
      && Apply(s, codec, CleanUpFails(w, true)).tables == Apply(s, codec, CleanUp(w)).tables
      && Apply(s, codec, CleanUpFails(w, false)).tables == s.tables
    ensures s.writers[w].phase.Retiring? && s.writers[w].previous.Some? ==>
      && Enabled(s, codec, RetireFails(w, true)) && Enabled(s, codec, RetireFails(w, false))
      && Apply(s, codec, RetireFails(w, true)).tables == Apply(s, codec, Retire(w)).tables
      && Apply(s, codec, RetireFails(w, false)).tables == s.tables
  {
    hide Execute, StatementsOf;
  }

  /** A switch that reports an error was not applied. */
  predicate Honest(e: Event) {
    e.SwitchFails? ==> !e.applied
  }

  predicate AllHonest(events: seq<Event>) {
    forall e :: e in events ==> Honest(e)
  }

  // ---------------------------------------------------------------- the invariant

  /** Every source row names a published generation of its url and agrees with its snapshot; that
      generation's rows are complete unless its own writer has removed them. */
  ghost predicate ActiveOk(t: Tables, published: map<string, Publication>, gone: set<string>, codec: Codec) {
    forall url :: url in t.sources ==> RowOk(t, published, gone, codec, url, t.sources[url])
  }

  ghost predicate RowOk(t: Tables, published: map<string, Publication>, gone: set<string>, codec: Codec, url: string,
      row: SourceRow) {
    && row.activeGeneration in published
    && var p := published[row.activeGeneration];
       && p.url == url
       && row == SourceRow(p.snapshot.source, p.snapshot.revision, p.snapshot.refreshedAt, row.activeGeneration)
       && (row.activeGeneration !in gone ==> Complete(t, codec, url, row.activeGeneration, p.snapshot))
  }

  ghost predicate WriterOk(t: Tables, published: map<string, Publication>, codec: Codec, w: Writer) {
    && Flatten(w.batches) == StatementsOf(w.url, w.generation, codec, w.snapshot.providers, |w.snapshot.providers|)
    && (w.previous.Some? ==> w.previous.value in published && published[w.previous.value].url == w.url)
    && (w.phase.Inserting? ==>
        w.phase.next <= |w.batches| && Holds(t, w.url, w.generation, Flatten(w.batches[..w.phase.next])))
    && (w.phase.Retiring? ==> w.previous.Some? && NotActive(t, w.previous.value))
    && (w.phase.Inserting? ==> w.generation !in published)
    && (w.generation in published ==> published[w.generation].url == w.url)
  }

  ghost predicate NotActive(t: Tables, generation: string) {
    forall url :: url in t.sources ==> t.sources[url].activeGeneration != generation
  }

  ghost predicate WritersOk(t: Tables, published: map<string, Publication>, codec: Codec,
      writers: map<WriterId, Writer>) {
    && (forall w :: w in writers ==> WriterOk(t, published, codec, writers[w]))
    && (forall v, w :: v in writers && w in writers && v != w ==> writers[v].generation != writers[w].generation)
  }

  ghost predicate UsedOk(t: Tables, published: map<string, Publication>, writers: map<WriterId, Writer>,
      used: set<string>) {
    && published.Keys <= used
    && (forall w :: w in writers ==> writers[w].generation in used)
    && (forall r :: r in t.providers ==> r.generation in used)
    && (forall r :: r in t.models ==> r.generation in used)
  }

  /** No writer owns a generation that is gone, and one that was published has no rows left. */
  ghost predicate GoneOk(t: Tables, published: map<string, Publication>, writers: map<WriterId, Writer>,
      used: set<string>, gone: set<string>) {
    && gone <= used
    && (forall w :: w in writers ==> writers[w].generation !in gone)
    && (forall g :: g in gone && g in published ==> Unstored(t, published[g].url, g))
  }

  ghost predicate Inv(s: State, codec: Codec) {
    && ActiveOk(s.tables, s.published, s.gone, codec)
    && WritersOk(s.tables, s.published, codec, s.writers)
    && UsedOk(s.tables, s.published, s.writers, s.used)
    && GoneOk(s.tables, s.published, s.writers, s.used, s.gone)
  }

  /** A change to the rows of a generation that is gone or not active keeps the others complete. */
  lemma ActiveStays(t: Tables, t': Tables, published: map<string, Publication>, gone: set<string>, gone': set<string>,
      codec: Codec, generation: string)
    requires ActiveOk(t, published, gone, codec) && ChangesOnly(t, t', generation) && gone <= gone'
    requires NotActive(t, generation) || generation in gone'
    ensures ActiveOk(t', published, gone', codec)
  {
    hide Holds, ChangesOnly;
    forall url | url in t'.sources ensures RowOk(t', published, gone', codec, url, t'.sources[url]) {
      RowStays(t, t', published, gone, gone', codec, generation, url);
    }
  }

  lemma RowStays(t: Tables, t': Tables, published: map<string, Publication>, gone: set<string>, gone': set<string>,
      codec: Codec, generation: string, url: string)
    requires ActiveOk(t, published, gone, codec) && ChangesOnly(t, t', generation) && gone <= gone'
    requires NotActive(t, generation) || generation in gone'
    requires url in t'.sources
    ensures t'.sources == t.sources && RowOk(t', published, gone', codec, url, t.sources[url])
  {
    hide Holds, StatementsOf;
    var row := t.sources[url];
    assert RowOk(t, published, gone, codec, url, row);
    var providers := published[row.activeGeneration].snapshot.providers;
    if row.activeGeneration !in gone' {
      OtherGenerationsStay(t, t', generation, url, row.activeGeneration,
                           StatementsOf(url, row.activeGeneration, codec, providers, |providers|));
    }
  }

  lemma WriterStays(t: Tables, t': Tables, published: map<string, Publication>, codec: Codec, generation: string,
      w: Writer)
    requires WriterOk(t, published, codec, w) && ChangesOnly(t, t', generation)
    requires w.phase.Inserting? ==> w.generation != generation
    ensures WriterOk(t', published, codec, w)
  {
    hide Holds;
    if w.phase.Inserting? {
      OtherGenerationsStay(t, t', generation, w.url, w.generation, Flatten(w.batches[..w.phase.next]));
    }
  }

  /** The writer `w`, now in `next` phase or ended, after a change to the rows of one generation that is
      not active, or its own and now gone, and that no other inserting writer owns. */
  lemma RowChangeKeepsInv(s: State, codec: Codec, w: WriterId, t': Tables, generation: string, next: Option<Phase>,
      gone': set<string>)
    requires Inv(s, codec) && w in s.writers
    requires ChangesOnly(s.tables, t', generation) && generation in s.used
    requires gone' == s.gone || (next.None? && gone' == s.gone + {generation} && OwnGone(s, w, t', generation))
    requires NotActive(s.tables, generation) || generation in gone'
    requires generation !in s.gone || FewerRows(s.tables, t')
    requires forall v :: v in s.writers && v != w && s.writers[v].phase.Inserting? ==>
      s.writers[v].generation != generation
    requires next.Some? ==> WriterOk(t', s.published, codec, s.writers[w].(phase := next.value))
    ensures next.None? ==> Inv(Without(s.(tables := t', gone := gone'), w), codec)
    ensures next.Some? ==> Inv(To(s.(tables := t'), w, next.value), codec)
  {
    hide ActiveOk, WriterOk, NotActive, UsedOk, GoneOk, OwnGone, FewerRows;
    ActiveStays(s.tables, t', s.published, s.gone, gone', codec, generation);
    UsedStays(s, t', w, generation, next);
    GoneStays(s, t', w, generation, next, gone') by { OwnUrl(s, codec, w); }
    forall v | v in s.writers && v != w ensures WriterOk(t', s.published, codec, s.writers[v]) {
      WriterStays(s.tables, t', s.published, codec, generation, s.writers[v]);
    }
  }

  /** The writer's own generation has no rows left under its url. */
  ghost predicate OwnGone(s: State, w: WriterId, t': Tables, generation: string)
    requires w in s.writers
  {
    generation == s.writers[w].generation && Unstored(t', s.writers[w].url, generation)
  }

  ghost predicate FewerRows(t: Tables, t': Tables) {
    t'.providers <= t.providers && t'.models <= t.models
  }

  lemma OwnUrl(s: State, codec: Codec, w: WriterId)
    requires WritersOk(s.tables, s.published, codec, s.writers) && w in s.writers
    ensures s.writers[w].generation in s.published ==> s.published[s.writers[w].generation].url == s.writers[w].url
    ensures forall v :: v in s.writers && v != w ==> s.writers[v].generation != s.writers[w].generation
  {
    assert WriterOk(s.tables, s.published, codec, s.writers[w]);
  }

  lemma GoneStays(s: State, t': Tables, w: WriterId, generation: string, next: Option<Phase>, gone': set<string>)
    requires GoneOk(s.tables, s.published, s.writers, s.used, s.gone) && w in s.writers
    requires ChangesOnly(s.tables, t', generation) && generation in s.used
    requires gone' == s.gone || (next.None? && gone' == s.gone + {generation} && OwnGone(s, w, t', generation))
    requires generation !in s.gone || FewerRows(s.tables, t')
    requires s.writers[w].generation in s.published ==> s.published[s.writers[w].generation].url == s.writers[w].url
    requires forall v :: v in s.writers && v != w ==> s.writers[v].generation != s.writers[w].generation
    ensures next.None? ==> GoneOk(t', s.published, s.writers - {w}, s.used, gone')
    ensures next.Some? ==> GoneOk(t', s.published, To(s, w, next.value).writers, s.used, gone')
  {
    forall g | g in gone' && g in s.published ensures Unstored(t', s.published[g].url, g) {
      if g in s.gone { assert Unstored(s.tables, s.published[g].url, g); }
    }
    hide Unstored;
  }

  lemma UsedStays(s: State, t': Tables, w: WriterId, generation: string, next: Option<Phase>)
    requires UsedOk(s.tables, s.published, s.writers, s.used) && w in s.writers
    requires ChangesOnly(s.tables, t', generation) && generation in s.used
    ensures UsedOk(t', s.published, s.writers - {w}, s.used)
    ensures next.Some? ==> UsedOk(t', s.published, To(s, w, next.value).writers, s.used)
  {}

  lemma UnpublishedNotActive(s: State, codec: Codec, generation: string)
    requires ActiveOk(s.tables, s.published, s.gone, codec) && generation !in s.published
    ensures NotActive(s.tables, generation)
  {
    hide Complete;
    forall url | url in s.tables.sources ensures s.tables.sources[url].activeGeneration != generation {
      assert RowOk(s.tables, s.published, s.gone, codec, url, s.tables.sources[url]);
    }
  }

  lemma BeginKeepsInv(s: State, codec: Codec, e: Event)
    requires Inv(s, codec) && e.Begin? && Enabled(s, codec, e)
    ensures Inv(Apply(s, codec, e), codec)
  {
    hide Complete, StatementsOf;
    var t := Apply(s, codec, e);
    assert e.batches[..0] == [];
    assert Holds(s.tables, e.url, e.generation, []);
    if e.url in s.tables.sources { assert RowOk(s.tables, s.published, s.gone, codec, e.url, s.tables.sources[e.url]); }
    assert WriterOk(s.tables, s.published, codec, t.writers[e.w]);
    hide ActiveOk, WriterOk, Holds;
  }

  lemma {:induction false} FlattenMembers<T>(batches: seq<seq<T>>)
    ensures forall i, x :: 0 <= i < |batches| && x in batches[i] ==> x in Flatten(batches)
  {
    if batches != [] {
      var prefix := batches[..|batches| - 1];
      FlattenMembers(prefix);
      forall i, x | 0 <= i < |batches| && x in batches[i] ensures x in Flatten(batches) {
        if i < |prefix| { assert batches[i] == prefix[i]; }
      }
    }
  }

  lemma NextBatch(s: State, codec: Codec, w: Writer)
    requires WriterOk(s.tables, s.published, codec, w) && AtBatch(s.tables, w, true)
    ensures var t' := Execute(s.tables, w.batches[w.phase.next]).value;
      && ChangesOnly(s.tables, t', w.generation)
      && WriterOk(t', s.published, codec, w.(phase := Inserting(w.phase.next + 1)))
      && WriterOk(t', s.published, codec, w.(phase := Cleaning))
  {
    var k := w.phase.next;
    StatementsTarget(w.url, w.generation, codec, w.snapshot.providers, |w.snapshot.providers|);
    FlattenMembers(w.batches);
    BatchExtends(s.tables, w.url, w.generation, Flatten(w.batches[..k]), w.batches[k]);
    assert w.batches[..k + 1][..k] == w.batches[..k];
    hide Holds, StatementsOf, Execute;
  }

  lemma BatchKeepsInv(s: State, codec: Codec, e: Event)
    requires Inv(s, codec) && (e.RunBatch? || e.BatchFails?) && Enabled(s, codec, e)
    ensures Inv(Apply(s, codec, e), codec)
  {
    var w := s.writers[e.w];
    UnpublishedNotActive(s, codec, w.generation);
    hide ActiveOk, NotActive, Holds, StatementsOf, Execute;
    if e.RunBatch? || e.applied {
      NextBatch(s, codec, w);
      RowChangeKeepsInv(s, codec, e.w, Execute(s.tables, w.batches[w.phase.next]).value, w.generation,
                        Some(if e.RunBatch? then Inserting(w.phase.next + 1) else Cleaning), s.gone);
    } else {
      RowChangeKeepsInv(s, codec, e.w, s.tables, w.generation, Some(Cleaning), s.gone);
    }
  }

  /** Removing the failed or the replaced generation. */
  lemma RemovalKeepsInv(s: State, codec: Codec, e: Event)
    requires Inv(s, codec) && (e.CleanUp? || e.CleanUpFails? || e.Retire? || e.RetireFails? || e.Crash?)
    requires Enabled(s, codec, e)
    ensures Inv(Apply(s, codec, e), codec)
  {
    var w := s.writers[e.w];
    hide ActiveOk, Holds, StatementsOf, RemoveGeneration, Execute, NotActive, GoneOk, OwnGone, FewerRows;
    EndKeepsInv(s, codec, e.w);
    if w.phase.Retiring? {
      var t' := RemoveGeneration(s.tables, w.url, w.previous.value);
      RemovalChanges(s.tables, w.url, w.previous.value);
      RemovalFewer(s.tables, w.url, w.previous.value);
      RowChangeKeepsInv(s, codec, e.w, t', w.previous.value, None, s.gone);
    } else if w.phase.Cleaning? {
      var t' := RemoveGeneration(s.tables, w.url, w.generation);
      RemovalChanges(s.tables, w.url, w.generation);
      RemovalFewer(s.tables, w.url, w.generation);
      assert OwnGone(s, e.w, t', w.generation) by { RemovalFewer(s.tables, w.url, w.generation); }
      RowChangeKeepsInv(s, codec, e.w, t', w.generation, None, s.gone + {w.generation});
    }
  }

  lemma RemovalFewer(t: Tables, url: string, generation: string)
    ensures FewerRows(t, RemoveGeneration(t, url, generation))
    ensures Unstored(RemoveGeneration(t, url, generation), url, generation)
  {}

  /** A writer ends without touching the tables. */
  lemma EndKeepsInv(s: State, codec: Codec, w: WriterId)
    requires Inv(s, codec) && w in s.writers
    ensures Inv(Without(s, w), codec)
  {
    hide ActiveOk, WriterOk, Unstored;
  }

  lemma SwitchKeepsInv(s: State, codec: Codec, e: Event)
    requires Inv(s, codec) && (e.Switch? || e.SwitchFails?) && Enabled(s, codec, e)
    ensures Inv(Apply(s, codec, e), codec)
  {
    hide ActiveOk, NotActive, WriterOk, UsedOk, GoneOk;
    var w := s.writers[e.w];
    WriterFacts(s.tables, s.published, codec, w);
    UnpublishedNotActive(s, codec, w.generation);
    if e.SwitchFails? && !e.applied {
      UsedWriter(s, e.w);
      RowChangeKeepsInv(s, codec, e.w, s.tables, w.generation, Some(Cleaning), s.gone) by {
        assert FewerRows(s.tables, s.tables);
      }
    } else {
      GonePublish(s, e.w);
      SwitchActivates(s, codec, w);
      UsedPublish(s, e.w);
      forall v | v in s.writers && v != e.w
        ensures WriterOk(Publish(s, w).tables, Publish(s, w).published, codec, s.writers[v])
      {
        SwitchKeepsWriter(s, codec, w, s.writers[v]);
      }
      SwitchCleans(s, codec, w);
      if w.previous.Some? { SwitchRetires(s, codec, w); }
    }
  }

  lemma GonePublish(s: State, w: WriterId)
    requires GoneOk(s.tables, s.published, s.writers, s.used, s.gone) && w in s.writers
    ensures s.writers[w].generation !in s.gone
    ensures var t := Publish(s, s.writers[w]);
      && GoneOk(t.tables, t.published, s.writers - {w}, s.used, s.gone)
      && forall phase :: GoneOk(t.tables, t.published, To(t, w, phase).writers, s.used, s.gone)
  {
    var t := Publish(s, s.writers[w]);
    forall g | g in s.gone && g in t.published ensures Unstored(t.tables, t.published[g].url, g) {
      assert Unstored(s.tables, s.published[g].url, g);
    }
  }

  lemma WriterFacts(t: Tables, published: map<string, Publication>, codec: Codec, w: Writer)
    requires WriterOk(t, published, codec, w) && w.phase.Inserting?
    ensures w.generation !in published && WriterOk(t, published, codec, w.(phase := Cleaning))
  {}

  lemma UsedWriter(s: State, w: WriterId)
    requires UsedOk(s.tables, s.published, s.writers, s.used) && w in s.writers
    ensures s.writers[w].generation in s.used
  {}

  lemma UsedPublish(s: State, w: WriterId)
    requires UsedOk(s.tables, s.published, s.writers, s.used) && w in s.writers
    ensures var t := Publish(s, s.writers[w]);
      && UsedOk(t.tables, t.published, s.writers - {w}, s.used)
      && forall phase :: UsedOk(t.tables, t.published, To(t, w, phase).writers, s.used)
  {}

  lemma SwitchActivates(s: State, codec: Codec, w: Writer)
    requires ActiveOk(s.tables, s.published, s.gone, codec) && WriterOk(s.tables, s.published, codec, w) && AtSwitch(w)
    requires w.generation !in s.gone
    ensures ActiveOk(Publish(s, w).tables, Publish(s, w).published, s.gone, codec)
  {
    hide Holds, StatementsOf;
    var t := Publish(s, w);
    assert w.batches[..|w.batches|] == w.batches;
    SameRows(s.tables, t.tables);
    forall url | url in t.tables.sources
      ensures RowOk(t.tables, t.published, t.gone, codec, url, t.tables.sources[url])
    {
      if url != w.url { assert RowOk(s.tables, s.published, s.gone, codec, url, s.tables.sources[url]); }
    }
  }

  /** A switch touches no row of any generation. */
  lemma SameRows(t: Tables, t': Tables)
    requires t'.providers == t.providers && t'.models == t.models
    ensures forall url, generation, statements :: Holds(t, url, generation, statements) <==>
      Holds(t', url, generation, statements)
  {}

  lemma SwitchKeepsWriter(s: State, codec: Codec, w: Writer, v: Writer)
    requires WriterOk(s.tables, s.published, codec, w) && w.phase.Inserting? && NotActive(s.tables, w.generation)
    requires WriterOk(s.tables, s.published, codec, v) && v.generation != w.generation
    ensures WriterOk(Publish(s, w).tables, Publish(s, w).published, codec, v)
  {
    SameRows(s.tables, Publish(s, w).tables);
    hide Holds, StatementsOf;
  }

  lemma SwitchCleans(s: State, codec: Codec, w: Writer)
    requires WriterOk(s.tables, s.published, codec, w) && w.phase.Inserting?
    ensures WriterOk(Publish(s, w).tables, Publish(s, w).published, codec, w.(phase := Cleaning))
  {
    hide Holds, StatementsOf;
  }

  lemma SwitchRetires(s: State, codec: Codec, w: Writer)
    requires ActiveOk(s.tables, s.published, s.gone, codec) && WriterOk(s.tables, s.published, codec, w) && AtSwitch(w)
    requires w.previous.Some?
    ensures WriterOk(Publish(s, w).tables, Publish(s, w).published, codec, w.(phase := Retiring))
  {
    hide Holds, StatementsOf, Complete;
    var t := Publish(s, w);
    forall url | url in t.tables.sources ensures t.tables.sources[url].activeGeneration != w.previous.value {
      if url != w.url { assert RowOk(s.tables, s.published, s.gone, codec, url, s.tables.sources[url]); }
    }
  }

  lemma StepKeepsInv(s: State, codec: Codec, e: Event)
    requires Inv(s, codec) && Enabled(s, codec, e)
    ensures Inv(Apply(s, codec, e), codec)
  {
    hide Inv, Apply;
    if e.Begin? { BeginKeepsInv(s, codec, e); }
    else if e.RunBatch? || e.BatchFails? { BatchKeepsInv(s, codec, e); }
    else if e.Switch? || e.SwitchFails? { SwitchKeepsInv(s, codec, e); }
    else { RemovalKeepsInv(s, codec, e); }
  }

  /** In every run of any number of writers, with failures and crashes: the invariant holds. */
  lemma {:induction false} RunKeepsInv(codec: Codec, events: seq<Event>)
    requires Run(EMPTY, codec, events).Some?
    ensures Inv(Run(EMPTY, codec, events).value, codec)
  {
    if events != [] {
      RunKeepsInv(codec, events[..|events| - 1]);
      hide Inv, Enabled, Apply;
      StepKeepsInv(Run(EMPTY, codec, events[..|events| - 1]).value, codec, events[|events| - 1]);
    }
  }

}
