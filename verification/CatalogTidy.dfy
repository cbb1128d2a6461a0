/** When concurrent writers leave nothing behind: exactly when every switch replaces the generation its
    writer read as its predecessor. */
module CatalogTidy {
  import opened Ordering
  import opened Catalog
  import opened CatalogWrites

  // ---------------------------------------------------------------- runs without failures

  predicate FailureFree(e: Event) {
    e.Begin? || e.RunBatch? || e.Switch? || e.Retire?
  }

  ghost predicate AllFailureFree(events: seq<Event>) {
    forall e :: e in events ==> FailureFree(e)
  }

  function ActiveOf(t: Tables, url: string): Option<string> {
    if url in t.sources then Some(t.sources[url].activeGeneration) else None
  }

  /** The step switches `url`. */
  predicate Switches(s: State, e: Event, url: string) {
    e.Switch? && e.w in s.writers && s.writers[e.w].url == url
  }

  /** At every switch of `url` its writer's predecessor is the generation active then: no other switch
      of that url came between the writer's `Begin` and its `Switch`. */
  ghost predicate SequentialFor(codec: Codec, events: seq<Event>, url: string)
    requires Run(EMPTY, codec, events).Some?
  {
    events != [] ==>
      var before, e := events[..|events| - 1], events[|events| - 1];
      var s := Run(EMPTY, codec, before).value;
      SequentialFor(codec, before, url) && (Switches(s, e, url) ==> s.writers[e.w].previous == ActiveOf(s.tables, url))
  }

  ghost predicate Sequential(codec: Codec, events: seq<Event>)
    requires Run(EMPTY, codec, events).Some?
  {
    forall url :: SequentialFor(codec, events, url)
  }

  // ---------------------------------------------------------------- the switches of one url

  /** One switch: the generation it activated and the predecessor its writer had read. */
  datatype Entry = Entry(generation: string, previous: Option<string>)
  type Ledger = seq<Entry>

  ghost function LedgerOf(codec: Codec, events: seq<Event>, url: string): Ledger
    requires Run(EMPTY, codec, events).Some?
  {
    if events == [] then []
    else
      var before, e := events[..|events| - 1], events[|events| - 1];
      LedgerStep(Run(EMPTY, codec, before).value, LedgerOf(codec, before, url), e, url)
  }

  function LedgerStep(s: State, l: Ledger, e: Event, url: string): Ledger {
    if Switches(s, e, url) then l + [Entry(s.writers[e.w].generation, s.writers[e.w].previous)] else l
  }

  ghost predicate InLedger(l: Ledger, generation: string) {
    exists i :: 0 <= i < |l| && l[i].generation == generation
  }

  /** Some writer that switched had read this generation as its predecessor. */
  ghost predicate IsPredecessor(l: Ledger, generation: string) {
    exists j :: 0 <= j < |l| && l[j].previous == Some(generation)
  }

  ghost predicate DistinctGenerations(l: Ledger) {
    forall i, j :: 0 <= i < j < |l| ==> l[i].generation != l[j].generation
  }

  /** A predecessor is a generation that was switched in before. */
  ghost predicate LooksBack(l: Ledger) {
    forall j :: 0 <= j < |l| && l[j].previous.Some? ==> InLedger(l[..j], l[j].previous.value)
  }

  predicate Follows(l: Ledger, j: nat)
    requires 0 < j < |l|
  {
    l[j].previous == Some(l[j - 1].generation)
  }

  /** Each switch replaced the one before it. */
  ghost predicate Chained(l: Ledger) {
    forall j :: 0 < j < |l| ==> Follows(l, j)
  }

  /** Every generation that was displaced is some switching writer's predecessor. */
  ghost predicate AllPredecessors(l: Ledger) {
    forall i :: 0 <= i < |l| - 1 ==> IsPredecessor(l, l[i].generation)
  }

  /** Switches can only look back, so they account for every displaced generation only if each accounts
      for the one just before it. */
  lemma ChainedIff(l: Ledger)
    requires DistinctGenerations(l) && LooksBack(l)
    ensures AllPredecessors(l) <==> Chained(l)
  {
    hide DistinctGenerations, LooksBack, Follows, IsPredecessor;
    if Chained(l) {
      forall i | 0 <= i < |l| - 1 ensures IsPredecessor(l, l[i].generation) { FollowedIsPredecessor(l, i + 1); }
    }
    if AllPredecessors(l) {
      var k := |l|;
      while k > 1
        invariant 0 <= k <= |l|
        invariant forall j :: k <= j < |l| && j > 0 ==> Follows(l, j)
      {
        LastAccounts(l, k - 1);
        k := k - 1;
      }
    }
  }

  lemma FollowedIsPredecessor(l: Ledger, j: nat)
    requires 0 < j < |l| && Follows(l, j)
    ensures IsPredecessor(l, l[j - 1].generation)
  {}

  lemma LastAccounts(l: Ledger, k: nat)
    requires DistinctGenerations(l) && LooksBack(l) && AllPredecessors(l) && 0 < k < |l|
    requires forall j :: k < j < |l| ==> Follows(l, j)
    ensures Follows(l, k)
  {
    assert IsPredecessor(l, l[k - 1].generation);
    var j :| 0 <= j < |l| && l[j].previous == Some(l[k - 1].generation);
    assert InLedger(l[..j], l[j].previous.value);
    var i :| 0 <= i < |l[..j]| && l[..j][i].generation == l[k - 1].generation;
    assert l[i] == l[..j][i] && i == k - 1;
    forall m | k < m < |l| ensures l[m].previous != Some(l[k - 1].generation) { NotLater(l, k, m); }
  }

  lemma NotLater(l: Ledger, k: nat, m: nat)
    requires DistinctGenerations(l) && 0 < k < m < |l| && Follows(l, m)
    ensures l[m].previous != Some(l[k - 1].generation)
  {}

  // ---------------------------------------------------------------- what the switches say about the rows

  ghost predicate BeingRetired(writers: map<WriterId, Writer>, url: string, generation: string) {
    exists w :: w in writers && writers[w].phase.Retiring? && writers[w].url == url &&
        writers[w].previous == Some(generation)
  }

  ghost predicate Owned(writers: map<WriterId, Writer>, url: string, generation: string) {
    exists w :: w in writers && writers[w].phase.Inserting? && writers[w].url == url &&
        writers[w].generation == generation
  }

  /** The ledger is that of the url: its last entry is active. */
  ghost predicate LedgerOk(t: Tables, published: map<string, Publication>, url: string, l: Ledger) {
    && DistinctGenerations(l) && LooksBack(l)
    && (forall i :: 0 <= i < |l| ==> l[i].generation in published && published[l[i].generation].url == url)
    && ActiveOf(t, url) == if l == [] then None else Some(l[|l| - 1].generation)
  }

  ghost predicate WritersFit(writers: map<WriterId, Writer>, url: string, l: Ledger) {
    forall w :: w in writers && writers[w].url == url ==> WriterFits(writers[w], l)
  }

  ghost predicate WriterFits(w: Writer, l: Ledger) {
    && !w.phase.Cleaning?
    && (w.previous.Some? ==> InLedger(l, w.previous.value))
    && (w.phase.Retiring? && w.previous.Some? ==> IsPredecessor(l, w.previous.value))
  }

  /** Predecessors are removed or about to be; other activated generations are complete; and every other
      row belongs to a writer still inserting it. */
  ghost predicate RowsFit(s: State, codec: Codec, url: string, l: Ledger) {
    && (forall j :: 0 <= j < |l| && l[j].previous.Some? ==>
          Unstored(s.tables, url, l[j].previous.value) || BeingRetired(s.writers, url, l[j].previous.value))
    && (forall i :: 0 <= i < |l| && !IsPredecessor(l, l[i].generation) && l[i].generation in s.published ==>
          Complete(s.tables, codec, url, l[i].generation, s.published[l[i].generation].snapshot))
    && (forall g :: !InLedger(l, g) && !Owned(s.writers, url, g) ==> Unstored(s.tables, url, g))
  }

  ghost predicate Fits(s: State, codec: Codec, url: string, l: Ledger) {
    && LedgerOk(s.tables, s.published, url, l)
    && WritersFit(s.writers, url, l)
    && RowsFit(s, codec, url, l)
  }

  // ---------------------------------------------------------------- every step keeps them

  /** Only rows of one generation of one url differ. */
  ghost predicate ChangesAt(t: Tables, t': Tables, url: string, generation: string) {
    && t'.sources == t.sources
    && (forall r: ProviderRow :: r.sourceUrl != url || r.generation != generation ==>
        (r in t'.providers <==> r in t.providers))
    && (forall r: ModelRow :: r.sourceUrl != url || r.generation != generation ==> (r in t'.models <==> r in t.models))
  }

  lemma SameElsewhere(t: Tables, t': Tables, url: string, generation: string, u: string, g: string)
    requires ChangesAt(t, t', url, generation) && (u != url || g != generation)
    ensures ProvidersIn(t', u, g) == ProvidersIn(t, u, g) && ModelsIn(t', u, g) == ModelsIn(t, u, g)
    ensures Unstored(t', u, g) <==> Unstored(t, u, g)
    ensures forall codec, x :: Complete(t', codec, u, g, x) <==> Complete(t, codec, u, g, x)
  {}

  lemma BatchChangesAt(s: State, codec: Codec, w: Writer)
    requires WriterOk(s.tables, s.published, codec, w) && AtBatch(s.tables, w, true)
    ensures ChangesAt(s.tables, Execute(s.tables, w.batches[w.phase.next]).value, w.url, w.generation)
  {
    hide Holds, StatementsOf, Execute;
    var batch := w.batches[w.phase.next];
    StatementsTarget(w.url, w.generation, codec, w.snapshot.providers, |w.snapshot.providers|);
    FlattenMembers(w.batches);
    ExecuteAdds(s.tables, batch);
    assert forall x :: x in batch ==> Targets(x, w.url, w.generation);
  }

  lemma RemovalChangesAt(t: Tables, url: string, generation: string)
    ensures ChangesAt(t, RemoveGeneration(t, url, generation), url, generation)
    ensures Unstored(RemoveGeneration(t, url, generation), url, generation)
  {}

  lemma PredecessorPublished(t: Tables, published: map<string, Publication>, url: string, l: Ledger)
    requires LedgerOk(t, published, url, l)
    ensures forall j :: 0 <= j < |l| && l[j].previous.Some? ==> l[j].previous.value in published
    ensures forall g :: InLedger(l, g) ==> g in published
  {
    forall j | 0 <= j < |l| && l[j].previous.Some? ensures l[j].previous.value in published {
      assert InLedger(l[..j], l[j].previous.value);
    }
  }

  lemma BeginFits(s: State, codec: Codec, e: Event, url: string, l: Ledger)
    requires Fits(s, codec, url, l) && e.Begin? && Enabled(s, codec, e)
    ensures Fits(Apply(s, codec, e), codec, url, l)
  {
    hide Complete, Unstored, InLedger, IsPredecessor, LooksBack, DistinctGenerations, StatementsOf;
    var t := Apply(s, codec, e);
    if l != [] { LastInLedger(l); }
    assert WritersFit(t.writers, url, l);
    OthersStay(s.writers, t.writers, e.w, url);
  }

  lemma LastInLedger(l: Ledger)
    requires l != []
    ensures InLedger(l, l[|l| - 1].generation)
  {}

  /** Retiring and inserting writers other than `w` stay what they are. */
  lemma OthersStay(before: map<WriterId, Writer>, after: map<WriterId, Writer>, w: WriterId, url: string)
    requires forall v :: v in before && v != w ==> v in after && after[v] == before[v]
    requires w in before && before[w].phase.Retiring? ==> w in after && after[w] == before[w]
    requires w in before && before[w].phase.Inserting? ==>
      w in after && after[w].phase.Inserting? && after[w].url == before[w].url &&
          after[w].generation == before[w].generation
    ensures forall g :: BeingRetired(before, url, g) ==> BeingRetired(after, url, g)
    ensures forall g :: Owned(before, url, g) ==> Owned(after, url, g)
  {
    forall g | BeingRetired(before, url, g) ensures BeingRetired(after, url, g) {
      var v :| v in before && before[v].phase.Retiring? && before[v].url == url && before[v].previous == Some(g);
      assert v in after;
    }
    forall g | Owned(before, url, g) ensures Owned(after, url, g) {
      var v :| v in before && before[v].phase.Inserting? && before[v].url == url && before[v].generation == g;
      assert v in after;
    }
  }

  lemma RunBatchFits(s: State, codec: Codec, e: Event, url: string, l: Ledger)
    requires Inv(s, codec) && Fits(s, codec, url, l) && e.RunBatch? && Enabled(s, codec, e)
    ensures Fits(Apply(s, codec, e), codec, url, l)
  {
    hide Complete, Unstored, InLedger, IsPredecessor, LooksBack, DistinctGenerations, StatementsOf, Execute, Holds;
    hide Inv, ChangesAt, WriterOk, RowsFit, BeingRetired, Owned;
    var w, t := s.writers[e.w], Apply(s, codec, e);
    InvWriter(s, codec, e.w);
    WriterFacts(s.tables, s.published, codec, w);
    BatchChangesAt(s, codec, w);
    ChangedSources(s.tables, t.tables, w.url, w.generation);
    OthersStay(s.writers, t.writers, e.w, url);
    PredecessorPublished(s.tables, s.published, url, l);
    Owns(t.writers, e.w);
    RowsElsewhere(s, t, codec, url, l, w.url, w.generation);
  }

  lemma InvWriter(s: State, codec: Codec, w: WriterId)
    requires Inv(s, codec) && w in s.writers
    ensures WriterOk(s.tables, s.published, codec, s.writers[w])
  {}

  lemma Owns(writers: map<WriterId, Writer>, w: WriterId)
    requires w in writers && writers[w].phase.Inserting?
    ensures Owned(writers, writers[w].url, writers[w].generation)
  {}

  /** Rows of an owned generation outside the ledger change; everything else stays. */
  lemma RowsElsewhere(s: State, t: State, codec: Codec, url: string, l: Ledger, u: string, gen: string)
    requires RowsFit(s, codec, url, l) && ChangesAt(s.tables, t.tables, u, gen) && t.published == s.published
    requires forall g :: BeingRetired(s.writers, url, g) ==> BeingRetired(t.writers, url, g)
    requires forall g :: Owned(s.writers, url, g) ==> Owned(t.writers, url, g)
    requires Owned(t.writers, u, gen) && gen !in s.published
    requires forall j :: 0 <= j < |l| && l[j].previous.Some? ==> l[j].previous.value in s.published
    ensures RowsFit(t, codec, url, l)
  {
    hide Complete, Unstored, InLedger, IsPredecessor, ChangesAt, BeingRetired, Owned;
    forall g | url != u || g != gen ensures Unstored(t.tables, url, g) <==> Unstored(s.tables, url, g) {
      SameElsewhere(s.tables, t.tables, u, gen, url, g);
    }
    forall g, x | url != u || g != gen
      ensures Complete(t.tables, codec, url, g, x) <==> Complete(s.tables, codec, url, g, x)
    {
      SameElsewhere(s.tables, t.tables, u, gen, url, g);
    }
  }

  lemma ChangedSources(t: Tables, t': Tables, url: string, generation: string)
    requires ChangesAt(t, t', url, generation)
    ensures t'.sources == t.sources
  {}

  lemma RetireFits(s: State, codec: Codec, e: Event, url: string, l: Ledger)
    requires Fits(s, codec, url, l) && e.Retire? && Enabled(s, codec, e)
    ensures Fits(Apply(s, codec, e), codec, url, l)
  {
    hide Complete, Unstored, InLedger, IsPredecessor, LooksBack, DistinctGenerations, StatementsOf, Execute, Holds;
    hide ChangesAt, RowsFit, BeingRetired, Owned, RemoveGeneration;
    var w, t := s.writers[e.w], Apply(s, codec, e);
    RemovalChangesAt(s.tables, w.url, w.previous.value);
    ChangedSources(s.tables, t.tables, w.url, w.previous.value);
    RetiredRows(s, t, codec, url, l, e.w);
  }

  lemma RetiredRows(s: State, t: State, codec: Codec, url: string, l: Ledger, w: WriterId)
    requires RowsFit(s, codec, url, l) && WritersFit(s.writers, url, l) && w in s.writers
    requires s.writers[w].phase.Retiring? && s.writers[w].previous.Some? && t.writers == s.writers - {w}
    requires t.published == s.published
    requires ChangesAt(s.tables, t.tables, s.writers[w].url, s.writers[w].previous.value)
    requires Unstored(t.tables, s.writers[w].url, s.writers[w].previous.value)
    ensures RowsFit(t, codec, url, l)
  {
    hide Complete, Unstored, InLedger, IsPredecessor, ChangesAt, BeingRetired, Owned;
    var u, gen := s.writers[w].url, s.writers[w].previous.value;
    forall g | url != u || g != gen ensures Unstored(t.tables, url, g) <==> Unstored(s.tables, url, g) {
      SameElsewhere(s.tables, t.tables, u, gen, url, g);
    }
    forall g, x | url != u || g != gen
      ensures Complete(t.tables, codec, url, g, x) <==> Complete(s.tables, codec, url, g, x)
    {
      SameElsewhere(s.tables, t.tables, u, gen, url, g);
    }
    OneLess(s.writers, w, url);
  }

  lemma OneLess(writers: map<WriterId, Writer>, w: WriterId, url: string)
    requires w in writers && writers[w].phase.Retiring?
    ensures forall g :: BeingRetired(writers, url, g) ==>
      BeingRetired(writers - {w}, url, g) || (writers[w].url == url && writers[w].previous == Some(g))
    ensures forall g :: Owned(writers, url, g) ==> Owned(writers - {w}, url, g)
  {
    forall g | BeingRetired(writers, url, g)
      ensures BeingRetired(writers - {w}, url, g) || (writers[w].url == url && writers[w].previous == Some(g))
    {
      var v :| v in writers && writers[v].phase.Retiring? && writers[v].url == url && writers[v].previous == Some(g);
      if v != w { assert v in writers - {w}; }
    }
    forall g | Owned(writers, url, g) ensures Owned(writers - {w}, url, g) {
      var v :| v in writers && writers[v].phase.Inserting? && writers[v].url == url && writers[v].generation == g;
      assert v in writers - {w};
    }
  }

  // ---------------------------------------------------------------- a switch

  lemma SwitchElsewhere(s: State, codec: Codec, e: Event, url: string, l: Ledger)
    requires Inv(s, codec) && Fits(s, codec, url, l) && e.Switch? && Enabled(s, codec, e) && s.writers[e.w].url != url
    ensures Fits(Apply(s, codec, e), codec, url, l)
  {
    hide Complete, Unstored, InLedger, IsPredecessor, LooksBack, DistinctGenerations, StatementsOf, Execute, Holds;
    hide Inv, WriterOk, RowsFit, BeingRetired, Owned;
    var w, t := s.writers[e.w], Apply(s, codec, e);
    InvWriter(s, codec, e.w);
    WriterFacts(s.tables, s.published, codec, w);
    SwitchedRows(s.tables, w);
    SwitchedWriters(s.writers, t.writers, e.w, url);
    RowsSame(s, t, codec, url, l);
  }

  lemma SwitchedRows(t: Tables, w: Writer)
    ensures forall url, g :: Unstored(Switched(t, w), url, g) <==> Unstored(t, url, g)
    ensures forall codec, url, g, x :: Complete(Switched(t, w), codec, url, g, x) <==> Complete(t, codec, url, g, x)
  {}

  /** A writer of another url that switches does not matter to this one. */
  lemma SwitchedWriters(before: map<WriterId, Writer>, after: map<WriterId, Writer>, w: WriterId, url: string)
    requires w in before && before[w].phase.Inserting?
    requires forall v :: v in before && v != w ==> v in after && after[v] == before[v]
    ensures forall g :: BeingRetired(before, url, g) ==> BeingRetired(after, url, g)
    ensures forall g :: Owned(before, url, g) ==>
      Owned(after, url, g) || (url == before[w].url && g == before[w].generation)
  {
    forall g | BeingRetired(before, url, g) ensures BeingRetired(after, url, g) {
      var v :| v in before && before[v].phase.Retiring? && before[v].url == url && before[v].previous == Some(g);
      assert v in after;
    }
    forall g | Owned(before, url, g)
      ensures Owned(after, url, g) || (url == before[w].url && g == before[w].generation)
    {
      var v :| v in before && before[v].phase.Inserting? && before[v].url == url && before[v].generation == g;
      if v != w { assert v in after; }
    }
  }

  lemma RowsSame(s: State, t: State, codec: Codec, url: string, l: Ledger)
    requires RowsFit(s, codec, url, l) && Kept(s.published, t.published)
    requires forall i :: 0 <= i < |l| ==> l[i].generation in s.published
    requires forall g :: Unstored(t.tables, url, g) <==> Unstored(s.tables, url, g)
    requires forall g, x :: Complete(t.tables, codec, url, g, x) <==> Complete(s.tables, codec, url, g, x)
    requires forall g :: BeingRetired(s.writers, url, g) ==> BeingRetired(t.writers, url, g)
    requires forall g :: Owned(s.writers, url, g) ==> Owned(t.writers, url, g)
    ensures RowsFit(t, codec, url, l)
  {
    hide Complete, Unstored, InLedger, IsPredecessor, BeingRetired, Owned;
  }

  lemma SwitchHere(s: State, codec: Codec, e: Event, l: Ledger)
    requires Inv(s, codec) && e.Switch? && Enabled(s, codec, e) && Fits(s, codec, s.writers[e.w].url, l)
    ensures Fits(Apply(s, codec, e), codec, s.writers[e.w].url, LedgerStep(s, l, e, s.writers[e.w].url))
  {
    hide Complete, Unstored, InLedger, IsPredecessor, LooksBack, DistinctGenerations, StatementsOf, Execute, Holds;
    hide Inv, WriterOk, RowsFit, BeingRetired, Owned, LedgerOk, WritersFit;
    var w, t := s.writers[e.w], Apply(s, codec, e);
    var entry := Entry(w.generation, w.previous);
    InvWriter(s, codec, e.w);
    WriterFacts(s.tables, s.published, codec, w);
    WriterInLedger(s.writers, e.w, l);
    LedgerGrows(s, codec, w, l);
    assert t.tables == Publish(s, w).tables && t.published == Publish(s, w).published;
    WritersGrow(s.writers, t.writers, e.w, l, entry);
    RowsGrow(s, t, codec, e.w, l);
  }

  lemma WriterInLedger(writers: map<WriterId, Writer>, w: WriterId, l: Ledger)
    requires w in writers && WritersFit(writers, writers[w].url, l)
    ensures writers[w].previous.Some? ==> InLedger(l, writers[w].previous.value)
  {}

  lemma LedgerGrows(s: State, codec: Codec, w: Writer, l: Ledger)
    requires LedgerOk(s.tables, s.published, w.url, l) && w.generation !in s.published
    requires w.previous.Some? ==> InLedger(l, w.previous.value)
    ensures LedgerOk(Publish(s, w).tables, Publish(s, w).published, w.url, l + [Entry(w.generation, w.previous)])
  {
    var more := l + [Entry(w.generation, w.previous)];
    assert forall j :: 0 <= j <= |l| ==> more[..j] == l[..j];
    assert l[..|l|] == l;
    assert LooksBack(more);
  }

  lemma LedgerMembers(l: Ledger, entry: Entry)
    ensures forall g :: InLedger(l + [entry], g) <==> InLedger(l, g) || g == entry.generation
    ensures forall g :: IsPredecessor(l + [entry], g) <==> IsPredecessor(l, g) || entry.previous == Some(g)
  {
    var more := l + [entry];
    assert more[|l|] == entry;
    forall g | InLedger(l, g) ensures InLedger(more, g) {
      var i :| 0 <= i < |l| && l[i].generation == g;
      assert more[i] == l[i];
    }
    forall g | IsPredecessor(l, g) ensures IsPredecessor(more, g) {
      var j :| 0 <= j < |l| && l[j].previous == Some(g);
      assert more[j] == l[j];
    }
  }

  lemma WritersGrow(before: map<WriterId, Writer>, after: map<WriterId, Writer>, w: WriterId, l: Ledger, entry: Entry)
    requires w in before && WritersFit(before, before[w].url, l)
    requires entry == Entry(before[w].generation, before[w].previous)
    requires before[w].phase.Inserting?
    requires forall v :: v in after ==> v in before && (v != w ==> after[v] == before[v])
    requires w in after ==> after[w] == before[w].(phase := Retiring)
    ensures WritersFit(after, before[w].url, l + [entry])
  {
    hide InLedger, IsPredecessor;
    LedgerMembers(l, entry);
  }

  lemma RowsGrow(s: State, t: State, codec: Codec, id: WriterId, l: Ledger)
    requires id in s.writers && WriterOk(s.tables, s.published, codec, s.writers[id]) && AtSwitch(s.writers[id])
    requires RowsFit(s, codec, s.writers[id].url, l) && LedgerOk(s.tables, s.published, s.writers[id].url, l)
    requires t.tables == Publish(s, s.writers[id]).tables && t.published == Publish(s, s.writers[id]).published
    requires forall v :: v in s.writers && v != id ==> v in t.writers && t.writers[v] == s.writers[v]
    requires s.writers[id].previous.Some? ==> id in t.writers && t.writers[id] == s.writers[id].(phase := Retiring)
    ensures RowsFit(t, codec, s.writers[id].url, l + [Entry(s.writers[id].generation, s.writers[id].previous)])
  {
    hide Complete, Unstored, InLedger, IsPredecessor, BeingRetired, Owned, LooksBack, DistinctGenerations, WriterOk;
    var w := s.writers[id];
    var entry := Entry(w.generation, w.previous);
    LedgerMembers(l, entry);
    SwitchedRows(s.tables, w);
    SwitchedWriters(s.writers, t.writers, id, w.url);
    WriterFacts(s.tables, s.published, codec, w);
    CompleteAtSwitch(s, codec, w);
    if w.previous.Some? { NowRetiring(t.writers, id); }
  }

  lemma NowRetiring(writers: map<WriterId, Writer>, w: WriterId)
    requires w in writers && writers[w].phase.Retiring? && writers[w].previous.Some?
    ensures BeingRetired(writers, writers[w].url, writers[w].previous.value)
  {}

  lemma CompleteAtSwitch(s: State, codec: Codec, w: Writer)
    requires WriterOk(s.tables, s.published, codec, w) && AtSwitch(w)
    ensures Complete(s.tables, codec, w.url, w.generation, w.snapshot)
  {
    hide Holds, StatementsOf;
    assert w.batches[..|w.batches|] == w.batches;
  }

  // ---------------------------------------------------------------- runs

  lemma StepFits(s: State, codec: Codec, e: Event, url: string, l: Ledger)
    requires Inv(s, codec) && Fits(s, codec, url, l) && FailureFree(e) && Enabled(s, codec, e)
    ensures Fits(Apply(s, codec, e), codec, url, LedgerStep(s, l, e, url))
  {
    hide Inv, Fits, Apply;
    if e.Begin? { BeginFits(s, codec, e, url, l); }
    else if e.RunBatch? { RunBatchFits(s, codec, e, url, l); }
    else if e.Retire? { RetireFits(s, codec, e, url, l); }
    else if s.writers[e.w].url == url { SwitchHere(s, codec, e, l); }
    else { SwitchElsewhere(s, codec, e, url, l); }
  }

  lemma NothingFits(codec: Codec, url: string)
    ensures Fits(EMPTY, codec, url, [])
  {}

  lemma FailureFreePrefix(events: seq<Event>)
    requires events != [] && AllFailureFree(events)
    ensures AllFailureFree(events[..|events| - 1]) && FailureFree(events[|events| - 1])
  {}

  lemma {:induction false} RunFits(codec: Codec, events: seq<Event>, url: string)
    requires Run(EMPTY, codec, events).Some? && AllFailureFree(events)
    ensures Fits(Run(EMPTY, codec, events).value, codec, url, LedgerOf(codec, events, url))
  {
    hide Inv, Fits, Apply, Enabled, AllFailureFree;
    if events == [] {
      NothingFits(codec, url);
    } else {
      var before, e := events[..|events| - 1], events[|events| - 1];
      FailureFreePrefix(events);
      RunFits(codec, before, url);
      RunKeepsInv(codec, before);
      StepFits(Run(EMPTY, codec, before).value, codec, e, url, LedgerOf(codec, before, url));
    }
  }

  /** A run is sequential for a url exactly when the ledger of that url is chained. */
  lemma {:induction false} SequentialIffChained(codec: Codec, events: seq<Event>, url: string)
    requires Run(EMPTY, codec, events).Some? && AllFailureFree(events)
    ensures SequentialFor(codec, events, url) <==> Chained(LedgerOf(codec, events, url))
  {
    hide Fits, Apply, Enabled, AllFailureFree, Chained;
    if events == [] {
      NothingChained();
    } else {
      var before, e := events[..|events| - 1], events[|events| - 1];
      FailureFreePrefix(events);
      SequentialIffChained(codec, before, url);
      RunFits(codec, before, url);
      RunFits(codec, events, url);
      var s, l := Run(EMPTY, codec, before).value, LedgerOf(codec, before, url);
      FitsLedger(s, codec, url, l);
      if Switches(s, e, url) {
        FitsLedger(Run(EMPTY, codec, events).value, codec, url, LedgerOf(codec, events, url));
        ChainedStep(l, Entry(s.writers[e.w].generation, s.writers[e.w].previous));
      }
    }
  }

  lemma NothingChained()
    ensures Chained([])
  {}

  lemma FitsLedger(s: State, codec: Codec, url: string, l: Ledger)
    requires Fits(s, codec, url, l)
    ensures DistinctGenerations(l) && LooksBack(l)
    ensures ActiveOf(s.tables, url) == if l == [] then None else Some(l[|l| - 1].generation)
  {}

  lemma ChainedStep(l: Ledger, entry: Entry)
    requires LooksBack(l + [entry])
    ensures Chained(l + [entry]) <==>
      Chained(l) && entry.previous == if l == [] then None else Some(l[|l| - 1].generation)
  {
    var more := l + [entry];
    assert more[|l|] == entry;
    assert forall j :: 0 < j < |l| ==> Follows(more, j) == Follows(l, j);
    if l == [] {
      assert forall g :: !InLedger(more[..0], g);
    } else {
      assert Follows(more, |l|) <==> entry.previous == Some(l[|l| - 1].generation);
    }
    if Chained(more) {
      forall j | 0 < j < |l| ensures Follows(l, j) { assert Follows(more, j); }
    }
  }

  // ---------------------------------------------------------------- exactly when only active rows are left

  /** The displaced generations that no writer has for a predecessor were written for snapshots without
      providers, which have no rows. */
  ghost predicate OnlyEmptyLeft(published: map<string, Publication>, l: Ledger) {
    forall i :: 0 <= i < |l| - 1 && !IsPredecessor(l, l[i].generation) && l[i].generation in published ==>
      published[l[i].generation].snapshot.providers == []
  }

  ghost predicate TidyFor(t: Tables, url: string) {
    && (forall r :: r in t.providers && r.sourceUrl == url ==> ActiveOf(t, url) == Some(r.generation))
    && (forall r :: r in t.models && r.sourceUrl == url ==> ActiveOf(t, url) == Some(r.generation))
  }

  lemma TidyIsTidyFor(t: Tables)
    ensures Tidy(t) <==> forall url :: TidyFor(t, url)
  {
    if forall url :: TidyFor(t, url) {
      forall r | r in t.providers ensures ActiveOf(t, r.sourceUrl) == Some(r.generation) {
        assert TidyFor(t, r.sourceUrl);
      }
      forall r | r in t.models ensures ActiveOf(t, r.sourceUrl) == Some(r.generation) {
        assert TidyFor(t, r.sourceUrl);
      }
    }
  }

  lemma TidyForIff(s: State, codec: Codec, url: string, l: Ledger)
    requires Fits(s, codec, url, l) && s.writers == map[]
    ensures TidyFor(s.tables, url) <==> OnlyEmptyLeft(s.published, l)
  {
    hide Complete, Unstored, LooksBack, IsPredecessor;
    if OnlyEmptyLeft(s.published, l) {
      forall g | ActiveOf(s.tables, url) != Some(g) ensures Unstored(s.tables, url, g) {
        DisplacedGone(s, codec, url, l, g);
      }
      GoneIsTidy(s.tables, url);
    }
    if TidyFor(s.tables, url) {
      forall i | 0 <= i < |l| - 1 && !IsPredecessor(l, l[i].generation)
        ensures s.published[l[i].generation].snapshot.providers == []
      {
        assert l[i].generation != l[|l| - 1].generation;
        LeftoverEmpty(s.tables, codec, url, l[i].generation, s.published[l[i].generation].snapshot);
      }
    }
  }

  lemma GoneIsTidy(t: Tables, url: string)
    requires forall g :: ActiveOf(t, url) != Some(g) ==> Unstored(t, url, g)
    ensures TidyFor(t, url)
  {
    forall r | r in t.providers && r.sourceUrl == url ensures ActiveOf(t, url) == Some(r.generation) {
      assert r in ProvidersIn(t, url, r.generation);
    }
    forall r | r in t.models && r.sourceUrl == url ensures ActiveOf(t, url) == Some(r.generation) {
      assert r in ModelsIn(t, url, r.generation);
    }
  }

  lemma DisplacedGone(s: State, codec: Codec, url: string, l: Ledger, g: string)
    requires Fits(s, codec, url, l) && s.writers == map[] && OnlyEmptyLeft(s.published, l)
    requires ActiveOf(s.tables, url) != Some(g)
    ensures Unstored(s.tables, url, g)
  {
    hide Complete, Unstored, LooksBack;
    if InLedger(l, g) {
      var i :| 0 <= i < |l| && l[i].generation == g;
      if IsPredecessor(l, g) {
        var j :| 0 <= j < |l| && l[j].previous == Some(g);
      } else {
        EmptyUnstored(s.tables, codec, url, g, s.published[g].snapshot);
      }
    }
  }

  lemma EmptyUnstored(t: Tables, codec: Codec, url: string, g: string, x: Snapshot)
    requires Complete(t, codec, url, g, x) && x.providers == []
    ensures Unstored(t, url, g)
  {}

  /** A complete generation that is not active but leaves the url tidy has no rows, so no providers. */
  lemma LeftoverEmpty(t: Tables, codec: Codec, url: string, g: string, x: Snapshot)
    requires Complete(t, codec, url, g, x) && TidyFor(t, url) && ActiveOf(t, url) != Some(g)
    ensures x.providers == []
  {
    hide Complete;
    if x.providers != [] { var row := StoredProvider(t, codec, url, g, x); }
  }

  /** Every snapshot a writer was given has a provider. */
  ghost predicate NoneEmpty(events: seq<Event>) {
    forall e :: e in events && e.Begin? ==> e.snapshot.providers != []
  }

  /** Every displaced generation of the url is some switching writer's predecessor. */
  ghost predicate AllReplaced(codec: Codec, events: seq<Event>, url: string)
    requires Run(EMPTY, codec, events).Some?
  {
    AllPredecessors(LedgerOf(codec, events, url))
  }

  /** Those that are not have no rows. */
  ghost predicate RestEmpty(codec: Codec, events: seq<Event>, url: string)
    requires Run(EMPTY, codec, events).Some?
  {
    OnlyEmptyLeft(Run(EMPTY, codec, events).value.published, LedgerOf(codec, events, url))
  }

  /** In every run without failures or crashes that ends with no writers: the run is sequential exactly
      when each displaced generation is some switching writer's predecessor, and only active rows are
      left exactly when the others have no rows. So a sequential run always leaves only active rows, and
      if every snapshot has a provider no other run does. */
  lemma TidyIff(codec: Codec, events: seq<Event>)
    requires Run(EMPTY, codec, events).Some? && AllFailureFree(events)
    requires Run(EMPTY, codec, events).value.writers == map[]
    ensures Sequential(codec, events) <==> forall url :: AllReplaced(codec, events, url)
    ensures Tidy(Run(EMPTY, codec, events).value.tables) <==> forall url :: RestEmpty(codec, events, url)
    ensures Sequential(codec, events) ==> Tidy(Run(EMPTY, codec, events).value.tables)
    ensures NoneEmpty(events) ==> (Tidy(Run(EMPTY, codec, events).value.tables) <==> Sequential(codec, events))
  {
    hide Run, SequentialFor, AllReplaced, RestEmpty, TidyFor, NoneEmpty, Tidy;
    TidyIsTidyFor(Run(EMPTY, codec, events).value.tables);
    forall url ensures SequentialFor(codec, events, url) <==> AllReplaced(codec, events, url) {
      UrlIff(codec, events, url);
    }
    forall url ensures TidyFor(Run(EMPTY, codec, events).value.tables, url) <==> RestEmpty(codec, events, url) {
      UrlIff(codec, events, url);
    }
    forall url ensures AllReplaced(codec, events, url) ==> RestEmpty(codec, events, url) { UrlIff(codec, events, url); }
    if NoneEmpty(events) {
      forall url ensures RestEmpty(codec, events, url) ==> AllReplaced(codec, events, url) {
        UrlIff(codec, events, url);
      }
    }
  }

  lemma UrlIff(codec: Codec, events: seq<Event>, url: string)
    requires Run(EMPTY, codec, events).Some? && AllFailureFree(events)
    requires Run(EMPTY, codec, events).value.writers == map[]
    ensures SequentialFor(codec, events, url) <==> AllReplaced(codec, events, url)
    ensures TidyFor(Run(EMPTY, codec, events).value.tables, url) <==> RestEmpty(codec, events, url)
    ensures AllReplaced(codec, events, url) ==> RestEmpty(codec, events, url)
    ensures NoneEmpty(events) && RestEmpty(codec, events, url) ==> AllReplaced(codec, events, url)
  {
    hide Run, Fits, SequentialFor, LedgerOf, AllPredecessors, OnlyEmptyLeft, Chained, TidyFor, NoneEmpty;
    hide DistinctGenerations, LooksBack;
    var s, l := Run(EMPTY, codec, events).value, LedgerOf(codec, events, url);
    RunFits(codec, events, url);
    FitsLedger(s, codec, url, l);
    ChainedIff(l);
    SequentialIffChained(codec, events, url);
    TidyForIff(s, codec, url, l);
    RunWasWritten(codec, events);
    LeftPredecessors(s, codec, events, url, l);
  }

  lemma LeftPredecessors(s: State, codec: Codec, events: seq<Event>, url: string, l: Ledger)
    requires Fits(s, codec, url, l) && AllWritten(s, events)
    ensures AllPredecessors(l) ==> OnlyEmptyLeft(s.published, l)
    ensures NoneEmpty(events) && OnlyEmptyLeft(s.published, l) ==> AllPredecessors(l)
  {
    hide IsPredecessor, LooksBack, RowsFit, WritersFit;
    if NoneEmpty(events) && OnlyEmptyLeft(s.published, l) {
      forall i | 0 <= i < |l| - 1 ensures IsPredecessor(l, l[i].generation) {
        var g := l[i].generation;
        assert WrittenBy(events, s.published[g].url, g, s.published[g].snapshot);
      }
    }
  }

  // ---------------------------------------------------------------- writes that do not overlap

  /** No writer begins on a url while another one is at work on it. */
  ghost predicate NonOverlapping(codec: Codec, events: seq<Event>)
    requires Run(EMPTY, codec, events).Some?
  {
    events != [] ==>
      var before, e := events[..|events| - 1], events[|events| - 1];
      var s := Run(EMPTY, codec, before).value;
      NonOverlapping(codec, before) && (e.Begin? ==> forall w :: w in s.writers ==> s.writers[w].url != e.url)
  }

  /** One writer per url, and one that has not switched yet knows the active generation. */
  ghost predicate Alone(s: State) {
    && (forall v, w :: v in s.writers && w in s.writers && s.writers[v].url == s.writers[w].url ==> v == w)
    && (forall w :: w in s.writers && s.writers[w].phase.Inserting? ==>
        s.writers[w].previous == ActiveOf(s.tables, s.writers[w].url))
  }

  lemma StepAlone(s: State, codec: Codec, e: Event)
    requires Alone(s) && FailureFree(e) && Enabled(s, codec, e)
    requires e.Begin? ==> forall w :: w in s.writers ==> s.writers[w].url != e.url
    ensures Alone(Apply(s, codec, e))
  {
    hide StatementsOf;
    if e.RunBatch? { ExecuteSources(s.tables, s.writers[e.w].batches[s.writers[e.w].phase.next]); }
    hide Execute;
  }

  /** Writes of one url that do not overlap are sequential, so without failures they leave only active
      rows once they are done. */
  lemma {:induction false} NonOverlappingAlone(codec: Codec, events: seq<Event>)
    requires Run(EMPTY, codec, events).Some? && AllFailureFree(events) && NonOverlapping(codec, events)
    ensures Alone(Run(EMPTY, codec, events).value) && forall url :: SequentialFor(codec, events, url)
  {
    hide Enabled, Apply, AllFailureFree;
    if events != [] {
      var before, e := events[..|events| - 1], events[|events| - 1];
      FailureFreePrefix(events);
      NonOverlappingAlone(codec, before);
      var s := Run(EMPTY, codec, before).value;
      StepAlone(s, codec, e);
      forall url ensures SequentialFor(codec, events, url) {
        assert SequentialFor(codec, before, url);
        if Switches(s, e, url) { SwitchReady(s, codec, e, url); }
      }
    }
  }

  lemma SwitchReady(s: State, codec: Codec, e: Event, url: string)
    requires Alone(s) && Enabled(s, codec, e) && Switches(s, e, url)
    ensures s.writers[e.w].previous == ActiveOf(s.tables, url)
  {}

  lemma NonOverlappingIsTidy(codec: Codec, events: seq<Event>)
    requires Run(EMPTY, codec, events).Some? && AllFailureFree(events)
    requires Run(EMPTY, codec, events).value.writers == map[]
    requires NonOverlapping(codec, events)
    ensures Tidy(Run(EMPTY, codec, events).value.tables)
  {
    hide Run, SequentialFor, NonOverlapping, Tidy, LedgerOf;
    NonOverlappingAlone(codec, events);
    TidyIff(codec, events);
  }
}
