/** The Cloudflare and Bun event stores, each over its own SQL rows, all refining the abstract log. */
module EventStores {
  import opened Ordering
  import opened EventLog

  /** A row as stored: its index key, if any, and the encoded event. */
  datatype Row<S> = Row(key: Option<string>, event: S)

  /** Rows of the events table by sequence number. */
  type Table<S> = map<nat, Row<S>>

  datatype StoreResult = Appended(result: AppendResult) | Died

  // ---------------------------------------------------------------- tables as logs

  /** Sequence numbers are exactly 1..head. */
  ghost predicate Dense<S>(rows: Table<S>) {
    forall n: nat :: n in rows <==> 1 <= n <= |rows|
  }

  ghost function LogOf<S>(rows: Table<S>, one: S -> Event): Log
    requires Dense(rows)
  {
    seq(|rows|, i requires 0 <= i < |rows| => one(rows[i + 1].event))
  }

  ghost predicate KeysMatch<S>(rows: Table<S>, one: S -> Event, indexed: KeyOf) {
    forall n :: n in rows ==> rows[n].key == indexed(one(rows[n].event))
  }

  /** Looking events up by `indexed` finds the same duplicates as `keyOf`. */
  ghost predicate SameKeys(keyOf: KeyOf, indexed: KeyOf) {
    && (forall a :: indexed(a).Some? <==> keyOf(a).Some?)
    && (forall a, b :: indexed(a) == indexed(b) <==> keyOf(a) == keyOf(b))
  }

  /** `SELECT 1 FROM events WHERE key = ?` finds a row. */
  predicate KeyPresent<S>(rows: Table<S>, key: string) {
    exists n :: n in rows && rows[n].key == Some(key)
  }

  /** `SELECT COUNT(*) FROM events WHERE key = ?`. */
  function CountKey<S>(rows: Table<S>, key: string): nat {
    |set n | n in rows && rows[n].key == Some(key)|
  }

  lemma CountPositive<S>(rows: Table<S>, key: string)
    ensures CountKey(rows, key) > 0 <==> KeyPresent(rows, key)
  {
    var found := set n | n in rows && rows[n].key == Some(key);
    if KeyPresent(rows, key) {
      var n :| n in rows && rows[n].key == Some(key);
      assert n in found;
    }
    if |found| > 0 { var n :| n in found; }
  }

  lemma KeyedRows<S>(rows: Table<S>, one: S -> Event, keyOf: KeyOf, indexed: KeyOf, e: Event)
    requires Dense(rows) && KeysMatch(rows, one, indexed) && SameKeys(keyOf, indexed)
    ensures indexed(e).Some? && KeyPresent(rows, indexed(e).value) <==> Duplicate(keyOf, LogOf(rows, one), e)
  {
    var log := LogOf(rows, one);
    if Duplicate(keyOf, log, e) {
      var i :| 0 <= i < |log| && keyOf(log[i]) == Some(keyOf(e).value);
      assert indexed(log[i]) == indexed(e);
      assert i + 1 in rows && rows[i + 1].key == indexed(e);
    }
    if indexed(e).Some? && KeyPresent(rows, indexed(e).value) {
      var n :| n in rows && rows[n].key == Some(indexed(e).value);
      assert log[n - 1] == one(rows[n].event);
      assert keyOf(log[n - 1]) == keyOf(e);
    }
  }

  lemma InsertExtends<S>(rows: Table<S>, one: S -> Event, indexed: KeyOf, row: Row<S>)
    requires Dense(rows) && KeysMatch(rows, one, indexed) && row.key == indexed(one(row.event))
    ensures var more := rows[|rows| + 1 := row];
      Dense(more) && KeysMatch(more, one, indexed) && |more| == |rows| + 1 &&
          LogOf(more, one) == LogOf(rows, one) + [one(row.event)]
  {
    hide KeysMatch;
    var more := rows[|rows| + 1 := row];
    assert more.Keys == rows.Keys + {|rows| + 1};
    InsertKeyed(rows, one, indexed, row);
  }

  lemma InsertKeyed<S>(rows: Table<S>, one: S -> Event, indexed: KeyOf, row: Row<S>)
    requires KeysMatch(rows, one, indexed) && row.key == indexed(one(row.event))
    ensures KeysMatch(rows[|rows| + 1 := row], one, indexed)
  {}

  /** The rows hold exactly `log`, with the index keys of its events. */
  ghost predicate Tracks<S>(rows: Table<S>, one: S -> Event, indexed: KeyOf, log: Log) {
    Dense(rows) && KeysMatch(rows, one, indexed) && LogOf(rows, one) == log
  }

  /** One round of an append loop: the key lookup decides as the abstract log does, and inserting the
      row keeps the table in step with it. */
  lemma LoopRound<S>(
    rows: Table<S>, one: S -> Event, keyOf: KeyOf, indexed: KeyOf, start: Log, events: seq<Event>, i: nat, row: Row<S>)
    requires i < |events| && SameKeys(keyOf, indexed) && row.key == indexed(events[i]) && one(row.event) == events[i]
    requires Tracks(rows, one, indexed, AddAll(keyOf, start, events[..i]))
    ensures if row.key.Some? && KeyPresent(rows, row.key.value)
            then Tracks(rows, one, indexed, AddAll(keyOf, start, events[..i + 1]))
            else Tracks(rows[|rows| + 1 := row], one, indexed, AddAll(keyOf, start, events[..i + 1]))
    ensures row.key.Some? ==> (CountKey(rows, row.key.value) > 0 <==> KeyPresent(rows, row.key.value))
    ensures |rows| + 1 !in rows && |rows[|rows| + 1 := row]| == |rows| + 1
  {
    assert events[..i + 1][..i] == events[..i];
    KeyedRows(rows, one, keyOf, indexed, events[i]);
    if row.key.Some? { CountPositive(rows, row.key.value); }
    InsertExtends(rows, one, indexed, row);
    hide KeysMatch, LogOf, SameKeys;
  }

  /** `SELECT COALESCE(MAX(seq), 0) FROM events`. */
  method MaxSeq<S>(rows: Table<S>) returns (head: nat)
    ensures forall n :: n in rows ==> n <= head
    ensures if rows == map[] then head == 0 else head in rows
    ensures Dense(rows) ==> head == |rows|
  {
    head := 0;
    var rest := rows.Keys;
    if rest != {} { head :| head in rest; }
    while rest != {}
      invariant rest <= rows.Keys
      invariant if rows == map[] then head == 0 else head in rows
      invariant forall n :: n in rows && n !in rest ==> n <= head
      decreases rest
    {
      var n :| n in rest;
      if n > head { head := n; }
      rest := rest - {n};
    }
    if Dense(rows) && |rows| > 0 { assert |rows| in rows; }
  }

  // ---------------------------------------------------------------- Cloudflare

  /** `decode` answers the events an encoded batch stands for, one by one. */
  ghost predicate Elementwise<S(!new)>(decode: seq<S> -> seq<Event>, one: S -> Event) {
    forall batch: seq<S> :: |decode(batch)| == |batch| && forall i :: 0 <= i < |batch| ==>
        decode(batch)[i] == one(batch[i])
  }

  function IndexedBy(keyOf: KeyOf, index: string -> string): KeyOf {
    (e: Event) => match keyOf(e) case Some(key) => Some(index(key)) case None => None
  }

  class CloudflareEventStore<S(!new)> {
    const keyOf: KeyOf
    const index: string -> string
    const decode: seq<S> -> seq<Event>
    ghost const one: S -> Event
    var rows: Table<S>

    ghost predicate Valid()
      reads this
    {
      && Dense(rows) && KeysMatch(rows, one, IndexedBy(keyOf, index))
      && Injective(index) && Elementwise(decode, one)
    }

    ghost function Log(): Log
      requires Valid()
      reads this
    {
      LogOf(rows, one)
    }

    constructor (key: KeyOf, indexKey: string -> string, decoder: seq<S> -> seq<Event>, ghost decodeOne: S -> Event)
      requires Injective(indexKey) && Elementwise(decoder, decodeOne)
      ensures Valid() && Log() == [] && keyOf == key
    {
      keyOf, index, decode, one := key, indexKey, decoder, decodeOne;
      rows := map[];
    }

    /** `encoded` is what the codec made of `events`: a batch that decodes to them, or, when the
        lengths differ, anything at all. */
    method Append(events: seq<Event>, encoded: seq<S>, expected: Option<nat>) returns (r: StoreResult)
      requires Valid()
      requires |encoded| == |events| ==> forall i :: 0 <= i < |events| ==> one(encoded[i]) == events[i]
      modifies this
      ensures Valid()
      ensures r.Died? <==> events != [] && |encoded| != |events|
      ensures r.Died? ==> rows == old(rows)
      ensures r.Appended? ==>
        Log() == AppendSpec(keyOf, old(Log()), events, expected) && Reports(r.result, old(Log()), Log())
      ensures forall n :: n in old(rows) ==> n in rows && rows[n] == old(rows)[n]
    {
      if events != [] && |encoded| != |events| { return Died; }
      var currentHead := MaxSeq(rows);
      if events == [] || (expected.Some? && currentHead != expected.value) {
        return Appended(AppendResult(0, currentHead));
      }
      ghost var indexed := IndexedBy(keyOf, index);
      SameKeysBy(keyOf, index);
      var table, appended := CloudflareInserts(rows, one, keyOf, index, Log(), events, encoded, currentHead);
      ValidAgain(table, one, indexed, AddAll(keyOf, Log(), events));
      rows := table;
      r := Appended(AppendResult(appended, currentHead + appended));
    }

    /** Rows after `mark` in order, decoded as one batch. */
    method ReadPage(mark: nat, limit: nat) returns (page: seq<EventRow>)
      requires Valid()
      ensures page == Page(Log(), mark, limit)
    {
      hide Injective, KeysMatch;
      var head := MaxSeq(rows);
      var start := if mark < head then mark else head;
      var size := if limit < head - start then limit else head - start;
      var batch := Encoded(rows, start, size);
      var events := decode(batch);
      DecodesEach(decode, one, batch);
      hide Elementwise;
      page := Numbered(events, start);
      PageIs(rows, one, batch, mark, limit, page);
    }
  }

  /** The encoded events of `size` rows after sequence number `start`. */
  method Encoded<S>(rows: Table<S>, start: nat, size: nat) returns (batch: seq<S>)
    requires forall n :: start < n <= start + size ==> n in rows
    ensures |batch| == size && forall k :: 0 <= k < size ==> batch[k] == rows[start + k + 1].event
  {
    batch := [];
    for i := 0 to size
      invariant |batch| == i && forall k :: 0 <= k < i ==> batch[k] == rows[start + k + 1].event
    {
      batch := batch + [rows[start + i + 1].event];
    }
  }

  function Numbered(events: seq<Event>, start: nat): seq<EventRow> {
    seq(|events|, i requires 0 <= i < |events| => EventRow(start + i + 1, events[i]))
  }

  lemma PageIs<S>(rows: Table<S>, one: S -> Event, batch: seq<S>, mark: nat, limit: nat, page: seq<EventRow>)
    requires Dense(rows)
    requires var start := if mark < |rows| then mark else |rows|;
      && |page| == |batch| == (if limit < |rows| - start then limit else |rows| - start)
      && (forall k :: 0 <= k < |batch| ==> batch[k] == rows[start + k + 1].event)
      && forall k :: 0 <= k < |page| ==> page[k] == EventRow(start + k + 1, one(batch[k]))
    ensures page == Page(LogOf(rows, one), mark, limit)
  {}

  lemma ValidAgain<S>(rows: Table<S>, one: S -> Event, indexed: KeyOf, log: Log)
    requires Tracks(rows, one, indexed, log)
    ensures Dense(rows) && KeysMatch(rows, one, indexed) && LogOf(rows, one) == log
  {}

  lemma DecodesEach<S(!new)>(decode: seq<S> -> seq<Event>, one: S -> Event, batch: seq<S>)
    requires Elementwise(decode, one)
    ensures |decode(batch)| == |batch| && forall i :: 0 <= i < |batch| ==> decode(batch)[i] == one(batch[i])
  {}

  // ---------------------------------------------------------------- Bun

  /** The thread's event table and the instance's actor table have the same columns and the same
      duplicate test; only the loops that fill them are written apart. */
  class BunEventStore {
    const keyOf: KeyOf
    var rows: Table<Event>
    /** Heads published to subscribers, latest last. */
    var published: seq<nat>

    ghost predicate Valid()
      reads this
    {
      Dense(rows) && KeysMatch(rows, Plain, keyOf)
    }

    ghost function Log(): Log
      requires Valid()
      reads this
    {
      LogOf(rows, Plain)
    }

    constructor (key: KeyOf)
      ensures Valid() && Log() == [] && keyOf == key && published == []
    {
      keyOf, rows, published := key, map[], [];
    }

    method Append(events: seq<Event>, expected: Option<nat>) returns (r: AppendResult)
      requires Valid()
      modifies this
      ensures Valid() && Log() == AppendSpec(keyOf, old(Log()), events, expected) && Reports(r, old(Log()), Log())
      ensures forall n :: n in old(rows) ==> n in rows && rows[n] == old(rows)[n]
      ensures published == old(published) + if r.appended > 0 then [|Log()|] else []
    {
      var currentHead := MaxSeq(rows);
      if events == [] || (expected.Some? && currentHead != expected.value) {
        return AppendResult(0, currentHead);
      }
      var table, appended := BunInserts(rows, keyOf, Log(), events, currentHead);
      ValidAgain(table, Plain, keyOf, AddAll(keyOf, Log(), events));
      rows := table;
      r := AppendResult(appended, currentHead + appended);
      if appended > 0 { published := published + [r.head]; }
    }

    /** `appendActorEvents`: no expected head; the number is advanced before each insert. */
    method AppendActorEvents(events: seq<Event>) returns (ghost r: AppendResult)
      requires Valid()
      modifies this
      ensures Valid() && Log() == AppendSpec(keyOf, old(Log()), events, None) && Reports(r, old(Log()), Log())
      ensures forall n :: n in old(rows) ==> n in rows && rows[n] == old(rows)[n]
      ensures published == old(published) + if Log() != old(Log()) then [|Log()|] else []
    {
      var current := MaxSeq(rows);
      var table, next := ActorInserts(rows, keyOf, Log(), events, current);
      ValidAgain(table, Plain, keyOf, AddAll(keyOf, Log(), events));
      AddAllKeeps(keyOf, Log(), events);
      rows := table;
      r := AppendResult(next - current, next);
      if next > current { published := published + [next]; }
    }

    method ReadPage(mark: nat, limit: nat) returns (page: seq<EventRow>)
      requires Valid()
      ensures page == Page(Log(), mark, limit)
    {
      var head := MaxSeq(rows);
      page := [];
      var n := mark + 1;
      while n <= head && |page| < limit
        invariant n == mark + 1 + |page| && |page| <= limit && (page != [] ==> n <= head + 1)
        invariant forall i :: 0 <= i < |page| ==> page[i] == EventRow(mark + i + 1, rows[mark + i + 1].event)
        decreases head - n
      {
        page := page + [EventRow(n, rows[n].event)];
        n := n + 1;
      }
    }
  }

  function Plain(e: Event): Event { e }

  // ---------------------------------------------------------------- the three insert loops

  lemma SameKeysBy(keyOf: KeyOf, index: string -> string)
    requires Injective(index)
    ensures SameKeys(keyOf, IndexedBy(keyOf, index))
  {}

  /** Nothing already stored is touched. */
  ghost predicate Keeps<S>(before: Table<S>, after: Table<S>) {
    forall n :: n in before ==> n in after && after[n] == before[n]
  }

  method CloudflareInserts<S>(
    before: Table<S>, ghost one: S -> Event, keyOf: KeyOf, index: string -> string, ghost log: Log,
    events: seq<Event>, encoded: seq<S>, currentHead: nat) returns (rows: Table<S>, appended: nat)
    requires Tracks(before, one, IndexedBy(keyOf, index), log) && SameKeys(keyOf, IndexedBy(keyOf, index))
    requires currentHead == |before| && |encoded| == |events| && forall i :: 0 <= i < |events| ==>
      one(encoded[i]) == events[i]
    ensures Tracks(rows, one, IndexedBy(keyOf, index), AddAll(keyOf, log, events))
    ensures |rows| == currentHead + appended && Keeps(before, rows)
  {
    hide Tracks, SameKeys, AddAll, KeyPresent, CountKey, IndexedBy;
    var seqNo := currentHead + 1;
    rows, appended := before, 0;
    NothingAdded(keyOf, log, events);
    for i := 0 to |encoded|
      invariant Tracks(rows, one, IndexedBy(keyOf, index), AddAll(keyOf, log, events[..i]))
      invariant seqNo == |rows| + 1 == currentHead + appended + 1 && Keeps(before, rows)
    {
      var row := Row(IndexedBy(keyOf, index)(events[i]), encoded[i]);
      LoopRound(rows, one, keyOf, IndexedBy(keyOf, index), log, events, i, row);
      if row.key.None? || !KeyPresent(rows, row.key.value) {
        rows := rows[seqNo := row];
        seqNo, appended := seqNo + 1, appended + 1;
      }
    }
    assert events[..|events|] == events;
  }

  method BunInserts(before: Table<Event>, keyOf: KeyOf, ghost log: Log, events: seq<Event>, currentHead: nat)
    returns (rows: Table<Event>, appended: nat)
    requires Tracks(before, Plain, keyOf, log) && currentHead == |before|
    ensures Tracks(rows, Plain, keyOf, AddAll(keyOf, log, events))
    ensures |rows| == currentHead + appended && Keeps(before, rows)
  {
    hide Tracks, AddAll, KeyPresent, CountKey;
    var seqNo := currentHead + 1;
    rows, appended := before, 0;
    NothingAdded(keyOf, log, events);
    for i := 0 to |events|
      invariant Tracks(rows, Plain, keyOf, AddAll(keyOf, log, events[..i]))
      invariant seqNo == |rows| + 1 == currentHead + appended + 1 && Keeps(before, rows)
    {
      var row := Row(keyOf(events[i]), events[i]);
      LoopRound(rows, Plain, keyOf, keyOf, log, events, i, row);
      if row.key.None? || CountKey(rows, row.key.value) == 0 {
        rows := rows[seqNo := row];
        seqNo, appended := seqNo + 1, appended + 1;
      }
    }
    assert events[..|events|] == events;
  }

  method ActorInserts(before: Table<Event>, keyOf: KeyOf, ghost log: Log, events: seq<Event>, current: nat)
    returns (rows: Table<Event>, next: nat)
    requires Tracks(before, Plain, keyOf, log) && current == |before|
    ensures Tracks(rows, Plain, keyOf, AddAll(keyOf, log, events))
    ensures next == |rows| >= current && Keeps(before, rows)
  {
    hide Tracks, AddAll, KeyPresent, CountKey;
    rows, next := before, current;
    NothingAdded(keyOf, log, events);
    for i := 0 to |events|
      invariant Tracks(rows, Plain, keyOf, AddAll(keyOf, log, events[..i]))
      invariant next == |rows| >= current && Keeps(before, rows)
    {
      var row := Row(keyOf(events[i]), events[i]);
      LoopRound(rows, Plain, keyOf, keyOf, log, events, i, row);
      if row.key.Some? && KeyPresent(rows, row.key.value) { continue; }
      next := next + 1;
      rows := rows[next := row];
    }
    assert events[..|events|] == events;
  }

  lemma NothingAdded(keyOf: KeyOf, log: Log, events: seq<Event>)
    ensures AddAll(keyOf, log, events[..0]) == log
  {}

  // ---------------------------------------------------------------- runs of appends

  /** Over every run of appends the Cloudflare store holds the abstract log. */
  method CloudflareAppends<S(!new)>(store: CloudflareEventStore<S>, appends: seq<Append>, encoded: seq<seq<S>>)
    requires store.Valid() && |encoded| == |appends|
    requires forall i :: 0 <= i < |appends| ==> Encodes(store.one, encoded[i], appends[i].events)
    modifies store
    ensures store.Valid() && store.Log() == After(store.keyOf, old(store.Log()), appends)
  {
    for i := 0 to |appends|
      invariant store.Valid() && store.Log() == After(store.keyOf, old(store.Log()), appends[..i])
    {
      assert appends[..i + 1][..i] == appends[..i];
      assert Encodes(store.one, encoded[i], appends[i].events);
      var _ := store.Append(appends[i].events, encoded[i], appends[i].expected);
    }
    assert appends[..|appends|] == appends;
  }

  /** A batch that decodes to these events. */
  ghost predicate Encodes<S>(one: S -> Event, encoded: seq<S>, events: seq<Event>) {
    |encoded| == |events| && forall i :: 0 <= i < |events| ==> one(encoded[i]) == events[i]
  }

  /** Over every run of appends the Bun store holds the same log. */
  method BunAppends(store: BunEventStore, appends: seq<Append>)
    requires store.Valid()
    modifies store
    ensures store.Valid() && store.Log() == After(store.keyOf, old(store.Log()), appends)
  {
    for i := 0 to |appends|
      invariant store.Valid() && store.Log() == After(store.keyOf, old(store.Log()), appends[..i])
    {
      assert appends[..i + 1][..i] == appends[..i];
      var _ := store.Append(appends[i].events, appends[i].expected);
    }
    assert appends[..|appends|] == appends;
  }
}
