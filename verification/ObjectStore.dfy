/** Content-addressed objects in four SQL tables: streaming uploads stage chunks under an upload id,
    a commit publishes them under the digest of their bytes, and an abort drops the staging rows.

    One namespace is modelled. The digest (SHA-256, section 6.2 of FIPS 180-4) is a parameter that
    is injective. An SQL statement or transaction happens at once or not at all. */
module ObjectStore {
  import opened Ordering
  import opened Runs
  import opened Objects

  type UploadId = nat
  type Rows = map<nat, Bytes>

  // ---------------------------------------------------------------- tables and reads

  datatype Manifest = Manifest(byteSize: nat, chunkCount: nat)

  datatype Tables = Tables(
    objects: map<Key, Bytes>, manifests: map<Key, Manifest>, chunks: map<Key, Rows>, uploads: map<UploadId, Rows>)

  function RowsOf<K>(table: map<K, Rows>, key: K): Rows {
    if key in table then table[key] else map[]
  }

  /** Ordinals 0 to n-1 and no others. */
  predicate Dense(rows: Rows, n: nat) {
    (forall i :: i in rows ==> i < n) && (forall i :: 0 <= i < n ==> i in rows)
  }

  function Joined(rows: Rows, n: nat): Bytes
    requires forall i :: 0 <= i < n ==> i in rows
  {
    if n == 0 then [] else Joined(rows, n - 1) + rows[n - 1]
  }

  datatype Error =
    | Missing | Integrity | TooLarge(actual: nat, max: nat) | BadConfig
    | SourceFailed | WriteFailed | ReadFailed | ReleaseFailed
  datatype Outcome<+T> = Done(value: T) | Failed(error: Error)

  /** What `read` answers: nothing, the stored bytes, or an integrity error when the chunk rows do
      not match their manifest. A manifest hides a plain row for the same key. */
  function ReadSpec(t: Tables, key: Key): Outcome<Option<Bytes>> {
    if key in t.manifests then
      var m, rows := t.manifests[key], RowsOf(t.chunks, key);
      if Dense(rows, m.chunkCount) && |Joined(rows, m.chunkCount)| == m.byteSize
      then Done(Some(Joined(rows, m.chunkCount)))
      else Failed(Integrity)
    else if key in t.objects then Done(Some(t.objects[key]))
    else Done(None)
  }

  /** `get`: the bytes read must have the requested digest. */
  function GetSpec(t: Tables, digest: Bytes -> Key, key: Key): Outcome<Bytes> {
    match ReadSpec(t, key)
    case Failed(e) => Failed(e)
    case Done(None) => Failed(Missing)
    case Done(Some(bytes)) => if digest(bytes) == key then Done(bytes) else Failed(Integrity)
  }

  // ---------------------------------------------------------------- steps

  /** An upload in progress: the next ordinal, the bytes hashed so far, and whether it may still commit. */
  datatype Upload = Upload(ordinal: nat, consumed: Bytes, live: bool)

  /** `used` are the identifiers drawn so far; `orphans` are the uploads whose release failed or was cut
      off by a crash: what they staged stays behind. */
  datatype Store = Store(tables: Tables, open: map<UploadId, Upload>, orphans: set<UploadId>, used: set<UploadId>)

  datatype Event =
    | Open(id: UploadId)
    | Write(id: UploadId, bytes: Bytes) | WriteFail(id: UploadId, bytes: Bytes)
    | Commit(id: UploadId) | CommitFail(id: UploadId)
    | Abort(id: UploadId) | AbortFail(id: UploadId)
    | Put(bytes: Bytes)
    | Crash

  predicate Enabled(s: Store, e: Event) {
    match e
    case Open(id) => id !in s.used
    case Write(id, _) => id in s.open && s.open[id].live
    case WriteFail(id, _) => id in s.open && s.open[id].live
    case Commit(id) => id in s.open && s.open[id].live
    case CommitFail(id) => id in s.open && s.open[id].live
    case Abort(id) => id in s.open
    case AbortFail(id) => id in s.open
    case Put(_) => true
    case Crash => true
  }

  function Apply(s: Store, digest: Bytes -> Key, e: Event): Store
    requires Enabled(s, e)
  {
    var t := s.tables;
    match e
    case Open(id) => s.(open := s.open[id := Upload(0, [], true)], used := s.used + {id})
    case Write(id, bytes) =>
      var u := s.open[id];
      s.(tables := t.(uploads := t.uploads[id := RowsOf(t.uploads, id)[u.ordinal := bytes]]),
         open := s.open[id := Upload(u.ordinal + 1, u.consumed + bytes, true)])
    case WriteFail(id, bytes) =>
      var u := s.open[id];
      s.(open := s.open[id := Upload(u.ordinal + 1, u.consumed + bytes, false)])
    case Commit(id) =>
      var u, key := s.open[id], digest(s.open[id].consumed);
      s.(tables := if key in t.manifests then t
                   else t.(manifests := t.manifests[key := Manifest(|u.consumed|, u.ordinal)],
                           chunks := t.chunks[key := RowsOf(t.uploads, id)]),
         open := s.open[id := u.(live := false)])
    case CommitFail(id) => s.(open := s.open[id := s.open[id].(live := false)])
    case Abort(id) => s.(tables := t.(uploads := t.uploads - {id}), open := s.open - {id})
    case AbortFail(id) => s.(open := s.open - {id}, orphans := s.orphans + {id})
    case Put(bytes) => s.(tables := t.(objects := t.objects[digest(bytes) := bytes]))
    case Crash => s.(open := map[], orphans := s.orphans + s.open.Keys)
  }

  function StepOf(digest: Bytes -> Key): (Store, Event) -> Option<Store> {
    (s, e) => if Enabled(s, e) then Some(Apply(s, digest, e)) else None
  }

  function Run(s: Store, digest: Bytes -> Key, events: seq<Event>): Option<Store> {
    RunOf(StepOf(digest), s, events)
  }

  // ---------------------------------------------------------------- invariant

  /** The chunks are 0..n-1, and their concatenation has the recorded size and digest. */
  ghost predicate ManifestOk(m: Manifest, rows: Rows, digest: Bytes -> Key, key: Key) {
    Dense(rows, m.chunkCount) && |Joined(rows, m.chunkCount)| == m.byteSize && digest(Joined(rows, m.chunkCount)) == key
  }

  /** A live upload has staged exactly the bytes it has hashed. */
  ghost predicate UploadOk(u: Upload, rows: Rows) {
    u.live ==> Dense(rows, u.ordinal) && Joined(rows, u.ordinal) == u.consumed
  }

  ghost predicate Inv(s: Store, digest: Bytes -> Key) {
    && (forall key :: key in s.tables.manifests ==>
        ManifestOk(s.tables.manifests[key], RowsOf(s.tables.chunks, key), digest, key))
    && (forall key :: key in s.tables.objects ==> digest(s.tables.objects[key]) == key)
    && (forall id :: id in s.open ==> id !in s.orphans && UploadOk(s.open[id], RowsOf(s.tables.uploads, id)))
    && s.tables.uploads.Keys <= s.open.Keys + s.orphans <= s.used
  }

  lemma {:induction false} JoinedPrefix(rows: Rows, more: Rows, n: nat)
    requires forall i :: 0 <= i < n ==> i in rows && i in more && rows[i] == more[i]
    ensures Joined(rows, n) == Joined(more, n)
  {
    if n > 0 { JoinedPrefix(rows, more, n - 1); }
  }

  lemma WriteKeepsUpload(u: Upload, rows: Rows, bytes: Bytes)
    requires u.live && UploadOk(u, rows)
    ensures UploadOk(Upload(u.ordinal + 1, u.consumed + bytes, true), rows[u.ordinal := bytes])
  {
    JoinedPrefix(rows, rows[u.ordinal := bytes], u.ordinal);
  }

  lemma WriteKeepsInv(s: Store, digest: Bytes -> Key, id: UploadId, bytes: Bytes)
    requires Inv(s, digest) && Enabled(s, Write(id, bytes))
    ensures Inv(Apply(s, digest, Write(id, bytes)), digest)
  {
    hide ManifestOk, UploadOk, Dense, Joined;
    WriteKeepsUpload(s.open[id], RowsOf(s.tables.uploads, id), bytes);
  }

  lemma CommitKeepsInv(s: Store, digest: Bytes -> Key, id: UploadId)
    requires Inv(s, digest) && Enabled(s, Commit(id))
    ensures Inv(Apply(s, digest, Commit(id)), digest)
  {
    hide ManifestOk, UploadOk, Dense, Joined;
    CommitMatches(s, digest, id);
    DeadUploads();
  }

  lemma OtherKeepsInv(s: Store, digest: Bytes -> Key, e: Event)
    requires Inv(s, digest) && Enabled(s, e) && !e.Write? && !e.Commit?
    ensures Inv(Apply(s, digest, e), digest)
  {
    hide ManifestOk, UploadOk, Dense, Joined;
    NoRows();
    DeadUploads();
  }

  lemma StepKeepsInv(s: Store, digest: Bytes -> Key, e: Event)
    requires Inv(s, digest) && Enabled(s, e)
    ensures Inv(Apply(s, digest, e), digest)
  {
    hide Inv, Apply;
    match e
    case Write(id, bytes) => WriteKeepsInv(s, digest, id, bytes);
    case Commit(id) => CommitKeepsInv(s, digest, id);
    case _ => OtherKeepsInv(s, digest, e);
  }

  lemma CommitMatches(s: Store, digest: Bytes -> Key, id: UploadId)
    requires Inv(s, digest) && id in s.open && s.open[id].live
    ensures var u := s.open[id];
      ManifestOk(Manifest(|u.consumed|, u.ordinal), RowsOf(s.tables.uploads, id), digest, digest(u.consumed))
  {}

  lemma DeadUploads()
    ensures forall u: Upload, rows :: !u.live ==> UploadOk(u, rows)
  {}

  lemma NoRows()
    ensures UploadOk(Upload(0, [], true), map[])
  {
    var none: Rows := map[];
    assert Dense(none, 0) && Joined(none, 0) == [];
  }

  // ---------------------------------------------------------------- what readers are promised

  const EMPTY := Store(Tables(map[], map[], map[], map[]), map[], {}, {})

  ghost predicate Reachable(s: Store, digest: Bytes -> Key) {
    exists events :: Run(EMPTY, digest, events) == Some(s)
  }

  lemma {:induction false} RunKeepsInv(s: Store, digest: Bytes -> Key, events: seq<Event>)
    requires Inv(s, digest) && Run(s, digest, events).Some?
    ensures Inv(Run(s, digest, events).value, digest)
  {
    hide Inv, Enabled, Apply;
    if events != [] {
      var before := events[..|events| - 1];
      RunKeepsInv(s, digest, before);
      StepKeepsInv(Run(s, digest, before).value, digest, events[|events| - 1]);
    }
  }

  /** In every reachable store, every manifest has exactly the chunks 0..n-1, whose concatenation has
      the recorded size and digest; staging rows belong to uploads that are open, whose release failed,
      or that a crash cut off; and a read is either exact or says the object is missing. */
  lemma ReachableStore(s: Store, digest: Bytes -> Key, key: Key)
    requires Reachable(s, digest)
    ensures key in s.tables.manifests ==>
      ManifestOk(s.tables.manifests[key], RowsOf(s.tables.chunks, key), digest, key)
    ensures s.tables.uploads.Keys <= s.open.Keys + s.orphans
    ensures var r := GetSpec(s.tables, digest, key);
      if key in s.tables.manifests || key in s.tables.objects then r.Done? && digest(r.value) == key
          else r == Failed(Missing)
  {
    hide Run;
    var events :| Run(EMPTY, digest, events) == Some(s);
    assert Inv(EMPTY, digest);
    RunKeepsInv(EMPTY, digest, events);
  }

  /** Once a key has a manifest, neither it nor its chunk rows ever change. */
  lemma ManifestsStay(s: Store, digest: Bytes -> Key, e: Event, key: Key)
    requires Enabled(s, e) && key in s.tables.manifests
    ensures var t := Apply(s, digest, e).tables;
      && key in t.manifests && t.manifests[key] == s.tables.manifests[key]
      && RowsOf(t.chunks, key) == RowsOf(s.tables.chunks, key)
  {}

  /** Nothing is taken for granted: anyone may store bytes or crash at any time, a crash losing every open
      upload and no row; an upload that may still write may fail to, or commit, or fail to commit; and
      every open upload may be released, or fail to be. */
  lemma AnythingMayHappen(s: Store, digest: Bytes -> Key, id: UploadId, bytes: Bytes)
    ensures Enabled(s, Put(bytes)) && Enabled(s, Crash)
    ensures Apply(s, digest, Crash).tables == s.tables && Apply(s, digest, Crash).open == map[]
    ensures id in s.open ==> TablesAfter(s, digest, AbortFail(id), s.tables)
    ensures id in s.open ==> TablesAfter(s, digest, Abort(id), s.tables.(uploads := s.tables.uploads - {id}))
    ensures id in s.open && s.open[id].live ==>
      && TablesAfter(s, digest, WriteFail(id, bytes), s.tables) && TablesAfter(s, digest, CommitFail(id), s.tables)
      && Enabled(s, Commit(id)) && Enabled(s, Write(id, bytes))
      && Enabled(Apply(s, digest, Write(id, bytes)), Commit(id))
  {}

  /** The step may be taken and leaves these tables. */
  predicate TablesAfter(s: Store, digest: Bytes -> Key, e: Event, tables: Tables) {
    Enabled(s, e) && Apply(s, digest, e).tables == tables
  }

  /** What one step publishes: the bytes of a put, or everything an upload had consumed. */
  function Published(s: Store, e: Event): Option<Bytes>
    requires Enabled(s, e)
  {
    match e
    case Put(bytes) => Some(bytes)
    case Commit(id) => Some(s.open[id].consumed)
    case _ => None
  }

  /** A step changes what readers see only by making its own bytes readable under their digest:
      failed, aborted, crashed and unfinished uploads change nothing, and nothing becomes unreadable. */
  lemma StepChangesOnlyPublished(s: Store, digest: Bytes -> Key, e: Event, key: Key)
    requires Inv(s, digest) && Injective(digest) && Enabled(s, e)
    ensures var p := Published(s, e);
      GetSpec(Apply(s, digest, e).tables, digest, key) ==
        if p.Some? && digest(p.value) == key then Done(p.value) else GetSpec(s.tables, digest, key)
  {
    var t := Apply(s, digest, e);
    StepKeepsInv(s, digest, e);
    hide UploadOk;
    if e.Commit? && key == digest(s.open[e.id].consumed) {
      assert key in t.tables.manifests;
      assert ManifestOk(t.tables.manifests[key], RowsOf(t.tables.chunks, key), digest, key);
    } else if e.Put? && key == digest(e.bytes) && key in s.tables.manifests {
      assert ManifestOk(s.tables.manifests[key], RowsOf(s.tables.chunks, key), digest, key);
    }
  }

  /** Once readable, always readable with the same bytes, whatever happens next. */
  lemma {:induction false} ReadableForever(s: Store, digest: Bytes -> Key, events: seq<Event>, bytes: Bytes)
    requires Inv(s, digest) && Injective(digest) && Run(s, digest, events).Some?
    requires GetSpec(s.tables, digest, digest(bytes)) == Done(bytes)
    ensures GetSpec(Run(s, digest, events).value.tables, digest, digest(bytes)) == Done(bytes)
  {
    hide Inv, Enabled, Apply, GetSpec;
    if events != [] {
      var before, e := events[..|events| - 1], events[|events| - 1];
      RunKeepsInv(s, digest, before);
      ReadableForever(s, digest, before, bytes);
      var t := Run(s, digest, before).value;
      StepChangesOnlyPublished(t, digest, e, digest(bytes));
      assert forall b :: digest(b) == digest(bytes) ==> b == bytes;
    }
  }

  // ---------------------------------------------------------------- which staging rows stay

  /** The upload inserted a row. */
  ghost predicate Staged(events: seq<Event>, id: UploadId) {
    exists e :: e in events && e.Write? && e.id == id
  }

  /** A crash came while the upload was open. */
  ghost predicate CutOff(digest: Bytes -> Key, events: seq<Event>, id: UploadId) {
    exists i :: 0 <= i < |events| && CutOffAt(digest, events, id, i)
  }

  ghost predicate CutOffAt(digest: Bytes -> Key, events: seq<Event>, id: UploadId, i: nat)
    requires i < |events|
  {
    events[i].Crash? && Run(EMPTY, digest, events[..i]).Some? && id in Run(EMPTY, digest, events[..i]).value.open
  }

  /** An upload is open, released, or an orphan, and an orphan because its release failed or a crash cut
      it off; it has staging rows exactly when it inserted some and was not released. */
  ghost predicate Accounted(s: Store, digest: Bytes -> Key, events: seq<Event>, id: UploadId) {
    && (id in s.used <==> Open(id) in events)
    && (Staged(events, id) || id in s.open || id in s.orphans || Abort(id) in events ==> id in s.used)
    && (id in s.used ==> id in s.open || id in s.orphans || Abort(id) in events)
    && !(id in s.open && id in s.orphans)
    && !(Abort(id) in events && (id in s.open || id in s.orphans))
    && (id in s.orphans <==> AbortFail(id) in events || CutOff(digest, events, id))
    && (id in s.tables.uploads <==> Staged(events, id) && Abort(id) !in events)
  }

  lemma StagedStep(events: seq<Event>, e: Event, id: UploadId)
    ensures Staged(events + [e], id) <==> Staged(events, id) || (e.Write? && e.id == id)
  {
    if Staged(events, id) {
      var w :| w in events && w.Write? && w.id == id;
      assert w in events + [e];
    }
    assert e in events + [e];
  }

  lemma CutOffStep(digest: Bytes -> Key, events: seq<Event>, e: Event, id: UploadId)
    requires Run(EMPTY, digest, events).Some?
    ensures CutOff(digest, events + [e], id) <==>
      CutOff(digest, events, id) || (e.Crash? && id in Run(EMPTY, digest, events).value.open)
  {
    hide Run;
    var more := events + [e];
    assert more[..|events|] == events;
    assert forall i :: 0 <= i < |events| ==> more[..i] == events[..i] && more[i] == events[i];
    if CutOff(digest, events, id) {
      var i :| 0 <= i < |events| && CutOffAt(digest, events, id, i);
      assert CutOffAt(digest, more, id, i);
    }
    if CutOff(digest, more, id) {
      var i :| 0 <= i < |more| && CutOffAt(digest, more, id, i);
      if i < |events| { assert CutOffAt(digest, events, id, i); }
    }
    if e.Crash? && id in Run(EMPTY, digest, events).value.open { assert CutOffAt(digest, more, id, |events|); }
  }

  lemma StepAccounted(s: Store, digest: Bytes -> Key, events: seq<Event>, e: Event, id: UploadId)
    requires Run(EMPTY, digest, events) == Some(s) && Enabled(s, e) && Accounted(s, digest, events, id)
    ensures Accounted(Apply(s, digest, e), digest, events + [e], id)
  {
    hide Staged, CutOff, Run;
    StagedStep(events, e, id);
    CutOffStep(digest, events, e, id);
    assert forall x :: x in events + [e] <==> x in events || x == e;
  }

  lemma {:induction false} RunAccounted(digest: Bytes -> Key, events: seq<Event>, id: UploadId)
    requires Run(EMPTY, digest, events).Some?
    ensures Accounted(Run(EMPTY, digest, events).value, digest, events, id)
  {
    hide Enabled, Apply, Accounted;
    if events == [] {
      NothingAccounted(digest, id);
    } else {
      var before, e := events[..|events| - 1], events[|events| - 1];
      RunAccounted(digest, before, id);
      StepAccounted(Run(EMPTY, digest, before).value, digest, before, e, id);
      assert before + [e] == events;
    }
  }

  lemma NothingAccounted(digest: Bytes -> Key, id: UploadId)
    ensures Accounted(EMPTY, digest, [], id)
  {}

  /** Exactly when staging rows stay: while they are there, the upload inserted a row and no release took
      effect; and once the upload is over, that means its release failed or a crash cut it off. */
  lemma RowsRemain(digest: Bytes -> Key, events: seq<Event>, id: UploadId)
    requires Run(EMPTY, digest, events).Some?
    ensures var s := Run(EMPTY, digest, events).value;
      && (id in s.tables.uploads <==> Staged(events, id) && Abort(id) !in events)
      && (id !in s.open ==> (id in s.tables.uploads <==>
          Staged(events, id) && (AbortFail(id) in events || CutOff(digest, events, id))))
  {
    hide Run, Staged, CutOff;
    RunAccounted(digest, events, id);
  }

  // ---------------------------------------------------------------- one upload among others

  predicate Concerns(e: Event, id: UploadId) {
    match e
    case Put(_) => false
    case Crash => true
    case _ => e.id == id
  }

  /** Steps of other callers, with no crash. */
  ghost predicate OthersOnly(events: seq<Event>, id: UploadId) {
    forall e :: e in events ==> !Concerns(e, id)
  }

  lemma {:induction false} OthersKeepUpload(s: Store, digest: Bytes -> Key, events: seq<Event>, id: UploadId)
    requires Run(s, digest, events).Some? && OthersOnly(events, id) && id in s.open
    ensures var t := Run(s, digest, events).value;
      id in t.open && t.open[id] == s.open[id] && RowsOf(t.tables.uploads, id) == RowsOf(s.tables.uploads, id)
  {
    if events != [] {
      var before, e := events[..|events| - 1], events[|events| - 1];
      OthersKeepUpload(s, digest, before, id);
      assert !Concerns(e, id);
    }
  }

  datatype StreamConfig = StreamConfig(maxObjectBytes: nat, chunkBytes: nat)

  const DEFAULT_MAX_STREAM_OBJECT_BYTES := MAX_SAFE_INTEGER
  const DEFAULT_OBJECT_STREAM_CHUNK_BYTES := 64 * 1024

  /** Bounds are safe integers; a chunk holds at least one byte. */
  function ObjectStreamConfig(maxObjectBytes: Option<int>, chunkBytes: Option<int>): (r: Outcome<StreamConfig>)
    ensures r.Done? ==> 1 <= r.value.chunkBytes <= MAX_SAFE_INTEGER && r.value.maxObjectBytes <= MAX_SAFE_INTEGER
    ensures r.Done? ==> r.value.maxObjectBytes == if maxObjectBytes.Some? then maxObjectBytes.value
      else DEFAULT_MAX_STREAM_OBJECT_BYTES
    ensures r.Done? ==> r.value.chunkBytes == if chunkBytes.Some? then chunkBytes.value
      else DEFAULT_OBJECT_STREAM_CHUNK_BYTES
    ensures r.Failed? <==>
      || (maxObjectBytes.Some? && !(0 <= maxObjectBytes.value <= MAX_SAFE_INTEGER))
      || (chunkBytes.Some? && !(1 <= chunkBytes.value <= MAX_SAFE_INTEGER))
  {
    var max := if maxObjectBytes.Some? then maxObjectBytes.value else DEFAULT_MAX_STREAM_OBJECT_BYTES;
    var chunk := if chunkBytes.Some? then chunkBytes.value else DEFAULT_OBJECT_STREAM_CHUNK_BYTES;
    if !(0 <= max <= MAX_SAFE_INTEGER) || !(1 <= chunk <= MAX_SAFE_INTEGER) then Failed(BadConfig)
    else Done(StreamConfig(max, chunk))
  }

  datatype StoredObject = StoredObject(key: Key, byteSize: nat)

  /** The object a stream of source chunks stores, or why it cannot: the size bound is tested before
      each chunk, so the reported size runs through the first chunk that does not fit. */
  function StreamResult(source: seq<Bytes>, max: nat): Outcome<nat> {
    if source == [] then Done(0)
    else match StreamResult(source[..|source| - 1], max)
      case Failed(e) => Failed(e)
      case Done(size) =>
        var input := source[|source| - 1];
        if |input| > max - size then Failed(TooLarge(size + |input|, max)) else Done(size + |input|)
  }

  /** The bound rejects exactly the streams whose total exceeds it. */
  lemma {:induction false} StreamResultMeaning(source: seq<Bytes>, max: nat)
    ensures var r := StreamResult(source, max);
      if |Flatten(source)| <= max then r == Done(|Flatten(source)|)
      else r.Failed? && r.error.TooLarge? && r.error.max == max && max < r.error.actual <= |Flatten(source)|
  {
    if source != [] { StreamResultMeaning(source[..|source| - 1], max); }
  }

  lemma {:induction false} StreamResultPrefix(source: seq<Bytes>, max: nat, n: nat)
    requires n <= |source| && StreamResult(source[..n], max).Failed?
    ensures StreamResult(source, max) == StreamResult(source[..n], max)
    decreases |source|
  {
    if n < |source| {
      assert source[..|source| - 1][..n] == source[..n];
      StreamResultPrefix(source[..|source| - 1], max, n);
    } else {
      assert source[..n] == source;
    }
  }

  lemma TooLargeAt(source: seq<Bytes>, max: nat, i: nat)
    requires i < |source| && |Flatten(source[..i])| <= max && |source[i]| > max - |Flatten(source[..i])|
    ensures StreamResult(source, max) == Failed(TooLarge(|Flatten(source[..i])| + |source[i]|, max))
    ensures |Flatten(source)| > max
  {
    assert source[..i + 1][..i] == source[..i];
    StreamResultMeaning(source[..i], max);
    StreamResultPrefix(source, max, i + 1);
    StreamResultMeaning(source, max);
  }

  /** How the source of an upload ends: all of it arrives, or it fails after `source`. */
  datatype StreamEnd = Exhausted | Broken

  predicate NoCommit(events: seq<Event>, id: UploadId) {
    Commit(id) !in events
  }

  /** The upload's rows hold between one byte and `size` bytes each. */
  ghost predicate Pieces(events: seq<Event>, id: UploadId, size: nat) {
    forall e :: e in events && (e.Write? || e.WriteFail?) && e.id == id ==> 0 < |e.bytes| <= size
  }

  /** What staging does to the log of steps: rows of the right size and no commit. */
  ghost predicate Staging(events: seq<Event>, id: UploadId, size: nat) {
    NoCommit(events, id) && Pieces(events, id, size)
  }

  // ---------------------------------------------------------------- the storage object

  /** The tables, changed in place. `history` is every step since the tables were created, by this
      caller and all others; `id` below is the fresh identifier the upload was given. */
  class SqlObjectStorage {
    const digest: Bytes -> Key
    const policy: StreamConfig
    var objects: map<Key, Bytes>
    var manifests: map<Key, Manifest>
    var chunks: map<Key, Rows>
    var uploads: map<UploadId, Rows>
    ghost var open: map<UploadId, Upload>
    ghost var orphans: set<UploadId>
    ghost var used: set<UploadId>
    ghost var history: seq<Event>

    ghost function View(): Store
      reads this
    {
      Store(Tables(objects, manifests, chunks, uploads), open, orphans, used)
    }

    ghost predicate Valid()
      reads this
    {
      Run(EMPTY, digest, history) == Some(View()) && Injective(digest) && policy.chunkBytes >= 1
    }

    constructor (hash: Bytes -> Key, config: StreamConfig)
      requires Injective(hash) && config.chunkBytes >= 1
      ensures Valid() && View() == EMPTY && digest == hash && policy == config
    {
      digest, policy := hash, config;
      objects, manifests, chunks, uploads := map[], map[], map[], map[];
      open, orphans, used, history := map[], {}, {}, [];
    }

    /** Whatever other callers do between two statements of the upload `id`. */
    method OtherCallers(ghost id: UploadId)
      requires Valid() && id in open
      modifies this
      ensures Valid() && old(history) <= history && OthersOnly(history[|old(history)|..], id)
      ensures id in open && open[id] == old(open[id])
    {}

    method InsertChunk(id: UploadId, ordinal: nat, bytes: Bytes) returns (ok: bool)
      requires Valid() && id in open && open[id].live && ordinal == open[id].ordinal
      modifies this
      ensures Valid() && history == old(history) + [if ok then Write(id, bytes) else WriteFail(id, bytes)]
      ensures id in open && open[id] == Upload(ordinal + 1, old(open[id].consumed) + bytes, ok)
    {
      hide RunOf, Injective;
      ok := *;
      ghost var e := if ok then Write(id, bytes) else WriteFail(id, bytes);
      RunOne(StepOf(digest), EMPTY, history, e);
      if ok {
        uploads := uploads[id := RowsOf(uploads, id)[ordinal := bytes]];
      }
      open := open[id := Upload(ordinal + 1, open[id].consumed + bytes, ok)];
      history := history + [e];
    }

    /** One transaction: the manifest row unless the key is taken, and the chunk rows with it. */
    method CommitUpload(id: UploadId, ordinal: nat, stored: StoredObject) returns (ok: bool)
      requires Valid() && id in open && open[id].live && ordinal == open[id].ordinal
      requires stored == StoredObject(digest(open[id].consumed), |open[id].consumed|)
      modifies this
      ensures Valid() && history == old(history) + [if ok then Commit(id) else CommitFail(id)]
      ensures id in open
      ensures ok ==> GetSpec(View().tables, digest, stored.key) == Done(old(open[id].consumed))
    {
      hide RunOf, GetSpec;
      ok := *;
      ghost var before, e := View(), if ok then Commit(id) else CommitFail(id);
      RunOne(StepOf(digest), EMPTY, history, e);
      assert Inv(before, digest) by { HistoryInv(digest, history, before); }
      StepChangesOnlyPublished(before, digest, e, stored.key);
      hide Inv, Injective;
      if ok && stored.key !in manifests {
        manifests := manifests[stored.key := Manifest(stored.byteSize, ordinal)];
        chunks := chunks[stored.key := RowsOf(uploads, id)];
      }
      open := open[id := open[id].(live := false)];
      history := history + [e];
    }

    /** The DELETE may fail; then what was staged stays. */
    method AbortUpload(id: UploadId) returns (ok: bool)
      requires Valid() && id in open
      modifies this
      ensures Valid() && history == old(history) + [if ok then Abort(id) else AbortFail(id)]
      ensures id !in open
      ensures View().tables == old(View()).tables.(uploads := if ok then old(uploads) - {id} else old(uploads))
    {
      hide RunOf, Injective;
      ok := *;
      ghost var e := if ok then Abort(id) else AbortFail(id);
      RunOne(StepOf(digest), EMPTY, history, e);
      if ok { uploads := uploads - {id}; }
      orphans := if ok then orphans else orphans + {id};
      open := open - {id};
      history := history + [e];
    }

    /** Splits one source chunk into pieces of at most `chunkBytes` and stages them. */
    method StageInput(id: UploadId, ordinal: nat, hashed: Bytes, input: Bytes)
      returns (ok: bool, next: nat, hash: Bytes)
      requires Valid() && id in open && open[id].live && ordinal == open[id].ordinal && hashed == open[id].consumed
      modifies this
      ensures Valid() && id in open && open[id].live == ok
      ensures old(history) <= history && Staging(history[|old(history)|..], id, policy.chunkBytes)
      ensures ok ==> next == open[id].ordinal && hash == open[id].consumed == hashed + input
    {
      hide Run, Injective;
      var offset := 0;
      ok, next, hash := true, ordinal, hashed;
      ghost var start := history;
      while offset < |input|
        invariant Valid() && id in open && open[id].live && next == open[id].ordinal
        invariant offset >= 0
        invariant hash == open[id].consumed == hashed + input[..if offset < |input| then offset else |input|]
        invariant start <= history && Staging(history[|start|..], id, policy.chunkBytes)
        decreases |input| - offset
      {
        var end := if offset + policy.chunkBytes < |input| then offset + policy.chunkBytes else |input|;
        var bytes := input[offset..end];
        assert input[..end] == input[..offset] + bytes;
        ghost var before := history;
        OtherCallers(id);
        StillStaging(start, before, history, id, policy.chunkBytes);
        hash := hash + bytes;
        before := history;
        ok := InsertChunk(id, next, bytes);
        OneMore(start, before, if ok then Write(id, bytes) else WriteFail(id, bytes), id, policy.chunkBytes);
        if !ok { return; }
        next := next + 1;
        offset := offset + policy.chunkBytes;
      }
    }

    /** Hashes and stages every source chunk, or says why it stopped. */
    method StageSource(id: UploadId, source: seq<Bytes>, max: nat)
      returns (failure: Option<Error>, ordinal: nat, byteSize: nat, hash: Bytes)
      requires Valid() && id in open && open[id] == Upload(0, [], true)
      modifies this
      ensures Valid() && id in open
      ensures old(history) <= history && Staging(history[|old(history)|..], id, policy.chunkBytes)
      ensures failure.None? ==>
        && open[id] == Upload(ordinal, Flatten(source), true) && hash == Flatten(source) && byteSize == |hash| <= max
      ensures failure.Some? && failure.value.TooLarge? ==>
        |Flatten(source)| > max && Failed(failure.value) == StreamResult(source, max)
      ensures failure.Some? ==> failure.value.TooLarge? || failure.value.WriteFailed?
    {
      hide Run, Injective, GetSpec, StreamResult, OthersOnly;
      ghost var start := history;
      ordinal, byteSize, hash := 0, 0, [];
      for i := 0 to |source|
        invariant Valid() && id in open && open[id] == Upload(ordinal, hash, true)
        invariant hash == Flatten(source[..i]) && byteSize == |hash| <= max
        invariant start <= history && Staging(history[|start|..], id, policy.chunkBytes)
      {
        assert source[..i + 1][..i] == source[..i];
        var input := source[i];
        if |input| > max - byteSize {
          TooLargeAt(source, max, i);
          failure := Some(TooLarge(byteSize + |input|, max));
          return;
        }
        ghost var before := history;
        var ok, next, hashed := StageInput(id, ordinal, hash, input);
        StillStaging(start, before, history, id, policy.chunkBytes);
        if !ok {
          failure := Some(WriteFailed);
          return;
        }
        ordinal, byteSize, hash := next, byteSize + |input|, hashed;
      }
      assert source[..|source|] == source;
      failure := None;
    }

    /** `storeObjectStream`: stages the source, then commits it under its digest, and releases the
        staging rows on every exit. A release that fails kills the call, committed or not. */
    method PutStream(id: UploadId, source: seq<Bytes>, end: StreamEnd, max: nat)
      returns (r: Outcome<StoredObject>)
      requires Valid() && Enabled(View(), Open(id))
      modifies this
      ensures Valid() && id !in open && old(history) <= history
      ensures Pieces(history[|old(history)|..], id, policy.chunkBytes)
      ensures id in uploads <==> r == Failed(ReleaseFailed) && Staged(history, id)
      ensures r.Done? ==>
        && end.Exhausted? && |Flatten(source)| <= max
        && r.value == StoredObject(digest(Flatten(source)), |Flatten(source)|)
        && GetSpec(View().tables, digest, r.value.key) == Done(Flatten(source))
      ensures r.Failed? ==>
        || NoCommit(history[|old(history)|..], id)
        || (r.error.ReleaseFailed? && GetSpec(View().tables, digest, digest(Flatten(source))) == Done(Flatten(source)))
      ensures r.Failed? && r.error.TooLarge? ==> |Flatten(source)| > max && Failed(r.error) == StreamResult(source, max)
      ensures r.Failed? ==>
        || r.error.TooLarge? || r.error.WriteFailed? || r.error.ReleaseFailed?
        || (r.error.SourceFailed? && end.Broken? && |Flatten(source)| <= max)
    {
      hide RunOf, Injective, GetSpec, StreamResult, Staged, Pieces, NoCommit;
      ghost var start := history;
      RunOne(StepOf(digest), EMPTY, history, Open(id));
      open, used, history := open[id := Upload(0, [], true)], used + {id}, history + [Open(id)];
      NoSteps(start, id, policy.chunkBytes);
      OneMore(start, start, Open(id), id, policy.chunkBytes);
      r := StageAndCommit(id, source, end, max, start);
      ghost var before := history;
      var released := Release(id);
      OneMore(start, before, if released then Abort(id) else AbortFail(id), id, policy.chunkBytes);
      if !released { r := Failed(ReleaseFailed); }
    }

    /** The upload between its acquisition and its release. */
    method StageAndCommit(id: UploadId, source: seq<Bytes>, end: StreamEnd, max: nat, ghost start: seq<Event>)
      returns (r: Outcome<StoredObject>)
      requires Valid() && id in open && open[id] == Upload(0, [], true)
      requires start <= history && Staging(history[|start|..], id, policy.chunkBytes)
      modifies this
      ensures Valid() && id in open && start <= history && Pieces(history[|start|..], id, policy.chunkBytes)
      ensures r.Done? ==>
        && end.Exhausted? && |Flatten(source)| <= max
        && r.value == StoredObject(digest(Flatten(source)), |Flatten(source)|)
        && GetSpec(View().tables, digest, r.value.key) == Done(Flatten(source))
      ensures r.Failed? ==> NoCommit(history[|start|..], id)
      ensures r.Failed? && r.error.TooLarge? ==> |Flatten(source)| > max && Failed(r.error) == StreamResult(source, max)
      ensures r.Failed? ==>
        r.error.TooLarge? || r.error.WriteFailed? || (r.error.SourceFailed? && end.Broken? && |Flatten(source)| <= max)
    {
      hide Run, Injective, GetSpec, StreamResult, OthersOnly, Pieces, NoCommit;
      ghost var before := history;
      var failure, ordinal, byteSize, hash := StageSource(id, source, max);
      StillStaging(start, before, history, id, policy.chunkBytes);
      if failure.Some? { return Failed(failure.value); }
      if end.Broken? { return Failed(SourceFailed); }
      before := history;
      OtherCallers(id);
      StillStaging(start, before, history, id, policy.chunkBytes);
      var stored := StoredObject(digest(hash), byteSize);
      before := history;
      var ok := CommitUpload(id, ordinal, stored);
      OneMore(start, before, if ok then Commit(id) else CommitFail(id), id, policy.chunkBytes);
      r := if ok then Done(stored) else Failed(WriteFailed);
    }

    /** The scope's release: abort after every exit. Readers see no difference. */
    method Release(id: UploadId) returns (ok: bool)
      requires Valid() && id in open
      modifies this
      ensures Valid() && history == old(history) + [if ok then Abort(id) else AbortFail(id)]
      ensures id !in open && (id in uploads <==> !ok && Staged(history, id))
      ensures forall key :: GetSpec(View().tables, digest, key) == GetSpec(old(View()).tables, digest, key)
    {
      ok := AbortUpload(id);
      RunAccounted(digest, history, id);
    }

    /** `read`: the chunk rows in ordinal order, checked against the manifest and copied one after
        another into a buffer of the recorded size. */
    method Read(key: Key) returns (r: Outcome<Option<Bytes>>)
      ensures r == ReadSpec(View().tables, key) && ReadMeans(View().tables, key, r)
    {
      ReadIs(View().tables, key);
      if key !in manifests {
        return if key in objects then Done(Some(objects[key])) else Done(None);
      }
      var manifest, rows := manifests[key], RowsOf(chunks, key);
      hide TotalPreorder, Dense;
      NatOrder();
      var ordinals := ListSet(NatLe, rows.Keys);
      DenseListing(rows, ordinals);
      if |ordinals| != manifest.chunkCount { return Failed(Integrity); }
      r := Reassemble(manifest, rows, ordinals);
    }

    method Reassemble(manifest: Manifest, rows: Rows, ordinals: seq<nat>) returns (r: Outcome<Option<Bytes>>)
      requires Elements(ordinals) == rows.Keys && |ordinals| == manifest.chunkCount
      ensures r == if InOrder(ordinals) && |JoinedRows(rows, ordinals)| == manifest.byteSize
                   then Done(Some(JoinedRows(rows, ordinals))) else Failed(Integrity)
    {
      hide JoinedRows;
      var bytes := new Byte[manifest.byteSize];
      var offset := 0;
      JoinedRowsNone(rows);
      for index := 0 to |ordinals|
        invariant forall i :: 0 <= i < index ==> ordinals[i] == i
        invariant offset == |JoinedRows(rows, ordinals[..index])| <= bytes.Length
        invariant bytes[..offset] == JoinedRows(rows, ordinals[..index])
      {
        JoinedRowsStep(rows, ordinals, index);
        var chunk := rows[ordinals[index]];
        if ordinals[index] != index || offset + |chunk| > bytes.Length {
          JoinedRowsLonger(rows, ordinals, index + 1);
          return Failed(Integrity);
        }
        CopyChunk(bytes, offset, chunk);
        offset := offset + |chunk|;
      }
      assert ordinals[..|ordinals|] == ordinals;
      if offset != bytes.Length { return Failed(Integrity); }
      assert bytes[..offset] == bytes[..];
      r := Done(Some(bytes[..]));
    }

    /** `bytes.set(chunk, offset)`. */
    static method CopyChunk(bytes: array<Byte>, offset: nat, chunk: Bytes)
      requires offset + |chunk| <= bytes.Length
      modifies bytes
      ensures bytes[..offset + |chunk|] == old(bytes[..offset]) + chunk
    {
      forall i | 0 <= i < |chunk| { bytes[offset + i] := chunk[i]; }
    }

    method Get(key: Key) returns (r: Outcome<Bytes>)
      ensures r == GetSpec(View().tables, digest, key)
      ensures r.Done? ==> digest(r.value) == key
      ensures r == Failed(Missing) <==> key !in manifests && key !in objects
      ensures r.Failed? ==> r == Failed(Missing) || r == Failed(Integrity)
    {
      var read := Read(key);
      match read
      case Failed(e) => r := Failed(e);
      case Done(None) => r := Failed(Missing);
      case Done(Some(bytes)) => r := if digest(bytes) == key then Done(bytes) else Failed(Integrity);
    }

    /** Small objects take one row; larger ones up to the bound are streamed as a single source chunk. */
    method PutBytes(id: UploadId, bytes: Bytes) returns (r: Outcome<Key>)
      requires Valid() && Enabled(View(), Open(id))
      modifies this
      ensures Valid() && old(history) <= history
      ensures id in uploads <==> r == Failed(ReleaseFailed) && Staged(history, id)
      ensures r.Done? ==>
        && |bytes| <= policy.maxObjectBytes && r.value == digest(bytes)
        && GetSpec(View().tables, digest, r.value) == Done(bytes)
      ensures r.Failed? && r.error.TooLarge? <==> |bytes| > policy.maxObjectBytes
      ensures |bytes| > policy.maxObjectBytes ==>
        View() == old(View()) && r == Failed(TooLarge(|bytes|, policy.maxObjectBytes))
    {
      hide RunOf, Injective, GetSpec, Pieces, NoCommit, Staged;
      RunAccounted(digest, history, id);
      if |bytes| > policy.maxObjectBytes {
        return Failed(TooLarge(|bytes|, policy.maxObjectBytes));
      }
      if |bytes| > policy.chunkBytes {
        var streamed := PutStream(id, [bytes], Exhausted, policy.maxObjectBytes);
        SingleSource(bytes);
        return match streamed case Done(o) => Done(o.key) case Failed(e) => Failed(e);
      }
      var ok := *;
      if !ok { return Failed(WriteFailed); }
      ghost var before := View();
      RunOne(StepOf(digest), EMPTY, history, Put(bytes));
      HistoryInv(digest, history, before);
      StepChangesOnlyPublished(before, digest, Put(bytes), digest(bytes));
      hide Inv;
      objects := objects[digest(bytes) := bytes];
      history := history + [Put(bytes)];
      r := Done(digest(bytes));
    }
  }

  lemma SingleSource(bytes: Bytes)
    ensures Flatten([bytes]) == bytes
  {
    assert Flatten<Byte>([]) == [] && [bytes][..0] == [];
  }

  predicate NatLe(a: nat, b: nat) { a <= b }

  lemma NatOrder()
    ensures TotalPreorder(NatLe)
  {}

  predicate InOrder(ordinals: seq<nat>) {
    forall i :: 0 <= i < |ordinals| ==> ordinals[i] == i
  }

  /** The listed rows, one after another. */
  function JoinedRows(rows: Rows, ordinals: seq<nat>): Bytes {
    if ordinals == [] then []
    else
      var last := ordinals[|ordinals| - 1];
      JoinedRows(rows, ordinals[..|ordinals| - 1]) + (if last in rows then rows[last] else [])
  }

  lemma JoinedRowsNone(rows: Rows)
    ensures JoinedRows(rows, []) == []
  {}

  lemma JoinedRowsStep(rows: Rows, ordinals: seq<nat>, index: nat)
    requires index < |ordinals| && Elements(ordinals) == rows.Keys
    ensures ordinals[index] in rows
    ensures JoinedRows(rows, ordinals[..index + 1]) == JoinedRows(rows, ordinals[..index]) + rows[ordinals[index]]
  {
    assert ordinals[index] in Elements(ordinals);
    assert ordinals[..index + 1][..index] == ordinals[..index];
  }

  lemma {:induction false} JoinedRowsLonger(rows: Rows, ordinals: seq<nat>, n: nat)
    requires n <= |ordinals|
    ensures |JoinedRows(rows, ordinals[..n])| <= |JoinedRows(rows, ordinals)|
    decreases |ordinals|
  {
    if n == |ordinals| {
      assert ordinals[..n] == ordinals;
    } else {
      assert ordinals[..|ordinals| - 1][..n] == ordinals[..n];
      JoinedRowsLonger(rows, ordinals[..|ordinals| - 1], n);
    }
  }

  /** The listed ordinals are 0..n-1 exactly when the rows are dense. */
  lemma DenseListing(rows: Rows, ordinals: seq<nat>)
    requires Lists(NatLe, ordinals, rows.Keys)
    ensures forall n: nat :: Dense(rows, n) ==> |ordinals| == n
    ensures Dense(rows, |ordinals|) <==> InOrder(ordinals)
    ensures InOrder(ordinals) ==> JoinedRows(rows, ordinals) == Joined(rows, |ordinals|)
  {
    forall n: nat | Dense(rows, n) ensures |ordinals| == n && InOrder(ordinals) { ListsPrefix(ordinals, rows.Keys, n); }
    if InOrder(ordinals) {
      forall i | 0 <= i < |ordinals| ensures i in rows { assert ordinals[i] in Elements(ordinals); }
      forall i | i in rows ensures i < |ordinals| {
        assert i in Elements(ordinals);
        var k :| 0 <= k < |ordinals| && ordinals[k] == i;
      }
      JoinedInOrder(rows, ordinals);
    }
  }

  lemma ListsPrefix(ordinals: seq<nat>, members: set<nat>, n: nat)
    requires Lists(NatLe, ordinals, members)
    requires (forall i :: i in members ==> i < n) && (forall i :: 0 <= i < n ==> i in members)
    ensures |ordinals| == n && InOrder(ordinals)
  {
    var all: seq<nat> := seq(n, i => i);
    assert Elements(all) == members by {
      forall i | i in members ensures i in all { assert all[i] == i; }
    }
    NatOrder();
    ListingUnique(NatLe, ordinals, all, members);
  }

  lemma {:induction false} JoinedInOrder(rows: Rows, ordinals: seq<nat>)
    requires InOrder(ordinals) && forall i :: 0 <= i < |ordinals| ==> i in rows
    ensures JoinedRows(rows, ordinals) == Joined(rows, |ordinals|)
  {
    if ordinals != [] { JoinedInOrder(rows, ordinals[..|ordinals| - 1]); }
  }

  lemma HistoryInv(digest: Bytes -> Key, history: seq<Event>, s: Store)
    requires Run(EMPTY, digest, history) == Some(s)
    ensures Inv(s, digest)
  {
    hide Run;
    assert Inv(EMPTY, digest);
    RunKeepsInv(EMPTY, digest, history);
  }

  lemma StillStaging(start: seq<Event>, before: seq<Event>, after: seq<Event>, id: UploadId, size: nat)
    requires start <= before <= after && Staging(before[|start|..], id, size)
    requires OthersOnly(after[|before|..], id) || Staging(after[|before|..], id, size)
    ensures start <= after && Staging(after[|start|..], id, size)
  {
    assert after[|start|..] == before[|start|..] + after[|before|..];
    assert Concerns(Commit(id), id);
    assert forall e: Event :: (e.Write? || e.WriteFail?) && e.id == id ==> Concerns(e, id);
  }

  lemma NoSteps(start: seq<Event>, id: UploadId, size: nat)
    ensures Staging(start[|start|..], id, size)
  {}

  lemma OneMore(start: seq<Event>, before: seq<Event>, e: Event, id: UploadId, size: nat)
    requires start <= before && Pieces(before[|start|..], id, size)
    requires (e.Write? || e.WriteFail?) && e.id == id ==> 0 < |e.bytes| <= size
    ensures start <= before + [e] && Pieces((before + [e])[|start|..], id, size)
    ensures NoCommit(before[|start|..], id) && e != Commit(id) ==> NoCommit((before + [e])[|start|..], id)
  {
    assert (before + [e])[|start|..] == before[|start|..] + [e];
  }

  // ---------------------------------------------------------------- what a read means

  /** The rows 0 to n-1, empty where one is missing. */
  function Chunks(rows: Rows, n: nat): seq<Bytes> {
    seq(n, i requires 0 <= i < n => if i in rows then rows[i] else [])
  }

  /** The row numbers are exactly those below n. */
  ghost predicate Numbered(rows: Rows, n: nat) { forall i: nat :: i in rows <==> i < n }

  /** For arbitrary tables: with a manifest, the chunks 0 to n-1 one after another if those are all there
      are and their sizes add up, and otherwise an integrity error; without one the plain row, if any. */
  ghost predicate ReadMeans(t: Tables, key: Key, r: Outcome<Option<Bytes>>) {
    if key in t.manifests then
      var n, rows := t.manifests[key].chunkCount, RowsOf(t.chunks, key);
      var whole := Flatten(Chunks(rows, n));
      if Numbered(rows, n) && |whole| == t.manifests[key].byteSize then r == Done(Some(whole))
      else r == Failed(Integrity)
    else r == Done(if key in t.objects then Some(t.objects[key]) else None)
  }

  lemma ReadIs(t: Tables, key: Key)
    ensures ReadMeans(t, key, ReadSpec(t, key))
  {
    if key in t.manifests {
      var n, rows := t.manifests[key].chunkCount, RowsOf(t.chunks, key);
      assert Numbered(rows, n) <==> Dense(rows, n);
      if Dense(rows, n) { ChunksJoin(rows, n); }
    }
  }

  lemma {:induction false} ChunksJoin(rows: Rows, n: nat)
    requires forall i :: 0 <= i < n ==> i in rows
    ensures Flatten(Chunks(rows, n)) == Joined(rows, n)
  {
    if n > 0 {
      ChunksJoin(rows, n - 1);
      assert Chunks(rows, n)[..n - 1] == Chunks(rows, n - 1);
    }
  }

  // ---------------------------------------------------------------- an upload ends once

  /** A failed write, a commit that was tried, or a release. */
  predicate Ends(e: Event, id: UploadId) {
    e == Commit(id) || e == CommitFail(id) || e == Abort(id) || e == AbortFail(id) || (e.WriteFail? && e.id == id)
  }

  predicate Stages(e: Event, id: UploadId) {
    e == Commit(id) || e == CommitFail(id) || ((e.Write? || e.WriteFail?) && e.id == id)
  }

  ghost predicate Over(events: seq<Event>, id: UploadId) { exists i :: 0 <= i < |events| && Ends(events[i], id) }

  ghost predicate OverIsDead(s: Store, events: seq<Event>) {
    && (forall id :: id in s.open ==> id in s.used)
    && (forall id :: Over(events, id) ==> id in s.used && (id in s.open ==> !s.open[id].live))
  }

  lemma StepOverIsDead(s: Store, digest: Bytes -> Key, events: seq<Event>, e: Event)
    requires OverIsDead(s, events) && Enabled(s, e)
    ensures OverIsDead(Apply(s, digest, e), events + [e])
  {
    forall id ensures Over(events + [e], id) <==> Over(events, id) || Ends(e, id) { LongerOver(events, e, id); }
    hide Over;
  }

  lemma LongerOver(events: seq<Event>, e: Event, id: UploadId)
    ensures Over(events + [e], id) <==> Over(events, id) || Ends(e, id)
  {
    var more := events + [e];
    if i :| 0 <= i < |events| && Ends(events[i], id) { assert Ends(more[i], id); }
    if Ends(e, id) { assert Ends(more[|events|], id); }
  }

  lemma {:induction false} RunOverIsDead(digest: Bytes -> Key, events: seq<Event>)
    requires Run(EMPTY, digest, events).Some?
    ensures OverIsDead(Run(EMPTY, digest, events).value, events)
  {
    hide OverIsDead, Enabled, Apply;
    if events == [] {
      NothingOver(EMPTY, events);
    } else {
      var before, e := events[..|events| - 1], events[|events| - 1];
      RunOverIsDead(digest, before);
      StepOverIsDead(Run(EMPTY, digest, before).value, digest, before, e);
      assert before + [e] == events;
    }
  }

  lemma NothingOver(s: Store, events: seq<Event>)
    requires s == EMPTY && events == []
    ensures OverIsDead(s, events)
  {}

  /** After a failed write, a commit that was tried, or a release, the upload neither writes nor commits again. */
  lemma UploadEndsOnce(digest: Bytes -> Key, events: seq<Event>, id: UploadId, e: Event)
    requires Run(EMPTY, digest, events + [e]).Some? && Over(events, id)
    ensures !Stages(e, id)
  {
    RunOne(StepOf(digest), EMPTY, events, e);
    RunOverIsDead(digest, events);
    hide RunOf;
  }
}
