/** An object store behind a cache that may miss, fail, or answer with stale or corrupt bytes. */
module CachedStorage {
  import opened Ordering
  import opened Runs
  import opened Objects
  import opened ObjectStore
  import opened ObjectCache

  const DEFAULT_MAX_CACHED_OBJECT_BYTES := 1_500_000
  const DEFAULT_MAX_OBJECT_CACHE_BYTES := 32_000_000

  predicate SafeLimit(value: int) { 0 <= value <= MAX_SAFE_INTEGER }

  /** A policy whose limits are safe integers and whose objects fit what the host can cache. */
  function ObjectCachePolicy(maxObjectBytes: int, cached: Option<int>, total: Option<int>): (r: Option<Policy>)
    ensures r.Some? ==>
      r.value.maxCachedObjectBytes == (if cached.Some? then cached.value else DEFAULT_MAX_CACHED_OBJECT_BYTES)
    ensures r.Some? ==> r.value.maxCacheBytes == (if total.Some? then total.value else DEFAULT_MAX_OBJECT_CACHE_BYTES)
    ensures r.None? <==>
      || !SafeLimit(maxObjectBytes) || (total.Some? && !SafeLimit(total.value))
      || (if cached.Some? then !(0 <= cached.value <= maxObjectBytes)
          else maxObjectBytes < DEFAULT_MAX_CACHED_OBJECT_BYTES)
    ensures forall bytes: Bytes :: r.Some? && Admissible(r.value, bytes) ==> |bytes| <= maxObjectBytes
  {
    var object' := if cached.Some? then cached.value else DEFAULT_MAX_CACHED_OBJECT_BYTES;
    var cache := if total.Some? then total.value else DEFAULT_MAX_OBJECT_CACHE_BYTES;
    if !SafeLimit(maxObjectBytes) || !SafeLimit(object') || !SafeLimit(cache) || object' > maxObjectBytes then None
    else Some(Policy(object', cache))
  }

  // ---------------------------------------------------------------- clients of the cached store

  /** Where a client stands between two awaits: about to ask the cache, to drop the entry `seen`, to ask
      the backing store, waiting for its write, about to offer bytes to the cache, or answered. */
  datatype Phase =
    | Looking(key: Key) | Dropping(key: Key, seen: Bytes) | Reading(key: Key)
    | Writing(bytes: Bytes)
    | Admitting(bytes: Bytes, written: bool)
    | Got(result: Outcome<Bytes>) | Wrote(stored: Outcome<Key>)

  /** `key` and `known` are history: what a get asks for, and what the backing store held for it then. */
  datatype Client = Client(key: Option<Key>, known: Option<Bytes>, phase: Phase)
  datatype State = State(store: ObjectStore.Store, cache: Lru, clients: map<nat, Client>)

  /** The calls of all clients in any interleaving. `ok`: the call succeeds; a cache call that fails may
      or may not have been `applied`. Anyone may take a step of the backing store, and cached bytes may
      decay into others of a different digest. */
  datatype Call =
    | BeginGet(c: nat, key: Key) | BeginPut(c: nat, bytes: Bytes)
    | LookUp(c: nat, ok: bool) | DropEntry(c: nat, applied: bool)
    | AskBacking(c: nat, ok: bool) | WriteEnds(c: nat, failure: Option<Error>)
    | Offer(c: nat, applied: bool)
    | Backing(e: ObjectStore.Event)
    | Decay(key: Key, bytes: Bytes)

  predicate Possible(s: State, digest: Bytes -> Key, call: Call) {
    match call
    case BeginGet(c, _) => c !in s.clients
    case BeginPut(c, _) => c !in s.clients
    case LookUp(c, _) => c in s.clients && s.clients[c].phase.Looking?
    case DropEntry(c, _) => c in s.clients && s.clients[c].phase.Dropping?
    case AskBacking(c, _) => c in s.clients && s.clients[c].phase.Reading?
    case WriteEnds(c, failure) =>
      c in s.clients && s.clients[c].phase.Writing? && (failure.None? ==> Holds(s, digest, s.clients[c].phase.bytes))
    case Offer(c, _) => c in s.clients && s.clients[c].phase.Admitting?
    case Backing(e) => ObjectStore.Enabled(s.store, e)
    case Decay(key, bytes) => key in s.cache.content && digest(bytes) != key
  }

  /** Readers of the backing store get these bytes under their digest: what its `put` establishes
      (`ObjectStore.SqlObjectStorage.PutBytes`). */
  predicate Holds(s: State, digest: Bytes -> Key, bytes: Bytes) {
    GetSpec(s.store.tables, digest, digest(bytes)) == Done(bytes)
  }

  function At(s: State, c: nat, phase: Phase): State
    requires c in s.clients
  {
    s.(clients := s.clients[c := s.clients[c].(phase := phase)])
  }

  function After(s: State, digest: Bytes -> Key, p: Policy, call: Call): State
    requires Possible(s, digest, call)
  {
    match call
    case BeginGet(c, key) =>
      var held := GetSpec(s.store.tables, digest, key);
      s.(clients := s.clients[c := Client(Some(key), if held.Done? then Some(held.value) else None, Looking(key))])
    case BeginPut(c, bytes) => s.(clients := s.clients[c := Client(None, None, Writing(bytes))])
    case LookUp(c, ok) =>
      var key, l := s.clients[c].phase.key, s.cache;
      if !ok || key !in l.content then At(s, c, Reading(key))
      else At(s.(cache := Touch(l, key)), c,
              if digest(l.content[key]) == key then Got(Done(l.content[key])) else Dropping(key, l.content[key]))
    case DropEntry(c, applied) =>
      var key := s.clients[c].phase.key;
      At(if applied then s.(cache := Drop(s.cache, key)) else s, c, Reading(key))
    case AskBacking(c, ok) =>
      var r := if ok then GetSpec(s.store.tables, digest, s.clients[c].phase.key) else Failed(ReadFailed);
      At(s, c, if r.Done? then Admitting(r.value, false) else Got(r))
    case WriteEnds(c, failure) =>
      At(s, c, if failure.None? then Admitting(s.clients[c].phase.bytes, true) else Wrote(Failed(failure.value)))
    case Offer(c, applied) =>
      var x, key := s.clients[c].phase, digest(s.clients[c].phase.bytes);
      At(if applied then s.(cache := PutSpec(s.cache, p, key, x.bytes)) else s, c,
         if x.written then Wrote(Done(key)) else Got(Done(x.bytes)))
    case Backing(e) => s.(store := ObjectStore.Apply(s.store, digest, e))
    case Decay(key, bytes) => s.(cache := s.cache.(content := s.cache.content[key := bytes]))
  }

  function StepOf(digest: Bytes -> Key, p: Policy): (State, Call) -> Option<State> {
    (s, call) => if Possible(s, digest, call) then Some(After(s, digest, p, call)) else None
  }

  // ---------------------------------------------------------------- what every run keeps

  /** Cached bytes with the right digest are what the backing store holds. */
  ghost predicate CacheOk(tables: Tables, digest: Bytes -> Key, l: Lru) {
    Matched(l) && forall key :: key in l.content && digest(l.content[key]) == key ==>
        GetSpec(tables, digest, key) == Done(l.content[key])
  }

  /** What a client carries is what the backing store holds, and a get that found the object readable
      at its start ends with those bytes unless it cannot reach the backing store. */
  ghost predicate ClientOk(tables: Tables, digest: Bytes -> Key, x: Client) {
    && (x.known.Some? ==> x.key.Some? && GetSpec(tables, digest, x.key.value) == Done(x.known.value))
    && match x.phase
       case Looking(key) => x.key == Some(key)
       case Dropping(key, seen) => x.key == Some(key) && digest(seen) != key
       case Reading(key) => x.key == Some(key)
       case Writing(_) => x.key.None?
       case Admitting(bytes, written) =>
         GetSpec(tables, digest, digest(bytes)) == Done(bytes) && x.key == if written then None else Some(digest(bytes))
       case Got(Done(bytes)) => x.key == Some(digest(bytes)) && GetSpec(tables, digest, digest(bytes)) == Done(bytes)
       case Got(Failed(e)) => x.key.Some? && (e == ReadFailed || (e == Missing && x.known.None?))
       case Wrote(Done(key)) => GetSpec(tables, digest, key).Done?
       case Wrote(Failed(_)) => true
  }

  ghost predicate Inv(s: State, digest: Bytes -> Key) {
    && ObjectStore.Inv(s.store, digest)
    && CacheOk(s.store.tables, digest, s.cache)
    && forall c :: c in s.clients ==> ClientOk(s.store.tables, digest, s.clients[c])
  }

  /** A backing store some run leads to, with a cache whose exact entries it holds, and no client yet. */
  ghost predicate Start(s: State, digest: Bytes -> Key) {
    ObjectStore.Reachable(s.store, digest) && CacheOk(s.store.tables, digest, s.cache) && s.clients == map[]
  }

  lemma ReadableStays(s: ObjectStore.Store, digest: Bytes -> Key, e: ObjectStore.Event)
    requires ObjectStore.Inv(s, digest) && Injective(digest) && ObjectStore.Enabled(s, e)
    ensures ObjectStore.Inv(ObjectStore.Apply(s, digest, e), digest)
    ensures forall key :: GetSpec(s.tables, digest, key).Done? ==>
      GetSpec(ObjectStore.Apply(s, digest, e).tables, digest, key) == GetSpec(s.tables, digest, key)
  {
    hide ObjectStore.Inv, ObjectStore.Apply, ObjectStore.Enabled;
    StepKeepsInv(s, digest, e);
    forall key | GetSpec(s.tables, digest, key).Done?
      ensures GetSpec(ObjectStore.Apply(s, digest, e).tables, digest, key) == GetSpec(s.tables, digest, key)
    {
      StepChangesOnlyPublished(s, digest, e, key);
    }
  }

  /** Steps of the backing store that keep what is readable keep what the cache and the clients hold. */
  lemma BackingKeeps(t: Tables, u: Tables, digest: Bytes -> Key, l: Lru, x: Client)
    requires forall key :: GetSpec(t, digest, key).Done? ==> GetSpec(u, digest, key) == GetSpec(t, digest, key)
    ensures CacheOk(t, digest, l) ==> CacheOk(u, digest, l)
    ensures ClientOk(t, digest, x) ==> ClientOk(u, digest, x)
  {
    hide GetSpec, Matched;
  }

  /** An offer leaves only entries that were there and the offered one. */
  lemma OfferKeepsCache(t: Tables, digest: Bytes -> Key, l: Lru, p: Policy, bytes: Bytes)
    requires CacheOk(t, digest, l) && GetSpec(t, digest, digest(bytes)) == Done(bytes)
    ensures CacheOk(t, digest, PutSpec(l, p, digest(bytes), bytes))
  {
    hide GetSpec, Matched, SizeOf, Trim, EvictN;
    var key := digest(bytes);
    if Admissible(p, bytes) {
      StoreSize(l, key, bytes);
      var n := TrimShortest(ObjectCache.Store(l, key, bytes), p.maxCacheBytes);
      EvictNFacts(ObjectCache.Store(l, key, bytes), n);
    }
  }

  lemma CallKeepsCache(s: State, digest: Bytes -> Key, p: Policy, call: Call)
    requires Inv(s, digest) && Injective(digest) && Possible(s, digest, call) && !call.Backing?
    ensures CacheOk(s.store.tables, digest, After(s, digest, p, call).cache)
  {
    hide GetSpec, ObjectStore.Inv;
    match call
    case LookUp(c, ok) =>
      var key := s.clients[c].phase.key;
      if ok && key in s.cache.content { StoreSize(s.cache, key, s.cache.content[key]); }
    case DropEntry(c, _) => DropSize(s.cache, s.clients[c].phase.key);
    case Offer(c, _) => OfferKeepsCache(s.store.tables, digest, s.cache, p, s.clients[c].phase.bytes);
    case _ =>
  }

  lemma CallKeepsClients(s: State, digest: Bytes -> Key, p: Policy, call: Call)
    requires Inv(s, digest) && Injective(digest) && Possible(s, digest, call) && !call.Backing?
    ensures forall c :: c in After(s, digest, p, call).clients ==>
      ClientOk(s.store.tables, digest, After(s, digest, p, call).clients[c])
  {
    hide ClientOk, CacheOk, ObjectStore.Inv, Injective;
    OthersStay(s, digest, p, call);
    if AboutCache(call) {
      CacheCallKeepsCaller(s, digest, p, call);
    } else if !call.Decay? {
      StoreCallKeepsCaller(s, digest, p, call);
    }
  }

  lemma OthersStay(s: State, digest: Bytes -> Key, p: Policy, call: Call)
    requires Possible(s, digest, call) && !call.Backing?
    ensures forall d :: d in After(s, digest, p, call).clients && (call.Decay? || d != call.c) ==>
      d in s.clients && After(s, digest, p, call).clients[d] == s.clients[d]
  {
    hide GetSpec, Touch, Drop, PutSpec;
  }

  predicate AboutCache(call: Call) { call.BeginGet? || call.LookUp? || call.DropEntry? }

  lemma CacheCallKeepsCaller(s: State, digest: Bytes -> Key, p: Policy, call: Call)
    requires Inv(s, digest) && Injective(digest) && Possible(s, digest, call) && AboutCache(call)
    ensures call.c in After(s, digest, p, call).clients
    ensures ClientOk(s.store.tables, digest, After(s, digest, p, call).clients[call.c])
  {
    GetIsExact(s.store, digest);
    hide GetSpec, ObjectStore.Inv, Matched, Touch, Drop, PutSpec;
    if call.c in s.clients { assert ClientOk(s.store.tables, digest, s.clients[call.c]); }
  }

  lemma StoreCallKeepsCaller(s: State, digest: Bytes -> Key, p: Policy, call: Call)
    requires Inv(s, digest) && Injective(digest) && Possible(s, digest, call)
    requires !AboutCache(call) && !call.Backing? && !call.Decay?
    ensures call.c in After(s, digest, p, call).clients
    ensures ClientOk(s.store.tables, digest, After(s, digest, p, call).clients[call.c])
  {
    GetIsExact(s.store, digest);
    hide GetSpec, ObjectStore.Inv, Matched, Touch, Drop, PutSpec;
    if call.c in s.clients { assert ClientOk(s.store.tables, digest, s.clients[call.c]); }
  }

  /** The backing store answers exact bytes or that there are none. */
  lemma GetIsExact(s: ObjectStore.Store, digest: Bytes -> Key)
    requires ObjectStore.Inv(s, digest)
    ensures forall key :: match GetSpec(s.tables, digest, key)
      case Done(bytes) => digest(bytes) == key
      case Failed(e) => e == Missing
  {}

  lemma CallKeepsInv(s: State, digest: Bytes -> Key, p: Policy, call: Call)
    requires Inv(s, digest) && Injective(digest) && Possible(s, digest, call)
    ensures Inv(After(s, digest, p, call), digest)
  {
    hide GetSpec, CacheOk, ClientOk, ObjectStore.Inv, Injective;
    if call.Backing? {
      ReadableStays(s.store, digest, call.e);
      var u := ObjectStore.Apply(s.store, digest, call.e).tables;
      BackingKeeps(s.store.tables, u, digest, s.cache, Client(None, None, Writing([])));
      forall c | c in s.clients ensures ClientOk(u, digest, s.clients[c]) {
        BackingKeeps(s.store.tables, u, digest, s.cache, s.clients[c]);
      }
    } else {
      CallKeepsCache(s, digest, p, call);
      CallKeepsClients(s, digest, p, call);
    }
  }

  lemma {:induction false} CallsKeepInv(s: State, digest: Bytes -> Key, p: Policy, calls: seq<Call>)
    requires Start(s, digest) && Injective(digest) && RunOf(StepOf(digest, p), s, calls).Some?
    ensures Inv(RunOf(StepOf(digest, p), s, calls).value, digest)
  {
    if calls == [] {
      hide ObjectStore.Run, CacheOk;
      var events :| ObjectStore.Run(ObjectStore.EMPTY, digest, events) == Some(s.store);
      assert ObjectStore.Inv(ObjectStore.EMPTY, digest);
      ObjectStore.RunKeepsInv(ObjectStore.EMPTY, digest, events);
    } else {
      CallsKeepInv(s, digest, p, calls[..|calls| - 1]);
      hide Start, Inv, Possible, After, Injective;
      CallKeepsInv(RunOf(StepOf(digest, p), s, calls[..|calls| - 1]).value, digest, p, calls[|calls| - 1]);
    }
  }

  // ---------------------------------------------------------------- what clients are promised

  /** Whatever the cache loses, corrupts or fails to do, and however clients interleave: a get that
      succeeds returns what the backing store holds for its key; one that found the object readable at
      its start returns those bytes unless it could not reach the backing store; and one that fails
      otherwise says the object is missing. */
  lemma CacheIsTransparent(s: State, digest: Bytes -> Key, p: Policy, calls: seq<Call>, c: nat)
    requires Start(s, digest) && Injective(digest) && RunOf(StepOf(digest, p), s, calls).Some?
    requires var t := RunOf(StepOf(digest, p), s, calls).value; c in t.clients && t.clients[c].phase.Got?
    ensures var t := RunOf(StepOf(digest, p), s, calls).value;
      var x, r := t.clients[c], t.clients[c].phase.result;
      && x.key.Some?
      && (r.Done? ==> digest(r.value) == x.key.value && GetSpec(t.store.tables, digest, x.key.value) == r)
      && (x.known.Some? ==> r == Done(x.known.value) || r == Failed(ReadFailed))
      && (r.Failed? ==> r.error == ReadFailed || r.error == Missing)
  {
    CallsKeepInv(s, digest, p, calls);
    hide GetSpec, CacheOk, ObjectStore.Inv, Start, Possible, After;
  }

  /** A write that succeeded is readable from then on, the cache is only offered what the backing store
      holds, and only entries that answered wrong bytes are dropped. */
  lemma OffersAreHeld(s: State, digest: Bytes -> Key, p: Policy, calls: seq<Call>, c: nat)
    requires Start(s, digest) && Injective(digest) && RunOf(StepOf(digest, p), s, calls).Some?
    requires c in RunOf(StepOf(digest, p), s, calls).value.clients
    ensures var t := RunOf(StepOf(digest, p), s, calls).value;
      match t.clients[c].phase
      case Wrote(Done(key)) => GetSpec(t.store.tables, digest, key).Done?
      case Admitting(bytes, _) => Holds(t, digest, bytes)
      case Dropping(key, seen) => digest(seen) != key
      case _ => true
  {
    CallsKeepInv(s, digest, p, calls);
    hide GetSpec, CacheOk, ObjectStore.Inv, Start, Possible, After;
  }

  /** Bytes the cache admits are then served from it, without the backing store. */
  lemma AdmittedIsServed(s: State, digest: Bytes -> Key, p: Policy, c: nat, d: nat)
    requires Inv(s, digest) && c in s.clients && d in s.clients && s.clients[c].phase.Admitting?
    requires s.clients[d].phase == Looking(digest(s.clients[c].phase.bytes)) && Admissible(p, s.clients[c].phase.bytes)
    ensures var t := After(s, digest, p, Offer(c, true));
      Possible(t, digest, LookUp(d, true)) &&
          After(t, digest, p, LookUp(d, true)).clients[d].phase == Got(Done(s.clients[c].phase.bytes))
  {
    hide GetSpec, ObjectStore.Inv, PutSpec;
    PutSurvives(s.cache, p, digest(s.clients[c].phase.bytes), s.clients[c].phase.bytes);
  }

  // ---------------------------------------------------------------- why a client gets its answer

  /** How far a client's answer goes back to calls made for it. */
  ghost predicate Explained(digest: Bytes -> Key, calls: seq<Call>, c: nat, x: Client) {
    && (x.key.Some? ==> BeginGet(c, x.key.value) in calls)
    && match x.phase
       case Writing(bytes) => BeginPut(c, bytes) in calls
       case Admitting(bytes, true) => BeginPut(c, bytes) in calls && WriteEnds(c, None) in calls
       case Admitting(bytes, false) => AskBacking(c, true) in calls
       case Got(Done(_)) => LookUp(c, true) in calls || AskBacking(c, true) in calls
       case Got(Failed(e)) => if e == ReadFailed then AskBacking(c, false) in calls else AskBacking(c, true) in calls
       case Wrote(stored) => Reported(digest, calls, c, stored)
       case _ => true
  }

  /** A put reports what the backing store reported, under the digest of the bytes it was given. */
  ghost predicate Reported(digest: Bytes -> Key, calls: seq<Call>, c: nat, stored: Outcome<Key>) {
    if stored.Failed? then WriteEnds(c, Some(stored.error)) in calls
    else WriteEnds(c, None) in calls && exists bytes :: BeginPut(c, bytes) in calls && digest(bytes) == stored.value
  }

  lemma StillExplained(digest: Bytes -> Key, calls: seq<Call>, c: nat, x: Client, call: Call)
    requires Explained(digest, calls, c, x)
    ensures Explained(digest, calls + [call], c, x)
  {
    assert forall k :: k in calls ==> k in calls + [call];
  }

  lemma CallExplains(s: State, digest: Bytes -> Key, p: Policy, calls: seq<Call>, call: Call)
    requires Inv(s, digest) && Possible(s, digest, call) && !call.Backing? && !call.Decay?
    requires call.c in s.clients ==> Explained(digest, calls, call.c, s.clients[call.c])
    ensures call.c in After(s, digest, p, call).clients
    ensures Explained(digest, calls + [call], call.c, After(s, digest, p, call).clients[call.c])
  {
    GetIsExact(s.store, digest);
    hide GetSpec, ObjectStore.Inv, CacheOk, Touch, Drop, PutSpec;
    assert forall k :: k in calls ==> k in calls + [call];
    assert (calls + [call])[|calls|] == call;
  }

  lemma {:induction false} CallsExplain(s: State, digest: Bytes -> Key, p: Policy, calls: seq<Call>)
    requires Start(s, digest) && Injective(digest) && RunOf(StepOf(digest, p), s, calls).Some?
    ensures var t := RunOf(StepOf(digest, p), s, calls).value;
      forall c :: c in t.clients ==> Explained(digest, calls, c, t.clients[c])
  {
    if calls != [] {
      var before, call := calls[..|calls| - 1], calls[|calls| - 1];
      CallsExplain(s, digest, p, before);
      CallsKeepInv(s, digest, p, before);
      assert before + [call] == calls;
      hide Start, Inv, Injective, Explained, Possible, After;
      AllExplained(RunOf(StepOf(digest, p), s, before).value, digest, p, before, call);
    }
  }

  lemma AllExplained(s: State, digest: Bytes -> Key, p: Policy, calls: seq<Call>, call: Call)
    requires Inv(s, digest) && Possible(s, digest, call)
    requires forall c :: c in s.clients ==> Explained(digest, calls, c, s.clients[c])
    ensures forall c :: c in After(s, digest, p, call).clients ==>
      Explained(digest, calls + [call], c, After(s, digest, p, call).clients[c])
  {
    hide Inv, Explained, GetSpec;
    forall c | c in s.clients ensures Explained(digest, calls + [call], c, s.clients[c]) {
      StillExplained(digest, calls, c, s.clients[c], call);
    }
    if !call.Backing? {
      OthersStay(s, digest, p, call);
      if !call.Decay? { CallExplains(s, digest, p, calls, call); }
    }
  }

  /** A get that found the object readable at its start returns those bytes unless a call of the backing
      store made for it failed, whatever the cache did; a get fails only after asking the backing store;
      and a write is confirmed only after the backing store confirmed these bytes. */
  lemma CacheFailuresAreHidden(s: State, digest: Bytes -> Key, p: Policy, calls: seq<Call>, c: nat)
    requires Start(s, digest) && Injective(digest) && RunOf(StepOf(digest, p), s, calls).Some?
    requires c in RunOf(StepOf(digest, p), s, calls).value.clients
    ensures var x := RunOf(StepOf(digest, p), s, calls).value.clients[c];
      && (x.phase.Got? && x.known.Some? && AskBacking(c, false) !in calls ==> x.phase.result == Done(x.known.value))
      && (x.phase == Got(Failed(ReadFailed)) ==> AskBacking(c, false) in calls)
      && (x.phase == Got(Failed(Missing)) ==> AskBacking(c, true) in calls && x.known.None?)
      && (x.key.Some? ==> BeginGet(c, x.key.value) in calls)
    ensures var x := RunOf(StepOf(digest, p), s, calls).value.clients[c];
      x.phase.Wrote? ==> Reported(digest, calls, c, x.phase.stored)
  {
    CallsExplain(s, digest, p, calls);
    CallsKeepInv(s, digest, p, calls);
    hide RunOf, Start, GetSpec, ObjectStore.Inv, CacheOk;
    var t := RunOf(StepOf(digest, p), s, calls).value;
    assert Explained(digest, calls, c, t.clients[c]) && ClientOk(t.store.tables, digest, t.clients[c]);
  }

  // ---------------------------------------------------------------- clients finish

  /** How many calls of its own a client has left at most. */
  function CallsLeft(phase: Phase): nat {
    match phase
    case Looking(_) => 4
    case Dropping(_, _) => 3
    case Reading(_) => 2
    case Writing(_) => 2
    case Admitting(_, _) => 1
    case Got(_) => 0
    case Wrote(_) => 0
  }

  /** No client is ever stuck, and each of its calls brings it closer to its answer. */
  lemma ClientsFinish(s: State, digest: Bytes -> Key, p: Policy, c: nat) returns (call: Call)
    requires c in s.clients && CallsLeft(s.clients[c].phase) > 0
    ensures !call.Backing? && !call.Decay? && call.c == c && Possible(s, digest, call)
    ensures forall k: Call :: !k.Backing? && !k.Decay? && k.c == c && Possible(s, digest, k) ==>
      c in After(s, digest, p, k).clients &&
          CallsLeft(After(s, digest, p, k).clients[c].phase) < CallsLeft(s.clients[c].phase)
  {
    hide GetSpec, Touch, Drop, PutSpec;
    call := match s.clients[c].phase
      case Looking(_) => LookUp(c, false)
      case Dropping(_, _) => DropEntry(c, false)
      case Reading(_) => AskBacking(c, false)
      case Writing(_) => WriteEnds(c, Some(WriteFailed))
      case _ => Offer(c, false);
  }

  /** Cached bytes of another digest are not served: the entry is dropped and the backing store asked. */
  lemma WrongBytesAreDropped(s: State, digest: Bytes -> Key, p: Policy, c: nat, key: Key)
    requires Inv(s, digest) && c in s.clients && s.clients[c].phase == Looking(key)
    requires key in s.cache.content && digest(s.cache.content[key]) != key
    ensures var t := After(s, digest, p, LookUp(c, true));
      && Possible(t, digest, DropEntry(c, true))
      && var u := After(t, digest, p, DropEntry(c, true));
         key !in u.cache.content && u.clients[c].phase == Reading(key)
  {
    hide GetSpec, ObjectStore.Inv;
  }

  /** A look-up that finds the key makes it the most recently used one. */
  lemma HitIsUse(s: State, digest: Bytes -> Key, p: Policy, c: nat, key: Key)
    requires Inv(s, digest) && c in s.clients && s.clients[c].phase == Looking(key) && key in s.cache.content
    ensures UsedLast(s.cache, After(s, digest, p, LookUp(c, true)).cache, key)
  {
    TouchUsesLast(s.cache, key);
    hide GetSpec, ObjectStore.Inv, UsedLast, Touch;
  }

  /** Bytes that the backing store read or confirmed are offered to the cache, and if it admits them the
      next look-up of their key is a hit. */
  lemma BackingFillsCache(s: State, digest: Bytes -> Key, p: Policy, c: nat, d: nat, bytes: Bytes)
    requires Inv(s, digest) && Injective(digest) && c in s.clients && d in s.clients && Admissible(p, bytes)
    requires Holds(s, digest, bytes) && s.clients[d].phase == Looking(digest(bytes))
    requires s.clients[c].phase == Reading(digest(bytes)) || s.clients[c].phase == Writing(bytes)
    ensures var answer := if s.clients[c].phase.Reading? then AskBacking(c, true) else WriteEnds(c, None);
      && Possible(s, digest, answer)
      && var t := After(s, digest, p, answer);
         && Possible(t, digest, Offer(c, true))
         && var u := After(t, digest, p, Offer(c, true));
            Possible(u, digest, LookUp(d, true)) &&
                After(u, digest, p, LookUp(d, true)).clients[d].phase == Got(Done(bytes))
  {
    hide GetSpec, ObjectStore.Inv, PutSpec, CacheOk;
    var answer := if s.clients[c].phase.Reading? then AskBacking(c, true) else WriteEnds(c, None);
    CallKeepsInv(s, digest, p, answer);
    hide Inv;
    AdmittedIsServed(After(s, digest, p, answer), digest, p, c, d);
  }

  /** `known` is what the backing store held for the key of a get when it began. */
  ghost predicate KnownFrom(s: State, digest: Bytes -> Key, p: Policy, calls: seq<Call>, c: nat, x: Client, n: nat) {
    && n < |calls| && x.key.Some? && calls[n] == BeginGet(c, x.key.value)
    && RunOf(StepOf(digest, p), s, calls[..n]).Some?
    && var held := GetSpec(RunOf(StepOf(digest, p), s, calls[..n]).value.store.tables, digest, x.key.value);
       x.known == if held.Done? then Some(held.value) else None
  }

  lemma {:induction false} KnownAtStart(s: State, digest: Bytes -> Key, p: Policy, calls: seq<Call>, c: nat)
    returns (n: nat)
    requires Start(s, digest) && RunOf(StepOf(digest, p), s, calls).Some?
    requires c in RunOf(StepOf(digest, p), s, calls).value.clients
    requires RunOf(StepOf(digest, p), s, calls).value.clients[c].key.Some?
    ensures KnownFrom(s, digest, p, calls, c, RunOf(StepOf(digest, p), s, calls).value.clients[c], n)
  {
    if calls == [] {
      assert false;
    } else {
      var before, call := calls[..|calls| - 1], calls[|calls| - 1];
      var t := RunOf(StepOf(digest, p), s, before).value;
      hide RunOf, GetSpec;
      assert RunOf(StepOf(digest, p), s, calls) == Some(After(t, digest, p, call)) && Possible(t, digest, call) by {
        assert before + [call] == calls;
        RunOne(StepOf(digest, p), s, before, call);
      }
      if call.BeginGet? && call.c == c {
        n := |before|;
        assert calls[..n] == before;
      } else {
        SameGet(t, digest, p, call, c);
        n := KnownAtStart(s, digest, p, before, c);
        assert calls[..n] == before[..n];
      }
    }
  }

  lemma SameGet(t: State, digest: Bytes -> Key, p: Policy, call: Call, c: nat)
    requires Possible(t, digest, call) && !(call.BeginGet? && call.c == c)
    requires c in After(t, digest, p, call).clients && After(t, digest, p, call).clients[c].key.Some?
    ensures c in t.clients
    ensures t.clients[c].key == After(t, digest, p, call).clients[c].key
    ensures t.clients[c].known == After(t, digest, p, call).clients[c].known
  {
    hide GetSpec, Touch, Drop, PutSpec;
  }
}
