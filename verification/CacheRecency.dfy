/** The object cache over whole sequences of operations: which keys it keeps, with which bytes, and that
    what a put evicts was used before everything that stays. */
module CacheRecency {
  import opened Ordering
  import opened Objects
  import opened ObjectCache

  /** Reads and admissible writes of a key are its uses. */
  predicate Uses(p: Policy, op: Operation, key: Key) {
    match op
    case GetOp(k) => k == key
    case PutOp(k, bytes) => k == key && 0 < |bytes| <= p.maxCachedObjectBytes && |bytes| <= p.maxCacheBytes
    case RemoveOp(_) => false
  }

  /** The position of the latest use of a key, -1 if there is none. */
  function LastUse(p: Policy, ops: seq<Operation>, key: Key): int {
    if ops == [] then -1
    else if Uses(p, ops[|ops| - 1], key) then |ops| - 1 else LastUse(p, ops[..|ops| - 1], key)
  }

  lemma {:induction false} LastUseRange(p: Policy, ops: seq<Operation>, key: Key)
    ensures -1 <= LastUse(p, ops, key) < |ops|
  {
    if ops != [] { LastUseRange(p, ops[..|ops| - 1], key); }
  }

  /** `a` was last used before `b`; without any use, it was less recent when the cache was opened. */
  ghost predicate UsedEarlier(p: Policy, start: Lru, ops: seq<Operation>, a: Key, b: Key) {
    || LastUse(p, ops, a) < LastUse(p, ops, b)
    || (LastUse(p, ops, a) == LastUse(p, ops, b) == -1 && Before(start.order, a, b))
  }

  /** The bytes the latest admissible write since the latest removal gave a key, or those it had at the
      start; None when a removal came last. */
  function Held(p: Policy, start: Lru, ops: seq<Operation>, key: Key): Option<Bytes> {
    if ops == [] then if key in start.content then Some(start.content[key]) else None
    else match ops[|ops| - 1]
      case PutOp(k, bytes) =>
        if k == key && Uses(p, PutOp(k, bytes), key) then Some(bytes) else Held(p, start, ops[..|ops| - 1], key)
      case RemoveOp(k) => if k == key then None else Held(p, start, ops[..|ops| - 1], key)
      case GetOp(_) => Held(p, start, ops[..|ops| - 1], key)
  }

  // ---------------------------------------------------------------- one operation

  /** What one operation does to the recency list: nothing new but the key it uses, which comes last,
      and the others in their old order. */
  ghost predicate Moves(l: Lru, p: Policy, op: Operation, t: Lru) {
    && Matched(t)
    && (forall k :: k in t.content && !Uses(p, op, k) ==> k in l.content && t.content[k] == l.content[k])
    && (forall k :: k in t.content && Uses(p, op, k) && op.GetOp? ==> k in l.content && t.content[k] == l.content[k])
    && (forall k :: k in t.content && op.PutOp? && Uses(p, op, k) ==> t.content[k] == op.bytes)
    && (op.RemoveOp? ==> op.key !in t.content)
    && (forall a, k :: a in t.content && k in t.content && a != k && Uses(p, op, k) ==> Before(t.order, a, k))
    && (forall a, b :: a in t.content && b in t.content && !Uses(p, op, a) && !Uses(p, op, b) ==>
          (Before(t.order, a, b) <==> Before(l.order, a, b)))
  }

  lemma StoreMoves(l: Lru, key: Key, bytes: Bytes, a: Key, b: Key)
    requires Matched(l) && a in Store(l, key, bytes).content && b in Store(l, key, bytes).content && a != b
    ensures b == key ==> Before(Store(l, key, bytes).order, a, b)
    ensures a != key && b != key ==> (Before(Store(l, key, bytes).order, a, b) <==> Before(l.order, a, b))
  {
    hide Before;
    BeforeAppend(Without(l.order, key), key, a, b);
    WithoutFacts(l.order, key);
    assert forall x :: x in l.order <==> x in Elements(l.order);
    if a != key && b != key { BeforeWithout(l.order, key, a, b); }
  }

  lemma GetMoves(l: Lru, p: Policy, key: Key)
    requires Matched(l)
    ensures Moves(l, p, GetOp(key), Touch(l, key))
  {
    hide Before;
    if key in l.content {
      StoreSize(l, key, l.content[key]);
      var t := Touch(l, key);
      hide SizeOf, Without, Matched;
      forall a, b | a in t.content && b in t.content && a != b
        ensures b == key ==> Before(t.order, a, b)
        ensures a != key && b != key ==> (Before(t.order, a, b) <==> Before(l.order, a, b))
      {
        StoreMoves(l, key, l.content[key], a, b);
      }
      forall a | a in t.content && a != key ensures Before(t.order, a, a) <==> Before(l.order, a, a) {
        NotBeforeItself(t.order, a);
        NotBeforeItself(l.order, a);
      }
    }
  }

  lemma NotBeforeItself(order: seq<Key>, a: Key)
    ensures Distinct(order) ==> !Before(order, a, a)
  {}

  lemma RemoveMoves(l: Lru, p: Policy, key: Key)
    requires Matched(l)
    ensures Moves(l, p, RemoveOp(key), Drop(l, key))
  {
    hide Before;
    DropSize(l, key);
    DropDrops(l, key);
  }

  lemma PutMoves(l: Lru, p: Policy, key: Key, bytes: Bytes)
    requires Matched(l)
    ensures Moves(l, p, PutOp(key, bytes), PutSpec(l, p, key, bytes))
  {
    hide Before, Matched, SizeOf, Without;
    if Admissible(p, bytes) {
      var n := PutEvicts(l, p, key, bytes);
      hide PutSpec;
      var t := PutSpec(l, p, key, bytes);
      forall a, b | a in t.content && b in t.content
        ensures a != b && b == key ==> Before(t.order, a, b)
        ensures a != key && b != key ==> (Before(t.order, a, b) <==> Before(l.order, a, b))
      {
        PutKeepsOrder(l, key, bytes, t, n, a, b);
      }
    } else {
      Unmoved(l, p, PutOp(key, bytes));
    }
  }

  lemma Unmoved(l: Lru, p: Policy, op: Operation)
    requires Matched(l) && op.PutOp? && !Admissible(p, op.bytes)
    ensures Moves(l, p, op, l)
  {
    hide Before, Matched;
  }

  lemma PutEvicts(l: Lru, p: Policy, key: Key, bytes: Bytes) returns (n: nat)
    requires Matched(l) && Admissible(p, bytes)
    ensures var s, t := Store(l, key, bytes), PutSpec(l, p, key, bytes);
      && Matched(s) && Matched(t) && n <= |s.order| && t.order == s.order[n..]
      && forall k :: k in t.content ==> k in s.content && t.content[k] == s.content[k]
  {
    hide Trim, SizeOf, EvictN, Without, Matched;
    StoreSize(l, key, bytes);
    n := TrimShortest(Store(l, key, bytes), p.maxCacheBytes);
    EvictNFacts(Store(l, key, bytes), n);
  }

  lemma PutKeepsOrder(l: Lru, key: Key, bytes: Bytes, t: Lru, n: nat, a: Key, b: Key)
    requires Matched(l) && Matched(Store(l, key, bytes)) && Matched(t) && n <= |Store(l, key, bytes).order|
    requires t.order == Store(l, key, bytes).order[n..] && t.content.Keys <= Store(l, key, bytes).content.Keys
    requires a in t.content && b in t.content
    ensures a != b && b == key ==> Before(t.order, a, b)
    ensures a != key && b != key ==> (Before(t.order, a, b) <==> Before(l.order, a, b))
  {
    hide Before, Without;
    InOrder(t, a);
    InOrder(t, b);
    BeforeSuffix(Store(l, key, bytes).order, n, a, b);
    if a != b { StoreMoves(l, key, bytes, a, b); }
    NotBeforeItself(t.order, a);
    NotBeforeItself(l.order, a);
  }

  lemma InOrder(l: Lru, k: Key)
    requires Matched(l)
    ensures k in l.content <==> k in l.order
  {
    assert k in l.order <==> k in Elements(l.order);
  }

  lemma OperationMoves(l: Lru, p: Policy, op: Operation)
    requires Matched(l)
    ensures Moves(l, p, op, ApplySpec(l, p, op))
  {
    hide Moves, Matched;
    match op
    case GetOp(key) => GetMoves(l, p, key);
    case PutOp(key, bytes) => PutMoves(l, p, key, bytes);
    case RemoveOp(key) => RemoveMoves(l, p, key);
  }

  // ---------------------------------------------------------------- sequences of operations

  /** The list is the order of latest use, and holds the bytes written last. */
  ghost predicate Recent(p: Policy, start: Lru, ops: seq<Operation>, l: Lru) {
    && Matched(l)
    && (forall k :: k in l.content ==> Held(p, start, ops, k) == Some(l.content[k]))
    && forall a, b :: a in l.content && b in l.content && a != b ==>
         (Before(l.order, a, b) <==> UsedEarlier(p, start, ops, a, b))
  }

  lemma StepRecent(p: Policy, start: Lru, ops: seq<Operation>, l: Lru, op: Operation, t: Lru)
    requires Recent(p, start, ops, l) && Moves(l, p, op, t)
    ensures Recent(p, start, ops + [op], t)
  {
    hide Before, Matched;
    var more := ops + [op];
    assert more[..|ops|] == ops;
    forall a, b | a in t.content && b in t.content && a != b
      ensures Before(t.order, a, b) <==> UsedEarlier(p, start, more, a, b)
    {
      LastUseRange(p, ops, a);
      LastUseRange(p, ops, b);
      assert Uses(p, op, a) ==> !Uses(p, op, b);
      assert Matched(t) && (Before(t.order, a, b) <==> !Before(t.order, b, a)) by { OneBefore(t, a, b); }
    }
  }

  lemma OneBefore(l: Lru, a: Key, b: Key)
    requires Matched(l) && a in l.content && b in l.content && a != b
    ensures Before(l.order, a, b) <==> !Before(l.order, b, a)
  {
    InOrder(l, a);
    InOrder(l, b);
    BeforeDistinct(l.order, a, b);
  }

  /** From any opening and through any operations: of two retained keys the less recent is the one whose
      latest use came earlier, and every retained key holds what was written to it last. */
  lemma {:induction false} OrderIsRecency(p: Policy, start: Lru, ops: seq<Operation>)
    requires Matched(start)
    ensures Recent(p, start, ops, RunSpec(start, p, ops))
  {
    if ops == [] {
      hide Before, Matched;
    } else {
      var before, op := ops[..|ops| - 1], ops[|ops| - 1];
      hide Recent, Moves, ApplySpec;
      OrderIsRecency(p, start, before);
      var l := RunSpec(start, p, before);
      assert Matched(l) by { RecentMatched(p, start, before, l); }
      OperationMoves(l, p, op);
      StepRecent(p, start, before, l, op, ApplySpec(l, p, op));
      assert before + [op] == ops;
    }
  }

  lemma RecentMatched(p: Policy, start: Lru, ops: seq<Operation>, l: Lru)
    requires Recent(p, start, ops, l)
    ensures Matched(l)
  {}

  /** Whatever a put evicts was last used before every other key that stays. */
  lemma EvictedUsedEarlier(p: Policy, start: Lru, ops: seq<Operation>, key: Key, bytes: Bytes, e: Key, k: Key)
    requires Matched(start)
    requires e in RunSpec(start, p, ops).content && e !in RunSpec(start, p, ops + [PutOp(key, bytes)]).content
    requires k in RunSpec(start, p, ops + [PutOp(key, bytes)]).content && k != key
    ensures e != key && k in RunSpec(start, p, ops).content && UsedEarlier(p, start, ops, e, k)
  {
    var l := RunSpec(start, p, ops);
    assert (ops + [PutOp(key, bytes)])[..|ops|] == ops;
    OrderIsRecency(p, start, ops);
    hide Before, RunSpec;
    EvictedBefore(l, p, key, bytes, e, k);
  }

  lemma EvictedBefore(l: Lru, p: Policy, key: Key, bytes: Bytes, e: Key, k: Key)
    requires Matched(l) && e in l.content && e !in PutSpec(l, p, key, bytes).content
    requires k in PutSpec(l, p, key, bytes).content && k != key
    ensures e != key && k in l.content && Before(l.order, e, k)
  {
    hide Before, Trim, SizeOf, EvictN;
    PutSurvives(l, p, key, bytes);
    var s := Store(l, key, bytes);
    StoreSize(l, key, bytes);
    var n := TrimShortest(s, p.maxCacheBytes);
    EvictNFacts(s, n);
    hide Without;
    InOrder(PutSpec(l, p, key, bytes), e);
    InOrder(PutSpec(l, p, key, bytes), k);
    InOrder(s, e);
    BeforeSuffix(s.order, n, e, k);
    StoreMoves(l, key, bytes, e, k);
  }

  /** A put that fits beside what is retained evicts nothing. */
  lemma PutThatFits(l: Lru, p: Policy, key: Key, bytes: Bytes)
    requires Matched(l) && Admissible(p, bytes)
    requires Size(l) - (if key in l.content then |l.content[key]| else 0) + |bytes| <= p.maxCacheBytes
    ensures PutSpec(l, p, key, bytes).content == l.content[key := bytes]
  {
    hide SizeOf, Without;
    StoreSize(l, key, bytes);
  }

  // ---------------------------------------------------------------- opening

  lemma {:induction false} RetainedOrder(order: seq<Key>, keys: set<Key>, a: Key, b: Key)
    requires a in keys && b in keys
    ensures Before(Retained(order, keys), a, b) <==> Before(order, a, b)
    ensures forall k :: k in Retained(order, keys) <==> k in order && k in keys
  {
    if order != [] {
      var rest := Retained(order[1..], keys);
      RetainedOrder(order[1..], keys, a, b);
      BeforeHead(order, a, b);
      if order[0] in keys {
        assert Retained(order, keys) == [order[0]] + rest;
        BeforeHead(Retained(order, keys), a, b);
        assert Retained(order, keys)[1..] == rest;
      } else {
        assert Retained(order, keys) == rest;
      }
    }
  }

  lemma KeepMatched(l: Lru, p: Policy)
    requires Matched(l)
    ensures Matched(Keep(l, p))
  {
    var keys := Keep(l, p).content.Keys;
    RetainedDistinct(l.order, keys);
    forall k ensures k in Elements(Retained(l.order, keys)) <==> k in keys {
      if k in keys {
        RetainedOrder(l.order, keys, k, k);
        assert k in Elements(l.order);
      }
    }
  }

  lemma {:induction false} RetainedDistinct(order: seq<Key>, keys: set<Key>)
    ensures forall k :: k in Retained(order, keys) ==> k in order && k in keys
    ensures Distinct(order) ==> Distinct(Retained(order, keys))
  {
    if order != [] {
      RetainedDistinct(order[1..], keys);
      assert Distinct(order) ==> order[0] !in order[1..];
    }
  }

  /** The row is neither empty nor too large to be cached. */
  predicate Fitting(l: Lru, p: Policy, key: Key) {
    key in l.content && 0 < |l.content[key]| <= p.maxCachedObjectBytes
  }

  /** Of what an earlier run left, opening keeps bytes and order, drops what is empty or too large, and
      beyond that only keys less recent than every key that stays; if the rest fits, nothing else. */
  lemma OpeningKeeps(l: Lru, p: Policy)
    requires Matched(l)
    ensures var t := OpenSpec(l, p);
      && Matched(t)
      && (forall k :: k in t.content ==>
            k in l.content && t.content[k] == l.content[k] && 0 < |l.content[k]| <= p.maxCachedObjectBytes)
      && (forall a, b :: a in t.content && b in t.content ==> (Before(t.order, a, b) <==> Before(l.order, a, b)))
      && (forall e, k :: Fitting(l, p, e) && e !in t.content && k in t.content ==> Before(l.order, e, k))
      && (Size(Keep(l, p)) <= p.maxCacheBytes ==> forall e :: Fitting(l, p, e) ==> e in t.content)
  {
    hide Before, Trim, SizeOf, EvictN, Retained;
    KeepMatched(l, p);
    var kept, t := Keep(l, p), OpenSpec(l, p);
    var n := TrimShortest(kept, p.maxCacheBytes);
    EvictNFacts(kept, n);
    if Size(kept) <= p.maxCacheBytes { assert EvictN(kept, 0) == kept by { NoneEvicted(kept); } }
    hide Matched;
    forall e, k | e in kept.content && k in t.content
      ensures e in t.content ==> (Before(t.order, e, k) <==> Before(l.order, e, k))
      ensures e !in t.content ==> Before(l.order, e, k)
    {
      InOrder(t, e);
      InOrder(t, k);
      InOrder(kept, e);
      assert Distinct(kept.order) by { MatchedDistinct(kept); }
      BeforeSuffix(kept.order, n, e, k);
      RetainedOrder(l.order, kept.content.Keys, e, k);
    }
  }

  lemma MatchedDistinct(l: Lru)
    requires Matched(l)
    ensures Distinct(l.order)
  {}

  lemma NoneEvicted(l: Lru)
    ensures EvictN(l, 0) == l
  {}
}
