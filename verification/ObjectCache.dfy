/** The bounded object cache over SQL rows, refined against a list of keys in order of last use.

    Rows of one namespace are ordered by `used` and then by key. Opening accepts any rows a previous
    run may have left, including repeated use counters and a wrong usage record. */
module ObjectCache {
  import opened Ordering
  import opened Objects


  datatype Policy = Policy(maxCachedObjectBytes: nat, maxCacheBytes: nat)
  datatype Row = Row(bytes: Bytes, used: int)
  type Table = map<Key, Row>

  predicate Admissible(p: Policy, bytes: Bytes) {
    0 < |bytes| <= p.maxCachedObjectBytes && |bytes| <= p.maxCacheBytes
  }

  // ---------------------------------------------------------------- the list that specifies it

  /** Keys from least to most recently used, with their bytes. */
  datatype Lru = Lru(order: seq<Key>, content: map<Key, Bytes>)

  function SizeOf(content: map<Key, Bytes>, order: seq<Key>): nat {
    if order == [] then 0
    else (if order[0] in content then |content[order[0]]| else 0) + SizeOf(content, order[1..])
  }

  function Size(l: Lru): nat { SizeOf(l.content, l.order) }

  function Without(order: seq<Key>, key: Key): seq<Key> {
    if order == [] then [] else (if order[0] == key then [] else [order[0]]) + Without(order[1..], key)
  }

  function Drop(l: Lru, key: Key): Lru {
    Lru(Without(l.order, key), l.content - {key})
  }

  /** `key` becomes the most recently used, with these bytes. */
  function Store(l: Lru, key: Key, bytes: Bytes): Lru {
    Lru(Without(l.order, key) + [key], l.content[key := bytes])
  }

  function Touch(l: Lru, key: Key): Lru {
    if key in l.content then Store(l, key, l.content[key]) else l
  }

  function Evict(l: Lru): Lru
    requires l.order != []
  {
    Lru(l.order[1..], l.content - {l.order[0]})
  }

  /** Evicts from the least recently used end until the bound holds. */
  function Trim(l: Lru, max: nat): Lru
    decreases |l.order|
  {
    if Size(l) <= max || l.order == [] then l else Trim(Evict(l), max)
  }

  function Keep(l: Lru, p: Policy): Lru {
    var content := map k | k in l.content && 0 < |l.content[k]| <= p.maxCachedObjectBytes :: l.content[k];
    Lru(Retained(l.order, content.Keys), content)
  }

  function Retained(order: seq<Key>, keys: set<Key>): seq<Key> {
    if order == [] then [] else (if order[0] in keys then [order[0]] else []) + Retained(order[1..], keys)
  }

  function OpenSpec(l: Lru, p: Policy): Lru { Trim(Keep(l, p), p.maxCacheBytes) }

  function PutSpec(l: Lru, p: Policy, key: Key, bytes: Bytes): Lru {
    if Admissible(p, bytes) then Trim(Store(l, key, bytes), p.maxCacheBytes) else l
  }

  // ---------------------------------------------------------------- rows as a list

  function Used(t: Table, key: Key): int { if key in t then t[key].used else 0 }

  function RecencyLe(t: Table): (Key, Key) -> bool {
    (a: Key, b: Key) => Used(t, a) < Used(t, b) || (Used(t, a) == Used(t, b) && CodeUnitLe(a, b))
  }

  lemma RecencyOrder(t: Table)
    ensures TotalPreorder(RecencyLe(t)) && forall members :: AntisymmetricOn(RecencyLe(t), members)
  {
    CodeUnitOrder();
    hide CodeUnitLe;
    var le := RecencyLe(t);
    forall a, b ensures le(a, b) || le(b, a) { assert CodeUnitLe(a, b) || CodeUnitLe(b, a); }
    forall a, b, c | le(a, b) && le(b, c) ensures le(a, c) {
      assert CodeUnitLe(a, b) && CodeUnitLe(b, c) ==> CodeUnitLe(a, c);
    }
  }

  /** The keys in the order `ORDER BY used, key` returns them. */
  ghost function Recency(t: Table): (order: seq<Key>)
    ensures Lists(RecencyLe(t), order, t.Keys)
  {
    RecencyOrder(t);
    Listing(RecencyLe(t), t.Keys)
  }

  lemma RecencyIs(t: Table, order: seq<Key>)
    requires Lists(RecencyLe(t), order, t.Keys)
    ensures order == Recency(t)
  {
    RecencyOrder(t);
    ListingUnique(RecencyLe(t), order, Recency(t), t.Keys);
  }

  function Contents(t: Table): map<Key, Bytes> { map k | k in t :: t[k].bytes }

  ghost function LruOf(t: Table): Lru { Lru(Recency(t), Contents(t)) }

  lemma {:induction false} WithoutFacts(order: seq<Key>, key: Key)
    ensures forall x :: x in Without(order, key) <==> x in order && x != key
    ensures Distinct(order) ==> Distinct(Without(order, key))
  {
    if order != [] {
      WithoutFacts(order[1..], key);
      var rest := Without(order[1..], key);
      assert forall x :: x in order <==> x == order[0] || x in order[1..];
      if Distinct(order) { assert order[0] !in order[1..]; }
    }
  }

  lemma {:induction false} WithoutSorted(le: (Key, Key) -> bool, order: seq<Key>, key: Key)
    requires Sorted(le, order)
    ensures Sorted(le, Without(order, key))
  {
    if order != [] {
      WithoutSorted(le, order[1..], key);
      WithoutFacts(order[1..], key);
      assert forall x :: x in order[1..] ==> le(order[0], x);
    }
  }

  lemma SortedTransfers(t: Table, u: Table, order: seq<Key>)
    requires Sorted(RecencyLe(t), order) && forall x :: x in order ==> Used(t, x) == Used(u, x)
    ensures Sorted(RecencyLe(u), order)
  {
    forall i, j | 0 <= i < j < |order| ensures RecencyLe(u)(order[i], order[j]) {
      assert RecencyLe(t)(order[i], order[j]);
      assert order[i] in order && order[j] in order;
    }
  }

  /** Deleting a row takes its key out of the list. */
  lemma DeleteRow(t: Table, key: Key)
    ensures LruOf(t - {key}) == Drop(LruOf(t), key)
  {
    var u := t - {key};
    WithoutListing(RecencyLe(t), Recency(t), t.Keys, key);
    ListingTransfers(t, u, Without(Recency(t), key), u.Keys);
    hide RecencyLe, Without, Recency, Lists;
    assert t.Keys - {key} == u.Keys;
    RecencyIs(u, Without(Recency(t), key));
    assert Contents(u) == Contents(t) - {key};
  }

  /** Taking one key out of a listing leaves a listing of the others. */
  lemma WithoutListing(le: (Key, Key) -> bool, order: seq<Key>, members: set<Key>, key: Key)
    requires Lists(le, order, members)
    ensures Lists(le, Without(order, key), members - {key})
  {
    WithoutFacts(order, key);
    WithoutSorted(le, order, key);
    hide Sorted, Distinct, Without;
    assert forall x :: x in Elements(order) <==> x in order;
  }

  lemma ListingTransfers(t: Table, u: Table, order: seq<Key>, members: set<Key>)
    requires Lists(RecencyLe(t), order, members) && forall x :: x in members ==> Used(t, x) == Used(u, x)
    ensures Lists(RecencyLe(u), order, members)
  {
    hide Used, RecencyLe, Sorted, Distinct;
    assert forall x :: x in order ==> x in Elements(order);
    SortedTransfers(t, u, order);
  }

  lemma WrittenListing(t: Table, key: Key, row: Row)
    requires forall k :: k in t ==> t[k].used < row.used
    ensures Lists(RecencyLe(t[key := row]), Without(Recency(t), key) + [key], t.Keys + {key})
  {
    var u, kept := t[key := row], Without(Recency(t), key);
    WithoutListing(RecencyLe(t), Recency(t), t.Keys, key);
    ListingTransfers(t, u, kept, t.Keys - {key});
    forall x | x in t.Keys - {key} ensures RecencyLe(u)(x, key) { assert Used(u, x) < Used(u, key); }
    hide RecencyLe, Without, Recency;
    assert t.Keys + {key} == (t.Keys - {key}) + {key};
    AppendLast(RecencyLe(u), kept, t.Keys - {key}, key);
  }

  lemma AppendLast(le: (Key, Key) -> bool, kept: seq<Key>, members: set<Key>, key: Key)
    requires Lists(le, kept, members) && key !in members && forall x :: x in members ==> le(x, key)
    ensures Lists(le, kept + [key], members + {key})
  {
    assert forall x :: x in kept <==> x in Elements(kept);
  }

  /** Writing a row with a counter above all others puts its key last. */
  lemma WriteRow(t: Table, key: Key, row: Row)
    requires forall k :: k in t ==> t[k].used < row.used
    ensures LruOf(t[key := row]) == Store(LruOf(t), key, row.bytes)
  {
    hide Lists, RecencyLe, Recency, Without;
    var u := t[key := row];
    WrittenListing(t, key, row);
    assert u.Keys == t.Keys + {key};
    RecencyIs(u, Without(Recency(t), key) + [key]);
    assert Contents(u) == Contents(t)[key := row.bytes];
  }

  function KeptRows(t: Table, p: Policy): Table {
    map k | k in t && 0 < |t[k].bytes| <= p.maxCachedObjectBytes :: t[k]
  }

  lemma {:induction false} RetainedFacts(le: (Key, Key) -> bool, order: seq<Key>, keys: set<Key>)
    requires Sorted(le, order) && Distinct(order)
    ensures forall x :: x in Retained(order, keys) <==> x in order && x in keys
    ensures Sorted(le, Retained(order, keys)) && Distinct(Retained(order, keys))
  {
    if order != [] {
      RetainedFacts(le, order[1..], keys);
      assert forall x :: x in order <==> x == order[0] || x in order[1..];
      assert forall x :: x in order[1..] ==> le(order[0], x) && x != order[0];
    }
  }

  /** Deleting the rows that are empty or over the object bound keeps the others in order. */
  lemma DeleteInadmissible(t: Table, p: Policy)
    ensures LruOf(KeptRows(t, p)) == Keep(LruOf(t), p)
  {
    var u, order := KeptRows(t, p), Recency(t);
    assert Contents(u) == Keep(LruOf(t), p).content;
    RetainedFacts(RecencyLe(t), order, u.Keys);
    hide Sorted, Distinct;
    SortedTransfers(t, u, Retained(order, u.Keys));
    assert Elements(Retained(order, u.Keys)) == u.Keys by { assert Elements(order) == t.Keys; }
    RecencyIs(u, Retained(order, u.Keys));
    assert u.Keys == Contents(u).Keys;
  }

  // ---------------------------------------------------------------- sizes and eviction

  ghost predicate Matched(l: Lru) {
    Distinct(l.order) && Elements(l.order) == l.content.Keys
  }

  lemma LruMatched(t: Table)
    ensures Matched(LruOf(t))
  {}

  lemma {:induction false} SizeFrame(content: map<Key, Bytes>, more: map<Key, Bytes>, order: seq<Key>)
    requires forall k :: k in order ==> k in content && k in more && content[k] == more[k]
    ensures SizeOf(content, order) == SizeOf(more, order)
  {
    if order != [] { SizeFrame(content, more, order[1..]); }
  }

  lemma {:induction false} SizeAppend(content: map<Key, Bytes>, a: seq<Key>, b: seq<Key>)
    ensures SizeOf(content, a + b) == SizeOf(content, a) + SizeOf(content, b)
  {
    if a == [] {
      assert a + b == b;
    } else {
      assert (a + b)[1..] == a[1..] + b;
      SizeAppend(content, a[1..], b);
    }
  }

  lemma EmptySize(content: map<Key, Bytes>)
    ensures SizeOf(content, []) == 0
  {}

  lemma SizeStep(content: map<Key, Bytes>, order: seq<Key>, i: nat)
    requires i < |order| && order[i] in content
    ensures SizeOf(content, order[..i + 1]) == SizeOf(content, order[..i]) + |content[order[i]]|
  {
    assert order[..i + 1] == order[..i] + [order[i]];
    SizeAppend(content, order[..i], [order[i]]);
    assert [order[i]][1..] == [];
  }

  lemma {:induction false} SizeWithout(content: map<Key, Bytes>, order: seq<Key>, key: Key)
    requires Distinct(order) && key in content && key in order
    ensures SizeOf(content, Without(order, key)) == SizeOf(content, order) - |content[key]|
  {
    if order[0] == key {
      WithoutAbsent(order[1..], key);
      assert Without(order, key) == order[1..];
    } else {
      SizeWithout(content, order[1..], key);
    }
  }

  lemma {:induction false} WithoutAbsent(order: seq<Key>, key: Key)
    requires key !in order
    ensures Without(order, key) == order
  {
    if order != [] { WithoutAbsent(order[1..], key); }
  }

  lemma DropSize(l: Lru, key: Key)
    requires Matched(l)
    ensures Size(Drop(l, key)) == Size(l) - (if key in l.content then |l.content[key]| else 0)
    ensures Matched(Drop(l, key))
  {
    WithoutFacts(l.order, key);
    assert forall x :: x in l.order <==> x in Elements(l.order);
    SizeFrame(l.content, l.content - {key}, Without(l.order, key));
    if key in l.content {
      SizeWithout(l.content, l.order, key);
    } else {
      WithoutAbsent(l.order, key);
    }
  }

  lemma StoreSize(l: Lru, key: Key, bytes: Bytes)
    requires Matched(l)
    ensures Size(Store(l, key, bytes)) == Size(l) - (if key in l.content then |l.content[key]| else 0) + |bytes|
    ensures Matched(Store(l, key, bytes))
  {
    hide Without, SizeOf;
    DropSize(l, key);
    var kept, content := Without(l.order, key), l.content[key := bytes];
    assert forall x :: x in kept <==> x in Elements(kept);
    SizeFrame(l.content - {key}, content, kept);
    SizeAppend(content, kept, [key]);
    LastSize(content, key);
    assert forall x :: x in Elements(kept + [key]) <==> x in kept || x == key;
  }

  lemma LastSize(content: map<Key, Bytes>, key: Key)
    requires key in content
    ensures SizeOf(content, [key]) == |content[key]|
  {
    assert [key][1..] == [];
  }

  lemma TailMatched(l: Lru)
    requires Matched(l) && l.order != []
    ensures Matched(Evict(l))
    ensures Size(Evict(l)) == Size(l) - |l.content[l.order[0]]|
  {
    assert l.order[0] in Elements(l.order);
    assert Without(l.order, l.order[0]) == l.order[1..] by { WithoutAbsent(l.order[1..], l.order[0]); }
    DropSize(l, l.order[0]);
  }

  function EvictN(l: Lru, n: nat): Lru
    requires n <= |l.order|
    decreases n
  {
    if n == 0 then l else EvictN(Evict(l), n - 1)
  }

  /** Eviction removes the shortest least recently used prefix that restores the bound. */
  lemma {:induction false} TrimShortest(l: Lru, max: nat) returns (n: nat)
    ensures n <= |l.order| && Trim(l, max) == EvictN(l, n)
    ensures Size(EvictN(l, n)) <= max
    ensures forall m :: 0 <= m < n ==> Size(EvictN(l, m)) > max
    decreases |l.order|
  {
    if Size(l) <= max || l.order == [] {
      n := 0;
    } else {
      hide SizeOf;
      var k := TrimShortest(Evict(l), max);
      n := k + 1;
      forall m | 0 < m < n ensures Size(EvictN(l, m)) > max {
        assert EvictN(l, m) == EvictN(Evict(l), m - 1);
      }
    }
  }

  /** What is left after evicting `n` keys: the rest of the list, with its bytes. */
  lemma EvictNFacts(l: Lru, n: nat)
    requires Matched(l) && n <= |l.order|
    ensures Matched(EvictN(l, n)) && EvictN(l, n).order == l.order[n..]
    ensures forall k :: k in EvictN(l, n).content ==> k in l.content && EvictN(l, n).content[k] == l.content[k]
  {
    EvictNOrder(l, n);
    EvictNContent(l, n);
  }

  lemma {:induction false} EvictNOrder(l: Lru, n: nat)
    requires Matched(l) && n <= |l.order|
    ensures Matched(EvictN(l, n)) && EvictN(l, n).order == l.order[n..]
    decreases n
  {
    if n > 0 {
      TailMatched(l);
      hide Matched, SizeOf;
      assert l.order[1..][n - 1..] == l.order[n..];
      EvictNOrder(Evict(l), n - 1);
    }
  }

  lemma {:induction false} EvictNContent(l: Lru, n: nat)
    requires n <= |l.order|
    ensures forall k :: k in EvictN(l, n).content ==> k in l.content && EvictN(l, n).content[k] == l.content[k]
    decreases n
  {
    if n > 0 { EvictNContent(Evict(l), n - 1); }
  }

  /** A put that is admitted survives its own eviction, as the most recently used key. */
  lemma PutSurvives(l: Lru, p: Policy, key: Key, bytes: Bytes)
    requires Matched(l) && Admissible(p, bytes)
    ensures var r := PutSpec(l, p, key, bytes);
      && key in r.content && r.content[key] == bytes
      && r.order != [] && r.order[|r.order| - 1] == key
      && Size(r) <= p.maxCacheBytes
  {
    hide Trim, SizeOf, EvictN, Without, Distinct;
    var s := Store(l, key, bytes);
    StoreSize(l, key, bytes);
    var n := TrimShortest(s, p.maxCacheBytes);
    var last := |s.order| - 1;
    assert n <= last by {
      OnlyLastLeft(s, key);
      assert Size(EvictN(s, last)) <= p.maxCacheBytes;
    }
    EvictNFacts(s, n);
    var r := EvictN(s, n);
    assert r.order[|r.order| - 1] == key;
    assert key in Elements(r.order);
  }

  lemma OnlyLastLeft(s: Lru, key: Key)
    requires Matched(s) && s.order != [] && s.order[|s.order| - 1] == key
    ensures key in s.content && Size(EvictN(s, |s.order| - 1)) == |s.content[key]|
  {
    hide EvictN, Distinct;
    var last := |s.order| - 1;
    EvictNFacts(s, last);
    assert s.order[last..] == [key];
    assert key in Elements([key]);
    LastSize(EvictN(s, last).content, key);
  }

  // ---------------------------------------------------------------- which key is older

  /** `a` is less recently used than `b`. */
  ghost predicate Before(order: seq<Key>, a: Key, b: Key) {
    exists i, j :: 0 <= i < j < |order| && order[i] == a && order[j] == b
  }

  lemma BeforeHead(order: seq<Key>, a: Key, b: Key)
    requires order != []
    ensures Before(order, a, b) <==> (order[0] == a && b in order[1..]) || Before(order[1..], a, b)
  {
    var rest := order[1..];
    assert forall j :: 0 < j < |order| ==> rest[j - 1] == order[j];
    if i, j :| 0 <= i < j < |order| && order[i] == a && order[j] == b {
      if i > 0 { assert rest[i - 1] == a && rest[j - 1] == b; }
    }
    if order[0] == a && b in rest {
      var j :| 0 <= j < |rest| && rest[j] == b;
      assert order[0] == a && order[j + 1] == b;
    }
    if i, j :| 0 <= i < j < |rest| && rest[i] == a && rest[j] == b { assert order[i + 1] == a && order[j + 1] == b; }
  }

  lemma {:induction false} BeforeWithout(order: seq<Key>, key: Key, a: Key, b: Key)
    requires a != key && b != key
    ensures Before(Without(order, key), a, b) <==> Before(order, a, b)
  {
    if order != [] {
      BeforeWithout(order[1..], key, a, b);
      BeforeHead(order, a, b);
      WithoutFacts(order[1..], key);
      var rest := Without(order[1..], key);
      if order[0] != key {
        assert Without(order, key) == [order[0]] + rest;
        BeforeHead(Without(order, key), a, b);
        assert Without(order, key)[1..] == rest;
      } else {
        assert Without(order, key) == rest;
      }
    }
  }

  lemma BeforeAppend(order: seq<Key>, key: Key, a: Key, b: Key)
    ensures Before(order + [key], a, b) <==> Before(order, a, b) || (b == key && a in order)
  {
    var more := order + [key];
    assert forall j :: 0 <= j < |order| ==> more[j] == order[j];
    if a in order {
      var i :| 0 <= i < |order| && order[i] == a;
      assert more[i] == a && more[|order|] == key;
    }
    if i, j :| 0 <= i < j < |order| && order[i] == a && order[j] == b { assert more[i] == a && more[j] == b; }
  }

  lemma BeforeDistinct(order: seq<Key>, a: Key, b: Key)
    requires Distinct(order) && a in order && b in order && a != b
    ensures Before(order, a, b) <==> !Before(order, b, a)
  {
    var i :| 0 <= i < |order| && order[i] == a;
    var j :| 0 <= j < |order| && order[j] == b;
    assert i < j || j < i;
  }

  /** What is left of the list after its first `n` keys keeps its order, and what is gone came before. */
  lemma BeforeSuffix(order: seq<Key>, n: nat, a: Key, b: Key)
    requires Distinct(order) && n <= |order| && b in order[n..]
    ensures a in order[n..] ==> (Before(order[n..], a, b) <==> Before(order, a, b))
    ensures a in order && a !in order[n..] ==> Before(order, a, b)
  {
    var rest := order[n..];
    assert forall j :: n <= j < |order| ==> order[j] == rest[j - n];
    var j :| 0 <= j < |rest| && rest[j] == b;
    assert order[n + j] == b;
    if a in rest {
      var i :| 0 <= i < |rest| && rest[i] == a;
      assert order[n + i] == a;
      if Before(order, a, b) {
        var k, m :| 0 <= k < m < |order| && order[k] == a && order[m] == b;
        assert rest[i] == a && rest[j] == b;
      }
      if k, m :| 0 <= k < m < |rest| && rest[k] == a && rest[m] == b { assert order[n + k] == a && order[n + m] == b; }
    } else if a in order {
      assert order == order[..n] + rest;
      var i :| 0 <= i < n && order[..n][i] == a;
      assert order[i] == a;
    }
  }

  /** `key` has become the most recently used, and nothing else has changed. */
  ghost predicate UsedLast(l: Lru, t: Lru, key: Key) {
    && t.content == l.content && t.order != [] && t.order[|t.order| - 1] == key
    && forall a, b :: a != key && b != key ==> (Before(t.order, a, b) <==> Before(l.order, a, b))
  }

  lemma TouchUsesLast(l: Lru, key: Key)
    requires Matched(l) && key in l.content
    ensures UsedLast(l, Touch(l, key), key)
  {
    hide Before;
    var t := Touch(l, key);
    assert t.content == l.content;
    forall a, b | a != key && b != key ensures Before(t.order, a, b) <==> Before(l.order, a, b) {
      BeforeWithout(l.order, key, a, b);
      BeforeAppend(Without(l.order, key), key, a, b);
    }
  }

  /** `key` is gone, and nothing else has changed. */
  ghost predicate Dropped(l: Lru, t: Lru, key: Key) {
    && t.content.Keys == l.content.Keys - {key} && (forall k :: k in t.content ==> t.content[k] == l.content[k])
    && forall a, b :: a != key && b != key ==> (Before(t.order, a, b) <==> Before(l.order, a, b))
  }

  lemma DropDrops(l: Lru, key: Key)
    ensures Dropped(l, Drop(l, key), key)
  {
    hide Before;
    forall a, b | a != key && b != key ensures Before(Drop(l, key).order, a, b) <==> Before(l.order, a, b) {
      BeforeWithout(l.order, key, a, b);
    }
  }

  // ---------------------------------------------------------------- the cache over its tables

  /** Other namespaces keep their rows and usage record. */
  ghost predicate OthersUntouched<V>(namespace: string, before: map<string, V>, after: map<string, V>) {
    forall n :: n != namespace ==> (n in before <==> n in after) && (n in before ==> after[n] == before[n])
  }

  class SqlObjectCache {
    const namespace: string
    const policy: Policy
    var rows: map<string, Table>
    var usage: map<string, int>

    function Rows(): Table
      reads this
    {
      if namespace in rows then rows[namespace] else map[]
    }

    ghost function View(): Lru
      reads this
    {
      LruOf(Rows())
    }

    /** The usage record is the sum of the row sizes and within the bound. */
    ghost predicate Valid()
      reads this
    {
      namespace in usage && usage[namespace] == Size(View()) <= policy.maxCacheBytes
    }

    /** Start-up over whatever an earlier run left in the tables. */
    constructor (name: string, p: Policy, oldRows: map<string, Table>, oldUsage: map<string, int>)
      ensures Valid() && namespace == name && policy == p
      ensures View() == OpenSpec(LruOf(if name in oldRows then oldRows[name] else map[]), p)
      ensures OthersUntouched(name, oldRows, rows) && OthersUntouched(name, oldUsage, usage)
    {
      namespace, policy, rows, usage := name, p, oldRows, oldUsage;
      new;
      ghost var before := Rows();
      DeleteInadmissible(before, p);
      SetRows(KeptRows(Rows(), policy));
      var total := SumSizes();
      usage := usage[namespace := total];
      Prune();
    }

    method SetRows(table: Table)
      modifies this`rows
      ensures Rows() == table && OthersUntouched(namespace, old(rows), rows)
    {
      rows := rows[namespace := table];
    }

    /** `SELECT SUM(length(bytes))`. */
    method SumSizes() returns (total: nat)
      ensures total == Size(View())
    {
      RecencyOrder(Rows());
      var order := ListSet(RecencyLe(Rows()), Rows().Keys);
      RecencyIs(Rows(), order);
      ghost var content := Contents(Rows());
      assert forall k :: k in order ==> k in Elements(order);
      hide RecencyLe, Recency, Lists, SizeOf;
      total := 0;
      assert order[..0] == [] && SizeOf(content, []) == 0 by { EmptySize(content); }
      for i := 0 to |order|
        invariant total == SizeOf(content, order[..i])
      {
        SizeStep(content, order, i);
        assert order[i] in order;
        total := total + |Rows()[order[i]].bytes|;
      }
      assert order[..|order|] == order;
    }

    /** `SELECT key ORDER BY used, key LIMIT 1`. */
    method LeastRecent() returns (key: Key)
      requires Rows() != map[]
      ensures key in Rows() && View().order != [] && key == View().order[0]
      ensures forall k :: k in Rows() ==>
        Rows()[key].used < Rows()[k].used || (Rows()[key].used == Rows()[k].used && ReadsBefore(key, k))
    {
      RecencyOrder(Rows());
      var order := ListSet(RecencyLe(Rows()), Rows().Keys);
      RecencyIs(Rows(), order);
      EmptyListing(RecencyLe(Rows()), order, Rows().Keys);
      key := order[0];
      assert key in Elements(order);
      FirstIsLeast(Rows(), order);
    }

    /** Deletes rows, least recently used first, until the retained bytes fit the bound. */
    method Prune()
      requires namespace in usage && usage[namespace] == Size(View())
      modifies this
      ensures Valid() && View() == Trim(old(View()), policy.maxCacheBytes)
      ensures OthersUntouched(namespace, old(rows), rows) && OthersUntouched(namespace, old(usage), usage)
    {
      var retained := usage[namespace];
      LruMatched(Rows());
      while retained > policy.maxCacheBytes
        invariant retained == Size(View()) && Matched(View())
        invariant Trim(View(), policy.maxCacheBytes) == Trim(old(View()), policy.maxCacheBytes)
        invariant OthersUntouched(namespace, old(rows), rows) && usage == old(usage)
        decreases |View().order|
      {
        ghost var before := View();
        RowsLeft(Rows());
        var key := LeastRecent();
        var size := |Rows()[key].bytes|;
        TailMatched(before);
        EvictIsDrop(before);
        DeleteRow(Rows(), key);
        SetRows(Rows() - {key});
        retained := retained - size;
        assert View() == Evict(before);
      }
      usage := usage[namespace := retained];
    }

    /** One more than the largest counter in use, or 1. */
    method NextUse() returns (used: int)
      ensures forall k :: k in Rows() ==> Rows()[k].used < used
      ensures if Rows() == map[] then used == 1 else exists k :: k in Rows() && used == Rows()[k].used + 1
    {
      var rest := Rows().Keys;
      if rest == {} { return 1; }
      var first :| first in rest;
      used, rest := Rows()[first].used + 1, rest - {first};
      while rest != {}
        invariant rest <= Rows().Keys
        invariant forall k :: k in Rows() && k !in rest ==> Rows()[k].used < used
        invariant exists k :: k in Rows() && used == Rows()[k].used + 1
        decreases rest
      {
        var key :| key in rest;
        if Rows()[key].used >= used { used := Rows()[key].used + 1; }
        rest := rest - {key};
      }
    }

    method Get(key: Key) returns (bytes: Option<Bytes>)
      requires Valid()
      modifies this`rows
      ensures Valid() && View() == Touch(old(View()), key)
      ensures bytes == if key in old(View()).content then Some(old(View()).content[key]) else None
      ensures bytes.Some? ==> UsedLast(old(View()), View(), key)
      ensures bytes.None? ==> View() == old(View())
      ensures OthersUntouched(namespace, old(rows), rows)
    {
      if key !in Rows() { return None; }
      var row := Rows()[key];
      bytes := Some(row.bytes);
      var used := NextUse();
      WriteRow(Rows(), key, row.(used := used));
      LruMatched(Rows());
      StoreSize(View(), key, row.bytes);
      TouchUsesLast(View(), key);
      SetRows(Rows()[key := row.(used := used)]);
    }

    method Put(key: Key, bytes: Bytes)
      requires Valid()
      modifies this
      ensures Valid() && View() == PutSpec(old(View()), policy, key, bytes)
      ensures OthersUntouched(namespace, old(rows), rows) && OthersUntouched(namespace, old(usage), usage)
    {
      if !Admissible(policy, bytes) { return; }
      var used := NextUse();
      var previous := if key in Rows() then |Rows()[key].bytes| else 0;
      WriteRow(Rows(), key, Row(bytes, used));
      LruMatched(Rows());
      StoreSize(View(), key, bytes);
      SetRows(Rows()[key := Row(bytes, used)]);
      usage := usage[namespace := usage[namespace] + |bytes| - previous];
      Prune();
    }

    method Remove(key: Key)
      requires Valid()
      modifies this
      ensures Valid() && View() == Drop(old(View()), key) && Dropped(old(View()), View(), key)
      ensures OthersUntouched(namespace, old(rows), rows) && OthersUntouched(namespace, old(usage), usage)
    {
      var removed := if key in Rows() then |Rows()[key].bytes| else 0;
      DeleteRow(Rows(), key);
      LruMatched(Rows());
      DropSize(View(), key);
      DropDrops(View(), key);
      SetRows(Rows() - {key});
      usage := usage[namespace := usage[namespace] - removed];
    }
  }

  lemma FirstIsLeast(t: Table, order: seq<Key>)
    requires Lists(RecencyLe(t), order, t.Keys) && order != []
    ensures order[0] in t
    ensures forall k :: k in t ==>
      t[order[0]].used < t[k].used || (t[order[0]].used == t[k].used && ReadsBefore(order[0], k))
  {
    assert order[0] in Elements(order);
    forall k | k in t
      ensures t[order[0]].used < t[k].used || (t[order[0]].used == t[k].used && ReadsBefore(order[0], k))
    {
      CodeUnitMeaning(order[0], k);
      assert k in Elements(order);
      var i :| 0 <= i < |order| && order[i] == k;
      var le := RecencyLe(t);
      if i > 0 { assert le(order[0], order[i]); }
    }
  }

  lemma RowsLeft(t: Table)
    requires Size(LruOf(t)) > 0
    ensures t != map[] && LruOf(t).order != []
  {
    if LruOf(t).order != [] {
      assert LruOf(t).order[0] in Elements(Recency(t));
    }
  }

  lemma EvictIsDrop(l: Lru)
    requires Matched(l) && l.order != []
    ensures Evict(l) == Drop(l, l.order[0])
  {
    WithoutAbsent(l.order[1..], l.order[0]);
    assert Without(l.order, l.order[0]) == l.order[1..];
  }

  // ---------------------------------------------------------------- sequences of operations

  datatype Operation = GetOp(key: Key) | PutOp(key: Key, bytes: Bytes) | RemoveOp(key: Key)

  function ApplySpec(l: Lru, p: Policy, op: Operation): Lru {
    match op
    case GetOp(key) => Touch(l, key)
    case PutOp(key, bytes) => PutSpec(l, p, key, bytes)
    case RemoveOp(key) => Drop(l, key)
  }

  function RunSpec(l: Lru, p: Policy, ops: seq<Operation>): Lru {
    if ops == [] then l else ApplySpec(RunSpec(l, p, ops[..|ops| - 1]), p, ops[|ops| - 1])
  }

  /** The cache performs any sequence of operations exactly as the list does. */
  method Perform(cache: SqlObjectCache, ops: seq<Operation>)
    requires cache.Valid()
    modifies cache
    ensures cache.Valid() && cache.View() == RunSpec(old(cache.View()), cache.policy, ops)
    ensures OthersUntouched(cache.namespace, old(cache.rows), cache.rows)
  {
    for i := 0 to |ops|
      invariant cache.Valid() && cache.View() == RunSpec(old(cache.View()), cache.policy, ops[..i])
      invariant OthersUntouched(cache.namespace, old(cache.rows), cache.rows)
    {
      assert ops[..i + 1][..i] == ops[..i];
      match ops[i]
      case GetOp(key) => var _ := cache.Get(key);
      case PutOp(key, bytes) => cache.Put(key, bytes);
      case RemoveOp(key) => cache.Remove(key);
    }
    assert ops[..|ops|] == ops;
  }

  /** After opening on any rows and running any operations, the retained bytes fit the bound and
      every retained object is one the policy admits. */
  lemma {:induction false} AlwaysWithinBounds(t: Table, p: Policy, ops: seq<Operation>)
    ensures var l := RunSpec(OpenSpec(LruOf(t), p), p, ops);
      Bounded(l, p)
  {
    if ops == [] {
      LruMatched(KeptRows(t, p));
      DeleteInadmissible(t, p);
      TrimKeeps(Keep(LruOf(t), p), p);
    } else {
      var before, op := ops[..|ops| - 1], ops[|ops| - 1];
      AlwaysWithinBounds(t, p, before);
      hide OpenSpec;
      StepWithinBounds(RunSpec(OpenSpec(LruOf(t), p), p, before), p, op);
    }
  }

  ghost predicate Bounded(l: Lru, p: Policy) {
    Matched(l) && Size(l) <= p.maxCacheBytes && forall k :: k in l.content ==>
        0 < |l.content[k]| <= p.maxCachedObjectBytes
  }

  lemma TrimKeeps(l: Lru, p: Policy)
    requires Matched(l) && forall k :: k in l.content ==> 0 < |l.content[k]| <= p.maxCachedObjectBytes
    ensures Bounded(Trim(l, p.maxCacheBytes), p)
  {
    hide SizeOf, Trim, EvictN, Matched;
    var n := TrimShortest(l, p.maxCacheBytes);
    EvictNFacts(l, n);
  }

  lemma StepWithinBounds(l: Lru, p: Policy, op: Operation)
    requires Bounded(l, p)
    ensures Bounded(ApplySpec(l, p, op), p)
  {
    match op
    case GetOp(key) => if key in l.content { StoreSize(l, key, l.content[key]); }
    case RemoveOp(key) => DropSize(l, key);
    case PutOp(key, bytes) =>
      if Admissible(p, bytes) {
        StoreSize(l, key, bytes);
        TrimKeeps(Store(l, key, bytes), p);
      }
  }
}
