/** The append-only event log every store implements: keyed events are kept once, and an append may
    insist on the head it expects. */
module EventLog {
  import opened Ordering

  datatype Event = Event(kind: string, body: string)
  type Log = seq<Event>
  type KeyOf = Event -> Option<string>

  predicate Present(keyOf: KeyOf, log: Log, key: string) {
    exists i :: 0 <= i < |log| && keyOf(log[i]) == Some(key)
  }

  predicate Duplicate(keyOf: KeyOf, log: Log, e: Event) {
    keyOf(e).Some? && Present(keyOf, log, keyOf(e).value)
  }

  function AddOne(keyOf: KeyOf, log: Log, e: Event): Log {
    if Duplicate(keyOf, log, e) then log else log + [e]
  }

  function AddAll(keyOf: KeyOf, log: Log, events: seq<Event>): Log {
    if events == [] then log else AddOne(keyOf, AddAll(keyOf, log, events[..|events| - 1]), events[|events| - 1])
  }

  function AppendSpec(keyOf: KeyOf, log: Log, events: seq<Event>, expected: Option<nat>): Log {
    if expected.Some? && expected.value != |log| then log else AddAll(keyOf, log, events)
  }

  datatype AppendResult = AppendResult(appended: nat, head: nat)

  /** What an append reports about the log before and after it. */
  predicate Reports(r: AppendResult, before: Log, after: Log) {
    r.head == |after| && r.appended + |before| == |after|
  }

  // ---------------------------------------------------------------- what the log guarantees

  ghost predicate KeysOnce(keyOf: KeyOf, log: Log) {
    forall i, j :: 0 <= i < j < |log| && keyOf(log[i]).Some? ==> keyOf(log[i]) != keyOf(log[j])
  }

  lemma {:induction false} AddAllKeeps(keyOf: KeyOf, log: Log, events: seq<Event>)
    ensures log <= AddAll(keyOf, log, events)
    ensures KeysOnce(keyOf, log) ==> KeysOnce(keyOf, AddAll(keyOf, log, events))
    ensures |AddAll(keyOf, log, events)| <= |log| + |events|
  {
    if events != [] {
      AddAllKeeps(keyOf, log, events[..|events| - 1]);
    }
  }

  /** Every keyed event of a batch is in the log afterwards, and nothing comes from elsewhere. */
  lemma {:induction false} AddAllCovers(keyOf: KeyOf, log: Log, events: seq<Event>)
    ensures forall e :: e in events ==>
      if keyOf(e).Some? then Duplicate(keyOf, AddAll(keyOf, log, events), e) else e in AddAll(keyOf, log, events)
    ensures forall i :: |log| <= i < |AddAll(keyOf, log, events)| ==> AddAll(keyOf, log, events)[i] in events
  {
    if events != [] {
      var prefix, last := events[..|events| - 1], events[|events| - 1];
      var mid, end := AddAll(keyOf, log, prefix), AddAll(keyOf, log, events);
      AddAllCovers(keyOf, log, prefix);
      AddAllKeeps(keyOf, log, prefix);
      StillPresent(keyOf, mid, end);
      assert !Duplicate(keyOf, mid, last) ==> end[|mid|] == last;
      forall e | e in events ensures if keyOf(e).Some? then Duplicate(keyOf, end, e) else e in end {
        if e != last { assert e in prefix; }
      }
    }
  }

  lemma StillPresent(keyOf: KeyOf, log: Log, more: Log)
    requires log <= more
    ensures forall e :: Duplicate(keyOf, log, e) ==> Duplicate(keyOf, more, e)
    ensures forall e :: e in log ==> e in more
  {
    forall e | Duplicate(keyOf, log, e) ensures Duplicate(keyOf, more, e) {
      var i :| 0 <= i < |log| && keyOf(log[i]) == Some(keyOf(e).value);
      assert more[i] == log[i];
    }
  }

  /** Appending a concatenation is appending its parts in order. */
  lemma {:induction false} AppendConcat(keyOf: KeyOf, log: Log, a: seq<Event>, b: seq<Event>)
    ensures AddAll(keyOf, log, a + b) == AddAll(keyOf, AddAll(keyOf, log, a), b)
  {
    if b == [] {
      assert a + b == a;
    } else {
      assert (a + b)[..|a + b| - 1] == a + b[..|b| - 1];
      AppendConcat(keyOf, log, a, b[..|b| - 1]);
    }
  }

  /** Repeating a batch whose events all carry keys appends nothing. */
  lemma AppendTwice(keyOf: KeyOf, log: Log, events: seq<Event>)
    requires forall e :: e in events ==> keyOf(e).Some?
    ensures AddAll(keyOf, AddAll(keyOf, log, events), events) == AddAll(keyOf, log, events)
  {
    AddAllCovers(keyOf, log, events);
    AddNothing(keyOf, AddAll(keyOf, log, events), events);
  }

  lemma {:induction false} AddNothing(keyOf: KeyOf, log: Log, events: seq<Event>)
    requires forall e :: e in events ==> Duplicate(keyOf, log, e)
    ensures AddAll(keyOf, log, events) == log
  {
    if events != [] { AddNothing(keyOf, log, events[..|events| - 1]); }
  }

  /** An event is new when it carries no key, or one that neither the log nor an earlier event of the
      batch carries. */
  ghost predicate New(keyOf: KeyOf, log: Log, events: seq<Event>, i: nat)
    requires i < |events|
  {
    keyOf(events[i]).Some? ==>
      && (forall j :: 0 <= j < |log| ==> keyOf(log[j]) != keyOf(events[i]))
      && (forall j :: 0 <= j < i ==> keyOf(events[j]) != keyOf(events[i]))
  }

  /** The new ones among the first `n` events of a batch, in order. */
  ghost function NewOnes(keyOf: KeyOf, log: Log, events: seq<Event>, n: nat): seq<Event>
    requires n <= |events|
  {
    if n == 0 then []
    else NewOnes(keyOf, log, events, n - 1) + if New(keyOf, log, events, n - 1) then [events[n - 1]] else []
  }

  /** What a key finds in the log after some of a batch was added. */
  lemma {:induction false} AddedKeys(keyOf: KeyOf, log: Log, events: seq<Event>, key: string)
    ensures Present(keyOf, AddAll(keyOf, log, events), key) <==>
      Present(keyOf, log, key) || exists j :: 0 <= j < |events| && keyOf(events[j]) == Some(key)
  {
    if events != [] {
      var prefix, last := events[..|events| - 1], events[|events| - 1];
      AddedKeys(keyOf, log, prefix, key);
      assert forall j :: 0 <= j < |prefix| ==> prefix[j] == events[j];
      KeyAdded(keyOf, AddAll(keyOf, log, prefix), last, key);
      if keyOf(last) == Some(key) { assert events[|events| - 1] == last; }
    }
  }

  lemma KeyAdded(keyOf: KeyOf, log: Log, e: Event, key: string)
    ensures Present(keyOf, AddOne(keyOf, log, e), key) <==> Present(keyOf, log, key) || keyOf(e) == Some(key)
  {
    if Present(keyOf, log, key) {
      var i :| 0 <= i < |log| && keyOf(log[i]) == Some(key);
      assert (log + [e])[i] == log[i];
    }
    assert (log + [e])[|log|] == e;
  }

  lemma {:induction false} AddAllIs(keyOf: KeyOf, log: Log, events: seq<Event>, n: nat)
    requires n <= |events|
    ensures AddAll(keyOf, log, events[..n]) == log + NewOnes(keyOf, log, events, n)
  {
    if n > 0 {
      AddAllIs(keyOf, log, events, n - 1);
      assert events[..n][..n - 1] == events[..n - 1];
      if keyOf(events[n - 1]).Some? { AddedKeys(keyOf, log, events[..n - 1], keyOf(events[n - 1]).value); }
    }
  }

  /** An append without an expected head, or with the right one, adds exactly the new events of its
      batch, in order; with another one it adds nothing. */
  lemma AppendIs(keyOf: KeyOf, log: Log, events: seq<Event>, expected: Option<nat>)
    ensures expected == None || expected == Some(|log|) ==>
      AppendSpec(keyOf, log, events, expected) == log + NewOnes(keyOf, log, events, |events|)
    ensures expected != None && expected != Some(|log|) ==> AppendSpec(keyOf, log, events, expected) == log
  {
    AddAllIs(keyOf, log, events, |events|);
    assert events[..|events|] == events;
  }

  // ---------------------------------------------------------------- runs of appends

  datatype Append = Append(events: seq<Event>, expected: Option<nat>)

  function After(keyOf: KeyOf, log: Log, appends: seq<Append>): Log {
    if appends == [] then log
    else
      var a := appends[|appends| - 1];
      AppendSpec(keyOf, After(keyOf, log, appends[..|appends| - 1]), a.events, a.expected)
  }

  /** How many events the append at position `i` of a run added. */
  function Added(keyOf: KeyOf, log: Log, appends: seq<Append>, i: nat): int
    requires i < |appends|
  {
    |After(keyOf, log, appends[..i + 1])| - |After(keyOf, log, appends[..i])|
  }

  lemma {:induction false} RunGrows(keyOf: KeyOf, log: Log, appends: seq<Append>, i: nat)
    requires i <= |appends|
    ensures log <= After(keyOf, log, appends[..i]) <= After(keyOf, log, appends)
    ensures KeysOnce(keyOf, log) ==> KeysOnce(keyOf, After(keyOf, log, appends))
    decreases |appends|
  {
    if appends == [] {
      assert appends[..i] == appends;
    } else {
      var prefix := appends[..|appends| - 1];
      AddAllKeeps(keyOf, After(keyOf, log, prefix), appends[|appends| - 1].events);
      if i < |appends| {
        RunGrows(keyOf, log, prefix, i);
        assert prefix[..i] == appends[..i];
      } else {
        RunGrows(keyOf, log, prefix, |prefix|);
        assert prefix[..|prefix|] == prefix && appends[..i] == appends;
      }
    }
  }

  /** Of any number of appends racing on one expected head, at most one adds anything. */
  lemma OneWinner(keyOf: KeyOf, log: Log, appends: seq<Append>, head: nat, i: nat, j: nat)
    requires i < j < |appends| && appends[i].expected == appends[j].expected == Some(head)
    ensures Added(keyOf, log, appends, i) == 0 || Added(keyOf, log, appends, j) == 0
  {
    assert appends[..i + 1][..i] == appends[..i] && appends[..j + 1][..j] == appends[..j];
    assert appends[..j][..i + 1] == appends[..i + 1];
    RunGrows(keyOf, log, appends[..j], i + 1);
    AddAllKeeps(keyOf, After(keyOf, log, appends[..i]), appends[i].events);
  }

  /** Provisioning appends a creation batch at head 0. Whatever else is appended, before or after, and
      however often provisioning is repeated, the first recorded event stays the first. */
  lemma FirstRecordKept(keyOf: KeyOf, appends: seq<Append>, i: nat)
    requires i < |appends| && appends[i].events != [] && appends[i].expected == Some(0)
    ensures var log := After(keyOf, [], appends[..i]);
      After(keyOf, [], appends) != [] && After(keyOf, [], appends)[0] == if log == [] then appends[i].events[0]
          else log[0]
  {
    var before, at := After(keyOf, [], appends[..i]), After(keyOf, [], appends[..i + 1]);
    assert appends[..i + 1][..i] == appends[..i];
    RunGrows(keyOf, [], appends, i + 1);
    if before == [] {
      FirstAdded(keyOf, appends[i].events);
    }
  }

  lemma {:induction false} FirstAdded(keyOf: KeyOf, events: seq<Event>)
    requires events != []
    ensures AddAll(keyOf, [], events) != [] && AddAll(keyOf, [], events)[0] == events[0]
  {
    var prefix := events[..|events| - 1];
    if prefix == [] {
      assert AddAll(keyOf, [], prefix) == [];
    } else {
      FirstAdded(keyOf, prefix);
    }
  }

  // ---------------------------------------------------------------- pages and queries

  datatype EventRow = EventRow(seqNo: nat, event: Event)

  /** Up to `limit` rows after sequence number `mark`. Row `i` of the log has number `i + 1`. */
  function Page(log: Log, mark: nat, limit: nat): seq<EventRow> {
    var start := if mark < |log| then mark else |log|;
    var size := if limit < |log| - start then limit else |log| - start;
    seq(size, i requires 0 <= i < size => EventRow(start + i + 1, log[start + i]))
  }

  predicate Wanted(types: Option<seq<string>>, e: Event) {
    types.None? || e.kind in types.value
  }

  /** Rows of the wanted types numbered above `lo` and up to `hi`. */
  function Selected(log: Log, types: Option<seq<string>>, lo: nat, hi: nat): seq<EventRow>
    requires hi <= |log|
    decreases hi
  {
    if hi <= lo then []
    else Selected(log, types, lo, hi - 1) + (if Wanted(types, log[hi - 1]) then [EventRow(hi, log[hi - 1])] else [])
  }

  function Take<T>(s: seq<T>, n: nat): seq<T> {
    if n < |s| then s[..n] else s
  }

  function QuerySpec(log: Log, after: nat, types: Option<seq<string>>, limit: nat): seq<EventRow> {
    Take(Selected(log, types, after, |log|), limit)
  }

  lemma {:induction false} SelectedGrows(log: Log, types: Option<seq<string>>, lo: nat, mid: nat, hi: nat)
    requires mid <= hi <= |log|
    ensures Selected(log, types, lo, mid) <= Selected(log, types, lo, hi)
    decreases hi
  {
    if mid < hi { SelectedGrows(log, types, lo, mid, hi - 1); }
  }

  lemma {:induction false} SelectedPrefix(log: Log, more: Log, types: Option<seq<string>>, lo: nat, hi: nat)
    requires log <= more && hi <= |log|
    ensures Selected(log, types, lo, hi) == Selected(more, types, lo, hi)
    decreases hi
  {
    if hi > lo { SelectedPrefix(log, more, types, lo, hi - 1); }
  }

  /** A log that other callers extend: `arrivals[i]` lands just before the i-th page read from now. */
  class GrowingLog {
    var log: Log
    var arrivals: seq<seq<Event>>

    constructor (initial: Log, later: seq<seq<Event>>)
      ensures log == initial && arrivals == later
    {
      log, arrivals := initial, later;
    }

    ghost function Eventual(): nat
      reads this
    {
      |log| + Total(arrivals)
    }

    method ReadPage(mark: nat, limit: nat) returns (rows: seq<EventRow>)
      modifies this
      ensures old(log) <= log && Eventual() == old(Eventual())
      ensures rows == Page(log, mark, limit)
    {
      if arrivals != [] {
        log, arrivals := log + arrivals[0], arrivals[1..];
      }
      rows := Page(log, mark, limit);
    }
  }

  function Total(arrivals: seq<seq<Event>>): nat {
    if arrivals == [] then 0 else |arrivals[0]| + Total(arrivals[1..])
  }

  datatype QueryResult = Rows(rows: seq<EventRow>) | BadQuery

  /** Reads pages until the limit is filled or a page comes back short. */
  method QueryEvents(host: GrowingLog, after: int, limit: int, types: Option<seq<string>>) returns (r: QueryResult)
    modifies host
    ensures old(host.log) <= host.log
    ensures r.BadQuery? <==> !(0 <= after <= MAX_SAFE_INTEGER) || !(0 <= limit <= MAX_SAFE_INTEGER)
    ensures r.Rows? ==> r.rows == QuerySpec(host.log, after, types, limit)
    ensures r.Rows? ==> Answers(host.log, after, types, limit, r.rows)
  {
    if !(0 <= after <= MAX_SAFE_INTEGER) { return BadQuery; }
    if !(0 <= limit <= MAX_SAFE_INTEGER) { return BadQuery; }
    if limit == 0 {
      QueryAnswers(host.log, after, types, limit);
      return Rows([]);
    }
    var selected: seq<EventRow> := [];
    var mark: nat := after;
    while |selected| < limit
      invariant old(host.log) <= host.log && host.Eventual() == old(host.Eventual())
      invariant after <= mark && (after < mark ==> mark <= |host.log|)
      invariant |selected| <= limit
      invariant after < mark ==> selected == Take(Selected(host.log, types, after, mark), limit)
      invariant after == mark ==> selected == []
      invariant |selected| == limit ==> after < mark
      decreases host.Eventual() - mark
    {
      ghost var before := host.log;
      var rows := host.ReadPage(mark, limit);
      if after < mark { SelectedPrefix(before, host.log, types, after, mark); }
      if rows == [] {
        DrainedQuery(host.log, types, after, mark, limit, selected);
        break;
      }
      selected := SelectRows(host.log, types, after, mark, limit, rows, selected);
      mark := rows[|rows| - 1].seqNo;
      if |rows| < limit {
        assert mark == |host.log|;
        break;
      }
    }
    if after < mark {
      QueryComplete(host.log, types, after, mark, limit);
    }
    QueryAnswers(host.log, after, types, limit);
    r := Rows(selected);
  }

  /** The inner loop: keep wanted rows of one page until the limit is reached. */
  method SelectRows(ghost log: Log, types: Option<seq<string>>, ghost after: nat, ghost mark: nat, limit: nat,
                    rows: seq<EventRow>, sofar: seq<EventRow>)
    returns (selected: seq<EventRow>)
    requires limit > 0 && rows == Page(log, mark, limit) && rows != [] && after <= mark && |sofar| < limit
    requires if after < mark then mark <= |log| && sofar == Take(Selected(log, types, after, mark), limit)
      else sofar == []
    ensures selected == Take(Selected(log, types, after, rows[|rows| - 1].seqNo), limit)
  {
    hide Wanted, Selected;
    selected := sofar;
    PageRows(log, mark, limit);
    NoneSelected(log, types, mark);
    hide Page;
    for i := 0 to |rows|
      invariant |selected| < limit && selected == Selected(log, types, after, mark + i)
    {
      var row := rows[i];
      SelectedStep(log, types, after, mark + i);
      if Wanted(types, row.event) { selected := selected + [row]; }
      if |selected| == limit {
        SelectedGrows(log, types, after, mark + i + 1, mark + |rows|);
        return;
      }
    }
  }

  lemma PageRows(log: Log, mark: nat, limit: nat)
    ensures var rows := Page(log, mark, limit);
      rows != [] ==>
        && mark + |rows| <= |log| && rows[|rows| - 1].seqNo == mark + |rows|
        && forall i :: 0 <= i < |rows| ==> rows[i] == EventRow(mark + i + 1, log[mark + i])
  {}

  lemma NoneSelected(log: Log, types: Option<seq<string>>, mark: nat)
    ensures mark <= |log| ==> Selected(log, types, mark, mark) == []
  {}

  lemma SelectedStep(log: Log, types: Option<seq<string>>, lo: nat, hi: nat)
    requires lo <= hi < |log|
    ensures Selected(log, types, lo, hi + 1)
         == Selected(log, types, lo, hi) + (if Wanted(types, log[hi]) then [EventRow(hi + 1, log[hi])] else [])
  {}

  lemma DrainedQuery(log: Log, types: Option<seq<string>>, after: nat, mark: nat, limit: nat, selected: seq<EventRow>)
    requires limit > 0 && Page(log, mark, limit) == [] && after <= mark
    requires if after < mark then mark <= |log| && selected == Take(Selected(log, types, after, mark), limit)
      else selected == []
    ensures selected == QuerySpec(log, after, types, limit)
  {}

  lemma QueryComplete(log: Log, types: Option<seq<string>>, after: nat, mark: nat, limit: nat)
    requires after < mark <= |log|
    requires mark == |log| || |Selected(log, types, after, mark)| >= limit
    ensures Take(Selected(log, types, after, mark), limit) == QuerySpec(log, after, types, limit)
  {
    SelectedGrows(log, types, after, mark, |log|);
  }

  // ---------------------------------------------------------------- what a query answers

  /** Row `i` of the log, with its number. */
  function RowAt(log: Log, i: nat): EventRow
    requires i < |log|
  {
    EventRow(i + 1, log[i])
  }

  /** Row `i` is above the mark and of a wanted type. */
  predicate Matches(log: Log, after: nat, types: Option<seq<string>>, i: nat): (matches: bool)
    ensures matches ==> i < |log|
  {
    after <= i < |log| && (types.None? || log[i].kind in types.value)
  }

  predicate IsMatch(log: Log, after: nat, types: Option<seq<string>>, row: EventRow) {
    row.seqNo > 0 && Matches(log, after, types, row.seqNo - 1) && row.event == log[row.seqNo - 1]
  }

  predicate AllBelow(rows: seq<EventRow>, n: nat) { forall k :: 0 <= k < |rows| ==> rows[k].seqNo <= n }

  ghost predicate Rising(rows: seq<EventRow>) {
    forall j, k :: 0 <= j < k < |rows| ==> rows[j].seqNo < rows[k].seqNo
  }

  /** The rows are wanted rows above the mark with their numbers, in order and at most `limit`; no wanted
      row above the mark is missing unless the limit is reached before it. */
  ghost predicate Answers(log: Log, after: nat, types: Option<seq<string>>, limit: nat, rows: seq<EventRow>) {
    && |rows| <= limit && Rising(rows)
    && (forall k :: 0 <= k < |rows| ==> IsMatch(log, after, types, rows[k]))
    && forall i: nat :: Matches(log, after, types, i) ==>
        RowAt(log, i) in rows || (|rows| == limit && AllBelow(rows, i))
  }

  /** The rows selected up to `hi` are all that match there. */
  ghost predicate Selects(log: Log, types: Option<seq<string>>, lo: nat, hi: nat, rows: seq<EventRow>) {
    && Rising(rows) && AllBelow(rows, hi)
    && (forall k :: 0 <= k < |rows| ==> IsMatch(log, lo, types, rows[k]))
    && forall i: nat :: i < hi && Matches(log, lo, types, i) ==> RowAt(log, i) in rows
  }

  lemma {:induction false} SelectedIs(log: Log, types: Option<seq<string>>, lo: nat, hi: nat)
    requires hi <= |log|
    ensures Selects(log, types, lo, hi, Selected(log, types, lo, hi))
    decreases hi
  {
    if hi > lo {
      SelectedIs(log, types, lo, hi - 1);
      SelectsNext(log, types, lo, hi, Selected(log, types, lo, hi - 1), Selected(log, types, lo, hi));
    }
  }

  lemma SelectsNext(log: Log, types: Option<seq<string>>, lo: nat, hi: nat, before: seq<EventRow>, rows: seq<EventRow>)
    requires lo < hi <= |log| && Selects(log, types, lo, hi - 1, before)
    requires rows == before + if Wanted(types, log[hi - 1]) then [EventRow(hi, log[hi - 1])] else []
    ensures Selects(log, types, lo, hi, rows)
  {
    forall i: nat | i < hi && Matches(log, lo, types, i) ensures RowAt(log, i) in rows {
      if i == hi - 1 {
        assert rows[|before|] == RowAt(log, i);
      } else {
        assert RowAt(log, i) in before;
      }
    }
  }

  lemma QueryAnswers(log: Log, after: nat, types: Option<seq<string>>, limit: nat)
    ensures Answers(log, after, types, limit, QuerySpec(log, after, types, limit))
  {
    SelectedIs(log, types, after, |log|);
    TakeAnswers(log, after, types, limit, Selected(log, types, after, |log|));
  }

  lemma TakeAnswers(log: Log, after: nat, types: Option<seq<string>>, limit: nat, all: seq<EventRow>)
    requires Selects(log, types, after, |log|, all)
    ensures Answers(log, after, types, limit, Take(all, limit))
  {
    hide Matches, IsMatch;
    var rows := Take(all, limit);
    assert forall k :: 0 <= k < |rows| ==> rows[k] == all[k];
    forall i: nat | Matches(log, after, types, i)
      ensures RowAt(log, i) in rows || (|rows| == limit && AllBelow(rows, i))
    {
      var k :| 0 <= k < |all| && all[k] == RowAt(log, i);
      if k < |rows| { assert rows[k] == RowAt(log, i); }
    }
  }

  /** A page holds the rows after the mark with their numbers, as many as there are and fit. */
  lemma PageHolds(log: Log, mark: nat, limit: nat)
    ensures forall k :: 0 <= k < |Page(log, mark, limit)| ==>
      mark + k < |log| && Page(log, mark, limit)[k] == EventRow(mark + k + 1, log[mark + k])
    ensures |Page(log, mark, limit)| <= limit
    ensures |Page(log, mark, limit)| < limit ==> mark + |Page(log, mark, limit)| >= |log|
  {
    var page := Page(log, mark, limit);
    forall k | 0 <= k < |page| ensures mark + k < |log| && page[k] == EventRow(mark + k + 1, log[mark + k]) {}
  }
}
