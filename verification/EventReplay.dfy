/** The event stream kept in memory (`event_stream.py`) and in SQLite (`sqlite_event_stream.py`). A row's payload is
    the event itself: that JSON brings an event back unchanged is not part of this model. */
module EventReplay {
  import opened Common
  import opened IsoTime
  import TextOrder
  import Sorting

  datatype Family = ActionFamily | ObservationFamily

  datatype Event = Event(id: string, kind: string, family: Family, timestamp: Time, body: string)

  datatype Row = Row(eventId: string, kind: string, family: Family, timestamp: string, payload: Event,
                     task: Option<string>)

  function Encode(e: Event, task: Option<string>): Row {
    Row(e.id, e.kind, e.family, Iso(e.timestamp), e, task)
  }

  // ---- What a replay yields ----

  predicate After(e: Event, since: Option<Time>) { since.None? || !NotAfter(e.timestamp, since.value) }

  predicate OfKind(kind: string, kinds: Option<seq<string>>) { kinds.None? || kind in kinds.value }

  /** The events after `since` whose kind is asked for, in order of insertion. */
  function Replayed(events: seq<Event>, since: Option<Time>, kinds: Option<seq<string>>): seq<Event> {
    if events == [] then []
    else
      var e := events[|events| - 1];
      Replayed(events[..|events| - 1], since, kinds) + if After(e, since) && OfKind(e.kind, kinds) then [e] else []
  }

  /** Exactly the wanted events survive. */
  lemma {:induction false} ReplayedMembers(events: seq<Event>, since: Option<Time>, kinds: Option<seq<string>>,
                                           e: Event)
    ensures e in Replayed(events, since, kinds) <==>
            && e in events
            && (since.None? || !NotAfter(e.timestamp, since.value))
            && (kinds.None? || exists i :: 0 <= i < |kinds.value| && kinds.value[i] == e.kind)
  {
    if events != [] {
      ReplayedMembers(events[..|events| - 1], since, kinds, e);
      assert events == events[..|events| - 1] + [events[|events| - 1]];
    }
  }

  /** A replay of a longer log is the replay so far followed by that of what was appended since. */
  lemma {:induction false} ReplayedSplits(a: seq<Event>, b: seq<Event>, since: Option<Time>, kinds: Option<seq<string>>)
    ensures Replayed(a + b, since, kinds) == Replayed(a, since, kinds) + Replayed(b, since, kinds)
  {
    if b == [] {
      assert a + b == a;
    } else {
      assert (a + b)[..|a + b| - 1] == a + b[..|b| - 1];
      ReplayedSplits(a, b[..|b| - 1], since, kinds);
    }
  }

  /** And none out of order. */
  lemma {:induction false} ReplayedInOrder(events: seq<Event>, since: Option<Time>, kinds: Option<seq<string>>)
    ensures Subsequence(Replayed(events, since, kinds), events)
  {
    if events != [] {
      ReplayedInOrder(events[..|events| - 1], since, kinds);
      var kept := Replayed(events[..|events| - 1], since, kinds);
      assert events[..|events|] == events && kept + [] == kept;
      SubsequenceStep(kept, events, |events| - 1);
    }
  }

  class InMemoryEventStream {
    var events: seq<Event>

    constructor ()
      ensures events == []
    {
      events := [];
    }

    method Append(e: Event)
      modifies this
      ensures events == old(events) + [e]
    {
      events := events + [e];
    }

    method Replay(since: Option<Time>, kinds: Option<seq<string>>) returns (out: seq<Event>)
      ensures out == Replayed(events, since, kinds)
    {
      out := [];
      for i := 0 to |events|
        invariant out == Replayed(events[..i], since, kinds)
      {
        var e := events[i];
        assert events[..i + 1][..i] == events[..i];
        if since.Some? && NotAfter(e.timestamp, since.value) {
          continue;
        }
        if kinds.Some? && e.kind !in kinds.value {
          continue;
        }
        out := out + [e];
      }
      assert events[..|events|] == events;
    }
  }

  /** Every row is the encoding of its payload. */
  ghost predicate Encoded(rows: seq<Row>) {
    forall i :: 0 <= i < |rows| ==> rows[i] == Encode(rows[i].payload, rows[i].task)
  }

  /** The events stored, in row id order. */
  function Payloads(rows: seq<Row>): seq<Event> {
    if rows == [] then [] else Payloads(rows[..|rows| - 1]) + [rows[|rows| - 1].payload]
  }

  /** `timestamp > bound AND kind IN (kinds)`, a comparison of texts. */
  predicate Passes(r: Row, bound: Option<string>, kinds: Option<seq<string>>) {
    (bound.None? || TextOrder.Less(bound.value, r.timestamp)) && OfKind(r.kind, kinds)
  }

  /** `SELECT payload ... WHERE ... ORDER BY id`. */
  function Selected(rows: seq<Row>, bound: Option<string>, kinds: Option<seq<string>>): seq<Event> {
    if rows == [] then []
    else
      var r := rows[|rows| - 1];
      Selected(rows[..|rows| - 1], bound, kinds)
      + if Passes(r, bound, kinds) then [r.payload] else []
  }

  lemma SelectedStep(rows: seq<Row>, i: nat, bound: Option<string>, kinds: Option<seq<string>>)
    requires i < |rows|
    ensures Selected(rows[..i + 1], bound, kinds) ==
            Selected(rows[..i], bound, kinds) + if Passes(rows[i], bound, kinds) then [rows[i].payload] else []
  {
    assert rows[..i + 1][..i] == rows[..i];
  }

  function TextOf(since: Option<Time>): Option<string> { if since.None? then None else Some(Iso(since.value)) }

  /** Selecting by text is selecting by time, for every table of encoded events. */
  lemma {:induction false} SelectedIsReplayed(rows: seq<Row>, since: Option<Time>, kinds: Option<seq<string>>)
    requires Encoded(rows)
    ensures Selected(rows, TextOf(since), kinds) == Replayed(Payloads(rows), since, kinds)
  {
    if rows != [] {
      var front, r := rows[..|rows| - 1], rows[|rows| - 1];
      SelectedIsReplayed(front, since, kinds);
      assert Payloads(rows)[..|Payloads(rows)| - 1] == Payloads(front);
      assert r == Encode(r.payload, r.task);
      if since.Some? {
        IsoLess(since.value, r.payload.timestamp);
      }
    }
  }

  class SqliteEventStream {
    var rows: seq<Row>

    ghost predicate Valid()
      reads this
    {
      Encoded(rows)
    }

    constructor ()
      ensures Valid() && rows == []
    {
      rows := [];
    }

    method Append(e: Event, task: Option<string>)
      requires Valid()
      modifies this
      ensures rows == old(rows) + [Row(e.id, e.kind, e.family, Iso(e.timestamp), e, task)]
      ensures Valid() && rows == old(rows) + [Encode(e, task)] && Payloads(rows) == Payloads(old(rows)) + [e]
    {
      assert (rows + [Encode(e, task)])[..|rows|] == rows;
      rows := rows + [Encode(e, task)];
    }

    /** `replay`: the cursor over the selected rows yields what an in-memory replay would. */
    method Replay(since: Option<Time>, kinds: Option<seq<string>>) returns (out: seq<Event>)
      requires Valid()
      ensures out == Selected(rows, TextOf(since), kinds) == Replayed(Payloads(rows), since, kinds)
    {
      var bound := TextOf(since);
      out := [];
      for i := 0 to |rows|
        invariant out == Selected(rows[..i], bound, kinds)
      {
        SelectedStep(rows, i, bound, kinds);
        if Passes(rows[i], bound, kinds) {
          out := out + [rows[i].payload];
        }
      }
      assert rows[..|rows|] == rows;
      SelectedIsReplayed(rows, since, kinds);
    }

    /** `iter_for_task`: the task's rows ORDER BY timestamp, id. */
    method IterForTask(task: string) returns (out: seq<Row>)
      requires Valid()
      ensures out == Sorting.Sort(EarlierText, OfTask(rows, task))
    {
      var found := [];
      for i := 0 to |rows|
        invariant found == OfTask(rows[..i], task)
      {
        assert rows[..i + 1][..i] == rows[..i];
        if rows[i].task == Some(task) {
          found := found + [rows[i]];
        }
      }
      assert rows[..|rows|] == rows;
      out := Sorting.Sort(EarlierText, found);
    }
  }

  /** The same appends to both streams. */
  method Load(log: seq<Event>, task: Option<string>) returns (a: InMemoryEventStream, b: SqliteEventStream)
    ensures a.events == log && b.Valid() && Payloads(b.rows) == log
  {
    a := new InMemoryEventStream();
    b := new SqliteEventStream();
    for i := 0 to |log|
      invariant fresh(a) && fresh(b) && a.events == log[..i] && b.Valid() && Payloads(b.rows) == log[..i]
    {
      a.Append(log[i]);
      b.Append(log[i], task);
      assert log[..i + 1] == log[..i] + [log[i]];
    }
    assert log[..|log|] == log;
  }

  /** The two streams replay alike: after the same appends, for every `since` and `kinds`. */
  method ReplayBoth(log: seq<Event>, task: Option<string>, since: Option<Time>, kinds: Option<seq<string>>)
    returns (inMemory: seq<Event>, stored: seq<Event>)
    ensures stored == inMemory == Replayed(log, since, kinds)
  {
    var a, b := Load(log, task);
    inMemory := a.Replay(since, kinds);
    stored := b.Replay(since, kinds);
  }

  /** An empty list of kinds asks for nothing, and no list for everything. */
  lemma EmptyKinds(log: seq<Event>, since: Option<Time>)
    ensures Replayed(log, since, Some([])) == [] && Replayed(log, None, None) == log
  {
    if log != [] {
      EmptyKinds(log[..|log| - 1], since);
    }
  }

  // ---- One task's timeline ----

  function OfTask(rows: seq<Row>, task: string): seq<Row> {
    if rows == [] then []
    else OfTask(rows[..|rows| - 1], task) + if rows[|rows| - 1].task == Some(task) then [rows[|rows| - 1]] else []
  }

  /** A task's rows are the stored rows with its tag. */
  lemma {:induction false} OfTaskHolds(rows: seq<Row>, task: string, r: Row)
    ensures r in OfTask(rows, task) <==> r in rows && r.task == Some(task)
  {
    if rows != [] {
      OfTaskHolds(rows[..|rows| - 1], task, r);
      assert r in rows <==> r in rows[..|rows| - 1] || r == rows[|rows| - 1];
    }
  }

  /** In the order of the table. */
  lemma {:induction false} OfTaskInOrder(rows: seq<Row>, task: string)
    ensures Subsequence(OfTask(rows, task), rows)
  {
    if rows != [] {
      OfTaskInOrder(rows[..|rows| - 1], task);
      var kept := OfTask(rows[..|rows| - 1], task);
      assert rows[..|rows|] == rows && kept + [] == kept;
      SubsequenceStep(kept, rows, |rows| - 1);
    }
  }

  predicate EarlierText(a: Row, b: Row) { TextOrder.Leq(a.timestamp, b.timestamp) }

  lemma EarlierTextOrders()
    ensures Sorting.TotalPreorder(EarlierText)
  {
    forall a: Row, b: Row ensures EarlierText(a, b) || EarlierText(b, a) {
      TextOrder.LeqTotal(a.timestamp, b.timestamp);
    }
    forall a: Row, b: Row, c: Row | EarlierText(a, b) && EarlierText(b, c) ensures EarlierText(a, c) {
      TextOrder.LeqTransitive(a.timestamp, b.timestamp, c.timestamp);
    }
  }

  lemma {:induction false} SortOfSorted(s: seq<Row>)
    requires Sorting.SortedBy(EarlierText, s)
    ensures Sorting.Sort(EarlierText, s) == s
  {
    if s != [] {
      SortOfSorted(s[1..]);
      assert s == [s[0]] + s[1..];
      assert |s| > 1 ==> EarlierText(s[0], s[1]);
    }
  }

  /** A task's timeline comes back in insertion order iff its timestamps never go backwards; otherwise the rows are
      reordered by time, although the documentation promises insertion order. */
  lemma TimelineIsInsertionOrderIff(rows: seq<Row>, task: string)
    requires Encoded(rows)
    ensures var mine := OfTask(rows, task);
            Sorting.Sort(EarlierText, mine) == mine <==>
            forall i, j :: 0 <= i < j < |mine| ==> NotAfter(mine[i].payload.timestamp, mine[j].payload.timestamp)
  {
    var mine := OfTask(rows, task);
    EarlierTextOrders();
    Sorting.SortSorts(EarlierText, mine);
    OfTaskEncoded(rows, task);
    forall i, j | 0 <= i < j < |mine|
      ensures EarlierText(mine[i], mine[j]) <==> NotAfter(mine[i].payload.timestamp, mine[j].payload.timestamp)
    {
      IsoOrder(mine[i].payload.timestamp, mine[j].payload.timestamp);
    }
    if forall i, j :: 0 <= i < j < |mine| ==> NotAfter(mine[i].payload.timestamp, mine[j].payload.timestamp) {
      SortOfSorted(mine);
    }
  }

  /** Two events of one task stored in the other order come back reordered. */
  lemma LaterFirstIsReordered(early: Event, late: Event, task: string)
    requires !NotAfter(late.timestamp, early.timestamp)
    ensures var rows := [Encode(late, Some(task)), Encode(early, Some(task))];
            OfTask(rows, task) == rows && Sorting.Sort(EarlierText, rows) == [rows[1], rows[0]] != rows
  {
    var a, b := Encode(late, Some(task)), Encode(early, Some(task));
    assert [a, b][..1] == [a] && [a][..0] == [] && [] + [a] == [a] && [a] + [b] == [a, b];
    assert OfTask([a], task) == [a];
    assert [a, b][1..] == [b] && [b][1..] == [];
    IsoOrder(late.timestamp, early.timestamp);
    assert Sorting.Sort(EarlierText, [b]) == [b];
    assert !EarlierText(a, b);
    assert Sorting.Insert(EarlierText, a, [b]) == [b] + Sorting.Insert(EarlierText, a, []);
  }

  lemma {:induction false} OfTaskEncoded(rows: seq<Row>, task: string)
    requires Encoded(rows)
    ensures forall r :: r in OfTask(rows, task) ==> r.timestamp == Iso(r.payload.timestamp)
  {
    if rows != [] {
      OfTaskEncoded(rows[..|rows| - 1], task);
    }
  }
}
