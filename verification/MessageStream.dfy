/** The message stream (`SqliteMessageStream`): an append-only table of messages whose
    row id is the insertion index. Timestamps are instants; `IsoTime` shows that comparing
    their stored text is the same as comparing the instants. */
module MessageStream {
  import opened Common
  import Sorting

  /** A uuid4 hex string; only equality matters. */
  type MessageId = nat

  datatype MessageType = Informational | Actionable | Response

  datatype AgentMessage = AgentMessage(
    id: MessageId,
    session: string,
    task: Option<string>,
    parent: Option<MessageId>,
    kind: MessageType,
    options: seq<string>,
    timeout: Option<real>,
    relatedAction: Option<nat>,
    value: Option<string>,
    createdAt: int)

  predicate HasId(rows: seq<AgentMessage>, id: MessageId) {
    exists i :: 0 <= i < |rows| && rows[i].id == id
  }

  lemma {:induction false} IdsBounded(rows: seq<AgentMessage>) returns (bound: nat)
    ensures forall i :: 0 <= i < |rows| ==> rows[i].id < bound
  {
    bound := 0;
    if rows != [] {
      var n := |rows| - 1;
      bound := IdsBounded(rows[..n]);
      assert forall i :: 0 <= i < n ==> rows[i] == rows[..n][i];
      bound := bound + rows[n].id + 1;
    }
  }

  /** There is always an id no stored message has. */
  lemma SomeIdUnused(rows: seq<AgentMessage>)
    ensures exists id: MessageId :: !HasId(rows, id)
  {
    var bound := IdsBounded(rows);
    assert !HasId(rows, bound);
  }

  predicate HasActionable(rows: seq<AgentMessage>, id: MessageId) {
    exists i :: 0 <= i < |rows| && rows[i].id == id && rows[i].kind.Actionable?
  }

  /** `_validate_for_insert` followed by the UNIQUE(message_id) constraint. */
  predicate Insertable(rows: seq<AgentMessage>, m: AgentMessage) {
    && (m.kind.Response? ==> m.parent.Some? && HasActionable(rows, m.parent.value))
    && !HasId(rows, m.id)
  }

  /** The tables that inserts alone can produce. */
  ghost predicate Stored(rows: seq<AgentMessage>) {
    forall i :: 0 <= i < |rows| ==> Insertable(rows[..i], rows[i])
  }

  /** Created-at stamps do not go backwards in insertion order. */
  ghost predicate TimeOrdered(rows: seq<AgentMessage>) {
    forall i, j :: 0 <= i < j < |rows| ==> rows[i].createdAt <= rows[j].createdAt
  }

  predicate Answers(m: AgentMessage, id: MessageId) {
    m.kind.Response? && m.parent == Some(id)
  }

  /** `response_for`: ORDER BY created_at, id LIMIT 1 over the answers to `id`. */
  function ResponseFor(rows: seq<AgentMessage>, id: MessageId): Option<AgentMessage> {
    if rows == [] then None
    else
      var earlier := ResponseFor(rows[..|rows| - 1], id);
      var last := rows[|rows| - 1];
      if !Answers(last, id) then earlier
      else if earlier.None? || last.createdAt < earlier.value.createdAt then Some(last)
      else earlier
  }

  /** Row `i` is the first answer to `id` in (created_at, row id) order. */
  ghost predicate EarliestAnswer(rows: seq<AgentMessage>, id: MessageId, i: nat) {
    && i < |rows| && Answers(rows[i], id)
    && forall j :: 0 <= j < |rows| && Answers(rows[j], id) ==>
         rows[i].createdAt < rows[j].createdAt || (rows[i].createdAt == rows[j].createdAt && i <= j)
  }

  /** The scan returns exactly the row the SQL ordering puts first, and nothing iff there is no answer. */
  lemma {:induction false} ResponseForIsEarliest(rows: seq<AgentMessage>, id: MessageId)
    ensures ResponseFor(rows, id).None? <==> forall j :: 0 <= j < |rows| ==> !Answers(rows[j], id)
    ensures ResponseFor(rows, id).Some? ==>
              exists i: nat :: EarliestAnswer(rows, id, i) && ResponseFor(rows, id).value == rows[i]
  {
    if rows != [] {
      var n := |rows| - 1;
      var front := rows[..n];
      ResponseForIsEarliest(front, id);
      assert forall j :: 0 <= j < n ==> front[j] == rows[j];
      if ResponseFor(rows, id).Some? {
        if ResponseFor(front, id).Some? && ResponseFor(rows, id) == ResponseFor(front, id) {
          var i: nat :| EarliestAnswer(front, id, i) && ResponseFor(front, id).value == front[i];
          assert EarliestAnswer(rows, id, i);
        } else {
          assert EarliestAnswer(rows, id, n);
        }
      }
    }
  }

  lemma ResponseForAppend(rows: seq<AgentMessage>, m: AgentMessage, id: MessageId)
    ensures var before := ResponseFor(rows, id);
            ResponseFor(rows + [m], id) ==
            if Answers(m, id) && (before.None? || m.createdAt < before.value.createdAt) then Some(m) else before
  {
    assert (rows + [m])[..|rows|] == rows;
  }

  /** An insert replaces the canonical answer exactly when it is an answer stamped earlier than it. */
  lemma CanonicalAnswerReplacedIff(rows: seq<AgentMessage>, m: AgentMessage, id: MessageId)
    requires ResponseFor(rows, id).Some?
    ensures ResponseFor(rows + [m], id) != ResponseFor(rows, id)
            <==> Answers(m, id) && m.createdAt < ResponseFor(rows, id).value.createdAt
  {
    ResponseForAppend(rows, m, id);
  }

  /** Once an actionable is answered it stays answered, whatever is inserted afterwards. */
  lemma {:induction false} AnsweredStaysAnswered(rows: seq<AgentMessage>, later: seq<AgentMessage>, id: MessageId)
    requires rows <= later && ResponseFor(rows, id).Some?
    ensures ResponseFor(later, id).Some?
  {
    if rows != later {
      AnsweredStaysAnswered(rows, later[..|later| - 1], id);
    }
  }

  /** An answer seen at some moment is there later, and one there earlier is seen. */
  lemma AnsweredBetween(earlier: seq<AgentMessage>, seen: seq<AgentMessage>, later: seq<AgentMessage>, id: MessageId)
    requires earlier <= seen <= later
    ensures ResponseFor(earlier, id).Some? ==> ResponseFor(seen, id).Some?
    ensures ResponseFor(seen, id).Some? ==> ResponseFor(later, id).Some?
  {
    if ResponseFor(earlier, id).Some? {
      AnsweredStaysAnswered(earlier, seen, id);
    }
    if ResponseFor(seen, id).Some? {
      AnsweredStaysAnswered(seen, later, id);
    }
  }

  /** Whatever is inserted afterwards, the canonical answer is still the same iff no later answer is stamped earlier. */
  lemma {:induction false} CanonicalAnswerSameIff(rows: seq<AgentMessage>, later: seq<AgentMessage>, id: MessageId)
    requires rows <= later && ResponseFor(rows, id).Some?
    ensures ResponseFor(later, id).Some?
    ensures ResponseFor(later, id).value.createdAt <= ResponseFor(rows, id).value.createdAt
    ensures ResponseFor(later, id) == ResponseFor(rows, id) <==>
            forall j :: |rows| <= j < |later| && Answers(later[j], id) ==>
              ResponseFor(rows, id).value.createdAt <= later[j].createdAt
  {
    if rows != later {
      var front := later[..|later| - 1];
      CanonicalAnswerSameIff(rows, front, id);
      assert forall j :: |rows| <= j < |front| ==> front[j] == later[j];
    }
  }

  /** With non-decreasing stamps the canonical answer never changes once it exists. */
  lemma {:induction false} CanonicalAnswerStable(rows: seq<AgentMessage>, later: seq<AgentMessage>, id: MessageId)
    requires rows <= later && TimeOrdered(later) && ResponseFor(rows, id).Some?
    ensures ResponseFor(later, id) == ResponseFor(rows, id)
  {
    if rows != later {
      var front := later[..|later| - 1];
      CanonicalAnswerStable(rows, front, id);
      ResponseForIsEarliest(front, id);
    }
  }

  /** Without that condition it can flip: a reply stamped earlier but stored later overrides the first one. */
  lemma SkewedClockFlipsTheAnswer(ask: AgentMessage, yes: AgentMessage, no: AgentMessage)
    requires ask.kind.Actionable? && Answers(yes, ask.id) && Answers(no, ask.id)
    requires ask.id != yes.id && ask.id != no.id && yes.id != no.id
    requires no.createdAt < yes.createdAt
    ensures Stored([ask, yes, no])
    ensures ResponseFor([ask, yes], ask.id) == Some(yes)
    ensures ResponseFor([ask, yes, no], ask.id) == Some(no)
  {
    var r1, r2, r3 := [ask], [ask, yes], [ask, yes, no];
    assert r1 == [] + [ask] && r2 == r1 + [yes] && r3 == r2 + [no];
    ResponseForAppend([], ask, ask.id);
    ResponseForAppend(r1, yes, ask.id);
    ResponseForAppend(r2, no, ask.id);
    assert r1[0] == ask && r2[0] == ask;
    assert HasActionable(r1, ask.id) && HasActionable(r2, ask.id);
    StoredAppend([], ask);
    StoredAppend(r1, yes);
    StoredAppend(r2, no);
  }

  /** Notices and actionables answer nothing, even when they name a parent. */
  lemma OnlyResponsesAnswer(rows: seq<AgentMessage>, m: AgentMessage, id: MessageId)
    requires !m.kind.Response?
    ensures ResponseFor(rows + [m], id) == ResponseFor(rows, id)
  {
    ResponseForAppend(rows, m, id);
  }

  predicate Open(rows: seq<AgentMessage>, session: string, task: Option<string>, m: AgentMessage) {
    && m.session == session && m.kind.Actionable?
    && !(exists j :: 0 <= j < |rows| && Answers(rows[j], m.id))
    && (task.Some? ==> m.task == task)
  }

  function SelectOpen(rows: seq<AgentMessage>, n: nat, session: string, task: Option<string>): (r: seq<AgentMessage>)
    requires n <= |rows|
    ensures forall m :: m in r <==> m in rows[..n] && Open(rows, session, task, m)
  {
    if n == 0 then []
    else
      assert rows[..n] == rows[..n - 1] + [rows[n - 1]];
      SelectOpen(rows, n - 1, session, task) + if Open(rows, session, task, rows[n - 1]) then [rows[n - 1]] else []
  }

  function EarlierStamp(): (AgentMessage, AgentMessage) -> bool {
    (a: AgentMessage, b: AgentMessage) => a.createdAt <= b.createdAt
  }

  /** `pending_actionable`: the open actionables ORDER BY created_at, id. */
  function PendingActionable(rows: seq<AgentMessage>, session: string, task: Option<string>): seq<AgentMessage> {
    Sorting.Sort(EarlierStamp(), SelectOpen(rows, |rows|, session, task))
  }

  /** The pending actionables are exactly the stored ones without a canonical answer, in stamp order. */
  lemma PendingIsUnanswered(rows: seq<AgentMessage>, session: string, task: Option<string>, m: AgentMessage)
    ensures m in PendingActionable(rows, session, task) <==>
            m in rows && m.kind.Actionable? && m.session == session && (task.Some? ==> m.task == task)
            && ResponseFor(rows, m.id).None?
    ensures Sorting.SortedBy(EarlierStamp(), PendingActionable(rows, session, task))
  {
    Sorting.SortMembers(EarlierStamp(), SelectOpen(rows, |rows|, session, task), m);
    Sorting.SortSorts(EarlierStamp(), SelectOpen(rows, |rows|, session, task));
    ResponseForIsEarliest(rows, m.id);
    assert rows[..|rows|] == rows;
  }

  /** An answered actionable is never pending again. */
  lemma NeverPendingAgain(rows: seq<AgentMessage>, later: seq<AgentMessage>, session: string, task: Option<string>,
                          m: AgentMessage)
    requires rows <= later && ResponseFor(rows, m.id).Some?
    ensures m !in PendingActionable(later, session, task)
  {
    AnsweredStaysAnswered(rows, later, m.id);
    PendingIsUnanswered(later, session, task, m);
  }

  lemma StoredAppend(rows: seq<AgentMessage>, m: AgentMessage)
    requires Stored(rows) && Insertable(rows, m)
    ensures Stored(rows + [m])
  {
    forall i | 0 <= i <= |rows| ensures Insertable((rows + [m])[..i], (rows + [m])[i]) {
      assert (rows + [m])[..i] == rows[..i];
      assert rows[..|rows|] == rows;
    }
  }

  /** In a stored table every canonical answer answers an actionable that was stored before it. */
  lemma {:induction false} AnswerHasActionable(rows: seq<AgentMessage>, id: MessageId)
    requires Stored(rows) && ResponseFor(rows, id).Some?
    ensures HasActionable(rows, id)
  {
    ResponseForIsEarliest(rows, id);
    var i: nat :| EarliestAnswer(rows, id, i) && ResponseFor(rows, id).value == rows[i];
    var before := rows[..i];
    assert Insertable(before, rows[i]);
    var k :| 0 <= k < |before| && before[k].id == id && before[k].kind.Actionable?;
    assert before[k] == rows[k];
  }

  class SqliteMessageStream {
    var rows: seq<AgentMessage>

    ghost predicate Valid() reads this { Stored(rows) }

    constructor ()
      ensures Valid() && rows == []
    {
      rows := [];
    }

    /** `_insert`: the row is added iff validation and the id constraint pass; otherwise the call raises. */
    method Insert(m: AgentMessage) returns (inserted: bool)
      requires Valid()
      modifies this
      ensures Valid()
      ensures inserted <==>
                && (forall i :: 0 <= i < |old(rows)| ==> old(rows)[i].id != m.id)
                && (m.kind.Response? ==>
                      && m.parent.Some?
                      && exists i :: 0 <= i < |old(rows)| && old(rows)[i].id == m.parent.value
                                     && old(rows)[i].kind.Actionable?)
      ensures inserted <==> Insertable(old(rows), m)
      ensures rows == if inserted then old(rows) + [m] else old(rows)
    {
      if m.kind.Response? {
        if m.parent.None? || !HasActionable(rows, m.parent.value) {
          return false;
        }
      }
      if HasId(rows, m.id) {
        return false;
      }
      StoredAppend(rows, m);
      rows := rows + [m];
      inserted := true;
    }
  }
}
