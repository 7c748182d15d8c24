/** The SQLite ASK store (`interaction/sqlite_ask_store.py`) against the in-memory one. Tables are maps from their
    primary key; a command is one transaction; JSON columns hold the values they encode. */
module AskSqlite {
  import opened Common
  import opened IsoTime
  import opened Ask
  import Sorting
  import TextOrder

  // ---- Rows ----

  datatype AskRow = AskRow(
    askId: string,
    session: string,
    task: Option<string>,
    wording: Wording,
    options: seq<string>,
    answerType: AnswerType,
    allowFreeText: int,
    allowNoOptionWithText: int,
    blocking: int,
    status: Status,
    answerId: Option<string>,
    resumeHint: Option<string>,
    createdAt: string,
    answeredAt: Option<string>,
    deferredAt: Option<string>,
    cancelledAt: Option<string>,
    expiredAt: Option<string>)

  datatype AnswerRow = AnswerRow(
    answerId: string,
    askId: string,
    session: string,
    task: Option<string>,
    selected: seq<string>,
    text: Option<string>,
    key: Option<string>,
    createdAt: string)

  /** The columns of truth values hold 0 and 1. */
  function Bit(b: bool): (r: int)
    ensures r == 1 <==> b
    ensures r == 0 <==> !b
  {
    if b then 1 else 0
  }

  function OptionalText(t: Option<Time>): Option<string> { if t.None? then None else Some(Iso(t.value)) }

  /** None for a text that does not parse; otherwise the optional time. */
  function OptionalTime(s: Option<string>): Option<Option<Time>> {
    if s.None? then Some(None)
    else match Parse(s.value) case None => None case Some(t) => Some(Some(t))
  }

  lemma OptionalTimeRoundTrip(t: Option<Time>)
    ensures OptionalTime(OptionalText(t)) == Some(t)
  {
    if t.Some? {
      ParseIso(t.value);
    }
  }

  /** `_request_to_row`. */
  function EncodeRequest(r: Request): AskRow {
    AskRow(r.id, r.session, r.task, r.wording, r.options, r.answerType,
           Bit(r.allowFreeText), Bit(r.allowNoOptionWithText), Bit(r.blocking), r.status,
           r.answerId, r.resumeHint, Iso(r.createdAt),
           OptionalText(r.answeredAt), OptionalText(r.deferredAt),
           OptionalText(r.cancelledAt), OptionalText(r.expiredAt))
  }

  /** `_request_from_row`: the columns are read back and the request is validated again; None is the exception. */
  function DecodeRequest(row: AskRow): Option<Request> {
    var created := Parse(row.createdAt);
    var answered, deferred := OptionalTime(row.answeredAt), OptionalTime(row.deferredAt);
    var cancelled, expired := OptionalTime(row.cancelledAt), OptionalTime(row.expiredAt);
    if created.None? || answered.None? || deferred.None? || cancelled.None? || expired.None?
    then None
    else
      var r := Request(row.askId, row.session, row.task, row.wording, row.options, row.answerType,
                       row.allowFreeText != 0, row.allowNoOptionWithText != 0, row.blocking != 0, row.status,
                       row.answerId, row.resumeHint, created.value,
                       answered.value, deferred.value, cancelled.value, expired.value);
      if WellFormed(r) then Some(r) else None
  }

  /** A stored request comes back iff it is well-formed; otherwise reading it raises. */
  lemma RequestRoundTrip(r: Request)
    ensures DecodeRequest(EncodeRequest(r)) == if WellFormed(r) then Some(r) else None
  {
    ParseIso(r.createdAt);
    OptionalTimeRoundTrip(r.answeredAt);
    OptionalTimeRoundTrip(r.deferredAt);
    OptionalTimeRoundTrip(r.cancelledAt);
    OptionalTimeRoundTrip(r.expiredAt);
  }

  function EncodeAnswer(a: Answer): AnswerRow {
    AnswerRow(a.id, a.ask, a.session, a.task, a.selected, a.text, a.key, Iso(a.createdAt))
  }

  function DecodeAnswer(row: AnswerRow): Option<Answer> {
    match Parse(row.createdAt)
    case None => None
    case Some(t) =>
      var a := Answer(row.answerId, row.askId, row.session, row.task, row.selected, row.text, row.key, t);
      if WellFormedAnswer(a) then Some(a) else None
  }

  lemma AnswerRoundTrip(a: Answer)
    ensures DecodeAnswer(EncodeAnswer(a)) == if WellFormedAnswer(a) then Some(a) else None
  {
    ParseIso(a.createdAt);
  }

  // ---- The tables ----

  datatype Tables = Tables(asks: map<string, AskRow>, answers: map<string, AnswerRow>, remembered: map<Key, Result>)

  const NoRows: Tables := Tables(map[], map[], map[])

  /** `SELECT * FROM asks WHERE session_id = ? AND ask_id = ?`. */
  function FindRow(t: Tables, session: string, ask: string): Option<AskRow> {
    if ask in t.asks && t.asks[ask].session == session then Some(t.asks[ask]) else None
  }

  /** Reading a request: absent, present, or an exception from a row that does not validate. */
  datatype Read<T> = Absent | Present(value: T) | Unreadable

  function ReadRequest(t: Tables, session: string, ask: string): Read<Request> {
    match FindRow(t, session, ask)
    case None => Absent
    case Some(row) => match DecodeRequest(row) case None => Unreadable case Some(r) => Present(r)
  }

  /** The answer's primary key and the uniqueness of its ask. */
  predicate CanInsertAnswer(t: Tables, a: Answer) {
    && a.id !in t.answers && a.ask in t.asks
    && forall id :: id in t.answers ==> t.answers[id].askId != a.ask
  }

  /** The statements of an accepted command; a violated constraint rolls the transaction back. */
  function Commit(t: Tables, c: Command, r: Result): (Tables, Reply)
    requires !c.Create?
  {
    var accepted := r.outcome.Accepted? && r.ask.Some?;
    if accepted && r.answer.Some? && !CanInsertAnswer(t, r.answer.value) then (t, StoreError)
    else
      var u :=
        if !accepted then t
        else t.(answers := if r.answer.None? then t.answers
                           else t.answers[r.answer.value.id := EncodeAnswer(r.answer.value)],
                asks := if FindRow(t, r.ask.value.session, r.ask.value.id).Some?
                        then t.asks[r.ask.value.id := EncodeRequest(r.ask.value)] else t.asks);
      (if c.key.Some? && (c.session, c.key.value) !in u.remembered
       then u.(remembered := u.remembered[(c.session, c.key.value) := r]) else u,
       Outcome(r))
  }

  /** A remembered result is validated again when it is read. */
  predicate ReadsBack(r: Result) {
    (r.ask.Some? ==> WellFormed(r.ask.value)) && (r.answer.Some? ==> WellFormedAnswer(r.answer.value))
  }

  function SqlStep(t: Tables, c: Command): (Tables, Reply)
    requires Valid(c)
  {
    if c.Create? then
      if c.request.id in t.asks then (t, StoreError)
      else (t.(asks := t.asks[c.request.id := EncodeRequest(c.request)]), Created(c.request))
    else if Keyed(c) && KeyOf(c) in t.remembered then
      (t, if ReadsBack(t.remembered[KeyOf(c)]) then Outcome(AsReplay(t.remembered[KeyOf(c)])) else StoreError)
    else
      match ReadRequest(t, c.session, c.ask)
      case Unreadable => (t, StoreError)
      case Absent => Commit(t, c, Perform(None, c))
      case Present(r) => Commit(t, c, Perform(Some(r), c))
  }

  // ---- Refinement ----

  ghost predicate RowOf(row: AskRow, r: Request) { row == EncodeRequest(r) && WellFormed(r) }

  ghost predicate AnswerRowOf(row: AnswerRow, a: Answer) { row == EncodeAnswer(a) && WellFormedAnswer(a) }

  /** The request under `k` has its row, and the row under `id` its request. */
  ghost predicate HasRow(requests: map<Key, Request>, asks: map<string, AskRow>, k: Key) {
    k in requests ==>
      requests[k].session == k.0 && requests[k].id == k.1 && k.1 in asks && RowOf(asks[k.1], requests[k])
  }

  ghost predicate HasRequest(requests: map<Key, Request>, asks: map<string, AskRow>, id: string) {
    id in asks ==> (asks[id].session, id) in requests
  }

  ghost predicate SameAsks(requests: map<Key, Request>, asks: map<string, AskRow>) {
    (forall k :: HasRow(requests, asks, k)) && (forall id :: HasRequest(requests, asks, id))
  }

  ghost predicate HasAnswerRow(answers: map<Key, Answer>, rows: map<string, AnswerRow>, k: Key) {
    k in answers ==>
      && answers[k].session == k.0 && answers[k].ask == k.1
      && answers[k].id in rows && AnswerRowOf(rows[answers[k].id], answers[k])
  }

  ghost predicate HasAnswer(answers: map<Key, Answer>, rows: map<string, AnswerRow>, id: string) {
    id in rows ==> var k := (rows[id].session, rows[id].askId); k in answers && answers[k].id == id
  }

  ghost predicate SameAnswers(answers: map<Key, Answer>, rows: map<string, AnswerRow>) {
    (forall k :: HasAnswerRow(answers, rows, k)) && (forall id :: HasAnswer(answers, rows, id))
  }

  ghost predicate Refines(s: Store, t: Tables) {
    && Consistent(s) && SameAsks(s.requests, t.asks) && SameAnswers(s.answers, t.answers)
    && t.remembered == s.remembered && forall k :: k in t.remembered ==> ReadsBack(t.remembered[k])
  }

  /** An ask id is used by one session only. */
  lemma OneSession(requests: map<Key, Request>, asks: map<string, AskRow>, k: Key, x: Key)
    requires SameAsks(requests, asks) && k in requests && x in requests && k.1 == x.1
    ensures k == x
  {
    assert HasRow(requests, asks, k) && HasRow(requests, asks, x);
  }

  lemma PutRequest(requests: map<Key, Request>, asks: map<string, AskRow>, k: Key, r: Request)
    requires SameAsks(requests, asks) && WellFormed(r) && r.session == k.0 && r.id == k.1
    requires k.1 in asks ==> k in requests
    ensures SameAsks(requests[k := r], asks[k.1 := EncodeRequest(r)])
  {
    var requests', asks' := requests[k := r], asks[k.1 := EncodeRequest(r)];
    forall x ensures HasRow(requests', asks', x) {
      assert HasRow(requests, asks, x);
      if x in requests && x.1 == k.1 {
        OneSession(requests, asks, k, x);
      }
    }
    forall id ensures HasRequest(requests', asks', id) {
      assert HasRequest(requests, asks, id);
    }
  }

  lemma PutAnswer(answers: map<Key, Answer>, rows: map<string, AnswerRow>, k: Key, a: Answer)
    requires SameAnswers(answers, rows) && WellFormedAnswer(a) && a.session == k.0 && a.ask == k.1
    requires k !in answers && a.id !in rows
    ensures SameAnswers(answers[k := a], rows[a.id := EncodeAnswer(a)])
  {
    var answers', rows' := answers[k := a], rows[a.id := EncodeAnswer(a)];
    forall x ensures HasAnswerRow(answers', rows', x) {
      assert HasAnswerRow(answers, rows, x);
    }
    forall id ensures HasAnswer(answers', rows', id) {
      assert HasAnswer(answers, rows, id);
      if id in rows {
        assert (rows[id].session, rows[id].askId) != k;
      }
    }
  }

  /** `SELECT * FROM ask_answers WHERE session_id = ? AND ask_id = ?` yields this. */
  ghost predicate ReadsAnswer(t: Tables, session: string, ask: string, result: Option<Answer>) {
    match result
    case None => forall id :: id in t.answers ==> !(t.answers[id].session == session && t.answers[id].askId == ask)
    case Some(a) =>
      && (exists id :: id in t.answers && t.answers[id].session == session && t.answers[id].askId == ask)
      && (forall id :: id in t.answers && t.answers[id].session == session && t.answers[id].askId == ask ==>
            DecodeAnswer(t.answers[id]) == Some(a))
  }

  /** Through `get` the stores cannot be told apart. */
  lemma SameRequestRead(s: Store, t: Tables, session: string, ask: string)
    requires Refines(s, t)
    ensures ReadRequest(t, session, ask) == match s.Get(session, ask) case None => Absent case Some(r) => Present(r)
  {
    assert HasRow(s.requests, t.asks, (session, ask)) && HasRequest(s.requests, t.asks, ask);
    if (session, ask) in s.requests {
      RequestRoundTrip(s.requests[(session, ask)]);
    }
  }

  /** Nor through `get_answer`. */
  lemma SameAnswerRead(s: Store, t: Tables, session: string, ask: string)
    requires Refines(s, t)
    ensures ReadsAnswer(t, session, ask, s.GetAnswer(session, ask))
  {
    var k := (session, ask);
    assert HasAnswerRow(s.answers, t.answers, k);
    if k in s.answers {
      AnswerRoundTrip(s.answers[k]);
    }
    forall id | id in t.answers && t.answers[id].session == session && t.answers[id].askId == ask
      ensures k in s.answers && s.answers[k].id == id
    {
      assert HasAnswer(s.answers, t.answers, id);
    }
  }

  /** The two ways in which a command can tell the stores apart: an ask id that another session uses, or an accepted
      answer under an answer id already stored. */
  predicate Clashes(t: Tables, c: Command) {
    if c.Create? then c.request.id in t.asks && t.asks[c.request.id].session != c.request.session
    else
      && c.AnswerAsk? && !(Keyed(c) && KeyOf(c) in t.remembered)
      && c.answer.id in t.answers
      && ReadRequest(t, c.session, c.ask).Present?
      && AnswerRequest(Some(ReadRequest(t, c.session, c.ask).value), c.answer, c.key).outcome.Accepted?
  }

  /** A transition with an empty reason that takes effect leaves a row that cannot be read back. */
  predicate Spoils(s: Store, c: Command) {
    && c.Move? && c.reason == Some("") && !(Keyed(c) && KeyOf(c) in s.remembered)
    && s.Get(c.session, c.ask).Some? && s.Get(c.session, c.ask).value.status.Pending?
  }

  lemma CreateRefines(s: Store, t: Tables, r: Request)
    requires Refines(s, t) && WellFormed(r) && r.status.Pending?
    ensures Step(s, Create(r)).1 == SqlStep(t, Create(r)).1 <==> !Clashes(t, Create(r))
    ensures !Clashes(t, Create(r)) <==> Refines(Step(s, Create(r)).0, SqlStep(t, Create(r)).0)
  {
    var k := (r.session, r.id);
    var u := Step(s, Create(r)).0;
    assert HasRow(s.requests, t.asks, k) && HasRequest(s.requests, t.asks, r.id);
    if k !in s.requests && r.id !in t.asks {
      CreateConsistent(s, r);
      PutRequest(s.requests, t.asks, k, r);
    }
    if Clashes(t, Create(r)) {
      assert !HasRow(u.requests, SqlStep(t, Create(r)).0.asks, k);
    }
  }

  lemma NoOtherAnswer(s: Store, t: Tables, k: Key, a: Answer)
    requires Refines(s, t) && k in s.requests && s.requests[k].status.Pending? && a.ask == k.1
    ensures CanInsertAnswer(t, a) <==> a.id !in t.answers
  {
    assert HasRow(s.requests, t.asks, k) && ConsistentAt(s, k);
    forall id | id in t.answers ensures t.answers[id].askId != a.ask {
      var other := (t.answers[id].session, t.answers[id].askId);
      assert HasAnswer(s.answers, t.answers, id) && ConsistentAt(s, other);
      if other.1 == k.1 {
        OneSession(s.requests, t.asks, k, other);
      }
    }
  }

  /** What the statements of an accepted command on a stored request leave in the tables. */
  lemma CommitStatements(t: Tables, c: Command, r: Result)
    requires !c.Create? && r.outcome.Accepted? && r.ask.Some?
    requires FindRow(t, r.ask.value.session, r.ask.value.id).Some?
    requires r.answer.Some? ==> CanInsertAnswer(t, r.answer.value)
    ensures Commit(t, c, r).1 == Outcome(r)
    ensures Commit(t, c, r).0.asks == t.asks[r.ask.value.id := EncodeRequest(r.ask.value)]
    ensures Commit(t, c, r).0.answers ==
            if r.answer.Some? then t.answers[r.answer.value.id := EncodeAnswer(r.answer.value)] else t.answers
  {
  }

  lemma AcceptedCommit(s: Store, t: Tables, c: Command, r: Result)
    requires Refines(s, t) && !c.Create? && r.outcome.Accepted? && Effect(s.Get(c.session, c.ask), r)
    requires r.answer.Some? ==> CanInsertAnswer(t, r.answer.value)
    ensures Commit(t, c, r).1 == Outcome(r)
    ensures Commit(t, c, r).0.asks == t.asks[c.ask := EncodeRequest(r.ask.value)]
    ensures Commit(t, c, r).0.answers ==
            if r.answer.Some? then t.answers[r.answer.value.id := EncodeAnswer(r.answer.value)] else t.answers
  {
    RowFound(s, t, (c.session, c.ask));
    assert ConsistentAt(s, (c.session, c.ask));
    CommitStatements(t, c, r);
  }

  lemma RowFound(s: Store, t: Tables, k: Key)
    requires Refines(s, t) && k in s.requests
    ensures FindRow(t, k.0, k.1).Some?
  {
    assert HasRow(s.requests, t.asks, k);
  }

  /** Recording one performed command in both stores. */
  lemma CommitRefines(s: Store, t: Tables, c: Command, r: Result)
    requires Refines(s, t) && !c.Create? && !(Keyed(c) && KeyOf(c) in s.remembered)
    requires Effect(s.Get(c.session, c.ask), r)
    requires ReadsBack(r)
    requires r.outcome.Accepted? && r.answer.Some? ==> CanInsertAnswer(t, r.answer.value)
    ensures Commit(t, c, r).1 == Outcome(r)
    ensures Refines(Record(s, c, r), Commit(t, c, r).0)
  {
    var k := (c.session, c.ask);
    RecordConsistent(s, c, r);
    if r.outcome.Accepted? {
      AcceptedCommit(s, t, c, r);
      assert ConsistentAt(s, k);
      PutRequest(s.requests, t.asks, k, r.ask.value);
      if r.answer.Some? {
        PutAnswer(s.answers, t.answers, k, r.answer.value);
      }
    }
  }

  /** A performed command's result reads back iff it is not an accepted transition with an empty reason. */
  lemma PerformReadsBack(request: Option<Request>, c: Command)
    requires Valid(c) && !c.Create? && (request.Some? ==> WellFormed(request.value))
    ensures var r := Perform(request, c);
            ReadsBack(r) <==> !(c.Move? && c.reason == Some("") && request.Some? && request.value.status.Pending?)
  {
  }

  lemma SqlStepIsCommit(s: Store, t: Tables, c: Command)
    requires Refines(s, t) && Valid(c) && !c.Create? && !(Keyed(c) && KeyOf(c) in s.remembered)
    ensures SqlStep(t, c) == Commit(t, c, Perform(s.Get(c.session, c.ask), c))
    ensures Clashes(t, c) <==>
            && c.AnswerAsk? && c.answer.id in t.answers
            && Perform(s.Get(c.session, c.ask), c).outcome.Accepted?
  {
    SameRequestRead(s, t, c.session, c.ask);
  }

  /** The transaction goes through iff the command does not clash. */
  lemma CommitsIff(s: Store, t: Tables, c: Command, r: Result)
    requires Refines(s, t) && Valid(c) && !c.Create? && r == Perform(s.Get(c.session, c.ask), c)
    ensures r.outcome.Accepted? && r.answer.Some? ==>
              && c.AnswerAsk? && r.answer.value.id == c.answer.id
              && (CanInsertAnswer(t, r.answer.value) <==> c.answer.id !in t.answers)
    ensures r.outcome.Accepted? && c.AnswerAsk? ==> r.answer.Some?
  {
    var k := (c.session, c.ask);
    PerformEffect(s.Get(c.session, c.ask), c);
    if r.outcome.Accepted? && r.answer.Some? {
      assert HasRow(s.requests, t.asks, k);
      NoOtherAnswer(s, t, k, r.answer.value);
    }
  }

  lemma PerformRefines(s: Store, t: Tables, c: Command)
    requires Refines(s, t) && Valid(c) && !c.Create? && !(Keyed(c) && KeyOf(c) in s.remembered)
    ensures var r := Perform(s.Get(c.session, c.ask), c);
            && SqlStep(t, c) == Commit(t, c, r)
            && (Commit(t, c, r).1 == Outcome(r) <==> !Clashes(t, c))
            && (!Clashes(t, c) && !Spoils(s, c) ==> Refines(Record(s, c, r), Commit(t, c, r).0))
  {
    var request := s.Get(c.session, c.ask);
    var r := Perform(request, c);
    SqlStepIsCommit(s, t, c);
    CommitsIff(s, t, c, r);
    if !Clashes(t, c) && !Spoils(s, c) {
      assert HasRow(s.requests, t.asks, (c.session, c.ask));
      PerformEffect(request, c);
      PerformReadsBack(request, c);
      CommitRefines(s, t, c, r);
    }
  }

  /** A clash or an empty reason that takes effect leaves a request without its row. */
  lemma PerformBreaks(s: Store, t: Tables, c: Command)
    requires Refines(s, t) && Valid(c) && !c.Create? && !(Keyed(c) && KeyOf(c) in s.remembered)
    requires Clashes(t, c) || Spoils(s, c)
    ensures !Refines(Step(s, c).0, SqlStep(t, c).0)
  {
    var k := (c.session, c.ask);
    var u, v := Step(s, c).0, SqlStep(t, c).0;
    var r := Perform(s.Get(c.session, c.ask), c);
    SqlStepIsCommit(s, t, c);
    CommitsIff(s, t, c, r);
    PerformEffect(s.Get(c.session, c.ask), c);
    assert HasRow(s.requests, t.asks, k);
    PerformReadsBack(s.Get(c.session, c.ask), c);
    assert u.requests[k] == r.ask.value;
    assert !HasRow(u.requests, v.asks, k);
  }

  /** One command on related stores: the replies agree iff the command does not clash, and the stores stay related iff
      it neither clashes nor takes effect with an empty reason. */
  lemma StepRefines(s: Store, t: Tables, c: Command)
    requires Refines(s, t) && Valid(c) && PendingCreate(c)
    ensures Step(s, c).1 == SqlStep(t, c).1 <==> !Clashes(t, c)
    ensures Refines(Step(s, c).0, SqlStep(t, c).0) <==> !Clashes(t, c) && !Spoils(s, c)
  {
    if c.Create? {
      CreateRefines(s, t, c.request);
    } else if !(Keyed(c) && KeyOf(c) in s.remembered) {
      PerformRefines(s, t, c);
      if Clashes(t, c) || Spoils(s, c) {
        PerformBreaks(s, t, c);
      }
    }
  }

  // ---- Whole histories ----

  /** The tables after a history on an empty database, and the reply to its last command. */
  function SqlAfter(history: seq<Command>): Tables
    requires AllValid(history)
  {
    if history == [] then NoRows else SqlStep(SqlAfter(history[..|history| - 1]), history[|history| - 1]).0
  }

  function SqlLastReply(history: seq<Command>): Reply
    requires AllValid(history) && history != []
  {
    SqlStep(SqlAfter(history[..|history| - 1]), history[|history| - 1]).1
  }

  ghost predicate CreatedIn(history: seq<Command>, k: Key) {
    exists i :: 0 <= i < |history| && history[i].Create? && (history[i].request.session, history[i].request.id) == k
  }

  ghost predicate AnsweredIn(history: seq<Command>, k: Key, id: string) {
    exists i :: 0 <= i < |history| && history[i].AnswerAsk? && history[i].answer.id == id
                && (history[i].session, history[i].ask) == k
  }

  /** An ask id belongs to one session, and an answer id to one ask. */
  ghost predicate ConsistentIds(history: seq<Command>) {
    && (forall k, x :: CreatedIn(history, k) && CreatedIn(history, x) && k.1 == x.1 ==> k == x)
    && (forall k, x, id :: AnsweredIn(history, k, id) && AnsweredIn(history, x, id) ==> k == x)
  }

  /** Everything stored came in by a command. */
  ghost predicate Origins(history: seq<Command>, s: Store) {
    && (forall k :: k in s.requests ==> CreatedIn(history, k))
    && (forall k :: k in s.answers ==> AnsweredIn(history, k, s.answers[k].id))
  }

  lemma OriginsKept(history: seq<Command>, c: Command, s: Store)
    requires Origins(history, s)
    ensures Origins(history + [c], s)
  {
    var longer := history + [c];
    forall k | k in s.requests ensures CreatedIn(longer, k) {
      var i :| 0 <= i < |history| && history[i].Create? && (history[i].request.session, history[i].request.id) == k;
      assert longer[i] == history[i];
    }
    forall k | k in s.answers ensures AnsweredIn(longer, k, s.answers[k].id) {
      var i :| 0 <= i < |history| && history[i].AnswerAsk? && history[i].answer.id == s.answers[k].id
               && (history[i].session, history[i].ask) == k;
      assert longer[i] == history[i];
    }
  }

  /** An entry that a command adds or changes is its own. */
  lemma StepTouches(s: Store, c: Command, k: Key)
    requires Valid(c)
    ensures var u := Step(s, c).0;
            && (k in u.requests && k !in s.requests ==> c.Create? && k == (c.request.session, c.request.id))
            && (k in u.answers && (k !in s.answers || u.answers[k] != s.answers[k]) ==>
                  c.AnswerAsk? && k == (c.session, c.ask) && u.answers[k].id == c.answer.id)
  {
    if !c.Create? {
      PerformEffect(s.Get(c.session, c.ask), c);
    }
  }

  lemma OriginsStep(history: seq<Command>, c: Command, s: Store)
    requires Origins(history, s) && Valid(c)
    ensures Origins(history + [c], Step(s, c).0)
  {
    var longer, u := history + [c], Step(s, c).0;
    OriginsKept(history, c, s);
    assert longer[|history|] == c;
    forall k | k in u.requests ensures CreatedIn(longer, k) {
      StepTouches(s, c, k);
    }
    forall k | k in u.answers ensures AnsweredIn(longer, k, u.answers[k].id) {
      StepTouches(s, c, k);
    }
  }

  lemma ConsistentIdsPrefix(history: seq<Command>, c: Command)
    requires ConsistentIds(history + [c])
    ensures ConsistentIds(history)
  {
    var longer := history + [c];
    forall k | CreatedIn(history, k) ensures CreatedIn(longer, k) {
      var i :| 0 <= i < |history| && history[i].Create? && (history[i].request.session, history[i].request.id) == k;
      assert longer[i] == history[i];
    }
    forall k, id | AnsweredIn(history, k, id) ensures AnsweredIn(longer, k, id) {
      var i :| 0 <= i < |history| && history[i].AnswerAsk? && history[i].answer.id == id
               && (history[i].session, history[i].ask) == k;
      assert longer[i] == history[i];
    }
  }

  /** With consistent ids no command of the history ever clashes. */
  lemma NoClash(history: seq<Command>, c: Command, s: Store, t: Tables)
    requires Refines(s, t) && Origins(history, s) && Valid(c) && ConsistentIds(history + [c])
    ensures !Clashes(t, c)
  {
    var longer := history + [c];
    OriginsKept(history, c, s);
    assert longer[|history|] == c;
    if c.Create? {
      if c.request.id in t.asks {
        assert HasRequest(s.requests, t.asks, c.request.id);
        assert CreatedIn(longer, (t.asks[c.request.id].session, c.request.id));
        assert CreatedIn(longer, (c.request.session, c.request.id));
      }
    } else if c.AnswerAsk? && !(Keyed(c) && KeyOf(c) in t.remembered) && c.answer.id in t.answers {
      SqlStepIsCommit(s, t, c);
      PerformEffect(s.Get(c.session, c.ask), c);
      assert HasAnswer(s.answers, t.answers, c.answer.id);
      var k := (t.answers[c.answer.id].session, t.answers[c.answer.id].askId);
      assert AnsweredIn(longer, k, c.answer.id) && AnsweredIn(longer, (c.session, c.ask), c.answer.id);
      assert ConsistentAt(s, k);
    }
  }

  ghost predicate WellBehaved(history: seq<Command>) {
    && AllValid(history) && ConsistentIds(history)
    && forall i :: 0 <= i < |history| ==> 
         PendingCreate(history[i]) && (history[i].Move? ==> NotEmpty(history[i].reason))
  }

  lemma WellBehavedFront(history: seq<Command>)
    requires WellBehaved(history) && history != []
    ensures WellBehaved(history[..|history| - 1])
  {
    var front := history[..|history| - 1];
    assert history == front + [history[|history| - 1]];
    ConsistentIdsPrefix(front, history[|history| - 1]);
  }

  /** Over every history with consistent ids and no empty reason, the SQLite store answers every command as the
      in-memory store does and holds the same requests, answers and remembered results. */
  lemma {:induction false} HistoryRefines(history: seq<Command>)
    requires WellBehaved(history)
    ensures Refines(After(history), SqlAfter(history)) && Origins(history, After(history))
    ensures history != [] ==> LastReply(history) == SqlLastReply(history)
  {
    if history != [] {
      var front, c := history[..|history| - 1], history[|history| - 1];
      assert history == front + [c];
      WellBehavedFront(history);
      HistoryRefines(front);
      NoClash(front, c, After(front), SqlAfter(front));
      StepRefines(After(front), SqlAfter(front), c);
      OriginsStep(front, c, After(front));
    }
  }

  /** The stores are related after the history and after every shorter beginning of it. */
  ghost predicate RelatedThroughout(history: seq<Command>)
    requires AllValid(history)
  {
    && Refines(After(history), SqlAfter(history))
    && (history != [] ==> RelatedThroughout(history[..|history| - 1]))
  }

  /** No command of the history clashed, or took effect with an empty reason, when it came. */
  ghost predicate NeverBroken(history: seq<Command>)
    requires AllValid(history)
  {
    history != [] ==>
      var front, c := history[..|history| - 1], history[|history| - 1];
      NeverBroken(front) && !Clashes(SqlAfter(front), c) && !Spoils(After(front), c)
  }

  /** For any history of pending creates and commands, whatever its ids and reasons: the stores are related all along
      iff no command of it clashed or spoiled a row when it came, and then they also reply alike. */
  lemma {:induction false} RelatedIff(history: seq<Command>)
    requires AllValid(history) && forall i :: 0 <= i < |history| ==> PendingCreate(history[i])
    ensures RelatedThroughout(history) <==> NeverBroken(history)
    ensures history != [] && NeverBroken(history) ==> LastReply(history) == SqlLastReply(history)
  {
    if history != [] {
      var front, c := history[..|history| - 1], history[|history| - 1];
      RelatedIff(front);
      if Refines(After(front), SqlAfter(front)) {
        StepRefines(After(front), SqlAfter(front), c);
      }
    }
  }

  // ---- The conditions are needed ----

  /** Two sessions that use one ask id: the second create succeeds in memory and fails in SQLite. */
  lemma SharedAskIdDiffers(a: Request, b: Request)
    requires WellFormed(a) && WellFormed(b) && a.id == b.id && a.session != b.session
    ensures LastReply([Create(a), Create(b)]) == Created(b)
    ensures SqlLastReply([Create(a), Create(b)]) == StoreError
  {
    var h := [Create(a), Create(b)];
    assert h[..1] == [Create(a)] && h[..1][..0] == [];
    assert After(h[..1]) == Step(Empty, Create(a)).0;
    assert SqlAfter(h[..1]) == SqlStep(NoRows, Create(a)).0;
  }

  /** An answer under an id that is already stored: accepted in memory, rolled back in SQLite. */
  lemma SharedAnswerIdDiffers(s: Store, t: Tables, c: Command)
    requires Refines(s, t) && Valid(c) && c.AnswerAsk? && c.answer.id in t.answers
    requires !(Keyed(c) && KeyOf(c) in s.remembered)
    requires AnswerRequest(s.Get(c.session, c.ask), c.answer, c.key).outcome.Accepted?
    ensures Step(s, c).1.Outcome? && Step(s, c).1.result.outcome.Accepted?
    ensures SqlStep(t, c) == (t, StoreError)
  {
    SqlStepIsCommit(s, t, c);
    CommitsIff(s, t, c, Perform(s.Get(c.session, c.ask), c));
  }

  /** A transition that takes effect with an empty reason: the in-memory store shows the request, the SQLite row
      cannot be read; and if the command had a key, sending it again is replayed in memory and fails in SQLite. */
  lemma EmptyReasonDiffers(s: Store, t: Tables, c: Command)
    requires Refines(s, t) && Valid(c) && Spoils(s, c)
    ensures var u, v := Step(s, c).0, SqlStep(t, c).0;
            && u.Get(c.session, c.ask).Some? && ReadRequest(v, c.session, c.ask).Unreadable?
            && (Keyed(c) ==> Step(u, c).1.Outcome? && SqlStep(v, c).1.StoreError?)
  {
    var request := s.Get(c.session, c.ask);
    var r := Perform(request, c);
    SqlStepIsCommit(s, t, c);
    PerformEffect(request, c);
    assert HasRow(s.requests, t.asks, (c.session, c.ask));
    PerformReadsBack(request, c);
    AcceptedCommit(s, t, c, r);
    RequestRoundTrip(r.ask.value);
  }

  // ---- Listings ----

  /** The in-memory sort key (created_at, ask_id). */
  predicate ListedBefore(a: Request, b: Request) {
    if a.createdAt != b.createdAt then NotAfter(a.createdAt, b.createdAt) else TextOrder.Leq(a.id, b.id)
  }

  /** ORDER BY created_at, ask_id on text. */
  predicate RowBefore(a: AskRow, b: AskRow) {
    if a.createdAt != b.createdAt then TextOrder.Leq(a.createdAt, b.createdAt) else TextOrder.Leq(a.askId, b.askId)
  }

  datatype Filter = Filter(session: string, statuses: Option<seq<Status>>, task: Option<string>) {
    predicate Wants(s: string, status: Status, t: Option<string>) {
      s == session && (task.None? || t == task) && (statuses.None? || status in statuses.value)
    }
  }

  /** The wanted requests in some order of storage. */
  ghost predicate HoldsRequests(l: seq<Request>, s: Store, f: Filter) {
    && NoDuplicates(l)
    && forall r :: r in l <==>
         && (r.session, r.id) in s.requests && s.requests[(r.session, r.id)] == r
         && r.session == f.session && (f.task.Some? ==> r.task == f.task)
         && (f.statuses.Some? ==> r.status in f.statuses.value)
  }

  /** The wanted rows in some order of storage. */
  ghost predicate HoldsRows(l: seq<AskRow>, t: Tables, f: Filter) {
    && NoDuplicates(l)
    && forall r :: r in l <==> r.askId in t.asks && t.asks[r.askId] == r && f.Wants(r.session, r.status, r.task)
  }

  function EncodeAll(l: seq<Request>): (rows: seq<AskRow>)
    ensures |rows| == |l| && forall i :: 0 <= i < |l| ==> rows[i] == EncodeRequest(l[i])
  {
    seq(|l|, i requires 0 <= i < |l| => EncodeRequest(l[i]))
  }

  lemma SameOrder(a: Request, b: Request)
    ensures RowBefore(EncodeRequest(a), EncodeRequest(b)) <==> ListedBefore(a, b)
  {
    IsoInjective(a.createdAt, b.createdAt);
    IsoOrder(a.createdAt, b.createdAt);
  }

  lemma RowBeforeOrders()
    ensures Sorting.TotalPreorder(RowBefore)
  {
    forall a: AskRow, b: AskRow ensures RowBefore(a, b) || RowBefore(b, a) {
      TextOrder.LeqTotal(a.createdAt, b.createdAt);
      TextOrder.LeqTotal(a.askId, b.askId);
    }
    forall a: AskRow, b: AskRow, c: AskRow | RowBefore(a, b) && RowBefore(b, c) ensures RowBefore(a, c) {
      if a.createdAt == b.createdAt == c.createdAt {
        TextOrder.LeqTransitive(a.askId, b.askId, c.askId);
      } else {
        TextOrder.LeqTransitiveStrict(a.createdAt, b.createdAt, c.createdAt);
      }
    }
  }

  lemma ListedBeforeOrders()
    ensures Sorting.TotalPreorder(ListedBefore)
  {
    RowBeforeOrders();
    forall a: Request, b: Request ensures RowBefore(EncodeRequest(a), EncodeRequest(b)) <==> ListedBefore(a, b) {
      SameOrder(a, b);
    }
    forall a: Request, b: Request ensures ListedBefore(a, b) || ListedBefore(b, a) {
      assert RowBefore(EncodeRequest(a), EncodeRequest(b)) || RowBefore(EncodeRequest(b), EncodeRequest(a));
    }
    forall a: Request, b: Request, c: Request | ListedBefore(a, b) && ListedBefore(b, c) ensures ListedBefore(a, c) {
      assert RowBefore(EncodeRequest(a), EncodeRequest(b)) && RowBefore(EncodeRequest(b), EncodeRequest(c));
    }
  }

  /** The rows wanted are the encodings of the requests wanted. */
  lemma SameWanted(s: Store, t: Tables, f: Filter, l: seq<Request>, rows: seq<AskRow>, row: AskRow)
    requires Refines(s, t) && HoldsRequests(l, s, f) && HoldsRows(rows, t, f)
    ensures row in rows <==> row in EncodeAll(l)
  {
    if row in rows {
      var k := (row.session, row.askId);
      assert HasRequest(s.requests, t.asks, row.askId) && HasRow(s.requests, t.asks, k);
      var r := s.requests[k];
      assert r in l;
      var i :| 0 <= i < |l| && l[i] == r;
      assert EncodeAll(l)[i] == row;
    }
    if row in EncodeAll(l) {
      var i :| 0 <= i < |l| && EncodeAll(l)[i] == row;
      assert l[i] in l;
      assert HasRow(s.requests, t.asks, (l[i].session, l[i].id));
    }
  }

  lemma EncodeAllDistinct(s: Store, t: Tables, f: Filter, l: seq<Request>)
    requires Refines(s, t) && HoldsRequests(l, s, f)
    ensures NoDuplicates(EncodeAll(l))
    ensures forall i :: 0 <= i < |l| ==> DecodeRequest(EncodeAll(l)[i]) == Some(l[i])
  {
    forall i | 0 <= i < |l| ensures DecodeRequest(EncodeAll(l)[i]) == Some(l[i]) {
      assert l[i] in l;
      assert HasRow(s.requests, t.asks, (l[i].session, l[i].id));
      RequestRoundTrip(l[i]);
    }
  }

  /** Sorting keeps what is held. */
  lemma SortedHolds(s: Store, f: Filter, l: seq<Request>)
    requires HoldsRequests(l, s, f)
    ensures HoldsRequests(Sorting.Sort(ListedBefore, l), s, f)
  {
    var sorted := Sorting.Sort(ListedBefore, l);
    forall r: Request ensures r in sorted <==> r in l {
      Sorting.SortMembers(ListedBefore, l, r);
    }
    forall r | r in sorted ensures multiset(sorted)[r] <= 1 {
      NoDuplicatesMultiset(l, r);
    }
    MultisetNoDuplicates(sorted);
  }

  /** An ask id names its row, so the keys of the rows held are distinct. */
  lemma RowKeysDistinct(t: Tables, f: Filter, rows: seq<AskRow>)
    requires HoldsRows(rows, t, f)
    ensures Sorting.DistinctKeys(RowBefore, rows)
  {
    forall a, b | a in rows && b in rows && RowBefore(a, b) && RowBefore(b, a) ensures a == b {
      if a.createdAt != b.createdAt {
        TextOrder.LeqAntisymmetric(a.createdAt, b.createdAt);
      } else {
        TextOrder.LeqAntisymmetric(a.askId, b.askId);
      }
    }
  }

  /** The list goes by creation time, ties by id. */
  lemma ListedInOrder(l: seq<Request>, i: nat, j: nat)
    requires i < j < |l|
    ensures var sorted := Sorting.Sort(ListedBefore, l);
            && |sorted| == |l| && NotAfter(sorted[i].createdAt, sorted[j].createdAt)
            && (sorted[i].createdAt == sorted[j].createdAt ==> TextOrder.Leq(sorted[i].id, sorted[j].id))
  {
    var sorted := Sorting.Sort(ListedBefore, l);
    ListedBeforeOrders();
    Sorting.SortSorts(ListedBefore, l);
    assert |multiset(sorted)| == |multiset(l)|;
    assert ListedBefore(sorted[i], sorted[j]);
    IsoOrder(sorted[i].createdAt, sorted[i].createdAt);
  }

  /** `list_for_session` yields the same list from either store, in whatever orders the two keep their entries. */
  lemma ListingsAgree(s: Store, t: Tables, f: Filter, l: seq<Request>, rows: seq<AskRow>)
    requires Refines(s, t) && HoldsRequests(l, s, f) && HoldsRows(rows, t, f)
    ensures Sorting.Sort(RowBefore, rows) == EncodeAll(Sorting.Sort(ListedBefore, l))
    ensures forall i :: 0 <= i < |Sorting.Sort(ListedBefore, l)| ==>
              DecodeRequest(EncodeAll(Sorting.Sort(ListedBefore, l))[i]) == Some(Sorting.Sort(ListedBefore, l)[i])
  {
    var sorted := Sorting.Sort(ListedBefore, l);
    SortedHolds(s, f, l);
    EncodeAllDistinct(s, t, f, sorted);
    forall row ensures row in rows <==> row in EncodeAll(sorted) {
      SameWanted(s, t, f, sorted, rows, row);
    }
    SameMembersSameMultiset(rows, EncodeAll(sorted));
    ListedBeforeOrders();
    Sorting.SortSorts(ListedBefore, l);
    forall i, j | 0 <= i < j < |sorted| ensures RowBefore(EncodeAll(sorted)[i], EncodeAll(sorted)[j]) {
      SameOrder(sorted[i], sorted[j]);
    }
    RowBeforeOrders();
    Sorting.SortSorts(RowBefore, rows);
    RowKeysDistinct(t, f, rows);
    forall row ensures row in Sorting.Sort(RowBefore, rows) <==> row in rows {
      Sorting.SortMembers(RowBefore, rows, row);
    }
    Sorting.SortedUnique(RowBefore, Sorting.Sort(RowBefore, rows), EncodeAll(sorted));
  }

  // ---- The class ----

  class SqliteAskStore {
    var asks: map<string, AskRow>
    var answers: map<string, AnswerRow>
    var remembered: map<Key, Result>

    constructor ()
      ensures Here() == NoRows
    {
      asks, answers, remembered := map[], map[], map[];
    }

    function Here(): Tables
      reads this
    {
      Tables(asks, answers, remembered)
    }

    method CreateAsk(request: Request) returns (reply: Reply)
      requires WellFormed(request)
      modifies this
      ensures (Here(), reply) == SqlStep(old(Here()), Create(request))
    {
      if request.id in asks {
        return StoreError;
      }
      asks := asks[request.id := EncodeRequest(request)];
      reply := Created(request);
    }

    /** The transaction: insert the answer, update the request, remember the result; a violated constraint undoes
        everything. */
    method Transact(c: Command, r: Result) returns (reply: Reply)
      requires !c.Create?
      modifies this
      ensures (Here(), reply) == Commit(old(Here()), c, r)
    {
      if r.outcome.Accepted? && r.ask.Some? {
        if r.answer.Some? {
          if !CanInsertAnswer(Here(), r.answer.value) {
            return StoreError;
          }
          answers := answers[r.answer.value.id := EncodeAnswer(r.answer.value)];
        }
        var ask := r.ask.value;
        if ask.id in asks && asks[ask.id].session == ask.session {
          asks := asks[ask.id := EncodeRequest(ask)];
        }
      }
      if c.key.Some? && (c.session, c.key.value) !in remembered {
        remembered := remembered[(c.session, c.key.value) := r];
      }
      reply := Outcome(r);
    }

    /** `answer`, `defer`, `cancel` and `expire`. */
    method Execute(c: Command) returns (reply: Reply)
      requires Valid(c) && !c.Create?
      modifies this
      ensures (Here(), reply) == SqlStep(old(Here()), c)
    {
      if c.key.Some? && (c.session, c.key.value) in remembered {
        var first := remembered[(c.session, c.key.value)];
        return if ReadsBack(first) then Outcome(AsReplay(first)) else StoreError;
      }
      match ReadRequest(Here(), c.session, c.ask)
      case Unreadable =>
        reply := StoreError;
      case Absent =>
        reply := Transact(c, Perform(None, c));
      case Present(request) =>
        reply := Transact(c, Perform(Some(request), c));
    }
  }
}
