/** Execution ASKs and their in-memory store (`interaction/ask.py`). Clocks are parameters of the commands. */
module Ask {
  import opened Common
  import opened IsoTime
  import Autonomy

  datatype Status = Pending | Answered | Deferred | Cancelled | Expired
  datatype AnswerType = FreeText | SingleChoice | MultiChoice | Boolean

  /** The parts of a request that no command looks into. */
  datatype Wording = Wording(agent: string, question: string, reason: string, questions: seq<string>, createdBy: string)

  datatype Request = Request(
    id: string,
    session: string,
    task: Option<string>,
    wording: Wording,
    options: seq<string>,
    answerType: AnswerType,
    allowFreeText: bool,
    allowNoOptionWithText: bool,
    blocking: bool,
    status: Status,
    answerId: Option<string>,
    resumeHint: Option<string>,
    createdAt: Time,
    answeredAt: Option<Time>,
    deferredAt: Option<Time>,
    cancelledAt: Option<Time>,
    expiredAt: Option<Time>)

  datatype Answer = Answer(
    id: string,
    ask: string,
    session: string,
    task: Option<string>,
    selected: seq<string>,
    text: Option<string>,
    key: Option<string>,
    createdAt: Time)

  /** Python's `Field(min_length=1)` on an optional string. */
  predicate NotEmpty(s: Option<string>) { s != Some("") }

  /** What the model validators of a request accept. */
  predicate WellFormed(r: Request) {
    && r.id != "" && r.session != "" && NotEmpty(r.task) && NotEmpty(r.answerId) && NotEmpty(r.resumeHint)
    && (r.blocking ==> r.task.Some?)
    && (r.status.Answered? ==> r.answerId.Some? && r.answeredAt.Some?)
    && (!r.status.Answered? ==> r.answerId.None?)
  }

  /** What the model validators of an answer accept. */
  predicate WellFormedAnswer(a: Answer) {
    && a.id != "" && a.ask != "" && a.session != "" && NotEmpty(a.task) && NotEmpty(a.text) && NotEmpty(a.key)
    && (a.selected != [] || a.text.Some?)
  }

  /** What they reject, one flaw after the other. */
  lemma MalformedIff(r: Request, a: Answer)
    ensures !WellFormed(r) <==>
            || r.id == "" || r.session == "" || r.task == Some("") || r.answerId == Some("") || r.resumeHint == Some("")
            || (r.blocking && r.task.None?)
            || (r.status == Answered && (r.answerId.None? || r.answeredAt.None?))
            || (r.status != Answered && r.answerId.Some?)
    ensures !WellFormedAnswer(a) <==>
            || a.id == "" || a.ask == "" || a.session == "" || a.task == Some("") || a.text == Some("")
            || a.key == Some("") || (a.selected == [] && a.text.None?)
  {
  }

  datatype CommandKind = AnswerKind | DeferKind | CancelKind | ExpireKind {
    function Target(): Status {
      match this
      case AnswerKind => Answered
      case DeferKind => Deferred
      case CancelKind => Cancelled
      case ExpireKind => Expired
    }
  }

  datatype Flaw =
    | UnknownOptions | NoFreeText | FreeTextWithOptions | FreeTextWithoutText | TooManyOptions | OptionMissing
    | NotExactlyOne

  datatype Message = NotFound | TargetMismatch | TaskMismatch | NotPending(status: Status) | Invalid(flaw: Flaw)
                   | KeyMismatch | Done(now: Status)

  datatype Outcome = Accepted | Replayed | Rejected

  datatype Result = Result(
    outcome: Outcome, message: Message, ask: Option<Request>, answer: Option<Answer>, kind: CommandKind,
    key: Option<string>)

  function Refuse(m: Message, kind: CommandKind, ask: Option<Request>, key: Option<string>): Result {
    Result(Rejected, m, ask, None, kind, key)
  }

  // ---- The pure part ----

  /** `_validate_answer_against_request`. */
  function FlawOf(r: Request, a: Answer): Option<Flaw> {
    var hasText := a.text.Some? && Autonomy.Strip(a.text.value) != "";
    if exists o :: o in a.selected && o !in r.options then Some(UnknownOptions)
    else if a.text.Some? && !r.allowFreeText then Some(NoFreeText)
    else
      match r.answerType
      case FreeText =>
        if a.selected != [] then Some(FreeTextWithOptions) else if !hasText then Some(FreeTextWithoutText) else None
      case SingleChoice =>
        if |a.selected| > 1 then Some(TooManyOptions)
        else if |a.selected| == 0 && !(r.allowNoOptionWithText && hasText) then Some(OptionMissing) else None
      case MultiChoice =>
        if |a.selected| == 0 && !(r.allowNoOptionWithText && hasText) then Some(OptionMissing) else None
      case Boolean => if |a.selected| != 1 then Some(NotExactlyOne) else None
  }

  /** Everything selected was offered. */
  predicate OnlyOffered(r: Request, a: Answer) { forall o :: o in a.selected ==> o in r.options }

  predicate SaysSomething(a: Answer) { a.text.Some? && Autonomy.Strip(a.text.value) != "" }

  /** How many options an answer may select; none at all only with words instead, where the request allows that. */
  predicate FitsCount(r: Request, a: Answer) {
    var none := |a.selected| == 0 && r.allowNoOptionWithText && SaysSomething(a);
    match r.answerType
    case FreeText => |a.selected| == 0 && SaysSomething(a)
    case SingleChoice => |a.selected| == 1 || none
    case MultiChoice => |a.selected| >= 1 || none
    case Boolean => |a.selected| == 1
  }

  /** An answer has no flaw iff it selects only what was offered, speaks only if it may, and fits the kind of question;
      so a free-text answer is possible only where free text is allowed. */
  lemma NoFlawIff(r: Request, a: Answer)
    ensures FlawOf(r, a).None? <==>
            OnlyOffered(r, a) && (a.text.Some? ==> r.allowFreeText) && FitsCount(r, a)
    ensures FlawOf(r, a).None? && r.answerType.FreeText? ==> r.allowFreeText
    ensures FlawOf(r, a).None? && r.answerType.Boolean? ==> |a.selected| == 1 && a.selected[0] in r.options
  {
    if FlawOf(r, a).None? && r.answerType.Boolean? {
      assert a.selected[0] in a.selected;
    }
  }

  /** `_answer_request`. */
  function AnswerRequest(request: Option<Request>, a: Answer, key: Option<string>): Result {
    if request.None? then Refuse(NotFound, AnswerKind, None, key)
    else
      var r := request.value;
      if a.session != r.session || a.ask != r.id then Refuse(TargetMismatch, AnswerKind, request, key)
      else if r.task != a.task then Refuse(TaskMismatch, AnswerKind, request, key)
      else if r.status != Pending then Refuse(NotPending(r.status), AnswerKind, request, key)
      else if FlawOf(r, a).Some? then Refuse(Invalid(FlawOf(r, a).value), AnswerKind, request, key)
      else if key.Some? && a.key != key && a.key.Some? then Refuse(KeyMismatch, AnswerKind, request, key)
      else
        var effective := if key.Some? then a.(key := key) else a;
        Result(Accepted, Done(Answered),
               Some(r.(status := Answered, answerId := Some(a.id), answeredAt := Some(a.createdAt))),
               Some(effective), AnswerKind, key)
  }

  /** `_transition_request`. */
  function TransitionRequest(request: Option<Request>, kind: CommandKind, reason: Option<string>,
                             key: Option<string>, now: Time): Result
    requires !kind.AnswerKind?
  {
    if request.None? then Refuse(NotFound, kind, None, key)
    else
      var r := request.value;
      if r.status != Pending then Refuse(NotPending(r.status), kind, request, key)
      else
        var stamped :=
          match kind
          case DeferKind => r.(deferredAt := Some(now))
          case CancelKind => r.(cancelledAt := Some(now))
          case _ => r.(expiredAt := Some(now));
        var moved := stamped.(status := kind.Target(), resumeHint := reason);
        Result(Accepted, Done(kind.Target()), Some(moved), None, kind, key)
  }

  /** An answer is accepted iff it names this pending request and its task, fits the question, and does not carry a
      different key of its own. */
  lemma AcceptedIff(request: Option<Request>, a: Answer, key: Option<string>)
    ensures AnswerRequest(request, a, key).outcome.Accepted? <==>
            && request.Some? && request.value.status == Pending
            && a.session == request.value.session && a.ask == request.value.id && a.task == request.value.task
            && FlawOf(request.value, a).None?
            && (key.None? || a.key.None? || a.key == key)
  {
  }

  /** Whatever is accepted leaves a well-formed request, unless a transition is given an empty reason. */
  lemma AcceptedWellFormed(r: Request, a: Answer, kind: CommandKind, reason: Option<string>, key: Option<string>,
                           now: Time)
    requires WellFormed(r) && WellFormedAnswer(a) && NotEmpty(key)
    ensures var x := AnswerRequest(Some(r), a, key);
            x.outcome.Accepted? ==> WellFormed(x.ask.value) && WellFormedAnswer(x.answer.value)
    ensures !kind.AnswerKind? ==>
              var x := TransitionRequest(Some(r), kind, reason, key, now);
              x.outcome.Accepted? ==> (WellFormed(x.ask.value) <==> NotEmpty(reason))
  {
  }

  /** An accepted answer sets status, answer id and answer time and nothing else; the answer is stored as given, under
      the command's key if there is one. */
  lemma AnswerEffect(r: Request, a: Answer, key: Option<string>)
    requires AnswerRequest(Some(r), a, key).outcome.Accepted?
    ensures var x := AnswerRequest(Some(r), a, key);
            && x.ask.Some? && x.answer.Some? && x.kind.AnswerKind? && x.key == key && x.message == Done(Answered)
            && x.ask.value.status == Answered && x.ask.value.answerId == Some(a.id)
            && x.ask.value.answeredAt == Some(a.createdAt)
            && x.ask.value.(status := r.status, answerId := r.answerId, answeredAt := r.answeredAt) == r
            && x.answer.value.key == (if key.Some? then key else a.key) && x.answer.value.(key := a.key) == a
  {
  }

  /** Why an answer is refused: the first of these that applies. */
  lemma AnswerRefusal(request: Option<Request>, a: Answer, key: Option<string>)
    ensures var x := AnswerRequest(request, a, key);
            && (request.None? <==> x.message == NotFound)
            && (x.message == TargetMismatch <==>
                  request.Some? && (a.session != request.value.session || a.ask != request.value.id))
            && (x.message == TaskMismatch <==>
                  && request.Some? && a.session == request.value.session && a.ask == request.value.id
                  && a.task != request.value.task)
            && (x.message.NotPending? ==> request.Some? && x.message.status == request.value.status != Pending)
            && (x.message.Invalid? ==> request.Some? && FlawOf(request.value, a) == Some(x.message.flaw))
            && (x.message == KeyMismatch ==> key.Some? && a.key.Some? && a.key != key)
            && (!x.outcome.Accepted? ==>
                  x.outcome.Rejected? && x.ask == request && x.answer.None? && x.kind.AnswerKind? && x.key == key)
  {
  }

  /** Which flaw is reported, first match first. */
  lemma FlawReported(r: Request, a: Answer)
    ensures FlawOf(r, a) == Some(UnknownOptions) <==> !OnlyOffered(r, a)
    ensures FlawOf(r, a) == Some(NoFreeText) <==> OnlyOffered(r, a) && a.text.Some? && !r.allowFreeText
    ensures OnlyOffered(r, a) && (a.text.Some? ==> r.allowFreeText) ==>
              && (FlawOf(r, a) == Some(FreeTextWithOptions) <==> r.answerType.FreeText? && |a.selected| > 0)
              && (FlawOf(r, a) == Some(FreeTextWithoutText) <==>
                    r.answerType.FreeText? && |a.selected| == 0 && !SaysSomething(a))
              && (FlawOf(r, a) == Some(TooManyOptions) <==> r.answerType.SingleChoice? && |a.selected| > 1)
              && (FlawOf(r, a) == Some(NotExactlyOne) <==> r.answerType.Boolean? && |a.selected| != 1)
              && (FlawOf(r, a) == Some(OptionMissing) <==>
                    && (r.answerType.SingleChoice? || r.answerType.MultiChoice?)
                    && |a.selected| == 0 && !(r.allowNoOptionWithText && SaysSomething(a)))
  {
  }

  /** A defer ends deferred, a cancel cancelled, an expire expired; each stamps its own time, keeps the other stamps,
      takes the reason as the resume hint, and touches nothing else. */
  lemma MoveEffect(r: Request, kind: CommandKind, reason: Option<string>, key: Option<string>, now: Time)
    requires r.status == Pending && !kind.AnswerKind?
    ensures var x := TransitionRequest(Some(r), kind, reason, key, now);
            && x.outcome.Accepted? && x.ask.Some? && x.answer.None? && x.kind == kind && x.key == key
            && (kind.DeferKind? ==>
                  x.message == Done(Deferred)
                  && x.ask.value == r.(status := Deferred, deferredAt := Some(now), resumeHint := reason))
            && (kind.CancelKind? ==>
                  x.message == Done(Cancelled)
                  && x.ask.value == r.(status := Cancelled, cancelledAt := Some(now), resumeHint := reason))
            && (kind.ExpireKind? ==>
                  x.message == Done(Expired)
                  && x.ask.value == r.(status := Expired, expiredAt := Some(now), resumeHint := reason))
  {
  }

  /** A transition of an unknown request or of one that is not pending is refused with the request as it is. */
  lemma MoveRefusal(request: Option<Request>, kind: CommandKind, reason: Option<string>, key: Option<string>, now: Time)
    requires !kind.AnswerKind? && (request.None? || request.value.status != Pending)
    ensures TransitionRequest(request, kind, reason, key, now) ==
            Result(Rejected, if request.None? then NotFound else NotPending(request.value.status), request, None, kind,
                   key)
  {
  }

  // ---- Commands and the in-memory store ----

  datatype Command =
    | Create(request: Request)
    | AnswerAsk(session: string, ask: string, answer: Answer, key: Option<string>)
    | Move(session: string, ask: string, kind: CommandKind, reason: Option<string>, key: Option<string>, now: Time)

  /** What reaches the store: validated models, keys that are not empty, and a transition of some kind. */
  predicate Valid(c: Command) {
    match c
    case Create(r) => WellFormed(r)
    case AnswerAsk(_, _, a, key) => WellFormedAnswer(a) && NotEmpty(key)
    case Move(_, _, kind, _, key, _) => !kind.AnswerKind? && NotEmpty(key)
  }

  datatype Reply = Created(request: Request) | StoreError | Outcome(result: Result)

  type Key = (string, string)

  datatype Store = Store(requests: map<Key, Request>, answers: map<Key, Answer>, remembered: map<Key, Result>) {
    function Get(session: string, ask: string): Option<Request> {
      if (session, ask) in requests then Some(requests[(session, ask)]) else None
    }

    function GetAnswer(session: string, ask: string): Option<Answer> {
      if (session, ask) in answers then Some(answers[(session, ask)]) else None
    }
  }

  const Empty: Store := Store(map[], map[], map[])

  /** What a later use of a key gets: the first result, accepted turned to replayed. */
  function AsReplay(r: Result): Result { if r.outcome.Rejected? then r else r.(outcome := Replayed) }

  predicate Keyed(c: Command) { !c.Create? && c.key.Some? }

  function KeyOf(c: Command): Key
    requires Keyed(c)
  {
    (c.session, c.key.value)
  }

  /** The result of a command that is not a replay. */
  function Perform(request: Option<Request>, c: Command): Result
    requires Valid(c) && !c.Create?
  {
    match c
    case AnswerAsk(_, _, a, key) => AnswerRequest(request, a, key)
    case Move(_, _, kind, reason, key, now) => TransitionRequest(request, kind, reason, key, now)
  }

  function Record(s: Store, c: Command, r: Result): Store
    requires !c.Create?
  {
    var k := (c.session, c.ask);
    var stored :=
      if r.outcome.Accepted? && r.ask.Some? then
        s.(requests := s.requests[k := r.ask.value],
           answers := if r.answer.Some? then s.answers[k := r.answer.value] else s.answers)
      else s;
    if c.key.Some? then stored.(remembered := stored.remembered[(c.session, c.key.value) := r]) else stored
  }

  function Step(s: Store, c: Command): (Store, Reply)
    requires Valid(c)
  {
    if c.Create? then
      var k := (c.request.session, c.request.id);
      if k in s.requests then (s, StoreError) else (s.(requests := s.requests[k := c.request]), Created(c.request))
    else if Keyed(c) && KeyOf(c) in s.remembered then (s, Outcome(AsReplay(s.remembered[KeyOf(c)])))
    else
      var r := Perform(s.Get(c.session, c.ask), c);
      (Record(s, c, r), Outcome(r))
  }

  /** A create stores its request unless the session has that id already. */
  lemma CreateDoes(s: Store, r: Request)
    requires WellFormed(r)
    ensures var (u, reply) := Step(s, Create(r));
            && ((r.session, r.id) in s.requests ==> u == s && reply == StoreError)
            && ((r.session, r.id) !in s.requests ==>
                  u == s.(requests := s.requests[(r.session, r.id) := r]) && reply == Created(r))
  {
  }

  /** A command under a key that was used changes nothing. Any other is performed on the request it names; accepted, it
      replaces that request and stores its answer, refused, it changes neither; and a keyed one is remembered. */
  lemma CommandDoes(s: Store, c: Command)
    requires Valid(c) && !c.Create?
    ensures var (u, reply) := Step(s, c);
            var k := (c.session, c.ask);
            && reply.Outcome?
            && (c.key.Some? && (c.session, c.key.value) in s.remembered ==> u == s)
            && (!(c.key.Some? && (c.session, c.key.value) in s.remembered) ==>
                  var r := reply.result;
                  && r == (match c
                           case AnswerAsk(_, _, a, key) => AnswerRequest(s.Get(c.session, c.ask), a, key)
                           case Move(_, _, kind, reason, key, now) =>
                             TransitionRequest(s.Get(c.session, c.ask), kind, reason, key, now))
                  && (r.outcome.Accepted? ==> r.ask.Some? && u.requests == s.requests[k := r.ask.value])
                  && (r.outcome.Accepted? && c.AnswerAsk? ==>
                        r.answer.Some? && u.answers == s.answers[k := r.answer.value])
                  && (!r.outcome.Accepted? ==> u.requests == s.requests)
                  && (!r.outcome.Accepted? || !c.AnswerAsk? ==> u.answers == s.answers)
                  && u.remembered ==
                       (if c.key.Some? then s.remembered[(c.session, c.key.value) := r] else s.remembered))
  {
  }

  predicate AllValid(history: seq<Command>) { forall i :: 0 <= i < |history| ==> Valid(history[i]) }

  /** The state after a history of commands on an empty store. */
  function After(history: seq<Command>): Store
    requires AllValid(history)
  {
    if history == [] then Empty else Step(After(history[..|history| - 1]), history[|history| - 1]).0
  }

  /** The reply to the last command of a history. */
  function LastReply(history: seq<Command>): Reply
    requires AllValid(history) && history != []
  {
    Step(After(history[..|history| - 1]), history[|history| - 1]).1
  }

  class InMemoryAskStore {
    var requests: map<Key, Request>
    var answers: map<Key, Answer>
    var remembered: map<Key, Result>

    constructor ()
      ensures Here() == Empty
    {
      requests, answers, remembered := map[], map[], map[];
    }

    function Here(): Store
      reads this
    {
      Store(requests, answers, remembered)
    }

    method CreateAsk(request: Request) returns (reply: Reply)
      requires WellFormed(request)
      modifies this
      ensures (Here(), reply) == Step(old(Here()), Create(request))
    {
      var k := (request.session, request.id);
      if k in requests {
        return StoreError;
      }
      requests := requests[k := request];
      reply := Created(request);
    }

    /** `answer`, `defer`, `cancel` and `expire`. */
    method Execute(c: Command) returns (reply: Reply)
      requires Valid(c) && !c.Create?
      modifies this
      ensures (Here(), reply) == Step(old(Here()), c)
    {
      if c.key.Some? && (c.session, c.key.value) in remembered {
        return Outcome(AsReplay(remembered[(c.session, c.key.value)]));
      }
      var k := (c.session, c.ask);
      var r := Perform(if k in requests then Some(requests[k]) else None, c);
      if r.outcome.Accepted? && r.ask.Some? {
        requests := requests[k := r.ask.value];
        if r.answer.Some? {
          answers := answers[k := r.answer.value];
        }
      }
      if c.key.Some? {
        remembered := remembered[(c.session, c.key.value) := r];
      }
      reply := Outcome(r);
    }
  }

  // ---- Lifecycle ----

  /** A request and an answer sit under their own key, and an answer is stored iff its request is answered by it. */
  ghost predicate ConsistentAt(s: Store, k: Key) {
    && (k in s.requests ==> s.requests[k].session == k.0 && s.requests[k].id == k.1)
    && (k in s.answers ==> s.answers[k].session == k.0 && s.answers[k].ask == k.1)
    && (k in s.answers <==> k in s.requests && s.requests[k].status.Answered?)
    && (k in s.answers ==> s.requests[k].answerId == Some(s.answers[k].id))
  }

  /** That at every key, and every remembered result is that of a first use. */
  ghost predicate Consistent(s: Store) {
    && (forall k :: ConsistentAt(s, k))
    && (forall k :: k in s.remembered ==> !s.remembered[k].outcome.Replayed?)
  }

  /** Creates are of pending requests. */
  predicate PendingCreate(c: Command) { c.Create? ==> c.request.status.Pending? }

  /** What an accepted command does to its request. */
  ghost predicate Effect(request: Option<Request>, r: Result) {
    && !r.outcome.Replayed?
    && (r.outcome.Accepted? ==>
          && request.Some? && request.value.status.Pending?
          && r.ask.Some? && r.ask.value.id == request.value.id && r.ask.value.session == request.value.session
          && !r.ask.value.status.Pending?
          && (r.answer.Some? <==> r.ask.value.status.Answered?)
          && (r.answer.Some? ==>
                && r.ask.value.answerId == Some(r.answer.value.id)
                && r.answer.value.session == request.value.session && r.answer.value.ask == request.value.id))
  }

  lemma PerformEffect(request: Option<Request>, c: Command)
    requires Valid(c) && !c.Create?
    ensures Effect(request, Perform(request, c))
  {
  }

  lemma RecordConsistent(s: Store, c: Command, r: Result)
    requires Consistent(s) && !c.Create? && Effect(s.Get(c.session, c.ask), r)
    ensures Consistent(Record(s, c, r))
  {
    var u := Record(s, c, r);
    forall k ensures ConsistentAt(u, k) {
      assert ConsistentAt(s, k);
    }
  }

  lemma RecordSettles(s: Store, c: Command, r: Result)
    requires Consistent(s) && !c.Create? && Effect(s.Get(c.session, c.ask), r)
    requires Keyed(c) ==> KeyOf(c) !in s.remembered
    ensures Settled(s, Record(s, c, r))
  {
    assert ConsistentAt(s, (c.session, c.ask));
  }

  lemma CreateConsistent(s: Store, r: Request)
    requires Consistent(s) && r.status.Pending? && (r.session, r.id) !in s.requests
    ensures Consistent(s.(requests := s.requests[(r.session, r.id) := r]))
    ensures Settled(s, s.(requests := s.requests[(r.session, r.id) := r]))
  {
    var u := s.(requests := s.requests[(r.session, r.id) := r]);
    forall k ensures ConsistentAt(u, k) {
      assert ConsistentAt(s, k);
    }
  }

  lemma StepConsistent(s: Store, c: Command)
    requires Consistent(s) && Valid(c) && PendingCreate(c)
    ensures Consistent(Step(s, c).0) && Settled(s, Step(s, c).0)
  {
    if c.Create? {
      if (c.request.session, c.request.id) !in s.requests {
        CreateConsistent(s, c.request);
      }
    } else if !(Keyed(c) && KeyOf(c) in s.remembered) {
      PerformEffect(s.Get(c.session, c.ask), c);
      RecordConsistent(s, c, Perform(s.Get(c.session, c.ask), c));
      RecordSettles(s, c, Perform(s.Get(c.session, c.ask), c));
    }
  }

  lemma {:induction false} HistoryConsistent(history: seq<Command>)
    requires AllValid(history) && forall i :: 0 <= i < |history| ==> PendingCreate(history[i])
    ensures Consistent(After(history))
  {
    if history != [] {
      HistoryConsistent(history[..|history| - 1]);
      StepConsistent(After(history[..|history| - 1]), history[|history| - 1]);
    }
  }

  /** What no command changes: a request that left pending, its answer, and the result kept for a key. A request can
      only appear, or leave pending. */
  ghost predicate Settled(s: Store, u: Store) {
    && (forall k :: k in s.requests ==> k in u.requests)
    && (forall k :: k in s.requests && !s.requests[k].status.Pending? ==> u.requests[k] == s.requests[k])
    && (forall k :: k in s.requests && u.requests[k] != s.requests[k] ==>
          s.requests[k].status.Pending? && !u.requests[k].status.Pending?)
    && (forall k :: k in s.answers ==> k in u.answers && u.answers[k] == s.answers[k])
    && (forall k :: k in s.remembered ==> k in u.remembered && u.remembered[k] == s.remembered[k])
  }

  lemma SettledTransitive(s: Store, u: Store, v: Store)
    requires Settled(s, u) && Settled(u, v)
    ensures Settled(s, v)
  {
  }

  /** Over any history an ASK leaves pending at most once and is frozen from then on, answers never change, and what is
      remembered for a key never changes. */
  lemma {:induction false} HistorySettles(history: seq<Command>, n: nat)
    requires AllValid(history) && n <= |history| && forall i :: 0 <= i < |history| ==> PendingCreate(history[i])
    ensures Settled(After(history[..n]), After(history))
  {
    if n == |history| {
      assert history[..n] == history;
    } else {
      var front := history[..|history| - 1];
      HistorySettles(front, n);
      assert front[..n] == history[..n];
      HistoryConsistent(front);
      StepConsistent(After(front), history[|history| - 1]);
      SettledTransitive(After(history[..n]), After(front), After(history));
    }
  }

  /** A key has its effect once: whatever command is sent with it later, on whatever ASK of the session, gets the
      first reply with accepted turned to replayed, and changes nothing. */
  lemma KeyActsOnce(history: seq<Command>, i: nat)
    requires AllValid(history) && history != [] && i < |history| - 1
    requires forall j :: 0 <= j < |history| ==> PendingCreate(history[j])
    requires Keyed(history[i]) && Keyed(history[|history| - 1]) && KeyOf(history[i]) == KeyOf(history[|history| - 1])
    ensures After(history) == After(history[..|history| - 1])
    ensures LastReply(history) == Outcome(AsReplay(LastReply(history[..i + 1]).result))
    ensures var first, again := LastReply(history[..i + 1]).result, LastReply(history).result;
            && again.outcome == (if first.outcome.Rejected? then Rejected else Replayed)
            && again.(outcome := first.outcome) == first
  {
    var front := history[..|history| - 1];
    var first := history[..i + 1];
    assert first[..i] == history[..i] && first[i] == history[i];
    HistorySettles(front, i + 1);
    assert front[..i + 1] == first;
    assert KeyOf(history[i]) in After(first).remembered;
  }

  // ---- Which command an ASK owes its status to ----

  ghost predicate PendingCreates(history: seq<Command>) {
    forall i :: 0 <= i < |history| ==> PendingCreate(history[i])
  }

  /** Command `i` took the ASK out of pending. */
  ghost predicate TookOut(history: seq<Command>, i: nat, k: Key)
    requires AllValid(history)
  {
    && i < |history|
    && k in After(history[..i]).requests && After(history[..i]).requests[k].status == Pending
    && k in After(history[..i + 1]).requests && After(history[..i + 1]).requests[k].status != Pending
  }

  /** What is on record of the command: its own status and stamp. */
  predicate Records(c: Command, r: Request) {
    match c
    case Create(_) => false
    case AnswerAsk(_, _, a, _) => r.status == Answered && r.answerId == Some(a.id) && r.answeredAt == Some(a.createdAt)
    case Move(_, _, DeferKind, reason, _, now) =>
      r.status == Deferred && r.deferredAt == Some(now) && r.resumeHint == reason
    case Move(_, _, CancelKind, reason, _, now) =>
      r.status == Cancelled && r.cancelledAt == Some(now) && r.resumeHint == reason
    case Move(_, _, _, reason, _, now) => r.status == Expired && r.expiredAt == Some(now) && r.resumeHint == reason
  }

  lemma TakenOutByStep(s: Store, c: Command, k: Key)
    requires Valid(c) && k in s.requests && s.requests[k].status == Pending
    requires k in Step(s, c).0.requests && Step(s, c).0.requests[k].status != Pending
    ensures !c.Create? && (c.session, c.ask) == k && Records(c, Step(s, c).0.requests[k])
  {
    if !c.Create? {
      CommandDoes(s, c);
    }
  }

  /** After any history an ASK is answered, deferred, cancelled or expired exactly as the one command that took it out
      of pending says, with that command's answer or time and reason. */
  lemma StatusNamesItsCommand(history: seq<Command>, i: nat, k: Key)
    requires AllValid(history) && PendingCreates(history) && TookOut(history, i, k)
    ensures k in After(history).requests && Records(history[i], After(history).requests[k])
    ensures !history[i].Create? && (history[i].session, history[i].ask) == k
    ensures After(history).requests[k].status == Answered <==> history[i].AnswerAsk?
    ensures After(history).requests[k].status == Deferred <==> history[i].Move? && history[i].kind.DeferKind?
    ensures After(history).requests[k].status == Cancelled <==> history[i].Move? && history[i].kind.CancelKind?
    ensures After(history).requests[k].status == Expired <==> history[i].Move? && history[i].kind.ExpireKind?
  {
    assert history[..i + 1][..i] == history[..i] && history[..i + 1][i] == history[i];
    TakenOutByStep(After(history[..i]), history[i], k);
    HistorySettles(history, i + 1);
  }

  /** And there is such a command whenever an ASK is not pending, and only one. */
  lemma {:induction false} LeftPendingOnce(history: seq<Command>, k: Key)
    requires AllValid(history) && PendingCreates(history)
    requires k in After(history).requests && After(history).requests[k].status != Pending
    ensures exists i: nat :: TookOut(history, i, k)
    ensures forall i: nat, j: nat :: TookOut(history, i, k) && TookOut(history, j, k) ==> i == j
  {
    var n := |history| - 1;
    var front := history[..n];
    assert history[..|history|] == history;
    if k in After(front).requests && After(front).requests[k].status != Pending {
      LeftPendingOnce(front, k);
      var i: nat :| TookOut(front, i, k);
      assert front[..i] == history[..i] && front[..i + 1] == history[..i + 1];
      assert TookOut(history, i, k);
    } else {
      HistoryConsistent(front);
      assert k in After(front).requests by {
        if !history[n].Create? {
          CommandDoes(After(front), history[n]);
          PerformEffect(After(front).Get(history[n].session, history[n].ask), history[n]);
        }
      }
      assert TookOut(history, n, k);
    }
    forall i: nat, j: nat | TookOut(history, i, k) && TookOut(history, j, k) && i < j ensures false {
      TakenOutStays(history, i, j, k);
    }
  }

  lemma TakenOutStays(history: seq<Command>, i: nat, j: nat, k: Key)
    requires AllValid(history) && PendingCreates(history) && TookOut(history, i, k) && i < j <= |history|
    ensures k in After(history[..j]).requests && After(history[..j]).requests[k].status != Pending
  {
    assert history[..j][..i + 1] == history[..i + 1];
    HistorySettles(history[..j], i + 1);
  }
}
