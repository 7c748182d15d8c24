/** The vocabulary of the gated agent loop (`loop.py`, `wait.py`): actions, events, why an action was run, and the
    ledger that relates the actions of a run to their resolutions. `AgentLoop` holds the loop itself. */
module LoopModel {
  import opened Common
  import opened Transcript
  import opened MessageStream
  import Autonomy
  import CP = ContextProvider

  datatype Action = Action(
    id: nat,
    kind: string,
    isCode: bool,
    firstLink: Autonomy.RiskAssessment,
    otherLinks: seq<Autonomy.RiskAssessment>,
    confidence: Option<real>)
  {
    /** What each link of the assessor says of this action. */
    function Links(): (r: seq<Autonomy.RiskAssessment>)
      ensures r != []
    {
      [firstLink] + otherLinks
    }
  }

  datatype Observation =
    | Ran(text: string, isCodeResult: bool, waitsForUser: bool)
    | Declined
    | TimedOutSkip
    | Finish(answer: string)
    | InvalidCall
    | LoopError(reason: StopReason)
    | Audited(text: string)

  /** An event of the run. `resolves` names the action an observation was appended for; the stored row carries it
      only for runtime and finish observations. */
  datatype Event =
    | ActionAppended(action: Action)
    | Observed(observation: Observation, resolves: Option<nat>)

  datatype StopReason =
    | NoToolCalls | AgentFinish | MaxSteps | WaitingForUser
    | Interrupted | InterruptCheckError | LlmError | LlmTimeout | ContextError
    | Raised

  datatype PendingDecision = PendingDecision(messageId: MessageId, action: Action)

  datatype Config = Config(
    gated: bool,
    hasBus: bool,
    behavior: Autonomy.Behavior,
    tools: set<string>,
    maxSteps: int,
    audits: bool,
    interruptible: bool,
    prompt: string,
    session: string)

  const FINISH_TOOL_NAME: string := "agent_finish"

  /** A tool call as the model returned it; `body` is what its arguments parse to, if they do. */
  datatype ToolCall = ToolCall(id: string, name: string, body: Option<ActionBody>)
  datatype ActionBody = ActionBody(
    kind: string,
    isCode: bool,
    firstLink: Autonomy.RiskAssessment,
    otherLinks: seq<Autonomy.RiskAssessment>,
    confidence: Option<real>)

  datatype LlmReply = LlmFailed(timedOut: bool) | Reply(content: string, calls: seq<ToolCall>)

  datatype InterruptCheck = NoIntent | Intent | CheckRaises

  /** How often the interrupt checker was asked, and what it said last. */
  datatype Checker = Checker(asked: nat, said: InterruptCheck)

  /** A wait on the bus for the reply to `id`. */
  datatype Wait = Wait(id: MessageId, timeout: Option<real>)

  function CallIds(calls: seq<ToolCall>): seq<string> {
    if calls == [] then [] else [calls[0].id] + CallIds(calls[1..])
  }

  lemma CallIdsFrom(calls: seq<ToolCall>, i: nat)
    requires i < |calls|
    ensures CallIds(calls[i..]) == [calls[i].id] + CallIds(calls[i + 1..])
  {
    assert calls[i..][1..] == calls[i + 1..];
  }

  /** The turns at which a checkpoint was rendered, the calls prepared, and the context messages inserted. */
  datatype Plan = Plan(checkpoints: seq<nat>, prepared: nat, inserted: nat)

  // ---- What the loop publishes ----

  /** The table after a notice was published, or after nothing was. */
  predicate Told(before: seq<AgentMessage>, after: seq<AgentMessage>, sent: bool, session: string, task: Option<string>,
                 parent: Option<MessageId>, about: Option<nat>)
  {
    if !sent then after == before
    else
      && |after| == |before| + 1 && before <= after
      && var m := after[|before|];
         && m.kind.Informational? && m.session == session && m.task == task && m.parent == parent
         && m.relatedAction == about && m.options == [] && m.value.None?
  }

  /** A notice changes nobody's canonical reply. */
  lemma ToldAnswersNothing(before: seq<AgentMessage>, after: seq<AgentMessage>, sent: bool, session: string,
                           task: Option<string>, parent: Option<MessageId>, about: Option<nat>, id: MessageId)
    requires Told(before, after, sent, session, task, parent, about)
    ensures ResponseFor(after, id) == ResponseFor(before, id)
  {
    if sent {
      assert after == before + [after[|before|]];
      OnlyResponsesAnswer(before, after[|before|], id);
    }
  }

  /** The question whether action `about` may run, as the user sees it. */
  predicate IsQuestion(m: AgentMessage, session: string, task: string, about: nat) {
    && m.kind.Actionable? && m.session == session && m.task == Some(task) && m.relatedAction == Some(about)
    && m.options == ["yes", "no"] && m.timeout.None? && m.parent.None? && m.value.None?
  }

  /** The table grew, and the first message added is the question. */
  predicate AskedFirst(before: seq<AgentMessage>, after: seq<AgentMessage>, session: string, task: string, about: nat) {
    |before| < |after| && before <= after && IsQuestion(after[|before|], session, task, about)
  }

  /** The canonical reply to `id` is one of the seven words of refusal, in any case and any padding. */
  ghost predicate SaidNo(rows: seq<AgentMessage>, id: MessageId) {
    ResponseFor(rows, id).Some? && exists left, s, right, word ::
      && ResponseFor(rows, id).value.value == Some(left + s + right)
      && Autonomy.Blank(left) && Autonomy.Blank(right) && Autonomy.SaysNo(word) && Autonomy.AnyCase(s, word)
  }

  lemma SaidNoIsNoApproval(rows: seq<AgentMessage>, id: MessageId)
    requires SaidNo(rows, id)
    ensures !Approved(rows, id)
  {
    var left, s, right, word :|
      && ResponseFor(rows, id).value.value == Some(left + s + right)
      && Autonomy.Blank(left) && Autonomy.Blank(right) && Autonomy.SaysNo(word) && Autonomy.AnyCase(s, word);
    Autonomy.NoRejectsInAnyCase(left, s, right, word);
  }

  // ---- Why an action was run ----

  /** `at` is how many rows the message table had when the loop read the reply (or gave up on one). */
  datatype Clearance = Ungated | BelowGate | Answered(id: MessageId, at: nat) | TimedOut(id: MessageId, at: nat)

  /** One hand-off to the runtime, with the message table of that moment. */
  datatype Execution = Execution(action: Action, clearance: Clearance, rows: seq<AgentMessage>)

  function Verdict(cfg: Config, a: Action): Autonomy.GateResult {
    Autonomy.Check(cfg.behavior, Autonomy.Composite(a.Links(), "composite"), a.confidence)
  }

  predicate MustAsk(cfg: Config, a: Action) {
    cfg.gated && Verdict(cfg, a) == Autonomy.Decision(Autonomy.Emit, false)
  }

  ghost predicate OwnActionable(rows: seq<AgentMessage>, id: MessageId, actionId: nat) {
    exists i ::
      0 <= i < |rows| && rows[i].id == id && rows[i].kind.Actionable? && rows[i].relatedAction == Some(actionId)
  }

  /** The canonical reply to `id` is stored and does not reject. */
  predicate Approved(rows: seq<AgentMessage>, id: MessageId) {
    ResponseFor(rows, id).Some? && !Autonomy.IsRejection(ResponseFor(rows, id).value.value)
  }

  ghost predicate Cleared(cfg: Config, e: Execution) {
    match e.clearance
    case Ungated => !cfg.gated
    case BelowGate => cfg.gated && Verdict(cfg, e.action).Decision? && Verdict(cfg, e.action).verdict.Proceed?
    case Answered(id, at) =>
      MustAsk(cfg, e.action) && at <= |e.rows|
      && OwnActionable(e.rows[..at], id, e.action.id) && Approved(e.rows[..at], id)
    case TimedOut(id, at) =>
      MustAsk(cfg, e.action) && at <= |e.rows|
      && OwnActionable(e.rows[..at], id, e.action.id) && ResponseFor(e.rows[..at], id).None?
      && cfg.behavior.strategy.Sync?
      && (cfg.behavior.timeoutAction.ProceedDefault? || cfg.behavior.timeoutAction.ProceedConfident?)
  }

  ghost predicate AllCleared(cfg: Config, executed: seq<Execution>) {
    executed != [] ==>
      AllCleared(cfg, executed[..|executed| - 1]) && Cleared(cfg, executed[|executed| - 1])
  }

  lemma ClearedAppend(cfg: Config, executed: seq<Execution>, e: Execution)
    requires AllCleared(cfg, executed) && Cleared(cfg, e)
    ensures AllCleared(cfg, executed + [e])
  {
    assert (executed + [e])[..|executed|] == executed;
  }

  lemma {:induction false} ClearedAt(cfg: Config, executed: seq<Execution>, i: nat)
    requires AllCleared(cfg, executed) && i < |executed|
    ensures Cleared(cfg, executed[i])
  {
    if i < |executed| - 1 {
      ClearedAt(cfg, executed[..|executed| - 1], i);
    }
  }

  /** Every queued action was sent to the user, and its own actionable is stored. */
  ghost predicate AllQueued(cfg: Config, pending: seq<PendingDecision>, rows: seq<AgentMessage>) {
    pending != [] ==>
      && MustAsk(cfg, pending[0].action) && OwnActionable(rows, pending[0].messageId, pending[0].action.id)
      && AllQueued(cfg, pending[1..], rows)
  }

  /** Among the first `at` rows `id` is the action's own actionable and its canonical reply approves. */
  ghost predicate ApprovedAt(e: Execution, id: MessageId, at: nat) {
    at <= |e.rows| && OwnActionable(e.rows[..at], id, e.action.id) && Approved(e.rows[..at], id)
  }

  /** Among the first `at` rows `id` is the action's own actionable and its canonical reply rejects. */
  ghost predicate RejectedAt(rows: seq<AgentMessage>, actionId: nat, id: MessageId, at: nat) {
    && at <= |rows| && OwnActionable(rows[..at], id, actionId)
    && ResponseFor(rows[..at], id).Some? && Autonomy.IsRejection(ResponseFor(rows[..at], id).value.value)
  }

  /** Why an action the user was asked about was neither run nor queued: the canonical reply to its own actionable
      rejects, or there was silence under a policy that does not run on silence. */
  ghost predicate SkipJustified(cfg: Config, rows: seq<AgentMessage>, actionId: nat, o: Observation) {
    || (o.Declined? && exists id, at :: RejectedAt(rows, actionId, id, at))
    || (o.TimedOutSkip? && NeverRunsOnSilence(cfg.behavior))
  }

  /** The configurations that never run an asked-about action on silence. */
  predicate NeverRunsOnSilence(b: Autonomy.Behavior) {
    b.strategy.Async? || b.timeoutAction.Skip? || b.timeoutAction.Wait?
  }

  /** Nothing the user was asked about is handed off on a reply that says no. */
  lemma NoIsNeverRun(cfg: Config, e: Execution)
    requires Cleared(cfg, e) && MustAsk(cfg, e.action)
    ensures (e.clearance.Answered? || e.clearance.TimedOut?) && e.clearance.at <= |e.rows|
    ensures !SaidNo(e.rows[..e.clearance.at], e.clearance.id)
    ensures TimeOrdered(e.rows) && e.clearance.Answered? ==> !SaidNo(e.rows, e.clearance.id)
  {
    var id, read := e.clearance.id, e.rows[..e.clearance.at];
    if SaidNo(read, id) {
      SaidNoIsNoApproval(read, id);
    }
    if TimeOrdered(e.rows) && e.clearance.Answered? && SaidNo(e.rows, id) {
      CanonicalAnswerStable(read, e.rows, id);
      SaidNoIsNoApproval(e.rows, id);
    }
  }

  /** An action the gate sends to the user, under a configuration that never runs on silence, runs only after the
      canonical reply to its own actionable was a stored non-rejection; with stamps that do not go backwards that is
      still the canonical reply at the moment of the hand-off. */
  lemma AskedMeansApproved(cfg: Config, e: Execution)
    requires Cleared(cfg, e) && MustAsk(cfg, e.action) && NeverRunsOnSilence(cfg.behavior)
    ensures exists id, at :: ApprovedAt(e, id, at) && (TimeOrdered(e.rows) ==> Approved(e.rows, id))
  {
    var id, at := e.clearance.id, e.clearance.at;
    if TimeOrdered(e.rows) {
      CanonicalAnswerStable(e.rows[..at], e.rows, id);
    }
    assert ApprovedAt(e, id, at) && (TimeOrdered(e.rows) ==> Approved(e.rows, id));
  }

  /** The behaviours under which some action would be sent to the user. */
  predicate CanAsk(b: Autonomy.Behavior) {
    || b.trigger.Always?
    || (b.trigger.OnRisk? && b.riskThreshold <= 1.0)
    || (b.trigger.OnUncertainty? && b.confidenceThreshold > 0.0)
  }

  /** The gate sends some action to the user iff the configuration can ask. */
  lemma MustAskPossibleIff(cfg: Config)
    ensures (exists a :: MustAsk(cfg, a)) <==> cfg.gated && CanAsk(cfg.behavior)
  {
    if a :| MustAsk(cfg, a) {
      var risk: Autonomy.RiskAssessment := Autonomy.Composite(a.Links(), "composite");
      assert risk.Final() <= 1.0;
    }
    if cfg.gated && CanAsk(cfg.behavior) {
      var worst: Autonomy.RiskAssessment := Autonomy.Assessment(1.0, 1.0, [], "");
      var a := Action(0, "", false, worst, [], Some(0.0));
      assert a.Links() == [worst];
      assert Autonomy.Composite([worst], "composite").Final() == 1.0;
      assert MustAsk(cfg, a);
    }
  }

  /** The configurations whose queue stays empty: no action of theirs can be deferred. */
  predicate NeverDefers(cfg: Config) { !cfg.gated || cfg.behavior.strategy.Sync? || !CanAsk(cfg.behavior) }

  /** Trigger `always`, or `on_risk` with any one link at or above the threshold. */
  predicate AlwaysAsks(cfg: Config, a: Action) {
    cfg.gated &&
    (cfg.behavior.trigger.Always?
     || (cfg.behavior.trigger.OnRisk?
         && exists i :: 0 <= i < |a.Links()| && a.Links()[i].Final() >= cfg.behavior.riskThreshold))
  }

  /** Under those triggers these are the actions the gate sends to the user, and under `never` it sends none. */
  lemma AlwaysAsksIff(cfg: Config, a: Action)
    ensures !cfg.behavior.trigger.OnUncertainty? ==> (AlwaysAsks(cfg, a) <==> MustAsk(cfg, a))
    ensures AlwaysAsks(cfg, a) ==> MustAsk(cfg, a)
  {
    Autonomy.GateDecides(cfg.behavior, a.Links(), "composite", a.confidence);
  }

  /** If the user must be asked and silence never runs anything, a stored approval of this very action was read. */
  ghost predicate Authorised(cfg: Config, e: Execution) {
    AlwaysAsks(cfg, e.action) && NeverRunsOnSilence(cfg.behavior) ==>
      exists id, at :: ApprovedAt(e, id, at) && (TimeOrdered(e.rows) ==> Approved(e.rows, id))
  }

  lemma ClearedAuthorised(cfg: Config, executed: seq<Execution>)
    requires AllCleared(cfg, executed)
    ensures forall i :: 0 <= i < |executed| ==> Authorised(cfg, executed[i])
  {
    forall i | 0 <= i < |executed| ensures Authorised(cfg, executed[i]) {
      var e := executed[i];
      ClearedAt(cfg, executed, i);
      if AlwaysAsks(cfg, e.action) && NeverRunsOnSilence(cfg.behavior) {
        if cfg.behavior.trigger.OnRisk? {
          Autonomy.AnyLinkCanTriggerTheGate(cfg.behavior, e.action.Links(), "composite", e.action.confidence);
        }
        AskedMeansApproved(cfg, e);
      }
    }
  }

  /** The only way an action the gate sends to the user runs without such a reply is a synchronous wait that ended in
      silence under a proceed policy. */
  lemma UnapprovedMeansTimedOut(cfg: Config, e: Execution)
    requires Cleared(cfg, e) && MustAsk(cfg, e.action)
    requires forall id, at :: !ApprovedAt(e, id, at)
    ensures !NeverRunsOnSilence(cfg.behavior) && e.clearance.TimedOut?
    ensures ResponseFor(e.rows[..e.clearance.at], e.clearance.id).None?
  {
    if e.clearance.Answered? {
      assert ApprovedAt(e, e.clearance.id, e.clearance.at);
    }
  }

  // ---- The ledger of actions ----

  /** The ids of the queued actions. */
  function QueuedIds(pending: seq<PendingDecision>): multiset<nat> {
    if pending == [] then multiset{} else multiset{pending[0].action.id} + QueuedIds(pending[1..])
  }

  lemma {:induction false} QueuedIdsSize(pending: seq<PendingDecision>)
    ensures |QueuedIds(pending)| == |pending|
  {
    if pending != [] {
      QueuedIdsSize(pending[1..]);
    }
  }

  /** Taking an entry out of the middle, or adding one at the end. */
  lemma {:induction false} QueuedIdsMiddle(before: seq<PendingDecision>, p: PendingDecision,
                                           after: seq<PendingDecision>)
    ensures QueuedIds(before + [p] + after) == QueuedIds(before + after) + multiset{p.action.id}
  {
    if before == [] {
      assert before + [p] + after == [p] + after && ([p] + after)[1..] == after && before + after == after;
    } else {
      assert (before + [p] + after)[1..] == before[1..] + [p] + after;
      assert (before + after)[1..] == before[1..] + after;
      QueuedIdsMiddle(before[1..], p, after);
    }
  }

  lemma TakenBack(open: multiset<nat>, id: nat)
    ensures open + multiset{id} - multiset{id} == open
  {
  }

  lemma {:induction false} QueuedIdsHas(pending: seq<PendingDecision>, i: nat)
    requires i < |pending|
    ensures pending[i].action.id in QueuedIds(pending)
  {
    if i > 0 {
      QueuedIdsHas(pending[1..], i - 1);
    }
  }

  /** The books of a run: the open actions, a bound on the ids used, and the actions the runtime observed. */
  datatype Books = Books(open: multiset<nat>, bound: nat, ran: seq<nat>) {
    /** An action is appended under a new id; an observation resolves only an open action. */
    predicate Accepts(e: Event) {
      match e
      case ActionAppended(a) => a.id >= bound
      case Observed(o, resolves) => resolves.Some? ==> resolves.value in open
    }

    function Enter(e: Event): Books {
      match e
      case ActionAppended(a) => Books(open + multiset{a.id}, a.id + 1, ran)
      case Observed(o, resolves) =>
        if resolves.None? then this
        else Books(open - multiset{resolves.value}, bound, if o.Ran? then ran + [resolves.value] else ran)
    }
  }

  /** The books after the given events, or None once an event was out of order. */
  function Keep(events: seq<Event>): Option<Books> {
    if events == [] then Some(Books(multiset{}, 0, []))
    else
      match Keep(events[..|events| - 1])
      case None => None
      case Some(b) => if b.Accepts(events[|events| - 1]) then Some(b.Enter(events[|events| - 1])) else None
  }

  lemma KeepAppend(events: seq<Event>, e: Event)
    requires Keep(events).Some? && Keep(events).value.Accepts(e)
    ensures Keep(events + [e]) == Some(Keep(events).value.Enter(e))
  {
    assert (events + [e])[..|events|] == events;
  }

  function Started(events: seq<Event>): seq<nat> {
    if events == [] then []
    else
      var e := events[|events| - 1];
      Started(events[..|events| - 1]) + if e.ActionAppended? then [e.action.id] else []
  }

  function Resolved(events: seq<Event>): seq<nat> {
    if events == [] then []
    else
      var e := events[|events| - 1];
      Resolved(events[..|events| - 1]) + if e.Observed? && e.resolves.Some? then [e.resolves.value] else []
  }

  ghost predicate Balanced(started: seq<nat>, resolved: seq<nat>, b: Books) {
    && multiset(started) == multiset(resolved) + b.open
    && NoDuplicates(started)
    && (forall i :: 0 <= i < |started| ==> started[i] < b.bound)
    && multiset(b.ran) <= multiset(resolved)
  }

  lemma BalancedStart(started: seq<nat>, resolved: seq<nat>, b: Books, a: Action)
    requires Balanced(started, resolved, b) && a.id >= b.bound
    ensures Balanced(started + [a.id], resolved, b.Enter(ActionAppended(a)))
  {
  }

  lemma BalancedResolve(started: seq<nat>, resolved: seq<nat>, b: Books, o: Observation, id: nat)
    requires Balanced(started, resolved, b) && id in b.open
    ensures Balanced(started, resolved + [id], b.Enter(Observed(o, Some(id))))
  {
    assert multiset{id} + (b.open - multiset{id}) == b.open;
  }

  /** Kept books balance: the actions appended are the actions resolved plus the open ones, no id was used twice,
      and what ran is among what was resolved. */
  lemma {:induction false} KeptBooksBalance(events: seq<Event>)
    requires Keep(events).Some?
    ensures Balanced(Started(events), Resolved(events), Keep(events).value)
  {
    if events != [] {
      var front, e := events[..|events| - 1], events[|events| - 1];
      KeptBooksBalance(front);
      var s, r, b := Started(front), Resolved(front), Keep(front).value;
      match e
      case ActionAppended(a) =>
        BalancedStart(s, r, b, a);
        assert r + [] == r;
      case Observed(o, Some(id)) =>
        BalancedResolve(s, r, b, o, id);
        assert s + [] == s;
      case Observed(o, None) =>
        assert s + [] == s && r + [] == r;
    }
  }

  /** After every event the ledger balances: the actions appended so far are those resolved so far plus those it holds
      open, and no action was appended twice. */
  ghost predicate BalancedThroughout(events: seq<Event>) {
    && Keep(events).Some? && Balanced(Started(events), Resolved(events), Keep(events).value)
    && (events != [] ==> BalancedThroughout(events[..|events| - 1]))
  }

  lemma {:induction false} KeptBalancesThroughout(events: seq<Event>)
    requires Keep(events).Some?
    ensures BalancedThroughout(events)
  {
    KeptBooksBalance(events);
    if events != [] {
      KeptBalancesThroughout(events[..|events| - 1]);
    }
  }

  /** Conservation and at-most-once. */
  lemma BooksConsequences(events: seq<Event>, pending: seq<PendingDecision>)
    requires Keep(events).Some? && Keep(events).value.open == QueuedIds(pending)
    ensures |Started(events)| == |Resolved(events)| + |pending|
    ensures NoDuplicates(Started(events))
    ensures NoDuplicates(Keep(events).value.ran)
    ensures forall i, j :: 0 <= i < |Keep(events).value.ran| && 0 <= j < |pending| ==>
              Keep(events).value.ran[i] != pending[j].action.id
  {
    KeptBooksBalance(events);
    QueuedIdsSize(pending);
    var started, resolved, ran := Started(events), Resolved(events), Keep(events).value.ran;
    assert |multiset(started)| == |multiset(resolved)| + |QueuedIds(pending)|;
    forall id | id in ran ensures multiset(ran)[id] <= 1 && id !in QueuedIds(pending) {
      NoDuplicatesMultiset(started, id);
      assert id in multiset(ran);
      assert QueuedIds(pending)[id] + multiset(resolved)[id] == multiset(started)[id];
    }
    MultisetNoDuplicates(ran);
    forall i, j | 0 <= i < |ran| && 0 <= j < |pending| ensures ran[i] != pending[j].action.id {
      assert ran[i] in ran;
      QueuedIdsHas(pending, j);
    }
  }

  // ---- The queue at the loop's points ----

  /** A point of the loop: how many events there were, and how many actions were queued. */
  datatype Point = Point(events: nat, queued: nat)

  /** At that point the actions appended were those resolved plus those queued. */
  ghost predicate Conserved(p: Point, events: seq<Event>) {
    p.events <= |events| && |Started(events[..p.events])| == |Resolved(events[..p.events])| + p.queued
  }

  /** That at every recorded point. */
  ghost predicate ConservedAt(trail: seq<Point>, events: seq<Event>) {
    trail != [] ==> ConservedAt(trail[..|trail| - 1], events) && Conserved(trail[|trail| - 1], events)
  }

  ghost predicate Trail(trail: seq<Point>, events: seq<Event>) {
    forall mark {:trigger Look(TheTrail, mark)} :: ConservedAt(trail, events)
  }

  lemma {:induction false} ConservedGrown(trail: seq<Point>, events: seq<Event>, e: Event)
    requires ConservedAt(trail, events)
    ensures ConservedAt(trail, events + [e])
  {
    if trail != [] {
      var p := trail[|trail| - 1];
      assert (events + [e])[..p.events] == events[..p.events];
      ConservedGrown(trail[..|trail| - 1], events, e);
    }
  }

  lemma TrailGrown(trail: seq<Point>, events: seq<Event>, e: Event)
    requires Trail(trail, events)
    ensures Trail(trail, events + [e])
  {
    assert Look(TheTrail, 0);
    ConservedGrown(trail, events, e);
  }

  lemma {:induction false} TrailAt(trail: seq<Point>, events: seq<Event>)
    requires ConservedAt(trail, events)
    ensures forall i :: 0 <= i < |trail| ==> Conserved(trail[i], events)
  {
    if trail != [] {
      TrailAt(trail[..|trail| - 1], events);
    }
  }

  /** A point with no action in the air is conserved. */
  lemma PointConserved(cfg: Config, trail: seq<Point>, events: seq<Event>, books: Books, pending: seq<PendingDecision>,
                       rows: seq<AgentMessage>)
    requires Trail(trail, events) && Keep(events) == Some(books) && Queue(cfg, books.open, pending, rows)
    ensures Trail(trail + [Point(|events|, |pending|)], events)
  {
    var p := Point(|events|, |pending|);
    assert Look(TheQueue, 0) && Look(TheTrail, 0);
    assert (trail + [p])[..|trail|] == trail && events[..|events|] == events;
    BooksConsequences(events, pending);
  }

  /** The ids of the actions handed to the runtime, in order. */
  ghost function HandedOff(executed: seq<Execution>): seq<nat> {
    if executed == [] then [] else HandedOff(executed[..|executed| - 1]) + [executed[|executed| - 1].action.id]
  }

  lemma HandedOffAppend(executed: seq<Execution>, e: Execution)
    ensures HandedOff(executed + [e]) == HandedOff(executed) + [e.action.id]
  {
    assert (executed + [e])[..|executed|] == executed;
  }

  lemma {:induction false} HandedOffAt(executed: seq<Execution>)
    ensures |HandedOff(executed)| == |executed|
    ensures forall i :: 0 <= i < |executed| ==> HandedOff(executed)[i] == executed[i].action.id
  {
    if executed != [] {
      HandedOffAt(executed[..|executed| - 1]);
    }
  }

  /** The open actions are exactly the queued ones, and each of these was sent to the user. */
  ghost predicate Queue(cfg: Config, open: multiset<nat>, pending: seq<PendingDecision>, rows: seq<AgentMessage>) {
    forall mark {:trigger Look(TheQueue, mark)} :: open == QueuedIds(pending) && AllQueued(cfg, pending, rows)
  }

  lemma EmptyQueue(cfg: Config, rows: seq<AgentMessage>)
    ensures Queue(cfg, multiset{}, [], rows)
  {
  }

  lemma {:induction false} AllQueuedGrown(cfg: Config, pending: seq<PendingDecision>, rows: seq<AgentMessage>,
                                          more: seq<AgentMessage>)
    requires AllQueued(cfg, pending, rows) && rows <= more
    ensures AllQueued(cfg, pending, more)
  {
    if pending != [] {
      OwnGrown(rows, more, pending[0].messageId, pending[0].action.id);
      AllQueuedGrown(cfg, pending[1..], rows, more);
    }
  }

  lemma QueueGrown(cfg: Config, open: multiset<nat>, pending: seq<PendingDecision>, rows: seq<AgentMessage>,
                   more: seq<AgentMessage>)
    requires Queue(cfg, open, pending, rows) && rows <= more
    ensures Queue(cfg, open, pending, more)
  {
    assert Look(TheQueue, 0);
    AllQueuedGrown(cfg, pending, rows, more);
  }

  /** Taking an entry out of the middle of the queue, or putting a sent one in. */
  lemma {:induction false} AllQueuedMiddle(cfg: Config, before: seq<PendingDecision>, p: PendingDecision,
                                           after: seq<PendingDecision>, rows: seq<AgentMessage>)
    ensures AllQueued(cfg, before + [p] + after, rows) <==>
            && AllQueued(cfg, before + after, rows)
            && MustAsk(cfg, p.action) && OwnActionable(rows, p.messageId, p.action.id)
  {
    if before == [] {
      assert before + [p] + after == [p] + after && ([p] + after)[1..] == after && before + after == after;
    } else {
      assert (before + [p] + after)[1..] == before[1..] + [p] + after;
      assert (before + after)[1..] == before[1..] + after;
      assert (before + [p] + after)[0] == before[0] && (before + after)[0] == before[0];
      AllQueuedMiddle(cfg, before[1..], p, after, rows);
    }
  }

  /** Queueing an action whose actionable was sent. */
  lemma QueuePush(cfg: Config, open: multiset<nat>, pending: seq<PendingDecision>, p: PendingDecision,
                  rows: seq<AgentMessage>)
    requires Queue(cfg, open, pending, rows)
    requires MustAsk(cfg, p.action) && OwnActionable(rows, p.messageId, p.action.id)
    ensures Queue(cfg, open + multiset{p.action.id}, pending + [p], rows)
  {
    assert Look(TheQueue, 0);
    assert pending + [p] == pending + [p] + [] && pending + [] == pending;
    QueuedIdsMiddle(pending, p, []);
    AllQueuedMiddle(cfg, pending, p, [], rows);
  }

  /** None of the entries had a reply. */
  ghost predicate Unanswered(pending: seq<PendingDecision>, rows: seq<AgentMessage>) {
    pending != [] ==>
      Unanswered(pending[..|pending| - 1], rows) && ResponseFor(rows, pending[|pending| - 1].messageId).None?
  }

  lemma UnansweredAppend(pending: seq<PendingDecision>, p: PendingDecision, rows: seq<AgentMessage>)
    requires Unanswered(pending, rows) && ResponseFor(rows, p.messageId).None?
    ensures Unanswered(pending + [p], rows)
  {
    assert (pending + [p])[..|pending|] == pending;
  }

  lemma {:induction false} UnansweredAll(pending: seq<PendingDecision>, rows: seq<AgentMessage>)
    requires Unanswered(pending, rows)
    ensures forall p :: p in pending ==> ResponseFor(rows, p.messageId).None?
  {
    if pending != [] {
      UnansweredAll(pending[..|pending| - 1], rows);
    }
  }

  lemma {:induction false} UnansweredBefore(pending: seq<PendingDecision>, rows: seq<AgentMessage>,
                                            more: seq<AgentMessage>)
    requires Unanswered(pending, more) && rows <= more
    ensures Unanswered(pending, rows)
  {
    if pending != [] {
      UnansweredBefore(pending[..|pending| - 1], rows, more);
      if ResponseFor(rows, pending[|pending| - 1].messageId).Some? {
        AnsweredStaysAnswered(rows, more, pending[|pending| - 1].messageId);
      }
    }
  }

  /** One more entry looked at, with what arrived meanwhile. */
  lemma UnansweredTurn(queue: seq<PendingDecision>, i: nat, rows: seq<AgentMessage>, more: seq<AgentMessage>)
    requires i < |queue| && rows <= more
    ensures Unanswered(queue[..i + 1], more) ==>
              Unanswered(queue[..i], rows) && ResponseFor(more, queue[i].messageId).None?
  {
    assert queue[..i + 1][..i] == queue[..i];
    if Unanswered(queue[..i + 1], more) {
      UnansweredBefore(queue[..i], rows, more);
    }
  }

  /** The drain's queue: what is kept so far, then what has not been looked at. */
  lemma DrainPosition(still: seq<PendingDecision>, queue: seq<PendingDecision>, i: nat)
    requires i < |queue|
    ensures (still + queue[i..])[|still|] == queue[i]
    ensures Without(still + queue[i..], |still|) == still + queue[i + 1..]
    ensures still + queue[i..] == still + [queue[i]] + queue[i + 1..]
  {
  }

  function Without(queue: seq<PendingDecision>, k: nat): seq<PendingDecision>
    requires k < |queue|
  {
    queue[..k] + queue[k + 1..]
  }

  /** Resolving the entry at `k` takes exactly its action off the open ones. */
  lemma QueueWithout(cfg: Config, open: multiset<nat>, queue: seq<PendingDecision>, k: nat, rows: seq<AgentMessage>)
    requires k < |queue| && Queue(cfg, open, queue, rows)
    ensures queue[k].action.id in open
    ensures Queue(cfg, open - multiset{queue[k].action.id}, Without(queue, k), rows)
    ensures MustAsk(cfg, queue[k].action) && OwnActionable(rows, queue[k].messageId, queue[k].action.id)
  {
    assert Look(TheQueue, 0);
    assert queue == queue[..k] + [queue[k]] + queue[k + 1..];
    QueuedIdsMiddle(queue[..k], queue[k], queue[k + 1..]);
    AllQueuedMiddle(cfg, queue[..k], queue[k], queue[k + 1..], rows);
  }

  lemma OwnGrown(rows: seq<AgentMessage>, more: seq<AgentMessage>, id: MessageId, actionId: nat)
    requires OwnActionable(rows, id, actionId) && rows <= more
    ensures OwnActionable(more, id, actionId)
  {
    var i :| 0 <= i < |rows| && rows[i].id == id && rows[i].kind.Actionable? && rows[i].relatedAction == Some(actionId);
    assert more[i] == rows[i];
  }

  /** A clearance read off the table of one moment is still a clearance of a hand-off at a later one. */
  lemma ClearedLater(cfg: Config, a: Action, c: Clearance, rows: seq<AgentMessage>, more: seq<AgentMessage>)
    requires Cleared(cfg, Execution(a, c, rows)) && rows <= more
    ensures Cleared(cfg, Execution(a, c, more))
  {
    if c.Answered? || c.TimedOut? {
      assert more[..c.at] == rows[..c.at];
    }
  }

  /** A cleared action handed off at a later moment. */
  lemma HandOff(cfg: Config, executed: seq<Execution>, a: Action, c: Clearance, rows: seq<AgentMessage>,
                more: seq<AgentMessage>)
    requires AllCleared(cfg, executed) && Cleared(cfg, Execution(a, c, rows)) && rows <= more
    ensures AllCleared(cfg, executed + [Execution(a, c, more)])
    ensures HandedOff(executed + [Execution(a, c, more)]) == HandedOff(executed) + [a.id]
  {
    ClearedLater(cfg, a, c, rows, more);
    ClearedAppend(cfg, executed, Execution(a, c, more));
    HandedOffAppend(executed, Execution(a, c, more));
  }

  /** The auditor looks at the result of every piece of code run. */
  predicate AuditDue(cfg: Config, a: Action, o: Observation) {
    cfg.audits && a.isCode && o.Ran? && o.isCodeResult
  }

  // ---- Why a run stops ----

  /** A call an action is built from: it names a registered tool and its arguments parse. */
  predicate Runnable(cfg: Config, tc: ToolCall) {
    tc.name != FINISH_TOOL_NAME && tc.name in cfg.tools && tc.body.Some?
  }

  /** The gate rejects a confidence outside [0, 1]. */
  predicate BadConfidence(cfg: Config, confidence: Option<real>) {
    cfg.behavior.trigger.OnUncertainty? && confidence.Some? && !(0.0 <= confidence.value <= 1.0)
  }

  /** That is the only exception of the gate. */
  lemma BadConfidenceIff(cfg: Config, a: Action)
    ensures Verdict(cfg, a).Raised? <==> BadConfidence(cfg, a.confidence)
  {
    Autonomy.GateDecides(cfg.behavior, a.Links(), "composite", a.confidence);
  }

  /** The action and the observation of its run were appended, then the audit if one is due. */
  predicate RanAs(cfg: Config, before: seq<Event>, after: seq<Event>, a: Action, waits: bool) {
    && before <= after && |after| >= |before| + 2 && after[|before|] == ActionAppended(a)
    && var e := after[|before| + 1];
       && e.Observed? && e.resolves == Some(a.id) && e.observation.Ran? && e.observation.waitsForUser == waits
       && (AuditDue(cfg, a, e.observation) <==>
             |after| > |before| + 2 && after[|before| + 2].Observed? && after[|before| + 2].observation.Audited?)
  }

  /** One audit event was appended if one is due, else none. */
  predicate AuditedAs(due: bool, before: seq<Event>, after: seq<Event>) {
    if due
    then before <= after && |after| == |before| + 1 && after[|before|].Observed? && after[|before|].observation.Audited?
    else after == before
  }

  lemma RanAsAudited(cfg: Config, before: seq<Event>, ran: seq<Event>, after: seq<Event>, a: Action, o: Observation)
    requires ran == before + [ActionAppended(a)] + [Observed(o, Some(a.id))] && o.Ran?
    requires AuditedAs(AuditDue(cfg, a, o), ran, after)
    ensures RanAs(cfg, before, after, a, o.waitsForUser)
  {
    assert ran[|before|] == ActionAppended(a) && ran[|before| + 1] == Observed(o, Some(a.id));
  }

  /** A stop behind the run is no audit. */
  lemma RanAsStopped(cfg: Config, before: seq<Event>, after: seq<Event>, a: Action, waits: bool, r: StopReason)
    requires RanAs(cfg, before, after, a, waits)
    ensures RanAs(cfg, before, after + [Observed(LoopError(r), None)], a, waits)
  {
  }

  /** A queued action was resolved: declined on a rejecting reply without a hand-off, or handed off once. */
  ghost predicate ResolvedAs(p: PendingDecision, o: Observation, before: seq<Execution>, after: seq<Execution>,
                             rows: seq<AgentMessage>)
  {
    if o.Ran? then HandedOff(after) == HandedOff(before) + [p.action.id]
    else o.Declined? && after == before && exists at :: RejectedAt(rows, p.action.id, p.messageId, at)
  }

  /** Why a call ends the run. The last case is an exception: a closed bus, or a confidence outside [0, 1]. */
  predicate CallStops(cfg: Config, tc: ToolCall, r: StopReason, closed: bool) {
    match r
    case AgentFinish => tc.name == FINISH_TOOL_NAME
    case Interrupted => Runnable(cfg, tc) && cfg.interruptible
    case InterruptCheckError => Runnable(cfg, tc) && cfg.interruptible
    case WaitingForUser => Runnable(cfg, tc)
    case Raised =>
      && Runnable(cfg, tc) && cfg.gated
      && (closed || BadConfidence(cfg, tc.body.value.confidence))
    case _ => false
  }

  ghost predicate SomeCallStops(cfg: Config, calls: seq<ToolCall>, r: StopReason, closed: bool) {
    exists i :: 0 <= i < |calls| && CallStops(cfg, calls[i], r, closed)
  }

  /** The replies a run goes on after: they call tools, and not the finish tool. */
  predicate Continues(reply: LlmReply) {
    reply.Reply? && reply.calls != [] && forall i :: 0 <= i < |reply.calls| ==> reply.calls[i].name != FINISH_TOOL_NAME
  }

  /** Why the model's answer ends the run. */
  ghost predicate ReplyStops(cfg: Config, reply: LlmReply, r: StopReason, closed: bool) {
    match reply
    case LlmFailed(timedOut) => r == if timedOut then LlmTimeout else LlmError
    case Reply(_, calls) => if r.NoToolCalls? then calls == [] else SomeCallStops(cfg, calls, r, closed)
  }

  /** Why a run ended: the checker said so, the context build failed before a call was made, what the model said in the
      last step, or all steps were used and every reply was one to go on after. */
  ghost predicate RunStops(cfg: Config, provided: bool, replies: seq<LlmReply>, steps: int, r: StopReason, closed: bool)
  {
    || ((r.Interrupted? || r.InterruptCheckError?) && cfg.interruptible && |replies| <= steps <= |replies| + 1)
    || (r.ContextError? && provided && steps == |replies| + 1)
    || (replies != [] && steps == |replies| && ReplyStops(cfg, replies[|replies| - 1], r, closed))
    || (r.MaxSteps? && steps == cfg.maxSteps && |replies| == (if steps < 0 then 0 else steps)
        && forall i :: 0 <= i < |replies| ==> Continues(replies[i]))
  }

  lemma RunStopsLater(cfg: Config, provided: bool, replies: seq<LlmReply>, steps: int, r: StopReason, closed: bool,
                      later: bool)
    requires RunStops(cfg, provided, replies, steps, r, closed) && (closed ==> later)
    ensures RunStops(cfg, provided, replies, steps, r, later)
  {
    if replies != [] && replies[|replies| - 1].Reply? {
      var calls := replies[|replies| - 1].calls;
      if SomeCallStops(cfg, calls, r, closed) {
        var i :| 0 <= i < |calls| && CallStops(cfg, calls[i], r, closed);
        assert CallStops(cfg, calls[i], r, later);
      }
    }
  }

  /** Every reply but the last was one to go on after. */
  predicate Continued(replies: seq<LlmReply>) {
    forall i :: 0 <= i < |replies| - 1 ==> Continues(replies[i])
  }

  lemma ContinuedAppend(replies: seq<LlmReply>, more: seq<LlmReply>)
    requires forall i :: 0 <= i < |replies| ==> Continues(replies[i])
    requires replies <= more && |more| <= |replies| + 1
    ensures Continued(more)
  {
    forall i | 0 <= i < |more| - 1 ensures Continues(more[i]) {
      assert more[i] == replies[i];
    }
  }

  // ---- The invariant ----

  /** The books follow from the events, the runtime observations among them are the hand-offs, in order, and every
      point recorded so far was conserved. */
  ghost predicate InOrder(events: seq<Event>, trail: seq<Point>, books: Books, executed: seq<Execution>) {
    Keep(events) == Some(books) && HandedOff(executed) == books.ran && Trail(trail, events)
  }

  /** An event that hands nothing off. */
  lemma InOrderAppend(events: seq<Event>, trail: seq<Point>, books: Books, executed: seq<Execution>, e: Event)
    requires InOrder(events, trail, books, executed) && books.Accepts(e)
    requires e.Observed? && e.resolves.Some? ==> !e.observation.Ran?
    ensures InOrder(events + [e], trail, books.Enter(e), executed)
  {
    KeepAppend(events, e);
    TrailGrown(trail, events, e);
  }

  /** The observation of the last hand-off. */
  lemma InOrderRun(events: seq<Event>, trail: seq<Point>, books: Books, before: seq<Execution>,
                   after: seq<Execution>, e: Event)
    requires InOrder(events, trail, books, before) && books.Accepts(e)
    requires e.Observed? && e.resolves.Some? && e.observation.Ran?
    requires HandedOff(after) == HandedOff(before) + [e.resolves.value]
    ensures InOrder(events + [e], trail, books.Enter(e), after)
  {
    KeepAppend(events, e);
    TrailGrown(trail, events, e);
  }

  /** The interrupt flag is up iff an intent was observed, and nothing was handed off since. */
  ghost predicate Final(interrupted: bool, observed: Option<nat>, executed: seq<Execution>) {
    (interrupted <==> observed.Some?) && (observed.Some? ==> observed.value == |executed|)
  }

  /** What holds whenever no action is in the air. */
  ghost predicate Sound(cfg: Config, events: seq<Event>, trail: seq<Point>, books: Books, executed: seq<Execution>,
                        interrupted: bool, observed: Option<nat>, pending: seq<PendingDecision>,
                        rows: seq<AgentMessage>)
  {
    forall mark {:trigger Look(TheLedger, mark)} ::
      && InOrder(events, trail, books, executed) && Final(interrupted, observed, executed)
      && AllCleared(cfg, executed) && Queue(cfg, books.open, pending, rows)
  }

  lemma OpenSound(cfg: Config, events: seq<Event>, trail: seq<Point>, books: Books, executed: seq<Execution>,
                  interrupted: bool, observed: Option<nat>, pending: seq<PendingDecision>, rows: seq<AgentMessage>)
    requires Sound(cfg, events, trail, books, executed, interrupted, observed, pending, rows)
    ensures InOrder(events, trail, books, executed) && Final(interrupted, observed, executed)
    ensures AllCleared(cfg, executed) && Queue(cfg, books.open, pending, rows)
  {
    assert Look(TheLedger, 0);
  }

  lemma CloseSound(cfg: Config, events: seq<Event>, trail: seq<Point>, books: Books, executed: seq<Execution>,
                   interrupted: bool, observed: Option<nat>, pending: seq<PendingDecision>, rows: seq<AgentMessage>)
    requires InOrder(events, trail, books, executed) && Final(interrupted, observed, executed)
    requires AllCleared(cfg, executed) && Queue(cfg, books.open, pending, rows)
    ensures Sound(cfg, events, trail, books, executed, interrupted, observed, pending, rows)
  {
  }

  /** A run that has not done anything. */
  lemma FreshSound(cfg: Config, rows: seq<AgentMessage>)
    ensures Sound(cfg, [], [], Books(multiset{}, 0, []), [], false, None, [], rows)
  {
    EmptyQueue(cfg, rows);
  }

  /** The account of a run: every hand-off was authorised; the actions appended are those resolved plus those queued,
      now and at every recorded point; the ledger of started, resolved and open actions balances after every event;
      nothing ran twice, and nothing that ran is still queued. */
  ghost predicate Accounted(cfg: Config, events: seq<Event>, trail: seq<Point>, executed: seq<Execution>,
                            pending: seq<PendingDecision>)
  {
    && (forall i :: 0 <= i < |executed| ==> Authorised(cfg, executed[i]))
    && |Started(events)| == |Resolved(events)| + |pending|
    && (forall i :: 0 <= i < |trail| ==> Conserved(trail[i], events))
    && BalancedThroughout(events)
    && NoDuplicates(HandedOff(executed)) && Apart(executed, pending)
  }

  lemma SoundMeans(cfg: Config, events: seq<Event>, trail: seq<Point>, books: Books, executed: seq<Execution>,
                   interrupted: bool, observed: Option<nat>, pending: seq<PendingDecision>, rows: seq<AgentMessage>)
    requires Sound(cfg, events, trail, books, executed, interrupted, observed, pending, rows)
    ensures Accounted(cfg, events, trail, executed, pending) && Final(interrupted, observed, executed)
  {
    assert Look(TheLedger, 0) && Look(TheQueue, 0) && Look(TheTrail, 0);
    ClearedAuthorised(cfg, executed);
    KeptBalancesThroughout(events);
    TrailAt(trail, events);
    BooksConsequences(events, pending);
    HandedOffAt(executed);
  }

  /** No action both ran and is still queued. */
  ghost predicate Apart(executed: seq<Execution>, pending: seq<PendingDecision>) {
    forall i, j :: 0 <= i < |executed| && 0 <= j < |pending| ==> executed[i].action.id != pending[j].action.id
  }

  // ---- What the LLM was sent ----

  /** Each list sent is complete and extends the one before. */
  ghost predicate Sent(sent: seq<seq<ChatMessage>>) {
    sent != [] ==>
      && Sent(sent[..|sent| - 1])
      && Complete(sent[|sent| - 1])
      && (|sent| > 1 ==> sent[|sent| - 2] <= sent[|sent| - 1])
  }

  lemma SentAppend(sent: seq<seq<ChatMessage>>, ms: seq<ChatMessage>)
    requires Sent(sent) && Complete(ms) && (sent != [] ==> sent[|sent| - 1] <= ms)
    ensures Sent(sent + [ms])
  {
    assert (sent + [ms])[..|sent|] == sent;
  }

  lemma {:induction false} SentAlways(sent: seq<seq<ChatMessage>>)
    requires Sent(sent)
    ensures forall i :: 0 <= i < |sent| ==> Complete(sent[i])
    ensures CP.AppendOnly(sent)
  {
    if sent != [] {
      var n := |sent| - 1;
      SentAlways(sent[..n]);
      forall i | 0 <= i < n ensures Complete(sent[i]) && sent[i] <= sent[n] {
        assert sent[..n][i] == sent[i] && sent[..n][n - 1] == sent[n - 1];
        assert sent[i] <= sent[n - 1];
      }
      forall i, j | 0 <= i <= j < |sent| ensures sent[i] <= sent[j] {
        assert j < n ==> sent[..n][i] <= sent[..n][j];
      }
    }
  }

  /** Everything sent was a complete transcript extending the one sent before, and all carry one prefix hash. */
  ghost predicate Cached(sent: seq<seq<ChatMessage>>, hashes: seq<Option<string>>, hash: Option<CP.Hash>) {
    forall mark {:trigger Look(TheCalls, mark)} ::
      && Sent(sent) && |hashes| == |sent|
      && (hash.Some? ==> forall i :: 0 <= i < |hashes| ==> hashes[i] == Some(hash.value(sent[0])))
  }

  lemma FreshCached(hash: Option<CP.Hash>)
    ensures Cached([], [], hash)
  {
  }

  lemma CachedAppend(sent: seq<seq<ChatMessage>>, hashes: seq<Option<string>>, hash: Option<CP.Hash>,
                     ms: seq<ChatMessage>, h: Option<string>)
    requires Cached(sent, hashes, hash) && Complete(ms) && (sent != [] ==> sent[|sent| - 1] <= ms)
    requires hash.Some? ==> h == Some(hash.value((sent + [ms])[0]))
    ensures Cached(sent + [ms], hashes + [h], hash)
  {
    assert Look(TheCalls, 0);
    SentAppend(sent, ms);
  }

  /** Every list sent was complete and extended all earlier ones, and every call carried the first prefix hash. */
  ghost predicate SentInOrder(sent: seq<seq<ChatMessage>>, hashes: seq<Option<string>>, hash: Option<CP.Hash>) {
    && (forall i :: 0 <= i < |sent| ==> Complete(sent[i]))
    && CP.AppendOnly(sent) && |hashes| == |sent|
    && (hash.Some? ==> forall i :: 0 <= i < |hashes| ==> hashes[i] == Some(hash.value(sent[0])))
  }

  lemma CachedMeans(sent: seq<seq<ChatMessage>>, hashes: seq<Option<string>>, hash: Option<CP.Hash>)
    requires Cached(sent, hashes, hash)
    ensures SentInOrder(sent, hashes, hash)
  {
    assert Look(TheCalls, 0);
    SentAlways(sent);
  }

  /** The provider's entry is on schedule. */
  ghost predicate Timed(cfg: CP.Config, st: Option<CP.RunState>, checkpoints: seq<nat>, prepared: nat, inserted: nat) {
    forall mark {:trigger Look(TheCalls, mark)} :: CP.OnSchedule(cfg, st, checkpoints, prepared, inserted)
  }

  lemma FreshTimed(cfg: CP.Config)
    ensures Timed(cfg, None, [], 0, 0)
  {
  }

  lemma TimedPrepared(cfg: CP.Config, st: Option<CP.RunState>, req: CP.Request, w: CP.World,
                      sent: seq<seq<ChatMessage>>, checkpoints: seq<nat>, inserted: nat)
    requires Timed(cfg, st, checkpoints, |sent|, inserted) && CP.InStep(cfg.hash, st, sent, req.loopMessages)
    requires req.turn == |sent| + 1
    ensures var (s, r) := CP.Prepare(cfg, st, req, w);
            && (r.CallFailed? ==> s == st)
            && (r.Call? ==>
                  Timed(cfg, s, checkpoints + (if r.checkpointReason.Some? then [req.turn] else []), req.turn,
                        inserted + |r.appended|))
  {
    assert Look(TheCalls, 0);
    CP.PrepareOnSchedule(cfg, st, req, w, sent, checkpoints, inserted);
  }

  lemma TimedMeans(cfg: CP.Config, st: Option<CP.RunState>, checkpoints: seq<nat>, prepared: nat, inserted: nat)
    requires Timed(cfg, st, checkpoints, prepared, inserted)
    ensures CP.OnSchedule(cfg, st, checkpoints, prepared, inserted)
  {
    assert Look(TheCalls, 0);
  }
}
