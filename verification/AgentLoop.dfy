/** The gated agent loop with deferral (`loop.py`) and the wait coordinator (`wait.py`).

    The LLM, the runtime, the auditor, the risk and confidence oracles, the interrupt checker and everybody else who
    publishes on the bus are arbitrary: every value they supply is an unconstrained choice (`:= *`), and other
    publishers may act between any two steps of the loop. What is proved of `Run` therefore holds of every run.
    The runtime, the auditor and the event stream never raise, as the loop itself assumes. */
module AgentLoop {
  import opened Common
  import opened Transcript
  import opened MessageStream
  import opened LoopModel
  import Autonomy
  import CP = ContextProvider

  datatype WaitResult = GotResponse(value: Option<string>) | SilenceProceed | SilenceSkip | Pending | WaitRaised

  datatype Dispatch = Proceed(clearance: Clearance) | SkipWith(observation: Observation) | Defer(id: MessageId)
      | GateRaised

  predicate EndsWithFinish(events: seq<Event>) {
    events != [] && events[|events| - 1].Observed? && events[|events| - 1].observation.Finish?
  }

  lemma OpeningComplete(prompt: string, task: string)
    ensures Complete([System(prompt), User(task)])
  {
    OutstandingAppend([], System(prompt));
    OutstandingAppend([System(prompt)], User(task));
    assert [] + [System(prompt)] == [System(prompt)];
    assert [System(prompt)] + [User(task)] == [System(prompt), User(task)];
  }

  class AgentLoop {
    const cfg: Config
    const provider: CP.SessionAgentLoopContextProvider?

    var runId: string
    var messages: seq<ChatMessage>
    /** The events stamped with this run's task id. */
    var events: seq<Event>
    var pending: seq<PendingDecision>
    var interrupted: bool
    /** Action ids are uuid4 values: never used before. */
    var nextAction: nat
    var rows: seq<AgentMessage>
    var busClosed: bool

    /** Every hand-off to the runtime in this run. */
    ghost var executed: seq<Execution>
    /** What the events amount to; `Recorded` ties it to them. */
    ghost var books: Books
    /** Every message list sent to the LLM in this run, and the prefix hash reported with it. */
    ghost var sent: seq<seq<ChatMessage>>
    ghost var hashes: seq<Option<string>>
    /** The turns at which a checkpoint was rendered, the calls prepared, and the context messages inserted. */
    ghost var plan: Plan
    /** The events and the queue at the points of the loop passed so far. */
    ghost var trail: seq<Point>
    /** How many hand-offs had been made when an interrupt intent was observed. */
    ghost var observed: Option<nat>
    /** The interrupt checker; once it said anything but no it is not asked again. */
    ghost var checker: Checker
    /** The waits on the bus in this run, and what the LLM said, call by call. */
    ghost var waits: seq<Wait>
    ghost var replies: seq<LlmReply>

    constructor (cfg: Config, provider: CP.SessionAgentLoopContextProvider?)
      requires cfg.gated ==> cfg.hasBus
      ensures this.cfg == cfg && this.provider == provider
      ensures nextAction == 0 && rows == [] && !busClosed
      ensures runId == "" && messages == [] && events == [] && pending == [] && !interrupted
    {
      this.cfg, this.provider := cfg, provider;
      runId, messages, events, pending, interrupted := "", [], [], [], false;
      nextAction, rows, busClosed := 0, [], false;
      executed, sent, hashes, observed, books := [], [], [], None, Books(multiset{}, 0, []);
      trail, checker, waits, replies := [], Checker(0, NoIntent), [], [];
      plan := Plan([], 0, 0);
    }

    // ---- The bus, with other publishers ----

    /** The row is stored iff the bus is open and the insert is accepted; otherwise the call raises. */
    method Publish(m: AgentMessage) returns (ok: bool)
      modifies `rows
      ensures ok <==> !busClosed && Insertable(old(rows), m)
      ensures rows == if ok then old(rows) + [m] else old(rows)
    {
      ok := !busClosed && Insertable(rows, m);
      if ok {
        rows := rows + [m];
      }
    }

    /** Anybody else publishes anything, and may close the bus. */
    method Interfere()
      modifies `rows, `busClosed
      ensures old(rows) <= rows && (old(busClosed) ==> busClosed)
    {
      var incoming: seq<AgentMessage> := *;
      for i := 0 to |incoming|
        invariant old(rows) <= rows && busClosed == old(busClosed)
      {
        var _ := Publish(incoming[i]);
      }
      var closes: bool := *;
      busClosed := busClosed || closes;
    }

    /** `wait_for_response`: the reply stored at return, or None because the deadline passed or the bus closed.
        A wait without a deadline that finds no reply can only have been ended by a close. */
    method WaitForResponse(id: MessageId, timeout: Option<real>) returns (r: Option<AgentMessage>)
      modifies `rows, `busClosed, `waits
      ensures old(rows) <= rows && (old(busClosed) ==> busClosed)
      ensures waits == old(waits) + [Wait(id, timeout)]
      ensures r == ResponseFor(rows, id)
      ensures r.None? ==> timeout.Some? || busClosed
    {
      waits := waits + [Wait(id, timeout)];
      Interfere();
      r := ResponseFor(rows, id);
      if r.None? && timeout.None? {
        busClosed := true;
      }
    }

    /** A uuid4: any id no stored message has. */
    method FreshId() returns (id: MessageId)
      ensures !HasId(rows, id)
    {
      SomeIdUnused(rows);
      id :| !HasId(rows, id);
    }

    /** Publish an informational message, which fails iff the bus is closed. */
    method Tell(session: string, task: Option<string>, parent: Option<MessageId>, about: Option<nat>)
      returns (ok: bool)
      modifies `rows
      ensures ok == !busClosed && Told(old(rows), rows, ok, session, task, parent, about)
    {
      var id := FreshId();
      var now: int := *;
      ok := Publish(AgentMessage(id, session, task, parent, Informational, [], None, about, None, now));
    }

    // ---- WaitCoordinator ----

    /** A timeout notice is informational: it changes nobody's canonical reply. */
    method PublishNotice(actionable: AgentMessage) returns (ok: bool)
      modifies `rows
      ensures ok <==> !cfg.behavior.notifyOnProceed || !busClosed
      ensures Told(old(rows), rows, cfg.behavior.notifyOnProceed && !busClosed, actionable.session, actionable.task,
                   Some(actionable.id), None)
      ensures forall id :: ResponseFor(rows, id) == ResponseFor(old(rows), id)
    {
      if !cfg.behavior.notifyOnProceed {
        return true;
      }
      ok := Tell(actionable.session, actionable.task, Some(actionable.id), None);
      forall id {
        ToldAnswersNothing(old(rows), rows, ok, actionable.session, actionable.task, Some(actionable.id), None, id);
      }
    }

    /** `handle_actionable`. `at` is the length of the table when the decisive look at it was taken. A synchronous wait
        takes the timeout of the message, else the configured one, and under `wait` is followed by one without a
        timeout if it ends in silence; another silence is announced iff notices are on. */
    method HandleActionable(m: AgentMessage) returns (w: WaitResult, at: nat)
      requires m.kind.Actionable? && m in rows
      modifies `rows, `busClosed, `waits
      ensures old(rows) <= rows && |old(rows)| <= at <= |rows| && (old(busClosed) ==> busClosed)
      ensures cfg.behavior.strategy.Async? ==> waits == old(waits) && rows == old(rows)
      ensures cfg.behavior.strategy.Sync? ==>
                waits == old(waits) + [Wait(m.id, if m.timeout.Some? then m.timeout else cfg.behavior.waitTimeout)]
                         + if |waits| == |old(waits)| + 2 then [Wait(m.id, None)] else []
      ensures |waits| == |old(waits)| + 2 ==> cfg.behavior.timeoutAction.Wait?
      ensures cfg.behavior.strategy.Sync? && cfg.behavior.timeoutAction.Wait? && !w.GotResponse? ==>
                |waits| == |old(waits)| + 2
      ensures w.WaitRaised? ==> busClosed && cfg.behavior.notifyOnProceed
      ensures w.SilenceProceed? || (w.SilenceSkip? && cfg.behavior.timeoutAction.Skip?) ==>
                Told(rows[..at], rows, cfg.behavior.notifyOnProceed, m.session, m.task, Some(m.id), None)
      ensures w.GotResponse? ==>
          ResponseFor(rows[..at], m.id).Some? && ResponseFor(rows[..at], m.id).value.value == w.value
      ensures w.SilenceProceed? ==>
                && cfg.behavior.strategy.Sync? && ResponseFor(rows[..at], m.id).None?
                && (cfg.behavior.timeoutAction.ProceedDefault? || cfg.behavior.timeoutAction.ProceedConfident?)
      ensures w.SilenceSkip? ==>
                && cfg.behavior.strategy.Sync? && ResponseFor(rows[..at], m.id).None?
                && (cfg.behavior.timeoutAction.Skip? || (cfg.behavior.timeoutAction.Wait? && busClosed))
      ensures w.Pending? <==> cfg.behavior.strategy.Async?
    {
      at := |rows|;
      if cfg.behavior.strategy.Async? {
        return Pending, at;
      }
      var timeout := if m.timeout.Some? then m.timeout else cfg.behavior.waitTimeout;
      var response := WaitForResponse(m.id, timeout);
      at := |rows|;
      assert rows[..at] == rows;
      if response.Some? {
        return GotResponse(response.value.value), at;
      }
      if cfg.behavior.timeoutAction.Wait? {
        response := WaitForResponse(m.id, None);
        at := |rows|;
        assert rows[..at] == rows;
        return if response.Some? then GotResponse(response.value.value) else SilenceSkip, at;
      }
      ghost var seen := rows;
      var ok := PublishNotice(m);
      assert rows[..at] == seen;
      if !ok {
        return WaitRaised, at;
      }
      w := if cfg.behavior.timeoutAction.Skip? then SilenceSkip else SilenceProceed;
    }

    // ---- Gate dispatch ----

    /** The EMIT half of `_consult_gate`: publish the actionable, wait, read the reply. It raises only on a closed bus,
        and a reply that says no is never followed by a hand-off. */
    method AskUser(a: Action) returns (d: Dispatch)
      requires MustAsk(cfg, a)
      modifies `rows, `busClosed, `waits
      ensures old(rows) <= rows && (old(busClosed) ==> busClosed)
      ensures if old(busClosed) then d.GateRaised? && rows == old(rows)
              else AskedFirst(old(rows), rows, cfg.session, runId, a.id)
      ensures d.GateRaised? ==> busClosed
      ensures !d.GateRaised? && cfg.behavior.strategy.Sync? ==>
                old(waits) + [Wait(rows[|old(rows)|].id, cfg.behavior.waitTimeout)] <= waits
      ensures d.Defer? ==> d.id == rows[|old(rows)|].id
      ensures d.Proceed? ==>
                && (d.clearance.Answered? || d.clearance.TimedOut?) && d.clearance.at <= |rows|
                && !SaidNo(rows[..d.clearance.at], d.clearance.id)
      ensures d.Proceed? ==> Cleared(cfg, Execution(a, d.clearance, rows))
      ensures d.Defer? ==> cfg.behavior.strategy.Async? && OwnActionable(rows, d.id, a.id)
      ensures cfg.behavior.strategy.Async? ==> d.Defer? || d.GateRaised?
      ensures d.SkipWith? ==> SkipJustified(cfg, rows, a.id, d.observation)
    {
      var id := FreshId();
      var now: int := *;
      var actionable :=
        AgentMessage(id, cfg.session, Some(runId), None, Actionable, ["yes", "no"], None, Some(a.id), None, now);
      var ok := Publish(actionable);
      if !ok {
        return GateRaised;
      }
      ghost var before := rows;
      assert before[|before| - 1] == actionable;
      assert OwnActionable(before, id, a.id);
      var w, at := HandleActionable(actionable);
      assert before <= rows[..at];
      OwnGrown(before, rows[..at], id, a.id);
      OwnGrown(before, rows, id, a.id);
      match w
      case GotResponse(value) =>
        if SaidNo(rows[..at], id) {
          SaidNoIsNoApproval(rows[..at], id);
        }
        assert Autonomy.IsRejection(value) ==> RejectedAt(rows, a.id, id, at);
        d := if Autonomy.IsRejection(value) then SkipWith(Declined) else Proceed(Answered(id, at));
      case SilenceProceed => d := Proceed(TimedOut(id, at));
      case SilenceSkip => d := SkipWith(TimedOutSkip);
      case Pending => d := Defer(id);
      case WaitRaised => d := GateRaised;
    }

    /** `_consult_gate`: proceeding always comes with a clearance, deferring with the action's own actionable. Without a
        gate, and below it, the action proceeds - with a notice iff the gate wants one - and only a closed bus or a
        confidence out of range keeps it from that. */
    method ConsultGate(a: Action) returns (d: Dispatch)
      modifies `rows, `busClosed, `waits
      ensures old(rows) <= rows && (old(busClosed) ==> busClosed)
      ensures !cfg.gated ==> d == Proceed(Ungated) && rows == old(rows)
      ensures cfg.gated && Verdict(cfg, a).Raised? ==> d.GateRaised? && rows == old(rows)
      ensures cfg.gated && Verdict(cfg, a).Decision? && Verdict(cfg, a).verdict.Proceed? ==>
                && Told(old(rows), rows, Verdict(cfg, a).inform && !old(busClosed), cfg.session, Some(runId), None,
                        Some(a.id))
                && d == if Verdict(cfg, a).inform && old(busClosed) then GateRaised else Proceed(BelowGate)
      ensures MustAsk(cfg, a) && !d.GateRaised? ==> AskedFirst(old(rows), rows, cfg.session, runId, a.id)
      ensures MustAsk(cfg, a) && cfg.behavior.strategy.Async? ==> d.Defer? || d.GateRaised?
      ensures d.GateRaised? ==> cfg.gated && (busClosed || Verdict(cfg, a).Raised?)
      ensures d.Proceed? ==> Cleared(cfg, Execution(a, d.clearance, rows))
      ensures d.Defer? ==> MustAsk(cfg, a) && OwnActionable(rows, d.id, a.id) && cfg.behavior.strategy.Async?
      ensures d.SkipWith? ==> MustAsk(cfg, a) && SkipJustified(cfg, rows, a.id, d.observation)
    {
      if !cfg.gated {
        return Proceed(Ungated);
      }
      var risk := Autonomy.Assess(a.Links(), "composite");
      var decision := Autonomy.Check(cfg.behavior, risk, a.confidence);
      if decision.Raised? {
        return GateRaised;
      }
      if decision.verdict.Emit? {
        d := AskUser(a);
        return;
      }
      if decision.inform {
        var ok := Tell(cfg.session, Some(runId), None, Some(a.id));
        if !ok {
          return GateRaised;
        }
      }
      d := Proceed(BelowGate);
    }

    // ---- Events ----

    ghost predicate Recorded()
      reads `events, `trail, `books, `executed
    {
      InOrder(events, trail, books, executed)
    }

    ghost predicate Closed()
      reads `interrupted, `observed, `executed
    {
      Final(interrupted, observed, executed)
    }

    /** No safe point has given a reason to stop. */
    ghost predicate Going()
      reads `interrupted, `checker
    {
      !interrupted && checker.said.NoIntent?
    }

    /** The reason says what the interrupt checker said, and a finish is the last event. */
    ghost predicate Stopped(r: StopReason)
      reads `interrupted, `checker, `events
    {
      && (r.Interrupted? <==> interrupted) && (interrupted <==> checker.said.Intent?)
      && (r.InterruptCheckError? <==> checker.said.CheckRaises?)
      && (r.AgentFinish? ==> EndsWithFinish(events))
    }

    /** `_append_event` for a new action: it is open from here on. */
    method AppendAction(a: Action)
      requires Recorded() && books.bound <= a.id
      modifies `events, `books
      ensures Recorded() && events == old(events) + [ActionAppended(a)]
      ensures books.open == old(books).open + multiset{a.id} && books.bound == a.id + 1
    {
      InOrderAppend(events, trail, books, executed, ActionAppended(a));
      books := books.Enter(ActionAppended(a));
      events := events + [ActionAppended(a)];
    }

    /** `_append_event` for the observation that settles an open action without running it. */
    method AppendVerdict(o: Observation, id: nat)
      requires Recorded() && !o.Ran? && id in books.open
      modifies `events, `books
      ensures Recorded() && events == old(events) + [Observed(o, Some(id))]
      ensures books.open == old(books).open - multiset{id} && books.bound == old(books).bound
    {
      InOrderAppend(events, trail, books, executed, Observed(o, Some(id)));
      books := books.Enter(Observed(o, Some(id)));
      events := events + [Observed(o, Some(id))];
    }

    /** `_append_event` for an observation that resolves no action. */
    method AppendRemark(o: Observation)
      requires Recorded() && !o.Ran?
      modifies `events
      ensures Recorded() && events == old(events) + [Observed(o, None)]
    {
      InOrderAppend(events, trail, books, executed, Observed(o, None));
      events := events + [Observed(o, None)];
    }

    /** Append a loop error and mirror it to the bus; a failure of the mirror is suppressed. */
    method ReportError(reason: StopReason)
      requires Recorded()
      modifies `events, `rows
      ensures Recorded() && old(rows) <= rows
      ensures events == old(events) + [Observed(LoopError(reason), None)]
      ensures Told(old(rows), rows, cfg.hasBus && !busClosed, cfg.session, Some(runId), None, None)
    {
      AppendRemark(LoopError(reason));
      if cfg.hasBus {
        var _ := Tell(cfg.session, Some(runId), None, None);
      }
    }

    /** How often the checker is asked over `n` safe points. */
    ghost function Asks(n: nat): nat {
      if cfg.interruptible then n else 0
    }

    /** The interrupt checker: whatever it says is on record from here on. */
    method ReadIntent() returns (answer: InterruptCheck)
      requires checker.said.NoIntent?
      modifies `observed, `checker
      ensures checker == Checker(old(checker).asked + 1, answer)
      ensures observed == if answer.Intent? then Some(|executed|) else old(observed)
    {
      answer := *;
      checker := Checker(checker.asked + 1, answer);
      if answer.Intent? {
        observed := Some(|executed|);
      }
    }

    /** `_check_interrupt`: an observed intent closes the run for further hand-offs. */
    method CheckInterrupt() returns (stop: Option<StopReason>)
      requires Recorded() && Closed() && Going()
      modifies `interrupted, `observed, `checker, `events, `rows
      ensures Recorded() && Closed() && old(rows) <= rows
      ensures checker.asked == old(checker).asked + Asks(1) && (!cfg.interruptible ==> stop.None?)
      ensures stop.None? ==> Going() && events == old(events) && rows == old(rows)
      ensures stop.Some? ==> Stopped(stop.value) && (stop.value.Interrupted? || stop.value.InterruptCheckError?)
      ensures stop.Some? ==> events == old(events) + [Observed(LoopError(stop.value), None)]
      ensures Told(old(rows), rows, stop == Some(InterruptCheckError) && cfg.hasBus && !busClosed, cfg.session,
                   Some(runId), None, None)
    {
      if !cfg.interruptible {
        return None;
      }
      var answer := ReadIntent();
      match answer
      case NoIntent =>
        stop := None;
      case CheckRaises =>
        ReportError(InterruptCheckError);
        stop := Some(InterruptCheckError);
      case Intent =>
        interrupted := true;
        AppendRemark(LoopError(Interrupted));
        stop := Some(Interrupted);
    }

    // ---- Running actions ----

    /** `Runtime.execute` on a cleared action. Others may act before and during the run. */
    method Execute(a: Action, c: Clearance) returns (o: Observation)
      requires Closed() && !interrupted && AllCleared(cfg, executed)
      requires Cleared(cfg, Execution(a, c, rows))
      modifies `rows, `busClosed, `executed
      ensures Closed() && AllCleared(cfg, executed)
      ensures old(rows) <= rows && o.Ran? && (old(busClosed) ==> busClosed)
      ensures HandedOff(executed) == HandedOff(old(executed)) + [a.id]
    {
      Interfere();
      HandOff(cfg, executed, a, c, old(rows), rows);
      executed := executed + [Execution(a, c, rows)];
      var text: string, isCode: bool, waits: bool := *, *, *;
      o := Ran(text, isCode, waits);
      Interfere();
    }

    /** Hand a cleared action to the runtime and append what it observed. */
    method RunAction(a: Action, c: Clearance) returns (o: Observation)
      requires Recorded() && Closed() && !interrupted && AllCleared(cfg, executed)
      requires Cleared(cfg, Execution(a, c, rows)) && a.id in books.open
      modifies `rows, `busClosed, `events, `books, `executed
      ensures Recorded() && Closed() && AllCleared(cfg, executed) && (old(busClosed) ==> busClosed)
      ensures old(rows) <= rows && HandedOff(executed) == HandedOff(old(executed)) + [a.id]
      ensures o.Ran? && events == old(events) + [Observed(o, Some(a.id))]
      ensures books.open == old(books).open - multiset{a.id} && books.bound == old(books).bound
    {
      o := Execute(a, c);
      var e := Observed(o, Some(a.id));
      InOrderRun(events, trail, books, old(executed), executed, e);
      books := books.Enter(e);
      events := events + [e];
    }

    /** `_maybe_audit`. */
    method MaybeAudit(a: Action, o: Observation)
      requires Recorded() && Outstanding(messages).Some?
      modifies `events, `messages
      ensures Recorded() && old(events) <= events
      ensures Outstanding(messages) == Outstanding(old(messages)) && old(messages) <= messages
      ensures if cfg.audits && a.isCode && o.Ran? && o.isCodeResult
              then |events| == |old(events)| + 1 && events[|old(events)|].Observed?
                   && events[|old(events)|].resolves.None? && events[|old(events)|].observation.Audited?
                   && messages == old(messages) + [System(events[|old(events)|].observation.text)]
              else events == old(events) && messages == old(messages)
    {
      if !cfg.audits || !a.isCode || !o.Ran? || !o.isCodeResult {
        return;
      }
      var text: string := *;
      AppendRemark(Audited(text));
      Note(text);
    }

    /** Append a system message to the transcript. */
    method Note(text: string)
      requires Outstanding(messages).Some?
      modifies `messages
      ensures Outstanding(messages) == Outstanding(old(messages)) && messages == old(messages) + [System(text)]
    {
      OutstandingAppend(messages, System(text));
      messages := messages + [System(text)];
    }

    /** The canonical reply to a queued entry carried out: a rejecting one declines it, another one runs it. */
    method CarryOut(p: PendingDecision, value: Option<string>) returns (o: Observation)
      requires Recorded() && Closed() && !interrupted && AllCleared(cfg, executed)
      requires MustAsk(cfg, p.action) && OwnActionable(rows, p.messageId, p.action.id)
      requires ResponseFor(rows, p.messageId).Some? && ResponseFor(rows, p.messageId).value.value == value
      requires p.action.id in books.open
      modifies `rows, `busClosed, `events, `books, `executed
      ensures Recorded() && Closed() && AllCleared(cfg, executed)
      ensures old(rows) <= rows && books.bound == old(books).bound && (old(busClosed) ==> busClosed)
      ensures books.open == old(books).open - multiset{p.action.id}
      ensures events == old(events) + [Observed(o, Some(p.action.id))]
      ensures ResolvedAs(p, o, old(executed), executed, rows)
      ensures o.Ran? <==> Approved(old(rows), p.messageId)
    {
      assert rows[..|rows|] == rows;
      if Autonomy.IsRejection(value) {
        assert RejectedAt(rows, p.action.id, p.messageId, |rows|);
        AppendVerdict(Declined, p.action.id);
        o := Declined;
      } else {
        o := RunAction(p.action, Answered(p.messageId, |rows|));
      }
    }

    /** One entry of the queue, looked at without waiting: nothing happens without a reply, a rejecting reply declines
        it, another one runs it. `read` is the table when the reply was read: one that says no is never followed by a
        hand-off. */
    method Resolve(p: PendingDecision) returns (o: Option<Observation>, ghost read: seq<AgentMessage>)
      requires Recorded() && Closed() && !interrupted && AllCleared(cfg, executed)
      requires MustAsk(cfg, p.action) && OwnActionable(rows, p.messageId, p.action.id)
      requires p.action.id in books.open
      modifies `rows, `busClosed, `waits, `events, `books, `executed
      ensures Recorded() && Closed() && AllCleared(cfg, executed)
      ensures old(rows) <= read <= rows && books.bound == old(books).bound && (old(busClosed) ==> busClosed)
      ensures waits == old(waits) + [Wait(p.messageId, Some(0.0))]
      ensures o.None? <==> ResponseFor(read, p.messageId).None?
      ensures o.Some? && o.value.Ran? <==> Approved(read, p.messageId)
      ensures o.None? || SaidNo(read, p.messageId) ==> executed == old(executed)
      ensures books.open == if o.None? then old(books).open else old(books).open - multiset{p.action.id}
      ensures o.None? ==> events == old(events)
      ensures o.Some? ==> events == old(events) + [Observed(o.value, Some(p.action.id))]
      ensures o.Some? ==> ResolvedAs(p, o.value, old(executed), executed, rows)
    {
      var response := WaitForResponse(p.messageId, Some(0.0));
      read := rows;
      if response.None? {
        return None, read;
      }
      OwnGrown(old(rows), read, p.messageId, p.action.id);
      var outcome := CarryOut(p, response.value.value);
      if SaidNo(read, p.messageId) {
        SaidNoIsNoApproval(read, p.messageId);
      }
      o := Some(outcome);
    }

    /** The transcript is told what became of a queued action, and its result is audited. */
    method Report(a: Action, o: Observation)
      requires Recorded() && Outstanding(messages).Some?
      modifies `events, `messages
      ensures Recorded() && old(events) <= events
      ensures Outstanding(messages) == Outstanding(old(messages)) && old(messages) <= messages
      ensures |events| == |old(events)| + if AuditDue(cfg, a, o) then 1 else 0
      ensures |messages| == |old(messages)| + (if AuditDue(cfg, a, o) then 2 else 1)
      ensures messages[|old(messages)|].System?
    {
      var text: string := *;
      Note(text);
      ghost var noted := messages;
      MaybeAudit(a, o);
      PrefixTransitive(old(messages), noted, messages);
    }

    /** One entry of the queue, and what the transcript is told about it. */
    method DrainOne(p: PendingDecision, toMessages: bool) returns (kept: bool)
      requires Recorded() && Closed() && !interrupted && AllCleared(cfg, executed)
      requires MustAsk(cfg, p.action) && OwnActionable(rows, p.messageId, p.action.id)
      requires p.action.id in books.open && (toMessages ==> Outstanding(messages).Some?)
      modifies `rows, `busClosed, `waits, `events, `books, `executed, `messages
      ensures Recorded() && Closed() && AllCleared(cfg, executed)
      ensures old(rows) <= rows && books.bound == old(books).bound && (old(busClosed) ==> busClosed)
      ensures books.open == if kept then old(books).open else old(books).open - multiset{p.action.id}
      ensures Outstanding(messages) == Outstanding(old(messages)) && old(messages) <= messages
      ensures kept ==>
                events == old(events) && messages == old(messages) && ResponseFor(old(rows), p.messageId).None?
      ensures !kept ==>
                && old(events) < events && events[|old(events)|].Observed?
                && events[|old(events)|].resolves == Some(p.action.id)
                && ResolvedAs(p, events[|old(events)|].observation, old(executed), executed, rows)
      ensures !kept ==> ResponseFor(rows, p.messageId).Some?
      ensures !toMessages ==> messages == old(messages)
      ensures !toMessages && !kept ==> events != [] && !EndsWithFinish(events)
      ensures toMessages && !kept ==>
                && |messages| == |old(messages)| + |events| - |old(events)| && messages[|old(messages)|].System?
                && (|events| == |old(events)| + 2 <==> AuditDue(cfg, p.action, events[|old(events)|].observation))
    {
      ghost var read;
      var o;
      o, read := Resolve(p);
      AnsweredBetween(old(rows), read, rows, p.messageId);
      if toMessages && o.Some? {
        Report(p.action, o.value);
      }
      kept := o.None?;
    }

    /** What holds whenever no action is in the air: the open actions are exactly the queue. */
    ghost predicate Safe()
      reads `events, `trail, `books, `executed, `interrupted, `observed, `pending, `rows, `nextAction
    {
      books.bound <= nextAction && Sound(cfg, events, trail, books, executed, interrupted, observed, pending, rows)
    }

    lemma OpenSafe()
      requires Safe()
      ensures Recorded() && Closed() && AllCleared(cfg, executed) && Queue(cfg, books.open, pending, rows)
    {
      OpenSound(cfg, events, trail, books, executed, interrupted, observed, pending, rows);
    }

    lemma CloseSafe()
      requires Recorded() && Closed() && AllCleared(cfg, executed) && Queue(cfg, books.open, pending, rows)
      requires books.bound <= nextAction
      ensures Safe()
    {
    }

    /** The queue during a drain: `queue` is what is kept so far followed by what has not been looked at. Nothing was
        lost since `rows0` and `messages0`. */
    ghost predicate Draining(queue: seq<PendingDecision>, rows0: seq<AgentMessage>, messages0: seq<ChatMessage>)
      reads `events, `trail, `books, `executed, `interrupted, `observed, `rows, `nextAction, `messages
    {
      && books.bound <= nextAction && !interrupted
      && Sound(cfg, events, trail, books, executed, interrupted, observed, queue, rows)
      && rows0 <= rows && messages0 <= messages
      && Outstanding(messages) == Outstanding(messages0)
    }

    /** One step of the drain at position `k` of the queue: the entry is kept, or resolved and taken out. */
    method DrainNext(ghost queue: seq<PendingDecision>, k: nat, p: PendingDecision, toMessages: bool,
                     ghost rows0: seq<AgentMessage>, ghost messages0: seq<ChatMessage>)
      returns (kept: bool, ghost next: seq<PendingDecision>)
      requires Draining(queue, rows0, messages0) && k < |queue| && queue[k] == p
      requires toMessages ==> Outstanding(messages0).Some?
      modifies `rows, `busClosed, `waits, `events, `books, `executed, `messages
      ensures Draining(next, rows0, messages0)
      ensures next == if kept then queue else Without(queue, k)
      ensures kept ==> events == old(events) && messages == old(messages) && ResponseFor(rows0, p.messageId).None?
      ensures !kept ==> ResponseFor(rows, p.messageId).Some? && |events| > |old(events)|
      ensures toMessages ==> |messages| - |old(messages)| == |events| - |old(events)|
      ensures old(rows) <= rows && (old(busClosed) ==> busClosed)
      ensures !toMessages ==> messages == old(messages)
      ensures !toMessages && !kept ==> events != [] && !EndsWithFinish(events)
    {
      OpenSound(cfg, events, trail, books, executed, interrupted, observed, queue, rows);
      QueueWithout(cfg, books.open, queue, k, rows);
      kept := DrainOne(p, toMessages);
      PrefixTransitive(rows0, old(rows), rows);
      PrefixTransitive(messages0, old(messages), messages);
      if kept && ResponseFor(rows0, p.messageId).Some? {
        AnsweredStaysAnswered(rows0, old(rows), p.messageId);
      }
      next := if kept then queue else Without(queue, k);
      QueueGrown(cfg, books.open, next, old(rows), rows);
      CloseSound(cfg, events, trail, books, executed, interrupted, observed, next, rows);
    }

    /** What the drain loop has kept of the first `i` entries. */
    ghost predicate Kept(still: seq<PendingDecision>, queue: seq<PendingDecision>, i: nat,
                         rows0: seq<AgentMessage>, messages0: seq<ChatMessage>)
      requires i <= |queue|
      reads `events, `trail, `books, `executed, `interrupted, `observed, `rows, `nextAction, `messages
    {
      && Draining(still + queue[i..], rows0, messages0)
      && Subsequence(still, queue[..i]) && Unanswered(still, rows0)
    }

    /** What `resolved` resolutions among the entries looked at did to events and messages: every event of a drain has
        its message, except at shutdown, when the messages are left alone. */
    ghost predicate Drained(looked: seq<PendingDecision>, resolved: nat, toMessages: bool, events0: seq<Event>,
                            messages0: seq<ChatMessage>)
      reads `events, `messages, `rows
    {
      && (resolved > 0 ==> !Unanswered(looked, rows))
      && (resolved == 0 ==> events == events0) && |events| >= |events0| + resolved
      && (toMessages ==> |messages| - |messages0| == |events| - |events0|)
      && (!toMessages ==> messages == messages0)
      && (!toMessages && resolved > 0 ==> events != [] && !EndsWithFinish(events))
    }

    /** One turn of the drain loop. */
    method DrainTurn(still: seq<PendingDecision>, resolved: nat, queue: seq<PendingDecision>, i: nat, toMessages: bool,
                     ghost rows0: seq<AgentMessage>, ghost messages0: seq<ChatMessage>, ghost events0: seq<Event>)
      returns (still': seq<PendingDecision>, resolved': nat)
      requires i < |queue| && Kept(still, queue, i, rows0, messages0)
      requires Drained(queue[..i], resolved, toMessages, events0, messages0)
      requires toMessages ==> Outstanding(messages0).Some?
      modifies `rows, `busClosed, `waits, `events, `books, `executed, `messages
      ensures Kept(still', queue, i + 1, rows0, messages0)
      ensures Drained(queue[..i + 1], resolved', toMessages, events0, messages0) && (old(busClosed) ==> busClosed)
      ensures |still'| + resolved' == |still| + resolved + 1
    {
      DrainPosition(still, queue, i);
      SubsequenceStep(still, queue, i);
      ghost var next;
      var kept;
      kept, next := DrainNext(still + queue[i..], |still|, queue[i], toMessages, rows0, messages0);
      UnansweredTurn(queue, i, old(rows), rows);
      if kept {
        UnansweredAppend(still, queue[i], rows0);
        still', resolved' := still + [queue[i]], resolved;
      } else {
        still', resolved' := still, resolved + 1;
      }
    }

    /** The drain loop: it builds the list of entries still without a reply. */
    method DrainQueue(queue: seq<PendingDecision>, toMessages: bool)
      returns (still: seq<PendingDecision>, resolved: nat)
      requires Kept([], queue, 0, rows, messages) && (toMessages ==> Outstanding(messages).Some?)
      modifies `rows, `busClosed, `waits, `events, `books, `executed, `messages
      ensures Kept(still, queue, |queue|, old(rows), old(messages)) && |still| + resolved == |queue|
      ensures Drained(queue, resolved, toMessages, old(events), old(messages)) && (old(busClosed) ==> busClosed)
    {
      still, resolved := [], 0;
      var i := 0;
      while i < |queue|
        invariant i <= |queue| && Kept(still, queue, i, old(rows), old(messages)) && |still| + resolved == i
        invariant Drained(queue[..i], resolved, toMessages, old(events), old(messages))
        invariant old(busClosed) ==> busClosed
      {
        still, resolved := DrainTurn(still, resolved, queue, i, toMessages, old(rows), old(messages), old(events));
        i := i + 1;
      }
      assert i == |queue| && queue[..i] == queue;
    }

    /** `drain_pending_responses`: every entry whose reply has landed is declined or run, once; the others stay queued.
        The shutdown drain (`toMessages` false) leaves the transcript alone. */
    method Drain(toMessages: bool) returns (resolved: nat)
      requires Safe() && !interrupted && (toMessages ==> Outstanding(messages).Some?)
      modifies `rows, `busClosed, `waits, `events, `books, `executed, `messages, `pending
      ensures Safe()
      ensures Outstanding(messages) == Outstanding(old(messages)) && old(messages) <= messages
      ensures |pending| + resolved == |old(pending)|
      ensures Subsequence(pending, old(pending))
      ensures old(rows) <= rows && (old(busClosed) ==> busClosed)
      ensures cfg.hasBus ==> Unanswered(pending, old(rows))
      ensures old(pending) == [] ==> messages == old(messages)
      ensures resolved > 0 ==> !Unanswered(old(pending), rows)
      ensures resolved == 0 ==> events == old(events)
      ensures |events| >= |old(events)| + resolved
      ensures toMessages ==> |messages| - |old(messages)| == |events| - |old(events)|
      ensures !toMessages ==> messages == old(messages)
      ensures !toMessages && resolved > 0 ==> events != [] && !EndsWithFinish(events)
    {
      if pending == [] || !cfg.hasBus {
        SubsequenceSelf(pending);
        return 0;
      }
      assert [] + pending[0..] == pending;
      var still;
      still, resolved := DrainQueue(pending, toMessages);
      assert still + pending[|pending|..] == still && pending[..|pending|] == pending;
      pending := still;
    }

    // ---- One tool call ----

    /** Take down where the loop is. */
    ghost method Count()
      requires Safe()
      modifies `trail
      ensures Safe() && trail == old(trail) + [Point(|events|, |pending|)]
    {
      OpenSafe();
      PointConserved(cfg, trail, events, books, pending, rows);
      trail := trail + [Point(|events|, |pending|)];
    }

    /** The checker ended the run. */
    ghost predicate Halted(r: StopReason) {
      cfg.interruptible && (r.Interrupted? || r.InterruptCheckError?)
    }

    /** A safe point: ask the checker if there is one; stop, or go on exactly as before. */
    method SafePoint() returns (stop: Option<StopReason>)
      requires Safe() && Going()
      modifies `interrupted, `observed, `checker, `trail, `events, `rows
      ensures Safe() && trail == old(trail) + [Point(|old(events)|, |pending|)]
      ensures checker.asked == old(checker).asked + Asks(1)
      ensures stop.None? ==> Going() && events == old(events) && rows == old(rows)
      ensures stop.Some? ==> Stopped(stop.value) && Halted(stop.value)
      ensures stop.Some? ==> events == old(events) + [Observed(LoopError(stop.value), None)]
      ensures stop == Some(Interrupted) ==> rows == old(rows)
    {
      Count();
      OpenSafe();
      stop := CheckInterrupt();
      QueueGrown(cfg, books.open, pending, old(rows), rows);
    }

    /** The tool reply to the first outstanding call. */
    method ReplyTo(id: string, ghost rest: seq<string>)
      requires Outstanding(messages) == Some([id] + rest)
      modifies `messages
      ensures Outstanding(messages) == Some(rest) && old(messages) <= messages && |messages| == |old(messages)| + 1
    {
      var text: string := *;
      OutstandingAppend(messages, Tool(id, text));
      assert ([id] + rest)[1..] == rest;
      messages := messages + [Tool(id, text)];
    }

    /** A new action appended together with the observation that settles it without running it. */
    method SettleAction(a: Action, o: Observation)
      requires Safe() && books.bound <= a.id < nextAction && !o.Ran?
      modifies `events, `books
      ensures Safe()
      ensures events == old(events) + [ActionAppended(a)] + [Observed(o, Some(a.id))]
    {
      OpenSafe();
      AppendAction(a);
      AppendVerdict(o, a.id);
      TakenBack(old(books).open, a.id);
    }

    /** A new action appended and queued until its reply lands. */
    method DeferAction(a: Action, id: MessageId)
      requires Safe() && books.bound <= a.id < nextAction
      requires MustAsk(cfg, a) && OwnActionable(rows, id, a.id)
      modifies `events, `books, `pending
      ensures Safe() && pending == old(pending) + [PendingDecision(id, a)]
      ensures events == old(events) + [ActionAppended(a)]
    {
      OpenSafe();
      var queue := pending + [PendingDecision(id, a)];
      QueuePush(cfg, books.open, pending, PendingDecision(id, a), rows);
      AppendAction(a);
      pending := queue;
    }

    /** A new action is open for the time of its run. */
    method StartAndRun(a: Action, c: Clearance) returns (o: Observation)
      requires Recorded() && Closed() && !interrupted && AllCleared(cfg, executed)
      requires Cleared(cfg, Execution(a, c, rows)) && books.bound <= a.id
      modifies `rows, `busClosed, `events, `books, `executed
      ensures Recorded() && Closed() && AllCleared(cfg, executed)
      ensures old(rows) <= rows && o.Ran? && HandedOff(executed) == HandedOff(old(executed)) + [a.id]
      ensures events == old(events) + [ActionAppended(a)] + [Observed(o, Some(a.id))] && (old(busClosed) ==> busClosed)
      ensures books.open == old(books).open && books.bound == a.id + 1
    {
      AppendAction(a);
      o := RunAction(a, c);
      TakenBack(old(books).open, a.id);
    }

    /** A new action appended and run. */
    method RunNow(a: Action, c: Clearance) returns (o: Observation)
      requires Safe() && Going() && books.bound <= a.id < nextAction
      requires Cleared(cfg, Execution(a, c, rows))
      modifies `rows, `busClosed, `events, `books, `executed
      ensures Safe() && o.Ran? && HandedOff(executed) == HandedOff(old(executed)) + [a.id]
      ensures events == old(events) + [ActionAppended(a)] + [Observed(o, Some(a.id))] && (old(busClosed) ==> busClosed)
    {
      OpenSafe();
      o := StartAndRun(a, c);
      QueueGrown(cfg, books.open, pending, old(rows), rows);
      CloseSafe();
    }

    /** `_handle_finish`. */
    method HandleFinish(tc: ToolCall, ghost rest: seq<string>)
      requires Safe() && Outstanding(messages) == Some([tc.id] + rest)
      modifies `events, `books, `messages, `nextAction
      ensures Safe() && EndsWithFinish(events) && |events| == |old(events)| + 2 && old(events) <= events
      ensures events[|old(events)|].ActionAppended? && events[|old(events)|].action.id == old(nextAction)
      ensures events[|old(events)|].action.kind == FINISH_TOOL_NAME && !events[|old(events)|].action.isCode
      ensures events[|events| - 1].resolves == Some(old(nextAction)) && nextAction == old(nextAction) + 1
      ensures Outstanding(messages) == Some(rest) && old(messages) <= messages
    {
      OpenSafe();
      var answer: string := *;
      var a := Action(nextAction, FINISH_TOOL_NAME, false, Autonomy.Assessment(0.0, 0.0, [], ""), [], None);
      nextAction := nextAction + 1;
      SettleAction(a, Finish(answer));
      ReplyTo(tc.id, rest);
    }

    /** The audit after an inline run. */
    method Audit(a: Action, o: Observation)
      requires Safe() && Outstanding(messages).Some?
      modifies `events, `messages
      ensures Safe() && AuditedAs(AuditDue(cfg, a, o), old(events), events)
      ensures Outstanding(messages) == Outstanding(old(messages)) && old(messages) <= messages
    {
      OpenSafe();
      MaybeAudit(a, o);
    }

    /** A cleared action run, its tool reply, and the audit. */
    method RunAndReply(a: Action, c: Clearance, id: string, ghost rest: seq<string>) returns (o: Observation)
      requires Safe() && Going() && books.bound <= a.id < nextAction
      requires Outstanding(messages) == Some([id] + rest)
      requires Cleared(cfg, Execution(a, c, rows))
      modifies `rows, `busClosed, `events, `books, `executed, `messages
      ensures Safe() && (old(busClosed) ==> busClosed)
      ensures o.Ran? && Outstanding(messages) == Some(rest) && old(messages) <= messages
      ensures HandedOff(executed) == HandedOff(old(executed)) + [a.id]
      ensures RanAs(cfg, old(events), events, a, o.waitsForUser)
    {
      o := RunNow(a, c);
      ghost var ran := events;
      ReplyTo(id, rest);
      ghost var replied := messages;
      Audit(a, o);
      RanAsAudited(cfg, old(events), ran, events, a, o);
      PrefixTransitive(old(messages), replied, messages);
    }

    /** That, and the safe point behind it unless the action waits for the user. */
    method RunTool(a: Action, c: Clearance, id: string, ghost rest: seq<string>) returns (stop: Option<StopReason>)
      requires Safe() && Going() && books.bound <= a.id < nextAction
      requires Outstanding(messages) == Some([id] + rest)
      requires Cleared(cfg, Execution(a, c, rows))
      modifies `rows, `busClosed, `events, `books, `executed, `messages, `interrupted, `observed, `checker, `trail
      ensures Safe() && (old(busClosed) ==> busClosed)
      ensures Outstanding(messages) == Some(rest) && old(messages) <= messages
      ensures stop.None? ==> Going()
      ensures stop.Some? ==> Stopped(stop.value) && (stop.value.WaitingForUser? || Halted(stop.value))
      ensures HandedOff(executed) == HandedOff(old(executed)) + [a.id]
      ensures RanAs(cfg, old(events), events, a, stop == Some(WaitingForUser))
      ensures stop.None? ==> checker.asked == old(checker).asked + Asks(1)
    {
      var o := RunAndReply(a, c, id, rest);
      if o.waitsForUser {
        stop := Some(WaitingForUser);
      } else {
        ghost var ran := events;
        stop := SafePoint();
        if stop.Some? {
          RanAsStopped(cfg, old(events), ran, a, false, stop.value);
        }
      }
    }

    /** What the gate decided for a built action, carried out. */
    method Dispatched(a: Action, d: Dispatch, id: string, ghost rest: seq<string>) returns (stop: Option<StopReason>)
      requires Safe() && Going() && books.bound <= a.id < nextAction
      requires Outstanding(messages) == Some([id] + rest)
      requires d.Proceed? ==> Cleared(cfg, Execution(a, d.clearance, rows))
      requires d.Defer? ==> MustAsk(cfg, a) && OwnActionable(rows, d.id, a.id)
      requires d.SkipWith? ==> !d.observation.Ran?
      modifies `rows, `busClosed, `events, `books, `executed, `pending, `messages, `interrupted, `observed, `checker,
               `trail
      ensures Safe() && (old(busClosed) ==> busClosed) && (!d.Proceed? ==> rows == old(rows))
      ensures if d.GateRaised? then messages == old(messages)
              else Outstanding(messages) == Some(rest) && old(messages) <= messages
      ensures stop.None? ==> Going()
      ensures stop.Some? ==> Stopped(stop.value)
      ensures if d.Proceed? then HandedOff(executed) == HandedOff(old(executed)) + [a.id] else executed == old(executed)
      ensures pending == if d.Defer? then old(pending) + [PendingDecision(d.id, a)] else old(pending)
      ensures stop == Some(Raised) <==> d.GateRaised?
      ensures stop.Some? && !d.GateRaised? ==> d.Proceed? && (stop.value.WaitingForUser? || Halted(stop.value))
      ensures d.Proceed? ==> RanAs(cfg, old(events), events, a, stop == Some(WaitingForUser))
      ensures d.SkipWith? ==> events == old(events) + [ActionAppended(a)] + [Observed(d.observation, Some(a.id))]
      ensures d.Defer? ==> events == old(events) + [ActionAppended(a)]
      ensures d.GateRaised? ==> events == old(events)
      ensures stop.None? ==> checker.asked == old(checker).asked + if d.Proceed? then Asks(1) else 0
    {
      match d
      case GateRaised =>
        stop := Some(Raised);
      case SkipWith(o) =>
        SettleAction(a, o);
        ReplyTo(id, rest);
        stop := None;
      case Defer(mid) =>
        DeferAction(a, mid);
        ReplyTo(id, rest);
        stop := None;
      case Proceed(c) =>
        stop := RunTool(a, c, id, rest);
    }

    /** A call that names no tool, or whose arguments do not parse. */
    method RefuseCall(id: string, ghost rest: seq<string>)
      requires Safe() && Outstanding(messages) == Some([id] + rest)
      modifies `events, `messages
      ensures Safe() && Outstanding(messages) == Some(rest) && old(messages) <= messages
      ensures events == old(events) + [Observed(InvalidCall, None)]
    {
      OpenSafe();
      AppendRemark(InvalidCall);
      ReplyTo(id, rest);
    }

    /** The gate is consulted; the loop's own state does not change. */
    method Decide(a: Action) returns (d: Dispatch)
      requires Safe()
      modifies `rows, `busClosed, `waits
      ensures Safe() && old(rows) <= rows && (old(busClosed) ==> busClosed)
      ensures !cfg.gated ==> d == Proceed(Ungated)
      ensures cfg.gated && !MustAsk(cfg, a) && !d.GateRaised? ==> d == Proceed(BelowGate)
      ensures MustAsk(cfg, a) && cfg.behavior.strategy.Async? ==> d.Defer? || d.GateRaised?
      ensures d.GateRaised? ==> cfg.gated && (busClosed || BadConfidence(cfg, a.confidence))
      ensures d.Proceed? ==> Cleared(cfg, Execution(a, d.clearance, rows))
      ensures d.Defer? ==> MustAsk(cfg, a) && OwnActionable(rows, d.id, a.id) && !NeverDefers(cfg)
      ensures d.Defer? ==> cfg.behavior.strategy.Async?
      ensures d.SkipWith? ==> MustAsk(cfg, a) && SkipJustified(cfg, rows, a.id, d.observation)
    {
      OpenSafe();
      BadConfidenceIff(cfg, a);
      MustAskPossibleIff(cfg);
      d := ConsultGate(a);
      QueueGrown(cfg, books.open, pending, old(rows), rows);
    }

    /** A built action: the safe point, the gate, and what it decides. An interrupt at the safe point comes before
        anything is published or asked. Below the gate, or without one, the action is handed off; under async an action
        the user must be asked about is queued; what is neither run nor queued has its reason. */
    method HandleAction(a: Action, id: string, ghost rest: seq<string>) returns (stop: Option<StopReason>)
      requires Safe() && Going() && books.bound <= a.id < nextAction
      requires Outstanding(messages) == Some([id] + rest)
      modifies `rows, `busClosed, `waits, `events, `books, `executed, `pending, `messages, `interrupted, `observed,
               `checker, `trail
      ensures Safe()
      ensures stop.None? ==> Going() && Outstanding(messages) == Some(rest) && old(messages) <= messages
      ensures stop.Some? ==> Stopped(stop.value)
      ensures stop.Some? ==> stop.value.WaitingForUser? || Halted(stop.value) || stop.value.Raised?
      ensures stop == Some(Raised) ==> cfg.gated && (busClosed || BadConfidence(cfg, a.confidence))
      ensures stop == Some(Interrupted) && executed == old(executed) ==> rows == old(rows) && waits == old(waits)
      ensures stop.None? ==> |old(events)| < |events| && events[|old(events)|] == ActionAppended(a)
      ensures stop.None? && !MustAsk(cfg, a) ==>
                && HandedOff(executed) == HandedOff(old(executed)) + [a.id]
                && RanAs(cfg, old(events), events, a, false)
                && checker.asked == old(checker).asked + Asks(2)
      ensures stop.None? ==> checker.asked >= old(checker).asked + Asks(1)
      ensures stop.None? && MustAsk(cfg, a) && cfg.behavior.strategy.Async? ==>
                && executed == old(executed) && events == old(events) + [ActionAppended(a)]
                && |pending| == |old(pending)| + 1 && old(pending) <= pending
                && pending[|old(pending)|].action == a && OwnActionable(rows, pending[|old(pending)|].messageId, a.id)
      ensures stop.None? && MustAsk(cfg, a) && cfg.behavior.strategy.Sync? ==>
                || (HandedOff(executed) == HandedOff(old(executed)) + [a.id]
                    && RanAs(cfg, old(events), events, a, false))
                || (executed == old(executed) && |events| == |old(events)| + 2
                    && events[|old(events)| + 1].Observed? && events[|old(events)| + 1].resolves == Some(a.id)
                    && SkipJustified(cfg, rows, a.id, events[|old(events)| + 1].observation))
      ensures NeverDefers(cfg) || cfg.behavior.strategy.Sync? || !MustAsk(cfg, a) || stop.Some? ==>
                pending == old(pending)
    {
      stop := SafePoint();
      if stop.Some? {
        return;
      }
      var d := Decide(a);
      stop := Dispatched(a, d, id, rest);
    }

    /** One tool call: the finish tool ends the run, a call of an unknown tool or with arguments that do not parse is
        refused, and any other becomes an action. */
    method HandleToolCall(tc: ToolCall, ghost rest: seq<string>) returns (stop: Option<StopReason>)
      requires Safe() && Going()
      requires Outstanding(messages) == Some([tc.id] + rest)
      modifies `rows, `busClosed, `waits, `events, `books, `executed, `pending, `messages, `interrupted, `observed,
               `checker, `trail, `nextAction
      ensures Safe()
      ensures stop.None? ==> Going() && Outstanding(messages) == Some(rest) && old(messages) <= messages
      ensures stop.Some? ==> Stopped(stop.value) && CallStops(cfg, tc, stop.value, busClosed)
      ensures NeverDefers(cfg) ==> pending == old(pending)
      ensures tc.name == FINISH_TOOL_NAME ==>
                && stop == Some(AgentFinish) && executed == old(executed) && pending == old(pending)
                && Outstanding(messages) == Some(rest) && old(messages) <= messages
      ensures tc.name != FINISH_TOOL_NAME && (tc.name !in cfg.tools || tc.body.None?) ==>
                && stop.None? && executed == old(executed) && pending == old(pending)
                && events == old(events) + [Observed(InvalidCall, None)] && rows == old(rows)
      ensures tc.name != FINISH_TOOL_NAME && tc.name in cfg.tools && tc.body.Some? && stop.None? ==>
                var a := Action(old(nextAction), tc.body.value.kind, tc.body.value.isCode, tc.body.value.firstLink,
                                tc.body.value.otherLinks, tc.body.value.confidence);
                && |old(events)| < |events| && events[|old(events)|] == ActionAppended(a)
                && (!cfg.gated || !MustAsk(cfg, a) ==>
                      HandedOff(executed) == HandedOff(old(executed)) + [old(nextAction)] && pending == old(pending))
                && (MustAsk(cfg, a) && cfg.behavior.strategy.Async? ==>
                      && executed == old(executed) && |pending| == |old(pending)| + 1
                      && old(pending) <= pending && pending[|old(pending)|].action == a)
                && (MustAsk(cfg, a) && cfg.behavior.strategy.Sync? ==>
                      && pending == old(pending)
                      && (|| HandedOff(executed) == HandedOff(old(executed)) + [old(nextAction)]
                          || (executed == old(executed) && |events| == |old(events)| + 2
                              && events[|old(events)| + 1].Observed?
                              && SkipJustified(cfg, rows, old(nextAction), events[|old(events)| + 1].observation))))
    {
      if tc.name == FINISH_TOOL_NAME {
        HandleFinish(tc, rest);
        return Some(AgentFinish);
      }
      if tc.name !in cfg.tools || tc.body.None? {
        RefuseCall(tc.id, rest);
        return None;
      }
      var b := tc.body.value;
      var a := Action(nextAction, b.kind, b.isCode, b.firstLink, b.otherLinks, b.confidence);
      nextAction := nextAction + 1;
      stop := HandleAction(a, tc.id, rest);
    }

    /** The tool calls of one reply, in order: the run goes on only if none of them is the finish tool, and stops
        because of one of them. */
    method HandleCalls(calls: seq<ToolCall>) returns (stop: Option<StopReason>)
      requires Safe() && Going()
      requires Outstanding(messages) == Some(CallIds(calls))
      modifies `rows, `busClosed, `waits, `events, `books, `executed, `pending, `messages, `interrupted, `observed,
               `checker, `trail, `nextAction
      ensures Safe()
      ensures stop.None? ==> Going() && Complete(messages) && old(messages) <= messages
      ensures stop.None? ==> forall i :: 0 <= i < |calls| ==> calls[i].name != FINISH_TOOL_NAME
      ensures stop.Some? ==> Stopped(stop.value) && SomeCallStops(cfg, calls, stop.value, busClosed)
      ensures NeverDefers(cfg) ==> pending == old(pending)
    {
      assert calls[0..] == calls;
      for i := 0 to |calls|
        invariant Safe() && Going()
        invariant Outstanding(messages) == Some(CallIds(calls[i..])) && old(messages) <= messages
        invariant NeverDefers(cfg) ==> pending == old(pending)
        invariant forall j :: 0 <= j < i ==> calls[j].name != FINISH_TOOL_NAME
      {
        ghost var before := messages;
        CallIdsFrom(calls, i);
        stop := HandleToolCall(calls[i], CallIds(calls[i + 1..]));
        if stop.Some? {
          return;
        }
        Count();
        PrefixTransitive(old(messages), before, messages);
      }
      assert calls[|calls|..] == [];
      stop := None;
    }

    // ---- Steps ----

    /** The hash function of the provider, if there is one. */
    ghost function PrefixHash(): Option<CP.Hash> {
      if provider == null then None else Some(provider.cfg.hash)
    }

    ghost predicate Sending()
      reads `sent, `hashes
    {
      Cached(sent, hashes, PrefixHash())
    }

    /** The transcript extends whatever was sent last, and the provider's entry for this run agrees with it. */
    ghost predicate Following(sent: seq<seq<ChatMessage>>)
      reads `messages, `runId, provider
    {
      && (sent != [] ==> sent[|sent| - 1] <= messages)
      && (provider != null ==> CP.InStep(provider.cfg.hash, provider.StateOf(runId), sent, messages))
    }

    /** The provider's entry for this run counts what was inserted, and its checkpoints are on schedule. */
    ghost predicate Timetable()
      reads `runId, `plan, provider
    {
      provider != null ==> Timed(provider.cfg, provider.StateOf(runId), plan.checkpoints, plan.prepared, plan.inserted)
    }

    /** A transcript that only grew still follows what was sent. */
    lemma FollowOn(before: seq<ChatMessage>)
      requires before <= messages && (sent != [] ==> sent[|sent| - 1] <= before)
      requires provider != null ==> CP.InStep(provider.cfg.hash, provider.StateOf(runId), sent, before)
      ensures Following(sent)
    {
      if sent != [] {
        PrefixTransitive(sent[|sent| - 1], before, messages);
        if provider != null {
          PrefixTransitive(sent[0], before, messages);
        }
      }
    }

    /** `_prepare_llm_call` with a provider: the call it prepares is the one for this step, this transcript and this
        many queued actions. */
    method AskProvider(step: nat) returns (ok: bool, hash: Option<string>, ghost world: CP.World)
      requires provider != null && Complete(messages) && Following(sent)
      requires Timetable() && plan.prepared == |sent| && step == |sent| + 1
      modifies `messages, `plan, provider
      ensures var (s, r) := CP.Prepare(provider.cfg, old(provider.StateOf(runId)),
                                       CP.Request(step, old(messages), |pending|), world);
              && provider.StateOf(runId) == s && (ok <==> r.Call?)
              && (ok ==> messages == r.messages && hash == r.prefixHash)
      ensures ok ==> Complete(messages) && Following(sent + [messages])
      ensures ok && sent != [] ==> old(messages) <= messages
      ensures ok ==> hash == Some(provider.cfg.hash((sent + [messages])[0]))
      ensures Timetable() && plan.prepared == if ok then step else |sent|
    {
      var w: CP.World := *;
      world := w;
      var request := CP.Request(step, messages, |pending|);
      CP.PrepareKeepsStep(provider.cfg, provider.StateOf(runId), request, w, sent);
      TimedPrepared(provider.cfg, provider.StateOf(runId), request, w, sent, plan.checkpoints, plan.inserted);
      var call := provider.PrepareLlmCall(runId, request, w);
      if call.CallFailed? {
        return false, None, world;
      }
      messages := call.messages;
      plan := Plan(plan.checkpoints + if call.checkpointReason.Some? then [step] else [], step,
                   plan.inserted + |call.appended|);
      return true, call.prefixHash, world;
    }

    /** `_prepare_llm_call`: without a provider the loop's own messages are sent; a provider may put one context
        message behind them, or replace them before the first call. Its failure ends the run. */
    method PrepareCall(step: nat) returns (ok: bool, hash: Option<string>)
      requires Complete(messages) && Following(sent)
      requires Timetable() && plan.prepared == |sent| && step == |sent| + 1
      modifies `messages, `plan, provider
      ensures provider == null ==> ok && messages == old(messages) && hash.None?
      ensures ok ==> Complete(messages) && Following(sent + [messages])
      ensures ok && sent != [] ==> old(messages) <= messages
      ensures ok && provider != null ==> hash == Some(provider.cfg.hash((sent + [messages])[0]))
      ensures Timetable() && plan.prepared == if ok then step else |sent|
    {
      if provider == null {
        plan := plan.(prepared := step);
        return true, None;
      }
      ghost var world;
      ok, hash, world := AskProvider(step);
    }

    /** The messages go out. */
    ghost method Send(hash: Option<string>)
      requires Sending() && Complete(messages) && (sent != [] ==> sent[|sent| - 1] <= messages)
      requires provider != null ==> hash == Some(provider.cfg.hash((sent + [messages])[0]))
      modifies `sent, `hashes
      ensures Sending() && sent == old(sent) + [messages]
    {
      CachedAppend(sent, hashes, PrefixHash(), messages, hash);
      sent, hashes := sent + [messages], hashes + [hash];
    }

    /** A loop error that ends the run. */
    method Fail(reason: StopReason)
      requires Safe() && Going() && !reason.Interrupted? && !reason.AgentFinish? && !reason.InterruptCheckError?
      modifies `events, `rows
      ensures Safe() && Stopped(reason) && events == old(events) + [Observed(LoopError(reason), None)]
      ensures Told(old(rows), rows, cfg.hasBus && !busClosed, cfg.session, Some(runId), None, None)
    {
      OpenSafe();
      ReportError(reason);
      QueueGrown(cfg, books.open, pending, old(rows), rows);
    }

    /** Others act; nothing of the loop's own changes. */
    method Meanwhile()
      requires Safe()
      modifies `rows, `busClosed
      ensures Safe()
    {
      OpenSafe();
      Interfere();
      QueueGrown(cfg, books.open, pending, old(rows), rows);
    }

    /** Somebody else publishes one message. */
    method Hear(m: AgentMessage) returns (ok: bool)
      requires Safe()
      modifies `rows
      ensures Safe()
      ensures ok <==> !busClosed && Insertable(old(rows), m)
      ensures rows == if ok then old(rows) + [m] else old(rows)
    {
      OpenSafe();
      ok := Publish(m);
      QueueGrown(cfg, books.open, pending, old(rows), rows);
      CloseSafe();
    }

    /** The two safe points around the drain at the start of a step. Going on, no entry that is still queued had a reply
        when the step began, and the transcript tells of every event of the drain. */
    method ResolveDeferred() returns (stop: Option<StopReason>)
      requires Safe() && Going() && Complete(messages)
      modifies `rows, `busClosed, `waits, `events, `books, `executed, `pending, `messages, `interrupted, `observed,
               `checker, `trail
      ensures Safe()
      ensures Complete(messages) && old(messages) <= messages && (old(pending) == [] ==> messages == old(messages))
      ensures stop.None? ==> Going() && checker.asked == old(checker).asked + Asks(2)
      ensures stop.None? && cfg.hasBus ==> Unanswered(pending, old(rows))
      ensures stop.None? ==> |messages| - |old(messages)| == |events| - |old(events)|
      ensures stop.Some? ==> Stopped(stop.value) && Halted(stop.value)
      ensures NeverDefers(cfg) && old(pending) == [] ==> pending == []
    {
      stop := SafePoint();
      if stop.Some? {
        return;
      }
      var _ := Drain(true);
      stop := SafePoint();
    }

    /** A failed chat ends the run; after a timeout the interrupt checker is asked first. */
    method ChatFailed(timedOut: bool) returns (reason: StopReason)
      requires Safe() && Going()
      modifies `rows, `events, `interrupted, `observed, `checker, `trail
      ensures Safe() && Stopped(reason)
      ensures checker.asked == old(checker).asked + if timedOut then Asks(1) else 0
      ensures (timedOut && Halted(reason)) || reason == (if timedOut then LlmTimeout else LlmError)
      ensures events == old(events) + [Observed(LoopError(reason), None)]
    {
      if timedOut {
        var stop := SafePoint();
        if stop.Some? {
          return stop.value;
        }
      }
      reason := if timedOut then LlmTimeout else LlmError;
      Fail(reason);
    }

    /** The reply of the LLM, whatever it is, is on record from here on. */
    method Listen() returns (reply: LlmReply)
      modifies `replies
      ensures replies == old(replies) + [reply]
    {
      reply := *;
      replies := replies + [reply];
    }

    /** `llm.chat`: others act while the model thinks. A failure ends the run, and nothing else does. */
    method Chat() returns (stop: Option<StopReason>, reply: LlmReply)
      requires Safe() && Going()
      modifies `rows, `busClosed, `events, `interrupted, `observed, `checker, `trail, `replies
      ensures Safe() && replies == old(replies) + [reply]
      ensures stop.None? <==> reply.Reply?
      ensures stop.None? ==> Going() && checker == old(checker) && events == old(events)
      ensures stop.Some? ==> Stopped(stop.value)
      ensures stop.Some? ==> Halted(stop.value) || ReplyStops(cfg, reply, stop.value, busClosed)
      ensures stop.Some? ==> events == old(events) + [Observed(LoopError(stop.value), None)]
    {
      Meanwhile();
      reply := Listen();
      match reply
      case Reply(_, _) =>
        stop := None;
      case LlmFailed(timedOut) =>
        var reason := ChatFailed(timedOut);
        stop := Some(reason);
    }

    /** The context build and the safe point behind it. */
    method Assemble(step: nat) returns (stop: Option<StopReason>, hash: Option<string>)
      requires Safe() && Going() && Complete(messages) && Following(sent)
      requires Timetable() && plan.prepared == |sent| && step == |sent| + 1
      modifies `rows, `events, `messages, `interrupted, `observed, `checker, `trail, `plan, provider
      ensures Safe()
      ensures stop.Some? ==> Stopped(stop.value)
      ensures stop.Some? ==> Halted(stop.value) || (stop.value.ContextError? && provider != null)
      ensures stop.Some? ==> events == old(events) + [Observed(LoopError(stop.value), None)]
      ensures stop.None? ==> Going() && Complete(messages) && Following(sent + [messages]) && events == old(events)
      ensures stop.None? ==> checker.asked == old(checker).asked + Asks(1)
      ensures stop.None? && provider == null ==> messages == old(messages)
      ensures stop.None? && sent != [] ==> old(messages) <= messages
      ensures stop.None? && provider != null ==> hash == Some(provider.cfg.hash((sent + [messages])[0]))
      ensures Timetable() && |sent| <= plan.prepared <= |sent| + 1 && (stop.None? ==> plan.prepared == |sent| + 1)
    {
      var ok;
      ok, hash := PrepareCall(step);
      if ok {
        stop := SafePoint();
      } else {
        Fail(ContextError);
        stop := Some(ContextError);
      }
    }

    /** Everything before the model is called: three safe points, the drain and the context build. */
    method Prepare(step: nat) returns (stop: Option<StopReason>, hash: Option<string>)
      requires Safe() && Going() && Complete(messages) && Following(sent)
      requires Timetable() && plan.prepared == |sent| && step == |sent| + 1
      modifies `rows, `busClosed, `waits, `events, `books, `executed, `pending, `messages, `interrupted, `observed,
               `checker, `trail, `plan, provider
      ensures Safe()
      ensures stop.Some? ==> Stopped(stop.value)
      ensures stop.Some? ==> Halted(stop.value) || (stop.value.ContextError? && provider != null)
      ensures stop.None? ==> Going() && Complete(messages) && Following(sent + [messages])
      ensures stop.None? ==> checker.asked == old(checker).asked + Asks(3)
      ensures stop.None? && cfg.hasBus ==> Unanswered(pending, old(rows))
      ensures stop.None? && sent != [] ==> sent[|sent| - 1] <= messages
      ensures stop.None? && provider == null && old(pending) == [] ==> messages == old(messages)
      ensures stop.None? && provider != null ==> hash == Some(provider.cfg.hash((sent + [messages])[0]))
      ensures NeverDefers(cfg) && old(pending) == [] ==> pending == []
      ensures Timetable() && |sent| <= plan.prepared <= |sent| + 1 && (stop.None? ==> plan.prepared == |sent| + 1)
    {
      hash := None;
      stop := ResolveDeferred();
      if stop.Some? {
        return;
      }
      ghost var resolved := messages;
      FollowOn(old(messages));
      stop, hash := Assemble(step);
      if stop.None? && sent != [] {
        PrefixTransitive(sent[|sent| - 1], resolved, messages);
      }
    }

    /** The messages go out, and the model answers. */
    method Consult(hash: Option<string>) returns (stop: Option<StopReason>, reply: LlmReply)
      requires Safe() && Going() && Complete(messages)
      requires Sending() && (sent != [] ==> sent[|sent| - 1] <= messages)
      requires provider != null ==> hash == Some(provider.cfg.hash((sent + [messages])[0]))
      modifies `rows, `busClosed, `events, `interrupted, `observed, `checker, `trail, `sent, `hashes, `replies
      ensures Safe() && Sending() && sent == old(sent) + [messages] && replies == old(replies) + [reply]
      ensures stop.None? ==> Going() && reply.Reply?
      ensures stop.Some? ==> Stopped(stop.value)
      ensures stop.Some? ==> Halted(stop.value) || ReplyStops(cfg, reply, stop.value, busClosed)
    {
      Send(hash);
      stop, reply := Chat();
    }

    /** The step stops for a reason that does not lie with the model. */
    ghost predicate StopsUnheard(r: StopReason) {
      Halted(r) || (r.ContextError? && provider != null)
    }

    /** The first half of a step, up to the reply of the model. */
    method Ask(step: nat) returns (stop: Option<StopReason>, reply: LlmReply)
      requires Safe() && Going() && Complete(messages) && Sending() && Following(sent)
      requires Timetable() && plan.prepared == |sent| && step == |sent| + 1
      modifies `rows, `busClosed, `waits, `events, `books, `executed, `pending, `messages, `interrupted, `observed,
               `checker, `trail, `sent, `hashes, `replies, `plan, provider
      ensures Safe() && Sending()
      ensures (sent == old(sent) && replies == old(replies) && stop.Some? && StopsUnheard(stop.value))
              || (sent == old(sent) + [messages] && replies == old(replies) + [reply])
      ensures stop.Some? ==> Stopped(stop.value)
      ensures stop.Some? && sent != old(sent) ==> Halted(stop.value) || ReplyStops(cfg, reply, stop.value, busClosed)
      ensures stop.None? ==> Going() && reply.Reply? && Complete(messages) && Following(sent)
      ensures stop.None? && cfg.hasBus ==> Unanswered(pending, old(rows))
      ensures provider == null && old(pending) == [] && sent != old(sent) ==> messages == old(messages)
      ensures NeverDefers(cfg) && old(pending) == [] ==> pending == []
      ensures Timetable() && |sent| <= plan.prepared <= |sent| + 1 && (stop.None? ==> plan.prepared == |sent|)
    {
      var hash;
      reply := LlmFailed(false);
      stop, hash := Prepare(step);
      if stop.None? {
        stop, reply := Consult(hash);
      }
    }

    /** The reply joins the transcript; its tool calls are outstanding from here on. */
    method Join(reply: LlmReply)
      requires reply.Reply? && Complete(messages)
      modifies `messages
      ensures messages == old(messages) + [Assistant(reply.content, CallIds(reply.calls))]
      ensures Outstanding(messages) == Some(CallIds(reply.calls))
    {
      OutstandingAppend(messages, Assistant(reply.content, CallIds(reply.calls)));
      messages := messages + [Assistant(reply.content, CallIds(reply.calls))];
    }

    /** The second half of a step: the reply joins the transcript and its tool calls are handled. A reply without calls
        ends the run. */
    method Respond(reply: LlmReply) returns (stop: Option<StopReason>)
      requires Safe() && Going() && reply.Reply? && Complete(messages)
      modifies `rows, `busClosed, `waits, `events, `books, `executed, `pending, `messages, `interrupted, `observed,
               `checker, `trail, `nextAction
      ensures Safe()
      ensures stop.None? ==>
                && Going() && Complete(messages) && Continues(reply)
                && old(messages) + [Assistant(reply.content, CallIds(reply.calls))] <= messages
      ensures stop.Some? ==> Stopped(stop.value)
      ensures stop.Some? ==> Halted(stop.value) || ReplyStops(cfg, reply, stop.value, busClosed)
      ensures NeverDefers(cfg) && old(pending) == [] ==> pending == []
    {
      Join(reply);
      ghost var joined := messages;
      stop := SafePoint();
      if stop.Some? {
        return;
      }
      if reply.calls == [] {
        return Some(NoToolCalls);
      }
      stop := HandleCalls(reply.calls);
      assert joined == old(messages) + [Assistant(reply.content, CallIds(reply.calls))];
    }

    /** A step. It goes on only after a reply that calls tools and not the finish tool; otherwise the run stops because
        the checker or the context build said so, or because of what the model said in this step. */
    method Step(step: nat) returns (stop: Option<StopReason>)
      requires Safe() && Going() && Complete(messages) && Sending() && Following(sent)
      requires Timetable() && plan.prepared == |sent| && step == |sent| + 1
      modifies `rows, `busClosed, `waits, `events, `books, `executed, `pending, `messages, `interrupted, `observed,
               `checker, `trail, `sent, `hashes, `replies, `plan, `nextAction, provider
      ensures Safe() && Sending()
      ensures (sent == old(sent) && replies == old(replies) && stop.Some? && StopsUnheard(stop.value))
              || (|sent| == |old(sent)| + 1 && old(sent) <= sent
                  && |replies| == |old(replies)| + 1 && old(replies) <= replies)
      ensures stop.None? ==> Going() && Complete(messages) && Following(sent) && Continues(replies[|old(replies)|])
      ensures stop.Some? ==> Stopped(stop.value)
      ensures stop.Some? && sent != old(sent) ==>
                Halted(stop.value) || ReplyStops(cfg, replies[|old(replies)|], stop.value, busClosed)
      ensures provider == null && old(pending) == [] && sent != old(sent) ==> sent[|old(sent)|] == old(messages)
      ensures NeverDefers(cfg) && old(pending) == [] ==> pending == []
      ensures Timetable() && |sent| <= plan.prepared <= |sent| + 1 && (stop.None? ==> plan.prepared == |sent|)
    {
      var reply;
      stop, reply := Ask(step);
      if stop.Some? {
        return;
      }
      stop := Answer(reply);
    }

    /** The reply handled, the transcript still follows what was sent. */
    method Answer(reply: LlmReply) returns (stop: Option<StopReason>)
      requires Safe() && Going() && reply.Reply? && Complete(messages) && Following(sent)
      modifies `rows, `busClosed, `waits, `events, `books, `executed, `pending, `messages, `interrupted, `observed,
               `checker, `trail, `nextAction
      ensures Safe()
      ensures stop.None? ==> Going() && Complete(messages) && Following(sent) && Continues(reply)
      ensures stop.Some? ==> Stopped(stop.value)
      ensures stop.Some? ==> Halted(stop.value) || ReplyStops(cfg, reply, stop.value, busClosed)
      ensures NeverDefers(cfg) && old(pending) == [] ==> pending == []
    {
      stop := Respond(reply);
      if stop.None? {
        PrefixTransitive(old(messages), old(messages) + [Assistant(reply.content, CallIds(reply.calls))], messages);
        FollowOn(old(messages));
      }
    }

    ghost method ForgetCalls()
      modifies `sent, `hashes, `replies
      ensures Sending() && sent == [] && replies == []
    {
      FreshCached(PrefixHash());
      sent, hashes, replies := [], [], [];
    }

    method StartRun(id: string)
      requires provider != null ==> id !in provider.runStates
      modifies `runId, `plan
      ensures Timetable() && plan.prepared == 0 && runId == id
    {
      if provider != null {
        FreshTimed(provider.cfg);
      }
      runId, plan := id, Plan([], 0, 0);
    }

    method ForgetActions()
      modifies `pending, `interrupted, `events, `executed, `books, `observed, `checker, `trail, `waits
      ensures Safe() && Going() && pending == [] && waits == [] && checker.asked == 0
    {
      FreshSound(cfg, rows);
      pending, interrupted, events := [], false, [];
      executed, observed, trail, books := [], None, [], Books(multiset{}, 0, []);
      checker, waits := Checker(0, NoIntent), [];
    }

    /** What a run starts from. */
    method Reset(id: string)
      requires provider != null ==> id !in provider.runStates
      modifies `runId, `pending, `interrupted, `events, `executed, `books, `sent, `hashes, `replies, `observed,
               `checker, `trail, `plan, `waits
      ensures Safe() && Going() && pending == [] && replies == []
      ensures sent == [] && Sending() && Timetable() && plan.prepared == 0 && runId == id
    {
      ForgetActions();
      ForgetCalls();
      StartRun(id);
    }

    /** `_run_inner`: steps until one stops the run, or they are used up. */
    method RunInner(task: string) returns (reason: StopReason, steps: int)
      requires Safe() && Going() && sent == [] && replies == [] && Sending() && Timetable() && plan.prepared == 0
      requires provider != null ==> runId !in provider.runStates
      modifies `rows, `busClosed, `waits, `events, `books, `executed, `pending, `messages, `interrupted, `observed,
               `checker, `trail, `sent, `hashes, `replies, `plan, `nextAction, provider
      ensures Safe() && Sending() && Stopped(reason)
      ensures |sent| <= steps || (sent == [] && steps == cfg.maxSteps < 0)
      ensures steps <= cfg.maxSteps
      ensures |replies| == |sent| && Continued(replies)
      ensures RunStops(cfg, provider != null, replies, steps, reason, busClosed)
      ensures provider == null && sent != [] && old(pending) == [] ==> sent[0] == [System(cfg.prompt), User(task)]
      ensures Timetable() && |sent| <= plan.prepared <= |sent| + 1
      ensures NeverDefers(cfg) && old(pending) == [] ==> pending == []
    {
      messages := [System(cfg.prompt), User(task)];
      OpeningComplete(cfg.prompt, task);
      steps := 1;
      while steps <= cfg.maxSteps
        invariant Safe() && Going() && Complete(messages) && Sending() && Following(sent)
        invariant Timetable() && plan.prepared == |sent|
        invariant NeverDefers(cfg) && old(pending) == [] ==> pending == []
        invariant |sent| == steps - 1 == |replies| && (steps <= cfg.maxSteps + 1 || steps == 1)
        invariant forall i :: 0 <= i < |replies| ==> Continues(replies[i])
        invariant sent == [] ==> messages == [System(cfg.prompt), User(task)] && pending == old(pending)
        invariant provider == null && sent != [] && old(pending) == [] ==> sent[0] == [System(cfg.prompt), User(task)]
        decreases cfg.maxSteps - steps
      {
        ghost var before := replies;
        var stop := Step(steps);
        ContinuedAppend(before, replies);
        if stop.Some? {
          return stop.value, steps;
        }
        steps := steps + 1;
      }
      return MaxSteps, cfg.maxSteps;
    }

    /** The last drain, unless an interrupt was observed. */
    method LastDrain() returns (drained: nat)
      requires Safe()
      modifies `rows, `busClosed, `waits, `events, `books, `executed, `messages, `pending, `trail
      ensures Safe() && old(rows) <= rows && (old(busClosed) ==> busClosed)
      ensures trail != [] && trail[|trail| - 1] == Point(|events|, |pending|)
      ensures interrupted ==> drained == 0
      ensures |pending| + drained == |old(pending)| && Subsequence(pending, old(pending))
      ensures !interrupted && cfg.hasBus ==> Unanswered(pending, old(rows))
      ensures drained > 0 ==> !Unanswered(old(pending), rows)
      ensures drained == 0 ==> events == old(events)
      ensures drained > 0 ==> events != [] && !EndsWithFinish(events)
    {
      drained := 0;
      SubsequenceSelf(pending);
      if !interrupted {
        drained := Drain(false);
      }
      Count();
    }

    /** The steps of a fresh run. */
    method RunSteps(task: string, id: string) returns (reason: StopReason, steps: int)
      requires provider != null ==> id !in provider.runStates
      modifies this, provider
      ensures Safe() && Sending() && Timetable() && Stopped(reason)
      ensures |replies| == |sent| && Continued(replies)
      ensures RunStops(cfg, provider != null, replies, steps, reason, busClosed)
      ensures provider == null && sent != [] ==> sent[0] == [System(cfg.prompt), User(task)]
      ensures NeverDefers(cfg) ==> pending == []
      ensures steps <= cfg.maxSteps && (|sent| <= steps || sent == []) && |sent| <= plan.prepared <= |sent| + 1
    {
      Reset(id);
      reason, steps := RunInner(task);
    }

    /** The steps and the last drain. */
    method RunThenDrain(task: string, id: string)
      returns (reason: StopReason, steps: int, drained: nat,
               ghost queue: seq<PendingDecision>, ghost seen: seq<AgentMessage>)
      requires provider != null ==> id !in provider.runStates
      modifies this, provider
      ensures Safe() && Sending() && Timetable()
      ensures trail != [] && trail[|trail| - 1] == Point(|events|, |pending|)
      ensures (reason.Interrupted? <==> interrupted) && (interrupted <==> checker.said.Intent?)
      ensures reason.InterruptCheckError? <==> checker.said.CheckRaises?
      ensures interrupted ==> drained == 0
      ensures |pending| + drained == |queue| && Subsequence(pending, queue) && seen <= rows
      ensures !interrupted && cfg.hasBus ==> Unanswered(pending, seen)
      ensures drained > 0 ==> !Unanswered(queue, rows)
      ensures reason.AgentFinish? ==> events != [] && (EndsWithFinish(events) <==> drained == 0)
      ensures NeverDefers(cfg) ==> drained == 0 && pending == []
      ensures |replies| == |sent| && Continued(replies)
      ensures RunStops(cfg, provider != null, replies, steps, reason, busClosed)
      ensures provider == null && sent != [] ==> sent[0] == [System(cfg.prompt), User(task)]
      ensures steps <= cfg.maxSteps && (|sent| <= steps || sent == []) && |sent| <= plan.prepared <= |sent| + 1
    {
      reason, steps := RunSteps(task, id);
      queue, seen := pending, rows;
      ghost var closed := busClosed;
      drained := LastDrain();
      RunStopsLater(cfg, provider != null, replies, steps, reason, closed, busClosed);
    }

    /** `run`: a fresh queue and a fresh run id, the steps, and unless an interrupt was observed a last drain.

        Every hand-off was authorised; the actions appended are the ones resolved plus the ones queued, at the end and
        at every point of the loop (every safe point, after every tool call, after the last drain); nothing ran twice or
        is still queued after it ran; every list sent to the LLM is a complete transcript that extends all earlier ones
        and, with a provider, carries one prefix hash; nothing is handed off once an interrupt was observed. The run
        says interrupted, or that the check failed, exactly when the checker did. With a provider its entry counts the
        context messages inserted, and its checkpoints are on schedule over the calls prepared, of which at most the
        last was not sent.

        `queue` and `seen` are the queue and the message table when the steps ended. Without an interrupt the last drain
        resolves every entry whose reply was stored by then, and resolves something only if an entry has a reply by the
        end; if nothing arrived meanwhile it resolves something exactly when some entry was answered. The last event is
        the finish observation of a finished run exactly when it resolved nothing. Under a configuration that never
        defers the queue is empty. */
    method Run(task: string, id: string)
      returns (reason: StopReason, steps: int, drained: nat,
               ghost queue: seq<PendingDecision>, ghost seen: seq<AgentMessage>)
      requires provider != null ==> id !in provider.runStates
      modifies this, provider
      ensures Accounted(cfg, events, trail, executed, pending)
      ensures trail != [] && trail[|trail| - 1] == Point(|events|, |pending|)
      ensures SentInOrder(sent, hashes, PrefixHash())
      ensures reason.Interrupted? <==> observed.Some?
      ensures reason.Interrupted? <==> checker.said.Intent?
      ensures reason.InterruptCheckError? <==> checker.said.CheckRaises?
      ensures observed.Some? ==> observed.value == |executed| && drained == 0
      ensures |pending| + drained == |queue| && Subsequence(pending, queue) && seen <= rows
      ensures observed.None? && cfg.hasBus ==> Unanswered(pending, seen)
      ensures observed.None? && cfg.hasBus && !Unanswered(queue, seen) ==> drained > 0
      ensures drained > 0 ==> !Unanswered(queue, rows)
      ensures reason.AgentFinish? ==> events != [] && (EndsWithFinish(events) <==> drained == 0)
      ensures NeverDefers(cfg) ==> drained == 0 && pending == []
      ensures |replies| == |sent| && Continued(replies)
      ensures RunStops(cfg, provider != null, replies, steps, reason, busClosed)
      ensures provider == null && sent != [] ==> sent[0] == [System(cfg.prompt), User(task)]
      ensures steps <= cfg.maxSteps && (|sent| <= steps || sent == [])
      ensures provider != null ==>
                CP.OnSchedule(provider.cfg, provider.StateOf(runId), plan.checkpoints, plan.prepared, plan.inserted)
      ensures |sent| <= plan.prepared <= |sent| + 1
    {
      reason, steps, drained, queue, seen := RunThenDrain(task, id);
      SoundMeans(cfg, events, trail, books, executed, interrupted, observed, pending, rows);
      CachedMeans(sent, hashes, PrefixHash());
      SubsequenceShorter(pending, queue);
      if provider != null {
        TimedMeans(provider.cfg, provider.StateOf(runId), plan.checkpoints, plan.prepared, plan.inserted);
      }
    }
  }
}
