/** The derived session status (`session_status.py`) and what a run of the loop makes of it. */
module SessionStatus {
  import opened Common
  import opened MessageStream
  import opened LoopModel
  import AL = AgentLoop
  import Transcript

  datatype Status = Active | AwaitingUser | Finished | Archived

  /** Some actionable of the session has no reply. */
  ghost predicate Waiting(rows: seq<AgentMessage>, session: string) {
    exists m :: m in rows && m.kind.Actionable? && m.session == session && ResponseFor(rows, m.id).None?
  }

  /** `derive_session_status`: an archived session stays archived; an unanswered actionable beats a finish; a finish
      counts only as the very last event. */
  method DeriveSessionStatus(stored: Status, session: string, events: seq<Event>, rows: seq<AgentMessage>)
    returns (status: Status)
    ensures status.Archived? <==> stored.Archived?
    ensures status.AwaitingUser? <==> !stored.Archived? && Waiting(rows, session)
    ensures status.Finished? <==> !stored.Archived? && !Waiting(rows, session) && AL.EndsWithFinish(events)
  {
    if stored.Archived? {
      return Archived;
    }
    var open := PendingActionable(rows, session, None);
    forall m ensures m in open <==>
        m in rows && m.kind.Actionable? && m.session == session && ResponseFor(rows, m.id).None? {
      PendingIsUnanswered(rows, session, None, m);
    }
    if open != [] {
      assert open[0] in open;
      return AwaitingUser;
    }
    var last: Option<Event> := None;
    for i := 0 to |events|
      invariant last == if i == 0 then None else Some(events[i - 1])
    {
      last := Some(events[i]);
    }
    status := if last.Some? && last.value.Observed? && last.value.observation.Finish? then Finished else Active;
  }

  /** A run that ends with the finish tool leaves its session finished exactly when nobody is waited for and the last
      drain resolved nothing: the observation of a late reply follows the finish and hides it.

      With the queue and the table of the moment the steps ended: if some queued entry was answered by then, the session
      is not finished; if none is answered by the end, it is finished unless somebody is waited for; and if nothing
      arrived in between, one of the two decides. A configuration that never defers (no gate, a synchronous wait, or a
      gate that never asks) has no queue, so its session is finished unless somebody is waited for. */
  method StatusAfterRun(loop: AL.AgentLoop, task: string, id: string, stored: Status, earlier: seq<Event>)
    returns (reason: StopReason, drained: nat, status: Status,
             ghost queue: seq<PendingDecision>, ghost seen: seq<AgentMessage>)
    requires loop.provider != null ==> id !in loop.provider.runStates
    modifies loop, loop.provider
    ensures reason.AgentFinish? && !stored.Archived? ==>
              (status.Finished? <==> drained == 0 && !Waiting(loop.rows, loop.cfg.session))
    ensures reason.AgentFinish? && loop.cfg.hasBus && !Unanswered(queue, seen) ==> !status.Finished?
    ensures reason.AgentFinish? && !stored.Archived? && Unanswered(queue, loop.rows) ==>
              (status.Finished? <==> !Waiting(loop.rows, loop.cfg.session))
    ensures reason.AgentFinish? && !stored.Archived? && loop.cfg.hasBus && loop.rows == seen ==>
              (status.Finished? <==> Unanswered(queue, seen) && !Waiting(seen, loop.cfg.session))
    ensures NeverDefers(loop.cfg) ==>
              && drained == 0
              && (reason.AgentFinish? && !stored.Archived? ==>
                    (status.Finished? <==> !Waiting(loop.rows, loop.cfg.session)))
    ensures reason.AgentFinish? && !stored.Archived? && drained > 0 && !Waiting(loop.rows, loop.cfg.session) ==>
              status.Active?
  {
    var steps;
    reason, steps, drained, queue, seen := loop.Run(task, id);
    status := DeriveSessionStatus(stored, loop.cfg.session, earlier + loop.events, loop.rows);
  }

  /** A loop whose only action was put to the user and queued. */
  method Deferred(cfg: Config, a: Action, ask: AgentMessage) returns (loop: AL.AgentLoop)
    requires cfg.hasBus && cfg.behavior.strategy.Async? && MustAsk(cfg, a) && a.id == 0
    requires ask.kind.Actionable? && ask.relatedAction == Some(a.id)
    ensures fresh(loop) && loop.cfg == cfg && loop.Safe() && loop.Going() && !loop.busClosed
    ensures loop.rows == [ask] && loop.pending == [PendingDecision(ask.id, a)]
  {
    loop := new AL.AgentLoop(cfg, null);
    loop.Reset("run");
    loop.nextAction := 1;
    var _ := loop.Hear(ask);
    assert loop.rows[0] == ask;
    assert OwnActionable(loop.rows, ask.id, a.id);
    loop.DeferAction(a, ask.id);
  }

  /** And it does happen, under any configuration with an action the user is asked about without waiting: the action is
      published and queued, the model calls the finish tool, and the user's yes is stored before the last drain. The
      drain runs the action, its observation hides the finish, and the session is not finished. */
  method LateReplyHidesTheFinish(cfg: Config, a: Action, ask: AgentMessage, yes: AgentMessage, finish: ToolCall)
    returns (drained: nat, status: Status)
    requires cfg.hasBus && cfg.behavior.strategy.Async? && MustAsk(cfg, a) && a.id == 0
    requires ask.kind.Actionable? && ask.relatedAction == Some(a.id)
    requires yes.kind.Response? && yes.parent == Some(ask.id) && yes.id != ask.id
    ensures drained == 1 && !status.Finished?
  {
    var loop := Deferred(cfg, a, ask);
    loop.messages := [Transcript.Assistant("", [finish.id])];
    OpenTurn(finish.id);
    loop.HandleFinish(finish, []);
    assert AL.EndsWithFinish(loop.events);
    assert loop.rows[0] == ask;
    var _ := loop.Hear(yes);
    ResponseForAppend([ask], yes, ask.id);
    assert !Unanswered(loop.pending, loop.rows);
    drained := loop.Drain(false);
    status := DeriveSessionStatus(Active, cfg.session, loop.events, loop.rows);
  }

  lemma OpenTurn(id: string)
    ensures Transcript.Outstanding([Transcript.Assistant("", [id])]) == Some([id] + [])
  {
    Transcript.OutstandingAppend([], Transcript.Assistant("", [id]));
    assert [] + [Transcript.Assistant("", [id])] == [Transcript.Assistant("", [id])] && [id] + [] == [id];
  }
}
