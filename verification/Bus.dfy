/** The in-process message bus (`bus.py`) as an interleaved step system. Every block that holds the bus's condition is
    one step, threads park and are woken, and `close` of a subscription takes two steps with anything in between.
    `InProcessMessageBus` performs the steps on fields, with the loops of the original. */
module Bus {
  import opened Common
  import opened MessageStream

  /** A subscription, with what it handed out and the stretch of the log between its registration and its removal. */
  datatype Sub = Sub(
    session: string,
    types: Option<set<MessageType>>,
    queue: seq<AgentMessage>,
    closed: bool,
    consumed: seq<AgentMessage>,
    from: nat,
    until: Option<nat>)
  {
    /** `_matches`. */
    predicate Matches(m: AgentMessage) {
      m.session == session && (types.None? || m.kind in types.value)
    }

    function Delivered(m: AgentMessage): Sub {
      if Matches(m) then this.(queue := queue + [m]) else this
    }
  }

  datatype Thread =
    | Idle
    | Waiting(id: MessageId, deadline: Option<real>, parked: bool)
    | Iterating(sub: nat, parked: bool)
    | Closing(sub: nat)
  {
    function Woken(): Thread {
      if Waiting? || Iterating? then this.(parked := false) else this
    }
  }

  /** A finished `wait_for_response`: what it returned, and the table, clock and flag of that moment. */
  datatype Return = Return(
    id: MessageId, deadline: Option<real>, result: Option<AgentMessage>, at: nat, now: real, closed: bool)

  datatype State = State(
    log: seq<AgentMessage>,
    closed: bool,
    subs: seq<Sub>,
    registered: seq<nat>,
    threads: map<nat, Thread>,
    now: real,
    results: seq<Return>)

  datatype Step =
    | Publish(message: AgentMessage)
    | Subscribe(session: string, types: Option<set<MessageType>>)
    | StartWait(thread: nat, id: MessageId, timeout: Option<real>)
    | StartNext(thread: nat, sub: nat)
    | StartClose(thread: nat, sub: nat)
    | Proceed(thread: nat)
    | Wake(thread: nat)
    | CloseBus
    | Tick(elapsed: real)

  function ThreadOf(threads: map<nat, Thread>, t: nat): Thread { if t in threads then threads[t] else Idle }

  /** `notify_all`. */
  function NotifyAll(threads: map<nat, Thread>): map<nat, Thread> { map t | t in threads :: threads[t].Woken() }

  function FanOut(subs: seq<Sub>, registered: seq<nat>, m: AgentMessage): seq<Sub> {
    seq(|subs|, k requires 0 <= k < |subs| => if k in registered then subs[k].Delivered(m) else subs[k])
  }

  function MarkClosed(subs: seq<Sub>, registered: seq<nat>): seq<Sub> {
    seq(|subs|, k requires 0 <= k < |subs| => if k in registered then subs[k].(closed := true) else subs[k])
  }

  /** Python's `list.remove` with the ValueError suppressed. */
  function Remove(s: seq<nat>, x: nat): seq<nat> {
    if s == [] then [] else if s[0] == x then s[1..] else [s[0]] + Remove(s[1..], x)
  }

  // ---- The atomic blocks ----

  function PublishBlock(s: State, m: AgentMessage): State {
    if s.closed || !Insertable(s.log, m) then s
    else s.(log := s.log + [m], subs := FanOut(s.subs, s.registered, m), threads := NotifyAll(s.threads))
  }

  function SubscribeBlock(s: State, session: string, types: Option<set<MessageType>>): State {
    if s.closed then s
    else s.(subs := s.subs + [Sub(session, types, [], false, [], |s.log|, None)],
            registered := s.registered + [|s.subs|])
  }

  /** One turn of the loop of `wait_for_response`. */
  function WaitBlock(s: State, t: nat, id: MessageId, deadline: Option<real>): State {
    var response := ResponseFor(s.log, id);
    if response.Some? || s.closed || (deadline.Some? && deadline.value - s.now <= 0.0)
    then s.(threads := s.threads[t := Idle],
            results := s.results + [Return(id, deadline, response, |s.log|, s.now, s.closed)])
    else s.(threads := s.threads[t := Waiting(id, deadline, true)])
  }

  /** One turn of the loop of `__next__`. */
  function NextBlock(s: State, t: nat, k: nat): State
    requires k < |s.subs|
  {
    var sub := s.subs[k];
    if sub.queue != [] then
      s.(subs := s.subs[k := sub.(queue := sub.queue[1..], consumed := sub.consumed + [sub.queue[0]])],
         threads := s.threads[t := Idle])
    else if sub.closed then s.(threads := s.threads[t := Idle])
    else s.(threads := s.threads[t := Iterating(k, true)])
  }

  /** The first half of a subscription's `close`. */
  function CloseBlock(s: State, t: nat, k: nat): State
    requires k < |s.subs|
  {
    if s.subs[k].closed then s
    else s.(subs := s.subs[k := s.subs[k].(closed := true)], threads := NotifyAll(s.threads)[t := Closing(k)])
  }

  /** `_unregister`, the second half. */
  function UnregisterBlock(s: State, t: nat, k: nat): State
    requires k < |s.subs|
  {
    var sub := s.subs[k];
    s.(registered := Remove(s.registered, k),
       subs := s.subs[k := sub.(until := if sub.until.Some? then sub.until else Some(|s.log|))],
       threads := NotifyAll(s.threads)[t := Idle])
  }

  function CloseBusBlock(s: State): State {
    if s.closed then s
    else s.(closed := true, subs := MarkClosed(s.subs, s.registered), threads := NotifyAll(s.threads))
  }

  /** A step of any thread at any moment; one that is not enabled changes nothing. */
  function Next(s: State, step: Step): State {
    match step
    case Publish(m) => PublishBlock(s, m)
    case Subscribe(session, types) => SubscribeBlock(s, session, types)
    case StartWait(t, id, timeout) =>
      if ThreadOf(s.threads, t) != Idle || (timeout.Some? && timeout.value < 0.0) then s
      else
        var deadline := if timeout.None? then None else Some(s.now + timeout.value);
        s.(threads := s.threads[t := Waiting(id, deadline, false)])
    case StartNext(t, k) =>
      if ThreadOf(s.threads, t) != Idle || k >= |s.subs| then s
      else s.(threads := s.threads[t := Iterating(k, false)])
    case StartClose(t, k) =>
      if ThreadOf(s.threads, t) != Idle || k >= |s.subs| then s else CloseBlock(s, t, k)
    case Proceed(t) =>
      (match ThreadOf(s.threads, t)
       case Waiting(id, deadline, false) => WaitBlock(s, t, id, deadline)
       case Iterating(k, false) => if k < |s.subs| then NextBlock(s, t, k) else s
       case Closing(k) => if k < |s.subs| then UnregisterBlock(s, t, k) else s
       case _ => s)
    case Wake(t) => if t in s.threads then s.(threads := s.threads[t := s.threads[t].Woken()]) else s
    case CloseBus => CloseBusBlock(s)
    case Tick(d) => if d < 0.0 then s else s.(now := s.now + d)
  }

  function Start(now: real): State { State([], false, [], [], map[], now, []) }

  /** Any interleaving of any number of threads. */
  function Run(now: real, steps: seq<Step>): State {
    if steps == [] then Start(now) else Next(Run(now, steps[..|steps| - 1]), steps[|steps| - 1])
  }

  // ---- What the steps do ----

  /** A wait starts with its deadline at now plus the timeout, or without one; a negative timeout is refused. */
  lemma WaitStarts(s: State, t: nat, id: MessageId, timeout: Option<real>)
    requires ThreadOf(s.threads, t) == Idle
    ensures var u := Next(s, StartWait(t, id, timeout));
            && (timeout.Some? && timeout.value < 0.0 ==> u == s)
            && (timeout.None? ==> u == s.(threads := s.threads[t := Waiting(id, None, false)]))
            && (timeout.Some? && timeout.value >= 0.0 ==>
                  u == s.(threads := s.threads[t := Waiting(id, Some(s.now + timeout.value), false)]))
  {
  }

  /** A thread that wants the next message of a subscription goes to its queue. */
  lemma NextStarts(s: State, t: nat, k: nat)
    requires ThreadOf(s.threads, t) == Idle && k < |s.subs|
    ensures Next(s, StartNext(t, k)) == s.(threads := s.threads[t := Iterating(k, false)])
  {
  }

  /** The waiting loop: it returns the canonical reply if there is one, None if the bus is closed or the deadline has
      come, and parks exactly when none of these holds. So a wait whose deadline has come always returns, and one with
      timeout 0 never parks. */
  lemma WaitDecides(s: State, t: nat, id: MessageId, deadline: Option<real>)
    requires t in s.threads && s.threads[t] == Waiting(id, deadline, false)
    ensures var u := Next(s, Proceed(t));
            var response := ResponseFor(s.log, id);
            && u.log == s.log && u.subs == s.subs && u.registered == s.registered
            && u.closed == s.closed && u.now == s.now
            && (response.None? && !s.closed && (deadline.None? || s.now < deadline.value) ==>
                  u.threads == s.threads[t := Waiting(id, deadline, true)] && u.results == s.results)
            && (response.Some? || s.closed || (deadline.Some? && deadline.value <= s.now) ==>
                  && u.threads == s.threads[t := Idle]
                  && |u.results| == |s.results| + 1 && s.results <= u.results
                  && u.results[|s.results|] == Return(id, deadline, response, |s.log|, s.now, s.closed))
  {
  }

  /** A check with timeout 0 is over after one look, whatever happens between its start and the look. */
  lemma ZeroTimeoutNeverParks(s: State, t: nat, id: MessageId, later: State)
    requires ThreadOf(s.threads, t) == Idle && s.now <= later.now
    requires t in later.threads && later.threads[t] == ThreadOf(Next(s, StartWait(t, id, Some(0.0))).threads, t)
    ensures ThreadOf(Next(later, Proceed(t)).threads, t) == Idle
    ensures |Next(later, Proceed(t)).results| == |later.results| + 1
  {
    WaitStarts(s, t, id, Some(0.0));
    WaitDecides(later, t, id, Some(s.now + 0.0));
  }

  /** `__next__`: the oldest queued message is handed out, closed or not; an empty queue ends the iteration when closed
      and parks it otherwise. */
  lemma IterationDecides(s: State, t: nat, k: nat)
    requires t in s.threads && s.threads[t] == Iterating(k, false) && k < |s.subs|
    ensures var u := Next(s, Proceed(t));
            && u.log == s.log && u.closed == s.closed && u.registered == s.registered && |u.subs| == |s.subs|
            && (forall j :: 0 <= j < |s.subs| && j != k ==> u.subs[j] == s.subs[j])
            && (s.subs[k].queue != [] ==>
                  && u.subs[k].queue == s.subs[k].queue[1..] && u.subs[k].closed == s.subs[k].closed
                  && u.subs[k].consumed == s.subs[k].consumed + [s.subs[k].queue[0]]
                  && u.threads == s.threads[t := Idle])
            && (s.subs[k].queue == [] && s.subs[k].closed ==> u.subs == s.subs && u.threads == s.threads[t := Idle])
            && (s.subs[k].queue == [] && !s.subs[k].closed ==>
                  u.subs == s.subs && u.threads == s.threads[t := Iterating(k, true)])
  {
  }

  /** A publish that goes through appends the message, queues it at exactly the registered subscriptions of its session
      that ask for its type or for all, and wakes everybody. */
  lemma PublishDelivers(s: State, m: AgentMessage, k: nat)
    requires !s.closed && Insertable(s.log, m) && k < |s.subs|
    ensures var u := Next(s, Publish(m));
            && u.log == s.log + [m] && u.registered == s.registered && |u.subs| == |s.subs|
            && u.subs[k].queue == (if k in s.registered && m.session == s.subs[k].session
                                      && (s.subs[k].types.None? || m.kind in s.subs[k].types.value)
                                   then s.subs[k].queue + [m] else s.subs[k].queue)
            && u.subs[k].consumed == s.subs[k].consumed && u.subs[k].closed == s.subs[k].closed
            && (forall t :: t in u.threads ==> !u.threads[t].Waiting? || !u.threads[t].parked)
  {
  }

  /** A closed bus takes nothing, and a refused insert changes nothing. */
  lemma PublishRefused(s: State, m: AgentMessage)
    requires s.closed || !Insertable(s.log, m)
    ensures Next(s, Publish(m)) == s
  {
  }

  /** The two halves of a subscription's `close`, one right after the other: it is closed and off the list, and nothing
      published later reaches it. */
  lemma CloseCompletes(s: State, t: nat, k: nat, m: AgentMessage)
    requires Inv(s) && ThreadOf(s.threads, t) == Idle && k < |s.subs| && !s.subs[k].closed
    ensures var half := Next(s, StartClose(t, k));
            var u := Next(half, Proceed(t));
            && half.subs[k].closed && half.registered == s.registered && ThreadOf(half.threads, t) == Closing(k)
            && u.subs[k].closed && k !in u.registered && ThreadOf(u.threads, t) == Idle
            && (forall j :: j != k ==> (j in u.registered <==> j in s.registered))
            && u.subs[k].until == Some(|s.log|) && u.subs[k].queue == s.subs[k].queue
            && Next(u, Publish(m)).subs[k].queue == s.subs[k].queue
  {
    assert Exact(s.subs[k], s.log);
    RemoveOne(s.registered, k);
  }

  /** Closing twice does nothing, the clock only moves forward, and a wake only unparks. */
  lemma SmallSteps(s: State, t: nat, k: nat, elapsed: real)
    ensures k < |s.subs| && s.subs[k].closed ==> Next(s, StartClose(t, k)) == s
    ensures elapsed >= 0.0 ==> Next(s, Tick(elapsed)) == s.(now := s.now + elapsed)
    ensures t in s.threads ==>
              var th := s.threads[t];
              var woken := ThreadOf(Next(s, Wake(t)).threads, t);
              && (th.Waiting? ==> woken == Waiting(th.id, th.deadline, false))
              && (th.Iterating? ==> woken == Iterating(th.sub, false))
    ensures s.closed ==> Next(s, CloseBus) == s
  {
  }

  // ---- The invariant ----

  /** The messages of `ms` that pass the subscription's filter, in order. */
  function Matching(sub: Sub, ms: seq<AgentMessage>): seq<AgentMessage> {
    if ms == [] then []
    else Matching(sub, ms[..|ms| - 1]) + if sub.Matches(ms[|ms| - 1]) then [ms[|ms| - 1]] else []
  }

  function End(sub: Sub, log: seq<AgentMessage>): nat { if sub.until.Some? then sub.until.value else |log| }

  /** Handed out, then still queued: exactly the matching messages of the subscription's stretch of the log. */
  ghost predicate Exact(sub: Sub, log: seq<AgentMessage>) {
    && sub.from <= End(sub, log) <= |log|
    && sub.consumed + sub.queue == Matching(sub, log[sub.from..End(sub, log)])
    && (sub.until.Some? ==> sub.closed)
  }

  ghost predicate Alert(s: State, th: Thread) {
    match th
    case Waiting(id, _, parked) => parked ==> ResponseFor(s.log, id).None? && !s.closed
    case Iterating(k, parked) => k < |s.subs| && (parked ==> s.subs[k].queue == [] && !s.subs[k].closed)
    case Closing(k) => k < |s.subs| && s.subs[k].closed
    case Idle => true
  }

  ghost predicate Registry(s: State) {
    && NoDuplicates(s.registered)
    && (forall k :: k in s.registered ==> k < |s.subs|)
    && (forall k :: 0 <= k < |s.subs| ==> (k in s.registered <==> s.subs[k].until.None?))
    && (s.closed ==> forall k :: 0 <= k < |s.subs| ==> s.subs[k].closed)
  }

  ghost predicate Justified(s: State, r: Return) {
    && r.at <= |s.log| && r.result == ResponseFor(s.log[..r.at], r.id)
    && (r.result.None? ==> r.closed || (r.deadline.Some? && r.deadline.value <= r.now))
  }

  ghost predicate Inv(s: State) {
    && Stored(s.log)
    && Registry(s)
    && (forall k :: 0 <= k < |s.subs| ==> Exact(s.subs[k], s.log))
    && (forall t :: t in s.threads ==> Alert(s, s.threads[t]))
    && (forall i :: 0 <= i < |s.results| ==> Justified(s, s.results[i]))
  }

  // ---- Preservation ----

  lemma MatchingSameFilter(a: Sub, b: Sub, ms: seq<AgentMessage>)
    requires a.session == b.session && a.types == b.types
    ensures Matching(a, ms) == Matching(b, ms)
  {
  }

  lemma MatchingAppend(sub: Sub, ms: seq<AgentMessage>, m: AgentMessage)
    ensures Matching(sub, ms + [m]) == Matching(sub, ms) + if sub.Matches(m) then [m] else []
  {
    assert (ms + [m])[..|ms|] == ms;
  }

  lemma DeliveredMatches(sub: Sub, part: seq<AgentMessage>, m: AgentMessage)
    requires sub.consumed + sub.queue == Matching(sub, part)
    ensures sub.Delivered(m).consumed + sub.Delivered(m).queue == Matching(sub.Delivered(m), part + [m])
  {
    MatchingAppend(sub, part, m);
    MatchingSameFilter(sub, sub.Delivered(m), part + [m]);
    if sub.Matches(m) {
      ConcatAssociative(sub.consumed, sub.queue, [m]);
    } else {
      assert Matching(sub, part) + [] == Matching(sub, part);
    }
  }

  lemma ExactDelivered(sub: Sub, log: seq<AgentMessage>, m: AgentMessage)
    requires Exact(sub, log) && sub.until.None?
    ensures Exact(sub.Delivered(m), log + [m])
  {
    DeliveredMatches(sub, log[sub.from..|log|], m);
    SliceAppend(log, m, sub.from);
    assert End(sub.Delivered(m), log + [m]) == |log| + 1;
  }

  lemma ExactAppend(sub: Sub, log: seq<AgentMessage>, m: AgentMessage)
    requires Exact(sub, log)
    ensures Exact(if sub.until.None? then sub.Delivered(m) else sub, log + [m])
  {
    if sub.until.None? {
      ExactDelivered(sub, log, m);
    } else {
      assert (log + [m])[sub.from..sub.until.value] == log[sub.from..sub.until.value];
    }
  }

  lemma JustifiedLater(s: State, u: State, r: Return)
    requires Justified(s, r) && s.log <= u.log
    ensures Justified(u, r)
  {
    assert u.log[..r.at] == s.log[..r.at];
  }

  /** Waking everybody leaves nobody asleep. */
  lemma AllAwake(s: State, u: State)
    requires forall t :: t in s.threads ==> Alert(s, s.threads[t])
    requires u.threads == NotifyAll(s.threads) && |s.subs| <= |u.subs|
    requires forall k :: 0 <= k < |s.subs| && s.subs[k].closed ==> u.subs[k].closed
    ensures forall t :: t in u.threads ==> Alert(u, u.threads[t])
  {
    forall t | t in u.threads ensures Alert(u, u.threads[t]) {
      assert Alert(s, s.threads[t]);
    }
  }

  lemma RegistryKept(s: State, u: State)
    requires Registry(s) && u.registered == s.registered && |u.subs| == |s.subs|
    requires forall k :: 0 <= k < |s.subs| ==>
               u.subs[k].until == s.subs[k].until && (s.subs[k].closed ==> u.subs[k].closed)
    requires u.closed ==> s.closed || forall k :: 0 <= k < |u.subs| ==> u.subs[k].closed
    ensures Registry(u)
  {
  }

  lemma PublishKeeps(s: State, m: AgentMessage)
    requires Inv(s)
    ensures Inv(PublishBlock(s, m))
  {
    var u := PublishBlock(s, m);
    if u != s {
      StoredAppend(s.log, m);
      AllAwake(s, u);
      RegistryKept(s, u);
      forall k | 0 <= k < |u.subs| ensures Exact(u.subs[k], u.log) {
        ExactAppend(s.subs[k], s.log, m);
      }
      forall i | 0 <= i < |u.results| ensures Justified(u, u.results[i]) {
        JustifiedLater(s, u, s.results[i]);
      }
    }
  }

  lemma SubscribeKeeps(s: State, session: string, types: Option<set<MessageType>>)
    requires Inv(s)
    ensures Inv(SubscribeBlock(s, session, types))
  {
    var u := SubscribeBlock(s, session, types);
    if u != s {
      assert s.log[|s.log|..] == [];
      assert |s.subs| !in s.registered;
      forall i, j | 0 <= i < j < |u.registered| ensures u.registered[i] != u.registered[j] {
        assert s.registered[i] in s.registered;
      }
      forall t | t in u.threads ensures Alert(u, u.threads[t]) {
        assert Alert(s, s.threads[t]);
      }
    }
  }

  lemma WaitKeeps(s: State, t: nat, id: MessageId, deadline: Option<real>)
    requires Inv(s)
    ensures Inv(WaitBlock(s, t, id, deadline))
  {
    var u := WaitBlock(s, t, id, deadline);
    assert s.log[..|s.log|] == s.log;
    forall x | x in u.threads && x != t ensures Alert(u, u.threads[x]) {
      assert Alert(s, s.threads[x]);
    }
  }

  lemma ExactPop(sub: Sub, log: seq<AgentMessage>)
    requires Exact(sub, log) && sub.queue != []
    ensures Exact(sub.(queue := sub.queue[1..], consumed := sub.consumed + [sub.queue[0]]), log)
  {
    var popped := sub.(queue := sub.queue[1..], consumed := sub.consumed + [sub.queue[0]]);
    assert sub.consumed + sub.queue == popped.consumed + popped.queue;
    MatchingSameFilter(sub, popped, log[sub.from..End(sub, log)]);
  }

  lemma NextKeeps(s: State, t: nat, k: nat)
    requires Inv(s) && k < |s.subs|
    ensures Inv(NextBlock(s, t, k))
  {
    var u, sub := NextBlock(s, t, k), s.subs[k];
    if sub.queue != [] {
      ExactPop(sub, s.log);
    }
    RegistryKept(s, u);
    forall x | x in u.threads && x != t ensures Alert(u, u.threads[x]) {
      assert Alert(s, s.threads[x]);
    }
    forall i | 0 <= i < |u.results| ensures Justified(u, u.results[i]) {
      JustifiedLater(s, u, s.results[i]);
    }
  }

  lemma CloseKeeps(s: State, t: nat, k: nat)
    requires Inv(s) && k < |s.subs|
    ensures Inv(CloseBlock(s, t, k))
  {
    var u, sub := CloseBlock(s, t, k), s.subs[k];
    if u != s {
      MatchingSameFilter(sub, u.subs[k], s.log[sub.from..End(sub, s.log)]);
      forall x | x in u.threads && x != t ensures Alert(u, u.threads[x]) {
        assert Alert(s, s.threads[x]);
      }
    }
  }

  lemma {:induction false} RemoveOne(s: seq<nat>, x: nat)
    requires NoDuplicates(s)
    ensures NoDuplicates(Remove(s, x))
    ensures forall y :: y in Remove(s, x) <==> y in s && y != x
  {
    if s != [] {
      RemoveOne(s[1..], x);
      assert s[0] !in s[1..];
    }
  }

  lemma UnregisterKeeps(s: State, t: nat, k: nat)
    requires Inv(s) && k < |s.subs| && s.subs[k].closed
    ensures Inv(UnregisterBlock(s, t, k))
  {
    var u, sub := UnregisterBlock(s, t, k), s.subs[k];
    RemoveOne(s.registered, k);
    MatchingSameFilter(sub, u.subs[k], s.log[sub.from..End(sub, s.log)]);
    forall x | x in u.threads && x != t ensures Alert(u, u.threads[x]) {
      assert Alert(s, s.threads[x]);
    }
  }

  lemma CloseBusKeeps(s: State)
    requires Inv(s)
    ensures Inv(CloseBusBlock(s))
  {
    var u := CloseBusBlock(s);
    if u != s {
      forall k | 0 <= k < |u.subs| ensures Exact(u.subs[k], u.log) && u.subs[k].closed {
        assert Exact(s.subs[k], s.log);
        MatchingSameFilter(s.subs[k], u.subs[k], s.log[s.subs[k].from..End(s.subs[k], s.log)]);
      }
      AllAwake(s, u);
      RegistryKept(s, u);
      forall i | 0 <= i < |u.results| ensures Justified(u, u.results[i]) {
        JustifiedLater(s, u, s.results[i]);
      }
    }
  }

  lemma MoveKeeps(s: State, t: nat, th: Thread)
    requires Inv(s) && Alert(s, th)
    ensures Inv(s.(threads := s.threads[t := th]))
  {
    var u := s.(threads := s.threads[t := th]);
    forall x | x in u.threads ensures Alert(u, u.threads[x]) {
      assert x != t ==> Alert(s, s.threads[x]);
    }
  }

  lemma NextPreserves(s: State, step: Step)
    requires Inv(s)
    ensures Inv(Next(s, step))
  {
    match step
    case Publish(m) => PublishKeeps(s, m);
    case Subscribe(session, types) => SubscribeKeeps(s, session, types);
    case StartClose(t, k) => if k < |s.subs| { CloseKeeps(s, t, k); }
    case CloseBus => CloseBusKeeps(s);
    case Proceed(t) =>
      match ThreadOf(s.threads, t) {
        case Waiting(id, deadline, false) => WaitKeeps(s, t, id, deadline);
        case Iterating(k, false) => NextKeeps(s, t, k);
        case Closing(k) => UnregisterKeeps(s, t, k);
        case _ =>
      }
    case StartWait(t, id, timeout) =>
      MoveKeeps(s, t, Waiting(id, if timeout.None? then None else Some(s.now + timeout.value), false));
    case StartNext(t, k) => if k < |s.subs| { MoveKeeps(s, t, Iterating(k, false)); }
    case Wake(t) =>
      if t in s.threads {
        assert Alert(s, s.threads[t]);
        MoveKeeps(s, t, s.threads[t].Woken());
      }
    case Tick(_) =>
      var u := Next(s, step);
      assert forall t :: t in u.threads ==> Alert(s, s.threads[t]) && Alert(u, u.threads[t]);
      assert forall i :: 0 <= i < |u.results| ==> Justified(s, s.results[i]) && Justified(u, u.results[i]);
  }

  lemma {:induction false} Reachable(now: real, steps: seq<Step>)
    ensures Inv(Run(now, steps))
  {
    if steps != [] {
      Reachable(now, steps[..|steps| - 1]);
      NextPreserves(Run(now, steps[..|steps| - 1]), steps[|steps| - 1]);
    }
  }

  // ---- What holds in every interleaving ----

  /** No lost wakeup: nobody waits for a reply that is stored or on a closed bus, and no iterator sleeps on a
      non-empty or closed subscription. */
  lemma NoLostWakeup(now: real, steps: seq<Step>, t: nat)
    ensures var s := Run(now, steps);
            match ThreadOf(s.threads, t)
            case Waiting(id, _, true) => ResponseFor(s.log, id).None? && !s.closed
            case Iterating(k, true) => k < |s.subs| && s.subs[k].queue == [] && !s.subs[k].closed
            case _ => true
  {
    Reachable(now, steps);
    var s := Run(now, steps);
    assert t in s.threads ==> Alert(s, s.threads[t]);
  }

  /** A finished wait returned the canonical reply of the table it last saw, and None only when that table held no
      reply and the bus was closed or the deadline had passed. */
  lemma WaitReturns(now: real, steps: seq<Step>, i: nat)
    requires i < |Run(now, steps).results|
    ensures var s := Run(now, steps);
            var r := s.results[i];
            && r.at <= |s.log| && r.result == ResponseFor(s.log[..r.at], r.id)
            && (r.result.None? ==> r.closed || (r.deadline.Some? && r.deadline.value <= r.now))
  {
    Reachable(now, steps);
    assert Justified(Run(now, steps), Run(now, steps).results[i]);
  }

  lemma {:induction false} MatchingMembers(sub: Sub, ms: seq<AgentMessage>)
    ensures forall m :: m in Matching(sub, ms) <==> m in ms && sub.Matches(m)
  {
    if ms != [] {
      MatchingMembers(sub, ms[..|ms| - 1]);
      assert ms == ms[..|ms| - 1] + [ms[|ms| - 1]];
    }
  }

  lemma {:induction false} MatchingDistinct(sub: Sub, ms: seq<AgentMessage>)
    requires NoDuplicates(ms)
    ensures NoDuplicates(Matching(sub, ms))
  {
    if ms != [] {
      var front := ms[..|ms| - 1];
      MatchingDistinct(sub, front);
      MatchingMembers(sub, front);
      assert ms[|ms| - 1] !in front;
    }
  }

  lemma StoredDistinct(log: seq<AgentMessage>)
    requires Stored(log)
    ensures NoDuplicates(log)
  {
    forall i, j | 0 <= i < j < |log| ensures log[i] != log[j] {
      assert Insertable(log[..j], log[j]);
      assert log[..j][i] == log[i];
    }
  }

  /** Subscription exactness: what was handed out followed by what is queued is, in order and without repetition, what
      was published between registration and removal and passes the filter; all of it is stored. */
  lemma SubscriptionExact(now: real, steps: seq<Step>, k: nat)
    requires k < |Run(now, steps).subs|
    ensures var s := Run(now, steps);
            var sub := s.subs[k];
            var end := End(sub, s.log);
            && sub.from <= end <= |s.log|
            && sub.consumed + sub.queue == Matching(sub, s.log[sub.from..end])
            && NoDuplicates(sub.consumed + sub.queue)
            && (forall m :: m in sub.consumed + sub.queue <==>
                  && m in s.log[sub.from..end] && m.session == sub.session
                  && (sub.types.None? || m.kind in sub.types.value))
            && (k in s.registered <==> sub.until.None?)
  {
    Reachable(now, steps);
    var s := Run(now, steps);
    var sub := s.subs[k];
    assert Exact(sub, s.log);
    var part := s.log[sub.from..End(sub, s.log)];
    StoredDistinct(s.log);
    MatchingDistinct(sub, part);
    MatchingMembers(sub, part);
  }

  /** What one step cannot undo. */
  ghost predicate Grown(s: State, u: State) {
    && s.log <= u.log && |s.subs| <= |u.subs| && (s.closed ==> u.closed) && s.now <= u.now && s.results <= u.results
    && forall k :: 0 <= k < |s.subs| ==>
         && u.subs[k].session == s.subs[k].session && u.subs[k].types == s.subs[k].types
         && u.subs[k].from == s.subs[k].from && s.subs[k].consumed <= u.subs[k].consumed
         && (s.subs[k].closed ==> u.subs[k].closed)
         && (s.subs[k].until.Some? ==> u.subs[k].until == s.subs[k].until)
         && (s.subs[k].until.None? && u.subs[k].until.Some? ==> |s.log| <= u.subs[k].until.value <= |u.log|)
  }

  lemma ProceedGrows(s: State, t: nat)
    ensures Grown(s, Next(s, Proceed(t)))
  {
  }

  lemma NextGrows(s: State, step: Step)
    ensures Grown(s, Next(s, step))
  {
    if step.Proceed? {
      ProceedGrows(s, step.thread);
    }
  }

  lemma GrownTransitive(s: State, u: State, v: State)
    requires Grown(s, u) && Grown(u, v)
    ensures Grown(s, v)
  {
    forall k | 0 <= k < |s.subs| ensures s.subs[k].consumed <= v.subs[k].consumed {
      assert s.subs[k].consumed <= u.subs[k].consumed <= v.subs[k].consumed;
    }
  }

  /** Along any run the log, the results and what each subscription handed out only grow; registration points are fixed,
      closing is final, and a removal point, once set, is the length the log had at that moment and stays. */
  lemma {:induction false} RunGrows(now: real, steps: seq<Step>, n: nat)
    requires n <= |steps|
    ensures Grown(Run(now, steps[..n]), Run(now, steps))
  {
    if n == |steps| {
      assert steps[..n] == steps;
    } else {
      var front := steps[..|steps| - 1];
      RunGrows(now, front, n);
      assert front[..n] == steps[..n];
      NextGrows(Run(now, front), steps[|steps| - 1]);
      GrownTransitive(Run(now, steps[..n]), Run(now, front), Run(now, steps));
    }
  }

  /** `close` does not stop delivery: a message published between its two halves is still queued, and the iterator gets
      it before it stops. */
  lemma DeliveryBetweenTheHalves(s: State, t: nat, k: nat, m: AgentMessage)
    requires Inv(s) && k < |s.subs| && !s.subs[k].closed && s.subs[k].Matches(m)
    requires !s.closed && Insertable(s.log, m) && ThreadOf(s.threads, t) == Idle
    ensures var u := Next(Next(s, StartClose(t, k)), Publish(m));
            u.subs[k].closed && u.subs[k].queue == s.subs[k].queue + [m]
  {
    var c := CloseBlock(s, t, k);
    assert s.subs[k].until.None?;
  }

  // ---- The class ----

  /** The atomic blocks on fields; each is proved to be the step of the same name. */
  class InProcessMessageBus {
    var log: seq<AgentMessage>
    var closed: bool
    var subs: seq<Sub>
    var registered: seq<nat>
    var threads: map<nat, Thread>
    var now: real
    var results: seq<Return>

    constructor (now: real)
      ensures Here() == Start(now)
    {
      log, closed, subs, registered, threads, this.now, results := [], false, [], [], map[], now, [];
    }

    ghost function Here(): State
      reads this
    {
      State(log, closed, subs, registered, threads, now, results)
    }

    /** The fan-out loop of `publish`. */
    method Deliver(m: AgentMessage)
      requires NoDuplicates(registered) && forall k :: k in registered ==> k < |subs|
      modifies `subs
      ensures subs == FanOut(old(subs), registered, m)
    {
      for i := 0 to |registered|
        invariant |subs| == |old(subs)|
        invariant forall k :: 0 <= k < |subs| ==>
                    subs[k] == if k in registered[..i] then old(subs)[k].Delivered(m) else old(subs)[k]
      {
        var k := registered[i];
        assert k in registered && k !in registered[..i];
        assert registered[..i + 1] == registered[..i] + [k];
        if subs[k].Matches(m) {
          subs := subs[k := subs[k].(queue := subs[k].queue + [m])];
        }
      }
      assert registered[..|registered|] == registered;
    }

    /** `publish`: the insert, the fan-out over the registered subscriptions, and `notify_all`; or an exception and
        no change. */
    method PublishMessage(m: AgentMessage) returns (raised: bool)
      requires Inv(Here())
      modifies this
      ensures Here() == Next(old(Here()), Publish(m)) && Inv(Here())
      ensures raised <==> old(closed) || !Insertable(old(log), m)
      ensures log == if raised then old(log) else old(log) + [m]
    {
      NextPreserves(Here(), Publish(m));
      if closed || !Insertable(log, m) {
        return true;
      }
      log := log + [m];
      Deliver(m);
      threads := NotifyAll(threads);
      raised := false;
    }

    method OpenSubscription(session: string, types: Option<set<MessageType>>) returns (sub: Option<nat>)
      requires Inv(Here())
      modifies this
      ensures Here() == Next(old(Here()), Subscribe(session, types)) && Inv(Here())
      ensures sub.None? <==> old(closed)
      ensures sub.Some? ==> sub.value == |old(subs)| && sub.value in registered
      ensures sub.Some? ==> subs == old(subs) + [Sub(session, types, [], false, [], |log|, None)]
    {
      NextPreserves(Here(), Subscribe(session, types));
      if closed {
        return None;
      }
      subs := subs + [Sub(session, types, [], false, [], |log|, None)];
      registered := registered + [|subs| - 1];
      sub := Some(|subs| - 1);
    }

    /** One turn of the waiting loop: the thread returns, or parks. */
    method AwaitTurn(t: nat) returns (done: bool, response: Option<AgentMessage>)
      requires Inv(Here()) && t in threads && threads[t].Waiting? && !threads[t].parked
      modifies this
      ensures Here() == Next(old(Here()), Proceed(t)) && Inv(Here())
      ensures response == ResponseFor(log, old(threads[t].id))
      ensures done <==>
                || response.Some? || closed
                || (old(threads[t].deadline).Some? && old(threads[t].deadline).value <= now)
      ensures done ==>
                threads[t] == Idle && |results| == |old(results)| + 1 && results[|old(results)|].result == response
      ensures !done ==>
                && response.None? && !closed
                && threads[t] == Waiting(old(threads[t].id), old(threads[t].deadline), true)
    {
      NextPreserves(Here(), Proceed(t));
      var id, deadline := threads[t].id, threads[t].deadline;
      response := ResponseFor(log, id);
      done := response.Some? || closed || (deadline.Some? && deadline.value - now <= 0.0);
      if done {
        results := results + [Return(id, deadline, response, |log|, now, closed)];
        threads := threads[t := Idle];
      } else {
        threads := threads[t := Waiting(id, deadline, true)];
      }
    }

    /** One turn of the loop of `__next__`: a message, the end of the iteration, or parking. */
    method IterateTurn(t: nat) returns (done: bool, message: Option<AgentMessage>)
      requires Inv(Here()) && t in threads && threads[t].Iterating? && !threads[t].parked
      modifies this
      ensures Here() == Next(old(Here()), Proceed(t)) && Inv(Here())
      ensures var k := old(threads[t].sub);
              && (message.Some? ==> done && old(subs)[k].queue != [] && message.value == old(subs)[k].queue[0])
              && (done && message.None? ==> old(subs)[k].queue == [] && old(subs)[k].closed)
    {
      NextPreserves(Here(), Proceed(t));
      assert Alert(Here(), threads[t]);
      var k := threads[t].sub;
      if subs[k].queue == [] {
        done, message := subs[k].closed, None;
        threads := threads[t := if done then Idle else Iterating(k, true)];
      } else {
        done, message := true, Some(subs[k].queue[0]);
        subs := subs[k := subs[k].(queue := subs[k].queue[1..], consumed := subs[k].consumed + [subs[k].queue[0]])];
        threads := threads[t := Idle];
      }
    }

    /** A subscription's `close`, first half: nothing if it is closed already, else it is marked and everybody wakes. */
    method CloseSubscription(t: nat, k: nat)
      requires Inv(Here()) && ThreadOf(threads, t) == Idle && k < |subs|
      modifies this
      ensures Here() == Next(old(Here()), StartClose(t, k)) && Inv(Here())
      ensures subs[k].closed && registered == old(registered) && log == old(log)
      ensures !old(subs)[k].closed ==> ThreadOf(threads, t) == Closing(k)
    {
      NextPreserves(Here(), StartClose(t, k));
      if subs[k].closed {
        return;
      }
      subs := subs[k := subs[k].(closed := true)];
      threads := NotifyAll(threads)[t := Closing(k)];
    }

    /** The second half, `_unregister`. */
    method Unregister(t: nat)
      requires Inv(Here()) && t in threads && threads[t].Closing?
      modifies this
      ensures Here() == Next(old(Here()), Proceed(t)) && Inv(Here())
      ensures old(threads[t].sub) !in registered && ThreadOf(threads, t) == Idle && log == old(log)
      ensures forall j :: j != old(threads[t].sub) ==> (j in registered <==> j in old(registered))
    {
      NextPreserves(Here(), Proceed(t));
      assert Alert(Here(), threads[t]);
      var k := threads[t].sub;
      RemoveOne(registered, k);
      registered := Remove(registered, k);
      subs := subs[k := subs[k].(until := if subs[k].until.Some? then subs[k].until else Some(|log|))];
      threads := NotifyAll(threads)[t := Idle];
    }

    /** The marking loop of `close`. */
    method MarkAll()
      requires forall k :: k in registered ==> k < |subs|
      modifies `subs
      ensures subs == MarkClosed(old(subs), registered)
    {
      for i := 0 to |registered|
        invariant |subs| == |old(subs)|
        invariant forall k :: 0 <= k < |subs| ==>
                    subs[k] == if k in registered[..i] then old(subs)[k].(closed := true) else old(subs)[k]
      {
        var k := registered[i];
        assert k in registered;
        assert registered[..i + 1] == registered[..i] + [k];
        subs := subs[k := subs[k].(closed := true)];
      }
      assert registered[..|registered|] == registered;
    }

    /** `close`: every registered subscription is marked; none is removed. */
    method Close()
      requires Inv(Here())
      modifies this
      ensures Here() == Next(old(Here()), CloseBus) && Inv(Here())
      ensures closed && registered == old(registered) && forall k :: 0 <= k < |subs| ==> subs[k].closed
    {
      NextPreserves(Here(), CloseBus);
      if closed {
        return;
      }
      closed := true;
      MarkAll();
      threads := NotifyAll(threads);
    }
  }
}
