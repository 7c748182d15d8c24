/** Crash-and-retry publishing (`execution_plane/embedded_service.py`, `execution_plane/store.py`). A publish is four
    writes in sequence - bus task, execution, idempotency record, accepted event - and the process may die between any
    two of them. Task and execution ids are free functions of the scoped key, as name-based uuids are taken to be;
    the task bus rejects duplicates and never deletes. */
module Publish {
  import opened Common

  /** The session is what the request's metadata and requester yield. */
  datatype Request = Request(kind: string, requester: string, key: string, session: string, content: string)

  function ScopedKey(r: Request): string { r.kind + ":" + r.requester + ":" + r.key }

  datatype TaskId = TaskOf(scopedKey: string)
  datatype ExecutionId = ExecutionOf(task: TaskId)

  function IdFor(scopedKey: string): ExecutionId { ExecutionOf(TaskOf(scopedKey)) }

  datatype Status = Pending | Running | WaitingForUser | Done | Failed

  datatype Task = Task(status: Status, started: Option<int>, completed: Option<int>, resultRef: Option<string>,
                       errorRef: Option<string>)

  datatype Execution = Execution(
    id: ExecutionId, requestId: string, session: string, env: string, created: int,
    status: Status, updated: int, started: Option<int>, completed: Option<int>, resultRef: Option<string>,
    errorRef: Option<string>)

  datatype IdempotencyRecord = IdempotencyRecord(hash: string, execution: ExecutionId)

  datatype EventKind = Accepted | Progress

  datatype Event = Event(execution: ExecutionId, kind: EventKind)

  type TaskKey = (string, TaskId)

  datatype World = World(
    tasks: map<TaskKey, Task>,
    executions: map<ExecutionId, Execution>,
    records: map<string, IdempotencyRecord>,
    events: seq<Event>)

  const Nothing: World := World(map[], map[], map[], [])

  datatype Reply = Returned(execution: Execution) | Conflict | NoEnvironment | PublishFailed | NotFound | Crashed

  /** `_execution_from_task`. */
  function FromTask(e: Execution, t: Task): Execution {
    e.(status := t.status,
       updated := if t.completed.Some? then t.completed.value
                  else if t.started.Some? then t.started.value else e.updated,
       started := t.started, completed := t.completed, resultRef := t.resultRef, errorRef := t.errorRef)
  }

  /** `get_task`. */
  function GetTask(w: World, id: ExecutionId): (World, Reply) {
    if id !in w.executions then (w, NotFound)
    else
      var e := w.executions[id];
      var k := (e.session, e.id.task);
      if k !in w.tasks then (w, NotFound)
      else (w.(executions := w.executions[id := FromTask(e, w.tasks[k])]), Returned(FromTask(e, w.tasks[k])))
  }

  function NewTask(): Task { Task(Pending, None, None, None, None) }

  function NewExecution(r: Request, env: string, now: int): Execution {
    Execution(IdFor(ScopedKey(r)), ScopedKey(r), r.session, env, now, Pending, now, None, None, None, None)
  }

  // ---- The writes ----

  function WriteTask(w: World, r: Request): World {
    var k := (r.session, TaskOf(ScopedKey(r)));
    if k in w.tasks then w else w.(tasks := w.tasks[k := NewTask()])
  }

  function WriteExecution(w: World, r: Request, env: string, now: int): World {
    w.(executions := w.executions[IdFor(ScopedKey(r)) := NewExecution(r, env, now)])
  }

  function WriteRecord(w: World, r: Request, hash: string): World {
    w.(records := w.records[ScopedKey(r) := IdempotencyRecord(hash, IdFor(ScopedKey(r)))])
  }

  function WriteAccepted(w: World, r: Request): World {
    w.(events := w.events + [Event(IdFor(ScopedKey(r)), Accepted)])
  }

  /** The writes of a first publish, of which a crash lets only `done` happen. */
  function Writes(w: World, r: Request, hash: string, env: string, now: int, done: nat): World {
    var w1 := if done >= 1 then WriteTask(w, r) else w;
    var w2 := if done >= 2 then WriteExecution(w1, r, env, now) else w1;
    var w3 := if done >= 3 then WriteRecord(w2, r, hash) else w2;
    if done >= 4 then WriteAccepted(w3, r) else w3
  }

  datatype Step =
    | Publishing(request: Request, env: Option<string>, busFails: bool, now: int, writes: nat)
    | Reading(execution: ExecutionId)
    | Noting(execution: ExecutionId)
    | Working(task: TaskKey, state: Task)

  /** A publish, a `get_task`, a cancel or retry (which refresh the execution and note progress), or the bus's own work
      on a task. */
  function Next(hash: Request -> string, w: World, s: Step): (World, Reply) {
    match s
    case Publishing(r, env, busFails, now, writes) =>
      if ScopedKey(r) in w.records then
        if w.records[ScopedKey(r)].hash != hash(r) then (w, Conflict) else GetTask(w, w.records[ScopedKey(r)].execution)
      else if env.None? then (w, NoEnvironment)
      else if busFails && (r.session, TaskOf(ScopedKey(r))) !in w.tasks then (w, PublishFailed)
      else
        (Writes(w, r, hash(r), env.value, now, writes),
         if writes >= 4 then Returned(NewExecution(r, env.value, now)) else Crashed)
    case Reading(id) => GetTask(w, id)
    case Noting(id) =>
      var (u, reply) := GetTask(w, id);
      (if reply.Returned? then u.(events := u.events + [Event(id, Progress)]) else u, reply)
    case Working(k, t) => (if k in w.tasks then w.(tasks := w.tasks[k := t]) else w, NotFound)
  }

  function Run(hash: Request -> string, history: seq<Step>): World {
    if history == [] then Nothing else Next(hash, Run(hash, history[..|history| - 1]), history[|history| - 1]).0
  }

  function LastReply(hash: Request -> string, history: seq<Step>): Reply
    requires history != []
  {
    Next(hash, Run(hash, history[..|history| - 1]), history[|history| - 1]).1
  }

  // ---- What the operations answer ----

  /** `get_task` finds an execution whose bus task exists, and shows the task's own status, times and references; who
      asked for it, where and when stays as it was. It is refreshed when the task completed, or else started. */
  lemma ReadTells(w: World, id: ExecutionId)
    ensures var (u, reply) := GetTask(w, id);
            && (reply.Returned? <==>
                  id in w.executions && (w.executions[id].session, w.executions[id].id.task) in w.tasks)
            && (!reply.Returned? ==> u == w && reply == NotFound)
            && (reply.Returned? ==>
                  var was, e := w.executions[id], reply.execution;
                  var t := w.tasks[(was.session, was.id.task)];
                  && u == w.(executions := w.executions[id := e])
                  && e.id == was.id && e.requestId == was.requestId && e.session == was.session && e.env == was.env
                  && e.created == was.created
                  && e.status == t.status && e.started == t.started && e.completed == t.completed
                  && e.resultRef == t.resultRef && e.errorRef == t.errorRef
                  && (t.completed.Some? ==> Some(e.updated) == t.completed)
                  && (t.completed.None? && t.started.Some? ==> Some(e.updated) == t.started)
                  && (t.completed.None? && t.started.None? ==> e.updated == was.updated))
  {
  }

  /** What a publish answers: a recorded key conflicts iff the request's hash is another one, else it is read; without a
      record there must be an environment and a bus that takes the task or has it; then it returns iff it lives through
      all four writes. Whatever is refused changes nothing. */
  lemma PublishAnswers(hash: Request -> string, w: World, s: Step)
    requires s.Publishing?
    ensures var (u, reply) := Next(hash, w, s);
            var r, key := s.request, ScopedKey(s.request);
            var begins := key !in w.records && s.env.Some? && !(s.busFails && (r.session, TaskOf(key)) !in w.tasks);
            && (reply.Conflict? <==> key in w.records && w.records[key].hash != hash(r))
            && (key in w.records && w.records[key].hash == hash(r) ==>
                  (u, reply) == GetTask(w, w.records[key].execution))
            && (reply.NoEnvironment? <==> key !in w.records && s.env.None?)
            && (reply.PublishFailed? <==>
                  key !in w.records && s.env.Some? && s.busFails && (r.session, TaskOf(key)) !in w.tasks)
            && (reply.Crashed? <==> begins && s.writes < 4)
            && (begins && s.writes >= 4 ==> reply.Returned?)
            && (reply.Conflict? || reply.NoEnvironment? || reply.PublishFailed? ==> u == w)
  {
  }

  /** What a publish that begins leaves behind, write by write: a pending bus task unless there is one, a pending
      execution of the request in its session and environment, the record with the request's hash, the event. */
  lemma WritesLeave(w: World, r: Request, hash: string, env: string, now: int, done: nat)
    ensures var u := Writes(w, r, hash, env, now, done);
            var key, id, k := ScopedKey(r), IdFor(ScopedKey(r)), (r.session, TaskOf(ScopedKey(r)));
            && u.tasks == (if done == 0 || k in w.tasks then w.tasks
                           else w.tasks[k := Task(Pending, None, None, None, None)])
            && u.executions == (if done < 2 then w.executions
                                else w.executions[id := Execution(id, key, r.session, env, now, Pending, now,
                                                                  None, None, None, None)])
            && u.records == (if done < 3 then w.records else w.records[key := IdempotencyRecord(hash, id)])
            && u.events == (if done < 4 then w.events else w.events + [Event(id, Accepted)])
  {
  }

  /** A cancel or retry of a known execution refreshes it and notes progress. */
  lemma NotingNotes(hash: Request -> string, w: World, id: ExecutionId)
    ensures var (u, reply) := Next(hash, w, Noting(id));
            && reply == GetTask(w, id).1 && u.executions == GetTask(w, id).0.executions
            && u.tasks == w.tasks && u.records == w.records
            && u.events == w.events + if reply.Returned? then [Event(id, Progress)] else []
  {
  }

  class EmbeddedTaskApiService {
    const hash: Request -> string
    var tasks: map<TaskKey, Task>
    var executions: map<ExecutionId, Execution>
    var records: map<string, IdempotencyRecord>
    var events: seq<Event>

    constructor (hash: Request -> string)
      ensures this.hash == hash && Here() == Nothing
    {
      this.hash := hash;
      tasks, executions, records, events := map[], map[], map[], [];
    }

    function Here(): World
      reads this
    {
      World(tasks, executions, records, events)
    }

    method ReadTask(id: ExecutionId) returns (reply: Reply)
      modifies `executions
      ensures (Here(), reply) == GetTask(old(Here()), id)
    {
      if id !in executions {
        return NotFound;
      }
      var e := executions[id];
      if (e.session, e.id.task) !in tasks {
        return NotFound;
      }
      var updated := FromTask(e, tasks[(e.session, e.id.task)]);
      if updated != e {
        executions := executions[id := updated];
      }
      assert executions == old(executions)[id := updated];
      reply := Returned(updated);
    }

    /** `publish_task`, dying after `writes` writes if that is fewer than four. */
    method PublishTask(r: Request, env: Option<string>, busFails: bool, now: int, writes: nat) returns (reply: Reply)
      modifies this
      ensures (Here(), reply) == Next(hash, old(Here()), Publishing(r, env, busFails, now, writes))
    {
      var scopedKey := ScopedKey(r);
      if scopedKey in records {
        if records[scopedKey].hash != hash(r) {
          return Conflict;
        }
        reply := ReadTask(records[scopedKey].execution);
        return;
      }
      if env.None? {
        return NoEnvironment;
      }
      var k := (r.session, TaskOf(scopedKey));
      if busFails && k !in tasks {
        return PublishFailed;
      }
      if writes == 0 {
        return Crashed;
      }
      if k !in tasks {
        tasks := tasks[k := NewTask()];
      }
      if writes == 1 {
        return Crashed;
      }
      executions := executions[IdFor(scopedKey) := NewExecution(r, env.value, now)];
      if writes == 2 {
        return Crashed;
      }
      records := records[scopedKey := IdempotencyRecord(hash(r), IdFor(scopedKey))];
      if writes == 3 {
        return Crashed;
      }
      events := events + [Event(IdFor(scopedKey), Accepted)];
      reply := Returned(NewExecution(r, env.value, now));
    }
  }

  // ---- The invariant ----

  function AcceptedCount(events: seq<Event>, id: ExecutionId): nat {
    if events == [] then 0
    else AcceptedCount(events[..|events| - 1], id) + if events[|events| - 1] == Event(id, Accepted) then 1 else 0
  }

  lemma AcceptedCountAppend(events: seq<Event>, e: Event, id: ExecutionId)
    ensures AcceptedCount(events + [e], id) == AcceptedCount(events, id) + if e == Event(id, Accepted) then 1 else 0
  {
    assert (events + [e])[..|events|] == events;
  }

  /** A record implies an execution, an execution implies a bus task. */
  ghost predicate Anchored(w: World) {
    && (forall k :: k in w.records ==> w.records[k].execution == IdFor(k) && IdFor(k) in w.executions)
    && (forall id :: id in w.executions ==> w.executions[id].id == id && (w.executions[id].session, id.task) in w.tasks)
  }

  /** At most one accepted event for each scoped key, and none before its record. */
  ghost predicate AcceptedOnce(events: seq<Event>, records: map<string, IdempotencyRecord>) {
    forall k: string :: AcceptedCount(events, IdFor(k)) <= if k in records then 1 else 0
  }

  /** The bus task was asked for by a request of the history. */
  ghost predicate Asked(history: seq<Step>, k: TaskKey) {
    exists r :: Requested(history, r) && (r.session, TaskOf(ScopedKey(r))) == k
  }

  ghost predicate AllAsked(history: seq<Step>, w: World) { forall k :: k in w.tasks ==> Asked(history, k) }

  ghost predicate Inv(history: seq<Step>, w: World) {
    Anchored(w) && AcceptedOnce(w.events, w.records) && AllAsked(history, w)
  }

  lemma GetTaskAnchored(w: World, id: ExecutionId)
    requires Anchored(w)
    ensures Anchored(GetTask(w, id).0)
  {
  }

  lemma WritesAnchored(w: World, r: Request, hash: string, env: string, now: int, done: nat)
    requires Anchored(w)
    ensures Anchored(Writes(w, r, hash, env, now, done))
  {
    var k := (r.session, TaskOf(ScopedKey(r)));
    var w1 := WriteTask(w, r);
    assert Anchored(w1);
    var w2 := WriteExecution(w1, r, env, now);
    assert w2.executions[IdFor(ScopedKey(r))] == NewExecution(r, env, now) && k in w2.tasks;
    assert Anchored(w2);
    assert Anchored(WriteRecord(w2, r, hash));
  }

  lemma AcceptKey(events: seq<Event>, records: map<string, IdempotencyRecord>, key: string, record: IdempotencyRecord)
    requires AcceptedOnce(events, records) && key !in records
    ensures AcceptedOnce(events, records[key := record])
    ensures AcceptedOnce(events + [Event(IdFor(key), Accepted)], records[key := record])
  {
    forall k: string
      ensures AcceptedCount(events, IdFor(k)) <= if k in records then 1 else 0
      ensures AcceptedCount(events + [Event(IdFor(key), Accepted)], IdFor(k))
              <= if k in records[key := record] then 1 else 0
    {
      assert AcceptedCount(events, IdFor(k)) <= if k in records then 1 else 0;
      AcceptedCountAppend(events, Event(IdFor(key), Accepted), IdFor(k));
    }
  }

  lemma NoteProgress(events: seq<Event>, records: map<string, IdempotencyRecord>, id: ExecutionId)
    requires AcceptedOnce(events, records)
    ensures AcceptedOnce(events + [Event(id, Progress)], records)
  {
    forall k: string ensures AcceptedCount(events + [Event(id, Progress)], IdFor(k)) <= if k in records then 1 else 0 {
      assert AcceptedCount(events, IdFor(k)) <= if k in records then 1 else 0;
      AcceptedCountAppend(events, Event(id, Progress), IdFor(k));
    }
  }

  lemma RequestedLater(history: seq<Step>, s: Step, r: Request)
    requires Requested(history, r)
    ensures Requested(history + [s], r)
  {
    var i :| 0 <= i < |history| && history[i].Publishing? && history[i].request == r;
    assert (history + [s])[i] == history[i];
  }

  lemma AskedLater(history: seq<Step>, s: Step, w: World)
    requires AllAsked(history, w)
    ensures AllAsked(history + [s], w)
  {
    forall k | k in w.tasks ensures Asked(history + [s], k) {
      var r :| Requested(history, r) && (r.session, TaskOf(ScopedKey(r))) == k;
      RequestedLater(history, s, r);
    }
  }

  lemma WritesKeep(history: seq<Step>, w: World, s: Step, hash: string, env: string)
    requires Inv(history, w) && s.Publishing? && ScopedKey(s.request) !in w.records
    ensures Inv(history + [s], Writes(w, s.request, hash, env, s.now, s.writes))
  {
    var r := s.request;
    AskedLater(history, s, w);
    WritesAnchored(w, r, hash, env, s.now, s.writes);
    AcceptKey(w.events, w.records, ScopedKey(r), IdempotencyRecord(hash, IdFor(ScopedKey(r))));
    assert (history + [s])[|history|] == s;
    assert Requested(history + [s], r);
    assert Asked(history + [s], (r.session, TaskOf(ScopedKey(r))));
  }

  lemma NextKeeps(hash: Request -> string, history: seq<Step>, w: World, s: Step)
    requires Inv(history, w)
    ensures Inv(history + [s], Next(hash, w, s).0)
  {
    AskedLater(history, s, w);
    match s
    case Publishing(r, env, busFails, now, writes) =>
      if ScopedKey(r) in w.records {
        GetTaskAnchored(w, w.records[ScopedKey(r)].execution);
      } else if env.Some? {
        WritesKeep(history, w, s, hash(r), env.value);
      }
    case Reading(id) => GetTaskAnchored(w, id);
    case Noting(id) =>
      GetTaskAnchored(w, id);
      NoteProgress(w.events, w.records, id);
    case Working(k, t) =>
  }

  lemma {:induction false} HistoryKeeps(hash: Request -> string, history: seq<Step>)
    ensures Inv(history, Run(hash, history))
  {
    if history != [] {
      var front := history[..|history| - 1];
      HistoryKeeps(hash, front);
      assert history == front + [history[|history| - 1]];
      NextKeeps(hash, front, Run(hash, front), history[|history| - 1]);
    }
  }

  // ---- What every history gives ----

  ghost predicate Requested(history: seq<Step>, r: Request) {
    exists i :: 0 <= i < |history| && history[i].Publishing? && history[i].request == r
  }

  /** Requests that share a scoped key are identical. */
  ghost predicate SameRequests(history: seq<Step>) {
    forall r, q :: Requested(history, r) && Requested(history, q) && ScopedKey(r) == ScopedKey(q) ==> r == q
  }

  /** Requests that share a scoped key at least name the same session. */
  ghost predicate SameSessions(history: seq<Step>) {
    forall r, q :: Requested(history, r) && Requested(history, q) && ScopedKey(r) == ScopedKey(q) ==>
        r.session == q.session
  }

  /** Whatever crashes where: a record implies an execution implies a bus task, accepted at most once. */
  lemma RecordsAreAnchored(hash: Request -> string, history: seq<Step>, scopedKey: string)
    ensures var w := Run(hash, history);
            var id := IdFor(scopedKey);
            && (scopedKey in w.records ==> id in w.executions && w.records[scopedKey].execution == id)
            && (id in w.executions ==> (w.executions[id].session, TaskOf(scopedKey)) in w.tasks)
            && AcceptedCount(w.events, id) <= 1
            && (scopedKey !in w.records ==> AcceptedCount(w.events, id) == 0)
  {
    HistoryKeeps(hash, history);
    var w := Run(hash, history);
    assert AcceptedCount(w.events, IdFor(scopedKey)) <= if scopedKey in w.records then 1 else 0;
  }

  // ---- Exactly what a history has written ----

  /** Step `s`, met in state `w`, is a publish of the key that gets to its writes: no record yet, an environment, and
      no refusal by the bus. */
  predicate Begins(w: World, s: Step, scopedKey: string) {
    && s.Publishing? && ScopedKey(s.request) == scopedKey
    && scopedKey !in w.records && s.env.Some?
    && !(s.busFails && (s.request.session, TaskOf(scopedKey)) !in w.tasks)
  }

  /** Step `i` of the history was such a publish and made at least `writes` of its writes before it died. */
  ghost predicate Made(hash: Request -> string, history: seq<Step>, i: nat, scopedKey: string, writes: nat) {
    i < |history| && Begins(Run(hash, history[..i]), history[i], scopedKey) && history[i].writes >= writes
  }

  lemma MadeBefore(hash: Request -> string, history: seq<Step>, n: nat, i: nat, scopedKey: string, writes: nat)
    requires i < n <= |history|
    ensures Made(hash, history[..n], i, scopedKey, writes) <==> Made(hash, history, i, scopedKey, writes)
  {
    assert history[..n][..i] == history[..i];
  }

  lemma MadeLast(hash: Request -> string, history: seq<Step>, scopedKey: string, writes: nat)
    requires history != []
    ensures Made(hash, history, |history| - 1, scopedKey, writes) <==>
            && Begins(Run(hash, history[..|history| - 1]), history[|history| - 1], scopedKey)
            && history[|history| - 1].writes >= writes
  {
  }

  ghost predicate ReachedAt(hash: Request -> string, history: seq<Step>, i: nat, scopedKey: string, session: string) {
    Made(hash, history, i, scopedKey, 1) && history[i].request.session == session
  }

  /** Some publish of the key, on that session, made its first write. */
  ghost predicate Reached(hash: Request -> string, history: seq<Step>, scopedKey: string, session: string) {
    exists i: nat :: ReachedAt(hash, history, i, scopedKey, session)
  }

  /** Some publish of the key wrote its record. */
  ghost predicate RecordMade(hash: Request -> string, history: seq<Step>, scopedKey: string) {
    exists i: nat :: Made(hash, history, i, scopedKey, 3)
  }

  /** Some publish of the key made all of its writes. */
  ghost predicate Completed(hash: Request -> string, history: seq<Step>, scopedKey: string) {
    exists i: nat :: Made(hash, history, i, scopedKey, 4)
  }

  /** A bus task exists for a key and a session iff a publish of that key on that session reached the first write. */
  lemma {:induction false} TaskIff(hash: Request -> string, history: seq<Step>, scopedKey: string, session: string)
    ensures (session, TaskOf(scopedKey)) in Run(hash, history).tasks <==> Reached(hash, history, scopedKey, session)
  {
    if history != [] {
      var n := |history| - 1;
      var front, s := history[..n], history[n];
      TaskIff(hash, front, scopedKey, session);
      forall i: nat | i < n
        ensures ReachedAt(hash, front, i, scopedKey, session) <==> ReachedAt(hash, history, i, scopedKey, session)
      {
        MadeBefore(hash, history, n, i, scopedKey, 1);
      }
      MadeLast(hash, history, scopedKey, 1);
      assert ReachedAt(hash, history, n, scopedKey, session) <==>
             Begins(Run(hash, front), s, scopedKey) && s.writes >= 1 && s.request.session == session;
      TaskStep(hash, Run(hash, front), s, scopedKey, session);
    }
  }

  lemma TaskStep(hash: Request -> string, w: World, s: Step, scopedKey: string, session: string)
    ensures (session, TaskOf(scopedKey)) in Next(hash, w, s).0.tasks <==>
            || (session, TaskOf(scopedKey)) in w.tasks
            || (Begins(w, s, scopedKey) && s.writes >= 1 && s.request.session == session)
  {
  }

  /** A key has two bus tasks iff publishes of two sessions reached their first write. */
  lemma TwoTasksIff(hash: Request -> string, history: seq<Step>, scopedKey: string)
    ensures (exists a, b :: a != b && (a, TaskOf(scopedKey)) in Run(hash, history).tasks
                                   && (b, TaskOf(scopedKey)) in Run(hash, history).tasks)
            <==> (exists a, b :: a != b && Reached(hash, history, scopedKey, a) && Reached(hash, history, scopedKey, b))
  {
    forall session: string
      ensures (session, TaskOf(scopedKey)) in Run(hash, history).tasks <==> Reached(hash, history, scopedKey, session)
    {
      TaskIff(hash, history, scopedKey, session);
    }
  }

  lemma EventStep(hash: Request -> string, w: World, s: Step, scopedKey: string)
    ensures var u := Next(hash, w, s).0;
            && (scopedKey in u.records <==> scopedKey in w.records || (Begins(w, s, scopedKey) && s.writes >= 3))
            && AcceptedCount(u.events, IdFor(scopedKey)) ==
               AcceptedCount(w.events, IdFor(scopedKey)) + if Begins(w, s, scopedKey) && s.writes >= 4 then 1 else 0
  {
    match s
    case Publishing(r, _, _, _, _) =>
      AcceptedCountAppend(w.events, Event(IdFor(ScopedKey(r)), Accepted), IdFor(scopedKey));
    case Noting(other) => AcceptedCountAppend(w.events, Event(other, Progress), IdFor(scopedKey));
    case Reading(_) =>
    case Working(_, _) =>
  }

  /** After every history: a key has its record iff some publish of it got as far as the record, and it has its accepted
      event, exactly one, iff some publish of it made all four writes. */
  lemma {:induction false} AcceptedEventIff(hash: Request -> string, history: seq<Step>, scopedKey: string)
    ensures scopedKey in Run(hash, history).records <==> RecordMade(hash, history, scopedKey)
    ensures AcceptedCount(Run(hash, history).events, IdFor(scopedKey))
            == if Completed(hash, history, scopedKey) then 1 else 0
  {
    if history != [] {
      var n := |history| - 1;
      var front := history[..n];
      AcceptedEventIff(hash, front, scopedKey);
      forall i: nat, writes: nat | i < n
        ensures Made(hash, front, i, scopedKey, writes) <==> Made(hash, history, i, scopedKey, writes)
      {
        MadeBefore(hash, history, n, i, scopedKey, writes);
      }
      MadeLast(hash, history, scopedKey, 3);
      MadeLast(hash, history, scopedKey, 4);
      EventStep(hash, Run(hash, front), history[n], scopedKey);
      assert Completed(hash, front, scopedKey) ==> RecordMade(hash, front, scopedKey) by {
        if i: nat :| Made(hash, front, i, scopedKey, 4) {
          assert Made(hash, front, i, scopedKey, 3);
        }
      }
    }
  }

  /** The key has its record but no accepted event. */
  ghost predicate Unannounced(w: World, scopedKey: string) {
    scopedKey in w.records && AcceptedCount(w.events, IdFor(scopedKey)) == 0
  }

  /** Step `i` wrote the key's record and died right after it. */
  ghost predicate DiedAtRecord(hash: Request -> string, history: seq<Step>, i: nat, scopedKey: string) {
    Made(hash, history, i, scopedKey, 3) && history[i].writes == 3
  }

  /** A recorded key lacks its event iff the publish that wrote the record died right after it. */
  lemma EventLostIff(hash: Request -> string, history: seq<Step>, scopedKey: string)
    ensures Unannounced(Run(hash, history), scopedKey) <==>
            exists i: nat :: DiedAtRecord(hash, history, i, scopedKey)
  {
    AcceptedEventIff(hash, history, scopedKey);
    if Completed(hash, history, scopedKey) {
      var i: nat :| Made(hash, history, i, scopedKey, 4);
      assert Made(hash, history, i, scopedKey, 3);
      forall j: nat ensures !DiedAtRecord(hash, history, j, scopedKey) {
        if Made(hash, history, j, scopedKey, 3) {
          MadeOnce(hash, history, i, j, scopedKey);
        }
      }
    } else if RecordMade(hash, history, scopedKey) {
      var i: nat :| Made(hash, history, i, scopedKey, 3);
      assert !Made(hash, history, i, scopedKey, 4);
      assert DiedAtRecord(hash, history, i, scopedKey);
    }
  }

  /** Only one publish of a key writes its record. */
  lemma MadeOnce(hash: Request -> string, history: seq<Step>, i: nat, j: nat, scopedKey: string)
    requires Made(hash, history, i, scopedKey, 3) && Made(hash, history, j, scopedKey, 3)
    ensures i == j
  {
    var first, second := if i < j then i else j, if i < j then j else i;
    if first < second {
      MadeBefore(hash, history, second, first, scopedKey, 3);
      AcceptedEventIff(hash, history[..second], scopedKey);
    }
  }

  /** An event that was lost stays lost, whatever follows, retries included. */
  lemma AcceptedEventLostForever(hash: Request -> string, history: seq<Step>, n: nat, scopedKey: string)
    requires n <= |history| && Unannounced(Run(hash, history[..n]), scopedKey)
    ensures Unannounced(Run(hash, history), scopedKey)
  {
    EventLostIff(hash, history[..n], scopedKey);
    EventLostIff(hash, history, scopedKey);
    var i: nat :| DiedAtRecord(hash, history[..n], i, scopedKey);
    MadeBefore(hash, history, n, i, scopedKey, 3);
    assert DiedAtRecord(hash, history, i, scopedKey);
  }

  /** With identical requests, or at least the same session, there is at most one bus task for each scoped key. */
  lemma OneTaskPerKey(hash: Request -> string, history: seq<Step>, scopedKey: string, a: string, b: string)
    requires SameRequests(history) || SameSessions(history)
    requires (a, TaskOf(scopedKey)) in Run(hash, history).tasks && (b, TaskOf(scopedKey)) in Run(hash, history).tasks
    ensures a == b
  {
    HistoryKeeps(hash, history);
    assert Asked(history, (a, TaskOf(scopedKey))) && Asked(history, (b, TaskOf(scopedKey)));
  }

  /** Every publish that returns, first or retried, returns the execution of its scoped key. */
  lemma SameExecution(hash: Request -> string, history: seq<Step>)
    requires history != [] && history[|history| - 1].Publishing?
    ensures var k := ScopedKey(history[|history| - 1].request);
            LastReply(hash, history).Returned? ==> LastReply(hash, history).execution.id == IdFor(k)
  {
    HistoryKeeps(hash, history[..|history| - 1]);
  }

  /** The hash kept under a key is that of a request of the history with this key. */
  ghost predicate HashOfRequest(hash: Request -> string, history: seq<Step>, k: string, h: string) {
    exists r :: Requested(history, r) && ScopedKey(r) == k && hash(r) == h
  }

  lemma {:induction false} HistoryHashed(hash: Request -> string, history: seq<Step>, k: string)
    requires k in Run(hash, history).records
    ensures HashOfRequest(hash, history, k, Run(hash, history).records[k].hash)
  {
    var n := |history| - 1;
    var front, s := history[..n], history[n];
    var w, u := Run(hash, front), Run(hash, history);
    assert history == front + [s];
    if k in w.records && u.records[k] == w.records[k] {
      HistoryHashed(hash, front, k);
      var r :| Requested(front, r) && ScopedKey(r) == k && hash(r) == w.records[k].hash;
      RequestedLater(front, s, r);
    } else {
      assert s.Publishing? && ScopedKey(s.request) == k && hash(s.request) == u.records[k].hash;
      assert Requested(history, s.request);
    }
  }

  /** A retry of a publish whose record was written always succeeds, however many crashes there were. */
  lemma RetrySucceeds(hash: Request -> string, history: seq<Step>)
    requires history != [] && history[|history| - 1].Publishing? && SameRequests(history)
    requires ScopedKey(history[|history| - 1].request) in Run(hash, history[..|history| - 1]).records
    ensures LastReply(hash, history).Returned?
  {
    var front, s := history[..|history| - 1], history[|history| - 1];
    assert history == front + [s];
    var w, k := Run(hash, front), ScopedKey(s.request);
    HistoryKeeps(hash, front);
    HistoryHashed(hash, front, k);
    var r :| Requested(front, r) && ScopedKey(r) == k && hash(r) == w.records[k].hash;
    RequestedLater(front, s, r);
    assert Requested(history, s.request);
  }

  // ---- What it does not give ----

  /** Requests that share a key but not a session, with a crash before the record: two bus tasks for one key. */
  lemma DifferentSessionsTwoTasks(hash: Request -> string, r: Request, other: string, env: string, now: int)
    requires other != r.session
    ensures var history := [Publishing(r, Some(env), false, now, 1),
                            Publishing(r.(session := other), Some(env), false, now, 4)];
            var w := Run(hash, history);
            (r.session, TaskOf(ScopedKey(r))) in w.tasks && (other, TaskOf(ScopedKey(r))) in w.tasks
  {
    var first := Publishing(r, Some(env), false, now, 1);
    var history := [first, Publishing(r.(session := other), Some(env), false, now, 4)];
    assert history[..1] == [first] && history[..1][..0] == [];
    assert Run(hash, history[..1]) == Next(hash, Nothing, first).0;
  }

  /** A publish that finds no record says pending, whatever the bus task has come to. So, after any history, what a
      publish returns is what `get_task` would say iff the key has its record already, or there is no bus task yet, or
      the task is still untouched. */
  lemma RepublishSaysPending(hash: Request -> string, history: seq<Step>, s: Step)
    requires s.Publishing?
    ensures var w := Run(hash, history);
            var (u, reply) := Next(hash, w, s);
            var k := (s.request.session, TaskOf(ScopedKey(s.request)));
            reply.Returned? ==>
              && (ScopedKey(s.request) !in w.records ==> reply.execution.status == Pending)
              && (reply == GetTask(u, reply.execution.id).1 <==>
                    ScopedKey(s.request) in w.records || k !in w.tasks || w.tasks[k] == NewTask())
  {
    HistoryKeeps(hash, history);
  }

  /** For one: the process dies after the first write, the bus takes the task on, and the retry still says pending. */
  lemma RetryOfStartedWork(hash: Request -> string, r: Request, env: string, now: int, state: Task)
    requires state != NewTask()
    ensures var first := Publishing(r, Some(env), false, now, 1);
            var work := Working((r.session, TaskOf(ScopedKey(r))), state);
            var w := Run(hash, [first, work]);
            var (u, reply) := Next(hash, w, Publishing(r, Some(env), false, now, 4));
            && reply.Returned? && reply.execution.status == Pending
            && reply != GetTask(u, reply.execution.id).1
  {
    var first := Publishing(r, Some(env), false, now, 1);
    var work := Working((r.session, TaskOf(ScopedKey(r))), state);
    var history := [first, work];
    assert history[..1] == [first] && history[..1][..0] == [];
    assert Run(hash, history[..1]) == Next(hash, Nothing, first).0;
    assert Run(hash, history) == Next(hash, Next(hash, Nothing, first).0, work).0;
  }

  /** And the shortest history that loses an event. */
  lemma DeathAtTheRecord(hash: Request -> string, r: Request, env: string, now: int)
    ensures Unannounced(Run(hash, [Publishing(r, Some(env), false, now, 3)]), ScopedKey(r))
  {
    var only := Publishing(r, Some(env), false, now, 3);
    assert [only][..0] == [];
    assert Run(hash, [only]) == Next(hash, Nothing, only).0;
  }

  // ---- Scoped keys ----

  predicate NoColon(s: string) { forall i :: 0 <= i < |s| ==> s[i] != ':' }

  /** The kinds are a closed set of words without colons; ids and keys are not empty. */
  predicate ValidRequest(r: Request) { NoColon(r.kind) && r.requester != "" && r.key != "" }

  /** Another request, of another requester or with another key, gets the same scoped key. */
  predicate Collide(r: Request, q: Request) {
    ScopedKey(r) == ScopedKey(q) && (q.kind != r.kind || q.requester != r.requester || q.key != r.key)
  }

  /** A colon with something on both sides of it within the requester id and the key taken together, besides the
      separator between them. */
  predicate Ambiguous(r: Request) {
    || (exists i :: 1 <= i < |r.requester| && r.requester[i] == ':')
    || (exists i :: 0 <= i < |r.key| - 1 && r.key[i] == ':')
  }

  /** Up to the first colon two texts with one beginning agree. */
  lemma FirstColon(a: string, b: string, x: string, y: string)
    requires NoColon(a) && NoColon(b) && a + ":" + x == b + ":" + y
    ensures a == b && x == y
  {
    var s := a + ":" + x;
    assert s[|a|] == ':' && s[|b|] == ':';
    assert a == s[..|a|] && b == s[..|b|];
    assert x == s[|a| + 1..] && y == s[|b| + 1..];
  }

  /** Two splits of one text at a colon: the longer first part has a colon where the shorter one ends. */
  lemma TwoSplits(a: string, x: string, b: string, y: string)
    requires a + ":" + x == b + ":" + y && |a| < |b|
    ensures b[|a|] == ':' && x == b[|a| + 1..] + ":" + y && a == b[..|a|]
  {
    var s := a + ":" + x;
    assert s[|a|] == ':' && s == b + ":" + y;
    assert a == s[..|a|] && x == s[|a| + 1..];
    assert s[..|a|] == b[..|a|] && s[|a| + 1..] == b[|a| + 1..] + ":" + y;
  }

  lemma SameSplit(a: string, x: string, b: string, y: string)
    requires a + ":" + x == b + ":" + y && |a| == |b|
    ensures a == b && x == y
  {
    var s := a + ":" + x;
    assert a == s[..|a|] && b == s[..|b|];
    assert x == s[|a| + 1..] && y == s[|b| + 1..];
  }

  lemma KeyParts(r: Request)
    ensures ScopedKey(r) == r.kind + ":" + (r.requester + ":" + r.key)
  {
  }

  lemma CollisionIsAmbiguous(r: Request, q: Request)
    requires ValidRequest(r) && ValidRequest(q) && Collide(r, q)
    ensures Ambiguous(r)
  {
    KeyParts(r);
    KeyParts(q);
    FirstColon(r.kind, q.kind, r.requester + ":" + r.key, q.requester + ":" + q.key);
    if |q.requester| < |r.requester| {
      TwoSplits(q.requester, q.key, r.requester, r.key);
    } else if |r.requester| < |q.requester| {
      TwoSplits(r.requester, r.key, q.requester, q.key);
      assert r.key[|q.requester| - |r.requester| - 1] == ':';
    } else {
      SameSplit(r.requester, r.key, q.requester, q.key);
    }
  }

  /** A request whose requester id has an inner colon, moved over to the key. */
  lemma ColonInRequester(r: Request, i: nat)
    requires ValidRequest(r) && 1 <= i < |r.requester| && r.requester[i] == ':'
    ensures exists q :: ValidRequest(q) && Collide(r, q)
  {
    var a, b := r.requester[..i], r.requester[i + 1..];
    var q := r.(requester := a, key := b + ":" + r.key);
    assert r.requester == a + ":" + b;
    KeyParts(r);
    KeyParts(q);
    assert r.requester + ":" + r.key == a + ":" + (b + ":" + r.key);
    assert ValidRequest(q) && Collide(r, q);
  }

  /** Or whose key has one, moved over to the requester id. */
  lemma ColonInKey(r: Request, i: nat)
    requires ValidRequest(r) && i < |r.key| - 1 && r.key[i] == ':'
    ensures exists q :: ValidRequest(q) && Collide(r, q)
  {
    var a, b := r.key[..i], r.key[i + 1..];
    var q := r.(requester := r.requester + ":" + a, key := b);
    assert r.key == a + ":" + b;
    KeyParts(r);
    KeyParts(q);
    assert r.requester + ":" + r.key == (r.requester + ":" + a) + ":" + b;
    assert |q.requester| > |r.requester|;
    assert ValidRequest(q) && Collide(r, q);
  }

  /** Some other valid request shares the scoped key of a valid one iff a colon inside its requester id or its key can
      be taken for the separator. */
  lemma ScopedKeySharedIff(r: Request)
    requires ValidRequest(r)
    ensures (exists q :: ValidRequest(q) && Collide(r, q)) <==> Ambiguous(r)
  {
    if q :| ValidRequest(q) && Collide(r, q) {
      CollisionIsAmbiguous(r, q);
    }
    if i: nat :| 1 <= i < |r.requester| && r.requester[i] == ':' {
      ColonInRequester(r, i);
    } else if Ambiguous(r) {
      var i: nat :| i < |r.key| - 1 && r.key[i] == ':';
      ColonInKey(r, i);
    }
  }

  /** Moving a colon from the requester id into the key changes nothing. */
  lemma ScopedKeysCollide(kind: string, a: string, b: string, c: string, r: Request)
    ensures ScopedKey(r.(kind := kind, requester := a + ":" + b, key := c))
            == ScopedKey(r.(kind := kind, requester := a, key := b + ":" + c))
  {
    assert kind + ":" + (a + ":" + b) + ":" + c == kind + ":" + a + ":" + (b + ":" + c);
  }

  /** Among requesters without colons a scoped key names its requester and key. */
  lemma ScopedKeyInjective(r: Request, q: Request)
    requires NoColon(r.kind) && NoColon(q.kind) && NoColon(r.requester) && NoColon(q.requester)
    ensures ScopedKey(r) == ScopedKey(q) <==> r.kind == q.kind && r.requester == q.requester && r.key == q.key
  {
    if ScopedKey(r) == ScopedKey(q) {
      KeyParts(r);
      KeyParts(q);
      FirstColon(r.kind, q.kind, r.requester + ":" + r.key, q.requester + ":" + q.key);
      FirstColon(r.requester, q.requester, r.key, q.key);
    }
  }
}
