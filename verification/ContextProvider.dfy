/** Cache-aware context assembly: the renderer's message structure (`renderer.py`), the
    render dispatch (`manager.py`) and the per-run provider (`agent_loop_provider.py`).
    Rendered prose, hashing and the context sources are inputs of the model. */
module ContextProvider {
  import opened Common
  import opened Transcript

  datatype RenderMode = StartContext | DeltaContext | CheckpointContext | FullContext
  datatype SegmentKind = StablePrefix | ExecutionTranscript | DeltaSegment | CheckpointSegment | FullSegment

  datatype Segment = Segment(kind: SegmentKind, start: nat, end: nat, contentHash: string, stable: bool)

  datatype Rendered = Rendered(
    messages: seq<ChatMessage>,
    mode: RenderMode,
    segments: seq<Segment>,
    prefixHash: Option<string>)

  type Hash = seq<ChatMessage> -> string

  // ---- Renderer ----

  function MakeSegment(hash: Hash, kind: SegmentKind, ms: seq<ChatMessage>, start: nat, end: nat, stable: bool): Segment
    requires start <= end <= |ms|
  {
    Segment(kind, start, end, hash(ms[start..end]), stable)
  }

  function PrefixHashOf(hash: Hash, ms: seq<ChatMessage>): Option<string> {
    if |ms| < 2 then None else Some(hash(ms[..2]))
  }

  function RenderFull(hash: Hash, system: string, user: string, prior: seq<ChatMessage>): Rendered {
    var ms := [System(system), User(user)] + prior;
    Rendered(ms, FullContext, [MakeSegment(hash, FullSegment, ms, 0, |ms|, false)], None)
  }

  function RenderStart(hash: Hash, system: string, user: string, prior: seq<ChatMessage>): Rendered {
    var prefix := [System(system), User(user)];
    var ms := prefix + prior;
    Rendered(ms, StartContext,
             [MakeSegment(hash, StablePrefix, ms, 0, 2, true)]
             + (if prior == [] then [] else [MakeSegment(hash, ExecutionTranscript, ms, 2, |ms|, false)]),
             Some(hash(prefix)))
  }

  function TranscriptSegments(hash: Hash, ms: seq<ChatMessage>, end: nat): seq<Segment>
    requires end <= |ms|
  {
    if end == 0 then [] else [MakeSegment(hash, ExecutionTranscript, ms, 0, end, false)]
  }

  function RenderReused(hash: Hash, prior: seq<ChatMessage>): Rendered {
    Rendered(prior, DeltaContext, TranscriptSegments(hash, prior, |prior|), PrefixHashOf(hash, prior))
  }

  function RenderAppended(hash: Hash, text: string, prior: seq<ChatMessage>, mode: RenderMode,
                          kind: SegmentKind): Rendered {
    var ms := prior + [System(text)];
    Rendered(ms, mode,
             TranscriptSegments(hash, ms, |prior|) + [MakeSegment(hash, kind, ms, |prior|, |ms|, false)],
             PrefixHashOf(hash, prior))
  }

  /** What one context build yields: the collected context as texts and an interruption signature, or an exception. */
  datatype Build = BuildFailed | Built(system: string, user: string, text: string, signature: Option<string>)

  /** `_render_context`: an empty or missing reason turns a delta into a plain reuse of the transcript. */
  function RenderContext(hash: Hash, mode: RenderMode, reason: Option<string>, prior: seq<ChatMessage>,
                         b: Build): Rendered
    requires b.Built?
  {
    match mode
    case StartContext => RenderStart(hash, b.system, b.user, prior)
    case DeltaContext =>
      if reason.Some? && reason.value != "" then RenderAppended(hash, b.text, prior, DeltaContext, DeltaSegment)
      else RenderReused(hash, prior)
    case CheckpointContext => RenderAppended(hash, b.text, prior, CheckpointContext, CheckpointSegment)
    case FullContext => RenderFull(hash, b.system, b.user, prior)
  }

  /** Consecutive segments that start at `from` and end at `to`. */
  ghost predicate Tile(segments: seq<Segment>, from: nat, to: nat) {
    if segments == [] then from == to
    else segments[0].start == from < segments[0].end && Tile(segments[1..], segments[0].end, to)
  }

  /** Whatever is rendered, its segments cut the message list into consecutive non-empty pieces,
      each stamped with the hash of exactly its own messages. */
  lemma SegmentsTileTheMessages(hash: Hash, mode: RenderMode, reason: Option<string>, prior: seq<ChatMessage>, b: Build)
    requires b.Built?
    ensures var r := RenderContext(hash, mode, reason, prior, b);
            && Tile(r.segments, 0, |r.messages|)
            && forall s :: s in r.segments ==>
                 s.start <= s.end <= |r.messages| && s.contentHash == hash(r.messages[s.start..s.end])
  {
    var r := RenderContext(hash, mode, reason, prior, b);
    if |r.segments| >= 1 {
      assert Tile(r.segments[1..], r.segments[0].end, |r.messages|) by {
        if |r.segments| == 2 {
          assert r.segments[1..][1..] == [];
          assert r.segments[1..][0] == r.segments[1];
        }
      }
    }
  }

  /** What each mode shows: start and full contexts open with the system and user text; a delta with a reason and a
      checkpoint put one system message behind the transcript; a delta without one repeats it. The prefix hash is that
      of the first two messages, and a full context has none. Only the opening of a start context is marked stable. */
  lemma RenderedAs(hash: Hash, mode: RenderMode, reason: Option<string>, prior: seq<ChatMessage>, b: Build)
    requires b.Built?
    ensures var r := RenderContext(hash, mode, reason, prior, b);
            var explained := reason.Some? && reason.value != "";
            && r.mode == mode
            && (mode.StartContext? || mode.FullContext? ==> r.messages == [System(b.system), User(b.user)] + prior)
            && (mode.CheckpointContext? || (mode.DeltaContext? && explained) ==> r.messages == prior + [System(b.text)])
            && (mode.DeltaContext? && !explained ==> r.messages == prior)
            && (mode.FullContext? ==> r.prefixHash.None?)
            && (mode.StartContext? ==> r.prefixHash == Some(hash([System(b.system), User(b.user)])))
            && (mode.DeltaContext? || mode.CheckpointContext? ==>
                  r.prefixHash == if |prior| < 2 then None else Some(hash(prior[..2])))
            && (forall s :: s in r.segments ==> (s.stable <==> s.kind.StablePrefix?))
            && (mode.StartContext? ==> |r.segments| > 0 && r.segments[0].kind.StablePrefix? && r.segments[0].end == 2)
            && (mode.CheckpointContext? ==> |r.segments| > 0 && r.segments[|r.segments| - 1].kind.CheckpointSegment?)
            && (mode.DeltaContext? && explained ==>
                  |r.segments| > 0 && r.segments[|r.segments| - 1].kind.DeltaSegment?)
  {
  }

  // ---- Provider ----

  datatype TriggerMode = DeltaTrigger | CheckpointTrigger
  datatype Trigger = Trigger(mode: TriggerMode, reason: string) {
    function Render(): RenderMode { if mode.DeltaTrigger? then DeltaContext else CheckpointContext }
  }

  datatype RunState = RunState(
    initialized: bool,
    prefixHash: Option<string>,
    lastCheckpoint: int,
    appendedCount: nat,
    lastDeltaHash: Option<string>,
    lastPending: nat,
    lastSignature: Option<string>)

  datatype Config = Config(hash: Hash, interval: int)

  datatype Request = Request(turn: nat, loopMessages: seq<ChatMessage>, pendingCount: nat)

  /** The outside world during one call: up to two context builds and the extra trigger evaluators' answers. */
  datatype World = World(first: Build, second: Build, evaluators: seq<Option<Trigger>>)

  datatype CallResult =
    | CallFailed
    | Call(messages: seq<ChatMessage>,
           appended: seq<ChatMessage>,
           mode: RenderMode,
           prefixHash: Option<string>,
           deltaReason: Option<string>,
           checkpointReason: Option<string>)

  function AppendedContextMessages(before: seq<ChatMessage>, after: seq<ChatMessage>): seq<ChatMessage> {
    if |after| <= |before| then []
    else if after[..|before|] != before then []
    else after[|before|..]
  }

  function OrElse<T>(x: Option<T>, y: Option<T>): Option<T> { if x.Some? then x else y }

  function FirstTrigger(answers: seq<Option<Trigger>>): Option<Trigger> {
    if answers == [] then None else if answers[0].Some? then answers[0] else FirstTrigger(answers[1..])
  }

  const DIGITS: string := "0123456789"

  function Decimal(n: nat): string {
    if n < 10 then [DIGITS[n]] else Decimal(n / 10) + [DIGITS[n % 10]]
  }

  /** The reason given for a checkpoint that the interval asks for. */
  function IntervalReason(interval: nat): string { "interval:" + Decimal(interval) }

  function NextTrigger(cfg: Config, req: Request, st: RunState, answers: seq<Option<Trigger>>): Option<Trigger> {
    if cfg.interval > 0 && req.turn - st.lastCheckpoint >= cfg.interval
    then Some(Trigger(CheckpointTrigger, IntervalReason(cfg.interval)))
    else FirstTrigger(answers)
  }

  function PrepareStart(cfg: Config, req: Request, b: Build): (Option<RunState>, CallResult) {
    if b.BuildFailed? then (None, CallFailed)
    else
      var r := RenderContext(cfg.hash, StartContext, None, [], b);
      (Some(RunState(true, r.prefixHash, 0, 0, None, req.pendingCount, b.signature)),
       Call(r.messages, [], r.mode, r.prefixHash, None, None))
  }

  function PrepareTriggered(cfg: Config, req: Request, st: RunState, t: Trigger, b: Build)
    : (Option<RunState>, CallResult)
  {
    if b.BuildFailed? then (Some(st), CallFailed)
    else
      var r := RenderContext(cfg.hash, t.Render(), Some(t.reason), req.loopMessages, b);
      var appended := AppendedContextMessages(req.loopMessages, r.messages);
      (Some(st.(lastCheckpoint := if t.mode.CheckpointTrigger? then req.turn else st.lastCheckpoint,
                appendedCount := st.appendedCount + |appended|,
                lastDeltaHash := if t.mode.DeltaTrigger? then Some(cfg.hash(r.messages)) else st.lastDeltaHash,
                lastPending := req.pendingCount,
                lastSignature := b.signature)),
       Call(r.messages, appended, r.mode, OrElse(r.prefixHash, st.prefixHash),
            if t.mode.DeltaTrigger? then Some(t.reason) else None,
            if t.mode.CheckpointTrigger? then Some(t.reason) else None))
  }

  function PrepareReuse(cfg: Config, req: Request, st: RunState, w: World): (Option<RunState>, CallResult) {
    if w.first.BuildFailed? then (Some(st), CallFailed)
    else
      var r := RenderContext(cfg.hash, DeltaContext, None, req.loopMessages, w.first);
      if w.first.signature.Some? && w.first.signature != st.lastSignature then
        PrepareTriggered(cfg, req, st, Trigger(DeltaTrigger, "interrupt_requested"), w.second)
      else
        (Some(st.(lastPending := req.pendingCount, lastSignature := w.first.signature)),
         Call(r.messages, [], r.mode, OrElse(r.prefixHash, st.prefixHash), None, None))
  }

  /** `prepare_llm_call` for one run: its next state and what the loop gets back. */
  function Prepare(cfg: Config, st: Option<RunState>, req: Request, w: World): (Option<RunState>, CallResult) {
    if st.None? || !st.value.initialized then
      var (s, r) := PrepareStart(cfg, req, w.first);
      (if r.CallFailed? then st else s, r)
    else
      var t := NextTrigger(cfg, req, st.value, w.evaluators);
      if t.Some? then PrepareTriggered(cfg, req, st.value, t.value, w.first)
      else PrepareReuse(cfg, req, st.value, w)
  }

  /** After the start context every call hands back the loop's messages unchanged, followed by at most one
      context message; the reported prefix hash and the bookkeeping follow. */
  lemma PrepareOnlyAppends(cfg: Config, st: RunState, req: Request, w: World)
    requires st.initialized
    requires 2 <= |req.loopMessages| && st.prefixHash == Some(cfg.hash(req.loopMessages[..2]))
    ensures var (s, r) := Prepare(cfg, Some(st), req, w);
            && s.Some? && s.value.initialized && s.value.prefixHash == st.prefixHash
            && (r.Call? ==>
                  && r.messages == req.loopMessages + r.appended
                  && (r.appended == [] || (|r.appended| == 1 && r.appended[0].System?))
                  && r.prefixHash == st.prefixHash
                  && s.value.appendedCount == st.appendedCount + |r.appended|
                  && s.value.lastCheckpoint == (if r.checkpointReason.Some? then req.turn else st.lastCheckpoint)
                  && (r.checkpointReason.Some? ==> r.mode.CheckpointContext? && |r.appended| == 1))
  {
    var loop := req.loopMessages;
    assert AppendedContextMessages(loop, loop) == [] && loop + [] == loop;
    forall text: string ensures AppendedContextMessages(loop, loop + [System(text)]) == [System(text)] {
      assert (loop + [System(text)])[..|loop|] == loop;
    }
  }

  // ---- What a call does ----

  /** A due interval asks for a checkpoint, whatever the evaluators say; otherwise the first evaluator that answers
      decides, and without one there is no trigger. */
  lemma TriggerChosen(cfg: Config, req: Request, st: RunState, answers: seq<Option<Trigger>>, i: nat)
    ensures cfg.interval > 0 && req.turn - st.lastCheckpoint >= cfg.interval ==>
              NextTrigger(cfg, req, st, answers) ==
              Some(Trigger(CheckpointTrigger, "interval:" + Decimal(cfg.interval)))
    ensures !(cfg.interval > 0 && req.turn - st.lastCheckpoint >= cfg.interval) ==>
              && (i < |answers| && answers[i].Some? && (forall j :: 0 <= j < i ==> answers[j].None?) ==>
                    NextTrigger(cfg, req, st, answers) == answers[i])
              && ((forall j :: 0 <= j < |answers| ==> answers[j].None?) ==> NextTrigger(cfg, req, st, answers).None?)
  {
    FirstTriggerIs(answers, i);
  }

  function ReadDecimal(s: string): nat {
    if s == [] then 0
    else if '0' <= s[|s| - 1] <= '9' then 10 * ReadDecimal(s[..|s| - 1]) + (s[|s| - 1] as int - '0' as int)
    else 0
  }

  /** The reason names the interval. */
  lemma {:induction false} DecimalReads(n: nat)
    ensures ReadDecimal(Decimal(n)) == n
  {
    assert DIGITS[n % 10] as int == '0' as int + n % 10;
    if n < 10 {
      assert Decimal(n)[..0] == [];
    } else {
      DecimalReads(n / 10);
      assert Decimal(n)[..|Decimal(n)| - 1] == Decimal(n / 10);
    }
  }

  lemma {:induction false} FirstTriggerIs(answers: seq<Option<Trigger>>, i: nat)
    ensures i < |answers| && answers[i].Some? && (forall j :: 0 <= j < i ==> answers[j].None?) ==>
              FirstTrigger(answers) == answers[i]
    ensures (forall j :: 0 <= j < |answers| ==> answers[j].None?) ==> FirstTrigger(answers).None?
  {
    if answers != [] {
      FirstTriggerIs(answers[1..], if i > 0 then i - 1 else 0);
    }
  }

  /** The first call of a run replaces the loop's messages by the system and user text of the context. */
  lemma StartDoes(cfg: Config, st: Option<RunState>, req: Request, w: World)
    requires st.None? || !st.value.initialized
    ensures var (s, r) := Prepare(cfg, st, req, w);
            && (r.CallFailed? <==> w.first.BuildFailed?)
            && (r.CallFailed? ==> s == st)
            && (r.Call? ==>
                  && r.messages == [System(w.first.system), User(w.first.user)] && r.appended == []
                  && r.mode == StartContext && r.deltaReason.None? && r.checkpointReason.None?
                  && r.prefixHash == Some(cfg.hash(r.messages))
                  && s == Some(RunState(true, r.prefixHash, 0, 0, None, req.pendingCount, w.first.signature)))
  {
    if w.first.Built? {
      assert [System(w.first.system), User(w.first.user)] + [] == [System(w.first.system), User(w.first.user)];
    }
  }

  /** The prefix hash of a call after the first: that of the transcript's first two messages, or the one kept from the
      start when there are fewer. */
  function KnownPrefix(cfg: Config, st: RunState, req: Request): Option<string> {
    if |req.loopMessages| >= 2 then Some(cfg.hash(req.loopMessages[..2])) else st.prefixHash
  }

  /** A triggered call puts the context text behind the transcript - not for a delta without a reason - and says why;
      the entry follows. A failed build changes nothing. */
  lemma TriggeredDoes(cfg: Config, st: RunState, req: Request, w: World, t: Trigger)
    requires st.initialized && NextTrigger(cfg, req, st, w.evaluators) == Some(t)
    ensures var (s, r) := Prepare(cfg, Some(st), req, w);
            var added := if w.first.BuildFailed? || (t.mode.DeltaTrigger? && t.reason == "") then []
                         else [System(w.first.text)];
            && (r.CallFailed? <==> w.first.BuildFailed?)
            && (r.CallFailed? ==> s == Some(st))
            && (r.Call? ==>
                  && r.messages == req.loopMessages + added && r.appended == added
                  && r.mode == (if t.mode.DeltaTrigger? then DeltaContext else CheckpointContext)
                  && r.prefixHash == KnownPrefix(cfg, st, req)
                  && r.deltaReason == (if t.mode.DeltaTrigger? then Some(t.reason) else None)
                  && r.checkpointReason == (if t.mode.CheckpointTrigger? then Some(t.reason) else None)
                  && s == Some(RunState(true, st.prefixHash,
                                        if t.mode.CheckpointTrigger? then req.turn else st.lastCheckpoint,
                                        st.appendedCount + |added|,
                                        if t.mode.DeltaTrigger? then Some(cfg.hash(r.messages)) else st.lastDeltaHash,
                                        req.pendingCount, w.first.signature)))
  {
    Extends(req.loopMessages, w);
  }

  /** Without a trigger the transcript is reused - unless the context shows an interruption the entry does not know yet:
      then a second build puts one delta behind it. Either way the entry ends up knowing what was last shown. */
  lemma ReuseDoes(cfg: Config, st: RunState, req: Request, w: World)
    requires st.initialized && NextTrigger(cfg, req, st, w.evaluators).None?
    ensures var (s, r) := Prepare(cfg, Some(st), req, w);
            var news := w.first.Built? && w.first.signature.Some? && w.first.signature != st.lastSignature;
            && (r.CallFailed? <==> w.first.BuildFailed? || (news && w.second.BuildFailed?))
            && (r.CallFailed? ==> s == Some(st))
            && (r.Call? && !news ==>
                  && r.messages == req.loopMessages && r.appended == [] && r.mode == DeltaContext
                  && r.prefixHash == KnownPrefix(cfg, st, req)
                  && r.deltaReason.None? && r.checkpointReason.None?
                  && s == Some(st.(lastPending := req.pendingCount, lastSignature := w.first.signature)))
            && (r.Call? && news ==>
                  && r.messages == req.loopMessages + [System(w.second.text)] && r.appended == [System(w.second.text)]
                  && r.mode == DeltaContext && r.deltaReason == Some("interrupt_requested") && r.checkpointReason.None?
                  && r.prefixHash == KnownPrefix(cfg, st, req)
                  && s == Some(RunState(true, st.prefixHash, st.lastCheckpoint, st.appendedCount + 1,
                                        Some(cfg.hash(r.messages)), req.pendingCount, w.second.signature)))
  {
    Extends(req.loopMessages, w);
  }

  lemma Extends(loop: seq<ChatMessage>, w: World)
    ensures AppendedContextMessages(loop, loop) == [] && loop + [] == loop
    ensures forall text: string :: AppendedContextMessages(loop, loop + [System(text)]) == [System(text)]
  {
    forall text: string ensures AppendedContextMessages(loop, loop + [System(text)]) == [System(text)] {
      assert (loop + [System(text)])[..|loop|] == loop;
    }
  }

  /** The run's entry agrees with what was sent so far: nothing yet, or a two-message prefix of `messages`. */
  ghost predicate InStep(hash: Hash, st: Option<RunState>, sent: seq<seq<ChatMessage>>, messages: seq<ChatMessage>) {
    && (sent == [] ==> st.None?)
    && (sent != [] ==>
          && st.Some? && st.value.initialized
          && |sent[0]| == 2 && sent[0] <= messages
          && st.value.prefixHash == Some(hash(sent[0])))
  }

  /** A call keeps the entry in step, reports the hash of the first prefix, never shortens the transcript after the
      first call, and never breaks a complete one. */
  lemma PrepareKeepsStep(cfg: Config, st: Option<RunState>, req: Request, w: World, sent: seq<seq<ChatMessage>>)
    requires InStep(cfg.hash, st, sent, req.loopMessages) && Complete(req.loopMessages)
    ensures var (s, r) := Prepare(cfg, st, req, w);
            r.Call? ==>
              && InStep(cfg.hash, s, sent + [r.messages], r.messages)
              && r.prefixHash == Some(cfg.hash((sent + [r.messages])[0]))
              && (sent != [] ==> req.loopMessages <= r.messages)
              && Complete(r.messages)
  {
    if sent == [] {
      if w.first.Built? {
        var prefix := [System(w.first.system), User(w.first.user)];
        assert prefix + [] == prefix && [] + [prefix] == [prefix];
        assert prefix[..1] == [System(w.first.system)] && prefix[..1][..0] == [];
        assert Outstanding(prefix[..1]) == Some([]);
      }
    } else {
      var loop := req.loopMessages;
      assert loop[..2] == sent[0];
      PrepareOnlyAppends(cfg, st.value, req, w);
      var (s, r) := Prepare(cfg, st, req, w);
      if r.Call? {
        if |r.appended| == 1 {
          assert r.appended == [r.appended[0]];
          OutstandingAppend(loop, r.appended[0]);
        }
        assert (sent + [r.messages])[0] == sent[0];
      }
    }
  }

  class SessionAgentLoopContextProvider {
    const cfg: Config
    var runStates: map<string, RunState>

    constructor (cfg: Config)
      ensures this.cfg == cfg && runStates == map[]
    {
      this.cfg := cfg;
      runStates := map[];
    }

    function StateOf(runId: string): Option<RunState>
      reads this
    {
      if runId in runStates then Some(runStates[runId]) else None
    }

    method FindTrigger(req: Request, st: RunState, answers: seq<Option<Trigger>>) returns (t: Option<Trigger>)
      ensures t == NextTrigger(cfg, req, st, answers)
    {
      if cfg.interval > 0 && req.turn - st.lastCheckpoint >= cfg.interval {
        return Some(Trigger(CheckpointTrigger, IntervalReason(cfg.interval)));
      }
      assert answers[0..] == answers;
      for i := 0 to |answers|
        invariant FirstTrigger(answers) == FirstTrigger(answers[i..])
      {
        if answers[i].Some? {
          return answers[i];
        }
        assert answers[i..][1..] == answers[i + 1..];
      }
      t := None;
    }

    /** The dictionary entry of this run moves as `Prepare` says; no other run's entry is touched. */
    method PrepareLlmCall(runId: string, req: Request, w: World) returns (r: CallResult)
      modifies this
      ensures (StateOf(runId), r) == Prepare(cfg, old(StateOf(runId)), req, w)
      ensures runStates - {runId} == old(runStates) - {runId}
    {
      var next: Option<RunState>;
      if runId !in runStates || !runStates[runId].initialized {
        var p := PrepareStart(cfg, req, w.first);
        next, r := p.0, p.1;
      } else {
        var st := runStates[runId];
        var t := FindTrigger(req, st, w.evaluators);
        var p := if t.Some? then PrepareTriggered(cfg, req, st, t.value, w.first) else PrepareReuse(cfg, req, st, w);
        next, r := p.0, p.1;
      }
      if r.Call? && next.Some? {
        runStates := runStates[runId := next.value];
      }
    }
  }

  // ---- Whole runs ----

  /** One turn of the loop: what it appended since the last call, and the world it then meets. */
  datatype LoopTurn = LoopTurn(appended: seq<ChatMessage>, pendingCount: nat, world: World)

  datatype Trace = Trace(
    state: Option<RunState>,
    messages: seq<ChatMessage>,
    sent: seq<seq<ChatMessage>>,
    hashes: seq<Option<string>>,
    checkpoints: seq<nat>,
    inserted: nat,
    failed: bool)

  function InitialTrace(task: seq<ChatMessage>): Trace { Trace(None, task, [], [], [], 0, false) }

  /** Turns are numbered from 1; a failed build ends the run. */
  function NextTurn(cfg: Config, t: Trace, turn: LoopTurn): Trace {
    if t.failed then t
    else
      var n := |t.sent| + 1;
      var (s, r) := Prepare(cfg, t.state, Request(n, t.messages + turn.appended, turn.pendingCount), turn.world);
      if r.CallFailed? then t.(state := s, failed := true)
      else Trace(s, r.messages, t.sent + [r.messages], t.hashes + [r.prefixHash],
                 t.checkpoints + (if r.checkpointReason.Some? then [n] else []),
                 t.inserted + |r.appended|, false)
  }

  function RunTurns(cfg: Config, task: seq<ChatMessage>, turns: seq<LoopTurn>): Trace {
    if turns == [] then InitialTrace(task)
    else NextTurn(cfg, RunTurns(cfg, task, turns[..|turns| - 1]), turns[|turns| - 1])
  }

  function LastCheckpoint(t: Trace): int { if t.state.Some? then t.state.value.lastCheckpoint else 0 }

  ghost predicate AppendOnly(sent: seq<seq<ChatMessage>>) {
    forall i, j :: 0 <= i <= j < |sent| ==> sent[i] <= sent[j]
  }

  ghost predicate CachedTranscript(cfg: Config, t: Trace) {
    && |t.hashes| == |t.sent|
    && AppendOnly(t.sent)
    && (t.sent == [] ==> t.state.None? && t.inserted == 0)
    && (t.sent != [] ==>
          && |t.sent[0]| == 2
          && (forall i :: 0 <= i < |t.hashes| ==> t.hashes[i] == Some(cfg.hash(t.sent[0])))
          && t.messages == t.sent[|t.sent| - 1]
          && t.state.Some? && t.state.value.initialized
          && t.state.value.prefixHash == Some(cfg.hash(t.sent[0]))
          && t.state.value.appendedCount == t.inserted)
  }

  /** What one more turn does to the trace of a run that has not failed. */
  lemma NextTurnShape(cfg: Config, t: Trace, turn: LoopTurn)
    requires CachedTranscript(cfg, t) && !t.failed
    ensures var u := NextTurn(cfg, t, turn);
            var due := cfg.interval > 0 && |t.sent| + 1 - LastCheckpoint(t) >= cfg.interval;
            && (u.failed ==>
                  u.sent == t.sent && u.hashes == t.hashes && u.inserted == t.inserted && u.messages == t.messages
                  && u.checkpoints == t.checkpoints && u.state == t.state)
            && (!u.failed ==>
                  && u.sent == t.sent + [u.messages] && u.state.Some? && u.state.value.initialized
                  && u.hashes == t.hashes + [u.state.value.prefixHash]
                  && LastCheckpoint(u) == (if |u.checkpoints| > |t.checkpoints| then |u.sent| else LastCheckpoint(t))
                  && u.checkpoints == t.checkpoints + (if |u.checkpoints| > |t.checkpoints| then [|u.sent|] else [])
                  && (t.sent != [] && due ==> |u.checkpoints| > |t.checkpoints|)
                  && (t.sent != [] && !due && FirstTrigger(turn.world.evaluators).None? ==>
                      u.checkpoints == t.checkpoints))
            && (!u.failed && t.sent == [] ==>
                  && |u.messages| == 2 && u.state.value.prefixHash == Some(cfg.hash(u.messages))
                  && u.checkpoints == t.checkpoints
                  && u.inserted == u.state.value.appendedCount == 0)
            && (!u.failed && t.sent != [] ==>
                  && t.messages + turn.appended <= u.messages
                  && |u.messages| - |t.messages + turn.appended| == u.inserted - t.inserted <= 1
                  && u.state.value.prefixHash == t.state.value.prefixHash
                  && u.state.value.appendedCount - t.state.value.appendedCount == u.inserted - t.inserted)
  {
    var req := Request(|t.sent| + 1, t.messages + turn.appended, turn.pendingCount);
    if t.sent == [] {
      if turn.world.first.Built? {
        var prefix := [System(turn.world.first.system), User(turn.world.first.user)];
        assert prefix + [] == prefix;
      }
    } else {
      assert t.sent[0] <= t.messages;
      assert req.loopMessages[..2] == t.sent[0];
      PrepareOnlyAppends(cfg, t.state.value, req, turn.world);
    }
  }

  lemma NextTurnCached(cfg: Config, t: Trace, turn: LoopTurn)
    requires CachedTranscript(cfg, t)
    ensures CachedTranscript(cfg, NextTurn(cfg, t, turn))
  {
    if !t.failed {
      NextTurnShape(cfg, t, turn);
      var u := NextTurn(cfg, t, turn);
      if !u.failed && t.sent != [] {
        forall i | 0 <= i < |t.sent| ensures t.sent[i] <= u.messages {
          assert t.sent[i] <= t.messages <= t.messages + turn.appended;
        }
      }
    }
  }

  /** In every run the messages of each call extend those of every earlier call, every call reports the
      prefix hash of call 1, and `appended_context_message_count` counts the inserted context messages. */
  lemma {:induction false} CachedRun(cfg: Config, task: seq<ChatMessage>, turns: seq<LoopTurn>)
    ensures CachedTranscript(cfg, RunTurns(cfg, task, turns))
  {
    if turns != [] {
      CachedRun(cfg, task, turns[..|turns| - 1]);
      NextTurnCached(cfg, RunTurns(cfg, task, turns[..|turns| - 1]), turns[|turns| - 1]);
    }
  }

  /** Nothing the loop appended after the first call is dropped: call n+1 sends call n's messages, then exactly
      what the loop appended since, then at most one context message. */
  lemma NothingDropped(cfg: Config, task: seq<ChatMessage>, turns: seq<LoopTurn>, turn: LoopTurn)
    ensures var t := RunTurns(cfg, task, turns);
            var u := RunTurns(cfg, task, turns + [turn]);
            t.sent != [] && |u.sent| > |t.sent| ==>
              && u.sent[..|t.sent|] == t.sent
              && |u.sent| == |t.sent| + 1
              && t.sent[|t.sent| - 1] + turn.appended <= u.sent[|t.sent|]
              && |u.sent[|t.sent|]| - |t.sent[|t.sent| - 1] + turn.appended| == u.inserted - t.inserted <= 1
  {
    assert (turns + [turn])[..|turns|] == turns;
    CachedRun(cfg, task, turns);
    var t := RunTurns(cfg, task, turns);
    if !t.failed {
      NextTurnShape(cfg, t, turn);
    }
  }

  /** A run that goes on from a trace. */
  function RunMore(cfg: Config, t: Trace, turns: seq<LoopTurn>): Trace {
    if turns == [] then t else NextTurn(cfg, RunMore(cfg, t, turns[..|turns| - 1]), turns[|turns| - 1])
  }

  /** Every build of the turn succeeds and shows this interruption, or none, and no evaluator answers. */
  predicate Shows(turn: LoopTurn, signature: Option<string>) {
    && turn.world.first.Built? && turn.world.second.Built? && FirstTrigger(turn.world.evaluators).None?
    && turn.world.first.signature == signature && turn.world.second.signature == signature
  }

  /** While an interruption stays up, and no checkpoint falls due, it inserts one delta at its first call and none after
      that; one that is known already inserts none, and neither does the absence of one. */
  lemma {:induction false} OneDeltaPerInterruption(cfg: Config, t: Trace, turns: seq<LoopTurn>,
                                                    signature: Option<string>)
    requires CachedTranscript(cfg, t) && !t.failed && t.sent != []
    requires forall i :: 0 <= i < |turns| ==> Shows(turns[i], signature)
    requires cfg.interval <= 0 || |t.sent| + |turns| - LastCheckpoint(t) < cfg.interval
    ensures var u := RunMore(cfg, t, turns);
            && !u.failed && CachedTranscript(cfg, u) && |u.sent| == |t.sent| + |turns|
            && LastCheckpoint(u) == LastCheckpoint(t)
            && (turns != [] ==> u.state.value.lastSignature == signature)
            && u.inserted == t.inserted
                             + if turns != [] && signature.Some? && signature != t.state.value.lastSignature
                               then 1 else 0
  {
    if turns != [] {
      var front, turn := turns[..|turns| - 1], turns[|turns| - 1];
      OneDeltaPerInterruption(cfg, t, front, signature);
      var v := RunMore(cfg, t, front);
      NextTurnCached(cfg, v, turn);
      ReuseDoes(cfg, v.state.value, Request(|v.sent| + 1, v.messages + turn.appended, turn.pendingCount), turn.world);
    }
  }

  // ---- Checkpoint schedule ----

  /** The checkpoints are increasing turns, each at most `k` after the one before (the first counted from 0),
      and the last turn is less than `k` after the last checkpoint. */
  ghost predicate Scheduled(checkpoints: seq<nat>, last: int, turn: nat, k: int) {
    && (if checkpoints == [] then last == 0 else last == checkpoints[|checkpoints| - 1])
    && last <= turn && (turn > 0 ==> turn - last < k)
    && (checkpoints != [] ==> 0 < checkpoints[0] <= k)
    && forall i :: 0 <= i < |checkpoints| - 1 ==> 0 < checkpoints[i + 1] - checkpoints[i] <= k
  }

  /** How one turn moves the schedule: not at all if it failed, else to the next turn, with a checkpoint there or not;
      an overdue one is never missed after the first turn, and without extra evaluators none comes early. */
  ghost predicate Moved(cfg: Config, t: Trace, turn: LoopTurn, u: Trace) {
    if u.failed then u.checkpoints == t.checkpoints && LastCheckpoint(u) == LastCheckpoint(t) && |u.sent| == |t.sent|
    else
      && |u.sent| == |t.sent| + 1
      && (|| (u.checkpoints == t.checkpoints && LastCheckpoint(u) == LastCheckpoint(t)
              && (t.sent != [] && cfg.interval > 0 ==> |u.sent| - LastCheckpoint(t) < cfg.interval))
          || (u.checkpoints == t.checkpoints + [|u.sent|] && LastCheckpoint(u) == |u.sent| && t.sent != []
              && (FirstTrigger(turn.world.evaluators).None? && cfg.interval > 0 ==>
                    |u.sent| - LastCheckpoint(t) >= cfg.interval)))
  }

  lemma NextTurnMoves(cfg: Config, t: Trace, turn: LoopTurn)
    requires CachedTranscript(cfg, t) && !t.failed
    ensures Moved(cfg, t, turn, NextTurn(cfg, t, turn))
  {
    NextTurnShape(cfg, t, turn);
  }

  lemma ScheduleMoves(cfg: Config, t: Trace, turn: LoopTurn, u: Trace)
    requires cfg.interval >= 2 && Moved(cfg, t, turn, u)
    requires Scheduled(t.checkpoints, LastCheckpoint(t), |t.sent|, cfg.interval)
    requires t.sent == [] ==> LastCheckpoint(t) == 0
    ensures Scheduled(u.checkpoints, LastCheckpoint(u), |u.sent|, cfg.interval)
  {
  }

  /** With interval k >= 2 no two checkpoints of any run are more than k turns apart, whatever the extra evaluators
      and interruptions do. */
  lemma {:induction false} CheckpointGaps(cfg: Config, task: seq<ChatMessage>, turns: seq<LoopTurn>)
    requires cfg.interval >= 2
    ensures var t := RunTurns(cfg, task, turns);
            Scheduled(t.checkpoints, LastCheckpoint(t), |t.sent|, cfg.interval)
  {
    if turns != [] {
      var front, turn := turns[..|turns| - 1], turns[|turns| - 1];
      CheckpointGaps(cfg, task, front);
      CachedRun(cfg, task, front);
      var t := RunTurns(cfg, task, front);
      if !t.failed {
        NextTurnMoves(cfg, t, turn);
        ScheduleMoves(cfg, t, turn, NextTurn(cfg, t, turn));
      }
    }
  }

  /** No run has a checkpoint before turn 2, because the first call renders the start context. */
  ghost predicate Late(t: Trace) {
    && LastCheckpoint(t) <= |t.sent|
    && (t.checkpoints == [] ==> LastCheckpoint(t) == 0) && (t.checkpoints != [] ==> t.checkpoints[0] >= 2)
  }

  lemma LateMoves(cfg: Config, t: Trace, turn: LoopTurn, u: Trace)
    requires Late(t) && Moved(cfg, t, turn, u)
    ensures Late(u)
  {
  }

  lemma {:induction false} CheckpointsLate(cfg: Config, task: seq<ChatMessage>, turns: seq<LoopTurn>)
    ensures Late(RunTurns(cfg, task, turns))
  {
    if turns != [] {
      var front, turn := turns[..|turns| - 1], turns[|turns| - 1];
      CheckpointsLate(cfg, task, front);
      CachedRun(cfg, task, front);
      var t := RunTurns(cfg, task, front);
      if !t.failed {
        NextTurnMoves(cfg, t, turn);
        LateMoves(cfg, t, turn, NextTurn(cfg, t, turn));
      }
    }
  }

  /** The gap bound holds of a run iff the interval is at least 2, or the run made no call at all. */
  lemma CheckpointGapsIff(cfg: Config, task: seq<ChatMessage>, turns: seq<LoopTurn>)
    ensures var t := RunTurns(cfg, task, turns);
            Scheduled(t.checkpoints, LastCheckpoint(t), |t.sent|, cfg.interval) <==> cfg.interval >= 2 || t.sent == []
  {
    CheckpointsLate(cfg, task, turns);
    if cfg.interval >= 2 {
      CheckpointGaps(cfg, task, turns);
    } else {
      NoCallNoCheckpoint(cfg, task, turns);
    }
  }

  lemma {:induction false} NoCallNoCheckpoint(cfg: Config, task: seq<ChatMessage>, turns: seq<LoopTurn>)
    ensures RunTurns(cfg, task, turns).sent == [] ==>
              RunTurns(cfg, task, turns).checkpoints == [] && LastCheckpoint(RunTurns(cfg, task, turns)) == 0
  {
    if turns != [] {
      var front := turns[..|turns| - 1];
      NoCallNoCheckpoint(cfg, task, front);
      CachedRun(cfg, task, front);
      var t := RunTurns(cfg, task, front);
      if !t.failed {
        NextTurnMoves(cfg, t, turns[|turns| - 1]);
      }
    }
  }

  /** The run's entry after `prepared` calls: it counts the context messages inserted, and with an interval of 2 or more
      the checkpoints so far are on schedule. */
  ghost predicate OnSchedule(cfg: Config, st: Option<RunState>, checkpoints: seq<nat>, prepared: nat, inserted: nat) {
    if prepared == 0 then st.None? && checkpoints == [] && inserted == 0
    else
      && st.Some? && st.value.initialized && st.value.appendedCount == inserted
      && (cfg.interval >= 2 ==> Scheduled(checkpoints, st.value.lastCheckpoint, prepared, cfg.interval))
  }

  /** One more call keeps the entry on schedule; a failed one leaves it alone. */
  lemma PrepareOnSchedule(cfg: Config, st: Option<RunState>, req: Request, w: World, sent: seq<seq<ChatMessage>>,
                          checkpoints: seq<nat>, inserted: nat)
    requires OnSchedule(cfg, st, checkpoints, |sent|, inserted) && InStep(cfg.hash, st, sent, req.loopMessages)
    requires req.turn == |sent| + 1
    ensures var (s, r) := Prepare(cfg, st, req, w);
            && (r.CallFailed? ==> s == st)
            && (r.Call? ==>
                  OnSchedule(cfg, s, checkpoints + (if r.checkpointReason.Some? then [req.turn] else []), req.turn,
                             inserted + |r.appended|))
  {
    if sent != [] {
      assert req.loopMessages[..2] == sent[0];
      PrepareOnlyAppends(cfg, st.value, req, w);
      var t := NextTrigger(cfg, req, st.value, w.evaluators);
      if cfg.interval >= 2 && req.turn - st.value.lastCheckpoint >= cfg.interval {
        assert t == Some(Trigger(CheckpointTrigger, IntervalReason(cfg.interval)));
      }
    }
  }

  ghost predicate NoEvaluators(turns: seq<LoopTurn>) {
    forall i :: 0 <= i < |turns| ==> FirstTrigger(turns[i].world.evaluators).None?
  }

  /** `checkpoints` is k, 2k, 3k, ... up to `turn`. */
  ghost predicate AllMultiples(checkpoints: seq<nat>, turn: nat, k: int) {
    && |checkpoints| * k <= turn < (|checkpoints| + 1) * k
    && forall i :: 0 <= i < |checkpoints| ==> checkpoints[i] == (i + 1) * k
  }

  lemma MultiplesMove(cfg: Config, t: Trace, turn: LoopTurn, u: Trace)
    requires cfg.interval >= 2 && Moved(cfg, t, turn, u)
    requires FirstTrigger(turn.world.evaluators).None?
    requires Scheduled(t.checkpoints, LastCheckpoint(t), |t.sent|, cfg.interval)
    requires AllMultiples(t.checkpoints, |t.sent|, cfg.interval)
    requires t.sent == [] ==> LastCheckpoint(t) == 0
    ensures AllMultiples(u.checkpoints, |u.sent|, cfg.interval)
  {
    var k, c := cfg.interval, |t.checkpoints|;
    assert LastCheckpoint(t) == c * k;
    assert (c + 1) * k == c * k + k && (c + 2) * k == c * k + 2 * k;
  }

  /** With no extra evaluator the checkpoints are exactly the multiples of the interval. */
  lemma {:induction false} CheckpointsAreMultiples(cfg: Config, task: seq<ChatMessage>, turns: seq<LoopTurn>)
    requires cfg.interval >= 2 && NoEvaluators(turns)
    ensures var t := RunTurns(cfg, task, turns);
            AllMultiples(t.checkpoints, |t.sent|, cfg.interval)
  {
    if turns != [] {
      var front, turn := turns[..|turns| - 1], turns[|turns| - 1];
      CheckpointsAreMultiples(cfg, task, front);
      CachedRun(cfg, task, front);
      CheckpointGaps(cfg, task, front);
      var t := RunTurns(cfg, task, front);
      if !t.failed {
        NextTurnMoves(cfg, t, turn);
        MultiplesMove(cfg, t, turn, NextTurn(cfg, t, turn));
      }
    }
  }

  /** For interval 1 the bound is false: the first turn renders the start context, so the first checkpoint of any
      run that reaches turn 2 is turn 2. */
  lemma IntervalOneMissesTurnOne(cfg: Config, task: seq<ChatMessage>, a: LoopTurn, b: LoopTurn)
    requires cfg.interval == 1 && a.world.first.Built? && b.world.first.Built?
    ensures RunTurns(cfg, task, [a, b]).checkpoints == [2]
    ensures !Scheduled(RunTurns(cfg, task, [a, b]).checkpoints, 2, 2, 1)
  {
    assert [a, b][..1] == [a] && [a][..0] == [];
    assert RunTurns(cfg, task, []) == InitialTrace(task);
    var t := RunTurns(cfg, task, [a]);
    assert t == NextTurn(cfg, InitialTrace(task), a);
    assert t.checkpoints == [] && |t.sent| == 1 && t.state.Some?;
    assert RunTurns(cfg, task, [a, b]) == NextTurn(cfg, t, b);
  }
}
