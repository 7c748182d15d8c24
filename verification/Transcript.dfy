/** The chat transcript and the tool-call protocol: every tool call of an assistant message
    gets exactly one tool reply before the next assistant message. */
module Transcript {
  import opened Common

  datatype ChatMessage =
    | System(content: string)
    | User(content: string)
    | Assistant(content: string, calls: seq<string>)
    | Tool(callId: string, content: string)

  /** The call ids still waiting for a reply, or None once the protocol is broken. */
  function Outstanding(ms: seq<ChatMessage>): Option<seq<string>> {
    if ms == [] then Some([])
    else
      match Outstanding(ms[..|ms| - 1])
      case None => None
      case Some(open) =>
        match ms[|ms| - 1]
        case System(_) => Some(open)
        case User(_) => Some(open)
        case Assistant(_, calls) => if open == [] then Some(calls) else None
        case Tool(id, _) => if open != [] && open[0] == id then Some(open[1..]) else None
  }

  predicate Complete(ms: seq<ChatMessage>) { Outstanding(ms) == Some([]) }

  lemma OutstandingAppend(ms: seq<ChatMessage>, m: ChatMessage)
    requires Outstanding(ms).Some?
    ensures (m.System? || m.User?) ==> Outstanding(ms + [m]) == Outstanding(ms)
    ensures m.Assistant? && Outstanding(ms).value == [] ==> Outstanding(ms + [m]) == Some(m.calls)
    ensures m.Tool? && Outstanding(ms).value != [] && Outstanding(ms).value[0] == m.callId ==>
              Outstanding(ms + [m]) == Some(Outstanding(ms).value[1..])
  {
    assert (ms + [m])[..|ms|] == ms;
  }

  function ToolIds(ms: seq<ChatMessage>): seq<string> {
    if ms == [] then []
    else ToolIds(ms[..|ms| - 1]) + if ms[|ms| - 1].Tool? then [ms[|ms| - 1].callId] else []
  }

  predicate NoAssistant(ms: seq<ChatMessage>, from: nat, to: nat)
    requires to <= |ms|
  {
    forall k :: from <= k < to ==> !ms[k].Assistant?
  }

  /** `ms[i..j]` is a maximal stretch that starts with an assistant message. */
  ghost predicate Turn(ms: seq<ChatMessage>, i: nat, j: nat) {
    i < j <= |ms| && ms[i].Assistant? && NoAssistant(ms, i + 1, j) && (j == |ms| || ms[j].Assistant?)
  }

  /** `ms[..j]` is what precedes the first assistant message. */
  ghost predicate Preamble(ms: seq<ChatMessage>, j: nat) {
    j <= |ms| && NoAssistant(ms, 0, j) && (j == |ms| || ms[j].Assistant?)
  }

  /** Each closed turn answers its calls one for one; the last turn still owes `open`. */
  ghost predicate Owes(ms: seq<ChatMessage>, open: seq<string>) {
    && (forall i: nat, j: nat :: Turn(ms, i, j) ==>
          ms[i].calls == ToolIds(ms[i + 1..j]) + if j == |ms| then open else [])
    && (forall j: nat :: Preamble(ms, j) ==> ToolIds(ms[..j]) == [] && (j == |ms| ==> open == []))
  }

  lemma ToolIdsSuffix(ms: seq<ChatMessage>, i: nat)
    requires i < |ms|
    ensures ToolIds(ms[i..]) == ToolIds(ms[i..|ms| - 1]) + if ms[|ms| - 1].Tool? then [ms[|ms| - 1].callId] else []
  {
    assert ms[i..][..|ms[i..]| - 1] == ms[i..|ms| - 1];
  }

  /** What a message changes about the debt: `before` is owed without it and `after` with it. */
  predicate Pays(before: seq<string>, m: ChatMessage, after: seq<string>) {
    match m
    case System(_) => before == after
    case User(_) => before == after
    case Assistant(_, calls) => before == [] && after == calls
    case Tool(id, _) => before == [id] + after
  }

  /** What a further message adds to the replies of an open turn. */
  lemma PaidFurther(calls: seq<string>, paid: seq<string>, before: seq<string>, m: ChatMessage, after: seq<string>)
    requires calls == paid + before && Pays(before, m, after) && !m.Assistant?
    ensures calls == paid + (if m.Tool? then [m.callId] else []) + after
  {
    if m.Tool? {
      ConcatAssociative(paid, [m.callId], after);
    } else {
      assert paid + [] == paid;
    }
  }

  /** The debt of the longer transcript, turn by turn, from that of the shorter one. */
  lemma TurnForward(ms: seq<ChatMessage>, before: seq<string>, after: seq<string>, i: nat, j: nat)
    requires ms != [] && Owes(ms[..|ms| - 1], before) && Pays(before, ms[|ms| - 1], after) && Turn(ms, i, j)
    ensures ms[i].calls == ToolIds(ms[i + 1..j]) + if j == |ms| then after else []
  {
    var n := |ms| - 1;
    var front := ms[..n];
    if j <= n {
      assert Turn(front, i, j) && front[i + 1..j] == ms[i + 1..j];
    } else if i == n {
      assert ms[i + 1..j] == [];
      assert [] + after == after;
    } else {
      assert Turn(front, i, n) && front[i + 1..n] == ms[i + 1..n];
      PaidFurther(ms[i].calls, ToolIds(ms[i + 1..n]), before, ms[n], after);
      assert ms[i + 1..j] == ms[i + 1..];
      ToolIdsSuffix(ms, i + 1);
    }
  }

  lemma PreambleForward(ms: seq<ChatMessage>, before: seq<string>, after: seq<string>, j: nat)
    requires ms != [] && Owes(ms[..|ms| - 1], before) && Pays(before, ms[|ms| - 1], after) && Preamble(ms, j)
    ensures ToolIds(ms[..j]) == [] && (j == |ms| ==> after == [])
  {
    var n := |ms| - 1;
    var front := ms[..n];
    if j <= n {
      assert Preamble(front, j) && front[..j] == ms[..j];
    } else {
      assert Preamble(front, n) && front[..n] == ms[..n] && ms[..j] == ms[0..];
      ToolIdsSuffix(ms, 0);
    }
  }

  lemma {:induction false} OutstandingOwes(ms: seq<ChatMessage>)
    requires Outstanding(ms).Some?
    ensures Owes(ms, Outstanding(ms).value)
  {
    if ms != [] {
      var front, after := ms[..|ms| - 1], Outstanding(ms).value;
      OutstandingOwes(front);
      var before := Outstanding(front).value;
      assert Pays(before, ms[|ms| - 1], after);
      forall i: nat, j: nat | Turn(ms, i, j)
        ensures ms[i].calls == ToolIds(ms[i + 1..j]) + if j == |ms| then after else []
      {
        TurnForward(ms, before, after, i, j);
      }
      forall j: nat | Preamble(ms, j) ensures ToolIds(ms[..j]) == [] && (j == |ms| ==> after == []) {
        PreambleForward(ms, before, after, j);
      }
    }
  }

  /** And the debt of the shorter transcript from that of the longer one. */
  lemma TurnBackward(ms: seq<ChatMessage>, before: seq<string>, after: seq<string>, i: nat, j: nat)
    requires ms != [] && Owes(ms, after) && Turn(ms[..|ms| - 1], i, j)
    requires ms[|ms| - 1].Assistant? ==> before == []
    requires !ms[|ms| - 1].Assistant? ==> Pays(before, ms[|ms| - 1], after)
    ensures ms[i].calls == ToolIds(ms[i + 1..j]) + if j == |ms| - 1 then before else []
  {
    if j < |ms| - 1 || ms[|ms| - 1].Assistant? {
      assert Turn(ms, i, j);
    } else {
      assert Turn(ms, i, |ms|) && ms[i + 1..|ms|] == ms[i + 1..];
      ToolIdsSuffix(ms, i + 1);
    }
  }

  lemma PreambleBackward(ms: seq<ChatMessage>, before: seq<string>, after: seq<string>, j: nat)
    requires ms != [] && Owes(ms, after) && Preamble(ms[..|ms| - 1], j)
    requires ms[|ms| - 1].Assistant? ==> before == []
    requires !ms[|ms| - 1].Assistant? ==> Pays(before, ms[|ms| - 1], after)
    ensures ToolIds(ms[..j]) == [] && (j == |ms| - 1 ==> before == [])
  {
    if j < |ms| - 1 || ms[|ms| - 1].Assistant? {
      assert Preamble(ms, j);
    } else {
      assert Preamble(ms, |ms|) && ms[..|ms|] == ms[0..] && ms[..j] == ms[0..|ms| - 1];
      ToolIdsSuffix(ms, 0);
    }
  }

  lemma {:induction false} OwesOutstanding(ms: seq<ChatMessage>, after: seq<string>)
    requires Owes(ms, after)
    ensures Outstanding(ms) == Some(after)
  {
    if ms == [] {
      assert Preamble(ms, 0);
    } else {
      var n := |ms| - 1;
      var front, m := ms[..n], ms[n];
      var before := if m.Tool? then [m.callId] + after else if m.Assistant? then [] else after;
      forall i: nat, j: nat | Turn(front, i, j)
        ensures front[i].calls == ToolIds(front[i + 1..j]) + if j == n then before else []
      {
        TurnBackward(ms, before, after, i, j);
        assert front[i + 1..j] == ms[i + 1..j];
      }
      forall j: nat | Preamble(front, j) ensures ToolIds(front[..j]) == [] && (j == n ==> before == []) {
        PreambleBackward(ms, before, after, j);
        assert front[..j] == ms[..j];
      }
      OwesOutstanding(front, before);
      if m.Assistant? {
        assert Turn(ms, n, |ms|) && ms[n + 1..|ms|] == [];
        assert m.calls == ToolIds([]) + after == after;
      }
    }
  }

  /** A transcript is complete iff after every assistant message, up to the next one or the end, the tool
      replies are exactly its calls in order, and no tool reply precedes the first assistant message. */
  lemma CompleteMeansReplied(ms: seq<ChatMessage>)
    ensures Complete(ms) <==>
            && (forall i: nat, j: nat :: Turn(ms, i, j) ==> ToolIds(ms[i + 1..j]) == ms[i].calls)
            && (forall j: nat :: Preamble(ms, j) ==> ToolIds(ms[..j]) == [])
  {
    if Complete(ms) {
      OutstandingOwes(ms);
    }
    if (forall i: nat, j: nat :: Turn(ms, i, j) ==> ToolIds(ms[i + 1..j]) == ms[i].calls)
       && (forall j: nat :: Preamble(ms, j) ==> ToolIds(ms[..j]) == []) {
      assert Owes(ms, []);
      OwesOutstanding(ms, []);
    }
  }
}
