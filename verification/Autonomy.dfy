/** The autonomy contract: risk assessment (`risk.py`), the gate (`gate.py`) and
    the reading of a reply (`loop.py`, `_is_rejection`). Scores are reals. */
module Autonomy {
  import opened Common

  datatype Trigger = Never | OnRisk | OnUncertainty | Always
  datatype WaitStrategy = Sync | Async
  datatype TimeoutAction = Wait | ProceedDefault | ProceedConfident | Skip

  datatype Behavior = Behavior(
    trigger: Trigger,
    riskThreshold: real,
    confidenceThreshold: real,
    strategy: WaitStrategy,
    waitTimeout: Option<real>,
    timeoutAction: TimeoutAction,
    notifyOnProceed: bool)

  datatype Assessment = Assessment(baseline: real, dynamic: real, rationale: seq<string>, assessor: string) {
    function Final(): real { if baseline >= dynamic then baseline else dynamic }
  }

  /** What the `RiskAssessment` constructor accepts. */
  type RiskAssessment = a: Assessment | 0.0 <= a.baseline <= a.dynamic <= 1.0
    witness Assessment(0.0, 0.0, [], "")

  function Max(x: real, y: real): real { if x >= y then x else y }

  function Min(x: real, y: real): real { if x <= y then x else y }

  /** What an LLM-backed link reports: its score forced into [baseline, 1], or the baseline when it failed. */
  function LlmLink(baseline: real, reply: Option<(real, string)>, name: string, failure: string): (a: RiskAssessment)
    requires 0.0 <= baseline <= 1.0
    ensures a.baseline == baseline
    ensures reply.None? ==> a.Final() == baseline
    ensures reply.Some? && baseline <= reply.value.0 <= 1.0 ==> a.Final() == reply.value.0
    ensures reply.Some? && reply.value.0 > 1.0 ==> a.Final() == 1.0
    ensures reply.Some? && reply.value.0 < baseline ==> a.Final() == baseline
  {
    match reply
    case None => Assessment(baseline, baseline, [failure], name)
    case Some((score, why)) => Assessment(baseline, Max(baseline, Min(score, 1.0)), [why], name)
  }

  /** `final` is the largest score any of the links reported. */
  ghost predicate IsLargestFinal(links: seq<RiskAssessment>, final: real) {
    && (forall i :: 0 <= i < |links| ==> links[i].Final() <= final)
    && (exists i :: 0 <= i < |links| && links[i].Final() == final)
  }

  function Rationales(links: seq<RiskAssessment>): seq<string> {
    if links == [] then [] else Rationales(links[..|links| - 1]) + links[|links| - 1].rationale
  }

  function Composite(links: seq<RiskAssessment>, name: string): RiskAssessment
    requires links != []
  {
    var last := links[|links| - 1];
    if |links| == 1 then Assessment(last.baseline, last.dynamic, last.rationale, name)
    else
      var rest := Composite(links[..|links| - 1], name);
      Assessment(Max(rest.baseline, last.baseline), Max(rest.dynamic, last.dynamic),
                 rest.rationale + last.rationale, name)
  }

  /** The composite's score is the largest of its links' scores, its baseline is below none of theirs, and it keeps all
      their reasons in order. */
  lemma {:induction false} CompositeIsLargest(links: seq<RiskAssessment>, name: string)
    requires links != []
    ensures var r := Composite(links, name);
            && IsLargestFinal(links, r.Final())
            && (forall i :: 0 <= i < |links| ==> links[i].baseline <= r.baseline)
            && r.rationale == Rationales(links) && r.assessor == name
  {
    var n := |links| - 1;
    var front, last := links[..n], links[n];
    if n == 0 {
      assert front == [];
    } else {
      CompositeIsLargest(front, name);
      var rest := Composite(front, name);
      assert forall i :: 0 <= i < n ==> links[i] == front[i];
      var i :| 0 <= i < n && front[i].Final() == rest.Final();
      assert links[i].Final() == rest.Final();
    }
  }

  /** `CompositeAssessor.assess`: the running maxima end at the composite's value. */
  method Assess(links: seq<RiskAssessment>, name: string) returns (r: RiskAssessment)
    requires links != []
    ensures r == Composite(links, name)
  {
    var baseline := links[0].baseline;
    var dynamic := links[0].dynamic;
    var rationale := links[0].rationale;
    assert links[..1] == [links[0]];
    for i := 1 to |links|
      invariant baseline <= dynamic && 0.0 <= baseline && dynamic <= 1.0
      invariant Assessment(baseline, dynamic, rationale, name) == Composite(links[..i], name)
    {
      assert links[..i + 1][..i] == links[..i] && links[..i + 1][i] == links[i];
      baseline := Max(baseline, links[i].baseline);
      dynamic := Max(dynamic, links[i].dynamic);
      rationale := rationale + links[i].rationale;
    }
    assert links[..|links|] == links;
    r := Assessment(baseline, dynamic, rationale, name);
  }

  datatype Verdict = Proceed | Emit

  /** A decision, or the ValueError of a confidence outside [0, 1]. */
  datatype GateResult = Decision(verdict: Verdict, inform: bool) | Raised

  /** `AutonomyGate.check`; a missing confidence provider counts as full confidence. */
  function Check(b: Behavior, risk: RiskAssessment, confidence: Option<real>): GateResult {
    var inform := b.notifyOnProceed && risk.Final() > 0.0;
    match b.trigger
    case Never => Decision(Proceed, inform)
    case Always => Decision(Emit, false)
    case OnRisk =>
      if risk.Final() >= b.riskThreshold then Decision(Emit, false) else Decision(Proceed, inform)
    case OnUncertainty =>
      var value := if confidence.None? then 1.0 else confidence.value;
      if confidence.Some? && !(0.0 <= value <= 1.0) then Raised
      else if value < b.confidenceThreshold then Decision(Emit, false) else Decision(Proceed, inform)
  }

  /** The gate under a composite assessor asks the user on risk iff any one link reaches the threshold. */
  lemma AnyLinkCanTriggerTheGate(b: Behavior, links: seq<RiskAssessment>, name: string, confidence: Option<real>)
    requires links != [] && b.trigger.OnRisk?
    ensures Check(b, Composite(links, name), confidence) == Decision(Emit, false)
            <==> exists i :: 0 <= i < |links| && links[i].Final() >= b.riskThreshold
  {
    var r := Composite(links, name);
    CompositeIsLargest(links, name);
    if r.Final() >= b.riskThreshold {
      var i :| 0 <= i < |links| && links[i].Final() == r.Final();
      assert links[i].Final() >= b.riskThreshold;
    }
  }

  /** The whole gate, from what its links and the confidence provider say. It asks under `always`, under `on_risk` when
      a link reaches the threshold, and under `on_uncertainty` when the confidence is below its threshold; it fails on a
      confidence outside [0, 1]; otherwise the action proceeds, with a notice iff those are on and some link sees any
      risk at all. */
  lemma GateDecides(b: Behavior, links: seq<RiskAssessment>, name: string, confidence: Option<real>)
    requires links != []
    ensures var d := Check(b, Composite(links, name), confidence);
            && (d.Raised? <==> b.trigger.OnUncertainty? && confidence.Some? && !(0.0 <= confidence.value <= 1.0))
            && (d == Decision(Emit, false) <==>
                  || b.trigger.Always?
                  || (b.trigger.OnRisk? && exists i :: 0 <= i < |links| && links[i].Final() >= b.riskThreshold)
                  || (b.trigger.OnUncertainty?
                      && (if confidence.None? then 1.0 < b.confidenceThreshold
                          else 0.0 <= confidence.value <= 1.0 && confidence.value < b.confidenceThreshold)))
            && (d.Decision? ==> d.verdict.Proceed? || !d.inform)
            && (d.Decision? && d.verdict.Proceed? ==>
                  (d.inform <==> b.notifyOnProceed && exists i :: 0 <= i < |links| && links[i].Final() > 0.0))
  {
    var r := Composite(links, name);
    CompositeIsLargest(links, name);
    var i :| 0 <= i < |links| && links[i].Final() == r.Final();
    assert r.Final() >= b.riskThreshold ==> links[i].Final() >= b.riskThreshold;
    assert r.Final() > 0.0 ==> links[i].Final() > 0.0;
  }

  // ---- Reading a reply ----

  /** What `str.strip` takes off: Unicode white space. */
  predicate IsSpace(c: char) {
    || c == ' ' || '\t' <= c <= '\r' || '\U{001c}' <= c <= '\U{001f}'
    || c == '\U{0085}' || c == '\U{00a0}' || c == '\U{1680}' || '\U{2000}' <= c <= '\U{200a}'
    || c == '\U{2028}' || c == '\U{2029}' || c == '\U{202f}' || c == '\U{205f}' || c == '\U{3000}'
  }

  /** `str.lower`, as far as a comparison with ASCII words can tell: besides the ASCII capitals only the Kelvin sign has
      an ASCII lower case. Any other letter beyond ASCII lowers to text that is not ASCII, and is left alone here. */
  function Lower(c: char): char {
    if 'A' <= c <= 'Z' then (c as int + 32) as char else if c == '\U{212a}' then 'k' else c
  }

  function LowerAll(s: string): (r: string) {
    if s == [] then [] else [Lower(s[0])] + LowerAll(s[1..])
  }

  function StripLeft(s: string): (r: string)
    ensures |r| <= |s|
  {
    if s != [] && IsSpace(s[0]) then StripLeft(s[1..]) else s
  }

  function StripRight(s: string): string {
    if s != [] && IsSpace(s[|s| - 1]) then StripRight(s[..|s| - 1]) else s
  }

  function Strip(s: string): string { StripRight(StripLeft(s)) }

  const REJECTION_TOKENS: set<string> := {"no", "n", "deny", "reject", "skip", "cancel", "abort"}

  /** `_is_rejection`. */
  predicate IsRejection(value: Option<string>) {
    value.Some? && LowerAll(Strip(value.value)) != [] && LowerAll(Strip(value.value)) in REJECTION_TOKENS
  }

  predicate Blank(s: string) { forall i :: 0 <= i < |s| ==> IsSpace(s[i]) }

  lemma {:induction false} StripLeftBlank(pad: string, s: string)
    requires Blank(pad)
    ensures StripLeft(pad + s) == StripLeft(s)
  {
    if pad != [] {
      assert (pad + s)[1..] == pad[1..] + s;
      StripLeftBlank(pad[1..], s);
    } else {
      assert pad + s == s;
    }
  }

  lemma {:induction false} StripRightBlank(s: string, pad: string)
    requires Blank(pad)
    ensures StripRight(s + pad) == StripRight(s)
  {
    if pad != [] {
      assert (s + pad)[..|s + pad| - 1] == s + pad[..|pad| - 1];
      StripRightBlank(s, pad[..|pad| - 1]);
    } else {
      assert s + pad == s;
    }
  }

  /** An empty or whitespace-only reply never rejects, and neither does a missing text. */
  lemma BlankNeverRejects(s: string)
    requires Blank(s)
    ensures !IsRejection(Some(s)) && !IsRejection(None)
  {
    assert s + [] == s;
    StripLeftBlank(s, []);
  }

  lemma PaddingIsStripped(left: string, token: string, right: string)
    requires Blank(left) && Blank(right)
    requires token != [] && !IsSpace(token[0]) && !IsSpace(token[|token| - 1])
    ensures Strip(left + token + right) == token
  {
    assert left + token + right == left + (token + right);
    StripLeftBlank(left, token + right);
    assert (token + right)[0] == token[0];
    StripRightBlank(token, right);
  }

  /** White space is what Unicode says it is, by code point. */
  lemma SpacesAre(c: char)
    ensures IsSpace(c) <==>
            || 9 <= c as int <= 13 || 28 <= c as int <= 32
            || c as int in {0x85, 0xA0, 0x1680, 0x2028, 0x2029, 0x202F, 0x205F, 0x3000}
            || 0x2000 <= c as int <= 0x200A
  {
  }

  /** A reply rejects iff its stripped, lower-cased core is one of seven words. */
  lemma RejectionsAre(value: string)
    ensures var w := LowerAll(Strip(value));
            IsRejection(Some(value)) <==>
              w == "no" || w == "n" || w == "deny" || w == "reject" || w == "skip" || w == "cancel" || w == "abort"
  {
  }

  predicate SameLetter(c: char, lower: char) {
    || c == lower || ('a' <= lower <= 'z' && c as int == lower as int - 32)
    || (lower == 'k' && c == '\U{212a}')
  }

  /** The word in any mixture of capital and small letters, the Kelvin sign being a capital k. */
  predicate AnyCase(s: string, word: string) {
    |s| == |word| && forall i :: 0 <= i < |s| ==> 'a' <= word[i] <= 'z' && SameLetter(s[i], word[i])
  }

  lemma {:induction false} AnyCaseLowers(s: string, word: string)
    requires AnyCase(s, word)
    ensures LowerAll(s) == word
  {
    if s != [] {
      AnyCaseLowers(s[1..], word[1..]);
      assert word == [word[0]] + word[1..];
    }
  }

  /** The seven words. */
  predicate SaysNo(word: string) {
    || word == "no" || word == "n" || word == "deny" || word == "reject" || word == "skip" || word == "cancel"
    || word == "abort"
  }

  /** A padded reply rejects iff what is between the padding, in small letters, is one of them. */
  lemma PaddedTokenRejects(left: string, token: string, right: string)
    requires Blank(left) && Blank(right)
    requires token != [] && !IsSpace(token[0]) && !IsSpace(token[|token| - 1])
    ensures IsRejection(Some(left + token + right)) <==> SaysNo(LowerAll(token))
  {
    PaddingIsStripped(left, token, right);
    var value := left + token + right;
    assert LowerAll(Strip(value)) == LowerAll(token);
    RejectionsAre(value);
  }

  /** Any of the seven words rejects in any case and any padding. */
  lemma NoRejectsInAnyCase(left: string, s: string, right: string, word: string)
    requires Blank(left) && Blank(right) && SaysNo(word) && AnyCase(s, word)
    ensures IsRejection(Some(left + s + right))
  {
    assert word != [];
    PaddingIsStripped(left, s, right);
    AnyCaseLowers(s, word);
    RejectionsAre(left + s + right);
  }
}
