/** The context selection policy (`policy.py`) and the pre-truncation of file snippets (`sources.py`). */
module Policy {
  import opened Common
  import Sorting
  import TextOrder

  // ---- Candidate selection ----

  datatype Candidate = Candidate(
    id: string, sourceType: string, sourceRef: string, priority: int, tokens: nat, summary: string)

  datatype Reason = MaxCandidatesExceeded | MaxTokensExceeded

  datatype Exclusion = Exclusion(candidateId: string, reason: Reason)

  /** The tuple comparison of the sort key. */
  predicate KeyLeq(a: Candidate, b: Candidate) {
    if a.priority != b.priority then a.priority < b.priority
    else if a.sourceType != b.sourceType then TextOrder.Leq(a.sourceType, b.sourceType)
    else if a.sourceRef != b.sourceRef then TextOrder.Leq(a.sourceRef, b.sourceRef)
    else TextOrder.Leq(a.id, b.id)
  }

  /** The lower priority number goes first; ties go by source type, then source, then id, each in text order. */
  lemma KeyOrder(a: Candidate, b: Candidate)
    ensures KeyLeq(a, b) <==>
            || a.priority < b.priority
            || (a.priority == b.priority && TextOrder.Less(a.sourceType, b.sourceType))
            || (a.priority == b.priority && a.sourceType == b.sourceType && TextOrder.Less(a.sourceRef, b.sourceRef))
            || (a.priority == b.priority && a.sourceType == b.sourceType && a.sourceRef == b.sourceRef
                && TextOrder.Leq(a.id, b.id))
  {
  }

  lemma KeyLeqTransitive(a: Candidate, b: Candidate, c: Candidate)
    requires KeyLeq(a, b) && KeyLeq(b, c)
    ensures KeyLeq(a, c)
  {
    if a.priority == b.priority == c.priority {
      if a.sourceType == b.sourceType == c.sourceType {
        if a.sourceRef == b.sourceRef == c.sourceRef {
          TextOrder.LeqTransitive(a.id, b.id, c.id);
        } else {
          TextOrder.LeqTransitiveStrict(a.sourceRef, b.sourceRef, c.sourceRef);
        }
      } else {
        TextOrder.LeqTransitiveStrict(a.sourceType, b.sourceType, c.sourceType);
      }
    }
  }

  lemma KeyLeqTotal(a: Candidate, b: Candidate)
    ensures KeyLeq(a, b) || KeyLeq(b, a)
  {
    TextOrder.LeqTotal(a.sourceType, b.sourceType);
    TextOrder.LeqTotal(a.sourceRef, b.sourceRef);
    TextOrder.LeqTotal(a.id, b.id);
  }

  lemma KeyPreorder()
    ensures Sorting.TotalPreorder(KeyLeq)
  {
    forall a, b ensures KeyLeq(a, b) || KeyLeq(b, a) { KeyLeqTotal(a, b); }
    forall a, b, c | KeyLeq(a, b) && KeyLeq(b, c) ensures KeyLeq(a, c) { KeyLeqTransitive(a, b, c); }
  }

  function Tokens(s: seq<Candidate>): nat {
    if s == [] then 0 else Tokens(s[..|s| - 1]) + s[|s| - 1].tokens
  }

  datatype Limits = Limits(maxCandidates: Option<int>, maxTokens: Option<int>)

  /** A candidate left out, and why. */
  datatype Drop = Drop(candidate: Candidate, reason: Reason)

  datatype Selection = Selection(selected: seq<Candidate>, dropped: seq<Drop>) {
    predicate CountFull(l: Limits) { l.maxCandidates.Some? && |selected| >= l.maxCandidates.value }

    predicate Overflows(l: Limits, c: Candidate) {
      l.maxTokens.Some? && Tokens(selected) + c.tokens > l.maxTokens.value
    }

    function Consider(l: Limits, c: Candidate): Selection {
      if CountFull(l) then this.(dropped := dropped + [Drop(c, MaxCandidatesExceeded)])
      else if Overflows(l, c) then this.(dropped := dropped + [Drop(c, MaxTokensExceeded)])
      else this.(selected := selected + [c])
    }
  }

  /** The greedy walk over an ordered list. */
  function Walk(l: Limits, ordered: seq<Candidate>): Selection {
    if ordered == [] then Selection([], [])
    else Walk(l, ordered[..|ordered| - 1]).Consider(l, ordered[|ordered| - 1])
  }

  function Exclusions(dropped: seq<Drop>): seq<Exclusion> {
    if dropped == [] then []
    else Exclusions(dropped[..|dropped| - 1])
         + [Exclusion(dropped[|dropped| - 1].candidate.id, dropped[|dropped| - 1].reason)]
  }

  /** `select_candidates`. */
  method SelectCandidates(candidates: seq<Candidate>, l: Limits)
    returns (selected: seq<Candidate>, excluded: seq<Exclusion>)
    ensures selected == Walk(l, Sorting.Sort(KeyLeq, candidates)).selected
    ensures excluded == Exclusions(Walk(l, Sorting.Sort(KeyLeq, candidates)).dropped)
  {
    var ordered := Sorting.Sort(KeyLeq, candidates);
    selected, excluded := [], [];
    var tokens := 0;
    ghost var dropped: seq<Drop> := [];
    for i := 0 to |ordered|
      invariant Walk(l, ordered[..i]) == Selection(selected, dropped)
      invariant excluded == Exclusions(dropped) && tokens == Tokens(selected)
    {
      var c := ordered[i];
      WalkStep(l, ordered, i);
      if l.maxCandidates.Some? && |selected| >= l.maxCandidates.value {
        excluded := excluded + [Exclusion(c.id, MaxCandidatesExceeded)];
        ExclusionsAppend(dropped, Drop(c, MaxCandidatesExceeded));
        dropped := dropped + [Drop(c, MaxCandidatesExceeded)];
        continue;
      }
      var next := tokens + c.tokens;
      if l.maxTokens.Some? && next > l.maxTokens.value {
        excluded := excluded + [Exclusion(c.id, MaxTokensExceeded)];
        ExclusionsAppend(dropped, Drop(c, MaxTokensExceeded));
        dropped := dropped + [Drop(c, MaxTokensExceeded)];
        continue;
      }
      TokensAppend(selected, c);
      selected := selected + [c];
      tokens := next;
    }
    assert ordered[..|ordered|] == ordered;
  }

  lemma WalkStep(l: Limits, ordered: seq<Candidate>, i: nat)
    requires i < |ordered|
    ensures Walk(l, ordered[..i + 1]) == Walk(l, ordered[..i]).Consider(l, ordered[i])
  {
    assert ordered[..i + 1][..i] == ordered[..i];
  }

  lemma ExclusionsAppend(dropped: seq<Drop>, d: Drop)
    ensures Exclusions(dropped + [d]) == Exclusions(dropped) + [Exclusion(d.candidate.id, d.reason)]
  {
    assert (dropped + [d])[..|dropped|] == dropped;
  }

  lemma TokensAppend(selected: seq<Candidate>, c: Candidate)
    ensures Tokens(selected + [c]) == Tokens(selected) + c.tokens
  {
    assert (selected + [c])[..|selected|] == selected;
  }

  function Candidates(dropped: seq<Drop>): seq<Candidate> {
    if dropped == [] then [] else Candidates(dropped[..|dropped| - 1]) + [dropped[|dropped| - 1].candidate]
  }

  ghost predicate WithinLimits(l: Limits, s: Selection) {
    && (l.maxCandidates.Some? ==> |s.selected| <= if l.maxCandidates.value < 0 then 0 else l.maxCandidates.value)
    && (l.maxTokens.Some? ==> Tokens(s.selected) <= if l.maxTokens.value < 0 then 0 else l.maxTokens.value)
  }

  /** Every drop is still justified by the selection as it ended. */
  ghost predicate DropsJustified(l: Limits, s: Selection) {
    forall d :: d in s.dropped ==>
      && (d.reason.MaxCandidatesExceeded? ==> s.CountFull(l))
      && (d.reason.MaxTokensExceeded? ==> s.Overflows(l, d.candidate))
  }

  lemma CandidatesAppend(dropped: seq<Drop>, d: Drop)
    ensures Candidates(dropped + [d]) == Candidates(dropped) + [d.candidate]
  {
    assert (dropped + [d])[..|dropped|] == dropped;
  }

  ghost predicate Partition<T>(left: seq<T>, right: seq<T>, all: seq<T>) {
    multiset(left) + multiset(right) == multiset(all)
  }

  lemma PartitionGrows<T>(left: seq<T>, right: seq<T>, all: seq<T>, x: T)
    requires Partition(left, right, all)
    ensures Partition(left + [x], right, all + [x]) && Partition(left, right + [x], all + [x])
  {
    assert multiset(all + [x]) == multiset(all) + multiset{x};
  }

  lemma {:induction false} WalkPartitions(l: Limits, ordered: seq<Candidate>)
    ensures Partition(Walk(l, ordered).selected, Candidates(Walk(l, ordered).dropped), ordered)
  {
    if ordered != [] {
      var front, c := ordered[..|ordered| - 1], ordered[|ordered| - 1];
      var s := Walk(l, front);
      WalkPartitions(l, front);
      PartitionGrows(s.selected, Candidates(s.dropped), front, c);
      assert ordered == front + [c];
      if s.CountFull(l) {
        CandidatesAppend(s.dropped, Drop(c, MaxCandidatesExceeded));
      } else if s.Overflows(l, c) {
        CandidatesAppend(s.dropped, Drop(c, MaxTokensExceeded));
      }
    }
  }

  lemma {:induction false} WalkWithinLimits(l: Limits, ordered: seq<Candidate>)
    ensures WithinLimits(l, Walk(l, ordered))
  {
    if ordered != [] {
      var front, c := ordered[..|ordered| - 1], ordered[|ordered| - 1];
      WalkWithinLimits(l, front);
      TokensAppend(Walk(l, front).selected, c);
    }
  }

  /** One more candidate makes no earlier drop less justified. */
  lemma ConsiderJustified(l: Limits, s: Selection, c: Candidate)
    requires DropsJustified(l, s)
    ensures DropsJustified(l, s.Consider(l, c))
  {
    TokensAppend(s.selected, c);
    var u := s.Consider(l, c);
    forall d | d in u.dropped
      ensures d.reason.MaxCandidatesExceeded? ==> u.CountFull(l)
      ensures d.reason.MaxTokensExceeded? ==> u.Overflows(l, d.candidate)
    {
      assert d in s.dropped || u.selected == s.selected;
    }
  }

  lemma {:induction false} WalkJustified(l: Limits, ordered: seq<Candidate>)
    ensures DropsJustified(l, Walk(l, ordered))
  {
    if ordered != [] {
      WalkJustified(l, ordered[..|ordered| - 1]);
      ConsiderJustified(l, Walk(l, ordered[..|ordered| - 1]), ordered[|ordered| - 1]);
    }
  }

  /** Whatever the limits: the selected and the dropped are a partition of the input, both budgets hold, a candidate
      dropped for its tokens would still overflow the final selection, and a drop for the count means it is full. */
  lemma SelectionIsSound(candidates: seq<Candidate>, l: Limits)
    ensures var s := Walk(l, Sorting.Sort(KeyLeq, candidates));
            && Partition(s.selected, Candidates(s.dropped), candidates)
            && WithinLimits(l, s) && DropsJustified(l, s)
  {
    WalkPartitions(l, Sorting.Sort(KeyLeq, candidates));
    WalkWithinLimits(l, Sorting.Sort(KeyLeq, candidates));
    WalkJustified(l, Sorting.Sort(KeyLeq, candidates));
  }

  /** With distinct sort keys the order in which candidates arrive does not matter. */
  lemma SelectionOrderIndependent(a: seq<Candidate>, b: seq<Candidate>, l: Limits)
    requires multiset(a) == multiset(b) && Sorting.DistinctKeys(KeyLeq, a)
    ensures Walk(l, Sorting.Sort(KeyLeq, a)) == Walk(l, Sorting.Sort(KeyLeq, b))
  {
    KeyPreorder();
    Sorting.SortOrderIndependent(KeyLeq, a, b);
  }

  /** With unlimited tokens the selection is the head of the sorted list: nothing better is ever left out. */
  lemma {:induction false} CountOnlyTakesTheBest(l: Limits, ordered: seq<Candidate>)
    requires l.maxTokens.None? && l.maxCandidates.Some? && l.maxCandidates.value >= 0
    ensures Walk(l, ordered).selected ==
            if |ordered| <= l.maxCandidates.value then ordered else ordered[..l.maxCandidates.value]
  {
    if ordered != [] {
      var front := ordered[..|ordered| - 1];
      CountOnlyTakesTheBest(l, front);
      assert ordered == front + [ordered[|ordered| - 1]];
      if |front| >= l.maxCandidates.value {
        assert front[..l.maxCandidates.value] == ordered[..l.maxCandidates.value];
      }
    }
  }

  /** Without a token budget no candidate that is left out has a lower priority number than one that is taken. */
  lemma TakenBeforeLeftOut(candidates: seq<Candidate>, l: Limits, taken: Candidate, left: Candidate)
    requires l.maxTokens.None? && l.maxCandidates.Some? && l.maxCandidates.value >= 0
    requires var s := Walk(l, Sorting.Sort(KeyLeq, candidates));
             taken in s.selected && left in Candidates(s.dropped)
    ensures taken.priority <= left.priority
  {
    var ordered := Sorting.Sort(KeyLeq, candidates);
    KeyPreorder();
    Sorting.SortSorts(KeyLeq, candidates);
    LeftOutIsTheRest(l, ordered, left);
    var n := l.maxCandidates.value;
    CountOnlyTakesTheBest(l, ordered);
    var i :| 0 <= i < n && ordered[i] == taken;
    var j :| n <= j < |ordered| && ordered[j] == left;
    assert KeyLeq(ordered[i], ordered[j]);
  }

  lemma LeftOutIsTheRest(l: Limits, ordered: seq<Candidate>, left: Candidate)
    requires l.maxTokens.None? && l.maxCandidates.Some? && l.maxCandidates.value >= 0
    requires left in Candidates(Walk(l, ordered).dropped)
    ensures l.maxCandidates.value < |ordered| && left in ordered[l.maxCandidates.value..]
  {
    WalkPartitions(l, ordered);
    CountOnlyTakesTheBest(l, ordered);
    OtherIsTheRest(Walk(l, ordered).selected, Candidates(Walk(l, ordered).dropped), ordered, left);
  }

  /** If a beginning and something else partition a sequence, the something is in what follows the beginning. */
  lemma OtherIsTheRest<T>(head: seq<T>, other: seq<T>, all: seq<T>, x: T)
    requires head <= all && Partition(head, other, all) && x in other
    ensures |head| < |all| && x in all[|head|..]
  {
    var rest := all[|head|..];
    assert all == head + rest;
    assert multiset(all) == multiset(head) + multiset(rest);
    assert (multiset(head) + multiset(other))[x] == (multiset(head) + multiset(rest))[x];
    assert x in multiset(other);
    assert x in multiset(rest);
  }

  /** The exclusions name the dropped candidates and their reasons, one for one. */
  lemma {:induction false} ExclusionsName(dropped: seq<Drop>)
    ensures |Exclusions(dropped)| == |dropped| == |Candidates(dropped)|
    ensures forall i :: 0 <= i < |dropped| ==>
              && Exclusions(dropped)[i].candidateId == dropped[i].candidate.id
              && Exclusions(dropped)[i].reason == dropped[i].reason
              && Candidates(dropped)[i] == dropped[i].candidate
  {
    if dropped != [] {
      ExclusionsName(dropped[..|dropped| - 1]);
    }
  }

  // ---- File snippets ----

  /** `preCut` and `budgetCut` stand for the two remarks a snippet's reason can carry. */
  datatype Snippet = Snippet(path: string, content: string, tokens: nat, preCut: bool, budgetCut: bool)

  datatype FileRead = FileRead(path: string, content: string)

  function EstimateTokens(text: string): nat {
    if text == "" then 0 else if (|text| + 3) / 4 < 1 then 1 else (|text| + 3) / 4
  }

  /** Four characters a token, rounded up; nothing only for an empty text. */
  lemma EstimateMeans(text: string)
    ensures 4 * EstimateTokens(text) - 4 < |text| <= 4 * EstimateTokens(text) || text == ""
    ensures EstimateTokens(text) == 0 <==> text == ""
  {
  }

  function Take(text: string, n: nat): string { if |text| <= n then text else text[..n] }

  /** `_file_snippet`: each file is cut to the budget on its own. */
  function FileSnippet(file: FileRead, budget: nat): Snippet {
    var content := Take(file.content, budget);
    Snippet(file.path, content, EstimateTokens(content), |file.content| > budget, false)
  }

  /** A file within the budget is shown whole and unmarked; a longer one is cut to exactly the budget and marked. */
  lemma SnippetShows(file: FileRead, budget: nat)
    ensures var s := FileSnippet(file, budget);
            && s.path == file.path && s.content <= file.content && s.tokens == EstimateTokens(s.content) && !s.budgetCut
            && (|file.content| <= budget ==> s.content == file.content && !s.preCut)
            && (|file.content| > budget ==> |s.content| == budget && s.preCut)
  {
  }

  function FileSnippets(files: seq<FileRead>, budget: nat): seq<Snippet> {
    seq(|files|, i requires 0 <= i < |files| => FileSnippet(files[i], budget))
  }

  /** Python's `s[-k:]` for k > 0. */
  function LastOf<T>(s: seq<T>, k: nat): seq<T> { if |s| <= k then s else s[|s| - k..] }

  /** The tail trims of events and tool results. */
  function TrimTail<T>(s: seq<T>, k: nat): (r: seq<T>)
    ensures |r| == if |s| <= k then |s| else k
    ensures r == s[|s| - |r|..]
  {
    if k == 0 then [] else LastOf(s, k)
  }

  function Joined(snippets: seq<Snippet>): string {
    if snippets == [] then "" else Joined(snippets[..|snippets| - 1]) + snippets[|snippets| - 1].content
  }

  function JoinedReads(files: seq<FileRead>): string {
    if files == [] then "" else JoinedReads(files[..|files| - 1]) + files[|files| - 1].content
  }

  lemma JoinedAppend(snippets: seq<Snippet>, s: Snippet)
    ensures Joined(snippets + [s]) == Joined(snippets) + s.content
  {
    assert (snippets + [s])[..|snippets|] == snippets;
  }

  lemma {:induction false} JoinedPrefix(snippets: seq<Snippet>, n: nat)
    requires n <= |snippets|
    ensures Joined(snippets[..n]) <= Joined(snippets)
  {
    if n < |snippets| {
      JoinedPrefix(snippets[..|snippets| - 1], n);
      assert snippets[..|snippets| - 1][..n] == snippets[..n];
    } else {
      assert snippets[..n] == snippets;
    }
  }

  /** A trimmed snippet keeps its source; its content is a prefix, and the estimate follows the content. */
  predicate TrimmedFrom(t: Snippet, s: Snippet) {
    t == s || (t.path == s.path && t.content < s.content && t.tokens == EstimateTokens(t.content)
               && t.preCut == s.preCut && t.budgetCut)
  }

  /** `trim_file_snippets`: the kept contents, joined, are the first `budget` characters of the last `k` contents
      joined; only the last kept snippet can have been cut. */
  method TrimFileSnippets(snippets: seq<Snippet>, k: nat, budget: nat) returns (selected: seq<Snippet>)
    ensures k > 0 ==> Joined(selected) == Take(Joined(LastOf(snippets, k)), budget)
    ensures k == 0 || budget == 0 ==> selected == []
    ensures |selected| <= k && |selected| <= |snippets|
    ensures selected != [] ==> TrimmedFrom(selected[|selected| - 1], LastOf(snippets, k)[|selected| - 1])
    ensures forall i :: 0 <= i < |selected| - 1 ==> selected[i] == LastOf(snippets, k)[i]
  {
    if k == 0 || budget == 0 {
      return [];
    }
    var last := LastOf(snippets, k);
    selected := [];
    var used := 0;
    for i := 0 to |last|
      invariant selected == last[..i] && used == |Joined(selected)| <= budget
    {
      var remaining := budget - used;
      if remaining <= 0 {
        TrimmedAt(last, i, budget);
        return;
      }
      KeepWhole(last, i);
      if |last[i].content| <= remaining {
        selected := selected + [last[i]];
        used := used + |last[i].content|;
        continue;
      }
      var cut := last[i].content[..remaining];
      var truncated := last[i].(content := cut, tokens := EstimateTokens(cut), budgetCut := true);
      TrimmedAt(last, i, budget);
      JoinedAppend(selected, truncated);
      selected := selected + [truncated];
      return;
    }
    assert last[..|last|] == last;
  }

  lemma KeepWhole(last: seq<Snippet>, i: nat)
    requires i < |last|
    ensures last[..i + 1] == last[..i] + [last[i]]
    ensures Joined(last[..i + 1]) == Joined(last[..i]) + last[i].content
  {
    assert last[..i + 1] == last[..i] + [last[i]];
    JoinedAppend(last[..i], last[i]);
  }

  /** Where the budget ends inside the joined text. */
  lemma TrimmedAt(last: seq<Snippet>, i: nat, budget: nat)
    requires i < |last| && |Joined(last[..i])| <= budget <= |Joined(last[..i])| + |last[i].content|
    ensures Take(Joined(last), budget) == Joined(last[..i]) + last[i].content[..budget - |Joined(last[..i])|]
  {
    assert last[..i + 1] == last[..i] + [last[i]];
    JoinedAppend(last[..i], last[i]);
    JoinedPrefix(last, i + 1);
    assert Joined(last)[..budget] == Joined(last[..i + 1])[..budget];
  }

  /** Cutting each text first does not change the first `budget` characters of the whole. */
  lemma {:induction false} CutFirst(files: seq<FileRead>, budget: nat)
    ensures Take(Joined(FileSnippets(files, budget)), budget) == Take(JoinedReads(files), budget)
  {
    if files != [] {
      var front, last := files[..|files| - 1], files[|files| - 1].content;
      CutFirst(front, budget);
      var cut := FileSnippets(front, budget);
      assert FileSnippets(files, budget) == cut + [FileSnippet(files[|files| - 1], budget)];
      JoinedAppend(cut, FileSnippet(files[|files| - 1], budget));
      TakeOfSum(Joined(cut), JoinedReads(front), last, budget);
    }
  }

  lemma TakeOfSum(a: string, b: string, last: string, budget: nat)
    requires Take(a, budget) == Take(b, budget)
    ensures Take(a + Take(last, budget), budget) == Take(b + last, budget)
  {
    if |a| >= budget {
      assert |b| >= budget && a[..budget] == b[..budget];
      assert (a + Take(last, budget))[..budget] == a[..budget] && (b + last)[..budget] == b[..budget];
    } else {
      assert a == b;
    }
  }

  lemma LastOfSnippets(files: seq<FileRead>, k: nat, budget: nat)
    ensures LastOf(FileSnippets(files, budget), k) == FileSnippets(LastOf(files, k), budget)
  {
  }

  /** Collecting snippets and trimming them: the contents shown are exactly the first `budget` characters of the last
      `k` files read, although every file was first cut to the budget on its own. */
  method CollectSnippets(files: seq<FileRead>, k: nat, budget: nat) returns (selected: seq<Snippet>)
    ensures k > 0 ==> Joined(selected) == Take(JoinedReads(LastOf(files, k)), budget)
    ensures k == 0 ==> selected == []
  {
    selected := TrimFileSnippets(FileSnippets(files, budget), k, budget);
    LastOfSnippets(files, k, budget);
    CutFirst(LastOf(files, k), budget);
  }
}
