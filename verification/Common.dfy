/** Shared vocabulary of the model. */
module Common {

  /** Python's `X | None`. */
  datatype Option<+T> = None | Some(value: T)

  datatype Topic = TheQueue | TheTrail | TheLedger | TheCalls

  /** A mark for the verifier. `forall mark {:trigger Look(topic, mark)} :: P` says P, but the verifier unfolds it only
      where a lemma asserts `Look(topic, 0)`; elsewhere it carries the fact around whole. The invariants of the agent
      loop are stated so, because its methods move them across many state changes without looking inside. */
  ghost predicate Look(at: Topic, mark: nat) { true }

  ghost predicate NoDuplicates<T>(s: seq<T>) {
    forall i, j :: 0 <= i < j < |s| ==> s[i] != s[j]
  }

  lemma PrefixTransitive<T>(a: seq<T>, b: seq<T>, c: seq<T>)
    requires a <= b <= c
    ensures a <= c
  {
  }

  lemma ConcatAssociative<T>(a: seq<T>, b: seq<T>, c: seq<T>)
    ensures a + (b + c) == a + b + c
  {
  }

  lemma SliceAppend<T>(s: seq<T>, x: T, from: nat)
    requires from <= |s|
    ensures (s + [x])[from..|s| + 1] == s[from..|s|] + [x]
  {
  }

  /** A sequence without repetition holds each element exactly once. */
  lemma NoDuplicatesMultiset<T>(s: seq<T>, x: T)
    requires NoDuplicates(s)
    ensures multiset(s)[x] <= 1
  {
    if s != [] {
      var n := |s| - 1;
      assert s == s[..n] + [s[n]];
      NoDuplicatesMultiset(s[..n], x);
      assert s[n] !in s[..n];
      assert multiset(s) == multiset(s[..n]) + multiset{s[n]};
    }
  }

  /** A sequence whose multiset has no repetition has none itself. */
  lemma MultisetNoDuplicates<T>(s: seq<T>)
    requires forall x :: x in s ==> multiset(s)[x] <= 1
    ensures NoDuplicates(s)
  {
    forall i, j | 0 <= i < j < |s| ensures s[i] != s[j] {
      assert s == s[..j] + [s[j]] + s[j + 1..];
      assert multiset(s) == multiset(s[..j]) + multiset{s[j]} + multiset(s[j + 1..]);
      assert s[i] == s[..j][i];
      assert s[i] in multiset(s[..j]);
      assert s[j] in s && multiset(s)[s[j]] <= 1;
    }
  }

  /** Two sequences without repetition that hold the same elements hold them equally often. */
  lemma SameMembersSameMultiset<T>(s: seq<T>, t: seq<T>)
    requires NoDuplicates(s) && NoDuplicates(t)
    requires forall x :: x in s <==> x in t
    ensures multiset(s) == multiset(t)
  {
    forall x: T ensures multiset(s)[x] == multiset(t)[x] {
      NoDuplicatesMultiset(s, x);
      NoDuplicatesMultiset(t, x);
      assert x in multiset(s) <==> x in s;
      assert x in multiset(t) <==> x in t;
    }
  }

  /** `s` is what is left of `t` when some elements are taken out. */
  ghost predicate Subsequence<T>(s: seq<T>, t: seq<T>) {
    s == [] ||
    (t != [] &&
     ((s[|s| - 1] == t[|t| - 1] && Subsequence(s[..|s| - 1], t[..|t| - 1])) || Subsequence(s, t[..|t| - 1])))
  }

  /** One more element of `t`, kept or not. */
  lemma SubsequenceStep<T>(s: seq<T>, t: seq<T>, i: nat)
    requires i < |t| && Subsequence(s, t[..i])
    ensures Subsequence(s, t[..i + 1]) && Subsequence(s + [t[i]], t[..i + 1])
  {
    assert t[..i + 1][..i] == t[..i] && (s + [t[i]])[..|s|] == s;
  }

  lemma {:induction false} SubsequenceSelf<T>(s: seq<T>)
    ensures Subsequence(s, s)
  {
    if s != [] {
      SubsequenceSelf(s[..|s| - 1]);
    }
  }

  lemma {:induction false} SubsequenceShorter<T>(s: seq<T>, t: seq<T>)
    requires Subsequence(s, t)
    ensures |s| <= |t| && (|s| == |t| ==> s == t)
  {
    if s != [] {
      var front := t[..|t| - 1];
      if Subsequence(s, front) {
        SubsequenceShorter(s, front);
      } else {
        SubsequenceShorter(s[..|s| - 1], front);
        assert s == s[..|s| - 1] + [s[|s| - 1]] && t == front + [t[|t| - 1]];
      }
    }
  }
}
