/** The order of text: Python's `str` comparison and SQLite's byte-wise one agree on the texts compared here. */
module TextOrder {

  /** Lexicographic by code point, a proper prefix first. */
  predicate Leq(a: string, b: string) {
    a == [] || (b != [] && (a[0] < b[0] || (a[0] == b[0] && Leq(a[1..], b[1..]))))
  }

  predicate Less(a: string, b: string) { Leq(a, b) && a != b }

  lemma {:induction false} LeqTotal(a: string, b: string)
    ensures Leq(a, b) || Leq(b, a)
  {
    if a != [] && b != [] && a[0] == b[0] {
      LeqTotal(a[1..], b[1..]);
    }
  }

  lemma {:induction false} LeqTransitive(a: string, b: string, c: string)
    requires Leq(a, b) && Leq(b, c)
    ensures Leq(a, c)
  {
    if a != [] && a[0] == b[0] == c[0] {
      LeqTransitive(a[1..], b[1..], c[1..]);
    }
  }

  lemma {:induction false} LeqAntisymmetric(a: string, b: string)
    requires Leq(a, b) && Leq(b, a)
    ensures a == b
  {
    if a != [] {
      LeqAntisymmetric(a[1..], b[1..]);
      assert a == [a[0]] + a[1..] && b == [b[0]] + b[1..];
    }
  }

  /** A common prefix does not matter. */
  lemma {:induction false} LeqCommonPrefix(p: string, a: string, b: string)
    ensures Leq(p + a, p + b) <==> Leq(a, b)
  {
    if p == [] {
      assert p + a == a && p + b == b;
    } else {
      assert (p + a)[1..] == p[1..] + a && (p + b)[1..] == p[1..] + b;
      LeqCommonPrefix(p[1..], a, b);
    }
  }

  /** Two texts of the same length that differ decide the order, whatever follows them. */
  lemma {:induction false} LeqDecided(a: string, x: string, b: string, y: string)
    requires |a| == |b| && a != b
    ensures Leq(a + x, b + y) <==> Leq(a, b)
  {
    if a != [] {
      assert (a + x)[1..] == a[1..] + x && (b + y)[1..] == b[1..] + y;
      if a[0] == b[0] {
        assert a == [a[0]] + a[1..] && b == [b[0]] + b[1..];
        LeqDecided(a[1..], x, b[1..], y);
      }
    }
  }

  /** Two steps that are not both equalities lead strictly upwards. */
  lemma LeqTransitiveStrict(a: string, b: string, c: string)
    requires Leq(a, b) || a == b
    requires Leq(b, c) || b == c
    requires !(a == b == c)
    ensures Leq(a, c) && a != c
  {
    if a != b && b != c {
      LeqTransitive(a, b, c);
      if a == c {
        LeqAntisymmetric(a, b);
      }
    }
  }

  /** At position `p` the texts differ for the first time, and the first one is smaller there. */
  ghost predicate SmallerAt(a: string, b: string, p: nat) {
    p < |a| && p < |b| && a[..p] == b[..p] && a[p] < b[p]
  }

  /** What the order means: a text comes first if it is a beginning of the other, or smaller where they first differ. */
  lemma {:induction false} LeqMeans(a: string, b: string)
    ensures Leq(a, b) <==> a <= b || exists p: nat :: SmallerAt(a, b, p)
  {
    if a != [] && b != [] {
      assert a == [a[0]] + a[1..] && b == [b[0]] + b[1..];
      if a[0] < b[0] {
        assert SmallerAt(a, b, 0);
      } else if a[0] == b[0] {
        LeqMeans(a[1..], b[1..]);
        if p: nat :| SmallerAt(a[1..], b[1..], p) {
          assert a[..p + 1] == [a[0]] + a[1..][..p] && b[..p + 1] == [b[0]] + b[1..][..p];
          assert SmallerAt(a, b, p + 1);
        }
        if p: nat :| SmallerAt(a, b, p) {
          assert p > 0;
          assert a[1..][..p - 1] == a[..p][1..] && b[1..][..p - 1] == b[..p][1..];
          assert SmallerAt(a[1..], b[1..], p - 1);
        }
      } else {
        forall p: nat ensures !SmallerAt(a, b, p) {
          assert p > 0 && p <= |a| && p <= |b| ==> a[..p][0] == a[0] && b[..p][0] == b[0];
        }
      }
    }
  }
}
