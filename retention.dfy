/// Order-preserving filtering of a sequence, the model of a vector's
/// in-place `retain`.
module Retention {

  function Last<T>(s: seq<T>): T
    requires |s| > 0
  {
    s[|s| - 1]
  }

  /** The elements of s for which keep holds, in their original order. */
  function Retain<T>(s: seq<T>, keep: T -> bool): (r: seq<T>)
    ensures |r| <= |s|
    ensures forall i :: 0 <= i < |r| ==> r[i] in s && keep(r[i])
  {
    if s == [] then []
    else if keep(s[0]) then [s[0]] + Retain(s[1..], keep)
    else Retain(s[1..], keep)
  }

  /** Every element that passes the test is kept. */
  lemma {:induction false} RetainKeepsPassing<T>(s: seq<T>, keep: T -> bool)
    ensures forall i :: 0 <= i < |s| && keep(s[i]) ==> s[i] in Retain(s, keep)
  {
    if s != [] {
      RetainKeepsPassing(s[1..], keep);
      forall i | 0 <= i < |s| && keep(s[i]) ensures s[i] in Retain(s, keep) {
        if i > 0 {
          assert s[i] == s[1..][i - 1];
        }
      }
    }
  }

  /** Retaining distributes over concatenation: relative order is kept. */
  lemma {:induction false} RetainAppend<T>(a: seq<T>, b: seq<T>, keep: T -> bool)
    ensures Retain(a + b, keep) == Retain(a, keep) + Retain(b, keep)
  {
    if a == [] {
      assert a + b == b;
    } else {
      assert (a + b)[0] == a[0];
      assert (a + b)[1..] == a[1..] + b;
      RetainAppend(a[1..], b, keep);
    }
  }

  /** An element kept at the end of the input is the end of the output. */
  lemma RetainKeepsLast<T>(s: seq<T>, keep: T -> bool)
    requires |s| > 0 && keep(Last(s))
    ensures |Retain(s, keep)| > 0 && Last(Retain(s, keep)) == Last(s)
  {
    var front := s[..|s| - 1];
    assert s == front + [Last(s)];
    RetainAppend(front, [Last(s)], keep);
    assert Retain([Last(s)], keep) == [Last(s)] by {
      assert [Last(s)][1..] == [];
    }
  }

  /** Retaining twice with the same test removes nothing the second time. */
  lemma {:induction false} RetainIdempotent<T>(s: seq<T>, keep: T -> bool)
    ensures Retain(Retain(s, keep), keep) == Retain(s, keep)
  {
    if s != [] {
      RetainIdempotent(s[1..], keep);
      if keep(s[0]) {
        var r := Retain(s, keep);
        assert r[0] == s[0] && r[1..] == Retain(s[1..], keep);
      }
    }
  }

  /** Every element is kept exactly when the test holds of all of them. */
  lemma {:induction false} RetainAllKept<T>(s: seq<T>, keep: T -> bool)
    ensures Retain(s, keep) == s <==> forall i :: 0 <= i < |s| ==> keep(s[i])
  {
    if s != [] {
      RetainAllKept(s[1..], keep);
      if !keep(s[0]) {
        assert |Retain(s, keep)| < |s|;
      } else if Retain(s, keep) == s {
        assert Retain(s[1..], keep) == s[1..] by {
          assert Retain(s, keep)[1..] == Retain(s[1..], keep);
        }
        forall i | 0 <= i < |s| ensures keep(s[i]) {
          if i > 0 { assert s[i] == s[1..][i - 1]; }
        }
      } else {
        assert Retain(s[1..], keep) != s[1..];
        var i :| 0 <= i < |s[1..]| && !keep(s[1..][i]);
        assert s[i + 1] == s[1..][i];
      }
    }
  }

  /** rel holds of every pair of elements taken in sequence order. */
  predicate Pairwise<T>(s: seq<T>, rel: (T, T) -> bool) {
    forall i, j :: 0 <= i < j < |s| ==> rel(s[i], s[j])
  }

  /** A relation between earlier and later elements survives retaining. */
  lemma {:induction false} RetainPairwise<T>(s: seq<T>, keep: T -> bool, rel: (T, T) -> bool)
    requires Pairwise(s, rel)
    ensures Pairwise(Retain(s, keep), rel)
  {
    if s != [] {
      var tail := Retain(s[1..], keep);
      assert Pairwise(s[1..], rel) by {
        forall i, j | 0 <= i < j < |s[1..]| ensures rel(s[1..][i], s[1..][j]) {
          assert s[1..][i] == s[i + 1] && s[1..][j] == s[j + 1];
        }
      }
      RetainPairwise(s[1..], keep, rel);
      if keep(s[0]) {
        var r := Retain(s, keep);
        assert r == [s[0]] + tail;
        forall i, j | 0 <= i < j < |r| ensures rel(r[i], r[j]) {
          if i == 0 {
            assert r[j] == tail[j - 1];
            assert tail[j - 1] in s[1..];
            var m :| 0 <= m < |s[1..]| && s[1..][m] == tail[j - 1];
            assert s[m + 1] == r[j];
          } else {
            assert r[i] == tail[i - 1] && r[j] == tail[j - 1];
          }
        }
      }
    }
  }
}
