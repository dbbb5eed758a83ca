/**
  Sequences without an entry, with two entries exchanged, and how long one without repetition can be.
 */
module Sequences {

  /** No entry is repeated. */
  ghost predicate Distinct<T>(s: seq<T>) {
    forall i, j :: 0 <= i < j < |s| ==> s[i] != s[j]
  }

  function Without<T>(s: seq<T>, i: nat): seq<T>
    requires i < |s|
  {
    s[..i] + s[i + 1..]
  }

  function Swap<T>(s: seq<T>, i: nat, j: nat): (t: seq<T>)
    requires i < |s| && j < |s|
    ensures |t| == |s|
  {
    s[i := s[j]][j := s[i]]
  }

  /** Different numbers below a bound are no more than the bound. */
  lemma {:induction false} Pigeonhole(xs: seq<nat>, n: nat)
    requires forall i :: 0 <= i < |xs| ==> xs[i] < n
    requires forall i, j :: 0 <= i < j < |xs| ==> xs[i] != xs[j]
    ensures |xs| <= n
  {
    if |xs| > 0 {
      assert xs[0] < n;
      if n - 1 in xs {
        var i :| 0 <= i < |xs| && xs[i] == n - 1;
        Pigeonhole(xs[..i] + xs[i + 1..], n - 1);
      } else {
        Pigeonhole(xs[1..], n - 1);
      }
    }
  }

  /** Moving an entry to the front of what is still to be read. */
  lemma MoveEntry<T>(now: seq<T>, before: seq<T>, p: nat, q: nat)
    requires q <= p < |now| == |before| && now[p..] == before[p..]
    ensures now[p] == before[p]
    ensures var next := now[q := now[p]];
            next[..q + 1] == now[..q] + [before[p]] && next[..q] == now[..q] && next[p + 1..] == before[p + 1..]
  {
    assert now[p..][0] == before[p..][0];
    forall k | p < k < |now| ensures now[k] == before[k] {
      assert now[p..][k - p] == before[p..][k - p];
    }
  }

  lemma SwapSame<T>(s: seq<T>, i: nat, j: nat)
    requires i < |s| && j < |s|
    ensures multiset(Swap(s, i, j)) == multiset(s)
  {
  }

  lemma SameMembers<T>(s: seq<T>, t: seq<T>)
    requires multiset(s) == multiset(t)
    ensures |s| == |t| && forall x :: x in s <==> x in t
  {
    assert |multiset(s)| == |s| && |multiset(t)| == |t|;
    forall x ensures x in s <==> x in t {
      assert x in multiset(s) <==> x in multiset(t);
    }
  }
}
