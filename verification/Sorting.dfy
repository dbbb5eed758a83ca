/**
  Sorting literals, as the hash tables need it.
 */
module Sorting {
  import opened Literals
  import opened Sequences

  function Insert(c: seq<Lit>, l: Lit): seq<Lit> {
    if c == [] || l <= c[0] then [l] + c else [c[0]] + Insert(c[1..], l)
  }

  function Sort(c: seq<Lit>): seq<Lit> {
    if c == [] then [] else Insert(Sort(c[1..]), c[0])
  }

  ghost predicate Ascending(c: seq<Lit>) {
    forall i, j :: 0 <= i < j < |c| ==> c[i] <= c[j]
  }

  /** In order and without repetition, the same literals are the same sequence. */
  lemma {:induction false} SameSequence(c: seq<Lit>, d: seq<Lit>)
    requires Ascending(c) && Distinct(c) && Ascending(d) && Distinct(d)
    requires forall l :: l in c <==> l in d
    ensures c == d
  {
    assert |c| > 0 ==> c[0] in d;
    assert |d| > 0 ==> d[0] in c;
    if |c| > 0 && |d| > 0 {
      forall l ensures l in c[1..] <==> l in d[1..] {
        assert l in c <==> l == c[0] || l in c[1..];
        assert l in d <==> l == d[0] || l in d[1..];
      }
      SameSequence(c[1..], d[1..]);
    }
  }

  lemma {:induction false} InsertSorted(c: seq<Lit>, l: Lit)
    requires Ascending(c)
    ensures Ascending(Insert(c, l)) && |Insert(c, l)| == |c| + 1 && forall x :: x in Insert(c, l) <==> x in c || x == l
  {
    if c != [] && l > c[0] {
      InsertSorted(c[1..], l);
      assert forall x :: x in c <==> x == c[0] || x in c[1..];
      var rest := Insert(c[1..], l);
      forall j | 0 <= j < |rest| ensures c[0] <= rest[j] {
        assert rest[j] in rest;
      }
    }
  }

  /** Sorting orders the inputs and keeps them. */
  lemma {:induction false} SortSorted(c: seq<Lit>)
    ensures Ascending(Sort(c)) && |Sort(c)| == |c| && forall x :: x in Sort(c) <==> x in c
  {
    if c != [] {
      SortSorted(c[1..]);
      InsertSorted(Sort(c[1..]), c[0]);
      assert forall x :: x in c <==> x == c[0] || x in c[1..];
    }
  }

  lemma {:induction false} InsertDistinct(c: seq<Lit>, l: Lit)
    requires l !in c && Distinct(c)
    ensures Distinct(Insert(c, l))
    ensures forall x :: x in Insert(c, l) <==> x in c || x == l
  {
    if c != [] && l > c[0] {
      InsertDistinct(c[1..], l);
      assert forall x :: x in c <==> x == c[0] || x in c[1..];
      var rest := Insert(c[1..], l);
      forall j | 0 <= j < |rest| ensures c[0] != rest[j] {
        assert rest[j] in rest;
      }
    }
  }

  lemma {:induction false} SortDistinct(c: seq<Lit>)
    requires Distinct(c)
    ensures Distinct(Sort(c))
  {
    if c != [] {
      SortDistinct(c[1..]);
      SortSorted(c[1..]);
      InsertDistinct(Sort(c[1..]), c[0]);
    }
  }
}
