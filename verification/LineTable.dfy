/**
  The hash table of the proof checker (check.c): lines chained by their reduced hash values.
 */
module LineTable {
  import opened Literals
  import opened CheckerModel

  /** Two to the power of a shift: 16, 8, 4, 2 or 1. */
  function Power(shift: nat): nat {
    if shift >= 16 then 0x1_0000
                        else if shift >= 8 then 0x100 else if shift >= 4 then 0x10 else if shift >= 2 then 4 else 2
  }

  /** Shifts and masks until the value is below the modulus, with ever smaller shifts. */
  function ReduceFrom(res: nat, mod: nat, shift: nat): (r: nat)
    requires mod >= 2 && shift >= 1
    ensures r < mod
    decreases shift
  {
    if res < mod then res
    else if shift < 2 then (res / 2) % 2
    else ReduceFrom((res / Power(shift)) % Power(shift), mod, shift / 2)
  }

  function ReduceHash(hash: nat, mod: nat): (r: nat)
    requires mod > 0
    ensures r < mod
  {
    if mod < 2 then 0 else ReduceFrom(hash, mod, 16)
  }

  /** The value of the w highest bits of a 32-bit number. */
  function Top(hash: nat, w: nat): nat {
    if w >= 32 then hash
    else if w >= 16 then hash / 0x1_0000
    else if w >= 8 then hash / 0x100_0000
    else if w >= 4 then hash / 0x1000_0000
    else if w >= 2 then hash / 0x4000_0000
    else hash / 0x8000_0000
  }

  /** The reduced value consists of the highest 32, 16, 8, 4, 2 or 1 bits: as many as stay below the modulus. */
  lemma ReducedTop(hash: nat, mod: nat)
    requires hash <= UINT_MAX && mod >= 2
    ensures var r := ReduceHash(hash, mod);
            if Top(hash, 32) < mod then r == Top(hash, 32)
            else if Top(hash, 16) < mod then r == Top(hash, 16)
            else if Top(hash, 8) < mod then r == Top(hash, 8)
            else if Top(hash, 4) < mod then r == Top(hash, 4)
            else if Top(hash, 2) < mod then r == Top(hash, 2)
            else r == Top(hash, 1) < mod
  {
    hide ReduceFrom, Top, Power;
    TopSteps(hash);
    ReduceStep(hash, mod, 16);
    ReduceStep(Top(hash, 16), mod, 8);
    ReduceStep(Top(hash, 8), mod, 4);
    ReduceStep(Top(hash, 4), mod, 2);
    ReduceStep(Top(hash, 2), mod, 1);
  }

  lemma TopSteps(hash: nat)
    requires hash <= UINT_MAX
    ensures Top(hash, 32) == hash && (hash / Power(16)) % Power(16) == Top(hash, 16)
    ensures (Top(hash, 16) / Power(8)) % Power(8) == Top(hash, 8)
    ensures (Top(hash, 8) / Power(4)) % Power(4) == Top(hash, 4)
    ensures (Top(hash, 4) / Power(2)) % Power(2) == Top(hash, 2)
    ensures (Top(hash, 2) / 2) % 2 == Top(hash, 1) < 2
  {
  }

  lemma ReduceStep(res: nat, mod: nat, shift: nat)
    requires mod >= 2 && shift >= 1
    ensures ReduceFrom(res, mod, shift) ==
            if res < mod then res
            else if shift < 2 then (res / 2) % 2
            else ReduceFrom((res / Power(shift)) % Power(shift), mod, shift / 2)
  {
  }

  function LiveLines(lines: seq<Line>): set<nat> {
    set b: nat | b < |lines| && lines[b].live
  }

  ghost predicate Chained(lines: seq<Line>, table: seq<seq<nat>>, r: nat, b: nat) {
    b < |lines| && lines[b].live && |table| > 0 && ReduceHash(lines[b].hash, |table|) == r
  }

  /** Every line of ids is in the chain of its reduced hash value, and in no other one. */
  ghost predicate ChainsOK(lines: seq<Line>, table: seq<seq<nat>>, ids: set<nat>) {
    && (forall r: nat, i: nat ::
          r < |table| && i < |table[r]| ==> Chained(lines, table, r, table[r][i]) && table[r][i] in ids)
    && (forall r: nat, i: nat, j: nat :: r < |table| && i < j < |table[r]| ==> table[r][i] != table[r][j])
    && (forall b :: b in ids ==> |table| > 0 && InChain(lines, table, b))
  }

  ghost predicate InChain(lines: seq<Line>, table: seq<seq<nat>>, b: nat)
    requires |table| > 0
  {
    b < |lines| && b in table[ReduceHash(lines[b].hash, |table|)]
  }

  ghost predicate TableOK(lines: seq<Line>, table: seq<seq<nat>>, buckets: nat) {
    ChainsOK(lines, table, LiveLines(lines)) && buckets == |LiveLines(lines)| <= |table|
  }

  /** A line with the same hash value and number of literals, all of them in c. */
  predicate Matches(k: Line, hash: nat, c: seq<Lit>) {
    |k.lits| == |c| && k.hash == hash && forall l :: l in k.lits ==> l in c
  }

  lemma SameTable(lines: seq<Line>, lines': seq<Line>, table: seq<seq<nat>>, buckets: nat)
    requires TableOK(lines, table, buckets) && SameLines(lines, lines')
    ensures TableOK(lines', table, buckets)
  {
    forall b: nat | b < |lines| ensures lines'[b].live == lines[b].live && lines'[b].hash == lines[b].hash {
      assert SameLine(lines[b], lines'[b]);
    }
    assert LiveLines(lines') == LiveLines(lines);
    forall r: nat, i: nat | r < |table| && i < |table[r]| ensures Chained(lines', table, r, table[r][i]) {
      assert Chained(lines, table, r, table[r][i]);
    }
    forall b | b in LiveLines(lines') ensures InChain(lines', table, b) {
      assert InChain(lines, table, b);
    }
  }

  /** Putting a line at the front of its chain. */
  lemma PushChain(lines: seq<Line>, table: seq<seq<nat>>, ids: set<nat>, b: nat)
    requires ChainsOK(lines, table, ids) && b !in ids && b < |lines| && lines[b].live && |table| > 0
    ensures var r := ReduceHash(lines[b].hash, |table|); ChainsOK(lines, table[r := [b] + table[r]], ids + {b})
  {
    var r0 := ReduceHash(lines[b].hash, |table|);
    var table' := table[r0 := [b] + table[r0]];
    forall r: nat, i: nat | r < |table'| && i < |table'[r]|
      ensures Chained(lines, table', r, table'[r][i]) && table'[r][i] in ids + {b} {
      if r == r0 && i > 0 {
        assert table'[r][i] == table[r][i - 1] && Chained(lines, table, r, table[r][i - 1]);
      } else if r != r0 {
        assert Chained(lines, table, r, table[r][i]);
      }
    }
    forall r: nat, i: nat, j: nat | r < |table'| && i < j < |table'[r]| ensures table'[r][i] != table'[r][j] {
      if r == r0 {
        assert table'[r][j] == table[r][j - 1] && table[r][j - 1] in ids;
      }
    }
    forall a | a in ids + {b} ensures InChain(lines, table', a) {
      if a != b {
        assert InChain(lines, table, a);
        assert forall x :: x in table[r0] ==> x in table'[r0];
      } else {
        assert table'[r0][0] == b;
      }
    }
  }

  /** New lines at the end do not matter. */
  lemma MoreLines(lines: seq<Line>, k: Line, table: seq<seq<nat>>, ids: set<nat>)
    requires ChainsOK(lines, table, ids)
    ensures ChainsOK(lines + [k], table, ids)
  {
    forall r: nat, i: nat | r < |table| && i < |table[r]| ensures Chained(lines + [k], table, r, table[r][i]) {
      assert Chained(lines, table, r, table[r][i]);
    }
    forall b | b in ids ensures InChain(lines + [k], table, b) {
      assert InChain(lines, table, b);
    }
  }

  lemma EmptyChains(lines: seq<Line>, n: nat)
    ensures ChainsOK(lines, seq(n, _ => []), {})
  {
  }

  class Index {
    var table: seq<seq<nat>>
    var buckets: nat

    constructor ()
      ensures table == [] && buckets == 0 && TableOK([], table, buckets)
    {
      table, buckets := [], 0;
    }

    method Reduce(hash: nat, mod: nat) returns (res: nat)
      requires mod > 0
      ensures res == ReduceHash(hash, mod)
    {
      if mod < 2 {
        return 0;
      }
      res := hash;
      var shift, power := 16, 0x1_0000;
      while res >= mod
        invariant shift >= 1 && power == Power(shift)
        invariant (shift == 16 || shift == 8 || shift == 4 || shift == 2 || shift == 1)
        invariant ReduceFrom(res, mod, shift) == ReduceFrom(hash, mod, 16)
        decreases shift, res >= mod
      {
        if shift == 1 {
          res := (res / 2) % 2;
          break;
        }
        res := (res / power) % power;
        shift := shift / 2;
        power := if shift == 8 then 0x100 else if shift == 4 then 0x10 else if shift == 2 then 4 else 2;
      }
    }

    /** Doubles the table; the lines of each chain are put into their new chains. */
    method Resize(lines: seq<Line>)
      requires TableOK(lines, table, buckets)
      modifies this`table
      ensures TableOK(lines, table, buckets) && |table| == if |old(table)| == 0 then 1 else 2 * |old(table)|
    {
      var hashed := if |table| == 0 then 1 else 2 * |table|;
      var newTable: seq<seq<nat>> := seq(hashed, _ => []);
      ghost var ids: set<nat> := {};
      EmptyChains(lines, hashed);
      for i := 0 to |table|
        invariant |newTable| == hashed && table == old(table) && ChainsOK(lines, newTable, ids)
        invariant forall b: nat :: b in ids <==> exists r: nat :: r < i && b in table[r]
      {
        ghost var ids0 := ids;
        for j := 0 to |table[i]|
          invariant |newTable| == hashed && table == old(table) && ChainsOK(lines, newTable, ids)
          invariant forall b: nat :: b in ids <==> b in ids0 || b in table[i][..j]
        {
          var b := table[i][j];
          assert Chained(lines, table, i, table[i][j]);
          NotYetMoved(lines, table, LiveLines(lines), i, j);
          PushChain(lines, newTable, ids, b);
          var r := Reduce(lines[b].hash, hashed);
          newTable := newTable[r := [b] + newTable[r]];
          assert table[i][..j + 1] == table[i][..j] + [b];
          ids := ids + {b};
        }
        assert table[i][..|table[i]|] == table[i];
      }
      AllMoved(lines, table, ids);
      table := newTable;
    }

    /** Puts the last line at the front of its chain. */
    method Insert(lines: seq<Line>, k: Line)
      requires TableOK(lines, table, buckets) && k.live
      modifies this
      ensures TableOK(lines + [k], table, buckets) && buckets == old(buckets) + 1
    {
      hide ReduceHash, TableOK;
      TableSize(lines, table, buckets);
      if buckets == |table| {
        Resize(lines);
      }
      InsertedTable(lines, k, table, buckets);
      var r := Reduce(k.hash, |table|);
      table := table[r := [|lines|] + table[r]];
      buckets := buckets + 1;
    }

    /** Finds a live line that matches if there is one, and takes it out of its chain if asked to. */
    method FindLine(lines: seq<Line>, hash: nat, c: seq<Lit>, remove: bool) returns (b: int)
      requires TableOK(lines, table, buckets)
      modifies this
      ensures -1 <= b < |lines|
      ensures b >= 0 ==> lines[b].live && Matches(lines[b], hash, c)
      ensures b < 0 ==> forall a :: 0 <= a < |lines| && lines[a].live ==> !Matches(lines[a], hash, c)
      ensures (b < 0 || !remove) ==> table == old(table) && buckets == old(buckets)
      ensures b >= 0 && remove ==> TableOK(lines[b := lines[b].(live := false)], table, buckets)
    {
      if |table| == 0 {
        NoLines(lines, table, buckets);
        return -1;
      }
      var r := Reduce(hash, |table|);
      var chain := table[r];
      for i := 0 to |chain|
        invariant table == old(table) && buckets == old(buckets)
        invariant forall k :: 0 <= k < i ==> chain[k] < |lines| && !Matches(lines[chain[k]], hash, c)
      {
        assert Chained(lines, table, r, table[r][i]);
        if Matches(lines[chain[i]], hash, c) {
          b := chain[i];
          if remove {
            Unchained(lines, table, buckets, r, i);
            table := table[r := chain[..i] + chain[i + 1..]];
            buckets := buckets - 1;
          }
          return;
        }
      }
      b := -1;
      forall a | 0 <= a < |lines| && lines[a].live ensures !Matches(lines[a], hash, c) {
        assert a in LiveLines(lines) && InChain(lines, table, a);
        if lines[a].hash == hash {
          var k :| 0 <= k < |chain| && chain[k] == a;
        }
      }
    }
  }

  lemma TableSize(lines: seq<Line>, table: seq<seq<nat>>, buckets: nat)
    requires TableOK(lines, table, buckets)
    ensures buckets <= |table|
  {
  }

  lemma InsertedTable(lines: seq<Line>, k: Line, table: seq<seq<nat>>, buckets: nat)
    requires TableOK(lines, table, buckets) && buckets < |table| && k.live
    ensures var r := ReduceHash(k.hash, |table|); TableOK(lines + [k], table[r := [|lines|] + table[r]], buckets + 1)
  {
    hide ReduceHash;
    MoreLines(lines, k, table, LiveLines(lines));
    PushChain(lines + [k], table, LiveLines(lines), |lines|);
    assert LiveLines(lines + [k]) == LiveLines(lines) + {|lines|};
  }

  lemma NotYetMoved(lines: seq<Line>, table: seq<seq<nat>>, ids: set<nat>, i: nat, j: nat)
    requires ChainsOK(lines, table, ids) && i < |table| && j < |table[i]|
    ensures table[i][j] !in table[i][..j] && forall r: nat :: r < i ==> table[i][j] !in table[r]
  {
    assert Chained(lines, table, i, table[i][j]);
    forall r: nat | r < i ensures table[i][j] !in table[r] {
      forall k | 0 <= k < |table[r]| ensures table[r][k] != table[i][j] {
        assert Chained(lines, table, r, table[r][k]);
      }
    }
  }

  lemma AllMoved(lines: seq<Line>, table: seq<seq<nat>>, ids: set<nat>)
    requires ChainsOK(lines, table, LiveLines(lines))
    requires forall b: nat :: b in ids <==> exists r: nat :: r < |table| && b in table[r]
    ensures ids == LiveLines(lines)
  {
    forall b: nat ensures b in ids <==> b in LiveLines(lines) {
      if b in LiveLines(lines) {
        assert InChain(lines, table, b);
      }
      if b in ids {
        var r: nat :| r < |table| && b in table[r];
        var i :| 0 <= i < |table[r]| && table[r][i] == b;
        assert Chained(lines, table, r, table[r][i]);
      }
    }
  }

  lemma NoLines(lines: seq<Line>, table: seq<seq<nat>>, buckets: nat)
    requires TableOK(lines, table, buckets) && |table| == 0
    ensures forall b :: 0 <= b < |lines| ==> !lines[b].live
  {
    forall b | 0 <= b < |lines| ensures !lines[b].live {
      assert b !in LiveLines(lines);
    }
  }

  /** A line taken out of its chain is no longer live. */
  lemma Unchained(lines: seq<Line>, table: seq<seq<nat>>, buckets: nat, r: nat, i: nat)
    requires TableOK(lines, table, buckets) && r < |table| && i < |table[r]|
    ensures table[r][i] < |lines| && buckets >= 1
    ensures var b := table[r][i];
            TableOK(lines[b := lines[b].(live := false)], table[r := table[r][..i] + table[r][i + 1..]], buckets - 1)
  {
    hide ReduceHash;
    var b, chain := table[r][i], table[r];
    assert Chained(lines, table, r, table[r][i]);
    var lines', table' := lines[b := lines[b].(live := false)], table[r := chain[..i] + chain[i + 1..]];
    assert LiveLines(lines') == LiveLines(lines) - {b} && b in LiveLines(lines);
    forall q: nat, k: nat | q < |table'| && k < |table'[q]|
      ensures Chained(lines', table', q, table'[q][k]) && table'[q][k] in LiveLines(lines')
    {
      var k' := if q == r && k >= i then k + 1 else k;
      assert table'[q][k] == table[q][k'] && Chained(lines, table, q, table[q][k']);
      if q == r {
        assert table[q][k'] != b;
      }
    }
    forall q: nat, j: nat, k: nat | q < |table'| && j < k < |table'[q]| ensures table'[q][j] != table'[q][k] {
      assert q == r ==>
               table'[q][j] == table[q][if j >= i then j + 1 else j] &&
                   table'[q][k] == table[q][if k >= i then k + 1 else k];
    }
    forall a | a in LiveLines(lines') ensures InChain(lines', table', a) {
      assert InChain(lines, table, a) && a != b;
      StillInChain(lines, table, r, i, a);
    }
  }

  lemma StillInChain(lines: seq<Line>, table: seq<seq<nat>>, r: nat, i: nat, a: nat)
    requires r < |table| && i < |table[r]| && table[r][i] < |lines| && a != table[r][i] && InChain(lines, table, a)
    ensures var b := table[r][i];
            InChain(lines[b := lines[b].(live := false)], table[r := table[r][..i] + table[r][i + 1..]], a)
  {
    hide ReduceHash;
    var q := ReduceHash(lines[a].hash, |table|);
    var k :| 0 <= k < |table[q]| && table[q][k] == a;
    if q == r {
      var chain' := table[r][..i] + table[r][i + 1..];
      assert chain'[if k > i then k - 1 else k] == a;
    }
  }
}
