/** The winning-hand search without wild tiles over a sorted run-length encoding, and its relation to the dense one. */
module CompressedSearch {
  import opened Tiles
  import opened DenseSearch
  import opened WinningHand

  /** Distinct plain codes in ascending order, with a count for each. */
  predicate Encoded(val: seq<nat>, num: seq<int>) {
    && |val| == |num|
    && (forall i | 0 <= i < |val| :: Plain(val[i]))
    && (forall i | 0 <= i < |num| :: num[i] >= 0)
    && (forall i, j | 0 <= i < j < |val| :: val[i] < val[j])
  }

  function NextIndex(num: seq<int>, i: nat): (j: nat)
    requires i <= |num|
    ensures i <= j <= |num| && (j < |num| ==> num[j] != 0)
    ensures forall k | i <= k < j :: num[k] == 0
    decreases |num| - i
  {
    if i < |num| && num[i] == 0 then NextIndex(num, i + 1) else i
  }

  function LessTriple(num: seq<int>, i: nat): seq<int>
    requires i < |num|
  {
    num[i := num[i] - 3]
  }

  predicate RunAt(val: seq<nat>, num: seq<int>, i: nat)
    requires Encoded(val, num)
  {
    && i + 2 < |num| && val[i] >= TIAO1
    && num[i] >= 1 && num[i + 1] >= 1 && num[i + 2] >= 1
    && val[i] + 1 == val[i + 1] && val[i + 1] + 1 == val[i + 2]
  }

  function LessRun(num: seq<int>, i: nat): seq<int>
    requires i + 2 < |num|
  {
    num[i := num[i] - 1][i + 1 := num[i + 1] - 1][i + 2 := num[i + 2] - 1]
  }

  predicate TripleFits(val: seq<nat>, num: seq<int>, i: nat)
    requires Encoded(val, num) && i <= |num|
    decreases |num| - i, if i < |num| then num[i] else 0, 0
  {
    i == |num| || (num[i] >= 3 && RestFits(val, LessTriple(num, i), NextIndex(LessTriple(num, i), i)))
  }

  predicate RunFits(val: seq<nat>, num: seq<int>, i: nat)
    requires Encoded(val, num) && i <= |num|
    decreases |num| - i, if i < |num| then num[i] else 0, 0
  {
    i == |num| || (RunAt(val, num, i) && RestFits(val, LessRun(num, i), NextIndex(LessRun(num, i), i)))
  }

  predicate RestFits(val: seq<nat>, num: seq<int>, i: nat)
    requires Encoded(val, num) && i <= |num|
    decreases |num| - i, if i < |num| then num[i] else 0, 1
  {
    TripleFits(val, num, i) || RunFits(val, num, i)
  }

  /** The pair at index `i` is set aside and the rest is searched from index 0. */
  predicate PairFits(val: seq<nat>, num: seq<int>, i: nat)
    requires Encoded(val, num)
  {
    i < |num| && num[i] >= 2 && RestFits(val, num[i := num[i] - 2], 0)
  }

  predicate Accepts(val: seq<nat>, num: seq<int>)
    requires Encoded(val, num)
  {
    exists i | 0 <= i < |num| :: PairFits(val, num, i)
  }

  // ----- the dense array behind an encoding -----

  ghost function CountOf(val: seq<nat>, num: seq<int>, q: int): int
    requires |val| == |num|
  {
    if k :| 0 <= k < |val| && val[k] == q then num[k] else 0
  }

  ghost function Dense(val: seq<nat>, num: seq<int>): Counts
    requires |val| == |num|
  {
    seq(KINDS, q => CountOf(val, num, q))
  }

  /** The code at an index; past the end, the position at which the dense search has nothing left. */
  function CodeAt(val: seq<nat>, i: nat): nat {
    if i < |val| then val[i] else 40
  }

  lemma DenseAt(val: seq<nat>, num: seq<int>, i: nat)
    requires Encoded(val, num) && i < |val|
    ensures Dense(val, num)[val[i]] == num[i]
  {
  }

  lemma DenseHand(val: seq<nat>, num: seq<int>)
    requires Encoded(val, num)
    ensures Hand(Dense(val, num)) && Dense(val, num)[LAIZI] == 0 && Dense(val, num)[40] == 0
  {
    assert forall k | 0 <= k < |val| :: Plain(val[k]);
  }

  lemma DenseUpdate(val: seq<nat>, num: seq<int>, i: nat, x: int)
    requires Encoded(val, num) && i < |val| && x >= 0
    ensures Encoded(val, num[i := x]) && Dense(val, num[i := x]) == Dense(val, num)[val[i] := x]
  {
    var num' := num[i := x];
    forall q | 0 <= q < KINDS
      ensures CountOf(val, num', q) == if q == val[i] then x else CountOf(val, num, q)
    {
      if k :| 0 <= k < |val| && val[k] == q {
        DenseAt(val, num, k);
        DenseAt(val, num', k);
      }
    }
  }

  /** The dense search looks for its next code exactly where the compressed one finds its next index. */
  lemma NextAgrees(val: seq<nat>, num: seq<int>, i: nat)
    requires Encoded(val, num) && i < |num|
    ensures Next(Dense(val, num), val[i]) == CodeAt(val, NextIndex(num, i))
  {
    var j := NextIndex(num, i);
    var c := Dense(val, num);
    forall q | val[i] <= q < CodeAt(val, j) ensures c[q] <= 0 {
      if k :| 0 <= k < |val| && val[k] == q {
        assert i <= k < j;
      }
    }
    if j < |num| {
      DenseAt(val, num, j);
    }
    NextIs(c, val[i], CodeAt(val, j));
  }

  /** Three consecutive codes held are three consecutive indices held. */
  lemma RunAgrees(val: seq<nat>, num: seq<int>, i: nat)
    requires Encoded(val, num) && i < |num| && num[i] > 0
    ensures RunAt(val, num, i) <==> val[i] >= TIAO1 && RunGuard(Dense(val, num), val[i])
  {
    var c := Dense(val, num);
    DenseAt(val, num, i);
    DenseHand(val, num);
    if val[i] >= TIAO1 && RunGuard(c, val[i]) {
      HeldAbove(val, num, i, val[i] + 1);
      HeldAbove(val, num, i + 1, val[i] + 2);
      DenseAt(val, num, i + 1);
      DenseAt(val, num, i + 2);
    }
    if RunAt(val, num, i) {
      DenseAt(val, num, i + 1);
      DenseAt(val, num, i + 2);
    }
  }

  lemma LessRunDense(val: seq<nat>, num: seq<int>, i: nat)
    requires Encoded(val, num) && RunAt(val, num, i)
    ensures Encoded(val, LessRun(num, i)) && val[i] <= TONG7
    ensures Dense(val, LessRun(num, i)) == TakeRun(Dense(val, num), val[i])
  {
    DenseAt(val, num, i);
    DenseAt(val, num, i + 1);
    DenseAt(val, num, i + 2);
    var n1 := num[i := num[i] - 1];
    var n2 := n1[i + 1 := n1[i + 1] - 1];
    DenseUpdate(val, num, i, num[i] - 1);
    DenseUpdate(val, n1, i + 1, n1[i + 1] - 1);
    DenseUpdate(val, n2, i + 2, n2[i + 2] - 1);
  }

  lemma HeldAbove(val: seq<nat>, num: seq<int>, i: nat, q: int)
    requires Encoded(val, num) && i < |num| && q == val[i] + 1 && q < KINDS && Dense(val, num)[q] > 0
    ensures i + 1 < |num| && val[i + 1] == q
  {
    var k :| 0 <= k < |val| && val[k] == q;
    assert i < k && val[i] < val[i + 1];
  }

  /** The compressed search answers exactly like the dense search on the array it encodes. */
  lemma {:induction false} RestAgrees(val: seq<nat>, num: seq<int>, i: nat)
    requires Encoded(val, num) && i <= |num| && (i < |num| ==> num[i] > 0)
    ensures Ready(Dense(val, num), CodeAt(val, i))
    ensures RestFits(val, num, i) == Deal(Dense(val, num), CodeAt(val, i)).ok
    decreases |num| - i, if i < |num| then num[i] else 0
  {
    var c := Dense(val, num);
    DenseHand(val, num);
    HandBudget(c);
    if i < |num| {
      var p := val[i];
      DenseAt(val, num, i);
      KeziWild(c, p);
      assert c[LAIZI := c[LAIZI]] == c;
      TripleAgrees(val, num, i);
      RunFitsAgrees(val, num, i);
    }
  }

  lemma {:induction false} TripleAgrees(val: seq<nat>, num: seq<int>, i: nat)
    requires Encoded(val, num) && i < |num| && num[i] > 0
    ensures Ready(Dense(val, num), val[i]) && TripleFits(val, num, i) == Kezi(Dense(val, num), val[i]).ok
    decreases |num| - i, num[i], 0
  {
    DenseHand(val, num);
    DenseAt(val, num, i);
    if num[i] >= 3 {
      DenseUpdate(val, num, i, num[i] - 3);
      var c := Dense(val, num);
      assert TakeTriple(c, val[i]) == Dense(val, LessTriple(num, i));
      NextAgrees(val, LessTriple(num, i), i);
      RestAgrees(val, LessTriple(num, i), NextIndex(LessTriple(num, i), i));
    }
  }

  lemma {:induction false} RunFitsAgrees(val: seq<nat>, num: seq<int>, i: nat)
    requires Encoded(val, num) && i < |num| && num[i] > 0
    ensures Ready(Dense(val, num), val[i]) && RunFits(val, num, i) == Shunzi(Dense(val, num), val[i]).ok
    decreases |num| - i, num[i], 0
  {
    DenseAt(val, num, i);
    RunAgrees(val, num, i);
    if RunAt(val, num, i) {
      LessRunDense(val, num, i);
      NextAgrees(val, LessRun(num, i), i);
      RestAgrees(val, LessRun(num, i), NextIndex(LessRun(num, i), i));
    }
  }

  // ----- the whole hand -----

  /** Every code of the encoding is held. */
  predicate AllHeld(num: seq<int>) {
    forall i | 0 <= i < |num| :: num[i] > 0
  }

  /** The pair the compressed search cannot see: the lowest code of the hand, held exactly twice. */
  ghost predicate LowestExactlyTwice(c: Counts, i: int) {
    Plain(i) && c[i] == 2 && forall q | Plain(q) && q < i :: c[q] == 0
  }

  lemma PairExact(c: Counts, i: int)
    requires Hand(c) && c[LAIZI] == 0 && c[40] == 0 && PairGuard(c, i)
    ensures PairAt(c, i).ok <==> exists m :: Splits(c, i, m)
  {
    if PairAt(c, i).ok {
      PairSound(c, i);
      ExactWin(c, i, multiset(PairAt(c, i).groups[1..]));
    }
    if m :| Splits(c, i, m) {
      SplitsWin(c, i, m);
      PairComplete(c, i, m);
    }
  }

  lemma PairAgrees(val: seq<nat>, num: seq<int>, k: nat)
    requires Encoded(val, num) && AllHeld(num) && k < |num|
    ensures var c := Dense(val, num);
      PairFits(val, num, k) <==> !LowestExactlyTwice(c, val[k]) && PairGuard(c, val[k]) && PairAt(c, val[k]).ok
  {
    var c := Dense(val, num);
    DenseHand(val, num);
    DenseAt(val, num, k);
    DenseAt(val, num, 0);
    if num[k] >= 2 {
      var num' := num[k := num[k] - 2];
      DenseUpdate(val, num, k, num[k] - 2);
      assert Dense(val, num') == TakePair(c, val[k]);
      if num'[0] == 0 {
        assert k == 0 && forall q | Plain(q) && q < val[0] :: c[q] == 0;
        EmptyFirst(val, num');
      } else {
        assert k == 0 || (c[val[0]] > 0 && val[0] < val[k]);
        DenseAt(val, num', 0);
        FirstCode(val, num');
        RestAgrees(val, num', 0);
      }
    }
  }

  /** The search starts at index 0 even when the pair used up that code, and then finds nothing. */
  lemma EmptyFirst(val: seq<nat>, num: seq<int>)
    requires Encoded(val, num) && |num| > 0 && num[0] == 0
    ensures !RestFits(val, num, 0)
  {
    assert !TripleFits(val, num, 0) && !RunFits(val, num, 0);
  }

  lemma FirstCode(val: seq<nat>, num: seq<int>)
    requires Encoded(val, num) && |num| > 0 && num[0] > 0
    ensures Next(Dense(val, num), 0) == val[0]
  {
    DenseAt(val, num, 0);
    assert forall k | 0 <= k < |val| :: val[0] <= val[k];
    NextIs(Dense(val, num), 0, val[0]);
  }

  /** Accepted are exactly the hands with a split whose pair is not the lowest code held exactly twice. */
  lemma CompressedExact(val: seq<nat>, num: seq<int>)
    requires Encoded(val, num) && AllHeld(num)
    ensures var c := Dense(val, num);
      Accepts(val, num) <==> exists i, m :: Splits(c, i, m) && !LowestExactlyTwice(c, i)
  {
    if k :| 0 <= k < |num| && PairFits(val, num, k) {
      AcceptedSplits(val, num, k);
    }
    if i, m :| Splits(Dense(val, num), i, m) && !LowestExactlyTwice(Dense(val, num), i) {
      SplitAccepted(val, num, i, m);
    }
  }

  lemma AcceptedSplits(val: seq<nat>, num: seq<int>, k: nat)
    requires Encoded(val, num) && AllHeld(num) && k < |num| && PairFits(val, num, k)
    ensures exists m :: Splits(Dense(val, num), val[k], m) && !LowestExactlyTwice(Dense(val, num), val[k])
  {
    var c := Dense(val, num);
    DenseHand(val, num);
    PairAgrees(val, num, k);
    PairExact(c, val[k]);
    var m :| Splits(c, val[k], m);
  }

  lemma SplitAccepted(val: seq<nat>, num: seq<int>, i: nat, m: multiset<Group>)
    requires Encoded(val, num) && AllHeld(num)
    requires Splits(Dense(val, num), i, m) && !LowestExactlyTwice(Dense(val, num), i)
    ensures Accepts(val, num)
  {
    var c := Dense(val, num);
    DenseHand(val, num);
    assert c[i] >= 2;
    var k :| 0 <= k < |val| && val[k] == i;
    DenseAt(val, num, k);
    PairExact(c, i);
    PairAgrees(val, num, k);
  }

  /** So it implies the dense search, and differs from it only when the lowest code is held exactly twice. */
  lemma CompressedImpliesDense(val: seq<nat>, num: seq<int>)
    requires Encoded(val, num) && AllHeld(num)
    ensures Accepts(val, num) ==> HuFrom(Dense(val, num), 0).ok
    ensures HuFrom(Dense(val, num), 0).ok && !Accepts(val, num) ==> |num| > 0 && num[0] == 2
  {
    var c := Dense(val, num);
    DenseHand(val, num);
    CompressedExact(val, num);
    NoWildExact(c);
    if HuFrom(c, 0).ok && !Accepts(val, num) {
      var i, m :| Splits(c, i, m);
      assert LowestExactlyTwice(c, i);
      var k :| 0 <= k < |val| && val[k] == i;
      DenseAt(val, num, 0);
      DenseAt(val, num, k);
      assert k == 0;
    }
  }

  /** The difference is real: a bare pair is rejected. */
  lemma BarePairRejected(q: nat, val: seq<nat>, num: seq<int>)
    requires Plain(q) && val == [q] && num == [2]
    ensures Encoded(val, num) && AllHeld(num) && !Accepts(val, num)
    ensures Splits(Dense(val, num), q, multiset{})
  {
    DenseHand(val, num);
    DenseAt(val, num, 0);
    EmptyFirst(val, num[0 := 0]);
    assert !PairFits(val, num, 0);
    forall x | Plain(x) && x != q ensures Dense(val, num)[x] == 0 {
      assert forall k | 0 <= k < |val| :: val[k] != x;
    }
  }
}
