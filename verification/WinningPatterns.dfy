/** When a hand wins: the three patterns together, as the search, which may lose a wild tile, leaves them to be read. */
module WinningPatterns {
  import opened Tiles
  import opened DenseSearch
  import opened WinningHand
  import opened SevenPairs
  import opened StatlzModel
  import opened SearchWitnesses

  /**
   With at most two wild tiles a hand wins exactly when a pair leaves a cover in sight, or all its tiles pair up, or all
   its tiles are of the kinds 2, 5 and 8.
   */
  lemma WinningExact(c: Counts, gs: seq<Group>)
    requires Hand(c) && c[LAIZI] <= 2
    ensures Winning(c, gs) <==> (exists i, m :: WinsInSight(c, i, m)) || IsSevenPairs(c) || AllJiang(c, gs)
  {
    HuWild(c, 0);
    HuExact(c);
    assert c[LAIZI := c[LAIZI]] == c;
  }

  /** Without wild tiles: a pair, triples and runs; or seven pairs; or all tiles of the kinds 2, 5 and 8. */
  lemma WinningNoWild(c: Counts, gs: seq<Group>)
    requires Hand(c) && c[LAIZI] == 0 && c[40] == 0
    ensures Winning(c, gs) <==> (exists i, m :: Splits(c, i, m)) || IsSevenPairs(c) || AllJiang(c, gs)
  {
    HuWild(c, 0);
    NoWildExact(c);
    assert c[LAIZI := c[LAIZI]] == c;
  }

  lemma JiangIgnoresWilds(c: Counts, w: int, gs: seq<Group>)
    ensures AllJiang(c[LAIZI := w], gs) <==> AllJiang(c, gs)
  {
    var b := c[LAIZI := w];
    forall q | 0 <= q < KINDS && q != LAIZI ensures b[q] == c[q] {}
  }

  lemma {:induction false} HeldIgnoresWilds(c: Counts, w: int, i: nat)
    requires i <= KINDS
    ensures HeldFrom(c[LAIZI := w], i) == HeldFrom(c, i) && OddFrom(c[LAIZI := w], i) == OddFrom(c, i)
    decreases KINDS - i
  {
    if i < KINDS {
      HeldIgnoresWilds(c, w, i + 1);
    }
  }

  /**
   Whatever the number of wild tiles: of up to 14 tiles, seven pairs are recognised exactly when the search before has
   left all wild tiles in the array, or has won itself. The other two patterns do not depend on what it left.
   */
  lemma WinningAnyWilds(c: Counts, gs: seq<Group>)
    requires Hand(c) && HeldFrom(c, 0) + c[LAIZI] <= 14 && forall q | 0 <= q < KINDS && q != LAIZI :: c[q] <= 4
    ensures var h := HuFrom(c, 0);
      Winning(c, gs) <==> h.ok || (IsSevenPairs(c) && h.wild == c[LAIZI]) || AllJiang(c, gs)
  {
    var w := HuFrom(c, 0).wild;
    HuWild(c, 0);
    JiangIgnoresWilds(c, w, gs);
    HeldIgnoresWilds(c, w, 0);
    SevenPairsExact(c);
    SevenPairsExact(c[LAIZI := w]);
    if w == c[LAIZI] {
      assert c[LAIZI := w] == c;
    }
  }

  // ----- seven pairs missed for a lost wild tile -----

  /** 11, 12, 13, four pairs and some wild tiles: seven pairs when there are three. */
  function ThreeAndPairs(wilds: int): Counts {
    seq(KINDS, q =>
      if q == LAIZI then wilds else if 11 <= q <= 13 then 1 else if q in {16, 19, 22, 25} then 2 else 0)
  }

  /** A single triple can be completed, and then no other. */
  lemma OneTripleOnly(e: Counts, x: nat, y: nat)
    requires TIAO1 <= x < y <= TONG9 && e[x] == e[y] == 2 && e[LAIZI] == 1
    requires forall q | x < q < y :: e[q] <= 0
    requires x + 2 < y && y + 2 <= 40 && e[y + 1] <= 0 && e[y + 2] <= 0
    ensures Deal(e, x) == Outcome(false, 1, [])
  {
    TripleFails(e, x, y);
    assert e[LAIZI := 1] == e;
  }

  lemma TwoTriplesOnly(e: Counts, x: nat, y: nat, z: nat)
    requires TIAO1 <= x && x + 2 < y && y + 2 < z && z + 2 <= 40 && e[x] == e[y] == e[z] == 2 && e[LAIZI] == 2
    requires forall q | x < q < z && q != y :: e[q] <= 0
    requires e[z + 1] <= 0 && e[z + 2] <= 0
    ensures Deal(e, x) == Outcome(false, 2, [])
  {
    var d := TakeTriple(e, x);
    OneTripleOnly(d, y, z);
    NextIs(d, x, y);
    assert Kezi(e, x) == Outcome(false, 2, []);
    assert e[LAIZI := 2] == e;
  }

  lemma PairsOn11(c: Counts)
    requires c == ThreeAndPairs(3)
    ensures PairAt(c, 11) == Outcome(false, 3, [])
  {
    var d := TakePair(c, 11);
    NextIs(d, 0, 12);
    TripleFails(d, 12, 13);
    var e := TakeRun(d, 12);
    NextIs(e, 12, 16);
    OneTripleOnly(e, 16, 19);
    assert Shunzi(d, 12) == Outcome(false, 2, []);
  }

  /** Here a wild tile is lost: the run 11, 12, 13 is taken and undone while 12 is owed already. */
  lemma PairsOn12(c: Counts)
    requires c == ThreeAndPairs(3)
    ensures PairAt(c, 12) == Outcome(false, 2, [])
  {
    var d := TakePair(c, 12);
    NextIs(d, 0, 11);
    TripleFails(d, 11, 13);
    var e := TakeRun(d, 11);
    NextIs(e, 11, 16);
    OneTripleOnly(e, 16, 19);
    assert Shunzi(d, 11) == Outcome(false, 1, []);
  }

  lemma PairsOn13(c: Counts)
    requires c == ThreeAndPairs(2)
    ensures PairAt(c, 13) == Outcome(false, 2, [])
  {
    var d := TakePair(c, 13);
    Stuck(d, 0, 11);
  }

  lemma RunAndPairs(d: Counts, x: nat, y: nat, z: nat)
    requires 15 < x && x + 2 < y && y + 2 < z <= 25
    requires d[11] == d[12] == d[13] == 1 && d[LAIZI] == 2 && d[x] == d[y] == d[z] == 2
    requires forall q | Plain(q) && q !in {11, 12, 13, x, y, z} :: d[q] == 0
    ensures Deal(d, 11) == Outcome(false, 2, [])
  {
    TripleFails(d, 11, 12);
    var e := TakeRun(d, 11);
    NextIs(e, 11, x);
    TwoTriplesOnly(e, x, y, z);
  }

  lemma PairsOnPair(c: Counts, i: nat)
    requires c == ThreeAndPairs(2) && i in {16, 19, 22, 25}
    ensures PairAt(c, i) == Outcome(false, 2, [])
  {
    var d := TakePair(c, i);
    NextIs(d, 0, 11);
    if i == 16 {
      RunAndPairs(d, 19, 22, 25);
    } else if i == 19 {
      RunAndPairs(d, 16, 22, 25);
    } else if i == 22 {
      RunAndPairs(d, 16, 19, 25);
    } else {
      RunAndPairs(d, 16, 19, 22);
    }
  }

  lemma {:induction false} NoPairLater(c: Counts, j: nat)
    requires 13 <= j <= 41 && c == ThreeAndPairs(2)
    ensures HuFrom(c, j) == Outcome(false, 2, [])
    decreases 41 - j
  {
    if j < 41 {
      if j == 13 {
        PairsOn13(c);
      } else if PairGuard(c, j) {
        PairsOnPair(c, j);
      }
      assert c[LAIZI := 2] == c;
      NoPairLater(c, j + 1);
    }
  }

  lemma SearchLosesWild(c: Counts)
    requires c == ThreeAndPairs(3)
    ensures HuFrom(c, 0) == Outcome(false, 2, [])
  {
    HuSkip(c, 0, 11);
    PairsOn11(c);
    assert c[LAIZI := 3] == c;
    PairsOn12(c);
    assert c[LAIZI := 2] == ThreeAndPairs(2);
    NoPairLater(ThreeAndPairs(2), 13);
  }

  lemma {:induction false} PairsSkip(c: Counts, i: nat, j: nat, lz: int)
    requires i <= j <= KINDS && forall q | i <= q < j && q != LAIZI :: c[q] == 0
    ensures PairsFrom(c, i, lz) == PairsFrom(c, j, lz)
    decreases j - i
  {
    if i < j {
      PairsSkip(c, i + 1, j, lz);
    }
  }

  /** The four pairs count for themselves. */
  lemma FourPairs(c: Counts, w: int, lz: int)
    requires c == ThreeAndPairs(w)
    ensures PairsFrom(c, 14, lz) == 4
  {
    PairsSkip(c, 14, 16, lz);
    PairsSkip(c, 17, 19, lz);
    PairsSkip(c, 20, 22, lz);
    PairsSkip(c, 23, 25, lz);
    PairsSkip(c, 26, 41, lz);
  }

  /** Each of the three single tiles needs a wild tile. */
  lemma PairsFound(c: Counts, w: int)
    requires c == ThreeAndPairs(w) && 2 <= w <= 3
    ensures IsSevenPairs(c) <==> w == 3
  {
    PairsSkip(c, 0, 11, w);
    FourPairs(c, w, w - 3);
    FourPairs(c, w, w - 2);
    assert PairsFrom(c, 11, w) == 1 + PairsFrom(c, 12, w - 1);
    assert PairsFrom(c, 12, w - 1) == 1 + PairsFrom(c, 13, w - 2);
  }

  /** Fourteen tiles that are seven pairs, with three wild tiles, do not win: the search before has lost one of them. */
  lemma SevenPairsMissed(c: Counts)
    requires c == ThreeAndPairs(3)
    ensures IsSevenPairs(c) && !Winning(c, [])
  {
    SearchLosesWild(c);
    PairsFound(c, 3);
    assert c[LAIZI := 2] == ThreeAndPairs(2);
    PairsFound(ThreeAndPairs(2), 2);
    assert c[11] > 0 && !IsJiang(11);
  }
}
