/** Concrete hands on which the wild-tile search departs from the rules, or does not restore its wild count. */
module SearchWitnesses {
  import opened Tiles
  import opened DenseSearch
  import opened DenseProofs
  import opened WinningHand
  import opened RulesOfPlay

  /** The hand 1, 1, a, b and one wild tile. */
  function PairAnd(a: int, b: int): Counts {
    seq(KINDS, q => if q == 1 then 2 else if q == a || q == b || q == LAIZI then 1 else 0)
  }

  lemma {:induction false} HuSkip(c: Counts, i: nat, j: nat)
    requires i <= j <= 41 && forall k | i <= k < j :: !PairGuard(c, k)
    ensures HuFrom(c, i) == HuFrom(c, j)
    decreases j - i
  {
    if i < j {
      HuSkip(c, i + 1, j);
    }
  }

  lemma OneRunWins(a: int, b: int, s: int, q: int)
    requires TIAO1 <= s <= q <= s + 2 && s <= TONG7 && a != b && {a, b} == {s, s + 1, s + 2} - {q}
    ensures Wins(PairAnd(a, b), 1, multiset{Group(Shun, s)})
  {
    OneRunCovers(a, b, s, q);
    WinsMeaning(PairAnd(a, b), 1, multiset{Group(Shun, s)});
  }

  lemma OneRunCovers(a: int, b: int, s: int, q: int)
    requires TIAO1 <= s <= q <= s + 2 && s <= TONG7 && a != b && {a, b} == {s, s + 1, s + 2} - {q}
    ensures PairCovers(PairAnd(a, b), 1, multiset{Group(Shun, s)})
  {
    var c := PairAnd(a, b);
    var m, d := multiset{Group(Shun, s)}, TakePair(c, 1);
    var z: Counts := seq(KINDS, _ => 0);
    assert a in {a, b} && b in {a, b} && q !in {a, b};
    assert {s, s + 1, s + 2} == {a, b, q} by {
      assert {s, s + 1, s + 2} == {a, b} + {q};
    }
    assert s in {a, b, q} && s + 1 in {a, b, q} && s + 2 in {a, b, q};
    forall x | Plain(x) ensures Rest(d, m)[x] == z[q := -1][x] {
      assert d[x] == if x == a || x == b then 1 else 0;
    }
    assert Rest(d, m) == z[q := -1];
    NoDebtTo(z, 40);
    NoDebtTo(d, 40);
    DebtUpdate(z, q, -1);
  }

  lemma AcceptedAcrossSuits(c: Counts)
    requires c == PairAnd(19, 21)
    ensures HuFrom(c, 0).ok
  {
    OneRunWins(19, 21, 19, 20);
    StartsHeld(c, 19);
    HuComplete(c, 0, 1, multiset{Group(Shun, 19)});
  }

  lemma AcrossSuitsNoRuleWin(c: Counts)
    requires c == PairAnd(19, 21)
    ensures !RuleWin(c)
  {
    forall i, m | Wins(c, i, m) ensures !RuleBag(m) {
      WinsMeaning(c, i, m);
      AcrossSuitsIsNoRule(c, i, m);
    }
  }

  /** 19, 21 and a wild tile are taken for a run, although they belong to two suits. */
  lemma AcceptsAcrossSuits(c: Counts)
    requires c == PairAnd(19, 21)
    ensures HuFrom(c, 0).ok
    ensures !RuleWin(c)
  {
    AcceptedAcrossSuits(c);
    AcrossSuitsNoRuleWin(c);
  }

  lemma StartsHeld(c: Counts, s: int)
    requires TIAO1 <= s <= TONG7 && Hand(c) && c[s] > 0 && PairGuard(c, 1) && c[1] == 2
    ensures InSight(TakePair(c, 1), multiset{Group(Shun, s)})
  {
  }

  lemma AcrossSuitsIsNoRule(c: Counts, i: int, m: multiset<Group>)
    requires c == PairAnd(19, 21) && PairCovers(c, i, m)
    ensures !RuleBag(m)
  {
    var d := TakePair(c, i);
    PairReady(c, i);
    var q := if i == 19 then 21 else 19;
    OneShort(d, m, q, q);
    OneShort(d, m, if i == 19 then 19 else 17, if i == 19 then 22 else 18);
    assert forall s :: Starting(m, s) > 0 ==> Group(Shun, s) in m;
    assert Starting(m, 19) > 0 ==> !InSuit(Group(Shun, 19).val);
  }

  lemma MissedTopRun(c: Counts)
    requires c == PairAnd(38, 39)
    ensures !HuFrom(c, 0).ok
  {
    HuExact(c);
    forall i, m ensures !WinsInSight(c, i, m) {
      WinsMeaning(c, i, m);
      if PairCovers(c, i, m) {
        TopRunOutOfSight(c, i, m);
      }
    }
  }

  lemma TopRunRuleWin(c: Counts)
    requires c == PairAnd(38, 39)
    ensures RuleWin(c)
  {
    OneRunWins(38, 39, 37, 37);
    assert Wins(c, 1, multiset{Group(Shun, 37)}) && RuleBag(multiset{Group(Shun, 37)});
  }

  /** 38, 39 and a wild tile are not recognised as the run 37, 38, 39. */
  lemma MissesTopRun(c: Counts)
    requires c == PairAnd(38, 39)
    ensures !HuFrom(c, 0).ok
    ensures RuleWin(c)
  {
    MissedTopRun(c);
    TopRunRuleWin(c);
  }

  lemma TopRunOutOfSight(c: Counts, i: int, m: multiset<Group>)
    requires c == PairAnd(38, 39) && PairCovers(c, i, m)
    ensures !InSight(TakePair(c, i), m)
  {
    var d := TakePair(c, i);
    PairReady(c, i);
    var q := if i == 38 then 39 else 38;
    OneShort(d, m, q, q);
    if InSight(d, m) {
      NoRunFrom(d, m, 36);
      NoRunFrom(d, m, 37);
      NoTopStart(d, m, 38);
      NoTopStart(d, m, 39);
    }
  }

  lemma NoTopStart(d: Counts, m: multiset<Group>, s: int)
    requires GroupBag(m) && s > TONG7
    ensures Starting(m, s) == 0
  {
    assert Starting(m, s) > 0 ==> Group(Shun, s) in m;
  }

  // ----- two and three wild tiles -----

  /** Neither a triple nor a run can be taken. */
  lemma Stuck(c: Counts, p: nat, r: nat)
    requires p <= r <= TONG9 && r != LAIZI && (forall q | p <= q < r && q != LAIZI :: c[q] <= 0) && c[r] > 0
    requires c[r] + c[LAIZI] < 3 && (r < TIAO1 || !RunGuard(c, r))
    ensures Next(c, p) == r && Deal(c, r) == Outcome(false, c[LAIZI], [])
  {
    NextIs(c, p, r);
    assert c[LAIZI := c[LAIZI]] == c;
  }

  /** A triple is taken, and the search is stuck behind it on `r`. */
  lemma TripleFails(c: Counts, p: nat, r: nat)
    requires Ready(c, p) && p <= r <= TONG9 && c[p] + c[LAIZI] >= 3 && r != LAIZI
    requires var d := TakeTriple(c, p);
      && (forall q | p <= q < r && q != LAIZI :: d[q] <= 0)
      && d[r] > 0 && d[r] + d[LAIZI] < 3 && (r < TIAO1 || !RunGuard(d, r))
    ensures Kezi(c, p) == Outcome(false, c[LAIZI], []) && Deal(c, p) == Shunzi(c, p)
  {
    Stuck(TakeTriple(c, p), p, r);
    assert c[LAIZI := c[LAIZI]] == c;
  }

  /** A run is taken, and the search is stuck behind it on `r`. */
  lemma RunFails(c: Counts, p: nat, r: nat)
    requires Ready(c, p) && TIAO1 <= p <= r <= TONG9 && RunGuard(c, p)
    requires var d := TakeRun(c, p);
      && (forall q | p <= q < r :: d[q] <= 0) && d[r] > 0 && d[r] + d[LAIZI] < 3 && !RunGuard(d, r)
    ensures !Shunzi(c, p).ok
    ensures c[p + 1] >= 0 && c[p + 2] >= 0 ==> Shunzi(c, p).wild == c[LAIZI]
  {
    Stuck(TakeRun(c, p), p, r);
  }

  function Hand111224(): Counts {
    seq(KINDS, q => if q == 1 || q == 12 || q == LAIZI then 2 else if q == 11 || q == 14 then 1 else 0)
  }

  function HandThreeWilds(): Counts {
    seq(KINDS, q => if q == LAIZI then 3 else if q == 13 then 2 else if q == 11 || q == 12 || q == 15 then 1 else 0)
  }

  lemma FirstPairFails(c: Counts)
    requires c == Hand111224()
    ensures !PairAt(c, 1).ok
  {
    var d := TakePair(c, 1);
    NextIs(d, 0, 11);
    TripleFails(d, 11, 12);
    RunFails(d, 11, 12);
  }

  lemma OtherPairFails(c: Counts, i: nat)
    requires c == Hand111224() && (i == 11 || i == 12 || i == 14)
    ensures !PairAt(c, i).ok
  {
    var d := TakePair(c, i);
    NextIs(d, 0, 1);
    TripleFails(d, 1, if i == 11 then 12 else 11);
  }

  lemma PairFails(c: Counts, i: int)
    requires c == Hand111224() && PairGuard(c, i)
    ensures !PairAt(c, i).ok && PairAt(c, i).wild == c[LAIZI]
  {
    if i == 1 {
      FirstPairFails(c);
    } else {
      OtherPairFails(c, i);
    }
    PairReady(c, i);
    DealWild(TakePair(c, i), Next(TakePair(c, i), 0));
  }

  /** 1 1, 11 12 and 12 14 with two wild tiles for two 13s: the search charges the second 13 twice and gives up. */
  lemma MissesSharedWild(c: Counts)
    requires c == Hand111224()
    ensures !HuFrom(c, 0).ok
    ensures RuleWin(c)
  {
    MissedSharedWild(c);
    SharedWildWins(c);
  }

  lemma MissedSharedWild(c: Counts)
    requires c == Hand111224()
    ensures !HuFrom(c, 0).ok
  {
    NoPairLeft(c, 0);
  }

  lemma {:induction false} NoPairLeft(c: Counts, j: nat)
    requires j <= 41 && c == Hand111224()
    ensures !HuFrom(c, j).ok
    decreases 41 - j
  {
    if j < 41 {
      if PairGuard(c, j) {
        PairFails(c, j);
        assert c[LAIZI := c[LAIZI]] == c;
      }
      NoPairLeft(c, j + 1);
    }
  }

  lemma SharedWildWins(c: Counts)
    requires c == Hand111224()
    ensures RuleWin(c)
  {
    var m := multiset{Group(Shun, 11), Group(Shun, 12)};
    SharedWildCovers(c, m);
    WinsMeaning(c, 1, m);
    assert Wins(c, 1, m) && RuleBag(m);
  }

  lemma SharedWildCovers(c: Counts, m: multiset<Group>)
    requires c == Hand111224() && m == multiset{Group(Shun, 11), Group(Shun, 12)}
    ensures PairCovers(c, 1, m)
  {
    var d := TakePair(c, 1);
    var z: Counts := seq(KINDS, _ => 0);
    assert Rest(d, m) == z[13 := -2];
    NoDebtTo(z, 40);
    NoDebtTo(d, 40);
    DebtUpdate(z, 13, -2);
  }

  lemma ThreeWildsFirstPair(c: Counts)
    requires c == HandThreeWilds()
    ensures PairAt(c, 11) == Outcome(false, 3, [])
  {
    var d := TakePair(c, 11);
    NextIs(d, 0, 12);
    TripleFails(d, 12, 13);
    RunFails(d, 12, 13);
  }

  lemma ThreeWildsRun(e: Counts)
    requires e[13] == 1 && e[14] == 0 && e[15] == 1 && e[LAIZI] == 1
    requires forall q | Plain(q) && q != 13 && q != 15 :: e[q] <= 0
    ensures Next(e, 11) == 13 && Deal(e, 13).ok && Deal(e, 13).wild == 1
  {
    NextIs(e, 11, 13);
    assert e[LAIZI := e[LAIZI]] == e;
    assert Deal(e, 13) == Shunzi(e, 13);
    NextIs(TakeRun(e, 13), 13, 40);
    assert Deal(TakeRun(e, 13), 40) == Outcome(true, 0, []);
  }

  lemma ThreeWildsSecondPair(c: Counts)
    requires c == HandThreeWilds()
    ensures PairAt(c, 12).ok && PairAt(c, 12).wild == 2
  {
    var d := TakePair(c, 12);
    NextIs(d, 0, 11);
    TripleFails(d, 11, 13);
    ThreeWildsRun(TakeRun(d, 11));
    assert Shunzi(d, 11).ok && Shunzi(d, 11).wild == 1;
  }

  /** With three wild tiles a successful search can leave one wild tile fewer in the array than it found. */
  lemma LosesThirdWild(c: Counts)
    requires c == HandThreeWilds()
    ensures HuFrom(c, 0).ok && HuFrom(c, 0).wild == 2 < c[LAIZI]
  {
    HuSkip(c, 0, 11);
    ThreeWildsFirstPair(c);
    assert c[LAIZI := 3] == c;
    ThreeWildsSecondPair(c);
    assert HuFrom(c, 11) == HuFrom(c, 12);
  }

  // ----- a hand missed for a lost wild tile -----

  /** 11, 12, 13, 16, 19 and some wild tiles: a run, a pair and a triple when there are three. */
  function HandOfFive(wilds: int): Counts {
    seq(KINDS, q => if q == LAIZI then wilds else if q in {11, 12, 13, 16, 19} then 1 else 0)
  }

  lemma PairOn11(c: Counts)
    requires c == HandOfFive(3)
    ensures PairAt(c, 11) == Outcome(false, 3, [])
  {
    var d := TakePair(c, 11);
    NextIs(d, 0, 12);
    TripleFails(d, 12, 13);
    RunFails(d, 12, 16);
  }

  /** Here a wild tile is lost: the run 11, 12, 13 is taken and undone while 12 is owed already. */
  lemma PairOn12(c: Counts)
    requires c == HandOfFive(3)
    ensures PairAt(c, 12) == Outcome(false, 2, [])
  {
    var d := TakePair(c, 12);
    NextIs(d, 0, 11);
    TripleFails(d, 11, 13);
    Stuck(TakeRun(d, 11), 11, 16);
  }

  lemma LaterPairs(c: Counts, i: nat)
    requires c == HandOfFive(2) && (i == 13 || i == 16 || i == 19)
    ensures PairAt(c, i) == Outcome(false, 2, [])
  {
    var d := TakePair(c, i);
    NextIs(d, 0, 11);
    assert Kezi(d, 11) == Outcome(false, 1, []);
    assert d[LAIZI := 1] == d;
    if i == 13 {
      Stuck(d, 0, 11);
    } else {
      RunFails(d, 11, if i == 16 then 19 else 16);
    }
  }

  lemma {:induction false} NothingLater(c: Counts, j: nat)
    requires 13 <= j <= 41 && c == HandOfFive(2)
    ensures !HuFrom(c, j).ok
    decreases 41 - j
  {
    if j < 41 {
      if PairGuard(c, j) {
        LaterPairs(c, j);
        assert c[LAIZI := 2] == c;
      }
      NothingLater(c, j + 1);
    }
  }

  lemma FiveRejected(c: Counts)
    requires c == HandOfFive(3)
    ensures !HuFrom(c, 0).ok
  {
    HuSkip(c, 0, 11);
    PairOn11(c);
    assert c[LAIZI := 3] == c;
    PairOn12(c);
    assert c[LAIZI := 2] == HandOfFive(2);
    NothingLater(HandOfFive(2), 13);
  }

  lemma FiveWins(c: Counts)
    requires c == HandOfFive(3)
    ensures exists i, m :: WinsInSight(c, i, m) && RuleBag(m) && Lacking(c, i, m) == 3
  {
    var m := multiset{Group(Shun, 11), Group(Ke, 19)};
    FiveCovers(c, m);
    WinsMeaning(c, 16, m);
    assert WinsInSight(c, 16, m) && RuleBag(m) && Lacking(c, 16, m) == 3;
  }

  lemma FiveCovers(c: Counts, m: multiset<Group>)
    requires c == HandOfFive(3) && m == multiset{Group(Shun, 11), Group(Ke, 19)}
    ensures PairCovers(c, 16, m) && InSight(TakePair(c, 16), m)
    ensures Debt(Rest(TakePair(c, 16), m)) == 3 && Budget(TakePair(c, 16)) == c[LAIZI]
  {
    var d := TakePair(c, 16);
    var z: Counts := seq(KINDS, _ => 0);
    assert Rest(d, m) == z[16 := -1][19 := -2];
    NoDebtTo(z, 40);
    HandBudget(c);
    PairBudget(c, 16);
    DebtUpdate(z, 16, -1);
    DebtUpdate(z[16 := -1], 19, -2);
  }

  /**
   A winning hand that lacks three tiles is rejected, although it wins within sight of the search: the wild tile lost on
   the way is missing later. So two tiles lacking are as many as the search is sure to find.
   */
  lemma MissesForLostWild(c: Counts)
    requires c == HandOfFive(3)
    ensures !HuFrom(c, 0).ok
    ensures RuleWin(c) && exists i, m :: WinsInSight(c, i, m) && Lacking(c, i, m) == 3
  {
    FiveRejected(c);
    FiveWins(c);
    var i, m :| WinsInSight(c, i, m) && RuleBag(m) && Lacking(c, i, m) == 3;
    assert Wins(c, i, m);
  }
}
