/** What the pair loop over the dense search decides about a whole hand. */
module WinningHand {
  import opened Tiles
  import opened DenseSearch
  import opened DenseProofs

  /** A count array as it is before a search: nothing owed. */
  predicate Hand(c: Counts) {
    forall q | 0 <= q < KINDS :: c[q] >= 0
  }

  // ----- what a winning hand is, stated on the hand alone -----

  /** Tiles of code `q` that a pair of `i` and the groups of the bag need. */
  function Wanted(i: int, m: multiset<Group>, q: int): nat {
    Need(m, q) + if q == i then 2 else 0
  }

  /** How many of the tiles needed of the first `n` codes are not held. */
  ghost function LackingTo(c: Counts, i: int, m: multiset<Group>, n: nat): nat
    requires n <= KINDS
  {
    if n == 0 then 0
    else LackingTo(c, i, m, n - 1) + if n - 1 == LAIZI then 0 else Owed(c[n - 1] - Wanted(i, m, n - 1))
  }

  /** All tiles that wild tiles have to stand in for, in the pair or in the groups. */
  ghost function Lacking(c: Counts, i: int, m: multiset<Group>): nat {
    LackingTo(c, i, m, KINDS)
  }

  /**
   A pair on held code `i`, and triples and runs, that use every plain tile and lack no more tiles than there are wild
   tiles.
   */
  ghost predicate Wins(c: Counts, i: int, m: multiset<Group>) {
    && 0 <= i < KINDS && i != LAIZI && c[i] > 0
    && GroupBag(m)
    && (forall q | Plain(q) :: c[q] <= Wanted(i, m, q))
    && Lacking(c, i, m) <= c[LAIZI]
  }

  /** Every run starts on a tile left beside the pair, and the runs lack at most one tile of any code. */
  ghost predicate WinsInSight(c: Counts, i: int, m: multiset<Group>) {
    Wins(c, i, m) && InSight(c[i := c[i] - 2], m)
  }

  /** Exactly one pair, triples and runs, with no wild tile. */
  ghost predicate Splits(c: Counts, i: int, m: multiset<Group>) {
    Plain(i) && GroupBag(m) && forall q | Plain(q) :: c[q] == Need(m, q) + if q == i then 2 else 0
  }

  lemma HandBudget(c: Counts)
    requires Hand(c)
    ensures Budget(c) == c[LAIZI]
  {
    NoDebtTo(c, 40);
  }

  lemma PairReady(c: Counts, i: nat)
    requires Hand(c) && PairGuard(c, i)
    ensures var d := TakePair(c, i);
      d[LAIZI] >= 0 && Budget(d) <= c[LAIZI] && Nonpositive(d, Next(d, 0)) && Ready(d, Next(d, 0))
  {
    HandBudget(c);
    PairBudget(c, i);
  }

  // ----- what the loop tests -----

  /** The guard of the pair loop, and a cover of what is left when the pair is taken out. */
  ghost predicate PairCovers(c: Counts, i: int, m: multiset<Group>) {
    PairGuard(c, i) && Covers(TakePair(c, i), m)
  }

  lemma {:induction false} LackingIsDebt(c: Counts, i: nat, m: multiset<Group>, n: nat)
    requires n <= 40 && i < KINDS && i != LAIZI
    ensures LackingTo(c, i, m, n) == DebtTo(Rest(TakePair(c, i), m), n)
  {
    if n > 0 {
      LackingIsDebt(c, i, m, n - 1);
    }
  }

  lemma NothingAt40(c: Counts, i: int, m: multiset<Group>)
    requires Hand(c) && GroupBag(m)
    ensures Lacking(c, i, m) == LackingTo(c, i, m, 40) + if i == 40 && c[40] < 2 then 2 - c[40] else 0
  {
    assert forall s | s >= 38 && Starting(m, s) > 0 :: Group(Shun, s) in m;
    assert Group(Ke, 40) !in m;
  }

  /** A hand wins with this pair and these groups exactly when the loop tries the pair and the groups cover the rest. */
  lemma WinsMeaning(c: Counts, i: int, m: multiset<Group>)
    requires Hand(c)
    ensures Wins(c, i, m) <==> PairCovers(c, i, m)
    ensures PairCovers(c, i, m) ==>
      Lacking(c, i, m) == Debt(Rest(TakePair(c, i), m)) + c[LAIZI] - Budget(TakePair(c, i))
    ensures WinsInSight(c, i, m) <==> PairCovers(c, i, m) && InSight(TakePair(c, i), m)
  {
    if 0 <= i <= 40 && i != LAIZI && c[i] > 0 && GroupBag(m) {
      HandBudget(c);
      NothingAt40(c, i, m);
      LackingIsDebt(c, i, m, 40);
      PairMeaning(c, i, m);
      SameSight(c[i := c[i] - 2], TakePair(c, i), m);
    }
  }

  lemma PairMeaning(c: Counts, i: nat, m: multiset<Group>)
    requires Hand(c) && i <= 40 && i != LAIZI && c[i] > 0 && GroupBag(m)
    requires Budget(c) == c[LAIZI]
    requires Lacking(c, i, m) == Debt(Rest(TakePair(c, i), m)) + if i == 40 && c[40] < 2 then 2 - c[40] else 0
    ensures Wins(c, i, m) <==> PairCovers(c, i, m)
    ensures PairCovers(c, i, m) ==>
      Lacking(c, i, m) == Debt(Rest(TakePair(c, i), m)) + c[LAIZI] - Budget(TakePair(c, i))
  {
    var d := TakePair(c, i);
    forall q | Plain(q) ensures Rest(d, m)[q] == c[q] - Wanted(i, m, q) {}
    if PairGuard(c, i) {
      PairBudget(c, i);
    } else if i < 40 {
      OwedAtMostDebt(Rest(d, m), i);
    }
  }

  lemma SameSight(c: Counts, d: Counts, m: multiset<Group>)
    requires forall q | Plain(q) :: c[q] == d[q]
    ensures InSight(c, m) <==> InSight(d, m)
  {
    forall q | Plain(q) ensures SightAt(c, m, q) <==> SightAt(d, m, q) {}
  }

  // ----- the wild count -----

  /** Over the whole pair loop the wild count never rises; it loses at most what goes beyond two. */
  lemma {:induction false} HuWild(c: Counts, i: nat)
    requires Hand(c) && i <= 41
    ensures 0 <= HuFrom(c, i).wild <= c[LAIZI]
    ensures c[LAIZI] <= 2 ==> HuFrom(c, i).wild == c[LAIZI]
    ensures c[LAIZI] >= 2 ==> HuFrom(c, i).wild >= 2
    decreases 41 - i
  {
    if i < 41 {
      if PairGuard(c, i) {
        PairRestores(c, i);
        HuWild(c[LAIZI := PairAt(c, i).wild], i + 1);
      } else {
        HuWild(c, i + 1);
      }
    }
  }

  // ----- soundness -----

  /** The groups found are a pair and a bag with which the hand wins, in sight with at most two wild tiles. */
  ghost predicate Found(c: Counts, gs: seq<Group>) {
    && gs != [] && gs[0].op == Jiang && Wins(c, gs[0].val, multiset(gs[1..]))
    && (c[LAIZI] <= 2 ==> WinsInSight(c, gs[0].val, multiset(gs[1..])))
  }

  lemma FoundMoreWild(c: Counts, w: int, gs: seq<Group>)
    requires w <= c[LAIZI] && (c[LAIZI] <= 2 ==> c[LAIZI := w] == c) && Found(c[LAIZI := w], gs)
    ensures Found(c, gs)
  {
    WinsMoreWild(c, w, gs[0].val, multiset(gs[1..]));
  }

  /** A successful loop appended a pair and groups that cover the hand, however many wild tiles it had. */
  lemma {:induction false} HuSound(c: Counts, i: nat)
    requires Hand(c) && i <= 41 && HuFrom(c, i).ok
    ensures Found(c, HuFrom(c, i).groups)
    decreases 41 - i
  {
    if !PairGuard(c, i) {
      HuSound(c, i + 1);
    } else if PairAt(c, i).ok {
      PairSound(c, i);
    } else {
      PairRestores(c, i);
      var w := PairAt(c, i).wild;
      HuSound(c[LAIZI := w], i + 1);
      FoundMoreWild(c, w, HuFrom(c, i).groups);
    }
  }

  lemma PairSound(c: Counts, i: nat)
    requires Hand(c) && PairGuard(c, i) && PairAt(c, i).ok
    ensures Found(c, PairAt(c, i).groups)
  {
    PairReady(c, i);
    var d := TakePair(c, i);
    DealSound(d, Next(d, 0));
    assert PairAt(c, i).groups[1..] == Deal(d, Next(d, 0)).groups;
    WinsMeaning(c, i, multiset(PairAt(c, i).groups[1..]));
  }

  lemma {:induction false} LackingIgnoresWild(c: Counts, w: int, i: int, m: multiset<Group>, n: nat)
    requires n <= KINDS
    ensures LackingTo(c[LAIZI := w], i, m, n) == LackingTo(c, i, m, n)
  {
    if n > 0 {
      LackingIgnoresWild(c, w, i, m, n - 1);
    }
  }

  lemma WinsMoreWild(c: Counts, w: int, i: int, m: multiset<Group>)
    requires w <= c[LAIZI] && Wins(c[LAIZI := w], i, m)
    ensures Wins(c, i, m)
  {
    LackingIgnoresWild(c, w, i, m, KINDS);
    assert forall q | Plain(q) :: c[LAIZI := w][q] == c[q];
  }

  // ----- completeness -----

  /** What a failed pair leaves of the wild tiles is enough for a hand that lacks at most two tiles. */
  lemma NearKept(c: Counts, w: int, i: int, m: multiset<Group>)
    requires WinsInSight(c, i, m) && Lacking(c, i, m) <= 2 && w <= c[LAIZI] && (w < 2 ==> w == c[LAIZI])
    ensures WinsInSight(c[LAIZI := w], i, m) && Lacking(c[LAIZI := w], i, m) <= 2
  {
    var b := c[LAIZI := w];
    LackingIgnoresWild(c, w, i, m, KINDS);
    assert forall q | Plain(q) :: b[q] == c[q];
    SameSight(c[i := c[i] - 2], b[i := b[i] - 2], m);
  }

  lemma PairComplete(c: Counts, i: int, m: multiset<Group>)
    requires Hand(c) && WinsInSight(c, i, m) && Lacking(c, i, m) <= 2
    ensures PairGuard(c, i) && PairAt(c, i).ok
  {
    WinsMeaning(c, i, m);
    PairReady(c, i);
    var d := TakePair(c, i);
    DealComplete(d, Next(d, 0), m);
  }

  lemma {:induction false} HuComplete(c: Counts, j: nat, i: int, m: multiset<Group>)
    requires Hand(c) && j <= i && WinsInSight(c, i, m) && Lacking(c, i, m) <= 2
    ensures HuFrom(c, j).ok
    decreases i - j
  {
    if j == i {
      PairComplete(c, i, m);
    } else if PairGuard(c, j) {
      var w := PairAt(c, j).wild;
      PairRestores(c, j);
      NearKept(c, w, i, m);
      HuComplete(c[LAIZI := w], j + 1, i, m);
    } else {
      HuComplete(c, j + 1, i, m);
    }
  }

  lemma PairRestores(c: Counts, i: nat)
    requires Hand(c) && PairGuard(c, i)
    ensures 0 <= PairAt(c, i).wild <= c[LAIZI]
    ensures c[LAIZI] >= 2 ==> PairAt(c, i).wild >= 2
    ensures c[LAIZI] <= 2 ==> c[LAIZI := PairAt(c, i).wild] == c
  {
    HandBudget(c);
    PairBudget(c, i);
    PairReady(c, i);
    var d := TakePair(c, i);
    DealWild(d, Next(d, 0));
  }

  /**
   However many wild tiles: the search succeeds on every hand that wins in sight lacking at most two tiles, in the pair
   and the groups together.
   */
  lemma HuAccepts(c: Counts, i: int, m: multiset<Group>)
    requires Hand(c) && WinsInSight(c, i, m) && Lacking(c, i, m) <= 2
    ensures HuFrom(c, 0).ok
  {
    HuComplete(c, 0, i, m);
  }

  // ----- the exact answer -----

  /** With at most two wild tiles: the search succeeds exactly when the hand wins in sight. */
  lemma {:induction false} HuExact(c: Counts)
    requires Hand(c) && c[LAIZI] <= 2
    ensures HuFrom(c, 0).ok <==> exists i, m :: WinsInSight(c, i, m)
  {
    if HuFrom(c, 0).ok {
      HuSound(c, 0);
      var gs := HuFrom(c, 0).groups;
      assert WinsInSight(c, gs[0].val, multiset(gs[1..]));
    }
    if i, m :| WinsInSight(c, i, m) {
      HuComplete(c, 0, i, m);
    }
  }

  // ----- no wild tile -----

  /** Without wild tiles the search accepts exactly the hands that split into a pair, triples and runs. */
  lemma NoWildExact(c: Counts)
    requires Hand(c) && c[LAIZI] == 0 && c[40] == 0
    ensures HuFrom(c, 0).ok <==> exists i, m :: Splits(c, i, m)
    ensures HuFrom(c, 0).ok ==> var gs := HuFrom(c, 0).groups;
      gs != [] && gs[0].op == Jiang && Splits(c, gs[0].val, multiset(gs[1..]))
  {
    if HuFrom(c, 0).ok {
      HuSound(c, 0);
      var gs := HuFrom(c, 0).groups;
      ExactWin(c, gs[0].val, multiset(gs[1..]));
    }
    if i, m :| Splits(c, i, m) {
      SplitsWin(c, i, m);
    }
  }

  lemma {:induction false} LackingSingle(c: Counts, i: int, m: multiset<Group>, n: nat, q: nat)
    requires n <= KINDS && q != LAIZI
    ensures q < n ==> Owed(c[q] - Wanted(i, m, q)) <= LackingTo(c, i, m, n)
  {
    if n > 0 {
      LackingSingle(c, i, m, n - 1, q);
    }
  }

  lemma ExactWin(c: Counts, i: int, m: multiset<Group>)
    requires Hand(c) && c[LAIZI] == 0 && c[40] == 0 && Wins(c, i, m)
    ensures Splits(c, i, m)
  {
    forall q | Plain(q) ensures c[q] == Wanted(i, m, q) {
      LackingSingle(c, i, m, KINDS, q);
    }
  }

  /** A hand that splits wins in sight and lacks nothing, so it is accepted whatever wild tiles it holds besides. */
  lemma SplitsWin(c: Counts, i: int, m: multiset<Group>)
    requires Hand(c) && Splits(c, i, m)
    ensures WinsInSight(c, i, m) && Lacking(c, i, m) == 0
    ensures HuFrom(c, 0).ok
  {
    var d := c[i := c[i] - 2];
    forall q | Plain(q) ensures c[q] == Wanted(i, m, q) && SightAt(d, m, q) {}
    NothingAt40(c, i, m);
    NothingLacking(c, i, m, 40);
    HuComplete(c, 0, i, m);
  }

  lemma {:induction false} NothingLacking(c: Counts, i: int, m: multiset<Group>, n: nat)
    requires n <= 40 && forall q | Plain(q) :: c[q] == Wanted(i, m, q)
    ensures LackingTo(c, i, m, n) == 0
  {
    if n > 0 {
      NothingLacking(c, i, m, n - 1);
    }
  }

  /** Real hands hold nothing on the codes between the suits, so their runs stay inside one suit. */
  lemma SplitRunsInSuit(c: Counts, i: int, m: multiset<Group>, g: Group)
    requires Splits(c, i, m) && c[20] == 0 && c[30] == 0 && g in m && g.op == Shun
    ensures 1 <= g.val % 10 <= 7 && g.val / 10 == (g.val + 2) / 10
  {
    assert Starting(m, g.val) >= 1;
    assert Need(m, 20) == 0 && Need(m, 30) == 0;
    assert Through(m, 20) == 0 && Through(m, 30) == 0;
  }

  // ----- counting tiles -----

  ghost function HeldTo(c: Counts, n: nat): int
    requires n <= 40
  {
    if n == 0 then 0 else HeldTo(c, n - 1) + if n - 1 == LAIZI then 0 else c[n - 1]
  }

  ghost function NeedTo(m: multiset<Group>, n: nat): int {
    if n == 0 then 0 else NeedTo(m, n - 1) + if n - 1 == LAIZI then 0 else Need(m, n - 1)
  }

  lemma {:induction false} NeedToEmpty(n: nat)
    ensures NeedTo(multiset{}, n) == 0
  {
    if n > 0 {
      NeedToEmpty(n - 1);
    }
  }

  lemma {:induction false} NeedToAddTriple(m: multiset<Group>, p: int, n: nat)
    requires Plain(p) && n <= 40
    ensures NeedTo(m + multiset{Group(Ke, p)}, n) == NeedTo(m, n) + if p < n then 3 else 0
  {
    if n > 0 {
      NeedToAddTriple(m, p, n - 1);
      AddTriple(m, p, n - 1);
    }
  }

  lemma {:induction false} NeedToAddRun(m: multiset<Group>, p: int, n: nat)
    requires TIAO1 <= p <= TONG7 && n <= 40
    ensures NeedTo(m + multiset{Group(Shun, p)}, n) ==
      NeedTo(m, n) + if p + 2 < n then 3 else if p < n then n - p else 0
  {
    if n > 0 {
      NeedToAddRun(m, p, n - 1);
      AddRun(m, p, n - 1);
    }
  }

  lemma {:induction false} BagNeedsThreeEach(m: multiset<Group>)
    requires GroupBag(m)
    ensures NeedTo(m, 40) == 3 * |m|
    decreases |m|
  {
    if m == multiset{} {
      NeedToEmpty(40);
    } else {
      var g :| g in m;
      var m0 := m - multiset{g};
      assert m == m0 + multiset{g};
      assert GroupBag(multiset{g});
      AddToBag(m0, g);
      BagNeedsThreeEach(m0);
      if g.op == Ke {
        NeedToAddTriple(m0, g.val, 40);
      } else {
        NeedToAddRun(m0, g.val, 40);
      }
    }
  }

  lemma {:induction false} LackingIsShortfall(c: Counts, i: int, m: multiset<Group>, n: nat)
    requires n <= 40 && Plain(i) && forall q | Plain(q) :: c[q] <= Wanted(i, m, q)
    ensures HeldTo(c, n) + LackingTo(c, i, m, n) == NeedTo(m, n) + if i < n then 2 else 0
  {
    if n > 0 {
      LackingIsShortfall(c, i, m, n - 1);
    }
  }

  /** When the hand has 2 tiles more than a multiple of 3, the wild tiles not used up form whole triples. */
  lemma WildsLeftFormTriples(c: Counts, i: int, m: multiset<Group>)
    requires Hand(c) && Plain(i) && Wins(c, i, m)
    requires (HeldTo(c, 40) + c[LAIZI]) % 3 == 2
    ensures (c[LAIZI] - Lacking(c, i, m)) % 3 == 0
  {
    BagNeedsThreeEach(m);
    NothingAt40(c, i, m);
    LackingIsShortfall(c, i, m, 40);
    assert HeldTo(c, 40) + Lacking(c, i, m) == 3 * |m| + 2;
    assert c[LAIZI] - Lacking(c, i, m) == (HeldTo(c, 40) + c[LAIZI]) - (3 * |m| + 2);
  }
}
