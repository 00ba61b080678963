/**
 The wild-tile search against the rules of the game: where it agrees, and the hands on which it does not.
 By the rules a run lies inside one suit and a wild tile may stand anywhere in it.
 */
module RulesOfPlay {
  import opened Tiles
  import opened DenseSearch
  import opened DenseProofs
  import opened WinningHand

  predicate InSuit(s: int) {
    1 <= s % 10 <= 7
  }

  predicate RuleBag(m: multiset<Group>) {
    GroupBag(m) && forall g | g in m && g.op == Shun :: InSuit(g.val)
  }

  ghost predicate RuleWin(c: Counts) {
    exists i, m :: Wins(c, i, m) && RuleBag(m)
  }

  /** No tile has one of the codes between the suits. */
  predicate RealCodes(c: Counts) {
    Hand(c) && c[10] == 0 && c[20] == 0 && c[30] == 0 && c[40] == 0
  }

  /** None of the three pairs of tiles that the search reads differently from the rules. */
  predicate Clear(c: Counts) {
    (c[38] == 0 || c[39] == 0) && (c[19] == 0 || c[21] == 0) && (c[29] == 0 || c[31] == 0)
  }

  // ----- agreement with at most one wild tile -----

  /** With at most one wild tile on a clear hand, the search is exactly the rules of the game. */
  lemma OneWildIsRules(c: Counts)
    requires RealCodes(c) && c[LAIZI] <= 1 && Clear(c)
    ensures HuFrom(c, 0).ok <==> RuleWin(c)
  {
    HuExact(c);
    if i, m :| WinsInSight(c, i, m) {
      ToRules(c, i, m);
    }
    if i, m :| Wins(c, i, m) && RuleBag(m) {
      ToSight(c, i, m);
    }
  }

  /** In a cover short of at most one tile, a missing tile is missing once and nothing else is. */
  lemma OneShort(c: Counts, m: multiset<Group>, q: int, x: int)
    requires Covers(c, m) && Budget(c) <= 1 && Plain(q) && Plain(x)
    ensures -1 <= c[q] - Need(m, q) <= 0
    ensures c[q] < Need(m, q) && x != q ==> c[x] == Need(m, x)
  {
    var z: Counts := seq(KINDS, _ => 0);
    var r := Rest(c, m);
    assert r[q] <= 0 && r[x] <= 0;
    OwedAtMostDebt(r, q);
    if x != q {
      DebtGap(z, r, q, x);
    }
  }

  /** Moving one run of the bag from start `s` to start `t`. */
  function Move(m: multiset<Group>, s: int, t: int): multiset<Group> {
    m - multiset{Group(Shun, s)} + multiset{Group(Shun, t)}
  }

  function OnRun(s: int, q: int): int {
    if s <= q <= s + 2 then 1 else 0
  }

  lemma MoveCounts(m: multiset<Group>, s: int, t: int, q: int)
    requires Starting(m, s) > 0 && s != t
    ensures Starting(Move(m, s, t), q) == Starting(m, q) - (if q == s then 1 else 0) + (if q == t then 1 else 0)
    ensures Through(Move(m, s, t), q) == Through(m, q) - OnRun(s, q) + OnRun(t, q)
    ensures Need(Move(m, s, t), q) == Need(m, q) - OnRun(s, q) + OnRun(t, q)
  {
  }

  lemma MoveBag(m: multiset<Group>, s: int, t: int)
    requires GroupBag(m) && Starting(m, s) > 0 && TIAO1 <= t <= TONG7
    ensures GroupBag(Move(m, s, t))
  {
    var m0 := m - multiset{Group(Shun, s)};
    assert m == m0 + multiset{Group(Shun, s)} && Group(Shun, s) in m;
    AddToBag(m0, Group(Shun, s));
    AddToBag(m0, Group(Shun, t));
  }

  /** A run short of its tile at `a` becomes a run short of a tile at `b`, at no extra cost. */
  lemma MoveCovers(c: Counts, m: multiset<Group>, s: int, t: int, a: int, b: int)
    requires Covers(c, m) && Budget(c) <= 1 && Starting(m, s) > 0 && TIAO1 <= t <= TONG7
    requires (t == s + 1 && a == s && b == s + 3) || (t == s - 1 && a == s + 2 && b == t)
    requires Plain(a) && Plain(b) && c[a] < Need(m, a)
    ensures Covers(c, Move(m, s, t))
  {
    MoveBag(m, s, t);
    OneShort(c, m, a, b);
    MoveRest(c, m, s, t, a, b);
    var r := Rest(c, m);
    DebtUpdate(r, a, 0);
    DebtUpdate(r[a := 0], b, -1);
  }

  lemma MoveRest(c: Counts, m: multiset<Group>, s: int, t: int, a: int, b: int)
    requires Starting(m, s) > 0 && Plain(a) && Plain(b)
    requires (t == s + 1 && a == s && b == s + 3) || (t == s - 1 && a == s + 2 && b == t)
    requires Rest(c, m)[a] == -1 && Rest(c, m)[b] == 0
    ensures Rest(c, Move(m, s, t)) == Rest(c, m)[a := 0][b := -1]
  {
    forall q | Plain(q)
      ensures Rest(c, Move(m, s, t))[q] == Rest(c, m)[a := 0][b := -1][q]
    {
      MoveCounts(m, s, t, q);
    }
  }

  /** Out of sight means: a run starts on `q`, and the one tile the cover is short of is a `q`. */
  lemma OutOfSight(c: Counts, m: multiset<Group>, q: int)
    requires Covers(c, m) && Budget(c) <= 1 && (c[38] <= 0 || c[39] <= 0) && Plain(q) && !SightAt(c, m, q)
    ensures TIAO1 <= q <= 36 && Starting(m, q) > 0 && c[q] < Need(m, q)
  {
    OneShort(c, m, q, 38);
    OneShort(c, m, q, 39);
    assert Starting(m, q) > 0;
    assert Group(Shun, q) in m;
    assert q == TONG7 ==> Need(m, 38) > 0 && Need(m, 39) > 0;
  }

  lemma ShiftSight(c: Counts, m: multiset<Group>, q: int, x: int)
    requires Covers(c, m) && Budget(c) <= 1 && TIAO1 <= q <= 36 && Starting(m, q) > 0 && c[q] < Need(m, q)
    requires Plain(x) && x != q + 3
    ensures SightAt(c, Move(m, q, q + 1), x)
  {
    MoveCounts(m, q, q + 1, x);
    OneShort(c, m, q, x);
  }

  lemma ShiftOnce(c: Counts, m: multiset<Group>, q: int)
    requires Covers(c, m) && Budget(c) <= 1 && (c[38] <= 0 || c[39] <= 0) && Plain(q) && !SightAt(c, m, q)
    ensures TIAO1 <= q <= 36 && Covers(c, Move(m, q, q + 1))
    ensures forall x | Plain(x) && x != q + 3 :: SightAt(c, Move(m, q, q + 1), x)
  {
    OutOfSight(c, m, q);
    MoveCovers(c, m, q, q + 1, q, q + 3);
    forall x | Plain(x) && x != q + 3 ensures SightAt(c, Move(m, q, q + 1), x) {
      ShiftSight(c, m, q, x);
    }
  }

  /** Runs that start on a wild tile are shifted up by one, until every run starts on a held tile. */
  lemma {:induction false} ShiftUp(c: Counts, m: multiset<Group>, q: int)
    requires Covers(c, m) && Budget(c) <= 1 && (c[38] <= 0 || c[39] <= 0)
    requires Plain(q) && forall x | Plain(x) && x != q :: SightAt(c, m, x)
    ensures exists m' :: CoversInSight(c, m')
    decreases 40 - q
  {
    if SightAt(c, m, q) {
      assert CoversInSight(c, m);
    } else {
      ShiftOnce(c, m, q);
      ShiftUp(c, Move(m, q, q + 1), q + 3);
    }
  }

  lemma ToSight(c: Counts, i: int, m: multiset<Group>)
    requires RealCodes(c) && c[LAIZI] <= 1 && Clear(c) && Wins(c, i, m)
    ensures exists j, m' :: WinsInSight(c, j, m')
  {
    WinsMeaning(c, i, m);
    PairReady(c, i);
    var d := TakePair(c, i);
    if q :| Plain(q) && !SightAt(d, m, q) {
      forall x | Plain(x) && x != q ensures SightAt(d, m, x) {
        OneShort(d, m, q, x);
      }
      ShiftUp(d, m, q);
      var m' :| CoversInSight(d, m');
      WinsMeaning(c, i, m');
      assert WinsInSight(c, i, m');
    } else {
      assert WinsInSight(c, i, m);
    }
  }

  /** In a clear hand a run across a suit border is short of the border code only, and starts two below it. */
  lemma BorderRun(d: Counts, m: multiset<Group>, s: int, b: int)
    requires CoversInSight(d, m) && Budget(d) <= 1 && (b == 20 || b == 30) && d[b] <= 0
    requires b - 2 <= s <= b && Starting(m, s) > 0 && (d[b - 1] <= 0 || d[b + 1] <= 0)
    ensures s == b - 2 && Starting(m, s) == 1 && d[b] < Need(m, b)
  {
    assert SightAt(d, m, s) && SightAt(d, m, b);
    OneShort(d, m, b, b + 1);
  }

  lemma ToRules(c: Counts, i: int, m: multiset<Group>)
    requires RealCodes(c) && c[LAIZI] <= 1 && Clear(c) && WinsInSight(c, i, m)
    ensures RuleWin(c)
  {
    if g :| g in m && g.op == Shun && !InSuit(g.val) {
      var s := g.val;
      WinsMeaning(c, i, m);
      PairReady(c, i);
      PairBelow(c, i, if s <= 20 then 20 else 30);
      assert Starting(m, s) > 0;
      ShiftOffBorder(TakePair(c, i), m, s, if s <= 20 then 20 else 30);
      WinsMeaning(c, i, Move(m, s, s - 1));
      assert Wins(c, i, Move(m, s, s - 1));
    } else {
      assert RuleBag(m);
      assert Wins(c, i, m);
    }
  }

  lemma PairBelow(c: Counts, i: int, b: int)
    requires RealCodes(c) && Clear(c) && PairGuard(c, i) && (b == 20 || b == 30)
    ensures var d := TakePair(c, i); d[20] <= 0 && d[30] <= 0 && (d[b - 1] <= 0 || d[b + 1] <= 0)
  {
  }

  lemma ShiftOffBorder(d: Counts, m: multiset<Group>, s: int, b: int)
    requires CoversInSight(d, m) && Budget(d) <= 1 && (b == 20 || b == 30) && b - 2 <= s <= b && Starting(m, s) > 0
    requires d[20] <= 0 && d[30] <= 0 && (d[b - 1] <= 0 || d[b + 1] <= 0)
    ensures Covers(d, Move(m, s, s - 1)) && RuleBag(Move(m, s, s - 1))
  {
    BorderRun(d, m, s, b);
    MoveCovers(d, m, s, s - 1, b, b - 3);
    forall h | h in Move(m, s, s - 1) && h.op == Shun ensures InSuit(h.val) {
      NotOnBorder(d, m, s, b, h.val);
    }
  }

  lemma NotOnBorder(d: Counts, m: multiset<Group>, s: int, b: int, h: int)
    requires CoversInSight(d, m) && Budget(d) <= 1 && (b == 20 || b == 30)
    requires s == b - 2 && Starting(m, s) == 1 && d[b] < Need(m, b) && d[20] <= 0 && d[30] <= 0
    requires TIAO1 <= h <= TONG7 && Starting(Move(m, s, s - 1), h) > 0
    ensures InSuit(h)
  {
    MoveCounts(m, s, s - 1, h);
    OneShort(d, m, b, b);
    OneShort(d, m, b, if b == 20 then 30 else 20);
  }
}
