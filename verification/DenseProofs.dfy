/** Soundness of the wild-tile search, and its exact answer when at most two wild tiles are in play. */
module DenseProofs {
  import opened Tiles
  import opened DenseSearch

  ghost predicate CoversInSight(c: Counts, m: multiset<Group>) {
    Covers(c, m) && InSight(c, m)
  }

  // ----- one group at a time -----

  lemma AddTriple(m: multiset<Group>, p: int, q: int)
    ensures var m' := m + multiset{Group(Ke, p)};
      && Starting(m', q) == Starting(m, q) && Through(m', q) == Through(m, q)
      && Need(m', q) == Need(m, q) + if q == p then 3 else 0
  {
  }

  lemma AddRun(m: multiset<Group>, p: int, q: int)
    ensures var m' := m + multiset{Group(Shun, p)};
      && Starting(m', q) == Starting(m, q) + (if q == p then 1 else 0)
      && Through(m', q) == Through(m, q) + (if p <= q <= p + 2 then 1 else 0)
      && Need(m', q) == Need(m, q) + if p <= q <= p + 2 then 1 else 0
  {
  }

  lemma AddToBag(m: multiset<Group>, g: Group)
    requires GroupBag(multiset{g})
    ensures GroupBag(m + multiset{g}) <==> GroupBag(m)
  {
    assert g in multiset{g};
    if GroupBag(m + multiset{g}) {
      forall h | h in m ensures h in m + multiset{g} {}
    }
  }

  /** Laying a triple out first or last leaves the same counts. */
  lemma CoverTriple(c: Counts, m: multiset<Group>, p: int)
    requires Plain(p) && c[p] > 0
    ensures Covers(TakeTriple(c, p), m) <==> Covers(c, m + multiset{Group(Ke, p)})
    ensures Rest(TakeTriple(c, p), m) == Rest(c, m + multiset{Group(Ke, p)})
  {
    var m', d := m + multiset{Group(Ke, p)}, TakeTriple(c, p);
    forall q: int ensures Need(m', q) == Need(m, q) + if q == p then 3 else 0 {
      AddTriple(m, p, q);
    }
    assert Rest(d, m) == Rest(c, m');
    AddToBag(m, Group(Ke, p));
    TripleBudget(c, p);
  }

  lemma CoverRun(c: Counts, m: multiset<Group>, p: int)
    requires TIAO1 <= p <= TONG7 && c[p] > 0
    ensures Covers(TakeRun(c, p), m) <==> Covers(c, m + multiset{Group(Shun, p)})
    ensures Rest(TakeRun(c, p), m) == Rest(c, m + multiset{Group(Shun, p)})
  {
    var m', d := m + multiset{Group(Shun, p)}, TakeRun(c, p);
    forall q: int ensures Need(m', q) == Need(m, q) + if p <= q <= p + 2 then 1 else 0 {
      AddRun(m, p, q);
    }
    assert Rest(d, m) == Rest(c, m');
    AddToBag(m, Group(Shun, p));
    RunBudget(c, p);
  }

  lemma SightTriple(c: Counts, m: multiset<Group>, p: int)
    requires Plain(p)
    ensures InSight(TakeTriple(c, p), m) ==> InSight(c, m + multiset{Group(Ke, p)})
    ensures Through(m, p) == 0 && InSight(c, m + multiset{Group(Ke, p)}) ==> InSight(TakeTriple(c, p), m)
  {
    var m', d := m + multiset{Group(Ke, p)}, TakeTriple(c, p);
    forall q | Plain(q)
      ensures SightAt(d, m, q) ==> SightAt(c, m', q)
      ensures Through(m, p) == 0 && SightAt(c, m', q) ==> SightAt(d, m, q)
    {
      AddTriple(m, p, q);
    }
  }

  lemma SightRun(c: Counts, m: multiset<Group>, p: int)
    requires TIAO1 <= p <= TONG7
    ensures InSight(c, m + multiset{Group(Shun, p)}) ==> InSight(TakeRun(c, p), m)
    ensures Through(m, p) == Starting(m, p) && c[p] > 0 && c[p + 1] >= 0 && c[p + 2] >= 0 ==>
              (InSight(TakeRun(c, p), m) ==> InSight(c, m + multiset{Group(Shun, p)}))
  {
    var m', d := m + multiset{Group(Shun, p)}, TakeRun(c, p);
    forall q | Plain(q)
      ensures SightAt(c, m', q) ==> SightAt(d, m, q)
      ensures Through(m, p) == Starting(m, p) && c[p] > 0 && c[p + 1] >= 0 && c[p + 2] >= 0 ==>
                (SightAt(d, m, q) ==> SightAt(c, m', q))
    {
      AddRun(m, p, q);
    }
  }

  /** In a bag in sight no run starts on a code that is not held. */
  lemma NoRunFrom(c: Counts, m: multiset<Group>, q: int)
    requires InSight(c, m) && GroupBag(m) && (Plain(q) ==> c[q] <= 0)
    ensures Starting(m, q) == 0
  {
    assert Starting(m, q) > 0 ==> Group(Shun, q) in m;
    if Plain(q) {
      assert SightAt(c, m, q);
    }
  }

  lemma LowestRuns(c: Counts, m: multiset<Group>, p: int)
    requires InSight(c, m) && GroupBag(m) && Plain(p) && Nonpositive(c, p)
    ensures Through(m, p) == Starting(m, p)
  {
    NoRunFrom(c, m, p - 1);
    NoRunFrom(c, m, p - 2);
  }

  // ----- soundness -----

  lemma NothingLeft(c: Counts)
    requires Nonpositive(c, 40) && c[LAIZI] >= 0
    ensures CoversInSight(c, multiset{})
  {
    var r := Rest(c, multiset{});
    forall q | Plain(q) ensures r[q] == c[q] {}
    DebtToMono(r, c, 40);
  }

  lemma CoverMoreWild(c: Counts, w: int, m: multiset<Group>)
    requires w <= c[LAIZI] && Covers(c[LAIZI := w], m)
    ensures Covers(c, m)
  {
    DebtUpdate(c, LAIZI, w);
    assert Rest(c[LAIZI := w], m) == Rest(c, m);
  }

  /** Whatever the number of wild tiles, the groups of a successful search cover the whole array. */
  lemma {:induction false} DealSound(c: Counts, p: nat)
    requires Ready(c, p) && c[LAIZI] >= 0 && Nonpositive(c, p) && Deal(c, p).ok
    ensures Covers(c, multiset(Deal(c, p).groups))
    ensures Budget(c) <= 2 ==> InSight(c, multiset(Deal(c, p).groups))
    decreases 40 - p, if p <= TONG9 then c[p] else 0, 1
  {
    var k := Kezi(c, p);
    if p > TONG9 {
      NothingLeft(c);
    } else if k.ok {
      KeziSound(c, p);
    } else {
      KeziWild(c, p);
      ShunziSound(c[LAIZI := k.wild], p);
      CoverMoreWild(c, k.wild, multiset(Deal(c, p).groups));
      if Budget(c) <= 2 {
        assert c[LAIZI := k.wild] == c;
      }
    }
  }

  lemma {:induction false} KeziSound(c: Counts, p: nat)
    requires Ready(c, p) && p <= TONG9 && c[LAIZI] >= 0 && Nonpositive(c, p) && Kezi(c, p).ok
    ensures Covers(c, multiset(Kezi(c, p).groups))
    ensures Budget(c) <= 2 ==> InSight(c, multiset(Kezi(c, p).groups))
    decreases 40 - p, c[p], 0
  {
    var d := TakeTriple(c, p);
    var r := Deal(d, Next(d, p));
    TripleBudget(c, p);
    DealSound(d, Next(d, p));
    CoverTriple(c, multiset(r.groups), p);
    SightTriple(c, multiset(r.groups), p);
    assert multiset(Kezi(c, p).groups) == multiset(r.groups) + multiset{Group(Ke, p)};
  }

  lemma {:induction false} ShunziSound(c: Counts, p: nat)
    requires Ready(c, p) && p <= TONG9 && c[LAIZI] >= 0 && Nonpositive(c, p) && Shunzi(c, p).ok
    ensures Covers(c, multiset(Shunzi(c, p).groups))
    ensures Budget(c) <= 2 ==> InSight(c, multiset(Shunzi(c, p).groups))
    decreases 40 - p, c[p], 0
  {
    var d := TakeRun(c, p);
    var r := Deal(d, Next(d, p));
    var m := multiset(r.groups);
    RunBudget(c, p);
    DealSound(d, Next(d, p));
    CoverRun(c, m, p);
    assert multiset(Shunzi(c, p).groups) == m + multiset{Group(Shun, p)};
    if Budget(c) <= 2 {
      RunGuardNotOwed(c, p);
      LowestRuns(d, m, p);
      SightRun(c, m, p);
    }
  }

  // ----- completeness for covers that lack at most two tiles -----

  /** A cover in sight that lacks at most two tiles. */
  ghost predicate NearCover(c: Counts, m: multiset<Group>) {
    CoversInSight(c, m) && Debt(Rest(c, m)) <= 2
  }

  /** What failed branches leave of the wild tiles is enough for such a cover. */
  lemma NearCoverKept(c: Counts, w: int, m: multiset<Group>)
    requires NearCover(c, m) && WildKept(c[LAIZI], Debt(c), w)
    ensures NearCover(c[LAIZI := w], m)
  {
    var b := c[LAIZI := w];
    DebtUpdate(c, LAIZI, w);
    assert Rest(b, m) == Rest(c, m);
    forall q | Plain(q) ensures SightAt(b, m, q) {
      assert SightAt(c, m, q);
    }
  }

  /** The lowest held code is covered by a triple on it or by a run that starts there. */
  lemma HeldIsNeeded(c: Counts, m: multiset<Group>, p: int)
    requires CoversInSight(c, m) && Plain(p) && c[p] > 0 && Nonpositive(c, p)
    ensures Group(Ke, p) in m || Starting(m, p) > 0
  {
    LowestRuns(c, m, p);
    assert Rest(c, m)[p] == c[p] - Need(m, p);
  }

  lemma RestBelow(c: Counts, m: multiset<Group>)
    ensures forall q | Plain(q) :: Rest(c, m)[q] == c[q] - Need(m, q) <= c[q]
  {
  }

  /** A triple of the cover on the lowest held code, with no run starting there, can be taken. */
  lemma TripleStep(c: Counts, m: multiset<Group>, p: int)
    requires CoversInSight(c, m) && Plain(p) && c[p] > 0 && Nonpositive(c, p)
    requires Group(Ke, p) in m && Starting(m, p) == 0
    ensures c[p] + c[LAIZI] >= 3
    ensures CoversInSight(TakeTriple(c, p), m - multiset{Group(Ke, p)})
    ensures Rest(TakeTriple(c, p), m - multiset{Group(Ke, p)}) == Rest(c, m)
  {
    var m0 := m - multiset{Group(Ke, p)};
    assert m == m0 + multiset{Group(Ke, p)};
    CoverTriple(c, m0, p);
    LowestRuns(c, m, p);
    AddTriple(m0, p, p);
    SightTriple(c, m0, p);
    RestBelow(c, m);
    DebtGap(c, Rest(c, m), p, if p == 0 then 1 else 0);
  }

  /** A run of the cover misses its upper tiles only as far as wild tiles are free for them. */
  lemma RunFits(c: Counts, m: multiset<Group>, p: int)
    requires CoversInSight(c, m) && Starting(m, p) > 0
    ensures TIAO1 <= p <= TONG7 && c[p] >= 1 && c[p + 1] >= 0 && c[p + 2] >= 0
    ensures c[LAIZI] >= (if c[p + 1] == 0 then 1 else 0) + (if c[p + 2] == 0 then 1 else 0) || c[LAIZI] < 0
  {
    assert Group(Shun, p) in m;
    assert SightAt(c, m, p) && SightAt(c, m, p + 1) && SightAt(c, m, p + 2);
    RestBelow(c, m);
    DebtGap(c, Rest(c, m), p + 1, p + 2);
    DebtGap(c, Rest(c, m), p + 2, p + 1);
  }

  /** A run of the cover can be taken, unless both its upper tiles are missing. */
  lemma RunStep(c: Counts, m: multiset<Group>, p: int)
    requires CoversInSight(c, m) && Starting(m, p) > 0 && c[LAIZI] >= 0
    ensures TIAO1 <= p <= TONG7
    ensures c[p + 1] > 0 || c[p + 2] > 0 ==> RunGuard(c, p)
    ensures CoversInSight(TakeRun(c, p), m - multiset{Group(Shun, p)})
    ensures Rest(TakeRun(c, p), m - multiset{Group(Shun, p)}) == Rest(c, m)
  {
    var m0 := m - multiset{Group(Shun, p)};
    assert m == m0 + multiset{Group(Shun, p)};
    RunFits(c, m, p);
    CoverRun(c, m0, p);
    SightRun(c, m0, p);
  }

  /** The bag with one run on `p` replaced by a triple on `p`. */
  function Exchange(m: multiset<Group>, p: int): multiset<Group> {
    m - multiset{Group(Shun, p)} + multiset{Group(Ke, p)}
  }

  lemma ExchangeCounts(m: multiset<Group>, p: int, q: int)
    requires Starting(m, p) > 0
    ensures Starting(Exchange(m, p), q) == Starting(m, q) - (if q == p then 1 else 0)
    ensures Through(Exchange(m, p), q) == Through(m, q) - (if p <= q <= p + 2 then 1 else 0)
    ensures Need(Exchange(m, p), q) == Need(m, q) - (if p <= q <= p + 2 then 1 else 0) + (if q == p then 3 else 0)
  {
  }

  /** A run whose two upper tiles are missing can be exchanged for a triple on its first code. */
  lemma RunToTriple(c: Counts, m: multiset<Group>, p: int)
    requires NearCover(c, m) && Starting(m, p) > 0 && c[LAIZI] >= 0
    requires Plain(p) && p <= TONG7 && c[p + 1] == 0 && c[p + 2] == 0
    ensures NearCover(c, Exchange(m, p)) && Starting(Exchange(m, p), p) == 0
  {
    RunFits(c, m, p);
    assert SightAt(c, m, p) && SightAt(c, m, p + 1) && SightAt(c, m, p + 2);
    RestBelow(c, m);
    DebtGap(c, Rest(c, m), p + 1, p + 2);
    forall q: int
      ensures Need(Exchange(m, p), q) == Need(m, q) - (if p <= q <= p + 2 then 1 else 0) + (if q == p then 3 else 0)
    {
      ExchangeCounts(m, p, q);
    }
    ExchangeDebt(c, m, Exchange(m, p), p);
    ExchangeInSight(c, m, p);
    ExchangeCounts(m, p, p);
  }

  lemma ExchangeInSight(c: Counts, m: multiset<Group>, p: int)
    requires InSight(c, m) && GroupBag(m) && Starting(m, p) > 0 && Plain(p)
    ensures InSight(c, Exchange(m, p)) && GroupBag(Exchange(m, p))
  {
    forall q | Plain(q) ensures SightAt(c, Exchange(m, p), q) {
      assert SightAt(c, m, q);
      ExchangeCounts(m, p, q);
    }
    var m0 := m - multiset{Group(Shun, p)};
    assert m == m0 + multiset{Group(Shun, p)};
    assert Group(Shun, p) in m;
    AddToBag(m0, Group(Shun, p));
    AddToBag(m0, Group(Ke, p));
  }

  lemma ExchangeDebt(c: Counts, m: multiset<Group>, m1: multiset<Group>, p: int)
    requires TIAO1 <= p <= TONG7
    requires forall q: int :: Need(m1, q) == Need(m, q) - (if p <= q <= p + 2 then 1 else 0) + (if q == p then 3 else 0)
    requires Rest(c, m)[p] <= 0 && Rest(c, m)[p + 1] == -1 && Rest(c, m)[p + 2] == -1
    ensures Debt(Rest(c, m1)) == Debt(Rest(c, m))
    ensures Nonpositive(Rest(c, m), 40) ==> Nonpositive(Rest(c, m1), 40)
  {
    var r := Rest(c, m);
    var s0 := r[p := r[p] - 2];
    var s1 := s0[p + 1 := 0];
    DebtUpdate(r, p, r[p] - 2);
    DebtUpdate(s0, p + 1, 0);
    DebtUpdate(s1, p + 2, 0);
    assert Rest(c, m1) == s1[p + 2 := 0];
  }

  /** However many wild tiles: the search succeeds when there is a cover in sight that lacks at most two tiles. */
  lemma {:induction false} DealComplete(c: Counts, p: nat, m: multiset<Group>)
    requires Ready(c, p) && c[LAIZI] >= 0 && Nonpositive(c, p) && NearCover(c, m)
    ensures Deal(c, p).ok
    decreases 40 - p, if p <= TONG9 then c[p] else 0, 1
  {
    if p <= TONG9 {
      HeldIsNeeded(c, m, p);
      if Starting(m, p) == 0 {
        TakeTripleFirst(c, p, m);
      } else if c[p + 1] > 0 || c[p + 2] > 0 {
        var b := c[LAIZI := Kezi(c, p).wild];
        KeziWild(c, p);
        NearCoverKept(c, Kezi(c, p).wild, m);
        TakeRunFirst(b, p, m);
      } else {
        RunFits(c, m, p);
        RunToTriple(c, m, p);
        TakeTripleFirst(c, p, Exchange(m, p));
      }
    }
  }

  lemma {:induction false} TakeTripleFirst(c: Counts, p: nat, m: multiset<Group>)
    requires Ready(c, p) && p <= TONG9 && c[LAIZI] >= 0 && Nonpositive(c, p)
    requires NearCover(c, m) && Group(Ke, p) in m && Starting(m, p) == 0
    ensures Kezi(c, p).ok
    decreases 40 - p, c[p], 0
  {
    var d := TakeTriple(c, p);
    TripleStep(c, m, p);
    TripleBudget(c, p);
    DealComplete(d, Next(d, p), m - multiset{Group(Ke, p)});
  }

  lemma {:induction false} TakeRunFirst(c: Counts, p: nat, m: multiset<Group>)
    requires Ready(c, p) && p <= TONG9 && c[LAIZI] >= 0 && Nonpositive(c, p)
    requires NearCover(c, m) && Starting(m, p) > 0 && (c[p + 1] > 0 || c[p + 2] > 0)
    ensures Shunzi(c, p).ok
    decreases 40 - p, c[p], 0
  {
    var d := TakeRun(c, p);
    RunStep(c, m, p);
    RunBudget(c, p);
    DealComplete(d, Next(d, p), m - multiset{Group(Shun, p)});
  }
}
