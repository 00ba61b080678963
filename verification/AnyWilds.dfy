/**
 Soundness by the rules of the game for any number of wild tiles: on a hand that holds no two tiles on both sides of a
 suit border, every accepted hand can be laid out with runs inside their suits.
 */
module AnyWilds {
  import opened Tiles
  import opened DenseSearch
  import opened DenseProofs
  import opened WinningHand
  import opened RulesOfPlay

  /** The codes between the suits that a run can pass. */
  predicate IsBorder(b: int) {
    b == 20 || b == 30
  }

  /** Nothing on the border itself, and nothing on at least one side of it. */
  predicate OneSided(d: Counts, b: int)
    requires IsBorder(b)
  {
    d[b] <= 0 && (d[b - 1] <= 0 || d[b + 1] <= 0)
  }

  /** What a run over a border is exchanged for: its neighbour inside a suit, or a triple on the side that is held. */
  function Mended(d: Counts, s: int, b: int): Group
    requires IsBorder(b) && b - 2 <= s <= b
  {
    if s == b - 2 then Group(Shun, s - 1)
    else if s == b then Group(Shun, s + 1)
    else Group(Ke, if d[b - 1] <= 0 then b + 1 else b - 1)
  }

  function Replace(m: multiset<Group>, g: Group, h: Group): multiset<Group> {
    m - multiset{g} + multiset{h}
  }

  /** How many tiles of code `q` a group needs. */
  function Uses(g: Group, q: int): int {
    if g.op == Ke && q == g.val then 3 else if g.op == Shun && g.val <= q <= g.val + 2 then 1 else 0
  }

  lemma ReplaceNeeds(m: multiset<Group>, g: Group, h: Group, q: int)
    requires g in m && g.op == Shun && h != g
    ensures Need(Replace(m, g, h), q) == Need(m, q) - Uses(g, q) + Uses(h, q)
  {
    var m0 := m - multiset{g};
    assert m == m0 + multiset{g} && g == Group(Shun, g.val);
    AddRun(m0, g.val, q);
    if h.op == Ke {
      AddTriple(m0, h.val, q);
    } else if h.op == Shun {
      AddRun(m0, h.val, q);
    }
  }

  lemma ReplaceBag(m: multiset<Group>, g: Group, h: Group)
    requires GroupBag(m) && g in m && GroupBag(multiset{h})
    ensures GroupBag(Replace(m, g, h))
  {
    var m0 := m - multiset{g};
    assert m == m0 + multiset{g};
    forall x | x in m0 ensures x in m {}
    AddToBag(m0, h);
  }

  lemma ReplaceRest(d: Counts, m: multiset<Group>, g: Group, h: Group, q: int)
    requires g in m && g.op == Shun && h != g && Plain(q)
    ensures Rest(d, Replace(m, g, h))[q] == Rest(d, m)[q] + Uses(g, q) - Uses(h, q)
  {
    ReplaceNeeds(m, g, h, q);
  }

  /** A tile that is owed anyway may move to another code. */
  lemma OwedMoves(r: Counts, r': Counts, from: int, to: int)
    requires Plain(from) && Plain(to) && from != to && r[from] < 0 && Nonpositive(r, 40)
    requires r'[LAIZI] == r[LAIZI]
    requires forall q | Plain(q) ::
      r'[q] == r[q] + (if q == from then 1 else 0) - (if q == to then 1 else 0)
    ensures Debt(r') == Debt(r) && Nonpositive(r', 40)
  {
    var u := r[from := r[from] + 1];
    DebtUpdate(r, from, r[from] + 1);
    DebtUpdate(u, to, r[to] - 1);
    SameDebt(u[to := r[to] - 1], r');
  }

  lemma SameDebt(c: Counts, d: Counts)
    requires forall q | Plain(q) :: c[q] == d[q]
    ensures Debt(c) == Debt(d)
  {
    DebtToMono(c, d, 40);
    DebtToMono(d, c, 40);
  }

  /** A run next to the border is one tile owed on the border away from its neighbour inside the suit. */
  lemma ShiftCovers(d: Counts, m: multiset<Group>, s: int, b: int)
    requires Covers(d, m) && IsBorder(b) && (s == b - 2 || s == b) && Group(Shun, s) in m && d[b] <= 0
    ensures Covers(d, Replace(m, Group(Shun, s), Mended(d, s, b)))
  {
    var g, h := Group(Shun, s), Mended(d, s, b);
    var to := if s == b then b + 3 else b - 3;
    var r, r' := Rest(d, m), Rest(d, Replace(m, g, h));
    ReplaceBag(m, g, h);
    forall q | Plain(q)
      ensures r'[q] == r[q] + (if q == b then 1 else 0) - (if q == to then 1 else 0)
    {
      ReplaceRest(d, m, g, h, q);
    }
    assert Starting(m, s) > 0;
    OwedMoves(r, r', b, to);
  }

  lemma TripleRest(d: Counts, m: multiset<Group>, b: int, z: int, o: int, q: int)
    requires IsBorder(b) && ((z == b - 1 && o == b + 1) || (z == b + 1 && o == b - 1))
    requires Group(Shun, b - 1) in m && Plain(q)
    ensures Rest(d, Replace(m, Group(Shun, b - 1), Group(Ke, z)))[q]
            == Rest(d, m)[q] + (if q == b || q == o then 1 else 0) - if q == z then 2 else 0
  {
    ReplaceRest(d, m, Group(Shun, b - 1), Group(Ke, z), q);
  }

  /** Two tiles that are owed anyway may both move to a third code. */
  lemma OwedPairMoves(r: Counts, r': Counts, b: int, o: int, z: int)
    requires Plain(b) && Plain(o) && Plain(z) && b != o && b != z && o != z
    requires r[b] < 0 && r[o] < 0 && Nonpositive(r, 40) && r'[LAIZI] == r[LAIZI]
    requires forall q | Plain(q) :: r'[q] == r[q] + (if q == b || q == o then 1 else 0) - if q == z then 2 else 0
    ensures Debt(r') == Debt(r) && Nonpositive(r', 40)
  {
    var u := r[b := r[b] + 1][z := r[z] - 1];
    OwedMoves(r, u, b, z);
    OwedMoves(u, r', o, z);
  }

  lemma CrossingOwes(d: Counts, m: multiset<Group>, b: int, q: int)
    requires Covers(d, m) && IsBorder(b) && Group(Shun, b - 1) in m && b - 1 <= q <= b + 1 && d[q] <= 0
    ensures Rest(d, m)[q] < 0
  {
    assert Starting(m, b - 1) > 0;
  }

  /** A run over the border is two tiles owed, on the border and beyond it, away from a triple on the other side. */
  lemma TripleCovers(d: Counts, m: multiset<Group>, b: int, z: int, o: int)
    requires IsBorder(b) && ((z == b - 1 && o == b + 1) || (z == b + 1 && o == b - 1))
    requires Covers(d, m) && Group(Shun, b - 1) in m && d[b] <= 0 && d[o] <= 0
    ensures Covers(d, Replace(m, Group(Shun, b - 1), Group(Ke, z)))
  {
    var m' := Replace(m, Group(Shun, b - 1), Group(Ke, z));
    ReplaceBag(m, Group(Shun, b - 1), Group(Ke, z));
    CrossingOwes(d, m, b, b);
    CrossingOwes(d, m, b, o);
    forall q | Plain(q)
      ensures Rest(d, m')[q] == Rest(d, m)[q] + (if q == b || q == o then 1 else 0) - if q == z then 2 else 0
    {
      TripleRest(d, m, b, z, o, q);
    }
    OwedPairMoves(Rest(d, m), Rest(d, m'), b, o, z);
  }

  lemma MendedCovers(d: Counts, m: multiset<Group>, s: int, b: int)
    requires Covers(d, m) && IsBorder(b) && b - 2 <= s <= b && Group(Shun, s) in m && OneSided(d, b)
    ensures Covers(d, Replace(m, Group(Shun, s), Mended(d, s, b)))
  {
    if s == b - 1 {
      var z := Mended(d, s, b).val;
      TripleCovers(d, m, b, z, 2 * b - z);
    } else {
      ShiftCovers(d, m, s, b);
    }
  }

  /** Runs that pass a border. */
  function Crossing(m: multiset<Group>): nat {
    Starting(m, 18) + Starting(m, 19) + Starting(m, 20) + Starting(m, 28) + Starting(m, 29) + Starting(m, 30)
  }

  lemma MendedCrossing(d: Counts, m: multiset<Group>, s: int, b: int)
    requires IsBorder(b) && b - 2 <= s <= b && Group(Shun, s) in m
    ensures Crossing(Replace(m, Group(Shun, s), Mended(d, s, b))) == Crossing(m) - 1
  {
  }

  /** Whatever covers a one-sided hand can be turned into a cover by the rules. */
  lemma {:induction false} MendAll(d: Counts, m: multiset<Group>)
    requires Covers(d, m) && OneSided(d, 20) && OneSided(d, 30)
    ensures exists m' :: Covers(d, m') && RuleBag(m')
    decreases Crossing(m)
  {
    if g :| g in m && g.op == Shun && !InSuit(g.val) {
      var m' := MendOne(d, m, g);
      MendAll(d, m');
    } else {
      assert RuleBag(m);
    }
  }

  lemma MendOne(d: Counts, m: multiset<Group>, g: Group) returns (m': multiset<Group>)
    requires Covers(d, m) && OneSided(d, 20) && OneSided(d, 30) && g in m && g.op == Shun && !InSuit(g.val)
    ensures Covers(d, m') && Crossing(m') < Crossing(m)
  {
    var b := if g.val <= 20 then 20 else 30;
    MendedCovers(d, m, g.val, b);
    MendedCrossing(d, m, g.val, b);
    m' := Replace(m, g, Mended(d, g.val, b));
  }

  /** The pair of tiles next to each border between suits that would let a run pass it. */
  predicate OneSidedHand(c: Counts) {
    (c[19] == 0 || c[21] == 0) && (c[29] == 0 || c[31] == 0)
  }

  /** However many wild tiles: an accepted one-sided hand wins by the rules of the game. */
  lemma AcceptedWinsByRules(c: Counts)
    requires RealCodes(c) && OneSidedHand(c) && HuFrom(c, 0).ok
    ensures RuleWin(c)
  {
    HuSound(c, 0);
    var gs := HuFrom(c, 0).groups;
    var i := gs[0].val;
    var d := TakePair(c, i);
    WinsMeaning(c, i, multiset(gs[1..]));
    MendAll(d, multiset(gs[1..]));
    var m :| Covers(d, m) && RuleBag(m);
    WinsMeaning(c, i, m);
    assert Wins(c, i, m);
  }
}
