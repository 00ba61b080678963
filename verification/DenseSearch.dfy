/** The winning-hand search over a count array with wild tiles, as a function of the counts it starts from. */
module DenseSearch {
  import opened Tiles

  /** What one search call answers: success, wild tiles left in the array, groups appended. */
  datatype Outcome = Outcome(ok: bool, wild: int, groups: seq<Group>)

  // ----- the search -----

  function Next(c: Counts, p: nat): (r: nat)
    requires p <= 40
    ensures p <= r <= 40 && r != LAIZI
    ensures forall q | p <= q < r && q != LAIZI :: c[q] <= 0
    ensures r <= TONG9 ==> c[r] > 0
    decreases |c| - p
  {
    if p == LAIZI || (c[p] <= 0 && p <= TONG9) then Next(c, p + 1) else p
  }

  /** What `Next` finds is determined by its contract. */
  lemma {:induction false} NextIs(c: Counts, p: nat, r: nat)
    requires p <= r <= 40 && r != LAIZI && (forall q | p <= q < r && q != LAIZI :: c[q] <= 0)
    requires r <= TONG9 ==> c[r] > 0
    ensures Next(c, p) == r
    decreases r - p
  {
    if p < r {
      NextIs(c, p + 1, r);
    }
  }

  /** The positions the search is called on: past the last plain code, or a code still held. */
  predicate Ready(c: Counts, p: int) {
    0 <= p <= 40 && p != LAIZI && (p <= TONG9 ==> c[p] > 0)
  }

  function TakeTriple(c: Counts, p: int): Counts
    requires Plain(p)
  {
    c[p := c[p] - 3][LAIZI := c[LAIZI] - Owed(c[p] - 3)]
  }

  predicate RunGuard(c: Counts, p: int)
    requires 0 <= p <= 40
  {
    p <= TONG7 && c[p] >= 1 &&
    ((c[p + 1] + c[LAIZI] >= 1 && c[p + 2] >= 1) || (c[p + 1] >= 1 && c[p + 2] + c[LAIZI] >= 1))
  }

  function TakeRun(c: Counts, p: int): Counts
    requires TIAO1 <= p <= TONG7
  {
    c[p := c[p] - 1][p + 1 := c[p + 1] - 1][p + 2 := c[p + 2] - 1]
    [LAIZI := c[LAIZI] - (if c[p + 1] <= 0 then 1 else 0) - (if c[p + 2] <= 0 then 1 else 0)]
  }

  function Kezi(c: Counts, p: nat): (o: Outcome)
    requires Ready(c, p)
    ensures !o.ok ==> o.groups == []
    decreases 40 - p, if p <= TONG9 then c[p] else 0, 0
  {
    if p > TONG9 then Outcome(true, c[LAIZI], [])
    else if c[p] + c[LAIZI] >= 3 then
      var d := TakeTriple(c, p);
      var r := Deal(d, Next(d, p));
      Outcome(r.ok, r.wild + Owed(d[p]), if r.ok then [Group(Ke, p)] + r.groups else [])
    else Outcome(false, c[LAIZI], [])
  }

  function Shunzi(c: Counts, p: nat): (o: Outcome)
    requires Ready(c, p)
    ensures !o.ok ==> o.groups == []
    decreases 40 - p, if p <= TONG9 then c[p] else 0, 0
  {
    if p < TIAO1 then Outcome(false, c[LAIZI], [])
    else if p > TONG9 then Outcome(true, c[LAIZI], [])
    else if RunGuard(c, p) then
      var d := TakeRun(c, p);
      var r := Deal(d, Next(d, p));
      Outcome(r.ok, r.wild + (if c[p + 1] == 0 then 1 else 0) + (if c[p + 2] == 0 then 1 else 0),
              if r.ok then [Group(Shun, p)] + r.groups else [])
    else Outcome(false, c[LAIZI], [])
  }

  /** Triple first, run second, on whatever wild count the failed triple left behind. */
  function Deal(c: Counts, p: nat): (o: Outcome)
    requires Ready(c, p)
    ensures !o.ok ==> o.groups == []
    decreases 40 - p, if p <= TONG9 then c[p] else 0, 1
  {
    var k := Kezi(c, p);
    if k.ok then k else Shunzi(c[LAIZI := k.wild], p)
  }

  predicate PairGuard(c: Counts, i: int) {
    0 <= i <= 40 && i != LAIZI && c[i] > 0 && c[i] + c[LAIZI] >= 2
  }

  function TakePair(c: Counts, i: nat): Counts
    requires i <= 40
  {
    c[i := c[i] - 2][LAIZI := c[LAIZI] - (if c[i] - 2 < 0 then 1 else 0)]
  }

  function PairAt(c: Counts, i: nat): (o: Outcome)
    requires PairGuard(c, i)
    ensures !o.ok ==> o.groups == []
  {
    var d := TakePair(c, i);
    var r := Deal(d, Next(d, 0));
    Outcome(r.ok, r.wild + (if c[i] == 1 then 1 else 0), if r.ok then [Group(Jiang, i)] + r.groups else [])
  }

  /** The pair loop from code `i` on. */
  function HuFrom(c: Counts, i: nat): (o: Outcome)
    requires i <= 41
    ensures !o.ok ==> o.groups == []
    decreases |c| - i
  {
    if i == 41 then Outcome(false, c[LAIZI], [])
    else if PairGuard(c, i) then
      var r := PairAt(c, i);
      if r.ok then r else HuFrom(c[LAIZI := r.wild], i + 1)
    else HuFrom(c, i + 1)
  }

  // ----- what a hand of groups is, independently of the search -----

  /** A bag of triples of plain codes and runs of three consecutive codes starting at 11..37. */
  predicate GroupBag(m: multiset<Group>) {
    forall g | g in m :: (g.op == Ke && Plain(g.val)) || (g.op == Shun && TIAO1 <= g.val <= TONG7)
  }

  function Starting(m: multiset<Group>, q: int): nat {
    m[Group(Shun, q)]
  }

  /** Runs of the bag that contain code `q`. */
  function Through(m: multiset<Group>, q: int): nat {
    Starting(m, q) + Starting(m, q - 1) + Starting(m, q - 2)
  }

  /** Tiles of code `q` the bag needs. */
  function Need(m: multiset<Group>, q: int): nat {
    3 * m[Group(Ke, q)] + Through(m, q)
  }

  /** The plain counts left after laying the bag out; negative entries are filled by wild tiles. */
  function Rest(c: Counts, m: multiset<Group>): Counts {
    seq(KINDS, q => if Plain(q) then c[q] - Need(m, q) else 0)
  }

  /** No plain code below `p` is held. */
  ghost predicate Nonpositive(c: Counts, p: int) {
    forall q | Plain(q) && q < p :: c[q] <= 0
  }

  /** The bag covers every plain tile, and the tiles it lacks are at most the wild budget. */
  ghost predicate Covers(c: Counts, m: multiset<Group>) {
    GroupBag(m) && Nonpositive(Rest(c, m), 40) && Debt(Rest(c, m)) <= Budget(c)
  }

  predicate SightAt(c: Counts, m: multiset<Group>, q: int)
    requires 0 <= q < KINDS
  {
    && (Starting(m, q) > 0 ==> Through(m, q) <= c[q])
    && (Through(m, q) > 0 ==> Through(m, q) <= c[q] + 1)
  }

  /** Every run of the bag starts on a held tile, and runs lack at most one tile of any code. */
  ghost predicate InSight(c: Counts, m: multiset<Group>) {
    forall q | Plain(q) :: SightAt(c, m, q)
  }

  // ----- budgets -----

  lemma TripleBudget(c: Counts, p: int)
    requires Plain(p) && c[p] > 0
    ensures Budget(TakeTriple(c, p)) == Budget(c)
  {
    var d := c[p := c[p] - 3];
    DebtUpdate(c, p, c[p] - 3);
    DebtUpdate(d, LAIZI, c[LAIZI] - Owed(c[p] - 3));
  }

  lemma RunBudget(c: Counts, p: int)
    requires TIAO1 <= p <= TONG7 && c[p] > 0
    ensures Budget(TakeRun(c, p)) == Budget(c)
  {
    var d0 := c[p := c[p] - 1];
    var d1 := d0[p + 1 := c[p + 1] - 1];
    var d2 := d1[p + 2 := c[p + 2] - 1];
    DebtUpdate(c, p, c[p] - 1);
    DebtUpdate(d0, p + 1, c[p + 1] - 1);
    DebtUpdate(d1, p + 2, c[p + 2] - 1);
    DebtUpdate(d2, LAIZI, TakeRun(c, p)[LAIZI]);
  }

  lemma PairBudget(c: Counts, i: nat)
    requires PairGuard(c, i)
    ensures Budget(TakePair(c, i)) == Budget(c) - if i == 40 && c[i] == 1 then 1 else 0
  {
    var d := c[i := c[i] - 2];
    DebtUpdate(c, i, c[i] - 2);
    DebtUpdate(d, LAIZI, TakePair(c, i)[LAIZI]);
  }

  /** With two wild tiles in all, a run never finds one of its upper codes already owed. */
  lemma RunGuardNotOwed(c: Counts, p: int)
    requires TIAO1 <= p <= TONG7 && RunGuard(c, p) && Budget(c) <= 2
    ensures c[p + 1] >= 0 && c[p + 2] >= 0
  {
    OwedAtMostDebt(c, p + 1);
    OwedAtMostDebt(c, p + 2);
  }

  // ----- the wild count -----

  /** What is left of the wild count `lz` after a search: all of it with a budget of two, and never less than that. */
  predicate WildKept(lz: int, debt: nat, w: int) {
    && 0 <= w <= lz
    && (lz >= 1 ==> w >= 1)
    && (lz + debt <= 2 ==> w == lz)
    && (lz + debt >= 2 ==> w + debt >= 2)
  }

  /** The wild count never rises, never goes negative, and loses at most what goes beyond two, counting those owed. */
  lemma {:induction false} DealWild(c: Counts, p: nat)
    requires Ready(c, p) && c[LAIZI] >= 0
    ensures WildKept(c[LAIZI], Debt(c), Deal(c, p).wild)
    decreases 40 - p, if p <= TONG9 then c[p] else 0, 1
  {
    KeziWild(c, p);
    var k := Kezi(c, p);
    DebtUpdate(c, LAIZI, k.wild);
    ShunziWild(c[LAIZI := k.wild], p);
    if Budget(c) <= 2 {
      assert c[LAIZI := k.wild] == c;
    }
  }

  lemma {:induction false} KeziWild(c: Counts, p: nat)
    requires Ready(c, p) && c[LAIZI] >= 0
    ensures WildKept(c[LAIZI], Debt(c), Kezi(c, p).wild)
    decreases 40 - p, if p <= TONG9 then c[p] else 0, 0
  {
    if p <= TONG9 && c[p] + c[LAIZI] >= 3 {
      var d := TakeTriple(c, p);
      TripleBudget(c, p);
      DealWild(d, Next(d, p));
    }
  }

  lemma {:induction false} ShunziWild(c: Counts, p: nat)
    requires Ready(c, p) && c[LAIZI] >= 0
    ensures WildKept(c[LAIZI], Debt(c), Shunzi(c, p).wild)
    decreases 40 - p, if p <= TONG9 then c[p] else 0, 0
  {
    if TIAO1 <= p <= TONG9 && RunGuard(c, p) {
      var d := TakeRun(c, p);
      RunBudget(c, p);
      DealWild(d, Next(d, p));
      OwedAtMostDebt(c, p + 1);
      OwedAtMostDebt(c, p + 2);
    }
  }
}
