/** Tiles, groups and count arrays shared by the mahjong modules. */
module Tiles {

  const LAIZI := 8   // the code under which wild tiles are counted
  const TIAO1 := 11
  const TIAO2 := 12
  const TIAO3 := 13
  const TONG7 := 37
  const TONG9 := 39
  const KINDS := 41  // length of a count array (the code of Chun)

  datatype Op =
    | FaPai | MoPai | HdlPai | ChuPai | GuoPai | LChi | MChi | RChi
    | Peng | MGang | BGang | AGang | HuPai | Jiang | Shun | Ke

  /** A meld or part of a hand. `val` is an `int`, so neighbouring codes can be named without a range proof. */
  datatype Group = Group(op: Op, val: int)

  /** How many tiles of each code are held; entry LAIZI counts the wild tiles. */
  type Counts = c: seq<int> | |c| == KINDS witness seq(KINDS, _ => 0)

  /** The codes that groups are made of. */
  predicate Plain(q: int) {
    0 <= q <= TONG9 && q != LAIZI
  }

  /** How far below zero a count is: the wild tiles that stand in for that code. */
  function Owed(x: int): nat {
    if x < 0 then -x else 0
  }

  ghost function DebtTo(c: Counts, n: nat): nat
    requires n <= 40
  {
    if n == 0 then 0 else DebtTo(c, n - 1) + if n - 1 == LAIZI then 0 else Owed(c[n - 1])
  }

  /** All wild tiles standing in for plain codes. */
  ghost function Debt(c: Counts): nat {
    DebtTo(c, 40)
  }

  /** Wild tiles still free plus those already standing in for something. */
  ghost function Budget(c: Counts): int {
    c[LAIZI] + Debt(c)
  }

  lemma {:induction false} DebtToUpdate(c: Counts, q: nat, x: int, n: nat)
    requires q < KINDS && n <= 40
    ensures DebtTo(c[q := x], n) == DebtTo(c, n) + if Plain(q) && q < n then Owed(x) - Owed(c[q]) else 0
  {
    if n > 0 {
      DebtToUpdate(c, q, x, n - 1);
    }
  }

  lemma {:induction false} DebtToMono(c: Counts, d: Counts, n: nat)
    requires n <= 40 && forall q | Plain(q) :: d[q] <= c[q]
    ensures DebtTo(c, n) <= DebtTo(d, n)
  {
    if n > 0 {
      DebtToMono(c, d, n - 1);
    }
  }

  lemma DebtUpdate(c: Counts, q: nat, x: int)
    requires q < KINDS
    ensures Debt(c[q := x]) == Debt(c) + if Plain(q) then Owed(x) - Owed(c[q]) else 0
  {
    DebtToUpdate(c, q, x, 40);
  }

  /** Lowering counts everywhere owes at least what is newly owed at two chosen codes. */
  lemma DebtGap(c: Counts, d: Counts, a: nat, b: nat)
    requires Plain(a) && Plain(b) && a != b
    requires forall q | Plain(q) :: d[q] <= c[q]
    ensures Debt(d) >= Debt(c) + (Owed(d[a]) - Owed(c[a])) + (Owed(d[b]) - Owed(c[b]))
    ensures Debt(d) >= Debt(c) + (Owed(d[a]) - Owed(c[a]))
  {
    var e := c[a := d[a]];
    DebtUpdate(c, a, d[a]);
    DebtUpdate(e, b, d[b]);
    DebtToMono(e[b := d[b]], d, 40);
    DebtToMono(e, d, 40);
  }

  lemma {:induction false} DebtToSingle(c: Counts, q: nat, n: nat)
    requires Plain(q) && n <= 40
    ensures q < n ==> Owed(c[q]) <= DebtTo(c, n)
  {
    if n > 0 {
      DebtToSingle(c, q, n - 1);
    }
  }

  lemma OwedAtMostDebt(c: Counts, q: nat)
    requires Plain(q)
    ensures Owed(c[q]) <= Debt(c)
  {
    DebtToSingle(c, q, 40);
  }

  lemma {:induction false} NoDebtTo(c: Counts, n: nat)
    requires n <= 40 && forall q | Plain(q) :: c[q] >= 0
    ensures DebtTo(c, n) == 0
  {
    if n > 0 {
      NoDebtTo(c, n - 1);
    }
  }
}
