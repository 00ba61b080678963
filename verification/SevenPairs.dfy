/** The seven-pairs check, which spends wild tiles on odd kinds in code order. */
module SevenPairs {
  import opened Tiles

  function KindPairs(x: int, lz: int): int {
    if x == 1 && lz > 0 then 1 else if x == 2 then 1 else if x == 3 && lz > 0 then 2 else if x == 4 then 2 else 0
  }

  function KindWilds(x: int, lz: int): int {
    if (x == 1 || x == 3) && lz > 0 then 1 else 0
  }

  /** Pairs counted from code `i` on, with `lz` wild tiles left. */
  function PairsFrom(c: Counts, i: nat, lz: int): int
    requires i <= KINDS
    decreases |c| - i
  {
    if i == KINDS then 0
    else if i == LAIZI then PairsFrom(c, i + 1, lz)
    else KindPairs(c[i], lz) + PairsFrom(c, i + 1, lz - KindWilds(c[i], lz))
  }

  predicate IsSevenPairs(c: Counts) {
    PairsFrom(c, 0, c[LAIZI]) == 7
  }

  function OddFrom(c: Counts, i: nat): nat
    requires i <= KINDS
    decreases |c| - i
  {
    if i == KINDS then 0 else OddFrom(c, i + 1) + if i != LAIZI && c[i] % 2 == 1 then 1 else 0
  }

  function HeldFrom(c: Counts, i: nat): int
    requires i <= KINDS
    decreases |c| - i
  {
    if i == KINDS then 0 else HeldFrom(c, i + 1) + if i != LAIZI then c[i] else 0
  }

  /** Wild tiles for every odd kind: all tiles pair up. One too few: tiles stay unpaired. */
  lemma {:induction false} PairsCount(c: Counts, i: nat, lz: int)
    requires i <= KINDS && lz >= 0 && forall q | i <= q < KINDS && q != LAIZI :: 0 <= c[q] <= 4
    ensures OddFrom(c, i) <= lz ==> 2 * PairsFrom(c, i, lz) == HeldFrom(c, i) + OddFrom(c, i)
    ensures OddFrom(c, i) > lz ==> 2 * PairsFrom(c, i, lz) < HeldFrom(c, i) + lz
    decreases KINDS - i
  {
    if i < KINDS {
      if i == LAIZI {
        PairsCount(c, i + 1, lz);
      } else {
        PairsCount(c, i + 1, lz - KindWilds(c[i], lz));
      }
    }
  }

  /**
   For at most 14 tiles with each kind held at most four times: the answer is yes exactly when there are 14 tiles
   and as many wild tiles as odd kinds, so that every tile and every wild tile goes into one of the seven pairs.
   */
  lemma SevenPairsExact(c: Counts)
    requires c[LAIZI] >= 0 && (forall q | 0 <= q < KINDS && q != LAIZI :: 0 <= c[q] <= 4)
    requires HeldFrom(c, 0) + c[LAIZI] <= 14
    ensures IsSevenPairs(c) <==> HeldFrom(c, 0) + c[LAIZI] == 14 && OddFrom(c, 0) == c[LAIZI]
  {
    PairsCount(c, 0, c[LAIZI]);
  }
}
