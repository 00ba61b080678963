/** Walls of the full set of tiles, arranged so that given hands are dealt from them. */
module Walls {
  import opened TableRules
  import opened TableState
  import opened DealModel

  /** Four tiles of every kind. */
  predicate FourEach(m: multiset<int>, q: int) {
    m[q] == if IsKind(q) then 4 else 0
  }

  ghost predicate FullSet(wall: seq<int>) {
    |wall| == WALL_SIZE && forall q :: FourEach(multiset(wall), q)
  }

  lemma FullSetReal(wall: seq<int>)
    requires FullSet(wall)
    ensures RealTiles(wall)
  {
    forall v | v in wall ensures IsKind(v) {
      assert FourEach(multiset(wall), v) && v in multiset(wall);
    }
  }

  const UNDEALT := 83

  /** Four hands, the dealer's first, and the tiles not dealt. */
  predicate Hands(a: seq<int>, b: seq<int>, c: seq<int>, d: seq<int>, rest: seq<int>) {
    |a| == 14 && |b| == |c| == |d| == 13 && |rest| == UNDEALT
  }

  /** Four tiles for each player, from place `k` of their hands. */
  function Row(a: seq<int>, b: seq<int>, c: seq<int>, d: seq<int>, k: nat): (r: seq<int>)
    requires |a| >= k + 4 && |b| >= k + 4 && |c| >= k + 4 && |d| >= k + 4
    ensures |r| == 16 && r[..4] == a[k..k + 4] && r[4..8] == b[k..k + 4]
    ensures r[8..12] == c[k..k + 4] && r[12..16] == d[k..k + 4]
  {
    a[k..k + 4] + b[k..k + 4] + c[k..k + 4] + d[k..k + 4]
  }

  /** The wall from which these hands are dealt. */
  function Arranged(a: seq<int>, b: seq<int>, c: seq<int>, d: seq<int>, rest: seq<int>): (w: seq<int>)
    requires Hands(a, b, c, d, rest)
    ensures |w| == WALL_SIZE && w[DEALT..] == rest
  {
    Row(a, b, c, d, 0) + Row(a, b, c, d, 4) + Row(a, b, c, d, 8) + [a[12], b[12], c[12], d[12], a[13]] + rest
  }

  lemma InRow(a: seq<int>, b: seq<int>, c: seq<int>, d: seq<int>, rest: seq<int>, r: nat)
    requires Hands(a, b, c, d, rest) && r < 3
    ensures Arranged(a, b, c, d, rest)[16 * r..16 * r + 16] == Row(a, b, c, d, 4 * r)
  {
  }

  /** Any four hands can be dealt. */
  lemma ArrangedOpens(a: seq<int>, b: seq<int>, c: seq<int>, d: seq<int>, rest: seq<int>)
    requires Hands(a, b, c, d, rest)
    ensures var w := Arranged(a, b, c, d, rest);
      Opening(w, 0) == a && Opening(w, 1) == b && Opening(w, 2) == c && Opening(w, 3) == d
  {
    var w := Arranged(a, b, c, d, rest);
    InRow(a, b, c, d, rest, 0);
    InRow(a, b, c, d, rest, 1);
    InRow(a, b, c, d, rest, 2);
    forall m, r | 0 <= m < 4 && 0 <= r < 3
      ensures w[16 * r + 4 * m..16 * r + 4 * m + 4] == w[16 * r..16 * r + 16][4 * m..4 * m + 4]
    {
    }
    assert Opening(w, 0) == a;
    assert Opening(w, 1) == b;
    assert Opening(w, 2) == c;
    assert Opening(w, 3) == d;
  }

  /** A game opened with an arranged wall, with player 0 as the dealer, has these hands. */
  lemma OpenedHands(t: Table, a: seq<int>, b: seq<int>, c: seq<int>, d: seq<int>, rest: seq<int>, lz: nat)
    requires Hands(a, b, c, d, rest) && t.turn == 0 && Opened(t, Arranged(a, b, c, d, rest), lz)
    ensures t.seats[0].hand == a && t.seats[1].hand == b && t.seats[2].hand == c && t.seats[3].hand == d
  {
    ArrangedOpens(a, b, c, d, rest);
  }

  // ----- the tiles of an arranged wall -----

  lemma Fours(a: seq<int>, q: int)
    requires 13 <= |a| <= 14
    ensures multiset(a)[q]
            == multiset(a[0..4])[q] + multiset(a[4..8])[q] + multiset(a[8..12])[q]
             + (if a[12] == q then 1 else 0) + if |a| == 14 && a[13] == q then 1 else 0
  {
    assert a == a[0..4] + a[4..8] + a[8..12] + [a[12]] + if |a| == 14 then [a[13]] else [];
  }

  lemma RowCounts(a: seq<int>, b: seq<int>, c: seq<int>, d: seq<int>, k: nat, q: int)
    requires |a| >= k + 4 && |b| >= k + 4 && |c| >= k + 4 && |d| >= k + 4
    ensures multiset(Row(a, b, c, d, k))[q]
            == multiset(a[k..k + 4])[q] + multiset(b[k..k + 4])[q] + multiset(c[k..k + 4])[q] + multiset(d[k..k + 4])[q]
  {
  }

  lemma SumCounts(s: seq<int>, t: seq<int>, u: seq<int>, v: seq<int>, w: seq<int>, q: int)
    ensures multiset(s + t + u + v + w)[q]
            == multiset(s)[q] + multiset(t)[q] + multiset(u)[q] + multiset(v)[q] + multiset(w)[q]
  {
  }

  lemma FiveCounts(v: int, w: int, x: int, y: int, z: int, q: int)
    ensures multiset([v, w, x, y, z])[q]
            == (if v == q then 1 else 0) + (if w == q then 1 else 0) + (if x == q then 1 else 0)
             + (if y == q then 1 else 0) + if z == q then 1 else 0
  {
  }

  lemma ArrangedRows(a: seq<int>, b: seq<int>, c: seq<int>, d: seq<int>, rest: seq<int>, q: int)
    requires Hands(a, b, c, d, rest)
    ensures multiset(Arranged(a, b, c, d, rest))[q]
            == multiset(Row(a, b, c, d, 0))[q] + multiset(Row(a, b, c, d, 4))[q] + multiset(Row(a, b, c, d, 8))[q]
             + multiset([a[12], b[12], c[12], d[12], a[13]])[q] + multiset(rest)[q]
  {
    SumCounts(Row(a, b, c, d, 0), Row(a, b, c, d, 4), Row(a, b, c, d, 8),
              [a[12], b[12], c[12], d[12], a[13]], rest, q);
  }

  /** The wall holds the tiles of the hands and the rest. */
  lemma ArrangedCounts(a: seq<int>, b: seq<int>, c: seq<int>, d: seq<int>, rest: seq<int>, q: int)
    requires Hands(a, b, c, d, rest)
    ensures multiset(Arranged(a, b, c, d, rest))[q]
            == multiset(a)[q] + multiset(b)[q] + multiset(c)[q] + multiset(d)[q] + multiset(rest)[q]
  {
    ArrangedRows(a, b, c, d, rest, q);
    FiveCounts(a[12], b[12], c[12], d[12], a[13], q);
    Fours(a, q);
    Fours(b, q);
    Fours(c, q);
    Fours(d, q);
    RowCounts(a, b, c, d, 0, q);
    RowCounts(a, b, c, d, 4, q);
    RowCounts(a, b, c, d, 8, q);
  }

  /** How many tiles of code `q` four hands and the rest hold together. */
  function Together(a: seq<int>, b: seq<int>, c: seq<int>, d: seq<int>, rest: seq<int>, q: int): nat {
    multiset(a)[q] + multiset(b)[q] + multiset(c)[q] + multiset(d)[q] + multiset(rest)[q]
  }

  /** Hands and a rest that are a full set are dealt from a full wall. */
  lemma ArrangedFull(a: seq<int>, b: seq<int>, c: seq<int>, d: seq<int>, rest: seq<int>)
    requires Hands(a, b, c, d, rest)
    requires forall q :: Together(a, b, c, d, rest, q) == if IsKind(q) then 4 else 0
    ensures FullSet(Arranged(a, b, c, d, rest))
  {
    forall q ensures FourEach(multiset(Arranged(a, b, c, d, rest)), q) {
      ArrangedCounts(a, b, c, d, rest, q);
      assert Together(a, b, c, d, rest, q) == if IsKind(q) then 4 else 0;
    }
  }

  // ----- consecutive tiles -----

  /** One tile of each code from `lo` up to but not including `hi`. */
  function Codes(lo: nat, hi: nat): (s: seq<int>)
    requires lo <= hi
    ensures |s| == hi - lo
  {
    seq(hi - lo, k => lo + k)
  }

  function Within(lo: nat, hi: nat, q: int): nat {
    if lo <= q < hi then 1 else 0
  }

  lemma {:induction false} CodesCount(lo: nat, hi: nat, q: int)
    requires lo <= hi
    ensures multiset(Codes(lo, hi))[q] == Within(lo, hi, q)
    decreases hi - lo
  {
    if lo < hi {
      CodesCount(lo, hi - 1, q);
      assert Codes(lo, hi) == Codes(lo, hi - 1) + [hi - 1];
    } else {
      assert Codes(lo, hi) == [];
    }
  }
}
