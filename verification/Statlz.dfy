/** The hand statistics object: its search methods change counts and groups in place and undo the changes. */
module StatlzModel {
  import opened Tiles
  import opened DenseSearch
  import opened SevenPairs

  /** Tile counts of a hand, with `pai` added when positive and tiles of code `laizi` moved to the wild entry. */
  function HandCounts(hand: seq<int>, pai: nat, laizi: nat): Counts
    requires (forall v | v in hand :: 0 <= v < KINDS) && pai < KINDS && laizi < KINDS
  {
    var m := multiset(hand);
    var c: Counts := seq(KINDS, q requires 0 <= q => m[q] + if pai > 0 && q == pai then 1 else 0);
    if laizi > 0 then c[LAIZI := c[laizi]][laizi := 0] else c
  }

  /** All tiles that are counted: the hand, and the tile claimed if there is one. */
  function Counted(hand: seq<int>, pai: nat): multiset<int> {
    multiset(hand) + if pai > 0 then multiset{pai} else multiset{}
  }

  /** The wild tiles, and no others, are counted at the wild entry; every other tile at its own code. */
  lemma CountsMean(hand: seq<int>, pai: nat, laizi: nat, q: nat)
    requires (forall v | v in hand :: 0 <= v < KINDS) && pai < KINDS && laizi < KINDS && laizi != LAIZI && q < KINDS
    ensures var c, all := HandCounts(hand, pai, laizi), Counted(hand, pai);
      && (q != LAIZI && q != laizi ==> c[q] == all[q])
      && (laizi > 0 ==> c[laizi] == 0 && c[LAIZI] == all[laizi])
      && (laizi == 0 ==> c[q] == all[q])
  {
  }

  predicate IsJiang(v: int) {
    v in {12, 15, 18, 22, 25, 28, 32, 35, 38}
  }

  predicate JiangGroup(g: Group) {
    g.op == Ke || g.op == Shun || (g.op != LChi && g.op != MChi && g.op != RChi && IsJiang(g.val))
  }

  predicate AllJiang(c: Counts, groups: seq<Group>) {
    (forall g | g in groups :: JiangGroup(g)) && forall q | 0 <= q < KINDS && c[q] > 0 && q != LAIZI :: IsJiang(q)
  }

  /** Winning by any of the three patterns; the later checks see the wild count the search left. */
  predicate Winning(c: Counts, groups: seq<Group>) {
    var h := HuFrom(c, 0);
    h.ok || IsSevenPairs(c[LAIZI := h.wild]) || AllJiang(c[LAIZI := h.wild], groups)
  }

  predicate SelfOffer(c: Counts, g: Group) {
    g.op == AGang && 0 <= g.val < KINDS && g.val != LAIZI && c[g.val] == 4
  }

  predicate ClaimOffer(c: Counts, val: nat, g: Group)
    requires val <= TONG9
  {
    g.val == val && (match g.op
      case LChi => val >= TIAO1 && c[val + 1] > 0 && val < TONG9 && c[val + 2] > 0
      case MChi => val >= TIAO2 && c[val - 1] > 0 && c[val + 1] > 0
      case RChi => val >= TIAO3 && c[val - 2] > 0 && c[val - 1] > 0
      case Peng => c[val] >= 3
      case MGang => c[val] >= 4
      case _ => false)
  }

  class Statlz {
    var laizi: nat
    var pai: nat
    var num: Counts
    var groups: seq<Group>

    /**
     A search call that started from counts `c` and groups `gs` answered `o`: every plain count is what it was,
     the wild entry is what the search left, and the groups found are appended.
     */
    ghost predicate Answers(ok: bool, o: Outcome, c: Counts, gs: seq<Group>)
      reads this
    {
      ok == o.ok && num == c[LAIZI := o.wild] && groups == gs + o.groups
    }

    constructor (mj: seq<int>, pai: nat, laizi: nat, group: seq<Group>)
      requires (forall v | v in mj :: 0 <= v < KINDS) && pai < KINDS && laizi < KINDS
      ensures num == HandCounts(mj, pai, laizi) && groups == group
    {
      this.pai := pai;
      this.laizi := 0;
      groups := group;
      num := seq(KINDS, _ => 0);
      new;
      for i := 0 to |mj|
        invariant groups == group && this.laizi == 0
        invariant forall q | 0 <= q < KINDS :: num[q] == multiset(mj[..i])[q]
      {
        assert mj[..i + 1] == mj[..i] + [mj[i]];
        assert mj[i] in mj;
        num := num[mj[i] := num[mj[i]] + 1];
      }
      assert mj[..|mj|] == mj;
      if pai > 0 {
        num := num[pai := num[pai] + 1];
      }
      if laizi > 0 {
        this.laizi := laizi;
        num := num[LAIZI := num[laizi]];
        num := num[laizi := 0];
      }
    }

    /** The first code from `pai` on that is still held, or 40. */
    method NextHeld(pai: nat) returns (r: nat)
      requires pai <= 40
      ensures r == Next(num, pai)
    {
      r := pai;
      while r == LAIZI || (num[r] <= 0 && r <= TONG9)
        invariant pai <= r <= 40 && Next(num, pai) == Next(num, r)
        decreases 40 - r
      {
        r := r + 1;
      }
    }

    /** Takes a triple on `pai` out of the counts. */
    method LayTriple(pai: nat)
      requires Plain(pai)
      modifies this`groups, this`num
      ensures num == TakeTriple(old(num), pai) && groups == old(groups) + [Group(Ke, pai)]
    {
      num := num[pai := num[pai] - 3];
      if num[pai] < 0 {
        num := num[LAIZI := num[LAIZI] + num[pai]];
      }
      groups := groups + [Group(Ke, pai)];
    }

    /** Undoes `LayTriple` whatever the search in between left as wild count; the group goes when the search failed. */
    method LiftTriple(pai: nat, ok: bool, ghost c: Counts, ghost gs: seq<Group>)
      requires Plain(pai) && num == TakeTriple(c, pai)[LAIZI := num[LAIZI]]
      requires !ok ==> groups == gs + [Group(Ke, pai)]
      modifies this`groups, this`num
      ensures groups == if ok then old(groups) else gs
      ensures num == c[LAIZI := old(num[LAIZI]) + Owed(c[pai] - 3)]
    {
      if !ok {
        groups := groups[..|groups| - 1];
      }
      if num[pai] < 0 {
        num := num[LAIZI := num[LAIZI] - num[pai]];
      }
      num := num[pai := num[pai] + 3];
    }

    /** Tries a triple on `pai`: answers like `Kezi`, and puts every plain count back. */
    method DealKezi(pai: nat) returns (ok: bool)
      requires Ready(num, pai)
      modifies this`groups, this`num
      ensures Answers(ok, Kezi(old(num), pai), old(num), old(groups))
      decreases 40 - pai, if pai <= TONG9 then num[pai] else 0, 0
    {
      if pai > TONG9 {
        return true;
      }
      if num[pai] + num[LAIZI] >= 3 {
        LayTriple(pai);
        var j := NextHeld(pai);
        ok := DealEither(j);
        LiftTriple(pai, ok, old(num), old(groups));
        return ok;
      }
      return false;
    }

    /** Takes a run starting on `pai` out of the counts, with a wild tile for each upper code not held. */
    method LayRun(pai: nat)
      requires TIAO1 <= pai <= TONG7
      modifies this`groups, this`num
      ensures num == TakeRun(old(num), pai) && groups == old(groups) + [Group(Shun, pai)]
    {
      num := num[pai := num[pai] - 1];
      num := num[pai + 1 := num[pai + 1] - 1];
      num := num[pai + 2 := num[pai + 2] - 1];
      if num[pai + 1] < 0 {
        num := num[LAIZI := num[LAIZI] - 1];
      }
      if num[pai + 2] < 0 {
        num := num[LAIZI := num[LAIZI] - 1];
      }
      groups := groups + [Group(Shun, pai)];
    }

    /** Undoes `LayRun`, but returns a wild tile only for a code that comes back to exactly zero. */
    method LiftRun(pai: nat, ok: bool, ghost c: Counts, ghost gs: seq<Group>)
      requires TIAO1 <= pai <= TONG7 && num == TakeRun(c, pai)[LAIZI := num[LAIZI]]
      requires !ok ==> groups == gs + [Group(Shun, pai)]
      modifies this`groups, this`num
      ensures groups == if ok then old(groups) else gs
      ensures num ==
        c[LAIZI := old(num[LAIZI]) + (if c[pai + 1] == 0 then 1 else 0) + (if c[pai + 2] == 0 then 1 else 0)]
    {
      if !ok {
        groups := groups[..|groups| - 1];
      }
      num := num[pai := num[pai] + 1];
      num := num[pai + 1 := num[pai + 1] + 1];
      num := num[pai + 2 := num[pai + 2] + 1];
      assert num == c[LAIZI := num[LAIZI]];
      if num[pai + 1] == 0 {
        num := num[LAIZI := num[LAIZI] + 1];
      }
      if num[pai + 2] == 0 {
        num := num[LAIZI := num[LAIZI] + 1];
      }
    }

    /** Tries a run starting on `pai`: answers like `Shunzi`, and puts every plain count back. */
    method DealShunzi(pai: nat) returns (ok: bool)
      requires Ready(num, pai)
      modifies this`groups, this`num
      ensures Answers(ok, Shunzi(old(num), pai), old(num), old(groups))
      decreases 40 - pai, if pai <= TONG9 then num[pai] else 0, 0
    {
      if pai < TIAO1 {
        return false;
      }
      if pai > TONG9 {
        return true;
      }
      if (pai <= TONG7 && num[pai] >= 1 && num[pai + 1] + num[LAIZI] >= 1 && num[pai + 2] >= 1) ||
         (pai <= TONG7 && num[pai] >= 1 && num[pai + 1] >= 1 && num[pai + 2] + num[LAIZI] >= 1) {
        LayRun(pai);
        var j := NextHeld(pai);
        ok := DealEither(j);
        LiftRun(pai, ok, old(num), old(groups));
        return ok;
      }
      return false;
    }

    /** A triple on `pai` or else a run on it, which is how every search step goes on. */
    method DealEither(pai: nat) returns (ok: bool)
      requires Ready(num, pai)
      modifies this`groups, this`num
      ensures Answers(ok, Deal(old(num), pai), old(num), old(groups))
      decreases 40 - pai, if pai <= TONG9 then num[pai] else 0, 1
    {
      ok := DealKezi(pai);
      if !ok {
        ok := DealShunzi(pai);
        assert old(num)[LAIZI := Kezi(old(num), pai).wild][LAIZI := num[LAIZI]] == old(num)[LAIZI := num[LAIZI]];
      }
    }

    /** Takes a pair of `i` out of the counts. */
    method LayPair(i: nat)
      requires PairGuard(num, i)
      modifies this`groups, this`num
      ensures num == TakePair(old(num), i) && groups == old(groups) + [Group(Jiang, i)]
    {
      num := num[i := num[i] - 2];
      if num[i] < 0 {
        num := num[LAIZI := num[LAIZI] - 1];
      }
      groups := groups + [Group(Jiang, i)];
    }

    method LiftPair(i: nat, ok: bool, ghost c: Counts, ghost gs: seq<Group>)
      requires PairGuard(c, i) && num == TakePair(c, i)[LAIZI := num[LAIZI]]
      requires !ok ==> groups == gs + [Group(Jiang, i)]
      modifies this`groups, this`num
      ensures groups == if ok then old(groups) else gs
      ensures num == c[LAIZI := old(num[LAIZI]) + if c[i] == 1 then 1 else 0]
    {
      if !ok {
        groups := groups[..|groups| - 1];
      }
      num := num[i := num[i] + 2];
      if num[i] == 1 {
        num := num[LAIZI := num[LAIZI] + 1];
      }
    }

    /** One round of the pair loop: the pair `i`, then the rest from the lowest held code. */
    method TryPair(i: nat) returns (ok: bool)
      requires PairGuard(num, i)
      modifies this`groups, this`num
      ensures Answers(ok, PairAt(old(num), i), old(num), old(groups))
    {
      LayPair(i);
      var idx := NextHeld(0);
      ok := DealEither(idx);
      LiftPair(i, ok, old(num), old(groups));
    }

    /** One pair, triples and runs. Every plain count is put back; the groups stay only on success. */
    method Hu233() returns (ok: bool)
      modifies this`groups, this`num
      ensures Answers(ok, HuFrom(old(num), 0), old(num), old(groups))
    {
      for i := 0 to KINDS
        invariant groups == old(groups)
        invariant num == old(num)[LAIZI := num[LAIZI]] && HuFrom(old(num), 0) == HuFrom(num, i)
      {
        if num[i] > 0 && i != LAIZI && num[i] + num[LAIZI] >= 2 {
          ok := TryPair(i);
          if ok {
            return true;
          }
        }
      }
      return false;
    }

    method HuQd() returns (ok: bool)
      ensures ok == IsSevenPairs(num)
    {
      var n := 0;
      var lzNum := num[LAIZI];
      for i := 0 to KINDS
        invariant n + PairsFrom(num, i, lzNum) == PairsFrom(num, 0, num[LAIZI])
      {
        if i == LAIZI {
          continue;
        }
        if num[i] == 1 && lzNum > 0 {
          n := n + 1;
          lzNum := lzNum - 1;
        } else if num[i] == 2 {
          n := n + 1;
        } else if num[i] == 3 && lzNum > 0 {
          n := n + 2;
          lzNum := lzNum - 1;
        } else if num[i] == 4 {
          n := n + 2;
        }
      }
      return n == 7;
    }

    method HuJys() returns (ok: bool)
      ensures ok == AllJiang(num, groups)
    {
      for i := 0 to |groups|
        invariant forall k | 0 <= k < i :: JiangGroup(groups[k])
      {
        var g := groups[i];
        if g.op == Ke || g.op == Shun {
          continue;
        }
        if g.op == LChi || g.op == MChi || g.op == RChi {
          assert g in groups && !JiangGroup(g);
          return false;
        }
        if !IsJiang(g.val) {
          assert g in groups && !JiangGroup(g);
          return false;
        }
      }
      for val := 0 to KINDS
        invariant forall q | 0 <= q < val && num[q] > 0 && q != LAIZI :: IsJiang(q)
      {
        if num[val] > 0 && val != LAIZI && !IsJiang(val) {
          return false;
        }
      }
      return true;
    }

    method CanHu() returns (ok: bool)
      modifies this`groups, this`num
      ensures ok == Winning(old(num), old(groups))
    {
      ok := Hu233();
      if !ok {
        assert groups == old(groups);
        ok := HuQd();
      }
      if !ok {
        ok := HuJys();
      }
    }

    /** Concealed gangs of every kind held four times, and winning when the hand wins. */
    method CanOpSelf() returns (ret: seq<Group>)
      modifies this`groups, this`num
      ensures forall g :: g in ret <==>
        SelfOffer(old(num), g) || (g == Group(HuPai, 0) && Winning(old(num), old(groups)))
    {
      ret := [];
      for i := 0 to KINDS
        invariant forall g :: g in ret <==> SelfOffer(num, g) && g.val < i
      {
        if num[i] == 4 && i != LAIZI {
          ret := ret + [Group(AGang, i)];
        }
      }
      var hu := CanHu();
      if hu {
        ret := ret + [Group(HuPai, 0)];
      }
    }

    /** Claims on a tile another player discarded, which the counts already include. */
    method CanOpOther(val: nat, op: Op) returns (ret: seq<Group>)
      requires val <= TONG9 && num[40] <= 0
      modifies this`groups, this`num
      ensures forall g :: g in ret <==>
        || (op == ChuPai && ClaimOffer(old(num), val, g))
        || (g == Group(HuPai, val) && Winning(old(num), old(groups)))
    {
      ret := [];
      if op == ChuPai {
        if val >= TIAO1 && num[val + 1] > 0 && num[val + 2] > 0 {
          ret := ret + [Group(LChi, val)];
        }
        if val >= TIAO2 && num[val - 1] > 0 && num[val + 1] > 0 {
          ret := ret + [Group(MChi, val)];
        }
        if val >= TIAO3 && num[val - 2] > 0 && num[val - 1] > 0 {
          ret := ret + [Group(RChi, val)];
        }
        if num[val] >= 3 {
          ret := ret + [Group(Peng, val)];
        }
        if num[val] >= 4 {
          ret := ret + [Group(MGang, val)];
        }
        forall g ensures g in ret <==> ClaimOffer(num, val, g) {}
      }
      var hu := CanHu();
      if hu {
        ret := ret + [Group(HuPai, val)];
      }
    }
  }
}
