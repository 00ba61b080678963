/** A player at the table: hand, melds, and the operations offered. */
module UserModel {
  import opened Tiles
  import opened StatlzModel
  import opened TableRules

  /** From index `i` on the sequence holds nothing but `v`. */
  predicate Tail(s: seq<int>, i: nat, v: int) {
    forall k | i <= k < |s| :: s[k] == v
  }

  lemma {:induction false} TailSplits(s: seq<int>, i: nat, v: int, q: int)
    requires i <= |s| && Tail(s, i, v)
    ensures multiset(s)[q] == multiset(s[..i])[q] + if q == v then |s| - i else 0
    decreases |s| - i
  {
    if i < |s| {
      TailSplits(s, i + 1, v, q);
      assert s[..i + 1] == s[..i] + [v];
    } else {
      assert s[..i] == s;
    }
  }

  lemma SwapKeeps(s: seq<int>, i: nat, j: nat)
    requires i < |s| && j < |s|
    ensures multiset(s[i := s[j]][j := s[i]]) == multiset(s)
  {
  }

  lemma InCount(s: seq<int>, v: int)
    ensures v in s <==> multiset(s)[v] >= 1
  {
    assert v in s <==> v in multiset(s);
  }

  function OpsOf(gs: seq<Group>): (s: set<Op>)
    ensures forall op :: op in s <==> exists g :: g in gs && g.op == op
  {
    set g | g in gs :: g.op
  }

  /** The operations of the listed offers, with passing when there are any, are what the rules allow. */
  lemma ClaimsListed(gs: seq<Group>, s: Seat, val: nat, lz: nat)
    requires RealTiles(s.hand) && Plain(val) && val > 0 && lz < KINDS
    requires forall g :: g in gs <==>
      || ClaimOffer(HandCounts(s.hand, val, lz), val, g)
      || (g == Group(HuPai, val) && Winning(HandCounts(s.hand, val, lz), []))
    requires s.waiting == (|gs| > 0) && s.flags == (if s.waiting then {GuoPai} else {}) + OpsOf(gs)
    ensures Offers(s, val, lz)
  {
    var c := HandCounts(s.hand, val, lz);
    forall g | g in gs ensures g == Group(g.op, val) {}
    forall op ensures op in OpsOf(gs) <==> Group(op, val) in gs {
      assert Group(op, val).op == op;
      if op in OpsOf(gs) {
        var g :| g in gs && g.op == op;
        assert g == Group(op, val);
      }
    }
    assert |gs| > 0 <==> HasClaim(s.hand, val, lz) by {
      if |gs| > 0 {
        var op := gs[0].op;
        assert gs[0] in gs && gs[0] == Group(op, val);
        OfferedIsClaim(s.hand, op, val, lz);
        assert op == HuPai || (IsClaim(op) && Offered(s.hand, op, val, lz));
      } else {
        assert Group(HuPai, val) !in gs;
        forall op | IsClaim(op) ensures !Offered(s.hand, op, val, lz) {
          OfferedIsClaim(s.hand, op, val, lz);
          assert Group(op, val) !in gs;
        }
      }
    }
    forall op ensures OfferRight(s, op, val, lz) {
      assert Group(op, val) in gs <==> ClaimOffer(c, val, Group(op, val)) || (op == HuPai && Winning(c, []));
      OfferedIsClaim(s.hand, op, val, lz);
    }
  }

  lemma OnlyWinning(gs: seq<Group>, val: nat, wins: bool)
    requires forall g :: g in gs <==> g == Group(HuPai, val) && wins
    ensures |gs| > 0 <==> wins
    ensures OpsOf(gs) == if wins then {HuPai} else {}
  {
    if |gs| > 0 {
      assert gs[0] in gs;
    }
    assert Group(HuPai, val) in gs <==> wins;
  }

  /** On a player's own turn: concealed gangs of the kinds held four times, and winning. */
  lemma GangsListed(gs: seq<Group>, hand: seq<int>, lz: nat, wins: bool)
    requires RealTiles(hand) && lz < KINDS
    requires forall g :: g in gs <==> SelfOffer(HandCounts(hand, 0, lz), g) || (g == Group(HuPai, 0) && wins)
    ensures OpsOf(gs) <= {AGang, HuPai}
    ensures forall g | g in gs && g.op != HuPai :: CanTake(hand, g.op, g.val)
    ensures AGang in OpsOf(gs) <==> exists q :: FourHeld(hand, q, lz)
    ensures HuPai in OpsOf(gs) <==> wins
  {
    forall g | g in gs && g.op != HuPai ensures g.op == AGang && CanTake(hand, g.op, g.val) {
      SelfOfferFeasible(hand, lz, g);
    }
    if q :| FourHeld(hand, q, lz) {
      FourHeldIsOffer(hand, q, lz);
      assert Group(AGang, q) in gs;
    }
    if g :| g in gs && g.op == AGang {
      FourHeldIsOffer(hand, g.val, lz);
      assert g == Group(AGang, g.val);
    }
    assert Group(HuPai, 0) in gs <==> wins;
  }

  class User {
    var mjHands: seq<int>
    var mjGroup: seq<Group>
    var canOpsFlag: set<Op>
    var canOpsGroup: seq<Group>
    var waiting: bool
    var waitOp: Op
    var lastOp: Group

    ghost function View(): Seat
      reads this
    {
      Seat(mjHands, mjGroup, canOpsFlag, waiting, waitOp)
    }

    constructor ()
      ensures View() == Seat([], [], {}, false, FaPai)
    {
      mjHands, mjGroup, canOpsFlag, canOpsGroup := [], [], {}, [];
      waiting, waitOp, lastOp := false, FaPai, Group(FaPai, 0);
    }

    /** Clears the player for a new game; the operations allowed are left over until the first tile is drawn. */
    method Reset()
      modifies this
      ensures View() == Seat([], [], old(canOpsFlag), false, FaPai)
    {
      mjHands, mjGroup, canOpsGroup := [], [], [];
      waiting, waitOp := false, FaPai;
    }

    /** Swaps occurrences of a tile to the tail and cuts them off, if there are enough of them. */
    method RemoveMj(val: int, num: nat) returns (ok: bool)
      requires num >= 1
      modifies this`mjHands
      ensures ok <==> multiset(old(mjHands))[val] >= num
      ensures |mjHands| == |old(mjHands)| - if ok then num else 0
      ensures forall q :: multiset(mjHands)[q] == multiset(old(mjHands))[q] - if ok && q == val then num else 0
    {
      var hands := mjHands;
      var n := num;
      var tail := |hands| - 1;
      var i := 0;
      while i <= tail
        invariant 0 <= i <= tail + 1 <= |hands| == |mjHands| && 1 <= n <= num
        invariant multiset(hands) == multiset(mjHands) && |hands| - 1 - tail == num - n
        invariant Tail(hands, tail + 1, val) && mjHands == old(mjHands)
        invariant forall k | 0 <= k < i :: hands[k] != val
        decreases tail - i + 1
      {
        if hands[i] == val {
          SwapKeeps(hands, i, tail);
          hands := hands[i := hands[tail]][tail := hands[i]];
          n := n - 1;
          if n == 0 {
            forall q ensures multiset(hands)[q] == multiset(hands[..tail])[q] + if q == val then num else 0 {
              TailSplits(hands, tail, val, q);
            }
            mjHands := hands[..tail];
            return true;
          }
          tail := tail - 1;
        } else {
          i := i + 1;
        }
      }
      TailSplits(hands, tail + 1, val, val);
      assert val !in hands[..tail + 1];
      mjHands := hands;
      return false;
    }

    method MoMj(val: int)
      modifies this`lastOp, this`canOpsFlag, this`mjHands
      ensures View() == old(View()).(hand := old(mjHands) + [val], flags := {}) && lastOp == Group(MoPai, val)
    {
      lastOp := Group(MoPai, val);
      canOpsFlag := {};
      mjHands := mjHands + [val];
    }

    /** How often the hand holds a tile. */
    method Count(val: int) returns (cnt: nat)
      ensures cnt == multiset(mjHands)[val]
    {
      cnt := 0;
      for i := 0 to |mjHands|
        invariant cnt == multiset(mjHands[..i])[val]
      {
        assert mjHands[..i + 1] == mjHands[..i] + [mjHands[i]];
        if mjHands[i] == val {
          cnt := cnt + 1;
        }
      }
      assert mjHands[..|mjHands|] == mjHands;
    }

    /** A chi takes two neighbours, one after the other; when the second is missing the first stays removed. */
    method Chi(op: Op, val: int) returns (ok: bool)
      requires IsChi(op)
      modifies this`mjHands, this`mjGroup
      ensures ok <==> CanTake(old(mjHands), op, val)
      ensures ok ==> Taken(old(mjHands), mjHands, op, val) && mjGroup == old(mjGroup) + [Group(op, val)]
      ensures !ok ==> mjGroup == old(mjGroup) && Failed(old(mjHands), mjHands, op, val)
    {
      var (val1, val2) := Neighbours(op, val);
      InCount(mjHands, val1);
      InCount(mjHands, val2);
      ok := RemoveMj(val1, 1);
      if !ok {
        return;
      }
      ok := RemoveMj(val2, 1);
      if !ok {
        return;
      }
      mjGroup := mjGroup + [Group(op, val)];
    }

    /** A peng or gang takes several of one tile, after counting that they are there. */
    method Same(op: Op, val: int) returns (ok: bool)
      requires op.Peng? || op.MGang? || op.AGang?
      modifies this`mjHands, this`mjGroup
      ensures ok <==> CanTake(old(mjHands), op, val)
      ensures ok ==> Taken(old(mjHands), mjHands, op, val) && mjGroup == old(mjGroup) + [Group(op, val)]
      ensures !ok ==> mjGroup == old(mjGroup) && mjHands == old(mjHands)
    {
      var cnt := Count(val);
      if cnt < Number(op) {
        return false;
      }
      ok := RemoveMj(val, Number(op));
      mjGroup := mjGroup + [Group(op, val)];
    }

    /** Carries out an operation on the hand; only a chi that fails can change anything. */
    method DealMj(op: Op, val: int) returns (ok: bool)
      modifies this`mjHands, this`mjGroup, this`canOpsFlag, this`lastOp
      ensures ok <==> IsDeal(op) && CanTake(old(mjHands), op, val)
      ensures ok ==> Taken(old(mjHands), mjHands, op, val) && canOpsFlag == {} && lastOp == Group(op, val)
      ensures mjGroup == if ok && IsMeld(op) then old(mjGroup) + [Group(op, val)] else old(mjGroup)
      ensures !ok ==> canOpsFlag == old(canOpsFlag) && lastOp == old(lastOp)
      ensures !ok ==> Failed(old(mjHands), mjHands, op, val)
    {
      ok := false;
      if op == ChuPai || op == BGang {
        ok := RemoveMj(val, 1);
      } else if op == MGang || op == AGang || op == Peng {
        ok := Same(op, val);
      } else if op == LChi || op == MChi || op == RChi {
        ok := Chi(op, val);
      } else if op == HuPai || op == GuoPai {
        ok := true;
      }
      if !ok {
        return;
      }
      canOpsFlag := {};
      lastOp := Group(op, val);
    }

    /** The operations a player may choose on its own turn; a concealed gang is offered only when it can be made. */
    method CanOpSelf(lz: nat)
      requires RealTiles(mjHands) && lz < KINDS
      modifies this`canOpsFlag, this`canOpsGroup, this`waiting
      ensures old(canOpsFlag) != {} ==> View() == old(View())
      ensures old(canOpsFlag) == {} ==> waiting && canOpsFlag <= {ChuPai, AGang, HuPai}
      ensures old(canOpsFlag) == {} && lastOp.op != HdlPai ==> ChuPai in canOpsFlag
      ensures old(canOpsFlag) == {} ==> forall g | g in canOpsGroup && g.op != HuPai :: CanTake(mjHands, g.op, g.val)
      ensures old(canOpsFlag) == {} ==>
        (AGang in canOpsFlag <==> exists q :: FourHeld(mjHands, q, lz))
      ensures old(canOpsFlag) == {} ==> (HuPai in canOpsFlag <==> Winning(HandCounts(mjHands, 0, lz), mjGroup))
    {
      if canOpsFlag != {} {
        return;
      }
      assert forall v | v in mjHands :: 0 <= v < KINDS;
      var st := new Statlz(mjHands, 0, lz, mjGroup);
      canOpsGroup := st.CanOpSelf();
      waiting := true;
      if lastOp.op != HdlPai {
        canOpsFlag := canOpsFlag + {ChuPai};
      }
      canOpsFlag := canOpsFlag + OpsOf(canOpsGroup);
      GangsListed(canOpsGroup, mjHands, lz, Winning(HandCounts(mjHands, 0, lz), mjGroup));
    }

    /** The claims a player may make on a tile another player discarded; each can be carried out. */
    method CanOpOther(val: nat, op: Op, lz: nat)
      requires RealTiles(mjHands) && lz < KINDS && Plain(val) && val > 0
      modifies this
      ensures View() == old(View()).(flags := canOpsFlag, waiting := waiting)
      ensures op == ChuPai ==> Offers(View(), val, lz)
      ensures op != ChuPai ==> canOpsFlag == if Winning(HandCounts(mjHands, val, lz), []) then {GuoPai, HuPai} else {}
    {
      assert forall v | v in mjHands :: 0 <= v < KINDS;
      var st := new Statlz(mjHands, val, lz, []);
      NoFlowers(mjHands, val, lz);
      canOpsGroup := st.CanOpOther(val, op);
      waiting := |canOpsGroup| > 0;
      canOpsFlag := {};
      if waiting {
        canOpsFlag := canOpsFlag + {GuoPai};
      }
      canOpsFlag := canOpsFlag + OpsOf(canOpsGroup);
      if op == ChuPai {
        ClaimsListed(canOpsGroup, View(), val, lz);
      } else {
        OnlyWinning(canOpsGroup, val, Winning(HandCounts(mjHands, val, lz), []));
      }
    }

    /** The first tile of the hand is suggested as a discard, so a player who may discard must hold a tile. */
    method SuggestedDiscard() returns (g: Group)
      requires ChuPai in canOpsFlag ==> |mjHands| > 0
      ensures ChuPai in canOpsFlag ==> g.op == ChuPai && CanTake(mjHands, ChuPai, g.val)
    {
      g := Group(GuoPai, 0);
      if ChuPai in canOpsFlag {
        g := Group(ChuPai, mjHands[0]);
        InCount(mjHands, mjHands[0]);
      }
    }

    /** A player who has just drawn or claimed is told what it may do, with a tile suggested as the discard. */
    method AskSelf(lz: nat)
      requires RealTiles(mjHands) && lz < KINDS && |mjHands| > 0 && canOpsFlag == {} && lastOp.op != HdlPai
      modifies this
      ensures View() == old(View()).(flags := canOpsFlag, waiting := true)
      ensures {ChuPai} <= canOpsFlag <= {ChuPai, AGang, HuPai}
      ensures OwnOffers(View(), lz)
    {
      CanOpSelf(lz);
      forall op ensures OwnRight(View(), op, lz) {}
      var _ := SuggestedDiscard();
    }
  }
}
