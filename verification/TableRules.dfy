/** What a move takes from a hand and where its tiles go, counted tile by tile. */
module TableRules {
  import opened Tiles
  import opened StatlzModel

  /** A player as a value: hand, melds shown, operations allowed, whether an answer is awaited, and the last answer. */
  datatype Seat = Seat(hand: seq<int>, groups: seq<Group>, flags: set<Op>, waiting: bool, answer: Op)

  /** Real tile codes only, as the count arrays need them. */
  predicate RealTiles(hand: seq<int>) {
    forall v | v in hand :: 0 < v && Plain(v)
  }

  predicate IsChi(op: Op) {
    op.LChi? || op.MChi? || op.RChi?
  }

  predicate IsClaim(op: Op) {
    IsChi(op) || op.Peng? || op.MGang?
  }

  predicate IsMeld(op: Op) {
    IsClaim(op) || op.AGang?
  }

  /** The operations a player can carry out at all. */
  predicate IsDeal(op: Op) {
    IsMeld(op) || op.ChuPai? || op.BGang? || op.HuPai? || op.GuoPai?
  }

  /** The two neighbours of `v` that a chi takes. */
  function Neighbours(op: Op, v: int): (int, int) {
    if op.LChi? then (v + 1, v + 2) else if op.MChi? then (v - 1, v + 1) else (v - 1, v - 2)
  }

  /** How many tiles of its own kind an operation takes. */
  function Number(op: Op): nat {
    match op
    case ChuPai => 1
    case BGang => 1
    case Peng => 2
    case MGang => 3
    case AGang => 4
    case _ => 0
  }

  /** How many tiles of code `q` an operation on `v` takes out of the hand. */
  function TakeCount(op: Op, v: int, q: int): nat {
    if IsChi(op) then if q == Neighbours(op, v).0 || q == Neighbours(op, v).1 then 1 else 0
    else if q == v then Number(op) else 0
  }

  function TakeSize(op: Op): nat {
    if IsChi(op) then 2 else Number(op)
  }

  /** Whether the hand holds the tiles an operation takes. */
  predicate CanTake(hand: seq<int>, op: Op, v: int) {
    if IsChi(op) then Neighbours(op, v).0 in hand && Neighbours(op, v).1 in hand
    else multiset(hand)[v] >= Number(op)
  }

  /** Exactly the tiles the operation takes are gone from the hand. */
  ghost predicate Taken(before: seq<int>, after: seq<int>, op: Op, v: int) {
    && |after| + TakeSize(op) == |before|
    && forall q :: multiset(after)[q] + TakeCount(op, v, q) == multiset(before)[q]
  }

  /** A chi that fails halfway: its first neighbour is held and its second is not. */
  predicate HalfPaid(hand: seq<int>, op: Op, v: int) {
    IsChi(op) && Neighbours(op, v).0 in hand && Neighbours(op, v).1 !in hand
  }

  /** After an operation that failed the hand is as before, but for the one tile a chi that fails halfway has taken. */
  ghost predicate Failed(before: seq<int>, after: seq<int>, op: Op, v: int) {
    && |after| + (if HalfPaid(before, op, v) then 1 else 0) == |before|
    && forall q :: multiset(after)[q] + (if HalfPaid(before, op, v) && q == Neighbours(op, v).0 then 1 else 0)
                   == multiset(before)[q]
  }

  lemma TakenReal(before: seq<int>, after: seq<int>, op: Op, v: int)
    requires RealTiles(before) && Taken(before, after, op, v)
    ensures RealTiles(after)
  {
    forall q | q in after ensures q in before {
      assert q in multiset(after);
      assert multiset(after)[q] + TakeCount(op, v, q) == multiset(before)[q];
      assert q in multiset(before);
    }
  }

  /** How many tiles of code `q` a meld shows. */
  function GroupCount(g: Group, q: int): nat {
    match g.op
    case LChi => if g.val <= q <= g.val + 2 then 1 else 0
    case MChi => if g.val - 1 <= q <= g.val + 1 then 1 else 0
    case RChi => if g.val - 2 <= q <= g.val then 1 else 0
    case Peng => if q == g.val then 3 else 0
    case MGang => if q == g.val then 4 else 0
    case AGang => if q == g.val then 4 else 0
    case _ => 0
  }

  function ShownCount(gs: seq<Group>, q: int): nat {
    if gs == [] then 0 else ShownCount(gs[..|gs| - 1], q) + GroupCount(gs[|gs| - 1], q)
  }

  lemma ShownAdd(gs: seq<Group>, g: Group, q: int)
    ensures ShownCount(gs + [g], q) == ShownCount(gs, q) + GroupCount(g, q)
  {
    assert (gs + [g])[..|gs|] == gs;
  }

  /** A meld shows the tiles taken from the hand and, when it is a claim, the tile claimed. */
  lemma MeldShows(op: Op, v: int, q: int)
    requires IsMeld(op)
    ensures GroupCount(Group(op, v), q) == TakeCount(op, v, q) + if IsClaim(op) && q == v then 1 else 0
  {
  }

  // ----- hands of the kinds 2, 5 and 8 -----

  predicate TwoFiveEight(q: int) {
    TIAO1 <= q <= TONG9 && q % 10 in {2, 5, 8}
  }

  /** A meld counts exactly when every tile it shows is a 2, 5 or 8: no run does. */
  lemma JiangMeld(g: Group)
    requires IsMeld(g.op)
    ensures JiangGroup(g) <==> forall q | GroupCount(g, q) > 0 :: TwoFiveEight(q)
  {
    assert GroupCount(g, g.val) > 0;
    if IsChi(g.op) {
      var s := if g.op.LChi? then g.val else if g.op.MChi? then g.val - 1 else g.val - 2;
      assert GroupCount(g, s) > 0 && GroupCount(g, s + 1) > 0;
      assert !(TwoFiveEight(s) && TwoFiveEight(s + 1));
    }
  }

  /** The third pattern: every tile held that is not wild, and every tile shown, is a 2, 5 or 8. */
  lemma JiangHand(hand: seq<int>, pai: nat, lz: nat, gs: seq<Group>)
    requires RealTiles(hand) && Plain(pai) && lz < KINDS && lz != LAIZI && forall g | g in gs :: IsMeld(g.op)
    ensures AllJiang(HandCounts(hand, pai, lz), gs) <==>
      && (forall q | q in Counted(hand, pai) && q != lz :: TwoFiveEight(q))
      && (forall g, q | g in gs && GroupCount(g, q) > 0 :: TwoFiveEight(q))
  {
    var c := HandCounts(hand, pai, lz);
    forall g | g in gs ensures JiangGroup(g) <==> forall q | GroupCount(g, q) > 0 :: TwoFiveEight(q) {
      JiangMeld(g);
    }
    forall q | 0 <= q < KINDS && q != LAIZI
      ensures c[q] > 0 <==> q in Counted(hand, pai) && q != lz
      ensures IsJiang(q) <==> TwoFiveEight(q)
    {
      CountsMean(hand, pai, lz, q);
      assert q in Counted(hand, pai) <==> Counted(hand, pai)[q] > 0;
      assert 0 !in hand && 0 !in multiset(hand);
    }
    forall q | q in Counted(hand, pai) ensures 0 <= q < KINDS && q != LAIZI {
      assert q in hand || q == pai;
    }
  }

  // ----- offers -----

  /**
   * Whether the tiles of a hand allow a claim on the tile `val` just discarded: a run needs both its neighbours, and a
   * wild tile is none; a peng two tiles like it and a gang three, which are not wild.
   */
  predicate Offered(hand: seq<int>, op: Op, val: int, lz: nat) {
    match op
    case LChi => val >= TIAO1 && val + 1 in hand && val + 2 in hand && lz != val + 1 && lz != val + 2
    case MChi => val >= TIAO2 && val - 1 in hand && val + 1 in hand && lz != val - 1 && lz != val + 1
    case RChi => val >= TIAO3 && val - 2 in hand && val - 1 in hand && lz != val - 2 && lz != val - 1
    case Peng => lz != val && multiset(hand)[val] >= 2
    case MGang => lz != val && multiset(hand)[val] >= 3
    case _ => false
  }

  /** The claims found in the counts are exactly those that the tiles of the hand allow. */
  lemma OfferedIsClaim(hand: seq<int>, op: Op, val: nat, lz: nat)
    requires RealTiles(hand) && Plain(val) && val > 0 && lz < KINDS
    ensures Offered(hand, op, val, lz) <==> ClaimOffer(HandCounts(hand, val, lz), val, Group(op, val))
  {
    forall q | TIAO1 <= q < KINDS && q != val
      ensures HandCounts(hand, val, lz)[q] > 0 <==> q in hand && q != lz
    {
      assert q in hand <==> q in multiset(hand);
    }
    if val + 2 >= KINDS {
      assert 40 !in hand && 41 !in hand;
    }
  }

  /** Winds and dragons, bamboos, characters, dots. */
  predicate IsKind(q: int) {
    1 <= q <= 7 || 11 <= q <= 19 || 21 <= q <= 29 || 31 <= q <= 39
  }

  /** The lowest code of the run that a chi makes. */
  function RunStart(op: Op, val: int): int {
    if op.LChi? then val else if op.MChi? then val - 1 else val - 2
  }

  /** With tiles of real kinds: a chi is offered exactly on a run inside one suit, with the other two tiles not wild. */
  lemma ChiInSuit(hand: seq<int>, op: Op, val: nat, lz: nat)
    requires (forall v | v in hand :: IsKind(v)) && IsKind(val) && IsChi(op)
    ensures var (s, (a, b)) := (RunStart(op, val), Neighbours(op, val));
      && {s, s + 1, s + 2} == {val, a, b}
      && (Offered(hand, op, val, lz) <==>
           TIAO1 <= s <= TONG7 && 1 <= s % 10 <= 7 && a in hand && b in hand && lz != a && lz != b)
  {
    var (a, b) := Neighbours(op, val);
    assert a in hand ==> IsKind(a);
    assert b in hand ==> IsKind(b);
  }

  /** When the wild kind itself is discarded: it can be claimed for a run, as any tile, but for nothing else. */
  lemma WildDiscard(hand: seq<int>, op: Op, val: nat)
    requires (forall v | v in hand :: IsKind(v)) && IsKind(val)
    ensures Offered(hand, op, val, val) <==>
      && IsChi(op) && TIAO1 <= RunStart(op, val) <= TONG7 && 1 <= RunStart(op, val) % 10 <= 7
      && Neighbours(op, val).0 in hand && Neighbours(op, val).1 in hand
  {
    if IsChi(op) {
      ChiInSuit(hand, op, val, val);
    }
  }

  /** Every claim offered on a discard can be carried out: the hand holds the tiles it takes. */
  lemma ClaimOfferFeasible(hand: seq<int>, val: nat, laizi: nat, g: Group)
    requires (forall v | v in hand :: 0 <= v < KINDS) && Plain(val) && val > 0 && laizi < KINDS
    requires ClaimOffer(HandCounts(hand, val, laizi), val, g)
    ensures IsClaim(g.op) && g.val == val && CanTake(hand, g.op, val)
  {
    if IsChi(g.op) {
      HeldTile(hand, val, laizi, Neighbours(g.op, val).0);
      HeldTile(hand, val, laizi, Neighbours(g.op, val).1);
    }
  }

  /** The claims a player may choose can be carried out on the tile just discarded. */
  predicate ClaimFlags(s: Seat, v: int) {
    forall op | op in s.flags :: op == GuoPai || op == HuPai || (IsClaim(op) && CanTake(s.hand, op, v))
  }

  /** Whether a discard can be claimed or won with. */
  predicate HasClaim(hand: seq<int>, val: nat, lz: nat)
    requires RealTiles(hand) && Plain(val) && val > 0 && lz < KINDS
  {
    Winning(HandCounts(hand, val, lz), []) || exists op | IsClaim(op) :: Offered(hand, op, val, lz)
  }

  /** Whether the player's allowed operations are right about `op`, after a discard of `val`. */
  predicate OfferRight(s: Seat, op: Op, val: nat, lz: nat)
    requires RealTiles(s.hand) && Plain(val) && val > 0 && lz < KINDS
  {
    op in s.flags <==>
      if op == GuoPai then HasClaim(s.hand, val, lz)
      else if op == HuPai then Winning(HandCounts(s.hand, val, lz), [])
      else IsClaim(op) && Offered(s.hand, op, val, lz)
  }

  /** What a player is offered after a discard is what the rules allow; who is offered nothing is not waited for. */
  ghost predicate Offers(s: Seat, val: nat, lz: nat)
    requires RealTiles(s.hand) && Plain(val) && val > 0 && lz < KINDS
  {
    && (s.waiting <==> s.flags != {})
    && forall op :: OfferRight(s, op, val, lz)
  }

  /** A player is waited for exactly when it has a claim, and can carry out whatever it is offered. */
  lemma OffersMean(s: Seat, val: nat, lz: nat)
    requires RealTiles(s.hand) && Plain(val) && val > 0 && lz < KINDS && Offers(s, val, lz)
    ensures s.waiting <==> HasClaim(s.hand, val, lz)
    ensures ClaimFlags(s, val)
  {
    assert OfferRight(s, GuoPai, val, lz);
    forall op | op in s.flags
      ensures HasClaim(s.hand, val, lz)
      ensures op == GuoPai || op == HuPai || (IsClaim(op) && CanTake(s.hand, op, val))
    {
      assert OfferRight(s, op, val, lz);
      if op != GuoPai && op != HuPai {
        OfferedIsClaim(s.hand, op, val, lz);
        ClaimOfferFeasible(s.hand, val, lz, Group(op, val));
      }
    }
  }

  /** All four tiles of a kind that is not wild are in the hand. */
  predicate FourHeld(hand: seq<int>, q: int, lz: nat) {
    q != lz && multiset(hand)[q] == 4
  }

  lemma FourHeldIsOffer(hand: seq<int>, q: int, lz: nat)
    requires RealTiles(hand) && lz < KINDS
    ensures FourHeld(hand, q, lz) <==> SelfOffer(HandCounts(hand, 0, lz), Group(AGang, q))
  {
    assert q in hand <==> q in multiset(hand);
  }

  /** Whether the operations allowed on a player's own turn are right about `op`. */
  ghost predicate OwnRight(s: Seat, op: Op, lz: nat)
    requires RealTiles(s.hand) && lz < KINDS
  {
    op in s.flags <==>
      || op == ChuPai
      || (op == AGang && exists q :: FourHeld(s.hand, q, lz))
      || (op == HuPai && Winning(HandCounts(s.hand, 0, lz), s.groups))
  }

  /** A player asked on its own turn: it may discard, make the concealed gangs it has, and win when the hand wins. */
  ghost predicate OwnOffers(s: Seat, lz: nat)
    requires RealTiles(s.hand) && lz < KINDS
  {
    s.waiting && forall op :: OwnRight(s, op, lz)
  }

  lemma HeldTile(hand: seq<int>, val: nat, laizi: nat, q: int)
    requires (forall v | v in hand :: 0 <= v < KINDS) && 0 < val < KINDS && laizi < KINDS
    requires 0 <= q < KINDS && q != val && q != LAIZI && HandCounts(hand, val, laizi)[q] > 0
    ensures q in hand
  {
    assert multiset(hand)[q] > 0;
    assert q in multiset(hand);
  }

  /** Every concealed gang offered can be carried out. */
  lemma SelfOfferFeasible(hand: seq<int>, laizi: nat, g: Group)
    requires (forall v | v in hand :: 0 <= v < KINDS) && laizi < KINDS
    requires SelfOffer(HandCounts(hand, 0, laizi), g)
    ensures g.op == AGang && CanTake(hand, AGang, g.val)
  {
    assert multiset(hand)[g.val] == 4;
  }

  /** Real codes only, so that nothing is counted at the code past the last suit. */
  lemma NoFlowers(hand: seq<int>, val: nat, lz: nat)
    requires (forall v | v in hand :: 0 <= v < KINDS && Plain(v)) && Plain(val) && val > 0 && lz < KINDS
    ensures HandCounts(hand, val, lz)[40] <= 0
  {
    assert 40 !in hand && 40 !in multiset(hand);
  }
}
