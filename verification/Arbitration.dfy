/** Whose answer to a discard ought to count, by the ranking the program has for it, and whose does. */
module Arbitration {
  import opened Tiles
  import opened TableRules
  import opened TableState
  import opened TableSteps

  /** The order of operations, by which competing claims are ranked. */
  function Rank(op: Op): nat {
    match op
    case FaPai => 0 case MoPai => 1 case HdlPai => 2 case ChuPai => 3
    case GuoPai => 4 case LChi => 5 case MChi => 6 case RChi => 7
    case Peng => 8 case MGang => 9 case BGang => 10 case AGang => 11
    case HuPai => 12 case Jiang => 13 case Shun => 14 case Ke => 15
  }

  /** Winning comes before a gang, that before a peng, then runs, then passing, and any of them before no answer. */
  lemma RankOrder(op: Op)
    ensures Rank(HuPai) > Rank(MGang) > Rank(Peng) > Rank(GuoPai) > Rank(FaPai) == 0
    ensures IsChi(op) ==> Rank(Peng) > Rank(op) > Rank(GuoPai)
    ensures Rank(RChi) > Rank(MChi) > Rank(LChi)
    ensures Rank(GuoPai) > Rank(ChuPai) >= Rank(op) || op == GuoPai || op == BGang || op == AGang || IsClaim(op)
      || op == HuPai || op == Jiang || op == Shun || op == Ke
  {
  }

  /** How far a seat is from the player whose turn it is, going round the table. */
  function Distance(turn: nat, i: nat): (dis: nat)
    requires turn < 4 && i < 4
    ensures dis < 4 && (turn + dis) % 4 == i
  {
    if i < turn then i + 4 - turn else i - turn
  }

  /** Answer `a` of seat `i` comes before answer `b` of seat `j`: it ranks higher, or equal and sits nearer. */
  predicate Before(turn: nat, a: Op, i: nat, b: Op, j: nat)
    requires turn < 4 && i < 4 && j < 4
  {
    Rank(a) > Rank(b) || (Rank(a) == Rank(b) && Distance(turn, i) <= Distance(turn, j))
  }

  /** The seat whose recorded answer the ranking prefers. */
  predicate Preferred(t: Table, k: nat) {
    |t.seats| == 4 && t.turn < 4 && k < 4 &&
    forall j | 0 <= j < 4 :: Before(t.turn, t.seats[k].answer, k, t.seats[j].answer, j)
  }

  /**
   * When a discard draws no claim, or all have passed: the game ends exactly when ten tiles or fewer are left in the
   * wall; otherwise the turn goes to the next seat, which draws one tile.
   */
  lemma TurnPasses(t: Table, u: Table, over: bool, i: nat, op: Op, v: int)
    requires t.turn < 4 && t.next <= |t.wall| && Decided(t, u, over, i, op, v)
    requires op == GuoPai || (op == ChuPai && !u.multi)
    ensures over <==> |t.wall| - t.next <= 10
    ensures !over ==> u.turn < 4 && Distance(t.turn, u.turn) == 1
    ensures !over ==> u.next == t.next + 1 && |u.wall| - u.next >= 10
    ensures !over ==> forall j | 0 <= j < 4 ::
      |u.seats[j].hand| == |t.seats[j].hand| + (if j == u.turn then 1 else 0) - if j == i && op == ChuPai then 1 else 0
  {
    forall j | 0 <= j < 4 && !over
      ensures SeatMoves(t.seats[j], u.seats[j], j == i, op, v, DrawnTile(t, j, u.turn))
    {
    }
  }

  lemma PreferredUnique(t: Table, a: nat, b: nat)
    requires Preferred(t, a) && Preferred(t, b)
    ensures a == b
  {
    assert Before(t.turn, t.seats[a].answer, a, t.seats[b].answer, b);
    assert Before(t.turn, t.seats[b].answer, b, t.seats[a].answer, a);
  }

  /**
   * The last awaited answer to a discard is carried out, whatever the others have asked for. That is what the ranking
   * would have chosen, once the answer is recorded, exactly when it comes before every answer recorded earlier.
   */
  lemma LastAnswerDecides(t: Table, u: Table, over: bool, i: nat, op: Op, v: int, lz: nat, chosen: nat)
    requires Orderly(t) && t.multi && i < 4 && Accepted(t, i, op) && !OthersAwaited(t, i)
    requires CanTake(t.seats[i].hand, op, v) && Heard(t, u, over, i, op, v, lz)
    requires Preferred(Answered(t, i, op), chosen)
    ensures Decided(t, u, over, i, op, v)
    ensures chosen == i <==> forall j | 0 <= j < 4 && j != i :: Before(t.turn, op, i, t.seats[j].answer, j)
  {
    var m := Answered(t, i, op);
    assert forall j | 0 <= j < 4 && j != i :: m.seats[j] == t.seats[j];
    if chosen == i {
      forall j | 0 <= j < 4 && j != i ensures Before(t.turn, op, i, t.seats[j].answer, j) {
        assert Before(m.turn, m.seats[i].answer, i, m.seats[j].answer, j);
      }
    }
    if forall j | 0 <= j < 4 && j != i :: Before(t.turn, op, i, t.seats[j].answer, j) {
      assert Preferred(m, i);
      PreferredUnique(m, i, chosen);
    }
  }
}
