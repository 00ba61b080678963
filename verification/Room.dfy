/** The table itself: dealing, the steps of the game, and what every run of it keeps. */
module RoomModel {
  import opened Tiles
  import opened TableRules
  import opened TableState
  import opened TableSteps
  import opened TableRuns
  import opened Arbitration
  import opened DealModel
  import opened UserModel

  /** The wild tile: the next one of its family after the tile turned up, going round at the end. */
  function GetLaizi(pizi: nat): (laizi: nat)
    ensures Plain(pizi) && pizi > 0 ==> Plain(laizi) && 0 < laizi < KINDS && laizi != pizi
    ensures 1 <= pizi <= 7 || (11 <= pizi <= TONG9 && pizi % 10 != 0) ==>
      laizi / 10 == pizi / 10 && laizi % 10 != 0
  {
    match pizi
    case 4 => 1
    case 7 => 5
    case 19 => 11
    case 29 => 21
    case 39 => 31
    case _ => pizi + 1
  }

  /** Where the family of a tile starts and ends: winds, dragons, and the suits. */
  function Family(q: int): (int, int) {
    if q <= 4 then (1, 4) else if q <= 7 then (5, 7) else (q - q % 10 + 1, q - q % 10 + 9)
  }

  /** The wild tile is the next in the family of the tile turned up, and after the last the first. */
  lemma WildIsNext(pizi: nat)
    requires IsKind(pizi)
    ensures IsKind(GetLaizi(pizi)) && Family(GetLaizi(pizi)) == Family(pizi)
    ensures GetLaizi(pizi) == if pizi == Family(pizi).1 then Family(pizi).0 else pizi + 1
  {
  }

  /** Every tile is made wild by one tile only. */
  lemma WildOnce(p: nat, q: nat)
    requires IsKind(p) && IsKind(q) && GetLaizi(p) == GetLaizi(q)
    ensures p == q
  {
    WildIsNext(p);
    WildIsNext(q);
  }

  class Room {
    const users: seq<User>
    var mj: seq<int>
    var mjIndex: nat
    var turn: nat
    var piZi: nat
    var laiZi: nat
    var waitMulti: bool
    var discards: seq<int>  // kept for the account of tiles; the program leaves it to the clients
    var over: bool          // the game has been settled

    ghost predicate Four() {
      && |users| == 4
      && users[0] != users[1] && users[0] != users[2] && users[0] != users[3]
      && users[1] != users[2] && users[1] != users[3] && users[2] != users[3]
    }

    ghost function T(): Table
      requires |users| == 4
      reads this, users
    {
      var seats := [users[0].View(), users[1].View(), users[2].View(), users[3].View()];
      Table(mj, mjIndex, seats, discards, turn, waitMulti)
    }

    /** A new room with its four users. */
    constructor ()
      ensures Four() && turn == 0 && fresh(users)
    {
      var a := new User();
      var b := new User();
      var c := new User();
      var d := new User();
      users := [a, b, c, d];
      mj, mjIndex, turn, piZi, laiZi, waitMulti, discards, over := [], 0, 0, 0, 0, false, [], true;
    }

    // ----- single actions on one seat -----

    method DealAt(i: nat, op: Op, v: int) returns (ok: bool)
      requires Four() && i < 4
      modifies users[i]
      ensures T() == old(T()).(seats := old(T().seats)[i := T().seats[i]])
      ensures ok <==> IsDeal(op) && CanTake(old(T().seats[i].hand), op, v)
      ensures ok ==> Taken(old(T().seats[i].hand), T().seats[i].hand, op, v)
      ensures ok ==> T().seats[i].flags == {} && users[i].lastOp == Group(op, v)
      ensures T().seats[i].groups == old(T().seats[i].groups) + if ok && IsMeld(op) then [Group(op, v)] else []
      ensures T().seats[i].waiting == old(T().seats[i].waiting) && T().seats[i].answer == old(T().seats[i].answer)
      ensures !ok ==> Failed(old(T().seats[i].hand), T().seats[i].hand, op, v)
    {
      assert T().seats[i] == users[i].View();
      ok := users[i].DealMj(op, v);
      assert T().seats[i] == users[i].View();
    }

    /** The next tile of the wall goes to a player. */
    method FaPai(i: nat)
      requires Four() && i < 4 && mjIndex < |mj|
      modifies this`mjIndex, users[i]
      ensures T() == Drawn(old(T()), i)
      ensures users[i].lastOp.op == MoPai
    {
      var val := mj[mjIndex];
      mjIndex := mjIndex + 1;
      users[i].MoMj(val);
    }

    /** A player is told what it may do on its own turn, with the first tile of the hand as the suggested discard. */
    method AskSelf(i: nat)
      requires Four() && i < 4 && laiZi < KINDS && RealTiles(T().seats[i].hand)
      requires T().seats[i].flags == {} && users[i].lastOp.op != HdlPai && |T().seats[i].hand| > 0
      modifies users[i]
      ensures T() == old(T()).(seats := old(T().seats)[i := T().seats[i]])
      ensures T().seats[i] == old(T().seats[i]).(flags := T().seats[i].flags, waiting := true)
      ensures {ChuPai} <= T().seats[i].flags <= {ChuPai, AGang, HuPai}
      ensures OwnOffers(T().seats[i], laiZi)
    {
      assert T().seats[i] == users[i].View();
      users[i].AskSelf(laiZi);
      assert T().seats[i] == users[i].View();
    }

    method AskOther(i: nat, v: nat)
      requires Four() && i < 4 && laiZi < KINDS && RealTiles(T().seats[i].hand) && Plain(v) && v > 0
      modifies users[i]
      ensures T() == old(T()).(seats := old(T().seats)[i := T().seats[i]])
      ensures T().seats[i] == old(T().seats[i]).(flags := T().seats[i].flags, waiting := T().seats[i].waiting)
      ensures Offers(T().seats[i], v, laiZi)
    {
      assert T().seats[i] == users[i].View();
      users[i].CanOpOther(v, ChuPai, laiZi);
      assert T().seats[i] == users[i].View();
    }

    /** After a discard everyone else is asked; the table waits when somebody has a claim. */
    method AskOthers(who: nat, v: nat) returns (any: bool)
      requires Four() && who < 4 && laiZi < KINDS && AllReal(T()) && Plain(v) && v > 0
      modifies this`waitMulti, users
      ensures Asked(old(T()), T(), who, 4, v, laiZi, any)
    {
      any := false;
      ghost var t := T();
      for j := 0 to 4
        invariant Asked(t, T(), who, j, v, laiZi, any)
      {
        if j != who {
          ghost var u := T();
          var claims := AskNext(j, v);
          AskStep(t, u, who, j, v, laiZi, any, T().seats[j]);
          any := any || claims;
        }
      }
    }

    /** One player is asked; the table waits when it has a claim. */
    method AskNext(j: nat, v: nat) returns (claims: bool)
      requires Four() && j < 4 && laiZi < KINDS && RealTiles(T().seats[j].hand) && Plain(v) && v > 0
      modifies this`waitMulti, users[j]
      ensures var s := T().seats[j];
        && T() == old(T()).(seats := old(T().seats)[j := s], multi := old(waitMulti) || s.waiting)
        && s == old(T().seats[j]).(flags := s.flags, waiting := s.waiting)
        && Offers(s, v, laiZi) && claims == s.waiting
    {
      AskOther(j, v);
      assert T().seats[j] == users[j].View();
      claims := users[j].canOpsFlag != {};
      if claims {
        waitMulti := true;
      }
    }

    // ----- whose answer counts -----

    method Waiting() returns (some: bool)
      requires |users| == 4
      ensures some <==> !Quiet(T())
    {
      for j := 0 to 4
        invariant forall k | 0 <= k < j :: !T().seats[k].waiting
      {
        if users[j].waiting {
          assert T().seats[j].waiting;
          return true;
        }
      }
      return false;
    }

    /** Among pending claims the highest-ranked operation counts, and of equal ones the nearest to the discarder. */
    method GetOpUser(user: nat) returns (chosen: nat)
      requires |users| == 4 && turn < 4 && user < 4
      ensures !waitMulti ==> chosen == user
      ensures waitMulti ==> Preferred(T(), chosen)
    {
      chosen := user;
      if waitMulti {
        var maxOp := MaxOp();
        var distance := 4;
        for j := 0 to 4
          invariant chosen < 4 && distance <= 4
          invariant distance == 4 ==> forall k | 0 <= k < j :: Rank(users[k].waitOp) != maxOp
          invariant distance < 4 ==> Rank(users[chosen].waitOp) == maxOp && Distance(turn, chosen) == distance
          invariant forall k | 0 <= k < j && Rank(users[k].waitOp) == maxOp :: distance <= Distance(turn, k)
        {
          if Rank(users[j].waitOp) == maxOp {
            var dis := Distance(turn, j);
            if dis < distance {
              distance := dis;
              chosen := j;
            }
          }
        }
        assert forall j | 0 <= j < 4 :: T().seats[j].answer == users[j].waitOp;
      }
    }

    method MaxOp() returns (maxOp: nat)
      requires |users| == 4
      ensures forall k | 0 <= k < 4 :: Rank(users[k].waitOp) <= maxOp
      ensures exists k | 0 <= k < 4 :: Rank(users[k].waitOp) == maxOp
    {
      maxOp := 0;
      for j := 0 to 4
        invariant forall k | 0 <= k < j :: Rank(users[k].waitOp) <= maxOp
        invariant if j == 0 then maxOp == 0 else exists k | 0 <= k < j :: Rank(users[k].waitOp) == maxOp
      {
        if Rank(users[j].waitOp) >= maxOp {
          maxOp := Rank(users[j].waitOp);
        }
      }
    }

    predicate CanHDL()
      reads this
    {
      HUANG_ZHUANG + mjIndex >= |mj|
    }

    // ----- steps of the game -----

    /** The player whose turn it is draws a tile and is told what it may do. */
    method GiveTile()
      requires Four() && laiZi < KINDS && Shape(T()) && AllReal(T()) && Quiet(T()) && mjIndex < |mj|
      modifies this`mjIndex, this`waitMulti, users[turn]
      ensures SameTiles(Drawn(old(T()), turn), T())
      ensures SameAnswers(old(T()), T())
      ensures T().turn == old(T().turn) && !T().multi
      ensures Answering(T()) && Told(T(), laiZi)
    {
      assert mj[mjIndex] in mj;
      FaPai(turn);
      waitMulti := false;
      AskSelf(turn);
    }

    /** The turn passes on and the next player draws, unless the wall is spent. */
    method PassOn()
      requires Four() && laiZi < KINDS && Shape(T()) && AllReal(T()) && Quiet(T()) && !waitMulti && !over
      modifies this`mjIndex, this`waitMulti, this`turn, this`over, users
      ensures PassedOn(old(T()), T(), over)
      ensures turn < 4 && Distance(old(turn), turn) == 1
      ensures SameAnswers(old(T()), T())
      ensures !over ==> Answering(T()) && Told(T(), laiZi)
    {
      turn := (turn + 1) % 4;
      if CanHDL() {
        over := true;
        return;
      }
      GiveTile();
    }

    /** Nobody wants the discard: the next player draws, unless the wall is spent. */
    method PassBy()
      requires Four() && laiZi < KINDS && Shape(T()) && AllReal(T()) && Quiet(T()) && !waitMulti && !over
      modifies this`mjIndex, this`waitMulti, this`turn, this`over, users
      ensures PassedBy(old(T()), T(), over)
      ensures turn < 4 && Distance(old(turn), turn) == if over then 0 else 1
      ensures SameAnswers(old(T()), T())
      ensures !over ==> Answering(T()) && Told(T(), laiZi)
    {
      if CanHDL() {
        over := true;
        return;
      }
      turn := (turn + 1) % 4;
      GiveTile();
    }

    /** After a gang on a discard the claimant draws, however little of the wall is left. */
    method DrawFor(i: nat)
      requires Four() && i < 4 && laiZi < KINDS && Shape(T()) && AllReal(T()) && Quiet(T()) && mjIndex < |mj|
      modifies this`mjIndex, this`waitMulti, this`turn, users
      ensures SameTiles(Drawn(old(T()), i), T()) && turn == i && !waitMulti
      ensures SameAnswers(old(T()), T())
      ensures Answering(T()) && Told(T(), laiZi)
    {
      turn := i;
      GiveTile();
    }

    /** The claimant must now discard. */
    method TakeTurn(i: nat)
      requires Four() && i < 4 && laiZi < KINDS && AllReal(T()) && Quiet(T()) && !waitMulti
      requires T().seats[i].flags == {} && users[i].lastOp.op != HdlPai && |T().seats[i].hand| > 0
      modifies this`turn, users[i]
      ensures SameTiles(old(T()), T()) && turn == i
      ensures SameAnswers(old(T()), T())
      ensures Answering(T()) && Told(T(), laiZi)
    {
      turn := i;
      AskSelf(i);
    }

    method AskTable(v: nat) returns (any: bool)
      requires Four() && laiZi < KINDS && Shape(T()) && AllReal(T()) && Quiet(T())
      requires !waitMulti && Plain(v) && v > 0 && discards != [] && discards[|discards| - 1] == v
      modifies this`waitMulti, users
      ensures any <==> Claimable(old(T()), turn, v, laiZi)
      ensures SameTiles(old(T()), T()) && waitMulti == any
      ensures SameAnswers(old(T()), T())
      ensures Shape(T()) && AllReal(T())
      ensures if any then Answering(T()) && Told(T(), laiZi) else Quiet(T())
    {
      ghost var t := T();
      any := AskOthers(turn, v);
      AskedAll(t, T(), v, laiZi, any);
    }

    /** The discarder's tile is on the table: claims are asked for, or else the next player draws. */
    method AfterDiscard(v: nat)
      requires Four() && laiZi < KINDS && Shape(T()) && AllReal(T()) && Quiet(T())
      requires !waitMulti && Plain(v) && v > 0 && !over && discards != [] && discards[|discards| - 1] == v
      modifies this`mjIndex, this`waitMulti, this`turn, this`over, users
      ensures waitMulti <==> Claimable(old(T()), old(turn), v, laiZi)
      ensures SameAnswers(old(T()), T())
      ensures waitMulti ==> !over && turn == old(turn) && SameTiles(old(T()), T())
      ensures !waitMulti ==> PassedOn(old(T()), T(), over) && turn < 4 && Distance(old(turn), turn) == 1
      ensures !over ==> Answering(T()) && Told(T(), laiZi)
    {
      ghost var t := T();
      var any := AskTable(v);
      if !any {
        ghost var m := T();
        PassOn();
        PassedOnFrom(t, m, T(), over);
      }
    }

    /** An operation is carried out on a player's hand, and the tile goes to or comes from the discards. */
    method Carry(i: nat, op: Op, v: int) returns (ok: bool)
      requires Four() && i < 4 && Shape(T()) && AllReal(T()) && IsDeal(op) && op != BGang
      modifies this`discards, users[i]
      ensures T() == old(T()).(seats := old(T().seats)[i := T().seats[i]], discards := discards)
      ensures T().seats[i].waiting == old(T().seats[i].waiting) && T().seats[i].answer == old(T().seats[i].answer)
      ensures ok <==> CanTake(old(T().seats[i].hand), op, v)
      ensures ok ==> Moves(old(T()), T(), i, op, v, NOBODY) && AllReal(T())
      ensures ok ==> T().seats[i].flags == {} && users[i].lastOp.op == op
      ensures !ok ==> Fails(old(T()), T(), i, op, v)
    {
      ghost var t := T();
      ok := DealAt(i, op, v);
      ghost var s := T().seats[i];
      if ok {
        discards := DiscardsAfter(discards, op, v);
        TakenReal(t.seats[i].hand, s.hand, op, v);
        TakenMoves(t, i, s, op, v, discards);
      } else {
        FailedFails(t, s, i, op, v);
      }
    }

    /** A discard was carried out: the others are asked, or the next player draws. */
    method Discarded(v: int, ghost t: Table)
      requires Four() && laiZi < KINDS && Shape(T()) && AllReal(T()) && Quiet(T()) && !waitMulti && !over
      requires AllReal(t) && turn == t.turn && |t.seats| == 4 && CanTake(t.seats[turn].hand, ChuPai, v)
      requires forall j | 0 <= j < 4 && j != turn :: t.seats[j].hand == T().seats[j].hand
      requires Moves(t, T(), turn, ChuPai, v, NOBODY)
      modifies this`mjIndex, this`waitMulti, this`turn, this`over, users
      ensures Decided(t, T(), over, old(turn), ChuPai, v) && Informed(t, T(), over, old(turn), ChuPai, v, laiZi)
      ensures SameAnswers(old(T()), T())
      ensures !over ==> Answering(T())
    {
      ghost var m := T();
      HeldReal(t.seats[turn].hand, v);
      AfterDiscard(v);
      ClaimableSame(t, m, t.turn, v, laiZi);
      DiscardDecided(t, m, T(), over, t.turn, v);
    }

    /** A move made by the player whose turn it is: a discard, a concealed gang, or winning. */
    method MjOpSelf(op: Op, v: int)
      requires Four() && laiZi < KINDS && Shape(T()) && AllReal(T()) && Quiet(T()) && !waitMulti && !over
      requires op == ChuPai || op == HuPai || (op == AGang && mjIndex < |mj|)
      modifies this`mjIndex, this`waitMulti, this`turn, this`over, this`discards, users
      ensures Outcome(old(T()), T(), over, old(turn), op, v)
      ensures SameAnswers(old(T()), T())
      ensures Informed(old(T()), T(), over, old(turn), op, v, laiZi)
      ensures !over ==> Answering(T())
    {
      ghost var t := T();
      var i := turn;
      var ok := Carry(i, op, v);
      ghost var m := T();
      if !ok {
        return;
      }
      if op == ChuPai {
        Discarded(v, t);
      } else if op == AGang {
        GiveTile();
        DrawsNext(t, m, T(), i, op, v, i);
      } else {
        over := true;
      }
    }

    /** What follows an answer that was carried out: the next turn, a tile after a gang, or the end of the game. */
    method AfterClaim(i: nat, op: Op, v: int, ghost t: Table)
      requires Four() && laiZi < KINDS && Shape(T()) && AllReal(T()) && Quiet(T()) && !waitMulti && !over
      requires i < 4 && (op == GuoPai || op == HuPai || IsClaim(op)) && (op == MGang ==> mjIndex < |mj|)
      requires Moves(t, T(), i, op, v, NOBODY) && t.turn == turn && Size(t.seats[i]) == 13
      requires T().seats[i].flags == {} && users[i].lastOp.op == op
      modifies this`mjIndex, this`waitMulti, this`turn, this`over, users
      ensures Decided(t, T(), over, i, op, v)
      ensures SameAnswers(old(T()), T())
      ensures !over ==> Answering(T()) && Told(T(), laiZi)
    {
      ghost var m := T();
      if op == GuoPai {
        PassBy();
        PassDecided(t, m, T(), over, i, v);
      } else if op == MGang {
        DrawFor(i);
        DrawsNext(t, m, T(), i, op, v, i);
      } else if op == HuPai {
        over := true;
      } else {
        ClaimLeaves(t, m, i, op, v);
        TakeTurn(i);
        MovesSame(t, t, m, T(), i, op, v, NOBODY);
      }
    }

    /** The last awaited player's answer to a discard is carried out. */
    method MjOpOther(i: nat, op: Op, v: int)
      requires Four() && laiZi < KINDS && Shape(T()) && AllReal(T()) && Quiet(T()) && !waitMulti && !over
      requires i < 4 && users[i].waitOp == op && Size(T().seats[i]) == 13
      requires op == GuoPai || op == HuPai || (IsClaim(op) && (op == MGang ==> mjIndex < |mj|))
      modifies this`mjIndex, this`waitMulti, this`turn, this`over, this`discards, users
      ensures Outcome(old(T()), T(), over, i, op, v)
      ensures SameAnswers(old(T()), T())
      ensures Informed(old(T()), T(), over, i, op, v, laiZi)
      ensures !over ==> Answering(T())
    {
      ghost var t := T();
      var finalUser := GetOpUser(i);
      var finalOp := users[finalUser].waitOp;
      var ok := Carry(finalUser, finalOp, v);
      if !ok {
        return;
      }
      AfterClaim(finalUser, finalOp, v, t);
    }

    /** Everyone has answered: the operation of the one who answered last is carried out. */
    method Decide(i: nat, op: Op, v: int)
      requires Four() && laiZi < KINDS && !over && Deciding(T(), i, op) && users[i].waitOp == op
      modifies this`mjIndex, this`waitMulti, this`turn, this`over, this`discards, users
      ensures Outcome(old(T()), T(), over, i, op, v)
      ensures SameAnswers(old(T()), T())
      ensures Informed(old(T()), T(), over, i, op, v, laiZi)
      ensures !over ==> Answering(T())
    {
      ghost var t := T();
      if !waitMulti {
        MjOpSelf(op, v);
      } else {
        waitMulti := false;
        ghost var m := T();
        assert Size(t.seats[i]) == 13;
        MjOpOther(i, op, v);
        OutcomeFrom(t, m, T(), over, i, op, v);
        InformedFrom(t, m, T(), over, i, op, v, laiZi);
      }
    }

    /** Records an answer that is awaited; `decide` when nobody else is waited for any more. */
    method Answer(i: nat, op: Op) returns (decide: bool)
      requires Four() && Orderly(T()) && i < 4
      modifies users[i]
      ensures T() == if Accepted(old(T()), i, op) then Answered(old(T()), i, op) else old(T())
      ensures decide <==> Accepted(old(T()), i, op) && !OthersAwaited(old(T()), i)
      ensures decide ==> users[i].waitOp == op
    {
      ghost var t := T();
      assert t.seats[i] == users[i].View();
      if !users[i].waiting {
        return false;
      }
      if op !in users[i].canOpsFlag {
        return false;
      }
      AnsweredKeeps(t, i, op);
      Record(i, op);
      var some := Waiting();
      return !some;
    }

    method Record(i: nat, op: Op)
      requires Four() && i < 4
      modifies users[i]
      ensures T() == Answered(old(T()), i, op) && users[i].waitOp == op
    {
      users[i].waitOp := op;
      users[i].waiting := false;
    }

    /**
     * A player's request. It is turned down unless it answers a question; it only counts when nobody else is waited
     * for any more, and then it alone decides. While the game goes on, whatever is offered can be carried out. The
     * tiles are kept, and with them the sizes of all hands, exactly unless a claim names another tile than the one
     * discarded last.
     */
    method MjOp(i: nat, op: Op, v: int)
      requires Four() && laiZi < KINDS && Orderly(T()) && !over
      requires Accepted(T(), i, op) ==> Drawable(T(), op)
      modifies this`mjIndex, this`waitMulti, this`turn, this`over, this`discards, users
      ensures Sane(old(T()), T(), over, i, op, v)
      ensures Heard(old(T()), T(), over, i, op, v, laiZi)
    {
      ghost var t := T();
      if i >= |users| {
        HeardUndecided(t, i, op, v, laiZi);
        return;
      }
      var decide := Answer(i, op);
      if decide {
        AcceptedDecides(t, i, op, v);
        Decide(i, op, v);
        HeardDecided(t, T(), over, i, op, v, laiZi);
      } else {
        HeardUndecided(t, i, op, v, laiZi);
      }
    }

    // ----- whole games -----

    /** Clears the table for a new wall. */
    method Reset(wall: seq<int>)
      requires Four() && turn < 4 && |wall| == WALL_SIZE && RealTiles(wall)
      modifies this`mj, this`mjIndex, this`waitMulti, this`over, this`discards, users
      ensures mj == wall && !over
      ensures Empty(T())
    {
      mj, mjIndex, waitMulti, over, discards := wall, 0, false, false, [];
      for j := 0 to 4
        invariant forall k | 0 <= k < j :: users[k].mjHands == [] && users[k].mjGroup == []
        invariant forall k | 0 <= k < j :: !users[k].waiting && users[k].waitOp .FaPai?
        modifies users
      {
        users[j].Reset();
      }
      assert forall k | 0 <= k < 4 :: T().seats[k] == users[k].View();
    }

    method FaPaiTo(i: nat, n: nat)
      requires Four() && i < 4 && mjIndex + n <= |mj|
      modifies this`mjIndex, users[i]
      ensures T() == DrawnMany(old(T()), i, n)
    {
      ghost var t := T();
      DrawnNone(t, i);
      for k := 0 to n
        invariant T() == DrawnMany(t, i, k)
      {
        DrawnOneMore(t, i, k);
        FaPai(i);
      }
    }

    /** One round of the deal: four tiles for each player, starting with the dealer. */
    method Round()
      requires Four() && turn < 4 && mjIndex + 16 <= |mj|
      modifies this`mjIndex, users
      ensures T() == RoundTo(old(T()), 4)
    {
      ghost var t := T();
      for i := 0 to 4
        invariant T() == RoundTo(t, i)
      {
        FaPaiTo(Place(turn, i), 4);
        RoundNext(t, i);
      }
    }

    method ThreeRounds()
      requires Four() && turn < 4 && mjIndex + 48 <= |mj|
      modifies this`mjIndex, users
      ensures T() == Rounds(old(T()), 3)
    {
      ghost var t := T();
      for r := 0 to 3
        invariant T() == Rounds(t, r)
      {
        Round();
      }
    }

    /** The last tiles: one each, and another one for the dealer. */
    method LastTiles()
      requires Four() && turn < 4 && mjIndex + 5 <= |mj|
      modifies this`mjIndex, users
      ensures T() == SinglesTo(old(T()), 5)
      ensures users[turn].lastOp.op == MoPai
    {
      ghost var t := T();
      for i := 0 to 5
        invariant T() == SinglesTo(t, i)
        invariant i == 5 ==> users[turn].lastOp.op == MoPai
      {
        FaPai(Place(turn, i));
        SinglesNext(t, i);
      }
    }

    /** The dice say which tile of the wall is turned up, and that fixes the wild tile. */
    method TurnUp(dice0: nat, dice1: nat)
      requires |mj| == WALL_SIZE && RealTiles(mj) && 1 <= dice0 <= 6 && 1 <= dice1 <= 6
      modifies this`piZi, this`laiZi
      ensures TurnedUp(mj, dice0, dice1) in mj && piZi == TurnedUp(mj, dice0, dice1)
      ensures laiZi == GetLaizi(piZi) && 0 < laiZi < KINDS
    {
      var col := dice1;
      if dice0 < dice1 {
        col := dice0;
      }
      var piziIndex := (9 * 3 + 8) * 2 - col * 2;
      assert mj[piziIndex] == TurnedUp(mj, dice0, dice1);
      piZi := mj[piziIndex];
      laiZi := GetLaizi(piZi);
    }

    /** All tiles are dealt from a new wall. */
    method DealAll(wall: seq<int>) returns (ghost t: Table)
      requires Four() && turn < 4 && |wall| == WALL_SIZE && RealTiles(wall)
      modifies this`mj, this`mjIndex, this`waitMulti, this`over, this`discards, users
      ensures Empty(t) && t.wall == wall && t.turn == turn && T() == Dealt(t)
      ensures mj == wall && !over && users[turn].lastOp.op == MoPai
    {
      Reset(wall);
      t := T();
      ThreeRounds();
      LastTiles();
    }

    /** The dealer is asked for the first discard. */
    method StartTurn(ghost t: Table)
      requires Four() && laiZi < KINDS && Empty(t) && T() == Dealt(t) && users[turn].lastOp.op == MoPai
      modifies users
      ensures Opened(T(), t.wall, laiZi) && turn == t.turn
    {
      ghost var m := T();
      DealtOk(t);
      assert Size(m.seats[turn]) == 14;
      AskSelf(turn);
      AskedSelfOk(m, T().seats[turn]);
      HandsByDistance(T(), t.wall);
    }

    /** Deals a shuffled wall. */
    method MajFaPai(wall: seq<int>, dice0: nat, dice1: nat)
      requires Four() && turn < 4 && |wall| == WALL_SIZE && RealTiles(wall) && 1 <= dice0 <= 6 && 1 <= dice1 <= 6
      modifies this`mj, this`mjIndex, this`piZi, this`laiZi, this`waitMulti, this`over, this`discards, users
      ensures Opened(T(), wall, laiZi) && !over && 0 < laiZi < KINDS
      ensures piZi == TurnedUp(wall, dice0, dice1) && piZi in wall[DEALT..] && laiZi == GetLaizi(piZi)
    {
      ghost var t := DealAll(wall);
      TurnUp(dice0, dice1);
      StartTurn(t);
    }

    /** Whether a request leaves a tile to draw if it is a gang that the player may make. */
    method MayPlay(r: Request) returns (ok: bool)
      requires Four()
      ensures ok <==> Playable(T(), r)
    {
      var i, op := r.0, r.1;
      if i >= 4 {
        return true;
      }
      assert T().seats[i] == users[i].View();
      return users[i].waiting && op in users[i].canOpsFlag && (op == MGang || op == AGang) ==> mjIndex < |mj|;
    }

    /** One more request of a game, unless it cannot be made. */
    method PlayNext(ghost ts: seq<Table>, requests: seq<Request>, n: nat) returns (ok: bool)
      requires Four() && laiZi < KINDS && !over && n < |requests| && |ts| == n + 1
      requires Ran(ts, requests, false, laiZi) && T() == ts[n] && Orderly(T())
      modifies this`mjIndex, this`waitMulti, this`turn, this`over, this`discards, users
      ensures !ok ==> T() == old(T()) && !over && !Playable(T(), requests[n])
      ensures ok ==> Ran(ts + [T()], requests, over, laiZi) && (!over ==> Orderly(T()))
    {
      ok := MayPlay(requests[n]);
      if ok {
        MjOp(requests[n].0, requests[n].1, requests[n].2);
        RanOn(ts, requests, T(), over, laiZi);
      }
    }

    /** Requests one after the other, until one that cannot be made or the end of the game. */
    method PlayOn(requests: seq<Request>) returns (ghost ts: seq<Table>)
      requires Four() && laiZi < KINDS && !over && Orderly(T())
      modifies this`mjIndex, this`waitMulti, this`turn, this`over, this`discards, users
      ensures Ran(ts, requests, over, laiZi) && Finished(ts, requests, over)
      ensures ts[0] == old(T()) && ts[|ts| - 1] == T()
      ensures !over ==> Orderly(T())
    {
      ts := [T()];
      var n := 0;
      while n < |requests| && !over
        invariant n <= |requests| && |ts| == n + 1 && T() == ts[n] && ts[0] == old(T())
        invariant Ran(ts, requests, over, laiZi) && (!over ==> Orderly(T()))
        modifies this`mjIndex, this`waitMulti, this`turn, this`over, this`discards, users
        decreases |requests| - n
      {
        var ok := PlayNext(ts, requests, n);
        if !ok {
          break;
        }
        ts := ts + [T()];
        n := n + 1;
      }
    }

    /**
     * A game: any requests by any players, in any order, until one that would draw a tile past the end of the wall, or
     * the end of the game. `ts` are the tables it goes through. Whatever is requested, a table the game goes on from
     * is in order; as long as claims name the last discard, no tile is lost or made and every hand has its size.
     */
    method Play(wall: seq<int>, dice0: nat, dice1: nat, requests: seq<Request>) returns (ghost ts: seq<Table>)
      requires Four() && turn < 4 && |wall| == WALL_SIZE && RealTiles(wall) && 1 <= dice0 <= 6 && 1 <= dice1 <= 6
      modifies this`mj, this`mjIndex, this`piZi, this`laiZi, this`waitMulti, this`over, this`discards, this`turn, users
      ensures Ran(ts, requests, over, laiZi) && Finished(ts, requests, over) && T() == ts[|ts| - 1]
      ensures Opened(ts[0], wall, laiZi) && ts[0].turn == old(turn)
      ensures laiZi == GetLaizi(TurnedUp(wall, dice0, dice1))
      ensures !over ==> Orderly(T())
      ensures AllNaming(ts, requests) ==> Shape(T()) && Conserved(T()) && (!over ==> TableOk(T()))
    {
      MajFaPai(wall, dice0, dice1);
      OkIsOrderly(T());
      ts := PlayOn(requests);
      if AllNaming(ts, requests) {
        RunOk(ts, requests, over, laiZi);
      }
    }
  }
}
