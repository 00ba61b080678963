/** The steps of the game on whole tables: what a request comes to, and what every run of requests keeps. */
module TableSteps {
  import opened Tiles
  import opened TableRules
  import opened TableState

  const HUANG_ZHUANG := 10  // tiles of the wall that are never dealt in ordinary turns

  predicate WallSpent(t: Table) {
    HUANG_ZHUANG + t.next >= |t.wall|
  }

  function NextTurn(t: Table): nat {
    (t.turn + 1) % 4
  }

  // ----- decisions -----

  /** What `i` may ask for: its own turn, or an answer while claims are pending. */
  predicate Legal(t: Table, i: nat, op: Op) {
    if t.multi then i != t.turn && (op == GuoPai || op == HuPai || IsClaim(op))
    else i == t.turn && (op == ChuPai || op == AGang || op == HuPai)
  }

  /** Player `d` draws, or nobody does when the game is over. */
  function Drawer(d: nat, over: bool): int {
    if over then NOBODY else d
  }

  /**
   * The table after the last awaited player's operation was carried out; `over` when the game has ended.
   * A discard that somebody can claim leaves the turn where it is; otherwise the next player draws, unless the wall
   * is spent. A claim gives the turn to the claimant; gangs draw a tile whatever is left of the wall.
   */
  ghost predicate Decided(t: Table, u: Table, over: bool, i: nat, op: Op, v: int) {
    match op
    case ChuPai =>
      if u.multi then !over && u.turn == t.turn && Moves(t, u, i, op, v, NOBODY)
      else u.turn == NextTurn(t) && over == WallSpent(t) && Moves(t, u, i, op, v, Drawer(u.turn, over))
    case GuoPai =>
      && !u.multi && over == WallSpent(t) && u.turn == (if over then t.turn else NextTurn(t))
      && Moves(t, u, i, op, v, Drawer(u.turn, over))
    case HuPai => !u.multi && over && u.turn == t.turn && Moves(t, u, i, op, v, NOBODY)
    case AGang => !u.multi && !over && u.turn == i && Moves(t, u, i, op, v, i)
    case MGang => !u.multi && !over && u.turn == i && Moves(t, u, i, op, v, i)
    case _ => IsClaim(op) && !u.multi && !over && u.turn == i && Moves(t, u, i, op, v, NOBODY)
  }

  /** Who drew a tile in a decision. */
  function DrawerOf(u: Table, over: bool, i: nat, op: Op): int {
    match op
    case ChuPai => if u.multi || over then NOBODY else u.turn
    case GuoPai => if over then NOBODY else u.turn
    case AGang => i
    case MGang => i
    case _ => NOBODY
  }

  lemma DecidedMoves(t: Table, u: Table, over: bool, i: nat, op: Op, v: int)
    requires Decided(t, u, over, i, op, v)
    ensures IsDeal(op) && op != BGang && Moves(t, u, i, op, v, DrawerOf(u, over, i, op))
  {
  }

  /** Every decision keeps the shape of the table and, while the game goes on, the size of every hand. */
  lemma DecidedSizes(t: Table, u: Table, over: bool, i: nat, op: Op, v: int)
    requires Shape(t) && AllReal(t) && Sized(t) && i < 4 && Legal(t, i, op) && Decided(t, u, over, i, op, v)
    ensures Shape(u) && AllReal(u)
    ensures !over ==> Sized(u)
  {
    var d := DrawerOf(u, over, i, op);
    DecidedMoves(t, u, over, i, op, v);
    MovesReal(t, u, i, op, v, d);
    forall j | 0 <= j < 4 && !over ensures Size(u.seats[j]) == if j == u.turn && !u.multi then 14 else 13 {
      SeatMovesOwns(t.seats[j], u.seats[j], j == i, op, v, DrawnTile(t, j, d), 0);
      assert Size(t.seats[j]) == if j == t.turn && !t.multi then 14 else 13;
    }
  }

  /** A decision keeps the tiles exactly unless it is a claim on another tile than the last discard. */
  lemma DecidedConserves(t: Table, u: Table, over: bool, i: nat, op: Op, v: int)
    requires t.next <= |t.wall| && |t.seats| == 4 && Conserved(t) && Decided(t, u, over, i, op, v)
    ensures |u.seats| == 4 && u.next <= |u.wall|
    ensures Conserved(u) <==> (IsClaim(op) ==> Names(t.discards, v))
  {
    DecidedMoves(t, u, over, i, op, v);
    MovesConserve(t, u, i, op, v, DrawerOf(u, over, i, op));
  }

  lemma DecidedFrom(t: Table, m: Table, u: Table, over: bool, i: nat, op: Op, v: int)
    requires SameTiles(t, m) && t.turn == m.turn && Decided(m, u, over, i, op, v)
    ensures Decided(t, u, over, i, op, v)
  {
    DecidedMoves(m, u, over, i, op, v);
    MovesSame(t, m, u, u, i, op, v, DrawerOf(u, over, i, op));
  }

  lemma HeldReal(hand: seq<int>, v: int)
    requires RealTiles(hand) && CanTake(hand, ChuPai, v)
    ensures 0 < v && Plain(v)
  {
    assert v in multiset(hand);
    assert v in hand;
  }

  /** The discarder's own hand does not matter for who can claim. */
  lemma ClaimableSame(t: Table, m: Table, who: nat, v: nat, lz: nat)
    requires AllReal(t) && AllReal(m) && Plain(v) && v > 0 && lz < KINDS && |t.seats| == |m.seats|
    requires forall j | 0 <= j < |t.seats| && j != who :: t.seats[j].hand == m.seats[j].hand
    ensures Claimable(t, who, v, lz) <==> Claimable(m, who, v, lz)
  {
    if j :| 0 <= j < |t.seats| && j != who && HasClaim(t.seats[j].hand, v, lz) {
      assert m.seats[j].hand == t.seats[j].hand;
    }
    if j :| 0 <= j < |m.seats| && j != who && HasClaim(m.seats[j].hand, v, lz) {
      assert t.seats[j].hand == m.seats[j].hand;
    }
  }

  /** The turn has passed on and the next player has drawn, unless the wall is spent. */
  ghost predicate PassedOn(m: Table, u: Table, over: bool) {
    && |m.seats| == 4 && m.next <= |m.wall| && !u.multi && u.turn == NextTurn(m) && over == WallSpent(m)
    && SameTiles(if over then m else Drawn(m, u.turn), u)
  }

  lemma PassedOnFrom(t: Table, m: Table, u: Table, over: bool)
    requires SameTiles(t, m) && t.turn == m.turn && PassedOn(m, u, over)
    ensures PassedOn(t, u, over)
  {
  }

  /** After everyone passed: the wall is looked at before the turn moves on. */
  ghost predicate PassedBy(m: Table, u: Table, over: bool) {
    && |m.seats| == 4 && m.next <= |m.wall| && !u.multi && over == WallSpent(m)
    && u.turn == (if over then m.turn else NextTurn(m))
    && SameTiles(if over then m else Drawn(m, u.turn), u)
  }

  lemma PassDecided(t: Table, m: Table, u: Table, over: bool, i: nat, v: int)
    requires Moves(t, m, i, GuoPai, v, NOBODY) && m.turn == t.turn && PassedBy(m, u, over)
    ensures Decided(t, u, over, i, GuoPai, v)
  {
    if over {
      MovesSame(t, t, m, u, i, GuoPai, v, NOBODY);
    } else {
      DrawsNext(t, m, u, i, GuoPai, v, u.turn);
    }
  }

  lemma DiscardDecided(t: Table, m: Table, u: Table, over: bool, i: nat, v: int)
    requires Moves(t, m, i, ChuPai, v, NOBODY) && m.turn == t.turn
    requires if u.multi then !over && u.turn == m.turn && SameTiles(m, u) else PassedOn(m, u, over)
    ensures Decided(t, u, over, i, ChuPai, v)
  {
    if u.multi || over {
      MovesSame(t, t, m, u, i, ChuPai, v, NOBODY);
    } else {
      DrawsNext(t, m, u, i, ChuPai, v, u.turn);
    }
  }

  /** After an operation without a draw, player `d` draws. */
  lemma DrawsNext(t: Table, m: Table, u: Table, i: nat, op: Op, v: int, d: nat)
    requires Moves(t, m, i, op, v, NOBODY) && d < 4 && m.next < |m.wall| && SameTiles(Drawn(m, d), u)
    ensures Moves(t, u, i, op, v, d)
  {
    MovesDraw(t, m, i, op, v, d);
    MovesSame(t, t, Drawn(m, d), u, i, op, v, d);
  }

  // ----- failures -----

  /** An operation the hand cannot pay for changes nothing, but for the tile a chi that fails halfway has taken. */
  ghost predicate Fails(t: Table, u: Table, i: nat, op: Op, v: int)
    requires i < |t.seats|
  {
    if HalfPaid(t.seats[i].hand, op, v) then
      var x := Neighbours(op, v).0;
      u.discards == t.discards && Moves(t, u.(discards := t.discards + [x]), i, ChuPai, x, NOBODY)
    else Moves(t, u, i, GuoPai, 0, NOBODY)
  }

  lemma FailedFails(t: Table, s': Seat, i: nat, op: Op, v: int)
    requires |t.seats| == 4 && i < 4 && Failed(t.seats[i].hand, s'.hand, op, v) && s'.groups == t.seats[i].groups
    ensures Fails(t, t.(seats := t.seats[i := s']), i, op, v)
  {
    if HalfPaid(t.seats[i].hand, op, v) {
      var x := Neighbours(op, v).0;
      TakenMoves(t, i, s', ChuPai, x, t.discards + [x]);
    } else {
      TakenMoves(t, i, s', GuoPai, 0, t.discards);
    }
  }

  /** A request the player cannot pay for: from now on nobody is waited for. */
  ghost predicate Stuck(t: Table, u: Table, i: nat, op: Op, v: int)
    requires i < |t.seats|
  {
    u.turn == t.turn && !u.multi && Quiet(u) && Fails(t, u, i, op, v)
  }

  lemma StuckFrom(t: Table, m: Table, u: Table, i: nat, op: Op, v: int)
    requires SameTiles(t, m) && t.turn == m.turn && i < |t.seats| && Stuck(m, u, i, op, v)
    ensures Stuck(t, u, i, op, v)
  {
    if HalfPaid(t.seats[i].hand, op, v) {
      var x := Neighbours(op, v).0;
      var w := u.(discards := t.discards + [x]);
      MovesSame(t, m, w, w, i, ChuPai, x, NOBODY);
    } else {
      MovesSame(t, m, u, u, i, GuoPai, 0, NOBODY);
    }
  }

  lemma StuckReal(t: Table, u: Table, i: nat, op: Op, v: int)
    requires Shape(t) && AllReal(t) && i < 4 && Stuck(t, u, i, op, v)
    ensures Shape(u) && AllReal(u)
  {
    if HalfPaid(t.seats[i].hand, op, v) {
      var x := Neighbours(op, v).0;
      MovesReal(t, u.(discards := t.discards + [x]), i, ChuPai, x, NOBODY);
    } else {
      MovesReal(t, u, i, GuoPai, 0, NOBODY);
    }
  }

  /** A failure keeps the tiles exactly unless a chi fails halfway: then one tile is gone. */
  lemma StuckConserves(t: Table, u: Table, i: nat, op: Op, v: int)
    requires Shape(t) && Conserved(t) && i < 4 && Stuck(t, u, i, op, v)
    ensures |u.seats| == 4 && u.next <= |u.wall|
    ensures Conserved(u) <==> !HalfPaid(t.seats[i].hand, op, v)
  {
    if HalfPaid(t.seats[i].hand, op, v) {
      var x := Neighbours(op, v).0;
      var w := u.(discards := t.discards + [x]);
      MovesConserve(t, w, i, ChuPai, x, NOBODY);
      assert Total(w, x) == Total(u, x) + 1;
      assert Total(w, x) == multiset(w.wall)[x];
    } else {
      MovesConserve(t, u, i, GuoPai, 0, NOBODY);
    }
  }

  /** On a player's own turn a failure leaves all hands their sizes. */
  lemma StuckSized(t: Table, u: Table, i: nat, op: Op, v: int)
    requires |t.seats| == 4 && Sized(t) && !t.multi && i < 4 && !IsChi(op) && Stuck(t, u, i, op, v)
    ensures Sized(u)
  {
    forall j | 0 <= j < 4 ensures Size(u.seats[j]) == if j == u.turn then 14 else 13 {
      SeatMovesOwns(t.seats[j], u.seats[j], j == i, GuoPai, 0, [], 0);
      assert Size(t.seats[j]) == if j == t.turn then 14 else 13;
    }
  }

  // ----- requests -----

  /** A request is heard when the player is waited for and was offered the operation. */
  predicate Accepted(t: Table, i: nat, op: Op) {
    i < |t.seats| && t.seats[i].waiting && op in t.seats[i].flags
  }

  predicate OthersAwaited(t: Table, i: nat) {
    exists j | 0 <= j < |t.seats| :: j != i && t.seats[j].waiting
  }

  /** The player has answered. */
  function Answered(t: Table, i: nat, op: Op): Table
    requires i < |t.seats|
  {
    t.(seats := t.seats[i := t.seats[i].(waiting := false, answer := op)])
  }

  /** A gang leaves a tile to draw: the code does not look, and would read past the end of the wall. */
  predicate Drawable(t: Table, op: Op) {
    op == MGang || op == AGang ==> t.next < |t.wall|
  }

  /** A claim names the tile discarded last: the code does not look. */
  predicate Naming(t: Table, op: Op, v: int) {
    t.multi && IsClaim(op) ==> Names(t.discards, v)
  }

  /** What every run keeps, whatever is requested: real tiles, proper offers, and sizes as long as anyone is awaited. */
  ghost predicate Orderly(t: Table) {
    Shape(t) && AllReal(t) && Answering(t) && (Quiet(t) || Sized(t))
  }

  lemma OkIsOrderly(t: Table)
    requires TableOk(t)
    ensures Orderly(t)
  {
    HandsReal(t);
  }

  lemma AnsweredKeeps(t: Table, i: nat, op: Op)
    requires Orderly(t) && i < 4
    ensures var m := Answered(t, i, op);
      && SameTiles(t, m) && m.turn == t.turn && m.multi == t.multi
      && Orderly(m) && (Sized(t) ==> Sized(m)) && (TableOk(t) ==> TableOk(m))
    ensures OthersAwaited(t, i) <==> !Quiet(Answered(t, i, op))
  {
    var m := Answered(t, i, op);
    forall j | 0 <= j < 4 ensures Size(m.seats[j]) == Size(t.seats[j]) && m.seats[j].hand == t.seats[j].hand {}
    if TableOk(t) {
      TakenMoves(t, i, m.seats[i], GuoPai, 0, t.discards);
      MovesConserve(t, m, i, GuoPai, 0, NOBODY);
    }
  }

  /** Nobody else is awaited, and `i` asks for something it may do. */
  ghost predicate Deciding(t: Table, i: nat, op: Op) {
    Shape(t) && AllReal(t) && Sized(t) && Quiet(t) && i < 4 && Legal(t, i, op) && Drawable(t, op)
  }

  lemma AcceptedDecides(t: Table, i: nat, op: Op, v: int)
    requires Orderly(t) && Accepted(t, i, op) && Drawable(t, op) && !OthersAwaited(t, i)
    ensures Legal(t, i, op) && Sized(t) && Deciding(Answered(t, i, op), i, op)
    ensures t.multi && Naming(t, op, v) ==> CanTake(t.seats[i].hand, op, v)
  {
    AnsweredKeeps(t, i, op);
  }

  /** What has become of a request that decides, seen from the table on which it was made. */
  ghost predicate Outcome(t: Table, u: Table, over: bool, i: nat, op: Op, v: int)
    requires i < |t.seats|
  {
    if CanTake(t.seats[i].hand, op, v) then Decided(t, u, over, i, op, v)
    else !over && Stuck(t, u, i, op, v)
  }

  /**
   * What a request comes to: it is turned down, or recorded while others are awaited, or decides. A discard is put to
   * the others exactly when one of them can claim it. Answers stay recorded until the player answers again.
   */
  ghost predicate Heard(t: Table, u: Table, over: bool, i: nat, op: Op, v: int, lz: nat) {
    if !Accepted(t, i, op) then u == t && !over
    else if OthersAwaited(t, i) then u == Answered(t, i, op) && !over
    else Outcome(t, u, over, i, op, v) && Informed(t, u, over, i, op, v, lz) && SameAnswers(Answered(t, i, op), u)
  }

  /** After an operation was carried out, the right players are told the right things. */
  ghost predicate Informed(t: Table, u: Table, over: bool, i: nat, op: Op, v: int, lz: nat)
    requires i < |t.seats|
  {
    CanTake(t.seats[i].hand, op, v) ==>
      && (!over ==> Told(u, lz))
      && (op == ChuPai ==> AllReal(t) && 0 < v && Plain(v) && lz < KINDS && (u.multi <==> Claimable(t, i, v, lz)))
  }

  lemma InformedFrom(t: Table, m: Table, u: Table, over: bool, i: nat, op: Op, v: int, lz: nat)
    requires AllReal(t) && SameTiles(t, m) && i < |t.seats| && Informed(m, u, over, i, op, v, lz)
    ensures Informed(t, u, over, i, op, v, lz)
  {
    if op == ChuPai && CanTake(t.seats[i].hand, op, v) {
      ClaimableSame(t, m, i, v, lz);
    }
  }

  lemma OutcomeFrom(t: Table, m: Table, u: Table, over: bool, i: nat, op: Op, v: int)
    requires SameTiles(t, m) && t.turn == m.turn && i < |t.seats| && Outcome(m, u, over, i, op, v)
    ensures Outcome(t, u, over, i, op, v)
  {
    if CanTake(t.seats[i].hand, op, v) {
      DecidedFrom(t, m, u, over, i, op, v);
    } else {
      StuckFrom(t, m, u, i, op, v);
    }
  }

  /** Whether a request that decides keeps the tiles. */
  predicate Conserves(t: Table, i: nat, op: Op, v: int)
    requires i < |t.seats|
  {
    if CanTake(t.seats[i].hand, op, v) then IsClaim(op) ==> Names(t.discards, v)
    else !HalfPaid(t.seats[i].hand, op, v)
  }

  /** A request that decides keeps the table orderly. */
  lemma OutcomeOrderly(t: Table, u: Table, over: bool, i: nat, op: Op, v: int)
    requires Shape(t) && AllReal(t) && Sized(t) && i < 4 && Legal(t, i, op) && Outcome(t, u, over, i, op, v)
    requires !over ==> Answering(u)
    ensures Shape(u)
    ensures !over ==> Orderly(u)
  {
    if CanTake(t.seats[i].hand, op, v) {
      DecidedSizes(t, u, over, i, op, v);
    } else {
      StuckReal(t, u, i, op, v);
    }
  }

  /** It keeps the tiles exactly when it is paid for and names the last discard if it is a claim, or fails cleanly. */
  lemma OutcomeConserves(t: Table, u: Table, over: bool, i: nat, op: Op, v: int)
    requires Shape(t) && Conserved(t) && i < 4 && Outcome(t, u, over, i, op, v)
    ensures |u.seats| == 4 && u.next <= |u.wall|
    ensures Conserved(u) <==> Conserves(t, i, op, v)
  {
    if CanTake(t.seats[i].hand, op, v) {
      DecidedConserves(t, u, over, i, op, v);
    } else {
      StuckConserves(t, u, i, op, v);
    }
  }

  /** A claim that names the last discard, and any other request, keeps the table in order. */
  lemma OutcomeOk(t: Table, u: Table, over: bool, i: nat, op: Op, v: int)
    requires TableOk(t) && i < 4 && Legal(t, i, op) && Naming(t, op, v) && Outcome(t, u, over, i, op, v)
    requires t.multi ==> CanTake(t.seats[i].hand, op, v)
    requires !over ==> Answering(u)
    ensures Shape(u) && Conserved(u)
    ensures !over ==> TableOk(u)
  {
    HandsReal(t);
    OutcomeOrderly(t, u, over, i, op, v);
    OutcomeConserves(t, u, over, i, op, v);
    if CanTake(t.seats[i].hand, op, v) {
      DecidedSizes(t, u, over, i, op, v);
    } else {
      StuckSized(t, u, i, op, v);
    }
  }

  /** What a request does to the table as a whole. */
  ghost predicate Sane(t: Table, u: Table, over: bool, i: nat, op: Op, v: int)
    requires Shape(t)
  {
    && Shape(u) && (!over ==> Orderly(u))
    && (Conserved(t) ==>
         (Conserved(u) <==> (Accepted(t, i, op) && !OthersAwaited(t, i) ==> Conserves(t, i, op, v))))
    && (TableOk(t) && Naming(t, op, v) ==> Conserved(u) && (!over ==> TableOk(u)))
  }

  lemma HeardDecided(t: Table, u: Table, over: bool, i: nat, op: Op, v: int, lz: nat)
    requires Orderly(t) && i < 4 && Accepted(t, i, op) && Drawable(t, op) && !OthersAwaited(t, i)
    requires Outcome(Answered(t, i, op), u, over, i, op, v)
    requires Informed(Answered(t, i, op), u, over, i, op, v, lz) && SameAnswers(Answered(t, i, op), u)
    requires !over ==> Answering(u)
    ensures Heard(t, u, over, i, op, v, lz)
    ensures Sane(t, u, over, i, op, v)
  {
    var m := Answered(t, i, op);
    AnsweredKeeps(t, i, op);
    AcceptedDecides(t, i, op, v);
    OutcomeFrom(t, m, u, over, i, op, v);
    InformedFrom(t, m, u, over, i, op, v, lz);
    OutcomeOrderly(t, u, over, i, op, v);
    if Conserved(t) {
      OutcomeConserves(t, u, over, i, op, v);
    }
    if TableOk(t) && Naming(t, op, v) {
      OutcomeOk(t, u, over, i, op, v);
    }
  }

  lemma HeardUndecided(t: Table, i: nat, op: Op, v: int, lz: nat)
    requires Orderly(t) && !(Accepted(t, i, op) && !OthersAwaited(t, i))
    ensures var u := if Accepted(t, i, op) then Answered(t, i, op) else t;
      Heard(t, u, false, i, op, v, lz) && Sane(t, u, false, i, op, v)
  {
    if Accepted(t, i, op) {
      var m := Answered(t, i, op);
      AnsweredKeeps(t, i, op);
      if Conserved(t) {
        TakenMoves(t, i, m.seats[i], GuoPai, 0, t.discards);
        MovesConserve(t, m, i, GuoPai, 0, NOBODY);
      }
    }
  }

  // ----- the game does not stall -----

  /** Somebody is awaited who can answer: the player to act by a discard, a claimant by passing. */
  ghost predicate Alive(t: Table) {
    |t.seats| == 4 && t.turn < 4 &&
    if t.multi then !Quiet(t) && forall j | 0 <= j < 4 && t.seats[j].waiting :: GuoPai in t.seats[j].flags
    else t.seats[t.turn].waiting && ChuPai in t.seats[t.turn].flags
  }

  lemma ToldAlive(t: Table, lz: nat)
    requires Told(t, lz) && Answering(t)
    ensures Alive(t)
  {
    if t.multi {
      var v := t.discards[|t.discards| - 1];
      forall j | 0 <= j < 4 && t.seats[j].waiting ensures GuoPai in t.seats[j].flags {
        assert j != t.turn && Offers(t.seats[j], v, lz);
        OffersMean(t.seats[j], v, lz);
        assert OfferRight(t.seats[j], GuoPai, v, lz);
      }
    } else {
      assert OwnRight(t.seats[t.turn], ChuPai, lz);
    }
  }

  /** While somebody is awaited who can answer, some request is heard and can be carried out. */
  lemma AliveMoves(t: Table)
    requires Orderly(t) && Alive(t)
    ensures exists i: nat, op, v ::
      Accepted(t, i, op) && Drawable(t, op) && Naming(t, op, v) && CanTake(t.seats[i].hand, op, v)
  {
    if t.multi {
      var j :| 0 <= j < 4 && t.seats[j].waiting;
      assert Accepted(t, j, GuoPai) && Drawable(t, GuoPai) && Naming(t, GuoPai, 0)
        && CanTake(t.seats[j].hand, GuoPai, 0);
    } else {
      CanDiscard(t);
      var v := t.seats[t.turn].hand[0];
      assert v in multiset(t.seats[t.turn].hand);
      assert Accepted(t, t.turn, ChuPai) && Drawable(t, ChuPai) && Naming(t, ChuPai, v)
        && CanTake(t.seats[t.turn].hand, ChuPai, v);
    }
  }

  /** Only a request that decides on a tile its player cannot pay with stalls the game, and such a request does. */
  lemma HeardAlive(t: Table, u: Table, over: bool, i: nat, op: Op, v: int, lz: nat)
    requires Orderly(t) && Alive(t) && Heard(t, u, over, i, op, v, lz) && !over && Orderly(u)
    ensures Alive(u) <==>
      !(Accepted(t, i, op) && !OthersAwaited(t, i) && !CanTake(t.seats[i].hand, op, v))
  {
    if Accepted(t, i, op) {
      if OthersAwaited(t, i) {
        AnsweredKeeps(t, i, op);
        assert t.multi;
      } else if CanTake(t.seats[i].hand, op, v) {
        ToldAlive(u, lz);
      }
    }
  }

  /** On every player's own turn there is a request that stalls the game: to discard a tile there is none of. */
  lemma StallingRequest(t: Table)
    requires Orderly(t) && Alive(t) && !t.multi
    ensures Accepted(t, t.turn, ChuPai) && Drawable(t, ChuPai) && Naming(t, ChuPai, 0) && !OthersAwaited(t, t.turn)
    ensures !CanTake(t.seats[t.turn].hand, ChuPai, 0)
    ensures forall u, over, lz | Heard(t, u, over, t.turn, ChuPai, 0, lz) && Orderly(u) :: !over && !Alive(u)
  {
    assert 0 !in t.seats[t.turn].hand && 0 !in multiset(t.seats[t.turn].hand);
    forall u, over, lz | Heard(t, u, over, t.turn, ChuPai, 0, lz) && Orderly(u) ensures !over && !Alive(u) {
      HeardAlive(t, u, over, t.turn, ChuPai, 0, lz);
    }
  }

  /** The player who must discard holds at least two tiles. */
  lemma CanDiscard(t: Table)
    requires Shape(t) && Sized(t) && !t.multi
    ensures |t.seats[t.turn].hand| % 3 == 2
  {
    assert Size(t.seats[t.turn]) == 14;
  }
}
