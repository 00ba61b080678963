/** How the wall is dealt: three rounds of four tiles each, then one tile each, and one more for the dealer. */
module DealModel {
  import opened Tiles
  import opened TableRules
  import opened TableState
  import opened Arbitration

  const WALL_SIZE := 136
  const DEALT := 53

  /** The seat `m` places after the dealer. */
  function Place(turn: nat, m: nat): (p: nat)
    ensures p < 4 && (turn < 4 && m == 4 ==> p == turn)
    ensures turn < 4 && m < 4 ==> Distance(turn, p) == m
  {
    (turn + m) % 4
  }

  /** The next `n` tiles of the wall go to a player. */
  function DrawnMany(t: Table, i: nat, n: nat): Table
    requires i < |t.seats| && t.next + n <= |t.wall|
  {
    var s := t.seats[i];
    t.(next := t.next + n,
       seats := t.seats[i := s.(hand := s.hand + t.wall[t.next..t.next + n], flags := if n == 0 then s.flags else {})])
  }

  lemma DrawnNone(t: Table, i: nat)
    requires i < |t.seats| && t.next <= |t.wall|
    ensures DrawnMany(t, i, 0) == t
  {
    assert t.seats[i].hand + t.wall[t.next..t.next] == t.seats[i].hand;
  }

  lemma DrawnOneMore(t: Table, i: nat, n: nat)
    requires i < |t.seats| && t.next + n < |t.wall|
    ensures Drawn(DrawnMany(t, i, n), i) == DrawnMany(t, i, n + 1)
  {
    var s := t.seats[i];
    assert t.wall[t.next..t.next + n + 1] == t.wall[t.next..t.next + n] + [t.wall[t.next + n]];
    assert s.hand + t.wall[t.next..t.next + n + 1] == s.hand + t.wall[t.next..t.next + n] + [t.wall[t.next + n]];
  }

  /** What the player `m` places after the dealer has after `r` rounds. */
  function Share(wall: seq<int>, m: nat, r: nat): seq<int>
    requires m < 4 && r <= 3 && |wall| == WALL_SIZE
  {
    if r == 0 then [] else Share(wall, m, r - 1) + wall[16 * (r - 1) + 4 * m..16 * (r - 1) + 4 * m + 4]
  }

  /** What that player has after the three rounds and `n` single tiles handed round. */
  function Singles(wall: seq<int>, m: nat, n: nat): seq<int>
    requires m < 4 && n <= 5 && |wall| == WALL_SIZE
  {
    Share(wall, m, 3) + (if m < n then [wall[48 + m]] else []) + if m == 0 && n == 5 then [wall[52]] else []
  }

  /** The hand that player starts the game with: the dealer's has fourteen tiles, the others' thirteen. */
  function Opening(wall: seq<int>, m: nat): seq<int>
    requires m < 4 && |wall| == WALL_SIZE
  {
    wall[4 * m..4 * m + 4] + wall[16 + 4 * m..20 + 4 * m] + wall[32 + 4 * m..36 + 4 * m] + [wall[48 + m]]
    + if m == 0 then [wall[52]] else []
  }

  lemma {:induction false} SinglesOpening(wall: seq<int>, m: nat)
    requires m < 4 && |wall| == WALL_SIZE
    ensures Singles(wall, m, 5) == Opening(wall, m)
  {
    assert Share(wall, m, 1) == wall[4 * m..4 * m + 4];
    assert Share(wall, m, 2) == Share(wall, m, 1) + wall[16 + 4 * m..20 + 4 * m];
    assert Share(wall, m, 3) == Share(wall, m, 2) + wall[32 + 4 * m..36 + 4 * m];
  }

  lemma ShareSize(wall: seq<int>, m: nat, r: nat)
    requires m < 4 && r <= 3 && |wall| == WALL_SIZE
    ensures |Share(wall, m, r)| == 4 * r
  {
  }

  ghost predicate Begun(t: Table) {
    |t.seats| == 4 && t.turn < 4 && |t.wall| == WALL_SIZE && !t.multi && t.discards == [] && Quiet(t) &&
    forall j | 0 <= j < 4 :: t.seats[j].groups == [] && t.seats[j].answer == FaPai
  }

  /** In round `r` the first `i` players have had their four tiles. */
  ghost predicate InRound(t: Table, r: nat, i: nat)
    requires r < 3 && i <= 4
  {
    Begun(t) && t.next == 16 * r + 4 * i &&
    forall m | 0 <= m < 4 :: t.seats[Place(t.turn, m)].hand == Share(t.wall, m, if m < i then r + 1 else r)
  }

  lemma RoundStep(t: Table, r: nat, i: nat)
    requires r < 3 && i < 4 && InRound(t, r, i)
    ensures InRound(DrawnMany(t, Place(t.turn, i), 4), r, i + 1)
  {
    var u := DrawnMany(t, Place(t.turn, i), 4);
    forall m | 0 <= m < 4
      ensures u.seats[Place(t.turn, m)].hand == Share(t.wall, m, if m < i + 1 then r + 1 else r)
    {
      if m == i {
        assert u.seats[Place(t.turn, i)].hand == Share(t.wall, i, r) + t.wall[t.next..t.next + 4];
      } else {
        assert Place(t.turn, m) != Place(t.turn, i);
        assert u.seats[Place(t.turn, m)] == t.seats[Place(t.turn, m)];
      }
    }
  }

  /** `n` single tiles have been handed round. */
  ghost predicate InSingles(t: Table, n: nat)
    requires n <= 5
  {
    Begun(t) && t.next == 48 + n &&
    forall m | 0 <= m < 4 :: t.seats[Place(t.turn, m)].hand == Singles(t.wall, m, n)
  }

  lemma SingleStep(t: Table, n: nat)
    requires n < 5 && InSingles(t, n)
    ensures InSingles(Drawn(t, Place(t.turn, n)), n + 1)
  {
    var u := Drawn(t, Place(t.turn, n));
    forall m | 0 <= m < 4 ensures u.seats[Place(t.turn, m)].hand == Singles(t.wall, m, n + 1) {
      if m == n % 4 {
        assert Place(t.turn, m) == Place(t.turn, n);
      } else {
        assert Place(t.turn, m) != Place(t.turn, n);
        assert u.seats[Place(t.turn, m)] == t.seats[Place(t.turn, m)];
      }
    }
  }

  /** After the deal the dealer has fourteen tiles and everyone else thirteen. */
  lemma OpeningSized(t: Table)
    requires InSingles(t, 5)
    ensures Sized(t)
    ensures forall m | 0 <= m < 4 :: t.seats[Place(t.turn, m)].hand == Opening(t.wall, m)
  {
    forall m | 0 <= m < 4 ensures Singles(t.wall, m, 5) == Opening(t.wall, m) {
      SinglesOpening(t.wall, m);
    }
    forall j | 0 <= j < 4 ensures Size(t.seats[j]) == if j == t.turn then 14 else 13 {
      var m := (j + 4 - t.turn) % 4;
      assert Place(t.turn, m) == j;
      ShareSize(t.wall, m, 3);
    }
  }

  // ----- the deal as a whole -----

  /** A round for the first `i` players. */
  function RoundTo(t: Table, i: nat): (u: Table)
    requires |t.seats| == 4 && i <= 4 && t.next + 16 <= |t.wall|
    ensures |u.seats| == 4 && u.wall == t.wall && u.next == t.next + 4 * i && u.turn == t.turn
  {
    if i == 0 then t else DrawnMany(RoundTo(t, i - 1), Place(t.turn, i - 1), 4)
  }

  function Rounds(t: Table, r: nat): (u: Table)
    requires |t.seats| == 4 && r <= 3 && t.next + 16 * r <= |t.wall|
    ensures |u.seats| == 4 && u.wall == t.wall && u.next == t.next + 16 * r && u.turn == t.turn
  {
    if r == 0 then t else RoundTo(Rounds(t, r - 1), 4)
  }

  function SinglesTo(t: Table, n: nat): (u: Table)
    requires |t.seats| == 4 && t.next + n <= |t.wall|
    ensures |u.seats| == 4 && u.wall == t.wall && u.next == t.next + n && u.turn == t.turn
  {
    if n == 0 then t else Drawn(SinglesTo(t, n - 1), Place(t.turn, n - 1))
  }

  lemma RoundNext(t: Table, i: nat)
    requires |t.seats| == 4 && i < 4 && t.next + 16 <= |t.wall|
    ensures RoundTo(t, i + 1) == DrawnMany(RoundTo(t, i), Place(t.turn, i), 4)
  {
  }

  lemma SinglesNext(t: Table, n: nat)
    requires |t.seats| == 4 && t.next + n < |t.wall|
    ensures SinglesTo(t, n + 1) == Drawn(SinglesTo(t, n), Place(t.turn, n))
  {
  }

  lemma {:induction false} DrawnManyConserves(t: Table, i: nat, n: nat)
    requires Shape(t) && Conserved(t) && i < 4 && t.next + n <= |t.wall|
    ensures Shape(DrawnMany(t, i, n)) && Conserved(DrawnMany(t, i, n))
  {
    if n == 0 {
      DrawnNone(t, i);
    } else {
      DrawnManyConserves(t, i, n - 1);
      DrawConserves(DrawnMany(t, i, n - 1), i);
      DrawnOneMore(t, i, n - 1);
    }
  }

  lemma {:induction false} RoundToOk(t: Table, r: nat, i: nat)
    requires r < 3 && i <= 4 && Shape(t) && Conserved(t) && InRound(t, r, 0)
    ensures Shape(RoundTo(t, i)) && Conserved(RoundTo(t, i)) && InRound(RoundTo(t, i), r, i)
  {
    if i > 0 {
      RoundToOk(t, r, i - 1);
      RoundStep(RoundTo(t, i - 1), r, i - 1);
      DrawnManyConserves(RoundTo(t, i - 1), Place(t.turn, i - 1), 4);
    }
  }

  lemma {:induction false} RoundsOk(t: Table, r: nat)
    requires r <= 3 && Shape(t) && Conserved(t) && InRound(t, 0, 0)
    ensures Shape(Rounds(t, r)) && Conserved(Rounds(t, r))
    ensures if r < 3 then InRound(Rounds(t, r), r, 0) else InSingles(Rounds(t, r), 0)
  {
    if r > 0 {
      RoundsOk(t, r - 1);
      RoundToOk(Rounds(t, r - 1), r - 1, 4);
    }
  }

  lemma {:induction false} SinglesToOk(t: Table, n: nat)
    requires n <= 5 && Shape(t) && Conserved(t) && InSingles(t, 0)
    ensures Shape(SinglesTo(t, n)) && Conserved(SinglesTo(t, n)) && InSingles(SinglesTo(t, n), n)
  {
    if n > 0 {
      SinglesToOk(t, n - 1);
      SingleStep(SinglesTo(t, n - 1), n - 1);
      DrawConserves(SinglesTo(t, n - 1), Place(t.turn, n - 1));
    }
  }

  /** An empty table with a full wall. */
  ghost predicate Empty(t: Table) {
    Begun(t) && t.next == 0 && RealTiles(t.wall) && forall j | 0 <= j < 4 :: t.seats[j].hand == []
  }

  /** The table as the deal leaves it. */
  ghost function Dealt(t: Table): Table
    requires Empty(t)
  {
    SinglesTo(Rounds(t, 3), 5)
  }

  /** The deal loses nothing and gives every player the opening hand. */
  lemma DealtOk(t: Table)
    requires Empty(t)
    ensures Shape(Dealt(t)) && Conserved(Dealt(t)) && Sized(Dealt(t)) && AllReal(Dealt(t)) && Quiet(Dealt(t))
    ensures forall m | 0 <= m < 4 :: Dealt(t).seats[Place(t.turn, m)].hand == Opening(t.wall, m)
    ensures forall j | 0 <= j < 4 :: Dealt(t).seats[j].groups == [] && Dealt(t).seats[j].answer == FaPai
    ensures Dealt(t).seats[t.turn].flags == {}
    ensures Dealt(t).next == DEALT && !Dealt(t).multi && Dealt(t).discards == []
  {
    assert t.wall[0..] == t.wall;
    RoundsOk(t, 3);
    SinglesToOk(Rounds(t, 3), 5);
    OpeningSized(Dealt(t));
    HandsReal(Dealt(t));
  }

  /** The tile turned up: counted from the end of the wall by the smaller of the dice. */
  function TurnedUp(wall: seq<int>, dice0: nat, dice1: nat): (v: nat)
    requires |wall| == WALL_SIZE && RealTiles(wall) && 1 <= dice0 <= 6 && 1 <= dice1 <= 6
    ensures v in wall[DEALT..]
  {
    var k := 70 - 2 * if dice0 < dice1 then dice0 else dice1;
    assert wall[DEALT..][k - DEALT] == wall[k] && wall[k] in wall;
    wall[k]
  }

  /** The wall is 68 stacks of two: the top tile of a stack is turned up, one of six beyond those dealt. */
  lemma TurnedUpStack(wall: seq<int>, dice0: nat, dice1: nat)
    requires |wall| == WALL_SIZE && RealTiles(wall) && 1 <= dice0 <= 6 && 1 <= dice1 <= 6
    ensures exists stack | 29 <= stack <= 34 ::
      && (stack == 35 - dice0 || stack == 35 - dice1) && stack >= 35 - dice0 && stack >= 35 - dice1
      && TurnedUp(wall, dice0, dice1) == wall[2 * stack]
  {
    var stack := 35 - if dice0 < dice1 then dice0 else dice1;
    assert TurnedUp(wall, dice0, dice1) == wall[2 * stack];
  }

  /** A game just opened: the opening hands are dealt, and the dealer is asked for the first discard. */
  ghost predicate Opened(t: Table, wall: seq<int>, lz: nat)
    requires |wall| == WALL_SIZE
  {
    && TableOk(t) && Told(t, lz) && t.wall == wall && t.next == DEALT && t.discards == [] && !t.multi
    && (forall j | 0 <= j < 4 :: t.seats[j].hand == Opening(wall, Distance(t.turn, j)))
    && (forall j | 0 <= j < 4 :: OpenSeat(t.seats[j], j == t.turn))
  }

  /** Counting seats from the dealer on, every player has the hand of its place. */
  lemma HandsByDistance(t: Table, wall: seq<int>)
    requires |wall| == WALL_SIZE && |t.seats| == 4 && t.turn < 4
    requires forall m | 0 <= m < 4 :: t.seats[Place(t.turn, m)].hand == Opening(wall, m)
    ensures forall j | 0 <= j < 4 :: t.seats[j].hand == Opening(wall, Distance(t.turn, j))
  {
    forall j | 0 <= j < 4 ensures Place(t.turn, Distance(t.turn, j)) == j {}
  }

  predicate OpenSeat(s: Seat, dealer: bool) {
    s.groups == [] && s.waiting == dealer && s.answer == FaPai
  }

  /** Being asked moves no tile: the table stays in order. */
  lemma AskedSelfOk(t: Table, s: Seat)
    requires Shape(t) && Conserved(t) && Sized(t) && Quiet(t) && !t.multi
    requires s == t.seats[t.turn].(flags := s.flags, waiting := true) && s.flags <= {ChuPai, AGang, HuPai}
    ensures TableOk(t.(seats := t.seats[t.turn := s]))
  {
    var u := t.(seats := t.seats[t.turn := s]);
    TakenMoves(t, t.turn, s, GuoPai, 0, t.discards);
    MovesConserve(t, u, t.turn, GuoPai, 0, NOBODY);
    forall j | 0 <= j < 4 ensures Size(u.seats[j]) == Size(t.seats[j]) {}
  }
}
