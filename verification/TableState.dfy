/** The whole table as a value: conservation of tiles and the size of hands under each kind of move. */
module TableState {
  import opened Tiles
  import opened TableRules

  datatype Table = Table(wall: seq<int>, next: nat, seats: seq<Seat>, discards: seq<int>, turn: nat, multi: bool)

  /** Tiles of code `q` a player has, in hand or shown. */
  function Owns(s: Seat, q: int): nat {
    multiset(s.hand)[q] + ShownCount(s.groups, q)
  }

  function Owned(seats: seq<Seat>, q: int): nat
    requires |seats| == 4
  {
    Owns(seats[0], q) + Owns(seats[1], q) + Owns(seats[2], q) + Owns(seats[3], q)
  }

  ghost predicate Shape(t: Table) {
    |t.seats| == 4 && t.turn < 4 && t.next <= |t.wall| && forall v | v in t.wall :: 0 < v && Plain(v)
  }

  /** Tiles of code `q` that are undealt, owned by a player, or among the discards. */
  function Total(t: Table, q: int): nat
    requires |t.seats| == 4 && t.next <= |t.wall|
  {
    multiset(t.wall[t.next..])[q] + Owned(t.seats, q) + multiset(t.discards)[q]
  }

  /** Every tile of the wall is still there, and no other. */
  ghost predicate Conserved(t: Table)
    requires |t.seats| == 4 && t.next <= |t.wall|
  {
    forall q :: Total(t, q) == multiset(t.wall)[q]
  }

  /** Tiles in hand, counting each meld as three. */
  function Size(s: Seat): nat {
    |s.hand| + 3 * |s.groups|
  }

  /** Thirteen tiles for everyone. */
  predicate Thirteen(t: Table) {
    forall i | 0 <= i < |t.seats| :: Size(t.seats[i]) == 13
  }

  /** Fourteen for the player whose turn it is to act, thirteen for everyone else and while claims are pending. */
  predicate Sized(t: Table) {
    forall i | 0 <= i < |t.seats| :: Size(t.seats[i]) == if i == t.turn && !t.multi then 14 else 13
  }

  predicate Quiet(t: Table) {
    forall i | 0 <= i < |t.seats| :: !t.seats[i].waiting
  }

  /** Who may answer, and with what. */
  predicate Answering(t: Table) {
    if t.multi then
      t.discards != [] &&
      forall i | 0 <= i < |t.seats| && t.seats[i].waiting ::
        i != t.turn && ClaimFlags(t.seats[i], t.discards[|t.discards| - 1])
    else
      forall i | 0 <= i < |t.seats| && t.seats[i].waiting :: i == t.turn && t.seats[i].flags <= {ChuPai, AGang, HuPai}
  }

  ghost predicate TableOk(t: Table) {
    Shape(t) && Conserved(t) && Sized(t) && Answering(t)
  }

  predicate AllReal(t: Table) {
    forall i | 0 <= i < |t.seats| :: RealTiles(t.seats[i].hand)
  }

  lemma OwnedUpdate(seats: seq<Seat>, i: nat, s: Seat, q: int)
    requires |seats| == 4 && i < 4
    ensures Owned(seats[i := s], q) + Owns(seats[i], q) == Owned(seats, q) + Owns(s, q)
  {
  }

  /** Players hold real tiles only: nothing can be in a hand that is not in the wall. */
  lemma HandsReal(t: Table)
    requires Shape(t) && Conserved(t)
    ensures AllReal(t)
  {
    forall i, v | 0 <= i < 4 && v in t.seats[i].hand ensures v in t.wall {
      assert v in multiset(t.seats[i].hand);
      OwnedUpdate(t.seats, i, t.seats[i].(hand := [], groups := []), v);
      assert Total(t, v) == multiset(t.wall)[v];
      assert v in multiset(t.wall);
    }
  }

  // ----- draws -----

  /** The next tile of the wall goes to a player. */
  function Drawn(t: Table, i: nat): Table
    requires i < |t.seats| && t.next < |t.wall|
  {
    t.(next := t.next + 1, seats := t.seats[i := t.seats[i].(hand := t.seats[i].hand + [t.wall[t.next]], flags := {})])
  }

  lemma DrawConserves(t: Table, i: nat)
    requires Shape(t) && Conserved(t) && i < 4 && t.next < |t.wall|
    ensures Shape(Drawn(t, i)) && Conserved(Drawn(t, i))
  {
    var u := Drawn(t, i);
    forall q ensures Total(u, q) == multiset(u.wall)[q] {
      WallSplits(t, q);
      OwnedUpdate(t.seats, i, u.seats[i], q);
      assert Total(t, q) == multiset(t.wall)[q];
    }
  }

  // ----- moves -----

  /** The tiles of code `q` in a hand before and after: less what the taker pays, plus what is drawn. */
  ghost predicate Balances(s: Seat, s': Seat, taker: bool, op: Op, v: int, drawn: seq<int>, q: int) {
    multiset(s'.hand)[q] + (if taker then TakeCount(op, v, q) else 0) == multiset(s.hand)[q] + multiset(drawn)[q]
  }

  /** What a move does to one seat: the taker pays for the operation and shows the meld, the drawer gets a tile. */
  ghost predicate SeatMoves(s: Seat, s': Seat, taker: bool, op: Op, v: int, drawn: seq<int>) {
    && s'.groups == (if taker && IsMeld(op) then s.groups + [Group(op, v)] else s.groups)
    && |s'.hand| + (if taker then TakeSize(op) else 0) == |s.hand| + |drawn|
    && forall q :: Balances(s, s', taker, op, v, drawn, q)
  }

  lemma SeatTakes(s: Seat, s': Seat, op: Op, v: int)
    requires Taken(s.hand, s'.hand, op, v) && s'.groups == if IsMeld(op) then s.groups + [Group(op, v)] else s.groups
    ensures SeatMoves(s, s', true, op, v, [])
  {
    forall q ensures Balances(s, s', true, op, v, [], q) {}
  }

  lemma SeatSame(s0: Seat, s: Seat, s': Seat, s1: Seat, taker: bool, op: Op, v: int, drawn: seq<int>)
    requires SeatMoves(s, s', taker, op, v, drawn)
    requires s0.hand == s.hand && s0.groups == s.groups && s1.hand == s'.hand && s1.groups == s'.groups
    ensures SeatMoves(s0, s1, taker, op, v, drawn)
  {
    forall q ensures Balances(s0, s1, taker, op, v, drawn, q) {
      assert Balances(s, s', taker, op, v, drawn, q);
    }
  }

  lemma SeatDraws(s: Seat, s': Seat, s1: Seat, taker: bool, op: Op, v: int, x: int)
    requires SeatMoves(s, s', taker, op, v, []) && s1.hand == s'.hand + [x] && s1.groups == s'.groups
    ensures SeatMoves(s, s1, taker, op, v, [x])
  {
    forall q ensures Balances(s, s1, taker, op, v, [x], q) {
      assert Balances(s, s', taker, op, v, [], q);
    }
  }

  const NOBODY := -1

  function DrawnTile(t: Table, j: int, d: int): seq<int> {
    if j == d && t.next < |t.wall| then [t.wall[t.next]] else []
  }

  /** Whether `v` is the tile discarded last. */
  predicate Names(discards: seq<int>, v: int) {
    discards != [] && discards[|discards| - 1] == v
  }

  /** A discard is put down; a claim takes it up again, if it names it. */
  function DiscardsAfter(discards: seq<int>, op: Op, v: int): seq<int> {
    if op == ChuPai then discards + [v]
    else if IsClaim(op) && Names(discards, v) then discards[..|discards| - 1]
    else discards
  }

  /**
   * From `t` to `u`, player `i` carried out `op` on tile `v` and player `d` (or nobody) drew the next tile.
   * The order of tiles in a hand, who may answer and what is allowed are left open.
   */
  ghost predicate Moves(t: Table, u: Table, i: nat, op: Op, v: int, d: int) {
    && |t.seats| == 4 && |u.seats| == 4 && i < 4 && NOBODY <= d < 4
    && u.wall == t.wall
    && (d != NOBODY ==> t.next < |t.wall|)
    && u.next == t.next + (if d == NOBODY then 0 else 1)
    && u.discards == DiscardsAfter(t.discards, op, v)
    && forall j | 0 <= j < 4 :: SeatMoves(t.seats[j], u.seats[j], j == i, op, v, DrawnTile(t, j, d))
  }

  /** An operation carried out on the taker's hand is a move without a draw. */
  lemma TakenMoves(t: Table, i: nat, s': Seat, op: Op, v: int, discards: seq<int>)
    requires |t.seats| == 4 && i < 4 && Taken(t.seats[i].hand, s'.hand, op, v)
    requires s'.groups == if IsMeld(op) then t.seats[i].groups + [Group(op, v)] else t.seats[i].groups
    requires discards == DiscardsAfter(t.discards, op, v)
    ensures Moves(t, t.(seats := t.seats[i := s'], discards := discards), i, op, v, NOBODY)
  {
    SeatTakes(t.seats[i], s', op, v);
  }

  /** Only who answers and what is allowed differ. */
  predicate SameTiles(t: Table, u: Table) {
    && u.wall == t.wall && u.next == t.next && u.discards == t.discards && |t.seats| == |u.seats|
    && forall i | 0 <= i < |t.seats| :: t.seats[i].hand == u.seats[i].hand && t.seats[i].groups == u.seats[i].groups
  }

  /** The answers recorded last. */
  predicate SameAnswers(t: Table, u: Table) {
    |t.seats| == |u.seats| && forall i | 0 <= i < |t.seats| :: t.seats[i].answer == u.seats[i].answer
  }

  lemma MovesSame(t0: Table, t: Table, u: Table, u0: Table, i: nat, op: Op, v: int, d: int)
    requires SameTiles(t0, t) && Moves(t, u, i, op, v, d) && SameTiles(u, u0)
    ensures Moves(t0, u0, i, op, v, d)
  {
    forall j | 0 <= j < 4 ensures SeatMoves(t0.seats[j], u0.seats[j], j == i, op, v, DrawnTile(t0, j, d)) {
      SeatSame(t0.seats[j], t.seats[j], u.seats[j], u0.seats[j], j == i, op, v, DrawnTile(t, j, d));
    }
  }

  lemma MovesDraw(t: Table, m: Table, i: nat, op: Op, v: int, d: nat)
    requires Moves(t, m, i, op, v, NOBODY) && d < 4 && m.next < |m.wall|
    ensures Moves(t, Drawn(m, d), i, op, v, d)
  {
    var u := Drawn(m, d);
    forall j | 0 <= j < 4 ensures SeatMoves(t.seats[j], u.seats[j], j == i, op, v, DrawnTile(t, j, d)) {
      if j == d {
        SeatDraws(t.seats[j], m.seats[j], u.seats[j], j == i, op, v, t.wall[t.next]);
      }
    }
  }

  /** The taker owns what was owned before, less a discarded tile, plus a claimed one. */
  lemma SeatMovesOwns(s: Seat, s': Seat, taker: bool, op: Op, v: int, drawn: seq<int>, q: int)
    requires SeatMoves(s, s', taker, op, v, drawn) && IsDeal(op) && op != BGang
    ensures Owns(s', q) + (if taker && op == ChuPai && q == v then 1 else 0)
            == Owns(s, q) + multiset(drawn)[q] + if taker && IsClaim(op) && q == v then 1 else 0
    ensures Size(s') == Size(s) + |drawn|
                        + if !taker then 0
                          else if op == ChuPai || op == AGang then -1
                          else if IsChi(op) || op == Peng then 1 else 0
  {
    assert Balances(s, s', taker, op, v, drawn, q);
    if taker && IsMeld(op) {
      MeldShows(op, v, q);
      ShownAdd(s.groups, Group(op, v), q);
    }
  }

  lemma WallSplits(t: Table, q: int)
    requires t.next < |t.wall|
    ensures multiset(t.wall[t.next..])[q] == multiset(t.wall[t.next + 1..])[q] + if q == t.wall[t.next] then 1 else 0
  {
    assert t.wall[t.next..] == [t.wall[t.next]] + t.wall[t.next + 1..];
  }

  /** What the taker comes to own: a discarded tile less, a claimed tile more. */
  function Net(op: Op, v: int, q: int): int {
    if q != v then 0 else if op == ChuPai then -1 else if IsClaim(op) then 1 else 0
  }

  function Fresh(t: Table, d: int, q: int): nat {
    if d != NOBODY && t.next < |t.wall| && q == t.wall[t.next] then 1 else 0
  }

  lemma SeatGains(t: Table, u: Table, i: nat, op: Op, v: int, d: int, j: nat, q: int)
    requires Moves(t, u, i, op, v, d) && IsDeal(op) && op != BGang && j < 4
    ensures Owns(u.seats[j], q)
            == Owns(t.seats[j], q) + (if j == d then Fresh(t, d, q) else 0) + if j == i then Net(op, v, q) else 0
  {
    var drawn := DrawnTile(t, j, d);
    assert multiset(drawn)[q] == if j == d then Fresh(t, d, q) else 0;
    SeatMovesOwns(t.seats[j], u.seats[j], j == i, op, v, drawn, q);
  }

  /** What the players own together changes by the tile drawn, discarded or claimed. */
  lemma MovesOwned(t: Table, u: Table, i: nat, op: Op, v: int, d: int, q: int)
    requires Moves(t, u, i, op, v, d) && IsDeal(op) && op != BGang
    ensures Owned(u.seats, q) == Owned(t.seats, q) + Fresh(t, d, q) + Net(op, v, q)
  {
    SeatGains(t, u, i, op, v, d, 0, q);
    SeatGains(t, u, i, op, v, d, 1, q);
    SeatGains(t, u, i, op, v, d, 2, q);
    SeatGains(t, u, i, op, v, d, 3, q);
  }

  /** A claim on any other tile than the last discard makes a tile that was not there. */
  function Conjured(t: Table, op: Op, v: int, q: int): nat {
    if IsClaim(op) && !Names(t.discards, v) && q == v then 1 else 0
  }

  lemma DiscardsGain(discards: seq<int>, op: Op, v: int, q: int)
    ensures multiset(DiscardsAfter(discards, op, v))[q] + Net(op, v, q)
            == multiset(discards)[q] + if IsClaim(op) && !Names(discards, v) && q == v then 1 else 0
  {
    if IsClaim(op) && Names(discards, v) {
      assert discards == discards[..|discards| - 1] + [v];
    }
  }

  lemma MovesTotal(t: Table, u: Table, i: nat, op: Op, v: int, d: int, q: int)
    requires t.next <= |t.wall| && Moves(t, u, i, op, v, d) && IsDeal(op) && op != BGang
    ensures u.next <= |u.wall| && Total(u, q) == Total(t, q) + Conjured(t, op, v, q)
  {
    MovesOwned(t, u, i, op, v, d, q);
    DiscardsGain(t.discards, op, v, q);
    if d != NOBODY {
      WallSplits(t, q);
    }
  }

  /** A move keeps how many of each tile there are, exactly unless it claims another tile than the last discard. */
  lemma MovesConserve(t: Table, u: Table, i: nat, op: Op, v: int, d: int)
    requires t.next <= |t.wall| && Moves(t, u, i, op, v, d) && Conserved(t) && IsDeal(op) && op != BGang
    ensures u.next <= |u.wall|
    ensures Conserved(u) <==> (IsClaim(op) ==> Names(t.discards, v))
  {
    forall q ensures Total(u, q) == multiset(u.wall)[q] + Conjured(t, op, v, q) {
      MovesTotal(t, u, i, op, v, d, q);
      assert Total(t, q) == multiset(t.wall)[q];
    }
    assert Conjured(t, op, v, v) == if IsClaim(op) && !Names(t.discards, v) then 1 else 0;
  }

  lemma SeatReal(s: Seat, s': Seat, taker: bool, op: Op, v: int, drawn: seq<int>)
    requires SeatMoves(s, s', taker, op, v, drawn) && RealTiles(s.hand) && RealTiles(drawn)
    ensures RealTiles(s'.hand)
  {
    forall q | q in s'.hand ensures q in s.hand || q in drawn {
      assert Balances(s, s', taker, op, v, drawn, q);
      assert q in multiset(s'.hand);
      assert q in multiset(s.hand) || q in multiset(drawn);
    }
  }

  /** A move brings only tiles of the wall into the hands. */
  lemma MovesReal(t: Table, u: Table, i: nat, op: Op, v: int, d: int)
    requires Shape(t) && AllReal(t) && Moves(t, u, i, op, v, d)
    ensures AllReal(u)
  {
    forall j | 0 <= j < 4 ensures RealTiles(u.seats[j].hand) {
      assert RealTiles(DrawnTile(t, j, d));
      SeatReal(t.seats[j], u.seats[j], j == i, op, v, DrawnTile(t, j, d));
    }
  }

  /** A claimant of a chi or peng keeps tiles to discard from. */
  lemma ClaimLeaves(t: Table, m: Table, i: nat, op: Op, v: int)
    requires Moves(t, m, i, op, v, NOBODY) && (IsChi(op) || op == Peng) && Size(t.seats[i]) == 13
    ensures |m.seats[i].hand| > 0
  {
    assert SeatMoves(t.seats[i], m.seats[i], true, op, v, []);
  }

  // ----- questions -----

  /** Just asked: the player to act about its own turn, or everyone but the discarder about the last discard. */
  ghost predicate Told(t: Table, lz: nat) {
    && |t.seats| == 4 && t.turn < 4 && lz < KINDS && AllReal(t)
    && if t.multi then ToldOthers(t, lz) else OwnOffers(t.seats[t.turn], lz)
  }

  ghost predicate ToldOthers(t: Table, lz: nat)
    requires |t.seats| == 4 && t.turn < 4 && lz < KINDS && AllReal(t)
  {
    && t.discards != [] && t.discards[|t.discards| - 1] > 0 && Plain(t.discards[|t.discards| - 1])
    && !Quiet(t)
    && forall j | 0 <= j < 4 && j != t.turn :: Offers(t.seats[j], t.discards[|t.discards| - 1], lz)
  }

  /** After a discard by `who` the first `n` players have been asked; `any` when one of them has a claim. */
  ghost predicate Asked(t: Table, u: Table, who: nat, n: nat, v: nat, lz: nat, any: bool)
    requires AllReal(t) && Plain(v) && v > 0 && lz < KINDS
  {
    && |t.seats| == 4 && who < 4 && n <= 4 && SameTiles(t, u) && SameAnswers(t, u)
    && u.turn == t.turn && u.seats[who] == t.seats[who] && u.multi == (t.multi || any)
    && (forall k | 0 <= k < n && k != who :: Offers(u.seats[k], v, lz))
    && (any <==> exists k | 0 <= k < n :: k != who && u.seats[k].waiting)
  }

  lemma AskStep(t: Table, u: Table, who: nat, n: nat, v: nat, lz: nat, any: bool, s: Seat)
    requires AllReal(t) && Plain(v) && v > 0 && lz < KINDS
    requires Asked(t, u, who, n, v, lz, any) && n < 4 && n != who
    requires s == u.seats[n].(flags := s.flags, waiting := s.waiting) && Offers(s, v, lz)
    ensures Asked(t, u.(seats := u.seats[n := s], multi := u.multi || s.waiting), who, n + 1, v, lz, any || s.waiting)
  {
    var w := u.(seats := u.seats[n := s], multi := u.multi || s.waiting);
    assert w.seats[n] == s;
    assert forall k | 0 <= k < n :: w.seats[k] == u.seats[k];
  }

  /** Whether anybody but the discarder can claim the tile. */
  ghost predicate Claimable(t: Table, who: nat, v: nat, lz: nat)
    requires AllReal(t) && Plain(v) && v > 0 && lz < KINDS
  {
    exists j | 0 <= j < |t.seats| :: j != who && HasClaim(t.seats[j].hand, v, lz)
  }

  /** When everyone has been asked: claims are pending exactly when there is one, or else nobody is waited for. */
  lemma AskedAll(t: Table, u: Table, v: nat, lz: nat, any: bool)
    requires Shape(t) && AllReal(t) && Plain(v) && v > 0 && lz < KINDS && Asked(t, u, t.turn, 4, v, lz, any)
    requires Quiet(t) && !t.multi && t.discards != [] && t.discards[|t.discards| - 1] == v
    ensures any <==> Claimable(t, t.turn, v, lz)
    ensures Shape(u) && AllReal(u)
    ensures if any then Answering(u) && Told(u, lz) else Quiet(u)
  {
    forall j | 0 <= j < 4 && j != t.turn
      ensures u.seats[j].waiting <==> HasClaim(t.seats[j].hand, v, lz)
      ensures ClaimFlags(u.seats[j], v)
    {
      OffersMean(u.seats[j], v, lz);
    }
  }
}
