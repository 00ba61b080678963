/** A game in which a claim is overridden by a player who passes after it. */
module RivalClaims {
  import opened Tiles
  import opened WinningHand
  import opened SevenPairs
  import opened StatlzModel
  import opened WinningPatterns
  import opened TableRules
  import opened TableState
  import opened TableSteps
  import opened TableRuns
  import opened Arbitration
  import opened DealModel
  import opened Walls
  import opened RoomModel

  // ----- hands that do not win -----

  predicate OddlyHeld(c: Counts, q: nat)
    requires q < KINDS
  {
    q == LAIZI || (c[q] != 2 && c[q] != 4)
  }

  lemma {:induction false} NoPairs(c: Counts, i: nat)
    requires i <= KINDS && forall q | 0 <= q < KINDS :: OddlyHeld(c, q)
    ensures PairsFrom(c, i, 0) == 0
    decreases KINDS - i
  {
    if i < KINDS {
      assert OddlyHeld(c, i);
      NoPairs(c, i + 1);
    }
  }

  /** A hand without wild tiles that holds a single honour and no kind twice or four times does not win. */
  lemma DullLoses(c: Counts, h: int)
    requires Hand(c) && c[LAIZI] == 0 && c[40] == 0 && 1 <= h <= 7 && c[h] == 1
    requires forall q | 0 <= q < KINDS :: OddlyHeld(c, q)
    ensures !Winning(c, [])
  {
    WinningNoWild(c, []);
    NoPairs(c, 0);
    forall i, m ensures !Splits(c, i, m) {}
    assert !IsJiang(h);
  }

  /** A hand like that, to which a 21 makes no difference. */
  predicate Dull(hand: seq<int>, lz: nat) {
    && RealTiles(hand) && lz !in hand && (exists h | 1 <= h <= 7 :: multiset(hand)[h] == 1)
    && forall q | 0 <= q < KINDS :: multiset(hand)[q] + (if q == 21 then 1 else 0) !in {2, 4}
  }

  /** Player 0 holds a 21; player 1 two more; player 2 can take it for a run; player 3 has no claim; nobody wins. */
  predicate Rivals(t: Table, lz: nat) {
    && |t.seats| == 4 && t.turn == 0 && !t.multi && t.discards == [] && !WallSpent(t)
    && 0 < lz < KINDS && lz != 21 && 21 in t.seats[0].hand
    && Dull(t.seats[1].hand, lz) && Dull(t.seats[2].hand, lz) && Dull(t.seats[3].hand, lz)
    && multiset(t.seats[1].hand)[21] == 2
    && 22 in t.seats[2].hand && 23 in t.seats[2].hand
    && 20 !in t.seats[3].hand && 21 !in t.seats[3].hand && 22 !in t.seats[3].hand
    && forall j | 0 <= j < 4 :: OpenSeat(t.seats[j], j == 0)
  }

  lemma DullHandLoses(hand: seq<int>, lz: nat)
    requires Dull(hand, lz) && 0 < lz < KINDS && lz != 21
    ensures !Winning(HandCounts(hand, 21, lz), [])
  {
    var c := HandCounts(hand, 21, lz);
    NoFlowers(hand, 21, lz);
    assert lz !in multiset(hand) && LAIZI !in hand && LAIZI !in multiset(hand);
    var h :| 1 <= h <= 7 && multiset(hand)[h] == 1;
    assert h in multiset(hand) && h != lz;
    forall q | 0 <= q < KINDS ensures OddlyHeld(c, q) {
      assert multiset(hand)[q] + (if q == 21 then 1 else 0) !in {2, 4};
    }
    DullLoses(c, h);
  }

  // ----- what the players are offered -----

  lemma OfferedPeng(s: Seat, lz: nat)
    requires Dull(s.hand, lz) && 0 < lz < KINDS && lz != 21 && multiset(s.hand)[21] == 2 && Offers(s, 21, lz)
    ensures s.waiting && Peng in s.flags && HuPai !in s.flags
  {
    assert OfferRight(s, Peng, 21, lz) && OfferRight(s, HuPai, 21, lz);
    DullHandLoses(s.hand, lz);
  }

  lemma OfferedChi(s: Seat, lz: nat)
    requires Dull(s.hand, lz) && 0 < lz < KINDS && lz != 21 && 22 in s.hand && 23 in s.hand && Offers(s, 21, lz)
    ensures s.waiting && GuoPai in s.flags && LChi in s.flags && HuPai !in s.flags
  {
    assert 22 in multiset(s.hand) && 23 in multiset(s.hand);
    assert OfferRight(s, LChi, 21, lz) && OfferRight(s, HuPai, 21, lz) && OfferRight(s, GuoPai, 21, lz);
    DullHandLoses(s.hand, lz);
  }

  lemma OfferedNothing(s: Seat, lz: nat)
    requires Dull(s.hand, lz) && 0 < lz < KINDS && lz != 21 && Offers(s, 21, lz)
    requires 20 !in s.hand && 21 !in s.hand && 22 !in s.hand
    ensures !s.waiting && s.flags == {}
  {
    assert forall q | 20 <= q <= 22 :: q !in s.hand && q !in multiset(s.hand);
    DullHandLoses(s.hand, lz);
    forall op ensures op !in s.flags {
      assert OfferRight(s, op, 21, lz);
    }
  }

  // ----- the three requests -----

  /** A 21 is discarded, player 1 asks for it, player 2 passes. */
  const REQUESTS: seq<Request> := [(0, ChuPai, 21), (1, Peng, 21), (2, GuoPai, 0)]

  /** The 21 is on the table: player 1 may take it for a peng, player 2 for a run, and nobody can win with it. */
  predicate Claimed(u: Table) {
    && |u.seats| == 4 && u.turn == 0 && u.multi && u.discards == [21] && !WallSpent(u)
    && Accepted(u, 1, Peng) && CanTake(u.seats[1].hand, Peng, 21)
    && Accepted(u, 2, GuoPai) && LChi in u.seats[2].flags
    && !u.seats[0].waiting && !u.seats[3].waiting
    && (forall j | 0 < j < 4 :: HuPai !in u.seats[j].flags && u.seats[j].answer == FaPai)
    && u.seats[0].answer == ChuPai && u.seats[1].groups == [] && |u.seats[1].hand| == 13
  }

  lemma SameDull(s: Seat, s': Seat, lz: nat)
    requires SeatMoves(s, s', false, ChuPai, 21, []) && Dull(s.hand, lz)
    ensures Dull(s'.hand, lz) && multiset(s.hand) == multiset(s'.hand) && forall q :: q in s'.hand <==> q in s.hand
  {
    forall q ensures multiset(s.hand)[q] == multiset(s'.hand)[q] {
      assert Balances(s, s', false, ChuPai, 21, [], q);
    }
    assert multiset(s.hand) == multiset(s'.hand);
    forall q ensures q in s'.hand <==> q in s.hand {
      assert q in s'.hand <==> q in multiset(s'.hand);
      assert q in s.hand <==> q in multiset(s.hand);
    }
  }

  lemma DealerDiscards(t: Table, lz: nat)
    requires Rivals(t, lz) && Told(t, lz)
    ensures Accepted(t, 0, ChuPai) && !OthersAwaited(t, 0) && CanTake(t.seats[0].hand, ChuPai, 21)
    ensures Claimable(t, 0, 21, lz)
  {
    assert OwnRight(t.seats[0], ChuPai, lz);
    assert 21 in multiset(t.seats[0].hand);
    assert Offered(t.seats[1].hand, Peng, 21, lz);
    assert HasClaim(t.seats[1].hand, 21, lz);
  }

  lemma Discarded(t: Table, u: Table, over: bool, lz: nat)
    requires Rivals(t, lz) && Told(t, lz) && Heard(t, u, over, 0, ChuPai, 21, lz)
    ensures !over && u.multi && u.turn == 0 && Moves(t, u, 0, ChuPai, 21, NOBODY)
    ensures Told(u, lz) && SameAnswers(Answered(t, 0, ChuPai), u)
  {
    DealerDiscards(t, lz);
  }

  lemma PutToOthers(t: Table, u: Table, lz: nat)
    requires Rivals(t, lz) && Moves(t, u, 0, ChuPai, 21, NOBODY) && Told(u, lz) && u.multi && u.turn == 0
    ensures u.discards == [21] && !WallSpent(u) && u.seats[1].groups == [] && |u.seats[1].hand| == |t.seats[1].hand|
    ensures u.seats[1].waiting && Peng in u.seats[1].flags && multiset(u.seats[1].hand)[21] == 2
    ensures u.seats[2].waiting && {GuoPai, LChi} <= u.seats[2].flags && !u.seats[3].waiting
    ensures forall j | 0 < j < 4 :: HuPai !in u.seats[j].flags
  {
    SameDull(t.seats[1], u.seats[1], lz);
    SameDull(t.seats[2], u.seats[2], lz);
    SameDull(t.seats[3], u.seats[3], lz);
    OfferedPeng(u.seats[1], lz);
    OfferedChi(u.seats[2], lz);
    OfferedNothing(u.seats[3], lz);
  }

  lemma FirstRequest(t: Table, u: Table, over: bool, lz: nat)
    requires Rivals(t, lz) && Sized(t) && Told(t, lz) && Heard(t, u, over, 0, ChuPai, 21, lz)
    requires !over ==> Answering(u)
    ensures !over && Claimed(u)
  {
    Discarded(t, u, over, lz);
    PutToOthers(t, u, lz);
    assert Size(t.seats[1]) == 13;
  }

  lemma SecondRequest(t: Table, u: Table, over: bool, lz: nat)
    requires Claimed(t) && Heard(t, u, over, 1, Peng, 21, lz)
    ensures !over && u == Answered(t, 1, Peng)
  {
    assert t.seats[2].waiting;
  }

  lemma ThirdRequest(t: Table, u: Table, over: bool, lz: nat)
    requires Claimed(t) && Heard(Answered(t, 1, Peng), u, over, 2, GuoPai, 0, lz)
    ensures |u.seats| == 4
    ensures !over && u.turn == 1 && u.discards == [21] && u.seats[1].groups == [] && |u.seats[1].hand| == 14
  {
    var m := Answered(t, 1, Peng);
    assert !OthersAwaited(m, 2);
    assert SeatMoves(m.seats[1], u.seats[1], false, GuoPai, 0, DrawnTile(m, 1, 1));
  }

  /** By the ranking player 1's claim comes before player 2's passing. */
  lemma PengPreferred(t: Table)
    requires Claimed(t)
    ensures Preferred(Answered(Answered(t, 1, Peng), 2, GuoPai), 1)
  {
  }

  ghost predicate RivalRun(ts: seq<Table>, over: bool, lz: nat) {
    && Ran(ts, REQUESTS, over, lz) && Finished(ts, REQUESTS, over)
    && Rivals(ts[0], lz) && TableOk(ts[0]) && Told(ts[0], lz)
  }

  lemma FirstHeard(ts: seq<Table>, over: bool, lz: nat)
    requires RivalRun(ts, over, lz)
    ensures |ts| > 1 && !OverAt(ts, over, 0) && Claimed(ts[1])
  {
    RunGoesOn(ts, REQUESTS, over, lz, 0);
    FirstRequest(ts[0], ts[1], OverAt(ts, over, 0), lz);
  }

  lemma SecondHeard(ts: seq<Table>, over: bool, lz: nat)
    requires RivalRun(ts, over, lz)
    ensures |ts| > 2 && !OverAt(ts, over, 1) && Claimed(ts[1]) && ts[2] == Answered(ts[1], 1, Peng)
  {
    FirstHeard(ts, over, lz);
    RunGoesOn(ts, REQUESTS, over, lz, 1);
    SecondRequest(ts[1], ts[2], OverAt(ts, over, 1), lz);
  }

  /**
   * Every such game: player 1 is offered the peng and asks for it, which the ranking prefers once player 2 has passed;
   * but player 1 gets no meld and draws a tile instead.
   */
  lemma PengOverridden(ts: seq<Table>, over: bool, lz: nat)
    requires RivalRun(ts, over, lz)
    ensures |ts| == 4 && !over && Claimed(ts[1]) && ts[2] == Answered(ts[1], 1, Peng)
    ensures Preferred(Answered(ts[2], 2, GuoPai), 1)
    ensures |ts[3].seats| == 4
    ensures ts[3].turn == 1 && ts[3].seats[1].groups == [] && |ts[3].seats[1].hand| == 14 && ts[3].discards == [21]
  {
    SecondHeard(ts, over, lz);
    PengPreferred(ts[1]);
    RunGoesOn(ts, REQUESTS, over, lz, 2);
    ThirdRequest(ts[1], ts[3], OverAt(ts, over, 2), lz);
  }

  // ----- such a game -----

  function DealerHand(): (s: seq<int>)
    ensures |s| == 14
  {
    Codes(21, 22) + Codes(24, 30) + Codes(6, 8) + Codes(1, 3) + Codes(7, 8) + Codes(11, 13)
  }

  function PengHand(): (s: seq<int>)
    ensures |s| == 13
  {
    Codes(21, 30) + Codes(21, 22) + Codes(1, 4)
  }

  function ChiHand(): (s: seq<int>)
    ensures |s| == 13
  {
    Codes(22, 24) + Codes(11, 20) + Codes(4, 6)
  }

  function IdleHand(): (s: seq<int>)
    ensures |s| == 13
  {
    Codes(31, 40) + Codes(3, 7)
  }

  function Undealt(): (s: seq<int>)
    ensures |s| == UNDEALT && s[5] == 6
  {
    Codes(1, 8) + Codes(1, 8) + Codes(13, 20) + Codes(11, 20) + Codes(11, 20) + Codes(22, 30) + Codes(21, 30)
    + Codes(31, 40) + Codes(31, 40) + Codes(31, 40)
  }

  // How many tiles of each code these hold.

  function DealerHas(q: int): nat {
    Within(21, 22, q) + Within(24, 30, q) + Within(6, 8, q) + Within(1, 3, q) + Within(7, 8, q) + Within(11, 13, q)
  }

  function PengHas(q: int): nat {
    Within(21, 30, q) + Within(21, 22, q) + Within(1, 4, q)
  }

  function ChiHas(q: int): nat {
    Within(22, 24, q) + Within(11, 20, q) + Within(4, 6, q)
  }

  function IdleHas(q: int): nat {
    Within(31, 40, q) + Within(3, 7, q)
  }

  function UndealtHas(q: int): nat {
    Within(22, 30, q) + Within(13, 20, q) + 2 * Within(1, 8, q) + 2 * Within(11, 20, q) + Within(21, 30, q)
    + 3 * Within(31, 40, q)
  }

  lemma DealerCounts(q: int)
    ensures multiset(DealerHand())[q] == DealerHas(q)
  {
    CodesCount(21, 22, q);
    CodesCount(24, 30, q);
    CodesCount(6, 8, q);
    CodesCount(1, 3, q);
    CodesCount(7, 8, q);
    CodesCount(11, 13, q);
  }

  lemma PengCounts(q: int)
    ensures multiset(PengHand())[q] == PengHas(q)
  {
    CodesCount(21, 30, q);
    CodesCount(21, 22, q);
    CodesCount(1, 4, q);
  }

  lemma ChiCounts(q: int)
    ensures multiset(ChiHand())[q] == ChiHas(q)
  {
    CodesCount(22, 24, q);
    CodesCount(11, 20, q);
    CodesCount(4, 6, q);
  }

  lemma IdleCounts(q: int)
    ensures multiset(IdleHand())[q] == IdleHas(q)
  {
    CodesCount(31, 40, q);
    CodesCount(3, 7, q);
  }

  lemma UndealtCounts(q: int)
    ensures multiset(Undealt())[q] == UndealtHas(q)
  {
    CodesCount(1, 8, q);
    CodesCount(13, 20, q);
    CodesCount(11, 20, q);
    CodesCount(22, 30, q);
    CodesCount(21, 30, q);
    CodesCount(31, 40, q);
  }

  /** The full set of tiles, as it might lie after shuffling. */
  function RivalWall(): (w: seq<int>)
    ensures |w| == WALL_SIZE
  {
    Arranged(DealerHand(), PengHand(), ChiHand(), IdleHand(), Undealt())
  }

  lemma HasFour(a: seq<int>, b: seq<int>, c: seq<int>, d: seq<int>, rest: seq<int>)
    requires Hands(a, b, c, d, rest)
    requires forall q :: multiset(a)[q] == DealerHas(q)
    requires forall q :: multiset(b)[q] == PengHas(q)
    requires forall q :: multiset(c)[q] == ChiHas(q)
    requires forall q :: multiset(d)[q] == IdleHas(q)
    requires forall q :: multiset(rest)[q] == UndealtHas(q)
    ensures FullSet(Arranged(a, b, c, d, rest))
  {
    ArrangedFull(a, b, c, d, rest);
  }

  lemma RivalWallFull()
    ensures FullSet(RivalWall())
  {
    forall q ensures multiset(DealerHand())[q] == DealerHas(q) {
      DealerCounts(q);
    }
    forall q ensures multiset(PengHand())[q] == PengHas(q) {
      PengCounts(q);
    }
    forall q ensures multiset(ChiHand())[q] == ChiHas(q) {
      ChiCounts(q);
    }
    forall q ensures multiset(IdleHand())[q] == IdleHas(q) {
      IdleCounts(q);
    }
    forall q ensures multiset(Undealt())[q] == UndealtHas(q) {
      UndealtCounts(q);
    }
    HasFour(DealerHand(), PengHand(), ChiHand(), IdleHand(), Undealt());
  }

  const WILD := 7  // the tile after the one turned up

  lemma CountedIn(s: seq<int>, q: int)
    ensures q in s <==> multiset(s)[q] > 0
  {
    assert q in s <==> q in multiset(s);
  }

  lemma PengHandDull()
    ensures Dull(PengHand(), WILD) && multiset(PengHand())[21] == 2
  {
    var s := PengHand();
    forall q ensures multiset(s)[q] == PengHas(q) && (q in s <==> PengHas(q) > 0) {
      PengCounts(q);
      CountedIn(s, q);
    }
    assert PengHas(1) == 1;
  }

  lemma ChiHandDull()
    ensures Dull(ChiHand(), WILD) && 22 in ChiHand() && 23 in ChiHand()
  {
    var s := ChiHand();
    forall q ensures multiset(s)[q] == ChiHas(q) && (q in s <==> ChiHas(q) > 0) {
      ChiCounts(q);
      CountedIn(s, q);
    }
    assert ChiHas(4) == 1;
  }

  lemma IdleHandDull()
    ensures Dull(IdleHand(), WILD) && forall q | 20 <= q <= 22 :: q !in IdleHand()
  {
    var s := IdleHand();
    forall q ensures multiset(s)[q] == IdleHas(q) && (q in s <==> IdleHas(q) > 0) {
      IdleCounts(q);
      CountedIn(s, q);
    }
    assert IdleHas(3) == 1;
  }

  lemma RivalHands(t: Table, lz: nat)
    requires t.turn == 0 && Opened(t, RivalWall(), lz)
    ensures t.seats[0].hand == DealerHand() && t.seats[1].hand == PengHand()
    ensures t.seats[2].hand == ChiHand() && t.seats[3].hand == IdleHand()
  {
    OpenedHands(t, DealerHand(), PengHand(), ChiHand(), IdleHand(), Undealt(), lz);
  }

  /** The game opened with this wall is one of rivals. */
  lemma RivalsOpened(t: Table)
    requires t.turn == 0 && Opened(t, RivalWall(), WILD)
    ensures Rivals(t, WILD)
  {
    RivalHands(t, WILD);
    RivalSeats(t.seats[0].hand, t.seats[1].hand, t.seats[2].hand, t.seats[3].hand);
  }

  lemma RivalSeats(a: seq<int>, b: seq<int>, c: seq<int>, d: seq<int>)
    requires a == DealerHand() && b == PengHand() && c == ChiHand() && d == IdleHand()
    ensures 21 in a && Dull(b, WILD) && multiset(b)[21] == 2
    ensures Dull(c, WILD) && 22 in c && 23 in c && Dull(d, WILD) && 20 !in d && 21 !in d && 22 !in d
  {
    PengHandDull();
    ChiHandDull();
    IdleHandDull();
    assert a[0] == 21;
  }

  lemma RivalWild()
    ensures RealTiles(RivalWall()) && GetLaizi(TurnedUp(RivalWall(), 6, 6)) == WILD
  {
    RivalWallFull();
    FullSetReal(RivalWall());
    assert RivalWall()[58] == RivalWall()[DEALT..][5];
  }

  /** Such a game is played: the claim that the ranking prefers is recorded, and comes to nothing. */
  method Override() returns (r: Room, ghost ts: seq<Table>)
    ensures Ran(ts, REQUESTS, r.over, WILD) && |ts| == 4 && FullSet(ts[0].wall) && Opened(ts[0], ts[0].wall, WILD)
    ensures Claimed(ts[1]) && ts[2] == Answered(ts[1], 1, Peng) && Preferred(Answered(ts[2], 2, GuoPai), 1)
    ensures r.Four() && r.T() == ts[3] && !r.over && r.turn == 1 && r.users[1].mjGroup == []
  {
    r := new Room();
    RivalWallFull();
    RivalWild();
    ts := r.Play(RivalWall(), 6, 6, REQUESTS);
    RivalsOpened(ts[0]);
    PengOverridden(ts, r.over, WILD);
    assert ts[3].seats[1] == r.users[1].View();
  }
}
