/** Whole runs of requests: what every run keeps, and exactly when it keeps it. */
module TableRuns {
  import opened Chains
  import opened Tiles
  import opened TableRules
  import opened TableState
  import opened TableSteps
  import opened Arbitration

  /** Which player asks for what, on which tile. */
  type Request = (nat, Op, int)

  /** A request that does not draw past the end of the wall. */
  predicate Playable(t: Table, r: Request) {
    Accepted(t, r.0, r.1) ==> Drawable(t, r.1)
  }

  /** One request, made on a table in order. */
  ghost predicate Stepped(t: Table, u: Table, over: bool, r: Request, lz: nat) {
    Orderly(t) && Playable(t, r) && Heard(t, u, over, r.0, r.1, r.2, lz) && Sane(t, u, over, r.0, r.1, r.2)
  }

  /** Step `k` of a run; only the last one can end the game. */
  ghost predicate StepAt(ts: seq<Table>, rs: seq<Request>, over: bool, lz: nat, k: nat)
    requires k + 1 < |ts| <= |rs| + 1
  {
    Stepped(ts[k], ts[k + 1], over && k == |ts| - 2, rs[k], lz)
  }

  /** The tables a run goes through: each step hears the next request, and the game can only end with the last one. */
  ghost predicate Ran(ts: seq<Table>, rs: seq<Request>, over: bool, lz: nat) {
    && 0 < |ts| <= |rs| + 1 && (over ==> |ts| > 1)
    && forall k | 0 <= k < |ts| - 1 :: StepAt(ts, rs, over, lz, k)
  }

  /** Why a run ends: no request is left, or the game is over, or the next request cannot be made. */
  predicate Finished(ts: seq<Table>, rs: seq<Request>, over: bool)
    requires 0 < |ts| <= |rs| + 1
  {
    over || |ts| == |rs| + 1 || !Playable(ts[|ts| - 1], rs[|ts| - 1])
  }

  lemma RanOn(ts: seq<Table>, rs: seq<Request>, u: Table, over: bool, lz: nat)
    requires Ran(ts, rs, false, lz) && |ts| <= |rs|
    requires Stepped(ts[|ts| - 1], u, over, rs[|ts| - 1], lz)
    ensures Ran(ts + [u], rs, over, lz)
  {
    var us := ts + [u];
    var n := |ts| - 1;
    assert us[n] == ts[n] && us[n + 1] == u;
    forall k | 0 <= k < |us| - 1 ensures StepAt(us, rs, over, lz, k) {
      if k < n {
        assert StepAt(ts, rs, false, lz, k);
        assert us[k] == ts[k] && us[k + 1] == ts[k + 1];
      }
    }
  }

  /** A run without its last step. */
  lemma RanUpTo(ts: seq<Table>, rs: seq<Request>, over: bool, lz: nat)
    requires Ran(ts, rs, over, lz) && |ts| > 1
    ensures var n := |ts| - 1;
      Ran(ts[..n], rs, false, lz) && Stepped(ts[n - 1], ts[n], over, rs[n - 1], lz)
  {
    var n := |ts| - 1;
    forall k | 0 <= k < n - 1 ensures StepAt(ts[..n], rs, false, lz, k) {
      assert StepAt(ts, rs, over, lz, k);
    }
    assert StepAt(ts, rs, over, lz, n - 1);
  }

  /** Whether the game is over after step `k`. */
  predicate OverAt(ts: seq<Table>, over: bool, k: nat) {
    over && k + 2 == |ts|
  }

  /** A finished run has not stopped at a table from which the next request can be made. */
  lemma RunGoesOn(ts: seq<Table>, rs: seq<Request>, over: bool, lz: nat, k: nat)
    requires Ran(ts, rs, over, lz) && Finished(ts, rs, over) && k < |ts| && k < |rs| && Playable(ts[k], rs[k])
    requires |ts| == k + 1 ==> !over
    ensures k + 1 < |ts|
    ensures Heard(ts[k], ts[k + 1], OverAt(ts, over, k), rs[k].0, rs[k].1, rs[k].2, lz)
    ensures !OverAt(ts, over, k) ==> Answering(ts[k + 1])
  {
    assert StepAt(ts, rs, over, lz, k);
  }

  // ----- turns -----

  /** The request is carried out: nobody else is awaited, and the hand can pay for it. */
  predicate Decides(t: Table, r: Request) {
    Accepted(t, r.0, r.1) && !OthersAwaited(t, r.0) && CanTake(t.seats[r.0].hand, r.1, r.2)
  }

  /** A discard that nobody claims, or the last of the players who pass on one. */
  predicate PassesTurn(t: Table, u: Table, r: Request) {
    Decides(t, r) && (r.1 == GuoPai || (r.1 == ChuPai && !u.multi))
  }

  lemma StepTurn(t: Table, u: Table, r: Request, lz: nat)
    requires Stepped(t, u, false, r, lz)
    ensures t.turn < 4 && u.turn < 4
    ensures PassesTurn(t, u, r) ==> Distance(t.turn, u.turn) == 1
    ensures Decides(t, r) && IsClaim(r.1) ==> u.turn == r.0
    ensures !PassesTurn(t, u, r) && !(Decides(t, r) && IsClaim(r.1)) ==> u.turn == t.turn
  {
    if PassesTurn(t, u, r) {
      TurnPasses(t, u, false, r.0, r.1, r.2);
    }
  }

  /** A claim is carried out. */
  predicate Claims(t: Table, r: Request) {
    Decides(t, r) && IsClaim(r.1)
  }

  predicate ClaimAt(ts: seq<Table>, rs: seq<Request>, k: nat)
    requires k < |ts| && k < |rs|
  {
    Claims(ts[k], rs[k])
  }

  /** How often the turn has passed on in a run. */
  function Passes(ts: seq<Table>, rs: seq<Request>): nat
    requires 0 < |ts| <= |rs| + 1
  {
    var n := |ts| - 1;
    if n == 0 then 0 else Passes(ts[..n], rs) + if PassesTurn(ts[n - 1], ts[n], rs[n - 1]) then 1 else 0
  }

  ghost predicate NoClaims(ts: seq<Table>, rs: seq<Request>)
    requires |ts| <= |rs| + 1
  {
    forall k | 0 <= k < |ts| - 1 :: !ClaimAt(ts, rs, k)
  }

  /** The turn goes round the table: as long as no claim is carried out, each time it passes the next seat has it. */
  lemma {:induction false} TurnGoesRound(ts: seq<Table>, rs: seq<Request>, lz: nat)
    requires Ran(ts, rs, false, lz) && ts[0].turn < 4 && NoClaims(ts, rs)
    ensures ts[|ts| - 1].turn == (ts[0].turn + Passes(ts, rs)) % 4
  {
    var n := |ts| - 1;
    if n > 0 {
      var less := ts[..n];
      WithoutLast(ts, rs, lz);
      TurnGoesRound(less, rs, lz);
      GoOn(ts[0].turn, Passes(less, rs), less[n - 1].turn, Passes(ts, rs) - Passes(less, rs));
    }
  }

  lemma WithoutLast(ts: seq<Table>, rs: seq<Request>, lz: nat)
    requires Ran(ts, rs, false, lz) && NoClaims(ts, rs) && |ts| > 1
    ensures var n := |ts| - 1;
      && Ran(ts[..n], rs, false, lz) && NoClaims(ts[..n], rs) && Passes(ts, rs) >= Passes(ts[..n], rs)
      && ts[n].turn == (ts[n - 1].turn + (Passes(ts, rs) - Passes(ts[..n], rs))) % 4
  {
    var n := |ts| - 1;
    RanUpTo(ts, rs, false, lz);
    forall k | 0 <= k < n - 1 ensures !ClaimAt(ts[..n], rs, k) {
      assert !ClaimAt(ts, rs, k);
    }
    assert !ClaimAt(ts, rs, n - 1);
    StepPlace(ts[n - 1], ts[n], rs[n - 1], lz);
  }

  lemma GoOn(start: nat, passes: nat, turn: nat, more: nat)
    requires turn == (start + passes) % 4
    ensures (turn + more) % 4 == (start + (passes + more)) % 4
  {
  }

  lemma StepPlace(t: Table, u: Table, r: Request, lz: nat)
    requires Stepped(t, u, false, r, lz) && !Claims(t, r)
    ensures u.turn == (t.turn + if PassesTurn(t, u, r) then 1 else 0) % 4
  {
    StepTurn(t, u, r, lz);
  }

  // ----- order -----

  /** Real tiles and proper offers are kept throughout, whatever is requested. */
  lemma RunOrderly(ts: seq<Table>, rs: seq<Request>, over: bool, lz: nat, k: nat)
    requires Ran(ts, rs, over, lz) && Orderly(ts[0]) && k < |ts| && (over ==> k < |ts| - 1)
    ensures Orderly(ts[k])
  {
    if k > 0 {
      assert StepAt(ts, rs, over, lz, k - 1);
    }
  }

  /** Every claim of the run names the tile discarded last. */
  predicate AllNaming(ts: seq<Table>, rs: seq<Request>)
    requires |ts| <= |rs| + 1
  {
    forall k | 0 <= k < |ts| - 1 :: NamingAt(ts, rs, k)
  }

  predicate NamingAt(ts: seq<Table>, rs: seq<Request>, k: nat)
    requires k < |ts| && k < |rs|
  {
    Naming(ts[k], rs[k].1, rs[k].2)
  }

  lemma StepOk(t: Table, u: Table, over: bool, r: Request, lz: nat)
    requires Stepped(t, u, over, r, lz) && TableOk(t) && Naming(t, r.1, r.2)
    ensures Shape(u) && Conserved(u) && (!over ==> TableOk(u))
  {
  }

  /** As long as claims name the last discard, no tile is lost or made, and every hand has its size throughout. */
  lemma {:induction false} RunOk(ts: seq<Table>, rs: seq<Request>, over: bool, lz: nat)
    requires Ran(ts, rs, over, lz) && TableOk(ts[0]) && AllNaming(ts, rs)
    ensures forall k | 0 <= k < |ts| && (over ==> k < |ts| - 1) :: TableOk(ts[k])
    ensures var u := ts[|ts| - 1]; Shape(u) && Conserved(u)
  {
    var n := |ts| - 1;
    if n > 0 {
      var less := ts[..n];
      RanUpTo(ts, rs, over, lz);
      forall k | 0 <= k < n - 1 ensures NamingAt(less, rs, k) {
        assert NamingAt(ts, rs, k);
      }
      RunOk(less, rs, false, lz);
      assert less[n - 1] == ts[n - 1] && NamingAt(ts, rs, n - 1);
      StepOk(ts[n - 1], ts[n], over, rs[n - 1], lz);
      forall k | 0 <= k < n ensures TableOk(ts[k]) {
        assert less[k] == ts[k];
      }
    }
  }

  // ----- conservation and stalling, exactly -----

  ghost predicate Kept(t: Table) {
    Shape(t) && Conserved(t)
  }

  /** Whether a request keeps the tiles: it decides nothing, or is paid for and names the last discard if a claim. */
  predicate KeepsTiles(t: Table, r: Request) {
    Accepted(t, r.0, r.1) && !OthersAwaited(t, r.0) ==> Conserves(t, r.0, r.1, r.2)
  }

  lemma StepConserves(t: Table, u: Table, over: bool, r: Request, lz: nat)
    requires Stepped(t, u, over, r, lz) && Kept(t)
    ensures Kept(u) <==> KeepsTiles(t, r)
  {
  }

  predicate LinkAt(has: seq<bool>, links: seq<bool>, k: nat)
    requires k + 1 < |has| && k < |links|
  {
    has[k] ==> has[k + 1] == links[k]
  }

  /** A run keeps the tiles throughout exactly when every request of it keeps them. */
  lemma RunConserves(ts: seq<Table>, rs: seq<Request>, over: bool, lz: nat)
    requires Ran(ts, rs, over, lz) && Kept(ts[0])
    ensures (forall k | 0 <= k < |ts| :: Kept(ts[k])) <==> forall k | 0 <= k < |ts| - 1 :: KeepsTiles(ts[k], rs[k])
  {
    var n := |ts| - 1;
    var has := seq(n + 1, k requires 0 <= k <= n => Kept(ts[k]));
    var links := seq(n, k requires 0 <= k < n => KeepsTiles(ts[k], rs[k]));
    forall k | 0 <= k < n ensures LinkAt(has, links, k) {
      assert StepAt(ts, rs, over, lz, k);
      if Kept(ts[k]) {
        StepConserves(ts[k], ts[k + 1], over && k == |ts| - 2, rs[k], lz);
      }
    }
    Linked(has, links, n);
    assert forall k | 0 <= k <= n :: has[k] == Kept(ts[k]);
    assert forall k | 0 <= k < n :: links[k] == KeepsTiles(ts[k], rs[k]);
  }

  lemma Linked(has: seq<bool>, links: seq<bool>, n: nat)
    requires |has| == n + 1 && |links| == n && has[0] && forall k | 0 <= k < n :: LinkAt(has, links, k)
    ensures (forall k | 0 <= k <= n :: has[k]) <==> forall k | 0 <= k < n :: links[k]
  {
    forall k | 0 <= k < n && has[k] ensures has[k + 1] == links[k] {
      assert LinkAt(has, links, k);
    }
    Chain(has, links, n);
  }

  /** A request that decides on a tile its player cannot pay with. */
  predicate Stalls(t: Table, r: Request) {
    Accepted(t, r.0, r.1) && !OthersAwaited(t, r.0) && !CanTake(t.seats[r.0].hand, r.1, r.2)
  }

  lemma StepAlive(t: Table, u: Table, r: Request, lz: nat)
    requires Stepped(t, u, false, r, lz) && Alive(t)
    ensures Alive(u) <==> !Stalls(t, r)
  {
    HeardAlive(t, u, false, r.0, r.1, r.2, lz);
  }

  /** Throughout a run somebody who can answer is awaited, exactly unless a request decides what cannot be paid. */
  lemma RunAlive(ts: seq<Table>, rs: seq<Request>, lz: nat)
    requires Ran(ts, rs, false, lz) && Alive(ts[0])
    ensures (forall k | 0 <= k < |ts| :: Alive(ts[k])) <==> forall k | 0 <= k < |ts| - 1 :: !Stalls(ts[k], rs[k])
  {
    var n := |ts| - 1;
    var has := seq(n + 1, k requires 0 <= k <= n => Alive(ts[k]));
    var links := seq(n, k requires 0 <= k < n => !Stalls(ts[k], rs[k]));
    forall k | 0 <= k < n ensures LinkAt(has, links, k) {
      assert StepAt(ts, rs, false, lz, k);
      if Alive(ts[k]) {
        StepAlive(ts[k], ts[k + 1], rs[k], lz);
      }
    }
    Linked(has, links, n);
    assert forall k | 0 <= k <= n :: has[k] == Alive(ts[k]);
    assert forall k | 0 <= k < n :: links[k] == !Stalls(ts[k], rs[k]);
  }
}
