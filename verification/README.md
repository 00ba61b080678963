# A verified model of the mahjong table, the event loop, the codec and the timer

This project models the hard parts of a game server written in Go and proves what they promise.

* **Winning-hand searches** (`Tiles`, `DenseSearch`, `DenseProofs`, `WinningHand`, `RulesOfPlay`, `SearchWitnesses`,
  `AnyWilds`, `SevenPairs`, `Statlz`, `WinningPatterns`, `CompressedSearch`, `Stat`). Two backtracking searches decide whether a hand is a
  pair plus triples and runs, one on a count array with wild tiles, one on a run-length encoding. Both change their
  counts in place and undo every change by hand. The classes `Statlz` and `Stat` keep that form; each method is tied to
  a function of the counts it started from, and the theorems are about those functions.
* **The table** (`TableRules`, `User`, `TableState`, `TableSteps`, `Runs`, `Arbitration`, `Deal`, `Room`, `Walls`,
  `Rivals`). Dealing, discarding, claiming, gangs and passing for four players. `Room.MjOp` is one request, `Room.Play` a
  whole game under arbitrary requests.
* **The event loop** (`ConnHistory`, `LoopTables`, `ActionRuns`, `EventLoop`). Readiness events, partial writes, wakes and shutdown; what the kernel
  and the callbacks answer is part of each event, so a run over arbitrary events is a run under arbitrary answers.
* **The codec** (`Checksum`, `Codec`, `Message`). Packing, the stream reader, the datagram reader and the folded checksum
  (the arithmetic of section 1 of RFC 1071, over header fields rather than adjacent octets).
* **The heap and the timer** (`HeapOrder`, `MinHeap`, `TaskCtl`, `Timers`).

`Chains` holds the one induction that the run theorems of the table and of the timer share.

`dafny verify dfyconfig.toml` checks everything.

## How the statements fit together

*Search.* `DenseSearch` defines the search as functions (`Deal`, `HuFrom`), and, independently of it, what groups need
and which of them it can see (`Need`, `InSight`). `WinningHand.Wins` says on the hand alone what winning is: a held code
for the pair, and groups, that use every tile and lack no more tiles than there are wild tiles. `HuSound`, `HuAccepts` and
`HuExact` connect it with the search; `NoWildExact` is the case without wild tiles, and `Statlz.Hu233` carries the result to the code that mutates its array. `WinningPatterns` adds the
two other patterns, which read the wild count that the search left. `RulesOfPlay.RuleWin` is a third, independent
definition: the rules of the game.

*Table.* A step is described three ways: `User.DealMj` and `User.CanOpOther` on one hand, `TableSteps.Decided` as what
the whole table looks like afterwards (which tiles are gone, who drew, whose turn it is), and the invariants
`TableSteps.Orderly` and `TableState.TableOk`. What a player is offered is stated on the tiles of its hand
(`TableRules.Offered`, `FourHeld`), and proved to be what the counts yield (`OfferedIsClaim`). `TableSteps.OutcomeOk` and `OutcomeConserves` say which steps keep them;
`Room.MjOp` proves that the code takes such a step and nothing else. `Room.Play` returns the tables a game goes through,
and proves that each step of them is such a step (`TableRuns.Ran`) and why it ends (`Finished`). What holds at every table
of such a run is proved about the sequence: `TableRuns.RunOk`, `RunConserves`, `RunAlive`.

*Event loop.* `ConnHistory.ConnOk` is the invariant of one connection: write interest against pending work, output
against what callbacks returned, and the shape of the callback log. `LoopTables.EventTables` and `EventStops` say what an
event does to all tables of the loop, and the handlers of `EventLoop` are proved to do exactly that. `Loop.Serve` returns
the tables of a whole run (`LoopTables.Ran`), with the invariant at each; `RunClean`, `RunStrands`, `RunTerminates` and
`ActionRuns.ReplyCarriedOut` are about such runs.

*Codec.* `Codec.FrameLayout` says where everything lies in a frame, `Checksum.CompletesOnce` which number the checksum is,
and `Codec.WsAcceptedIff` and `TcpAcceptedIff` which bytes the readers accept; the round trips and the detection of errors
come on top.

*Timer.* `TaskCtl` proves each call on the heap in place. `TimerRuns.Called` is what a call does to the timer as a value,
`TimerRuns.Run` any sequence of calls.

## Behaviour of the code that a reader may not expect

Each of these is stated and proved; the code is modelled as it is.

* With wild tiles a run is three consecutive codes, so 19, a wild tile and 21 are taken for a run although they belong to
  two suits (`SearchWitnesses.AcceptsAcrossSuits`).
* A run may only start up to code 37 on a *held* tile, so 38, 39 and a wild tile are missed (`MissesTopRun`). With two
  wild tiles, runs sharing one missing code are missed as well (`MissesSharedWild`). `WinningHand.HuExact` says exactly
  which hands are accepted with up to two wild tiles, and `RulesOfPlay.OneWildIsRules` where that is the rules of the game.
* What is accepted does win by the rules, with any number of wild tiles, unless the hand holds tiles on both sides of a
  suit border (`AnyWilds.AcceptedWinsByRules`).
* Undoing a run returns a wild tile only for a count that comes back to exactly zero. With three wild tiles a search can
  therefore succeed with one wild tile fewer in the array (`LosesThirdWild`), or reject a hand that wins
  (`MissesForLostWild`: 11, 12, 13, 16, 19 and three wild tiles). At least two wild tiles always remain
  (`DenseSearch.DealWild`), so a hand that lacks at most two tiles is never rejected for that (`WinningHand.HuAccepts`).
* When such a search fails, the seven-pairs check reads the wild count it left, and rejects 11, 12, 13, 16, 16, 19, 19,
  22, 22, 25, 25 and three wild tiles (`WinningPatterns.SevenPairsMissed`). That is the only way the other patterns depend
  on the search (`WinningAnyWilds`), and with up to two wild tiles it cannot happen (`WinningExact`).
* The compressed search starts at index 0 after taking a pair out, and so rejects a hand whose pair would be the lowest
  code when it is held exactly twice (`CompressedExact`, `BarePairRejected`).
* `getOpUser` would rank competing claims, but the caller clears `waitMulti` before it is asked, so the player who answers
  *last* decides alone. `Arbitration.LastAnswerDecides` says exactly when that is the answer the ranking would have
  chosen. `RivalClaims.Override` is a game, dealt from a full wall, in which a claim for a peng is overridden by a later
  pass.
* A claim may name any tile the hand can pay for. Tiles are kept exactly when it names the last discard
  (`TableSteps.OutcomeConserves`, over whole games `TableRuns.RunConserves`), and a chi that fails halfway loses a tile
  (`UserModel.User.Chi`).
* A discard or gang that names a tile the player does not hold is accepted as the answer, fails, and leaves nobody
  awaited; from then on every request is turned down. Such a request exists on every turn
  (`TableSteps.StallingRequest`), and nothing else can stall a game (`HeardAlive`, `AliveMoves`, `TableRuns.RunAlive`).
* `Pop` and `Drop` leave the removed task its old index: a fired one-shot task keeps index 0
  (`TaskCtlModel.TaskCtl.FrameCheck`), so `Start` ignores it and `Stop` removes whatever task is at the root
  (`TaskCtlModel.TaskCtl.Stop`, with a run in `StopTakesAnother`).
* `Drop` only sifts down. It keeps the heap exactly when the last element is not below the parent of the hole
  (`HeapOrder.WithoutHeap`), with a six-element counterexample (`RemovalCanBreak`). `Reset` has the same condition: the
  push that follows neither mends the disorder nor makes one (`HeapOrder.PushBackHeap`). Over whole runs this is the only
  thing that breaks the order (`TimerRuns.RunOrdered`).
* A wake runs the Data callback even while output is unsent or an action is pending: it can overwrite the one and cancel
  the other (`ConnHistory.WakeLoses` says exactly when; `EventLoop.WakeCancelsClose` is such a run). In runs without
  wakes neither happens (`LoopTables.RunClean`).
* Detaching forgets the connection before it sets the descriptor to blocking. When that fails, the connection gets no
  terminal callback (`EventLoop.DetachFails`). All other connections get exactly one: `ConnHistory.OneTerminal` for one
  connection, `LoopTables.RunTerminates` for whole runs.

## Model

| member | source | states |
|---|---|---|
| DenseSearch.Next | mj/hulz.go:58-63 | the result is the first code from there on that is held, or 40: every plain code before it is not held |
| DenseSearch.DealWild | mj/hulz.go:65-144 | the wild count never rises and never goes negative over the triple-then-run search; with at most two wild tiles in all, owed ones included, it is restored exactly, and with more at least two of them remain |
| DenseSearch.KeziWild | mj/hulz.go:65-93 | the same for the triple branch |
| DenseSearch.ShunziWild | mj/hulz.go:95-144 | the same for the run branch, where restoring rests on no upper code being owed already |
| DenseSearch.RunBudget | mj/hulz.go:104-118 | laying out a run moves wild tiles from free to owed without changing their sum |
| DenseSearch.TripleBudget | mj/hulz.go:69-77 | the same for a triple |
| DenseProofs.DealSound | mj/hulz.go:65-144 | the groups of a successful search cover every plain tile held, and the tiles they lack are at most the wild tiles, however many there are; with at most two wild tiles every run starts on a held tile |
| DenseProofs.DealComplete | mj/hulz.go:65-144 | however many wild tiles: if any bag of triples and runs in the sight of the search covers the hand lacking at most two tiles, the search succeeds; the induction follows the lowest held tile, which is in a triple or starts a run |
| DenseProofs.RunToTriple | mj/hulz.go:65-144 | a run that borrows both its upper tiles can be exchanged for a triple, so trying triples first loses nothing |
| WinningHand.HuWild | mj/hulz.go:147-174 | over the whole pair loop the wild count stays between zero and its start, is restored exactly with at most two wild tiles, and with more stays at two or above |
| WinningHand.HuSound | mj/hulz.go:147-174 | a successful loop has appended one pair and groups that cover the hand within its wild tiles, whatever their number |
| WinningHand.WinsMeaning | mj/hulz.go:147-174 | a win is stated on the hand alone: a held code for the pair, triples and runs, every plain tile used, and no more tiles lacking in all than there are wild tiles; that is exactly a pair the loop tries and a cover of what it leaves |
| WinningHand.HuAccepts | mj/hulz.go:147-174 | however many wild tiles: a hand that wins in sight lacking at most two tiles, the pair included, is accepted |
| WinningHand.SplitsWin | mj/hulz.go:147-174 | a hand whose plain tiles split into a pair, triples and runs is accepted whatever wild tiles it holds besides |
| WinningHand.HuExact | mj/hulz.go:147-174 | with at most two wild tiles the loop succeeds if and only if the hand wins with a pair and groups that the search can see |
| WinningHand.NoWildExact | mj/hulz.go:147-174 | without wild tiles the loop succeeds if and only if the hand is exactly one pair, triples and runs, and then the groups appended are such a split |
| WinningHand.SplitRunsInSuit | mj/hulz.go:95-105 | runs of a real hand without wild tiles stay inside one suit |
| WinningHand.WildsLeftFormTriples | mj/hulz.go:147-174 | for 3k+2 tiles the wild tiles a winning split does not use form whole triples |
| RulesOfPlay.OneWildIsRules | mj/hulz.go:104-105 | with at most one wild tile, and none of the three border pairs 38/39, 19/21, 29/31 in the hand, the answer is exactly the rules of the game |
| AnyWilds.AcceptedWinsByRules | mj/hulz.go:95-118 | for any number of wild tiles: a hand accepted by the search wins by the rules of the game, unless it holds tiles on both sides of a suit border (19 and 21, or 29 and 31) |
| AnyWilds.MendAll | mj/hulz.go:95-118 | whatever covers such a hand can be laid out at no extra cost with all runs inside their suits |
| SearchWitnesses.AcceptsAcrossSuits | mj/hulz.go:104-105 | 19, 21 and a wild tile are accepted as a run although the rules do not allow it |
| SearchWitnesses.MissesTopRun | mj/hulz.go:104-105 | 38, 39 and a wild tile are rejected although they are a run by the rules |
| SearchWitnesses.MissesSharedWild | mj/hulz.go:104-118 | two runs that both lack 13 are rejected with two wild tiles although the rules allow them |
| SearchWitnesses.LosesThirdWild | mj/hulz.go:124-141 | with three wild tiles a successful search can leave one wild tile fewer than it found |
| SearchWitnesses.MissesForLostWild | mj/hulz.go:124-141 | a hand that wins within sight of the search lacking three tiles is rejected, because a wild tile was lost on the way: two lacking tiles are as many as are sure to be found |
| SevenPairs.SevenPairsExact | mj/hulz.go:177-197 | for at most 14 tiles and four of a kind: yes exactly when there are 14 tiles and as many wild tiles as odd kinds, so everything is paired |
| SevenPairs.PairsCount | mj/hulz.go:177-197 | with a wild tile for every odd kind all tiles are paired; with fewer, tiles are left over |
| StatlzModel.Statlz.constructor | mj/hulz.go:38-56 | the counts are those of the hand, with the claimed tile added and the wild code moved to the wild entry |
| StatlzModel.CountsMean | mj/hulz.go:38-56 | the wild tiles of the hand and the tile claimed, and no others, are counted at the wild entry, every other tile at its own code |
| StatlzModel.Statlz.NextHeld | mj/hulz.go:58-63 | the loop computes the first held code |
| StatlzModel.Statlz.DealKezi | mj/hulz.go:65-93 | the in-place search answers as the function does, appends exactly its groups, and leaves every count but the wild entry as it found it |
| StatlzModel.Statlz.DealShunzi | mj/hulz.go:95-144 | the same for runs, with the undo that tests for zero |
| StatlzModel.Statlz.LiftTriple | mj/hulz.go:79-90 | the undo of a triple gives back the counts whatever wild count the search in between left |
| StatlzModel.Statlz.LiftRun | mj/hulz.go:120-141 | the undo of a run gives back the counts, and a wild tile only for codes that were at zero |
| StatlzModel.Statlz.Hu233 | mj/hulz.go:147-174 | the pair loop on the array answers as the function, with its groups appended on success and every plain count restored in any case |
| StatlzModel.Statlz.HuQd | mj/hulz.go:177-197 | the loop computes the seven-pairs check |
| StatlzModel.Statlz.HuJys | mj/hulz.go:206-224 | true exactly when every meld and every tile is of the kinds 2, 5 and 8 |
| StatlzModel.Statlz.CanHu | mj/hulz.go:327-329 | a hand wins by the search, by seven pairs on the counts the search left, or by kinds |
| WinningPatterns.WinningExact | mj/hulz.go:327-329 | with at most two wild tiles a hand wins if and only if some pair leaves a cover the search can see, or its tiles are seven pairs, or all are of the kinds 2, 5 and 8 |
| WinningPatterns.WinningAnyWilds | mj/hulz.go:327-329 | for any number of wild tiles, of up to 14 tiles with at most four of a kind: seven pairs count if and only if the failed search before has left all wild tiles in the array |
| WinningPatterns.SevenPairsMissed | mj/hulz.go:124-197 | fourteen tiles that are seven pairs, three of them completed by wild tiles, are rejected: the search lost a wild tile |
| StatlzModel.Statlz.CanOpSelf | mj/hulz.go:331-347 | offers exactly a concealed gang of each kind held four times, and winning when the hand wins |
| StatlzModel.Statlz.CanOpOther | mj/hulz.go:349-390 | offers exactly the chi, peng and gang the counts allow after a discard, and winning when the hand wins with the tile |
| TableRules.OfferedIsClaim | mj/hulz.go:351-382 | in terms of the tiles of the hand: a peng is offered exactly with two tiles like the discard and a gang with three, unless that is the wild kind; a chi exactly with both its neighbours, a wild one being none |
| TableRules.ChiInSuit | mj/hulz.go:352-369 | with tiles of real kinds a chi is offered exactly on a run inside one suit whose other two tiles are held and not wild |
| TableRules.WildDiscard | mj/hulz.go:351-382 | when the wild kind itself is discarded it can be claimed for a run like any tile, but for no peng and no gang |
| TableRules.FourHeldIsOffer | mj/hulz.go:331-340 | a concealed gang is offered exactly of a kind that is not wild and held four times |
| TableRules.JiangMeld | mj/hulz.go:206-218 | a meld counts for the third pattern exactly when every tile it shows is a 2, 5 or 8 |
| TableRules.JiangHand | mj/hulz.go:206-225 | the third pattern: every tile held that is not wild, and every tile shown, is a 2, 5 or 8 of a suit |
| StatModel.Stat.constructor | mj/hu.go:12-34 | the encoding is sorted, holds every code once and counts exactly the tiles of the hand |
| StatModel.Stat.Encode | mj/hu.go:21-32 | the loop over the sorted hand builds that encoding |
| StatModel.Stat.DealKezi | mj/hu.go:43-65 | the in-place search answers as the function on encodings and restores counts and groups |
| StatModel.Stat.DealShunzi | mj/hu.go:67-103 | the same for runs of three neighbouring entries |
| StatModel.Stat.Hu233 | mj/hu.go:106-124 | accepts what the function accepts, with counts and groups as before |
| CompressedSearch.RestAgrees | mj/hu.go:43-103 | on any encoding the compressed search for triples and runs agrees with the dense one |
| CompressedSearch.RunAgrees | mj/hu.go:71-79 | three neighbouring entries with consecutive codes are the dense run guard |
| CompressedSearch.PairAgrees | mj/hu.go:106-124 | a pair works in the compressed search exactly when it works in the dense one and is not the lowest code held exactly twice |
| CompressedSearch.CompressedExact | mj/hu.go:106-124 | accepted if and only if the hand splits with a pair that is not the lowest code held exactly twice |
| CompressedSearch.CompressedImpliesDense | mj/hu.go:106-124 | acceptance implies that of the dense search; they differ only when the lowest code is held exactly twice |
| CompressedSearch.BarePairRejected | mj/hu.go:114-118 | a bare pair is rejected although it splits |
| TableRules.ClaimOfferFeasible | mj/hulz.go:349-390 | every claim offered on a discard names that discard, and the hand holds the tiles it takes |
| TableRules.SelfOfferFeasible | mj/hulz.go:331-347 | every concealed gang offered can be made |
| TableRules.OffersMean | examples/game/route/user.go:318-334 | a player is awaited exactly when it has a claim, and can carry out whatever it is offered |
| TableRules.MeldShows | examples/game/route/user.go:100-215 | a meld shows the tiles taken from the hand and, for a claim, the tile claimed |
| TableRules.TakenReal | examples/game/route/user.go:53-71 | what is left of a hand of real tiles is real tiles |
| UserModel.User.RemoveMj | examples/game/route/user.go:53-71 | succeeds exactly when there are enough; then exactly that many are gone and every other tile stays, else none is |
| UserModel.User.MoMj | examples/game/route/user.go:79-87 | the tile is appended, what was allowed is cleared |
| UserModel.User.Chi | examples/game/route/user.go:100-139 | succeeds exactly when both neighbours are held; then exactly those are gone and the meld is appended; else the first neighbour is gone exactly when it was held and the second was not |
| UserModel.User.Same | examples/game/route/user.go:142-215 | succeeds exactly when enough are held; then exactly those are gone, else nothing changes |
| UserModel.User.DealMj | examples/game/route/user.go:231-260 | succeeds exactly when the hand can pay; takes exactly the tiles of the operation, appends exactly its meld, clears what was allowed |
| UserModel.User.CanOpSelf | examples/game/route/user.go:263-281 | offers a discard, a concealed gang exactly when some kind that is not wild is held four times, winning exactly when the hand wins |
| UserModel.User.CanOpOther | examples/game/route/user.go:318-334 | offers exactly the claims that the tiles of the hand allow on the discard, and passing exactly when anything else is offered |
| UserModel.User.SuggestedDiscard | examples/game/route/user.go:283-307 | the first tile of the hand is there and can be discarded |
| UserModel.User.Reset | examples/game/route/user.go:42-51 | hand and melds are cleared and nobody is awaited; what was allowed stays until the first draw |
| TableState.DrawConserves | examples/game/route/room.go:173-179 | a draw moves one tile from the wall to a hand and keeps all tiles |
| TableState.MovesConserve | examples/game/route/room.go:357-527 | a move keeps, for each kind of tile, the total of wall, hands, melds and discards, exactly unless it claims another tile than the last discard |
| TableState.MovesReal | examples/game/route/room.go:357-527 | a move brings only tiles of the wall into the hands |
| TableState.SeatMovesOwns | examples/game/route/user.go:231-260 | what a move changes in a player: a discard less, a claimed tile more, a drawn tile more; the hand counting melds as three changes accordingly |
| TableSteps.DecidedSizes | examples/game/route/room.go:357-527 | every decision keeps, while the game goes on, 14 tiles for the player to act and 13 for everyone else, 13 for all while claims are pending |
| TableSteps.DecidedConserves | examples/game/route/room.go:357-527 | a decision keeps the tiles exactly unless it is a claim on another tile than the last discard |
| TableSteps.StuckConserves | examples/game/route/user.go:100-139 | an operation the hand cannot pay for keeps the tiles exactly unless a chi fails halfway |
| TableSteps.StuckSized | examples/game/route/room.go:438-444 | on a player's own turn a failure leaves all hands their sizes, and nobody awaited |
| TableState.AskedAll | examples/game/route/room.go:448-466 | claims are pending exactly when somebody but the discarder has one; everyone awaited can carry out what is offered |
| TableState.HandsReal | examples/game/route/room.go:181-254 | hands hold only tiles of the wall |
| TableSteps.CanDiscard | examples/game/route/user.go:291-295 | the player who must act never has an empty hand |
| TableSteps.OutcomeConserves | examples/game/route/room.go:314-355 | a request that decides keeps the tiles exactly when it is paid for and, as a claim, names the last discard, or fails without a chi half paid |
| TableSteps.OutcomeOrderly | examples/game/route/room.go:314-355 | whatever is requested, real tiles and proper offers are kept |
| TableSteps.OutcomeOk | examples/game/route/room.go:314-355 | a claim that names the last discard, and any other request, keeps tiles, sizes and offers in order |
| TableSteps.HeardAlive | examples/game/route/room.go:314-355 | as long as the game goes on somebody who can answer is awaited, and this ends if and only if a deciding request names a tile its player cannot pay with |
| TableSteps.StallingRequest | examples/game/route/room.go:438-444 | on every player's own turn such a request exists: discarding a tile of code 0 is accepted, fails, and nobody is awaited any more |
| TableSteps.AliveMoves | examples/game/route/room.go:314-355 | while somebody who can answer is awaited, some request is heard and can be carried out: the game does not stall |
| TableSteps.ToldAlive | examples/game/route/user.go:263-334 | a player just asked about its own turn may discard, one just asked about a discard may pass |
| DealModel.DealtOk | examples/game/route/room.go:181-212 | dealing loses no tile and gives every player its opening hand |
| DealModel.OpeningSized | examples/game/route/room.go:185-210 | after three rounds of four and five single tiles the dealer has 14 tiles and the others 13, each exactly the tiles of its places in the wall |
| DealModel.HandsByDistance | examples/game/route/room.go:185-210 | counting seats from the dealer on, every player has the hand of its place in the deal |
| DealModel.TurnedUpStack | examples/game/route/room.go:213-219 | the tile turned up is the top of the stack counted by the smaller of the dice |
| RoomModel.GetLaizi | mj/mj.go:180-195 | the wild tile is another real tile of the same family as the tile turned up |
| RoomModel.WildIsNext | mj/mj.go:180-195 | it is the next tile of the family, and after the last the first |
| RoomModel.WildOnce | mj/mj.go:180-195 | every tile is made wild by one tile only |
| RoomModel.Room.FaPai | examples/game/route/room.go:173-179 | the next tile of the wall, and no other, goes to the player |
| RoomModel.Room.MajFaPai | examples/game/route/room.go:181-254 | after the deal the table is in order, hands are the opening hands, the tile turned up is still in the wall, and only the dealer is awaited |
| RoomModel.Room.Reset | examples/game/route/room.go:98-114 | an empty table with a full wall |
| RoomModel.Room.Waiting | examples/game/route/room.go:276-284 | true exactly when somebody is awaited |
| RoomModel.Room.GetOpUser | examples/game/route/room.go:286-304 | while claims are pending the highest-ranked answer wins and of equal ones the nearest to the discarder; otherwise the player who asked |
| Arbitration.Distance | examples/game/route/room.go:306-312 | the number of places from the player whose turn it is |
| Arbitration.RankOrder | mj/mj.go:40-57 | winning outranks a gang, a gang a peng, a peng a chi, a chi passing, and any answer none |
| Arbitration.TurnPasses | examples/game/route/room.go:372-393 | when a discard draws no claim or all pass, the game ends exactly with ten tiles or fewer in the wall; otherwise the turn goes one seat on, and that seat alone draws a tile |
| TableRuns.StepTurn | examples/game/route/room.go:314-527 | in every step of a run the turn goes one seat on when it passes, to the claimant when a claim is carried out, and stays otherwise |
| TableRuns.TurnGoesRound | examples/game/route/room.go:314-527 | over every run in which no claim is carried out the turn has gone round the table by as many seats as it has passed, so every seat has it once in four |
| Arbitration.LastAnswerDecides | examples/game/route/room.go:347-361 | the last awaited answer is carried out; the ranking would have chosen it exactly when it comes before every answer recorded earlier |
| RivalClaims.PengOverridden | examples/game/route/room.go:347-361 | every run of three requests in which a discard is claimed for a peng and the player who could take it for a run then passes: the ranking prefers the recorded peng, but its player gets no meld and draws instead |
| RivalClaims.FirstRequest | examples/game/route/room.go:448-466 | there the peng and the run are exactly what the program offers: nobody can win with the tile, and the fourth player is offered nothing |
| RivalClaims.Override | examples/game/route/room.go:314-355 | such a run, from dealing a full wall of 136 tiles to the draw that overrides the peng |
| Walls.ArrangedOpens | examples/game/route/room.go:185-210 | any four opening hands can be dealt: from the wall they are arranged in, every player gets its hand |
| RivalClaims.RivalWallFull | mj/mj.go:20-37 | the wall of that run holds four tiles of every kind |
| Arbitration.PreferredUnique | examples/game/route/room.go:286-304 | the ranking prefers one seat only |
| RoomModel.Room.AskOthers | examples/game/route/room.go:448-466 | everyone but the discarder is told exactly what the rules allow; claims are pending exactly when one of them has any |
| RoomModel.Room.GiveTile | examples/game/route/room.go:478-496 | the player to act draws the next tile and is told exactly what it may do |
| RoomModel.Room.PassBy | examples/game/route/room.go:372-393 | when everyone passed the next player draws, or the game ends when the wall is spent |
| RoomModel.Room.AfterClaim | examples/game/route/room.go:370-435 | a gang draws for the claimant, a chi or peng makes it discard, and the claimant is told exactly what it may do |
| RoomModel.Room.AfterDiscard | examples/game/route/room.go:448-498 | claims are pending exactly when the discard can be claimed; otherwise the next player draws, unless the wall is spent |
| RoomModel.Room.MjOpSelf | examples/game/route/room.go:438-527 | a discard, gang or win of the player to act leads to the table it should, or to nobody awaited when the tile is not held |
| RoomModel.Room.MjOpOther | examples/game/route/room.go:357-436 | the answer of the last awaited player is carried out whatever tile it names: pass, chi, peng, gang or win; when the hand cannot pay nobody is awaited any more |
| RoomModel.Room.Answer | examples/game/route/room.go:316-347 | a request counts only if the player is awaited and was offered the operation, and decides only if nobody else is awaited |
| RoomModel.Room.MjOp | examples/game/route/room.go:314-355 | a request is turned down unchanged, recorded while others are awaited, or decides alone; whoever is to act next is told exactly what the rules allow; tiles are kept exactly unless a claim names another tile than the last discard or a chi fails halfway |
| RoomModel.Room.Play | examples/game/route/room.go:314-355 | a whole game under any requests, as the sequence of its tables: it opens with the deal, every step hears the next request, and it ends with the requests, the game, or a gang past the end of the wall; when all claims name the last discard no tile is lost or made and hands keep their sizes |
| TableRuns.RunOk | examples/game/route/room.go:314-355 | over every run in which claims name the last discard, every table the game goes on from is in order: tiles, sizes and offers |
| TableRuns.RunConserves | examples/game/route/room.go:314-355 | over every run the tiles are kept throughout if and only if every request keeps them: no deciding claim on another tile, no chi that fails halfway |
| TableRuns.RunAlive | examples/game/route/room.go:314-355 | over every run somebody who can answer is awaited throughout if and only if no request decides on a tile its player cannot pay with |
| TableRuns.RunOrderly | examples/game/route/room.go:314-355 | over every run, whatever is requested, real tiles and proper offers are kept at every table |
| ConnHistory.OpenKeeps | evio/evio_unix.go:347-369 | opening keeps the invariant of a connection: interest follows pending work, output is conserved, the log has its shape |
| ConnHistory.WriteKeeps | evio/evio_unix.go:371-397 | a partial write keeps it: bytes sent followed by bytes left are what was there |
| ConnHistory.DataKeeps | evio/evio_unix.go:416-455 | a Data callback keeps it, counting what a wake overwrote or cancelled |
| ConnHistory.EndKeeps | evio/evio_unix.go:163-194 | leaving the loop keeps it |
| ConnHistory.ReadLosesNothing | evio/evio_unix.go:431-455 | a Data callback from reading overwrites no output and cancels no action |
| ConnHistory.WakeLoses | evio/evio_unix.go:416-429 | a wake loses output exactly when some was unsent and it returned some, and cancels an action exactly when one was pending and it returned another or none |
| ConnHistory.LogShape | evio/evio_unix.go:347-369 | Opened comes first, no Data before it, and nothing after Closed or Detached |
| ConnHistory.OneTerminal | evio/evio_unix.go:163-194 | a connection that has left has exactly one terminal callback, at the end, if and only if it was not lost in a detaching that failed; then it has none |
| ConnHistory.RequestedDrained | evio/evio_unix.go:399-414 | Close and Detach are carried out only after all output was sent, unless a wake overwrote some |
| ConnHistory.ConservedExactly | evio/evio_unix.go:371-455 | bytes sent followed by bytes left are all bytes produced if and only if no wake overwrote any |
| LoopTables.ReplacedOk | evio/evio_unix.go:219-249 | handling one connection leaves all others and their interest as they were |
| LoopTables.WithOk | evio/evio_unix.go:260-304 | accepting a connection keeps the tables consistent |
| LoopTables.WithoutOk | evio/evio_unix.go:163-194 | forgetting a connection keeps the tables consistent |
| EventLoop.Loop.LoopCloseConn | evio/evio_unix.go:163-175 | exactly that descriptor leaves the table, the count follows, and the history ends with Closed |
| EventLoop.Loop.LoopDetachConn | evio/evio_unix.go:177-194 | the connection is handed over, closed when there is no callback, or stranded when it fails |
| EventLoop.Loop.LoopNote | evio/evio_unix.go:196-217 | a wake of a connection that is gone changes nothing, even when its descriptor is in use again; otherwise it is the Data callback, or nothing when there is none |
| EventLoop.Loop.Dispatch | evio/evio_unix.go:219-249 | a readiness event goes to the owner of the descriptor, with exactly the effect of handling it and none on others, or else to a listener |
| EventLoop.Loop.LoopAccept | evio/evio_unix.go:260-304 | a new connection gets the descriptor and is watched for writing; an event of an unknown descriptor does nothing |
| EventLoop.Loop.LoopOpened | evio/evio_unix.go:347-369 | output and action are those of the Opened callback, and interest falls back to reading when there is no work |
| EventLoop.Loop.LoopWrite | evio/evio_unix.go:371-397 | sent bytes leave the front of the output; EAGAIN changes nothing; an error closes |
| EventLoop.Loop.LoopAction | evio/evio_unix.go:399-414 | Close, Detach and Shutdown are carried out with no output left, an unknown action is cleared; the loop stops exactly on Shutdown, a failed detaching, or when the terminal callback says so |
| EventLoop.Loop.LoopWake | evio/evio_unix.go:416-429 | the connection then has the action the callback returned, always, and its output when it returned some |
| EventLoop.Loop.LoopRead | evio/evio_unix.go:431-455 | data goes to the callback, whose action and output the connection then has; EAGAIN changes nothing, the end of input closes |
| EventLoop.Loop.Step | evio/evio_unix.go:219-249 | every event leaves the tables as the event determines them and keeps the invariant; the loop stops exactly when the event says so |
| EventLoop.Loop.CloseAll | evio/evio_unix.go:132-138 | after shutdown no connection is held, the count is zero and every connection has ended |
| EventLoop.Loop.Serve | evio/evio_unix.go:86-161 | a whole run, as the sequence of its tables: each follows from the one before by the next event, until one stops the loop or there are no more; the invariant holds at every one of them, and then every connection still held is closed |
| LoopTables.RunClean | evio/evio_unix.go:416-455 | in a run without wakes no output is overwritten and no action cancelled, at any moment |
| LoopTables.CleanWatch | evio/evio_unix.go:371-455 | at any such moment a held connection is watched for writing if and only if it has pending work, and bytes sent followed by bytes left are all bytes produced |
| LoopTables.RunStrands | evio/evio_unix.go:177-194 | in a run a connection is stranded if and only if some event carries out a Detach that fails |
| LoopTables.RunTerminates | evio/evio_unix.go:86-194 | once shutdown has finished every connection ever accepted has exactly one terminal callback, the last one, if and only if no event of the run carried out a Detach that failed |
| EventLoop.WakeCancelsClose | evio/evio_unix.go:416-429 | a run in which a wake cancels a pending Close while the output before it is still unsent |
| EventLoop.DrainsThenCloses | evio/evio_unix.go:371-414 | a run in which all output is sent and then the pending Close is carried out |
| ActionRuns.ReplyTaken | evio/evio_unix.go:347-455 | what the Opened callback, or the Data callback of a read, returns is what there is to do next: exactly that output, and then that action |
| ActionRuns.StillWaits | evio/evio_unix.go:219-455 | over a run without wakes of it, a connection that is still held keeps its Close, Detach or Shutdown, and bytes sent followed by bytes left stay the same |
| ActionRuns.ReplyCarriedOut | evio/evio_unix.go:219-455 | a Close, Detach or Shutdown so returned is carried out by the event that reaches the connection once exactly the output returned with it has been sent, when no wake comes between |
| ActionRuns.OnlyFailureBefore | evio/evio_unix.go:371-414 | before that the connection leaves the loop only when a write fails |
| ActionRuns.WhyStops | evio/evio_unix.go:163-249 | an event that reaches a connection stops the loop if and only if a Shutdown was pending with no output left, or the connection ended and its terminal callback said so, or detaching failed |
| EventLoop.DetachFails | evio/evio_unix.go:177-194 | a run in which detaching fails: the connection has left the loop without a terminal callback |
| EventLoop.Loop.Handle | evio/evio_unix.go:231-247 | the connection opens, else writes, else carries out its action, else reads, and nothing else; whether the loop stops is determined by the connection and the answers |
| LoopTables.EventClean | evio/evio_unix.go:219-249 | an event that is not a wake overwrites no output and cancels no action |
| Checksum.SumFits | codec/message.go:189-207 | for payloads up to 65535 bytes the 32-bit accumulator never wraps |
| Checksum.FoldIsResidue | codec/message.go:210-214 | folding ends with the one value in 1..65535 congruent to a positive sum modulo 65535 |
| Checksum.SameChecksum32 | codec/message.go:188-215 | for payloads of any length two checksums agree exactly when the 32-bit sums are congruent modulo 65535 and zero only together |
| Checksum.SameChecksum | codec/message.go:188-215 | for payloads up to 65535 bytes two checksums agree exactly when the sums are congruent modulo 65535 |
| Checksum.SmallChangeShows | codec/message.go:188-215 | a change of the sum by less than 65534 shows in the checksum even when the accumulator wraps |
| Checksum.CompletesOnce | codec/message.go:210-214 | exactly one number makes a sum up to all ones when folded, all bits set being kept for an empty sum: the complement of the folded sum |
| Checksum.ChecksumCompletes | codec/message.go:188-215 | the checksum of any content is that number for its 32-bit sum, and no other number is |
| Codec.TcpRoundTrip | codec/parser.go:100-153 | reading a packed message returns all its fields if and only if its magic is right and its payload fits the length field |
| Codec.TcpRepack | codec/parser.go:100-153 | an accepted frame is, byte for byte, what packing its content writes |
| Codec.PrefixRejected | codec/parser.go:100-153 | no strict prefix of a packed message is accepted |
| Codec.StreamRoundTrip | codec/parser.go:100-153 | a stream of packed messages reads back as the same list in order, with nothing more consumed |
| Codec.StreamRepack | codec/parser.go:100-153 | whatever was read is what was sent: the bytes consumed are the packed messages |
| Codec.WsRoundTrip | codec/parser.go:27-84 | the datagram reader gives back every packed message of any length |
| Codec.FrameLayout | codec/message.go:158-169 | where each field lies in a packed message, byte by byte and high byte first |
| Codec.ReadLayout | codec/parser.go:42-73 | both readers take every field from those bytes |
| Codec.WsAcceptedIff | codec/parser.go:42-80 | a frame of at least 15 bytes is accepted if and only if its magic is right and its checksum field makes the 32-bit sum of its own bytes up to all ones |
| Codec.TcpAcceptedIff | codec/parser.go:100-153 | the stream reader accepts if and only if a whole frame is there that meets the same law |
| Codec.BareHeaderIff | codec/parser.go:64-80 | the same for a bare header of 13 bytes |
| Codec.Rejections | codec/parser.go:42-153 | which error is reported: missing bytes, then the magic, then the checksum |
| Codec.AcceptedIffAlike | codec/parser.go:75-80 | of two frames of any length with the same checksum field, if one is accepted the other is exactly when their 32-bit sums fold alike |
| Codec.AcceptedIffCongruent | codec/parser.go:75-80 | for payloads up to 65535 bytes: exactly when their sums are congruent modulo 65535 |
| Codec.SingleByteDetected | codec/parser.go:42-80 | changing any one byte of an accepted frame of any length to any other value makes it rejected |
| Codec.WordChange | codec/parser.go:42-80 | replacing one summed word of a frame of any length goes undetected exactly when 0x0000 and 0xFFFF are exchanged and the other words, in 32 bits, sum to neither zero nor the top 65535 values |
| Codec.ShortWordChange | codec/parser.go:42-80 | for payloads up to 65535 bytes: exactly when 0x0000 and 0xFFFF are exchanged |
| MessageModel.Message.CalculateChecksum | codec/message.go:188-215 | the two loops compute the folded checksum of the 32-bit sum |
| MessageModel.Message.FoldDown | codec/message.go:210-212 | the carry loop ends with the folded sum |
| MessageModel.Message.Pack | codec/message.go:149-172 | the bytes are the frame of the content whatever the buffer held; a buffer that is large enough is reused |
| MessageModel.TcpRead | codec/parser.go:100-153 | the reader answers as the parser on the bytes left, error for error, and consumes exactly the frame |
| MessageModel.WsRead | codec/parser.go:27-84 | the datagram reader answers as its parser, error for error |
| HeapOrder.PushKeepsHeap | util/minheap.go:110-123 | an element sifted up from the end gives a heap, and the extra swap with the sibling is never taken |
| HeapOrder.SiftUpHeap | util/minheap.go:110-123 | sifting up mends a heap broken at one place, without the sibling swap |
| HeapOrder.SiftDownHeap | util/minheap.go:90-108 | sifting down mends the heap exactly when the element is not below its parent |
| HeapOrder.WithoutHeap | util/minheap.go:64-79 | removing at a place keeps the heap if and only if the last element is not below the parent of the hole; the elements are kept in any case |
| HeapOrder.PushBackHeap | timer/task_ctl.go:67-71 | an element pushed after a removal neither mends the disorder the removal left nor makes one, whatever its key |
| HeapOrder.RemovalCanBreak | util/minheap.go:64-79 | a heap of six elements that loses its order |
| HeapOrder.SiblingSwapped | util/minheap.go:110-123 | three elements out of order for which the extra swap with the sibling is taken |
| HeapOrder.TiesStay | util/minheap.go:90-123 | equal elements do not move, and of equal children the left one is preferred |
| HeapOrder.RootIsLeast | util/minheap.go:47-62 | the root of a heap is a minimum |
| MinHeapModel.MinHeap.ShiftDown | util/minheap.go:90-108 | the loop computes the sift-down function |
| MinHeapModel.MinHeap.ShiftUp | util/minheap.go:110-123 | the loop computes the sift-up function, sibling swap included |
| MinHeapModel.MinHeap.Push | util/minheap.go:36-45 | adds exactly the task, sifted up, keeps an order there is, and element i has index i |
| MinHeapModel.MinHeap.Pop | util/minheap.go:47-62 | returns a minimum of an ordered heap, keeps order and the other tasks, and element i has index i; the task taken keeps its old index |
| MinHeapModel.MinHeap.Drain | util/minheap.go:47-62 | popping an ordered heap until it is empty yields all its tasks in order of trigger time |
| MinHeapModel.MinHeap.Drop | util/minheap.go:64-79 | an error past the end changes nothing; otherwise exactly the task at the recorded place goes, with order kept exactly under the condition of removal, and indices stay right |
| TaskCtlModel.TaskCtl.FrameCheck | timer/task_ctl.go:42-52 | from an ordered heap: fires in order of trigger time, a one-shot task once, a looping task (now - trigger) / period + 1 times, moves triggers on accordingly, leaves only later ones; from any heap no task more often; places stay right, and a one-shot task that fired keeps index 0 |
| TaskCtlModel.DueStep | timer/task_ctl.go:46-49 | firing a looping task and moving it one period on uses up exactly one due time |
| TaskCtlModel.TaskCtl.Start | timer/task_ctl.go:58-65 | a task without a place in a heap is pushed one period from now; any other is left alone |
| TaskCtlModel.TaskCtl.Stop | timer/task_ctl.go:54-56 | the task at the recorded place leaves the heap: the task itself exactly when it is there; a place past the end changes nothing; the order survives exactly under the condition of removal |
| TaskCtlModel.StopTakesAnother | timer/task_ctl.go:54-56 | a run in which stopping a one-shot task that has fired takes another task, still waiting, out of the heap |
| TaskCtlModel.TaskCtl.Reset | timer/task_ctl.go:67-71 | the task is due one period from now and places stay right; a held task keeps the tasks the same, a stale place costs another task its own; the order survives exactly when the removal keeps it |
| TimerRuns.Run | timer/task_ctl.go:42-71 | any calls in any order, as the sequence of timers: what each call does to the heap, to trigger times and to recorded places; from an ordered heap it is ordered throughout if and only if every removal keeps it so |
| TimerRuns.RunOrdered | timer/task_ctl.go:42-71 | the run theorem on its own: ordered at every moment if and only if every Stop and Reset passes the test of a removal made before it |
| TimerRuns.Do | timer/task_ctl.go:42-71 | one call does to the heap, the trigger times and the recorded places what the call says, and keeps an ordered heap ordered if and only if its removal, if it has one, does |

## Left out

- Integer widths of tiles, counts and seats: counts are unbounded integers. Hands have at most 14 tiles, so the `int8` counts of the code cannot wrap.
- Aliasing of Go slices: groups shared between a hand and the search, the wall sorted or shuffled by others, and a payload that aliases the read buffer. The arrays `num`, `data` and `out` are sequence-valued fields.
- `sort.Slice` is an insertion sort on values (`StatModel.Sorted`); any sort gives the same result.
- WinningPatterns.WinningExact: for at most two wild tiles, as `HuExact`; `WinningAnyWilds` is for any number, in terms of what the search answers and leaves.
- WinningHand.HuExact: exact for at most two wild tiles. With more, soundness is stated (`HuSound`, `AnyWilds.AcceptedWinsByRules`) and completeness for hands that lack at most two tiles (`HuAccepts`); for three it fails (`SearchWitnesses.MissesForLostWild`), because the answer depends on the wild tiles that earlier failed branches have lost.
- DenseProofs.DealComplete: the step of that proof, so for covers that lack at most two tiles as well.
- RulesOfPlay.OneWildIsRules: says when the search is the rules of the game for at most one wild tile on hands without the three pairs of border codes; on other hands it can go either way, and `HuExact` gives the exact answer in terms of the code's own notion of a run.
- SevenPairs.SevenPairsExact: for hands of at most 14 tiles with at most four of a kind, as the game deals them.
- TaskCtlModel.TaskCtl.FrameCheck: the clock stands still during a check, and events do not touch the heap. Periods are positive, as the loop would not end otherwise.
- TaskCtlModel.TaskCtl.Stop: the index of the task given is not negative, nor is it for `Reset`; the code would index out of range. `TimerRuns.Run` passes over such calls.
- TimerRuns.Run: what a check does to trigger times and which tasks it keeps is stated for an ordered heap; from any other heap that looping tasks stay, and no trigger time but theirs changes.
- MinHeapModel.MinHeap.Drop: the index of the task given is not negative; the code would index out of range.
- MinHeapModel.MinHeap.ShiftUp: sifts a local copy of the sequence and stores it once, instead of swapping in the field.
- `MinHeap.Build` sifts the root each time and is not used.
- RoomModel.Room.MjOp: assumes that a gang leaves a tile to draw; the code does not look and would read past the end of the wall.
- RoomModel.Room.Play: a run ends at such a gang.
- RoomModel.Room.MjOpSelf: no case for a supplementary gang; it is never among the operations offered (`TableState.Answering`), and the method that would carry it out edits a loop copy.
- RoomModel.Room.PassOn: the last draw for all four players when the wall is spent, and the settlement of a won game, are one event, `over`.
- Users are found by seat rather than by user id; the sets of operations are sets of names rather than bit masks, so codes that do not fit a byte are not modelled.
- The operation history, the indices of tiles dealt, dice and shuffling, reconnecting, room clearing and messages to clients.
- Scoring and the second pass of `HuPai`, whose guard reads a count that is always zero.
- The operations offered by the compressed search (`mj/hu.go`) and its flag checks: they repeat those of the other search.
- EventLoop.Loop.Step: passes over events that cannot occur, such as a readiness event of descriptor 0 or a write of more bytes than there were.
- EventLoop.Loop.CloseAll: closes connections in order of acceptance; the code goes through a map in no particular order. Connections are numbered in order of acceptance and kept after they are gone.
- Several loops, load balancing among them, the UDP path, idle timeouts, pre-write callbacks and address parsing.
- The clock of tickers, and descriptors handed out by the kernel, are arbitrary inputs.
- Message pooling, encryption, compression flags and the maximum-size check, which can never fail on a 16-bit length.
- WebSocket framing: the datagram reader is modelled from the point where it has the bytes of a frame.
- Codec.SingleByteDetected: about frames with a command; a bare 13-byte header is accepted by the reader but never packed.
