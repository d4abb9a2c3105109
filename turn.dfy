/** The turn and round lifecycle around the rounds themselves: handing the
    turn on, the start-of-round collisions of the final battle, the end-of-round
    verdict and the draw that decides who starts. */
module Turn {
  import opened Types
  import opened State
  import opened Resolve
  import opened Board
  import Utils

  // ----- advanceToNextPlayer -----

  /** The first index of `x` in `ids`, or -1 (`Array.prototype.indexOf`). */
  function IndexOf(ids: seq<PlayerId>, x: PlayerId): (r: int)
    ensures -1 <= r < |ids|
    ensures r == -1 <==> x !in ids
    ensures r >= 0 ==> ids[r] == x && forall j :: 0 <= j < r ==> ids[j] != x
  {
    if ids == [] then -1
    else if ids[0] == x then 0
    else var r := IndexOf(ids[1..], x); if r == -1 then -1 else r + 1
  }

  /** How many steps round the ring of `n` seats lead from seat `start` to
      seat `k`; seat `start` itself is a full lap away. */
  function Ahead(start: int, k: nat, n: nat): nat
    requires -1 <= start < n && k < n
  {
    if k > start then k - start else k + n - start
  }

  /** The seat after seat `i` in a ring of `n` seats, `(i + 1) % n`. */
  function Succ(i: int, n: nat): (r: nat)
    requires -1 <= i < n && 0 < n
    ensures r == if i + 1 == n then 0 else i + 1
  {
    (i + 1) % n
  }

  /** Seat `next` holds the first player not eliminated after seat `start`,
      going round the rotation. */
  predicate FirstActiveAfter(players: map<PlayerId, Player>, ids: seq<PlayerId>, start: int, next: int)
    requires forall id :: id in ids ==> id in players
    requires -1 <= start < |ids|
  {
    && 0 <= next < |ids|
    && !players[ids[next]].isEliminated
    && forall k :: 0 <= k < |ids| && Ahead(start, k, |ids|) < Ahead(start, next, |ids|) ==> players[ids[k]].isEliminated
  }

  /** `next` is the player whose turn follows `current`'s. */
  ghost predicate FollowsInRotation(players: map<PlayerId, Player>, ids: seq<PlayerId>, current: PlayerId, next: PlayerId)
    requires forall id :: id in ids ==> id in players
  {
    exists seat :: FirstActiveAfter(players, ids, IndexOf(ids, current), seat) && ids[seat] == next
  }

  /** The do-while of `advanceToNextPlayer`: step one seat at a time, wrapping
      round, until a player not eliminated is found. */
  method NextSeat(players: map<PlayerId, Player>, ids: seq<PlayerId>, start: int) returns (next: int)
    requires forall id :: id in ids ==> id in players
    requires -1 <= start < |ids|
    requires exists k :: 0 <= k < |ids| && !players[ids[k]].isEliminated
    ensures FirstActiveAfter(players, ids, start, next)
  {
    var n := |ids|;
    next := Succ(start, n);
    while players[ids[next]].isEliminated
      invariant 0 <= next < n
      invariant forall k :: 0 <= k < n && Ahead(start, k, n) < Ahead(start, next, n) ==> players[ids[k]].isEliminated
      decreases n - Ahead(start, next, n)
    {
      next := Succ(next, n);
    }
  }

  /** The seat a rotation step lands on is determined by the seat it leaves. */
  lemma RotationUnique(players: map<PlayerId, Player>, ids: seq<PlayerId>, start: int, a: int, b: int)
    requires forall id :: id in ids ==> id in players
    requires -1 <= start < |ids|
    requires FirstActiveAfter(players, ids, start, a) && FirstActiveAfter(players, ids, start, b)
    ensures a == b
  {
    var n := |ids|;
    assert Ahead(start, a, n) == Ahead(start, b, n);
  }

  /** The next player in the rotation is unique. */
  lemma FollowerUnique(players: map<PlayerId, Player>, ids: seq<PlayerId>, current: PlayerId, p: PlayerId, q: PlayerId)
    requires forall id :: id in ids ==> id in players
    requires FollowsInRotation(players, ids, current, p) && FollowsInRotation(players, ids, current, q)
    ensures p == q
  {
    var start := IndexOf(ids, current);
    var s :| FirstActiveAfter(players, ids, start, s) && ids[s] == p;
    var t :| FirstActiveAfter(players, ids, start, t) && ids[t] == q;
    RotationUnique(players, ids, start, s, t);
  }

  /** How many value cards a hand holds. */
  function ValueCount(hand: seq<Card>): (r: nat)
    ensures r <= |hand|
  {
    if hand == [] then 0 else (if hand[0].ctype == ValueCard then 1 else 0) + ValueCount(hand[1..])
  }

  /** The end-turn button's rule: a human holding two or more value cards may
      not end the turn before playing one (js/ui-handlers.js:230-234). */
  predicate MayEndTurn(p: Player)
  {
    p.isHuman ==> ValueCount(p.hand) < 2 || p.playedValueCardThisTurn
  }

  /** What follows a turn: the round resolves, or it is someone's turn. */
  datatype TurnOutcome = RoundOver | NextTurn(next: PlayerId)

  /** The pass counter and the rotation of `advanceToNextPlayer`: a turn
      without a card is a pass; once every player in play has passed in a
      row the round is over, otherwise the turn moves round the seats. */
  method PassTurn(players: map<PlayerId, Player>, ids: seq<PlayerId>, current: PlayerId, playedAny: bool,
                  passes: int) returns (newPasses: int, outcome: TurnOutcome)
    requires forall id :: id in ids ==> id in players
    requires passes >= 0
    ensures newPasses == if playedAny then 0 else passes + 1
    ensures outcome.RoundOver? <==> newPasses >= |Active(players, ids)|
    ensures outcome.NextTurn? ==>
      && FollowsInRotation(players, ids, current, outcome.next)
      && outcome.next in ids && !players[outcome.next].isEliminated
  {
    newPasses := if playedAny then 0 else passes + 1;
    var active := Active(players, ids);
    if newPasses >= |active| {
      return newPasses, RoundOver;
    }
    assert active[0] in ids && !players[active[0]].isEliminated;
    var start := IndexOf(ids, current);
    var seat := NextSeat(players, ids, start);
    outcome := NextTurn(ids[seat]);
  }

  /** The turn passes to `next` with a clean selection. */
  method HandOver(g: GameState, next: PlayerId)
    modifies g`currentPlayer, g`selectedCard, g`playedAnyCardThisTurn, g`gamePhase
    ensures g.currentPlayer == next && g.selectedCard.None? && !g.playedAnyCardThisTurn && g.gamePhase == Playing
  {
    g.currentPlayer := next;
    g.selectedCard := None;
    g.playedAnyCardThisTurn := false;
    g.gamePhase := Playing;
  }

  /** `advanceToNextPlayer()` up to the call that continues the game:
      `RoundOver` stands for `resolveRound`, `NextTurn` for the next player's
      turn. */
  method AdvanceToNextPlayer(g: GameState) returns (outcome: TurnOutcome)
    requires g.Valid() && g.currentPlayer in g.players && g.consecutivePasses >= 0
    requires MayEndTurn(g.players[g.currentPlayer])
    modifies g`players, g`consecutivePasses, g`currentPlayer, g`selectedCard, g`playedAnyCardThisTurn, g`gamePhase
    ensures g.Valid()
    ensures var cur := old(g.currentPlayer);
      g.players == old(g.players)[cur := old(g.players)[cur].(playedValueCardThisTurn := false)]
    ensures g.consecutivePasses == if old(g.playedAnyCardThisTurn) then 0 else old(g.consecutivePasses) + 1
    ensures outcome.RoundOver? <==> g.consecutivePasses >= |Active(old(g.players), g.playerIdsInGame)|
    ensures outcome.RoundOver? ==>
      && g.currentPlayer == old(g.currentPlayer) && g.selectedCard == old(g.selectedCard)
      && g.playedAnyCardThisTurn == old(g.playedAnyCardThisTurn) && g.gamePhase == old(g.gamePhase)
    ensures outcome.NextTurn? ==>
      && outcome.next in g.playerIdsInGame && !old(g.players)[outcome.next].isEliminated
      && FollowsInRotation(old(g.players), g.playerIdsInGame, old(g.currentPlayer), outcome.next)
      && g.currentPlayer == outcome.next && g.selectedCard.None? && !g.playedAnyCardThisTurn
      && g.gamePhase == Playing
  {
    var players, ids, cur := g.players, g.playerIdsInGame, g.currentPlayer;
    var passes;
    passes, outcome := PassTurn(players, ids, cur, g.playedAnyCardThisTurn, g.consecutivePasses);
    g.players := players[cur := players[cur].(playedValueCardThisTurn := false)];
    assert g.players.Keys == players.Keys;
    g.consecutivePasses := passes;
    if outcome.NextTurn? {
      HandOver(g, outcome.next);
    }
  }

  // ----- checkStartOfRoundCollisions -----

  /** Two pawns on the same space of the same path. */
  predicate SameSpot(a: Player, b: Player)
  {
    a.pathId == b.pathId && a.position == b.position
  }

  /** The final battle's Necroversos still in play, in seat order. */
  function Necros(players: map<PlayerId, Player>, ids: seq<PlayerId>): (r: seq<PlayerId>)
    requires forall id :: id in ids ==> id in players
    ensures forall id :: id in r <==> id in ids && players[id].aiType == NecroversoFinalAi && !players[id].isEliminated
  {
    if ids == [] then []
    else if players[ids[0]].aiType == NecroversoFinalAi && !players[ids[0]].isEliminated
    then [ids[0]] + Necros(players, ids[1..])
    else Necros(players, ids[1..])
  }

  /** What the collision loop carries: the players, the Versatrix power flag,
      the board and whether the battle is lost. */
  datatype Watch = Watch(players: map<PlayerId, Player>, disabled: bool, paths: seq<BoardPath>, lost: bool)

  /** The human, still in play, shares a space with the Necroverso `n`. */
  predicate HumanCaught(players: map<PlayerId, Player>, n: PlayerId)
    requires n in players
  {
    PLAYER1 in players && !players[PLAYER1].isEliminated && SameSpot(players[PLAYER1], players[n])
  }

  /** The Versatrix, still in play, shares a space with the Necroverso `n`. */
  predicate VersatrixCaught(players: map<PlayerId, Player>, v: Option<PlayerId>, n: PlayerId)
    requires n in players
  {
    v.Some? && v.value in players && !players[v.value].isEliminated && SameSpot(players[v.value], players[n])
  }

  /** One Necroverso's check: catching the human loses the battle; catching
      the Versatrix eliminates her, disables her power and neutralises the
      yellow spaces. */
  function Collide(w: Watch, v: Option<PlayerId>, n: PlayerId): Watch
    requires n in w.players
  {
    if HumanCaught(w.players, n) then w.(lost := true)
    else if VersatrixCaught(w.players, v, n) then
      Watch(w.players[v.value := w.players[v.value].(isEliminated := true)], true, Whiten(w.paths), false)
    else w
  }

  /** The loop over the Necroversos, stopping at the first loss. */
  function Collisions(w: Watch, v: Option<PlayerId>, necros: seq<PlayerId>): Watch
    requires forall n :: n in necros ==> n in w.players
    ensures Collisions(w, v, necros).players.Keys == w.players.Keys
    decreases |necros|
  {
    if necros == [] || w.lost then w else Collisions(Collide(w, v, necros[0]), v, necros[1..])
  }

  /** The `for` loop over the Necroversos, breaking at the first loss. */
  method RunCollisions(w0: Watch, v: Option<PlayerId>, necros: seq<PlayerId>) returns (w: Watch)
    requires !w0.lost && forall n :: n in necros ==> n in w0.players
    ensures w == Collisions(w0, v, necros)
  {
    w := w0;
    var i := 0;
    while i < |necros|
      invariant i <= |necros| && !w.lost
      invariant w.players.Keys == w0.players.Keys
      invariant Collisions(w, v, necros[i..]) == Collisions(w0, v, necros)
    {
      var n := necros[i];
      assert necros[i..] == [n] + necros[i + 1..];
      if HumanCaught(w.players, n) {
        w := w.(lost := true);
        assert Collisions(w, v, necros[i + 1..]) == w;
        return;
      }
      if VersatrixCaught(w.players, v, n) {
        var vid := v.value;
        var paths := NeutralizeYellow(w.paths);
        w := Watch(w.players[vid := w.players[vid].(isEliminated := true)], true, paths, false);
      }
      i := i + 1;
    }
  }

  /** `checkStartOfRoundCollisions()`: true when a Necroverso has caught the
      human, which loses the final battle by collision. */
  method CheckStartOfRoundCollisions(g: GameState) returns (lost: bool)
    requires g.Valid()
    modifies g`players, g`versatrixPowerDisabled, g`boardPaths
    ensures g.Valid()
    ensures var w := Collisions(Watch(old(g.players), old(g.versatrixPowerDisabled), old(g.boardPaths), false),
                                FindVersatrix(old(g.players), g.playerIdsInGame),
                                Necros(old(g.players), g.playerIdsInGame));
      g.players == w.players && g.versatrixPowerDisabled == w.disabled && g.boardPaths == w.paths && lost == w.lost
  {
    var players, ids := g.players, g.playerIdsInGame;
    var w := RunCollisions(Watch(players, g.versatrixPowerDisabled, g.boardPaths, false),
                           FindVersatrix(players, ids), Necros(players, ids));
    g.players, g.versatrixPowerDisabled, g.boardPaths := w.players, w.disabled, w.paths;
    lost := w.lost;
  }

  /** The battle is lost exactly when some Necroverso in play shares the
      human's space, provided the Versatrix is not the human. */
  lemma {:induction false} LostIffCaught(w: Watch, v: Option<PlayerId>, necros: seq<PlayerId>)
    requires forall n :: n in necros ==> n in w.players
    requires !w.lost && (v.Some? ==> v.value != PLAYER1)
    ensures Collisions(w, v, necros).lost <==> exists n :: n in necros && HumanCaught(w.players, n)
    decreases |necros|
  {
    if necros != [] {
      var n := necros[0];
      var w1 := Collide(w, v, n);
      if !HumanCaught(w.players, n) {
        assert forall m :: m in w.players ==>
          w1.players[m].pathId == w.players[m].pathId && w1.players[m].position == w.players[m].position;
        assert PLAYER1 in w1.players <==> PLAYER1 in w.players;
        assert PLAYER1 in w.players ==> w1.players[PLAYER1] == w.players[PLAYER1];
        assert forall m :: m in necros[1..] ==> (HumanCaught(w1.players, m) <==> HumanCaught(w.players, m));
        LostIffCaught(w1, v, necros[1..]);
        assert forall m :: m in necros ==> m == n || m in necros[1..];
      }
    }
  }

  /** Only the Versatrix can change: she is eliminated, her power disabled
      and the yellow spaces neutralised, or nothing changes. */
  lemma {:induction false} CollisionsTouchOnlyVersatrix(w: Watch, v: Option<PlayerId>, necros: seq<PlayerId>)
    requires forall n :: n in necros ==> n in w.players
    ensures var r := Collisions(w, v, necros);
      || (r.players == w.players && r.disabled == w.disabled && r.paths == w.paths)
      || (&& v.Some? && v.value in w.players
          && r.players == w.players[v.value := w.players[v.value].(isEliminated := true)]
          && r.disabled && r.paths == Whiten(w.paths))
    decreases |necros|
  {
    if necros != [] && !w.lost {
      var n := necros[0];
      var w1 := Collide(w, v, n);
      CollisionsTouchOnlyVersatrix(w1, v, necros[1..]);
      if w1.players != w.players {
        // once eliminated she is never caught again
        assert w1.players[v.value].isEliminated;
        assert w1 == Watch(w.players[v.value := w.players[v.value].(isEliminated := true)], true, Whiten(w.paths), false);
        StaysEliminated(w1, v, necros[1..]);
      }
    }
  }

  /** After the Versatrix is eliminated the loop changes nothing but the
      verdict. */
  lemma {:induction false} StaysEliminated(w: Watch, v: Option<PlayerId>, necros: seq<PlayerId>)
    requires forall n :: n in necros ==> n in w.players
    requires v.Some? && v.value in w.players && w.players[v.value].isEliminated
    ensures var r := Collisions(w, v, necros);
      r.players == w.players && r.disabled == w.disabled && r.paths == w.paths
    decreases |necros|
  {
    if necros != [] && !w.lost {
      StaysEliminated(Collide(w, v, necros[0]), v, necros[1..]);
    }
  }

  // ----- endGameCheck -----

  /** The verdict of `endGameCheck`: the Inversus duel is over, a story
      battle is won or lost, a standard game is over (with the speed-run
      achievement or not), the battle stops, or the next round starts. */
  datatype Ending =
    | DuelOver(humanWon: bool)
    | StoryOver(battle: Option<Battle>, won: bool)
    | GameOver(winners: seq<PlayerId>, teamA: bool, teamB: bool, speedRun: bool)
    | Halt
    | NextRound

  /** The ids of `xs` whose pawn reached the winning position, in order. */
  function Arrived(players: map<PlayerId, Player>, xs: seq<PlayerId>): (r: seq<PlayerId>)
    requires forall id :: id in xs ==> id in players
    ensures forall id :: id in r <==> id in xs && players[id].position >= WINNING_POSITION
  {
    if xs == [] then []
    else if players[xs[0]].position >= WINNING_POSITION then [xs[0]] + Arrived(players, xs[1..])
    else Arrived(players, xs[1..])
  }

  /** Every member of `team` seated in the game has reached the end; true of a
      team with no member seated. */
  predicate TeamHome(players: map<PlayerId, Player>, ids: seq<PlayerId>, team: seq<PlayerId>)
    requires forall id :: id in ids ==> id in players
  {
    forall id :: id in team && id in ids ==> players[id].position >= WINNING_POSITION
  }

  /** The first seated id other than the human's. */
  function Opponent(ids: seq<PlayerId>): (r: Option<PlayerId>)
    ensures r.Some? ==> r.value in ids && r.value != PLAYER1
    ensures r.None? ==> forall i :: 0 <= i < |ids| ==> ids[i] == PLAYER1
    ensures r.Some? ==> exists k :: 0 <= k < |ids| && ids[k] == r.value && forall j :: 0 <= j < k ==> ids[j] == PLAYER1
  {
    if ids == [] then None else if ids[0] != PLAYER1 then Some(ids[0]) else Opponent(ids[1..])
  }

  /** `getStoryWinner`: true for the human, false for the opposition, None
      while nobody has arrived. */
  function StoryWinner(players: map<PlayerId, Player>, ids: seq<PlayerId>, bt: BattleType): Option<bool>
    requires forall id :: id in ids ==> id in players
    requires PLAYER1 in players
  {
    if players[PLAYER1].position >= WINNING_POSITION then Some(true)
    else if bt == King1v3 then
      if exists id :: id in NECRO_IDS && id in players && players[id].position >= WINNING_POSITION
      then Some(false) else None
    else
      var opp := Opponent(ids);
      if (if opp.Some? then players[opp.value].position else -1) >= WINNING_POSITION then Some(false) else None
  }

  /** Five minutes, in milliseconds. */
  const SPEED_RUN_MS: nat := 300000

  /** `endGameCheck()` as a verdict. `elapsedMs` is the time since the game
      started (0 when no start time is recorded). */
  function EndGameCheck(players: map<PlayerId, Player>, ids: seq<PlayerId>, inversus: bool, story: bool,
                        finalBoss: bool, phase: Phase, bt: BattleType, battle: Option<Battle>, mode: Mode,
                        elapsedMs: nat): (e: Ending)
    requires forall id :: id in ids ==> id in players
    requires inversus ==> PLAYER1 in players && 2 in players
    requires story && !finalBoss ==> PLAYER1 in players
    ensures e.DuelOver? ==> inversus
    ensures e.StoryOver? ==> story && !finalBoss && e.battle == battle
    ensures e.GameOver? ==> !story && (mode == Solo || mode == Duo) && (e.speedRun <==> !inversus && elapsedMs < SPEED_RUN_MS)
    ensures e.Halt? ==> story && finalBoss && phase == GameOverPhase
  {
    if inversus && players[PLAYER1].hearts <= 0 then DuelOver(false)
    else if inversus && players[2].hearts <= 0 then DuelOver(true)
    else if story then
      if finalBoss then (if phase != GameOverPhase then NextRound else Halt)
      else
        var w := StoryWinner(players, ids, bt);
        if w.Some? then StoryOver(battle, w.value) else NextRound
    else
      var speed := !inversus && elapsedMs < SPEED_RUN_MS;
      if mode == Solo then
        var winners := Arrived(players, ids);
        if |winners| > 0 then GameOver(winners, false, false, speed) else NextRound
      else if mode == Duo then
        var a := TeamHome(players, ids, TEAM_A);
        var b := TeamHome(players, ids, TEAM_B);
        if a || b then GameOver([], a, b, speed) else NextRound
      else NextRound
  }

  /** Outside story mode, a solo game ends exactly when some pawn reached the
      winning position, and its winners are exactly those players. */
  lemma SoloEnds(players: map<PlayerId, Player>, ids: seq<PlayerId>, inversus: bool, phase: Phase,
                 bt: BattleType, battle: Option<Battle>, elapsedMs: nat)
    requires forall id :: id in ids ==> id in players
    requires inversus ==> PLAYER1 in players && 2 in players && players[PLAYER1].hearts > 0 && players[2].hearts > 0
    ensures var e := EndGameCheck(players, ids, inversus, false, false, phase, bt, battle, Solo, elapsedMs);
      && (e.GameOver? <==> exists id :: id in ids && players[id].position >= WINNING_POSITION)
      && (e.GameOver? ==> forall id :: id in e.winners <==> id in ids && players[id].position >= WINNING_POSITION)
      && (!e.GameOver? ==> e == NextRound)
  {
    var w := Arrived(players, ids);
    if |w| > 0 {
      assert w[0] in w;
    }
    if exists id :: id in ids && players[id].position >= WINNING_POSITION {
      var id :| id in ids && players[id].position >= WINNING_POSITION;
      assert id in w;
    }
  }

  /** A duo game ends when either team is home; a team with no member seated
      counts as home. */
  lemma DuoEnds(players: map<PlayerId, Player>, ids: seq<PlayerId>, phase: Phase, bt: BattleType,
                battle: Option<Battle>, elapsedMs: nat)
    requires forall id :: id in ids ==> id in players
    ensures var e := EndGameCheck(players, ids, false, false, false, phase, bt, battle, Duo, elapsedMs);
      && (e.GameOver? <==> TeamHome(players, ids, TEAM_A) || TeamHome(players, ids, TEAM_B))
      && (e.GameOver? ==> e.teamA == TeamHome(players, ids, TEAM_A) && e.teamB == TeamHome(players, ids, TEAM_B))
      && ((forall id :: id in TEAM_A ==> id !in ids) ==> e.GameOver? && e.teamA)
  {
  }

  /** The duel ends when either side has no heart left, the human's hearts
      being looked at first. */
  lemma DuelEnds(players: map<PlayerId, Player>, ids: seq<PlayerId>, story: bool, finalBoss: bool, phase: Phase,
                 bt: BattleType, battle: Option<Battle>, mode: Mode, elapsedMs: nat)
    requires forall id :: id in ids ==> id in players
    requires PLAYER1 in players && 2 in players
    ensures var e := EndGameCheck(players, ids, true, story, finalBoss, phase, bt, battle, mode, elapsedMs);
      && (e.DuelOver? <==> players[PLAYER1].hearts <= 0 || players[2].hearts <= 0)
      && (e.DuelOver? ==> (e.humanWon <==> players[PLAYER1].hearts > 0))
  {
  }

  /** A story battle other than the final one is won as soon as the human's
      pawn arrives, even when an opponent arrives in the same round, and is
      lost when only the opposition arrives. */
  lemma StoryEnds(players: map<PlayerId, Player>, ids: seq<PlayerId>, phase: Phase, bt: BattleType,
                  battle: Option<Battle>, mode: Mode, elapsedMs: nat)
    requires forall id :: id in ids ==> id in players
    requires PLAYER1 in players
    ensures var e := EndGameCheck(players, ids, false, true, false, phase, bt, battle, mode, elapsedMs);
      && (players[PLAYER1].position >= WINNING_POSITION ==> e == StoryOver(battle, true))
      && (e == StoryOver(battle, false) ==> players[PLAYER1].position < WINNING_POSITION)
      && (bt == King1v3 && players[PLAYER1].position < WINNING_POSITION ==>
            (e == StoryOver(battle, false) <==>
             exists id :: id in NECRO_IDS && id in players && players[id].position >= WINNING_POSITION))
  {
  }

  // ----- drawToStart -----

  /** The cards the seats draw, one pop of the deck per seat in seat order:
      the first seat takes the top (last) card. */
  function Dealt(deck: seq<Card>, ids: seq<PlayerId>): (r: map<PlayerId, Card>)
    requires |ids| <= |deck|
    ensures forall id :: id in r <==> id in ids
  {
    if ids == [] then map[]
    else Dealt(deck, ids[..|ids| - 1])[ids[|ids| - 1] := deck[|deck| - |ids|]]
  }

  /** Seat k draws the k-th card from the top. */
  lemma {:induction false} DealtAt(deck: seq<Card>, ids: seq<PlayerId>, k: nat)
    requires |ids| <= |deck| && Distinct(ids) && k < |ids|
    ensures Dealt(deck, ids)[ids[k]] == deck[|deck| - 1 - k]
    decreases |ids|
  {
    if k < |ids| - 1 {
      var front := ids[..|ids| - 1];
      assert front[k] == ids[k];
      DealtAt(deck, front, k);
    }
  }

  /** Whether `a` goes before `b` in the draw order: a strictly higher card. */
  predicate Beats(drawn: map<PlayerId, Card>, a: PlayerId, b: PlayerId)
    requires a in drawn && b in drawn
  {
    drawn[a].value > drawn[b].value
  }

  /** Ordered from the highest card down. */
  predicate Descending(drawn: map<PlayerId, Card>, xs: seq<PlayerId>)
    requires forall id :: id in xs ==> id in drawn
  {
    forall i, j :: 0 <= i < j < |xs| ==> drawn[xs[i]].value >= drawn[xs[j]].value
  }

  /** Inserts `x` after the ids with a strictly higher card and ahead of the
      first with one no higher, so an id that comes earlier stays ahead of
      the later ones with the same card, as in JavaScript's stable sort. */
  function Insert(drawn: map<PlayerId, Card>, x: PlayerId, xs: seq<PlayerId>): (r: seq<PlayerId>)
    requires x in drawn && forall id :: id in xs ==> id in drawn
    ensures |r| == |xs| + 1 && forall id :: id in r <==> id in xs || id == x
    ensures r[0] == x || (xs != [] && r[0] == xs[0])
  {
    if xs == [] then [x]
    else if drawn[xs[0]].value > drawn[x].value then [xs[0]] + Insert(drawn, x, xs[1..])
    else [x] + xs
  }

  /** `x` sits at position `k` of `r`, the rest of `r` is `xs` in order, and
      every id ahead of `x` has a strictly higher card. */
  predicate PlacedAt(drawn: map<PlayerId, Card>, x: PlayerId, xs: seq<PlayerId>, r: seq<PlayerId>, k: int)
    requires x in drawn && forall id :: id in r ==> id in drawn
  {
    && 0 <= k < |r| && r[k] == x && r[..k] + r[k + 1..] == xs
    && forall m :: 0 <= m < k ==> drawn[r[m]].value > drawn[x].value
  }

  /** `x` lands at one position, the other ids keep their order, and every id
      ahead of it has a strictly higher card, so `x` goes in front of any id
      with the same card. */
  lemma {:induction false} InsertPlaces(drawn: map<PlayerId, Card>, x: PlayerId, xs: seq<PlayerId>)
    requires x in drawn && forall id :: id in xs ==> id in drawn
    ensures exists k :: PlacedAt(drawn, x, xs, Insert(drawn, x, xs), k)
  {
    var r := Insert(drawn, x, xs);
    if xs == [] || drawn[xs[0]].value <= drawn[x].value {
      assert r[..0] + r[1..] == xs;
      assert PlacedAt(drawn, x, xs, r, 0);
    } else {
      var rest := Insert(drawn, x, xs[1..]);
      InsertPlaces(drawn, x, xs[1..]);
      var k :| PlacedAt(drawn, x, xs[1..], rest, k);
      Shifted(drawn, x, xs, rest, k);
    }
  }

  /** Putting the first id of `xs` in front moves the placement one step. */
  lemma Shifted(drawn: map<PlayerId, Card>, x: PlayerId, xs: seq<PlayerId>, rest: seq<PlayerId>, k: int)
    requires x in drawn && forall id :: id in xs ==> id in drawn
    requires forall id :: id in rest ==> id in drawn
    requires xs != [] && drawn[xs[0]].value > drawn[x].value && PlacedAt(drawn, x, xs[1..], rest, k)
    ensures PlacedAt(drawn, x, xs, [xs[0]] + rest, k + 1)
  {
    var r := [xs[0]] + rest;
    assert r[..k + 1] == [xs[0]] + rest[..k];
    assert r[k + 2..] == rest[k + 1..];
    assert xs == [xs[0]] + xs[1..];
    forall m | 0 <= m < k + 1 ensures drawn[r[m]].value > drawn[x].value {
      if m > 0 {
        assert r[m] == rest[m - 1];
      }
    }
  }

  /** Inserting adds exactly the one id. */
  lemma {:induction false} InsertPermutes(drawn: map<PlayerId, Card>, x: PlayerId, xs: seq<PlayerId>)
    requires x in drawn && forall id :: id in xs ==> id in drawn
    ensures multiset(Insert(drawn, x, xs)) == multiset(xs) + multiset{x}
  {
    if xs != [] && drawn[xs[0]].value > drawn[x].value {
      var head, tail := xs[0], xs[1..];
      InsertPermutes(drawn, x, tail);
      assert xs == [head] + tail;
      calc {
        multiset(Insert(drawn, x, xs));
        multiset([head] + Insert(drawn, x, tail));
        multiset{head} + multiset(Insert(drawn, x, tail));
        multiset{head} + multiset(tail) + multiset{x};
        multiset(xs) + multiset{x};
      }
    }
  }

  /** A card at least as high as the first of a descending sequence can go
      in front of it. */
  lemma ConsDescending(drawn: map<PlayerId, Card>, h: PlayerId, t: seq<PlayerId>)
    requires h in drawn && forall id :: id in t ==> id in drawn
    requires Descending(drawn, t) && (t != [] ==> drawn[h].value >= drawn[t[0]].value)
    ensures Descending(drawn, [h] + t)
  {
    var r := [h] + t;
    forall i, j | 0 <= i < j < |r| ensures drawn[r[i]].value >= drawn[r[j]].value {
      if i > 0 {
        assert r[i] == t[i - 1] && r[j] == t[j - 1];
      } else if j > 1 {
        assert drawn[t[0]].value >= drawn[t[j - 1]].value;
      }
    }
  }

  /** Inserting into a descending sequence keeps it descending. */
  lemma {:induction false} InsertDescending(drawn: map<PlayerId, Card>, x: PlayerId, xs: seq<PlayerId>)
    requires x in drawn && forall id :: id in xs ==> id in drawn
    requires Descending(drawn, xs)
    ensures Descending(drawn, Insert(drawn, x, xs))
  {
    if xs != [] && drawn[xs[0]].value > drawn[x].value {
      var rest := Insert(drawn, x, xs[1..]);
      InsertDescending(drawn, x, xs[1..]);
      if rest[0] != x {
        assert rest[0] == xs[1];
      }
      ConsDescending(drawn, xs[0], rest);
    } else {
      ConsDescending(drawn, x, xs);
    }
  }

  /** An id not in a sequence without repeats can go in front of it. */
  lemma ConsDistinct(h: PlayerId, t: seq<PlayerId>)
    requires h !in t && Distinct(t)
    ensures Distinct([h] + t)
  {
    var r := [h] + t;
    forall i, j | 0 <= i < j < |r| ensures r[i] != r[j] {
      assert r[j] == t[j - 1];
      if i > 0 {
        assert r[i] == t[i - 1];
      }
    }
  }

  /** Inserting a new id keeps the ids distinct. */
  lemma {:induction false} InsertDistinct(drawn: map<PlayerId, Card>, x: PlayerId, xs: seq<PlayerId>)
    requires x in drawn && forall id :: id in xs ==> id in drawn
    requires Distinct(xs) && x !in xs
    ensures Distinct(Insert(drawn, x, xs))
  {
    if xs != [] && drawn[xs[0]].value > drawn[x].value {
      assert xs == [xs[0]] + xs[1..];
      assert Distinct(xs[1..]) && xs[0] !in xs[1..] by {
        forall i, j | 0 <= i < j < |xs[1..]| ensures xs[1..][i] != xs[1..][j] {
          assert xs[1..][i] == xs[i + 1] && xs[1..][j] == xs[j + 1];
        }
        forall j | 0 <= j < |xs[1..]| ensures xs[1..][j] != xs[0] {
          assert xs[1..][j] == xs[j + 1];
        }
      }
      InsertDistinct(drawn, x, xs[1..]);
      ConsDistinct(xs[0], Insert(drawn, x, xs[1..]));
    } else {
      ConsDistinct(x, xs);
    }
  }

  /** `playerIdsInGame.sort((a, b) => drawn[b].value - drawn[a].value)`: the
      stable sort from the highest card down: each id is inserted, from the
      last to the first, ahead of the ids with the same card. */
  function SortByDraw(drawn: map<PlayerId, Card>, ids: seq<PlayerId>): (r: seq<PlayerId>)
    requires forall id :: id in ids ==> id in drawn
    ensures |r| == |ids| && forall id :: id in r <==> id in ids
  {
    if ids == [] then [] else Insert(drawn, ids[0], SortByDraw(drawn, ids[1..]))
  }

  /** The sort is a permutation of the seats. */
  lemma {:induction false} SortPermutes(drawn: map<PlayerId, Card>, ids: seq<PlayerId>)
    requires forall id :: id in ids ==> id in drawn
    ensures multiset(SortByDraw(drawn, ids)) == multiset(ids)
  {
    if ids != [] {
      var head, tail := ids[0], ids[1..];
      var rest := SortByDraw(drawn, tail);
      SortPermutes(drawn, tail);
      InsertPermutes(drawn, head, rest);
      assert ids == [head] + tail;
      calc {
        multiset(SortByDraw(drawn, ids));
        multiset(Insert(drawn, head, rest));
        multiset(rest) + multiset{head};
        multiset(tail) + multiset{head};
        multiset(ids);
      }
    }
  }

  /** The sort puts the seats in order from the highest card down. */
  lemma {:induction false} SortDescending(drawn: map<PlayerId, Card>, ids: seq<PlayerId>)
    requires forall id :: id in ids ==> id in drawn
    ensures Descending(drawn, SortByDraw(drawn, ids))
  {
    if ids != [] {
      SortDescending(drawn, ids[1..]);
      InsertDescending(drawn, ids[0], SortByDraw(drawn, ids[1..]));
    }
  }

  /** Sorting seats without repeats gives seats without repeats. */
  lemma {:induction false} SortDistinct(drawn: map<PlayerId, Card>, ids: seq<PlayerId>)
    requires forall id :: id in ids ==> id in drawn
    requires Distinct(ids)
    ensures Distinct(SortByDraw(drawn, ids))
  {
    if ids != [] {
      assert Distinct(ids[1..]) && ids[0] !in ids[1..] by {
        forall i, j | 0 <= i < j < |ids[1..]| ensures ids[1..][i] != ids[1..][j] {
          assert ids[1..][i] == ids[i + 1] && ids[1..][j] == ids[j + 1];
        }
        forall j | 0 <= j < |ids[1..]| ensures ids[1..][j] != ids[0] {
          assert ids[1..][j] == ids[j + 1];
        }
      }
      SortDistinct(drawn, ids[1..]);
      InsertDistinct(drawn, ids[0], SortByDraw(drawn, ids[1..]));
    }
  }

  /** The drawn cards in seat order, as they go back on the deck after a tie. */
  function CardsOf(drawn: map<PlayerId, Card>, ids: seq<PlayerId>): (r: seq<Card>)
    requires forall id :: id in ids ==> id in drawn
    ensures |r| == |ids|
    ensures forall k :: 0 <= k < |ids| ==> r[k] == drawn[ids[k]]
  {
    if ids == [] then [] else [drawn[ids[0]]] + CardsOf(drawn, ids[1..])
  }

  /** The deck after a tie, before the reshuffle: what was left under the
      drawn cards, then the drawn cards in seat order. */
  function Returned(deck: seq<Card>, drawn: map<PlayerId, Card>, ids: seq<PlayerId>): seq<Card>
    requires |ids| <= |deck| && forall id :: id in ids ==> id in drawn
  {
    deck[..|deck| - |ids|] + CardsOf(drawn, ids)
  }

  /** The draw is decided: one player, or a strictly highest first card. */
  predicate Decided(drawn: map<PlayerId, Card>, sorted: seq<PlayerId>)
    requires forall id :: id in sorted ==> id in drawn
  {
    |sorted| < 2 || Beats(drawn, sorted[0], sorted[1])
  }

  /** The deck the draw pops from: refilled with a refill shuffled deck when it
      holds fewer cards than there are seats. */
  function DrawDeck(deck: seq<Card>, refill: seq<Card>, seats: nat): seq<Card>
  {
    if |deck| < seats then deck + refill else deck
  }

  /** The forEach that pops one card per seat. */
  method DealOne(deck: seq<Card>, ids: seq<PlayerId>) returns (drawn: map<PlayerId, Card>, rest: seq<Card>)
    requires |ids| <= |deck|
    ensures drawn == Dealt(deck, ids)
    ensures rest == deck[..|deck| - |ids|]
  {
    drawn := map[];
    rest := deck;
    var i := 0;
    while i < |ids|
      invariant i <= |ids|
      invariant drawn == Dealt(deck, ids[..i])
      invariant rest == deck[..|deck| - i]
    {
      var card := rest[|rest| - 1];
      rest := rest[..|rest| - 1];
      assert ids[..i + 1][..i] == ids[..i];
      drawn := drawn[ids[i] := card];
      i := i + 1;
    }
    assert ids[..|ids|] == ids;
  }

  /** The forEach that puts the drawn cards back on the deck after a tie. */
  method PutBack(deck: seq<Card>, drawn: map<PlayerId, Card>, ids: seq<PlayerId>) returns (r: seq<Card>)
    requires forall id :: id in ids ==> id in drawn
    ensures r == deck + CardsOf(drawn, ids)
  {
    r := deck;
    var i := 0;
    while i < |ids|
      invariant i <= |ids|
      invariant r == deck + CardsOf(drawn, ids[..i])
    {
      assert CardsOf(drawn, ids[..i + 1]) == CardsOf(drawn, ids[..i]) + [drawn[ids[i]]];
      r := r + [drawn[ids[i]]];
      i := i + 1;
    }
    assert ids[..|ids|] == ids;
  }

  /** After a tie: the drawn cards go back on the deck in seat order and the
      deck is reshuffled. */
  method Redeal(ghost full: seq<Card>, rest: seq<Card>, drawn: map<PlayerId, Card>, ids: seq<PlayerId>,
                rand: nat -> nat) returns (deck: seq<Card>)
    requires |ids| <= |full| && rest == full[..|full| - |ids|]
    requires forall id :: id in ids ==> id in drawn
    ensures multiset(deck) == multiset(Returned(full, drawn, ids))
  {
    var back := PutBack(rest, drawn, ids);
    deck := Utils.ShuffleSeq(back, rand);
  }

  /** The draw from `deck` for the seats `ids`: every seat draws, the seats
      are sorted from the highest card down, the draw is decided by a
      strictly highest card, and on a tie the deck gets the drawn cards back. */
  predicate DrawnAs(deck: seq<Card>, ids: seq<PlayerId>, refill: seq<Card>, decided: bool,
                    sorted: seq<PlayerId>, drawn: map<PlayerId, Card>, rest: seq<Card>)
    requires |DrawDeck(deck, refill, |ids|)| >= |ids|
  {
    var full := DrawDeck(deck, refill, |ids|);
    && drawn == Dealt(full, ids)
    && sorted == SortByDraw(drawn, ids)
    && (decided <==> Decided(drawn, sorted))
    && (decided ==> rest == full[..|full| - |ids|])
    && (!decided ==> multiset(rest) == multiset(Returned(full, drawn, ids)))
  }

  /** The draw itself: refill if need be, one card per seat, sort the seats
      from the highest card down, and on a tie put the cards back and
      reshuffle. `refill` is the shuffled new deck a refill adds; `rand`
      drives the reshuffle. */
  method Draw(deck: seq<Card>, ids: seq<PlayerId>, refill: seq<Card>, rand: nat -> nat)
    returns (decided: bool, sorted: seq<PlayerId>, drawn: map<PlayerId, Card>, rest: seq<Card>)
    requires Distinct(ids) && |DrawDeck(deck, refill, |ids|)| >= |ids|
    ensures DrawnAs(deck, ids, refill, decided, sorted, drawn, rest)
    ensures |sorted| == |ids| && Distinct(sorted) && forall id :: id in sorted <==> id in ids
  {
    var full := DrawDeck(deck, refill, |ids|);
    drawn, rest := DealOne(full, ids);
    sorted := SortByDraw(drawn, ids);
    assert Distinct(sorted) by {
      SortDistinct(drawn, ids);
    }
    if Decided(drawn, sorted) {
      decided := true;
    } else {
      rest := Redeal(full, rest, drawn, ids, rand);
      decided := false;
    }
  }

  /** Installs a draw's outcome: the rotation in draw order and the deck
      that is left; when decided, the winner starts and the drawn cards are
      kept. */
  method Install(g: GameState, decided: bool, sorted: seq<PlayerId>, drawn: map<PlayerId, Card>, rest: seq<Card>)
    requires |sorted| > 0
    modifies g`valueDeck, g`playerIdsInGame, g`currentPlayer, g`initialDrawCards
    ensures g.valueDeck == rest && g.playerIdsInGame == sorted
    ensures decided ==> g.currentPlayer == sorted[0] && g.initialDrawCards == Some(drawn)
    ensures !decided ==> g.currentPlayer == old(g.currentPlayer) && g.initialDrawCards == old(g.initialDrawCards)
  {
    g.valueDeck, g.playerIdsInGame := rest, sorted;
    if decided {
      g.currentPlayer, g.initialDrawCards := sorted[0], Some(drawn);
    }
  }

  /** `drawToStart()` up to its continuation: true when the draw decided the
      first player (then `finalizeGameStart` follows), false on a tie (the
      cards went back, the deck was reshuffled and the draw is repeated).
      The sort reorders the turn rotation itself. */
  method DrawToStart(g: GameState, refill: seq<Card>, rand: nat -> nat) returns (decided: bool, drawn: map<PlayerId, Card>)
    requires g.Valid() && |g.playerIdsInGame| > 0
    requires |DrawDeck(g.valueDeck, refill, |g.playerIdsInGame|)| >= |g.playerIdsInGame|
    modifies g`valueDeck, g`playerIdsInGame, g`currentPlayer, g`initialDrawCards
    ensures g.Valid()
    ensures DrawnAs(old(g.valueDeck), old(g.playerIdsInGame), refill, decided, g.playerIdsInGame, drawn, g.valueDeck)
    ensures decided ==> g.currentPlayer == g.playerIdsInGame[0] && g.initialDrawCards == Some(drawn)
    ensures !decided ==> g.currentPlayer == old(g.currentPlayer) && g.initialDrawCards == old(g.initialDrawCards)
  {
    var deck, ids := g.valueDeck, g.playerIdsInGame;
    var sorted, rest;
    decided, sorted, drawn, rest := Draw(deck, ids, refill, rand);
    Install(g, decided, sorted, drawn, rest);
  }

  /** A decided draw is won by the one player whose card is strictly higher
      than every other; an undecided one has two players sharing the highest
      card. */
  lemma DrawWinner(drawn: map<PlayerId, Card>, ids: seq<PlayerId>)
    requires Distinct(ids) && |ids| > 0 && forall id :: id in ids ==> id in drawn
    ensures var sorted := SortByDraw(drawn, ids);
      && sorted[0] in ids
      && (forall id :: id in ids ==> drawn[sorted[0]].value >= drawn[id].value)
      && (Decided(drawn, sorted) <==> forall id :: id in ids && id != sorted[0] ==> drawn[sorted[0]].value > drawn[id].value)
  {
    var sorted := SortByDraw(drawn, ids);
    SortDescending(drawn, ids);
    SortDistinct(drawn, ids);
    forall id | id in ids ensures drawn[sorted[0]].value >= drawn[id].value {
      var k :| 0 <= k < |sorted| && sorted[k] == id;
    }
    if |sorted| >= 2 && !Beats(drawn, sorted[0], sorted[1]) {
      assert sorted[1] in ids && sorted[1] != sorted[0];
    }
    if Decided(drawn, sorted) {
      forall id | id in ids && id != sorted[0] ensures drawn[sorted[0]].value > drawn[id].value {
        var k :| 0 <= k < |sorted| && sorted[k] == id;
        assert k >= 1;
      }
    }
  }
}
