/** Round resolution (`resolveRound` in js/game.js): the round's scores, the
    Versatrix score swap, winners and losers per mode, the next starter, the
    heart loss of Inversus mode, and the movement of every pawn (win bonus,
    field effects, card effects, path jumps, bounds). */
module Resolve {
  import opened Types
  import opened State
  import opened Scoring

  // ----- tally: scores, winners, losers, next starter -----

  /** The first Versatrix in the order of the rotation (the order the players
      object was filled in). */
  function FindVersatrix(players: map<PlayerId, Player>, ids: seq<PlayerId>): (r: Option<PlayerId>)
    requires forall id :: id in ids ==> id in players
    ensures r.Some? ==> r.value in ids && players[r.value].aiType == VersatrixAi
    ensures r.None? ==> forall id :: id in ids ==> players[id].aiType != VersatrixAi
  {
    if ids == [] then None
    else if players[ids[0]].aiType == VersatrixAi then Some(ids[0])
    else FindVersatrix(players, ids[1..])
  }

  /** `scores[id] || 0`. */
  function Get(scores: map<PlayerId, int>, id: PlayerId): int
  {
    if id in scores then scores[id] else 0
  }

  /** The sum of `scores[id] || 0` over the listed ids. */
  function SumGet(scores: map<PlayerId, int>, ids: seq<PlayerId>): int
  {
    if ids == [] then 0 else Get(scores, ids[0]) + SumGet(scores, ids[1..])
  }

  /** The ids of `xs` that are in `keep`, in order. */
  function Filter(xs: seq<PlayerId>, keep: seq<PlayerId>): (r: seq<PlayerId>)
    ensures forall id :: id in r <==> id in xs && id in keep
    ensures |r| <= |xs|
  {
    if xs == [] then []
    else if xs[0] in keep then [xs[0]] + Filter(xs[1..], keep)
    else Filter(xs[1..], keep)
  }

  /** The ids of `xs` that are not in `drop`, in order. */
  function Without(xs: seq<PlayerId>, drop: seq<PlayerId>): (r: seq<PlayerId>)
    ensures forall id :: id in r <==> id in xs && id !in drop
  {
    if xs == [] then []
    else if xs[0] in drop then Without(xs[1..], drop)
    else [xs[0]] + Without(xs[1..], drop)
  }

  /** The players not eliminated, in order. */
  function Active(players: map<PlayerId, Player>, ids: seq<PlayerId>): (r: seq<PlayerId>)
    requires forall id :: id in ids ==> id in players
    ensures forall id :: id in r <==> id in ids && !players[id].isEliminated
  {
    if ids == [] then []
    else if !players[ids[0]].isEliminated then [ids[0]] + Active(players, ids[1..])
    else Active(players, ids[1..])
  }

  /** The scores of the listed ids, in order. */
  function ScoresOf(scores: map<PlayerId, int>, ids: seq<PlayerId>): (r: seq<int>)
    requires forall id :: id in ids ==> id in scores
    ensures |r| == |ids|
    ensures forall k :: 0 <= k < |ids| ==> r[k] == scores[ids[k]]
  {
    if ids == [] then [] else [scores[ids[0]]] + ScoresOf(scores, ids[1..])
  }

  /** The listed ids whose score is `s`, in order. */
  function AtScore(scores: map<PlayerId, int>, ids: seq<PlayerId>, s: int): (r: seq<PlayerId>)
    requires forall id :: id in ids ==> id in scores
    ensures forall id :: id in r <==> id in ids && scores[id] == s
  {
    if ids == [] then []
    else if scores[ids[0]] == s then [ids[0]] + AtScore(scores, ids[1..], s)
    else AtScore(scores, ids[1..], s)
  }

  /** What the tally of a round decides. */
  datatype Tally = Tally(
    scores: map<PlayerId, int>,     // after the Versatrix swap
    versatrix: Option<PlayerId>,
    swap: bool,
    winners: seq<PlayerId>,
    losers: seq<PlayerId>)

  /** Versatrix's 'Campo Versátil': from turn 2 on, when she scores less than
      the human and the human stands on space 6 to 9. */
  predicate SwapTriggered(players: map<PlayerId, Player>, v: Option<PlayerId>, fe: seq<FieldEffect>,
                          rta: bool, turn: int)
    requires v.Some? ==> v.value in players
  {
    && v.Some? && PLAYER1 in players && turn >= 2
    && Score(players[v.value], v.value, fe, rta) < Score(players[PLAYER1], PLAYER1, fe, rta)
    && players[PLAYER1].position in {6, 7, 8, 9}
  }

  /** The winners by mode, as the branches push them. */
  function WinnersOf(players: map<PlayerId, Player>, ids: seq<PlayerId>, scores: map<PlayerId, int>,
                     bt: BattleType, finalBoss: bool, mode: Mode): (r: seq<PlayerId>)
    requires forall id :: id in ids ==> id in players && id in scores
    requires bt == King1v3 || finalBoss ==> forall id :: id in MASTER_PLAYER_IDS ==> id in ids
    ensures forall id :: id in r ==> id in ids
  {
    assert forall id :: id in NECRO_IDS + [1, 4] + [2, 3] ==> id in MASTER_PLAYER_IDS;
    if bt == King1v3 then
      var p1 := Get(scores, PLAYER1);
      var necro := SumGet(scores, NECRO_IDS);
      if p1 > necro then [PLAYER1] else if necro > p1 then NECRO_IDS else MASTER_PLAYER_IDS
    else if finalBoss then
      var a := Get(scores, 1) + Get(scores, 4);
      var b := Get(scores, 2) + Get(scores, 3);
      if a > b then [1, 4] else if b > a then [2, 3] else []
    else if mode == Duo then
      var a := SumGet(scores, TEAM_A);
      var b := SumGet(scores, TEAM_B);
      if a > b then Filter(TEAM_A, ids) else if b > a then Filter(TEAM_B, ids) else []
    else
      var active := Active(players, ids);
      if active == [] then [] else AtScore(scores, active, MaxOf(ScoresOf(scores, active)))
  }

  /** The losers the mode branches push before the catch-all loop. */
  function BranchLosers(ids: seq<PlayerId>, scores: map<PlayerId, int>, bt: BattleType, finalBoss: bool,
                        mode: Mode): (r: seq<PlayerId>)
    requires bt == King1v3 || finalBoss ==> forall id :: id in MASTER_PLAYER_IDS ==> id in ids
    ensures forall id :: id in r ==> id in ids
  {
    assert forall id :: id in NECRO_IDS + [1, 4] + [2, 3] ==> id in MASTER_PLAYER_IDS;
    if bt == King1v3 then
      var p1 := Get(scores, PLAYER1);
      var necro := SumGet(scores, NECRO_IDS);
      if p1 > necro then NECRO_IDS else if necro > p1 then [PLAYER1] else []
    else if finalBoss then
      var a := Get(scores, 1) + Get(scores, 4);
      var b := Get(scores, 2) + Get(scores, 3);
      if a > b then [2, 3] else if b > a then [1, 4] else []
    else if mode == Duo then
      var a := SumGet(scores, TEAM_A);
      var b := SumGet(scores, TEAM_B);
      if a > b then Filter(TEAM_B, ids) else if b > a then Filter(TEAM_A, ids) else []
    else []
  }

  /** The round's scores (swapped by Campo Versátil), winners and losers;
      every winner and loser is a player of the game, and a swap has both
      parties. */
  function TallyOf(players: map<PlayerId, Player>, ids: seq<PlayerId>, fe: seq<FieldEffect>, rta: bool,
                   turn: int, bt: BattleType, finalBoss: bool, mode: Mode): (t: Tally)
    requires forall id :: id in players <==> id in ids
    requires bt == King1v3 || finalBoss ==> forall id :: id in MASTER_PLAYER_IDS ==> id in players
    ensures forall id :: id in t.winners ==> id in ids
    ensures forall id :: id in t.losers ==> id in ids
    ensures t.swap ==> PLAYER1 in ids && t.versatrix.Some? && t.versatrix.value in ids
  {
    var v := FindVersatrix(players, ids);
    var swap := SwapTriggered(players, v, fe, rta, turn);
    var raw := map id | id in ids :: Score(players[id], id, fe, rta);
    var scores := if swap then raw[PLAYER1 := raw[v.value]][v.value := raw[PLAYER1]] else raw;
    var winners := WinnersOf(players, ids, scores, bt, finalBoss, mode);
    Tally(scores, v, swap, winners, BranchLosers(ids, scores, bt, finalBoss, mode) + Without(ids, winners))
  }

  /** `resto?.value || 0`. */
  function RestoValue(p: Player): int
  {
    if p.resto.Some? then p.resto.value.value else 0
  }

  function RestosOf(players: map<PlayerId, Player>, ids: seq<PlayerId>): (r: seq<int>)
    requires forall id :: id in ids ==> id in players
    ensures |r| == |ids|
    ensures forall k :: 0 <= k < |ids| ==> r[k] == RestoValue(players[ids[k]])
  {
    if ids == [] then [] else [RestoValue(players[ids[0]])] + RestosOf(players, ids[1..])
  }

  function WithResto(players: map<PlayerId, Player>, ids: seq<PlayerId>, v: int): (r: seq<PlayerId>)
    requires forall id :: id in ids ==> id in players
    ensures forall id :: id in r <==> id in ids && RestoValue(players[id]) == v
  {
    if ids == [] then []
    else if RestoValue(players[ids[0]]) == v then [ids[0]] + WithResto(players, ids[1..], v)
    else WithResto(players, ids[1..], v)
  }

  /** The next starter: the only winner, or among tied winners one with the
      highest resto; `pick` stands for the shuffle that chooses among those. */
  function NextStarter(players: map<PlayerId, Player>, winners: seq<PlayerId>, pick: nat): (r: Option<PlayerId>)
    requires forall id :: id in winners ==> id in players
    ensures r.Some? <==> winners != []
    ensures r.Some? ==> r.value in winners
    ensures |winners| == 1 ==> r == Some(winners[0])
    ensures |winners| > 1 ==> forall w :: w in winners ==> RestoValue(players[w]) <= RestoValue(players[r.value])
  {
    if winners == [] then None
    else if |winners| == 1 then Some(winners[0])
    else
      var restos := RestosOf(players, winners);
      var best := MaxOf(restos);
      var k :| 0 <= k < |restos| && restos[k] == best;
      var tied := WithResto(players, winners, best);
      assert winners[k] in tied;
      assert forall w :: w in winners ==> RestoValue(players[w]) <= best by {
        forall w | w in winners ensures RestoValue(players[w]) <= best {
          var j :| 0 <= j < |winners| && winners[j] == w;
          assert restos[j] in restos;
        }
      }
      Some(tied[pick % |tied|])
  }

  // ----- movement -----

  /** How often `x` occurs in `xs`. */
  function Count(xs: seq<PlayerId>, x: PlayerId): nat
  {
    if xs == [] then 0 else (if xs[|xs| - 1] == x then 1 else 0) + Count(xs[..|xs| - 1], x)
  }

  /** The win bonus: none under 'Parada'; under 'Desafio' 3 if no Mais or Sobe
      was played on the winner, else 1; otherwise 1. */
  function WinBonus(p: Player, id: PlayerId, fe: seq<FieldEffect>): (r: int)
    ensures 0 <= r <= 3 && (r == 0 <==> HasField(fe, id, Parada))
    ensures r == 3 ==> HasField(fe, id, Desafio)
  {
    if HasField(fe, id, Parada) then 0
    else if HasField(fe, id, Desafio) then
      (if exists c :: c in p.playedEffect && (c.name == Mais || c.name == Sobe) then 1 else 3)
    else 1
  }

  /** The losing shift: +1 under 'Impulso', otherwise −3 under 'Castigo'. */
  function LoserShift(id: PlayerId, fe: seq<FieldEffect>): int
  {
    if HasField(fe, id, Impulso) then 1 else if HasField(fe, id, Castigo) then -3 else 0
  }

  /** The card movement: Sobe +1, Desce −1, doubled by 'Super Exposto'. */
  function CardShift(p: Player, id: PlayerId, fe: seq<FieldEffect>): int
  {
    if p.effects.movement == Some(Sobe) then 1
    else if p.effects.movement == Some(Desce) then (if HasField(fe, id, SuperExposto) then -2 else -1)
    else 0
  }

  /** `n` additions of `x`, as repeated `+=` steps add them. */
  function Times(n: nat, x: int): int
  {
    if n == 0 then 0 else Times(n - 1, x) + x
  }

  /** `xs.forEach(id => movements[id] += delta(id))`: one step per occurrence. */
  function AddEach(m: map<PlayerId, int>, xs: seq<PlayerId>, delta: PlayerId -> int): (r: map<PlayerId, int>)
    ensures r.Keys == m.Keys
  {
    if xs == [] then m
    else
      var q := AddEach(m, xs[..|xs| - 1], delta);
      var id := xs[|xs| - 1];
      if id in q then q[id := q[id] + delta(id)] else q
  }

  /** The winners' bonus as a per-id delta. */
  function WinDelta(players: map<PlayerId, Player>, fe: seq<FieldEffect>): PlayerId -> int
  {
    id => if id in players then WinBonus(players[id], id, fe) else 0
  }

  /** The losers' shift as a per-id delta. */
  function LoseDelta(fe: seq<FieldEffect>): PlayerId -> int
  {
    (id: PlayerId) => LoserShift(id, fe)
  }

  /** The card movement as a per-id delta. */
  function CardDelta(players: map<PlayerId, Player>, fe: seq<FieldEffect>): PlayerId -> int
  {
    id => if id in players then CardShift(players[id], id, fe) else 0
  }

  /** `Object.fromEntries(playerIds.map(id => [id, 0]))`. */
  function ZeroMoves(ids: seq<PlayerId>): (r: map<PlayerId, int>)
    ensures forall id :: id in r <==> id in ids
  {
    map id | id in ids :: 0
  }

  /** The movements map after the winners', losers' and card loops. */
  function RoundMoves(players: map<PlayerId, Player>, ids: seq<PlayerId>, winners: seq<PlayerId>,
                      losers: seq<PlayerId>, fe: seq<FieldEffect>): (r: map<PlayerId, int>)
    ensures forall id :: id in r <==> id in ids
  {
    AddEach(AddEach(AddEach(ZeroMoves(ids), winners, WinDelta(players, fe)), losers, LoseDelta(fe)), ids,
            CardDelta(players, fe))
  }

  /** The destructuring swap of two entries. */
  function Swapped(m: map<PlayerId, int>, a: PlayerId, b: PlayerId): (r: map<PlayerId, int>)
    requires a in m && b in m
    ensures r.Keys == m.Keys
  {
    m[a := m[b]][b := m[a]]
  }

  /** The movements map, with Campo Versátil swapping the human's and
      Versatrix's entries. */
  function Movements(players: map<PlayerId, Player>, ids: seq<PlayerId>, t: Tally, fe: seq<FieldEffect>)
    : (r: map<PlayerId, int>)
    requires t.swap ==> PLAYER1 in ids && t.versatrix.Some? && t.versatrix.value in ids
    ensures forall id :: id in r <==> id in ids
  {
    var m := RoundMoves(players, ids, t.winners, t.losers, fe);
    if t.swap then Swapped(m, PLAYER1, t.versatrix.value) else m
  }

  /** The new position: in the final battle overflow or underflow sends the
      pawn to space 1; elsewhere it is clamped to [1, WINNING_POSITION]. */
  function NewPosition(oldPos: int, move: int, finalBoss: bool): (r: int)
    ensures 1 <= r <= WINNING_POSITION
  {
    var newPos := oldPos + move;
    if finalBoss then (if newPos > WINNING_POSITION || newPos < 1 then 1 else newPos)
    else if newPos < 1 then 1
    else if newPos > WINNING_POSITION then WINNING_POSITION
    else newPos
  }

  /** Hearts after `n` loser entries: one each while above 0. */
  function HeartsAfter(hearts: int, n: nat): (r: int)
    ensures hearts <= 0 ==> r == hearts
    ensures hearts > 0 ==> r == if n >= hearts then 0 else hearts - n
  {
    if n == 0 || hearts <= 0 then hearts else HeartsAfter(hearts - 1, n - 1)
  }

  // ----- path jumps -----

  /** The index of the first path held by the player (`find(p => p.playerId === id)`). */
  function HeldPath(paths: seq<BoardPath>, id: PlayerId): (r: Option<nat>)
    ensures r.Some? ==> r.value < |paths| && paths[r.value].playerId == Some(id)
    ensures r.Some? ==> forall k :: 0 <= k < r.value ==> paths[k].playerId != Some(id)
    ensures r.None? ==> forall k :: 0 <= k < |paths| ==> paths[k].playerId != Some(id)
  {
    if paths == [] then None
    else if paths[0].playerId == Some(id) then Some(0)
    else
      var rest := HeldPath(paths[1..], id);
      if rest.Some? then Some(rest.value + 1) else None
  }

  /** True when the player jumps: Pula in force and a target path chosen. */
  predicate Jumps(p: Player)
  {
    p.effects.movement == Some(Pula) && p.targetPathForPula.Some?
  }

  /** Every jump target names a path of the board. */
  predicate TargetsOnBoard(players: map<PlayerId, Player>, paths: seq<BoardPath>)
  {
    forall id :: id in players && Jumps(players[id]) ==> players[id].targetPathForPula.value < |paths|
  }

  /** One jump: the old path is released and the target path records the player. */
  function Jump(paths: seq<BoardPath>, id: PlayerId, target: nat): (r: seq<BoardPath>)
    requires target < |paths|
    ensures |r| == |paths|
  {
    var held := HeldPath(paths, id);
    var cleared := if held.Some? then paths[held.value := paths[held.value].(playerId := None)] else paths;
    cleared[target := cleared[target].(playerId := Some(id))]
  }

  /** The paths after the jumps of the listed players, in order. */
  function JumpAll(paths: seq<BoardPath>, players: map<PlayerId, Player>, ids: seq<PlayerId>): (r: seq<BoardPath>)
    requires forall id :: id in ids ==> id in players
    requires TargetsOnBoard(players, paths)
    ensures |r| == |paths|
  {
    if ids == [] then paths
    else
      var before := JumpAll(paths, players, ids[..|ids| - 1]);
      var id := ids[|ids| - 1];
      if Jumps(players[id]) then Jump(before, id, players[id].targetPathForPula.value) else before
  }

  /** `ids.forEach(id => update gameState.players[id])`: one step per occurrence. */
  function Each(m: map<PlayerId, Player>, xs: seq<PlayerId>, f: (PlayerId, Player) -> Player)
    : (r: map<PlayerId, Player>)
    ensures r.Keys == m.Keys
  {
    if xs == [] then m
    else
      var q := Each(m, xs[..|xs| - 1], f);
      var id := xs[|xs| - 1];
      if id in q then q[id := f(id, q[id])] else q
  }

  /** A jumper records its target path. */
  function JumpedPlayer(p: Player): Player
  {
    if Jumps(p) then p.(pathId := p.targetPathForPula.value as int) else p
  }

  function JumpStep(): (PlayerId, Player) -> Player
  {
    (id, p) => JumpedPlayer(p)
  }

  /** The players after the Pula loop. */
  function Jumped(players: map<PlayerId, Player>, ids: seq<PlayerId>): (r: map<PlayerId, Player>)
    ensures r.Keys == players.Keys
  {
    Each(players, ids, JumpStep())
  }

  /** A pawn after the movement: an eliminated player stays put; a missing
      entry counts as 0 (`movements[id] || 0`). */
  function MovedPlayer(p: Player, id: PlayerId, moves: map<PlayerId, int>, finalBoss: bool): Player
  {
    if p.isEliminated then p
    else p.(position := NewPosition(p.position, if id in moves then moves[id] else 0, finalBoss))
  }

  function MoveStep(moves: map<PlayerId, int>, finalBoss: bool): (PlayerId, Player) -> Player
  {
    (id: PlayerId, p: Player) => MovedPlayer(p, id, moves, finalBoss)
  }

  /** The players after the position loop. */
  function Moved(players: map<PlayerId, Player>, ids: seq<PlayerId>, moves: map<PlayerId, int>, finalBoss: bool)
    : (r: map<PlayerId, Player>)
    ensures r.Keys == players.Keys
  {
    Each(players, ids, MoveStep(moves, finalBoss))
  }

  /** One loser entry of Inversus mode: a heart while above 0. */
  function LoseHeart(p: Player): Player
  {
    if p.hearts > 0 then p.(hearts := p.hearts - 1) else p
  }

  function HeartStep(): (PlayerId, Player) -> Player
  {
    (id, p) => LoseHeart(p)
  }

  /** The players after the Inversus losers' loop. */
  function Hearts(players: map<PlayerId, Player>, losers: seq<PlayerId>): (r: map<PlayerId, Player>)
    ensures r.Keys == players.Keys
  {
    Each(players, losers, HeartStep())
  }

  // ----- resolveRound -----

  /** What `resolveRound` needs: the one-against-three and final battles seat
      all four players, and every jump target is a path of the board. */
  ghost predicate CanResolve(g: GameState)
    reads g
  {
    && g.Valid()
    && (g.storyBattleType == King1v3 || g.isFinalBoss ==> forall id :: id in MASTER_PLAYER_IDS ==> id in g.players)
    && TargetsOnBoard(g.players, g.boardPaths)
  }

  /** `resolveRound()` up to the final `endGameCheck`, which the caller runs
      next. `pick` stands for the shuffle among tied winners. */
  method ResolveRound(g: GameState, pick: nat)
    requires CanResolve(g)
    modifies g`gamePhase, g`inversusTotalAbilityActive, g`versatrixSwapActive, g`currentPlayer
    modifies g`players, g`boardPaths
    ensures g.Valid()
    ensures old(g.gamePhase) == GameOverPhase ==>
      && g.gamePhase == GameOverPhase && g.players == old(g.players) && g.boardPaths == old(g.boardPaths)
      && g.currentPlayer == old(g.currentPlayer) && unchanged(g)
    ensures old(g.gamePhase) != GameOverPhase ==>
      var ids := old(g.playerIdsInGame);
      var fe := old(g.activeFieldEffects);
      var t := TallyOf(old(g.players), ids, fe, old(g.reversusTotalActive), old(g.turn), old(g.storyBattleType),
                       old(g.isFinalBoss), old(g.gameMode));
      var next := NextStarter(old(g.players), t.winners, pick);
      && g.gamePhase == Resolution && !g.inversusTotalAbilityActive && g.versatrixSwapActive == t.swap
      && g.currentPlayer == (if next.Some? then next.value else old(g.currentPlayer))
      && Settled(old(g.players), old(g.boardPaths), ids, t, fe, old(g.isInversusMode), old(g.isFinalBoss), g.players, g.boardPaths)
  {
    if g.gamePhase == GameOverPhase {
      return;
    }
    var t := TallyOf(g.players, g.playerIdsInGame, g.activeFieldEffects, g.reversusTotalActive, g.turn,
                     g.storyBattleType, g.isFinalBoss, g.gameMode);
    var next := NextStarter(g.players, t.winners, pick);
    var players, paths := Settle(g.players, g.boardPaths, g.playerIdsInGame, t, g.activeFieldEffects,
                                 g.isInversusMode, g.isFinalBoss);
    Conclude(g, t.swap, next, players, paths);
  }

  /** The writes that close `resolveRound`: the settled players and paths,
      the phase, the flags and the next starter. */
  method Conclude(g: GameState, swap: bool, next: Option<PlayerId>, players: map<PlayerId, Player>, paths: seq<BoardPath>)
    requires g.Valid() && players.Keys == g.players.Keys
    modifies g`gamePhase, g`inversusTotalAbilityActive, g`versatrixSwapActive, g`currentPlayer
    modifies g`players, g`boardPaths
    ensures g.Valid()
    ensures g.players == players && g.boardPaths == paths
    ensures g.gamePhase == Resolution && !g.inversusTotalAbilityActive && g.versatrixSwapActive == swap
    ensures g.currentPlayer == if next.Some? then next.value else old(g.currentPlayer)
  {
    g.players, g.boardPaths := players, paths;
    g.gamePhase := Resolution;
    g.inversusTotalAbilityActive := false;
    g.versatrixSwapActive := swap;
    if next.Some? {
      g.currentPlayer := next.value;
    }
  }

  /** What the round did to the players and the board: hearts in Inversus
      mode, otherwise the jumps and the movement of every pawn. */
  ghost predicate Settled(players: map<PlayerId, Player>, paths: seq<BoardPath>, ids: seq<PlayerId>, t: Tally,
                          fe: seq<FieldEffect>, inversus: bool, finalBoss: bool,
                          players': map<PlayerId, Player>, paths': seq<BoardPath>)
    requires forall id :: id in ids ==> id in players
    requires TargetsOnBoard(players, paths)
    requires t.swap ==> PLAYER1 in ids && t.versatrix.Some? && t.versatrix.value in ids
  {
    && (inversus ==> players' == Hearts(players, t.losers) && paths' == paths)
    && (!inversus ==>
          && players' == Moved(Jumped(players, ids), ids, Movements(players, ids, t, fe), finalBoss)
          && paths' == JumpAll(paths, players, ids))
  }

  /** Hearts in Inversus mode, otherwise the movement of every pawn. */
  method Settle(players: map<PlayerId, Player>, paths: seq<BoardPath>, ids: seq<PlayerId>, t: Tally,
                fe: seq<FieldEffect>, inversus: bool, finalBoss: bool) returns (ps: map<PlayerId, Player>, bs: seq<BoardPath>)
    requires Distinct(ids) && forall id :: id in players <==> id in ids
    requires TargetsOnBoard(players, paths)
    requires forall id :: id in t.winners ==> id in ids
    requires forall id :: id in t.losers ==> id in ids
    requires t.swap ==> PLAYER1 in ids && t.versatrix.Some? && t.versatrix.value in ids
    ensures ps.Keys == players.Keys
    ensures Settled(players, paths, ids, t, fe, inversus, finalBoss, ps, bs)
  {
    if inversus {
      ps := LoseHearts(players, t.losers);
      bs := paths;
    } else {
      ps, bs := MovePawns(players, paths, ids, t, fe, finalBoss);
    }
  }

  /** The movement half of `resolveRound`: the three movement loops, the Pula
      loop, the Campo Versátil swap and the position loop, in that order. */
  method MovePawns(players: map<PlayerId, Player>, paths: seq<BoardPath>, ids: seq<PlayerId>, t: Tally,
                   fe: seq<FieldEffect>, finalBoss: bool) returns (ps: map<PlayerId, Player>, bs: seq<BoardPath>)
    requires Distinct(ids) && forall id :: id in players <==> id in ids
    requires TargetsOnBoard(players, paths)
    requires forall id :: id in t.winners ==> id in ids
    requires forall id :: id in t.losers ==> id in ids
    requires t.swap ==> PLAYER1 in ids && t.versatrix.Some? && t.versatrix.value in ids
    ensures ps == Moved(Jumped(players, ids), ids, Movements(players, ids, t, fe), finalBoss)
    ensures bs == JumpAll(paths, players, ids)
  {
    var movements := AccumulateMovements(players, ids, t.winners, t.losers, fe);
    var jumped;
    jumped, bs := JumpPaths(players, paths, ids);
    if t.swap {
      movements := Swapped(movements, PLAYER1, t.versatrix.value);
    }
    ps := ApplyMovements(jumped, ids, movements, finalBoss);
  }

  /** The Inversus losers' loop: each entry costs one heart while above 0. */
  method LoseHearts(players: map<PlayerId, Player>, losers: seq<PlayerId>) returns (r: map<PlayerId, Player>)
    requires forall id :: id in losers ==> id in players
    ensures r == Hearts(players, losers)
  {
    r := players;
    var i := 0;
    while i < |losers|
      invariant 0 <= i <= |losers|
      invariant r == Hearts(players, losers[..i])
    {
      var id := losers[i];
      assert losers[..i + 1][..i] == losers[..i];
      var p := r[id];
      if p.hearts > 0 {
        r := r[id := p.(hearts := p.hearts - 1)];
      } else {
        assert r == r[id := p];
      }
      i := i + 1;
    }
    assert losers[..|losers|] == losers;
  }

  /** The winners', losers' and card loops that fill the movements map. */
  method AccumulateMovements(players: map<PlayerId, Player>, ids: seq<PlayerId>, winners: seq<PlayerId>,
                             losers: seq<PlayerId>, fe: seq<FieldEffect>) returns (movements: map<PlayerId, int>)
    requires forall id :: id in players <==> id in ids
    requires forall id :: id in winners ==> id in ids
    requires forall id :: id in losers ==> id in ids
    ensures movements == RoundMoves(players, ids, winners, losers, fe)
  {
    movements := map id | id in ids :: 0;
    movements := AddWinBonuses(players, winners, fe, movements);
    movements := AddLoserShifts(losers, fe, movements);
    movements := AddCardShifts(players, ids, fe, movements);
  }

  /** `winners.forEach(...)`: no bonus under 'Parada', 3 or 1 under
      'Desafio', otherwise 1. */
  method AddWinBonuses(players: map<PlayerId, Player>, winners: seq<PlayerId>, fe: seq<FieldEffect>,
                       m0: map<PlayerId, int>) returns (movements: map<PlayerId, int>)
    requires forall id :: id in winners ==> id in players && id in m0
    ensures movements == AddEach(m0, winners, WinDelta(players, fe))
  {
    movements := m0;
    var i := 0;
    while i < |winners|
      invariant 0 <= i <= |winners|
      invariant movements == AddEach(m0, winners[..i], WinDelta(players, fe))
    {
      var id := winners[i];
      assert winners[..i + 1][..i] == winners[..i];
      var bonus := 1;
      if HasField(fe, id, Parada) {
        bonus := 0;
      } else if HasField(fe, id, Desafio) {
        if exists c :: c in players[id].playedEffect && (c.name == Mais || c.name == Sobe) {
          bonus := 1;
        } else {
          bonus := 3;
        }
      }
      assert bonus == WinDelta(players, fe)(id);
      movements := movements[id := movements[id] + bonus];
      i := i + 1;
    }
    assert winners[..|winners|] == winners;
  }

  /** `losers.forEach(...)`: +1 under 'Impulso', otherwise −3 under 'Castigo'. */
  method AddLoserShifts(losers: seq<PlayerId>, fe: seq<FieldEffect>, m0: map<PlayerId, int>)
    returns (movements: map<PlayerId, int>)
    requires forall id :: id in losers ==> id in m0
    ensures movements == AddEach(m0, losers, LoseDelta(fe))
  {
    movements := m0;
    var i := 0;
    while i < |losers|
      invariant 0 <= i <= |losers|
      invariant movements == AddEach(m0, losers[..i], LoseDelta(fe))
    {
      var id := losers[i];
      assert losers[..i + 1][..i] == losers[..i];
      var shift := 0;
      if HasField(fe, id, Impulso) {
        shift := 1;
      } else if HasField(fe, id, Castigo) {
        shift := -3;
      }
      assert shift == LoseDelta(fe)(id);
      movements := movements[id := movements[id] + shift];
      i := i + 1;
    }
    assert losers[..|losers|] == losers;
  }

  /** The card-effect loop over the players of the game: Sobe +1, Desce −1,
      doubled under 'Super Exposto'. */
  method AddCardShifts(players: map<PlayerId, Player>, ids: seq<PlayerId>, fe: seq<FieldEffect>,
                       m0: map<PlayerId, int>) returns (movements: map<PlayerId, int>)
    requires forall id :: id in ids ==> id in players && id in m0
    ensures movements == AddEach(m0, ids, CardDelta(players, fe))
  {
    movements := m0;
    var i := 0;
    while i < |ids|
      invariant 0 <= i <= |ids|
      invariant movements == AddEach(m0, ids[..i], CardDelta(players, fe))
    {
      var id := ids[i];
      assert ids[..i + 1][..i] == ids[..i];
      var player := players[id];
      var moveChange := 0;
      if player.effects.movement == Some(Sobe) {
        moveChange := 1;
      }
      if player.effects.movement == Some(Desce) {
        moveChange := -1;
      }
      if player.effects.movement == Some(Desce) && HasField(fe, id, SuperExposto) {
        moveChange := moveChange * 2;
      }
      if moveChange != 0 {
        movements := movements[id := movements[id] + moveChange];
      } else {
        assert movements == movements[id := movements[id] + 0];
      }
      i := i + 1;
    }
    assert ids[..|ids|] == ids;
  }

  /** The Pula loop: each jumper releases its old path, takes the target path
      and records the new path id. */
  method JumpPaths(players: map<PlayerId, Player>, paths: seq<BoardPath>, ids: seq<PlayerId>)
    returns (ps: map<PlayerId, Player>, bs: seq<BoardPath>)
    requires Distinct(ids)
    requires forall id :: id in ids ==> id in players
    requires TargetsOnBoard(players, paths)
    ensures ps == Jumped(players, ids)
    ensures bs == JumpAll(paths, players, ids)
  {
    ps := players;
    bs := paths;
    var i := 0;
    while i < |ids|
      invariant 0 <= i <= |ids|
      invariant ps == Jumped(players, ids[..i])
      invariant bs == JumpAll(paths, players, ids[..i])
    {
      var id := ids[i];
      assert ids[..i + 1][..i] == ids[..i];
      assert id !in ids[..i];
      EachUntouched(players, ids[..i], JumpStep(), id);
      var player := ps[id];
      if Jumps(player) {
        var oldPath := HeldPath(bs, id);
        if oldPath.Some? {
          bs := bs[oldPath.value := bs[oldPath.value].(playerId := None)];
        }
        var target := player.targetPathForPula.value;
        ps := ps[id := player.(pathId := target as int)];
        bs := bs[target := bs[target].(playerId := Some(id))];
      } else {
        assert ps == ps[id := player];
      }
      i := i + 1;
    }
    assert ids[..|ids|] == ids;
  }

  /** The position loop: every player not eliminated moves by its entry. */
  method ApplyMovements(players: map<PlayerId, Player>, ids: seq<PlayerId>, movements: map<PlayerId, int>,
                        finalBoss: bool) returns (ps: map<PlayerId, Player>)
    requires forall id :: id in ids ==> id in players
    ensures ps == Moved(players, ids, movements, finalBoss)
  {
    ps := players;
    var i := 0;
    while i < |ids|
      invariant 0 <= i <= |ids|
      invariant ps == Moved(players, ids[..i], movements, finalBoss)
    {
      var id := ids[i];
      assert ids[..i + 1][..i] == ids[..i];
      var player := ps[id];
      if !player.isEliminated {
        var move := if id in movements then movements[id] else 0;
        ps := ps[id := player.(position := NewPosition(player.position, move, finalBoss))];
      } else {
        assert ps == ps[id := player];
      }
      i := i + 1;
    }
    assert ids[..|ids|] == ids;
  }

  // ----- what the folds mean -----

  /** A player the loop has not reached yet is unchanged. */
  lemma {:induction false} EachUntouched(m: map<PlayerId, Player>, xs: seq<PlayerId>, f: (PlayerId, Player) -> Player,
                                         id: PlayerId)
    requires id !in xs
    ensures id in m ==> Each(m, xs, f)[id] == m[id]
    decreases |xs|
  {
    if xs != [] {
      assert id !in xs[..|xs| - 1];
      EachUntouched(m, xs[..|xs| - 1], f, id);
    }
  }
}
