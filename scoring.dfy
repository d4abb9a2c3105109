/** Scoring (`calculateScore` in js/game.js) and the live standings
    (`updateLiveScoresAndWinningStatus`): each player's score from its played
    values, its resto, its score effect and the field effects on it, and the
    winning/losing status the standings derive from the scores per mode. */
module Scoring {
  import opened Types
  import opened State

  // ----- calculateScore -----

  /** The sum of the values of the played value cards. */
  function SumValues(cards: seq<Card>): int
  {
    if cards == [] then 0 else cards[0].value + SumValues(cards[1..])
  }

  /** True when a field effect of that name applies to the player. */
  predicate HasField(fe: seq<FieldEffect>, id: PlayerId, name: FieldName)
  {
    exists f :: f in fe && f.appliesTo == id && f.name == name
  }

  /** The resto the score uses: the resto card's value (0 without one),
      overridden to 10 by 'Resto Maior' and then to 2 by 'Resto Menor'. */
  function Resto(p: Player, id: PlayerId, fe: seq<FieldEffect>): int
  {
    var own := if p.resto.Some? then p.resto.value.value else 0;
    var maior := if HasField(fe, id, RestoMaior) then 10 else own;
    if HasField(fe, id, RestoMenor) then 2 else maior
  }

  /** `Math.floor(a / b)`: the greatest integer not above the rational a/b. */
  function FloorDiv(a: int, b: int): (q: int)
    requires b != 0
    ensures b > 0 ==> b * q <= a < b * q + b
    ensures b < 0 ==> b * q + b < a <= b * q
  {
    if b > 0 then a / b else (-a) / (-b)
  }

  /** NECRO X arithmetic: multiply by the resto, or floor-divide by it unless
      it is 0 (then the score is kept). */
  function NecroStep(score: int, resto: int, divide: bool): int
  {
    if divide then (if resto != 0 then FloorDiv(score, resto) else score) else score * resto
  }

  /** The played-value sum after the player's score effect. */
  function Adjusted(sum: int, effect: Option<Name>, resto: int, superExposto: bool, rta: bool): int
  {
    var s1 := if effect == Some(Mais) then sum + resto else sum;
    var s2 := if effect == Some(Menos) then s1 - resto else s1;
    var s3 := if effect == Some(Menos) && superExposto then s2 - resto else s2;
    if effect == Some(NecroX) then NecroStep(s3, resto, rta)
    else if effect == Some(NecroXInvertido) then NecroStep(s3, resto, !rta)
    else s3
  }

  /** `calculateScore(player)`. */
  function Score(p: Player, id: PlayerId, fe: seq<FieldEffect>, rta: bool): int
  {
    Adjusted(SumValues(p.playedValue), p.effects.score, Resto(p, id, fe), HasField(fe, id, SuperExposto), rta)
  }

  // ----- properties of the score -----

  /** Without a score effect (or with a movement name in the slot) the score
      is the plain sum of the played values. */
  lemma NoScoreEffectIsSum(p: Player, id: PlayerId, fe: seq<FieldEffect>, rta: bool)
    requires p.effects.score.None? || !(p.effects.score.value in {Mais, Menos, NecroX, NecroXInvertido})
    ensures Score(p, id, fe, rta) == SumValues(p.playedValue)
  {
  }

  /** 'Resto Menor' wins over 'Resto Maior' when both apply. */
  lemma RestoMenorWins(p: Player, id: PlayerId, fe: seq<FieldEffect>)
    requires HasField(fe, id, RestoMenor)
    ensures Resto(p, id, fe) == 2
  {
  }

  /** Mais and Menos move the score by the resto in opposite directions;
      'Super Exposto' doubles only the Menos. */
  lemma MaisMenosSymmetric(p: Player, id: PlayerId, fe: seq<FieldEffect>, rta: bool)
    ensures var sum := SumValues(p.playedValue);
      var r := Resto(p, id, fe);
      var plus := Score(p.(effects := p.effects.(score := Some(Mais))), id, fe, rta);
      var minus := Score(p.(effects := p.effects.(score := Some(Menos))), id, fe, rta);
      && plus - sum == r
      && sum - minus == (if HasField(fe, id, SuperExposto) then 2 * r else r)
  {
  }

  /** NECRO X under Reversus Total scores what NECRO X Invertido scores
      without it, and the other way round. */
  lemma NecroXMirror(p: Player, id: PlayerId, fe: seq<FieldEffect>, rta: bool)
    ensures Score(p.(effects := p.effects.(score := Some(NecroX))), id, fe, rta)
         == Score(p.(effects := p.effects.(score := Some(NecroXInvertido))), id, fe, !rta)
  {
  }

  /** A dividing NECRO X with a positive resto leaves the score within one
      resto of sum / resto: q * resto <= sum < (q + 1) * resto. */
  lemma NecroXDivisionBounds(p: Player, id: PlayerId, fe: seq<FieldEffect>)
    requires p.effects.score == Some(NecroX) && Resto(p, id, fe) > 0
    ensures var q := Score(p, id, fe, true);
      var r := Resto(p, id, fe);
      q * r <= SumValues(p.playedValue) < q * r + r
  {
  }

  /** Field effects aimed at other players do not change a player's score. */
  lemma OthersFieldEffectsIrrelevant(p: Player, id: PlayerId, f: FieldEffect, fe: seq<FieldEffect>, rta: bool)
    requires f.appliesTo != id
    ensures Score(p, id, [f] + fe, rta) == Score(p, id, fe, rta)
  {
    assert forall name :: HasField([f] + fe, id, name) == HasField(fe, id, name) by {
      forall name ensures HasField([f] + fe, id, name) == HasField(fe, id, name) {
        if HasField([f] + fe, id, name) {
          var x :| x in [f] + fe && x.appliesTo == id && x.name == name;
          assert x in fe;
        }
      }
    }
  }

  function ValueCardOf(v: int, id: nat): Card
  {
    Card(id, ValueCard, Num(v), v, None, false, false, None)
  }

  function Sample(score: Option<Name>): Player
  {
    Player(false, DefaultAi, [], Some(ValueCardOf(4, 3)), None, Effects(score, None),
           [ValueCardOf(5, 1), ValueCardOf(3, 2)], [], false, false, Neutral, 0, 0, 0, 1, None)
  }

  /** Played values 5 and 3 with resto 4: Mais gives 12, NECRO X gives 32,
      and NECRO X under Reversus Total gives floor(8 / 4) = 2. */
  lemma WorkedExamples()
    ensures Score(Sample(Some(Mais)), 1, [], false) == 12
    ensures Score(Sample(Some(NecroX)), 1, [], false) == 32
    ensures Score(Sample(Some(NecroX)), 1, [], true) == 2
    ensures Score(Sample(Some(Menos)), 1, [FieldEffect(SuperExposto, 1, Negative)], false) == 0
  {
    assert HasField([FieldEffect(SuperExposto, 1, Negative)], 1, SuperExposto) by {
      assert FieldEffect(SuperExposto, 1, Negative) in [FieldEffect(SuperExposto, 1, Negative)];
    }
  }

  /** A NECRO X on 12 with resto 4 gives 48, or 3 under Reversus Total. */
  lemma NecroXOnTwelve()
    ensures Adjusted(12, Some(NecroX), 4, false, false) == 48
    ensures Adjusted(12, Some(NecroX), 4, false, true) == 3
  {
  }

  // ----- updateLiveScoresAndWinningStatus -----

  /** Every player with its live score computed and its status reset. */
  function Scored(players: map<PlayerId, Player>, fe: seq<FieldEffect>, rta: bool): (r: map<PlayerId, Player>)
    ensures r.Keys == players.Keys
  {
    map id | id in players :: Rescored(players[id], id, fe, rta)
  }

  /** One seat of the first loop: its live score set and its status neutral. */
  function Rescored(p: Player, id: PlayerId, fe: seq<FieldEffect>, rta: bool): Player
  {
    p.(liveScore := Score(p, id, fe, rta), status := Neutral)
  }

  /** The sum of the live scores of the listed players that exist (0 for a
      missing one). */
  function SumLive(players: map<PlayerId, Player>, ids: seq<PlayerId>): int
  {
    if ids == [] then 0
    else (if ids[0] in players then players[ids[0]].liveScore else 0) + SumLive(players, ids[1..])
  }

  /** The listed players that exist get the status. */
  function WithStatus(players: map<PlayerId, Player>, ids: seq<PlayerId>, st: Status): (r: map<PlayerId, Player>)
    ensures r.Keys == players.Keys
  {
    map id | id in players :: if id in ids then players[id].(status := st) else players[id]
  }

  /** Two sides: the higher sum wins and the other loses; a tie changes nothing. */
  function TeamStatus(players: map<PlayerId, Player>, a: seq<PlayerId>, b: seq<PlayerId>, sa: int, sb: int)
    : (r: map<PlayerId, Player>)
    ensures r.Keys == players.Keys
  {
    if sa > sb then WithStatus(WithStatus(players, a, Winning), b, Losing)
    else if sb > sa then WithStatus(WithStatus(players, a, Losing), b, Winning)
    else players
  }

  /** The live scores of the listed players, in order. */
  function Lives(players: map<PlayerId, Player>, ids: seq<PlayerId>): (r: seq<int>)
    requires forall id :: id in ids ==> id in players
    ensures |r| == |ids|
    ensures forall k :: 0 <= k < |ids| ==> r[k] == players[ids[k]].liveScore
  {
    if ids == [] then [] else [players[ids[0]].liveScore] + Lives(players, ids[1..])
  }

  /** `Math.max(...xs)` of a non-empty list. */
  function MaxOf(xs: seq<int>): (m: int)
    requires |xs| > 0
    ensures m in xs && forall x :: x in xs ==> x <= m
  {
    if |xs| == 1 then xs[0]
    else
      var rest := MaxOf(xs[1..]);
      assert xs == [xs[0]] + xs[1..];
      if xs[0] >= rest then xs[0] else rest
  }

  /** `Math.min(...xs)` of a non-empty list. */
  function MinOf(xs: seq<int>): (m: int)
    requires |xs| > 0
    ensures m in xs && forall x :: x in xs ==> m <= x
  {
    if |xs| == 1 then xs[0]
    else
      var rest := MinOf(xs[1..]);
      assert xs == [xs[0]] + xs[1..];
      if xs[0] <= rest then xs[0] else rest
  }

  /** The status of one player in the every-player-for-itself standings. */
  function Mark(p: Player, hi: int, lo: int): Player
  {
    if p.liveScore == hi then p.(status := Winning)
    else if p.liveScore == lo then p.(status := Losing)
    else p
  }

  /** Every listed player marked against the maximum and the minimum. */
  function MarkAll(players: map<PlayerId, Player>, ids: seq<PlayerId>, hi: int, lo: int): (r: map<PlayerId, Player>)
    ensures r.Keys == players.Keys
  {
    map id | id in players :: if id in ids then Mark(players[id], hi, lo) else players[id]
  }

  /** Solo and Inversus standings: unless every score is the same, the players
      at the maximum are winning and those at the minimum are losing. */
  function Extremes(players: map<PlayerId, Player>, ids: seq<PlayerId>): (r: map<PlayerId, Player>)
    requires forall id :: id in ids ==> id in players
    ensures r.Keys == players.Keys
  {
    if ids == [] then players
    else
      var hi := MaxOf(Lives(players, ids));
      var lo := MinOf(Lives(players, ids));
      if hi == lo then players else MarkAll(players, ids, hi, lo)
  }

  /** The status rule per mode, on players whose live scores are set. */
  function StatusSpec(players: map<PlayerId, Player>, ids: seq<PlayerId>, bt: BattleType, finalBoss: bool,
                      mode: Mode, inversus: bool): (r: map<PlayerId, Player>)
    requires bt == King1v3 ==> PLAYER1 in players
    requires forall id :: id in ids ==> id in players
    ensures r.Keys == players.Keys
  {
    if bt == King1v3 then
      TeamStatus(players, [PLAYER1], NECRO_IDS, players[PLAYER1].liveScore, SumLive(players, NECRO_IDS))
    else if finalBoss then
      TeamStatus(players, [1, 4], [2, 3], SumLive(players, [1, 4]), SumLive(players, [2, 3]))
    else if mode == Solo || inversus then Extremes(players, ids)
    else TeamStatus(players, TEAM_A, TEAM_B, SumLive(players, TEAM_A), SumLive(players, TEAM_B))
  }

  /** `updateLiveScoresAndWinningStatus` on the players map. */
  function LiveSpec(players: map<PlayerId, Player>, ids: seq<PlayerId>, fe: seq<FieldEffect>, rta: bool,
                    bt: BattleType, finalBoss: bool, mode: Mode, inversus: bool): (r: map<PlayerId, Player>)
    requires bt == King1v3 ==> PLAYER1 in players
    requires forall id :: id in ids ==> id in players
    ensures r.Keys == players.Keys
  {
    StatusSpec(Scored(players, fe, rta), ids, bt, finalBoss, mode, inversus)
  }

  /** `updateLiveScoresAndWinningStatus()`: every live score is recomputed and
      the statuses are set by the rule of the mode. */
  method UpdateLiveScoresAndWinningStatus(g: GameState)
    requires g.Valid()
    requires g.storyBattleType == King1v3 ==> PLAYER1 in g.players
    modifies g`players
    ensures g.Valid()
    ensures g.players == LiveSpec(old(g.players), g.playerIdsInGame, g.activeFieldEffects, g.reversusTotalActive,
                                  g.storyBattleType, g.isFinalBoss, g.gameMode, g.isInversusMode)
  {
    ScoreAll(g);
    if g.storyBattleType == King1v3 {
      var p1Score := g.players[PLAYER1].liveScore;
      var necroScore := SumLive(g.players, NECRO_IDS);
      SetTeamStatus(g, [PLAYER1], NECRO_IDS, p1Score, necroScore);
      return;
    } else if g.isFinalBoss {
      var teamPlayerScore := SumLive(g.players, [1, 4]);
      var teamNecroScore := SumLive(g.players, [2, 3]);
      SetTeamStatus(g, [1, 4], [2, 3], teamPlayerScore, teamNecroScore);
      return;
    }
    if g.gameMode == Solo || g.isInversusMode {
      MarkExtremes(g);
    } else {
      var teamAScore := SumLive(g.players, TEAM_A);
      var teamBScore := SumLive(g.players, TEAM_B);
      SetTeamStatus(g, TEAM_A, TEAM_B, teamAScore, teamBScore);
    }
  }

  /** The first loop: live score computed, status reset to neutral. */
  method ScoreAll(g: GameState)
    requires g.Valid()
    modifies g`players
    ensures g.Valid()
    ensures g.players == Scored(old(g.players), g.activeFieldEffects, g.reversusTotalActive)
  {
    g.players := ScoreLoop(g.players, g.playerIdsInGame, g.activeFieldEffects, g.reversusTotalActive);
  }

  /** The loop of `ScoreAll` on the seats as a value: each seat in the
      rotation is scored once, in order. */
  method ScoreLoop(players: map<PlayerId, Player>, ids: seq<PlayerId>, fe: seq<FieldEffect>, rta: bool)
    returns (ps: map<PlayerId, Player>)
    requires Distinct(ids)
    requires forall id :: id in players <==> id in ids
    ensures ps == Scored(players, fe, rta)
  {
    ps := players;
    var i := 0;
    while i < |ids|
      invariant 0 <= i <= |ids|
      invariant ps.Keys == players.Keys
      invariant forall id :: id in ps ==> ps[id] == if id in ids[..i] then Rescored(players[id], id, fe, rta) else players[id]
    {
      var id := ids[i];
      assert ids[..i + 1] == ids[..i] + [id];
      assert id !in ids[..i] by {
        forall k | 0 <= k < i ensures ids[..i][k] != id {
          assert ids[..i][k] == ids[k];
        }
      }
      var p := ps[id];
      ps := ps[id := p.(liveScore := Score(p, id, fe, rta), status := Neutral)];
      i := i + 1;
    }
    assert ids[..|ids|] == ids;
    forall id | id in ps ensures ps[id] == Scored(players, fe, rta)[id] {
    }
  }

  /** One side wins and the other loses by the comparison of their sums. */
  method SetTeamStatus(g: GameState, a: seq<PlayerId>, b: seq<PlayerId>, sa: int, sb: int)
    requires g.Valid()
    modifies g`players
    ensures g.Valid()
    ensures g.players == TeamStatus(old(g.players), a, b, sa, sb)
  {
    if sa > sb {
      SetStatusAll(g, a, Winning);
      SetStatusAll(g, b, Losing);
    } else if sb > sa {
      SetStatusAll(g, a, Losing);
      SetStatusAll(g, b, Winning);
    }
  }

  /** `ids.forEach(id => { if (players[id]) players[id].status = st })`. */
  method SetStatusAll(g: GameState, ids: seq<PlayerId>, st: Status)
    requires g.Valid()
    modifies g`players
    ensures g.Valid()
    ensures g.players == WithStatus(old(g.players), ids, st)
  {
    g.players := StatusLoop(g.players, ids, st);
  }

  /** The loop of `SetStatusAll` on the seats as a value: every listed seat
      that exists takes the status, seat after seat. */
  method StatusLoop(players: map<PlayerId, Player>, ids: seq<PlayerId>, st: Status)
    returns (ps: map<PlayerId, Player>)
    ensures ps == WithStatus(players, ids, st)
  {
    ps := players;
    var i := 0;
    while i < |ids|
      invariant 0 <= i <= |ids|
      invariant ps == WithStatus(players, ids[..i], st)
    {
      var id := ids[i];
      assert ids[..i + 1] == ids[..i] + [id];
      WithStatusStep(players, ids[..i], id, st);
      if id in ps {
        ps := ps[id := ps[id].(status := st)];
      }
      i := i + 1;
    }
    assert ids[..|ids|] == ids;
  }

  /** One more listed seat takes the status on top of the earlier ones. */
  lemma WithStatusStep(players: map<PlayerId, Player>, xs: seq<PlayerId>, id: PlayerId, st: Status)
    ensures var m := WithStatus(players, xs, st);
      WithStatus(players, xs + [id], st) == if id in m then m[id := m[id].(status := st)] else m
  {
    var m := WithStatus(players, xs, st);
    var n := WithStatus(players, xs + [id], st);
    forall x | x in n
      ensures n[x] == (if id in m then m[id := m[id].(status := st)] else m)[x]
    {
      assert x in xs + [id] <==> x in xs || x == id;
    }
  }

  /** The Solo and Inversus branch: the maximum wins and the minimum loses
      unless they coincide. */
  method MarkExtremes(g: GameState)
    requires g.Valid()
    modifies g`players
    ensures g.Valid()
    ensures g.players == Extremes(old(g.players), g.playerIdsInGame)
  {
    var ids := g.playerIdsInGame;
    if ids == [] {
      return;
    }
    var currentScores := Lives(g.players, ids);
    var maxScore := MaxOf(currentScores);
    var minScore := MinOf(currentScores);
    if maxScore != minScore {
      MarkLoop(g, maxScore, minScore);
    }
  }

  /** The `forEach` that marks the players at the maximum and the minimum. */
  method MarkLoop(g: GameState, maxScore: int, minScore: int)
    requires g.Valid()
    modifies g`players
    ensures g.Valid()
    ensures g.players == MarkAll(old(g.players), g.playerIdsInGame, maxScore, minScore)
  {
    var ids := g.playerIdsInGame;
    ghost var before := g.players;
    var i := 0;
    while i < |ids|
      invariant 0 <= i <= |ids|
      invariant g.players.Keys == before.Keys
      invariant forall k :: 0 <= k < i ==> g.players[ids[k]] == Mark(before[ids[k]], maxScore, minScore)
      invariant forall k :: i <= k < |ids| ==> g.players[ids[k]] == before[ids[k]]
    {
      var id := ids[i];
      assert forall k :: 0 <= k < |ids| && k != i ==> ids[k] != id;
      g.players := g.players[id := Mark(g.players[id], maxScore, minScore)];
      i := i + 1;
    }
    forall id | id in g.players
      ensures g.players[id] == MarkAll(before, ids, maxScore, minScore)[id]
    {
      var k :| 0 <= k < |ids| && ids[k] == id;
    }
  }

  // ----- properties of the standings -----

  /** The standings change statuses and nothing else. */
  lemma StatusSpecOnlyStatus(players: map<PlayerId, Player>, ids: seq<PlayerId>, bt: BattleType, finalBoss: bool,
                             mode: Mode, inversus: bool, id: PlayerId)
    requires bt == King1v3 ==> PLAYER1 in players
    requires forall j :: j in ids ==> j in players
    requires id in players
    ensures var r := StatusSpec(players, ids, bt, finalBoss, mode, inversus);
      r[id] == players[id].(status := r[id].status)
  {
    var r := StatusSpec(players, ids, bt, finalBoss, mode, inversus);
    if bt == King1v3 {
      var sa, sb := players[PLAYER1].liveScore, SumLive(players, NECRO_IDS);
      assert r == TeamStatus(players, [PLAYER1], NECRO_IDS, sa, sb);
      TeamStatusOnlyStatus(players, [PLAYER1], NECRO_IDS, sa, sb, id);
    } else if finalBoss {
      var sa, sb := SumLive(players, [1, 4]), SumLive(players, [2, 3]);
      assert r == TeamStatus(players, [1, 4], [2, 3], sa, sb);
      TeamStatusOnlyStatus(players, [1, 4], [2, 3], sa, sb, id);
    } else if mode == Solo || inversus {
      assert r == Extremes(players, ids);
      ExtremesOnlyStatus(players, ids, id);
    } else {
      var sa, sb := SumLive(players, TEAM_A), SumLive(players, TEAM_B);
      assert r == TeamStatus(players, TEAM_A, TEAM_B, sa, sb);
      TeamStatusOnlyStatus(players, TEAM_A, TEAM_B, sa, sb, id);
    }
  }

  lemma ExtremesOnlyStatus(players: map<PlayerId, Player>, ids: seq<PlayerId>, id: PlayerId)
    requires forall j :: j in ids ==> j in players
    requires id in players
    ensures var r := Extremes(players, ids);
      r[id] == players[id].(status := r[id].status)
  {
    var r := Extremes(players, ids);
    if ids != [] {
      var hi := MaxOf(Lives(players, ids));
      var lo := MinOf(Lives(players, ids));
      if hi != lo {
        assert r == MarkAll(players, ids, hi, lo);
        var p := players[id];
        if id in ids {
          assert r[id] == Mark(p, hi, lo);
          if p.liveScore == hi {
            assert r[id] == p.(status := Winning);
          } else if p.liveScore == lo {
            assert r[id] == p.(status := Losing);
          } else {
            assert r[id] == p;
          }
        } else {
          assert r[id] == p;
        }
      } else {
        assert r == players;
      }
    }
  }

  lemma TeamStatusOnlyStatus(players: map<PlayerId, Player>, a: seq<PlayerId>, b: seq<PlayerId>, sa: int, sb: int,
                             id: PlayerId)
    requires id in players
    ensures var r := TeamStatus(players, a, b, sa, sb);
      r[id] == players[id].(status := r[id].status)
  {
    if sa != sb {
      var st := if sa > sb then Winning else Losing;
      var other := if sa > sb then Losing else Winning;
      WithStatusOnlyStatus(players, a, st, id);
      WithStatusOnlyStatus(WithStatus(players, a, st), b, other, id);
    }
  }

  lemma WithStatusOnlyStatus(players: map<PlayerId, Player>, ids: seq<PlayerId>, st: Status, id: PlayerId)
    requires id in players
    ensures var r := WithStatus(players, ids, st);
      r[id] == players[id].(status := r[id].status)
  {
  }

  /** Every live score is the player's score and nothing but the live score
      and the status changes. */
  lemma LiveScoresAreScores(players: map<PlayerId, Player>, ids: seq<PlayerId>, fe: seq<FieldEffect>, rta: bool,
                            bt: BattleType, finalBoss: bool, mode: Mode, inversus: bool)
    requires bt == King1v3 ==> PLAYER1 in players
    requires forall id :: id in ids ==> id in players
    ensures var r := LiveSpec(players, ids, fe, rta, bt, finalBoss, mode, inversus);
      forall id :: id in players ==>
        r[id] == players[id].(liveScore := Score(players[id], id, fe, rta), status := r[id].status)
  {
    var s := Scored(players, fe, rta);
    forall id | id in players
      ensures LiveSpec(players, ids, fe, rta, bt, finalBoss, mode, inversus)[id]
           == players[id].(liveScore := Score(players[id], id, fe, rta),
                           status := LiveSpec(players, ids, fe, rta, bt, finalBoss, mode, inversus)[id].status)
    {
      StatusSpecOnlyStatus(s, ids, bt, finalBoss, mode, inversus, id);
    }
  }

  /** The sides of a two-team standing get opposite statuses: members of the
      higher side win, members of the lower lose, a tie leaves everybody
      as they were. */
  lemma TeamStatusOpposite(players: map<PlayerId, Player>, a: seq<PlayerId>, b: seq<PlayerId>, sa: int, sb: int,
                           x: PlayerId, y: PlayerId)
    requires x in players && y in players && x in a && y in b && !(x in b) && !(y in a)
    ensures var r := TeamStatus(players, a, b, sa, sb);
      && (r[x].status == Winning <==> sa > sb || (sa == sb && players[x].status == Winning))
      && (sa > sb ==> r[y].status == Losing)
      && (sb > sa ==> r[x].status == Losing && r[y].status == Winning)
      && (sa == sb ==> r[x] == players[x] && r[y] == players[y])
  {
  }

  /** In the one-against-three king battle the human wins exactly when its
      score beats the Necroversos' total, and every Necroverso present then
      loses; a tie leaves everybody neutral. */
  lemma KingBattleStandings(players: map<PlayerId, Player>, ids: seq<PlayerId>, fe: seq<FieldEffect>, rta: bool,
                            finalBoss: bool, mode: Mode, inversus: bool, n: PlayerId)
    requires PLAYER1 in players && n in players && n in NECRO_IDS
    requires forall id :: id in ids ==> id in players
    ensures var s := Scored(players, fe, rta);
      var r := LiveSpec(players, ids, fe, rta, King1v3, finalBoss, mode, inversus);
      var p1 := s[PLAYER1].liveScore;
      var necro := SumLive(s, NECRO_IDS);
      && (r[PLAYER1].status == Winning <==> p1 > necro)
      && (r[PLAYER1].status == Losing <==> necro > p1)
      && (r[n].status == Winning <==> necro > p1)
      && (r[n].status == Losing <==> p1 > necro)
  {
    TeamStatusOpposite(Scored(players, fe, rta), [PLAYER1], NECRO_IDS, Scored(players, fe, rta)[PLAYER1].liveScore,
                       SumLive(Scored(players, fe, rta), NECRO_IDS), PLAYER1, n);
  }

  /** The live score of a listed player is in the list of live scores. */
  lemma {:induction false} LivesContains(players: map<PlayerId, Player>, ids: seq<PlayerId>, id: PlayerId)
    requires forall j :: j in ids ==> j in players
    requires id in ids
    ensures players[id].liveScore in Lives(players, ids)
  {
    var k :| 0 <= k < |ids| && ids[k] == id;
    assert Lives(players, ids)[k] == players[id].liveScore;
  }

  /** The maximum and the minimum of the live scores bound every listed
      player's score and are each some listed player's score. */
  lemma LivesBounds(players: map<PlayerId, Player>, ids: seq<PlayerId>)
    requires forall j :: j in ids ==> j in players
    requires ids != []
    ensures var hi := MaxOf(Lives(players, ids));
      var lo := MinOf(Lives(players, ids));
      && (forall j :: j in ids ==> lo <= players[j].liveScore <= hi)
      && (exists j :: j in ids && players[j].liveScore == hi)
      && (exists j :: j in ids && players[j].liveScore == lo)
  {
    var lives := Lives(players, ids);
    forall j | j in ids ensures MinOf(lives) <= players[j].liveScore <= MaxOf(lives) {
      LivesContains(players, ids, j);
    }
    var kh :| 0 <= kh < |lives| && lives[kh] == MaxOf(lives);
    var kl :| 0 <= kl < |lives| && lives[kl] == MinOf(lives);
    assert ids[kh] in ids && ids[kl] in ids;
  }

  /** The standings of one listed player. */
  lemma ExtremesAt(players: map<PlayerId, Player>, ids: seq<PlayerId>, id: PlayerId)
    requires forall j :: j in ids ==> j in players
    requires id in ids
    ensures var hi := MaxOf(Lives(players, ids));
      var lo := MinOf(Lives(players, ids));
      Extremes(players, ids)[id] == if hi == lo then players[id] else Mark(players[id], hi, lo)
  {
  }

  /** Solo and Inversus standings: when the scores are not all equal, a
      player is winning exactly when no player scores more, and losing
      exactly when no player scores less; when they are all equal nobody's
      status changes. */
  lemma ExtremesAreMaxAndMin(players: map<PlayerId, Player>, ids: seq<PlayerId>, id: PlayerId)
    requires forall j :: j in ids ==> j in players
    requires id in ids
    requires players[id].status == Neutral
    ensures var r := Extremes(players, ids);
      && (Spread(players, ids) ==>
            (r[id].status == Winning <==> forall j :: j in ids ==> players[j].liveScore <= players[id].liveScore))
      && (Spread(players, ids) ==>
            (r[id].status == Losing <==> forall j :: j in ids ==> players[id].liveScore <= players[j].liveScore))
      && (!Spread(players, ids) ==> r[id] == players[id])
  {
    LivesBounds(players, ids);
    var hi := MaxOf(Lives(players, ids));
    var lo := MinOf(Lives(players, ids));
    ExtremesStatus(players, ids, id, hi, lo);
    var jh :| jh in ids && players[jh].liveScore == hi;
    var jl :| jl in ids && players[jl].liveScore == lo;
    var live := players[id].liveScore;
    if live != hi {
      assert !(players[jh].liveScore <= live);
    }
    if live != lo {
      assert !(live <= players[jl].liveScore);
    }
  }

  /** The status a listed player gets, in terms of the maximum and minimum. */
  lemma ExtremesStatus(players: map<PlayerId, Player>, ids: seq<PlayerId>, id: PlayerId, hi: int, lo: int)
    requires forall j :: j in ids ==> j in players
    requires id in ids && players[id].status == Neutral
    requires hi == MaxOf(Lives(players, ids)) && lo == MinOf(Lives(players, ids))
    requires forall j :: j in ids ==> lo <= players[j].liveScore <= hi
    requires exists j :: j in ids && players[j].liveScore == hi
    requires exists j :: j in ids && players[j].liveScore == lo
    ensures var st := Extremes(players, ids)[id].status;
      && (Spread(players, ids) ==> (st == Winning <==> players[id].liveScore == hi))
      && (Spread(players, ids) ==> (st == Losing <==> players[id].liveScore == lo))
      && (!Spread(players, ids) ==> Extremes(players, ids)[id] == players[id])
  {
    ExtremesAt(players, ids, id);
    if Spread(players, ids) {
      var j, k :| j in ids && k in ids && players[j].liveScore != players[k].liveScore;
      assert hi != lo;
    } else {
      var jh :| jh in ids && players[jh].liveScore == hi;
      var jl :| jl in ids && players[jl].liveScore == lo;
      assert players[jh].liveScore == players[jl].liveScore;
    }
  }

  /** Not every listed player has the same live score. */
  predicate Spread(players: map<PlayerId, Player>, ids: seq<PlayerId>)
    requires forall j :: j in ids ==> j in players
  {
    exists j, k :: j in ids && k in ids && players[j].liveScore != players[k].liveScore
  }
}
