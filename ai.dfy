/** The computer player's plan for its turn (`getAiTurnDecision` in
    js/game.js) and the mandatory value play `executeAiTurn` adds when the
    plan lacks one. The plan is an ordered list of actions the turn then
    carries out, plus the path a Pula card should send its target to. */
module Ai {
  import opened Types
  import opened State
  import Story
  import Resolve
  import FieldEffects

  datatype Action =
    | UseInversusAbility
    | UseReversumAbility
    | UseNecroXAbility
    | PlayCard(card: Card, target: Option<PlayerId>, category: Option<Category>, individualLock: bool)

  datatype Decision = Decision(actions: seq<Action>, pulaPathChoice: Option<nat>)

  /** What the decision reads of the game state. */
  datatype View = View(
    players: map<PlayerId, Player>,
    ids: seq<PlayerId>,
    paths: seq<BoardPath>,
    mode: Mode,
    battle: BattleType,
    finalBoss: bool,
    inverted: bool,
    inversusActive: bool,
    reversumUsed: bool,
    necroXUsed: bool)

  function ViewOf(g: GameState): View
    reads g
  {
    View(g.players, g.playerIdsInGame, g.boardPaths, g.gameMode, g.storyBattleType, g.isFinalBoss,
         g.reversusTotalActive, g.inversusTotalAbilityActive, g.reversumAbilityUsedThisRound, g.necroXUsedThisRound)
  }

  predicate Seated(v: View)
  {
    forall id :: id in v.ids ==> id in v.players
  }

  /** The deciding AI is seated, and the Inversus AI has a player 1 to copy. */
  predicate Ready(v: View, me: PlayerId)
  {
    Seated(v) && me in v.players && (v.players[me].aiType == InversusAi ==> PLAYER1 in v.players)
  }

  // ----- counting the queued plays -----

  predicate IsPlay(a: Action, kind: CardType)
  {
    a.PlayCard? && a.card.ctype == kind
  }

  /** `actions.some(a => a.card?.type === kind)`. */
  predicate HasPlay(actions: seq<Action>, kind: CardType)
  {
    exists a :: a in actions && IsPlay(a, kind)
  }

  /** `actions.some(a => a.card?.id === id)`. */
  predicate Queued(actions: seq<Action>, id: nat)
  {
    exists a :: a in actions && a.PlayCard? && a.card.id == id
  }

  /** How many plays of cards of one type a plan holds. */
  function Plays(actions: seq<Action>, kind: CardType): nat
  {
    if actions == [] then 0
    else Plays(actions[..|actions| - 1], kind) + if IsPlay(actions[|actions| - 1], kind) then 1 else 0
  }

  lemma {:induction false} PlaysAppend(actions: seq<Action>, more: seq<Action>, kind: CardType)
    ensures Plays(actions + more, kind) == Plays(actions, kind) + Plays(more, kind)
    decreases |more|
  {
    if more == [] {
      assert actions + more == actions;
    } else {
      var last := |more| - 1;
      var all := actions + more;
      assert all[..|all| - 1] == actions + more[..last];
      assert all[|all| - 1] == more[last];
      PlaysAppend(actions, more[..last], kind);
      calc {
        Plays(all, kind);
        Plays(actions + more[..last], kind) + if IsPlay(more[last], kind) then 1 else 0;
        Plays(actions, kind) + Plays(more[..last], kind) + if IsPlay(more[last], kind) then 1 else 0;
        Plays(actions, kind) + Plays(more, kind);
      }
    }
  }

  lemma {:induction false} PlaysCounts(actions: seq<Action>, kind: CardType)
    ensures Plays(actions, kind) > 0 <==> HasPlay(actions, kind)
    decreases |actions|
  {
    if actions != [] {
      var init := actions[..|actions| - 1];
      PlaysCounts(init, kind);
      assert actions == init + [actions[|actions| - 1]];
      if HasPlay(actions, kind) && !IsPlay(actions[|actions| - 1], kind) {
        var a :| a in actions && IsPlay(a, kind);
        assert a in init;
      }
    }
  }

  // ----- the Inversus AI -----

  /** `hand.find(c => c.name === name && c.type === 'effect' && !queued)`. */
  function FindMirror(hand: seq<Card>, name: Name, queued: seq<Action>): (r: Option<Card>)
    ensures r.Some? ==> r.value in hand && r.value.name == name && r.value.ctype == EffectCard
                        && !Queued(queued, r.value.id)
    ensures r.None? ==> forall c :: c in hand && c.name == name && c.ctype == EffectCard ==> Queued(queued, c.id)
  {
    if hand == [] then None
    else if hand[0].name == name && hand[0].ctype == EffectCard && !Queued(queued, hand[0].id) then Some(hand[0])
    else FindMirror(hand[1..], name, queued)
  }

  predicate OnBoard(played: seq<Card>, name: Name)
  {
    exists c :: c in played && c.name == name
  }

  /** One effect card of player 1 copied: when the AI has no card of that
      name on its board, the first unqueued card of that name in its hand is
      played at player 1 (at itself for Reversus Total), naming the
      reversed category of player 1's card. */
  function MirrorOne(p1Card: Card, ai: Player, me: PlayerId, queued: seq<Action>): seq<Action>
  {
    if OnBoard(ai.playedEffect, p1Card.name) then []
    else
      match FindMirror(ai.hand, p1Card.name, queued)
      case None => []
      case Some(c) => [PlayCard(c, Some(if c.name == ReversusTotal then me else PLAYER1), p1Card.reversedEffectType, false)]
  }

  /** The `forEach` over player 1's effect cards. */
  function MirrorPlays(p1Cards: seq<Card>, ai: Player, me: PlayerId): seq<Action>
    decreases |p1Cards|
  {
    if p1Cards == [] then []
    else
      var before := MirrorPlays(p1Cards[..|p1Cards| - 1], ai, me);
      before + MirrorOne(p1Cards[|p1Cards| - 1], ai, me, before)
  }

  /** `hand.find(c => c.value === value && c.type === 'value')`. */
  function MatchValue(hand: seq<Card>, value: int): (r: Option<Card>)
    ensures r.Some? ==> r.value in hand && r.value.value == value && r.value.ctype == ValueCard
    ensures r.None? ==> forall c :: c in hand && c.ctype == ValueCard ==> c.value != value
  {
    if hand == [] then None
    else if hand[0].value == value && hand[0].ctype == ValueCard then Some(hand[0])
    else MatchValue(hand[1..], value)
  }

  /** The value rule of the Inversus AI: with two value cards and none
      queued, it copies the value of player 1's last value card when it
      holds one, and otherwise plays the first value card of its hand. */
  function InversusValue(ai: Player, p1: Player, queued: seq<Action>): seq<Action>
  {
    var values := Story.ValueCards(ai.hand);
    if ai.playedValueCardThisTurn || |values| < 2 || HasPlay(queued, ValueCard) then []
    else
      var copied := if p1.playedValue == [] then None else MatchValue(ai.hand, p1.playedValue[|p1.playedValue| - 1].value);
      [PlayCard(if copied.Some? then copied.value else values[0], None, None, false)]
  }

  /** The value rule queues one value card exactly when it applies. */
  lemma InversusValueCount(ai: Player, p1: Player, queued: seq<Action>)
    ensures Plays(InversusValue(ai, p1, queued), ValueCard)
            == if ai.playedValueCardThisTurn || |Story.ValueCards(ai.hand)| < 2 || HasPlay(queued, ValueCard) then 0 else 1
  {
    var value := InversusValue(ai, p1, queued);
    if value != [] {
      assert value == [] + [value[0]];
      var values := Story.ValueCards(ai.hand);
      assert values[0] in values;
    }
  }

  /** The Inversus branch: its ability alone when the roll allows it, and
      otherwise the copied effect cards and then the value rule. */
  function InversusDecision(v: View, me: PlayerId, roll: bool): Decision
    requires me in v.players && PLAYER1 in v.players
  {
    if !v.inversusActive && roll then Decision([UseInversusAbility], None)
    else
      var ai := v.players[me];
      var mirrored := MirrorPlays(v.players[PLAYER1].playedEffect, ai, me);
      Decision(mirrored + InversusValue(ai, v.players[PLAYER1], mirrored), None)
  }

  // ----- the other AIs: sides, abilities, the value card -----

  datatype Sides = Sides(team: seq<PlayerId>, opp: seq<PlayerId>)

  /** The AI's team and its opponents: the players of its own type in the
      one-against-three battle and for the final Necroverso, the fixed teams
      in duo mode, and itself alone otherwise. */
  function SidesOf(v: View, me: PlayerId): (s: Sides)
    requires Seated(v) && me in v.players
    ensures forall id :: id in s.team ==> id in v.players
    ensures forall id :: id in s.opp ==> id in v.ids
    ensures forall id :: id in s.opp ==> id !in s.team
  {
    var ai := v.players[me];
    if v.battle == King1v3 || (v.finalBoss && ai.aiType == NecroversoFinalAi) then
      var team := FieldEffects.OfType(v.players, v.ids, ai.aiType);
      Sides(team, Resolve.Without(v.ids, team))
    else if v.mode == Duo then
      var teamA := me in TEAM_A;
      Sides(Resolve.Filter(if teamA then TEAM_A else TEAM_B, v.ids), Resolve.Filter(if teamA then TEAM_B else TEAM_A, v.ids))
    else Sides([me], Resolve.Without(v.ids, [me]))
  }

  /** How a tally weighs one player: the Reversum ability's gain from
      flipping every score and movement effect, or Reversus Total's count of
      harmed (+1) and helped (-1) players. */
  datatype Reckoning = ReversumReckoning | TotalReckoning(inverted: bool)

  function BuffScore(inverted: bool): Name { if inverted then Menos else Mais }
  function DebuffScore(inverted: bool): Name { if inverted then Mais else Menos }

  function Slot(p: Player, cat: Category): Option<Name>
  {
    if cat == ScoreCat then p.effects.score else p.effects.movement
  }

  function Buff(cat: Category, inverted: bool): Name { if cat == ScoreCat then BuffScore(inverted) else Sobe }
  function Debuff(cat: Category, inverted: bool): Name { if cat == ScoreCat then DebuffScore(inverted) else Desce }

  /** A player under a helpful effect (`good`) or a harmful one. */
  predicate Marked(p: Player, inverted: bool, good: bool)
  {
    if good then p.effects.score == Some(BuffScore(inverted)) || p.effects.movement == Some(Sobe)
    else p.effects.score == Some(DebuffScore(inverted)) || p.effects.movement == Some(Desce)
  }

  /** +1 for an effect worth 1 before a flip and -1 after it, and the reverse. */
  function Flip(e: Option<Name>, up: Name, down: Name): int
  {
    if e == Some(up) then -2 else if e == Some(down) then 2 else 0
  }

  function Change(p: Player, k: Reckoning): int
  {
    match k
    case ReversumReckoning => Flip(p.effects.score, Mais, Menos) + Flip(p.effects.movement, Sobe, Desce)
    case TotalReckoning(inverted) =>
      if Marked(p, inverted, true) then -1 else if Marked(p, inverted, false) then 1 else 0
  }

  /** A tally over the seats: a team member's change counts for the AI, an
      opponent's against it. */
  function Gain(players: map<PlayerId, Player>, ids: seq<PlayerId>, team: seq<PlayerId>, k: Reckoning): int
    requires forall id :: id in ids ==> id in players
    decreases |ids|
  {
    if ids == [] then 0
    else
      var id := ids[|ids| - 1];
      Gain(players, ids[..|ids| - 1], team, k) + if id in team then Change(players[id], k) else -Change(players[id], k)
  }

  /** The Reversum ability is used when it is off, the round has not used
      it, the battle is not one against three and the flip would gain. */
  predicate ReversumFires(v: View, ai: Player, team: seq<PlayerId>)
    requires Seated(v)
  {
    ai.aiType == ReversumAi && !v.inverted && !v.reversumUsed && v.battle != King1v3
    && Gain(v.players, v.ids, team, ReversumReckoning) > 0
  }

  /** NECRO X is used by the final Necroverso with a resto of 8 or more,
      once a round, on its roll, when its score effect is none or the
      harmful one. */
  predicate NecroXFires(v: View, ai: Player, roll: bool)
  {
    && ai.aiType == NecroversoFinalAi && ai.resto.Some? && ai.resto.value.value >= 8 && !v.necroXUsed && roll
    && (ai.effects.score.None? || ai.effects.score == Some(if v.inverted then Mais else Menos))
  }

  /** `Math.max` of the positions, `None` for the empty list (`-Infinity`). */
  function Front(players: map<PlayerId, Player>, ids: seq<PlayerId>): (r: Option<int>)
    requires forall id :: id in ids ==> id in players
    ensures r.None? <==> ids == []
    ensures r.Some? ==> (exists id :: id in ids && players[id].position == r.value)
                        && forall id :: id in ids ==> players[id].position <= r.value
  {
    if ids == [] then None
    else
      var rest := Front(players, ids[1..]);
      var here := players[ids[0]].position;
      if rest.None? || here >= rest.value then Some(here) else rest
  }

  /** The best opponent is at least 3 spaces ahead of the team's best
      (always so for an empty team, whose best is `-Infinity`). */
  predicate Behind(v: View, s: Sides)
    requires forall id :: id in s.team ==> id in v.players
    requires forall id :: id in s.opp ==> id in v.players
  {
    var mine := Front(v.players, s.team);
    var theirs := if s.opp == [] then 0 else Front(v.players, s.opp).value;
    mine.None? || theirs - mine.value >= 3
  }

  /** The tutorial Necroverso and every AI of the one-against-three battle
      always play their highest card. */
  predicate Aggressive(v: View, ai: Player)
  {
    ai.aiType == NecroversoTutorialAi || v.battle == King1v3
  }

  /** The value card of the turn: with two or more value cards and none
      played yet, the lowest when far behind and the highest otherwise. */
  function ValueChoice(v: View, ai: Player, s: Sides): (r: seq<Action>)
    requires forall id :: id in s.team ==> id in v.players
    requires forall id :: id in s.opp ==> id in v.players
    ensures |r| <= 1
    ensures |r| == 1 <==> !ai.playedValueCardThisTurn && |Story.ValueCards(ai.hand)| >= 2
    ensures |r| == 1 ==> r[0].PlayCard? && r[0].card in ai.hand && r[0].card.ctype == ValueCard
                         && r[0].target.None? && r[0].category.None? && !r[0].individualLock
    ensures |r| == 1 && (Aggressive(v, ai) || !Behind(v, s)) ==>
              forall c :: c in ai.hand && c.ctype == ValueCard ==> c.value <= r[0].card.value
    ensures |r| == 1 && !Aggressive(v, ai) && Behind(v, s) ==>
              forall c :: c in ai.hand && c.ctype == ValueCard ==> r[0].card.value <= c.value
  {
    var values := Story.ValueCards(ai.hand);
    if ai.playedValueCardThisTurn || |values| < 2 then []
    else
      var card := if !Aggressive(v, ai) && Behind(v, s) then Story.Lowest(values) else Story.Highest(values);
      [PlayCard(card, None, None, false)]
  }

  // ----- the other AIs: the effect cards -----

  /** What the loop over the effect cards needs besides the state. */
  datatype Aim = Aim(me: PlayerId, ai: Player, team: seq<PlayerId>, opp: seq<PlayerId>,
                     leader: Option<PlayerId>, necroX: bool, total: int)

  predicate Aimed(v: View, aim: Aim)
  {
    && Seated(v) && aim.me in v.players
    && (forall id :: id in aim.team ==> id in v.players)
    && (forall id :: id in aim.opp ==> id in v.players)
    && (aim.leader.Some? ==> aim.leader.value in aim.opp)
  }

  /** The target one effect card would get: a player, a category to
      reverse, whether it is an individual lock, and a path for Pula. */
  datatype Pick = Pick(target: Option<PlayerId>, category: Option<Category>, lock: bool, path: Option<nat>)

  const NoPick := Pick(None, None, false, None)

  /** The opponents sorted by position, highest first, taken at index 0:
      the first opponent on the furthest space. */
  function Leader(players: map<PlayerId, Player>, ids: seq<PlayerId>): (r: Option<PlayerId>)
    requires forall id :: id in ids ==> id in players
    ensures r.None? <==> ids == []
    ensures r.Some? ==> r.value in ids && forall id :: id in ids ==> players[id].position <= players[r.value].position
  {
    if ids == [] then None
    else
      var rest := Leader(players, ids[1..]);
      if rest.None? || players[ids[0]].position >= players[rest.value].position then Some(ids[0]) else rest
  }

  /** The team members whose effect in `cat` is not `buff`, sorted by live
      score, taken at index 0: the first such member with the lowest score. */
  function Weakest(players: map<PlayerId, Player>, ids: seq<PlayerId>, cat: Category, buff: Name): (r: Option<PlayerId>)
    requires forall id :: id in ids ==> id in players
    ensures r.Some? ==> r.value in ids && Slot(players[r.value], cat) != Some(buff)
                        && forall id :: id in ids && Slot(players[id], cat) != Some(buff) ==>
                             players[r.value].liveScore <= players[id].liveScore
    ensures r.None? ==> forall id :: id in ids ==> Slot(players[id], cat) == Some(buff)
  {
    if ids == [] then None
    else
      var rest := Weakest(players, ids[1..], cat, buff);
      if Slot(players[ids[0]], cat) == Some(buff) then rest
      else if rest.None? || players[ids[0]].liveScore <= players[rest.value].liveScore then Some(ids[0])
      else rest
  }

  /** The first listed player under a helpful (`good`) or harmful effect. */
  function FirstMarked(players: map<PlayerId, Player>, ids: seq<PlayerId>, inverted: bool, good: bool): (r: Option<PlayerId>)
    requires forall id :: id in ids ==> id in players
    ensures r.Some? ==> r.value in ids && Marked(players[r.value], inverted, good)
    ensures r.None? ==> forall id :: id in ids ==> !Marked(players[id], inverted, good)
    ensures r.Some? ==> exists k :: 0 <= k < |ids| && ids[k] == r.value
                                    && forall j :: 0 <= j < k ==> !Marked(players[ids[j]], inverted, good)
  {
    if ids == [] then None
    else if Marked(players[ids[0]], inverted, good) then Some(ids[0])
    else FirstMarked(players, ids[1..], inverted, good)
  }

  /** The first Mais card on a board is locked (none at all is not). */
  predicate MaisLocked(played: seq<Card>)
  {
    if played == [] then false
    else if played[0].name == Mais then played[0].isLocked
    else MaisLocked(played[1..])
  }

  /** A winning player under the helpful score effect whose Mais is not
      locked. */
  predicate Lockable(p: Player, inverted: bool)
  {
    p.status == Winning && p.effects.score == Some(BuffScore(inverted)) && !MaisLocked(p.playedEffect)
  }

  /** The first winning opponent under the helpful score effect whose Mais
      is not locked. */
  function LockTarget(players: map<PlayerId, Player>, ids: seq<PlayerId>, inverted: bool): (r: Option<PlayerId>)
    requires forall id :: id in ids ==> id in players
    ensures r.Some? ==> r.value in ids && Lockable(players[r.value], inverted)
    ensures r.None? ==> forall id :: id in ids ==> !Lockable(players[id], inverted)
    ensures r.Some? ==> exists k :: 0 <= k < |ids| && ids[k] == r.value
                                    && forall j :: 0 <= j < k ==> !Lockable(players[ids[j]], inverted)
  {
    if ids == [] then None
    else if Lockable(players[ids[0]], inverted) then Some(ids[0])
    else LockTarget(players, ids[1..], inverted)
  }

  /** Red spaces not yet used on a path. */
  function RedCount(spaces: seq<Space>): nat
  {
    if spaces == [] then 0
    else (if spaces[0].color == Red && !spaces[0].isUsed then 1 else 0) + RedCount(spaces[1..])
  }

  /** The paths sorted by unused red spaces, most first, taken at index 0. */
  function Reddest(paths: seq<BoardPath>): (r: BoardPath)
    requires paths != []
    ensures r in paths && forall p :: p in paths ==> RedCount(p.spaces) <= RedCount(r.spaces)
  {
    if |paths| == 1 then paths[0]
    else
      var rest := Reddest(paths[1..]);
      if RedCount(paths[0].spaces) >= RedCount(rest.spaces) then paths[0] else rest
  }

  /** The path ids the seated players stand on. */
  function PathIds(players: map<PlayerId, Player>, ids: seq<PlayerId>): (r: seq<int>)
    requires forall id :: id in ids ==> id in players
    ensures forall id :: id in ids ==> players[id].pathId in r
    ensures |r| == |ids| && forall i :: 0 <= i < |ids| ==> r[i] == players[ids[i]].pathId
  {
    if ids == [] then [] else [players[ids[0]].pathId] + PathIds(players, ids[1..])
  }

  function Unoccupied(paths: seq<BoardPath>, occupied: seq<int>): (r: seq<BoardPath>)
    ensures forall p :: p in r <==> p in paths && p.id !in occupied
  {
    if paths == [] then []
    else if paths[0].id in occupied then Unoccupied(paths[1..], occupied)
    else [paths[0]] + Unoccupied(paths[1..], occupied)
  }

  /** The paths Pula may send the leader to: any for the final Necroverso,
      only the unoccupied ones for the others. */
  function PulaPaths(v: View, ai: Player): (r: seq<BoardPath>)
    requires Seated(v)
    ensures forall p :: p in r ==> p in v.paths
    ensures ai.aiType != NecroversoFinalAi ==> forall p :: p in r ==> forall id :: id in v.ids ==> v.players[id].pathId != p.id
    ensures ai.aiType != NecroversoFinalAi ==>
              forall p :: p in v.paths && (forall id :: id in v.ids ==> v.players[id].pathId != p.id) ==> p in r
    ensures ai.aiType == NecroversoFinalAi ==> r == v.paths
  {
    if ai.aiType == NecroversoFinalAi then v.paths else Unoccupied(v.paths, PathIds(v.players, v.ids))
  }

  /** A score or movement card: a helpful one goes to the weakest team
      member not under it, a harmful one to the leader unless the leader is
      already under it. */
  function Aiming(card: Card, cat: Category, v: View, aim: Aim): (r: Pick)
    requires Aimed(v, aim)
    ensures r.category.None? && !r.lock && r.path.None?
    ensures r.target.Some? ==> r.target.value in v.players && Slot(v.players[r.target.value], cat) != Some(card.name)
    ensures r.target.Some? && card.name == Buff(cat, v.inverted) ==> r.target.value in aim.team
    ensures r.target.Some? && card.name != Buff(cat, v.inverted) ==> card.name == Debuff(cat, v.inverted) && r.target == aim.leader
  {
    var buff := Buff(cat, v.inverted);
    var debuff := Debuff(cat, v.inverted);
    if card.name == buff then
      var weakest := Weakest(v.players, aim.team, cat, buff);
      Pick(weakest, None, false, None)
    else if card.name == debuff && aim.leader.Some? && Slot(v.players[aim.leader.value], cat) != Some(debuff) then
      Pick(aim.leader, None, false, None)
    else NoPick
  }

  /** Pula goes to the leader and names the path with the most unused red
      spaces, when there is a leader and a path to send it to. */
  function PulaPick(v: View, aim: Aim): (r: Pick)
    requires Aimed(v, aim)
    ensures r.category.None? && !r.lock
    ensures r.path.Some? <==> r.target.Some?
    ensures r.target.Some? ==> r.target == aim.leader
    ensures r.path.Some? ==> exists p :: p in PulaPaths(v, aim.ai) && p.id == r.path.value
                                         && forall q :: q in PulaPaths(v, aim.ai) ==> RedCount(q.spaces) <= RedCount(p.spaces)
  {
    var paths := PulaPaths(v, aim.ai);
    if aim.leader.None? || paths == [] then NoPick
    else Pick(aim.leader, None, false, Some(Reddest(paths).id))
  }

  /** Reversus goes to the first team member under a harmful effect, naming
      that category, or else to the first opponent under a helpful one. */
  function ReversusPick(v: View, aim: Aim): (r: Pick)
    requires Aimed(v, aim)
    ensures !r.lock && r.path.None?
    ensures r.target.Some? ==>
              && r.target.value in v.players && r.category.Some?
              && ((Marked(v.players[r.target.value], v.inverted, false) && r.target.value in aim.team)
                  || (Marked(v.players[r.target.value], v.inverted, true) && r.target.value in aim.opp))
    ensures var helped := FirstMarked(v.players, aim.team, v.inverted, false);
      helped.Some? ==> r.target == helped
    ensures var helped := FirstMarked(v.players, aim.team, v.inverted, false);
      helped.None? ==> r.target == FirstMarked(v.players, aim.opp, v.inverted, true)
  {
    var helped := FirstMarked(v.players, aim.team, v.inverted, false);
    if helped.Some? then
      var cat := if v.players[helped.value].effects.score == Some(DebuffScore(v.inverted)) then ScoreCat else MovementCat;
      Pick(helped, Some(cat), false, None)
    else
      var harmed := FirstMarked(v.players, aim.opp, v.inverted, true);
      if harmed.Some? then
        var cat := if v.players[harmed.value].effects.score == Some(BuffScore(v.inverted)) then ScoreCat else MovementCat;
        Pick(harmed, Some(cat), false, None)
      else NoPick
  }

  /** Reversus Total locks the score of a winning opponent under the helpful
      score effect, or else is cast globally on the AI itself when the
      tally says the reversal helps its side. */
  function TotalPick(v: View, aim: Aim): (r: Pick)
    requires Aimed(v, aim)
    ensures r.path.None?
    ensures r.lock ==> r.target.Some? && r.target.value in aim.opp && r.category == Some(ScoreCat)
                       && v.players[r.target.value].status == Winning
    ensures r.target.Some? && !r.lock ==> r.target == Some(aim.me) && aim.total > 0
    ensures var locked := LockTarget(v.players, aim.opp, v.inverted);
      (r.lock <==> locked.Some?) && (locked.Some? ==> r.target == locked)
  {
    var locked := LockTarget(v.players, aim.opp, v.inverted);
    if locked.Some? then Pick(locked, Some(ScoreCat), true, None)
    else if aim.total > 0 then Pick(Some(aim.me), None, false, None)
    else NoPick
  }

  /** The `switch (card.name)` of the effect loop. */
  function PickFor(card: Card, v: View, aim: Aim): (r: Pick)
    requires Aimed(v, aim)
    ensures r.target.Some? ==> r.target.value in v.players
    ensures r.target.Some? && (card.name == Mais || card.name == Menos) ==>
              && !aim.necroX && r.category.None? && !r.lock
              && v.players[r.target.value].effects.score != Some(card.name)
              && (card.name == BuffScore(v.inverted) ==> r.target.value in aim.team)
              && (card.name == DebuffScore(v.inverted) ==> r.target == aim.leader)
    ensures r.target.Some? && card.name == Sobe ==>
              r.target.value in aim.team && v.players[r.target.value].effects.movement != Some(Sobe)
    ensures r.target.Some? && card.name == Desce ==>
              r.target == aim.leader && v.players[r.target.value].effects.movement != Some(Desce)
    ensures r.path.Some? <==> card.name == Pula && r.target.Some?
    ensures r.path.Some? ==> r.target == aim.leader
    ensures r.target.Some? && card.name == Reversus ==>
              && r.category.Some?
              && ((Marked(v.players[r.target.value], v.inverted, false) && r.target.value in aim.team)
                  || (Marked(v.players[r.target.value], v.inverted, true) && r.target.value in aim.opp))
    ensures var helped := FirstMarked(v.players, aim.team, v.inverted, false);
      card.name == Reversus ==> r.target == if helped.Some? then helped else FirstMarked(v.players, aim.opp, v.inverted, true)
    ensures r.lock ==> card.name == ReversusTotal && r.target.Some? && r.target.value in aim.opp && r.category == Some(ScoreCat)
    ensures r.target.Some? && card.name == ReversusTotal && !r.lock ==> r.target == Some(aim.me) && aim.total > 0
    ensures card.name.Num? || card.name == NecroX || card.name == NecroXInvertido ==> r == NoPick
  {
    match card.name
    case Mais => if aim.necroX then NoPick else Aiming(card, ScoreCat, v, aim)
    case Menos => if aim.necroX then NoPick else Aiming(card, ScoreCat, v, aim)
    case Sobe => Aiming(card, MovementCat, v, aim)
    case Desce => Aiming(card, MovementCat, v, aim)
    case Pula => PulaPick(v, aim)
    case Reversus => ReversusPick(v, aim)
    case ReversusTotal => TotalPick(v, aim)
    case _ => NoPick
  }

  /** One pass of the effect loop: a chosen path is remembered, and the
      card is queued when it has a target and no effect card is queued yet. */
  function Step(d: Decision, card: Card, v: View, aim: Aim): Decision
    requires Aimed(v, aim)
  {
    var pick := PickFor(card, v, aim);
    var pula := if pick.path.Some? then pick.path else d.pulaPathChoice;
    if pick.target.Some? && !HasPlay(d.actions, EffectCard)
    then Decision(d.actions + [PlayCard(card, pick.target, pick.category, pick.lock)], pula)
    else Decision(d.actions, pula)
  }

  /** The `for (const card of availableEffectCards)` loop. */
  function EffectLoop(cards: seq<Card>, v: View, aim: Aim, start: seq<Action>): Decision
    requires Aimed(v, aim)
    decreases |cards|
  {
    if cards == [] then Decision(start, None)
    else Step(EffectLoop(cards[..|cards| - 1], v, aim, start), cards[|cards| - 1], v, aim)
  }

  function AimOf(v: View, me: PlayerId, s: Sides, necroX: bool): (aim: Aim)
    requires Seated(v) && me in v.players
    requires forall id :: id in s.team ==> id in v.players
    requires forall id :: id in s.opp ==> id in v.players
    ensures Aimed(v, aim)
  {
    Aim(me, v.players[me], s.team, s.opp, Leader(v.players, s.opp), necroX,
        Gain(v.players, v.ids, s.team, TotalReckoning(v.inverted)))
  }

  /** What an AI other than Inversus queues before its effect cards: the
      Reversum ability, NECRO X, and the value card. */
  function Queue(v: View, ai: Player, s: Sides, necroXRoll: bool): seq<Action>
    requires Seated(v)
    requires forall id :: id in s.team ==> id in v.players
    requires forall id :: id in s.opp ==> id in v.players
  {
    (if ReversumFires(v, ai, s.team) then [UseReversumAbility] else [])
    + (if NecroXFires(v, ai, necroXRoll) then [UseNecroXAbility] else [])
    + ValueChoice(v, ai, s)
  }

  /** The branch of every AI but Inversus: the queue, then the effect loop
      unless the Reversum ability was just used. */
  function Others(v: View, me: PlayerId, necroXRoll: bool): Decision
    requires Seated(v) && me in v.players
  {
    var ai := v.players[me];
    var s := SidesOf(v, me);
    var queued := Queue(v, ai, s, necroXRoll);
    var cards := Story.EffectCards(ai.hand);
    if cards != [] && !ReversumFires(v, ai, s.team)
    then EffectLoop(cards, v, AimOf(v, me, s, NecroXFires(v, ai, necroXRoll)), queued)
    else Decision(queued, None)
  }

  /** `getAiTurnDecision(aiPlayer)`. The two `Math.random()` tests are the
      rolls: `inversusRoll` for `< 0.25`, `necroXRoll` for `< 0.33`. */
  function Decide(v: View, me: PlayerId, inversusRoll: bool, necroXRoll: bool): Decision
    requires Ready(v, me)
  {
    if v.players[me].aiType == InversusAi then InversusDecision(v, me, inversusRoll)
    else Others(v, me, necroXRoll)
  }

  /** The mandatory value play of `executeAiTurn`: an AI with two or more
      value cards that has not played one this turn, and whose plan holds
      no value play, gets its lowest value card put in front of the plan. */
  function Forced(ai: Player, d: Decision): (r: Decision)
    ensures r.pulaPathChoice == d.pulaPathChoice
    ensures |Story.ValueCards(ai.hand)| >= 2 && !ai.playedValueCardThisTurn ==> HasPlay(r.actions, ValueCard)
    ensures r != d ==> !HasPlay(d.actions, ValueCard) && |r.actions| == |d.actions| + 1 && r.actions[1..] == d.actions
                       && r.actions[0].PlayCard? && r.actions[0].card in ai.hand && r.actions[0].card.ctype == ValueCard
                       && forall c :: c in ai.hand && c.ctype == ValueCard ==> r.actions[0].card.value <= c.value
  {
    var values := Story.ValueCards(ai.hand);
    if |values| >= 2 && !ai.playedValueCardThisTurn && !HasPlay(d.actions, ValueCard) then
      var play := PlayCard(Story.Lowest(values), None, None, false);
      assert IsPlay(play, ValueCard) && play in [play] + d.actions;
      Decision([play] + d.actions, d.pulaPathChoice)
    else d
  }

  // ----- the decision as the source computes it -----

  /** A tally's `forEach`. */
  method SumGain(players: map<PlayerId, Player>, ids: seq<PlayerId>, team: seq<PlayerId>, k: Reckoning) returns (total: int)
    requires forall id :: id in ids ==> id in players
    ensures total == Gain(players, ids, team, k)
  {
    total := 0;
    var i := 0;
    while i < |ids|
      invariant 0 <= i <= |ids|
      invariant total == Gain(players, ids[..i], team, k)
    {
      assert ids[..i + 1][..i] == ids[..i];
      var p := players[ids[i]];
      total := total + if ids[i] in team then Change(p, k) else -Change(p, k);
      i := i + 1;
    }
    assert ids[..|ids|] == ids;
  }

  /** The Inversus AI's `forEach` over player 1's effect cards. */
  method CopyEffects(ai: Player, p1: Player, me: PlayerId) returns (actions: seq<Action>)
    ensures actions == MirrorPlays(p1.playedEffect, ai, me)
  {
    var cards := p1.playedEffect;
    actions := [];
    var i := 0;
    while i < |cards|
      invariant 0 <= i <= |cards|
      invariant actions == MirrorPlays(cards[..i], ai, me)
    {
      assert cards[..i + 1][..i] == cards[..i];
      actions := actions + MirrorOne(cards[i], ai, me, actions);
      i := i + 1;
    }
    assert cards[..|cards|] == cards;
  }

  /** The `for` loop over the effect cards. */
  method PlayEffects(cards: seq<Card>, v: View, aim: Aim, start: seq<Action>) returns (d: Decision)
    requires Aimed(v, aim)
    ensures d == EffectLoop(cards, v, aim, start)
  {
    var actions := start;
    var pula: Option<nat> := None;
    var i := 0;
    while i < |cards|
      invariant 0 <= i <= |cards|
      invariant Decision(actions, pula) == EffectLoop(cards[..i], v, aim, start)
    {
      assert cards[..i + 1][..i] == cards[..i];
      var pick := PickFor(cards[i], v, aim);
      if pick.path.Some? {
        pula := pick.path;
      }
      if pick.target.Some? && !HasPlay(actions, EffectCard) {
        actions := actions + [PlayCard(cards[i], pick.target, pick.category, pick.lock)];
      }
      i := i + 1;
    }
    assert cards[..|cards|] == cards;
    d := Decision(actions, pula);
  }

  /** The Inversus branch as the source computes it. */
  method DecideInversus(v: View, me: PlayerId, roll: bool) returns (d: Decision)
    requires me in v.players && PLAYER1 in v.players
    ensures d == InversusDecision(v, me, roll)
  {
    if !v.inversusActive && roll {
      return Decision([UseInversusAbility], None);
    }
    var ai := v.players[me];
    var p1 := v.players[PLAYER1];
    var actions := CopyEffects(ai, p1, me);
    d := Decision(actions + InversusValue(ai, p1, actions), None);
  }

  /** The branch of the other AIs as the source computes it. */
  method DecideOthers(v: View, me: PlayerId, necroXRoll: bool) returns (d: Decision)
    requires Seated(v) && me in v.players
    ensures d == Others(v, me, necroXRoll)
  {
    var ai := v.players[me];
    var s := SidesOf(v, me);
    var queued: seq<Action> := [];
    var reversum := false;
    if ai.aiType == ReversumAi && !v.inverted && !v.reversumUsed && v.battle != King1v3 {
      var gain := SumGain(v.players, v.ids, s.team, ReversumReckoning);
      if gain > 0 {
        queued := queued + [UseReversumAbility];
        reversum := true;
      }
    }
    assert reversum == ReversumFires(v, ai, s.team);
    var necroX := NecroXFires(v, ai, necroXRoll);
    if necroX {
      queued := queued + [UseNecroXAbility];
    }
    queued := queued + ValueChoice(v, ai, s);
    assert queued == Queue(v, ai, s, necroXRoll);
    var cards := Story.EffectCards(ai.hand);
    if cards != [] && !reversum {
      var total := SumGain(v.players, v.ids, s.team, TotalReckoning(v.inverted));
      var aim := Aim(me, ai, s.team, s.opp, Leader(v.players, s.opp), necroX, total);
      assert aim == AimOf(v, me, s, necroX);
      d := PlayEffects(cards, v, aim, queued);
    } else {
      d := Decision(queued, None);
    }
  }

  /** `getAiTurnDecision(aiPlayer)` on the game state. */
  method GetAiTurnDecision(g: GameState, me: PlayerId, inversusRoll: bool, necroXRoll: bool) returns (d: Decision)
    requires g.Valid() && Ready(ViewOf(g), me)
    ensures d == Decide(ViewOf(g), me, inversusRoll, necroXRoll)
  {
    var v := ViewOf(g);
    if v.players[me].aiType == InversusAi {
      d := DecideInversus(v, me, inversusRoll);
    } else {
      d := DecideOthers(v, me, necroXRoll);
    }
  }

  // ----- what the plan promises -----

  /** The loop keeps what was queued before it and adds only plays of its
      own cards. */
  lemma {:induction false} EffectLoopCards(cards: seq<Card>, v: View, aim: Aim, start: seq<Action>)
    requires Aimed(v, aim)
    ensures forall a :: a in start ==> a in EffectLoop(cards, v, aim, start).actions
    ensures forall a :: a in EffectLoop(cards, v, aim, start).actions ==> a in start || (a.PlayCard? && a.card in cards)
    decreases |cards|
  {
    if cards != [] {
      var init := cards[..|cards| - 1];
      EffectLoopCards(init, v, aim, start);
      assert forall c :: c in init ==> c in cards;
    }
  }

  /** The loop queues at most one effect card, and none when one is queued. */
  lemma {:induction false} EffectLoopOnce(cards: seq<Card>, v: View, aim: Aim, start: seq<Action>)
    requires Aimed(v, aim)
    ensures var d := EffectLoop(cards, v, aim, start);
      Plays(d.actions, EffectCard) <= if Plays(start, EffectCard) == 0 then 1 else Plays(start, EffectCard)
    decreases |cards|
  {
    if cards != [] {
      var init := cards[..|cards| - 1];
      EffectLoopOnce(init, v, aim, start);
      var before := EffectLoop(init, v, aim, start);
      var card := cards[|cards| - 1];
      var pick := PickFor(card, v, aim);
      if pick.target.Some? && !HasPlay(before.actions, EffectCard) {
        var a := PlayCard(card, pick.target, pick.category, pick.lock);
        PlaysCounts(before.actions, EffectCard);
        PlaysAppend(before.actions, [a], EffectCard);
        assert [a][..0] == [];
      }
    }
  }

  /** Effect cards queued by the loop add no value play. */
  lemma {:induction false} EffectLoopNoValue(cards: seq<Card>, v: View, aim: Aim, start: seq<Action>)
    requires Aimed(v, aim)
    requires forall c :: c in cards ==> c.ctype == EffectCard
    ensures Plays(EffectLoop(cards, v, aim, start).actions, ValueCard) == Plays(start, ValueCard)
    decreases |cards|
  {
    if cards != [] {
      var init := cards[..|cards| - 1];
      assert forall c :: c in init ==> c in cards;
      EffectLoopNoValue(init, v, aim, start);
      var before := EffectLoop(init, v, aim, start);
      var card := cards[|cards| - 1];
      var pick := PickFor(card, v, aim);
      if pick.target.Some? && !HasPlay(before.actions, EffectCard) {
        var a := PlayCard(card, pick.target, pick.category, pick.lock);
        PlaysAppend(before.actions, [a], ValueCard);
        assert [a][..0] == [];
      }
    }
  }

  /** Actions that play no card ahead of a list leave its plays as they are. */
  lemma AbilitiesFirst(abilities: seq<Action>, more: seq<Action>)
    requires forall a :: a in abilities ==> !a.PlayCard?
    ensures Plays(abilities + more, EffectCard) == Plays(more, EffectCard)
    ensures Plays(abilities + more, ValueCard) == Plays(more, ValueCard)
    ensures forall a :: a in abilities + more && a.PlayCard? ==> a in more
  {
    PlaysAppend(abilities, more, EffectCard);
    PlaysAppend(abilities, more, ValueCard);
    PlaysCounts(abilities, EffectCard);
    PlaysCounts(abilities, ValueCard);
  }

  /** The queue holds no effect card, and its only card play is the value
      card `ValueChoice` picks. */
  lemma QueuePlays(v: View, ai: Player, s: Sides, necroXRoll: bool)
    requires Seated(v)
    requires forall id :: id in s.team ==> id in v.players
    requires forall id :: id in s.opp ==> id in v.players
    ensures var q := Queue(v, ai, s, necroXRoll);
      && Plays(q, EffectCard) == 0
      && Plays(q, ValueCard) == |ValueChoice(v, ai, s)|
      && forall a :: a in q && a.PlayCard? ==> a in ValueChoice(v, ai, s)
  {
    var abilities := (if ReversumFires(v, ai, s.team) then [UseReversumAbility] else [])
                     + (if NecroXFires(v, ai, necroXRoll) then [UseNecroXAbility] else []);
    var value := ValueChoice(v, ai, s);
    assert Queue(v, ai, s, necroXRoll) == abilities + value;
    AbilitiesFirst(abilities, value);
    OneValuePlay(value);
  }

  /** A queue of at most one value play counts it once, as a value play. */
  lemma OneValuePlay(r: seq<Action>)
    requires |r| <= 1 && (|r| == 1 ==> IsPlay(r[0], ValueCard))
    ensures Plays(r, ValueCard) == |r| && Plays(r, EffectCard) == 0
  {
    if r != [] {
      assert r[..0] == [];
    }
  }

  /** An AI other than Inversus queues at most one effect card. */
  lemma AtMostOneEffectPlay(v: View, me: PlayerId, necroXRoll: bool)
    requires Seated(v) && me in v.players
    ensures Plays(Others(v, me, necroXRoll).actions, EffectCard) <= 1
  {
    var ai := v.players[me];
    var s := SidesOf(v, me);
    var queued := Queue(v, ai, s, necroXRoll);
    QueuePlays(v, ai, s, necroXRoll);
    var cards := Story.EffectCards(ai.hand);
    if cards != [] && !ReversumFires(v, ai, s.team) {
      EffectLoopOnce(cards, v, AimOf(v, me, s, NecroXFires(v, ai, necroXRoll)), queued);
    }
  }

  /** An AI other than Inversus queues exactly one value play when it holds
      two value cards and has not played one this turn, and none otherwise;
      that play is the card `ValueChoice` picks. */
  lemma ValuePlayOfDecision(v: View, me: PlayerId, necroXRoll: bool)
    requires Seated(v) && me in v.players
    ensures var ai := v.players[me];
      var d := Others(v, me, necroXRoll);
      && Plays(d.actions, ValueCard) == (if !ai.playedValueCardThisTurn && |Story.ValueCards(ai.hand)| >= 2 then 1 else 0)
      && forall a :: a in d.actions && IsPlay(a, ValueCard) ==> a in ValueChoice(v, ai, SidesOf(v, me))
  {
    var ai := v.players[me];
    var s := SidesOf(v, me);
    var queued := Queue(v, ai, s, necroXRoll);
    QueuePlays(v, ai, s, necroXRoll);
    var cards := Story.EffectCards(ai.hand);
    if cards != [] && !ReversumFires(v, ai, s.team) {
      var aim := AimOf(v, me, s, NecroXFires(v, ai, necroXRoll));
      var d := EffectLoop(cards, v, aim, queued);
      assert d == Others(v, me, necroXRoll);
      EffectLoopNoValue(cards, v, aim, queued);
      EffectLoopCards(cards, v, aim, queued);
    }
  }

  /** The copied effect cards are cards of the AI's hand, each queued once,
      and none of them is a value card. */
  lemma {:induction false} MirrorDistinct(p1Cards: seq<Card>, ai: Player, me: PlayerId)
    ensures var m := MirrorPlays(p1Cards, ai, me);
      && (forall a :: a in m ==> a.PlayCard? && a.card in ai.hand && a.card.ctype == EffectCard)
      && forall i, j :: 0 <= i < j < |m| ==> m[i].card.id != m[j].card.id
    decreases |p1Cards|
  {
    if p1Cards != [] {
      var before := MirrorPlays(p1Cards[..|p1Cards| - 1], ai, me);
      MirrorDistinct(p1Cards[..|p1Cards| - 1], ai, me);
      var more := MirrorOne(p1Cards[|p1Cards| - 1], ai, me, before);
      var m := before + more;
      if more != [] {
        forall i, j | 0 <= i < j < |m|
          ensures m[i].card.id != m[j].card.id
        {
          if j == |before| {
            assert m[i] in before;
          }
        }
      }
    }
  }

  /** The Inversus AI queues at most one value play, and exactly one when
      it does not use its ability, holds two value cards and has not played
      one this turn. */
  lemma InversusValuePlays(v: View, me: PlayerId, roll: bool)
    requires me in v.players && PLAYER1 in v.players
    ensures var ai := v.players[me];
      var d := InversusDecision(v, me, roll);
      Plays(d.actions, ValueCard)
        == if (v.inversusActive || !roll) && !ai.playedValueCardThisTurn && |Story.ValueCards(ai.hand)| >= 2 then 1 else 0
  {
    var ai := v.players[me];
    if v.inversusActive || !roll {
      var p1 := v.players[PLAYER1];
      var mirrored := MirrorPlays(p1.playedEffect, ai, me);
      MirrorDistinct(p1.playedEffect, ai, me);
      assert !HasPlay(mirrored, ValueCard);
      PlaysCounts(mirrored, ValueCard);
      var value := InversusValue(ai, p1, mirrored);
      InversusValueCount(ai, p1, mirrored);
      PlaysAppend(mirrored, value, ValueCard);
      assert InversusDecision(v, me, roll).actions == mirrored + value;
    } else {
      assert [UseInversusAbility] == [] + [UseInversusAbility];
    }
  }

  /** The mandatory play of `executeAiTurn` adds a card exactly when the
      Inversus AI used its ability while it held two value cards and had not
      played one: every other plan already holds its value play. */
  lemma ForcedOnlyAfterInversusAbility(v: View, me: PlayerId, inversusRoll: bool, necroXRoll: bool)
    requires Ready(v, me)
    ensures var ai := v.players[me];
      var d := Decide(v, me, inversusRoll, necroXRoll);
      Forced(ai, d) != d <==>
        ai.aiType == InversusAi && !v.inversusActive && inversusRoll
        && |Story.ValueCards(ai.hand)| >= 2 && !ai.playedValueCardThisTurn
  {
    var ai := v.players[me];
    var d := Decide(v, me, inversusRoll, necroXRoll);
    if ai.aiType == InversusAi {
      InversusValuePlays(v, me, inversusRoll);
    } else {
      ValuePlayOfDecision(v, me, necroXRoll);
    }
    PlaysCounts(d.actions, ValueCard);
  }

  /** Every card an AI other than Inversus plays comes from its hand. */
  lemma OthersPlayFromHand(v: View, me: PlayerId, necroXRoll: bool)
    requires Seated(v) && me in v.players
    ensures forall a :: a in Others(v, me, necroXRoll).actions && a.PlayCard? ==> a.card in v.players[me].hand
  {
    var ai := v.players[me];
    var s := SidesOf(v, me);
    var queued := Queue(v, ai, s, necroXRoll);
    QueuePlays(v, ai, s, necroXRoll);
    var cards := Story.EffectCards(ai.hand);
    if cards != [] && !ReversumFires(v, ai, s.team) {
      var aim := AimOf(v, me, s, NecroXFires(v, ai, necroXRoll));
      var d := EffectLoop(cards, v, aim, queued);
      assert d == Others(v, me, necroXRoll);
      EffectLoopCards(cards, v, aim, queued);
    }
  }

  /** Every card the plan plays comes from the AI's hand. */
  lemma PlaysFromHand(v: View, me: PlayerId, inversusRoll: bool, necroXRoll: bool)
    requires Ready(v, me)
    ensures forall a :: a in Decide(v, me, inversusRoll, necroXRoll).actions && a.PlayCard? ==> a.card in v.players[me].hand
  {
    var ai := v.players[me];
    if ai.aiType == InversusAi {
      if v.inversusActive || !inversusRoll {
        MirrorDistinct(v.players[PLAYER1].playedEffect, ai, me);
      }
    } else {
      OthersPlayFromHand(v, me, necroXRoll);
    }
  }
}
