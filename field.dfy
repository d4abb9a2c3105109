/** The field effects that fire when a round starts (`triggerFieldEffects`):
    each player standing on an unused coloured space sets it off once. */
module FieldEffects {
  import opened Types
  import opened State
  import opened Board
  import opened Play
  import opened Story
  import Resolve

  /** The part of the game state the field effects write, and the terminal
      story event that ends the processing early. */
  datatype Field = Field(
    players: map<PlayerId, Player>,
    paths: seq<BoardPath>,
    valueDeck: seq<Card>,
    fieldEffects: seq<FieldEffect>,
    revealed: seq<PlayerId>,
    powerDisabled: bool,
    necroHearts: int,
    phase: Phase,
    event: Option<StoryEvent>)

  /** What the field effects read without writing, and the choices they
      make: `rand(k, j)` is the j-th random number drawn for the k-th seat,
      `declines(k)` whether the human at seat k cancels a trade. */
  datatype Env = Env(ids: seq<PlayerId>, mode: Mode, finalBoss: bool,
                     rand: (nat, nat) -> nat, declines: nat -> bool)

  /** Every seated id has a player. */
  predicate Seated(env: Env, f: Field)
  {
    forall id :: id in env.ids ==> id in f.players
  }

  // ----- the board -----

  /** `boardPaths[pathId].spaces[position - 1]`, when both exist. */
  function SpaceAt(paths: seq<BoardPath>, pathId: int, position: int): Option<Space>
  {
    if 0 <= pathId < |paths| && 1 <= position <= |paths[pathId].spaces|
    then Some(paths[pathId].spaces[position - 1])
    else None
  }

  /** The board with the space at a position replaced, if it exists. */
  function SetSpace(paths: seq<BoardPath>, pathId: int, position: int, sp: Space): (r: seq<BoardPath>)
    ensures |r| == |paths|
    ensures WellColored(paths) && (sp.color.Tinted() <==> sp.effectName.Some?) ==> WellColored(r)
    ensures SpaceAt(paths, pathId, position).Some? ==> SpaceAt(r, pathId, position) == Some(sp)
  {
    if 0 <= pathId < |paths| && 1 <= position <= |paths[pathId].spaces|
    then paths[pathId := paths[pathId].(spaces := paths[pathId].spaces[position - 1 := sp])]
    else paths
  }

  /** Reversum is immune to field effects: on an unused red or blue space
      he only uses it up. */
  predicate Dodges(paths: seq<BoardPath>, p: Player)
  {
    var spot := SpaceAt(paths, p.pathId, p.position);
    p.aiType == ReversumAi && spot.Some? && spot.value.color.Tinted() && !spot.value.isUsed
  }

  /** The player sets off the space under it: in play, on the board, on an
      unused coloured space, and not Reversum dodging a red or blue one. */
  predicate Fires(paths: seq<BoardPath>, p: Player)
  {
    var spot := SpaceAt(paths, p.pathId, p.position);
    && !p.isEliminated && p.pathId != -1 && !Dodges(paths, p)
    && 1 <= p.position <= BOARD_SIZE && spot.Some? && !spot.value.isUsed && spot.value.color != White
  }

  // ----- yellow spaces -----

  /** JavaScript's `x % 10`, whose remainder takes the sign of the dividend. */
  function JsRem10(a: int): (r: int)
    ensures -10 < r < 10 && r % 10 == a % 10
    ensures a >= 0 ==> r >= 0
    ensures a <= 0 ==> r <= 0
  {
    if a >= 0 then a % 10 else -((-a) % 10)
  }

  /** The looping move of the final battle,
      `((((oldPos - 1) + move) % 10) + 10) % 10 + 1`: it always lands on 1..10
      and equals the true modular wrap-around. */
  function Looped(position: int, move: int): (r: int)
    ensures 1 <= r <= 10
    ensures r == (position - 1 + move) % 10 + 1
  {
    JsRem10(JsRem10(position - 1 + move) + 10) + 1
  }

  /** `applyLoopingMovement(p, move)`: an absent or eliminated player stays. */
  function LoopMove(players: map<PlayerId, Player>, who: Option<PlayerId>, move: int): (r: map<PlayerId, Player>)
    ensures r.Keys == players.Keys
  {
    if who.Some? && who.value in players && !players[who.value].isEliminated
    then players[who.value := players[who.value].(position := Looped(players[who.value].position, move))]
    else players
  }

  /** The `forEach` moving each listed player. */
  function LoopAll(players: map<PlayerId, Player>, xs: seq<PlayerId>, move: int): (r: map<PlayerId, Player>)
    ensures r.Keys == players.Keys
  {
    if xs == [] then players else LoopAll(LoopMove(players, Some(xs[0]), move), xs[1..], move)
  }

  /** The players of one AI type, in seat order. */
  function OfType(players: map<PlayerId, Player>, ids: seq<PlayerId>, t: AiType): (r: seq<PlayerId>)
    requires forall id :: id in ids ==> id in players
    ensures forall id :: id in r <==> id in ids && players[id].aiType == t
  {
    if ids == [] then []
    else if players[ids[0]].aiType == t then [ids[0]] + OfType(players, ids[1..], t)
    else OfType(players, ids[1..], t)
  }

  /** A yellow space in the final battle moves everyone: the human and the
      Versatrix one space forward, each Necroverso one space back, looping. */
  function Swirl(players: map<PlayerId, Player>, ids: seq<PlayerId>): (r: map<PlayerId, Player>)
    requires forall id :: id in ids ==> id in players
    ensures r.Keys == players.Keys
  {
    var m := LoopMove(players, if PLAYER1 in players then Some(PLAYER1) else None, 1);
    var m' := LoopMove(m, Resolve.FindVersatrix(players, ids), 1);
    LoopAll(m', OfType(players, ids, NecroversoFinalAi), -1)
  }

  /** A yellow (Versatrix) space: inert once her power is gone; in the final
      battle everyone moves; otherwise the Versatrix advances one space, up to
      the winning position, and anyone else falls back one, down to 1. */
  function YellowHit(f: Field, env: Env, id: PlayerId): (r: Field)
    requires id in f.players && Seated(env, f)
    ensures r.players.Keys == f.players.Keys && r.paths == f.paths
  {
    if f.powerDisabled then f
    else if env.finalBoss then f.(players := Swirl(f.players, env.ids))
    else
      var p := f.players[id];
      var position := if p.aiType == VersatrixAi then Min(WINNING_POSITION, p.position + 1) else Max(1, p.position - 1);
      f.(players := f.players[id := p.(position := position)])
  }

  function Min(a: int, b: int): int { if a <= b then a else b }
  function Max(a: int, b: int): int { if a >= b then a else b }

  // ----- black holes -----

  /** A black hole turns white. It ends the battle in a loss for the human;
      it eliminates the Versatrix, disabling her power and neutralising every
      yellow space; it costs Necroverso a heart and ends the battle in a win
      once the hearts are gone. */
  function BlackHoleHit(f: Field, id: PlayerId, pathId: int, position: int, sp: Space): (r: Field)
    requires id in f.players && WellColored(f.paths) && sp.effectName.None?
    ensures r.players.Keys == f.players.Keys && WellColored(r.paths)
  {
    var paths := SetSpace(f.paths, pathId, position, sp.(color := White));
    var p := f.players[id];
    if p.isHuman then f.(paths := paths, event := Some(StoryWinLoss(NecroversoFinalBattle, false, Some(BlackHole))))
    else
      var f' := if p.aiType == VersatrixAi
                then WhitenedBoard(paths);
                     f.(players := f.players[id := p.(isEliminated := true)], powerDisabled := true, paths := Whiten(paths))
                else f.(paths := paths);
      if p.aiType != NecroversoFinalAi then f'
      else if f.necroHearts - 1 <= 0 then
        f'.(necroHearts := f.necroHearts - 1, event := Some(StoryWinLoss(NecroversoFinalBattle, true, None)))
      else f'.(necroHearts := f.necroHearts - 1)
  }

  // ----- red and blue spaces -----

  /** The player's team: its duo team, or itself alone. */
  function TeamOf(mode: Mode, id: PlayerId): (team: seq<PlayerId>)
    ensures |team| > 0
    ensures mode == Duo ==> |team| == 2 && team[0] != team[1]
    ensures mode != Duo ==> team == [id]
  {
    if mode == Duo then (if id in TEAM_A then TEAM_A else TEAM_B) else [id]
  }

  function EffectType(positive: bool): FieldEffectType
  {
    if positive then Positive else Negative
  }

  /** The listed ids that have a player, in order. */
  function Present(players: map<PlayerId, Player>, ids: seq<PlayerId>): (r: seq<PlayerId>)
    ensures forall id :: id in r <==> id in ids && id in players
  {
    if ids == [] then []
    else if ids[0] in players then [ids[0]] + Present(players, ids[1..])
    else Present(players, ids[1..])
  }

  /** The default effect: one field-effect record per team member present,
      applying to that member. */
  function Records(players: map<PlayerId, Player>, team: seq<PlayerId>, name: FieldName, positive: bool)
    : (r: seq<FieldEffect>)
    ensures |r| == |Present(players, team)|
  {
    if team == [] then []
    else if team[0] in players then [FieldEffect(name, team[0], EffectType(positive))] + Records(players, team[1..], name, positive)
    else Records(players, team[1..], name, positive)
  }

  /** Each record names the field effect and applies to the present member
      in the same place, with the effect type of the space's colour. */
  lemma {:induction false} RecordsFollowTeam(players: map<PlayerId, Player>, team: seq<PlayerId>, name: FieldName, positive: bool)
    ensures forall i :: 0 <= i < |Records(players, team, name, positive)| ==>
      Records(players, team, name, positive)[i] == FieldEffect(name, Present(players, team)[i], EffectType(positive))
    decreases |team|
  {
    if team != [] {
      RecordsFollowTeam(players, team[1..], name, positive);
      var r, present := Records(players, team, name, positive), Present(players, team);
      var tail, rest := Records(players, team[1..], name, positive), Present(players, team[1..]);
      if team[0] in players {
        assert r == [FieldEffect(name, team[0], EffectType(positive))] + tail;
        assert present == [team[0]] + rest;
        forall i | 0 < i < |r|
          ensures r[i] == FieldEffect(name, present[i], EffectType(positive))
        {
          assert r[i] == tail[i - 1] && present[i] == rest[i - 1];
        }
      } else {
        assert r == tail && present == rest;
      }
    }
  }

  /** Carta Menor / Carta Maior for one member: the lowest (highest) value
      card is pushed onto the value deck and leaves the hand, and the top of
      the deck, that same card, is drawn back. */
  function RedrawOne(f: Field, member: PlayerId, lowest: bool): (r: Field)
    ensures r.players.Keys == f.players.Keys
    ensures r == f.(players := r.players, valueDeck := r.valueDeck)
  {
    if member !in f.players || |ValueCards(f.players[member].hand)| == 0 then f
    else
      var p := f.players[member];
      var c := if lowest then Lowest(ValueCards(p.hand)) else Highest(ValueCards(p.hand));
      var deck := f.valueDeck + [c];
      var hand := WithoutCard(p.hand, c.id);
      f.(players := f.players[member := p.(hand := hand + [deck[|deck| - 1]])], valueDeck := deck[..|deck| - 1])
  }

  /** The `forEach` over the team. */
  function Redraw(f: Field, team: seq<PlayerId>, lowest: bool): (r: Field)
    ensures r.players.Keys == f.players.Keys
    ensures r == f.(players := r.players, valueDeck := r.valueDeck)
    decreases |team|
  {
    if team == [] then f else Redraw(RedrawOne(f, team[0], lowest), team[1..], lowest)
  }

  /** A trade field effect: in duo the two team members trade fairly;
      otherwise the player trades with an opponent (the human picks one or
      cancels, an AI picks at random) fairly or unfairly as the space says. */
  function Swap(f: Field, env: Env, k: nat, id: PlayerId, team: seq<PlayerId>, opponents: seq<PlayerId>, kind: TradeKind)
    : (r: Field)
    requires id in f.players && |team| > 0
    ensures r.players.Keys == f.players.Keys
    ensures r == f.(players := r.players, phase := r.phase)
  {
    if env.mode == Duo && |team| > 1 && team[1] in f.players then f.(players := Trade(f.players, team[0], team[1], Justa))
    else if |opponents| == 0 then f
    else if f.players[id].isHuman then
      // the targeting modal; choosing or cancelling returns to play
      if env.declines(k) then f.(phase := Playing)
      else f.(players := Trade(f.players, id, opponents[env.rand(k, 0) % |opponents|], kind), phase := Playing)
    else f.(players := Trade(f.players, id, opponents[env.rand(k, 0) % |opponents|], kind))
  }

  /** One random effect card discarded, if there is one. */
  function DropOne(hand: seq<Card>, roll: nat): (r: seq<Card>)
    ensures EffectCards(hand) == [] ==> r == hand
    ensures EffectCards(hand) != [] ==> |EffectCards(r)| < |EffectCards(hand)| && |r| <= |hand|
  {
    var ec := EffectCards(hand);
    if |ec| > 0 then
      var c := ec[roll % |ec|];
      assert c in ec;
      FewerEffects(hand, c);
      WithoutCard(hand, c.id)
    else hand
  }

  /** Removing an effect card's id removes at least that effect card. */
  lemma {:induction false} FewerEffects(hand: seq<Card>, c: Card)
    requires c in hand && c.ctype == EffectCard
    ensures |EffectCards(WithoutCard(hand, c.id))| < |EffectCards(hand)|
  {
    if hand[0] == c {
      NoMoreEffects(hand[1..], c.id);
    } else {
      assert c in hand[1..];
      FewerEffects(hand[1..], c);
    }
  }

  lemma {:induction false} NoMoreEffects(hand: seq<Card>, id: nat)
    ensures |EffectCards(WithoutCard(hand, id))| <= |EffectCards(hand)|
  {
    if hand != [] {
      NoMoreEffects(hand[1..], id);
    }
  }

  /** The `while` loop discarding random effect cards until at most one is left. */
  function DropTo1(hand: seq<Card>, rand: (nat, nat) -> nat, k: nat, j: nat): (r: seq<Card>)
    ensures |EffectCards(r)| <= 1
    decreases |EffectCards(hand)|
  {
    var ec := EffectCards(hand);
    if |ec| <= 1 then hand
    else
      var c := ec[rand(k, j) % |ec|];
      FewerEffects(hand, c);
      DropTo1(WithoutCard(hand, c.id), rand, k, j + 1)
  }

  /** Total Revesus Nada!: in duo the first member loses one random effect
      card and the second discards down to one; otherwise the player keeps
      only value cards. The discarded cards return to no deck. */
  function Nada(players: map<PlayerId, Player>, env: Env, k: nat, team: seq<PlayerId>): (r: map<PlayerId, Player>)
    requires |team| > 0
    ensures r.Keys == players.Keys
  {
    if env.mode == Duo then
      var m := if team[0] in players then players[team[0] := players[team[0]].(hand := DropOne(players[team[0]].hand, env.rand(k, 0)))]
               else players;
      if |team| > 1 && team[1] in m then m[team[1] := m[team[1]].(hand := DropTo1(m[team[1]].hand, env.rand, k, 1))]
      else m
    else if team[0] in players then players[team[0] := players[team[0]].(hand := ValueCards(players[team[0]].hand))]
    else players
  }

  /** A red (negative) or blue (positive) space with its effect. */
  function TintedHit(f: Field, env: Env, k: nat, id: PlayerId, positive: bool, name: FieldName): (r: Field)
    requires id in f.players
    ensures r.players.Keys == f.players.Keys && r.paths == f.paths
  {
    var team := TeamOf(env.mode, id);
    var opponents := Resolve.Without(env.ids, team);
    match name
    case CartaMenor => Redraw(f, team, true)
    case CartaMaior => Redraw(f, team, false)
    case JogoAberto => f.(revealed := f.revealed + Present(f.players, if positive then opponents else team))
    case TrocaJusta => Swap(f, env, k, id, team, opponents, Justa)
    case TrocaInjusta => Swap(f, env, k, id, team, opponents, Injusta)
    case TotalRevesusNada => f.(players := Nada(f.players, env, k, team))
    case _ => f.(fieldEffects := f.fieldEffects + Records(f.players, team, name, positive))
  }

  // ----- one player, and the loop -----

  /** One turn of the loop over the seats, for the player at seat `k`. */
  function Fire(f: Field, env: Env, k: nat, id: PlayerId): (r: Field)
    requires id in f.players && WellColored(f.paths) && Seated(env, f)
    ensures r.players.Keys == f.players.Keys && WellColored(r.paths)
  {
    var p := f.players[id];
    var spot := SpaceAt(f.paths, p.pathId, p.position);
    if p.isEliminated || p.pathId == -1 then f
    else if Dodges(f.paths, p) then f.(paths := SetSpace(f.paths, p.pathId, p.position, spot.value.(isUsed := true)))
    else if p.position < 1 || p.position > BOARD_SIZE || spot.None? || spot.value.isUsed || spot.value.color == White then f
    else
      var sp := spot.value.(isUsed := true);
      var f' := f.(paths := SetSpace(f.paths, p.pathId, p.position, sp), phase := FieldEffectPhase);
      if sp.color == Yellow then YellowHit(f', env, id)
      else if sp.color == Black then BlackHoleHit(f', id, p.pathId, p.position, sp)
      else TintedHit(f', env, k, id, sp.color == Blue, sp.effectName.value)
  }

  /** The loop over the seats from seat `k` on, cut short by a story event. */
  function FireAll(f: Field, env: Env, ids: seq<PlayerId>, k: nat): (r: Field)
    requires WellColored(f.paths) && Seated(env, f) && forall id :: id in ids ==> id in f.players
    ensures r.players.Keys == f.players.Keys && WellColored(r.paths)
    decreases |ids|
  {
    if ids == [] || f.event.Some? then f
    else FireAll(Fire(f, env, k, ids[0]), env, ids[1..], k + 1)
  }

  // ----- the imperative loops -----

  /** The Necroversos' `forEach` of the final-battle yellow space. */
  method MoveAll(players: map<PlayerId, Player>, xs: seq<PlayerId>, move: int) returns (r: map<PlayerId, Player>)
    ensures r == LoopAll(players, xs, move)
  {
    r := players;
    var i := 0;
    while i < |xs|
      invariant i <= |xs|
      invariant LoopAll(r, xs[i..], move) == LoopAll(players, xs, move)
    {
      assert xs[i..] == [xs[i]] + xs[i + 1..];
      var x := xs[i];
      if x in r && !r[x].isEliminated {
        r := r[x := r[x].(position := Looped(r[x].position, move))];
      }
      i := i + 1;
    }
  }

  /** The Carta Menor / Carta Maior `forEach` over the team, with the push
      onto the deck and the pop back into the hand. */
  method RedrawTeam(f: Field, team: seq<PlayerId>, lowest: bool) returns (r: Field)
    ensures r == Redraw(f, team, lowest)
  {
    r := f;
    var i := 0;
    while i < |team|
      invariant i <= |team|
      invariant Redraw(r, team[i..], lowest) == Redraw(f, team, lowest)
    {
      assert team[i..] == [team[i]] + team[i + 1..];
      var member := team[i];
      if member in r.players && |ValueCards(r.players[member].hand)| > 0 {
        var p := r.players[member];
        var values := ValueCards(p.hand);
        var c := if lowest then Lowest(values) else Highest(values);
        var deck := r.valueDeck + [c];
        var hand := WithoutCard(p.hand, c.id);
        var top := deck[|deck| - 1];
        deck := deck[..|deck| - 1];
        r := r.(players := r.players[member := p.(hand := hand + [top])], valueDeck := deck);
      }
      i := i + 1;
    }
  }

  /** Jogo Aberto's `forEach`: each listed id with a player is revealed. */
  method RevealHands(revealed: seq<PlayerId>, players: map<PlayerId, Player>, ids: seq<PlayerId>)
    returns (r: seq<PlayerId>)
    ensures r == revealed + Present(players, ids)
  {
    r := revealed;
    var i := 0;
    while i < |ids|
      invariant i <= |ids|
      invariant r + Present(players, ids[i..]) == revealed + Present(players, ids)
    {
      assert ids[i..] == [ids[i]] + ids[i + 1..];
      if ids[i] in players {
        r := r + [ids[i]];
      }
      i := i + 1;
    }
  }

  /** The default `forEach`: a field-effect record per team member present. */
  method AddTeamEffects(effects: seq<FieldEffect>, players: map<PlayerId, Player>, team: seq<PlayerId>,
                        name: FieldName, positive: bool) returns (r: seq<FieldEffect>)
    ensures r == effects + Records(players, team, name, positive)
  {
    r := effects;
    var i := 0;
    while i < |team|
      invariant i <= |team|
      invariant r + Records(players, team[i..], name, positive) == effects + Records(players, team, name, positive)
    {
      assert team[i..] == [team[i]] + team[i + 1..];
      if team[i] in players {
        r := r + [FieldEffect(name, team[i], EffectType(positive))];
      }
      i := i + 1;
    }
  }

  /** The second duo member's `while` loop of Total Revesus Nada!. */
  method DiscardDownToOne(hand: seq<Card>, rand: (nat, nat) -> nat, k: nat) returns (r: seq<Card>)
    ensures r == DropTo1(hand, rand, k, 1)
  {
    r := hand;
    var j := 1;
    var effects := EffectCards(r);
    while |effects| > 1
      invariant effects == EffectCards(r)
      invariant DropTo1(r, rand, k, j) == DropTo1(hand, rand, k, 1)
      decreases |effects|
    {
      var c := effects[rand(k, j) % |effects|];
      FewerEffects(r, c);
      r := WithoutCard(r, c.id);
      effects := EffectCards(r);
      j := j + 1;
    }
  }

  // ----- one player, imperatively -----

  method FireYellow(f: Field, env: Env, id: PlayerId) returns (r: Field)
    requires id in f.players && Seated(env, f)
    ensures r == YellowHit(f, env, id)
  {
    if f.powerDisabled {
      return f;
    }
    if env.finalBoss {
      var players := LoopMove(f.players, if PLAYER1 in f.players then Some(PLAYER1) else None, 1);
      players := LoopMove(players, Resolve.FindVersatrix(f.players, env.ids), 1);
      players := MoveAll(players, OfType(f.players, env.ids, NecroversoFinalAi), -1);
      return f.(players := players);
    }
    var p := f.players[id];
    if p.aiType == VersatrixAi {
      p := p.(position := Min(WINNING_POSITION, p.position + 1));
    } else {
      p := p.(position := Max(1, p.position - 1));
    }
    r := f.(players := f.players[id := p]);
  }

  method FireBlackHole(f: Field, id: PlayerId, pathId: int, position: int, sp: Space) returns (r: Field)
    requires id in f.players && WellColored(f.paths) && sp.effectName.None?
    ensures r == BlackHoleHit(f, id, pathId, position, sp)
  {
    r := f.(paths := SetSpace(f.paths, pathId, position, sp.(color := White)));
    var p := f.players[id];
    if p.isHuman {
      return r.(event := Some(StoryWinLoss(NecroversoFinalBattle, false, Some(BlackHole))));
    }
    if p.aiType == VersatrixAi {
      var paths := NeutralizeYellow(r.paths);
      r := r.(players := r.players[id := p.(isEliminated := true)], powerDisabled := true, paths := paths);
    }
    if p.aiType == NecroversoFinalAi {
      r := r.(necroHearts := r.necroHearts - 1);
      if r.necroHearts <= 0 {
        r := r.(event := Some(StoryWinLoss(NecroversoFinalBattle, true, None)));
      }
    }
  }

  method FireTinted(f: Field, env: Env, k: nat, id: PlayerId, positive: bool, name: FieldName) returns (r: Field)
    requires id in f.players
    ensures r == TintedHit(f, env, k, id, positive, name)
  {
    var team := TeamOf(env.mode, id);
    var opponents := Resolve.Without(env.ids, team);
    match name
    case CartaMenor =>
      r := RedrawTeam(f, team, true);
    case CartaMaior =>
      r := RedrawTeam(f, team, false);
    case JogoAberto =>
      var revealed := RevealHands(f.revealed, f.players, if positive then opponents else team);
      r := f.(revealed := revealed);
    case TrocaJusta =>
      r := Swap(f, env, k, id, team, opponents, Justa);
    case TrocaInjusta =>
      r := Swap(f, env, k, id, team, opponents, Injusta);
    case TotalRevesusNada =>
      r := FireNada(f, env, k, team);
    case _ =>
      var effects := AddTeamEffects(f.fieldEffects, f.players, team, name, positive);
      r := f.(fieldEffects := effects);
  }

  method FireNada(f: Field, env: Env, k: nat, team: seq<PlayerId>) returns (r: Field)
    requires |team| > 0
    ensures r == f.(players := Nada(f.players, env, k, team))
  {
    var players := f.players;
    if env.mode == Duo {
      if team[0] in players {
        players := players[team[0] := players[team[0]].(hand := DropOne(players[team[0]].hand, env.rand(k, 0)))];
      }
      if |team| > 1 && team[1] in players {
        var hand := DiscardDownToOne(players[team[1]].hand, env.rand, k);
        players := players[team[1] := players[team[1]].(hand := hand)];
      }
    } else if team[0] in players {
      players := players[team[0] := players[team[0]].(hand := ValueCards(players[team[0]].hand))];
    }
    r := f.(players := players);
  }

  /** The body of the loop over the seats. */
  method FireSpace(f: Field, env: Env, k: nat, id: PlayerId) returns (r: Field)
    requires id in f.players && WellColored(f.paths) && Seated(env, f)
    ensures r == Fire(f, env, k, id)
  {
    var p := f.players[id];
    if p.isEliminated || p.pathId == -1 {
      return f;
    }
    var spot := SpaceAt(f.paths, p.pathId, p.position);
    if p.aiType == ReversumAi && spot.Some? && (spot.value.color == Red || spot.value.color == Blue) && !spot.value.isUsed {
      return f.(paths := SetSpace(f.paths, p.pathId, p.position, spot.value.(isUsed := true)));
    }
    if p.position < 1 || p.position > BOARD_SIZE || spot.None? || spot.value.isUsed || spot.value.color == White {
      return f;
    }
    var sp := spot.value.(isUsed := true);
    r := f.(paths := SetSpace(f.paths, p.pathId, p.position, sp), phase := FieldEffectPhase);
    if sp.color == Yellow {
      r := FireYellow(r, env, id);
    } else if sp.color == Black {
      r := FireBlackHole(r, id, p.pathId, p.position, sp);
    } else {
      r := FireTinted(r, env, k, id, sp.color == Blue, sp.effectName.value);
    }
  }

  /** The loop over the seats, in turn order, until a story event. */
  method RunSeats(f0: Field, env: Env) returns (f: Field)
    requires WellColored(f0.paths) && Seated(env, f0)
    ensures f == FireAll(f0, env, env.ids, 0)
  {
    var ids := env.ids;
    f := f0;
    var i := 0;
    while i < |ids| && f.event.None?
      invariant i <= |ids|
      invariant WellColored(f.paths) && Seated(env, f)
      invariant FireAll(f, env, ids[i..], i) == FireAll(f0, env, ids, 0)
    {
      assert ids[i..] == [ids[i]] + ids[i + 1..];
      f := FireSpace(f, env, i, ids[i]);
      i := i + 1;
    }
  }

  // ----- the game state -----

  /** Contravox's OÃSUFNOC: while uses remain, it obscures the human's cards
      when the human stands on space 3, 6 or 9. */
  predicate Obscures(players: map<PlayerId, Player>, ids: seq<PlayerId>, uses: int)
    requires forall id :: id in ids ==> id in players
  {
    && |OfType(players, ids, ContravoxAi)| > 0 && uses > 0
    && PLAYER1 in players && players[PLAYER1].position in {3, 6, 9}
  }

  /** The fields the loop writes, as they stand in the game state. */
  function FieldOf(g: GameState): Field
    reads g
  {
    Field(g.players, g.boardPaths, g.valueDeck, g.activeFieldEffects, g.revealedHands,
          g.versatrixPowerDisabled, g.necroversoHearts, g.gamePhase, None)
  }

  /** Writes the loop's result and Contravox's two fields back. */
  method Store(g: GameState, f: Field, obscured: bool, uses: int)
    requires g.Valid() && f.players.Keys == g.players.Keys
    modifies g`players, g`boardPaths, g`valueDeck, g`activeFieldEffects, g`revealedHands,
             g`versatrixPowerDisabled, g`necroversoHearts, g`gamePhase,
             g`player1CardsObscured, g`contravoxAbilityUses
    ensures g.Valid() && FieldOf(g) == f.(event := None)
    ensures g.player1CardsObscured == obscured && g.contravoxAbilityUses == uses
  {
    g.players, g.boardPaths, g.valueDeck, g.activeFieldEffects := f.players, f.paths, f.valueDeck, f.fieldEffects;
    g.revealedHands, g.versatrixPowerDisabled, g.necroversoHearts, g.gamePhase := f.revealed, f.powerDisabled, f.necroHearts, f.phase;
    g.player1CardsObscured, g.contravoxAbilityUses := obscured, uses;
  }

  /** `triggerFieldEffects()`: Contravox's ability first, then every seat in
      turn order; a story event (a black hole ending the battle) stops the
      loop and is returned. */
  method TriggerFieldEffects(g: GameState, rand: (nat, nat) -> nat, declines: nat -> bool)
    returns (event: Option<StoryEvent>)
    requires g.Valid() && WellColored(g.boardPaths)
    modifies g`players, g`boardPaths, g`valueDeck, g`activeFieldEffects, g`revealedHands,
             g`versatrixPowerDisabled, g`necroversoHearts, g`gamePhase,
             g`player1CardsObscured, g`contravoxAbilityUses
    ensures g.Valid() && WellColored(g.boardPaths)
    ensures var obscured := Obscures(old(g.players), g.playerIdsInGame, old(g.contravoxAbilityUses));
      && g.player1CardsObscured == (old(g.player1CardsObscured) || obscured)
      && g.contravoxAbilityUses == old(g.contravoxAbilityUses) - (if obscured then 1 else 0)
    ensures var r := FireAll(old(FieldOf(g)), Env(g.playerIdsInGame, g.gameMode, g.isFinalBoss, rand, declines), g.playerIdsInGame, 0);
      FieldOf(g) == r.(event := None) && event == r.event
  {
    var start := FieldOf(g);
    var env := Env(g.playerIdsInGame, g.gameMode, g.isFinalBoss, rand, declines);
    var obscured := Obscures(g.players, g.playerIdsInGame, g.contravoxAbilityUses);
    var uses := g.contravoxAbilityUses - if obscured then 1 else 0;
    var f := RunSeats(start, env);
    Store(g, f, g.player1CardsObscured || obscured, uses);
    event := f.event;
    assert start == old(FieldOf(g)) && env.ids == g.playerIdsInGame;
  }
}
