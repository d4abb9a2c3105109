/** Effect resolution (`applyEffect` in js/game.js): how a played card changes
    the score and movement effects of its target, including inversion under
    Reversus Total and the three kinds of reversal. */
module Effects {
  import opened Types
  import opened State

  predicate IsScoreEffect(n: Name)
  {
    n == Mais || n == Menos || n == NecroX || n == NecroXInvertido
  }

  predicate IsMovementEffect(n: Name)
  {
    n == Sobe || n == Desce || n == Pula
  }

  /** The six names that have an inverse. */
  predicate Invertible(n: Name)
  {
    n == Mais || n == Menos || n == Sobe || n == Desce || n == NecroX || n == NecroXInvertido
  }

  /** `getInverseEffect`: Mais/Menos, Sobe/Desce and NECRO X/NECRO X Invertido
      swap; everything else (no effect, Pula, reversals, numbers) has none. */
  function Inverse(e: Option<Name>): (r: Option<Name>)
    ensures r.Some? <==> e.Some? && Invertible(e.value)
    ensures r.Some? ==> Invertible(r.value) && r.value != e.value
    ensures r.Some? ==> (IsScoreEffect(r.value) <==> IsScoreEffect(e.value))
    ensures r.Some? ==> (IsMovementEffect(r.value) <==> IsMovementEffect(e.value))
  {
    match e
    case Some(Mais) => Some(Menos)
    case Some(Menos) => Some(Mais)
    case Some(Sobe) => Some(Desce)
    case Some(Desce) => Some(Sobe)
    case Some(NecroX) => Some(NecroXInvertido)
    case Some(NecroXInvertido) => Some(NecroX)
    case _ => None
  }

  /** Inversion is an involution on the six invertible names. */
  lemma InverseInvolutive(n: Name)
    requires Invertible(n)
    ensures Inverse(Inverse(Some(n))) == Some(n)
  {
  }

  /** The name a card acts as: while Reversus Total is active every invertible
      card other than Reversus Total itself acts as its inverse; Pula and the
      reversal cards keep their names. */
  function EffectiveName(card: Card, reversusTotalActive: bool): (n: Name)
    ensures reversusTotalActive && Invertible(card.name) ==> Some(n) == Inverse(Some(card.name))
    ensures !reversusTotalActive || !Invertible(card.name) ==> n == card.name
  {
    if reversusTotalActive && card.name != ReversusTotal && Inverse(Some(card.name)).Some?
    then Inverse(Some(card.name)).value
    else card.name
  }

  /** An 'Imunidade' field effect on the target blocks a card PRINTED Menos or
      Desce; the test reads the printed name, before any substitution. */
  predicate Immune(fieldEffects: seq<FieldEffect>, targetId: PlayerId, card: Card)
  {
    && (exists fe :: fe in fieldEffects && fe.name == Imunidade && fe.appliesTo == targetId)
    && (card.name == Menos || card.name == Desce)
  }

  /** A single-target reversal of one category: the effect is inverted, except
      that a Pula movement is cancelled. No category means no change. */
  function ReverseCategory(e: Effects, category: Option<Category>): (r: Effects)
    ensures category != Some(ScoreCat) ==> r.score == e.score
    ensures category != Some(MovementCat) ==> r.movement == e.movement
    ensures category == Some(ScoreCat) ==> r.score == Inverse(e.score)
    ensures category == Some(MovementCat) ==>
              r.movement == if e.movement == Some(Pula) then None else Inverse(e.movement)
  {
    match category
    case Some(ScoreCat) => e.(score := Inverse(e.score))
    case Some(MovementCat) =>
      if e.movement == Some(Pula) then e.(movement := None) else e.(movement := Inverse(e.movement))
    case None => e
  }

  /** The first played card whose printed name belongs to a category. */
  function FirstOfCategory(cards: seq<Card>, category: Category): (r: Option<Card>)
    ensures r.Some? ==> r.value in cards
    ensures r.Some? ==> InCategory(r.value.name, category)
  {
    if cards == [] then None
    else if InCategory(cards[0].name, category) then Some(cards[0])
    else FirstOfCategory(cards[1..], category)
  }

  predicate InCategory(n: Name, category: Category)
  {
    match category
    case ScoreCat => IsScoreEffect(n)
    case MovementCat => IsMovementEffect(n)
  }

  /** What global Reversus Total does to one player: a category is inverted
      only when the player holds an unlocked played card of that category, and
      a Pula movement is never touched. */
  function GlobalReverse(p: Player): Player
  {
    var scoreCard := FirstOfCategory(p.playedEffect, ScoreCat);
    var moveCard := FirstOfCategory(p.playedEffect, MovementCat);
    var score :=
      if scoreCard.Some? && !scoreCard.value.isLocked then Inverse(p.effects.score) else p.effects.score;
    var movement :=
      if moveCard.Some? && !moveCard.value.isLocked && p.effects.movement != Some(Pula)
      then Inverse(p.effects.movement) else p.effects.movement;
    p.(effects := Effects(score, movement))
  }

  function GlobalReversed(players: map<PlayerId, Player>): (r: map<PlayerId, Player>)
    ensures r.Keys == players.Keys
  {
    map id | id in players :: GlobalReverse(players[id])
  }

  /** The part of the game state that effect resolution writes. */
  datatype EffectState = EffectState(players: map<PlayerId, Player>, reversusTotalActive: bool)

  /** True when the card, under its effective name, is a global Reversus
      Total: one not flagged as an individual lock. */
  predicate IsGlobalReversal(card: Card)
  {
    card.name == ReversusTotal && !card.isIndividualLock
  }

  /** The effects of a single target after a card acting as `name`: a score
      or movement card replaces that slot, a single-target reversal reverses
      the chosen category, anything else changes nothing. */
  function TargetEffects(e: Effects, name: Name, reverse: Option<Category>): (r: Effects)
    ensures IsScoreEffect(name) ==> r == e.(score := Some(name))
    ensures IsMovementEffect(name) ==> r == e.(movement := Some(name))
    ensures name == Reversus || name == ReversusTotal ==> r == ReverseCategory(e, reverse)
    ensures name.Num? ==> r == e
  {
    if IsScoreEffect(name) then e.(score := Some(name))
    else if IsMovementEffect(name) then e.(movement := Some(name))
    else if name == Reversus || name == ReversusTotal then ReverseCategory(e, reverse)
    else e
  }

  /** `applyEffect` as a function of the state it reads and writes. Only the
      effects of players and the Reversus Total flag can change. */
  function ApplyEffectSpec(s: EffectState, fieldEffects: seq<FieldEffect>, card: Card,
                           targetId: PlayerId, reverse: Option<Category>): (r: EffectState)
    ensures r.players.Keys == s.players.Keys
    ensures r.reversusTotalActive == (s.reversusTotalActive || (targetId in s.players && IsGlobalReversal(card)))
  {
    if targetId !in s.players || Immune(fieldEffects, targetId, card) then s
    else if IsGlobalReversal(card) then EffectState(GlobalReversed(s.players), true)
    else
      var t := s.players[targetId];
      s.(players := s.players[targetId :=
           t.(effects := TargetEffects(t.effects, EffectiveName(card, s.reversusTotalActive), reverse))])
  }

  /** The loop of global Reversus Total over every player of the game. */
  method ReverseAllPlayers(g: GameState)
    requires g.Valid()
    modifies g`players
    ensures g.Valid()
    ensures g.players == GlobalReversed(old(g.players))
  {
    var ids := g.playerIdsInGame;
    ghost var before := g.players;
    var i := 0;
    while i < |ids|
      invariant 0 <= i <= |ids|
      invariant g.players.Keys == before.Keys
      invariant forall k :: 0 <= k < i ==> g.players[ids[k]] == GlobalReverse(before[ids[k]])
      invariant forall k :: i <= k < |ids| ==> g.players[ids[k]] == before[ids[k]]
    {
      var id := ids[i];
      assert forall k :: 0 <= k < |ids| && k != i ==> ids[k] != id;
      g.players := g.players[id := GlobalReverse(g.players[id])];
      i := i + 1;
    }
    forall id | id in g.players
      ensures g.players[id] == GlobalReversed(before)[id]
    {
      var k :| 0 <= k < |ids| && ids[k] == id;
    }
  }

  /** `applyEffect(card, targetId, casterName, effectTypeToReverse)`. */
  method ApplyEffect(g: GameState, card: Card, targetId: PlayerId, reverse: Option<Category>)
    requires g.Valid()
    modifies g`players, g`reversusTotalActive
    ensures g.Valid()
    ensures EffectState(g.players, g.reversusTotalActive)
         == ApplyEffectSpec(EffectState(old(g.players), old(g.reversusTotalActive)),
                            g.activeFieldEffects, card, targetId, reverse)
  {
    if targetId !in g.players {
      return;
    }
    if Immune(g.activeFieldEffects, targetId, card) {
      return;
    }
    var effectName := EffectiveName(card, g.reversusTotalActive);
    var e := g.players[targetId].effects;
    ghost var s := EffectState(g.players, g.reversusTotalActive);
    // the global branch of the switch: Reversus Total (never renamed by the
    // substitution) on a card without the individual-lock flag
    if IsGlobalReversal(card) {
      g.reversusTotalActive := true;
      ReverseAllPlayers(g);
      GlobalReversal(s, g.activeFieldEffects, card, targetId, reverse);
      return;
    }
    // the rest of the switch; both reversal cases reverse the chosen category
    if IsScoreEffect(effectName) {
      SetEffects(g, targetId, e.(score := Some(effectName)));
    } else if IsMovementEffect(effectName) {
      SetEffects(g, targetId, e.(movement := Some(effectName)));
    } else if effectName == Reversus || effectName == ReversusTotal {
      SetEffects(g, targetId, ReverseCategory(e, reverse));
    }
  }

  /** Writes the effects of one player. */
  method SetEffects(g: GameState, id: PlayerId, e: Effects)
    requires g.Valid() && id in g.players
    modifies g`players
    ensures g.Valid()
    ensures g.players == old(g.players)[id := old(g.players)[id].(effects := e)]
  {
    g.players := g.players[id := g.players[id].(effects := e)];
  }

  // ----- properties of effect resolution -----

  /** An unknown target is a silent no-op. */
  lemma UnknownTargetNoOp(s: EffectState, fe: seq<FieldEffect>, card: Card, targetId: PlayerId,
                          reverse: Option<Category>)
    requires targetId !in s.players
    ensures ApplyEffectSpec(s, fe, card, targetId, reverse) == s
  {
  }

  /** 'Imunidade' on the target makes a card printed Menos or Desce change
      nothing, even when Reversus Total would have turned it into Mais or Sobe. */
  lemma ImmunityBlocksPrintedDebuff(s: EffectState, fe: FieldEffect, others: seq<FieldEffect>,
                                    card: Card, targetId: PlayerId, reverse: Option<Category>)
    requires fe.name == Imunidade && fe.appliesTo == targetId
    requires card.name == Menos || card.name == Desce
    ensures ApplyEffectSpec(s, [fe] + others, card, targetId, reverse) == s
  {
    assert fe in [fe] + others;
  }

  /** Under Reversus Total an invertible card lands on its target as its
      inverse, in the same category, and nothing else changes. */
  lemma SubstitutionUnderReversusTotal(s: EffectState, fe: seq<FieldEffect>, card: Card,
                                       targetId: PlayerId, reverse: Option<Category>)
    requires targetId in s.players && !Immune(fe, targetId, card)
    requires s.reversusTotalActive && Invertible(card.name)
    ensures var r := ApplyEffectSpec(s, fe, card, targetId, reverse);
      var t := s.players[targetId].effects;
      && r.reversusTotalActive
      && (IsScoreEffect(card.name) ==> r.players[targetId].effects == t.(score := Inverse(Some(card.name))))
      && (IsMovementEffect(card.name) ==> r.players[targetId].effects == t.(movement := Inverse(Some(card.name))))
      && (forall id :: id in s.players && id != targetId ==> r.players[id] == s.players[id])
  {
  }

  /** A single-target reversal (plain Reversus, or one flagged as an
      individual lock) changes only the chosen category of its target and
      leaves every other player and the Reversus Total flag alone. */
  lemma SingleReversalTouchesOneCategory(s: EffectState, fe: seq<FieldEffect>, card: Card,
                                         targetId: PlayerId, reverse: Option<Category>)
    requires targetId in s.players
    requires card.name == Reversus || (card.name == ReversusTotal && card.isIndividualLock)
    ensures var r := ApplyEffectSpec(s, fe, card, targetId, reverse);
      && r.reversusTotalActive == s.reversusTotalActive
      && r.players[targetId].effects == ReverseCategory(s.players[targetId].effects, reverse)
      && (forall id :: id in s.players && id != targetId ==> r.players[id] == s.players[id])
  {
  }

  /** Reversing the movement of a target under Pula cancels the Pula. */
  lemma ReversalCancelsPula(s: EffectState, fe: seq<FieldEffect>, card: Card, targetId: PlayerId)
    requires targetId in s.players && s.players[targetId].effects.movement == Some(Pula)
    requires card.name == Reversus
    ensures ApplyEffectSpec(s, fe, card, targetId, Some(MovementCat)).players[targetId].effects.movement == None
  {
  }

  /** A global Reversus Total on an existing target sets the flag and
      reverses every player at once, whatever the target. */
  lemma GlobalReversal(s: EffectState, fe: seq<FieldEffect>, card: Card, targetId: PlayerId,
                       reverse: Option<Category>)
    requires targetId in s.players
    requires card.name == ReversusTotal && !card.isIndividualLock
    ensures ApplyEffectSpec(s, fe, card, targetId, reverse) == EffectState(GlobalReversed(s.players), true)
  {
  }

  /** What the global reversal does to one player: the score is inverted only
      when the player holds an unlocked played score card, the movement only
      when it holds an unlocked played movement card, and a Pula is never
      changed; nothing but the effects changes. */
  lemma GlobalReverseOnePlayer(p: Player)
    ensures var q := GlobalReverse(p);
      && q == p.(effects := q.effects)
      && (q.effects.score != p.effects.score ==>
            && q.effects.score == Inverse(p.effects.score)
            && exists c :: c in p.playedEffect && IsScoreEffect(c.name) && !c.isLocked)
      && (p.effects.movement == Some(Pula) ==> q.effects.movement == Some(Pula))
      && (q.effects.movement != p.effects.movement ==>
            && q.effects.movement == Inverse(p.effects.movement)
            && exists c :: c in p.playedEffect && IsMovementEffect(c.name) && !c.isLocked)
  {
    var sc := FirstOfCategory(p.playedEffect, ScoreCat);
    var mc := FirstOfCategory(p.playedEffect, MovementCat);
    if GlobalReverse(p).effects.score != p.effects.score {
      assert sc.value in p.playedEffect;
    }
    if GlobalReverse(p).effects.movement != p.effects.movement {
      assert mc.value in p.playedEffect;
    }
  }

  /** Effect resolution changes the effects of players and nothing else
      about them. */
  lemma ApplyEffectOnlyEffects(s: EffectState, fe: seq<FieldEffect>, card: Card, targetId: PlayerId,
                               reverse: Option<Category>)
    ensures var r := ApplyEffectSpec(s, fe, card, targetId, reverse);
      forall id :: id in s.players ==> r.players[id] == s.players[id].(effects := r.players[id].effects)
  {
    if targetId in s.players && !Immune(fe, targetId, card) && IsGlobalReversal(card) {
      forall id | id in s.players
        ensures GlobalReversed(s.players)[id] == s.players[id].(effects := GlobalReversed(s.players)[id].effects)
      {
        GlobalReverseOnePlayer(s.players[id]);
      }
    }
  }
}
