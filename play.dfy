/** Card play (`playCard` in js/game.js): a value card goes to the caster's
    played pile and becomes the next resto; an effect card replaces a card of
    the same category on its target, unless that card is locked, and is then
    resolved on every final target. */
module Play {
  import opened Types
  import opened State
  import opened Effects

  /** What `getEffectCategory` returns: a category, 'total' for a global
      Reversus Total, or nothing. */
  datatype EffectCategory = Cat(c: Category) | Total

  /** `getEffectCategory(name, reverseType)`. The test for an individual lock
      reads the flag of the play in progress, whichever card is classified. */
  function CategoryOf(name: Name, reverseType: Option<Category>, individualLock: bool): (r: Option<EffectCategory>)
    ensures IsScoreEffect(name) ==> r == Some(Cat(ScoreCat))
    ensures IsMovementEffect(name) ==> r == Some(Cat(MovementCat))
    ensures r == Some(Total) <==> name == ReversusTotal && !individualLock
    ensures name == Reversus || (name == ReversusTotal && individualLock) ==>
              (r.Some? <==> reverseType.Some?) && (r.Some? ==> r.value == Cat(reverseType.value))
    ensures name.Num? ==> r == None
  {
    if IsScoreEffect(name) then Some(Cat(ScoreCat))
    else if IsMovementEffect(name) then Some(Cat(MovementCat))
    else if name == Reversus || (name == ReversusTotal && individualLock) then
      (if reverseType.Some? then Some(Cat(reverseType.value)) else None)
    else if name == ReversusTotal then Some(Total)
    else None
  }

  /** The category a card already on the board is classified under. */
  function CardCategory(c: Card, individualLock: bool): Option<EffectCategory>
  {
    CategoryOf(c.name, c.reversedEffectType, individualLock)
  }

  /** The first card of a category (`find`). */
  function FindCategory(cards: seq<Card>, cat: EffectCategory, individualLock: bool): (r: Option<Card>)
    ensures r.Some? ==> r.value in cards && CardCategory(r.value, individualLock) == Some(cat)
    ensures r.None? ==> forall c :: c in cards ==> CardCategory(c, individualLock) != Some(cat)
  {
    if cards == [] then None
    else if CardCategory(cards[0], individualLock) == Some(cat) then Some(cards[0])
    else FindCategory(cards[1..], cat, individualLock)
  }

  /** The cards not of a category, in order (`filter`). */
  function RemoveCategory(cards: seq<Card>, cat: EffectCategory, individualLock: bool): (r: seq<Card>)
    ensures forall c :: c in r <==> c in cards && CardCategory(c, individualLock) != Some(cat)
  {
    if cards == [] then []
    else if CardCategory(cards[0], individualLock) == Some(cat) then RemoveCategory(cards[1..], cat, individualLock)
    else [cards[0]] + RemoveCategory(cards[1..], cat, individualLock)
  }

  /** A hand without the card of a given id (`filter(c => c.id !== id)`). */
  function WithoutCard(hand: seq<Card>, id: nat): (r: seq<Card>)
    ensures forall c :: c in r <==> c in hand && c.id != id
    ensures |r| <= |hand|
  {
    if hand == [] then []
    else if hand[0].id == id then WithoutCard(hand[1..], id)
    else [hand[0]] + WithoutCard(hand[1..], id)
  }

  /** The targets an effect reaches: in the one-against-three king battle a
      non-Pula card aimed at a Necroverso by the human or by a Necroverso
      reaches all three Necroversos; otherwise only the chosen target. */
  function FinalTargets(battleType: BattleType, casterId: PlayerId, name: Name, targetId: PlayerId): (r: seq<PlayerId>)
    ensures targetId in r
    ensures r == [targetId] || r == NECRO_IDS
    ensures r == NECRO_IDS && r != [targetId] ==>
              battleType == King1v3 && name != Pula && targetId in NECRO_IDS
              && (casterId == PLAYER1 || casterId in NECRO_IDS)
  {
    if battleType == King1v3 && name != Pula
       && (casterId == PLAYER1 || casterId in NECRO_IDS) && targetId in NECRO_IDS
    then NECRO_IDS
    else [targetId]
  }

  /** `applyEffect` run on each final target in turn. */
  function ApplyAll(s: EffectState, fe: seq<FieldEffect>, card: Card, targets: seq<PlayerId>,
                    reverse: Option<Category>): (r: EffectState)
    decreases |targets|
  {
    if targets == [] then s
    else ApplyEffectSpec(ApplyAll(s, fe, card, targets[..|targets| - 1], reverse),
                         fe, card, targets[|targets| - 1], reverse)
  }

  /** The card as it lands on the board: it records its caster, a lock makes
      it locked, and a reversal records the category it reverses. */
  function Landed(card: Card, casterId: PlayerId, reverse: Option<Category>, individualLock: bool): Card
  {
    card.(casterId := Some(casterId),
          isLocked := card.isLocked || individualLock,
          reversedEffectType :=
            if card.name == Reversus || (card.name == ReversusTotal && individualLock) then reverse
            else card.reversedEffectType)
  }

  /** How a play ends. */
  datatype Branch =
    | ValuePlay        // a value card
    | NoEffectTarget   // an effect card with no target: only leaves the hand
    | MissingTarget    // the target is not a player of the game
    | LockedOut        // the target's card of that category is locked
    | EffectPlay       // an effect card placed and resolved

  function BranchOf(players: map<PlayerId, Player>, card: Card, effectTargetId: Option<PlayerId>,
                    reverse: Option<Category>, individualLock: bool): Branch
  {
    if card.ctype == ValueCard then ValuePlay
    else if effectTargetId.None? then NoEffectTarget
    else if effectTargetId.value !in players then MissingTarget
    else
      var cat := CategoryOf(card.name, reverse, individualLock);
      if cat.Some? && cat.value != Total then
        var existing := FindCategory(players[effectTargetId.value].playedEffect, cat.value, individualLock);
        if existing.Some? && existing.value.isLocked then LockedOut else EffectPlay
      else EffectPlay
  }

  /** The part of the game state a play writes besides the human selection. */
  datatype Table = Table(players: map<PlayerId, Player>, effectDeck: seq<Card>, reversusTotalActive: bool)

  /** The caster's hand without the played card. */
  function Unhanded(s: Table, casterId: PlayerId, card: Card): (r: Table)
    requires casterId in s.players
  {
    var caster := s.players[casterId];
    s.(players := s.players[casterId := caster.(hand := WithoutCard(caster.hand, card.id))])
  }

  /** A value play: the pile takes the card only while it holds fewer than
      two, and the card becomes the next resto. */
  function ValueSpec(s: Table, casterId: PlayerId, card: Card): (r: Table)
    requires casterId in s.players
  {
    var c := s.players[casterId];
    var pile := if |c.playedValue| < 2 then c.playedValue + [card] else c.playedValue;
    s.(players := s.players[casterId := c.(playedValue := pile, nextResto := Some(card),
                                           playedValueCardThisTurn := true)])
  }

  /** An effect play that is not locked out, before resolution: a card of
      the same category leaves the target for the effect deck and the landed
      card is appended to the target's played effects. */
  function Place(s: Table, casterId: PlayerId, card: Card, t: PlayerId, reverse: Option<Category>,
                 individualLock: bool): (r: Table)
    requires t in s.players
  {
    var target := s.players[t];
    var cat := CategoryOf(card.name, reverse, individualLock);
    var swapsOut := cat.Some? && cat.value != Total;
    var existing := if swapsOut then FindCategory(target.playedEffect, cat.value, individualLock) else None;
    var kept := if swapsOut then RemoveCategory(target.playedEffect, cat.value, individualLock)
                else target.playedEffect;
    var deck := if existing.Some? then s.effectDeck + [existing.value] else s.effectDeck;
    s.(players := s.players[t := target.(playedEffect := kept + [Landed(card, casterId, reverse, individualLock)])],
       effectDeck := deck)
  }

  /** An effect play that is not locked out: placed, then resolved on every
      final target. */
  function EffectSpec(s: Table, fe: seq<FieldEffect>, battleType: BattleType, casterId: PlayerId,
                      card: Card, t: PlayerId, reverse: Option<Category>, individualLock: bool): (r: Table)
    requires t in s.players
  {
    var placed := Place(s, casterId, card, t, reverse, individualLock);
    var es := ApplyAll(EffectState(placed.players, s.reversusTotalActive), fe,
                       Landed(card, casterId, reverse, individualLock),
                       FinalTargets(battleType, casterId, card.name, t), reverse);
    Table(es.players, placed.effectDeck, es.reversusTotalActive)
  }

  /** `playCard` as a function of the state it reads and writes. */
  function PlaySpec(s: Table, fe: seq<FieldEffect>, battleType: BattleType, casterId: PlayerId,
                    card: Card, effectTargetId: Option<PlayerId>, reverse: Option<Category>,
                    individualLock: bool): (r: Table)
    requires casterId in s.players
  {
    var s1 := Unhanded(s, casterId, card);
    match BranchOf(s.players, card, effectTargetId, reverse, individualLock)
    case ValuePlay => ValueSpec(s1, casterId, card)
    case EffectPlay => EffectSpec(s1, fe, battleType, casterId, card, effectTargetId.value, reverse, individualLock)
    case _ => s1
  }

  /** True when some board path is held by no player's path id: the condition
      under which the interface lets a human play Pula (js/ui-handlers.js:83). */
  predicate HasEmptyPath(paths: seq<BoardPath>, players: map<PlayerId, Player>)
  {
    exists p :: p in paths && forall id :: id in players ==> players[id].pathId != p.id as int
  }

  /** `playCard(caster, card, effectTargetId, effectTypeToReverse, options)`.
      A human play also clears the pending selection, except when the target
      is missing (no clearing) or locked (Pula target kept). */
  method PlayCard(g: GameState, casterId: PlayerId, card: Card, effectTargetId: Option<PlayerId>,
                  reverse: Option<Category>, individualLock: bool)
    requires g.Valid() && casterId in g.players
    requires g.players[casterId].isHuman && card.name == Pula ==> HasEmptyPath(g.boardPaths, g.players)
    modifies g`players, g`effectDeck, g`reversusTotalActive, g`playedAnyCardThisTurn
    modifies g`selectedCard, g`reversusTarget, g`pulaTarget, g`reversusTotalIndividualFlow
    ensures g.Valid()
    ensures g.playedAnyCardThisTurn
    ensures Table(g.players, g.effectDeck, g.reversusTotalActive)
         == PlaySpec(Table(old(g.players), old(g.effectDeck), old(g.reversusTotalActive)),
                     g.activeFieldEffects, g.storyBattleType, casterId, card, effectTargetId,
                     reverse, individualLock)
    ensures var b := BranchOf(old(g.players), card, effectTargetId, reverse, individualLock);
      var cleared := old(g.players[casterId].isHuman) && b != MissingTarget;
      && (cleared ==> g.selectedCard == None && g.reversusTarget == None && !g.reversusTotalIndividualFlow)
      && (!cleared ==> g.selectedCard == old(g.selectedCard) && g.reversusTarget == old(g.reversusTarget)
                       && g.reversusTotalIndividualFlow == old(g.reversusTotalIndividualFlow))
      && g.pulaTarget == (if cleared && b != LockedOut then None else old(g.pulaTarget))
  {
    var human := g.players[casterId].isHuman;
    var branch := PlayOnBoard(g, casterId, card, effectTargetId, reverse, individualLock);
    ClearSelection(g, human, branch);
  }

  /** The reset of a human's pending selection at the end of a play. */
  method ClearSelection(g: GameState, human: bool, branch: Branch)
    modifies g`selectedCard, g`reversusTarget, g`pulaTarget, g`reversusTotalIndividualFlow
    ensures var cleared := human && branch != MissingTarget;
      && (cleared ==> g.selectedCard == None && g.reversusTarget == None && !g.reversusTotalIndividualFlow)
      && (!cleared ==> g.selectedCard == old(g.selectedCard) && g.reversusTarget == old(g.reversusTarget)
                       && g.reversusTotalIndividualFlow == old(g.reversusTotalIndividualFlow))
      && g.pulaTarget == (if cleared && branch != LockedOut then None else old(g.pulaTarget))
  {
    if human && branch != MissingTarget {
      g.selectedCard := None;
      g.reversusTarget := None;
      g.reversusTotalIndividualFlow := false;
      if branch != LockedOut {
        g.pulaTarget := None;
      }
    }
  }

  /** The board part of `playCard`: everything but the human selection.
      Returns the way the play ended. */
  method PlayOnBoard(g: GameState, casterId: PlayerId, card: Card, effectTargetId: Option<PlayerId>,
                     reverse: Option<Category>, individualLock: bool) returns (branch: Branch)
    requires g.Valid() && casterId in g.players
    modifies g`players, g`effectDeck, g`reversusTotalActive, g`playedAnyCardThisTurn
    ensures g.Valid()
    ensures g.playedAnyCardThisTurn
    ensures branch == BranchOf(old(g.players), card, effectTargetId, reverse, individualLock)
    ensures Table(g.players, g.effectDeck, g.reversusTotalActive)
         == PlaySpec(Table(old(g.players), old(g.effectDeck), old(g.reversusTotalActive)),
                     g.activeFieldEffects, g.storyBattleType, casterId, card, effectTargetId,
                     reverse, individualLock)
  {
    branch := BranchOf(g.players, card, effectTargetId, reverse, individualLock);
    RemoveFromHand(g, casterId, card);
    g.playedAnyCardThisTurn := true;
    if branch == ValuePlay {
      PlayValue(g, casterId, card);
    } else if branch == EffectPlay {
      PlayEffect(g, casterId, card, effectTargetId.value, reverse, individualLock);
    }
  }

  /** `caster.hand = caster.hand.filter(c => c.id !== card.id)`. */
  method RemoveFromHand(g: GameState, casterId: PlayerId, card: Card)
    requires g.Valid() && casterId in g.players
    modifies g`players
    ensures g.Valid()
    ensures Table(g.players, g.effectDeck, g.reversusTotalActive)
         == Unhanded(Table(old(g.players), g.effectDeck, g.reversusTotalActive), casterId, card)
  {
    var caster := g.players[casterId];
    g.players := g.players[casterId := caster.(hand := WithoutCard(caster.hand, card.id))];
  }

  /** The value-card branch of `playCard`. */
  method PlayValue(g: GameState, casterId: PlayerId, card: Card)
    requires g.Valid() && casterId in g.players
    modifies g`players
    ensures g.Valid()
    ensures Table(g.players, g.effectDeck, g.reversusTotalActive)
         == ValueSpec(Table(old(g.players), g.effectDeck, g.reversusTotalActive), casterId, card)
  {
    var c := g.players[casterId];
    var pile := c.playedValue;
    if |pile| < 2 {
      pile := pile + [card];
    }
    g.players := g.players[casterId := c.(playedValue := pile, nextResto := Some(card),
                                          playedValueCardThisTurn := true)];
  }

  /** The effect-card branch of `playCard` when the target exists and its
      card of the same category, if any, is not locked. */
  method PlayEffect(g: GameState, casterId: PlayerId, card: Card, t: PlayerId,
                    reverse: Option<Category>, individualLock: bool)
    requires g.Valid() && t in g.players
    modifies g`players, g`effectDeck, g`reversusTotalActive
    ensures g.Valid()
    ensures Table(g.players, g.effectDeck, g.reversusTotalActive)
         == EffectSpec(Table(old(g.players), old(g.effectDeck), old(g.reversusTotalActive)),
                       g.activeFieldEffects, g.storyBattleType, casterId, card, t, reverse, individualLock)
  {
    PlaceCard(g, casterId, card, t, reverse, individualLock);
    ResolveOnTargets(g, Landed(card, casterId, reverse, individualLock),
                     FinalTargets(g.storyBattleType, casterId, card.name, t), reverse);
  }

  /** Moves a same-category card to the effect deck and appends the landed card. */
  method PlaceCard(g: GameState, casterId: PlayerId, card: Card, t: PlayerId,
                   reverse: Option<Category>, individualLock: bool)
    requires g.Valid() && t in g.players
    modifies g`players, g`effectDeck
    ensures g.Valid()
    ensures Table(g.players, g.effectDeck, g.reversusTotalActive)
         == Place(Table(old(g.players), old(g.effectDeck), g.reversusTotalActive), casterId, card, t,
                  reverse, individualLock)
  {
    var cat := CategoryOf(card.name, reverse, individualLock);
    var target := g.players[t];
    var kept := target.playedEffect;
    if cat.Some? && cat.value != Total {
      var existing := FindCategory(target.playedEffect, cat.value, individualLock);
      kept := RemoveCategory(target.playedEffect, cat.value, individualLock);
      if existing.Some? {
        g.effectDeck := g.effectDeck + [existing.value];
      }
    }
    g.players := g.players[t := target.(playedEffect := kept + [Landed(card, casterId, reverse, individualLock)])];
  }

  /** The `for (const targetId of finalTargetIds) applyEffect(...)` loop. */
  method ResolveOnTargets(g: GameState, card: Card, targets: seq<PlayerId>, reverse: Option<Category>)
    requires g.Valid()
    modifies g`players, g`reversusTotalActive
    ensures g.Valid()
    ensures EffectState(g.players, g.reversusTotalActive)
         == ApplyAll(EffectState(old(g.players), old(g.reversusTotalActive)), g.activeFieldEffects,
                     card, targets, reverse)
  {
    var i := 0;
    while i < |targets|
      invariant 0 <= i <= |targets|
      invariant g.Valid()
      invariant EffectState(g.players, g.reversusTotalActive)
             == ApplyAll(EffectState(old(g.players), old(g.reversusTotalActive)), g.activeFieldEffects,
                         card, targets[..i], reverse)
    {
      ApplyEffect(g, card, targets[i], reverse);
      assert targets[..i + 1][..i] == targets[..i];
      i := i + 1;
    }
    assert targets[..|targets|] == targets;
  }

  // ----- properties of card play -----

  /** Resolution on a list of targets keeps the player set. */
  lemma {:induction false} ApplyAllKeys(s: EffectState, fe: seq<FieldEffect>, card: Card,
                                        targets: seq<PlayerId>, reverse: Option<Category>)
    ensures ApplyAll(s, fe, card, targets, reverse).players.Keys == s.players.Keys
    decreases |targets|
  {
    if targets != [] {
      ApplyAllKeys(s, fe, card, targets[..|targets| - 1], reverse);
    }
  }

  /** Resolution on a list of targets only rewrites effects: hands, piles,
      positions and every other field of every player are kept. */
  lemma {:induction false} ApplyAllOnlyEffects(s: EffectState, fe: seq<FieldEffect>, card: Card,
                                               targets: seq<PlayerId>, reverse: Option<Category>)
    ensures var r := ApplyAll(s, fe, card, targets, reverse);
      forall id :: id in s.players ==> id in r.players && r.players[id] == s.players[id].(effects := r.players[id].effects)
    decreases |targets|
  {
    if targets != [] {
      var init := targets[..|targets| - 1];
      var mid := ApplyAll(s, fe, card, init, reverse);
      ApplyAllOnlyEffects(s, fe, card, init, reverse);
      ApplyEffectOnlyEffects(mid, fe, card, targets[|targets| - 1], reverse);
    }
  }

  /** Reversus Total ends up active exactly when it was active already or one
      of the targets present in the game received a global Reversus Total. */
  lemma {:induction false} ApplyAllTotalFlag(s: EffectState, fe: seq<FieldEffect>, card: Card,
                                             targets: seq<PlayerId>, reverse: Option<Category>)
    ensures ApplyAll(s, fe, card, targets, reverse).reversusTotalActive
        <==> s.reversusTotalActive || (IsGlobalReversal(card) && exists t :: t in targets && t in s.players)
    decreases |targets|
  {
    if targets != [] {
      var init := targets[..|targets| - 1];
      var last := targets[|targets| - 1];
      ApplyAllTotalFlag(s, fe, card, init, reverse);
      ApplyAllKeys(s, fe, card, init, reverse);
      assert forall t :: t in targets <==> t in init || t == last by {
        assert targets == init + [last];
      }
    }
  }

  /** A value play: the card leaves the caster's hand, joins the played pile
      only while it holds fewer than two cards (so the pile never grows past
      two), and becomes the next resto; nothing else on the table changes. */
  lemma ValuePlayResult(s: Table, fe: seq<FieldEffect>, bt: BattleType, casterId: PlayerId, card: Card,
                        effectTargetId: Option<PlayerId>, reverse: Option<Category>, lock: bool)
    requires casterId in s.players && card.ctype == ValueCard
    ensures var r := PlaySpec(s, fe, bt, casterId, card, effectTargetId, reverse, lock);
      var before := s.players[casterId];
      var after := r.players[casterId];
      && r.players.Keys == s.players.Keys
      && (forall c :: c in after.hand <==> c in before.hand && c.id != card.id)
      && after.playedValue == (if |before.playedValue| < 2 then before.playedValue + [card] else before.playedValue)
      && (|before.playedValue| <= 2 ==> |after.playedValue| <= 2)
      && after.nextResto == Some(card)
      && after.playedValueCardThisTurn
      && after.effects == before.effects && after.playedEffect == before.playedEffect
      && (forall id :: id in s.players && id != casterId ==> r.players[id] == s.players[id])
      && r.effectDeck == s.effectDeck && r.reversusTotalActive == s.reversusTotalActive
  {
  }

  /** A play rejected because the target's card of that category is locked
      still costs the caster the card, and changes nothing else: the target
      keeps its played effects and its effects, and the deck and the
      Reversus Total flag stay as they were. */
  lemma LockedOutOnlyLosesCard(s: Table, fe: seq<FieldEffect>, bt: BattleType, casterId: PlayerId, card: Card,
                               t: PlayerId, reverse: Option<Category>, lock: bool)
    requires casterId in s.players
    requires BranchOf(s.players, card, Some(t), reverse, lock) == LockedOut
    ensures var r := PlaySpec(s, fe, bt, casterId, card, Some(t), reverse, lock);
      && t in r.players
      && r.players[t].playedEffect == s.players[t].playedEffect
      && r.players[t].effects == s.players[t].effects
      && (forall c :: c in r.players[casterId].hand ==> c.id != card.id)
      && (forall id :: id in s.players && id != casterId ==> r.players[id] == s.players[id])
      && r.effectDeck == s.effectDeck && r.reversusTotalActive == s.reversusTotalActive
  {
  }

  /** A lock is only ever hit on an existing card of the new card's category. */
  lemma LockedOutMeansLockedCard(players: map<PlayerId, Player>, card: Card, t: PlayerId,
                                 reverse: Option<Category>, lock: bool)
    requires BranchOf(players, card, Some(t), reverse, lock) == LockedOut
    ensures t in players && card.ctype != ValueCard
    ensures var cat := CategoryOf(card.name, reverse, lock);
      && cat.Some? && cat.value != Total
      && exists c :: c in players[t].playedEffect && c.isLocked && CardCategory(c, lock) == cat
  {
    var cat := CategoryOf(card.name, reverse, lock);
    var existing := FindCategory(players[t].playedEffect, cat.value, lock);
    assert existing.value in players[t].playedEffect;
  }

  /** After an effect play that is not locked out, the target's played
      effects hold exactly one card of the new card's category: the card just
      played, as the last entry. The card it replaced, if any, is appended to
      the effect deck. */
  lemma EffectPlayOnePerCategory(s: Table, fe: seq<FieldEffect>, bt: BattleType, casterId: PlayerId, card: Card,
                                 t: PlayerId, reverse: Option<Category>, lock: bool)
    requires casterId in s.players
    requires BranchOf(s.players, card, Some(t), reverse, lock) == EffectPlay
    requires CategoryOf(card.name, reverse, lock).Some? && CategoryOf(card.name, reverse, lock).value != Total
    ensures t in PlaySpec(s, fe, bt, casterId, card, Some(t), reverse, lock).players
    ensures var r := PlaySpec(s, fe, bt, casterId, card, Some(t), reverse, lock);
      var cat := CategoryOf(card.name, reverse, lock);
      var landed := Landed(card, casterId, reverse, lock);
      var before := Unhanded(s, casterId, card).players[t].playedEffect;
      var played := r.players[t].playedEffect;
      && |played| > 0 && played[|played| - 1] == landed
      && CardCategory(landed, lock) == cat
      && (forall c :: c in played && CardCategory(c, lock) == cat ==> c == landed)
      && (forall c :: c in before && CardCategory(c, lock) != cat ==> c in played)
      && (FindCategory(before, cat.value, lock).Some? ==>
            r.effectDeck == s.effectDeck + [FindCategory(before, cat.value, lock).value])
      && (FindCategory(before, cat.value, lock).None? ==> r.effectDeck == s.effectDeck)
  {
    var s1 := Unhanded(s, casterId, card);
    var placed := Place(s1, casterId, card, t, reverse, lock);
    var landed := Landed(card, casterId, reverse, lock);
    var es0 := EffectState(placed.players, s.reversusTotalActive);
    var targets := FinalTargets(bt, casterId, card.name, t);
    ApplyAllOnlyEffects(es0, fe, landed, targets, reverse);
  }

  /** No play ever switches Reversus Total off. */
  lemma PlayKeepsTotalFlag(s: Table, fe: seq<FieldEffect>, bt: BattleType, casterId: PlayerId, card: Card,
                           effectTargetId: Option<PlayerId>, reverse: Option<Category>, lock: bool)
    requires casterId in s.players && s.reversusTotalActive
    ensures PlaySpec(s, fe, bt, casterId, card, effectTargetId, reverse, lock).reversusTotalActive
  {
    if BranchOf(s.players, card, effectTargetId, reverse, lock) == EffectPlay {
      var s1 := Unhanded(s, casterId, card);
      var t := effectTargetId.value;
      var placed := Place(s1, casterId, card, t, reverse, lock);
      ApplyAllTotalFlag(EffectState(placed.players, s1.reversusTotalActive), fe,
                        Landed(card, casterId, reverse, lock), FinalTargets(bt, casterId, card.name, t), reverse);
    }
  }

  /** The played card's own individual-lock flag is never set by a play, so a
      Reversus Total played as an individual lock on an existing target is
      resolved as the global one: the flag comes on for everybody. */
  lemma IndividualLockTotalActsGlobally(s: Table, fe: seq<FieldEffect>, bt: BattleType, casterId: PlayerId,
                                        card: Card, t: PlayerId, reverse: Option<Category>)
    requires casterId in s.players && t in s.players
    requires card.ctype == EffectCard && card.name == ReversusTotal && !card.isIndividualLock
    requires BranchOf(s.players, card, Some(t), reverse, true) == EffectPlay
    ensures PlaySpec(s, fe, bt, casterId, card, Some(t), reverse, true).reversusTotalActive
  {
    var s1 := Unhanded(s, casterId, card);
    var placed := Place(s1, casterId, card, t, reverse, true);
    var targets := FinalTargets(bt, casterId, card.name, t);
    ApplyAllTotalFlag(EffectState(placed.players, s1.reversusTotalActive), fe,
                      Landed(card, casterId, reverse, true), targets, reverse);
    assert t in targets;
  }
}
