/** `startNewRound()`: the turn count, the start-of-round collisions of the
    final battle, the per-round resets, the cards that go back to the decks,
    the reshuffle, the refill of every hand up to the caps, the mirrored hand
    of the Inversus, the field effects and the round snapshot. */
module Round {
  import opened Types
  import opened State
  import opened Board
  import opened Story
  import Utils
  import Resolve
  import Turn
  import FieldEffects
  import FieldFacts

  /** The two draw piles. */
  datatype Piles = Piles(value: seq<Card>, effect: seq<Card>)

  /** How the round starts: the first round of a game, the final battle,
      the Inversus mode. */
  datatype Rules = Rules(first: bool, finalBoss: bool, inversus: bool)

  // ----- the cards that go back -----

  /** The played effect cards a lock keeps on the table. */
  function Locked(cards: seq<Card>): (r: seq<Card>)
    ensures forall c :: c in r <==> c in cards && c.isLocked
  {
    if cards == [] then []
    else if cards[0].isLocked then [cards[0]] + Locked(cards[1..])
    else Locked(cards[1..])
  }

  /** The played effect cards that go back to the effect deck. */
  function Unlocked(cards: seq<Card>): (r: seq<Card>)
    ensures forall c :: c in r <==> c in cards && !c.isLocked
  {
    if cards == [] then []
    else if !cards[0].isLocked then [cards[0]] + Unlocked(cards[1..])
    else Unlocked(cards[1..])
  }

  /** The lock splits the played effect cards: every card is kept or returned. */
  lemma {:induction false} LockSplits(cards: seq<Card>)
    ensures multiset(Locked(cards)) + multiset(Unlocked(cards)) == multiset(cards)
  {
    if cards != [] {
      LockSplits(cards[1..]);
      assert cards == [cards[0]] + cards[1..];
    }
  }

  /** The resto the player holds this round, and the value deck after it is
      chosen: the pending `nextResto`; else, after the first round, in the
      final battle the top of the deck (the old resto stays if the deck is
      empty) and otherwise none. */
  function NextResto(p: Player, deck: seq<Card>, rules: Rules): (r: (Option<Card>, seq<Card>))
    ensures r.1 == deck || (|deck| > 0 && r.1 == deck[..|deck| - 1] && r.0 == Some(deck[|deck| - 1]))
  {
    if p.nextResto.Some? then (p.nextResto, deck)
    else if rules.first then (p.resto, deck)
    else if rules.finalBoss then (if |deck| > 0 then (Some(deck[|deck| - 1]), deck[..|deck| - 1]) else (p.resto, deck))
    else (None, deck)
  }

  /** The body of the first `forEach` for one player: the old resto (after
      the first round) goes back to the value deck, the new resto is chosen,
      the played value cards and the unlocked effect cards go back, and the
      round's effects, flags and Pula target are cleared; in the Inversus
      mode the pawn leaves its path. */
  function ReturnOne(p: Player, piles: Piles, rules: Rules): (r: (Player, Piles))
  {
    var back := if p.resto.Some? && !rules.first then piles.value + [p.resto.value] else piles.value;
    var chosen := NextResto(p, back, rules);
    var player := p.(resto := chosen.0, nextResto := None, playedValue := [], playedEffect := Locked(p.playedEffect),
                     effects := Effects(None, None), playedValueCardThisTurn := false, targetPathForPula := None,
                     pathId := if rules.inversus then -1 else p.pathId);
    (player, Piles(chosen.1 + p.playedValue, piles.effect + Unlocked(p.playedEffect)))
  }

  /** The `forEach` over the seats. */
  function ReturnAll(players: map<PlayerId, Player>, ids: seq<PlayerId>, piles: Piles, rules: Rules)
    : (r: (map<PlayerId, Player>, Piles))
    requires forall id :: id in ids ==> id in players
    ensures r.0.Keys == players.Keys
    decreases |ids|
  {
    if ids == [] then (players, piles)
    else
      var h := ReturnOne(players[ids[0]], piles, rules);
      ReturnAll(players[ids[0] := h.0], ids[1..], h.1, rules)
  }

  /** The loop itself. */
  method ReturnCards(players: map<PlayerId, Player>, ids: seq<PlayerId>, piles: Piles, rules: Rules)
    returns (ps: map<PlayerId, Player>, rest: Piles)
    requires forall id :: id in ids ==> id in players
    ensures (ps, rest) == ReturnAll(players, ids, piles, rules)
  {
    ps, rest := players, piles;
    var i := 0;
    while i < |ids|
      invariant i <= |ids| && ps.Keys == players.Keys
      invariant ReturnAll(ps, ids[i..], rest, rules) == ReturnAll(players, ids, piles, rules)
    {
      assert ids[i..] == [ids[i]] + ids[i + 1..];
      var h := ReturnOne(ps[ids[i]], rest, rules);
      ps, rest := ps[ids[i] := h.0], h.1;
      i := i + 1;
    }
  }

  // ----- refilling the hands -----

  /** `for (i < needed) if (deck.length > 0) hand.push(deck.pop())`. */
  function Refill(hand: seq<Card>, deck: seq<Card>, needed: int): (r: (seq<Card>, seq<Card>))
    decreases |deck|
  {
    if needed <= 0 || deck == [] then (hand, deck)
    else Refill(hand + [deck[|deck| - 1]], deck[..|deck| - 1], needed - 1)
  }

  /** How many cards a refill draws: as many as needed, while the deck lasts. */
  function Drawn(deck: seq<Card>, needed: int): nat
  {
    if needed <= 0 then 0 else if needed <= |deck| then needed else |deck|
  }

  /** The body of the second `forEach` for one player: an eliminated player
      draws nothing; the others draw value cards up to the value cap and then
      effect cards up to the effect cap, both counted on the hand as it was. */
  function DealOne(p: Player, piles: Piles): (r: (Player, Piles))
  {
    if p.isEliminated then (p, piles)
    else var f := Fill(p.hand, piles); (p.(hand := f.0), f.1)
  }

  /** The two refills of one hand. */
  function Fill(hand: seq<Card>, piles: Piles): (r: (seq<Card>, Piles))
  {
    var v := Refill(hand, piles.value, MAX_VALUE_CARDS_IN_HAND - |ValueCards(hand)|);
    var e := Refill(v.0, piles.effect, MAX_EFFECT_CARDS_IN_HAND - |EffectCards(hand)|);
    (e.0, Piles(v.1, e.1))
  }

  function DealAll(players: map<PlayerId, Player>, ids: seq<PlayerId>, piles: Piles): (r: (map<PlayerId, Player>, Piles))
    requires forall id :: id in ids ==> id in players
    ensures r.0.Keys == players.Keys
    decreases |ids|
  {
    if ids == [] then (players, piles)
    else
      var h := DealOne(players[ids[0]], piles);
      DealAll(players[ids[0] := h.0], ids[1..], h.1)
  }

  /** The inner `for` loop: pops up to `needed` cards onto the hand. */
  method Draw(hand: seq<Card>, deck: seq<Card>, needed: int) returns (h: seq<Card>, d: seq<Card>)
    ensures (h, d) == Refill(hand, deck, needed)
  {
    h, d := hand, deck;
    var i := 0;
    while i < needed
      invariant (needed <= 0 ==> i == 0) && (needed > 0 ==> i <= needed)
      invariant Refill(h, d, needed - i) == Refill(hand, deck, needed)
    {
      if |d| > 0 {
        h, d := h + [d[|d| - 1]], d[..|d| - 1];
      }
      i := i + 1;
    }
  }

  /** The second `forEach` over the seats. */
  method DealHands(players: map<PlayerId, Player>, ids: seq<PlayerId>, piles: Piles)
    returns (ps: map<PlayerId, Player>, rest: Piles)
    requires forall id :: id in ids ==> id in players
    ensures (ps, rest) == DealAll(players, ids, piles)
  {
    ps, rest := players, piles;
    var i := 0;
    while i < |ids|
      invariant i <= |ids| && ps.Keys == players.Keys
      invariant DealAll(ps, ids[i..], rest) == DealAll(players, ids, piles)
    {
      assert ids[i..] == [ids[i]] + ids[i + 1..];
      var p := ps[ids[i]];
      if !p.isEliminated {
        var hand, values := Draw(p.hand, rest.value, MAX_VALUE_CARDS_IN_HAND - |ValueCards(p.hand)|);
        var hand', effects := Draw(hand, rest.effect, MAX_EFFECT_CARDS_IN_HAND - |EffectCards(p.hand)|);
        assert (hand', Piles(values, effects)) == Fill(p.hand, rest);
        ps, rest := ps[ids[i] := p.(hand := hand')], Piles(values, effects);
      } else {
        assert ps[ids[i] := p] == ps;
      }
      i := i + 1;
    }
  }

  /** The Inversus copies the human's hand, card for card. */
  function Mirror(players: map<PlayerId, Player>, inversus: bool): (r: map<PlayerId, Player>)
    ensures r.Keys == players.Keys
  {
    if inversus && PLAYER1 in players && 2 in players
    then players[2 := players[2].(hand := players[PLAYER1].hand)]
    else players
  }

  // ----- what the round start promises -----

  /** A player after the reset: no played value card, only locked effect
      cards on the table, no effects, no pending resto, no value card played. */
  predicate Reset(p: Player)
  {
    && p.playedValue == [] && (forall c :: c in p.playedEffect ==> c.isLocked)
    && p.effects == Effects(None, None) && p.nextResto.None? && !p.playedValueCardThisTurn
  }

  /** The old resto when it goes back to the value deck. */
  function OldResto(p: Player, rules: Rules): seq<Card>
  {
    if p.resto.Some? && !rules.first then [p.resto.value] else []
  }

  /** One player's return: the locked effect cards stay and the unlocked ones
      join the effect deck, so no effect card is lost or made; unless the
      final battle draws a new resto, the value deck gains exactly the old
      resto and the played value cards. */
  lemma ReturnOneMoves(p: Player, piles: Piles, rules: Rules)
    ensures var r := ReturnOne(p, piles, rules);
      && Reset(r.0) && r.0.hand == p.hand
      && r.0.playedEffect == Locked(p.playedEffect)
      && multiset(r.1.effect) + multiset(r.0.playedEffect) == multiset(piles.effect) + multiset(p.playedEffect)
      && (p.nextResto.Some? || rules.first || !rules.finalBoss ==>
            multiset(r.1.value) == multiset(piles.value) + multiset(OldResto(p, rules)) + multiset(p.playedValue))
  {
    LockSplits(p.playedEffect);
  }

  /** Every seat is reset, and a seat not in the rotation is left alone. */
  lemma {:induction false} ReturnAllResets(players: map<PlayerId, Player>, ids: seq<PlayerId>, piles: Piles, rules: Rules)
    requires forall id :: id in ids ==> id in players
    ensures var r := ReturnAll(players, ids, piles, rules).0;
      forall id :: id in players ==>
        && (id in ids ==> Reset(r[id]) && r[id].hand == players[id].hand)
        && (id !in ids ==> r[id] == players[id])
    decreases |ids|
  {
    if ids != [] {
      var h := ReturnOne(players[ids[0]], piles, rules);
      ReturnOneMoves(players[ids[0]], piles, rules);
      ReturnAllResets(players[ids[0] := h.0], ids[1..], h.1, rules);
      var r := ReturnAll(players, ids, piles, rules).0;
      forall id | id in players && id == ids[0] && id !in ids[1..]
        ensures Reset(r[id]) && r[id].hand == players[id].hand
      {
      }
    }
  }

  /** The unlocked played effect cards of the listed seats, in seat order. */
  function UnlockedOf(players: map<PlayerId, Player>, ids: seq<PlayerId>): seq<Card>
    requires forall id :: id in ids ==> id in players
  {
    if ids == [] then [] else Unlocked(players[ids[0]].playedEffect) + UnlockedOf(players, ids[1..])
  }

  lemma {:induction false} UnlockedOfElsewhere(players: map<PlayerId, Player>, ids: seq<PlayerId>, id: PlayerId, p: Player)
    requires forall x :: x in ids ==> x in players
    requires id !in ids
    ensures UnlockedOf(players[id := p], ids) == UnlockedOf(players, ids)
  {
    if ids != [] {
      UnlockedOfElsewhere(players, ids[1..], id, p);
    }
  }

  lemma DistinctTail(ids: seq<PlayerId>)
    requires Distinct(ids) && |ids| > 0
    ensures Distinct(ids[1..]) && ids[0] !in ids[1..]
  {
    forall i, j | 0 <= i < j < |ids[1..]| ensures ids[1..][i] != ids[1..][j] {
      assert ids[1..][i] == ids[i + 1] && ids[1..][j] == ids[j + 1];
    }
    forall j | 0 <= j < |ids[1..]| ensures ids[1..][j] != ids[0] {
      assert ids[1..][j] == ids[j + 1];
    }
  }

  /** With each seat once in the rotation, the effect deck gains exactly the
      unlocked played effect cards, seat after seat. */
  lemma {:induction false} ReturnAllEffects(players: map<PlayerId, Player>, ids: seq<PlayerId>, piles: Piles, rules: Rules)
    requires Distinct(ids) && forall id :: id in ids ==> id in players
    ensures ReturnAll(players, ids, piles, rules).1.effect == piles.effect + UnlockedOf(players, ids)
    decreases |ids|
  {
    if ids != [] {
      var id, tail := ids[0], ids[1..];
      var p := players[id];
      var h := ReturnOne(p, piles, rules);
      var seated := players[id := h.0];
      DistinctTail(ids);
      ReturnAllEffects(seated, tail, h.1, rules);
      UnlockedOfElsewhere(players, tail, id, h.0);
      var rest := UnlockedOf(players, tail);
      calc {
        ReturnAll(players, ids, piles, rules).1.effect;
        ReturnAll(seated, tail, h.1, rules).1.effect;
        h.1.effect + rest;
        (piles.effect + Unlocked(p.playedEffect)) + rest;
        piles.effect + (Unlocked(p.playedEffect) + rest);
      }
    }
  }

  /** A refill takes as many cards as needed while the deck lasts, from the
      top of the deck, onto the end of the hand; no card is lost or made. */
  lemma {:induction false} RefillTakes(hand: seq<Card>, deck: seq<Card>, needed: int)
    ensures var r, n := Refill(hand, deck, needed), Drawn(deck, needed);
      && |r.0| == |hand| + n && r.0[..|hand|] == hand
      && r.1 == deck[..|deck| - n]
    decreases |deck|
  {
    if needed > 0 && deck != [] {
      var top, below := deck[|deck| - 1], deck[..|deck| - 1];
      RefillTakes(hand + [top], below, needed - 1);
      assert deck == below + [top];
      assert below[..|below| - Drawn(below, needed - 1)] == deck[..|deck| - Drawn(deck, needed)];
      assert (hand + [top])[..|hand|] == hand;
      var r := Refill(hand, deck, needed);
      assert r.0[..|hand|] == (r.0[..|hand| + 1])[..|hand|];
    }
  }

  /** A refill moves cards from the deck to the hand: no card is lost or made. */
  lemma {:induction false} RefillKeeps(hand: seq<Card>, deck: seq<Card>, needed: int)
    ensures var r := Refill(hand, deck, needed);
      multiset(r.0) + multiset(r.1) == multiset(hand) + multiset(deck)
    decreases |deck|
  {
    if needed > 0 && deck != [] {
      var top, below := deck[|deck| - 1], deck[..|deck| - 1];
      RefillKeeps(hand + [top], below, needed - 1);
      assert deck == below + [top];
    }
  }

  /** How many cards of one kind a hand holds. */
  function Count(hand: seq<Card>, t: CardType): nat
  {
    if hand == [] then 0 else (if hand[0].ctype == t then 1 else 0) + Count(hand[1..], t)
  }

  /** The value and effect cards of a hand are counted by `Count`. */
  lemma {:induction false} CountKinds(hand: seq<Card>)
    ensures |ValueCards(hand)| == Count(hand, ValueCard)
    ensures |EffectCards(hand)| == Count(hand, EffectCard)
  {
    if hand != [] {
      CountKinds(hand[1..]);
    }
  }

  lemma {:induction false} CountAppend(hand: seq<Card>, c: Card, t: CardType)
    ensures Count(hand + [c], t) == Count(hand, t) + (if c.ctype == t then 1 else 0)
  {
    if hand != [] {
      assert (hand + [c])[1..] == hand[1..] + [c];
      CountAppend(hand[1..], c, t);
    }
  }

  /** From a deck of kind `t`, a refill adds the drawn number of cards of
      that kind and none of any other. */
  lemma {:induction false} RefillCount(hand: seq<Card>, deck: seq<Card>, needed: int, t: CardType, k: CardType)
    requires forall c :: c in deck ==> c.ctype == t
    ensures Count(Refill(hand, deck, needed).0, k) == Count(hand, k) + (if k == t then Drawn(deck, needed) else 0)
    decreases |deck|
  {
    if needed > 0 && deck != [] {
      var top := deck[|deck| - 1];
      assert top in deck;
      CountAppend(hand, top, k);
      RefillCount(hand + [top], deck[..|deck| - 1], needed - 1, t, k);
    }
  }

  /** Decks of the right kinds: value cards in the value deck, effect cards
      in the effect deck. */
  predicate Sorted(piles: Piles)
  {
    && (forall c :: c in piles.value ==> c.ctype == ValueCard)
    && (forall c :: c in piles.effect ==> c.ctype == EffectCard)
  }

  /** A hand refills up to three value cards and two effect cards while
      the decks last. */
  lemma FillCounts(hand: seq<Card>, piles: Piles)
    requires Sorted(piles)
    ensures var r := Fill(hand, piles).0;
      && Count(r, ValueCard) == Count(hand, ValueCard) + Drawn(piles.value, MAX_VALUE_CARDS_IN_HAND - |ValueCards(hand)|)
      && Count(r, EffectCard) == Count(hand, EffectCard) + Drawn(piles.effect, MAX_EFFECT_CARDS_IN_HAND - |EffectCards(hand)|)
  {
    var nv := MAX_VALUE_CARDS_IN_HAND - |ValueCards(hand)|;
    var ne := MAX_EFFECT_CARDS_IN_HAND - |EffectCards(hand)|;
    var v := Refill(hand, piles.value, nv).0;
    var e := Refill(v, piles.effect, ne).0;
    assert Fill(hand, piles).0 == e;
    RefillCount(hand, piles.value, nv, ValueCard, ValueCard);
    RefillCount(hand, piles.value, nv, ValueCard, EffectCard);
    RefillCount(v, piles.effect, ne, EffectCard, ValueCard);
    RefillCount(v, piles.effect, ne, EffectCard, EffectCard);
  }

  /** A hand's refill moves cards from the decks to the hand: no card is
      lost or made. */
  lemma FillKeepsCards(hand: seq<Card>, piles: Piles)
    ensures var r := Fill(hand, piles);
      multiset(r.0) + multiset(r.1.value) + multiset(r.1.effect)
      == multiset(hand) + multiset(piles.value) + multiset(piles.effect)
  {
    var nv := MAX_VALUE_CARDS_IN_HAND - |ValueCards(hand)|;
    var ne := MAX_EFFECT_CARDS_IN_HAND - |EffectCards(hand)|;
    var v := Refill(hand, piles.value, nv);
    var e := Refill(v.0, piles.effect, ne);
    assert Fill(hand, piles) == (e.0, Piles(v.1, e.1));
    RefillKeeps(hand, piles.value, nv);
    RefillKeeps(v.0, piles.effect, ne);
    assert multiset(v.0) + multiset(v.1) == multiset(hand) + multiset(piles.value);
    assert multiset(e.0) + multiset(e.1) == multiset(v.0) + multiset(piles.effect);
    calc {
      multiset(e.0) + multiset(v.1) + multiset(e.1);
      multiset(v.0) + multiset(piles.effect) + multiset(v.1);
      multiset(hand) + multiset(piles.value) + multiset(piles.effect);
    }
  }

  /** A player in play is dealt its refill and nothing else changes; an
      eliminated player is dealt nothing. */
  lemma DealOneFills(p: Player, piles: Piles)
    ensures var r := DealOne(p, piles);
      && (p.isEliminated ==> r == (p, piles))
      && (!p.isEliminated ==> r == (p.(hand := Fill(p.hand, piles).0), Fill(p.hand, piles).1))
  {
  }

  /** The Inversus's copy repeats every card of the human's hand, ids and
      all: after it, the same card id is held twice whenever the human holds
      a card. */
  lemma MirrorRepeatsIds(players: map<PlayerId, Player>)
    requires PLAYER1 in players && 2 in players && |players[PLAYER1].hand| > 0
    ensures var r := Mirror(players, true);
      r[2].hand == r[PLAYER1].hand && r[2].hand[0].id == r[PLAYER1].hand[0].id
  {
  }

  // ----- the round start on the game state -----

  /** What the field effects start from: the cards went back, both decks
      were shuffled, the hands were refilled and the Inversus copied the
      human's hand. */
  function Start(players: map<PlayerId, Player>, ids: seq<PlayerId>, piles: Piles, rules: Rules,
                 shuffleValue: nat -> nat, shuffleEffect: nat -> nat): (r: (map<PlayerId, Player>, Piles))
    requires forall id :: id in ids ==> id in players
    ensures r.0.Keys == players.Keys
  {
    var ret := ReturnAll(players, ids, piles, rules);
    var shuffled := Piles(Utils.FisherYates(ret.1.value, |ret.1.value| - 1, shuffleValue),
                          Utils.FisherYates(ret.1.effect, |ret.1.effect| - 1, shuffleEffect));
    var dealt := DealAll(ret.0, ids, shuffled);
    (Mirror(dealt.0, rules.inversus), dealt.1)
  }

  /** The two `forEach` loops, the shuffles and the mirrored hand. */
  method Restock(g: GameState, rules: Rules, shuffleValue: nat -> nat, shuffleEffect: nat -> nat)
    requires g.Valid()
    modifies g`players, g`valueDeck, g`effectDeck
    ensures g.Valid()
    ensures (g.players, Piles(g.valueDeck, g.effectDeck))
            == Start(old(g.players), g.playerIdsInGame, Piles(old(g.valueDeck), old(g.effectDeck)), rules, shuffleValue, shuffleEffect)
  {
    var ids := g.playerIdsInGame;
    var players, piles := ReturnCards(g.players, ids, Piles(g.valueDeck, g.effectDeck), rules);
    var values := Utils.ShuffleSeq(piles.value, shuffleValue);
    var effects := Utils.ShuffleSeq(piles.effect, shuffleEffect);
    players, piles := DealHands(players, ids, Piles(values, effects));
    players := Mirror(players, rules.inversus);
    g.players, g.valueDeck, g.effectDeck := players, piles.value, piles.effect;
  }

  /** The per-round flags are cleared. */
  method ClearRound(g: GameState)
    modifies g`reversusTotalActive, g`activeFieldEffects, g`revealedHands, g`consecutivePasses,
             g`player1CardsObscured, g`reversumAbilityUsedThisRound, g`necroXUsedThisRound
    ensures !g.reversusTotalActive && g.activeFieldEffects == [] && g.revealedHands == [] && g.consecutivePasses == 0
    ensures !g.player1CardsObscured && !g.reversumAbilityUsedThisRound && !g.necroXUsedThisRound
  {
    g.reversusTotalActive, g.activeFieldEffects, g.revealedHands, g.consecutivePasses := false, [], [], 0;
    g.player1CardsObscured, g.reversumAbilityUsedThisRound, g.necroXUsedThisRound := false, false, false;
  }

  /** Play begins and the round snapshot is taken. */
  method Begin(g: GameState)
    modifies g`gamePhase, g`playedAnyCardThisTurn, g`roundStartStateSnapshot
    ensures g.gamePhase == Playing && !g.playedAnyCardThisTurn && g.roundStartStateSnapshot == Some(g.Copy())
    ensures old(Cleared(g)) ==> Underway(g)
  {
    g.gamePhase, g.playedAnyCardThisTurn := Playing, false;
    g.roundStartStateSnapshot := Some(g.Copy());
  }

  /** The start-of-round collisions, which only the final battle checks and
      only after its first round. */
  function Gathered(players: map<PlayerId, Player>, disabled: bool, paths: seq<BoardPath>, ids: seq<PlayerId>, rules: Rules)
    : (w: Turn.Watch)
    requires forall id :: id in ids ==> id in players
    ensures w.players.Keys == players.Keys
    ensures WellColored(paths) ==> WellColored(w.paths)
  {
    if rules.finalBoss && !rules.first then
      var w0 := Turn.Watch(players, disabled, paths, false);
      if WellColored(paths) then
        CollisionsKeepColors(w0, Resolve.FindVersatrix(players, ids), Turn.Necros(players, ids));
        Turn.Collisions(w0, Resolve.FindVersatrix(players, ids), Turn.Necros(players, ids))
      else Turn.Collisions(w0, Resolve.FindVersatrix(players, ids), Turn.Necros(players, ids))
    else Turn.Watch(players, disabled, paths, false)
  }

  /** A collision never breaks the colour rule of the board. */
  lemma {:induction false} CollisionsKeepColors(w: Turn.Watch, v: Option<PlayerId>, necros: seq<PlayerId>)
    requires WellColored(w.paths) && forall n :: n in necros ==> n in w.players
    ensures WellColored(Turn.Collisions(w, v, necros).paths)
    decreases |necros|
  {
    if necros != [] && !w.lost {
      WhitenedBoard(w.paths);
      CollisionsKeepColors(Turn.Collide(w, v, necros[0]), v, necros[1..]);
    }
  }

  /** A round under way: play has begun with the round flags cleared and
      the snapshot taken of the state as it now is. */
  ghost predicate Underway(g: GameState)
    reads g
  {
    && g.gamePhase == Playing && !g.playedAnyCardThisTurn && Cleared(g)
    && g.roundStartStateSnapshot == Some(g.Copy())
  }

  /** The round flags are cleared. */
  ghost predicate Cleared(g: GameState)
    reads g
  {
    !g.reversusTotalActive && g.consecutivePasses == 0 && !g.reversumAbilityUsedThisRound && !g.necroXUsedThisRound
  }

  /** What the field effects leave: the fields they write and Contravox's
      two fields. */
  datatype Opened = Opened(field: FieldEffects.Field, obscured: bool, uses: int)

  /** `triggerFieldEffects()` as values, from the fields `f` and Contravox's
      two fields: Contravox's ability, then every seat in turn order until a
      story event, which is `field.event`. */
  function Fired(f: FieldEffects.Field, env: FieldEffects.Env, obscured: bool, uses: int): (o: Opened)
    requires WellColored(f.paths) && FieldEffects.Seated(env, f)
  {
    var now := FieldEffects.Obscures(f.players, env.ids, uses);
    Opened(FieldEffects.FireAll(f, env, env.ids, 0), obscured || now, uses - if now then 1 else 0)
  }

  /** Firing the field effects keeps the seats and the value deck, only adds
      revealed hands and field-effect records, never re-enables Versatrix's
      power nor restores a heart, and spends a Contravox use exactly when it
      obscures the human's cards. */
  lemma FiredGrows(f: FieldEffects.Field, env: FieldEffects.Env, obscured: bool, uses: int)
    requires WellColored(f.paths) && FieldEffects.Seated(env, f)
    ensures var o := Fired(f, env, obscured, uses);
      && o.field.players.Keys == f.players.Keys && WellColored(o.field.paths)
      && o.field.valueDeck == f.valueDeck && f.fieldEffects <= o.field.fieldEffects && f.revealed <= o.field.revealed
      && (f.powerDisabled ==> o.field.powerDisabled) && o.field.necroHearts <= f.necroHearts
      && (obscured ==> o.obscured) && uses - 1 <= o.uses <= uses
      && (o.uses < uses <==> FieldEffects.Obscures(f.players, env.ids, uses)) && (o.uses < uses ==> o.obscured)
  {
    FieldFacts.FireAllGrows(f, env, env.ids, 0);
  }

  /** The round proper as values, once any collision has been survived: the
      seats and decks the deal leaves (`Start`), then the field effects fired
      from no field-effect records, no revealed hands and the human's cards
      in view. The effect deck is the one the deal leaves. */
  function Opening(players: map<PlayerId, Player>, ids: seq<PlayerId>, piles: Piles, paths: seq<BoardPath>,
                   disabled: bool, hearts: int, phase: Phase, uses: int, mode: Mode, rules: Rules,
                   shuffleValue: nat -> nat, shuffleEffect: nat -> nat,
                   rand: (nat, nat) -> nat, declines: nat -> bool): (o: Opened)
    requires forall id :: id in ids ==> id in players
    requires WellColored(paths)
  {
    var s := Start(players, ids, piles, rules, shuffleValue, shuffleEffect);
    Fired(FieldEffects.Field(s.0, paths, s.1.value, [], [], disabled, hearts, phase, None),
          FieldEffects.Env(ids, mode, rules.finalBoss, rand, declines), false, uses)
  }

  /** The round start keeps the seats, leaves the value deck the deal left,
      keeps a disabled power disabled and never restores a heart. */
  lemma OpeningDeals(players: map<PlayerId, Player>, ids: seq<PlayerId>, piles: Piles, paths: seq<BoardPath>,
                     disabled: bool, hearts: int, phase: Phase, uses: int, mode: Mode, rules: Rules,
                     shuffleValue: nat -> nat, shuffleEffect: nat -> nat,
                     rand: (nat, nat) -> nat, declines: nat -> bool)
    requires forall id :: id in ids ==> id in players
    requires WellColored(paths)
    ensures var o := Opening(players, ids, piles, paths, disabled, hearts, phase, uses, mode, rules,
                             shuffleValue, shuffleEffect, rand, declines);
      && o.field.players.Keys == players.Keys
      && o.field.valueDeck == Start(players, ids, piles, rules, shuffleValue, shuffleEffect).1.value
      && (disabled ==> o.field.powerDisabled) && o.field.necroHearts <= hearts
      && uses - 1 <= o.uses <= uses && (o.uses < uses <==> o.obscured)
  {
    var s := Start(players, ids, piles, rules, shuffleValue, shuffleEffect);
    FiredGrows(FieldEffects.Field(s.0, paths, s.1.value, [], [], disabled, hearts, phase, None),
               FieldEffects.Env(ids, mode, rules.finalBoss, rand, declines), false, uses);
  }

  /** The game state shows what the field effects left, with play begun. */
  ghost predicate Shows(g: GameState, o: Opened)
    reads g
  {
    && FieldEffects.FieldOf(g) == o.field.(event := None, phase := Playing)
    && g.player1CardsObscured == o.obscured && g.contravoxAbilityUses == o.uses
  }

  /** The round under way after `startNewRound`: the effect deck is
      `effect`, the game state shows what the field effects left, the event
      is theirs and `humanTurn` says whether the human moves first. */
  ghost predicate Began(g: GameState, effect: seq<Card>, o: Opened, outcome: RoundStart)
    reads g
  {
    && outcome.Begun? && g.effectDeck == effect && Shows(g, o) && outcome.event == o.field.event && Underway(g)
    && outcome.humanTurn == (g.currentPlayer in g.players && g.players[g.currentPlayer].isHuman)
  }

  /** How `startNewRound` ends: at once (the game is over, or a collision
      lost the final battle), or with the round under way, the story event
      of the field effects if any, and whether the human moves first. */
  datatype RoundStart = Halted | Begun(event: Option<StoryEvent>, humanTurn: bool)

  /** The fields of the game state the round start reads. */
  datatype Table = Table(players: map<PlayerId, Player>, ids: seq<PlayerId>, piles: Piles, paths: seq<BoardPath>,
                         disabled: bool, hearts: int, phase: Phase, uses: int, mode: Mode)

  ghost function TableOf(g: GameState): Table
    reads g
  {
    Table(g.players, g.playerIdsInGame, Piles(g.valueDeck, g.effectDeck), g.boardPaths, g.versatrixPowerDisabled,
          g.necroversoHearts, g.gamePhase, g.contravoxAbilityUses, g.gameMode)
  }

  /** The round proper, once any collision has been survived: the flags are
      cleared, the cards go back, the decks are shuffled, the hands are
      refilled, the field effects fire, play begins and the snapshot is
      taken. The field effects never touch the decks, so the decks are those
      the refill left. */
  method OpenRound(g: GameState, rules: Rules, shuffleValue: nat -> nat, shuffleEffect: nat -> nat,
                   rand: (nat, nat) -> nat, declines: nat -> bool, ghost s: (map<PlayerId, Player>, Piles),
                   ghost f: FieldEffects.Field, ghost env: FieldEffects.Env, ghost uses: int, ghost o: Opened)
    returns (event: Option<StoryEvent>)
    requires g.Valid() && WellColored(g.boardPaths) && rules.finalBoss == g.isFinalBoss
    requires s == Start(g.players, g.playerIdsInGame, Piles(g.valueDeck, g.effectDeck), rules, shuffleValue, shuffleEffect)
    requires f == FieldEffects.Field(s.0, g.boardPaths, s.1.value, [], [], g.versatrixPowerDisabled,
                                     g.necroversoHearts, g.gamePhase, None)
    requires env == FieldEffects.Env(g.playerIdsInGame, g.gameMode, rules.finalBoss, rand, declines)
    requires uses == g.contravoxAbilityUses && o == Fired(f, env, false, uses)
    modifies g`players, g`valueDeck, g`effectDeck, g`boardPaths, g`activeFieldEffects, g`revealedHands,
             g`versatrixPowerDisabled, g`necroversoHearts, g`gamePhase, g`player1CardsObscured,
             g`contravoxAbilityUses, g`reversusTotalActive, g`consecutivePasses,
             g`reversumAbilityUsedThisRound, g`necroXUsedThisRound, g`playedAnyCardThisTurn,
             g`roundStartStateSnapshot
    ensures g.Valid() && WellColored(g.boardPaths)
    ensures g.effectDeck == s.1.effect
    ensures Shows(g, o) && event == o.field.event
    ensures Underway(g)
  {
    Prepare(g, rules, shuffleValue, shuffleEffect, s, f);
    event := Launch(g, rand, declines, f, env, false, uses, o);
  }

  /** The flags are cleared and the cards dealt. */
  method Prepare(g: GameState, rules: Rules, shuffleValue: nat -> nat, shuffleEffect: nat -> nat,
                 ghost s: (map<PlayerId, Player>, Piles), ghost f: FieldEffects.Field)
    requires g.Valid() && WellColored(g.boardPaths)
    requires s == Start(g.players, g.playerIdsInGame, Piles(g.valueDeck, g.effectDeck), rules, shuffleValue, shuffleEffect)
    requires f == FieldEffects.Field(s.0, g.boardPaths, s.1.value, [], [], g.versatrixPowerDisabled,
                                     g.necroversoHearts, g.gamePhase, None)
    modifies g`players, g`valueDeck, g`effectDeck, g`activeFieldEffects, g`revealedHands,
             g`player1CardsObscured, g`reversusTotalActive, g`consecutivePasses,
             g`reversumAbilityUsedThisRound, g`necroXUsedThisRound
    ensures g.Valid() && WellColored(g.boardPaths)
    ensures (g.players, Piles(g.valueDeck, g.effectDeck)) == s && FieldEffects.FieldOf(g) == f
    ensures Cleared(g)
    ensures g.activeFieldEffects == [] && g.revealedHands == [] && !g.player1CardsObscured
  {
    ClearRound(g);
    Restock(g, rules, shuffleValue, shuffleEffect);
  }

  /** The field effects fire and play begins; the decks and the round flags
      stay as they were dealt. */
  method Launch(g: GameState, rand: (nat, nat) -> nat, declines: nat -> bool, ghost f: FieldEffects.Field,
                ghost env: FieldEffects.Env, ghost obscured: bool, ghost uses: int, ghost o: Opened)
    returns (event: Option<StoryEvent>)
    requires g.Valid() && WellColored(g.boardPaths) && FieldEffects.FieldOf(g) == f
    requires env == FieldEffects.Env(g.playerIdsInGame, g.gameMode, g.isFinalBoss, rand, declines)
    requires g.player1CardsObscured == obscured && g.contravoxAbilityUses == uses && o == Fired(f, env, obscured, uses)
    modifies g`players, g`boardPaths, g`valueDeck, g`activeFieldEffects, g`revealedHands,
             g`versatrixPowerDisabled, g`necroversoHearts, g`gamePhase,
             g`player1CardsObscured, g`contravoxAbilityUses, g`playedAnyCardThisTurn,
             g`roundStartStateSnapshot
    ensures g.Valid() && WellColored(g.boardPaths)
    ensures Shows(g, o) && event == o.field.event
    ensures g.effectDeck == old(g.effectDeck) && (old(Cleared(g)) ==> Underway(g))
  {
    event := FireField(g, rand, declines, f, env, obscured, uses, o);
    Begin(g);
  }

  /** The field effects, seen from the round start: what
      `triggerFieldEffects` leaves, play not yet begun. */
  method FireField(g: GameState, rand: (nat, nat) -> nat, declines: nat -> bool, ghost f: FieldEffects.Field,
                   ghost env: FieldEffects.Env, ghost obscured: bool, ghost uses: int, ghost o: Opened)
    returns (event: Option<StoryEvent>)
    requires g.Valid() && WellColored(g.boardPaths) && FieldEffects.FieldOf(g) == f
    requires env == FieldEffects.Env(g.playerIdsInGame, g.gameMode, g.isFinalBoss, rand, declines)
    requires g.player1CardsObscured == obscured && g.contravoxAbilityUses == uses && o == Fired(f, env, obscured, uses)
    modifies g`players, g`boardPaths, g`valueDeck, g`activeFieldEffects, g`revealedHands,
             g`versatrixPowerDisabled, g`necroversoHearts, g`gamePhase,
             g`player1CardsObscured, g`contravoxAbilityUses
    ensures g.Valid() && WellColored(g.boardPaths)
    ensures FieldEffects.FieldOf(g) == o.field.(event := None) && event == o.field.event
    ensures g.player1CardsObscured == o.obscured && g.contravoxAbilityUses == o.uses
    ensures g.effectDeck == old(g.effectDeck) && (old(Cleared(g)) ==> Cleared(g))
  {
    event := FieldEffects.TriggerFieldEffects(g, rand, declines);
  }

  /** `startNewRound(isFirstRound)` up to its continuation (the human's turn
      indicator or the AI's turn). Nothing happens once the game is over.
      Otherwise the turn count goes up after the first round, and in the
      final battle the collisions come next; a loss ends the start there. */
  method StartNewRound(g: GameState, first: bool, shuffleValue: nat -> nat, shuffleEffect: nat -> nat,
                       rand: (nat, nat) -> nat, declines: nat -> bool) returns (outcome: RoundStart)
    requires g.Valid() && WellColored(g.boardPaths)
    modifies g`turn, g`players, g`valueDeck, g`effectDeck, g`boardPaths, g`activeFieldEffects, g`revealedHands,
             g`versatrixPowerDisabled, g`necroversoHearts, g`gamePhase, g`player1CardsObscured,
             g`contravoxAbilityUses, g`reversusTotalActive, g`consecutivePasses,
             g`reversumAbilityUsedThisRound, g`necroXUsedThisRound, g`playedAnyCardThisTurn,
             g`roundStartStateSnapshot
    ensures g.Valid() && WellColored(g.boardPaths)
    ensures old(g.gamePhase) == GameOverPhase ==> outcome == Halted && unchanged(g)
    ensures old(g.gamePhase) != GameOverPhase ==>
      var rules := Rules(first, old(g.isFinalBoss), old(g.isInversusMode));
      var w := Gathered(old(g.players), old(g.versatrixPowerDisabled), old(g.boardPaths), old(g.playerIdsInGame), rules);
      && g.turn == old(g.turn) + (if first then 0 else 1)
      && (outcome.Halted? <==> w.lost)
      && (outcome.Begun? ==>
            Began(g, Start(w.players, old(g.playerIdsInGame), Piles(old(g.valueDeck), old(g.effectDeck)),
                           rules, shuffleValue, shuffleEffect).1.effect,
                  Opening(w.players, old(g.playerIdsInGame), Piles(old(g.valueDeck), old(g.effectDeck)), w.paths,
                          w.disabled, old(g.necroversoHearts), old(g.gamePhase), old(g.contravoxAbilityUses),
                          old(g.gameMode), rules, shuffleValue, shuffleEffect, rand, declines),
                  outcome))
    ensures old(g.gamePhase) != GameOverPhase && outcome.Halted? ==>
      var w := Gathered(old(g.players), old(g.versatrixPowerDisabled), old(g.boardPaths), old(g.playerIdsInGame),
                        Rules(first, old(g.isFinalBoss), old(g.isInversusMode)));
      && g.players == w.players && g.boardPaths == w.paths && g.versatrixPowerDisabled == w.disabled
      && unchanged(g`valueDeck, g`effectDeck, g`activeFieldEffects, g`revealedHands, g`necroversoHearts, g`gamePhase,
                   g`player1CardsObscured, g`contravoxAbilityUses, g`reversusTotalActive, g`consecutivePasses,
                   g`reversumAbilityUsedThisRound, g`necroXUsedThisRound, g`playedAnyCardThisTurn,
                   g`roundStartStateSnapshot)
  {
    if g.gamePhase == GameOverPhase {
      return Halted;
    }
    var rules := Rules(first, g.isFinalBoss, g.isInversusMode);
    var lost := Gather(g, rules);
    if lost {
      return Halted;
    }
    ghost var w := Gathered(old(g.players), old(g.versatrixPowerDisabled), old(g.boardPaths), old(g.playerIdsInGame), rules);
    outcome := Open(g, rules, shuffleValue, shuffleEffect, rand, declines,
                    Table(w.players, old(g.playerIdsInGame), Piles(old(g.valueDeck), old(g.effectDeck)), w.paths, w.disabled,
                          old(g.necroversoHearts), old(g.gamePhase), old(g.contravoxAbilityUses), old(g.gameMode)));
  }

  /** The round proper with the outcome of `startNewRound`, from the state
      `t` the collisions left. */
  method Open(g: GameState, rules: Rules, shuffleValue: nat -> nat, shuffleEffect: nat -> nat,
              rand: (nat, nat) -> nat, declines: nat -> bool, ghost t: Table) returns (outcome: RoundStart)
    requires g.Valid() && WellColored(g.boardPaths) && rules.finalBoss == g.isFinalBoss && TableOf(g) == t
    modifies g`players, g`valueDeck, g`effectDeck, g`boardPaths, g`activeFieldEffects, g`revealedHands,
             g`versatrixPowerDisabled, g`necroversoHearts, g`gamePhase, g`player1CardsObscured,
             g`contravoxAbilityUses, g`reversusTotalActive, g`consecutivePasses,
             g`reversumAbilityUsedThisRound, g`necroXUsedThisRound, g`playedAnyCardThisTurn,
             g`roundStartStateSnapshot
    ensures g.Valid() && WellColored(g.boardPaths)
    ensures Began(g, Start(t.players, t.ids, t.piles, rules, shuffleValue, shuffleEffect).1.effect,
                  Opening(t.players, t.ids, t.piles, t.paths, t.disabled, t.hearts, t.phase, t.uses, t.mode,
                          rules, shuffleValue, shuffleEffect, rand, declines),
                  outcome)
  {
    ghost var s := Start(t.players, t.ids, t.piles, rules, shuffleValue, shuffleEffect);
    ghost var f := FieldEffects.Field(s.0, t.paths, s.1.value, [], [], t.disabled, t.hearts, t.phase, None);
    ghost var env := FieldEffects.Env(t.ids, t.mode, rules.finalBoss, rand, declines);
    ghost var o := Opening(t.players, t.ids, t.piles, t.paths, t.disabled, t.hearts, t.phase, t.uses, t.mode,
                           rules, shuffleValue, shuffleEffect, rand, declines);
    var event := OpenRound(g, rules, shuffleValue, shuffleEffect, rand, declines, s, f, env, t.uses, o);
    outcome := Begun(event, g.currentPlayer in g.players && g.players[g.currentPlayer].isHuman);
    Announced(g, s.1.effect, o, outcome);
  }

  /** The round's state and the outcome together make a begun round. */
  lemma Announced(g: GameState, effect: seq<Card>, o: Opened, outcome: RoundStart)
    requires g.effectDeck == effect && Shows(g, o) && Underway(g)
    requires outcome == Begun(o.field.event, g.currentPlayer in g.players && g.players[g.currentPlayer].isHuman)
    ensures Began(g, effect, o, outcome)
  {
  }

  /** The turn count and, in the final battle after its first round, the
      start-of-round collisions. */
  method Gather(g: GameState, rules: Rules) returns (lost: bool)
    requires g.Valid() && WellColored(g.boardPaths)
    requires rules.finalBoss == g.isFinalBoss
    modifies g`turn, g`players, g`versatrixPowerDisabled, g`boardPaths
    ensures g.Valid() && WellColored(g.boardPaths)
    ensures g.turn == old(g.turn) + (if rules.first then 0 else 1)
    ensures var w := Gathered(old(g.players), old(g.versatrixPowerDisabled), old(g.boardPaths), g.playerIdsInGame, rules);
      lost == w.lost && g.players == w.players && g.boardPaths == w.paths && g.versatrixPowerDisabled == w.disabled
  {
    if !rules.first {
      g.turn := g.turn + 1;
    }
    lost := false;
    if rules.finalBoss && !rules.first {
      var ids := g.playerIdsInGame;
      CollisionsKeepColors(Turn.Watch(g.players, g.versatrixPowerDisabled, g.boardPaths, false),
                           Resolve.FindVersatrix(g.players, ids), Turn.Necros(g.players, ids));
      lost := Turn.CheckStartOfRoundCollisions(g);
    }
  }
}
