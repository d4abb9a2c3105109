/** What the field effects of a round promise: a space goes off at most once,
    the Carta spaces hand back the card they take, the value deck is never
    touched, revealed hands and field-effect records only grow, and the black
    hole and the looping final battle keep their outcomes and bounds. */
module FieldFacts {
  import opened Types
  import opened Board
  import opened Play
  import opened Story
  import opened FieldEffects

  // ----- skipping and using up a space -----

  /** An eliminated player, one off the board, one on a white or already
      used space sets nothing off. */
  lemma NothingFires(f: Field, env: Env, k: nat, id: PlayerId)
    requires id in f.players && WellColored(f.paths) && Seated(env, f)
    requires !Fires(f.paths, f.players[id]) && !Dodges(f.paths, f.players[id])
    ensures Fire(f, env, k, id) == f
  {
  }

  /** Reversum on a red or blue space only uses it up. */
  lemma ReversumImmune(f: Field, env: Env, k: nat, id: PlayerId)
    requires id in f.players && WellColored(f.paths) && Seated(env, f)
    requires !f.players[id].isEliminated && f.players[id].pathId != -1 && Dodges(f.paths, f.players[id])
    ensures var p := f.players[id];
      var r := Fire(f, env, k, id);
      && r == f.(paths := r.paths)
      && SpaceAt(r.paths, p.pathId, p.position) == Some(SpaceAt(f.paths, p.pathId, p.position).value.(isUsed := true))
  {
  }

  /** Bleaching the yellow spaces keeps every space's place and use. */
  lemma WhitenKeepsUse(paths: seq<BoardPath>, pathId: int, position: int)
    ensures var s, t := SpaceAt(paths, pathId, position), SpaceAt(Whiten(paths), pathId, position);
      && (s.Some? <==> t.Some?)
      && (s.Some? ==> t.value.isUsed == s.value.isUsed)
  {
  }

  /** A player who sets a space off (or Reversum dodging it) leaves it used. */
  lemma FireUsesSpace(f: Field, env: Env, k: nat, id: PlayerId)
    requires id in f.players && WellColored(f.paths) && Seated(env, f)
    requires Fires(f.paths, f.players[id]) || Dodges(f.paths, f.players[id])
    requires !f.players[id].isEliminated && f.players[id].pathId != -1
    ensures var p := f.players[id];
      var spot := SpaceAt(Fire(f, env, k, id).paths, p.pathId, p.position);
      spot.Some? && spot.value.isUsed
  {
    var p := f.players[id];
    var spot := SpaceAt(f.paths, p.pathId, p.position);
    var sp := spot.value.(isUsed := true);
    var paths := SetSpace(f.paths, p.pathId, p.position, sp);
    if Fires(f.paths, p) && sp.color == Black && !p.isHuman && p.aiType == VersatrixAi {
      var white := SetSpace(paths, p.pathId, p.position, sp.(color := White));
      WhitenKeepsUse(white, p.pathId, p.position);
    }
  }

  /** Each space goes off once a round: whoever stands on a space that has
      just gone off, later in the same loop, sets nothing off. */
  lemma FiresOnce(f: Field, env: Env, k: nat, id: PlayerId, k': nat, other: PlayerId)
    requires id in f.players && WellColored(f.paths) && Seated(env, f)
    requires Fires(f.paths, f.players[id]) || Dodges(f.paths, f.players[id])
    requires !f.players[id].isEliminated && f.players[id].pathId != -1
    requires var r := Fire(f, env, k, id);
      other in r.players
      && r.players[other].pathId == f.players[id].pathId && r.players[other].position == f.players[id].position
    ensures var r := Fire(f, env, k, id);
      Fire(r, env, k', other) == r
  {
    FireUsesSpace(f, env, k, id);
  }

  // ----- Carta Menor and Carta Maior -----

  /** Removing an id from a hand of distinct ids keeps them distinct. */
  lemma {:induction false} WithoutKeepsUnique(hand: seq<Card>, id: nat)
    requires UniqueIds(hand)
    ensures UniqueIds(WithoutCard(hand, id))
  {
    if hand != [] {
      WithoutKeepsUnique(hand[1..], id);
      var rest := WithoutCard(hand[1..], id);
      if hand[0].id != id {
        var r := [hand[0]] + rest;
        forall i, j | 0 <= i < j < |r|
          ensures r[i].id != r[j].id
        {
          if i == 0 {
            assert r[j] in hand[1..];
          }
        }
      }
    }
  }

  /** Taking a card out of a hand of distinct ids and putting it back at
      the end keeps the same cards, with distinct ids. */
  lemma CycleCard(hand: seq<Card>, c: Card)
    requires UniqueIds(hand) && c in hand
    ensures var r := WithoutCard(hand, c.id) + [c];
      multiset(r) == multiset(hand) && UniqueIds(r)
  {
    var rest := WithoutCard(hand, c.id);
    WithoutOne(hand, c);
    WithoutKeepsUnique(hand, c.id);
    var r := rest + [c];
    assert multiset(r) == multiset(hand) - multiset{c} + multiset{c};
    forall i, j | 0 <= i < j < |r|
      ensures r[i].id != r[j].id
    {
      if j == |r| - 1 {
        assert r[i] in rest;
      }
    }
  }

  /** The card a Carta space takes from a hand of distinct ids comes straight
      back from the top of the deck: the hand keeps the same cards, still
      with distinct ids, and the deck is as it was. */
  lemma RedrawOneReturns(f: Field, member: PlayerId, lowest: bool)
    requires member in f.players ==> UniqueIds(f.players[member].hand)
    ensures var r := RedrawOne(f, member, lowest);
      && r.valueDeck == f.valueDeck
      && (forall id :: id in f.players && id != member ==> r.players[id] == f.players[id])
      && (member in f.players ==>
            && multiset(r.players[member].hand) == multiset(f.players[member].hand)
            && UniqueIds(r.players[member].hand)
            && r.players[member] == f.players[member].(hand := r.players[member].hand))
  {
    if member in f.players && |ValueCards(f.players[member].hand)| > 0 {
      var p := f.players[member];
      var c := if lowest then Lowest(ValueCards(p.hand)) else Highest(ValueCards(p.hand));
      var deck := f.valueDeck + [c];
      assert deck[..|deck| - 1] == f.valueDeck && deck[|deck| - 1] == c;
      CycleCard(p.hand, c);
    }
  }

  /** Every hand holds each card id at most once. */
  predicate HandsUnique(players: map<PlayerId, Player>)
  {
    forall id :: id in players ==> UniqueIds(players[id].hand)
  }

  /** Carta Menor and Carta Maior, as written, change no hand's cards (only
      their order) and leave the value deck as it was. */
  lemma {:induction false} RedrawReturns(f: Field, team: seq<PlayerId>, lowest: bool)
    requires HandsUnique(f.players)
    ensures var r := Redraw(f, team, lowest);
      && r.valueDeck == f.valueDeck && HandsUnique(r.players)
      && forall id :: id in f.players ==> multiset(r.players[id].hand) == multiset(f.players[id].hand)
    decreases |team|
  {
    if team != [] {
      var g := RedrawOne(f, team[0], lowest);
      RedrawOneReturns(f, team[0], lowest);
      RedrawReturns(g, team[1..], lowest);
    }
  }

  // ----- the value deck and what only grows -----

  /** The Carta spaces leave the value deck as it was, whatever the hands. */
  lemma {:induction false} RedrawKeepsDeck(f: Field, team: seq<PlayerId>, lowest: bool)
    ensures Redraw(f, team, lowest).valueDeck == f.valueDeck
    decreases |team|
  {
    if team != [] {
      var g := RedrawOne(f, team[0], lowest);
      if team[0] in f.players && |ValueCards(f.players[team[0]].hand)| > 0 {
        var p := f.players[team[0]];
        var c := if lowest then Lowest(ValueCards(p.hand)) else Highest(ValueCards(p.hand));
        assert (f.valueDeck + [c])[..|f.valueDeck|] == f.valueDeck;
      }
      RedrawKeepsDeck(g, team[1..], lowest);
    }
  }

  /** One step never touches the value deck, and what it records only grows:
      the revealed hands and the field-effect records gain entries at the
      end, Versatrix's power stays disabled once disabled, and Necroverso's
      hearts never rise. */
  predicate Grows(f: Field, r: Field)
  {
    && r.valueDeck == f.valueDeck
    && f.revealed <= r.revealed
    && f.fieldEffects <= r.fieldEffects
    && (f.powerDisabled ==> r.powerDisabled)
    && r.necroHearts <= f.necroHearts
  }

  lemma GrowsTransitive(a: Field, b: Field, c: Field)
    requires Grows(a, b) && Grows(b, c)
    ensures Grows(a, c)
  {
  }

  /** The tinted effects never touch the value deck and only append. */
  lemma TintedGrows(f: Field, env: Env, k: nat, id: PlayerId, positive: bool, name: FieldName)
    requires id in f.players
    ensures Grows(f, TintedHit(f, env, k, id, positive, name))
  {
    var team := TeamOf(env.mode, id);
    if name == CartaMenor || name == CartaMaior {
      RedrawKeepsDeck(f, team, name == CartaMenor);
    }
  }

  /** One seat of the loop. */
  lemma FireGrows(f: Field, env: Env, k: nat, id: PlayerId)
    requires id in f.players && WellColored(f.paths) && Seated(env, f)
    ensures Grows(f, Fire(f, env, k, id))
  {
    var p := f.players[id];
    var spot := SpaceAt(f.paths, p.pathId, p.position);
    if !p.isEliminated && p.pathId != -1 && Fires(f.paths, p) {
      var sp := spot.value.(isUsed := true);
      var f' := f.(paths := SetSpace(f.paths, p.pathId, p.position, sp), phase := FieldEffectPhase);
      var r := Fire(f, env, k, id);
      if sp.color == Yellow {
        assert r == YellowHit(f', env, id);
      } else if sp.color == Black {
        assert r == BlackHoleHit(f', id, p.pathId, p.position, sp);
      } else {
        assert r == TintedHit(f', env, k, id, sp.color == Blue, sp.effectName.value);
        TintedGrows(f', env, k, id, sp.color == Blue, sp.effectName.value);
      }
    }
  }

  /** The whole loop: the value deck comes out as it went in, and the
      revealed hands, field-effect records, disabled power and lost hearts
      only accumulate. */
  lemma {:induction false} FireAllGrows(f: Field, env: Env, ids: seq<PlayerId>, k: nat)
    requires WellColored(f.paths) && Seated(env, f) && forall id :: id in ids ==> id in f.players
    ensures Grows(f, FireAll(f, env, ids, k))
    decreases |ids|
  {
    if ids != [] && f.event.None? {
      var g := Fire(f, env, k, ids[0]);
      FireGrows(f, env, k, ids[0]);
      FireAllGrows(g, env, ids[1..], k + 1);
      GrowsTransitive(f, g, FireAll(g, env, ids[1..], k + 1));
    }
  }

  // ----- yellow spaces and black holes -----

  /** A looping move changes only positions, and whoever it moves lands on
      a space from 1 to 10. */
  predicate MovedOnBoard(before: map<PlayerId, Player>, after: map<PlayerId, Player>)
  {
    && after.Keys == before.Keys
    && forall id :: id in after ==>
         && after[id] == before[id].(position := after[id].position)
         && (after[id].position != before[id].position ==> 1 <= after[id].position <= 10)
  }

  lemma MovedOnBoardTransitive(a: map<PlayerId, Player>, b: map<PlayerId, Player>, c: map<PlayerId, Player>)
    requires MovedOnBoard(a, b) && MovedOnBoard(b, c)
    ensures MovedOnBoard(a, c)
  {
  }

  lemma LoopMoveOnBoard(players: map<PlayerId, Player>, who: Option<PlayerId>, move: int)
    ensures MovedOnBoard(players, LoopMove(players, who, move))
  {
  }

  lemma {:induction false} LoopAllOnBoard(players: map<PlayerId, Player>, xs: seq<PlayerId>, move: int)
    ensures MovedOnBoard(players, LoopAll(players, xs, move))
    decreases |xs|
  {
    if xs != [] {
      var m := LoopMove(players, Some(xs[0]), move);
      LoopMoveOnBoard(players, Some(xs[0]), move);
      LoopAllOnBoard(m, xs[1..], move);
      MovedOnBoardTransitive(players, m, LoopAll(m, xs[1..], move));
    }
  }

  /** The yellow space of the final battle moves players only, and each one
      moved stays on the looping board. */
  lemma SwirlOnBoard(players: map<PlayerId, Player>, ids: seq<PlayerId>)
    requires forall id :: id in ids ==> id in players
    ensures MovedOnBoard(players, Swirl(players, ids))
  {
    var human := if PLAYER1 in players then Some(PLAYER1) else None;
    var m := LoopMove(players, human, 1);
    var m' := LoopMove(m, Resolve.FindVersatrix(players, ids), 1);
    var necros := OfType(players, ids, NecroversoFinalAi);
    LoopMoveOnBoard(players, human, 1);
    LoopMoveOnBoard(m, Resolve.FindVersatrix(players, ids), 1);
    LoopAllOnBoard(m', necros, -1);
    MovedOnBoardTransitive(players, m, m');
    MovedOnBoardTransitive(players, m', LoopAll(m', necros, -1));
  }

  /** Outside the final battle, a yellow space moves only the player on it:
      the Versatrix one step forward, no further than the winning position,
      anyone else one step back, no further than the first space. */
  lemma YellowStep(f: Field, env: Env, id: PlayerId)
    requires id in f.players && Seated(env, f) && !f.powerDisabled && !env.finalBoss
    ensures var r, p := YellowHit(f, env, id), f.players[id];
      && r == f.(players := r.players)
      && r.players == f.players[id := p.(position := r.players[id].position)]
      && (p.aiType == VersatrixAi && p.position < WINNING_POSITION ==> r.players[id].position == p.position + 1)
      && (p.aiType != VersatrixAi && p.position > 1 ==> r.players[id].position == p.position - 1)
      && (p.aiType == VersatrixAi ==> r.players[id].position <= WINNING_POSITION || r.players[id].position == p.position)
      && (p.aiType != VersatrixAi ==> r.players[id].position >= 1 || r.players[id].position == p.position)
  {
  }

  /** The black hole's outcomes: the space turns white; the human loses the
      battle; the Versatrix is eliminated, her power is disabled and no
      yellow space is left; Necroverso loses a heart, and the battle is won
      exactly when that was the last. */
  lemma BlackHoleOutcomes(f: Field, id: PlayerId, pathId: int, position: int, sp: Space)
    requires id in f.players && WellColored(f.paths) && sp.effectName.None?
    ensures var r, p := BlackHoleHit(f, id, pathId, position, sp), f.players[id];
      && (SpaceAt(f.paths, pathId, position).Some? ==> SpaceAt(r.paths, pathId, position).value.color == White)
      && (p.isHuman ==> r.event == Some(StoryWinLoss(NecroversoFinalBattle, false, Some(BlackHole))) && r.players == f.players)
      && (!p.isHuman && p.aiType == VersatrixAi ==>
            && r.players == f.players[id := p.(isEliminated := true)] && r.powerDisabled
            && forall i, j :: 0 <= i < |r.paths| && 0 <= j < |r.paths[i].spaces| ==> r.paths[i].spaces[j].color != Yellow)
      && (!p.isHuman && p.aiType == NecroversoFinalAi ==>
            && r.necroHearts == f.necroHearts - 1
            && (f.necroHearts <= 1 ==> r.event == Some(StoryWinLoss(NecroversoFinalBattle, true, None)))
            && (f.necroHearts > 1 ==> r.event == f.event))
      && (!p.isHuman && p.aiType != NecroversoFinalAi ==> r.necroHearts == f.necroHearts && r.event == f.event)
  {
    var paths := SetSpace(f.paths, pathId, position, sp.(color := White));
    WhitenedBoard(paths);
    if SpaceAt(f.paths, pathId, position).Some? {
      var s := SpaceAt(paths, pathId, position).value;
      assert SpaceAt(Whiten(paths), pathId, position).value == Bleach(s);
    }
  }

  /** Total Revesus Nada! outside duo leaves the player nothing but the value
      cards, in order; nobody else's hand changes. */
  lemma NadaAlone(players: map<PlayerId, Player>, env: Env, k: nat, id: PlayerId)
    requires env.mode != Duo && id in players
    ensures var r := Nada(players, env, k, [id]);
      && (forall c :: c in r[id].hand <==> c in players[id].hand && c.ctype == ValueCard)
      && r == players[id := players[id].(hand := r[id].hand)]
  {
  }

  /** In duo the second member keeps at most one effect card. */
  lemma NadaDuo(players: map<PlayerId, Player>, env: Env, k: nat, team: seq<PlayerId>)
    requires env.mode == Duo && |team| == 2 && team[0] != team[1] && team[1] in players
    ensures var r := Nada(players, env, k, team);
      && |EffectCards(r[team[1]].hand)| <= 1
      && forall id :: id in players && id !in team ==> r[id] == players[id]
  {
  }
}
