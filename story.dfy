/** The story characters' abilities that act outside a card play: Necroverso's
    NECRO X, the dialogue lines an AI character speaks, and the value-card
    trade of the Troca field effects. */
module Story {
  import opened Types
  import opened State
  import opened Effects
  import opened Play

  // ----- NECRO X -----

  /** The NECRO X card the caster conjures; `id` stands for its fresh id. */
  function NecroXCard(casterId: PlayerId, id: nat): Card
  {
    Card(id, EffectCard, NecroX, 0, Some(casterId), false, false, None)
  }

  /** `findIndex` of the first score card (Mais, Menos, NECRO X, NECRO X
      Invertido) by printed name, or -1. */
  function ScoreCardIndex(cards: seq<Card>): (r: int)
    ensures -1 <= r < |cards|
    ensures r >= 0 ==> IsScoreEffect(cards[r].name) && forall j :: 0 <= j < r ==> !IsScoreEffect(cards[j].name)
    ensures r == -1 ==> forall j :: 0 <= j < |cards| ==> !IsScoreEffect(cards[j].name)
  {
    if cards == [] then -1
    else if IsScoreEffect(cards[0].name) then 0
    else
      var r := ScoreCardIndex(cards[1..]);
      if r == -1 then -1 else r + 1
  }

  /** At most one played card per score category, as card plays keep it. */
  predicate OneScoreCard(cards: seq<Card>)
  {
    forall i, j :: 0 <= i < |cards| && 0 <= j < |cards| && IsScoreEffect(cards[i].name) && IsScoreEffect(cards[j].name) ==> i == j
  }

  /** The played effects without their first score card (`splice`). */
  function Spliced(cards: seq<Card>): seq<Card>
  {
    var i := ScoreCardIndex(cards);
    if i >= 0 then cards[..i] + cards[i + 1..] else cards
  }

  /** The cards sent back to the effect deck: the first score card, if any. */
  function Displaced(cards: seq<Card>): seq<Card>
  {
    var i := ScoreCardIndex(cards);
    if i >= 0 then [cards[i]] else []
  }

  /** The caster's played effects and the effect deck after the conjuring. */
  datatype Conjured = Conjured(played: seq<Card>, effectDeck: seq<Card>)

  /** `triggerNecroX`'s card moves, as a value method: the splice of the old
      score card onto the deck and the push of the new card. Card plays keep
      at most one score card in play, and then NECRO X is the only one left. */
  method Conjure(played: seq<Card>, effectDeck: seq<Card>, card: Card) returns (r: Conjured)
    requires card.name == NecroX
    ensures r.played == Spliced(played) + [card] && r.effectDeck == effectDeck + Displaced(played)
  {
    var cards := played;
    var deck := effectDeck;
    var i := ScoreCardIndex(cards);
    if i > -1 {
      var oldCard := cards[i];
      cards := cards[..i] + cards[i + 1..];
      deck := deck + [oldCard];
    }
    r := Conjured(cards + [card], deck);
  }

  /** The splice loses no card: what stays in play and what goes back to the
      deck are together the cards played before. */
  lemma SpliceKeepsCards(played: seq<Card>)
    ensures multiset(Spliced(played)) + multiset(Displaced(played)) == multiset(played)
  {
    var i := ScoreCardIndex(played);
    if i >= 0 {
      assert played == played[..i] + [played[i]] + played[i + 1..];
    }
  }

  /** With at most one score card in play before, NECRO X is afterwards the
      caster's one and only score card. */
  lemma NecroXOnlyScoreCard(played: seq<Card>, card: Card)
    requires OneScoreCard(played) && card.name == NecroX
    ensures var after := Spliced(played) + [card];
      forall j :: 0 <= j < |after| ==> (IsScoreEffect(after[j].name) <==> j == |after| - 1)
  {
    var i := ScoreCardIndex(played);
    var after := Spliced(played) + [card];
    if i >= 0 {
      assert forall j :: 0 <= j < |after| - 1 ==> after[j] == (if j < i then played[j] else played[j + 1]);
    }
  }

  /** `triggerNecroX(caster)`: the ability is spent for the round, the
      caster's earlier score card goes back to the effect deck, NECRO X is
      played, and the card takes effect on the caster through `applyEffect`. */
  method TriggerNecroX(g: GameState, casterId: PlayerId, cardId: nat)
    requires g.Valid() && casterId in g.players
    modifies g`necroXUsedThisRound, g`players, g`effectDeck, g`reversusTotalActive
    ensures g.Valid() && g.necroXUsedThisRound
    ensures var before := old(g.players)[casterId];
      && g.effectDeck == old(g.effectDeck) + Displaced(before.playedEffect)
      && EffectState(g.players, g.reversusTotalActive)
         == ApplyEffectSpec(EffectState(old(g.players)[casterId := before.(playedEffect := Spliced(before.playedEffect) + [NecroXCard(casterId, cardId)])],
                                        old(g.reversusTotalActive)),
                            g.activeFieldEffects, NecroXCard(casterId, cardId), casterId, None)
  {
    g.necroXUsedThisRound := true;
    var card := NecroXCard(casterId, cardId);
    var before := g.players[casterId];
    var conjured := Conjure(before.playedEffect, g.effectDeck, card);
    g.effectDeck := conjured.effectDeck;
    g.players := g.players[casterId := before.(playedEffect := conjured.played)];
    ApplyEffect(g, card, casterId, None);
  }

  /** NECRO X acting on its caster sets the caster's score effect to NECRO X,
      or to NECRO X Invertido while Reversus Total is active, and changes
      nothing else: no Imunidade blocks it and it is not a reversal. */
  lemma NecroXOnCaster(s: EffectState, fe: seq<FieldEffect>, casterId: PlayerId, id: nat)
    requires casterId in s.players
    ensures var r := ApplyEffectSpec(s, fe, NecroXCard(casterId, id), casterId, None);
      var p := s.players[casterId];
      && r.reversusTotalActive == s.reversusTotalActive
      && r.players == s.players[casterId := p.(effects := p.effects.(score := Some(if s.reversusTotalActive then NecroXInvertido else NecroX)))]
  {
    var card := NecroXCard(casterId, id);
    assert !Immune(fe, casterId, card);
    assert EffectiveName(card, s.reversusTotalActive) == if s.reversusTotalActive then NecroXInvertido else NecroX;
  }

  // ----- dialogue -----

  /** The lines a character can say while winning and while losing. */
  datatype Dialogue = Dialogue(winning: seq<string>, losing: seq<string>)

  /** The lines not yet spoken, in order (`filter`). */
  function Unspoken(lines: seq<string>, spoken: set<string>): (r: seq<string>)
    ensures forall l :: l in r <==> l in lines && l !in spoken
  {
    if lines == [] then []
    else if lines[0] in spoken then Unspoken(lines[1..], spoken)
    else [lines[0]] + Unspoken(lines[1..], spoken)
  }

  /** The line `tryToSpeak` says, if any: none without dialogue, on a failed
      40% roll (`quiet`), for a neutral status, or once every line for the
      status has been spoken; otherwise an unspoken line (`pick` stands for
      the shuffle). */
  method ChooseLine(dialogue: Option<Dialogue>, status: Status, spoken: set<string>, quiet: bool, pick: nat)
    returns (line: Option<string>)
    ensures line.Some? ==> line.value !in spoken
    ensures line.Some? ==>
      dialogue.Some? && status != Neutral
      && line.value in (if status == Winning then dialogue.value.winning else dialogue.value.losing)
    ensures line.None? <==>
      dialogue.None? || quiet || status == Neutral
      || forall l :: l in (if status == Winning then dialogue.value.winning else dialogue.value.losing) ==> l in spoken
  {
    if dialogue.None? || quiet {
      return None;
    }
    if status != Winning && status != Losing {
      return None;
    }
    var lines := if status == Winning then dialogue.value.winning else dialogue.value.losing;
    var available := Unspoken(lines, spoken);
    if |available| > 0 {
      line := Some(available[pick % |available|]);
    } else {
      line := None;
    }
  }

  /** `tryToSpeak(aiPlayer)`: a spoken line joins the set of spoken lines,
      so it is never said again. */
  method TryToSpeak(g: GameState, dialogue: Option<Dialogue>, status: Status, quiet: bool, pick: nat)
    returns (line: Option<string>)
    modifies g`spokenLines
    ensures line.Some? ==> line.value !in old(g.spokenLines) && g.spokenLines == old(g.spokenLines) + {line.value}
    ensures line.None? ==> g.spokenLines == old(g.spokenLines)
    ensures line.None? <==>
      dialogue.None? || quiet || status == Neutral
      || forall l :: l in (if status == Winning then dialogue.value.winning else dialogue.value.losing) ==> l in old(g.spokenLines)
  {
    line := ChooseLine(dialogue, status, g.spokenLines, quiet, pick);
    if line.Some? {
      g.spokenLines := g.spokenLines + {line.value};
    }
  }

  // ----- hands -----

  /** No two cards of a hand share an id. */
  predicate UniqueIds(hand: seq<Card>)
  {
    forall i, j :: 0 <= i < j < |hand| ==> hand[i].id != hand[j].id
  }

  /** The value cards of a hand, in order. */
  function ValueCards(hand: seq<Card>): (r: seq<Card>)
    ensures forall c :: c in r <==> c in hand && c.ctype == ValueCard
    ensures |r| <= |hand|
  {
    if hand == [] then []
    else if hand[0].ctype == ValueCard then [hand[0]] + ValueCards(hand[1..])
    else ValueCards(hand[1..])
  }

  /** The effect cards of a hand, in order. */
  function EffectCards(hand: seq<Card>): (r: seq<Card>)
    ensures forall c :: c in r <==> c in hand && c.ctype == EffectCard
    ensures |r| <= |hand|
  {
    if hand == [] then []
    else if hand[0].ctype == EffectCard then [hand[0]] + EffectCards(hand[1..])
    else EffectCards(hand[1..])
  }

  /** The first card of lowest value: index 0 of a stable ascending sort. */
  function Lowest(cards: seq<Card>): (c: Card)
    requires |cards| > 0
    ensures c in cards && forall d :: d in cards ==> c.value <= d.value
  {
    if |cards| == 1 then cards[0]
    else
      var m := Lowest(cards[1..]);
      if cards[0].value <= m.value then cards[0] else m
  }

  /** The last card of highest value: the last index of a stable ascending sort. */
  function Highest(cards: seq<Card>): (c: Card)
    requires |cards| > 0
    ensures c in cards && forall d :: d in cards ==> d.value <= c.value
  {
    if |cards| == 1 then cards[0]
    else
      var m := Highest(cards[1..]);
      if m.value >= cards[0].value then m else cards[0]
  }

  /** Removing a card that is in a hand of unique ids takes out exactly that card. */
  lemma WithoutOne(hand: seq<Card>, c: Card)
    requires UniqueIds(hand) && c in hand
    ensures multiset(WithoutCard(hand, c.id)) == multiset(hand) - multiset{c}
    ensures |WithoutCard(hand, c.id)| == |hand| - 1
  {
    var k :| 0 <= k < |hand| && hand[k] == c;
    WithoutAt(hand, k);
    Splice(hand, k);
  }

  /** Leaving out the element at `k` takes exactly one copy of it out. */
  lemma Splice<T>(s: seq<T>, k: nat)
    requires k < |s|
    ensures multiset(s[..k] + s[k + 1..]) == multiset(s) - multiset{s[k]}
  {
    assert s == s[..k] + [s[k]] + s[k + 1..];
  }

  /** In a hand of unique ids, removing the id of the card at `k` leaves the
      cards before it and the cards after it. */
  lemma {:induction false} WithoutAt(hand: seq<Card>, k: nat)
    requires UniqueIds(hand) && k < |hand|
    ensures WithoutCard(hand, hand[k].id) == hand[..k] + hand[k + 1..]
  {
    var id, head, tail := hand[k].id, hand[0], hand[1..];
    if k == 0 {
      forall j | 0 <= j < |tail| ensures tail[j].id != id {
        assert tail[j] == hand[j + 1];
      }
      WithoutNone(tail, id);
    } else {
      assert tail[k - 1] == hand[k];
      assert UniqueIds(tail) by {
        forall i, j | 0 <= i < j < |tail| ensures tail[i].id != tail[j].id {
          assert tail[i] == hand[i + 1] && tail[j] == hand[j + 1];
        }
      }
      WithoutAt(tail, k - 1);
      assert head.id != id;
      assert WithoutCard(hand, id) == [head] + WithoutCard(tail, id);
      assert [head] + (tail[..k - 1] + tail[k..]) == hand[..k] + hand[k + 1..];
    }
  }

  /** Removing an id that no card of the hand carries changes nothing. */
  lemma {:induction false} WithoutNone(hand: seq<Card>, id: nat)
    requires forall k :: 0 <= k < |hand| ==> hand[k].id != id
    ensures WithoutCard(hand, id) == hand
  {
    if hand != [] {
      WithoutNone(hand[1..], id);
    }
  }

  // ----- trades -----

  datatype TradeKind = Justa | Injusta

  /** The card each side gives: a fair trade gives A's lowest for B's
      highest, an unfair one A's highest for B's lowest. */
  function Given(hand: seq<Card>, kind: TradeKind, first: bool): (c: Card)
    requires |ValueCards(hand)| > 0
    ensures c in hand && c.ctype == ValueCard
    ensures (kind == Justa) == first ==> forall d :: d in hand && d.ctype == ValueCard ==> c.value <= d.value
    ensures (kind == Justa) != first ==> forall d :: d in hand && d.ctype == ValueCard ==> d.value <= c.value
  {
    if (kind == Justa) == first then Lowest(ValueCards(hand)) else Highest(ValueCards(hand))
  }

  /** The card moves of a trade: `ca` leaves A's hand and `cb` leaves B's,
      then each is appended to the other hand (a player trading with itself
      ends with both removals and both appends on one hand). */
  function Exchange(players: map<PlayerId, Player>, a: PlayerId, b: PlayerId, ca: Card, cb: Card)
    : (r: map<PlayerId, Player>)
    requires a in players && b in players
    ensures r.Keys == players.Keys
  {
    var pa := players[a];
    var pb := players[b];
    if a == b then
      players[a := pa.(hand := WithoutCard(WithoutCard(pa.hand, ca.id), cb.id) + [cb, ca])]
    else
      var m: map<PlayerId, Player> := players[a := pa.(hand := WithoutCard(pa.hand, ca.id) + [cb])];
      m[b := pb.(hand := WithoutCard(pb.hand, cb.id) + [ca])]
  }

  /** `performTrade(a, b, type)`: with a value card on both sides, A gives
      its lowest (fair) or highest (unfair) value card and B its highest or
      lowest. Absent players or a side without value cards leave the
      players as they were. */
  function Trade(players: map<PlayerId, Player>, a: PlayerId, b: PlayerId, kind: TradeKind): (r: map<PlayerId, Player>)
    ensures r.Keys == players.Keys
  {
    if a !in players || b !in players then players
    else if |ValueCards(players[a].hand)| == 0 || |ValueCards(players[b].hand)| == 0 then players
    else Exchange(players, a, b, Given(players[a].hand, kind, true), Given(players[b].hand, kind, false))
  }

  /** A trade where either side lacks value cards changes nothing. */
  lemma NoValueCardsNoTrade(players: map<PlayerId, Player>, a: PlayerId, b: PlayerId, kind: TradeKind)
    requires a in players && b in players
    requires || (forall c :: c in players[a].hand ==> c.ctype != ValueCard)
             || (forall c :: c in players[b].hand ==> c.ctype != ValueCard)
    ensures Trade(players, a, b, kind) == players
  {
    if forall c :: c in players[a].hand ==> c.ctype != ValueCard {
      NoValueCards(players[a].hand);
    } else {
      NoValueCards(players[b].hand);
    }
  }

  /** A hand with no value card has an empty list of value cards. */
  lemma {:induction false} NoValueCards(hand: seq<Card>)
    requires forall c :: c in hand ==> c.ctype != ValueCard
    ensures |ValueCards(hand)| == 0
  {
    if hand != [] {
      assert hand[0] in hand;
      NoValueCards(hand[1..]);
    }
  }

  /** Moving two cards that are in the hands of two different players with
      unique card ids: each hand keeps its size, loses its own card and gains
      the other's, and nothing else about the players changes. */
  lemma ExchangeMoves(players: map<PlayerId, Player>, a: PlayerId, b: PlayerId, ca: Card, cb: Card)
    requires a in players && b in players && a != b
    requires UniqueIds(players[a].hand) && UniqueIds(players[b].hand)
    requires ca in players[a].hand && cb in players[b].hand
    ensures var r := Exchange(players, a, b, ca, cb);
      && multiset(r[a].hand) == multiset(players[a].hand) - multiset{ca} + multiset{cb}
      && multiset(r[b].hand) == multiset(players[b].hand) - multiset{cb} + multiset{ca}
      && |r[a].hand| == |players[a].hand| && |r[b].hand| == |players[b].hand|
      && r[a] == players[a].(hand := r[a].hand) && r[b] == players[b].(hand := r[b].hand)
      && forall id :: id in r && id != a && id != b ==> r[id] == players[id]
  {
    WithoutOne(players[a].hand, ca);
    WithoutOne(players[b].hand, cb);
  }

  /** Between two players with value cards and hands of unique ids, exactly
      one card moves each way: A gives its lowest (fair) or highest (unfair)
      value card, B its highest or lowest, and each hand keeps its size. */
  lemma TradeExchanges(players: map<PlayerId, Player>, a: PlayerId, b: PlayerId, kind: TradeKind)
    requires a in players && b in players && a != b
    requires UniqueIds(players[a].hand) && UniqueIds(players[b].hand)
    requires |ValueCards(players[a].hand)| > 0 && |ValueCards(players[b].hand)| > 0
    ensures var r := Trade(players, a, b, kind);
      var ca := Given(players[a].hand, kind, true);
      var cb := Given(players[b].hand, kind, false);
      && multiset(r[a].hand) == multiset(players[a].hand) - multiset{ca} + multiset{cb}
      && multiset(r[b].hand) == multiset(players[b].hand) - multiset{cb} + multiset{ca}
      && |r[a].hand| == |players[a].hand| && |r[b].hand| == |players[b].hand|
      && forall id :: id in r && id != a && id != b ==> r[id] == players[id]
  {
    ExchangeMoves(players, a, b, Given(players[a].hand, kind, true), Given(players[b].hand, kind, false));
  }
}
