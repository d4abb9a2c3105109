/** What round resolution promises: the tally per mode, the movement of each
    pawn, the heart loss of Inversus mode and the path jumps, stated about the
    specification functions that `Resolve.ResolveRound` is proved against. */
module ResolveFacts {
  import opened Types
  import opened Scoring
  import opened Resolve

  // ----- counting -----

  /** Repeated addition is multiplication. */
  lemma {:induction false} TimesIsProduct(n: nat, x: int)
    ensures Times(n, x) == n * x
  {
    if n > 0 {
      TimesIsProduct(n - 1, x);
    }
  }

  /** Occurrences in a concatenation add up. */
  lemma {:induction false} CountAppend(a: seq<PlayerId>, b: seq<PlayerId>, x: PlayerId)
    ensures Count(a + b, x) == Count(a, x) + Count(b, x)
    decreases |b|
  {
    if b != [] {
      assert (a + b)[..|a + b| - 1] == a + b[..|b| - 1];
      CountAppend(a, b[..|b| - 1], x);
    } else {
      assert a + b == a;
    }
  }

  /** In a list without repeats an id occurs once or not at all. */
  lemma {:induction false} CountDistinct(xs: seq<PlayerId>, x: PlayerId)
    requires Distinct(xs)
    ensures Count(xs, x) == if x in xs then 1 else 0
    decreases |xs|
  {
    if xs != [] {
      var init := xs[..|xs| - 1];
      assert xs == init + [xs[|xs| - 1]];
      CountDistinct(init, x);
    }
  }

  /** Each of the three Necroverso seats is listed once. */
  lemma NecroOnce(id: PlayerId)
    requires id in NECRO_IDS
    ensures Count(NECRO_IDS, id) == 1
  {
    assert Distinct(NECRO_IDS);
    CountDistinct(NECRO_IDS, id);
  }

  /** Keeping the ids not in a list keeps the list free of repeats. */
  lemma {:induction false} WithoutDistinct(xs: seq<PlayerId>, drop: seq<PlayerId>)
    requires Distinct(xs)
    ensures Distinct(Without(xs, drop))
    decreases |xs|
  {
    if xs != [] {
      WithoutDistinct(xs[1..], drop);
    }
  }

  /** Dropping nothing keeps the whole list. */
  lemma {:induction false} WithoutNothing(xs: seq<PlayerId>)
    ensures Without(xs, []) == xs
    decreases |xs|
  {
    if xs != [] {
      WithoutNothing(xs[1..]);
    }
  }

  // ----- the movements map -----

  /** Each occurrence of an id in the loop adds its delta once. */
  lemma {:induction false} AddEachAt(m: map<PlayerId, int>, xs: seq<PlayerId>, delta: PlayerId -> int, id: PlayerId)
    requires id in m
    ensures AddEach(m, xs, delta)[id] == m[id] + Times(Count(xs, id), delta(id))
    decreases |xs|
  {
    if xs != [] {
      AddEachAt(m, xs[..|xs| - 1], delta, id);
    }
  }

  /** Before the Campo Versátil swap, a player's movement is one win bonus per
      winner entry, one losing shift per loser entry, and its card movement. */
  lemma RoundMovesAt(players: map<PlayerId, Player>, ids: seq<PlayerId>, winners: seq<PlayerId>,
                     losers: seq<PlayerId>, fe: seq<FieldEffect>, id: PlayerId)
    requires Distinct(ids)
    requires id in ids && id in players
    ensures RoundMoves(players, ids, winners, losers, fe)[id]
      == Count(winners, id) * WinBonus(players[id], id, fe) + Count(losers, id) * LoserShift(id, fe)
         + CardShift(players[id], id, fe)
  {
    var m0 := ZeroMoves(ids);
    var m1 := AddEach(m0, winners, WinDelta(players, fe));
    var m2 := AddEach(m1, losers, LoseDelta(fe));
    AddEachAt(m0, winners, WinDelta(players, fe), id);
    AddEachAt(m1, losers, LoseDelta(fe), id);
    AddEachAt(m2, ids, CardDelta(players, fe), id);
    CountDistinct(ids, id);
    TimesIsProduct(Count(winners, id), WinBonus(players[id], id, fe));
    TimesIsProduct(Count(losers, id), LoserShift(id, fe));
  }

  /** A winner under 'Desafio' who played neither Mais nor Sobe gains 3 per
      win; under 'Parada' a win gains nothing. */
  lemma WinBonusRules(p: Player, id: PlayerId, fe: seq<FieldEffect>)
    ensures HasField(fe, id, Parada) ==> WinBonus(p, id, fe) == 0
    ensures (&& !HasField(fe, id, Parada) && HasField(fe, id, Desafio)
             && forall c :: c in p.playedEffect ==> c.name != Mais && c.name != Sobe)
            ==> WinBonus(p, id, fe) == 3
    ensures !HasField(fe, id, Parada) && !HasField(fe, id, Desafio) ==> WinBonus(p, id, fe) == 1
    ensures 0 <= WinBonus(p, id, fe) <= 3
  {
  }

  // ----- the players after the loops -----

  /** A loop over ids without repeats updates each listed player exactly once. */
  lemma {:induction false} EachAt(m: map<PlayerId, Player>, xs: seq<PlayerId>, f: (PlayerId, Player) -> Player,
                                  id: PlayerId)
    requires Distinct(xs) && id in m && id in xs
    ensures Each(m, xs, f)[id] == f(id, m[id])
    decreases |xs|
  {
    var init := xs[..|xs| - 1];
    assert xs == init + [xs[|xs| - 1]];
    if xs[|xs| - 1] == id {
      assert id !in init;
      EachUntouched(m, init, f, id);
    } else {
      EachAt(m, init, f, id);
    }
  }

  /** After a round outside Inversus mode, a player has jumped to its Pula
      target if it had one, and, unless eliminated, stands on its old space
      plus its movement, within [1, WINNING_POSITION]; nothing else of the
      player changes. */
  lemma PawnAfterRound(players: map<PlayerId, Player>, ids: seq<PlayerId>, moves: map<PlayerId, int>,
                       finalBoss: bool, id: PlayerId)
    requires Distinct(ids) && id in players && id in ids
    ensures var p := players[id];
      var q := Moved(Jumped(players, ids), ids, moves, finalBoss)[id];
      && q == p.(pathId := q.pathId, position := q.position)
      && q.pathId == (if Jumps(p) then p.targetPathForPula.value as int else p.pathId)
      && (p.isEliminated ==> q.position == p.position)
      && (!p.isEliminated ==>
            && q.position == NewPosition(p.position, if id in moves then moves[id] else 0, finalBoss)
            && 1 <= q.position <= WINNING_POSITION)
  {
    EachAt(players, ids, JumpStep(), id);
    EachAt(Jumped(players, ids), ids, MoveStep(moves, finalBoss), id);
  }

  /** One more loser entry costs one more heart while above 0. */
  lemma {:induction false} HeartsStep(h: int, n: nat)
    ensures HeartsAfter(h, n + 1) == if HeartsAfter(h, n) > 0 then HeartsAfter(h, n) - 1 else HeartsAfter(h, n)
    decreases n
  {
    if n > 0 && h > 0 {
      HeartsStep(h - 1, n - 1);
    }
  }

  /** Hearts never drop below zero: each entry costs one heart while any remain. */
  lemma {:induction false} HeartsAfterValue(h: int, n: nat)
    ensures HeartsAfter(h, n) == if h <= 0 then h else if n >= h then 0 else h - n
    decreases n
  {
    if n > 0 && h > 0 {
      HeartsAfterValue(h - 1, n - 1);
    }
  }

  /** After the Inversus losers' loop a player has lost one heart per loser
      entry, down to zero at most, and nothing else of it has changed. */
  lemma {:induction false} HeartsAt(players: map<PlayerId, Player>, losers: seq<PlayerId>, id: PlayerId)
    requires id in players
    ensures Hearts(players, losers)[id] == players[id].(hearts := HeartsAfter(players[id].hearts, Count(losers, id)))
    decreases |losers|
  {
    if losers != [] {
      var init := losers[..|losers| - 1];
      HeartsAt(players, init, id);
      HeartsStep(players[id].hearts, Count(init, id));
    }
  }

  // ----- the tally -----

  /** The Campo Versátil swap exchanges the two scores, so Versatrix then
      outscores the human; without it every score is the player's own. */
  lemma SwapExchangesScores(players: map<PlayerId, Player>, ids: seq<PlayerId>, fe: seq<FieldEffect>, rta: bool,
                            turn: int, bt: BattleType, finalBoss: bool, mode: Mode)
    requires forall id :: id in players <==> id in ids
    requires bt == King1v3 || finalBoss ==> forall id :: id in MASTER_PLAYER_IDS ==> id in players
    ensures var t := TallyOf(players, ids, fe, rta, turn, bt, finalBoss, mode);
      t.swap ==>
        && t.versatrix.value != PLAYER1
        && t.scores[PLAYER1] == Score(players[t.versatrix.value], t.versatrix.value, fe, rta)
        && t.scores[t.versatrix.value] == Score(players[PLAYER1], PLAYER1, fe, rta)
        && t.scores[PLAYER1] < t.scores[t.versatrix.value]
    ensures var t := TallyOf(players, ids, fe, rta, turn, bt, finalBoss, mode);
      !t.swap ==> forall id :: id in ids ==> t.scores[id] == Score(players[id], id, fe, rta)
  {
  }

  /** Outside the duo, one-against-three and final-battle rounds, the winners
      are exactly the active players with the highest score. */
  lemma {:induction false} HighestActiveWin(players: map<PlayerId, Player>, ids: seq<PlayerId>,
                                            scores: map<PlayerId, int>, bt: BattleType, finalBoss: bool,
                                            mode: Mode, id: PlayerId)
    requires forall id :: id in ids ==> id in players && id in scores
    requires bt != King1v3 && !finalBoss && mode != Duo
    ensures id in WinnersOf(players, ids, scores, bt, finalBoss, mode) <==>
      && id in ids && !players[id].isEliminated
      && forall o :: o in ids && !players[o].isEliminated ==> scores[o] <= scores[id]
  {
    var active := Active(players, ids);
    if active != [] {
      var xs := ScoresOf(scores, active);
      var best := MaxOf(xs);
      assert forall o :: o in active ==> scores[o] <= best by {
        forall o | o in active ensures scores[o] <= best {
          var k :| 0 <= k < |active| && active[k] == o;
          assert xs[k] in xs;
        }
      }
      var j :| 0 <= j < |xs| && xs[j] == best;
      assert active[j] in active;
    }
  }

  /** Solo and Inversus rounds: the winners are exactly the active players with
      the highest score, and the losers exactly the other players. */
  lemma SoloWinners(players: map<PlayerId, Player>, ids: seq<PlayerId>, fe: seq<FieldEffect>, rta: bool,
                    turn: int, bt: BattleType, finalBoss: bool, mode: Mode, id: PlayerId)
    requires forall id :: id in players <==> id in ids
    requires bt != King1v3 && !finalBoss && mode != Duo
    ensures var t := TallyOf(players, ids, fe, rta, turn, bt, finalBoss, mode);
      id in t.winners <==>
        && id in ids && !players[id].isEliminated
        && forall o :: o in ids && !players[o].isEliminated ==> t.scores[o] <= t.scores[id]
    ensures var t := TallyOf(players, ids, fe, rta, turn, bt, finalBoss, mode);
      id in t.losers <==> id in ids && id !in t.winners
  {
    var t := TallyOf(players, ids, fe, rta, turn, bt, finalBoss, mode);
    assert forall o :: o in ids ==> o in t.scores;
    assert t.winners == WinnersOf(players, ids, t.scores, bt, finalBoss, mode);
    HighestActiveWin(players, ids, t.scores, bt, finalBoss, mode, id);
    assert BranchLosers(ids, t.scores, bt, finalBoss, mode) == [];
  }

  /** A tied one-against-three round: all four players win and none of them
      loses. */
  lemma KingTieAllWin(players: map<PlayerId, Player>, ids: seq<PlayerId>, fe: seq<FieldEffect>, rta: bool,
                      turn: int, finalBoss: bool, mode: Mode)
    requires forall id :: id in players <==> id in ids
    requires forall id :: id in MASTER_PLAYER_IDS ==> id in players
    ensures var t := TallyOf(players, ids, fe, rta, turn, King1v3, finalBoss, mode);
      Get(t.scores, PLAYER1) == SumGet(t.scores, NECRO_IDS) ==>
        && t.winners == MASTER_PLAYER_IDS
        && forall id :: id in MASTER_PLAYER_IDS ==> id !in t.losers
  {
  }

  /** A one-against-three round the human wins: every Necroverso player is
      listed twice among the losers (by the branch and by the catch-all loop),
      so a losing shift reaches them twice. */
  lemma KingWinListsLosersTwice(players: map<PlayerId, Player>, ids: seq<PlayerId>, fe: seq<FieldEffect>,
                                rta: bool, turn: int, finalBoss: bool, mode: Mode, id: PlayerId)
    requires Distinct(ids)
    requires forall id :: id in players <==> id in ids
    requires forall id :: id in MASTER_PLAYER_IDS ==> id in players
    requires id in NECRO_IDS
    ensures var t := TallyOf(players, ids, fe, rta, turn, King1v3, finalBoss, mode);
      Get(t.scores, PLAYER1) > SumGet(t.scores, NECRO_IDS) ==> Count(t.losers, id) == 2
  {
    var t := TallyOf(players, ids, fe, rta, turn, King1v3, finalBoss, mode);
    if Get(t.scores, PLAYER1) > SumGet(t.scores, NECRO_IDS) {
      assert t.winners == [PLAYER1];
      assert t.losers == NECRO_IDS + Without(ids, [PLAYER1]);
      var rest := Without(ids, [PLAYER1]);
      CountAppend(NECRO_IDS, rest, id);
      NecroOnce(id);
      WithoutDistinct(ids, [PLAYER1]);
      CountDistinct(rest, id);
    }
  }

  /** A tied final battle: nobody wins and every player is a loser. */
  lemma FinalTieAllLose(players: map<PlayerId, Player>, ids: seq<PlayerId>, fe: seq<FieldEffect>, rta: bool,
                        turn: int, mode: Mode)
    requires forall id :: id in players <==> id in ids
    requires forall id :: id in MASTER_PLAYER_IDS ==> id in players
    ensures var t := TallyOf(players, ids, fe, rta, turn, NoBattleType, true, mode);
      Get(t.scores, 1) + Get(t.scores, 4) == Get(t.scores, 2) + Get(t.scores, 3) ==>
        t.winners == [] && t.losers == ids
  {
    var t := TallyOf(players, ids, fe, rta, turn, NoBattleType, true, mode);
    assert t.winners == WinnersOf(players, ids, t.scores, NoBattleType, true, mode);
    assert t.losers == BranchLosers(ids, t.scores, NoBattleType, true, mode) + Without(ids, t.winners);
    WithoutNothing(ids);
  }

  /** A tied duo round: nobody wins and every player is a loser. */
  lemma DuoTieAllLose(players: map<PlayerId, Player>, ids: seq<PlayerId>, fe: seq<FieldEffect>, rta: bool,
                      turn: int)
    requires forall id :: id in players <==> id in ids
    ensures var t := TallyOf(players, ids, fe, rta, turn, NoBattleType, false, Duo);
      SumGet(t.scores, TEAM_A) == SumGet(t.scores, TEAM_B) ==> t.winners == [] && t.losers == ids
  {
    WithoutNothing(ids);
  }
}
