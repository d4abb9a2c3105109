# Reversus engine in Dafny

This project models the game engine of Reversus, a turn-based card-and-board
game for two to four players. Each round every player lays value cards and
effect cards (Mais, Menos, Sobe, Desce, Pula, Reversus, Reversus Total and the
story cards NECRO X and NECRO X Invertido). The round is then scored and the
winners move their pawns along a path of coloured spaces. Modes covered are
solo, duo, Inversus and the story battles, including the final battle.

The model follows `js/game.js`, `js/story-abilities.js` and `js/utils.js`:

- `types.dfy` (`Types`) is the data model. Cards, players, spaces, paths and
  field-effect records are datatypes. The configuration constants are `const`s.
- `state.dfy` (`State`) is the game state store. It is the class `GameState`,
  with one field per entry of the game state that the engine reads or writes.
- `utils.dfy` (`Utils`) holds the deck and log helpers:
  - the in-place Fisher-Yates `shuffle` on an array;
  - `createDeck`;
  - the newest-first log capped at 50 entries.
- `effects.dfy` (`Effects`) is `applyEffect`: the inverse of an effect name,
  the substitution under Reversus Total, Imunidade, and the three kinds of
  reversal.
- `play.dfy` (`Play`) is `playCard`:
  - value cards go to the played pile, capped at 2;
  - effect cards replace a card of the same category on the target, unless
    that card is locked;
  - in the one-against-three battle a target expands to the Necroverso cluster.
- `scoring.dfy` (`Scoring`) is `calculateScore`, plus the winning and losing
  status that `updateLiveScoresAndWinningStatus` derives from the scores.
- `resolve.dfy` and `resolve_facts.dfy` (`Resolve`, `ResolveFacts`) are
  `resolveRound`:
  - winners and losers per mode, and the next starter;
  - the heart loss of Inversus mode;
  - the movement of every pawn, path jumps, and the position bounds.
- `turn.dfy` (`Turn`) holds:
  - `advanceToNextPlayer`;
  - `checkStartOfRoundCollisions`;
  - `endGameCheck`;
  - the draw that decides who starts (`drawToStart`).
- `round.dfy` (`Round`) is `startNewRound`:
  - cards go back to the decks, and locked cards stay;
  - hands are refilled up to the caps;
  - the Inversus mirrors player 1's hand.
- `story.dfy`, `field.dfy` and `field_facts.dfy` (`Story`, `FieldEffects`,
  `FieldFacts`) are the story abilities in `js/story-abilities.js`:
  - `triggerNecroX`, `tryToSpeak` and `performTrade`;
  - `triggerFieldEffects`, in which each coloured space fires at most once.
- `board.dfy` (`Board`) is `generateBoardPaths`, plus the neutralising of the
  yellow spaces.
- `ai.dfy` (`Ai`) is `getAiTurnDecision` and the mandatory value play of
  `executeAiTurn`.

Where the source changes state step by step, the model is imperative. For
example, `playCard`, `resolveRound`, `startNewRound` and `triggerFieldEffects`
are methods on a `GameState`, with field-level `modifies` frames. Each method
is proved against a specification function on the old state, and the
promised properties are lemmas about those functions. Pure code is modelled
as functions, for example `calculateScore` and `getInverseEffect`.

Randomness is passed in as parameters: `Math.random`, `shuffle` and dice
rolls. Human choices are also passed in. Each asynchronous step of the
engine's `await` chain returns its outcome instead of calling the next step.

Where the design description of the game and the code differ, the model
follows the code. Cards are not conserved across a new round. The design
says every card is in exactly one deck, hand or pile. In the code, the
round's resto card is returned to the value deck and also kept as the new
resto (js/game.js:1371-1372 and 1383).

## Model

| member | source | states |
|---|---|---|
| Utils.FisherYates | js/utils.js:9-15 | the swap sequence of `shuffle` for a given choice of `j` at each step keeps the length of the array |
| Utils.FisherYatesPermutes | js/utils.js:10-13 | each swap keeps the multiset, so the shuffled array is a permutation of the input |
| Utils.Shuffle | js/utils.js:9-15 | shuffles the array in place, returns the same array, and leaves a permutation of the original contents |
| Utils.ShuffleSeq | js/utils.js:9-15 | shuffle applied to a deck held as a sequence: the result is a permutation of the deck |
| Utils.Copies | js/utils.js:25-27 | `Array.from({ length: item.count })` yields exactly `count` cards, each built from the item with the next id |
| Utils.CreateDeck | js/utils.js:23-29 | the deck holds exactly the sum of the items' counts; ids run consecutively from the counter; every card has the requested type and takes `name = value = item.value` from a value item or `name = item.name` otherwise |
| Utils.CreateDeckIdsDistinct | js/utils.js:24-27 | the incrementing id counter gives every card of a deck a different id |
| Utils.NewestFirst | js/utils.js:40-43 | the new message is at index 0, followed by the old log; the log never grows beyond 50 entries and is only truncated at its oldest end |
| Utils.UpdateLog | js/utils.js:35-43 | without a game state nothing happens; otherwise the log becomes the newest-first bounded log |
| Effects.Inverse | js/game.js:429-437 | Mais/Menos, Sobe/Desce and NECRO X/NECRO X Invertido swap within their category; every other name (and no effect) has no inverse |
| Effects.InverseInvolutive | js/game.js:429-437 | applying the inverse twice gives back each of the six invertible names |
| Effects.EffectiveName | js/game.js:439-445 | while Reversus Total is active an invertible card acts as its inverse; otherwise, and for Pula and the reversal cards, the printed name stands |
| Effects.ReverseCategory | js/game.js:501-512 | a single-target reversal inverts only the chosen category, cancels a Pula movement, and with no category changes nothing |
| Effects.TargetEffects | js/game.js:453-462 | a score card replaces the score slot, a movement card the movement slot, a reversal reverses the chosen category, a value card changes nothing |
| Effects.ApplyEffectSpec | js/game.js:417-517 | the set of players is unchanged and the Reversus Total flag becomes set exactly when a global Reversus Total reaches an existing target |
| Effects.ReverseAllPlayers | js/game.js:483-497 | the loop over all players applies the global reversal to each of them |
| Effects.ApplyEffect | js/game.js:417-517 | the players' effects and the Reversus Total flag end as the specification function computes from the old state |
| Effects.SetEffects | js/game.js:453-462 | writes one player's effects and leaves every other player alone |
| Effects.UnknownTargetNoOp | js/game.js:419-420 | an unknown target changes nothing |
| Effects.ImmunityBlocksPrintedDebuff | js/game.js:424-427 | an Imunidade field effect on the target blocks a card printed Menos or Desce, even under Reversus Total |
| Effects.SubstitutionUnderReversusTotal | js/game.js:439-462 | under Reversus Total an invertible card lands as its inverse in the same slot, and no other player changes |
| Effects.SingleReversalTouchesOneCategory | js/game.js:463-513 | plain Reversus and the individual lock change only the chosen category of their target, nobody else, and not the flag |
| Effects.ReversalCancelsPula | js/game.js:505-507 | reversing the movement of a target under Pula leaves it with no movement effect |
| Effects.GlobalReversal | js/game.js:479-499 | a global Reversus Total sets the flag and reverses every player, whoever the target |
| Effects.GlobalReverseOnePlayer | js/game.js:483-497 | for one player the score changes only to its inverse and only with an unlocked played score card, likewise the movement, and Pula is never touched |
| Effects.ApplyEffectOnlyEffects | js/game.js:417-517 | effect resolution changes players' effects and nothing else about them |
| Play.CategoryOf | js/game.js:602-608 | score and movement names map to their category; a reversal maps to the category it reverses; only a Reversus Total played without the lock is 'total'; value cards have none |
| Play.FindCategory | js/game.js:613 | the card found is one of the target's played cards of the category, and when none is found no card of the category is there |
| Play.RemoveCategory | js/game.js:626 | exactly the played cards not of the category are kept |
| Play.WithoutCard | js/game.js:558 | exactly the cards with a different id stay in the hand, and the hand does not grow |
| Play.FinalTargets | js/game.js:576-588 | the chosen target is always reached; all three Necroversos are reached only in the king battle, for a non-Pula card aimed at a Necroverso by the human or by a Necroverso |
| Play.PlayCard | js/game.js:556-648 | a play marks that a card was played this turn, leaves the board as the play specification computes from the old state, and resets a human's pending selection on every path that reaches the end or the locked-out return |
| Play.PlaySpec | js/game.js:556-648 | `playCard` as a value: the card leaves the caster's hand, then a value play, an accepted effect play, or nothing more |
| Play.ValueSpec | js/game.js:565-571 | the value branch: the pile takes the card while it holds fewer than two, the card becomes the next resto, and the value-played flag is set |
| Play.EffectSpec | js/game.js:573-640 | the effect branch: the card is placed on the target, then resolved on every final target |
| Play.ClearSelection | js/game.js:617-647 | a human's selection is cleared on the locked-out path (Pula target kept) and at the end of the play (Pula target cleared), and kept on the missing-target return |
| Play.PlayOnBoard | js/game.js:558-640 | reports which way the play ended and leaves players, effect deck and Reversus Total flag as the play specification computes |
| Play.RemoveFromHand | js/game.js:558 | the caster's hand loses the played card and nothing else changes |
| Play.PlayValue | js/game.js:565-571 | the value branch: the pile takes the card while it holds fewer than two, the card becomes the next resto, and the value-played flag is set |
| Play.PlayEffect | js/game.js:573-640 | the effect branch places the card on the target and then resolves it on every final target |
| Play.PlaceCard | js/game.js:610-635 | a card of the same category leaves the target for the effect deck and the landed card (caster, lock, reversed category recorded) is appended |
| Play.ResolveOnTargets | js/game.js:637-639 | the loop applies the effect to each final target in order |
| Play.ApplyAllKeys | js/game.js:637-639 | resolution on any list of targets keeps the set of players |
| Play.ApplyAllOnlyEffects | js/game.js:637-639 | resolution on any list of targets rewrites only players' effects |
| Play.ApplyAllTotalFlag | js/game.js:479-480 | Reversus Total ends active exactly when it already was or a global Reversus Total reached a target present in the game |
| Play.ValuePlayResult | js/game.js:558-571 | a value card leaves the hand, joins the pile only while it holds fewer than two so the pile never exceeds two, becomes the next resto, and nothing else on the table changes |
| Play.LockedOutOnlyLosesCard | js/game.js:556-624 | a play rejected by a locked card still costs the caster the card, while the target's played effects and effects, the deck and the flag stay unchanged |
| Play.LockedOutMeansLockedCard | js/game.js:612-615 | a rejection happens only when the target holds a locked card of the new card's category |
| Play.EffectPlayOnePerCategory | js/game.js:612-635 | after an accepted effect play the target holds exactly one card of that category, the new one, last; other categories are kept; the replaced card, if any, is appended to the effect deck |
| Play.PlayKeepsTotalFlag | js/game.js:417-517 | no play switches Reversus Total off |
| Play.IndividualLockTotalActsGlobally | js/game.js:465-480 | since a play sets `isLocked` and never `isIndividualLock`, a Reversus Total played as an individual lock on an existing target runs the global branch and sets the flag |
| Scoring.FloorDiv | js/game.js:946 | `Math.floor(a / b)` is the greatest integer whose product with a positive divisor does not exceed the dividend (and the mirror bound for a negative divisor) |
| Scoring.Score | js/game.js:919-959 | `calculateScore`: the played values summed, then Mais adds the resto, Menos subtracts it (twice under Super Exposto), and NECRO X multiplies or floor-divides by it as Reversus Total dictates |
| Scoring.Resto | js/game.js:924-933 | the resto card's value (0 without one), 10 under Resto Maior, 2 under Resto Menor |
| Scoring.NoScoreEffectIsSum | js/game.js:919-959 | without a score effect the score is the sum of the played values |
| Scoring.RestoMenorWins | js/game.js:925-933 | when both Resto Maior and Resto Menor apply the resto is 2 |
| Scoring.MaisMenosSymmetric | js/game.js:935-941 | Mais adds the resto, Menos subtracts it, twice under Super Exposto |
| Scoring.NecroXMirror | js/game.js:943-956 | NECRO X under Reversus Total scores exactly what NECRO X Invertido scores without it, and the other way round |
| Scoring.NecroXDivisionBounds | js/game.js:944-946 | a dividing NECRO X with a positive resto gives the floor of the sum divided by the resto |
| Scoring.OthersFieldEffectsIrrelevant | js/game.js:923 | field effects aimed at another player never change a player's score |
| Scoring.WorkedExamples | js/game.js:919-959 | played 5 and 3 with resto 4: Mais gives 12, NECRO X 32, dividing NECRO X 2, Menos with Super Exposto 0 |
| Scoring.NecroXOnTwelve | js/game.js:944-949 | a NECRO X on 12 with resto 4 gives 48, or 3 under Reversus Total |
| Scoring.Scored | js/game.js:966-971 | the first loop keeps the set of players |
| Scoring.Lives | js/game.js:1016 | the list of live scores follows the order of the seats |
| Scoring.MaxOf | js/game.js:1017 | `Math.max` of the live scores is one of them and bounds all of them from above |
| Scoring.MinOf | js/game.js:1018 | `Math.min` of the live scores is one of them and bounds all of them from below |
| Scoring.UpdateLiveScoresAndWinningStatus | js/game.js:961-1049 | every live score is recomputed and every status is set by the rule of the current mode, as the standings specification computes |
| Scoring.LiveSpec | js/game.js:961-1049 | the live update as a value: every seat scored, then the standings of the mode; the set of players is kept |
| Scoring.StatusSpec | js/game.js:973-1048 | the standings per mode (king battle, final battle, duo, solo and Inversus); the set of players is kept |
| Scoring.ScoreAll | js/game.js:966-971 | every seat gets its live score computed and its status reset to neutral |
| Scoring.ScoreLoop | js/game.js:966-971 | the `forEach` over distinct seats computes the scored players map |
| Scoring.SetTeamStatus | js/game.js:1031-1037 | the side with the higher sum wins, the other loses, and a tie changes nothing |
| Scoring.SetStatusAll | js/game.js:1032 | every listed existing player takes the status |
| Scoring.StatusLoop | js/game.js:1032 | the `forEach` loop yields exactly the map with the listed seats set to the status |
| Scoring.MarkExtremes | js/game.js:1015-1025 | solo and Inversus standings: the players at the maximum win and those at the minimum lose, unless every score is the same |
| Scoring.MarkLoop | js/game.js:1020-1024 | the marking loop marks each seat against the maximum and the minimum |
| Scoring.StatusSpecOnlyStatus | js/game.js:970-1048 | the standings change statuses and nothing else |
| Scoring.ExtremesOnlyStatus | js/game.js:1019-1025 | the solo standings change statuses and nothing else |
| Scoring.TeamStatusOnlyStatus | js/game.js:1031-1037 | the team standings change statuses and nothing else |
| Scoring.WithStatusOnlyStatus | js/game.js:1032 | setting a status changes nothing else about a player |
| Scoring.LiveScoresAreScores | js/game.js:966-971 | after the update every player's live score is its score and nothing but the live score and the status changed |
| Scoring.TeamStatusOpposite | js/game.js:1028-1037 | the two sides get opposite statuses by the comparison of their sums, and a tie leaves both sides as they were |
| Scoring.KingBattleStandings | js/game.js:974-983 | in the king battle the human wins exactly when its score beats the Necroversos' sum and loses exactly when the sum beats it, and every Necroverso gets the opposite |
| Scoring.LivesBounds | js/game.js:1016-1018 | the maximum and minimum bound every listed live score and are attained |
| Scoring.ExtremesAreMaxAndMin | js/game.js:1015-1025 | when scores differ a player wins exactly when no score is higher and loses exactly when no score is lower; with all scores equal nobody changes |
| Resolve.FindVersatrix | js/game.js:1065 | the Versatrix found is a seated player with the Versatrix AI, and when none is found no seated player has it |
| Resolve.Filter | js/game.js:1113-1114 | `TEAM.filter(id => playerIds.includes(id))` keeps exactly the team members in the game |
| Resolve.Without | js/game.js:1126 | the catch-all loop lists exactly the ids not among the winners |
| Resolve.Active | js/game.js:1116 | exactly the players not eliminated are active |
| Resolve.AtScore | js/game.js:1120 | exactly the listed players at the given score are kept |
| Resolve.WinnersOf | js/game.js:1093-1123 | every winner pushed by a mode branch is a seated player |
| Resolve.TallyOf | js/game.js:1064-1126 | winners and losers are seated players, and Campo Versátil fires only with the human and a seated Versatrix |
| Resolve.RestosOf | js/game.js:1133 | the resto values of the tied winners (0 without a resto), in order |
| Resolve.NextStarter | js/game.js:1128-1138 | there is a next starter exactly when there is a winner; a sole winner starts; among tied winners the starter holds a maximal resto |
| Resolve.AddEach | js/game.js:1159-1203 | a `forEach` adding to the movements map keeps its keys |
| Resolve.ZeroMoves | js/game.js:1088 | the movements map starts with an entry for exactly the seated players |
| Resolve.RoundMoves | js/game.js:1088-1203 | after the three movement loops the map still has an entry for exactly the seated players |
| Resolve.Swapped | js/game.js:1217 | the destructuring swap keeps the keys of the map |
| Resolve.Movements | js/game.js:1088-1219 | the final movements map, after the Campo Versátil swap, covers exactly the seated players |
| Resolve.NewPosition | js/game.js:1225-1237 | the new position always lies in 1..WINNING_POSITION, by clamping or, in the final battle, by the reset to 1 |
| Resolve.HeldPath | js/game.js:1208 | the path found is the first one recorded as held by the player, and when none is found no path is |
| Resolve.Jump | js/game.js:1208-1211 | a jump keeps the number of board paths |
| Resolve.JumpAll | js/game.js:1205-1214 | the Pula loop keeps the number of board paths |
| Resolve.Each | js/game.js:1205-1243 | a `forEach` updating players keeps the set of players |
| Resolve.Jumped | js/game.js:1205-1214 | the Pula loop keeps the set of players |
| Resolve.Moved | js/game.js:1221-1243 | the position loop keeps the set of players |
| Resolve.Hearts | js/game.js:1146-1152 | the Inversus heart loop keeps the set of players |
| Resolve.ResolveRound | js/game.js:1051-1244 | after game over nothing changes; otherwise the phase becomes resolution, the Inversus Total ability ends, the swap flag records Campo Versátil, the next starter becomes current, and players and paths are settled as the round's tally demands |
| Resolve.WinBonus | js/game.js:1159-1172 | the winner's bonus lies between 0 and 3; it is 0 exactly under Parada, and 3 only under Desafio (when no Mais or Sobe was played) |
| Resolve.LoserShift | js/game.js:1177-1185 | a loser moves +1 under Impulso, otherwise -3 under Castigo, otherwise not at all |
| Resolve.CardShift | js/game.js:1189-1199 | Sobe moves +1, Desce -1, doubled by Super Exposto |
| Resolve.HeartsAfter | js/game.js:1145-1151 | each loser entry takes a heart while some remain: hearts not above 0 stay, otherwise they drop by the number of entries down to 0 |
| Resolve.Settled | js/game.js:1143-1244 | the round's effect on players and board: hearts in the Inversus mode, otherwise the Pula jumps and the movement of every pawn |
| Resolve.Conclude | js/game.js:1055-1141 | the closing writes of the phase, the ability and swap flags, the current player, the players and the paths |
| Resolve.Settle | js/game.js:1145-1243 | Inversus mode only costs hearts and leaves the paths; every other mode jumps and moves the pawns |
| Resolve.MovePawns | js/game.js:1158-1243 | the movement half: the movement loops, the jumps, the swap and the position loop |
| Resolve.LoseHearts | js/game.js:1146-1152 | each loser entry costs one heart while any remain |
| Resolve.AccumulateMovements | js/game.js:1158-1203 | the winners', losers' and card loops fill the movements map |
| Resolve.AddWinBonuses | js/game.js:1159-1172 | each winner entry adds nothing under Parada, 3 or 1 under Desafio, 1 otherwise |
| Resolve.AddLoserShifts | js/game.js:1176-1185 | each loser entry adds 1 under Impulso, otherwise subtracts 3 under Castigo |
| Resolve.AddCardShifts | js/game.js:1188-1203 | each seated player moves +1 with Sobe, -1 with Desce, doubled by Super Exposto |
| Resolve.JumpPaths | js/game.js:1205-1214 | each jumper releases its old path, takes its target path, and the target path records it |
| Resolve.ApplyMovements | js/game.js:1221-1243 | every player not eliminated moves to the new position its entry gives |
| ResolveFacts.TimesIsProduct | js/game.js:1165 | repeated `+=` of the same delta adds the delta times the number of steps |
| ResolveFacts.AddEachAt | js/game.js:1159-1203 | each occurrence of an id in a loop adds its delta once |
| ResolveFacts.RoundMovesAt | js/game.js:1158-1203 | before the swap a player's movement is one win bonus per winner entry, one loser shift per loser entry, plus its card movement |
| ResolveFacts.WinBonusRules | js/game.js:1159-1172 | Parada gives no bonus, Desafio without a played Mais or Sobe gives 3, no field effect gives 1, and the bonus lies in 0..3 |
| ResolveFacts.EachAt | js/game.js:1205-1243 | a loop over distinct seats updates each listed player exactly once |
| ResolveFacts.PawnAfterRound | js/game.js:1205-1243 | outside Inversus mode a player has jumped to its Pula target when it had one, an eliminated player stays put, everyone else lands on the new position within 1..WINNING_POSITION, and nothing else about the player changes |
| ResolveFacts.HeartsAfterValue | js/game.js:1146-1152 | hearts never drop below zero: n loser entries cost min(n, hearts) hearts |
| ResolveFacts.HeartsAt | js/game.js:1146-1152 | after the Inversus loop a player has lost one heart per loser entry while any remained, and nothing else changed |
| ResolveFacts.SwapExchangesScores | js/game.js:1068-1086 | Campo Versátil exchanges the human's and Versatrix's scores when Versatrix scored less; without it every score is the player's score |
| ResolveFacts.HighestActiveWin | js/game.js:1115-1123 | outside the team modes a player wins exactly when active and no active player scores more |
| ResolveFacts.SoloWinners | js/game.js:1115-1126 | solo and Inversus winners are exactly the active players at the maximum score, and every other seated player is a loser |
| ResolveFacts.KingTieAllWin | js/game.js:1099-1102 | a tied king battle makes all four players winners and nobody a loser |
| ResolveFacts.KingWinListsLosersTwice | js/game.js:1093-1126 | when the human wins the king battle each Necroverso is listed twice among the losers |
| ResolveFacts.FinalTieAllLose | js/game.js:1103-1126 | a tied final battle has no winner and every seated player is a loser |
| ResolveFacts.DuoTieAllLose | js/game.js:1109-1126 | a tied duo round has no winner and every seated player is a loser |
| Turn.IndexOf | js/game.js:1271 | `indexOf` gives the first seat holding the id, or -1 exactly when the id is not seated |
| Turn.Succ | js/game.js:1274 | `(i + 1) % n` steps to the next seat, wrapping from the last seat to the first |
| Turn.NextSeat | js/game.js:1271-1276 | the do-while stops at the first seat after the current one, going round the ring, whose player is not eliminated |
| Turn.FirstActiveAfter | js/game.js:1266-1276 | a seat holds the first player not eliminated after the start seat, going round the rotation |
| Turn.RotationUnique | js/game.js:1271-1276 | the seat the rotation lands on is determined by the seat it leaves |
| Turn.FollowerUnique | js/game.js:1271-1278 | the player whose turn follows is unique |
| Turn.ValueCount | js/ui-handlers.js:230 | the value cards counted never outnumber the hand |
| Turn.PassTurn | js/game.js:1257-1276 | the pass counter grows by one on a pass and resets on a play; the round resolves exactly when the counter reaches the number of active players; otherwise the turn goes to the next active player in the rotation |
| Turn.HandOver | js/game.js:1278-1283 | the next player becomes current with no selection, no card played and the phase set to playing |
| Turn.AdvanceToNextPlayer | js/game.js:1251-1283 | only the current player's value-played flag changes among the players; the pass counter is updated; the round resolves exactly when every active player passed, with the turn state left as it was; otherwise the next active player in the rotation gets a fresh turn |
| Turn.Necros | js/game.js:1306 | exactly the final-battle Necroversos not eliminated are checked |
| Turn.Collisions | js/game.js:1310-1335 | the collision loop keeps the set of players |
| Turn.Collide | js/game.js:1311-1334 | one Necroverso's check: catching the human loses the battle; otherwise catching Versatrix eliminates her, disables her power and whitens the yellow spaces |
| Turn.RunCollisions | js/game.js:1310-1335 | the loop over the Necroversos, stopping at the first catch of the human |
| Turn.CheckStartOfRoundCollisions | js/game.js:1302-1337 | players, the Versatrix power flag, the board and the verdict are those of the collision loop over the Necroversos in play |
| Turn.LostIffCaught | js/game.js:1310-1316 | the battle is lost exactly when some Necroverso in play shares the human's space |
| Turn.CollisionsTouchOnlyVersatrix | js/game.js:1318-1334 | either nothing changes, or only Versatrix is eliminated, her power is disabled and every yellow space is whitened |
| Turn.StaysEliminated | js/game.js:1319 | once Versatrix is eliminated the loop changes nothing more |
| Turn.Arrived | js/game.js:1495 | exactly the seats whose pawn reached the winning position |
| Turn.Opponent | js/game.js:1474 | the story opponent is the first seated id other than the human's: every id listed before it is the human's; none only when every id is the human's |
| Turn.EndGameCheck | js/game.js:1434-1526 | a duel verdict only in Inversus mode, a story verdict only in a story battle other than the final one, a game-over only outside story mode in solo or duo (a speed run exactly outside Inversus and under five minutes), and a halt only in a final battle already over |
| Turn.SoloEnds | js/game.js:1494-1499 | a solo game ends exactly when some pawn reached the winning position, and the winners are exactly those pawns; otherwise a new round starts |
| Turn.DuoEnds | js/game.js:1500-1509 | a duo game ends exactly when either team is home, both teams can win together, and a team with no seated member counts as home |
| Turn.DuelEnds | js/game.js:1439-1452 | the duel ends exactly when either side has no heart left, and the human wins exactly when it still has hearts |
| Turn.StoryEnds | js/game.js:1462-1487 | a story battle is won as soon as the human reaches the end, lost only while the human has not, and in the king battle lost exactly when some Necroverso reached the end first |
| Turn.Dealt | js/game.js:363-365 | every seat draws exactly one card |
| Turn.DealtAt | js/game.js:363-365 | seat k draws the k-th card from the top of the deck |
| Turn.Insert | js/game.js:381 | one insertion step of the stable sort adds exactly the one seat |
| Turn.InsertPlaces | js/game.js:381 | the inserted seat lands at one place, the others keep their order, and every seat ahead of it drew a strictly higher card, so equal draws keep their original order as JavaScript's stable sort does |
| Turn.InsertPermutes | js/game.js:381 | an insertion adds exactly one seat to the multiset |
| Turn.InsertDescending | js/game.js:381 | inserting into a sequence ordered from the highest card down keeps it ordered |
| Turn.InsertDistinct | js/game.js:381 | inserting a new seat keeps the seats distinct |
| Turn.SortByDraw | js/game.js:381 | the sorted rotation holds exactly the same seats |
| Turn.SortPermutes | js/game.js:381 | the sort is a permutation of the seats |
| Turn.SortDescending | js/game.js:381 | the sort orders the seats from the highest drawn card down |
| Turn.SortDistinct | js/game.js:381 | a rotation without repeats stays without repeats |
| Turn.CardsOf | js/game.js:398 | the drawn cards in seat order |
| Turn.DealOne | js/game.js:363-365 | each seat pops one card; the deck loses exactly its top cards |
| Turn.PutBack | js/game.js:398 | after a tie the drawn cards are pushed back on the deck in seat order |
| Turn.Redeal | js/game.js:398-399 | after a tie and the reshuffle the deck holds exactly the cards it held before the draw |
| Turn.Draw | js/game.js:355-385 | the draw refills a short deck, deals one card per seat and sorts the seats; the sorted rotation is a permutation of the seats without repeats |
| Turn.Install | js/game.js:381-398 | the rotation becomes the sorted order and the deck what is left; a decided draw makes the first seat current and records the cards, a tie changes neither |
| Turn.DrawToStart | js/game.js:353-402 | the deck and rotation are those of the draw; a decided draw makes the highest card's seat current and records the drawn cards; a tie leaves both |
| Turn.DrawWinner | js/game.js:381-387 | the first seat after the sort holds a card at least as high as every other, and the draw is decided exactly when it is strictly higher than every other |
| Story.ScoreCardIndex | js/story-abilities.js:31-32 | `findIndex` gives the first played score card, or -1 exactly when there is none |
| Story.NecroXCard | js/story-abilities.js:29 | the conjured NECRO X: an effect card cast by the caster |
| Story.Spliced | js/story-abilities.js:31-36 | the played effects without their first score card |
| Story.Conjure | js/story-abilities.js:29-37 | the first score card leaves the caster's played effects for the effect deck and the conjured NECRO X is appended |
| Story.SpliceKeepsCards | js/story-abilities.js:32-36 | the splice loses no card: what stays in play and what goes back to the deck together are the old played effects |
| Story.NecroXOnlyScoreCard | js/story-abilities.js:31-37 | with at most one score card in play before, NECRO X is afterwards the caster's only played score card, and the last one |
| Story.TriggerNecroX | js/story-abilities.js:14-40 | the ability is spent for the round, the displaced score card goes to the effect deck, and NECRO X is resolved on the caster with its played effects updated |
| Story.NecroXOnCaster | js/story-abilities.js:38 | the conjured NECRO X sets the caster's score effect to NECRO X, or to NECRO X Invertido under Reversus Total, and changes nothing else |
| Story.Unspoken | js/story-abilities.js:78-80 | exactly the lines not yet spoken remain available |
| Story.ChooseLine | js/story-abilities.js:66-86 | a chosen line is never one already spoken and comes from the list for the character's current standing; no line is chosen exactly without dialogue, on the 60% silent roll, in a neutral standing, or when every line was spoken |
| Story.TryToSpeak | js/story-abilities.js:66-86 | a spoken line was not spoken before and is added to the spoken set; otherwise the set is unchanged |
| Story.ValueCards | js/story-abilities.js:114 | exactly the value cards of the hand |
| Story.EffectCards | js/story-abilities.js:114 | exactly the effect cards of the hand |
| Story.Lowest | js/story-abilities.js:114-123 | index 0 of the ascending sort is a card of lowest value |
| Story.Highest | js/story-abilities.js:114-123 | the last index of the ascending sort is a card of highest value |
| Story.WithoutOne | js/story-abilities.js:125-126 | filtering out the id of a card in a hand of unique ids removes exactly that card |
| Story.WithoutAt | js/story-abilities.js:125-126 | in a hand of unique ids, filtering out the id of the card at k leaves the hand without position k |
| Story.Given | js/story-abilities.js:122-123 | a fair trade gives A's lowest and B's highest value card, an unfair one A's highest and B's lowest |
| Story.Exchange | js/story-abilities.js:125-129 | the card moves keep the set of players |
| Story.Trade | js/story-abilities.js:110-132 | a trade keeps the set of players |
| Story.NoValueCards | js/story-abilities.js:117 | a hand without value cards has an empty list of value cards |
| Story.NoValueCardsNoTrade | js/story-abilities.js:117-120 | when either side has no value card the trade changes nothing |
| Story.ExchangeMoves | js/story-abilities.js:125-129 | between two players each hand keeps its size, loses its own card and gains the other's, and nothing else changes |
| Story.TradeExchanges | js/story-abilities.js:110-132 | between two players with value cards exactly one card moves each way, chosen by the kind of trade, and each hand keeps its size |
| FieldEffects.SetSpace | js/story-abilities.js:160-176 | writing a space keeps the board's shape and coloring rule and puts the new space at that position |
| FieldEffects.JsRem10 | js/story-abilities.js:198 | JavaScript's `% 10` keeps the sign of the dividend and agrees with the mathematical remainder modulo 10 |
| FieldEffects.Looped | js/story-abilities.js:194-199 | the final battle's looping move always lands in 1..10 and equals the move taken modulo 10 |
| FieldEffects.LoopMove | js/story-abilities.js:194-201 | a looping move keeps the set of players |
| FieldEffects.LoopAll | js/story-abilities.js:209 | the Necroversos' `forEach` keeps the set of players |
| FieldEffects.OfType | js/story-abilities.js:204-205 | exactly the seated players of the given AI type |
| FieldEffects.Swirl | js/story-abilities.js:203-209 | the final battle's yellow space keeps the set of players |
| FieldEffects.YellowHit | js/story-abilities.js:180-221 | a yellow space only moves players and keeps the board |
| FieldEffects.BlackHoleHit | js/story-abilities.js:224-258 | a black hole keeps the set of players and the board's coloring rule |
| FieldEffects.TeamOf | js/story-abilities.js:279 | in duo the team is the two distinct members of the player's team, otherwise the player alone |
| FieldEffects.Present | js/story-abilities.js:304-305 | exactly the listed ids with a player |
| FieldEffects.Records | js/story-abilities.js:356-361 | the default effect adds one record per team member present |
| FieldEffects.RecordsFollowTeam | js/story-abilities.js:356-361 | each record names the field effect, applies to the present member in team order, and carries the space's polarity |
| FieldEffects.RedrawOne | js/story-abilities.js:285-300 | a Carta space changes only hands and the value deck |
| FieldEffects.Redraw | js/story-abilities.js:285-301 | the team's Carta `forEach` changes only hands and the value deck |
| FieldEffects.Swap | js/story-abilities.js:309-330 | a trade space changes only hands and the phase |
| FieldEffects.FewerEffects | js/story-abilities.js:346-347 | removing an effect card's id leaves strictly fewer effect cards, so the discard loop ends |
| FieldEffects.NoMoreEffects | js/story-abilities.js:339 | removing an id never adds effect cards |
| FieldEffects.DropTo1 | js/story-abilities.js:343-348 | the discard loop leaves at most one effect card |
| FieldEffects.DropOne | js/story-abilities.js:336-341 | a hand without effect cards is kept; otherwise one effect card chosen by the roll is discarded, so the hand holds fewer effect cards |
| FieldEffects.Nada | js/story-abilities.js:331-355 | Total Revesus Nada! keeps the set of players |
| FieldEffects.TintedHit | js/story-abilities.js:260-363 | a red or blue space keeps the set of players and the board |
| FieldEffects.Fire | js/story-abilities.js:151-364 | one seat of the loop keeps the set of players and the board's coloring rule |
| FieldEffects.FireAll | js/story-abilities.js:150-365 | the loop over the seats keeps the set of players and the board's coloring rule |
| FieldEffects.Dodges | js/story-abilities.js:154-162 | Reversum on an unused red or blue space only uses it up |
| FieldEffects.Fires | js/story-abilities.js:151-175 | a seat sets off its space: in play, on the board, on an unused coloured space, and not Reversum dodging it |
| FieldEffects.Obscures | js/story-abilities.js:141-148 | Contravox obscures the human's cards while uses remain and the human stands on space 3, 6 or 9 |
| FieldEffects.MoveAll | js/story-abilities.js:209 | the `forEach` moving each Necroverso by -1 with the looping move |
| FieldEffects.RedrawTeam | js/story-abilities.js:285-301 | the Carta loop over the team, as the specification computes |
| FieldEffects.RevealHands | js/story-abilities.js:303-306 | Jogo Aberto appends every listed id with a player to the revealed hands |
| FieldEffects.AddTeamEffects | js/story-abilities.js:356-361 | the default `forEach` appends the team's records to the active field effects |
| FieldEffects.DiscardDownToOne | js/story-abilities.js:343-348 | the second duo member's `while` loop discards random effect cards down to one |
| FieldEffects.FireYellow | js/story-abilities.js:180-221 | the yellow-space branch, as the specification computes |
| FieldEffects.FireBlackHole | js/story-abilities.js:224-258 | the black-hole branch, as the specification computes |
| FieldEffects.FireTinted | js/story-abilities.js:260-363 | the red and blue branch, as the specification computes |
| FieldEffects.FireNada | js/story-abilities.js:331-355 | the Total Revesus Nada! branch, as the specification computes |
| FieldEffects.FireSpace | js/story-abilities.js:151-364 | the body of the loop over the seats |
| FieldEffects.RunSeats | js/story-abilities.js:150-365 | the loop over the seats in turn order, cut short by a story event |
| FieldEffects.Store | js/story-abilities.js:137-365 | the loop's result and Contravox's fields are written back to the game state |
| FieldEffects.TriggerFieldEffects | js/story-abilities.js:137-365 | Contravox obscures the human's cards and spends a use exactly when she is seated, a use remains and the human stands on 3, 6 or 9; then every seat fires in turn, leaving the state and the story event the loop computes, with the board still well colored |
| FieldFacts.NothingFires | js/story-abilities.js:152-171 | an eliminated player, one off the board or out of range, or one on a used or white space changes nothing |
| FieldFacts.ReversumImmune | js/story-abilities.js:154-162 | Reversum on an unused red or blue space only marks it used |
| FieldFacts.WhitenKeepsUse | js/story-abilities.js:238-245 | whitening the yellow spaces keeps every space's place and use |
| FieldFacts.FireUsesSpace | js/story-abilities.js:158-176 | a player who sets a space off, or Reversum dodging it, leaves it used |
| FieldFacts.FiresOnce | js/story-abilities.js:171-176 | a space goes off at most once: anyone standing on it afterwards changes nothing |
| FieldFacts.CycleCard | js/story-abilities.js:294-298 | a card filtered out of a hand of distinct ids and pushed back leaves the same multiset of distinct cards |
| FieldFacts.RedrawOneReturns | js/story-abilities.js:285-300 | the card a Carta space discards onto the deck is popped straight back: the deck is unchanged, the member's hand has the same cards, and nobody else changes |
| FieldFacts.RedrawReturns | js/story-abilities.js:283-302 | Carta Menor and Carta Maior, as written, leave the value deck and every hand's cards unchanged |
| FieldFacts.RedrawKeepsDeck | js/story-abilities.js:294-297 | the Carta spaces leave the value deck as it was, whatever the hands |
| FieldFacts.TintedGrows | js/story-abilities.js:260-363 | a red or blue space never touches the value deck, and field effects and revealed hands only grow |
| FieldFacts.FireGrows | js/story-abilities.js:151-364 | one seat of the loop keeps the value deck and only appends records |
| FieldFacts.FireAllGrows | js/story-abilities.js:150-365 | over the whole loop the value deck comes out as it went in and the records only grow |
| FieldFacts.LoopAllOnBoard | js/story-abilities.js:209 | the Necroversos' loop only changes positions, each to a square in 1..10 |
| FieldFacts.SwirlOnBoard | js/story-abilities.js:191-209 | the final battle's yellow space only changes positions, each to a square in 1..10 |
| FieldFacts.YellowStep | js/story-abilities.js:210-218 | outside the final battle only the player on the space moves: Versatrix one forward capped at WINNING_POSITION, anyone else one back floored at 1 |
| FieldFacts.BlackHoleOutcomes | js/story-abilities.js:224-258 | the space turns white; the human loses the battle; Versatrix is eliminated, her power disabled and no yellow space remains; Necroverso loses a heart and the battle is won once none remain |
| FieldFacts.NadaAlone | js/story-abilities.js:350-353 | outside duo the player keeps exactly its value cards and nobody else changes |
| FieldFacts.NadaDuo | js/story-abilities.js:332-349 | in duo the second member keeps at most one effect card and nobody outside the team changes |
| Round.Locked | js/game.js:1386 | exactly the locked played effect cards stay on the table |
| Round.Unlocked | js/game.js:1384 | exactly the unlocked played effect cards go back to the effect deck |
| Round.LockSplits | js/game.js:1384-1386 | every played effect card is either kept or returned, none lost or duplicated |
| Round.NextResto | js/game.js:1371-1380 | drawing a missing resto in the final battle pops the top of the value deck; otherwise the deck is untouched |
| Round.ReturnAll | js/game.js:1363-1395 | the first `forEach` keeps the set of players |
| Round.ReturnCards | js/game.js:1363-1395 | the first loop over the seats, as the specification computes |
| Round.DealAll | js/game.js:1403-1410 | the second `forEach` keeps the set of players |
| Round.Draw | js/game.js:1408-1409 | the inner `for` pops up to the needed number of cards onto the hand |
| Round.DealHands | js/game.js:1403-1410 | the second loop over the seats, as the specification computes |
| Round.Mirror | js/game.js:1412-1416 | the Inversus mirror keeps the set of players |
| Round.ReturnOneMoves | js/game.js:1363-1395 | a player is reset (no played value card, only locked effect cards, no effects, no Pula target, value-played flag off) with its hand kept; the unlocked effect cards move to the effect deck; the old resto and the played values go to the value deck unless a missing final-battle resto is drawn from it |
| Round.ReturnAllResets | js/game.js:1363-1395 | every seat is reset with its hand kept, and a player not in the rotation is left alone |
| Round.ReturnAllEffects | js/game.js:1384 | with each seat once in the rotation, the effect deck gains exactly the unlocked played effect cards, in seat order |
| Round.RefillTakes | js/game.js:1408-1409 | a refill appends as many cards as needed while the deck lasts, taken from the top of the deck |
| Round.RefillKeeps | js/game.js:1408-1409 | a refill moves cards from the deck to the hand without losing or making any |
| Round.CountKinds | js/game.js:1406-1407 | `hand.filter(c => c.type === ...)` counts the cards of each kind |
| Round.RefillCount | js/game.js:1408-1409 | from a deck of one kind, a refill adds the drawn number of cards of that kind and none of any other |
| Round.FillCounts | js/game.js:1406-1409 | a hand is refilled up to three value cards and two effect cards while the decks last |
| Round.FillKeepsCards | js/game.js:1406-1409 | refilling a hand moves cards from the decks to the hand without losing or making any |
| Round.DealOneFills | js/game.js:1403-1410 | an eliminated player is skipped; a player in play gets its refill and nothing else changes |
| Round.MirrorRepeatsIds | js/game.js:1412-1416 | the Inversus's deep copy repeats the human's hand card for card, ids included |
| Round.Start | js/game.js:1362-1416 | the state the field effects start from keeps the set of players |
| Round.Restock | js/game.js:1362-1416 | the two loops, the two shuffles and the mirror leave players and decks as the round-start specification computes |
| Round.ClearRound | js/game.js:1350-1360 | Reversus Total, field effects, revealed hands, passes, obscured cards and the per-round ability flags are cleared |
| Round.Begin | js/game.js:1421-1427 | play begins with no card played and the round snapshot is a copy of the state |
| Round.Gathered | js/game.js:1342-1348 | the start-of-round collisions keep the set of players |
| Round.CollisionsKeepColors | js/game.js:1318-1331 | a collision never breaks the board's coloring rule |
| Round.OpenRound | js/game.js:1350-1427 | the round proper: the seats and effect deck are those the deal computes; the field effects, the obscured flag and the Contravox uses are those firing the field effects computes from the dealt seats; the event is the one the field effects raised; play is under way with the round flags cleared and the snapshot taken |
| Round.Prepare | js/game.js:1350-1416 | the flags are cleared, the field-effect records and revealed hands emptied, the human's cards shown, and the cards returned, shuffled and dealt as the round-start specification computes |
| Round.Launch | js/game.js:1419-1427 | the state shows what firing the field effects computes (Contravox's obscured flag and uses included), the event is the one raised, the effect deck is kept, and a round whose flags were cleared is under way with the snapshot taken |
| Round.FireField | js/game.js:1419 | the seats, board, decks, records, hearts and phase become those firing every seat's space computes; Contravox obscures the human's cards and spends a use exactly when the specification says so; the event is the one raised; the effect deck and cleared flags are kept |
| Round.StartNewRound | js/game.js:1339-1432 | after game over nothing changes; otherwise the turn count grows except in the first round; the round halts exactly when a final-battle collision catches the human, and then the seats, board and Versatrix flag are those the collisions left and every other field it may write is unchanged; otherwise the state shows the round start computed from the seats, board and Versatrix flag the collisions left (`Opening`), the effect deck is the dealt one, play is under way, and the outcome carries the raised event and whether the human plays first |
| Round.Open | js/game.js:1350-1432 | from the state the collisions left, the round start shows what `Opening` computes, play is under way and the outcome records the event and whether the human plays first |
| Round.Announced | js/game.js:1421-1432 | a state that shows the round start and is under way, with the outcome built from the event and the current player, is a begun round |
| Round.Fired | js/game.js:1419 | firing the field effects from a field: every seat's space in rotation order, then Contravox's obscuring and its use |
| Round.Opening | js/game.js:1350-1419 | the round start as values: the deal (`Start`), then the field effects fired from no records, no revealed hands and the human's cards in view |
| Round.FiredGrows | js/game.js:1419 | firing keeps the seats and the value deck, only adds revealed hands and field-effect records, never re-enables Versatrix's power nor restores a heart, and spends one Contravox use exactly when it obscures |
| Round.OpeningDeals | js/game.js:1350-1419 | the round start keeps the seats, leaves the value deck the deal left, keeps a disabled power disabled, never restores a heart, and obscures exactly when it spends a Contravox use |
| Round.ReturnOne | js/game.js:1363-1395 | one seat of the first loop: the old resto back to the value deck after the first round, the next resto chosen, played value and unlocked effect cards returned, effects, flags and Pula target cleared, and the pawn off its path in the Inversus mode |
| Round.Reset | js/game.js:1363-1395 | what a reset seat looks like: no played value card, only locked effect cards, no effects, no pending resto, no value card played |
| Round.Refill | js/game.js:1408-1409 | the inner `for`: pops one card from the deck onto the hand per needed card while the deck lasts |
| Round.Fill | js/game.js:1406-1409 | the value refill up to three value cards, then the effect refill up to two effect cards, both counted on the hand as it was |
| Round.Gather | js/game.js:1342-1348 | the turn count, and the seats, board and Versatrix flag as the final battle's start-of-round collisions leave them, with the loss flag exactly when the human is caught |
| Board.Blank | js/game.js:78-80 | a fresh path has BOARD_SIZE spaces numbered 1 upward, all white, without effect and unused |
| Board.Plan | js/game.js:87-124 | a path receives at most five paints |
| Board.Holes | js/game.js:88-95 | black holes only in the final battle, one or two as drawn, all black |
| Board.BlueOrRed | js/game.js:101-110 | each blue/red paint carries a positive effect when blue and a negative one when red, and is never blue in the Reversum battle |
| Board.BlueRed | js/game.js:98 | one blue/red space in the final battle and COLORED_SPACES_PER_PATH otherwise |
| Board.BlueRedRun | js/game.js:99-113 | the first n blue/red paints, each drawn as its own index says |
| Board.Yellows | js/game.js:116-124 | one yellow space in the Versatrix battle and in the final battle and none otherwise |
| Board.OwnerOf | js/game.js:126 | a path belongs to the i-th master player id when there is one and to no one otherwise |
| Board.Painted | js/game.js:90-123 | painting keeps the length of the row |
| Board.ShuffledInRow | js/game.js:83-84 | every shuffled colourable id names one of spaces 2 to 8 |
| Board.PaintedNext | js/game.js:99-113 | laying one more paint changes only the space its shuffled id names |
| Board.PaintedAppend | js/game.js:85-123 | laying two runs of paints one after the other is laying their concatenation with the shared running index |
| Board.PlanAt | js/game.js:87-124 | the n-th paint is black among the holes then blue/red then yellow |
| Board.PaintKind | js/game.js:103-121 | a paint carries a field effect exactly when it is blue or red |
| Board.PathOf | js/game.js:77-128 | the i-th path has id i and its master owner and BOARD_SIZE spaces |
| Board.LayHoles | js/game.js:88-95 | the loop lays the black holes on the first shuffled ids and advances the running index past them |
| Board.LayBlueRed | js/game.js:97-113 | the loop lays the blue/red spaces on the next shuffled ids and advances the running index past them |
| Board.GeneratePath | js/game.js:78-127 | one generated path is the specified path for its draws |
| Board.GenerateBoardPaths | js/game.js:72-130 | NUM_PATHS paths and path i is the specified path for its own draws |
| Board.PaintedAt | js/game.js:99-113 | with distinct shuffled ids the space painted k-th shows the k-th paint |
| Board.Unpainted | js/game.js:85-123 | a space no paint was laid on keeps what it was |
| Board.GoldenRule | js/game.js:82-83 | spaces 1 and 9 of a generated path are never coloured |
| Board.PaintLands | js/game.js:85-123 | the k-th paint lands on a space between 2 and 8 that was blank before |
| Board.OthersBlank | js/game.js:78-80 | every space no paint was assigned to stays white without effect |
| Board.PathWellColored | js/game.js:97-123 | in a generated path exactly the blue and red spaces carry a field effect |
| Board.BoardWellColored | js/game.js:72-130 | the board generateBoardPaths returns obeys the colour rule on every path |
| Board.PlanShape | js/game.js:87-124 | the paints are the holes then the blue/red spaces with effects of the right sign then the yellow and never blue in the Reversum battle |
| Board.NeutralizePath | js/game.js:1325-1330 | one path with its yellow spaces whitened and nothing else changed |
| Board.NeutralizeYellow | js/game.js:1324-1331 | the board with every yellow space whitened |
| Board.WhitenedBoard | js/story-abilities.js:238-245 | after neutralising no yellow space remains; yellow spaces become white without effect and every other space and path attribute is kept; the colour rule is preserved |
| Board.WhitenIdempotent | js/game.js:1324-1331 | neutralising twice is the same as once |
| Ai.PlaysAppend | js/game.js:683 | the value and effect plays of a plan add up over its parts |
| Ai.PlaysCounts | js/game.js:683 | a plan holds a play of a card type exactly when some action plays a card of that type |
| Ai.FindMirror | js/game.js:670 | the mirror card is an unqueued effect card of the hand with player 1's card's name, and none is found only when every such card is queued |
| Ai.MatchValue | js/game.js:690 | the matched card is a value card of the hand with player 1's last value, and none is found only when no value card has that value |
| Ai.InversusValueCount | js/game.js:679-699 | the Inversus value rule queues one value card exactly when none was played this turn, two or more are held and none is queued yet |
| Ai.SidesOf | js/game.js:705-715 | the team are seated players and the opponents are seated players outside the team |
| Ai.Front | js/game.js:756-757 | the highest position of a list of players and none for the empty list |
| Ai.ValueChoice | js/game.js:752-765 | one value card from the hand exactly when none was played this turn and two or more are held; the highest unless the team trails by 3 or more and the AI is not aggressive and the lowest then |
| Ai.Leader | js/game.js:769-777 | the opponent at the front and none only when there are no opponents |
| Ai.Weakest | js/game.js:785 | the team member with the lowest live score among those not yet under the helpful effect and none only when all are |
| Ai.FirstMarked | js/game.js:819-828 | `find` over the listed players: the player found is under a helpful (or harmful) effect and nobody listed before it is; none only when no one is |
| Ai.LockTarget | js/game.js:833 | `find` over the opponents: the one found is winning under the helpful score effect with its Mais not locked, nobody listed before it is, and none only when there is no such opponent |
| Ai.Lockable | js/game.js:833 | the lock test: winning, under the helpful score effect, and no locked Mais in play |
| Ai.Reddest | js/game.js:814 | a path with the most unused red spaces |
| Ai.PathIds | js/game.js:807 | the occupied path ids list each seated player's path id, in seat order and nothing else |
| Ai.Unoccupied | js/game.js:808 | exactly the paths no seated player stands on |
| Ai.PulaPaths | js/game.js:801-809 | the final Necroverso gets every path of the board; other AIs get exactly the paths of the board no seated player stands on |
| Ai.Aiming | js/game.js:782-798 | a helpful score or movement card goes to a team member not yet under it and a harmful one to the leader not yet under it |
| Ai.PulaPick | js/game.js:799-817 | Pula targets the leader and names an allowed path with the most unused red spaces and neither when no path is allowed |
| Ai.ReversusPick | js/game.js:818-830 | Reversus goes to the first team member under a harmful effect when there is one, and otherwise to the first opponent under a helpful one, and names a category |
| Ai.TotalPick | js/game.js:831-848 | Reversus Total locks exactly when some opponent can be locked, and then the first such opponent; otherwise it targets the AI itself only when the tally favours its team |
| Ai.PickFor | js/game.js:780-849 | the target of each effect card as the switch on its name chooses it (Reversus with the same priority as `ReversusPick`); no score card after NECRO X; value and Necro cards get no target |
| Ai.Forced | js/game.js:868-878 | the mandatory play puts the lowest value card in front exactly when the plan lacks a value play that is due and changes nothing else |
| Ai.Decide | js/game.js:651-862 | `getAiTurnDecision`: the Inversus branch for the Inversus AI, the branch of the other AIs for everyone else |
| Ai.InversusDecision | js/game.js:658-696 | the Inversus ability alone when it is off and the roll allows it; otherwise the mirrored effect cards, then the value rule |
| Ai.Others | js/game.js:700-862 | the sides, the queued Reversum ability, NECRO X and value card, then the effect loop unless the Reversum ability was just queued |
| Ai.Gain | js/game.js:724-737 | the tally over the seats: a team member's change counts for the AI and an opponent's against it |
| Ai.ReversumFires | js/game.js:723-741 | Reversum uses its ability when it is off, unused this round, outside the king battle, and the flip would gain |
| Ai.NecroXFires | js/game.js:745-750 | the final Necroverso uses NECRO X with a resto of 8 or more, once a round, on its roll, when its score effect is none or the harmful one |
| Ai.EffectLoop | js/game.js:779-859 | the `for` over the effect cards, one step per card in hand order, starting from the queued actions |
| Ai.Step | js/game.js:780-858 | one card: its pick chooses a Pula path when it names one, and the card is queued when it has a target and no effect card is queued yet |
| Ai.SumGain | js/game.js:725-737 | the loop's total is the tally of the seats |
| Ai.CopyEffects | js/game.js:667-677 | the loop queues the mirrored effect plays |
| Ai.PlayEffects | js/game.js:779-853 | the loop computes the effect loop's decision |
| Ai.DecideInversus | js/game.js:658-702 | the method computes the Inversus branch |
| Ai.DecideOthers | js/game.js:705-855 | the method computes the branch of the other AIs |
| Ai.GetAiTurnDecision | js/game.js:651-856 | the method computes the decision from what it reads of the game state |
| Ai.EffectLoopCards | js/game.js:779-853 | the loop keeps what was queued before it and adds only plays of its own effect cards |
| Ai.EffectLoopOnce | js/game.js:850-852 | the loop queues at most one effect card and none once one is queued |
| Ai.EffectLoopNoValue | js/game.js:767-853 | the effect loop adds no value play |
| Ai.AbilitiesFirst | js/game.js:740-748 | ability actions ahead of the plan change none of its card plays |
| Ai.QueuePlays | js/game.js:723-765 | before the effect loop nothing plays an effect card and the only card play is the value choice |
| Ai.OneValuePlay | js/game.js:763 | a queue of at most one value play counts it once and holds no effect play |
| Ai.AtMostOneEffectPlay | js/game.js:850-852 | an AI other than Inversus queues at most one effect card |
| Ai.ValuePlayOfDecision | js/game.js:752-765 | an AI other than Inversus queues exactly one value play when one is due and it is the value choice |
| Ai.MirrorDistinct | js/game.js:667-677 | the mirrored plays are effect cards of the AI's hand and none is queued twice |
| Ai.InversusValuePlays | js/game.js:658-702 | the Inversus AI queues one value play exactly when it does not use its ability and a value play is due |
| Ai.ForcedOnlyAfterInversusAbility | js/game.js:858-878 | the mandatory play adds a card exactly when the Inversus AI used its ability while a value play was due |
| Ai.OthersPlayFromHand | js/game.js:705-855 | every card an AI other than Inversus plays comes from its hand |
| Ai.PlaysFromHand | js/game.js:651-856 | every card the decision plays comes from the AI's hand |

## Left out

- Rendering, animations, modals, sound, music and the team-score HTML are presentation only.
- js/ui-handlers.js is event wiring and is not part of this model. Its two guards are kept: the must-play-value rule is a precondition of `Turn.AdvanceToNextPlayer`, and the empty-path rule for a human's Pula is a precondition of `Play.PlayCard`.
- js/animations.js is not part of this model. It is purely visual.
- js/save-load.js is not part of this model. It is storage I/O.
- `updateGameTimer` reads the wall clock and is left out. The speed-run time that `endGameCheck` compares is a parameter.
- Timers and `await` pacing are left out. Each asynchronous step runs to completion and returns its continuation instead of calling it.
- The text of log messages written by engine operations is not modelled. `updateLog` itself is modelled.
- Achievements and the story win/loss events become returned outcome values.
- `initializeGame`, configuration overrides and `setupPvpRooms` are game-setup glue and are left out.
- config.js is not part of this model. Its constants are assumed:
  - BOARD_SIZE 9, WINNING_POSITION 10 and NUM_PATHS 6;
  - COLORED_SPACES_PER_PATH 2;
  - MAX_VALUE_CARDS_IN_HAND 3 and MAX_EFFECT_CARDS_IN_HAND 2;
  - TEAM_A [1, 3] and TEAM_B [2, 4];
  - player ids 1 to 4.
- The effect name lists are parameters (the POSITIVE_EFFECTS and NEGATIVE_EFFECTS keys).
- ui.js, sound.js, state.js and the dialogue text are not part of this model. Dialogue lines are parameters.
- `Object.values(gameState.players)` is taken to iterate in seat order.
- Card ids are built from the clock and `Math.random` floats. They are abstract naturals here.
- The round snapshot is a JSON deep copy in the source. Here it is a plain value copy.
- `Array.prototype.sort` is modelled only as far as the code uses its result: the first or last element of the sorted list, with ties kept in list order.
- Story.Trade: a trade naming a player who is not seated is a no-op here. The source would throw on the missing hand.
- Ai.Forced: the branch of `executeAiTurn` that advances to the next player when no value card exists is unreachable once two value cards are held, so it is not modelled.
- Ai.Others: `pulaPathChoice` is recorded whenever a Pula target is found, even when another effect card was already queued. This is as written at js/game.js:814.
- Ai.InversusDecision: the mirror branch may queue several effect plays, one per card of player 1. The at-most-one guard of js/game.js:850 is only in the other branch.
- Round.Mirror: when player 1 or player 2 is not seated, mirroring does nothing. The source would throw.
- Source quirks are modelled as written:
  - no visible code sets `isIndividualLock` on a card, so an individual-lock Reversus Total acts globally in `applyEffect`;
  - Total Revesus Nada discards effect cards without returning them to the effect deck;
  - Troca Injusta in duo mode performs a 'justa' trade;
  - in the final battle a position past either end resets to 1;
  - losers are listed twice in the team, one-against-three and final-battle branches;
  - the Carta Menor/Maior card is popped straight back from the deck.
