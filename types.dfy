/** The data model of the game engine: cards, players, board spaces, field
    effects and the constants the engine reads from its configuration. */
module Types {

  datatype Option<+T> = None | Some(value: T)

  /** Player 'player-N' is the number N. */
  type PlayerId = nat

  /** 'player-1' is the human seat in every mode. */
  const PLAYER1: PlayerId := 1
  const MASTER_PLAYER_IDS: seq<PlayerId> := [1, 2, 3, 4]
  /** Blue/green team (the human and player 3) and red/yellow team. */
  const TEAM_A: seq<PlayerId> := [1, 3]
  const TEAM_B: seq<PlayerId> := [2, 4]
  /** The Necroverso cluster of the one-against-three king battle. */
  const NECRO_IDS: seq<PlayerId> := [2, 3, 4]

  /** Board and hand constants of the configuration. */
  const BOARD_SIZE: int := 9
  const WINNING_POSITION: int := 10
  const NUM_PATHS: nat := 6
  const COLORED_SPACES_PER_PATH: nat := 2
  const MAX_VALUE_CARDS_IN_HAND: int := 3
  const MAX_EFFECT_CARDS_IN_HAND: int := 2
  /** Most recent messages kept by the game log. */
  const LOG_CAPACITY: nat := 50

  datatype CardType = ValueCard | EffectCard

  /** A card's printed name: the number of a value card, or an effect. */
  datatype Name =
    | Num(n: int)
    | Mais | Menos | Sobe | Desce | Pula
    | Reversus | ReversusTotal
    | NecroX | NecroXInvertido

  /** The two effect slots of a player, which a reversal names. */
  datatype Category = ScoreCat | MovementCat

  /** A card. `value` is 0 for effect cards (the engine reads `value || 0`).
      `casterId`, `isLocked` and `reversedEffectType` are set when the card is
      played; `isIndividualLock` is the flag the reversal logic tests. */
  datatype Card = Card(
    id: nat,
    ctype: CardType,
    name: Name,
    value: int,
    casterId: Option<PlayerId>,
    isLocked: bool,
    isIndividualLock: bool,
    reversedEffectType: Option<Category>)

  /** The score effect and the movement effect in force on a player. */
  datatype Effects = Effects(score: Option<Name>, movement: Option<Name>)

  datatype AiType =
    | DefaultAi | InversusAi | ReversumAi | NecroversoFinalAi
    | NecroversoTutorialAi | VersatrixAi | ContravoxAi | OtherAi

  datatype Status = Neutral | Winning | Losing

  /** A player; its id is the key under which the game state stores it. */
  datatype Player = Player(
    isHuman: bool,
    aiType: AiType,
    hand: seq<Card>,
    resto: Option<Card>,
    nextResto: Option<Card>,
    effects: Effects,
    playedValue: seq<Card>,
    playedEffect: seq<Card>,
    playedValueCardThisTurn: bool,
    isEliminated: bool,
    status: Status,
    liveScore: int,
    hearts: int,
    pathId: int,
    position: int,
    targetPathForPula: Option<nat>)

  datatype Color = White | Blue | Red | Yellow | Black
  {
    /** Blue and red spaces are the ones that carry a field effect. */
    predicate Tinted() { this == Blue || this == Red }
  }

  /** Names of the field effects the engine tests; the others are `OtherField`. */
  datatype FieldName =
    | Imunidade | RestoMaior | RestoMenor | SuperExposto
    | Parada | Desafio | Impulso | Castigo
    | CartaMenor | CartaMaior | JogoAberto | TrocaJusta | TrocaInjusta
    | TotalRevesusNada
    | OtherField(code: nat)

  datatype Space = Space(id: nat, color: Color, effectName: Option<FieldName>, isUsed: bool)

  datatype BoardPath = BoardPath(id: nat, playerId: Option<PlayerId>, spaces: seq<Space>)

  datatype FieldEffectType = Positive | Negative

  datatype FieldEffect = FieldEffect(name: FieldName, appliesTo: PlayerId, ftype: FieldEffectType)

  datatype Mode = Solo | Duo | InversusMode

  datatype BattleType = NoBattleType | King1v3 | OtherBattleType

  datatype Battle =
    | ContravoxBattle | VersatrixBattle | ReversumBattle
    | NecroversoKingBattle | NecroversoFinalBattle | OtherBattle(code: nat)

  datatype Phase =
    | Setup | Playing | Paused | Resolution | FieldEffectPhase
    | FieldEffectTargeting | GameOverPhase

  /** Why a story battle was lost. */
  datatype LossReason = Collision | BlackHole | TimeUp

  /** The story-mode terminal event `{battle, won, reason}`. */
  datatype StoryEvent = StoryWinLoss(battle: Battle, won: bool, reason: Option<LossReason>)

  function IdsOf(cards: seq<Card>): seq<nat>
  {
    if cards == [] then [] else [cards[0].id] + IdsOf(cards[1..])
  }

  predicate Distinct<T(==)>(s: seq<T>)
  {
    forall i, j :: 0 <= i < j < |s| ==> s[i] != s[j]
  }
}
