/** The game state store: one mutable object owned by the engine, with one
    field per entry of the game state the core reads or writes. */
module State {
  import opened Types

  /** A plain value copy of the game state, taken when a round starts so that
      the round can be rolled back. */
  datatype Snapshot = Snapshot(
    players: map<PlayerId, Player>,
    playerIdsInGame: seq<PlayerId>,
    valueDeck: seq<Card>,
    effectDeck: seq<Card>,
    boardPaths: seq<BoardPath>,
    gamePhase: Phase,
    currentPlayer: PlayerId,
    turn: int,
    reversusTotalActive: bool,
    activeFieldEffects: seq<FieldEffect>,
    revealedHands: seq<PlayerId>,
    consecutivePasses: int,
    playedAnyCardThisTurn: bool,
    necroversoHearts: int,
    contravoxAbilityUses: int,
    versatrixPowerDisabled: bool,
    log: seq<string>,
    spokenLines: set<string>)

  class GameState {
    var players: map<PlayerId, Player>
    var playerIdsInGame: seq<PlayerId>
    var valueDeck: seq<Card>
    var effectDeck: seq<Card>
    var boardPaths: seq<BoardPath>
    var gamePhase: Phase
    var gameMode: Mode
    var isStoryMode: bool
    var isInversusMode: bool
    var isFinalBoss: bool
    var necroversoHearts: int
    var currentStoryBattle: Option<Battle>
    var storyBattleType: BattleType
    var currentPlayer: PlayerId
    var reversusTotalActive: bool
    var inversusTotalAbilityActive: bool
    var turn: int
    // pending human selection
    var selectedCard: Option<Card>
    var reversusTarget: Option<PlayerId>
    var pulaTarget: Option<PlayerId>
    var reversusTotalIndividualFlow: bool
    var log: seq<string>
    var activeFieldEffects: seq<FieldEffect>
    var revealedHands: seq<PlayerId>
    var consecutivePasses: int
    var playedAnyCardThisTurn: bool
    var initialDrawCards: Option<map<PlayerId, Card>>
    var contravoxAbilityUses: int
    var versatrixSwapActive: bool
    var versatrixPowerDisabled: bool
    var reversumAbilityUsedThisRound: bool
    var necroXUsedThisRound: bool
    var player1CardsObscured: bool
    var spokenLines: set<string>
    var roundStartStateSnapshot: Option<Snapshot>

    /** The players object is keyed by exactly the ids in the game, and the
        turn rotation names each of them once. */
    ghost predicate Valid()
      reads this
    {
      && Distinct(playerIdsInGame)
      && (forall id :: id in players <==> id in playerIdsInGame)
    }

    constructor (ids: seq<PlayerId>, roster: map<PlayerId, Player>, paths: seq<BoardPath>,
                 values: seq<Card>, effects: seq<Card>, mode: Mode)
      requires Distinct(ids)
      requires forall id :: id in roster <==> id in ids
      ensures Valid()
      ensures players == roster && playerIdsInGame == ids && boardPaths == paths
      ensures valueDeck == values && effectDeck == effects && gameMode == mode
      ensures gamePhase == Setup && turn == 1 && currentPlayer == PLAYER1
      ensures !reversusTotalActive && consecutivePasses == 0 && activeFieldEffects == []
    {
      players := roster;
      playerIdsInGame := ids;
      valueDeck := values;
      effectDeck := effects;
      boardPaths := paths;
      gamePhase := Setup;
      gameMode := mode;
      isStoryMode := false;
      isInversusMode := mode == InversusMode;
      isFinalBoss := false;
      necroversoHearts := 3;
      currentStoryBattle := None;
      storyBattleType := NoBattleType;
      currentPlayer := PLAYER1;
      reversusTotalActive := false;
      inversusTotalAbilityActive := false;
      turn := 1;
      selectedCard := None;
      reversusTarget := None;
      pulaTarget := None;
      reversusTotalIndividualFlow := false;
      log := [];
      activeFieldEffects := [];
      revealedHands := [];
      consecutivePasses := 0;
      playedAnyCardThisTurn := false;
      initialDrawCards := None;
      contravoxAbilityUses := 3;
      versatrixSwapActive := false;
      versatrixPowerDisabled := false;
      reversumAbilityUsedThisRound := false;
      necroXUsedThisRound := false;
      player1CardsObscured := false;
      spokenLines := {};
      roundStartStateSnapshot := None;
    }

    /** The value copy stored as the round-start snapshot. A JSON round trip
        turns the Set of spoken lines into an empty object, so the copy has
        no spoken lines. */
    function Copy(): (s: Snapshot)
      reads this`players, this`playerIdsInGame, this`valueDeck, this`effectDeck, this`boardPaths,
            this`gamePhase, this`currentPlayer, this`turn, this`reversusTotalActive,
            this`activeFieldEffects, this`revealedHands, this`consecutivePasses,
            this`playedAnyCardThisTurn, this`necroversoHearts, this`contravoxAbilityUses,
            this`versatrixPowerDisabled, this`log
      ensures s.players == players && s.valueDeck == valueDeck && s.effectDeck == effectDeck
      ensures s.spokenLines == {}
    {
      Snapshot(players, playerIdsInGame, valueDeck, effectDeck, boardPaths, gamePhase,
               currentPlayer, turn, reversusTotalActive, activeFieldEffects, revealedHands,
               consecutivePasses, playedAnyCardThisTurn, necroversoHearts,
               contravoxAbilityUses, versatrixPowerDisabled, log, {})
    }
  }
}
