/**
 * The session shell around one game: it picks the variant for the game's type,
 * counts mistakes live, and on completion records the final score, mistakes and
 * elapsed time in the results store; a restart starts a fresh session.
 */
module Player {
  import opened Wrappers
  import opened Content
  import opened Clock

  datatype PlayState = Playing | Finished

  /** One entry of the `gameResults` store. */
  datatype ResultRecord = ResultRecord(
    id: int,
    userId: nat,
    gameId: nat,
    gameTitle: string,
    gameType: string,
    score: int,
    mistakes: int,
    timeElapsed: int,
    completedAt: string)

  /** What `renderGame` shows for a game type. */
  datatype Variant = MemoryVariant | AssociationVariant | QuizVariant | Unsupported

  /** `renderGame`'s switch: three supported types; anything else, `guess-term` included, is unsupported. */
  function Dispatch(gameType: string): (v: Variant)
    ensures v == MemoryVariant <==> gameType == "memory"
    ensures v == AssociationVariant <==> gameType == "association"
    ensures v == QuizVariant <==> gameType == "quiz"
    ensures v == Unsupported <==> gameType != "memory" && gameType != "association" && gameType != "quiz"
  {
    match gameType
    case "memory" => MemoryVariant
    case "association" => AssociationVariant
    case "quiz" => QuizVariant
    case _ => Unsupported
  }

  /** The guess-the-term variant has no case in the switch. */
  lemma GuessTermUnsupported()
    ensures Dispatch("guess-term") == Unsupported
  {
    assert "guess-term" != "memory" && "guess-term" != "association" && "guess-term" != "quiz";
  }

  class GamePlayer {
    const game: Game
    const userId: nat
    var gameState: PlayState
    var score: int
    var timeElapsed: int
    var mistakes: int
    var startTime: Option<int>
    /** The `gameResults` store. */
    var savedResults: seq<ResultRecord>

    /** Mounting: a playing session with zeroed counters, started at `now` by the mount effect. */
    constructor (game: Game, userId: nat, savedResults: seq<ResultRecord>, now: int)
      ensures this.game == game && this.userId == userId && this.savedResults == savedResults
      ensures gameState == Playing && score == 0 && timeElapsed == 0 && mistakes == 0
      ensures startTime == Some(now)
    {
      this.game := game;
      this.userId := userId;
      this.savedResults := savedResults;
      gameState := Playing;
      score := 0;
      timeElapsed := 0;
      mistakes := 0;
      startTime := Some(now);
    }

    /** `onMistake`: the live counter rises by one. */
    method OnMistake()
      requires gameState == Playing
      modifies this`mistakes
      ensures mistakes == old(mistakes) + 1
    {
      mistakes := mistakes + 1;
    }

    /**
     * `handleGameComplete(finalScore, finalMistakes)` at time `now`: shows exactly the
     * reported values, finishes the session, and appends one record to the store.
     * `resultId` and `completedAt` are the clock readings the record is stamped with.
     */
    method HandleGameComplete(finalScore: int, finalMistakes: int, now: int, resultId: int, completedAt: string)
      returns (record: ResultRecord)
      requires gameState == Playing
      modifies this
      ensures record == ResultRecord(resultId, userId, game.id, game.title, game.gameType,
                                     finalScore, finalMistakes, ElapsedSeconds(old(startTime), now), completedAt)
      ensures savedResults == old(savedResults) + [record]
      ensures score == finalScore && mistakes == finalMistakes
      ensures timeElapsed == ElapsedSeconds(old(startTime), now)
      ensures gameState == Finished && startTime == old(startTime)
    {
      var totalTime := ElapsedSeconds(startTime, now);
      score := finalScore;
      mistakes := finalMistakes;
      timeElapsed := totalTime;
      gameState := Finished;
      record := ResultRecord(resultId, userId, game.id, game.title, game.gameType,
                             finalScore, finalMistakes, totalTime, completedAt);
      savedResults := savedResults + [record];
    }

    /** `handleRestart` (offered on the result screen): a fresh session started at `now`. */
    method HandleRestart(now: int)
      requires gameState == Finished
      modifies this
      ensures gameState == Playing && score == 0 && timeElapsed == 0 && mistakes == 0
      ensures startTime == Some(now) && savedResults == old(savedResults)
    {
      gameState := Playing;
      score := 0;
      timeElapsed := 0;
      mistakes := 0;
      startTime := Some(now);
    }
  }
}
