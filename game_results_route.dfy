/**
 * `POST /` of the game-results route: a body missing a required field or carrying
 * an unusable game id is refused with a 400 before anything is stored; otherwise
 * the record to insert copies the body's fields.  `ObjectId.isValid` is a parameter.
 */
module ResultsRoute {
  import opened Wrappers
  import opened Requests

  datatype ResultBody = ResultBody(
    userId: Field,
    gameId: Field,
    gameTitle: Field,
    gameType: Field,
    score: Field,
    mistakes: Field,
    timeElapsed: Field,
    completedAt: Field)

  /** When the result was completed: the date built from the body, or the server's clock. */
  datatype CompletedAt = FromBody(value: Json) | ServerClock(now: int)

  /** The inserted document; `gameId` is the body's id turned into an `ObjectId`. */
  datatype StoredResult = StoredResult(
    userId: Json,
    gameId: Json,
    gameTitle: Field,
    gameType: Field,
    score: Json,
    mistakes: Json,
    timeElapsed: Json,
    completedAt: CompletedAt)

  const MissingFields := "Dados obrigatórios faltando."

  /** The first check: ids must be truthy, the three counters only not null or undefined. */
  predicate HasRequired(body: ResultBody)
  {
    !Falsy(body.userId) && !Falsy(body.gameId)
    && !Nullish(body.score) && !Nullish(body.mistakes) && !Nullish(body.timeElapsed)
  }

  /** The handler up to the insert; `now` is the server clock. */
  function Handle(body: ResultBody, isValid: Json -> bool, now: int): (r: Reply<StoredResult>)
    ensures r == BadRequest(MissingFields) <==> !HasRequired(body)
    ensures r == BadRequest(InvalidGameId) <==> HasRequired(body) && !isValid(body.gameId.value)
    ensures r.Ok? <==> HasRequired(body) && isValid(body.gameId.value)
    ensures r.Ok? ==>
      && Some(r.value.userId) == body.userId && Some(r.value.gameId) == body.gameId
      && r.value.gameTitle == body.gameTitle && r.value.gameType == body.gameType
      && Some(r.value.score) == body.score && Some(r.value.mistakes) == body.mistakes
      && Some(r.value.timeElapsed) == body.timeElapsed
    ensures r.Ok? ==>
      (r.value.completedAt == if Falsy(body.completedAt) then ServerClock(now) else FromBody(body.completedAt.value))
  {
    if !HasRequired(body) then
      BadRequest(MissingFields)
    else if !isValid(body.gameId.value) then
      BadRequest(InvalidGameId)
    else
      Ok(StoredResult(
        body.userId.value, body.gameId.value, body.gameTitle, body.gameType,
        body.score.value, body.mistakes.value, body.timeElapsed.value,
        if Falsy(body.completedAt) then ServerClock(now) else FromBody(body.completedAt.value)))
  }

  /** A result with no points, no mistakes and no elapsed time is still stored. */
  lemma ZeroCountersAccepted(body: ResultBody, isValid: Json -> bool, now: int)
    requires !Falsy(body.userId) && !Falsy(body.gameId) && isValid(body.gameId.value)
    requires body.score == Some(JNum(0)) && body.mistakes == Some(JNum(0)) && body.timeElapsed == Some(JNum(0))
    ensures Handle(body, isValid, now).Ok?
    ensures Handle(body, isValid, now).value.score == JNum(0)
  {
  }

  /** A falsy user or game id is refused whatever the counters hold. */
  lemma FalsyIdsRefused(body: ResultBody, isValid: Json -> bool, now: int)
    requires Falsy(body.userId) || Falsy(body.gameId)
    ensures Handle(body, isValid, now) == BadRequest(MissingFields)
  {
  }
}
