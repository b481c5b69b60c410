/**
 * The shared-games route: `POST /` records a share of a game, `GET /` lists the
 * shares of one user.  `ObjectId.isValid` is a parameter; the insert and the query
 * themselves are storage and are left to the caller.
 */
module SharesRoute {
  import opened Wrappers
  import opened Lists
  import opened Requests

  datatype ShareBody = ShareBody(
    userId: Field,
    gameId: Field,
    gameTitle: Field,
    gameType: Field,
    shareCode: Field,
    shareLink: Field)

  /** The inserted document; a `gameId` of `None` is stored as `null`. */
  datatype ShareRecord = ShareRecord(
    userId: Json,
    gameId: Option<Json>,
    gameTitle: Json,
    gameType: Json,
    shareCode: Json,
    shareLink: Json,
    createdAt: int,
    accessCount: nat)

  const MissingUserId := "userId é obrigatório."

  /** A destructuring default `= ''`: it applies to `undefined` only, so `null` passes through. */
  function OrEmpty(v: Field): (j: Json)
    ensures v.None? ==> j == JStr("")
    ensures v.Some? ==> j == v.value
  {
    if v.None? then JStr("") else v.value
  }

  /** `POST /` up to the insert; `now` is the server clock. */
  function Post(body: ShareBody, isValid: Json -> bool, now: int): (r: Reply<ShareRecord>)
    ensures r.BadRequest? <==> !Falsy(body.gameId) && !isValid(body.gameId.value)
    ensures r.BadRequest? ==> r.message == InvalidGameId
    ensures r.Ok? ==>
      && r.value.userId == OrEmpty(body.userId) && r.value.gameTitle == OrEmpty(body.gameTitle)
      && r.value.gameType == OrEmpty(body.gameType) && r.value.shareCode == OrEmpty(body.shareCode)
      && r.value.shareLink == OrEmpty(body.shareLink)
      && (Falsy(body.gameId) <==> r.value.gameId.None?)
      && (r.value.gameId.Some? ==> Some(r.value.gameId.value) == body.gameId)
      && r.value.createdAt == now && r.value.accessCount == 0
  {
    if !Falsy(body.gameId) && !isValid(body.gameId.value) then
      BadRequest(InvalidGameId)
    else
      Ok(ShareRecord(
        OrEmpty(body.userId),
        if Falsy(body.gameId) then None else body.gameId,
        OrEmpty(body.gameTitle), OrEmpty(body.gameType),
        OrEmpty(body.shareCode), OrEmpty(body.shareLink),
        now, 0))
  }

  /** A share without a game id is always accepted, and stores a null id. */
  lemma AbsentGameIdAccepted(body: ShareBody, isValid: Json -> bool, now: int)
    requires body.gameId.None?
    ensures Post(body, isValid, now).Ok? && Post(body, isValid, now).value.gameId.None?
  {
  }

  /** `GET /?userId=…`: the query parameter is absent or a string. */
  function List(userId: Option<string>, shares: seq<ShareRecord>): (r: Reply<seq<ShareRecord>>)
    ensures r.BadRequest? <==> userId.None? || userId.value == ""
    ensures r.BadRequest? ==> r.message == MissingUserId
    ensures r.Ok? ==>
      && (forall i :: 0 <= i < |r.value| ==> r.value[i] in shares && r.value[i].userId == JStr(userId.value))
      && (forall i :: 0 <= i < |shares| && shares[i].userId == JStr(userId.value) ==> shares[i] in r.value)
  {
    if userId.None? || userId.value == "" then BadRequest(MissingUserId)
    else Ok(Filter(shares, (s: ShareRecord) => s.userId == JStr(userId.value)))
  }

  /** A share posted with a user id shows up in that user's listing. */
  lemma PostedShareListed(body: ShareBody, isValid: Json -> bool, now: int, shares: seq<ShareRecord>, u: string)
    requires u != "" && body.userId == Some(JStr(u))
    requires Post(body, isValid, now).Ok?
    ensures Post(body, isValid, now).value in List(Some(u), shares + [Post(body, isValid, now).value]).value
  {
    var rec := Post(body, isValid, now).value;
    assert (shares + [rec])[|shares|] == rec;
  }
}
