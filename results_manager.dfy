/**
 * The results page: the fetched results are narrowed to the current user's, sorted
 * newest first in place, and shown with a label for the game type and an `m:ss` time.
 */
module Results {
  import opened Wrappers
  import opened Lists

  /** A result as fetched; `completedAt` is the date's millisecond value. */
  datatype FetchedResult = FetchedResult(
    userId: nat,
    gameTitle: string,
    gameType: string,
    score: int,
    mistakes: int,
    timeElapsed: int,
    completedAt: int)

  /** `data.filter(result => result.userId === user.id)`. */
  function UserResults(data: seq<FetchedResult>, userId: nat): (r: seq<FetchedResult>)
    ensures |r| <= |data|
    ensures forall i :: 0 <= i < |r| ==> r[i] in data && r[i].userId == userId
    ensures forall i :: 0 <= i < |data| && data[i].userId == userId ==> data[i] in r
  {
    Filter(data, (x: FetchedResult) => x.userId == userId)
  }

  /** Completion times never increase along the list. */
  predicate NewestFirst(s: seq<FetchedResult>)
  {
    forall p, q :: 0 <= p < q < |s| ==> s[p].completedAt >= s[q].completedAt
  }

  /** Exchanges two neighbouring entries. */
  method SwapDown(a: array<FetchedResult>, j: int)
    requires 0 < j < a.Length
    modifies a
    ensures a[..] == old(a[..])[j - 1 := old(a[j])][j := old(a[j - 1])]
    ensures multiset(a[..]) == multiset(old(a[..]))
  {
    a[j - 1], a[j] := a[j], a[j - 1];
  }

  /** One insertion step: entry `i` moves left past every older entry before it. */
  method InsertNewest(a: array<FetchedResult>, i: int)
    requires 0 <= i < a.Length && NewestFirst(a[..i])
    modifies a
    ensures NewestFirst(a[..i + 1])
    ensures multiset(a[..]) == multiset(old(a[..]))
  {
    var j := i;
    while j > 0 && a[j - 1].completedAt < a[j].completedAt
      invariant 0 <= j <= i
      invariant forall p, q :: 0 <= p < q <= i && p != j && q != j ==> a[p].completedAt >= a[q].completedAt
      invariant forall q :: j < q <= i ==> a[j].completedAt > a[q].completedAt
      invariant multiset(a[..]) == multiset(old(a[..]))
    {
      SwapDown(a, j);
      j := j - 1;
    }
  }

  /**
   * `results.sort((a, b) => new Date(b.completedAt) - new Date(a.completedAt))`: an
   * insertion sort by neighbour swaps, so the array ends newest first and holds the
   * same results.
   */
  method SortNewestFirst(a: array<FetchedResult>)
    modifies a
    ensures NewestFirst(a[..])
    ensures multiset(a[..]) == multiset(old(a[..]))
  {
    var i := 0;
    while i < a.Length
      invariant 0 <= i <= a.Length
      invariant NewestFirst(a[..i])
      invariant multiset(a[..]) == multiset(old(a[..]))
    {
      InsertNewest(a, i);
      i := i + 1;
    }
    assert a[..a.Length] == a[..];
  }

  /** `getGameTypeLabel`: the four known types get their display names. */
  function GameTypeLabel(gameType: string): (shown: string)
    ensures gameType == "memory" ==> shown == "Memória"
    ensures gameType == "association" ==> shown == "Associação"
    ensures gameType == "quiz" ==> shown == "Quiz"
    ensures gameType == "guess-term" ==> shown == "Quem é?"
  {
    match gameType
    case "memory" => "Memória"
    case "association" => "Associação"
    case "quiz" => "Quiz"
    case "guess-term" => "Quem é?"
    case _ => gameType
  }

  /** A type is shown as it is exactly when it is none of the four known ones. */
  lemma LabelKeepsUnknown(gameType: string)
    ensures GameTypeLabel(gameType) == gameType <==>
      gameType != "memory" && gameType != "association" && gameType != "quiz" && gameType != "guess-term"
  {
    assert "Memória" != "memory" && "Associação" != "association";
    assert "Quiz" != "quiz" && "Quem é?" != "guess-term";
  }

  class ResultsManager {
    const userId: nat
    var results: seq<FetchedResult>
    var loading: bool

    constructor (userId: nat)
      ensures this.userId == userId && results == [] && loading
    {
      this.userId := userId;
      results := [];
      loading := true;
    }

    /**
     * The fetch effect: `response` is the fetched list, or none when the request or
     * its parsing fails.  Loading ends either way; on success the shown list is the
     * user's results, newest first.
     */
    method Load(response: Option<seq<FetchedResult>>)
      modifies this`results, this`loading
      ensures !loading
      ensures response.None? ==> results == old(results)
      ensures response.Some? ==>
        && NewestFirst(results)
        && multiset(results) == multiset(UserResults(response.value, userId))
        && forall i :: 0 <= i < |results| ==> results[i].userId == userId
    {
      if response.Some? {
        var kept := UserResults(response.value, userId);
        var arr := new FetchedResult[|kept|](i requires 0 <= i < |kept| => kept[i]);
        assert arr[..] == kept;
        SortNewestFirst(arr);
        results := arr[..];
        forall i | 0 <= i < |results| ensures results[i].userId == userId {
          assert results[i] in multiset(kept);
        }
      }
      loading := false;
    }
  }
}
