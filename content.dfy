/**
 * The records the client keeps in its local store: content items (a term and its
 * definition, owned by a user) and generated games, which embed a frozen copy of
 * their content.  Ids and owner ids are `Date.now()` values, so natural numbers.
 */
module Content {
  import opened Wrappers
  import opened Lists

  datatype ContentItem = ContentItem(
    id: nat,
    userId: nat,
    term: string,
    definition: string,
    createdAt: string,
    updatedAt: Option<string>)

  datatype Game = Game(
    id: nat,
    userId: nat,
    title: string,
    description: string,
    gameType: string,
    difficulty: string,
    content: seq<ContentItem>,
    createdAt: string)

  /** No two content items share an id; the games rely on this to pair terms with definitions. */
  predicate DistinctIds(content: seq<ContentItem>)
  {
    forall i, j :: 0 <= i < j < |content| ==> content[i].id != content[j].id
  }

  function Ids(content: seq<ContentItem>): (ids: seq<nat>)
    ensures |ids| == |content|
    ensures forall i :: 0 <= i < |content| ==> ids[i] == content[i].id
  {
    seq(|content|, i requires 0 <= i < |content| => content[i].id)
  }

  /** A user's part of the content store: `allContent.filter(c => c.userId === user.id)`. */
  function UserContent(all: seq<ContentItem>, userId: nat): (r: seq<ContentItem>)
    ensures forall i :: 0 <= i < |r| ==> r[i] in all && r[i].userId == userId
    ensures forall i :: 0 <= i < |all| && all[i].userId == userId ==> all[i] in r
  {
    Filter(all, (c: ContentItem) => c.userId == userId)
  }

  /** An item added by the user shows up at the end of their list. */
  lemma UserContentAppend(all: seq<ContentItem>, c: ContentItem, userId: nat)
    requires c.userId == userId
    ensures UserContent(all + [c], userId) == UserContent(all, userId) + [c]
  {
    FilterConcat(all, [c], (x: ContentItem) => x.userId == userId);
    assert Filter([c], (x: ContentItem) => x.userId == userId) == [c];
  }
}
