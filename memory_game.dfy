/**
 * The memory (card pairing) game: every content item gives a term card and a
 * definition card sharing a `pairId`; the player turns two cards at a time and
 * scores 100 for every pair found.
 */
module Memory {
  import opened Wrappers
  import opened Text
  import opened Lists
  import opened Shuffle
  import opened Content

  datatype Card = Card(content: string, pairId: nat, id: string)

  /** The card id template `term-<id>`. */
  function TermCardId(pairId: nat): string { "term-" + Decimal(pairId) }

  /** The card id template `def-<id>`. */
  function DefCardId(pairId: nat): string { "def-" + Decimal(pairId) }

  /** The two templates never collide, and each one determines the item id. */
  lemma CardIdsDistinguish(a: nat, b: nat)
    ensures TermCardId(a) == TermCardId(b) ==> a == b
    ensures DefCardId(a) == DefCardId(b) ==> a == b
    ensures TermCardId(a) != DefCardId(b)
  {
    DecimalInjective(a, b);
    assert TermCardId(a)[5..] == Decimal(a) && TermCardId(b)[5..] == Decimal(b);
    assert DefCardId(a)[4..] == Decimal(a) && DefCardId(b)[4..] == Decimal(b);
    assert TermCardId(a)[0] == 't' && DefCardId(b)[0] == 'd';
  }

  function TermCard(item: ContentItem): Card
  {
    Card(item.term, item.id, TermCardId(item.id))
  }

  function DefCard(item: ContentItem): Card
  {
    Card(item.definition, item.id, DefCardId(item.id))
  }

  /** The deck before shuffling: for each item in turn, its term card and then its definition card. */
  function Deck(content: seq<ContentItem>): (d: seq<Card>)
    ensures |d| == 2 * |content|
    decreases |content|
  {
    if content == [] then []
    else
      var last := content[|content| - 1];
      Deck(content[..|content| - 1]) + [TermCard(last), DefCard(last)]
  }

  /** Positions `2i` and `2i+1` of the deck hold item `i`'s term and definition cards. */
  lemma {:induction false} DeckAt(content: seq<ContentItem>, i: nat)
    requires i < |content|
    ensures Deck(content)[2 * i] == TermCard(content[i])
    ensures Deck(content)[2 * i + 1] == DefCard(content[i])
    decreases |content|
  {
    var n := |content|;
    if i < n - 1 {
      DeckAt(content[..n - 1], i);
    }
  }

  /** A card is in the deck exactly when it is the term or the definition card of some item. */
  lemma DeckMembers(content: seq<ContentItem>, c: Card)
    ensures c in Deck(content) <==>
      exists i :: 0 <= i < |content| && (c == TermCard(content[i]) || c == DefCard(content[i]))
  {
    var d := Deck(content);
    if c in d {
      var k :| 0 <= k < |d| && d[k] == c;
      DeckAt(content, k / 2);
      assert k == 2 * (k / 2) || k == 2 * (k / 2) + 1;
    }
    forall i | 0 <= i < |content| ensures TermCard(content[i]) in d && DefCard(content[i]) in d {
      DeckAt(content, i);
    }
  }

  function CardIds(cards: seq<Card>): (ids: seq<string>)
    ensures |ids| == |cards|
    ensures forall k :: 0 <= k < |cards| ==> ids[k] == cards[k].id
  {
    seq(|cards|, k requires 0 <= k < |cards| => cards[k].id)
  }

  /** With distinct item ids, no two cards of the deck share a card id. */
  lemma DeckIdsDistinct(content: seq<ContentItem>)
    requires DistinctIds(content)
    ensures NoDup(CardIds(Deck(content)))
  {
    var d := Deck(content);
    forall j, k | 0 <= j < k < |d| ensures d[j].id != d[k].id {
      var a, b := j / 2, k / 2;
      DeckAt(content, a);
      DeckAt(content, b);
      CardIdsDistinguish(content[a].id, content[b].id);
      CardIdsDistinguish(content[b].id, content[a].id);
      assert j == 2 * a || j == 2 * a + 1;
      assert k == 2 * b || k == 2 * b + 1;
    }
  }

  /** Two deck cards with the same card id are the same card. */
  lemma DeckCardsById(content: seq<ContentItem>, c1: Card, c2: Card)
    requires DistinctIds(content)
    requires c1 in Deck(content) && c2 in Deck(content)
    requires c1.id == c2.id
    ensures c1 == c2
  {
    DeckIdsDistinct(content);
    var d := Deck(content);
    var j :| 0 <= j < |d| && d[j] == c1;
    var k :| 0 <= k < |d| && d[k] == c2;
    assert CardIds(d)[j] == CardIds(d)[k];
  }

  /** The loop of `initializeGame` that pushes the two cards of every item. */
  method BuildCards(content: seq<ContentItem>) returns (cards: seq<Card>)
    ensures cards == Deck(content)
  {
    cards := [];
    var k := 0;
    while k < |content|
      invariant 0 <= k <= |content|
      invariant cards == Deck(content[..k])
    {
      var item := content[k];
      cards := cards + [TermCard(item)];
      cards := cards + [DefCard(item)];
      k := k + 1;
      assert content[..k][..k - 1] == content[..k - 1];
    }
    assert content[..|content|] == content;
  }

  /** The matched ids are distinct card ids of the deck. */
  ghost predicate MatchedIdsValid(content: seq<ContentItem>, matched: seq<string>)
  {
    NoDup(matched) && forall i :: 0 <= i < |matched| ==> matched[i] in CardIds(Deck(content))
  }

  /** Matching two different, unmatched cards of the deck keeps the matched ids distinct. */
  lemma PairMatchKeepsIds(content: seq<ContentItem>, matched: seq<string>, first: Card, second: Card)
    requires DistinctIds(content)
    requires MatchedIdsValid(content, matched)
    requires first in Deck(content) && second in Deck(content) && first != second
    requires first.id !in matched && second.id !in matched
    ensures MatchedIdsValid(content, matched + [first.id, second.id])
  {
    if first.id == second.id {
      DeckCardsById(content, first, second);
      assert false;
    }
    var d := Deck(content);
    var j :| 0 <= j < |d| && d[j] == first;
    var k :| 0 <= k < |d| && d[k] == second;
    assert CardIds(d)[j] == first.id && CardIds(d)[k] == second.id;
    var m := matched + [first.id, second.id];
    forall i, l | 0 <= i < l < |m| ensures m[i] != m[l] {
      if l < |matched| {
        assert m[i] == matched[i] && m[l] == matched[l];
      } else if i < |matched| {
        assert m[i] in matched;
      }
    }
  }

  class MemoryGame {
    const content: seq<ContentItem>
    var cards: seq<Card>
    var flipped: seq<Card>
    var matched: seq<string>
    var score: int
    var mistakes: int

    ghost predicate Valid()
      reads this
    {
      && DistinctIds(content)
      && multiset(cards) == multiset(Deck(content))
      && |flipped| <= 2
      && (forall i :: 0 <= i < |flipped| ==> flipped[i] in cards && flipped[i].id !in matched)
      && (|flipped| == 2 ==> flipped[0] != flipped[1] && flipped[0].pairId != flipped[1].pairId)
      && MatchedIdsValid(content, matched)
      && score == 50 * |matched|
      && mistakes >= 0
    }

    /** Mounting the game runs `initializeGame`: a shuffled deck and cleared counters. */
    constructor (content: seq<ContentItem>, order: seq<nat>)
      requires DistinctIds(content)
      requires IsPermutation(order, 2 * |content|)
      ensures Valid()
      ensures this.content == content
      ensures cards == Permute(Deck(content), order)
      ensures flipped == [] && matched == [] && score == 0 && mistakes == 0
    {
      this.content := content;
      var deck := BuildCards(content);
      cards := Permute(deck, order);
      flipped := [];
      matched := [];
      score := 0;
      mistakes := 0;
    }

    /**
     * A card shows its face while it is turned or once it is matched: the view that
     * `HandleCardClick`'s contract is stated through, not a property of its own.
     */
    function IsCardFlipped(card: Card): (shown: bool)
      reads this
      ensures card in flipped ==> shown
      ensures card.id in matched ==> shown
      ensures shown && card.id !in matched ==> card in flipped
    {
      card in flipped || card.id in matched
    }

    /**
     * `handleCardClick`.  `mistake` reports whether `onMistake` fired.  A mismatched
     * pair stays turned until `ClearFlipped` runs.
     */
    method HandleCardClick(card: Card) returns (mistake: bool)
      requires Valid()
      requires card in cards
      modifies this
      ensures Valid()
      ensures cards == old(cards)
      ensures old(|flipped| == 2 || card in flipped || card.id in matched) ==>
        && flipped == old(flipped) && matched == old(matched)
        && score == old(score) && mistakes == old(mistakes) && !mistake
      ensures old(|flipped| == 0 && card.id !in matched) ==>
        && flipped == [card] && matched == old(matched)
        && score == old(score) && mistakes == old(mistakes) && !mistake
      ensures old(|flipped| == 1 && card !in flipped && card.id !in matched && flipped[0].pairId == card.pairId) ==>
        && flipped == [] && matched == old(matched) + [old(flipped)[0].id, card.id]
        && score == old(score) + 100 && mistakes == old(mistakes) && !mistake
      ensures old(|flipped| == 1 && card !in flipped && card.id !in matched && flipped[0].pairId != card.pairId) ==>
        && flipped == old(flipped) + [card] && matched == old(matched)
        && score == old(score) && mistakes == old(mistakes) + 1 && mistake
      ensures old(|flipped| < 2 && card !in flipped && card.id !in matched) ==> IsCardFlipped(card)
    {
      mistake := false;
      if |flipped| == 2 || card in flipped || card.id in matched {
        return;
      }
      var newFlipped := flipped + [card];
      flipped := newFlipped;
      if |newFlipped| == 2 {
        var first, second := newFlipped[0], newFlipped[1];
        if first.pairId == second.pairId {
          assert first in Deck(content) && second in Deck(content) by {
            assert first in multiset(cards) && second in multiset(cards);
          }
          PairMatchKeepsIds(content, matched, first, second);
          matched := matched + [first.id, second.id];
          score := score + 100;
          flipped := [];
        } else {
          mistake := true;
          mistakes := mistakes + 1;
        }
      }
    }

    /** The delayed `setFlippedCards([])` after a mismatch; it touches nothing else. */
    method ClearFlipped()
      requires Valid()
      modifies this
      ensures Valid()
      ensures flipped == []
      ensures cards == old(cards) && matched == old(matched)
      ensures score == old(score) && mistakes == old(mistakes)
    {
      flipped := [];
    }

    /** Every matched id is a distinct card of the deck, so at most 2N ids are matched. */
    lemma ScoreBounded()
      requires Valid()
      ensures |matched| <= 2 * |content|
      ensures 0 <= score <= 100 * |content|
    {
      assert MatchedIdsValid(content, matched);
      DistinctSubsetBound(matched, CardIds(Deck(content)));
    }

    /** The completion effect: it reports once all 2N card ids are matched, for non-empty content. */
    function Completion(): (r: Option<Report>)
      reads this
      requires Valid()
      ensures r.Some? <==> |content| > 0 && |matched| == 2 * |content|
      ensures r.Some? ==> r.value == Report(score, mistakes) && r.value.score == 100 * |content|
    {
      if |content| > 0 && |matched| == 2 * |content| then Some(Report(score, mistakes)) else None
    }
  }
}
