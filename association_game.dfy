/**
 * The association game: the terms and the definitions of the content are shown in
 * two independently shuffled columns; selecting one of each checks whether they
 * come from the same item.
 */
module Association {
  import opened Wrappers
  import opened Lists
  import opened Shuffle
  import opened Content

  datatype Match = Match(termId: nat, definitionId: nat)

  function TermIds(matches: seq<Match>): (ids: seq<nat>)
    ensures |ids| == |matches|
    ensures forall k :: 0 <= k < |matches| ==> ids[k] == matches[k].termId
  {
    seq(|matches|, k requires 0 <= k < |matches| => matches[k].termId)
  }

  function DefinitionIds(matches: seq<Match>): (ids: seq<nat>)
    ensures |ids| == |matches|
    ensures forall k :: 0 <= k < |matches| ==> ids[k] == matches[k].definitionId
  {
    seq(|matches|, k requires 0 <= k < |matches| => matches[k].definitionId)
  }

  /** Every match pairs an item with itself, and no item is matched twice. */
  ghost predicate MatchesValid(content: seq<ContentItem>, matches: seq<Match>)
  {
    && (forall k :: 0 <= k < |matches| ==> matches[k].termId == matches[k].definitionId)
    && NoDup(TermIds(matches))
    && (forall k :: 0 <= k < |matches| ==> matches[k].termId in Ids(content))
  }

  /** Appending the match of an item not matched yet keeps the matches valid. */
  lemma AddMatchKeepsValid(content: seq<ContentItem>, matches: seq<Match>, item: ContentItem)
    requires MatchesValid(content, matches)
    requires item in content
    requires item.id !in TermIds(matches)
    ensures MatchesValid(content, matches + [Match(item.id, item.id)])
  {
    var m := matches + [Match(item.id, item.id)];
    var i :| 0 <= i < |content| && content[i] == item;
    assert Ids(content)[i] == item.id;
    assert TermIds(m) == TermIds(matches) + [item.id];
    forall j, l | 0 <= j < l < |m| ensures TermIds(m)[j] != TermIds(m)[l] {
      if l == |matches| {
        assert TermIds(m)[j] == TermIds(matches)[j];
      }
    }
  }

  class AssociationGame {
    const content: seq<ContentItem>
    var terms: seq<ContentItem>
    var definitions: seq<ContentItem>
    var selectedTerm: Option<ContentItem>
    var selectedDefinition: Option<ContentItem>
    var matches: seq<Match>
    var score: int
    var mistakes: int

    ghost predicate Valid()
      reads this
    {
      && multiset(terms) == multiset(content)
      && multiset(definitions) == multiset(content)
      && MatchesValid(content, matches)
      && !(selectedTerm.Some? && selectedDefinition.Some?)
      && (selectedTerm.Some? ==> selectedTerm.value in content && selectedTerm.value.id !in TermIds(matches))
      && (selectedDefinition.Some? ==>
            selectedDefinition.value in content && selectedDefinition.value.id !in DefinitionIds(matches))
      && score == 100 * |matches|
      && mistakes >= 0
    }

    /** Mounting runs `initializeGame`: two independent shuffles, no matches, zero counters. */
    constructor (content: seq<ContentItem>, termOrder: seq<nat>, definitionOrder: seq<nat>)
      requires IsPermutation(termOrder, |content|) && IsPermutation(definitionOrder, |content|)
      ensures Valid()
      ensures this.content == content
      ensures terms == Permute(content, termOrder) && definitions == Permute(content, definitionOrder)
      ensures selectedTerm == None && selectedDefinition == None
      ensures matches == [] && score == 0 && mistakes == 0
    {
      this.content := content;
      terms := Permute(content, termOrder);
      definitions := Permute(content, definitionOrder);
      selectedTerm := None;
      selectedDefinition := None;
      matches := [];
      score := 0;
      mistakes := 0;
    }

    /**
     * `checkMatch`: equal ids add a match and 100 points, different ids add a
     * mistake (and fire `onMistake`); both selections are cleared either way.
     */
    method CheckMatch(term: ContentItem, definition: ContentItem) returns (mistake: bool)
      requires MatchesValid(content, matches) && score == 100 * |matches| && mistakes >= 0
      requires multiset(terms) == multiset(content) && multiset(definitions) == multiset(content)
      requires term in content && term.id !in TermIds(matches)
      requires definition in content && definition.id !in DefinitionIds(matches)
      modifies this
      ensures Valid()
      ensures terms == old(terms) && definitions == old(definitions)
      ensures selectedTerm == None && selectedDefinition == None
      ensures term.id == definition.id ==>
        matches == old(matches) + [Match(term.id, definition.id)] && score == old(score) + 100
        && mistakes == old(mistakes) && !mistake
      ensures term.id != definition.id ==>
        matches == old(matches) && score == old(score) && mistakes == old(mistakes) + 1 && mistake
    {
      if term.id == definition.id {
        AddMatchKeepsValid(content, matches, term);
        matches := matches + [Match(term.id, definition.id)];
        score := score + 100;
        mistake := false;
      } else {
        mistakes := mistakes + 1;
        mistake := true;
      }
      selectedTerm := None;
      selectedDefinition := None;
    }

    /** `handleTermClick`: ignored for a matched term; otherwise selects it and checks a pending definition. */
    method HandleTermClick(term: ContentItem) returns (mistake: bool)
      requires Valid()
      requires term in terms
      modifies this
      ensures Valid()
      ensures terms == old(terms) && definitions == old(definitions)
      ensures term.id in old(TermIds(matches)) ==>
        && selectedTerm == old(selectedTerm) && selectedDefinition == old(selectedDefinition)
        && matches == old(matches) && score == old(score) && mistakes == old(mistakes) && !mistake
      ensures term.id !in old(TermIds(matches)) && old(selectedDefinition).None? ==>
        && selectedTerm == Some(term) && selectedDefinition == None
        && matches == old(matches) && score == old(score) && mistakes == old(mistakes) && !mistake
      ensures term.id !in old(TermIds(matches)) && old(selectedDefinition).Some? ==>
        && selectedTerm == None && selectedDefinition == None
        && (term.id == old(selectedDefinition).value.id ==>
              matches == old(matches) + [Match(term.id, term.id)] && score == old(score) + 100
              && mistakes == old(mistakes) && !mistake)
        && (term.id != old(selectedDefinition).value.id ==>
              matches == old(matches) && score == old(score) && mistakes == old(mistakes) + 1 && mistake)
    {
      mistake := false;
      if term.id in TermIds(matches) {
        return;
      }
      assert term in multiset(content);
      selectedTerm := Some(term);
      if selectedDefinition.Some? {
        mistake := CheckMatch(term, selectedDefinition.value);
      }
    }

    /** `handleDefinitionClick`: the mirror image of `HandleTermClick`. */
    method HandleDefinitionClick(definition: ContentItem) returns (mistake: bool)
      requires Valid()
      requires definition in definitions
      modifies this
      ensures Valid()
      ensures terms == old(terms) && definitions == old(definitions)
      ensures definition.id in old(DefinitionIds(matches)) ==>
        && selectedTerm == old(selectedTerm) && selectedDefinition == old(selectedDefinition)
        && matches == old(matches) && score == old(score) && mistakes == old(mistakes) && !mistake
      ensures definition.id !in old(DefinitionIds(matches)) && old(selectedTerm).None? ==>
        && selectedTerm == None && selectedDefinition == Some(definition)
        && matches == old(matches) && score == old(score) && mistakes == old(mistakes) && !mistake
      ensures definition.id !in old(DefinitionIds(matches)) && old(selectedTerm).Some? ==>
        && selectedTerm == None && selectedDefinition == None
        && (definition.id == old(selectedTerm).value.id ==>
              matches == old(matches) + [Match(definition.id, definition.id)] && score == old(score) + 100
              && mistakes == old(mistakes) && !mistake)
        && (definition.id != old(selectedTerm).value.id ==>
              matches == old(matches) && score == old(score) && mistakes == old(mistakes) + 1 && mistake)
    {
      mistake := false;
      if definition.id in DefinitionIds(matches) {
        return;
      }
      assert definition in multiset(content);
      selectedDefinition := Some(definition);
      if selectedTerm.Some? {
        mistake := CheckMatch(selectedTerm.value, definition);
      }
    }

    /** No item is matched twice, so the score never exceeds 100 per item. */
    lemma ScoreBounded()
      requires Valid()
      ensures |matches| <= |content|
      ensures 0 <= score <= 100 * |content|
    {
      forall x | x in TermIds(matches) ensures x in Ids(content) {
        var k :| 0 <= k < |matches| && TermIds(matches)[k] == x;
      }
      DistinctSubsetBound(TermIds(matches), Ids(content));
    }

    /** The completion effect: it reports when there are as many matches as items (even for no content). */
    function Completion(): (r: Option<Report>)
      reads this
      requires Valid()
      ensures r.Some? <==> |matches| == |content|
      ensures r.Some? ==> r.value == Report(score, mistakes) && r.value.score == 100 * |content|
    {
      if |matches| == |content| then Some(Report(score, mistakes)) else None
    }
  }
}
