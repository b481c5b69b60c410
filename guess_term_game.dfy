/**
 * The guess-the-term game: the definition of an item is shown and the player types
 * its term; the comparison ignores surrounding whitespace and letter case.  It
 * reads loosely shaped records (`game.data`) and normalises their field names.
 */
module GuessTerm {
  import opened Wrappers
  import opened Text
  import opened Shuffle
  import opened Requests

  /**
   * An item of `game.data`: the store keeps whatever JSON the client sent, so every
   * field may be missing or hold any JSON value; `mongoId` is `_id`.
   */
  datatype RawItem = RawItem(
    term: Field, termo: Field, title: Field,
    definition: Field, definicao: Field, description: Field,
    id: Field, mongoId: Field)

  /** A normalised item; each field is the first truthy value of its chain. */
  datatype Entry = Entry(term: Json, definition: Json, id: Json)

  /** `v || fallback`. */
  function Or(v: Field, fallback: Json): Json
  {
    if Falsy(v) then fallback else v.value
  }

  const UnknownTerm: string := "Termo desconhecido"
  const UnknownDefinition: string := "Definição desconhecida"

  /**
   * The normalisation of one item: the first truthy of term, termo, title (else a
   * placeholder), likewise definition, definição, description, and id, _id, else
   * the item's position as a string.  No normalised field is ever falsy.
   */
  function Normalize(item: RawItem, index: nat): (e: Entry)
    ensures !Falsy(Some(e.term)) && !Falsy(Some(e.definition)) && !Falsy(Some(e.id))
    ensures !Falsy(item.term) ==> e.term == item.term.value
    ensures Falsy(item.term) && !Falsy(item.termo) ==> e.term == item.termo.value
    ensures Falsy(item.term) && Falsy(item.termo) && !Falsy(item.title) ==> e.term == item.title.value
    ensures Falsy(item.term) && Falsy(item.termo) && Falsy(item.title) ==> e.term == JStr(UnknownTerm)
    ensures !Falsy(item.definition) ==> e.definition == item.definition.value
    ensures Falsy(item.definition) && !Falsy(item.definicao) ==> e.definition == item.definicao.value
    ensures Falsy(item.definition) && Falsy(item.definicao) && !Falsy(item.description) ==>
      e.definition == item.description.value
    ensures Falsy(item.definition) && Falsy(item.definicao) && Falsy(item.description) ==>
      e.definition == JStr(UnknownDefinition)
    ensures !Falsy(item.id) ==> e.id == item.id.value
    ensures Falsy(item.id) && !Falsy(item.mongoId) ==> e.id == item.mongoId.value
    ensures Falsy(item.id) && Falsy(item.mongoId) ==> e.id == JStr(Decimal(index))
  {
    Entry(
      Or(item.term, Or(item.termo, Or(item.title, JStr(UnknownTerm)))),
      Or(item.definition, Or(item.definicao, Or(item.description, JStr(UnknownDefinition)))),
      Or(item.id, Or(item.mongoId, JStr(Decimal(index)))))
  }

  /** `game.data.map((item, index) => ...)`. */
  function Normalized(data: seq<RawItem>): (es: seq<Entry>)
    ensures |es| == |data|
    ensures forall i :: 0 <= i < |data| ==> es[i] == Normalize(data[i], i)
  {
    seq(|data|, i requires 0 <= i < |data| => Normalize(data[i], i))
  }

  /** A numeric id of 0 is falsy, so it falls through to `_id` or the position. */
  lemma ZeroIdFallsThrough(item: RawItem, index: nat)
    requires item.id == Some(JNum(0)) && item.mongoId.None?
    ensures Normalize(item, index).id == JStr(Decimal(index))
  {
  }

  /** How many items `game.data` holds; missing data counts as none. */
  function DataLength(data: Option<seq<RawItem>>): nat
  {
    if data.Some? then |data.value| else 0
  }

  /** The answer check: `answer.trim().toLowerCase() === term.trim().toLowerCase()`. */
  predicate SameAnswer(answer: string, term: string)
  {
    ToLower(Trim(answer)) == ToLower(Trim(term))
  }

  /** The check ignores letter case and surrounding whitespace of the typed answer. */
  lemma SameAnswerIgnoresCase(answer: string, term: string)
    ensures SameAnswer(ToLower(answer), term) == SameAnswer(answer, term)
    ensures SameAnswer(Trim(answer), term) == SameAnswer(answer, term)
    ensures SameAnswer(term, term)
  {
    TrimLower(answer);
    ToLowerIdempotent(Trim(answer));
    TrimStartIdempotent(answer);
    TrimEndIdempotent(TrimStart(answer));
    TrimEndKeepsStart(TrimStart(answer));
  }

  /**
   * What `handleSubmit` does: it throws (no question, or a term that is not a
   * string and so has no `trim`), or judges the answer right or wrong.
   */
  datatype Verdict = Throws | Correct | Wrong

  class GuessTermGame {
    var questions: seq<Entry>
    var currentIndex: nat
    var answer: string
    var score: int
    var mistakes: int
    var showAnswer: bool
    var finished: bool

    ghost predicate Valid()
      reads this
    {
      && (|questions| == 0 ==> currentIndex == 0 && score == 0)
      && (|questions| > 0 ==> currentIndex < |questions|)
      && (finished && |questions| > 0 ==> currentIndex == |questions| - 1)
      && 0 <= score <= currentIndex + (if finished then 1 else 0)
      && mistakes >= 0
    }

    /**
     * Mounting: with items present, `initializeGame` stores a shuffle of the
     * normalised items; missing or empty data leaves no questions.
     */
    constructor (data: Option<seq<RawItem>>, order: seq<nat>)
      requires IsPermutation(order, DataLength(data))
      ensures Valid()
      ensures data.Some? && |data.value| > 0 ==> questions == Permute(Normalized(data.value), order)
      ensures !(data.Some? && |data.value| > 0) ==> questions == []
      ensures currentIndex == 0 && answer == "" && score == 0 && mistakes == 0
      ensures !showAnswer && !finished
    {
      if data.Some? && |data.value| > 0 {
        questions := Permute(Normalized(data.value), order);
      } else {
        questions := [];
      }
      currentIndex := 0;
      answer := "";
      score := 0;
      mistakes := 0;
      showAnswer := false;
      finished := false;
    }

    /** Typing into the answer field, which is disabled while the correct answer is shown. */
    method SetAnswer(text: string)
      requires Valid() && !showAnswer && !finished
      modifies this`answer
      ensures Valid() && answer == text
    {
      answer := text;
    }

    /**
     * `next`: clears the shown answer and the typed text, then moves to the next
     * question, or, on the last one, finishes the game (`onFinish`).
     */
    method Next() returns (finishedNow: bool)
      requires Valid() && !finished
      modifies this
      ensures Valid()
      ensures questions == old(questions) && score == old(score) && mistakes == old(mistakes)
      ensures !showAnswer && answer == ""
      ensures old(currentIndex) + 1 < |questions| ==>
        currentIndex == old(currentIndex) + 1 && !finished && !finishedNow
      ensures old(currentIndex) + 1 >= |questions| ==>
        currentIndex == old(currentIndex) && finished && finishedNow
    {
      showAnswer := false;
      answer := "";
      if currentIndex + 1 < |questions| {
        currentIndex := currentIndex + 1;
        finishedNow := false;
      } else {
        finished := true;
        finishedNow := true;
      }
    }

    /** `handleSubmit` can read the current question's term as text. */
    predicate HasTextTerm()
      reads this
    {
      currentIndex < |questions| && questions[currentIndex].term.JStr?
    }

    /**
     * `handleSubmit`.  A correct answer scores one point and moves on through `next`;
     * a wrong one is a mistake and reveals the correct term without moving.  With no
     * question, or a term that is not a string, the handler throws and nothing changes.
     */
    method Submit() returns (verdict: Verdict)
      requires Valid() && !finished
      modifies this
      ensures Valid()
      ensures questions == old(questions)
      ensures verdict == Throws <==> !old(HasTextTerm())
      ensures verdict == Throws ==>
        && currentIndex == old(currentIndex) && answer == old(answer)
        && score == old(score) && mistakes == old(mistakes)
        && showAnswer == old(showAnswer) && finished == old(finished)
      ensures verdict != Throws ==>
        (verdict == Correct <==> old(SameAnswer(answer, questions[currentIndex].term.s)))
      ensures verdict == Correct ==>
        && score == old(score) + 1 && mistakes == old(mistakes)
        && !showAnswer && answer == ""
        && (old(currentIndex) + 1 < |questions| ==> currentIndex == old(currentIndex) + 1 && !finished)
        && (old(currentIndex) + 1 >= |questions| ==> currentIndex == old(currentIndex) && finished)
      ensures verdict == Wrong ==>
        && score == old(score) && mistakes == old(mistakes) + 1
        && showAnswer && answer == old(answer) && currentIndex == old(currentIndex) && !finished
    {
      if !HasTextTerm() {
        verdict := Throws;
        return;
      }
      var correct := SameAnswer(answer, questions[currentIndex].term.s);
      if correct {
        // React applies `setScore` and the updates of `next` together, so their order is immaterial.
        ghost var before := score;
        assert before <= currentIndex;
        var finishedNow := Next();
        assert finishedNow || before + 1 <= currentIndex;
        score := score + 1;
        verdict := Correct;
      } else {
        mistakes := mistakes + 1;
        showAnswer := true;
        verdict := Wrong;
      }
    }

    /** `skip`: always one more mistake, then `next`. */
    method Skip() returns (finishedNow: bool)
      requires Valid() && !finished
      modifies this
      ensures Valid()
      ensures questions == old(questions) && score == old(score) && mistakes == old(mistakes) + 1
      ensures !showAnswer && answer == ""
      ensures old(currentIndex) + 1 < |questions| ==>
        currentIndex == old(currentIndex) + 1 && !finished && !finishedNow
      ensures old(currentIndex) + 1 >= |questions| ==>
        currentIndex == old(currentIndex) && finished && finishedNow
    {
      mistakes := mistakes + 1;
      showAnswer := false;
      finishedNow := Next();
    }

    /** At most one point per question. */
    lemma ScoreBounded()
      requires Valid()
      ensures 0 <= score <= |questions|
    {
    }
  }
}
