/**
 * The quiz game: one multiple-choice question per content item, asking for the
 * meaning of its term; the options are its definition and up to three
 * definitions of other items.  The first answer given to a question counts.
 */
module Quiz {
  import opened Wrappers
  import opened Lists
  import opened Shuffle
  import opened Content

  datatype Question = Question(question: string, options: seq<string>, correctAnswer: string)

  /** `content.filter(c => c.id !== item.id)`: the candidates for wrong answers. */
  function Others(content: seq<ContentItem>, item: ContentItem): seq<ContentItem>
  {
    Filter(content, (c: ContentItem) => c.id != item.id)
  }

  function Definitions(items: seq<ContentItem>): (defs: seq<string>)
    ensures |defs| == |items|
    ensures forall k :: 0 <= k < |items| ==> defs[k] == items[k].definition
  {
    seq(|items|, k requires 0 <= k < |items| => items[k].definition)
  }

  /** The question text `O que significa "<term>"?`. */
  function Prompt(term: string): string
  {
    "O que significa \"" + term + "\"?"
  }

  /** The shuffles a question needs: one over the other items, one over its options. */
  predicate OrdersFit(content: seq<ContentItem>, item: ContentItem, otherOrder: seq<nat>, optionOrder: seq<nat>)
  {
    var n := |Others(content, item)|;
    IsPermutation(otherOrder, n) && IsPermutation(optionOrder, 1 + Min(3, n))
  }

  /**
   * The question built for one item: the definitions of the first (at most) three
   * shuffled other items are the wrong answers, and the options are a shuffle of
   * the correct definition together with them.
   */
  function BuildQuestion(content: seq<ContentItem>, item: ContentItem, otherOrder: seq<nat>, optionOrder: seq<nat>)
    : (q: Question)
    requires OrdersFit(content, item, otherOrder, optionOrder)
    ensures q.question == Prompt(item.term)
    ensures q.correctAnswer == item.definition
    ensures q.correctAnswer in q.options
    ensures |q.options| == 1 + Min(3, |Others(content, item)|)
    ensures forall o :: o in q.options ==> o == item.definition || o in Definitions(Others(content, item))
    ensures multiset(q.options) ==
      multiset([item.definition] + Definitions(Permute(Others(content, item), otherOrder)[..Min(3, |Others(content, item)|)]))
  {
    var others := Permute(Others(content, item), otherOrder);
    var wrong := Definitions(others[..Min(3, |others|)]);
    var options := Permute([item.definition] + wrong, optionOrder);
    assert item.definition in multiset(options) by {
      assert ([item.definition] + wrong)[0] == item.definition;
    }
    forall o | o in options ensures o == item.definition || o in Definitions(Others(content, item)) {
      assert o in multiset([item.definition] + wrong);
      if o != item.definition {
        var k :| 0 <= k < |wrong| && wrong[k] == o;
        assert others[k] in multiset(Others(content, item));
        var j :| 0 <= j < |Others(content, item)| && Others(content, item)[j] == others[k];
        assert Definitions(Others(content, item))[j] == o;
      }
    }
    Question(Prompt(item.term), options, item.definition)
  }

  /** With distinct ids, every item has exactly the other N - 1 items as candidates. */
  lemma OthersCount(content: seq<ContentItem>, i: nat)
    requires DistinctIds(content)
    requires i < |content|
    ensures |Others(content, content[i])| == |content| - 1
  {
    var item := content[i];
    var keep := (c: ContentItem) => c.id != item.id;
    var pre, post := content[..i], content[i + 1..];
    assert content == pre + [item] + post;
    FilterConcat(pre + [item], post, keep);
    FilterConcat(pre, [item], keep);
    forall x | x in pre ensures keep(x) {
      var j :| 0 <= j < |pre| && pre[j] == x;
    }
    forall x | x in post ensures keep(x) {
      var j :| 0 <= j < |post| && post[j] == x;
      assert x == content[i + 1 + j];
    }
    FilterKeepsAll(pre, keep);
    FilterKeepsAll(post, keep);
  }

  /** So, with distinct ids, each question offers 1 + min(3, N - 1) options. */
  lemma OptionsCount(content: seq<ContentItem>, i: nat, otherOrder: seq<nat>, optionOrder: seq<nat>)
    requires DistinctIds(content)
    requires i < |content|
    requires OrdersFit(content, content[i], otherOrder, optionOrder)
    ensures |BuildQuestion(content, content[i], otherOrder, optionOrder).options| == 1 + Min(3, |content| - 1)
  {
    OthersCount(content, i);
  }

  predicate AllOrdersFit(content: seq<ContentItem>, otherOrders: seq<seq<nat>>, optionOrders: seq<seq<nat>>)
  {
    && |otherOrders| == |content| && |optionOrders| == |content|
    && forall i :: 0 <= i < |content| ==> OrdersFit(content, content[i], otherOrders[i], optionOrders[i])
  }

  /** `game.content.map(...)`: the questions in content order, before the final shuffle. */
  function Questions(content: seq<ContentItem>, otherOrders: seq<seq<nat>>, optionOrders: seq<seq<nat>>)
    : (qs: seq<Question>)
    requires AllOrdersFit(content, otherOrders, optionOrders)
    ensures |qs| == |content|
    ensures forall i :: 0 <= i < |content| ==>
      qs[i] == BuildQuestion(content, content[i], otherOrders[i], optionOrders[i])
  {
    seq(|content|, i requires 0 <= i < |content| =>
      BuildQuestion(content, content[i], otherOrders[i], optionOrders[i]))
  }

  /** The question list `initializeGame` stores: exactly one question per item, shuffled. */
  function BuildQuestions(content: seq<ContentItem>, otherOrders: seq<seq<nat>>, optionOrders: seq<seq<nat>>,
                          questionOrder: seq<nat>): (qs: seq<Question>)
    requires AllOrdersFit(content, otherOrders, optionOrders)
    requires IsPermutation(questionOrder, |content|)
    ensures |qs| == |content|
    ensures multiset(qs) == multiset(Questions(content, otherOrders, optionOrders))
    ensures forall i :: 0 <= i < |content| ==>
      BuildQuestion(content, content[i], otherOrders[i], optionOrders[i]) in qs
    ensures forall k :: 0 <= k < |qs| ==> qs[k].correctAnswer in qs[k].options
  {
    var unshuffled := Questions(content, otherOrders, optionOrders);
    var qs := Permute(unshuffled, questionOrder);
    forall i | 0 <= i < |content|
      ensures BuildQuestion(content, content[i], otherOrders[i], optionOrders[i]) in qs
    {
      assert unshuffled[i] in multiset(unshuffled);
    }
    forall k | 0 <= k < |qs| ensures qs[k].correctAnswer in qs[k].options {
      var i := questionOrder[k];
      assert qs[k] == BuildQuestion(content, content[i], otherOrders[i], optionOrders[i]);
    }
    qs
  }

  class QuizGame {
    var questions: seq<Question>
    var currentQuestion: nat
    var selectedAnswer: Option<string>
    var showResult: bool
    var score: int
    var mistakes: int

    /** Questions answered so far: the ones before the current one, plus the current one once answered. */
    function Answered(): nat
      reads this
    {
      currentQuestion + (if selectedAnswer.Some? then 1 else 0)
    }

    ghost predicate Valid()
      reads this
    {
      && (|questions| == 0 ==> currentQuestion == 0 && selectedAnswer.None?)
      && (|questions| > 0 ==> currentQuestion < |questions|)
      && showResult == selectedAnswer.Some?
      && score >= 0 && score % 100 == 0 && mistakes >= 0
      && score / 100 + mistakes == Answered()
    }

    /** Mounting runs `initializeGame`: the questions, index 0, no answer, zero counters. */
    constructor (content: seq<ContentItem>, otherOrders: seq<seq<nat>>, optionOrders: seq<seq<nat>>,
                 questionOrder: seq<nat>)
      requires AllOrdersFit(content, otherOrders, optionOrders)
      requires IsPermutation(questionOrder, |content|)
      ensures Valid()
      ensures questions == BuildQuestions(content, otherOrders, optionOrders, questionOrder)
      ensures currentQuestion == 0 && selectedAnswer == None && !showResult
      ensures score == 0 && mistakes == 0
    {
      questions := BuildQuestions(content, otherOrders, optionOrders, questionOrder);
      currentQuestion := 0;
      selectedAnswer := None;
      showResult := false;
      score := 0;
      mistakes := 0;
    }

    /**
     * `handleAnswerSelect`: the first answer to the current question scores 100 when
     * it is the correct one and is a mistake (firing `onMistake`) otherwise; later
     * answers are ignored.
     */
    method HandleAnswerSelect(answer: string) returns (mistake: bool)
      requires Valid()
      requires |questions| > 0
      modifies this
      ensures Valid()
      ensures questions == old(questions) && currentQuestion == old(currentQuestion)
      ensures old(selectedAnswer).Some? ==>
        && selectedAnswer == old(selectedAnswer) && showResult == old(showResult)
        && score == old(score) && mistakes == old(mistakes) && !mistake
      ensures old(selectedAnswer).None? ==>
        && selectedAnswer == Some(answer) && showResult
        && (answer == questions[currentQuestion].correctAnswer ==>
              score == old(score) + 100 && mistakes == old(mistakes) && !mistake)
        && (answer != questions[currentQuestion].correctAnswer ==>
              score == old(score) && mistakes == old(mistakes) + 1 && mistake)
    {
      mistake := false;
      if selectedAnswer.Some? {
        return;
      }
      selectedAnswer := Some(answer);
      showResult := true;
      if answer == questions[currentQuestion].correctAnswer {
        score := score + 100;
      } else {
        mistakes := mistakes + 1;
        mistake := true;
      }
    }

    /**
     * `handleNextQuestion`, offered only once the current question is answered.  On
     * the last question it reports `onComplete(score, mistakes)` and changes nothing;
     * otherwise it moves to the next question with the answer cleared.
     */
    method HandleNextQuestion() returns (done: Option<Report>)
      requires Valid()
      requires selectedAnswer.Some?
      modifies this
      ensures Valid()
      ensures questions == old(questions) && score == old(score) && mistakes == old(mistakes)
      ensures old(currentQuestion) + 1 >= |questions| ==>
        && done == Some(Report(score, mistakes))
        && currentQuestion == old(currentQuestion) && selectedAnswer == old(selectedAnswer)
        && showResult == old(showResult)
      ensures old(currentQuestion) + 1 < |questions| ==>
        && done == None
        && currentQuestion == old(currentQuestion) + 1 && selectedAnswer == None && !showResult
      ensures done.Some? ==> done.value.score / 100 + done.value.mistakes == |questions|
    {
      if currentQuestion + 1 >= |questions| {
        done := Some(Report(score, mistakes));
      } else {
        done := None;
        currentQuestion := currentQuestion + 1;
        selectedAnswer := None;
        showResult := false;
      }
    }

    /** Each answered question is worth at most 100 points. */
    lemma ScoreBounded()
      requires Valid()
      ensures 0 <= score <= 100 * |questions|
    {
    }
  }
}
