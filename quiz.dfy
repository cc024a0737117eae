/**
 * The tetanus true/false quiz: claims are shown one at a time in a shuffled
 * order; each answer is judged against the claim's truth, the score counts
 * the right answers, and once every claim is answered further answers are
 * ignored and a final score is shown.
 */
module TetanusQuiz {
  import Scoring

  datatype Claim = Claim(text: string, truth: bool)

  /** The fixed catalog of claims with their ground truth. */
  const Catalog: seq<Claim> := [
    Claim("Tetanus is caused by rust on nails.", false),
    Claim("Clostridium tetani is an anaerobic bacteria that forms spores.", true),
    Claim("You need a tetanus shot every time you get a cut.", false),
    Claim("The tetanus vaccine should be boosted every 10 years.", true),
    Claim("Tetanus bacteria can only enter through rusty metal wounds.", false),
    Claim("Tetanus releases a neurotoxin that causes muscle spasms and rigid paralysis.", true)
  ]

  /** What one click on True or False shows. */
  datatype Feedback =
    | Ignored
    | Judged(correct: bool, score: nat, attempts: nat)

  /** The closing line of the final summary. */
  datatype Closing = Perfect | Reminder

  /** The number of answers that agree with the truth of the claim they answer. */
  function Matches(claims: seq<Claim>, answers: seq<bool>): nat
    requires |answers| <= |claims|
  {
    if |answers| == 0 then 0
    else
      var n := |answers| - 1;
      Matches(claims, answers[..n]) + (if answers[n] == claims[n].truth then 1 else 0)
  }

  /** The score never exceeds the number of answers given. */
  lemma {:induction false} MatchesAtMostAnswers(claims: seq<Claim>, answers: seq<bool>)
    requires |answers| <= |claims|
    ensures Matches(claims, answers) <= |answers|
  {
    if |answers| > 0 {
      MatchesAtMostAnswers(claims, answers[..|answers| - 1]);
    }
  }

  /** Every answer right, and only then, gives a full score. */
  lemma {:induction false} FullScoreIffAllRight(claims: seq<Claim>, answers: seq<bool>)
    requires |answers| <= |claims|
    ensures Matches(claims, answers) == |answers| <==>
            forall k :: 0 <= k < |answers| ==> answers[k] == claims[k].truth
  {
    if |answers| > 0 {
      var n := |answers| - 1;
      FullScoreIffAllRight(claims, answers[..n]);
      MatchesAtMostAnswers(claims, answers[..n]);
      if Matches(claims, answers) == |answers| {
        forall k | 0 <= k < |answers|
          ensures answers[k] == claims[k].truth
        {
          if k < n {
            assert answers[..n][k] == answers[k];
          }
        }
      }
      if forall k :: 0 <= k < |answers| ==> answers[k] == claims[k].truth {
        assert forall k :: 0 <= k < n ==> answers[..n][k] == claims[k].truth;
      }
    }
  }

  /** The closing line of the summary: the perfect-score line only at 100%. */
  function ClosingOf(pct: nat): (c: Closing)
    ensures c == Perfect <==> pct == 100
  {
    if pct == 100 then Perfect else Reminder
  }

  /** The final percentage of a finished quiz over the six-claim catalog is 100 exactly for a full score. */
  lemma FinalPerfectIffFullScore(score: nat)
    requires score <= |Catalog|
    ensures ClosingOf(Scoring.RoundedPercent(score, |Catalog|)) == Perfect <==> score == |Catalog|
  {
  }

  class Quiz {
    /** The claims in presentation order. */
    const claims: seq<Claim>
    var currentIndex: nat
    var score: nat
    /** The answers given since the cards were rendered. */
    ghost var answers: seq<bool>

    ghost predicate Valid()
      reads this
    {
      && |claims| == |Catalog|
      && |answers| <= |claims|
      && currentIndex == |answers|
      && score == Matches(claims, answers)
    }

    /** Starting the game with the claims in the order the shuffle produced. */
    constructor (shuffled: seq<Claim>)
      requires multiset(shuffled) == multiset(Catalog)
      ensures Valid() && claims == shuffled && |claims| == |Catalog|
      ensures currentIndex == 0 && score == 0
    {
      claims := shuffled;
      new;
      assert |multiset(shuffled)| == |multiset(Catalog)|;
      RenderCards();
    }

    /** Shows the first card and clears cursor and score. */
    method RenderCards()
      requires |claims| == |Catalog|
      modifies this
      ensures Valid() && answers == []
      ensures currentIndex == 0 && score == 0
    {
      currentIndex := 0;
      score := 0;
      answers := [];
    }

    predicate Finished()
      reads this
    {
      currentIndex >= |claims|
    }

    /** A click on True (`userAnswer`) or False. */
    method Answer(userAnswer: bool) returns (fb: Feedback)
      requires Valid()
      modifies this
      ensures Valid()
      ensures score <= currentIndex <= |claims|
      ensures old(currentIndex) >= |claims| ==>
        fb == Ignored && currentIndex == old(currentIndex) && score == old(score) && answers == old(answers)
      ensures old(currentIndex) < |claims| ==>
        var right := userAnswer == claims[old(currentIndex)].truth;
        && answers == old(answers) + [userAnswer]
        && currentIndex == old(currentIndex) + 1
        && score == old(score) + (if right then 1 else 0)
        && fb == Judged(right, score, currentIndex)
    {
      if currentIndex >= |claims| {
        MatchesAtMostAnswers(claims, answers);
        return Ignored;
      }
      var item := claims[currentIndex];
      var isCorrect := userAnswer == item.truth;
      if isCorrect {
        score := score + 1;
      }
      fb := Judged(isCorrect, score, currentIndex + 1);
      assert (answers + [userAnswer])[..|answers|] == answers;
      answers := answers + [userAnswer];
      currentIndex := currentIndex + 1;
      MatchesAtMostAnswers(claims, answers);
    }

    /** The final percentage, shown once every claim has been answered. */
    function FinalPercent(): (pct: nat)
      reads this
      requires Valid() && Finished()
      ensures pct <= 100
      ensures pct == 100 <==> forall k :: 0 <= k < |claims| ==> answers[k] == claims[k].truth
    {
      MatchesAtMostAnswers(claims, answers);
      FullScoreIffAllRight(claims, answers);
      Scoring.RoundedPercent(score, |claims|)
    }
  }
}
