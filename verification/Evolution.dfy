/** The failures the evolution node forwards to the model: the five worst, ties in their old order. */
module Evolution {
  import opened Wrappers
  import EvaluationState

  /** A judgment as the node reads it; a key it does not have is None. */
  datatype Judgment = Judgment(scenarioId: string, overallScore: Option<real>, passed: Option<bool>)

  const LIMIT := 5
  const PASS_MARK := 80.0

  /** j.get("overall_score", 100) */
  function Score(j: Judgment): real { if j.overallScore.Some? then j.overallScore.value else 100.0 }

  predicate Failed(j: Judgment) { Score(j) < PASS_MARK || j.passed == Some(false) }

  function FailedOnes(js: seq<Judgment>): seq<Judgment> {
    if js == [] then []
    else if Failed(js[0]) then [js[0]] + FailedOnes(js[1..])
    else FailedOnes(js[1..])
  }

  // ---------------------------------------------------------------- a stable sort

  predicate Sorted(s: seq<Judgment>) {
    forall i, j :: 0 <= i < j < |s| ==> Score(s[i]) <= Score(s[j])
  }

  /** The judgments with one score, in order. */
  function WithScore(s: seq<Judgment>, score: real): seq<Judgment> {
    if s == [] then []
    else if Score(s[0]) == score then [s[0]] + WithScore(s[1..], score)
    else WithScore(s[1..], score)
  }

  /** What sorted(..., key=...) promises: ordered by key, judgments with equal keys left in order. */
  ghost predicate StablySorts(s: seq<Judgment>, out: seq<Judgment>) {
    Sorted(out) && forall score: real :: WithScore(out, score) == WithScore(s, score)
  }

  function Insert(j: Judgment, s: seq<Judgment>): seq<Judgment> {
    if s == [] || Score(j) <= Score(s[0]) then [j] + s else [s[0]] + Insert(j, s[1..])
  }

  /** sorted(failed, key=...), which Python does stably. */
  function SortByScore(s: seq<Judgment>): seq<Judgment> {
    if s == [] then [] else Insert(s[0], SortByScore(s[1..]))
  }

  lemma SortedCons(j: Judgment, s: seq<Judgment>)
    requires Sorted(s) && (s != [] ==> Score(j) <= Score(s[0]))
    ensures Sorted([j] + s)
  {
  }

  lemma {:induction false} InsertKeepsOrder(j: Judgment, s: seq<Judgment>)
    requires Sorted(s)
    ensures Sorted(Insert(j, s)) && Insert(j, s) != []
    ensures Insert(j, s)[0] == if s != [] && Score(j) > Score(s[0]) then s[0] else j
  {
    if s != [] && Score(j) > Score(s[0]) {
      InsertKeepsOrder(j, s[1..]);
      SortedCons(s[0], Insert(j, s[1..]));
    } else {
      SortedCons(j, s);
    }
  }

  lemma {:induction false} InsertAddsOne(j: Judgment, s: seq<Judgment>)
    ensures multiset(Insert(j, s)) == multiset{j} + multiset(s)
    ensures |Insert(j, s)| == |s| + 1
  {
    if s != [] && Score(j) > Score(s[0]) {
      InsertAddsOne(j, s[1..]);
      assert s == [s[0]] + s[1..];
    }
  }

  lemma {:induction false} InsertIsStable(j: Judgment, s: seq<Judgment>, score: real)
    ensures WithScore(Insert(j, s), score) == (if Score(j) == score then [j] else []) + WithScore(s, score)
      || !Sorted(s)
  {
    if Sorted(s) {
      if s == [] || Score(j) <= Score(s[0]) {
        assert ([j] + s)[1..] == s;
      } else {
        InsertIsStable(j, s[1..], score);
        if Score(j) == score {
          LowerScoresComeFirst(j, s, score);
        }
      }
    }
  }

  lemma {:induction false} LowerScoresComeFirst(j: Judgment, s: seq<Judgment>, score: real)
    requires s != [] && Score(j) == score && Score(j) > Score(s[0])
    ensures WithScore(s, score) == WithScore(s[1..], score)
  {
  }

  lemma {:induction false} SortIsAPermutation(s: seq<Judgment>)
    ensures Sorted(SortByScore(s))
    ensures multiset(SortByScore(s)) == multiset(s) && |SortByScore(s)| == |s|
  {
    if s != [] {
      SortIsAPermutation(s[1..]);
      InsertKeepsOrder(s[0], SortByScore(s[1..]));
      InsertAddsOne(s[0], SortByScore(s[1..]));
      assert s == [s[0]] + s[1..];
    }
  }

  lemma {:induction false} SortKeepsTies(s: seq<Judgment>, score: real)
    ensures WithScore(SortByScore(s), score) == WithScore(s, score)
  {
    if s != [] {
      SortKeepsTies(s[1..], score);
      SortIsAPermutation(s[1..]);
      InsertIsStable(s[0], SortByScore(s[1..]), score);
    }
  }

  lemma {:induction false} SortIsStable(s: seq<Judgment>)
    ensures StablySorts(s, SortByScore(s))
    ensures multiset(SortByScore(s)) == multiset(s) && |SortByScore(s)| == |s|
  {
    SortIsAPermutation(s);
    forall score: real ensures WithScore(SortByScore(s), score) == WithScore(s, score) {
      SortKeepsTies(s, score);
    }
  }

  /** The promise has one answer, so it does not matter which stable sort computes it. */
  lemma {:induction false} StableSortIsUnique(s: seq<Judgment>, a: seq<Judgment>, b: seq<Judgment>)
    requires StablySorts(s, a) && StablySorts(s, b)
    ensures a == b
    decreases |a|
  {
    assert forall score: real :: WithScore(a, score) == WithScore(b, score);
    if a == [] {
      NoneWithAnyScore(b);
    } else if b == [] {
      NoneWithAnyScore(a);
    } else {
      SameFirst(s, a, b);
      forall score: real ensures WithScore(a[1..], score) == WithScore(b[1..], score) {
        assert WithScore(a, score) == WithScore(b, score);
        DropFirst(a, score);
        DropFirst(b, score);
      }
      StableSortIsUnique(a[1..], a[1..], b[1..]);
      assert a == [a[0]] + a[1..] && b == [b[0]] + b[1..];
    }
  }

  lemma {:induction false} DropFirst(s: seq<Judgment>, score: real)
    requires s != []
    ensures WithScore(s[1..], score) == if Score(s[0]) == score then WithScore(s, score)[1..] else WithScore(s, score)
  {
  }

  lemma {:induction false} FirstIsFound(s: seq<Judgment>)
    ensures s != [] ==> |WithScore(s, Score(s[0]))| > 0
  {
  }

  lemma NoneWithAnyScore(s: seq<Judgment>)
    requires forall score: real :: |WithScore(s, score)| == 0
    ensures s == []
  {
    FirstIsFound(s);
  }

  lemma {:induction false} FoundWithScore(s: seq<Judgment>, score: real)
    requires WithScore(s, score) != []
    ensures exists i :: 0 <= i < |s| && Score(s[i]) == score
  {
    if Score(s[0]) != score {
      FoundWithScore(s[1..], score);
      var i :| 0 <= i < |s[1..]| && Score(s[1..][i]) == score;
      assert Score(s[i + 1]) == score;
    }
  }

  lemma SameFirst(s: seq<Judgment>, a: seq<Judgment>, b: seq<Judgment>)
    requires StablySorts(s, a) && StablySorts(s, b) && a != [] && b != []
    ensures a[0] == b[0]
  {
    var low, other := Score(a[0]), Score(b[0]);
    assert WithScore(a, low) == WithScore(b, low) != [];
    assert WithScore(a, other) == WithScore(b, other) != [];
    FoundWithScore(b, low);
    FoundWithScore(a, other);
    assert low == other;
    assert WithScore(a, low)[0] == a[0] && WithScore(b, low)[0] == b[0];
  }

  /** Where a judgment without a score ends up: after those below 100, before those above. */
  lemma {:induction false} UnscoredCountAsHundred(s: seq<Judgment>, i: nat, j: nat)
    requires i < j < |SortByScore(s)|
    ensures var sorted := SortByScore(s);
      && (sorted[i].overallScore == None && sorted[j].overallScore.Some? ==> sorted[j].overallScore.value >= 100.0)
      && (sorted[j].overallScore == None && sorted[i].overallScore.Some? ==> sorted[i].overallScore.value <= 100.0)
      && (sorted[i].overallScore.Some? && sorted[j].overallScore.Some? ==>
            sorted[i].overallScore.value <= sorted[j].overallScore.value)
  {
    SortIsStable(s);
    assert Score(SortByScore(s)[i]) <= Score(SortByScore(s)[j]);
  }

  // ---------------------------------------------------------------- the five forwarded

  /** sorted(failed)[:5] */
  function Forwarded(js: seq<Judgment>): seq<Judgment> {
    var sorted := SortByScore(FailedOnes(js));
    if |sorted| <= LIMIT then sorted else sorted[..LIMIT]
  }

  lemma {:induction false} TakePrefixWithScore(s: seq<Judgment>, n: nat, score: real)
    requires n <= |s|
    ensures WithScore(s[..n], score) <= WithScore(s, score)
  {
    if n > 0 {
      TakePrefixWithScore(s[1..], n - 1, score);
      assert s[..n][1..] == s[1..][..n - 1];
    }
  }

  /** At most five of the failed judgments, sorted, and of each score the earliest; none that is left
      out scores below one that is kept. */
  lemma {:induction false} WorstFive(js: seq<Judgment>)
    ensures |Forwarded(js)| == (if |FailedOnes(js)| < 5 then |FailedOnes(js)| else 5)
    ensures Sorted(Forwarded(js))
    ensures multiset(Forwarded(js)) <= multiset(FailedOnes(js))
    ensures forall score: real :: WithScore(Forwarded(js), score) <= WithScore(FailedOnes(js), score)
    ensures forall kept, left :: kept in Forwarded(js) && left in multiset(FailedOnes(js)) - multiset(Forwarded(js))
              ==> Score(kept) <= Score(left)
  {
    var failed := FailedOnes(js);
    var sorted := SortByScore(failed);
    SortIsStable(failed);
    var n := if |sorted| <= LIMIT then |sorted| else LIMIT;
    assert Forwarded(js) == sorted[..n];
    CutIsLowest(sorted, n);
    forall score: real ensures WithScore(Forwarded(js), score) <= WithScore(failed, score) {
      TakePrefixWithScore(sorted, n, score);
    }
  }

  /** Cutting a sorted list keeps its lowest members. */
  lemma CutIsLowest(s: seq<Judgment>, n: nat)
    requires Sorted(s) && n <= |s|
    ensures Sorted(s[..n]) && multiset(s[..n]) <= multiset(s)
    ensures forall kept, left :: kept in s[..n] && left in multiset(s) - multiset(s[..n]) ==> Score(kept) <= Score(left)
  {
    assert s == s[..n] + s[n..];
    assert multiset(s) - multiset(s[..n]) == multiset(s[n..]);
  }

  /** Which judgments fail: the failed ones of the list, in order and with their multiplicity. */
  lemma {:induction false} FailedOnesAreTheFailures(js: seq<Judgment>, j: Judgment)
    ensures multiset(FailedOnes(js))[j] ==
      if (j.overallScore.Some? && j.overallScore.value < 80.0) || j.passed == Some(false) then multiset(js)[j] else 0
  {
    if js != [] {
      FailedOnesAreTheFailures(js[1..], j);
      assert js == [js[0]] + js[1..];
    }
  }

  // ---------------------------------------------------------------- on the judge's own output

  /** The judge's dictionaries have no overall_score. */
  function Read(js: seq<EvaluationState.Judgment>): seq<Judgment> {
    if js == [] then []
    else [Judgment(js[0].scenarioId, None, Some(js[0].passed))] + Read(js[1..])
  }

  function NotPassed(js: seq<EvaluationState.Judgment>): seq<EvaluationState.Judgment> {
    if js == [] then []
    else if js[0].passed then NotPassed(js[1..])
    else [js[0]] + NotPassed(js[1..])
  }

  function First(js: seq<EvaluationState.Judgment>, n: nat): seq<EvaluationState.Judgment> {
    if |js| <= n then js else js[..n]
  }

  lemma {:induction false} EqualScoresStay(s: seq<Judgment>)
    requires forall i :: 0 <= i < |s| ==> s[i].overallScore.None?
    ensures SortByScore(s) == s
  {
    if s != [] {
      EqualScoresStay(s[1..]);
    }
  }

  lemma {:induction false} ReadScores(js: seq<EvaluationState.Judgment>)
    ensures |Read(js)| == |js| && forall i :: 0 <= i < |js| ==> Read(js)[i].overallScore.None?
    ensures FailedOnes(Read(js)) == Read(NotPassed(js))
  {
    if js != [] {
      ReadScores(js[1..]);
      assert Read(js)[1..] == Read(js[1..]);
      if !js[0].passed {
        assert NotPassed(js)[1..] == NotPassed(js[1..]);
      }
    }
  }

  lemma {:induction false} ReadFirst(js: seq<EvaluationState.Judgment>, n: nat)
    requires n <= |js|
    ensures n <= |Read(js)| && Read(js)[..n] == Read(js[..n])
  {
    if n > 0 {
      ReadFirst(js[1..], n - 1);
      assert js[..n][1..] == js[1..][..n - 1];
      assert Read(js)[..n] == [Read(js)[0]] + Read(js[1..])[..n - 1];
    }
  }

  /** On the judge's own output there are no scores to sort by: whatever its scores, a passed judgment
      is never forwarded, and of the others the first five are, not the worst five. */
  lemma {:induction false} JudgeOutputForwardsTheFirstFive(js: seq<EvaluationState.Judgment>)
    ensures Forwarded(Read(js)) == Read(First(NotPassed(js), LIMIT))
  {
    ReadScores(js);
    ReadScores(NotPassed(js));
    EqualScoresStay(FailedOnes(Read(js)));
    if |NotPassed(js)| > LIMIT {
      ReadFirst(NotPassed(js), LIMIT);
    }
  }

  // ---------------------------------------------------------------- are they the worst?

  /** A failure by the filter's own rule, applied to the judge's score: not passed, or a low score. */
  predicate IsFailure(j: EvaluationState.Judgment) { !j.passed || j.score < PASS_MARK }

  /** No failure that is left out has a lower score from the judge than one that is forwarded: neither
      one of those that did not pass, past the fifth, nor one that passed with a low score. */
  predicate ForwardsTheWorst(js: seq<EvaluationState.Judgment>) {
    var failed := NotPassed(js);
    && (forall i, j :: 0 <= i < LIMIT <= j < |failed| ==> failed[i].score <= failed[j].score)
    && (forall i, j :: 0 <= i < LIMIT && i < |failed| && 0 <= j < |js| && js[j].passed && IsFailure(js[j])
          ==> failed[i].score <= js[j].score)
  }

  /** A judgment that passed is never forwarded, however low its score. */
  lemma {:induction false} PassedIsNeverForwarded(js: seq<EvaluationState.Judgment>)
    ensures forall k :: 0 <= k < |Forwarded(Read(js))| ==> Forwarded(Read(js))[k].passed == Some(false)
  {
    JudgeOutputForwardsTheFirstFive(js);
    NotPassedFailed(js);
    ReadPassed(First(NotPassed(js), LIMIT));
  }

  lemma {:induction false} NotPassedFailed(js: seq<EvaluationState.Judgment>)
    ensures forall i :: 0 <= i < |NotPassed(js)| ==> !NotPassed(js)[i].passed
  {
    if js != [] {
      NotPassedFailed(js[1..]);
    }
  }

  lemma {:induction false} ReadPassed(js: seq<EvaluationState.Judgment>)
    ensures |Read(js)| == |js| && forall i :: 0 <= i < |js| ==> Read(js)[i].passed == Some(js[i].passed)
  {
    if js != [] {
      ReadPassed(js[1..]);
    }
  }

  predicate ValidScores(scores: seq<real>) { forall i :: 0 <= i < |scores| ==> 0.0 <= scores[i] <= 100.0 }

  /** The same judgments with other scores. */
  function Rescored(js: seq<EvaluationState.Judgment>, scores: seq<real>): seq<EvaluationState.Judgment>
    requires |js| == |scores|
  {
    if js == [] then [] else [js[0].(score := scores[0])] + Rescored(js[1..], scores[1..])
  }

  lemma {:induction false} RescoredFailures(js: seq<EvaluationState.Judgment>, scores: seq<real>)
    requires |js| == |scores|
    ensures |NotPassed(Rescored(js, scores))| == |NotPassed(js)|
  {
    if js != [] {
      RescoredFailures(js[1..], scores[1..]);
      assert Rescored(js, scores)[1..] == Rescored(js[1..], scores[1..]);
    }
  }

  /** Scores by which the first judgment that did not pass is the best of them. */
  function FirstIsBest(js: seq<EvaluationState.Judgment>, best: real): (scores: seq<real>)
    ensures |scores| == |js|
  {
    if js == [] then [] else [best] + FirstIsBest(js[1..], if js[0].passed then best else 0.0)
  }

  lemma {:induction false} FirstIsBestValid(js: seq<EvaluationState.Judgment>, best: real)
    requires 0.0 <= best <= 100.0
    ensures ValidScores(FirstIsBest(js, best))
  {
    if js != [] {
      FirstIsBestValid(js[1..], if js[0].passed then best else 0.0);
    }
  }

  lemma {:induction false} FirstIsBestScores(js: seq<EvaluationState.Judgment>, best: real, i: nat)
    requires i < |NotPassed(Rescored(js, FirstIsBest(js, best)))|
    ensures NotPassed(Rescored(js, FirstIsBest(js, best)))[i].score == if i == 0 then best else 0.0
  {
    assert Rescored(js, FirstIsBest(js, best))[1..]
        == Rescored(js[1..], FirstIsBest(js[1..], if js[0].passed then best else 0.0));
    if js[0].passed {
      FirstIsBestScores(js[1..], best, i);
    } else if i > 0 {
      FirstIsBestScores(js[1..], 0.0, i - 1);
    }
  }

  /** Scores by which every judgment that passed is the worst possible, and the others perfect. */
  function PassedIsWorst(js: seq<EvaluationState.Judgment>): (scores: seq<real>)
    ensures |scores| == |js| && ValidScores(scores)
    ensures forall i :: 0 <= i < |js| ==> scores[i] == if js[i].passed then 0.0 else 100.0
  {
    seq(|js|, i requires 0 <= i < |js| => if js[i].passed then 0.0 else 100.0)
  }

  lemma {:induction false} RescoredAt(js: seq<EvaluationState.Judgment>, scores: seq<real>)
    requires |js| == |scores|
    ensures |Rescored(js, scores)| == |js|
    ensures forall i :: 0 <= i < |js| ==> Rescored(js, scores)[i] == js[i].(score := scores[i])
  {
    if js != [] {
      RescoredAt(js[1..], scores[1..]);
      assert Rescored(js, scores)[1..] == Rescored(js[1..], scores[1..]);
    }
  }

  lemma {:induction false} FailuresAreAmong(js: seq<EvaluationState.Judgment>)
    ensures forall i :: 0 <= i < |NotPassed(js)| ==> NotPassed(js)[i] in js
    ensures |NotPassed(js)| <= |js| && (|NotPassed(js)| == |js| ==> NotPassed(js) == js)
    ensures NotPassed(js) != js ==> exists i :: 0 <= i < |js| && js[i].passed
  {
    if js != [] {
      FailuresAreAmong(js[1..]);
      assert js == [js[0]] + js[1..];
      if !js[0].passed && NotPassed(js) != js {
        var i :| 0 <= i < |js[1..]| && js[1..][i].passed;
        assert js[i + 1].passed;
      }
    }
  }

  /** One outcome at most: nothing failed, or nothing passed. */
  predicate OneOutcome(js: seq<EvaluationState.Judgment>) { NotPassed(js) == [] || NotPassed(js) == js }

  lemma {:induction false} NonePassed(js: seq<EvaluationState.Judgment>)
    requires NotPassed(js) == js
    ensures forall i :: 0 <= i < |js| ==> !js[i].passed
  {
    NotPassedFailed(js);
  }

  /** With both outcomes, a judgment that passed with the lowest score is left out. */
  lemma {:induction false} MixedIsNotSafe(js: seq<EvaluationState.Judgment>)
    requires !OneOutcome(js)
    ensures !ForwardsTheWorst(Rescored(js, PassedIsWorst(js)))
  {
    var rescored := Rescored(js, PassedIsWorst(js));
    RescoredAt(js, PassedIsWorst(js));
    RescoredFailures(js, PassedIsWorst(js));
    FailuresAreAmong(js);
    FailuresAreAmong(rescored);
    NotPassedFailed(rescored);
    var j :| 0 <= j < |js| && js[j].passed;
    assert rescored[j].passed && rescored[j].score == 0.0 && IsFailure(rescored[j]);
    var first := NotPassed(rescored)[0];
    assert first in rescored && !first.passed;
    assert first.score == 100.0;
  }

  lemma {:induction false} TooManyAreNotSafe(js: seq<EvaluationState.Judgment>)
    requires |NotPassed(js)| > LIMIT
    ensures !ForwardsTheWorst(Rescored(js, FirstIsBest(js, 100.0)))
  {
    RescoredFailures(js, FirstIsBest(js, 100.0));
    FirstIsBestScores(js, 100.0, 0);
    FirstIsBestScores(js, 100.0, LIMIT);
  }

  lemma {:induction false} FewOfOneOutcomeAreSafe(js: seq<EvaluationState.Judgment>, scores: seq<real>)
    requires |scores| == |js| && |NotPassed(js)| <= LIMIT && OneOutcome(js)
    ensures ForwardsTheWorst(Rescored(js, scores))
  {
    RescoredFailures(js, scores);
    RescoredAt(js, scores);
    if NotPassed(js) == js {
      NonePassed(js);
    }
  }

  /** Every valid assignment of scores leaves the failures forwarded the worst. */
  ghost predicate WorstForAllScores(js: seq<EvaluationState.Judgment>) {
    forall scores: seq<real> :: |scores| == |js| && ValidScores(scores) ==> ForwardsTheWorst(Rescored(js, scores))
  }

  /** The failures forwarded are the worst by the judge's own scores, whatever those scores are, if and
      only if at most five judgments did not pass and either all of them did not or none. */
  lemma {:induction false} WorstForAllScoresIff(js: seq<EvaluationState.Judgment>)
    ensures WorstForAllScores(js) <==> |NotPassed(js)| <= LIMIT && OneOutcome(js)
  {
    if |NotPassed(js)| > LIMIT {
      FirstIsBestValid(js, 100.0);
      TooManyAreNotSafe(js);
    } else if !OneOutcome(js) {
      MixedIsNotSafe(js);
    } else {
      forall scores: seq<real> | |scores| == |js| && ValidScores(scores)
          ensures ForwardsTheWorst(Rescored(js, scores)) {
        FewOfOneOutcomeAreSafe(js, scores);
      }
    }
  }

  /** Two failures, the second passed with a score of 10: it is the one left out. */
  lemma {:induction false} LowScoreIsLeftOut(a: EvaluationState.Judgment, b: EvaluationState.Judgment)
    requires !a.passed && a.score == 60.0 && b.passed && b.score == 10.0
    ensures IsFailure(b) && Forwarded(Read([a, b])) == Read([a]) && !ForwardsTheWorst([a, b])
  {
    assert [a, b][1..] == [b] && [b][1..] == [];
    assert NotPassed([a, b]) == [a] + NotPassed([b]) == [a];
    JudgeOutputForwardsTheFirstFive([a, b]);
    var js := [a, b];
    assert js[1].passed && IsFailure(js[1]) && js[1].score < NotPassed(js)[0].score;
  }

  /** Six failures, the last with the lowest score: it is the one left out. */
  lemma {:induction false} SixthFailureIsLeftOut(js: seq<EvaluationState.Judgment>)
    requires |js| == 6 && forall i :: 0 <= i < 6 ==> !js[i].passed && js[i].score == 60.0 - 10.0 * i as real
    ensures Forwarded(Read(js)) == Read(js[..5]) && !ForwardsTheWorst(js)
  {
    AllNotPassed(js);
    JudgeOutputForwardsTheFirstFive(js);
    assert js[5].score < js[0].score;
  }

  lemma {:induction false} AllNotPassed(js: seq<EvaluationState.Judgment>)
    requires forall i :: 0 <= i < |js| ==> !js[i].passed
    ensures NotPassed(js) == js
  {
    if js != [] {
      AllNotPassed(js[1..]);
    }
  }
}
