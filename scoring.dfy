/** Emotion detection and churn scoring over the classifier's output.

    The classifier itself is not modelled: its answer for one message is a
    sequence of (label, score) pairs handed in by the caller. Scores are
    `real`; floating-point rounding is not modelled. */
module Scoring {

  /** One entry of the classifier's answer: `{"label": ..., "score": ...}`. */
  datatype LabelScore = LabelScore(emotion: string, score: real)

  /** The labels that count as a churn risk, in the order main.py lists them. */
  const NegativeEmotions: seq<string> := ["anger", "disgust", "fear", "sadness"]

  // ---------------------------------------------------------------------------
  // Lower-casing
  // ---------------------------------------------------------------------------

  function LowerChar(c: char): (d: char)
    ensures 'A' <= c <= 'Z' ==> d as int == c as int + 32
    ensures !('A' <= c <= 'Z') ==> d == c
  {
    if 'A' <= c <= 'Z' then (c as int + 32) as char else c
  }

  /** `str.lower()` on the ASCII letters: each character lower-cased on its own. */
  function Lower(s: string): (r: string)
    ensures |r| == |s|
    ensures forall i :: 0 <= i < |s| ==> r[i] == LowerChar(s[i])
  {
    if s == [] then [] else [LowerChar(s[0])] + Lower(s[1..])
  }

  predicate NoUpper(s: string)
  {
    forall i :: 0 <= i < |s| ==> !('A' <= s[i] <= 'Z')
  }

  /** A string without upper-case letters is its own lower-case form. */
  lemma {:induction false} LowerOfNoUpper(s: string)
    requires NoUpper(s)
    ensures Lower(s) == s
  {
    if s != [] {
      assert NoUpper(s[1..]) by {
        forall i | 0 <= i < |s[1..]| ensures !('A' <= s[1..][i] <= 'Z') {
          assert s[1..][i] == s[i + 1];
        }
      }
      LowerOfNoUpper(s[1..]);
    }
  }

  /** Lower-casing twice is lower-casing once. */
  lemma {:induction false} LowerIdempotent(s: string)
    ensures Lower(Lower(s)) == Lower(s)
  {
    if s != [] {
      LowerIdempotent(s[1..]);
      assert Lower(s) == [LowerChar(s[0])] + Lower(s[1..]);
      assert Lower(s)[1..] == Lower(s[1..]);
    }
  }

  // ---------------------------------------------------------------------------
  // detect_emotion: sorted(result, key=score, reverse=True)[0]['label']
  // ---------------------------------------------------------------------------

  /** Sorted by score, highest first. */
  predicate SortedDesc(s: seq<LabelScore>)
  {
    forall i, j :: 0 <= i < j < |s| ==> s[i].score >= s[j].score
  }

  /** `k` is the position of the first entry with the highest score. */
  predicate IsFirstMax(s: seq<LabelScore>, k: int)
  {
    && 0 <= k < |s|
    && (forall j :: 0 <= j < |s| ==> s[j].score <= s[k].score)
    && (forall j :: 0 <= j < k ==> s[j].score < s[k].score)
  }

  /** The first position holding the highest score. */
  function FirstMax(s: seq<LabelScore>): (k: nat)
    requires |s| > 0
    ensures IsFirstMax(s, k)
  {
    if |s| == 1 then 0
    else
      var t := FirstMax(s[1..]);
      if s[1 + t].score > s[0].score then 1 + t else 0
  }

  /** The first maximum is unique. */
  lemma FirstMaxUnique(s: seq<LabelScore>, k: int, k': int)
    requires IsFirstMax(s, k) && IsFirstMax(s, k')
    ensures k == k'
  {
    assert s[k].score <= s[k'].score && s[k'].score <= s[k].score;
  }

  /** Places `x` after every entry of `t` with a strictly higher score and
      before the rest, so that `x` stays ahead of the equal scores that came
      after it in the input. */
  function Insert(x: LabelScore, t: seq<LabelScore>): (r: seq<LabelScore>)
    ensures multiset(r) == multiset(t) + multiset{x}
  {
    if t == [] || t[0].score <= x.score then [x] + t
    else
      assert t == [t[0]] + t[1..];
      [t[0]] + Insert(x, t[1..])
  }

  /** Inserting into a sorted list keeps it sorted. */
  lemma {:induction false} InsertSorted(x: LabelScore, t: seq<LabelScore>)
    requires SortedDesc(t)
    ensures SortedDesc(Insert(x, t))
  {
    if t != [] && t[0].score > x.score {
      var rest := Insert(x, t[1..]);
      assert SortedDesc(t[1..]);
      InsertSorted(x, t[1..]);
      forall j | 0 <= j < |rest| ensures t[0].score >= rest[j].score {
        assert rest[j] in multiset(rest);
        assert rest[j] in multiset(t[1..]) || rest[j] == x;
        if rest[j] != x {
          var m :| 0 <= m < |t[1..]| && t[1..][m] == rest[j];
          assert t[1 + m] == rest[j];
        }
      }
      assert Insert(x, t) == [t[0]] + rest;
    }
  }

  /** Python's `sorted(result, key=lambda x: x['score'], reverse=True)`: a
      permutation of the input, highest score first. Python's sort is stable;
      of that, the model proves only the part `detect_emotion` uses: the head
      is the first maximum (`SortHeadIsFirstMax`). */
  function SortDesc(s: seq<LabelScore>): (r: seq<LabelScore>)
    ensures multiset(r) == multiset(s)
    ensures SortedDesc(r)
  {
    if s == [] then []
    else
      assert s == [s[0]] + s[1..];
      InsertSorted(s[0], SortDesc(s[1..]));
      Insert(s[0], SortDesc(s[1..]))
  }

  /** The head of the stable descending sort is the first maximum of the input. */
  lemma {:induction false} SortHeadIsFirstMax(s: seq<LabelScore>)
    requires |s| > 0
    ensures |SortDesc(s)| == |s|
    ensures SortDesc(s)[0] == s[FirstMax(s)]
  {
    assert |multiset(SortDesc(s))| == |multiset(s)|;
    if |s| > 1 {
      SortHeadIsFirstMax(s[1..]);
    }
  }

  /** `detect_emotion`: the label of the first highest-scoring entry, and the
      classifier's list as it was given (not the sorted one). */
  function DetectEmotion(result: seq<LabelScore>): (r: (string, seq<LabelScore>))
    requires |result| > 0
    ensures r.1 == result
    ensures exists k :: IsFirstMax(result, k) && r.0 == result[k].emotion
  {
    SortHeadIsFirstMax(result);
    (SortDesc(result)[0].emotion, result)
  }

  /** Every first maximum gives the label `DetectEmotion` returns. */
  lemma DetectEmotionLabel(result: seq<LabelScore>, k: int)
    requires IsFirstMax(result, k)
    ensures DetectEmotion(result).0 == result[k].emotion
  {
    var k' :| IsFirstMax(result, k') && DetectEmotion(result).0 == result[k'].emotion;
    FirstMaxUnique(result, k, k');
  }

  // ---------------------------------------------------------------------------
  // predict_churn and calculate_churn_percent
  // ---------------------------------------------------------------------------

  /** `label.lower() in negative_emotions`. */
  predicate IsNegative(name: string)
    ensures IsNegative(name) <==> (Lower(name) == "anger" || Lower(name) == "disgust"
                                   || Lower(name) == "fear" || Lower(name) == "sadness")
  {
    Lower(name) in NegativeEmotions
  }

  /** `predict_churn`: the risk flag for the detected emotion. The message
      text is accepted and ignored, as in main.py. */
  function PredictChurn(text: string, emotion: string): (risk: bool)
    ensures risk <==> (Lower(emotion) == "anger" || Lower(emotion) == "disgust"
                       || Lower(emotion) == "fear" || Lower(emotion) == "sadness")
  {
    IsNegative(emotion)
  }

  /** The flag does not depend on the text nor on the case of the label. */
  lemma PredictChurnCaseInsensitive(text: string, text': string, emotion: string)
    ensures PredictChurn(text, emotion) == PredictChurn(text', Lower(emotion))
  {
    LowerIdempotent(emotion);
  }

  /** The flag is raised exactly when the top-scoring label is a negative one. */
  lemma ChurnFlagFollowsTopLabel(text: string, result: seq<LabelScore>)
    requires |result| > 0
    ensures PredictChurn(text, DetectEmotion(result).0) <==> IsNegative(result[FirstMax(result)].emotion)
  {
    DetectEmotionLabel(result, FirstMax(result));
  }

  /** The sum of all scores, added left to right as `sum` does. */
  function TotalMass(scores: seq<LabelScore>): real
  {
    if scores == [] then 0.0 else TotalMass(scores[..|scores| - 1]) + scores[|scores| - 1].score
  }

  /** The entries with a negative label, in their original order: the filter of
      the generator expression. */
  function NegativeEntries(scores: seq<LabelScore>): (r: seq<LabelScore>)
    ensures forall x :: x in r ==> x in scores && IsNegative(x.emotion)
    ensures forall x :: x in scores && IsNegative(x.emotion) ==> x in r
    ensures forall x :: multiset(r)[x] == if IsNegative(x.emotion) then multiset(scores)[x] else 0
  {
    if scores == [] then []
    else
      assert scores == scores[..|scores| - 1] + [scores[|scores| - 1]];
      NegativeEntries(scores[..|scores| - 1])
      + (if IsNegative(scores[|scores| - 1].emotion) then [scores[|scores| - 1]] else [])
  }

  /** `sum(score for score in emotion_scores if label.lower() in risk_emotions)`. */
  function NegativeMass(scores: seq<LabelScore>): real
  {
    if scores == [] then 0.0
    else NegativeMass(scores[..|scores| - 1])
         + (if IsNegative(scores[|scores| - 1].emotion) then scores[|scores| - 1].score else 0.0)
  }

  /** The negative mass is the sum of the scores of the negative entries. */
  lemma {:induction false} NegativeMassIsFilteredSum(scores: seq<LabelScore>)
    ensures NegativeMass(scores) == TotalMass(NegativeEntries(scores))
  {
    if scores != [] {
      var init, last := scores[..|scores| - 1], scores[|scores| - 1];
      var before := NegativeEntries(init);
      NegativeMassIsFilteredSum(init);
      if IsNegative(last.emotion) {
        assert NegativeEntries(scores) == before + [last];
        assert (before + [last])[..|before|] == before;
      } else {
        assert NegativeEntries(scores) == before + [];
        assert before + [] == before;
      }
    }
  }

  /** `calculate_churn_percent`: 100 times the negative mass. */
  function ChurnPercent(scores: seq<LabelScore>): (p: real)
    ensures scores == [] ==> p == 0.0
  {
    NegativeMass(scores) * 100.0
  }

  predicate NonNegativeScores(scores: seq<LabelScore>)
  {
    forall i :: 0 <= i < |scores| ==> scores[i].score >= 0.0
  }

  /** With no negative label at all, the percentage is zero. */
  lemma {:induction false} NoNegativeLabelNoRisk(scores: seq<LabelScore>)
    requires forall i :: 0 <= i < |scores| ==> !IsNegative(scores[i].emotion)
    ensures ChurnPercent(scores) == 0.0
  {
    if scores != [] {
      NoNegativeLabelNoRisk(scores[..|scores| - 1]);
    }
  }

  /** The negative mass of a concatenation is the sum of the two masses. */
  lemma {:induction false} NegativeMassAppend(a: seq<LabelScore>, b: seq<LabelScore>)
    ensures NegativeMass(a + b) == NegativeMass(a) + NegativeMass(b)
  {
    if b != [] {
      assert (a + b)[..|a + b| - 1] == a + b[..|b| - 1];
      NegativeMassAppend(a, b[..|b| - 1]);
    } else {
      assert a + b == a;
    }
  }

  /** With non-negative scores, the negative mass lies between 0 and the total. */
  lemma {:induction false} NegativeMassBounds(scores: seq<LabelScore>)
    requires NonNegativeScores(scores)
    ensures 0.0 <= NegativeMass(scores) <= TotalMass(scores)
  {
    if scores != [] {
      NegativeMassBounds(scores[..|scores| - 1]);
    }
  }

  /** When the scores are non-negative and sum to 1, the percentage lies in [0, 100]. */
  lemma ChurnPercentInRange(scores: seq<LabelScore>)
    requires NonNegativeScores(scores) && TotalMass(scores) == 1.0
    ensures 0.0 <= ChurnPercent(scores) <= 100.0
  {
    NegativeMassBounds(scores);
  }

  /** A negative entry contributes at least its own score to the mass. */
  lemma {:induction false} NegativeMassCoversEntry(scores: seq<LabelScore>, k: int)
    requires NonNegativeScores(scores)
    requires 0 <= k < |scores| && IsNegative(scores[k].emotion)
    ensures NegativeMass(scores) >= scores[k].score
  {
    var init := scores[..|scores| - 1];
    NegativeMassBounds(init);
    if k < |scores| - 1 {
      assert init[k] == scores[k];
      NegativeMassCoversEntry(init, k);
    }
  }

  /** When the flag is raised, the percentage is at least 100 times the top score. */
  lemma RiskFlagBoundsPercent(text: string, result: seq<LabelScore>)
    requires |result| > 0 && NonNegativeScores(result)
    requires PredictChurn(text, DetectEmotion(result).0)
    ensures ChurnPercent(result) >= 100.0 * result[FirstMax(result)].score
  {
    ChurnFlagFollowsTopLabel(text, result);
    NegativeMassCoversEntry(result, FirstMax(result));
  }

  /** Example classifier answer: anger 0.6, joy 0.3, neutral 0.1. */
  function AngerResult(): seq<LabelScore>
  {
    [LabelScore("anger", 0.6), LabelScore("joy", 0.3), LabelScore("neutral", 0.1)]
  }

  /** Example labels: "anger" is negative, "joy" and "neutral" are not. */
  lemma AngerExampleLabels()
    ensures IsNegative("anger") && !IsNegative("joy") && !IsNegative("neutral")
  {
    AngerIsNegative();
    JoyIsNotNegative();
    NeutralIsNotNegative();
  }

  lemma AngerIsNegative()
    ensures IsNegative("anger")
  {
    var anger := "anger";
    assert NoUpper(anger) by {
      assert forall i :: 0 <= i < |anger| ==> anger[i] in {'a', 'n', 'g', 'e', 'r'};
    }
    LowerOfNoUpper(anger);
    assert anger == NegativeEmotions[0];
  }

  lemma JoyIsNotNegative()
    ensures !IsNegative("joy")
  {
    var joy := "joy";
    assert NoUpper(joy) by {
      assert forall i :: 0 <= i < |joy| ==> joy[i] in {'j', 'o', 'y'};
    }
    LowerOfNoUpper(joy);
  }

  lemma NeutralIsNotNegative()
    ensures !IsNegative("neutral")
  {
    var neutral := "neutral";
    assert NoUpper(neutral) by {
      assert forall i :: 0 <= i < |neutral| ==> neutral[i] in {'n', 'e', 'u', 't', 'r', 'a', 'l'};
    }
    LowerOfNoUpper(neutral);
    assert neutral[0] != NegativeEmotions[1][0] && neutral[0] != NegativeEmotions[3][0];
  }

  /** Example: the top label of anger 0.6, joy 0.3, neutral 0.1 is "anger",
      and it raises the flag. */
  lemma AngerExampleFlag()
    ensures DetectEmotion(AngerResult()).0 == "anger"
    ensures PredictChurn("", DetectEmotion(AngerResult()).0)
  {
    var result := AngerResult();
    assert IsFirstMax(result, 0);
    DetectEmotionLabel(result, 0);
    AngerExampleLabels();
  }

  /** Example: anger 0.6, joy 0.3, neutral 0.1 gives 60 percent. */
  lemma AngerExamplePercent()
    ensures ChurnPercent(AngerResult()) == 60.0
  {
    AngerExampleLabels();
    NegativeMassOfThree(LabelScore("anger", 0.6), LabelScore("joy", 0.3), LabelScore("neutral", 0.1));
  }

  /** The negative mass of three entries, one term per entry. */
  lemma NegativeMassOfThree(x: LabelScore, y: LabelScore, z: LabelScore)
    ensures NegativeMass([x, y, z]) == (if IsNegative(x.emotion) then x.score else 0.0)
                                       + (if IsNegative(y.emotion) then y.score else 0.0)
                                       + (if IsNegative(z.emotion) then z.score else 0.0)
  {
    assert [x][..0] == [];
    assert NegativeMass([x]) == if IsNegative(x.emotion) then x.score else 0.0;
    assert [x, y][..1] == [x];
    assert NegativeMass([x, y]) == NegativeMass([x]) + if IsNegative(y.emotion) then y.score else 0.0;
    assert [x, y, z][..2] == [x, y];
  }

  // ---------------------------------------------------------------------------
  // The churn bar's colour band
  // ---------------------------------------------------------------------------

  datatype Band = High | Medium | Low

  /** The bar is red from 70 up, orange from 40 up, green below. */
  function ChurnBand(percent: real): (b: Band)
    ensures b == High <==> percent >= 70.0
    ensures b == Low <==> percent < 40.0
  {
    if percent >= 70.0 then High else if percent >= 40.0 then Medium else Low
  }

  /** Each band has its own colour. */
  function BandColour(b: Band): (c: string)
    ensures c == "#FF5252" <==> b == High
    ensures c == "#66BB6A" <==> b == Low
  {
    match b
    case High => "#FF5252"
    case Medium => "#FFA726"
    case Low => "#66BB6A"
  }

  function BandRank(b: Band): nat
  {
    match b
    case Low => 0
    case Medium => 1
    case High => 2
  }

  /** The colour of the churn bar for a percentage: red from 70 up, orange
      from 40 up, green below. */
  function ChurnColour(percent: real): (c: string)
    ensures c == "#FF5252" <==> percent >= 70.0
    ensures c == "#FFA726" <==> 40.0 <= percent < 70.0
    ensures c == "#66BB6A" <==> percent < 40.0
  {
    BandColour(ChurnBand(percent))
  }

  /** A higher percentage never gives a lower band. */
  lemma ChurnBandMonotone(p: real, q: real)
    requires p <= q
    ensures BandRank(ChurnBand(p)) <= BandRank(ChurnBand(q))
  {
  }
}
