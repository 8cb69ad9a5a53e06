/**
 * The survey session: the state the client script keeps in its closure
 * (`currentQuestionIndex`, `score`, `userAnswers`, and what the page shows)
 * and the handlers that change it.
 */
module SurveySession {
  import opened Wrappers
  import opened JsNumbers
  import opened Survey

  class Session {
    /** `totalQuestions`: the number of question elements on the page. */
    const total: nat
    /** `currentQuestionIndex`, 0-based. */
    var index: int
    var score: int
    /** `userAnswers`, keyed by 0-based question index; only answered questions are present. */
    var answers: map<int, Answer>
    /** The completion screen is shown, and the questions and the navigation are hidden. */
    var completed: bool
    /** How many connection-error notices are on the page. */
    var notices: nat
    /** The score written on the completion screen, once there is one. */
    var finalScore: Option<int>
    /** The answers stored since the session began or was last restarted, oldest first. */
    ghost var history: seq<Entry>

    ghost predicate Valid()
      reads this
    {
      && total >= 1
      && 0 <= index < total
      && (forall k :: k in answers ==> 0 <= k < total)
      && answers == Replay(history)
      && score == TotalPoints(answers, total)
    }

    /** The navigation controls `updateUI` derives from the state. */
    function Navigation(): Controls
      reads this
    {
      ControlsFor(index, total, answers)
    }

    /** An error notice can be seen: notices are shown together with the completion screen. */
    function NoticeVisible(): bool
      reads this
    {
      completed && notices > 0
    }

    /** As the script is written, a notice can be seen: it sits in the question container. */
    function NoticeVisibleAsWritten(): bool
      reads this
    {
      NoticeShownAsWritten(completed, notices)
    }

    constructor (totalQuestions: nat)
      requires totalQuestions >= 1
      ensures Valid()
      ensures total == totalQuestions && index == 0 && score == 0 && answers == map[]
      ensures !completed && notices == 0 && finalScore == None && history == []
    {
      total := totalQuestions;
      index := 0;
      score := 0;
      answers := map[];
      completed := false;
      notices := 0;
      finalScore := None;
      history := [];
    }

    /** `calculateScore`. */
    method CalculateScore()
      modifies this`score
      ensures score == TotalPoints(answers, total)
    {
      score := TotalPoints(answers, total);
    }

    /** `userAnswers[qi] = a` followed by `calculateScore()`. */
    method Store(qi: int, a: Answer)
      requires Valid()
      requires 0 <= qi < total
      modifies this
      ensures Valid()
      ensures answers == old(answers)[qi := a]
      ensures score == old(score) - PointsAt(old(answers), qi) + Points(a)
      ensures history == old(history) + [Entry(qi, a)]
      ensures index == old(index) && completed == old(completed)
      ensures notices == old(notices) && finalScore == old(finalScore)
    {
      ReplayAfterStore(history, Entry(qi, a));
      TotalPointsAfterStore(answers, total, qi, a);
      answers := answers[qi := a];
      history := history + [Entry(qi, a)];
      CalculateScore();
    }

    /** `handleOptionSelection`: the clicked option becomes the answer of question `qi`. */
    method SelectOption(qi: int, value: string, pointsAttr: Option<string>)
      requires Valid()
      requires 0 <= qi < total
      modifies this
      ensures Valid()
      ensures answers == old(answers)[qi := OptionAnswer(value, pointsAttr)]
      ensures score == old(score) - PointsAt(old(answers), qi) + ParsePoints(pointsAttr)
      ensures history == old(history) + [Entry(qi, OptionAnswer(value, pointsAttr))]
      ensures index == old(index) && completed == old(completed)
      ensures notices == old(notices) && finalScore == old(finalScore)
    {
      Store(qi, OptionAnswer(value, pointsAttr));
    }

    /** `handleSliderInput`: the slider's value becomes the answer of question `qi`. */
    method SliderInput(qi: int, raw: string)
      requires Valid()
      requires 0 <= qi < total
      modifies this
      ensures Valid()
      ensures answers == old(answers)[qi := SliderAnswer(raw)]
      ensures score == old(score) - PointsAt(old(answers), qi) + Points(SliderAnswer(raw))
      ensures history == old(history) + [Entry(qi, SliderAnswer(raw))]
      ensures index == old(index) && completed == old(completed)
      ensures notices == old(notices) && finalScore == old(finalScore)
    {
      Store(qi, SliderAnswer(raw));
    }

    /** The answer set of `submitSurvey`: the renumbered answers and the current score. */
    method BuildPayload() returns (data: SurveyData)
      requires Valid()
      ensures data == SurveyData(PayloadAnswers(answers, total), score)
    {
      var finalAnswers := NumberAnswers(answers, total);
      data := SurveyData(finalAnswers, score);
    }

    /** The state part of `showCompletionScreen`. */
    method ShowCompletionScreen()
      modifies this`completed, this`finalScore
      ensures completed && finalScore == Some(score)
    {
      completed := true;
      finalScore := Some(score);
    }

    /**
     * `submitSurvey`, with the store's outcome as `storeOk`: the answer set is
     * sent, a failure adds an error notice, and either way the survey completes.
     */
    method Submit(storeOk: bool) returns (data: SurveyData)
      requires Valid()
      modifies this`notices, this`completed, this`finalScore
      ensures Valid()
      ensures data == SurveyData(PayloadAnswers(answers, total), score)
      ensures completed && finalScore == Some(score)
      ensures notices == old(notices) + (if storeOk then 0 else 1)
      ensures !storeOk ==> NoticeVisible()
      ensures !NoticeVisibleAsWritten()
      ensures index == old(index) && answers == old(answers) && score == old(score)
      ensures history == old(history)
    {
      data := BuildPayload();
      if !storeOk {
        notices := notices + 1;
      }
      assert answers == old(answers);
      ShowCompletionScreen();
      assert answers == old(answers);
    }

    /**
     * `nextQuestion`: moves on when a later question exists, and submits on the
     * last one. It does not check that the current question is answered.
     */
    method Next(storeOk: bool) returns (sent: Option<SurveyData>)
      requires Valid()
      modifies this`index, this`notices, this`completed, this`finalScore
      ensures Valid()
      ensures sent.Some? <==> old(index) == total - 1
      ensures sent.Some? <==> old(Navigation()).nextLabel == FinishLabel
      ensures sent.None? ==> index == old(index) + 1 && completed == old(completed)
      ensures sent.None? ==> notices == old(notices) && finalScore == old(finalScore)
      ensures sent.Some? ==> index == old(index) && sent.value == SurveyData(PayloadAnswers(answers, total), score)
      ensures sent.Some? ==> completed && finalScore == Some(score)
      ensures sent.Some? ==> notices == old(notices) + (if storeOk then 0 else 1)
      ensures answers == old(answers) && score == old(score) && history == old(history)
    {
      if index < total - 1 {
        index := index + 1;
        sent := None;
      } else {
        var data := Submit(storeOk);
        sent := Some(data);
      }
    }

    /** `previousQuestion`: steps back unless on the first question. */
    method Previous()
      requires Valid()
      modifies this`index
      ensures Valid()
      ensures old(index) > 0 ==> index == old(index) - 1
      ensures old(index) == 0 ==> index == 0
      ensures index == old(index) <==> old(Navigation()).prevDisabled
    {
      if index > 0 {
        index := index - 1;
      }
    }

    /**
     * `restartSurvey`: back to the first question with no answers, no score,
     * no error notice, and the questions shown again.
     */
    method Restart()
      requires Valid()
      modifies this`index, this`score, this`answers, this`notices, this`completed, this`history
      ensures Valid()
      ensures index == 0 && score == 0 && answers == map[] && history == []
      ensures !completed && notices == 0 && !NoticeVisible()
      ensures finalScore == old(finalScore)
    {
      index := 0;
      score := 0;
      // `Object.keys(userAnswers)` lists the indices in ascending order, and all lie below `total`
      var k := 0;
      while k < total
        invariant 0 <= k <= total
        invariant forall j :: j in answers ==> k <= j < total
        modifies this`answers
      {
        answers := answers - {k};
        k := k + 1;
      }
      notices := 0;
      completed := false;
      history := [];
    }
  }

  /**
   * The `for…in` loop of `submitSurvey`: each key arrives as a string, and
   * `parseInt(key) + 1` turns it into the 1-based question number.
   */
  method NumberAnswers(answers: map<int, Answer>, total: nat) returns (finalAnswers: map<int, string>)
    ensures finalAnswers == PayloadAnswers(answers, total)
  {
    finalAnswers := map[];
    var k := 0;
    while k < total
      invariant 0 <= k <= total
      invariant finalAnswers == PayloadAnswers(answers, k)
    {
      if k in answers {
        var key := DecimalString(k);
        DecimalRoundTrip(k);
        var parsed := ParseInt(key).value;
        finalAnswers := finalAnswers[parsed + 1 := answers[k].value];
      }
      k := k + 1;
    }
  }

  /**
   * Three questions: a choice whose option carries `firstPoints`, a slider set
   * to `slider`, and a choice whose option carries `lastPoints`, each followed
   * by "Next" and, on the last question, "Finish Survey".
   */
  method ThreeQuestionSurvey(first: string, firstPoints: int, slider: int, last: string, lastPoints: int)
    returns (sent: Option<SurveyData>)
    ensures sent == Some(SurveyData(
      map[1 := first, 2 := DecimalString(slider), 3 := last],
      firstPoints + 2 * slider + lastPoints))
  {
    var s := AnswerThreeQuestions(first, firstPoints, slider, last, lastPoints);
    var a0, a1, a2 := Answer(first, Some(firstPoints)), Answer(DecimalString(slider), Some(2 * slider)), Answer(last, Some(lastPoints));
    ThreeAnswersPayload(a0, a1, a2);
    ThreeAnswersTotal(a0, a1, a2);
    sent := s.Next(true);
  }

  /** The session of `ThreeQuestionSurvey` when it reaches the last question. */
  method AnswerThreeQuestions(first: string, firstPoints: int, slider: int, last: string, lastPoints: int)
    returns (s: Session)
    ensures fresh(s) && s.Valid() && s.total == 3 && s.index == 2
    ensures s.answers == map[
      0 := Answer(first, Some(firstPoints)),
      1 := Answer(DecimalString(slider), Some(2 * slider)),
      2 := Answer(last, Some(lastPoints))]
  {
    s := AnswerTwoQuestions(first, firstPoints, slider);
    var attr := Some(DecimalString(lastPoints));
    assert OptionAnswer(last, attr) == Answer(last, Some(lastPoints)) by {
      PointsAttribute(lastPoints, "", "");
    }
    s.SelectOption(2, last, attr);
  }

  /** The session of `ThreeQuestionSurvey` after the first two questions. */
  method AnswerTwoQuestions(first: string, firstPoints: int, slider: int) returns (s: Session)
    ensures fresh(s) && s.Valid() && s.total == 3 && s.index == 2
    ensures s.answers == map[0 := Answer(first, Some(firstPoints)), 1 := Answer(DecimalString(slider), Some(2 * slider))]
  {
    s := new Session(3);
    var attr := Some(DecimalString(firstPoints));
    assert OptionAnswer(first, attr) == Answer(first, Some(firstPoints)) by {
      PointsAttribute(firstPoints, "", "");
    }
    var raw := DecimalString(slider);
    assert SliderAnswer(raw) == Answer(DecimalString(slider), Some(2 * slider)) by {
      SliderAtInteger(slider, "");
    }
    s.SelectOption(0, first, attr);
    var r := s.Next(true);
    s.SliderInput(1, raw);
    r := s.Next(true);
  }

  /** Three answered questions are numbered 1, 2 and 3 in the answer set. */
  lemma ThreeAnswersPayload(a0: Answer, a1: Answer, a2: Answer)
    ensures PayloadAnswers(map[0 := a0, 1 := a1, 2 := a2], 3) == map[1 := a0.value, 2 := a1.value, 3 := a2.value]
  {
    var m := map[0 := a0, 1 := a1, 2 := a2];
    var left := PayloadAnswers(m, 3);
    var right := map[1 := a0.value, 2 := a1.value, 3 := a2.value];
    forall q ensures q in left <==> q in right {
      assert q in left <==> 1 <= q <= 3 && q - 1 in m;
    }
    assert left.Keys == right.Keys;
    forall q | q in left ensures left[q] == right[q] {
      assert left[q] == m[q - 1].value;
    }
  }

  /** The points of three answered questions add up. */
  lemma ThreeAnswersTotal(a0: Answer, a1: Answer, a2: Answer)
    ensures TotalPoints(map[0 := a0, 1 := a1, 2 := a2], 3) == Points(a0) + Points(a1) + Points(a2)
  {
    var m0: map<int, Answer> := map[];
    TotalPointsAfterStore(m0, 3, 0, a0);
    TotalPointsAfterStore(m0[0 := a0], 3, 1, a1);
    TotalPointsAfterStore(m0[0 := a0][1 := a1], 3, 2, a2);
  }

  /**
   * A one-question survey finished while the store fails. As written, the
   * notice lands in the hidden question container and cannot be seen; as
   * intended, it is seen beside the completion screen.
   */
  method FailedFinish() returns (seenAsWritten: bool, seen: bool)
    ensures !seenAsWritten && seen
  {
    var s := new Session(1);
    var sent := s.Next(false);
    seenAsWritten := s.NoticeVisibleAsWritten();
    seen := s.NoticeVisible();
  }

  /**
   * Two failed submissions with no restart between, then "Restart". The
   * second `Submit` stands for a second "Finish Survey" click sent before the
   * first reply came back. As written, the restart removes one of the two
   * notices and the other stays on the question screen; as intended, none is
   * left.
   */
  method DoubleFailedFinish() returns (leftAsWritten: nat, seenAsWritten: bool, left: nat)
    ensures leftAsWritten == 1 && seenAsWritten
    ensures left == 0
  {
    var s := new Session(1);
    var first := s.Submit(false);
    var second := s.Submit(false);
    leftAsWritten := NoticesAfterRestartAsWritten(s.notices);
    s.Restart();
    seenAsWritten := NoticeShownAsWritten(s.completed, leftAsWritten);
    left := s.notices;
  }
}
