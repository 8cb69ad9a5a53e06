/**
 * The values the survey client keeps and the pure derivations over them:
 * the stored answers, the score fold of `calculateScore`, the navigation
 * controls of `updateUI`, and the answer set that `submitSurvey` sends.
 */
module Survey {
  import opened Wrappers
  import opened JsNumbers

  /** One entry of `userAnswers`: `{ value, points }`. `points == None` is NaN. */
  datatype Answer = Answer(value: string, points: Option<int>)

  /** One recorded interaction: the 0-based question index and the answer stored for it. */
  datatype Entry = Entry(question: int, answer: Answer)

  /** The body of the POST: 1-based question number to value, and the score. */
  datatype SurveyData = SurveyData(answers: map<int, string>, score: int)

  /** What `updateUI` derives for the navigation bar and the counter. */
  datatype Controls = Controls(
    prevDisabled: bool,
    nextDisabled: bool,
    nextLabel: string,
    questionNumber: int,
    totalQuestions: int)

  const FinishLabel: string := "Finish Survey"
  const NextLabel: string := "Next"

  // ---------------------------------------------------------------- answers

  /**
   * `parseInt(option.dataset.points) || 0`: an absent attribute reads as
   * `undefined`, which `parseInt` turns into NaN; NaN and 0 both become 0.
   */
  function ParsePoints(attr: Option<string>): (p: int)
    ensures attr.None? ==> p == 0
    ensures attr.Some? && NoNumeral(attr.value) ==> p == 0
    ensures attr.Some? && !NoNumeral(attr.value) ==> ParseInt(attr.value) == Some(p)
  {
    var raw := if attr.Some? then attr.value else "undefined";
    assert NoNumeral("undefined") by {
      NonNumericIsNaN("undefined");
    }
    match ParseInt(raw)
    case Some(n) => n
    case None => 0
  }

  /** The answer an option click stores. */
  function OptionAnswer(value: string, pointsAttr: Option<string>): Answer {
    Answer(value, Some(ParsePoints(pointsAttr)))
  }

  /**
   * The answer a slider input stores: `parseInt(slider.value)` as a decimal
   * string, worth twice that value; a value `parseInt` cannot read is NaN.
   */
  function SliderAnswer(raw: string): (a: Answer)
    ensures a.points.None? <==> NoNumeral(raw)
    ensures a.points.None? ==> a.value == "NaN"
    ensures a.points.Some? ==> ParseInt(raw).Some? && a.points.value == 2 * ParseInt(raw).value
    ensures a.points.Some? ==> ParseInt(a.value) == ParseInt(raw)
  {
    match ParseInt(raw)
    case Some(v) =>
      DecimalRoundTrip(v);
      Answer(DecimalString(v), Some(2 * v))
    case None => Answer("NaN", None)
  }

  /** `answer.points || 0`. */
  function Points(a: Answer): int {
    a.points.GetOr(0)
  }

  function PointsAt(answers: map<int, Answer>, k: int): int {
    if k in answers then Points(answers[k]) else 0
  }

  /**
   * The fold of `calculateScore` over the answers of questions 0 .. n-1, in
   * ascending index order (the order `Object.values` lists integer keys).
   */
  function TotalPoints(answers: map<int, Answer>, n: nat): (t: int)
    ensures (forall k :: 0 <= k < n ==> k !in answers) ==> t == 0
    ensures (forall k :: 0 <= k < n ==> PointsAt(answers, k) >= 0) ==> t >= 0
    ensures (forall k :: 0 <= k < n ==> PointsAt(answers, k) <= 0) ==> t <= 0
  {
    if n == 0 then 0 else TotalPoints(answers, n - 1) + PointsAt(answers, n - 1)
  }

  /** The answers left by a sequence of interactions: each one overwrites its question. */
  function Replay(h: seq<Entry>): map<int, Answer> {
    if h == [] then map[]
    else Replay(h[..|h| - 1])[h[|h| - 1].question := h[|h| - 1].answer]
  }

  /** `h[i]` is the most recent interaction with question `k`. */
  ghost predicate IsLatest(h: seq<Entry>, k: int, i: int) {
    0 <= i < |h| && h[i].question == k && forall j :: i < j < |h| ==> h[j].question != k
  }

  // ---------------------------------------------------------------- lemmas

  /**
   * A missing attribute, or one `parseInt` cannot read, is worth 0; the
   * numeral of `n`, alone or followed by any text, is worth `n`.
   */
  lemma PointsAttribute(n: int, s: string, tail: string)
    requires NoNumeral(s)
    ensures ParsePoints(None) == 0
    ensures ParsePoints(Some(s)) == 0
    ensures ParsePoints(Some(DecimalString(n))) == n
    ensures EndsNumeral(n, tail) ==> ParsePoints(Some(DecimalString(n) + tail)) == n
  {
    DecimalRoundTrip(n);
    if EndsNumeral(n, tail) {
      DecimalPrefixParses(n, tail);
    }
  }

  /**
   * A slider at integer `v` stores the decimal string of `v` worth `2 * v`,
   * also when its value carries a fraction (`"3.5"` reads as 3).
   */
  lemma SliderAtInteger(v: int, fraction: string)
    ensures SliderAnswer(DecimalString(v)) == Answer(DecimalString(v), Some(2 * v))
    ensures SliderAnswer(DecimalString(v) + ("." + fraction)) == Answer(DecimalString(v), Some(2 * v))
  {
    var numeral := DecimalString(v);
    assert ParseInt(numeral) == Some(v) by {
      DecimalRoundTrip(v);
    }
    SliderReads(numeral, v);
    var raw := numeral + ("." + fraction);
    assert ParseInt(raw) == Some(v) by {
      DecimalPrefixParses(v, "." + fraction);
    }
    SliderReads(raw, v);
  }

  /** A slider value that `parseInt` reads as `v` stores the decimal string of `v`, worth `2 * v`. */
  lemma SliderReads(raw: string, v: int)
    requires ParseInt(raw) == Some(v)
    ensures SliderAnswer(raw) == Answer(DecimalString(v), Some(2 * v))
  {
  }

  /** Answers outside 0 .. n-1 do not enter the total. */
  lemma {:induction false} TotalPointsIgnoresOthers(m: map<int, Answer>, n: nat, k: int, a: Answer)
    requires k < 0 || n <= k
    ensures TotalPoints(m[k := a], n) == TotalPoints(m, n)
  {
    if n > 0 {
      TotalPointsIgnoresOthers(m, n - 1, k, a);
    }
  }

  /** Storing an answer for question k replaces k's points in the total and nothing else. */
  lemma {:induction false} TotalPointsAfterStore(m: map<int, Answer>, n: nat, k: int, a: Answer)
    requires 0 <= k < n
    ensures TotalPoints(m[k := a], n) == TotalPoints(m, n) - PointsAt(m, k) + Points(a)
  {
    if k < n - 1 {
      TotalPointsAfterStore(m, n - 1, k, a);
    } else {
      TotalPointsIgnoresOthers(m, n - 1, k, a);
    }
  }

  /** The replayed answers hold exactly the questions that were interacted with. */
  lemma {:induction false} ReplayKeys(h: seq<Entry>, k: int)
    ensures k in Replay(h) <==> exists i :: 0 <= i < |h| && h[i].question == k
  {
    if h != [] {
      var p := h[..|h| - 1];
      var e := h[|h| - 1];
      ReplayKeys(p, k);
      assert Replay(h) == Replay(p)[e.question := e.answer];
      if e.question == k {
        assert h[|h| - 1].question == k;
      } else {
        if exists i :: 0 <= i < |h| && h[i].question == k {
          var i :| 0 <= i < |h| && h[i].question == k;
          assert p[i] == h[i];
        }
        if exists i :: 0 <= i < |p| && p[i].question == k {
          var i :| 0 <= i < |p| && p[i].question == k;
          assert h[i] == p[i];
        }
      }
    }
  }

  /** Each question's replayed answer is the one of its most recent interaction. */
  lemma {:induction false} ReplayLatest(h: seq<Entry>, k: int, i: int)
    requires IsLatest(h, k, i)
    ensures k in Replay(h) && Replay(h)[k] == h[i].answer
  {
    var p := h[..|h| - 1];
    var e := h[|h| - 1];
    assert Replay(h) == Replay(p)[e.question := e.answer];
    if i < |h| - 1 {
      assert e.question != k;
      forall j | i < j < |p| ensures p[j].question != k {
        assert p[j] == h[j];
      }
      assert p[i] == h[i];
      ReplayLatest(p, k, i);
    }
  }

  /** After storing `e`, the replay holds `e`'s answer for its question and the others as before. */
  lemma ReplayAfterStore(h: seq<Entry>, e: Entry)
    ensures Replay(h + [e]) == Replay(h)[e.question := e.answer]
  {
    assert (h + [e])[..|h|] == h;
  }

  // ---------------------------------------------------------------- navigation

  /**
   * The controls `updateUI` shows: previous is disabled on the first question,
   * next is disabled while the current question has no answer, and the next
   * button reads "Finish Survey" on the last question.
   */
  function ControlsFor(index: int, total: nat, answers: map<int, Answer>): (c: Controls)
    ensures c.prevDisabled <==> index == 0
    ensures c.nextDisabled <==> index !in answers
    ensures c.nextLabel == FinishLabel <==> index == total - 1
    ensures c.nextLabel == NextLabel <==> index != total - 1
    ensures 0 <= index < total ==> 1 <= c.questionNumber <= c.totalQuestions
    ensures c.questionNumber == c.totalQuestions <==> c.nextLabel == FinishLabel
  {
    Controls(
      index == 0,
      index !in answers,
      if index == total - 1 then FinishLabel else NextLabel,
      index + 1,
      total)
  }

  // ---------------------------------------------------------------- submission

  /**
   * The `answers` part of the POST body for questions 0 .. n-1: every
   * answered 0-based index `k` becomes question number `k + 1`, with its
   * value only.
   */
  function PayloadAnswers(answers: map<int, Answer>, n: nat): (p: map<int, string>)
    ensures forall q :: q in p <==> 1 <= q <= n && q - 1 in answers
    ensures forall q :: q in p ==> p[q] == answers[q - 1].value
  {
    if n == 0 then map[]
    else
      var p := PayloadAnswers(answers, n - 1);
      if n - 1 in answers then p[n := answers[n - 1].value] else p
  }

  /** Storing an answer for question k adds or replaces question number k + 1 and nothing else. */
  lemma PayloadAfterStore(m: map<int, Answer>, n: nat, k: int, a: Answer)
    requires 0 <= k < n
    ensures PayloadAnswers(m[k := a], n) == PayloadAnswers(m, n)[k + 1 := a.value]
  {
    var m' := m[k := a];
    var left := PayloadAnswers(m', n);
    var right := PayloadAnswers(m, n)[k + 1 := a.value];
    forall q ensures q in left <==> q in right {
      assert q in left <==> 1 <= q <= n && q - 1 in m';
    }
    forall q | q in left ensures left[q] == right[q] {
      if q != k + 1 {
        assert q - 1 in m;
      }
    }
    assert left.Keys == right.Keys;
  }

  // ---------------------------------------------------------------- error notice, as written

  /**
   * As written, each failed submission appends a notice to the question
   * container, and `showCompletionScreen` hides that container right after:
   * a notice can be seen only while the survey is not completed.
   */
  function NoticeShownAsWritten(completed: bool, notices: nat): bool {
    notices > 0 && !completed
  }

  /** As written, `restartSurvey` removes only the first notice it finds. */
  function NoticesAfterRestartAsWritten(notices: nat): nat {
    if notices > 0 then notices - 1 else 0
  }
}
