// The arithmetic of js/quiz.js: counting correct answers, the pass mark,
// the mm:ss countdown text, the "Xm Ys" time-taken label, and the urgency
// classes of the timer element. Each rendering comes with the parser that
// reads it back.
module Scoring {
  import opened Options
  import opened Text
  import opened Seqs
  import opened QuizTypes

  /** The fixed pass mark: 13 correct answers out of 30. */
  const PassMark: int := 13

  /** Whether the answer in slot `i` is the question's correct option (an empty slot never is). */
  predicate IsCorrect(answers: seq<Option<int>>, qs: seq<Question>, i: nat)
    requires i < |answers| && i < |qs|
  {
    answers[i] == Some(qs[i].correct)
  }

  /** Number of correct answers among the first `n` slots. */
  function MatchCount(answers: seq<Option<int>>, qs: seq<Question>, n: nat): (c: nat)
    requires n <= |answers| && n <= |qs|
    ensures c <= n
  {
    if n == 0 then 0
    else MatchCount(answers, qs, n - 1) + (if IsCorrect(answers, qs, n - 1) then 1 else 0)
  }

  /** The slots, among the first `n`, that hold the correct option. */
  ghost function CorrectSlots(answers: seq<Option<int>>, qs: seq<Question>, n: nat): set<nat>
    requires n <= |answers| && n <= |qs|
  {
    set i: nat | i < n && IsCorrect(answers, qs, i)
  }

  /** The score is the number of slots holding the correct option. */
  lemma {:induction false} MatchCountIsCorrectSlots(answers: seq<Option<int>>, qs: seq<Question>, n: nat)
    requires n <= |answers| && n <= |qs|
    ensures MatchCount(answers, qs, n) == |CorrectSlots(answers, qs, n)|
  {
    if n > 0 {
      MatchCountIsCorrectSlots(answers, qs, n - 1);
      var before := CorrectSlots(answers, qs, n - 1);
      if IsCorrect(answers, qs, n - 1) {
        assert CorrectSlots(answers, qs, n) == before + {n - 1};
        assert n - 1 !in before;
      } else {
        assert CorrectSlots(answers, qs, n) == before;
      }
    }
  }

  /** A quiz with no answer selected scores 0, whatever the questions are. */
  lemma {:induction false} UnansweredScoresZero(answers: seq<Option<int>>, qs: seq<Question>, n: nat)
    requires n <= |answers| && n <= |qs|
    requires forall i :: 0 <= i < n ==> answers[i].None?
    ensures MatchCount(answers, qs, n) == 0
  {
    if n > 0 {
      UnansweredScoresZero(answers, qs, n - 1);
    }
  }

  /** Answering exactly the correct option everywhere scores full marks. */
  lemma {:induction false} AllCorrectScoresFull(answers: seq<Option<int>>, qs: seq<Question>, n: nat)
    requires n <= |answers| && n <= |qs|
    requires forall i :: 0 <= i < n ==> answers[i] == Some(qs[i].correct)
    ensures MatchCount(answers, qs, n) == n
  {
    if n > 0 {
      AllCorrectScoresFull(answers, qs, n - 1);
    }
  }

  /** The score loop of submitQuiz: compares the 30 answer slots with the questions' correct indices. */
  method ScoreAnswers(answers: array<Option<int>>, qs: seq<Question>) returns (score: int)
    requires answers.Length == QuestionCount && |qs| == QuestionCount
    ensures score == MatchCount(answers[..], qs, QuestionCount)
    ensures 0 <= score <= QuestionCount
  {
    score := 0;
    for i := 0 to QuestionCount
      invariant score == MatchCount(answers[..], qs, i)
    {
      if answers[i] == Some(qs[i].correct) {
        score := score + 1;
      }
    }
  }

  /** The pass/fail decision of submitQuiz. */
  predicate Passed(score: int) {
    score >= PassMark
  }

  /** Two digits at least: a one-digit string gets a leading '0' (padStart(2, '0')). */
  function Pad2(s: string): string {
    if |s| < 2 then "0" + s else s
  }

  /** The countdown text "mm:ss" of updateTimerDisplay for `t` seconds left. */
  function TimerText(t: nat): string {
    Pad2(DecimalString(t / 60)) + ":" + Pad2(DecimalString(t % 60))
  }

  /** Reads a "minutes:seconds" countdown text back into seconds. */
  function ParseTimerText(s: string): Option<nat> {
    var parts := SplitOn(s, ':');
    if |parts| == 2 && |parts[0]| > 0 && |parts[1]| > 0 && AllDigits(parts[0]) && AllDigits(parts[1])
    then Some(60 * DecimalValue(parts[0]) + DecimalValue(parts[1]))
    else None
  }

  lemma PaddedDigits(n: nat)
    ensures |Pad2(DecimalString(n))| >= 1 && AllDigits(Pad2(DecimalString(n)))
    ensures DecimalValue(Pad2(DecimalString(n))) == n
    ensures ':' !in Pad2(DecimalString(n))
  {
    DecimalRoundTrip(n);
    var d := DecimalString(n);
    if |d| < 2 {
      LeadingZero(d);
    }
    NoSeparatorInDigits(Pad2(d), ':');
  }

  /** The countdown text determines the remaining time: reading it back gives `t`. */
  lemma TimerTextRoundTrip(t: nat)
    ensures ParseTimerText(TimerText(t)) == Some(t)
  {
    var m := Pad2(DecimalString(t / 60));
    var s := Pad2(DecimalString(t % 60));
    PaddedDigits(t / 60);
    PaddedDigits(t % 60);
    SplitOnCons(m, ':', s);
    assert TimerText(t) == m + [':'] + s;
    assert SplitOn(s, ':') == [s];
  }

  /** Whole seconds between two instants given in milliseconds, rounded down (Math.floor). */
  function ElapsedSeconds(startMs: int, endMs: int): int {
    (endMs - startMs) / 1000
  }

  /** JavaScript's `%`: the remainder takes the sign of the dividend. */
  function JsRem(a: int, b: int): int
    requires b > 0
  {
    if a >= 0 then a % b else -((-a) % b)
  }

  /** The "Xm Ys" label of submitQuiz: Math.floor(t / 60) minutes and t % 60 seconds. */
  function TimeTakenLabel(t: int): string {
    IntString(t / 60) + "m " + IntString(JsRem(t, 60)) + "s"
  }

  /** Reads an "Xm Ys" label back into seconds. */
  function ParseTimeTaken(text: string): Option<int> {
    var parts := SplitOn(text, ' ');
    if |parts| == 2 && |parts[0]| >= 1 && |parts[1]| >= 1 &&
       parts[0][|parts[0]| - 1] == 'm' && parts[1][|parts[1]| - 1] == 's'
    then
      var m := ParseInt(parts[0][..|parts[0]| - 1]);
      var s := ParseInt(parts[1][..|parts[1]| - 1]);
      if m.Some? && s.Some? then Some(60 * m.value + s.value) else None
    else None
  }

  /** A digit string holds no separator character. */
  lemma NoSeparatorInDigits(d: string, c: char)
    requires AllDigits(d) && !IsDigit(c)
    ensures c !in d
  {
  }

  /** A label "<a>m <b>s" with no space in `a` or `b` is split at its space and both numbers are read. */
  lemma ParseTimeTakenParts(a: string, b: string)
    requires ' ' !in a && ' ' !in b
    ensures ParseTimeTaken(a + "m " + b + "s") ==
              if ParseInt(a).Some? && ParseInt(b).Some? then Some(60 * ParseInt(a).value + ParseInt(b).value) else None
  {
    var m, s := a + "m", b + "s";
    assert a + "m " + b + "s" == m + [' '] + s;
    SplitOnCons(m, ' ', s);
    assert SplitOn(s, ' ') == [s];
    var parts := SplitOn(a + "m " + b + "s", ' ');
    assert parts == [m, s];
    assert parts[0][..|parts[0]| - 1] == a && parts[1][..|parts[1]| - 1] == b;
    assert parts[0][|parts[0]| - 1] == 'm' && parts[1][|parts[1]| - 1] == 's';
  }

  /** For a non-negative time the label determines it: reading it back gives `t`. */
  lemma TimeTakenRoundTrip(t: int)
    requires t >= 0
    ensures ParseTimeTaken(TimeTakenLabel(t)) == Some(t)
  {
    var mins, secs := t / 60, t % 60;
    assert JsRem(t, 60) == secs;
    var dm, ds := IntString(mins), IntString(secs);
    NoSeparatorInDigits(DecimalString(mins), ' ');
    NoSeparatorInDigits(DecimalString(secs), ' ');
    ParseTimeTakenParts(dm, ds);
    IntRoundTrip(mins);
    IntRoundTrip(secs);
  }

  /** The classes the countdown element can carry. */
  datatype TimerClass = Warning | Danger

  /** The class list of the timer element after a tick leaves `t` seconds. */
  function UpdateTimerClasses(prev: set<TimerClass>, t: int): (r: set<TimerClass>)
    ensures Danger in r <==> t <= 300
    ensures Warning in r <==> (t <= 600 && (t > 300 || Warning in prev))
  {
    if t <= 300 then prev + {Danger}
    else if t <= 600 then (prev + {Warning}) - {Danger}
    else prev - {Warning, Danger}
  }

  /** The classes a countdown that has ticked down to `t` shows. */
  function UrgencyClasses(t: int): set<TimerClass> {
    if t <= 300 then {Warning, Danger} else if t <= 600 then {Warning} else {}
  }

  /** Ticking one second down from a state showing the urgency of `t + 1` shows that of `t`. */
  lemma TickKeepsUrgency(t: int)
    ensures UpdateTimerClasses(UrgencyClasses(t + 1), t) == UrgencyClasses(t)
  {
  }
}
