// The student side of the application: the page globals of js/main.js
// (currentPage, currentCourse, the activeQuiz snapshot in session storage)
// and the quiz globals of js/quiz.js (questions, current index, answer
// slots, countdown), which share one global scope in the browser. Event
// handlers become methods; a timer interval becomes the flag
// `timerRunning`, and each firing of it a call of Tick.
module StudentApp {
  import opened Options
  import opened QuizTypes
  import opened Scoring
  import opened QuestionBank
  import opened Entry
  import opened ResultStore

  /**
   * What loadQuestions sees when it runs, and when its promise settles:
   * the parsed bank (None when the fetch or the parse failed), the random
   * draws of the shuffle and of the fillers, and the instant in
   * milliseconds at which initQuiz's continuation runs.
   */
  datatype QuizLoad = QuizLoad(bank: Option<seq<Question>>, shuffleDraws: seq<nat>,
                               fillerDraws: seq<nat>, readyMs: int)

  predicate ValidLoad(load: QuizLoad) {
    (load.bank.Some? ==> ValidShuffleDraws(|load.bank.value|, load.shuffleDraws)) &&
    ValidFillerDraws(QuestionCount, load.fillerDraws)
  }

  /** What goToNextQuestion did. */
  datatype Step = Refused | Advanced | Submitted(ok: bool)

  class App {
    var currentPage: Page
    /** The course id chosen on the homepage; null until selectCourse runs. */
    var currentCourse: Option<string>
    /** The `activeQuiz` entry of session storage. */
    var activeQuiz: Option<Snapshot>
    /** The `quizResults` list of local storage. */
    const store: Store
    /** The `courses` array of js/main.js. */
    const catalogue: seq<Course>

    var questions: seq<Question>
    var index: int
    var answers: array<Option<int>>
    var timeRemaining: int
    /** The instant (ms) the current quiz's questions were ready; null before the first quiz. */
    var quizStartTime: Option<int>
    /** Whether the countdown interval is scheduled. */
    var timerRunning: bool
    /** The text of the timer element, as updateTimerDisplay last wrote it. */
    var timerText: string
    /** The urgency classes on the timer element. */
    var timerClasses: set<TimerClass>

    /** A quiz has been set up: 30 questions, 30 slots, an index in [0, 29]. */
    predicate Loaded()
      reads this
    {
      |questions| == QuestionCount && answers.Length == QuestionCount &&
      0 <= index < QuestionCount && quizStartTime.Some?
    }

    predicate Valid()
      reads this
    {
      0 <= timeRemaining <= QuizSeconds &&
      (timerRunning ==> Loaded() && timeRemaining >= 1 && activeQuiz.Some? && currentPage == QuizPage)
    }

    /** The catalogue name of the first course with this id; None where the lookup finds no course. */
    function NameOf(id: string): Option<string>
      reads this
    {
      FindCourseName(catalogue, id)
    }

    /** submitQuiz gets past its two lookups: the snapshot and the current course's name. */
    predicate CanSubmit()
      reads this
    {
      activeQuiz.Some? && currentCourse.Some? && NameOf(currentCourse.value).Some?
    }

    /** The record submitQuiz stores when it is called at `nowMs` on the day `date`. */
    function ResultFor(nowMs: int, date: string): (r: ResultRecord)
      reads this, answers
      requires Loaded() && CanSubmit()
      ensures r.score == MatchCount(answers[..], questions, QuestionCount)
      ensures 0 <= r.score <= QuestionCount && (r.passed <==> r.score >= PassMark)
      ensures r.course == NameOf(currentCourse.value).value
      ensures r.name == activeQuiz.value.studentInfo.fullName && r.email == activeQuiz.value.studentInfo.email
      ensures r.timeTaken == TimeTakenLabel(ElapsedSeconds(quizStartTime.value, nowMs))
      ensures r.date == date && r.timestamp == nowMs
    {
      var score := MatchCount(answers[..], questions, QuestionCount);
      ResultRecord(activeQuiz.value.studentInfo.fullName, activeQuiz.value.studentInfo.email,
                   NameOf(currentCourse.value).value, score, date,
                   TimeTakenLabel(ElapsedSeconds(quizStartTime.value, nowMs)),
                   Passed(score), nowMs)
    }

    /** The state initQuiz leaves behind once its questions `qs` are ready at `readyMs`. */
    predicate QuizReset(qs: seq<Question>, readyMs: int)
      reads this, answers
    {
      questions == qs && answers.Length == QuestionCount &&
      (forall k :: 0 <= k < QuestionCount ==> answers[k].None?) &&
      index == 0 && timeRemaining == QuizSeconds && quizStartTime == Some(readyMs) &&
      timerRunning && timerText == TimerText(QuizSeconds)
    }

    /** QuizReset for the questions loadQuestions yields for `courseId`. */
    predicate FreshQuiz(courseId: string, load: QuizLoad)
      reads this, answers
      requires ValidLoad(load)
    {
      QuizReset(LoadedQuestions(courseId, load.bank, load.shuffleDraws, load.fillerDraws), load.readyMs)
    }

    /** The page as the scripts leave it before DOMContentLoaded; `snapshot` is what session storage holds. */
    constructor(store: Store, snapshot: Option<Snapshot>)
      ensures Valid() && this.store == store && catalogue == Courses
      ensures currentPage == Homepage && currentCourse == None && activeQuiz == snapshot
      ensures questions == [] && index == 0 && answers.Length == 0 && timeRemaining == QuizSeconds
      ensures quizStartTime == None && !timerRunning && timerText == [] && timerClasses == {}
    {
      this.store := store;
      catalogue := Courses;
      currentPage := Homepage;
      currentCourse := None;
      activeQuiz := snapshot;
      questions := [];
      index := 0;
      answers := new Option<int>[0];
      timeRemaining := QuizSeconds;
      quizStartTime := None;
      timerRunning := false;
      timerText := [];
      timerClasses := {};
    }

    /**
     * showPage: leaving the quiz page stops the countdown and discards the
     * snapshot; every other transition leaves both alone.
     */
    method ShowPage(p: Page)
      requires Valid()
      modifies this
      ensures Valid() && currentPage == p
      ensures old(currentPage) == QuizPage && p != QuizPage ==> !timerRunning && activeQuiz == None
      ensures !(old(currentPage) == QuizPage && p != QuizPage) ==>
                timerRunning == old(timerRunning) && activeQuiz == old(activeQuiz)
      ensures currentCourse == old(currentCourse) && questions == old(questions) && index == old(index)
      ensures answers == old(answers) && timeRemaining == old(timeRemaining)
      ensures quizStartTime == old(quizStartTime) && timerText == old(timerText) && timerClasses == old(timerClasses)
    {
      if currentPage == QuizPage && p != QuizPage {
        timerRunning := false;
        activeQuiz := None;
      }
      currentPage := p;
    }

    /** selectCourse: remember the course and open the student form. */
    method SelectCourse(courseId: string)
      requires Valid() && NameOf(courseId).Some?
      modifies this
      ensures Valid() && currentCourse == Some(courseId) && currentPage == StudentForm
      ensures old(currentPage) == QuizPage ==> activeQuiz == None
      ensures old(currentPage) != QuizPage ==> activeQuiz == old(activeQuiz)
      ensures !timerRunning && answers == old(answers) && questions == old(questions)
      ensures index == old(index) && timeRemaining == old(timeRemaining) && quizStartTime == old(quizStartTime)
      ensures timerText == old(timerText) && timerClasses == old(timerClasses)
    {
      currentCourse := Some(courseId);
      ShowPage(StudentForm);
    }

    /** startTimer: show the remaining time and schedule the countdown. */
    method StartTimer()
      requires Valid() && Loaded() && timeRemaining >= 1 && activeQuiz.Some? && currentPage == QuizPage
      modifies this
      ensures Valid() && timerRunning && timerText == TimerText(timeRemaining)
      ensures currentPage == old(currentPage) && currentCourse == old(currentCourse) && activeQuiz == old(activeQuiz)
      ensures questions == old(questions) && index == old(index) && answers == old(answers)
      ensures timeRemaining == old(timeRemaining) && quizStartTime == old(quizStartTime)
      ensures timerClasses == old(timerClasses)
    {
      timerText := TimerText(timeRemaining);
      timerRunning := true;
    }

    /**
     * The continuation of initQuiz once the questions `qs` are ready at
     * `readyMs`: index 0, thirty empty slots, a full 30 minutes, and a
     * running countdown showing "30:00". The urgency classes of an
     * earlier quiz are kept.
     */
    method BeginQuiz(qs: seq<Question>, readyMs: int)
      requires Valid() && |qs| == QuestionCount && !timerRunning
      requires activeQuiz.Some? && currentPage == QuizPage
      modifies this
      ensures Valid() && Loaded() && QuizReset(qs, readyMs) && fresh(answers)
      ensures currentPage == old(currentPage) && currentCourse == old(currentCourse)
      ensures activeQuiz == old(activeQuiz) && timerClasses == old(timerClasses)
    {
      var slots := new Option<int>[QuestionCount](_ => None);
      questions, index, answers, timeRemaining, quizStartTime := qs, 0, slots, QuizSeconds, Some(readyMs);
      StartTimer();
    }

    /** initQuiz: load the course's questions, then begin the quiz with them. */
    method InitQuiz(courseId: string, load: QuizLoad)
      requires Valid() && ValidLoad(load) && !timerRunning
      requires activeQuiz.Some? && currentPage == QuizPage
      modifies this
      ensures Valid() && Loaded() && FreshQuiz(courseId, load) && fresh(answers)
      ensures currentPage == old(currentPage) && currentCourse == old(currentCourse)
      ensures activeQuiz == old(activeQuiz) && timerClasses == old(timerClasses)
    {
      var qs := LoadQuestions(courseId, load.bank, load.shuffleDraws, load.fillerDraws);
      BeginQuiz(qs, load.readyMs);
    }

    /**
     * startQuiz: write the snapshot `{course, studentInfo, startTime}`,
     * switch to the quiz page, then set up the quiz.
     */
    method StartQuiz(courseId: string, info: StudentInfo, nowMs: int, load: QuizLoad)
      requires Valid() && ValidLoad(load) && !timerRunning && NameOf(courseId).Some?
      modifies this
      ensures Valid() && Loaded() && FreshQuiz(courseId, load) && fresh(answers)
      ensures activeQuiz == Some(Snapshot(courseId, info, nowMs)) && currentPage == QuizPage
      ensures currentCourse == old(currentCourse) && timerClasses == old(timerClasses)
    {
      activeQuiz := Some(Snapshot(courseId, info, nowMs));
      ShowPage(QuizPage);
      InitQuiz(courseId, load);
    }

    /**
     * handleStudentInfoSubmit: an empty field or a malformed e-mail changes
     * nothing; an accepted form starts the quiz for the current course with
     * `{fullName, email, course: currentCourse}`.
     */
    method HandleStudentInfoSubmit(fullName: string, email: string, nowMs: int, load: QuizLoad)
      returns (check: FormCheck)
      requires Valid() && ValidLoad(load) && currentPage == StudentForm
      requires currentCourse.Some? && NameOf(currentCourse.value).Some?
      modifies this
      ensures Valid() && check == CheckStudentForm(fullName, email) && currentCourse == old(currentCourse)
      ensures check != Accepted ==>
                currentPage == old(currentPage) && activeQuiz == old(activeQuiz) &&
                questions == old(questions) && index == old(index) && answers == old(answers) &&
                timeRemaining == old(timeRemaining) && !timerRunning
      ensures check != Accepted ==> unchanged(this)
      ensures check == Accepted ==>
                activeQuiz == Some(Snapshot(currentCourse.value, StudentInfo(fullName, email, currentCourse.value), nowMs)) &&
                currentPage == QuizPage && Loaded() && FreshQuiz(currentCourse.value, load) &&
                fresh(answers) && timerClasses == old(timerClasses)
    {
      check := CheckStudentForm(fullName, email);
      if check == Accepted {
        var course := currentCourse.value;
        StartQuiz(course, StudentInfo(fullName, email, course), nowMs, load);
      }
    }

    /** selectOption: record option `k` in the current question's slot; nothing else changes. */
    method SelectOption(k: int)
      requires Valid() && Loaded() && 0 <= k < |questions[index].options|
      modifies answers
      ensures answers[..] == old(answers[..])[index := Some(k)]
      ensures answers[index] == Some(k)
      ensures forall m :: 0 <= m < QuestionCount && m != index ==> answers[m] == old(answers[m])
    {
      answers[index] := Some(k);
    }

    /**
     * submitQuiz. The countdown is always stopped first. When the snapshot
     * or the current course is missing the script throws at its lookup and
     * nothing else happens (`ok` is false); otherwise the result record is
     * appended to the store, the snapshot is removed and the result page is
     * shown.
     */
    method SubmitQuiz(nowMs: int, date: string) returns (ok: bool)
      requires Valid() && Loaded()
      modifies this, store
      ensures Valid() && Loaded() && !timerRunning && ok == old(CanSubmit())
      ensures ok ==> store.records == old(store.records) + [old(ResultFor(nowMs, date))]
      ensures ok ==> activeQuiz == None && currentPage == ResultPage
      ensures !ok ==> store.records == old(store.records) && activeQuiz == old(activeQuiz) &&
                      currentPage == old(currentPage)
      ensures currentCourse == old(currentCourse) && questions == old(questions) && index == old(index)
      ensures answers == old(answers) && timeRemaining == old(timeRemaining)
      ensures timerText == old(timerText) && timerClasses == old(timerClasses) && quizStartTime == old(quizStartTime)
    {
      timerRunning := false;
      var score := ScoreAnswers(answers, questions);
      var timeTaken := TimeTakenLabel(ElapsedSeconds(quizStartTime.value, nowMs));
      if activeQuiz.None? {
        return false;
      }
      var info := activeQuiz.value.studentInfo;
      var passed := Passed(score);
      if currentCourse.None? || NameOf(currentCourse.value).None? {
        return false;
      }
      var course := NameOf(currentCourse.value).value;
      var result := ResultRecord(info.fullName, info.email, course, score, date, timeTaken, passed, nowMs);
      store.StoreResult(result);
      activeQuiz := None;
      ShowPage(ResultPage);
      ok := true;
    }

    /**
     * goToNextQuestion: with the current slot empty nothing changes; on the
     * last question the quiz is submitted; otherwise the index moves on by one.
     */
    method GoToNextQuestion(nowMs: int, date: string) returns (step: Step)
      requires Valid() && Loaded()
      modifies this, store
      ensures Valid() && Loaded() && answers == old(answers)
      ensures old(answers[index]).None? ==> step == Refused && unchanged(this, store)
      ensures old(answers[index]).Some? && old(index) == QuestionCount - 1 ==>
                step == Submitted(old(CanSubmit())) && index == old(index) && !timerRunning
      ensures old(answers[index]).Some? && old(index) == QuestionCount - 1 && old(CanSubmit()) ==>
                store.records == old(store.records) + [old(ResultFor(nowMs, date))] &&
                activeQuiz == None && currentPage == ResultPage
      ensures old(answers[index]).Some? && old(index) == QuestionCount - 1 && !old(CanSubmit()) ==>
                store.records == old(store.records) && activeQuiz == old(activeQuiz) && currentPage == old(currentPage)
      ensures old(answers[index]).Some? && old(index) < QuestionCount - 1 ==>
                step == Advanced && index == old(index) + 1 && store.records == old(store.records) &&
                timerRunning == old(timerRunning) && currentPage == old(currentPage) && activeQuiz == old(activeQuiz)
      ensures questions == old(questions) && timeRemaining == old(timeRemaining)
      ensures currentCourse == old(currentCourse) && quizStartTime == old(quizStartTime)
      ensures timerText == old(timerText) && timerClasses == old(timerClasses)
    {
      if answers[index].None? {
        return Refused;
      }
      if index == QuestionCount - 1 {
        var ok := SubmitQuiz(nowMs, date);
        return Submitted(ok);
      }
      index := index + 1;
      step := Advanced;
    }

    /** timeRemaining--, updateTimerDisplay() and the urgency classes for the new time. */
    method CountDown()
      requires Valid() && timerRunning
      modifies this
      ensures Loaded() && timeRemaining == old(timeRemaining) - 1 >= 0
      ensures timerText == TimerText(timeRemaining)
      ensures timerClasses == UpdateTimerClasses(old(timerClasses), timeRemaining)
      ensures currentPage == old(currentPage) && currentCourse == old(currentCourse) && activeQuiz == old(activeQuiz)
      ensures questions == old(questions) && index == old(index) && answers == old(answers)
      ensures quizStartTime == old(quizStartTime) && timerRunning
    {
      var left := timeRemaining - 1;
      timeRemaining, timerText, timerClasses := left, TimerText(left), UpdateTimerClasses(timerClasses, left);
    }

    /**
     * One firing of the countdown interval: one second less, the display
     * and urgency classes updated, and at zero the interval is cleared and
     * the quiz submitted, answered or not.
     */
    method Tick(nowMs: int, date: string) returns (expired: bool, ok: bool)
      requires Valid() && timerRunning
      modifies this, store
      ensures Valid() && Loaded() && timeRemaining == old(timeRemaining) - 1
      ensures timerText == TimerText(timeRemaining)
      ensures timerClasses == UpdateTimerClasses(old(timerClasses), timeRemaining)
      ensures expired <==> timeRemaining == 0
      ensures !expired ==> timerRunning && store.records == old(store.records) &&
                           activeQuiz == old(activeQuiz) && currentPage == old(currentPage)
      ensures expired ==> !timerRunning && ok == old(CanSubmit())
      ensures expired && ok ==> store.records == old(store.records) + [old(ResultFor(nowMs, date))] &&
                                activeQuiz == None && currentPage == ResultPage
      ensures expired && !ok ==> store.records == old(store.records) &&
                                 activeQuiz == old(activeQuiz) && currentPage == old(currentPage)
      ensures questions == old(questions) && index == old(index) && answers == old(answers)
      ensures currentCourse == old(currentCourse) && quizStartTime == old(quizStartTime)
    {
      CountDown();
      expired := timeRemaining <= 0;
      ok := false;
      if expired {
        timerRunning := false;
        ok := SubmitQuiz(nowMs, date);
      }
    }

    /**
     * init as written: a snapshot left in session storage restarts its
     * quiz from scratch with a new start time, but currentCourse stays null.
     */
    method Init(nowMs: int, load: QuizLoad)
      requires Valid() && ValidLoad(load) && !timerRunning
      requires activeQuiz.Some? ==> NameOf(activeQuiz.value.course).Some?
      modifies this
      ensures Valid() && currentCourse == old(currentCourse)
      ensures old(activeQuiz).None? ==> unchanged(this)
      ensures old(activeQuiz).Some? ==>
                activeQuiz == Some(old(activeQuiz).value.(startTime := nowMs)) && currentPage == QuizPage &&
                Loaded() && FreshQuiz(old(activeQuiz).value.course, load) &&
                fresh(answers) && timerClasses == old(timerClasses)
    {
      if activeQuiz.Some? {
        var quizData := activeQuiz.value;
        StartQuiz(quizData.course, quizData.studentInfo, nowMs, load);
      }
    }

    /** init with the resumed course also restored into currentCourse, so submitQuiz can name it. */
    method InitRestoringCourse(nowMs: int, load: QuizLoad)
      requires Valid() && ValidLoad(load) && !timerRunning
      requires activeQuiz.Some? ==> NameOf(activeQuiz.value.course).Some?
      modifies this
      ensures Valid()
      ensures old(activeQuiz).None? ==> unchanged(this)
      ensures old(activeQuiz).Some? ==>
                activeQuiz == Some(old(activeQuiz).value.(startTime := nowMs)) && currentPage == QuizPage &&
                Loaded() && FreshQuiz(old(activeQuiz).value.course, load) &&
                fresh(answers) && timerClasses == old(timerClasses) &&
                currentCourse == Some(old(activeQuiz).value.course) && CanSubmit()
    {
      if activeQuiz.Some? {
        var quizData := activeQuiz.value;
        currentCourse := Some(quizData.course);
        StartQuiz(quizData.course, quizData.studentInfo, nowMs, load);
      }
    }
  }

  /**
   * A page reload while a quiz runs: a fresh page over the same store with
   * the snapshot still in session storage, then init as written, or with
   * the course restored when `restoreCourse` holds. Only the restored page
   * can submit.
   */
  method ReloadDuringQuiz(store: Store, snapshot: Snapshot, reloadMs: int, load: QuizLoad, restoreCourse: bool)
    returns (app: App)
    requires CourseName(snapshot.course).Some? && ValidLoad(load)
    ensures fresh(app) && app.store == store && app.Valid() && app.Loaded() && app.timerRunning
    ensures app.activeQuiz == Some(snapshot.(startTime := reloadMs)) && app.currentPage == QuizPage
    ensures app.CanSubmit() <==> restoreCourse
    ensures restoreCourse ==> app.NameOf(snapshot.course) == CourseName(snapshot.course) &&
                              app.currentCourse == Some(snapshot.course)
    ensures fresh(app.answers) && app.FreshQuiz(snapshot.course, load)
    ensures forall k :: 0 <= k < QuestionCount ==> app.answers[k].None?
  {
    app := new App(store, Some(snapshot));
    if restoreCourse {
      app.InitRestoringCourse(reloadMs, load);
    } else {
      app.Init(reloadMs, load);
    }
  }

  /**
   * A page reload in the middle of a quiz, as written: the resumed quiz runs
   * out of time (or is submitted), and its result is never stored.
   */
  method ResumedQuizLosesResult(prior: seq<ResultRecord>, snapshot: Snapshot, reloadMs: int,
                                load: QuizLoad, submitMs: int, date: string)
    returns (ok: bool, stored: seq<ResultRecord>)
    requires CourseName(snapshot.course).Some? && ValidLoad(load)
    ensures !ok && stored == prior
  {
    var store := new Store(prior);
    var app := ReloadDuringQuiz(store, snapshot, reloadMs, load, false);
    ok := app.SubmitQuiz(submitMs, date);
    stored := store.records;
  }

  /** The same reload with the course restored: the result is appended to the store. */
  method ResumedQuizKeepsResult(prior: seq<ResultRecord>, snapshot: Snapshot, reloadMs: int,
                                load: QuizLoad, submitMs: int, date: string)
    returns (ok: bool, stored: seq<ResultRecord>)
    requires CourseName(snapshot.course).Some? && ValidLoad(load)
    ensures ok && |stored| == |prior| + 1 && stored[..|prior|] == prior
    ensures stored[|prior|].course == CourseName(snapshot.course).value
    ensures stored[|prior|].name == snapshot.studentInfo.fullName && stored[|prior|].score == 0
  {
    var store := new Store(prior);
    var app := ReloadDuringQuiz(store, snapshot, reloadMs, load, true);
    ghost var slots := app.answers[..];
    UnansweredScoresZero(slots, app.questions, QuestionCount);
    ok := app.SubmitQuiz(submitMs, date);
    stored := store.records;
  }
}
