// The values the quiz application passes around: questions, the student's
// form data, result records, the session snapshot kept in session storage,
// the pages of the single-page UI, and the course catalogue of js/main.js.
module QuizTypes {
  import opened Options

  /** Number of questions in every quiz, and of answer slots. */
  const QuestionCount: nat := 30

  /** Length of a quiz in seconds (30 minutes). */
  const QuizSeconds: nat := 30 * 60

  /**
   * One multiple-choice question as loaded from a course's question bank:
   * its text, its options, and the index of the correct option. Bank
   * entries are not validated, so `correct` is any integer here.
   */
  datatype Question = Question(text: string, options: seq<string>, correct: int)

  /** The student form: name, e-mail and the course id that was selected. */
  datatype StudentInfo = StudentInfo(fullName: string, email: string, course: string)

  /**
   * One submitted quiz as it is stored in the `quizResults` list: `course`
   * holds the course's display name, `timestamp` the submission time in
   * milliseconds.
   */
  datatype ResultRecord = ResultRecord(
    name: string,
    email: string,
    course: string,
    score: int,
    date: string,
    timeTaken: string,
    passed: bool,
    timestamp: int)

  /** The `activeQuiz` entry of session storage, written when a quiz starts. */
  datatype Snapshot = Snapshot(course: string, studentInfo: StudentInfo, startTime: int)

  /** The pages of the single-page UI, by their element ids. */
  datatype Page = Homepage | StudentForm | QuizPage | ResultPage

  datatype Course = Course(id: string, name: string)

  /** The course catalogue (ids and display names; the icons are not modelled). */
  const Courses: seq<Course> := [
    Course("python", "Python Programming"),
    Course("webdev", "Web Development"),
    Course("datascience", "Data Science with Python"),
    Course("mlai", "Machine Learning & AI"),
    Course("mern", "Full Stack (MERN)"),
    Course("java", "Java Programming"),
    Course("powerbi", "Power BI"),
    Course("data-analyst", "Data Analyst"),
    Course("aws", "Cloud Computing with AWS"),
    Course("C_programming", "C programming Basics"),
    Course("cpp", "C++ Programming"),
    Course("DSA", "Data Structure and Algorithms"),
    Course("Flutter", "Mobile App Development")
  ]

  /** The name of the first course in `cs` whose id is `id` (Array.prototype.find). */
  function FindCourseName(cs: seq<Course>, id: string): (r: Option<string>)
    ensures r.None? <==> forall k :: 0 <= k < |cs| ==> cs[k].id != id
    ensures r.Some? ==> exists k :: 0 <= k < |cs| && cs[k].id == id && cs[k].name == r.value &&
                                    forall m :: 0 <= m < k ==> cs[m].id != id
  {
    if cs == [] then None
    else if cs[0].id == id then Some(cs[0].name)
    else
      var r := FindCourseName(cs[1..], id);
      r
  }

  /** Display name of the catalogue course `id`; None where the source's lookup yields undefined. */
  function CourseName(id: string): Option<string> {
    FindCourseName(Courses, id)
  }
}
