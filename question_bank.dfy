// Question-bank assembly of js/quiz.js: the Fisher-Yates shuffle on a copy
// (shuffleArray), the generated filler questions (generateSampleQuestions)
// and loadQuestions, which always yields exactly 30 questions. Math.random
// is replaced by oracle sequences of draws.
module QuestionBank {
  import opened Options
  import opened Text
  import opened Seqs
  import opened QuizTypes

  /**
   * Draws for shuffling `n` elements: `draws[k]` is the index j picked in
   * the k-th iteration of the loop, where i = n - 1 - k and j must lie in
   * [0, i], as Math.floor(Math.random() * (i + 1)) does.
   */
  predicate ValidShuffleDraws(n: nat, draws: seq<nat>) {
    n <= |draws| + 1 && forall k :: 0 <= k < n - 1 ==> draws[k] <= n - 1 - k
  }

  /**
   * The loop iterations i, i - 1, ..., 1 of the shuffle of a list of
   * |s| elements; iteration i swaps positions i and draws[|s| - 1 - i].
   */
  function ShuffleFrom<T>(s: seq<T>, i: nat, draws: seq<nat>): (r: seq<T>)
    requires i < |s| && ValidShuffleDraws(|s|, draws)
    ensures |r| == |s|
    decreases i
  {
    if i == 0 then s
    else ShuffleFrom(Swap(s, i, draws[|s| - 1 - i]), i - 1, draws)
  }

  /** The order shuffleArray produces for `s` under the given draws. */
  function Shuffle<T>(s: seq<T>, draws: seq<nat>): seq<T>
    requires ValidShuffleDraws(|s|, draws)
  {
    if |s| == 0 then s else ShuffleFrom(s, |s| - 1, draws)
  }

  /** The remaining loop iterations only rearrange their input. */
  lemma {:induction false} ShuffleFromPermutes<T>(s: seq<T>, i: nat, draws: seq<nat>)
    requires i < |s| && ValidShuffleDraws(|s|, draws)
    ensures multiset(ShuffleFrom(s, i, draws)) == multiset(s)
    decreases i
  {
    if i > 0 {
      var j := draws[|s| - 1 - i];
      SwapPermutes(s, i, j);
      ShuffleFromPermutes(Swap(s, i, j), i - 1, draws);
    }
  }

  /** The shuffle is a permutation of its input. */
  lemma ShufflePermutes<T>(s: seq<T>, draws: seq<nat>)
    requires ValidShuffleDraws(|s|, draws)
    ensures |Shuffle(s, draws)| == |s| && multiset(Shuffle(s, draws)) == multiset(s)
  {
    if |s| > 0 {
      ShuffleFromPermutes(s, |s| - 1, draws);
    }
  }

  /** One loop iteration of the shuffle: swap at i, then go on from i - 1. */
  lemma ShuffleFromStep<T>(s: seq<T>, i: nat, draws: seq<nat>)
    requires 0 < i < |s| && ValidShuffleDraws(|s|, draws)
    ensures draws[|s| - 1 - i] <= i
    ensures ShuffleFrom(s, i, draws) == ShuffleFrom(Swap(s, i, draws[|s| - 1 - i]), i - 1, draws)
  {
  }

  /** [...array]: a fresh array with the same elements. */
  method CopyOf<T>(src: array<T>) returns (a: array<T>)
    ensures fresh(a) && a[..] == src[..]
  {
    a := new T[src.Length](k reads src requires 0 <= k < src.Length => src[k]);
  }

  /** shuffleArray: swaps inside a fresh copy of `src`, which itself is left as it was. */
  method ShuffleArray<T>(src: array<T>, draws: seq<nat>) returns (shuffled: seq<T>)
    requires ValidShuffleDraws(src.Length, draws)
    ensures shuffled == Shuffle(src[..], draws)
    ensures |shuffled| == src.Length && multiset(shuffled) == multiset(src[..])
  {
    var a := CopyOf(src);
    ghost var original := a[..];
    var n := a.Length;
    if n > 0 {
      var i := n - 1;
      while i > 0
        invariant 0 <= i < n == a.Length
        invariant ShuffleFrom(a[..], i, draws) == Shuffle(original, draws)
      {
        ShuffleFromStep(a[..], i, draws);
        SwapAt(a, i, draws[n - 1 - i]);
        i := i - 1;
      }
    }
    shuffled := a[..];
    ShufflePermutes(original, draws);
  }

  /** Enough draws in [0, 3] for `count` fillers (Math.floor(Math.random() * 4)). */
  predicate ValidFillerDraws(count: nat, draws: seq<nat>) {
    count <= |draws| && forall k :: 0 <= k < count ==> draws[k] < 4
  }

  /** ASCII upper-casing of one character; other characters are left alone. */
  function UpperAscii(c: char): char {
    if 'a' <= c <= 'z' then (c as int - 32) as char else c
  }

  /** The course id with its first letter upper-cased, as used in the filler questions' text. */
  function CapitalizedName(courseId: string): string {
    if courseId == [] then [] else [UpperAscii(courseId[0])] + courseId[1..]
  }

  /** The `i`-th generated question for a course shown as `name`. */
  function SampleQuestion(name: string, i: nat, correct: int): Question {
    Question(
      name + " Sample Question " + DecimalString(i) + ": What is the main concept being tested here?",
      ["Basic " + name + " Concept A",
       "Advanced " + name + " Technique B",
       name + " Framework Approach C",
       "Core " + name + " Principle D"],
      correct)
  }

  /** The first `count` generated questions; question k + 1 takes its correct index from `draws[k]`. */
  function SampleQuestions(courseId: string, draws: seq<nat>, count: nat): (qs: seq<Question>)
    requires ValidFillerDraws(count, draws)
    ensures |qs| == count
  {
    if count == 0 then []
    else SampleQuestions(courseId, draws, count - 1) + [SampleQuestion(CapitalizedName(courseId), count, draws[count - 1])]
  }

  /** Every filler has four options and a correct index in [0, 3], taken from the draws in order. */
  lemma {:induction false} SampleQuestionsShape(courseId: string, draws: seq<nat>, count: nat)
    requires ValidFillerDraws(count, draws)
    ensures forall k :: 0 <= k < count ==>
              var q := SampleQuestions(courseId, draws, count)[k];
              |q.options| == 4 && 0 <= q.correct <= 3 && q.correct == draws[k]
  {
    if count > 0 {
      SampleQuestionsShape(courseId, draws, count - 1);
    }
  }

  /** generateSampleQuestions: pushes questions 1..count onto a fresh list. */
  method GenerateSampleQuestions(count: nat, courseId: string, draws: seq<nat>) returns (questions: seq<Question>)
    requires ValidFillerDraws(count, draws)
    ensures questions == SampleQuestions(courseId, draws, count)
  {
    questions := [];
    var name := CapitalizedName(courseId);
    var i := 1;
    while i <= count
      invariant 1 <= i <= count + 1
      invariant questions == SampleQuestions(courseId, draws, i - 1)
    {
      questions := questions + [SampleQuestion(name, i, draws[i - 1])];
      i := i + 1;
    }
  }

  /**
   * The questions loadQuestions resolves to. `bank` is the parsed question
   * file, None when the fetch, the status check or the JSON parse failed.
   */
  function LoadedQuestions(courseId: string, bank: Option<seq<Question>>,
                           shuffleDraws: seq<nat>, fillerDraws: seq<nat>): seq<Question>
    requires bank.Some? ==> ValidShuffleDraws(|bank.value|, shuffleDraws)
    requires ValidFillerDraws(QuestionCount, fillerDraws)
  {
    match bank
    case None => SampleQuestions(courseId, fillerDraws, QuestionCount)
    case Some(b) =>
      var shuffled := Shuffle(b, shuffleDraws);
      ShufflePermutes(b, shuffleDraws);
      if |shuffled| < QuestionCount then
        (shuffled + SampleQuestions(courseId, fillerDraws, QuestionCount - |shuffled|))[..QuestionCount]
      else shuffled[..QuestionCount]
  }

  /** How many leading questions come from the bank. */
  function FromBank(bank: Option<seq<Question>>): nat {
    if bank.None? then 0 else if |bank.value| < QuestionCount then |bank.value| else QuestionCount
  }

  /** With fewer than 30 bank entries: the whole shuffled bank, then generated fillers. */
  lemma LoadedQuestionsPadded(courseId: string, b: seq<Question>, shuffleDraws: seq<nat>, fillerDraws: seq<nat>)
    requires ValidShuffleDraws(|b|, shuffleDraws) && |b| < QuestionCount
    requires ValidFillerDraws(QuestionCount, fillerDraws)
    ensures LoadedQuestions(courseId, Some(b), shuffleDraws, fillerDraws) ==
              Shuffle(b, shuffleDraws) + SampleQuestions(courseId, fillerDraws, QuestionCount - |b|)
  {
    ShufflePermutes(b, shuffleDraws);
    var all := Shuffle(b, shuffleDraws) + SampleQuestions(courseId, fillerDraws, QuestionCount - |b|);
    assert all[..QuestionCount] == all;
  }

  /**
   * loadQuestions always yields exactly 30 questions: a prefix drawn from
   * the bank (each bank entry used at most as often as it occurs there),
   * then generated fillers with four options and a correct index in [0, 3];
   * a bank of 30 or more gives the first 30 of its shuffle, a failed load
   * 30 fillers.
   */
  lemma LoadedQuestionsShape(courseId: string, bank: Option<seq<Question>>,
                             shuffleDraws: seq<nat>, fillerDraws: seq<nat>)
    requires bank.Some? ==> ValidShuffleDraws(|bank.value|, shuffleDraws)
    requires ValidFillerDraws(QuestionCount, fillerDraws)
    ensures |LoadedQuestions(courseId, bank, shuffleDraws, fillerDraws)| == QuestionCount
    ensures bank.Some? ==>
              multiset(LoadedQuestions(courseId, bank, shuffleDraws, fillerDraws)[..FromBank(bank)]) <= multiset(bank.value)
    ensures bank.Some? && |bank.value| < QuestionCount ==>
              LoadedQuestions(courseId, bank, shuffleDraws, fillerDraws)[..FromBank(bank)] == Shuffle(bank.value, shuffleDraws)
    ensures bank.Some? && |bank.value| >= QuestionCount ==>
              LoadedQuestions(courseId, bank, shuffleDraws, fillerDraws) == Shuffle(bank.value, shuffleDraws)[..QuestionCount]
    ensures bank.None? ==> LoadedQuestions(courseId, bank, shuffleDraws, fillerDraws) == SampleQuestions(courseId, fillerDraws, QuestionCount)
    ensures forall k :: FromBank(bank) <= k < QuestionCount ==>
              var q := LoadedQuestions(courseId, bank, shuffleDraws, fillerDraws)[k];
              |q.options| == 4 && 0 <= q.correct <= 3
  {
    var qs := LoadedQuestions(courseId, bank, shuffleDraws, fillerDraws);
    var used := FromBank(bank);
    var fill := SampleQuestions(courseId, fillerDraws, QuestionCount - used);
    SampleQuestionsShape(courseId, fillerDraws, QuestionCount - used);
    if bank.None? {
      assert qs == fill;
    } else {
      var b := bank.value;
      var shuffled := Shuffle(b, shuffleDraws);
      ShufflePermutes(b, shuffleDraws);
      if |b| < QuestionCount {
        LoadedQuestionsPadded(courseId, b, shuffleDraws, fillerDraws);
        assert qs[..used] == shuffled;
        forall k | used <= k < QuestionCount
          ensures |qs[k].options| == 4 && 0 <= qs[k].correct <= 3
        {
          assert qs[k] == fill[k - used];
        }
      } else {
        assert used == QuestionCount;
        assert qs == shuffled[..QuestionCount] && qs[..used] == qs;
        assert shuffled == qs + shuffled[QuestionCount..];
        assert multiset(shuffled) == multiset(qs) + multiset(shuffled[QuestionCount..]);
        assert multiset(qs[..used]) <= multiset(b);
      }
    }
  }

  /** loadQuestions: shuffle, then pad with fillers or cut to 30; all fillers when the bank failed. */
  method LoadQuestions(courseId: string, bank: Option<seq<Question>>,
                       shuffleDraws: seq<nat>, fillerDraws: seq<nat>) returns (questions: seq<Question>)
    requires bank.Some? ==> ValidShuffleDraws(|bank.value|, shuffleDraws)
    requires ValidFillerDraws(QuestionCount, fillerDraws)
    ensures questions == LoadedQuestions(courseId, bank, shuffleDraws, fillerDraws)
    ensures |questions| == QuestionCount
  {
    LoadedQuestionsShape(courseId, bank, shuffleDraws, fillerDraws);
    match bank {
      case None =>
        questions := GenerateSampleQuestions(QuestionCount, courseId, fillerDraws);
      case Some(b) =>
        var parsed := new Question[|b|](k requires 0 <= k < |b| => b[k]);
        assert parsed[..] == b;
        var shuffled := ShuffleArray(parsed, shuffleDraws);
        if |shuffled| < QuestionCount {
          var samples := GenerateSampleQuestions(QuestionCount - |shuffled|, courseId, fillerDraws);
          questions := (shuffled + samples)[..QuestionCount];
        } else {
          questions := shuffled[..QuestionCount];
        }
    }
  }
}
