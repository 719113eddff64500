// What js/admin.js computes from the stored results: the admin password,
// the three filters of filterResults, the newest-first order of
// displayResults, and the options of the course filter built by
// loadAdminPanel.
module AdminView {
  import opened Text
  import opened Seqs
  import opened QuizTypes

  /** The pieces ADMIN_PASSWORD is assembled from. */
  const PasswordParts: seq<string> := ["5202", "art", "necxalatrop"]

  /** parts.join(''): the pieces one after another. */
  function Concat(parts: seq<string>): string {
    if parts == [] then [] else parts[0] + Concat(parts[1..])
  }

  /** ADMIN_PASSWORD: the concatenated pieces, character by character reversed. */
  function AdminPassword(): string {
    Reverse(Concat(PasswordParts))
  }

  /** Reversing twice gives back the original string. */
  lemma {:induction false} ReverseInvolution(s: string)
    ensures Reverse(Reverse(s)) == s
  {
    var r := Reverse(s);
    assert |Reverse(r)| == |s|;
    forall i | 0 <= i < |s|
      ensures Reverse(r)[i] == s[i]
    {
      assert Reverse(r)[i] == r[|r| - 1 - i];
      assert r[|r| - 1 - i] == s[|s| - 1 - (|r| - 1 - i)];
    }
  }

  /** The password spelt out: "portalaxcentra2025". */
  lemma AdminPasswordValue()
    ensures AdminPassword() == "portalaxcentra2025"
  {
    assert Concat(PasswordParts) == "5202artnecxalatrop";
  }

  /**
   * The exact, case-sensitive comparison of handleAdminLogin accepts a
   * string precisely when reading it backwards gives the concatenated pieces.
   */
  lemma PasswordCheck(entered: string)
    ensures entered == AdminPassword() <==> Reverse(entered) == Concat(PasswordParts)
  {
    ReverseInvolution(entered);
    ReverseInvolution(Concat(PasswordParts));
  }

  /** Number(x) for the score-range bounds: a value, or NaN (also for a missing bound). */
  datatype Bound = Num(n: int) | NaN

  /** Number() of a digit string is its value and of "" is 0; anything else is taken as NaN. */
  function NumberOf(s: string): (b: Bound)
    ensures s == [] ==> b == Num(0)
    ensures b.Num? ==> b.n >= 0
  {
    if s == [] then Num(0) else if AllDigits(s) then Num(DecimalValue(s)) else NaN
  }

  /** The score select's value split at each '-', the first two parts read as numbers; a missing upper bound is not a number. */
  function ParseScoreRange(range: string): (Bound, Bound) {
    var parts := SplitOn(range, '-');
    (NumberOf(parts[0]), if |parts| >= 2 then NumberOf(parts[1]) else NaN)
  }

  /** r.score >= min && r.score <= max: any comparison with NaN is false. */
  predicate InRange(score: int, lo: Bound, hi: Bound) {
    lo.Num? && hi.Num? && lo.n <= score <= hi.n
  }

  /** "min-max" for two bounds written in decimal reads back as that inclusive range. */
  lemma ScoreRangeRoundTrip(lo: nat, hi: nat)
    ensures ParseScoreRange(DecimalString(lo) + "-" + DecimalString(hi)) == (Num(lo), Num(hi))
  {
    var a, b := DecimalString(lo), DecimalString(hi);
    assert '-' !in a && '-' !in b by {
      assert forall k :: 0 <= k < |a| ==> IsDigit(a[k]);
      assert forall k :: 0 <= k < |b| ==> IsDigit(b[k]);
    }
    SplitOnCons(a, '-', b);
    assert a + "-" + b == a + ['-'] + b;
    DecimalRoundTrip(lo);
    DecimalRoundTrip(hi);
  }

  /** The three select values of the admin panel: a course name, pass/fail and a score range, each possibly 'all'. */
  datatype Filters = Filters(course: string, result: string, range: string)

  predicate CourseStep(f: Filters, r: ResultRecord) {
    r.course == f.course
  }

  predicate ResultStep(f: Filters, r: ResultRecord) {
    r.passed == (f.result == "pass")
  }

  predicate RangeStep(f: Filters, r: ResultRecord) {
    InRange(r.score, ParseScoreRange(f.range).0, ParseScoreRange(f.range).1)
  }

  /** The callbacks of the three `filter` calls. */
  function CourseTest(f: Filters): ResultRecord -> bool {
    r => CourseStep(f, r)
  }

  function ResultTest(f: Filters): ResultRecord -> bool {
    r => ResultStep(f, r)
  }

  function RangeTest(f: Filters): ResultRecord -> bool {
    r => RangeStep(f, r)
  }

  /** filterResults: the three filters applied one after the other; 'all' skips a filter. */
  function Filtered(rs: seq<ResultRecord>, f: Filters): seq<ResultRecord> {
    var byCourse := if f.course != "all" then Keep(rs, CourseTest(f)) else rs;
    var byResult := if f.result != "all" then Keep(byCourse, ResultTest(f)) else byCourse;
    if f.range != "all" then Keep(byResult, RangeTest(f)) else byResult
  }

  /** The conjunctive condition a record must meet to be listed. */
  predicate Selected(f: Filters, r: ResultRecord) {
    (f.course == "all" || r.course == f.course) &&
    (f.result == "all" || r.passed == (f.result == "pass")) &&
    (f.range == "all" || InRange(r.score, ParseScoreRange(f.range).0, ParseScoreRange(f.range).1))
  }

  predicate CourseOk(f: Filters, r: ResultRecord) {
    f.course == "all" || CourseStep(f, r)
  }

  predicate ResultOk(f: Filters, r: ResultRecord) {
    f.result == "all" || ResultStep(f, r)
  }

  predicate RangeOk(f: Filters, r: ResultRecord) {
    f.range == "all" || RangeStep(f, r)
  }

  /** A filter that may be switched off is one filter by "off or matches". */
  lemma {:induction false} OptionalKeep(s: seq<ResultRecord>, off: bool, p: ResultRecord -> bool, q: ResultRecord -> bool)
    requires forall r :: q(r) == (off || p(r))
    ensures (if off then s else Keep(s, p)) == Keep(s, q)
  {
    if off {
      KeepAll(s, q);
    } else {
      KeepCongruent(s, p, q);
    }
  }

  /** Selected and its parts as callbacks. */
  function SelectedTest(f: Filters): ResultRecord -> bool {
    r => Selected(f, r)
  }

  function CourseOkTest(f: Filters): ResultRecord -> bool {
    r => CourseOk(f, r)
  }

  function ResultOkTest(f: Filters): ResultRecord -> bool {
    r => ResultOk(f, r)
  }

  function RangeOkTest(f: Filters): ResultRecord -> bool {
    r => RangeOk(f, r)
  }

  function BothOkTest(f: Filters): ResultRecord -> bool {
    r => CourseOk(f, r) && ResultOk(f, r)
  }

  /** Each select of filterResults is a filter by "off or matches". */
  lemma FilteredIsChain(rs: seq<ResultRecord>, f: Filters)
    ensures Filtered(rs, f) == Keep(Keep(Keep(rs, CourseOkTest(f)), ResultOkTest(f)), RangeOkTest(f))
  {
    var byCourse := if f.course != "all" then Keep(rs, CourseTest(f)) else rs;
    var byResult := if f.result != "all" then Keep(byCourse, ResultTest(f)) else byCourse;
    OptionalKeep(rs, f.course == "all", CourseTest(f), CourseOkTest(f));
    OptionalKeep(byCourse, f.result == "all", ResultTest(f), ResultOkTest(f));
    OptionalKeep(byResult, f.range == "all", RangeTest(f), RangeOkTest(f));
  }

  /** Selected is the course and result conditions together with the range condition. */
  lemma SelectedSplits(f: Filters)
    ensures forall r :: SelectedTest(f)(r) == (BothOkTest(f)(r) && RangeOkTest(f)(r))
  {
    forall r
      ensures SelectedTest(f)(r) == (BothOkTest(f)(r) && RangeOkTest(f)(r))
    {
      assert SelectedTest(f)(r) == Selected(f, r);
    }
  }

  /** The chain of filters is one filter by Selected. */
  lemma FilteredIsSelected(rs: seq<ResultRecord>, f: Filters)
    ensures Filtered(rs, f) == Keep(rs, SelectedTest(f))
  {
    FilteredIsChain(rs, f);
    KeepKeep(rs, CourseOkTest(f), ResultOkTest(f), BothOkTest(f));
    SelectedSplits(f);
    KeepKeep(rs, BothOkTest(f), RangeOkTest(f), SelectedTest(f));
  }

  /**
   * filterResults lists, in their stored order, exactly the stored records
   * that pass every active filter; the score range is inclusive at both ends.
   */
  lemma FilteredSpec(rs: seq<ResultRecord>, f: Filters)
    ensures SubseqOf(Filtered(rs, f), rs)
    ensures forall r :: r in Filtered(rs, f) <==> r in rs && Selected(f, r)
  {
    FilteredIsSelected(rs, f);
    KeepIsSubsequence(rs, SelectedTest(f));
    forall r | r in rs && Selected(f, r)
      ensures r in Filtered(rs, f)
    {
      var k :| 0 <= k < |rs| && rs[k] == r;
    }
  }

  /** Ordered by non-increasing timestamp. */
  predicate NewestFirst(rs: seq<ResultRecord>) {
    forall i, j :: 0 <= i < j < |rs| ==> rs[i].timestamp >= rs[j].timestamp
  }

  /**
   * Midway through inserting s[i] into the newest-first prefix s[..i]: the
   * record being moved sits at j, the other records of s[..i + 1] are in
   * order, the moved one is newer than or as new as all after it, and its
   * two neighbours are in order with each other.
   */
  predicate Inserting(s: seq<ResultRecord>, i: nat, j: nat) {
    j <= i < |s| &&
    (forall p, q :: 0 <= p < q <= i && p != j && q != j ==> s[p].timestamp >= s[q].timestamp) &&
    (forall q :: j < q <= i ==> s[j].timestamp >= s[q].timestamp) &&
    (0 < j < i ==> s[j - 1].timestamp >= s[j + 1].timestamp)
  }

  /** Before the first swap: the prefix is ordered and the new record is at i. */
  lemma InsertingStart(s: seq<ResultRecord>, i: nat)
    requires i < |s| && NewestFirst(s[..i])
    ensures Inserting(s, i, i)
  {
    forall p, q | 0 <= p < q <= i && p != i && q != i
      ensures s[p].timestamp >= s[q].timestamp
    {
      assert s[..i][p] == s[p] && s[..i][q] == s[q];
    }
  }

  /** Swapping the moved record with an older predecessor keeps the state, one place further front. */
  lemma InsertingStep(s: seq<ResultRecord>, i: nat, j: nat)
    requires Inserting(s, i, j) && 0 < j && s[j - 1].timestamp < s[j].timestamp
    ensures Inserting(Swap(s, j - 1, j), i, j - 1)
  {
    var t := Swap(s, j - 1, j);
    forall p, q | 0 <= p < q <= i && p != j - 1 && q != j - 1
      ensures t[p].timestamp >= t[q].timestamp
    {
      if p == j {
        assert t[p] == s[j - 1];
        if q != j + 1 {
          assert s[j - 1].timestamp >= s[q].timestamp;
        }
      } else if q == j {
        assert t[q] == s[j - 1];
      }
    }
  }

  /** Once the predecessor is as new or newer (or there is none), the prefix s[..i + 1] is ordered. */
  lemma InsertingDone(s: seq<ResultRecord>, i: nat, j: nat)
    requires Inserting(s, i, j) && (j == 0 || s[j - 1].timestamp >= s[j].timestamp)
    ensures NewestFirst(s[..i + 1])
  {
    forall p, q | 0 <= p < q <= i
      ensures s[p].timestamp >= s[q].timestamp
    {
      if q == j {
        assert s[p].timestamp >= s[j - 1].timestamp;
      }
    }
  }

  /**
   * Part-way through a pass over `orig`: the pass invariant holds, the
   * records are those of `orig` rearranged, and the cells after `i` are
   * those of `orig`.
   */
  predicate InPass(s: seq<ResultRecord>, orig: seq<ResultRecord>, i: nat, j: nat) {
    Inserting(s, i, j) && |s| == |orig| && multiset(s) == multiset(orig) && s[i + 1..] == orig[i + 1..]
  }

  /** A pass starts from a newest-first prefix and the record to insert at `i`. */
  lemma InPassStart(s: seq<ResultRecord>, i: nat)
    requires i < |s| && NewestFirst(s[..i])
    ensures InPass(s, s, i, i)
  {
    InsertingStart(s, i);
  }

  /** One swap of the pass: it keeps the invariant, every record, and the cells after `i`. */
  lemma InPassSwap(s: seq<ResultRecord>, orig: seq<ResultRecord>, i: nat, j: nat)
    requires InPass(s, orig, i, j) && 0 < j && s[j - 1].timestamp < s[j].timestamp
    ensures InPass(Swap(s, j - 1, j), orig, i, j - 1)
  {
    InsertingStep(s, i, j);
    SwapPermutes(s, j - 1, j);
    SwapKeepsTail(s, j - 1, j, i + 1);
  }

  /** Once no older predecessor is left, the pass has extended the newest-first prefix by one. */
  lemma InPassDone(s: seq<ResultRecord>, orig: seq<ResultRecord>, i: nat, j: nat)
    requires InPass(s, orig, i, j) && (j == 0 || s[j - 1].timestamp >= s[j].timestamp)
    ensures NewestFirst(s[..i + 1]) && multiset(s) == multiset(orig) && s[i + 1..] == orig[i + 1..]
  {
    InsertingDone(s, i, j);
  }

  /**
   * One pass of the insertion sort: the record at `i` moves towards the
   * front past every older one, so that a[..i + 1] is newest first.
   */
  method InsertNewest(a: array<ResultRecord>, i: nat)
    requires 0 < i < a.Length && NewestFirst(a[..i])
    modifies a
    ensures NewestFirst(a[..i + 1]) && multiset(a[..]) == multiset(old(a[..]))
    ensures a[i + 1..] == old(a[i + 1..])
  {
    ghost var orig := a[..];
    InPassStart(orig, i);
    var j := i;
    while j > 0 && a[j - 1].timestamp < a[j].timestamp
      invariant j <= i
      invariant InPass(a[..], orig, i, j)
    {
      InPassSwap(a[..], orig, i, j);
      SwapAt(a, j - 1, j);
      j := j - 1;
    }
    InPassDone(a[..], orig, i, j);
  }

  /**
   * The records sorted in place by decreasing timestamp: an insertion sort
   * that leaves the records newest first and each one present as often as
   * before.
   */
  method SortNewestFirst(a: array<ResultRecord>)
    modifies a
    ensures NewestFirst(a[..]) && multiset(a[..]) == multiset(old(a[..]))
  {
    if a.Length == 0 {
      return;
    }
    var i := 1;
    while i < a.Length
      invariant 1 <= i <= a.Length
      invariant NewestFirst(a[..i])
      invariant multiset(a[..]) == multiset(old(a[..]))
    {
      InsertNewest(a, i);
      i := i + 1;
    }
    assert a[..a.Length] == a[..];
  }

  /** displayResults: the records it is given, each once, newest first. */
  method DisplayResults(results: seq<ResultRecord>) returns (rows: seq<ResultRecord>)
    ensures NewestFirst(rows) && multiset(rows) == multiset(results)
  {
    var a := new ResultRecord[|results|](k requires 0 <= k < |results| => results[k]);
    assert a[..] == results;
    SortNewestFirst(a);
    rows := a[..];
  }

  /** The course name of each record, position by position. */
  function CourseNames(rs: seq<ResultRecord>): (names: seq<string>)
    ensures |names| == |rs| && forall k :: 0 <= k < |rs| ==> names[k] == rs[k].course
  {
    if rs == [] then [] else [rs[0].course] + CourseNames(rs[1..])
  }

  /**
   * The distinct course names of the records, as a Set built from them
   * yields them: every stored course name once, in the order of first appearance.
   */
  function UniqueCourses(rs: seq<ResultRecord>): (opts: seq<string>)
    ensures NoDuplicates(opts)
    ensures forall k :: 0 <= k < |opts| ==> exists m :: 0 <= m < |rs| && rs[m].course == opts[k]
    ensures forall m :: 0 <= m < |rs| ==> rs[m].course in opts
  {
    var names := CourseNames(rs);
    var opts := Dedup(names);
    assert forall m :: 0 <= m < |rs| ==> names[m] == rs[m].course;
    opts
  }

  /** The course filter's value after it is rebuilt: the previous choice if still offered, else 'all'. */
  function RestoredFilter(previous: string, opts: seq<string>): (v: string)
    ensures v == previous <==> previous == "all" || (previous != [] && previous in opts)
    ensures v != previous ==> v == "all"
  {
    if previous != [] && previous in opts then previous else "all"
  }
}
