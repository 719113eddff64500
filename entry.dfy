// The checks handleStudentInfoSubmit in js/main.js makes before a quiz
// starts: both fields filled in, and the e-mail matching the pattern
// /^[^\s@]+@[^\s@]+\.[^\s@]+$/.
module Entry {
  import opened Text
  import opened Seqs

  /** A character of the class [^\s@]. */
  predicate EmailChar(c: char) {
    c != '@' && !IsJsSpace(c)
  }

  predicate EmailChars(s: string) {
    forall k :: 0 <= k < |s| ==> EmailChar(s[k])
  }

  /**
   * The regular expression, read as a statement about `s`: an '@' at `i`
   * and a '.' at `j` split `s` into three non-empty runs of [^\s@].
   */
  ghost predicate MatchesEmailPattern(s: string) {
    exists i, j :: 0 < i && i + 1 < j && j + 1 < |s| && s[i] == '@' && s[j] == '.' &&
                   EmailChars(s[..i]) && EmailChars(s[i + 1..j]) && EmailChars(s[j + 1..])
  }

  /**
   * The executable check: the part before the first '@' is a non-empty run
   * of [^\s@], and the rest is a run of [^\s@] of at least three characters
   * with a '.' neither first nor last.
   */
  predicate IsValidEmail(s: string) {
    '@' in s &&
    var i := IndexOf(s, '@');
    var d := s[i + 1..];
    i > 0 && EmailChars(s[..i]) && |d| >= 3 && EmailChars(d) && '.' in d[1..|d| - 1]
  }

  /** Everything the executable check accepts matches the regular expression. */
  lemma EmailCheckSound(s: string)
    requires IsValidEmail(s)
    ensures MatchesEmailPattern(s)
  {
    var i := IndexOf(s, '@');
    var d := s[i + 1..];
    var k := IndexOf(d[1..|d| - 1], '.');
    var j := i + 2 + k;
    assert s[j] == '.';
    assert s[i + 1..j] == d[..k + 1];
    assert s[j + 1..] == d[k + 2..];
  }

  /** Everything the regular expression matches passes the executable check. */
  lemma EmailCheckComplete(s: string, i: nat, j: nat)
    requires 0 < i && i + 1 < j && j + 1 < |s| && s[i] == '@' && s[j] == '.'
    requires EmailChars(s[..i]) && EmailChars(s[i + 1..j]) && EmailChars(s[j + 1..])
    ensures IsValidEmail(s)
  {
    assert s == s[..i] + ['@'] + s[i + 1..];
    assert '@' !in s[..i] by {
      forall k | 0 <= k < i ensures s[..i][k] != '@' {
        assert EmailChar(s[..i][k]);
      }
    }
    IndexOfAfterPrefix(s[..i], '@', s[i + 1..]);
    var d := s[i + 1..];
    assert EmailChars(d) by {
      forall k | 0 <= k < |d| ensures EmailChar(d[k]) {
        if k < j - i - 1 {
          assert d[k] == s[i + 1..j][k];
        } else if k > j - i - 1 {
          assert d[k] == s[j + 1..][k - (j - i)];
        }
      }
    }
    assert d[1..|d| - 1][j - i - 2] == '.';
  }

  /** The executable check accepts exactly the strings the regular expression matches. */
  lemma EmailCheckMatchesPattern(s: string)
    ensures IsValidEmail(s) <==> MatchesEmailPattern(s)
  {
    if IsValidEmail(s) {
      EmailCheckSound(s);
    }
    if MatchesEmailPattern(s) {
      var i, j :| 0 < i && i + 1 < j && j + 1 < |s| && s[i] == '@' && s[j] == '.' &&
                  EmailChars(s[..i]) && EmailChars(s[i + 1..j]) && EmailChars(s[j + 1..]);
      EmailCheckComplete(s, i, j);
    }
  }

  /** An accepted e-mail holds exactly one '@'. */
  lemma AcceptedEmailHasOneAt(s: string)
    requires IsValidEmail(s)
    ensures '@' in s
    ensures forall a, b :: 0 <= a < b < |s| ==> !(s[a] == '@' && s[b] == '@')
  {
    var i := IndexOf(s, '@');
    var d := s[i + 1..];
    forall a, b | 0 <= a < b < |s| && s[a] == '@'
      ensures s[b] != '@'
    {
      assert a == i;
      assert s[b] == d[b - i - 1] && EmailChar(d[b - i - 1]);
    }
  }

  /** The outcome of submitting the student form. */
  datatype FormCheck = Accepted | MissingField | InvalidEmail

  /**
   * handleStudentInfoSubmit's validation: an empty field is reported first,
   * then an e-mail the pattern rejects; otherwise the quiz may start.
   */
  function CheckStudentForm(fullName: string, email: string): (r: FormCheck)
    ensures r == MissingField <==> fullName == [] || email == []
    ensures r == InvalidEmail <==> fullName != [] && email != [] && !MatchesEmailPattern(email)
    ensures r == Accepted <==> fullName != [] && MatchesEmailPattern(email)
  {
    EmailCheckMatchesPattern(email);
    if fullName == [] || email == [] then MissingField
    else if !IsValidEmail(email) then InvalidEmail
    else Accepted
  }
}
