/**
 * The email check of the authentication test suite ("Email Validation Tests"):
 * `isValidEmail` tests the regular expression /^[^\s@]+@[^\s@]+\.[^\s@]+$/, a minimal
 * structural check and not the address syntax of RFC 5322.
 */
module EmailValidation {
  import opened JsText

  /** The number of occurrences of `c` in `s`. */
  function CountChar(s: string, c: char): (n: nat)
    ensures n <= |s|
    ensures n == 0 <==> c !in s
  {
    if s == [] then 0 else (if s[0] == c then 1 else 0) + CountChar(s[1..], c)
  }

  lemma {:induction false} CountCharAppend(a: string, b: string, c: char)
    ensures CountChar(a + b, c) == CountChar(a, c) + CountChar(b, c)
  {
    if a != [] {
      assert (a + b)[1..] == a[1..] + b;
      CountCharAppend(a[1..], b, c);
    } else {
      assert a + b == b;
    }
  }

  /** The position of the first `c` in `s`. */
  function IndexOf(s: string, c: char): (k: nat)
    requires c in s
    ensures k < |s| && s[k] == c && c !in s[..k]
  {
    if s[0] == c then 0
    else
      var k := IndexOf(s[1..], c);
      assert s[..k + 1] == [s[0]] + s[1..][..k];
      k + 1
  }

  predicate HasNoWhitespace(s: string) {
    forall k :: 0 <= k < |s| ==> !IsWs(s[k])
  }

  /** A `.` that is neither the first nor the last character of `domain`. */
  predicate HasInnerDot(domain: string) {
    exists k :: 0 < k < |domain| - 1 && domain[k] == '.'
  }

  /**
   * `isValidEmail`, written out by hand: exactly one `@`, no whitespace anywhere, a
   * non-empty part before the `@`, and a `.` inside the part after it.
   */
  function IsValidEmail(email: string): (ok: bool)
    ensures ok ==> '@' in email && |email| >= 5
    ensures ok ==> forall k :: 0 <= k < |email| ==> !IsWs(email[k])
  {
    && CountChar(email, '@') == 1
    && HasNoWhitespace(email)
    && var at := IndexOf(email, '@');
       at > 0 && HasInnerDot(email[at + 1..])
  }

  /** `[^\s@]`: a character the pattern's three runs may contain. */
  predicate IsPlain(c: char) {
    !IsWs(c) && c != '@'
  }

  predicate AllPlain(s: string) {
    forall k :: 0 <= k < |s| ==> IsPlain(s[k])
  }

  /**
   * The regular expression matches `s` with its `@` at `i` and its `.` at `j`: three
   * non-empty runs of `[^\s@]`, the first two separated by the `@`, the last two by the `.`.
   */
  predicate SplitsAt(s: string, i: int, j: int) {
    && 0 < i && i + 1 < j && j + 1 < |s|
    && s[i] == '@' && s[j] == '.'
    && AllPlain(s[..i]) && AllPlain(s[i + 1..j]) && AllPlain(s[j + 1..])
  }

  /** What the regular expression matches, read off its structure. */
  ghost predicate MatchesEmailPattern(s: string) {
    exists i, j :: SplitsAt(s, i, j)
  }

  /** The hand-written check accepts exactly the strings the regular expression matches. */
  lemma IsValidEmailMatchesPattern(email: string)
    ensures IsValidEmail(email) <==> MatchesEmailPattern(email)
  {
    if IsValidEmail(email) {
      ValidEmailHasPatternSplit(email);
    }
    if MatchesEmailPattern(email) {
      var i, j :| SplitsAt(email, i, j);
      PatternSplitIsValidEmail(email, i, j);
    }
  }

  /** Counting `c` around one of its occurrences: the part before, itself, and the part after. */
  lemma {:induction false} CountAround(s: string, i: int, c: char)
    requires 0 <= i < |s| && s[i] == c
    ensures CountChar(s, c) == CountChar(s[..i], c) + 1 + CountChar(s[i + 1..], c)
  {
    var d := s[i + 1..];
    assert s == s[..i] + ([s[i]] + d);
    CountCharAppend(s[..i], [s[i]] + d, c);
    CountCharAppend([s[i]], d, c);
    assert CountChar([s[i]], c) == 1 by {
      assert [s[i]][1..] == [];
    }
  }

  /** In a string with a single `@`, every other character differs from `@`. */
  lemma SingleAt(s: string)
    requires CountChar(s, '@') == 1
    ensures forall m :: 0 <= m < |s| && m != IndexOf(s, '@') ==> s[m] != '@'
  {
    var i := IndexOf(s, '@');
    var d := s[i + 1..];
    CountAround(s, i, '@');
    assert '@' !in s[..i];
    assert '@' !in d;
    forall m | 0 <= m < |s| && m != i ensures s[m] != '@' {
      if m < i {
        assert s[m] == s[..i][m];
      } else {
        assert s[m] == d[m - i - 1];
      }
    }
  }

  lemma ValidEmailHasPatternSplit(s: string)
    requires IsValidEmail(s)
    ensures MatchesEmailPattern(s)
  {
    var i := IndexOf(s, '@');
    var d := s[i + 1..];
    var k :| 0 < k < |d| - 1 && d[k] == '.';
    var j := i + 1 + k;
    SingleAt(s);
    var local, mid, top := s[..i], s[i + 1..j], s[j + 1..];
    forall m | 0 <= m < |local| ensures IsPlain(local[m]) { assert local[m] == s[m]; }
    forall m | 0 <= m < |mid| ensures IsPlain(mid[m]) { assert mid[m] == s[i + 1 + m]; }
    forall m | 0 <= m < |top| ensures IsPlain(top[m]) { assert top[m] == s[j + 1 + m]; }
    assert SplitsAt(s, i, j);
  }

  lemma PatternSplitIsValidEmail(s: string, i: int, j: int)
    requires SplitsAt(s, i, j)
    ensures IsValidEmail(s)
  {
    forall m | 0 <= m < |s| && m != i && m != j ensures IsPlain(s[m]) {
      if m < i {
        assert s[m] == s[..i][m];
      } else if m < j {
        assert s[m] == s[i + 1..j][m - i - 1];
      } else {
        assert s[m] == s[j + 1..][m - j - 1];
      }
    }
    var d := s[i + 1..];
    assert '@' !in s[..i];
    assert '@' !in d by {
      forall m | 0 <= m < |d| ensures d[m] != '@' { assert d[m] == s[i + 1 + m]; }
    }
    CountAround(s, i, '@');
    assert IndexOf(s, '@') == i;
    assert d[j - i - 1] == '.';
  }

  /**
   * A string whose only non-plain character is one `@` at `i`, with a `.` at `j` that
   * leaves non-empty runs on every side, passes the check.
   */
  lemma ShapeIsValidEmail(s: string, i: int, j: int)
    requires 0 < i && i + 1 < j && j + 1 < |s| && s[i] == '@' && s[j] == '.'
    requires forall m :: 0 <= m < |s| && m != i ==> IsPlain(s[m])
    ensures IsValidEmail(s)
  {
    var local, mid, top := s[..i], s[i + 1..j], s[j + 1..];
    forall m | 0 <= m < |local| ensures IsPlain(local[m]) { assert local[m] == s[m]; }
    forall m | 0 <= m < |mid| ensures IsPlain(mid[m]) { assert mid[m] == s[i + 1 + m]; }
    forall m | 0 <= m < |top| ensures IsPlain(top[m]) { assert top[m] == s[j + 1 + m]; }
    PatternSplitIsValidEmail(s, i, j);
  }

  // The suite's cases

  /** The suite's accepted address. */
  lemma PlainEmailAccepted()
    ensures IsValidEmail("test@example.com")
  {
    var s := "test@example.com";
    forall m | 0 <= m < |s| && m != 4 ensures IsPlain(s[m]) {
      assert s[m] in "testxampl.co";
    }
    ShapeIsValidEmail(s, 4, 12);
  }

  /** The suite's accepted address with a subdomain. */
  lemma SubdomainEmailAccepted()
    ensures IsValidEmail("user@mail.example.com")
  {
    var s := "user@mail.example.com";
    forall m | 0 <= m < |s| && m != 4 ensures IsPlain(s[m]) {
      assert s[m] in "usermail.xpco";
    }
    ShapeIsValidEmail(s, 4, 9);
  }

  /** Rejected: no `@`. */
  lemma EmailWithoutAtRejected()
    ensures !IsValidEmail("testexample.com")
  {
    var s := "testexample.com";
    assert '@' !in s;
    assert CountChar(s, '@') == 0;
  }

  /** Rejected: nothing after the `@`. */
  lemma EmailWithoutDomainRejected()
    ensures !IsValidEmail("test@")
  {
  }

  /** Rejected: a space in the local part. */
  lemma EmailWithSpaceRejected()
    ensures !IsValidEmail("test @example.com")
  {
    assert "test @example.com"[4] == ' ';
  }
}
