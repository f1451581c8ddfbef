/**
 * The password cases of the authentication test suite ("Password Validation Tests").
 * The suite's `validatePassword` and `isPasswordValid` repeat the page's expressions
 * and are `PasswordPolicy.Strength` and `PasswordPolicy.IsPasswordValid`; each lemma
 * states one case, and each rejected password fails on exactly the flag its case names.
 */
module PasswordValidationTests {
  import opened JsText
  import opened PasswordPolicy

  /** 'Test1234!' passes, with every flag set. */
  lemma LatinPasswordAccepted()
    ensures Strength("Test1234!") == PasswordStrength(true, true, true, true, true)
    ensures IsPasswordValid("Test1234!")
  {
    var p := "Test1234!";
    assert Strength(p).hasMinLength by { Utf16LengthOfBmp(p); }
    assert Strength(p).hasUpperCase by { assert IsUpper(p[0]); }
    assert Strength(p).hasLowerCase by { assert IsLower(p[1]); }
    assert Strength(p).hasNumber by { assert IsDigit(p[4]); }
    assert Strength(p).hasSpecialChar by { assert IsSpecial(p[8]); }
  }

  /** The Cyrillic 'Тест1234!' passes: its letters satisfy the case flags through the Cyrillic ranges. */
  lemma CyrillicPasswordAccepted()
    ensures Strength("Тест1234!") == PasswordStrength(true, true, true, true, true)
    ensures IsPasswordValid("Тест1234!")
  {
    var q := "Тест1234!";
    assert Strength(q).hasMinLength by { Utf16LengthOfBmp(q); }
    assert Strength(q).hasUpperCase by { assert IsUpper(q[0]) && q[0] == '\U{0422}'; }
    assert Strength(q).hasLowerCase by { assert IsLower(q[1]) && q[1] == '\U{0435}'; }
    assert Strength(q).hasNumber by { assert IsDigit(q[4]); }
    assert Strength(q).hasSpecialChar by { assert IsSpecial(q[8]); }
  }

  /** 'Test1!' is too short and fails on the length flag alone. */
  lemma ShortPasswordRejected()
    ensures Strength("Test1!") == PasswordStrength(false, true, true, true, true)
  {
    var a := "Test1!";
    assert IsUpper(a[0]) && IsLower(a[1]) && IsDigit(a[4]) && IsSpecial(a[5]);
    assert IsBmp(a);
    Utf16LengthOfBmp(a);
  }

  /** An ASCII string's JavaScript length is its number of characters. */
  lemma AsciiLength(s: string)
    requires forall i :: 0 <= i < |s| ==> s[i] as int < 0x80
    ensures Utf16Length(s) == |s|
  {
    Utf16LengthOfBmp(s);
  }

  /** 'test1234!' fails on the upper-case flag alone. */
  lemma NoUpperCaseRejected()
    ensures Strength("test1234!") == PasswordStrength(true, false, true, true, true)
  {
    var b := "test1234!";
    assert IsLower(b[0]) && IsDigit(b[4]) && IsSpecial(b[8]);
    AsciiLength(b);
    assert !Strength(b).hasUpperCase by {
      forall i | 0 <= i < |b| ensures !IsUpper(b[i]) {
        assert b[i] in "tes1234!";
      }
    }
  }

  /** 'TEST1234!' fails on the lower-case flag alone. */
  lemma NoLowerCaseRejected()
    ensures Strength("TEST1234!") == PasswordStrength(true, true, false, true, true)
  {
    var c := "TEST1234!";
    assert IsUpper(c[0]) && IsDigit(c[4]) && IsSpecial(c[8]);
    AsciiLength(c);
    assert !Strength(c).hasLowerCase by {
      forall i | 0 <= i < |c| ensures !IsLower(c[i]) {
        assert c[i] in "TES1234!";
      }
    }
  }

  /** 'TestTest!' fails on the digit flag alone. */
  lemma NoNumberRejected()
    ensures Strength("TestTest!") == PasswordStrength(true, true, true, false, true)
  {
    var d := "TestTest!";
    assert IsUpper(d[0]) && IsLower(d[1]) && IsSpecial(d[8]);
    AsciiLength(d);
    assert !Strength(d).hasNumber by {
      forall i | 0 <= i < |d| ensures !IsDigit(d[i]) {
        assert d[i] in "Test!";
      }
    }
  }

  /** 'Test1234' fails on the special-character flag alone. */
  lemma NoSpecialCharRejected()
    ensures Strength("Test1234") == PasswordStrength(true, true, true, true, false)
  {
    var e := "Test1234";
    assert IsUpper(e[0]) && IsLower(e[1]) && IsDigit(e[4]);
    assert IsBmp(e);
    Utf16LengthOfBmp(e);
    AlphanumericHasNoSpecial(e);
  }
}
