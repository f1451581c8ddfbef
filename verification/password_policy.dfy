/**
 * The password policy of the sign-up form (`validatePassword`): five independent
 * flags, each the outcome of one regular-expression test, and the verdict that a
 * password is acceptable when all five hold. Both auth page components and the
 * test file compute the flags with the same expressions, so they share this module.
 */
module PasswordPolicy {
  import opened JsText

  /** The character classes the policy tests for. */
  datatype CharClass = Upper | Lower | Digit | Special

  /** The characters of the class `[!@#$%^&*(),.?":{}|<>]`. */
  const SpecialChars: string := "!@#$%^&*(),.?\":{}|<>"

  /** `[A-Z]` or `[А-Я]` (U+0410 to U+042F); Ё (U+0401) and the Mongolian Ө and Ү are not in it. */
  predicate IsUpper(c: char) {
    ('A' <= c <= 'Z') || ('\U{0410}' <= c <= '\U{042F}')
  }

  /** `[a-z]` or `[а-я]` (U+0430 to U+044F); ё (U+0451) and the Mongolian ө and ү are not in it. */
  predicate IsLower(c: char) {
    ('a' <= c <= 'z') || ('\U{0430}' <= c <= '\U{044F}')
  }

  /** `[0-9]`: ASCII digits only. */
  predicate IsDigit(c: char) {
    '0' <= c <= '9'
  }

  /** Membership in `[!@#$%^&*(),.?":{}|<>]`, spelled out character by character. */
  predicate IsSpecial(c: char) {
    || c == '!' || c == '@' || c == '#' || c == '$' || c == '%' || c == '^' || c == '&'
    || c == '*' || c == '(' || c == ')' || c == ',' || c == '.' || c == '?' || c == '"'
    || c == ':' || c == '{' || c == '}' || c == '|' || c == '<' || c == '>'
  }

  predicate InClass(c: char, cls: CharClass) {
    match cls
    case Upper => IsUpper(c)
    case Lower => IsLower(c)
    case Digit => IsDigit(c)
    case Special => IsSpecial(c)
  }

  /** `/[…]/.test(s)`: an unanchored class test succeeds iff some character is in the class. */
  function ContainsMatch(s: string, cls: CharClass): (r: bool)
    ensures r <==> exists i :: 0 <= i < |s| && InClass(s[i], cls)
  {
    if s == [] then false
    else if InClass(s[0], cls) then true
    else
      var r := ContainsMatch(s[1..], cls);
      assert forall i :: 1 <= i < |s| ==> s[i] == s[1..][i - 1];
      r
  }

  datatype PasswordStrength = PasswordStrength(
    hasMinLength: bool,
    hasUpperCase: bool,
    hasLowerCase: bool,
    hasNumber: bool,
    hasSpecialChar: bool)
  {
    /** `Object.values(strength).every(Boolean)`. */
    predicate AllHold() {
      hasMinLength && hasUpperCase && hasLowerCase && hasNumber && hasSpecialChar
    }
  }

  /** The record of all-false flags the form starts with. */
  const Unchecked := PasswordStrength(false, false, false, false, false)

  /** The flags `validatePassword` computes for `pwd`; the length is JavaScript's UTF-16 length. */
  function Strength(pwd: string): (r: PasswordStrength)
    ensures r.hasMinLength <==> Utf16Length(pwd) >= 8
    ensures r.hasUpperCase <==> exists i :: 0 <= i < |pwd| && IsUpper(pwd[i])
    ensures r.hasLowerCase <==> exists i :: 0 <= i < |pwd| && IsLower(pwd[i])
    ensures r.hasNumber <==> exists i :: 0 <= i < |pwd| && IsDigit(pwd[i])
    ensures r.hasSpecialChar <==> exists i :: 0 <= i < |pwd| && IsSpecial(pwd[i])
  {
    PasswordStrength(
      Utf16Length(pwd) >= 8,
      ContainsMatch(pwd, Upper),
      ContainsMatch(pwd, Lower),
      ContainsMatch(pwd, Digit),
      ContainsMatch(pwd, Special))
  }

  /** `isPasswordValid` (and the value `validatePassword` returns). */
  function IsPasswordValid(pwd: string): (ok: bool)
    ensures ok <==>
      && Utf16Length(pwd) >= 8
      && (exists i :: 0 <= i < |pwd| && IsUpper(pwd[i]))
      && (exists i :: 0 <= i < |pwd| && IsLower(pwd[i]))
      && (exists i :: 0 <= i < |pwd| && IsDigit(pwd[i]))
      && (exists i :: 0 <= i < |pwd| && IsSpecial(pwd[i]))
  {
    Strength(pwd).AllHold()
  }

  /** The special-character class is exactly the 20 distinct characters of `SpecialChars`. */
  lemma SpecialCharsExact(c: char)
    ensures IsSpecial(c) <==> c in SpecialChars
    ensures |SpecialChars| == 20
    ensures forall i, j :: 0 <= i < j < |SpecialChars| ==> SpecialChars[i] != SpecialChars[j]
  {
  }

  /** For a password of BMP characters the length flag is the plain character count. */
  lemma MinLengthOfBmp(pwd: string)
    requires IsBmp(pwd)
    ensures Strength(pwd).hasMinLength <==> |pwd| >= 8
  {
    Utf16LengthOfBmp(pwd);
  }

  /** The four character classes are pairwise disjoint: no character serves two flags. */
  lemma ClassesDisjoint(c: char)
    ensures !(IsUpper(c) && IsLower(c)) && !(IsUpper(c) && IsDigit(c)) && !(IsLower(c) && IsDigit(c))
    ensures (IsUpper(c) || IsLower(c) || IsDigit(c)) ==> !IsSpecial(c)
  {
  }

  /** A password made of letters and digits alone never sets the special-character flag. */
  lemma AlphanumericHasNoSpecial(pwd: string)
    requires forall i :: 0 <= i < |pwd| ==> IsUpper(pwd[i]) || IsLower(pwd[i]) || IsDigit(pwd[i])
    ensures !Strength(pwd).hasSpecialChar
  {
    forall i | 0 <= i < |pwd| ensures !IsSpecial(pwd[i]) {
      ClassesDisjoint(pwd[i]);
    }
  }

  /** The upper- and lower-case flags are independent: each of the four combinations occurs. */
  lemma CaseFlagsIndependent()
    ensures Strength("A").hasUpperCase && !Strength("A").hasLowerCase
    ensures !Strength("a").hasUpperCase && Strength("a").hasLowerCase
    ensures Strength("Aa").hasUpperCase && Strength("Aa").hasLowerCase
    ensures !Strength("1").hasUpperCase && !Strength("1").hasLowerCase
  {
    assert "Aa"[0] == 'A' && "Aa"[1] == 'a';
  }

  /** Typing more characters never clears a flag: the flags only grow as a password is extended. */
  lemma {:induction false} StrengthMonotone(p: string, q: string)
    ensures Strength(p).hasMinLength ==> Strength(p + q).hasMinLength
    ensures Strength(p).hasUpperCase ==> Strength(p + q).hasUpperCase
    ensures Strength(p).hasLowerCase ==> Strength(p + q).hasLowerCase
    ensures Strength(p).hasNumber ==> Strength(p + q).hasNumber
    ensures Strength(p).hasSpecialChar ==> Strength(p + q).hasSpecialChar
  {
    Utf16LengthAppend(p, q);
    forall i | 0 <= i < |p| ensures (p + q)[i] == p[i] { }
  }

  lemma {:induction false} Utf16LengthAppend(p: string, q: string)
    ensures Utf16Length(p + q) == Utf16Length(p) + Utf16Length(q)
    decreases |q|
  {
    if q == [] {
      assert p + q == p;
    } else {
      var q' := q[..|q| - 1];
      assert (p + q)[..|p + q| - 1] == p + q';
      Utf16LengthAppend(p, q');
    }
  }
}
