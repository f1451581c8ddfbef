/**
 * The sign-up form check of the authentication test suite ("Form Validation Tests").
 * Unlike the page, which stops at the first failed check, `validateSignUpForm` checks
 * every rule and collects one message per broken rule; it checks only that the email
 * contains an `@` and that the password is at least 8 UTF-16 code units long.
 */
module SignUpFormValidation {
  import opened JsText
  import AuthPage

  datatype SignUpData = SignUpData(email: string, password: string, confirmPassword: string, fullName: string)

  /** The four rules, in the order the form check applies them. */
  datatype FormRule = EmailRule | LengthRule | MatchRule | NameRule

  const InvalidEmail: string := "Invalid email"
  const PasswordTooShort: string := "Password too short"
  const PasswordsDoNotMatch: string := "Passwords do not match"
  const FullNameRequired: string := "Full name required"

  function RuleMessage(rule: FormRule): string {
    match rule
    case EmailRule => InvalidEmail
    case LengthRule => PasswordTooShort
    case MatchRule => PasswordsDoNotMatch
    case NameRule => FullNameRequired
  }

  /** The number of rules. */
  const RuleCount: nat := 4

  /** The place of a rule in the fixed checking order. */
  function Position(rule: FormRule): nat {
    match rule
    case EmailRule => 0
    case LengthRule => 1
    case MatchRule => 2
    case NameRule => 3
  }

  /** Whether `data` breaks `rule`; the length is JavaScript's UTF-16 length. */
  function Violates(data: SignUpData, rule: FormRule): (broken: bool)
    ensures rule == NameRule ==> (broken <==> IsBlank(data.fullName))
    ensures rule == LengthRule && IsBmp(data.password) ==> (broken <==> |data.password| < 8)
  {
    TrimEmptyIffBlank(data.fullName);
    Utf16LengthOfBmp(data.password);
    match rule
    case EmailRule => '@' !in data.email
    case LengthRule => Utf16Length(data.password) < 8
    case MatchRule => data.password != data.confirmPassword
    case NameRule => Trim(data.fullName) == []
  }

  /** Rules listed strictly in checking order. */
  predicate InCheckingOrder(rules: seq<FormRule>) {
    forall i, j :: 0 <= i < j < |rules| ==> Position(rules[i]) < Position(rules[j])
  }

  /** Distinct rules report distinct messages. */
  lemma RuleMessageInjective(r1: FormRule, r2: FormRule)
    ensures RuleMessage(r1) == RuleMessage(r2) ==> r1 == r2
  {
    assert InvalidEmail[0] != PasswordTooShort[0] && InvalidEmail[0] != FullNameRequired[0];
    assert PasswordTooShort[0] != FullNameRequired[0];
    assert |InvalidEmail| != |PasswordsDoNotMatch| && |PasswordTooShort| != |PasswordsDoNotMatch|;
    assert |FullNameRequired| != |PasswordsDoNotMatch|;
  }

  /**
   * After the rules before position `upTo` have been checked, `broken` lists exactly the
   * broken ones in checking order and `errors` holds their messages.
   */
  predicate ReportedBefore(data: SignUpData, errors: seq<string>, broken: seq<FormRule>, upTo: nat) {
    && InCheckingOrder(broken)
    && |errors| == |broken|
    && (forall i :: 0 <= i < |errors| ==> errors[i] == RuleMessage(broken[i]))
    && (forall rule :: rule in broken <==> Position(rule) < upTo && Violates(data, rule))
  }

  /** Checking one more rule, in order, keeps the report exact. */
  lemma CheckStep(data: SignUpData, errors: seq<string>, broken: seq<FormRule>, rule: FormRule)
    requires ReportedBefore(data, errors, broken, Position(rule))
    ensures Violates(data, rule) ==>
      ReportedBefore(data, errors + [RuleMessage(rule)], broken + [rule], Position(rule) + 1)
    ensures !Violates(data, rule) ==> ReportedBefore(data, errors, broken, Position(rule) + 1)
  {
    if Violates(data, rule) {
      AppendInOrder(broken, rule);
    }
  }

  /** A rule placed after every listed one keeps the list in checking order. */
  lemma AppendInOrder(rules: seq<FormRule>, rule: FormRule)
    requires InCheckingOrder(rules)
    requires forall r :: r in rules ==> Position(r) < Position(rule)
    ensures InCheckingOrder(rules + [rule])
  {
    var b := rules + [rule];
    forall i, j | 0 <= i < j < |b| ensures Position(b[i]) < Position(b[j]) {
      if j == |rules| {
        assert b[i] in rules;
      }
    }
  }

  /**
   * `validateSignUpForm`: every rule is checked, in order, and each broken rule adds its
   * message; the form is valid exactly when nothing was reported. The ghost result
   * `broken` lists the rules behind the messages (see `CompleteReport` for what this
   * report means).
   */
  method ValidateSignUpForm(data: SignUpData) returns (isValid: bool, errors: seq<string>, ghost broken: seq<FormRule>)
    ensures ReportedBefore(data, errors, broken, RuleCount)
    ensures isValid <==> errors == []
  {
    errors, broken := [], [];
    CheckStep(data, errors, broken, EmailRule);
    if '@' !in data.email {
      errors, broken := errors + [InvalidEmail], broken + [EmailRule];
    }
    CheckStep(data, errors, broken, LengthRule);
    if Utf16Length(data.password) < 8 {
      errors, broken := errors + [PasswordTooShort], broken + [LengthRule];
    }
    CheckStep(data, errors, broken, MatchRule);
    if data.password != data.confirmPassword {
      errors, broken := errors + [PasswordsDoNotMatch], broken + [MatchRule];
    }
    CheckStep(data, errors, broken, NameRule);
    if Trim(data.fullName) == [] {
      errors, broken := errors + [FullNameRequired], broken + [NameRule];
    }
    isValid := |errors| == 0;
  }

  /** In checking order, the rule at index `i` sits at position `i` or later. */
  lemma {:induction false} PositionsAtLeastIndex(rules: seq<FormRule>)
    requires InCheckingOrder(rules)
    ensures forall i :: 0 <= i < |rules| ==> Position(rules[i]) >= i
    decreases |rules|
  {
    if rules != [] {
      var p := rules[..|rules| - 1];
      assert InCheckingOrder(p) by {
        forall i, j | 0 <= i < j < |p| ensures Position(p[i]) < Position(p[j]) {
          assert p[i] == rules[i] && p[j] == rules[j];
        }
      }
      PositionsAtLeastIndex(p);
      forall i | 0 <= i < |rules| ensures Position(rules[i]) >= i {
        if i < |p| {
          assert rules[i] == p[i];
        } else if i > 0 {
          assert rules[i - 1] == p[i - 1];
        }
      }
    }
  }

  /**
   * What a complete report means: the messages are exactly those of the broken rules,
   * none is repeated, there are at most four, and there are none exactly when no rule
   * is broken.
   */
  lemma {:induction false} CompleteReport(data: SignUpData, errors: seq<string>, broken: seq<FormRule>)
    requires ReportedBefore(data, errors, broken, RuleCount)
    ensures forall rule :: rule in broken <==> Violates(data, rule)
    ensures forall rule :: RuleMessage(rule) in errors <==> Violates(data, rule)
    ensures |errors| <= RuleCount
    ensures forall i, j :: 0 <= i < j < |errors| ==> errors[i] != errors[j]
    ensures errors == [] <==> forall rule :: !Violates(data, rule)
  {
    forall rule ensures RuleMessage(rule) in errors <==> rule in broken {
      if RuleMessage(rule) in errors {
        var i :| 0 <= i < |errors| && errors[i] == RuleMessage(rule);
        RuleMessageInjective(rule, broken[i]);
      }
    }
    forall i, j | 0 <= i < j < |errors| ensures errors[i] != errors[j] {
      RuleMessageInjective(broken[i], broken[j]);
    }
    PositionsAtLeastIndex(broken);
    if errors != [] {
      assert broken[0] in broken;
      assert |broken| - 1 <= Position(broken[|broken| - 1]) < RuleCount;
    }
  }

  /**
   * The page's sign-up checks are at least as strict as the suite's on the three rules
   * they share: a sign-up the page lets through breaks none of them (the suite's
   * email rule has no counterpart on the page, where the browser checks the field).
   */
  lemma PageGateImpliesFormRules(data: SignUpData)
    requires AuthPage.SignUpGate(data.password, data.confirmPassword, data.fullName) == None
    ensures !Violates(data, LengthRule) && !Violates(data, MatchRule) && !Violates(data, NameRule)
  {
    assert Violates(data, NameRule) <==> IsBlank(data.fullName);
  }
}
