/**
 * The cases of the suite's "Form Validation Tests": for each form, exactly which rules
 * it breaks. Together with `SignUpFormValidation.CompleteReport` this fixes the report
 * `validateSignUpForm` gives for each of them.
 */
module FormValidationTests {
  import opened JsText
  import opened SignUpFormValidation

  const ValidForm := SignUpData("test@test.com", "Test1234!", "Test1234!", "Test User")

  /** The name check passes for a name that starts with a letter. */
  lemma NamedUser(name: string)
    requires name != [] && 'A' <= name[0] <= 'Z'
    ensures Trim(name) != []
  {
    TrimEmptyIffBlank(name);
  }

  /** The JavaScript length of the suite's 9- and 13-character ASCII passwords. */
  lemma AsciiLengths()
    ensures Utf16Length("Test1234!") == 9
    ensures Utf16Length("Test1!") == 6
    ensures Utf16Length("Different123!") == 13
  {
    Utf16LengthOfBmp("Test1234!");
    Utf16LengthOfBmp("Test1!");
    Utf16LengthOfBmp("Different123!");
  }

  /** The valid form breaks no rule, so its report is empty. */
  lemma ValidFormBreaksNothing()
    ensures forall rule :: !Violates(ValidForm, rule)
  {
    assert ValidForm.email[4] == '@';
    AsciiLengths();
    NamedUser(ValidForm.fullName);
  }

  /** 'invalid-email' breaks the email rule alone. */
  lemma InvalidEmailCase()
    ensures forall rule ::
      Violates(ValidForm.(email := "invalid-email"), rule) <==> rule == EmailRule
  {
    var e := "invalid-email";
    assert '@' !in e;
    AsciiLengths();
    NamedUser(ValidForm.fullName);
  }

  /** 'Test1!' (six code units) breaks the length rule alone. */
  lemma ShortPasswordCase()
    ensures forall rule ::
      Violates(ValidForm.(password := "Test1!", confirmPassword := "Test1!"), rule) <==> rule == LengthRule
  {
    assert ValidForm.email[4] == '@';
    AsciiLengths();
    NamedUser(ValidForm.fullName);
  }

  /** A confirmation of 'Different123!' breaks the match rule alone. */
  lemma MismatchCase()
    ensures forall rule ::
      Violates(ValidForm.(confirmPassword := "Different123!"), rule) <==> rule == MatchRule
  {
    assert ValidForm.email[4] == '@';
    AsciiLengths();
    NamedUser(ValidForm.fullName);
  }

  /** An empty name and a name of three spaces each break the name rule alone. */
  lemma BlankNameCases()
    ensures forall rule :: Violates(ValidForm.(fullName := ""), rule) <==> rule == NameRule
    ensures forall rule :: Violates(ValidForm.(fullName := "   "), rule) <==> rule == NameRule
  {
    assert ValidForm.email[4] == '@';
    AsciiLengths();
    TrimEmptyIffBlank("");
    TrimEmptyIffBlank("   ");
  }

  /**
   * Whatever the other fields hold, mismatched passwords are always reported, and so
   * is a name made of whitespace alone (the empty one included).
   */
  lemma MismatchAndBlankNameAlwaysReported(data: SignUpData, errors: seq<string>, broken: seq<FormRule>)
    requires ReportedBefore(data, errors, broken, RuleCount)
    ensures data.password != data.confirmPassword ==> PasswordsDoNotMatch in errors
    ensures IsBlank(data.fullName) ==> FullNameRequired in errors
  {
    CompleteReport(data, errors, broken);
    TrimEmptyIffBlank(data.fullName);
    assert RuleMessage(MatchRule) == PasswordsDoNotMatch && RuleMessage(NameRule) == FullNameRequired;
  }
}
