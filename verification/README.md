# Auth page validation and role routing, in Dafny

This project models the client-side logic of the sign-in / sign-up page of a small
student–parent web application, and proves what that logic guarantees. The page
exists in two copies (`app/auth/page.tsx` and `app/auth/AuthPageContent.tsx`) whose
handlers are identical apart from markup. The test file `__tests__/auth.test.ts`
carries its own validators, which differ from the page's and are modelled separately.

What is modelled:

- **Password strength** (`PasswordPolicy`). `validatePassword` computes five flags:
  - length of at least 8 UTF-16 code units;
  - an upper-case letter, `A`–`Z` or Cyrillic `А`–`Я` (U+0410–U+042F);
  - a lower-case letter, `a`–`z` or `а`–`я` (U+0430–U+044F);
  - an ASCII digit;
  - one of the 20 characters `!@#$%^&*(),.?":{}|<>`.

  A password is valid exactly when all five flags hold. Each regular-expression test
  is a recursive search (`ContainsMatch`) proved equal to "some character is in the
  class". JavaScript `length` is modelled as a UTF-16 code-unit count (`Utf16Length`),
  and it is proved to equal the character count for strings inside the Basic
  Multilingual Plane.
- **Page state** (`AuthPage.AuthForm`). Each `useState` variable is a field of a class.
  Each handler is a method that updates the fields in the order the source does:
  - the password change;
  - the three-step sign-up gate with early returns (strength, then confirmation,
    then non-blank trimmed name);
  - the sign-in and sign-up completions.

  The backend's answers are inputs (`SignInReply`, `SignUpReply`). Navigation is the
  path a method returns.
- **Role routing** (`RoleRouting`):
  - the initial role (`roleFromUrl || 'student'`);
  - the label and gradient, which pick the parent variant exactly for `"parent"`;
  - the three-way redirect after sign-in (fallback `/dashboard`);
  - the two-way redirect after sign-up.

  The role is a string because the page casts the query parameter without checking
  it. Any non-empty value becomes the role: `?role=admin` shows the student label and
  sends a new account to `/student/dashboard`. If the backend stores that role, the
  account goes to `/dashboard` at its next sign-in (`RedirectsAgreeOnKnownRoles`).
- **Test-file validators**:
  - `isValidEmail` (`EmailValidation`) is a hand-written check: one `@`, no
    whitespace, a non-empty local part, and an inner `.` after the `@`. It is proved
    equivalent to the structure of the regular expression `^[^\s@]+@[^\s@]+\.[^\s@]+$`.
  - `isValidRole` and the suite's `getRoleDisplay`/`getRedirectUrl` are in `RoleValidation`.
  - `validateSignUpForm` (`SignUpFormValidation`) is a method that appends one message
    per broken rule, in order. It is proved to report exactly the broken rules, with no
    duplicates and at most four messages.
  - Every test case of the suite is a lemma, except the three "Authentication Flow"
    cases listed under "Left out".

`trim` and `\s` use ECMAScript's WhiteSpace and LineTerminator code points (`JsText.IsWs`).
A name is blank exactly when every character is one of them (`TrimEmptyIffBlank`).

In the test file the Cyrillic literals (the ranges on lines 12–13, the password on
line 30, the labels on line 128) appear mis-encoded. They are read as the page's
ranges, the password `Тест1234!` and the page's labels.

## Model

| member | source | states |
|---|---|---|
| JsText.IsWs | app/auth/page.tsx:109 | the characters `trim` removes; within ASCII exactly the space and U+0009 to U+000D |
| JsText.Trim | app/auth/page.tsx:109 | the trimmed name is a slice `s[i..j]` of the input with only whitespace before `i` and from `j` on, and when non-empty it starts and ends with a non-whitespace character |
| JsText.TrimEmptyIffBlank | app/auth/page.tsx:109-113 | `!fullName.trim()` holds iff every character of the name is ECMAScript whitespace (the empty name included) |
| JsText.Utf16Length | app/auth/page.tsx:37 | `pwd.length` counts UTF-16 code units: between the character count and twice it |
| JsText.Utf16LengthOfBmp | app/auth/AuthPageContent.tsx:37 | for strings of BMP characters the code-unit length equals the character count |
| JsText.OrElse | app/auth/page.tsx:85 | `err.message \|\| fallback` yields the message when non-empty, the fallback when empty |
| PasswordPolicy.ContainsMatch | app/auth/page.tsx:38-41 | an unanchored character-class test succeeds iff some character of the password is in the class |
| PasswordPolicy.Strength | app/auth/page.tsx:36-42 | each of the five flags holds iff its condition does: length ≥ 8 code units; some A–Z/А–Я; some a–z/а–я; some 0–9; some special character |
| PasswordPolicy.IsPasswordValid | __tests__/auth.test.ts:19-22 | a password is valid iff all five conditions hold at once |
| PasswordPolicy.SpecialCharsExact | app/auth/AuthPageContent.tsx:41 | the special class is exactly the characters of `!@#$%^&*(),.?":{}\|<>`, which are 20 distinct characters |
| PasswordPolicy.MinLengthOfBmp | app/auth/AuthPageContent.tsx:37 | for a BMP-only password the length flag is "at least 8 characters" |
| PasswordPolicy.ClassesDisjoint | app/auth/page.tsx:38-41 | no character is in two of the upper, lower and digit classes, and none of those is special |
| PasswordPolicy.AlphanumericHasNoSpecial | app/auth/page.tsx:41 | a password of letters and digits only never sets the special-character flag |
| PasswordPolicy.CaseFlagsIndependent | app/auth/page.tsx:38-39 | the upper-case and lower-case flags are independent: all four combinations occur |
| PasswordPolicy.StrengthMonotone | app/auth/AuthPageContent.tsx:36-42 | appending characters to a password never clears any flag |
| RoleRouting.InitialRole | app/auth/page.tsx:10-13 | the role is the URL value when present and non-empty, otherwise "student"; it is never empty |
| RoleRouting.RoleDisplay | app/auth/page.tsx:149-151 | the label is one of the two fixed labels, and the parent label iff the role is "parent" |
| RoleRouting.RoleGradient | app/auth/page.tsx:153-157 | the gradient is one of the two fixed gradients, and the parent one iff the role is "parent" |
| RoleRouting.SignInRedirect | app/auth/page.tsx:76-82 | the sign-in destination is one of three paths: parent dashboard iff profile role "parent", student dashboard iff "student", `/dashboard` iff anything else or no profile |
| RoleRouting.SignUpRedirect | app/auth/AuthPageContent.tsx:132-136 | the sign-up destination is the parent dashboard iff the role is "parent", else the student dashboard |
| RoleRouting.RoleViewsAgree | app/auth/AuthPageContent.tsx:145-153 | label, gradient and sign-up destination all choose their parent variant under the same condition |
| RoleRouting.RedirectsAgreeOnKnownRoles | app/auth/page.tsx:76-140 | for "parent" and "student" sign-in and sign-up lead to the same dashboard; any other role goes to the student dashboard after sign-up and to `/dashboard` after sign-in |
| AuthPage.GateMessage | app/auth/page.tsx:97-112 | each failed check shows its own fixed, non-empty message, and distinct checks show distinct messages |
| AuthPage.SignUpGate | app/auth/AuthPageContent.tsx:95-111 | the first failing check in the order strength, confirmation, trimmed name; none iff the password is valid, the confirmation matches and the name is not blank |
| AuthPage.GatePassShowsFullChecklist | app/auth/page.tsx:97-113 | a sign-up that passes the gate has all five strength flags set, matching passwords and a non-empty trimmed name |
| AuthPage.AuthForm.constructor | app/auth/page.tsx:12-26 | initial state: sign-in tab, role from the URL or "student", empty fields, not loading, no error, all flags false |
| AuthPage.AuthForm.SyncRoleFromUrl | app/auth/page.tsx:28-32 | a non-empty URL role replaces the role; a missing or empty one leaves it unchanged |
| AuthPage.AuthForm.SelectTab | app/auth/page.tsx:275 | the active tab becomes the one clicked |
| AuthPage.AuthForm.EditEmail | app/auth/page.tsx:322 | the email field follows the input |
| AuthPage.AuthForm.EditFullName | app/auth/page.tsx:446 | the name field follows the input |
| AuthPage.AuthForm.EditConfirmPassword | app/auth/page.tsx:579 | the confirmation field follows the input |
| AuthPage.AuthForm.ValidatePassword | app/auth/page.tsx:35-45 | stores exactly the computed flags and returns true iff all of them hold, i.e. iff the password is valid |
| AuthPage.AuthForm.HandlePasswordChange | app/auth/AuthPageContent.tsx:47-53 | the password always follows the input; the flags are recomputed in the sign-up tab and unchanged in the sign-in tab |
| AuthPage.AuthForm.SubmitSignUp | app/auth/page.tsx:91-113 | the backend is reached iff every check passes; the flags are recomputed; on the first failure its message is shown and loading is cleared, otherwise loading stays set with no error |
| AuthPage.AuthForm.CompleteSignUp | app/auth/AuthPageContent.tsx:112-143 | after the backend's reply loading is cleared; success navigates by role; an error shows its message or the generic sign-up message; no user changes nothing |
| AuthPage.AuthForm.HandleSignUp | app/auth/page.tsx:91-147 | the whole sign-up: gate failures show their message without navigation; past the gate the reply decides the destination or the error; loading always ends cleared |
| AuthPage.AuthForm.HandleSignIn | app/auth/AuthPageContent.tsx:55-88 | the error is cleared first; a failure shows its message or the generic sign-in message; a signed-in user goes to the dashboard of the profile's role; loading ends cleared |
| PasswordValidationTests.LatinPasswordAccepted | __tests__/auth.test.ts:24-27 | `Test1234!` sets all five flags and is valid |
| PasswordValidationTests.CyrillicPasswordAccepted | __tests__/auth.test.ts:29-32 | `Тест1234!` sets all five flags through the Cyrillic ranges and is valid |
| PasswordValidationTests.ShortPasswordRejected | __tests__/auth.test.ts:34-37 | `Test1!` fails on the length flag alone |
| PasswordValidationTests.NoUpperCaseRejected | __tests__/auth.test.ts:39-42 | `test1234!` fails on the upper-case flag alone |
| PasswordValidationTests.NoLowerCaseRejected | __tests__/auth.test.ts:44-47 | `TEST1234!` fails on the lower-case flag alone |
| PasswordValidationTests.NoNumberRejected | __tests__/auth.test.ts:49-52 | `TestTest!` fails on the digit flag alone |
| PasswordValidationTests.NoSpecialCharRejected | __tests__/auth.test.ts:54-57 | `Test1234` fails on the special-character flag alone |
| EmailValidation.IsValidEmail | __tests__/auth.test.ts:92-95 | an accepted address contains an `@`, has at least five characters and no whitespace |
| EmailValidation.IsValidEmailMatchesPattern | __tests__/auth.test.ts:92-95 | the hand-written check accepts a string iff it splits into three non-empty runs without whitespace or `@`, joined by `@` and then `.`, as the regular expression requires |
| EmailValidation.PlainEmailAccepted | __tests__/auth.test.ts:97-99 | `test@example.com` is accepted |
| EmailValidation.SubdomainEmailAccepted | __tests__/auth.test.ts:101-103 | `user@mail.example.com` is accepted |
| EmailValidation.EmailWithoutAtRejected | __tests__/auth.test.ts:105-107 | `testexample.com` is rejected |
| EmailValidation.EmailWithoutDomainRejected | __tests__/auth.test.ts:109-111 | `test@` is rejected |
| EmailValidation.EmailWithSpaceRejected | __tests__/auth.test.ts:113-115 | `test @example.com` is rejected |
| RoleValidation.IsValidRole | __tests__/auth.test.ts:122-125 | a role string is accepted iff it names one of student, parent and admin |
| RoleValidation.GetRoleDisplay | __tests__/auth.test.ts:127-129 | the suite's label is one of the two page labels, the parent one iff the role is parent |
| RoleValidation.GetRedirectUrl | __tests__/auth.test.ts:276-278 | student goes to the student dashboard and parent to the parent dashboard, each iff |
| RoleValidation.SuiteHelpersAgreeWithPage | __tests__/auth.test.ts:127-129 | the suite's label and redirect copies give the same results as the page's functions |
| RoleValidation.RoleCases | __tests__/auth.test.ts:131-153 | student, parent and admin are accepted, teacher is rejected, and the two labels and two redirects are the expected ones |
| SignUpFormValidation.Violates | __tests__/auth.test.ts:166-178 | the four rule conditions; the name rule is broken iff the name is all whitespace, and for a BMP password the length rule iff it has fewer than 8 characters |
| SignUpFormValidation.RuleMessageInjective | __tests__/auth.test.ts:166-180 | the four rules push four different messages |
| SignUpFormValidation.CheckStep | __tests__/auth.test.ts:166-180 | checking the next rule appends its message exactly when the rule is broken, keeping the report exact and in order |
| SignUpFormValidation.ValidateSignUpForm | __tests__/auth.test.ts:158-186 | the report lists exactly the broken rules in checking order, one message each, and `isValid` holds iff the list is empty |
| SignUpFormValidation.CompleteReport | __tests__/auth.test.ts:164-185 | a complete report holds a rule's message iff the rule is broken, has no duplicates and at most four entries, and is empty iff no rule is broken |
| SignUpFormValidation.PageGateImpliesFormRules | __tests__/auth.test.ts:170-180 | a sign-up the page lets through breaks none of the suite's length, match and name rules |
| FormValidationTests.ValidFormBreaksNothing | __tests__/auth.test.ts:188-197 | the valid form breaks no rule |
| FormValidationTests.InvalidEmailCase | __tests__/auth.test.ts:199-208 | `invalid-email` breaks the email rule and nothing else |
| FormValidationTests.ShortPasswordCase | __tests__/auth.test.ts:210-219 | `Test1!` breaks the length rule and nothing else |
| FormValidationTests.MismatchCase | __tests__/auth.test.ts:221-230 | a confirmation of `Different123!` breaks the match rule and nothing else |
| FormValidationTests.BlankNameCases | __tests__/auth.test.ts:232-252 | an empty name and a name of three spaces each break the name rule and nothing else |
| FormValidationTests.MismatchAndBlankNameAlwaysReported | __tests__/auth.test.ts:221-252 | whatever the other fields hold, a mismatch always reports "Passwords do not match" and a blank name always reports "Full name required" |

## Left out

- Calls to the hosted backend (sign-in, sign-up, profile select and insert) are not modelled. Their outcomes are the inputs `SignInReply` and `SignUpReply`, and failed profile lookups count as "no profile".
- Asynchrony and React machinery are not modelled: `await`, the `finally` timing of `loading`, `useState`, `useEffect`, `useSearchParams`, and `router.push` as an effect (its argument is returned instead). `SubmitSignUp` and `CompleteSignUp` split `handleSignUp` at the network call, and `HandleSignUp` composes them.
- JSX, inline styles and hover/focus handlers are not modelled.
- Browser-side checks (`required`, `type="email"`) are not modelled; they are done by the browser, not by this code.
- `components/RoleSelectionModal.tsx`, `app/page.tsx`, `app/layout.tsx` and `tailwind.config.ts` are not part of this model; they are markup and configuration.
- `lib/supabase.ts` and `lib/supabase-server.ts` are not part of this model; they read environment variables and construct a client.
- The suite's `createProfile` (`__tests__/auth.test.ts:258-265`) is left out because it reads the wall clock. `handleAuthSuccess` and `handleAuthFailure` (285-313) are left out because they only build records.
- RoleValidation.GetRedirectUrl: requires a role other than admin, because the suite's parameter type `'student' | 'parent'` excludes it.
- Regular expressions are modelled per code point, as with the `u` flag. Without it, JavaScript matches UTF-16 code units. The positive classes contain no surrogate halves. The negated class `[^\s@]` accepts both halves of a pair exactly when it accepts the character, so the email test gives the same result.
- Strings holding a lone surrogate are not modelled. JavaScript allows them and counts one as one code unit, but a Dafny `char` cannot represent one.
