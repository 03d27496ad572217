# Recipe Book sign-up and sign-in forms, in Dafny

This project models the form logic of the Recipe Book mobile app's two
authentication screens.

- **Registration screen.** It has five text fields: username, e-mail, mobile number,
  password and password confirmation. One validation pass runs all five
  rules. It builds a field-to-message error map and reports success exactly
  when that map is empty.
- **Login screen.** It validates e-mail and password with the same two rules.
  Its sign-in button is disabled while a submission is in flight or while
  either field is empty. A submission raises an `isLoading` flag, and a
  `finally` lowers it again.

On both screens, typing into a field replaces that field's value. If the
field's error message was displayed, it is blanked to `''`.

Files:

- `form_rules.dfy` (module `FormRules`) holds what both screens share:
  - JavaScript whitespace: the code points that `String.prototype.trim` removes
    and that `\s` matches;
  - `trim`;
  - the e-mail pattern `^[^\s@]+@[^\s@]+\.[^\s@]+$`, written as a predicate over
    characters, with a proof that it matches exactly the strings the regular
    expression's structure describes;
  - the e-mail and password rules;
  - the texts of the error messages;
  - the error clearing done on input change.
- `registration.dfy` (module `Registration`) holds the username, mobile and
  confirmation rules, the error map, and the screen state as class
  `RegisterScreen`.
- `login.dfy` (module `Login`) holds the login error map, the button's disabled
  predicate, and the screen state as class `LoginScreen`, including the
  two-step submission.
- `screens.dfy` (module `Screens`) proves that both screens judge e-mail and
  password identically.

Each screen's state (`formData`, `errors`, `isLoading`) is a class whose
handlers are methods. Each method states the new state in terms of the old
one. The rules are pure functions, and their contracts give the meaning of
each rule without `trim` or regular expressions:

- "at least one non-whitespace character and at least three raw characters";
- "exactly ten ASCII digits";
- "matches the pattern".

Where the behaviour described for the app differs from its code, the model
follows the code:

- The e-mail and mobile "required" checks test the *trimmed* value, so a
  whitespace-only value is reported as missing, not as invalid.
- A successful registration does not clear the form. `handleRegister` only
  shows an alert, so `HandleRegister` changes the error map and nothing
  else.

## Model

| member | source | states |
|---|---|---|
| `FormRules.Trim` | app/Register.tsx:46 | `trim()` yields `''` exactly when every character is JavaScript whitespace; a non-empty result neither starts nor ends with whitespace |
| `FormRules.TrimCutsEdgeWhitespace` | app/Register.tsx:46 | `trim()` returns a contiguous slice of its input with only whitespace before and after it, so it removes whitespace at the two ends and nothing else |
| `FormRules.EmailRegexIff` | app/Register.tsx:53-56 | the split-at-first-`@` check accepts exactly the strings `^[^\s@]+@[^\s@]+\.[^\s@]+$` matches (three non-empty runs of `[^\s@]` around `@` and `.`), both directions |
| `FormRules.ValidEmailShape` | app/Register.tsx:53 | an accepted e-mail contains exactly one `@`, no whitespace, and is not blank |
| `FormRules.EmailError` | app/Register.tsx:53-58 | the e-mail passes iff it matches the pattern; "Email is required" exactly when it is empty or all whitespace; otherwise the failure is "Please enter a valid email" |
| `FormRules.PasswordError` | app/Register.tsx:69-73 | the password passes iff it has at least 6 characters (no trimming); "Password is required" exactly for `''`; otherwise the failure is "too short" with 1 to 5 characters |
| `FormRules.Text` | app/Register.tsx:46-80 | the message texts; none is empty, so a stored message is always displayed by `errors.x && <Text>` |
| `FormRules.ClearError` | app/Register.tsx:33-39 | after an edit of `field` its error is not displayed; no key is added or removed; `field`'s entry (if any) is `''` and every other entry is unchanged |
| `Registration.With` | app/Register.tsx:28-32 | the edited field takes the new value and every other field keeps its old one |
| `Registration.UsernameError` | app/Register.tsx:46-50 | the username passes iff it has a non-whitespace character and at least 3 raw characters; "required" exactly when it is all whitespace; otherwise "too short" |
| `Registration.PaddedUsernamePasses` | app/Register.tsx:46-50 | the length check uses the untrimmed value: `"  a"` passes |
| `Registration.MobileError` | app/Register.tsx:60-66 | the mobile passes iff it is exactly 10 characters `0`-`9`; "required" exactly when all whitespace; otherwise "Please enter a valid 10-digit mobile number" |
| `Registration.ConfirmError` | app/Register.tsx:75-80 | the confirmation passes iff non-empty and identical to the password; "Please confirm your password" exactly when empty; otherwise "Passwords do not match" |
| `Registration.Errors` | app/Register.tsx:42-81 | each of the five fields has an entry exactly when its own rule fails, independent of the other fields; that entry is the text of the message its rule produced, so it is always displayed |
| `FormRules.NoKeysIffEmpty` | app/Register.tsx:83 | `Object.keys(newErrors).length === 0` holds exactly when the error map is empty |
| `Registration.ValidIffAllRulesPass` | app/Register.tsx:82-83 | the error map is empty exactly when all five rules pass |
| `Registration.BlankFieldsAreRequired` | app/Register.tsx:45-80 | blank input yields only the five "required" messages: "required" takes precedence over length and format |
| `Registration.RegisterScreen.constructor` | app/Register.tsx:18-26 | the screen starts with five empty fields and no errors |
| `Registration.RegisterScreen.HandleInputChange` | app/Register.tsx:28-40 | the form becomes `With(old form, field, value)` and the errors become `ClearError(old errors, field)` |
| `Registration.RegisterScreen.ValidateForm` | app/Register.tsx:42-84 | the error map is replaced by `Errors(form)`, the form is untouched, and the result is true iff all five rules pass |
| `Registration.RegisterScreen.HandleRegister` | app/Register.tsx:90-109 | a registration is accepted iff validation passes; only the error map changes |
| `Login.With` | app/Login.tsx:26-30 | the edited field takes the new value and the other keeps its old one |
| `Login.Errors` | app/Login.tsx:40-57 | e-mail has an entry iff it does not match the pattern, password iff it is shorter than 6 characters; each entry is the text of the message its rule produced, so it is always displayed |
| `Login.ValidIffBothRulesPass` | app/Login.tsx:58-59 | the error map is empty exactly when both rules pass |
| `Login.SubmitDisabled` | app/Login.tsx:160 | while `isLoading` the sign-in button is disabled |
| `Login.ValidFormEnablesButton` | app/Login.tsx:157-160 | on an idle screen, a form that would pass validation never has the button disabled |
| `Login.BlankEmailEnablesButtonButIsRequired` | app/Login.tsx:45-46 | a non-empty whitespace-only e-mail enables the button (line 160 tests the raw value), yet validation reports exactly "Email is required" |
| `Login.LoginScreen.constructor` | app/Login.tsx:18-24 | the screen starts with empty fields, no errors and `isLoading` false |
| `Login.LoginScreen.HandleInputChange` | app/Login.tsx:26-38 | the form becomes `With(old form, field, value)`, the errors become `ClearError(old errors, field)`, and `isLoading` is untouched |
| `Login.LoginScreen.ValidateForm` | app/Login.tsx:40-60 | the error map is replaced by `Errors(form)`, form and `isLoading` are untouched, and the result is true iff the new map is empty, iff both rules pass |
| `Login.LoginScreen.BeginLogin` | app/Login.tsx:62-64 | `isLoading` is raised exactly when validation passes; otherwise it keeps its old value |
| `Login.LoginScreen.FinishLogin` | app/Login.tsx:66-88 | whether the awaited call returned or threw, `isLoading` ends false; the outcome records which |
| `Login.LoginScreen.HandleLogin` | app/Login.tsx:62-90 | an invalid form changes only the error map; a valid one ends with `isLoading` false and a success or failure outcome |
| `Login.LoginScreen.PressSignIn` | app/Login.tsx:156-161 | pressing a disabled button changes nothing; pressing an enabled one runs `handleLogin`: the error map is `Errors(form)`, `isLoading` ends false, and an outcome is returned iff validation passes, success unless the awaited call threw |
| `Screens.SameEmailAndPasswordRules` | app/Login.tsx:43-56 | for the same e-mail and password, both screens flag the same fields with the same messages |

## Left out

- app/Home.tsx, app/(tabs)/explore.tsx, app/(tabs)/Profile.tsx and app/(tabs)/tab_Home.tsx are not part of this model. They are navigation, catalogue, profile and recipe screens outside the authentication forms.
- Rendering, styles, `KeyboardAvoidingView` and `Platform` behaviour are left out, because they are presentation only.
- The inputs' `editable={!isLoading}` (app/Login.tsx:126, 141) and the mobile input's `maxLength={10}` (app/Register.tsx:160) are input settings: `HandleInputChange` accepts an edit at any time and a mobile value of any length. This model is more general than the app, so every property proved here still holds for it.
- `Alert.alert`, `router.push`/`router.replace`, `console.log`, `handleForgotPassword` and the social-login buttons are UI and navigation calls. The login outcome is returned as a value instead of an alert.
- The 1500 ms `setTimeout` and async scheduling are left out. A submission is two discrete steps (`BeginLogin`, `FinishLogin`), and whether the awaited call threw is a parameter. The mocked timer never rejects, so `LoginFailed` is unreachable in the app.
- React's batched, functional `setState` is not modelled: each update is an immediate field assignment.
- UTF-16 details are left out. Dafny characters are Unicode scalar values, so `.length` of a string with characters outside the Basic Multilingual Plane differs from JavaScript's. The whitespace set is the one of current ECMAScript and Unicode.
- `handleInputChange` accepts any string key in JavaScript. Here the field is the screen's own enumeration, which is all the screens ever pass.
