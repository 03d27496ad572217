/** Rules shared by the registration and login screens: JavaScript's notion of
    whitespace (as used by String.prototype.trim and the regular-expression class
    `\s`), the e-mail pattern `^[^\s@]+@[^\s@]+\.[^\s@]+$`, the password rule,
    and the optimistic clearing of a field's error message when it is edited. */
module FormRules {

  datatype Option<T> = None | Some(value: T)

  // ---------------------------------------------------------------------------
  // Whitespace and trim
  // ---------------------------------------------------------------------------

  /** ECMAScript WhiteSpace and LineTerminator code points: the set that both
      `trim()` removes and `\s` matches. */
  predicate IsWs(c: char) {
    c == '\t' || c == '\n' || c == '\U{000B}' || c == '\U{000C}' || c == '\r' || c == ' '
    || c == '\U{00A0}' || c == '\U{1680}' || ('\U{2000}' <= c <= '\U{200A}')
    || c == '\U{2028}' || c == '\U{2029}' || c == '\U{202F}' || c == '\U{205F}'
    || c == '\U{3000}' || c == '\U{FEFF}'
  }

  predicate AllWs(s: string) {
    forall i :: 0 <= i < |s| ==> IsWs(s[i])
  }

  /** Drops leading whitespace: the result is a suffix of `s`, everything dropped
      is whitespace, and the result does not start with whitespace. */
  function TrimStart(s: string): (r: string)
    ensures |r| <= |s| && r == s[|s| - |r|..]
    ensures AllWs(s[..|s| - |r|])
    ensures r != [] ==> !IsWs(r[0])
  {
    if s != [] && IsWs(s[0]) then TrimStart(s[1..]) else s
  }

  /** Drops trailing whitespace: the result is a prefix of `s`, everything dropped
      is whitespace, and the result does not end with whitespace. */
  function TrimEnd(s: string): (r: string)
    ensures |r| <= |s| && r == s[..|r|]
    ensures AllWs(s[|r|..])
    ensures r != [] ==> !IsWs(r[|r| - 1])
  {
    if s != [] && IsWs(s[|s| - 1]) then
      var r := TrimEnd(s[..|s| - 1]);
      assert s[|r|..] == s[..|s| - 1][|r|..] + [s[|s| - 1]];
      r
    else
      s
  }

  /** String.prototype.trim. A string trims to '' (the falsy value the screens
      test with `!x.trim()`) exactly when every character of it is whitespace. */
  function Trim(s: string): (r: string)
    ensures r == [] <==> AllWs(s)
    ensures |r| <= |s|
    ensures r != [] ==> !IsWs(r[0]) && !IsWs(r[|r| - 1])
  {
    var t := TrimStart(s);
    var r := TrimEnd(t);
    if r == [] then
      assert AllWs(t) by {
        assert t[|r|..] == t;
      }
      assert s == s[..|s| - |t|] + t;
      r
    else
      assert !AllWs(s) by {
        assert t[0] == s[|s| - |t|];
      }
      r
  }

  /** `r` is the slice of `s` starting at `a`, with only whitespace before and
      after it. */
  ghost predicate IsEdgeSlice(s: string, r: string, a: int) {
    0 <= a <= |s| - |r| && r == s[a..a + |r|] && AllWs(s[..a]) && AllWs(s[a + |r|..])
  }

  /** `trim()` removes whitespace from both ends and nothing else. */
  lemma TrimCutsEdgeWhitespace(s: string)
    ensures exists a :: IsEdgeSlice(s, Trim(s), a)
  {
    var t := TrimStart(s);
    var a := |s| - |t|;
    TrimEndIsSliceOfSuffix(s, t, a);
    assert IsEdgeSlice(s, Trim(s), a);
  }

  /** Cutting trailing whitespace from the suffix `s[a..]` leaves an edge slice
      of `s`, given that only whitespace precedes `a`. */
  lemma TrimEndIsSliceOfSuffix(s: string, t: string, a: nat)
    requires a <= |s| && t == s[a..] && AllWs(s[..a])
    ensures IsEdgeSlice(s, TrimEnd(t), a)
  {
    var r := TrimEnd(t);
    assert r == t[..|r|];
    assert s[a + |r|..] == t[|r|..];
  }

  // ---------------------------------------------------------------------------
  // E-mail pattern ^[^\s@]+@[^\s@]+\.[^\s@]+$
  // ---------------------------------------------------------------------------

  /** The character class `[^\s@]`. */
  predicate EmailChar(c: char) {
    !IsWs(c) && c != '@'
  }

  /** `s` consists of characters of `[^\s@]` only. */
  predicate AllEmailChars(s: string) {
    forall i :: 0 <= i < |s| ==> EmailChar(s[i])
  }

  /** Index of the first '@' in `s`, or |s| when there is none. */
  function FirstAt(s: string): (k: nat)
    ensures k <= |s|
    ensures k < |s| ==> s[k] == '@'
    ensures forall i :: 0 <= i < k ==> s[i] != '@'
  {
    if s == [] || s[0] == '@' then 0 else 1 + FirstAt(s[1..])
  }

  /** The domain part `[^\s@]+\.[^\s@]+` has a '.' with at least one character
      on either side. */
  predicate HasInnerDot(d: string) {
    exists i :: 0 < i < |d| - 1 && d[i] == '.'
  }

  /** Decision procedure for the e-mail pattern: split at the first '@' and check
      both sides. */
  predicate IsValidEmail(s: string) {
    var k := FirstAt(s);
    0 < k < |s| && AllEmailChars(s[..k]) && AllEmailChars(s[k + 1..]) && HasInnerDot(s[k + 1..])
  }

  /** What the regular expression `^[^\s@]+@[^\s@]+\.[^\s@]+$` matches, read off
      its structure: three non-empty runs of `[^\s@]` separated by '@' and '.'. */
  ghost predicate MatchesEmailRegex(s: string) {
    exists k, m :: 0 < k && k + 1 < m < |s| - 1 && s[k] == '@' && s[m] == '.'
      && AllEmailChars(s[..k]) && AllEmailChars(s[k + 1..m]) && AllEmailChars(s[m + 1..])
  }

  /** The decision procedure accepts exactly the strings the pattern matches. */
  lemma EmailRegexIff(s: string)
    ensures IsValidEmail(s) <==> MatchesEmailRegex(s)
  {
    if IsValidEmail(s) {
      ValidEmailMatches(s);
    }
    if MatchesEmailRegex(s) {
      var k, m :| 0 < k && k + 1 < m < |s| - 1 && s[k] == '@' && s[m] == '.'
        && AllEmailChars(s[..k]) && AllEmailChars(s[k + 1..m]) && AllEmailChars(s[m + 1..]);
      MatchIsValidEmail(s, k, m);
    }
  }

  lemma ValidEmailMatches(s: string)
    requires IsValidEmail(s)
    ensures MatchesEmailRegex(s)
  {
    var k := FirstAt(s);
    var d := s[k + 1..];
    var i :| 0 < i < |d| - 1 && d[i] == '.';
    var m := k + 1 + i;
    assert s[k + 1..m] == d[..i];
    assert s[m + 1..] == d[i + 1..];
    assert s[m] == '.';
    assert AllEmailChars(s[k + 1..m]);
    assert AllEmailChars(s[m + 1..]);
  }

  lemma MatchIsValidEmail(s: string, k: int, m: int)
    requires 0 < k && k + 1 < m < |s| - 1 && s[k] == '@' && s[m] == '.'
    requires AllEmailChars(s[..k]) && AllEmailChars(s[k + 1..m]) && AllEmailChars(s[m + 1..])
    ensures IsValidEmail(s)
  {
    forall i | 0 <= i < k ensures s[i] != '@' {
      assert s[i] == s[..k][i];
    }
    assert FirstAt(s) == k;
    assert s[k + 1..] == s[k + 1..m] + s[m..];
    assert s[k + 1..][m - k - 1] == '.';
  }

  /** Any accepted e-mail holds exactly one '@', no whitespace, and is therefore
      not blank. */
  lemma ValidEmailShape(s: string)
    requires MatchesEmailRegex(s)
    ensures multiset(s)['@'] == 1
    ensures forall i :: 0 <= i < |s| ==> !IsWs(s[i])
    ensures !AllWs(s)
  {
    EmailRegexIff(s);
    var k := FirstAt(s);
    assert s == s[..k] + [s[k]] + s[k + 1..];
    NoAtInEmailChars(s[..k]);
    NoAtInEmailChars(s[k + 1..]);
    forall i | 0 <= i < |s| ensures !IsWs(s[i]) {
      if i < k {
        assert s[i] == s[..k][i];
      } else if i > k {
        assert s[i] == s[k + 1..][i - k - 1];
      }
    }
    assert !IsWs(s[0]);
  }

  lemma NoAtInEmailChars(t: string)
    requires AllEmailChars(t)
    ensures multiset(t)['@'] == 0
  {
  }

  // ---------------------------------------------------------------------------
  // The e-mail and password rules of both screens
  // ---------------------------------------------------------------------------

  /** The messages the two screens display under a field. */
  datatype Message =
    | UsernameRequired | UsernameTooShort
    | EmailRequired | EmailInvalid
    | MobileRequired | MobileInvalid
    | PasswordRequired | PasswordTooShort
    | ConfirmRequired | ConfirmMismatch

  /** The text of each message; none is the empty string, so each one is
      displayed when stored in an error map. */
  function Text(m: Message): (t: string)
    ensures t != ""
  {
    match m
    case UsernameRequired => "Username is required"
    case UsernameTooShort => "Username must be at least 3 characters"
    case EmailRequired => "Email is required"
    case EmailInvalid => "Please enter a valid email"
    case MobileRequired => "Mobile number is required"
    case MobileInvalid => "Please enter a valid 10-digit mobile number"
    case PasswordRequired => "Password is required"
    case PasswordTooShort => "Password must be at least 6 characters"
    case ConfirmRequired => "Please confirm your password"
    case ConfirmMismatch => "Passwords do not match"
  }

  /** The e-mail rule: "required" when the trimmed value is empty, otherwise
      "invalid" unless the pattern matches. */
  function EmailError(e: string): (r: Option<Message>)
    ensures r.None? <==> MatchesEmailRegex(e)
    ensures r == Some(EmailRequired) <==> AllWs(e)
    ensures r.Some? && r != Some(EmailRequired) ==> r == Some(EmailInvalid)
  {
    EmailRegexIff(e);
    if Trim(e) == [] then
      Some(EmailRequired)
    else if !IsValidEmail(e) then
      Some(EmailInvalid)
    else
      None
  }

  predicate PasswordAccepted(p: string) {
    |p| >= 6
  }

  /** The password rule, applied to the raw value (no trimming): "required" for
      the empty string, otherwise "too short" below six characters. */
  function PasswordError(p: string): (r: Option<Message>)
    ensures r.None? <==> PasswordAccepted(p)
    ensures r == Some(PasswordRequired) <==> p == []
    ensures r.Some? && r != Some(PasswordRequired) ==> r == Some(PasswordTooShort) && 0 < |p| < 6
  {
    if p == [] then
      Some(PasswordRequired)
    else if |p| < 6 then
      Some(PasswordTooShort)
    else
      None
  }

  // ---------------------------------------------------------------------------
  // Error-map handling on input change
  // ---------------------------------------------------------------------------

  /** `Object.keys(m).length === 0` holds exactly for the empty map. */
  lemma NoKeysIffEmpty<F>(m: map<F, string>)
    ensures |m.Keys| == 0 <==> m == map[]
  {
    if |m.Keys| == 0 {
      assert m.Keys == {};
    }
  }

  /** A field's error is displayed when its entry exists and is a non-empty
      (truthy) string. */
  predicate Shown<F>(errors: map<F, string>, field: F) {
    field in errors && errors[field] != ""
  }

  /** The error map after the user edits `field`: a displayed message of that
      field is blanked to '', nothing else changes, and no key is added or
      removed. */
  function ClearError<F>(errors: map<F, string>, field: F): (r: map<F, string>)
    ensures !Shown(r, field)
    ensures r.Keys == errors.Keys
    ensures forall g :: g in r ==> r[g] == if g == field then "" else errors[g]
  {
    if Shown(errors, field) then errors[field := ""] else errors
  }
}
