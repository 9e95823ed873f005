/** The registration page: the field rules of `validateForm` (its regular
    expressions written out as string predicates), the error map it builds,
    and the form's state changes: typing, submitting, the answer, reset. */
module RegisterPage {
  import opened Common
  import opened Users
  import opened AuthContext

  // ------------------------------------------------------------ field rules

  /** `[^\s@]` */
  predicate PlainChar(c: char) {
    !IsWhitespace(c) && c != '@'
  }

  predicate AllPlain(s: string) {
    forall i :: 0 <= i < |s| ==> PlainChar(s[i])
  }

  /** The domain part after '@': plain characters with a '.' that has at
      least one character on each side. */
  predicate DomainShape(d: string) {
    AllPlain(d) && exists j :: 0 < j < |d| - 1 && d[j] == '.'
  }

  /** The email test, written by hand: a non-empty plain local part, '@',
      and a domain as above. */
  predicate EmailShape(s: string) {
    exists k :: 0 < k < |s| && s[k] == '@' && AllPlain(s[..k]) && DomainShape(s[k + 1..])
  }

  /** One way of reading `s` against `^[^\s@]+@[^\s@]+\.[^\s@]+$`. */
  ghost predicate EmailParts(s: string, x: string, y: string, z: string) {
    && s == x + "@" + y + "." + z
    && x != "" && y != "" && z != ""
    && AllPlain(x) && AllPlain(y) && AllPlain(z)
  }

  /** The language of `^[^\s@]+@[^\s@]+\.[^\s@]+$`. */
  ghost predicate EmailPattern(s: string) {
    exists x, y, z :: EmailParts(s, x, y, z)
  }

  lemma AllPlainSlice(s: string, i: int, j: int)
    requires AllPlain(s) && 0 <= i <= j <= |s|
    ensures AllPlain(s[i..j])
  {
    forall k | 0 <= k < j - i ensures PlainChar(s[i..j][k]) {
      assert s[i..j][k] == s[i + k];
    }
  }

  /** Cutting `s` at the '@' at `k` and at the '.' at `j` of the rest. */
  lemma CutTwice(s: string, k: nat, j: nat)
    requires 0 < k < |s| && s[k] == '@'
    requires 0 < j < |s[k + 1..]| - 1 && s[k + 1..][j] == '.'
    ensures s == s[..k] + "@" + s[k + 1..][..j] + "." + s[k + 1..][j + 1..]
  {
    var d := s[k + 1..];
    var x, y, z := s[..k], d[..j], d[j + 1..];
    assert d[..j] == y && d[j..] == "." + z;
    assert d == y + "." + z by { assert d == d[..j] + d[j..]; }
    assert s == x + "@" + d by {
      assert s == s[..k] + s[k..];
      assert s[k..] == "@" + d;
    }
  }

  lemma EmailShapeToPattern(s: string)
    requires EmailShape(s)
    ensures EmailPattern(s)
  {
    var k :| 0 < k < |s| && s[k] == '@' && AllPlain(s[..k]) && DomainShape(s[k + 1..]);
    var d := s[k + 1..];
    var j :| 0 < j < |d| - 1 && d[j] == '.';
    CutTwice(s, k, j);
    AllPlainSlice(d, 0, j);
    AllPlainSlice(d, j + 1, |d|);
    assert d[0..j] == d[..j] && d[j + 1..|d|] == d[j + 1..];
    assert EmailParts(s, s[..k], d[..j], d[j + 1..]);
  }

  lemma AllPlainDomain(y: string, z: string)
    requires AllPlain(y) && AllPlain(z)
    ensures AllPlain(y + "." + z)
  {
    var d := y + "." + z;
    forall i | 0 <= i < |d| ensures PlainChar(d[i]) {
      if i < |y| { assert d[i] == y[i]; }
      else if i > |y| { assert d[i] == z[i - |y| - 1]; }
      else { assert d[i] == '.'; }
    }
  }

  lemma EmailPatternToShape(s: string)
    requires EmailPattern(s)
    ensures EmailShape(s)
  {
    var x, y, z :| EmailParts(s, x, y, z);
    var k := |x|;
    var d := y + "." + z;
    assert s == x + "@" + d;
    assert s[k] == '@' && s[..k] == x && s[k + 1..] == d;
    assert d[|y|] == '.';
    AllPlainDomain(y, z);
    assert DomainShape(d);
  }

  /** The hand-written test accepts exactly the strings the regular
      expression matches. */
  lemma EmailShapeIsPattern(s: string)
    ensures EmailShape(s) <==> EmailPattern(s)
  {
    if EmailShape(s) { EmailShapeToPattern(s); }
    if EmailPattern(s) { EmailPatternToShape(s); }
  }

  /** `[\d\s-()]`: in this class `-` is a literal, not a range. */
  predicate PhoneChar(c: char) {
    IsDigit(c) || IsWhitespace(c) || c == '-' || c == '(' || c == ')'
  }

  predicate AllPhoneChars(t: string) {
    forall i :: 0 <= i < |t| ==> PhoneChar(t[i])
  }

  /** The phone test, written by hand: drop one leading '+', then at least
      ten phone characters. */
  predicate PhoneShape(s: string) {
    var t := if |s| > 0 && s[0] == '+' then s[1..] else s;
    |t| >= 10 && AllPhoneChars(t)
  }

  ghost predicate PhoneParts(s: string, p: string, t: string) {
    s == p + t && (p == "" || p == "+") && |t| >= 10 && AllPhoneChars(t)
  }

  /** The language of `^\+?[\d\s-()]{10,}$`. */
  ghost predicate PhonePattern(s: string) {
    exists p, t :: PhoneParts(s, p, t)
  }

  lemma PhoneShapeIsPattern(s: string)
    ensures PhoneShape(s) <==> PhonePattern(s)
  {
    if PhoneShape(s) {
      if |s| > 0 && s[0] == '+' {
        assert s == "+" + s[1..];
        assert PhoneParts(s, "+", s[1..]);
      } else {
        assert s == "" + s;
        assert PhoneParts(s, "", s);
      }
    }
    if PhonePattern(s) {
      var p, t :| PhoneParts(s, p, t);
      if p == "+" {
        assert s[0] == '+' && s[1..] == t;
      } else {
        assert s == t;
        assert !PhoneChar('+');
        assert s[0] != '+' by { assert PhoneChar(t[0]); }
      }
    }
  }

  /** `[@#$%^&*]` */
  predicate IsSpecial(c: char) {
    c == '@' || c == '#' || c == '$' || c == '%' || c == '^' || c == '&' || c == '*'
  }

  /** The password rule: at least six characters, a letter, a digit and a
      special character, and nothing else. */
  predicate PasswordOk(p: string) {
    && (exists i :: 0 <= i < |p| && IsLetter(p[i]))
    && (exists i :: 0 <= i < |p| && IsDigit(p[i]))
    && (exists i :: 0 <= i < |p| && IsSpecial(p[i]))
    && |p| >= 6
    && forall i :: 0 <= i < |p| ==> IsLetter(p[i]) || IsDigit(p[i]) || IsSpecial(p[i])
  }

  // -------------------------------------------------------------- the form

  /** The keys of `formData` and of `errors`: the inputs' `name`
      attributes, and "terms" and "submit". */
  datatype Key = Username | Name | Email | Phone | Password | ConfirmPassword | Terms | Submit

  const FormKeys: set<Key> := {Username, Name, Email, Phone, Password, ConfirmPassword}

  // The messages `validateForm` records.
  const UsernameRequired := "Username is required"
  const UsernameTooShort := "Username must be at least 4 characters"
  const NameRequired := "Full name is required"
  const EmailRequired := "Email is required"
  const EmailInvalid := "Please enter a valid email"
  const PhoneRequired := "Phone number is required"
  const PhoneInvalid := "Please enter a valid phone number"
  const PasswordRequired := "Password is required"
  const PasswordsDiffer := "Passwords do not match"
  const TermsRequired := "Please accept the terms and conditions"
  const PasswordRuleMessage :=
    "Password must be atleast 6 characters with letters, numbers, and special characters (@#$%^&*)"

  /** Blank after trimming is missing; otherwise the untrimmed length, in
      UTF-16 code units, must reach four. */
  function UsernameError(u: string): Option<string> {
    if Trim(u) == "" then Some(UsernameRequired)
    else if Utf16Length(u) < 4 then Some(UsernameTooShort)
    else None
  }

  /** The full name only has to be non-blank. */
  function NameError(n: string): Option<string> {
    if Trim(n) == "" then Some(NameRequired) else None
  }

  /** Blank is missing; otherwise the email pattern must match the
      untrimmed value. */
  function EmailError(e: string): Option<string> {
    if Trim(e) == "" then Some(EmailRequired)
    else if !EmailShape(e) then Some(EmailInvalid)
    else None
  }

  /** Blank is missing; otherwise the phone pattern must match the
      untrimmed value. */
  function PhoneError(p: string): Option<string> {
    if Trim(p) == "" then Some(PhoneRequired)
    else if !PhoneShape(p) then Some(PhoneInvalid)
    else None
  }

  /** The password is not trimmed: only the empty string is missing. */
  function PasswordError(p: string): Option<string> {
    if p == "" then Some(PasswordRequired)
    else if !PasswordOk(p) then Some(PasswordRuleMessage)
    else None
  }

  /** The confirmation must equal the password exactly. */
  function ConfirmError(p: string, c: string): Option<string> {
    if p != c then Some(PasswordsDiffer) else None
  }

  /** The terms checkbox must be ticked. */
  function TermsError(acceptTerms: bool): Option<string> {
    if !acceptTerms then Some(TermsRequired) else None
  }

  /** The error, if any, that `validateForm` records under `key`. */
  function FieldError(key: Key, form: map<Key, string>, acceptTerms: bool): (e: Option<string>)
    requires FormKeys <= form.Keys
    ensures e.Some? ==> e.value != ""
    ensures key == Submit ==> e.None?
  {
    match key
    case Username => UsernameError(form[Username])
    case Name => NameError(form[Name])
    case Email => EmailError(form[Email])
    case Phone => PhoneError(form[Phone])
    case Password => PasswordError(form[Password])
    case ConfirmPassword => ConfirmError(form[Password], form[ConfirmPassword])
    case Terms => TermsError(acceptTerms)
    case Submit => None
  }

  /** The rules in the order `validateForm` checks them. */
  const RuleOrder: seq<Key> := [Username, Name, Email, Phone, Password, ConfirmPassword, Terms]

  /** Adds the entry for `k` when its rule failed. */
  function With(m: map<Key, string>, k: Key, e: Option<string>): map<Key, string> {
    if e.Some? then m[k := e.value] else m
  }

  /** The map built by running `check` on each of `keys` in turn. */
  function Collect(keys: seq<Key>, check: Key -> Option<string>): map<Key, string> {
    if keys == [] then map[]
    else With(Collect(keys[..|keys| - 1], check), keys[|keys| - 1], check(keys[|keys| - 1]))
  }

  /** A key is collected exactly when it was checked and failed, and it
      holds its own message: a later rule never overwrites an earlier one. */
  lemma {:induction false} CollectEntries(keys: seq<Key>, check: Key -> Option<string>, k: Key)
    ensures k in Collect(keys, check) <==> k in keys && check(k).Some?
    ensures k in Collect(keys, check) ==> Collect(keys, check)[k] == check(k).value
  {
    if keys != [] {
      var front := keys[..|keys| - 1];
      CollectEntries(front, check, k);
      assert keys == front + [keys[|keys| - 1]];
    }
  }

  /** The page's rules as one function of the key. */
  function Rules(form: map<Key, string>, acceptTerms: bool): Key -> Option<string>
    requires FormKeys <= form.Keys
  {
    k => FieldError(k, form, acceptTerms)
  }

  /** The error map after checking the first `n` rules. */
  function ErrorsAfter(form: map<Key, string>, acceptTerms: bool, n: nat): map<Key, string>
    requires FormKeys <= form.Keys && n <= |RuleOrder|
  {
    if n == 0 then map[]
    else With(ErrorsAfter(form, acceptTerms, n - 1), RuleOrder[n - 1], FieldError(RuleOrder[n - 1], form, acceptTerms))
  }

  /** Checking the first `n` rules is collecting over that prefix. */
  lemma {:induction false} ErrorsAfterIsCollect(form: map<Key, string>, acceptTerms: bool, n: nat)
    requires FormKeys <= form.Keys && n <= |RuleOrder|
    ensures ErrorsAfter(form, acceptTerms, n) == Collect(RuleOrder[..n], Rules(form, acceptTerms))
  {
    if n > 0 {
      ErrorsAfterIsCollect(form, acceptTerms, n - 1);
      assert RuleOrder[..n][..n - 1] == RuleOrder[..n - 1];
    }
  }

  /** The map `validateForm` builds: one entry per failing rule. */
  function RegisterErrors(form: map<Key, string>, acceptTerms: bool): (r: map<Key, string>)
    requires FormKeys <= form.Keys
    ensures Submit !in r && forall k | k in r :: r[k] != ""
  {
    ErrorMessagesNonEmpty(form, acceptTerms);
    ErrorsAfter(form, acceptTerms, |RuleOrder|)
  }

  /** Every recorded message is a real one, and the button has none. */
  lemma ErrorMessagesNonEmpty(form: map<Key, string>, acceptTerms: bool)
    requires FormKeys <= form.Keys
    ensures Submit !in ErrorsAfter(form, acceptTerms, |RuleOrder|)
    ensures forall k | k in ErrorsAfter(form, acceptTerms, |RuleOrder|) :: ErrorsAfter(form, acceptTerms, |RuleOrder|)[k] != ""
  {
    forall k | k in ErrorsAfter(form, acceptTerms, |RuleOrder|)
      ensures ErrorsAfter(form, acceptTerms, |RuleOrder|)[k] != ""
    {
      ErrorsAfterEntries(form, acceptTerms, |RuleOrder|, k);
    }
    ErrorsAfterEntries(form, acceptTerms, |RuleOrder|, Submit);
  }

  /** After `n` rules the map holds exactly the failing ones among them,
      each under its own message. */
  lemma ErrorsAfterEntries(form: map<Key, string>, acceptTerms: bool, n: nat, k: Key)
    requires FormKeys <= form.Keys && n <= |RuleOrder|
    ensures k in ErrorsAfter(form, acceptTerms, n)
            <==> k in RuleOrder[..n] && FieldError(k, form, acceptTerms).Some?
    ensures k in ErrorsAfter(form, acceptTerms, n)
            ==> ErrorsAfter(form, acceptTerms, n)[k] == FieldError(k, form, acceptTerms).value
  {
    ErrorsAfterIsCollect(form, acceptTerms, n);
    CollectEntries(RuleOrder[..n], Rules(form, acceptTerms), k);
  }

  /** The error map written out rule by rule. */
  lemma RuleByRule(f: map<Key, string>, acceptTerms: bool)
    requires FormKeys <= f.Keys
    ensures RegisterErrors(f, acceptTerms)
            == With(With(With(With(With(With(With(map[],
                 Username, UsernameError(f[Username])),
                 Name, NameError(f[Name])),
                 Email, EmailError(f[Email])),
                 Phone, PhoneError(f[Phone])),
                 Password, PasswordError(f[Password])),
                 ConfirmPassword, ConfirmError(f[Password], f[ConfirmPassword])),
                 Terms, TermsError(acceptTerms))
  {
    var a := acceptTerms;
    ErrorsAfterStep(f, a, 1);
    ErrorsAfterStep(f, a, 2);
    ErrorsAfterStep(f, a, 3);
    ErrorsAfterStep(f, a, 4);
    ErrorsAfterStep(f, a, 5);
    ErrorsAfterStep(f, a, 6);
    ErrorsAfterStep(f, a, 7);
  }

  /** One more rule checked: its entry is added when it fails. */
  lemma ErrorsAfterStep(f: map<Key, string>, acceptTerms: bool, n: nat)
    requires FormKeys <= f.Keys && 0 < n <= |RuleOrder|
    ensures ErrorsAfter(f, acceptTerms, n)
            == With(ErrorsAfter(f, acceptTerms, n - 1), RuleOrder[n - 1], FieldError(RuleOrder[n - 1], f, acceptTerms))
  {
  }

  /** Each rule has its own entry: the map holds `k` exactly when the rule
      for `k` fails, and then holds that rule's message. */
  lemma RegisterErrorsEntries(form: map<Key, string>, acceptTerms: bool, k: Key)
    requires FormKeys <= form.Keys
    ensures k in RegisterErrors(form, acceptTerms) <==> FieldError(k, form, acceptTerms).Some?
    ensures k in RegisterErrors(form, acceptTerms)
            ==> RegisterErrors(form, acceptTerms)[k] == FieldError(k, form, acceptTerms).value
  {
    ErrorsAfterEntries(form, acceptTerms, |RuleOrder|, k);
    assert RuleOrder[..|RuleOrder|] == RuleOrder;
    if k == Submit {
      assert k !in RuleOrder;
    }
  }

  lemma UsernameAccepted(u: string)
    ensures UsernameError(u) == None <==> !AllWhitespace(u) && Utf16Length(u) >= 4
  {
    TrimEmptyIffBlank(u);
  }

  lemma NameAccepted(n: string)
    ensures NameError(n) == None <==> !AllWhitespace(n)
  {
    TrimEmptyIffBlank(n);
  }

  /** A well-formed email is never blank, so the "required" branch only
      fires on strings the pattern rejects anyway. */
  lemma EmailAccepted(e: string)
    ensures EmailError(e) == None <==> EmailPattern(e)
  {
    TrimEmptyIffBlank(e);
    EmailShapeIsPattern(e);
    if EmailShape(e) {
      var k :| 0 < k < |e| && e[k] == '@' && AllPlain(e[..k]) && DomainShape(e[k + 1..]);
      assert !IsWhitespace(e[0]) by { assert e[..k][0] == e[0]; }
    }
  }

  /** Ten spaces fit the phone pattern, so the "required" check matters. */
  lemma PhoneAccepted(p: string)
    ensures PhoneError(p) == None <==> !AllWhitespace(p) && PhonePattern(p)
  {
    TrimEmptyIffBlank(p);
    PhoneShapeIsPattern(p);
  }

  /** The error map is empty exactly when no rule fails. */
  lemma RegisterErrorsEmpty(form: map<Key, string>, acceptTerms: bool)
    requires FormKeys <= form.Keys
    ensures RegisterErrors(form, acceptTerms) == map[]
            <==> forall k: Key :: FieldError(k, form, acceptTerms).None?
  {
    var errs := RegisterErrors(form, acceptTerms);
    forall k: Key ensures k in errs <==> FieldError(k, form, acceptTerms).Some? {
      RegisterErrorsEntries(form, acceptTerms, k);
    }
    if errs != map[] {
      var k :| k in errs;
    }
  }

  /** The form passes exactly when every field satisfies its rule, stated
      with the regular expressions' own languages: a username that is not
      blank and has at least four UTF-16 code units (counted before
      trimming), a
      name that is not blank, an email and a phone in their patterns (the
      phone not blank), an acceptable password, a matching confirmation and
      the terms accepted. */
  lemma RegisterAcceptsIff(form: map<Key, string>, acceptTerms: bool)
    requires FormKeys <= form.Keys
    ensures RegisterErrors(form, acceptTerms) == map[]
            <==> && !AllWhitespace(form[Username]) && Utf16Length(form[Username]) >= 4
                 && !AllWhitespace(form[Name])
                 && EmailPattern(form[Email])
                 && !AllWhitespace(form[Phone]) && PhonePattern(form[Phone])
                 && PasswordOk(form[Password])
                 && form[Password] == form[ConfirmPassword]
                 && acceptTerms
  {
    RegisterErrorsEmpty(form, acceptTerms);
    UsernameAccepted(form[Username]);
    NameAccepted(form[Name]);
    EmailAccepted(form[Email]);
    PhoneAccepted(form[Phone]);
    var a := acceptTerms;
    if RegisterErrors(form, a) == map[] {
      assert FieldError(Username, form, a).None? && FieldError(Name, form, a).None?;
      assert FieldError(Email, form, a).None? && FieldError(Phone, form, a).None?;
      assert FieldError(Password, form, a).None? && FieldError(ConfirmPassword, form, a).None?;
      assert FieldError(Terms, form, a).None?;
    } else {
      var k :| FieldError(k, form, a).Some?;
      assert k != Submit;
    }
  }

  /** A password confirmation mismatch and unaccepted terms add their own
      entries, whatever the other fields hold. */
  lemma MismatchAndTermsIndependent(form: map<Key, string>, acceptTerms: bool)
    requires FormKeys <= form.Keys
    ensures ConfirmPassword in RegisterErrors(form, acceptTerms) <==> form[Password] != form[ConfirmPassword]
    ensures Terms in RegisterErrors(form, acceptTerms) <==> !acceptTerms
  {
    RegisterErrorsEntries(form, acceptTerms, ConfirmPassword);
    RegisterErrorsEntries(form, acceptTerms, Terms);
  }

  /** The length check counts the untrimmed username: two spaces and two
      letters pass. */
  lemma UsernameLengthCountsSpaces()
    ensures UsernameError("  ab") == None
  {
    var u := "  ab";
    assert !IsWhitespace(u[2]);
    TrimEmptyIffBlank(u);
    assert u[..3] == "  a" && u[..3][..2] == "  " && u[..3][..2][..1] == " ";
  }

  /** The length check counts UTF-16 code units, as JavaScript does: two
      letters and one emoji make four, while three letters are too short. */
  lemma UsernameCountsCodeUnits()
    ensures UsernameError("ab\U{1F600}") == None
    ensures UsernameError("abc") == Some(UsernameTooShort)
  {
    var u := "ab\U{1F600}";
    assert !IsWhitespace(u[0]);
    TrimEmptyIffBlank(u);
    assert u[..2] == "ab" && u[..2][..1] == "a";
    var v := "abc";
    assert !IsWhitespace(v[0]);
    TrimEmptyIffBlank(v);
    BmpLength(v);
  }

  /** The body of the register request. */
  datatype RegisterPayload = RegisterPayload(name: string, username: string, email: string,
                                             phone: string, password: string)

  /** What the register call produced: the response body's token and user,
      or an exception with the server's `message`, if any. */
  datatype RegisterOutcome = Registered(token: string, user: Option<Profile>) | Failed(message: Option<string>)

  const DashboardPath := "/user/dashboard"

  /** The `Register` component's state. */
  /** The form `useState` starts with and `setFormData` resets to. */
  const EmptyForm: map<Key, string> :=
    map[Username := "", Name := "", Email := "", Phone := "", Password := "", ConfirmPassword := ""]

  class RegisterForm {
    var formData: map<Key, string>
    var acceptTerms: bool
    var isLoading: bool
    var errors: map<Key, string>
    var successMessage: string

    ghost predicate Valid()
      reads this
    {
      FormKeys <= formData.Keys
    }

    constructor ()
      ensures Valid()
      ensures formData == EmptyForm && !acceptTerms && !isLoading
      ensures errors == map[] && successMessage == ""
    {
      formData := EmptyForm;
      acceptTerms := false;
      isLoading := false;
      errors := map[];
      successMessage := "";
    }

    /** `handleInputChange`: the named field takes the value; that field's
        error, if set, is blanked; nothing else changes. */
    method HandleInputChange(name: Key, value: string)
      requires Valid()
      modifies this
      ensures Valid()
      ensures formData == old(formData)[name := value]
      ensures errors == if name in old(errors) && old(errors)[name] != "" then old(errors)[name := ""] else old(errors)
      ensures acceptTerms == old(acceptTerms) && isLoading == old(isLoading)
      ensures successMessage == old(successMessage)
    {
      formData := formData[name := value];
      if name in errors && errors[name] != "" {
        errors := errors[name := ""];
      }
    }

    /** The terms checkbox. */
    method SetAcceptTerms(checked: bool)
      modifies this`acceptTerms
      ensures acceptTerms == checked
    {
      acceptTerms := checked;
    }

    /** `validateForm`: builds the error map rule by rule, stores it, and
        says whether it is empty. */
    method ValidateForm() returns (ok: bool)
      requires Valid()
      modifies this`errors
      ensures errors == RegisterErrors(formData, acceptTerms)
      ensures ok <==> errors == map[]
    {
      var newErrors: map<Key, string> := map[];
      var f := formData;

      var usernameError := UsernameError(f[Username]);
      if usernameError.Some? {
        newErrors := newErrors[Username := usernameError.value];
      }

      var nameError := NameError(f[Name]);
      if nameError.Some? {
        newErrors := newErrors[Name := nameError.value];
      }

      var emailError := EmailError(f[Email]);
      if emailError.Some? {
        newErrors := newErrors[Email := emailError.value];
      }

      var phoneError := PhoneError(f[Phone]);
      if phoneError.Some? {
        newErrors := newErrors[Phone := phoneError.value];
      }

      var passwordError := PasswordError(f[Password]);
      if passwordError.Some? {
        newErrors := newErrors[Password := passwordError.value];
      }

      var confirmError := ConfirmError(f[Password], f[ConfirmPassword]);
      if confirmError.Some? {
        newErrors := newErrors[ConfirmPassword := confirmError.value];
      }

      var termsError := TermsError(acceptTerms);
      if termsError.Some? {
        newErrors := newErrors[Terms := termsError.value];
      }
      RuleByRule(f, acceptTerms);

      errors := newErrors;
      ok := |newErrors| == 0;
    }

    /** The first half of `handleSubmit`, up to the awaited call: validate,
        then raise `isLoading`, clear the errors and produce the request. */
    method SubmitStart() returns (request: Option<RegisterPayload>)
      requires Valid()
      modifies this
      ensures Valid() && formData == old(formData) && acceptTerms == old(acceptTerms)
      ensures successMessage == old(successMessage)
      ensures request.None? <==> RegisterErrors(old(formData), old(acceptTerms)) != map[]
      ensures request.None? ==> errors == RegisterErrors(old(formData), old(acceptTerms)) && isLoading == old(isLoading)
      ensures request.Some? ==>
                && request.value == RegisterPayload(formData[Name], formData[Username], formData[Email],
                                                    formData[Phone], formData[Password])
                && isLoading && errors == map[]
    {
      var ok := ValidateForm();
      if !ok {
        return None;
      }
      isLoading := true;
      errors := map[];
      request := Some(RegisterPayload(formData[Name], formData[Username], formData[Email],
                                      formData[Phone], formData[Password]));
    }

    /** The second half of `handleSubmit`: on an answer with a token, sign
        the session in with `rememberMe: true` and head for the dashboard; on
        an exception, record the submit error; always drop `isLoading`. */
    method SubmitFinish(outcome: RegisterOutcome, session: Session) returns (redirect: Option<string>)
      requires Valid()
      modifies this, session
      ensures Valid() && formData == old(formData) && acceptTerms == old(acceptTerms)
      ensures !isLoading
      ensures outcome.Registered? ==>
                && successMessage == "Registration successful! Redirecting..."
                && errors == old(errors)
                && (outcome.token != "" ==>
                      && redirect == Some(DashboardPath)
                      && session.user == outcome.user && session.isAuthenticated
                      && session.storedToken == Some(outcome.token))
                && (outcome.token == "" ==>
                      redirect == None && session.user == old(session.user)
                      && session.isAuthenticated == old(session.isAuthenticated)
                      && session.storedToken == old(session.storedToken))
      ensures outcome.Failed? ==>
                && redirect == None && successMessage == old(successMessage)
                && errors == map[Submit := OrDefault(outcome.message, "Registration failed")]
                && session.user == old(session.user) && session.isAuthenticated == old(session.isAuthenticated)
                && session.storedToken == old(session.storedToken)
      ensures session.loading == old(session.loading)
    {
      match outcome {
        case Registered(token, u) =>
          successMessage := "Registration successful! Redirecting...";
          if token != "" {
            session.Login(AuthData(token, u, Some(true)));
            redirect := Some(DashboardPath);
          } else {
            redirect := None;
          }
        case Failed(message) =>
          errors := map[Submit := OrDefault(message, "Registration failed")];
          redirect := None;
      }
      isLoading := false;
    }

    /** `resetForm` */
    method ResetForm()
      modifies this
      ensures Valid()
      ensures formData == EmptyForm && !acceptTerms && errors == map[] && successMessage == ""
      ensures isLoading == old(isLoading)
    {
      formData := EmptyForm;
      acceptTerms := false;
      errors := map[];
      successMessage := "";
    }
  }
}
