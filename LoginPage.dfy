/** The login page: its two field rules, the redirect target it reads from
    the router, and the form's state changes: typing, the remember-me box,
    submitting (guarded against double submission), the answer, reset. */
module LoginPage {
  import opened Common
  import opened Users
  import opened AuthContext
  import opened Routing

  /** The keys of `formData` and of `errors`. */
  datatype Field = UserInput | Password | Submit

  const LoginFields: set<Field> := {UserInput, Password}

  const UserInputRequired := "Username or Email is required"
  const PasswordRequired := "Password is required"
  const SuccessMessage := "Login successful! Redirecting..."
  const SubmitFallback := "Invalid credentials. Please try again."

  /** The identifier is trimmed before the check. */
  function UserInputError(u: string): Option<string> {
    if Trim(u) == "" then Some(UserInputRequired) else None
  }

  /** The password is not trimmed: only the empty string is missing. */
  function PasswordError(p: string): Option<string> {
    if p == "" then Some(PasswordRequired) else None
  }

  /** The map `validateForm` builds. */
  function LoginErrors(form: map<Field, string>): (r: map<Field, string>)
    requires LoginFields <= form.Keys
    ensures Submit !in r && forall k | k in r :: r[k] != ""
    ensures r == map[] <==> UserInputError(form[UserInput]).None? && PasswordError(form[Password]).None?
  {
    var afterUser := if UserInputError(form[UserInput]).Some?
                     then map[UserInput := UserInputRequired] else map[];
    assert UserInputError(form[UserInput]).Some? ==> UserInput in afterUser;
    if PasswordError(form[Password]).Some? then
      assert Password in afterUser[Password := PasswordRequired];
      afterUser[Password := PasswordRequired]
    else afterUser
  }

  /** Each rule has its own entry, and nothing else is recorded. */
  lemma LoginErrorsEntries(form: map<Field, string>)
    requires LoginFields <= form.Keys
    ensures UserInput in LoginErrors(form) <==> AllWhitespace(form[UserInput])
    ensures Password in LoginErrors(form) <==> form[Password] == ""
    ensures Submit !in LoginErrors(form)
    ensures UserInput in LoginErrors(form) ==> LoginErrors(form)[UserInput] == UserInputRequired
    ensures Password in LoginErrors(form) ==> LoginErrors(form)[Password] == PasswordRequired
  {
    TrimEmptyIffBlank(form[UserInput]);
  }

  /** The form passes exactly when the identifier is not blank and the
      password is not empty. */
  lemma LoginAcceptsIff(form: map<Field, string>)
    requires LoginFields <= form.Keys
    ensures LoginErrors(form) == map[] <==> !AllWhitespace(form[UserInput]) && form[Password] != ""
  {
    LoginErrorsEntries(form);
  }

  /** A password of spaces passes the client check. */
  lemma SpacesPassword(u: string)
    requires !AllWhitespace(u)
    ensures LoginErrors(map[UserInput := u, Password := "   "]) == map[]
  {
    LoginAcceptsIff(map[UserInput := u, Password := "   "]);
  }

  /** `location.state?.from?.pathname || "/"` */
  function RedirectTarget(state: Option<NavState>): (target: string)
    ensures target != ""
    ensures state.Some? && state.value.from.Some? && state.value.from.value.pathname != ""
            ==> target == state.value.from.value.pathname
    ensures !(state.Some? && state.value.from.Some? && state.value.from.value.pathname != "")
            ==> target == "/"
  {
    if state.Some? && state.value.from.Some? && state.value.from.value.pathname != ""
    then state.value.from.value.pathname
    else "/"
  }

  /** The body of the login request. */
  datatype LoginPayload = LoginPayload(userInput: string, password: string, rememberMe: bool)

  /** What the login call produced: the response body, or an exception
      with the server's `message`, if any. */
  datatype LoginOutcome =
    | LoggedIn(token: string, user: Option<Profile>, rememberMe: Option<bool>)
    | Failed(message: Option<string>)

  /** The `Login` component's state. `from` is read from the router when
      the page renders. */
  class LoginForm {
    const from: string
    var formData: map<Field, string>
    var rememberMe: bool
    var isLoading: bool
    var errors: map<Field, string>
    var successMessage: string

    ghost predicate Valid()
      reads this
    {
      LoginFields <= formData.Keys
    }

    constructor (state: Option<NavState>)
      ensures Valid()
      ensures from == RedirectTarget(state)
      ensures formData == map[UserInput := "", Password := ""]
      ensures !rememberMe && !isLoading && errors == map[] && successMessage == ""
    {
      from := RedirectTarget(state);
      formData := map[UserInput := "", Password := ""];
      rememberMe := false;
      isLoading := false;
      errors := map[];
      successMessage := "";
    }

    /** `handleInputChange`: the named field takes the value; that field's
        error, if set, is blanked; nothing else changes. */
    method HandleInputChange(name: Field, value: string)
      requires Valid()
      modifies this
      ensures Valid()
      ensures formData == old(formData)[name := value]
      ensures errors == if name in old(errors) && old(errors)[name] != "" then old(errors)[name := ""] else old(errors)
      ensures rememberMe == old(rememberMe) && isLoading == old(isLoading)
      ensures successMessage == old(successMessage)
    {
      formData := formData[name := value];
      if name in errors && errors[name] != "" {
        errors := errors[name := ""];
      }
    }

    /** The remember-me checkbox. */
    method SetRememberMe(checked: bool)
      modifies this`rememberMe
      ensures rememberMe == checked
    {
      rememberMe := checked;
    }

    /** `validateForm`: builds the error map, stores it, and says whether
        it is empty. */
    method ValidateForm() returns (ok: bool)
      requires Valid()
      modifies this`errors
      ensures errors == LoginErrors(formData)
      ensures ok <==> errors == map[]
    {
      var newErrors: map<Field, string> := map[];

      if Trim(formData[UserInput]) == "" {
        newErrors := newErrors[UserInput := UserInputRequired];
      }

      if formData[Password] == "" {
        newErrors := newErrors[Password := PasswordRequired];
      }

      errors := newErrors;
      ok := |newErrors| == 0;
    }

    /** The first half of `handleSubmit`, up to the awaited call. While a
        request is in flight nothing happens; otherwise the form is
        validated, and when it passes `isLoading` is raised, the message and
        errors cleared and the request produced from the state as it is. */
    method SubmitStart() returns (request: Option<LoginPayload>)
      requires Valid()
      modifies this
      ensures Valid() && formData == old(formData) && rememberMe == old(rememberMe)
      ensures old(isLoading) ==> request.None? && errors == old(errors)
                                 && isLoading && successMessage == old(successMessage)
      ensures !old(isLoading) && LoginErrors(formData) != map[]
              ==> request.None? && errors == LoginErrors(formData)
                  && !isLoading && successMessage == old(successMessage)
      ensures !old(isLoading) && LoginErrors(formData) == map[]
              ==> request == Some(LoginPayload(formData[UserInput], formData[Password], rememberMe))
                  && isLoading && errors == map[] && successMessage == ""
    {
      if isLoading {
        return None;
      }
      var ok := ValidateForm();
      if !ok {
        return None;
      }
      isLoading := true;
      successMessage := "";
      errors := map[];
      request := Some(LoginPayload(formData[UserInput], formData[Password], rememberMe));
    }

    /** The second half of `handleSubmit`: on an answer, the success
        message, a session sign-in when the body has a token, and a redirect
        to `from` either way; on an exception, the submit error is the
        server's message or the fallback; `isLoading` always drops. */
    method SubmitFinish(outcome: LoginOutcome, session: Session) returns (redirect: Option<string>)
      requires Valid()
      modifies this, session
      ensures Valid() && formData == old(formData) && rememberMe == old(rememberMe)
      ensures !isLoading
      ensures outcome.LoggedIn? ==>
                && successMessage == SuccessMessage && errors == old(errors)
                && redirect == Some(from)
                && (outcome.token != "" ==>
                      && session.user == outcome.user && session.isAuthenticated
                      && session.storedToken
                         == if outcome.rememberMe == Some(true) then Some(outcome.token)
                            else old(session.storedToken))
                && (outcome.token == "" ==>
                      && session.user == old(session.user)
                      && session.isAuthenticated == old(session.isAuthenticated)
                      && session.storedToken == old(session.storedToken))
      ensures outcome.Failed? ==>
                && redirect == None && successMessage == old(successMessage)
                && errors == map[Submit := OrDefault(outcome.message, SubmitFallback)]
                && session.user == old(session.user) && session.isAuthenticated == old(session.isAuthenticated)
                && session.storedToken == old(session.storedToken)
      ensures session.loading == old(session.loading)
    {
      match outcome {
        case LoggedIn(token, u, remember) =>
          successMessage := SuccessMessage;
          if token != "" {
            session.Login(AuthData(token, u, remember));
          }
          redirect := Some(from);
        case Failed(message) =>
          errors := map[Submit := OrDefault(message, SubmitFallback)];
          redirect := None;
      }
      isLoading := false;
    }

    /** `resetForm`: fields empty, remember-me off, no errors, no message. */
    method ResetForm()
      modifies this
      ensures Valid()
      ensures formData == map[UserInput := "", Password := ""]
      ensures !rememberMe && errors == map[] && successMessage == ""
      ensures isLoading == old(isLoading)
    {
      formData := map[UserInput := "", Password := ""];
      rememberMe := false;
      errors := map[];
      successMessage := "";
    }
  }

  /** Two clicks on the submit button send at most one request: after a
      request the form is loading, and after a failed validation the same
      fields fail again. */
  method DoubleSubmit(form: LoginForm) returns (first: Option<LoginPayload>, second: Option<LoginPayload>)
    requires form.Valid() && !form.isLoading
    modifies form
    ensures first.Some? <==> LoginErrors(old(form.formData)) == map[]
    ensures second.None?
  {
    first := form.SubmitStart();
    second := form.SubmitStart();
  }
}
