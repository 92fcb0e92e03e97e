/**
 * The account endpoints: registration, login, the password-reset request
 * and the password-reset confirmation, over the user table.
 *
 * Token issuing, logging and mail delivery are outside the model; the
 * answers of `authenticate`, of the reset-link decoding and token check,
 * of the email/password syntax validators and of `send_mail` are inputs,
 * as is the clock (`now`).
 */
module AccountViews {
  import opened Wrappers
  import opened Text
  import opened AccountModels
  import opened AccountSerializers

  // ---------------------------------------------------------------------
  // UserRegistrationView.post

  datatype RequiredField = RequiredEmail | RequiredPassword | RequiredName | RequiredPhone

  /** The order in which the view looks for a missing field. */
  const RequiredFields: seq<RequiredField> :=
    [RequiredEmail, RequiredPassword, RequiredName, RequiredPhone]

  function FieldValue(input: RegistrationInput, f: RequiredField): Option<string> {
    match f
    case RequiredEmail => input.email
    case RequiredPassword => input.password
    case RequiredName => input.name
    case RequiredPhone => input.phone
  }

  /** `not request.data.get(field)`: the field is missing or the empty
      string. Unlike the serializer, the view does not strip it first. */
  predicate Falsy(v: Option<string>) { v.None? || v.value == "" }

  predicate AllRequiredPresent(input: RegistrationInput) {
    !Falsy(input.email) && !Falsy(input.password) && !Falsy(input.name) && !Falsy(input.phone)
  }

  /** The loop over the required fields: the first one the request leaves
      out or empty, if any. */
  method FirstMissingField(input: RegistrationInput) returns (missing: Option<RequiredField>)
    ensures missing.None? <==> AllRequiredPresent(input)
    ensures missing.Some? ==>
      exists k :: 0 <= k < |RequiredFields| && RequiredFields[k] == missing.value
        && Falsy(FieldValue(input, missing.value))
        && forall j :: 0 <= j < k ==> !Falsy(FieldValue(input, RequiredFields[j]))
  {
    for k := 0 to |RequiredFields|
      invariant forall j :: 0 <= j < k ==> !Falsy(FieldValue(input, RequiredFields[j]))
    {
      if Falsy(FieldValue(input, RequiredFields[k])) {
        return Some(RequiredFields[k]);
      }
    }
    assert FieldValue(input, RequiredFields[0]) == input.email;
    assert FieldValue(input, RequiredFields[1]) == input.password;
    assert FieldValue(input, RequiredFields[2]) == input.name;
    assert FieldValue(input, RequiredFields[3]) == input.phone;
    return None;
  }

  datatype RegisterRejection =
    | FieldRequired(field: RequiredField)
    | EmailAlreadyExists
    | Invalid(errors: RegistrationErrors)

  /** 201 with the new user, 400 with the reason, or 500. */
  datatype RegisterResponse =
    | Registered(user: User)
    | RegisterRejected(reason: RegisterRejection)
    | RegisterFailed
  {
    function Status(): int {
      match this
      case Registered(_) => 201
      case RegisterRejected(_) => 400
      case RegisterFailed => 500
    }
  }

  /** UserRegistrationView.post. The cleaned email is checked for an exact
      duplicate before the serializer runs; the created user then has its
      last_login set to `now`. For the inputs modelled here (each field
      missing or a string) the 500 branch is never taken: every refusal
      create_user could make is caught earlier by a 400. */
  method Register(table: UserTable, input: RegistrationInput,
                  emailSyntaxOk: bool, passwordOk: bool, now: int)
    returns (resp: RegisterResponse)
    requires table.Valid()
    modifies table
    ensures table.Valid()
    ensures !resp.RegisterFailed?
    ensures !AllRequiredPresent(input) ==> resp.RegisterRejected? && resp.reason.FieldRequired?
    ensures AllRequiredPresent(input) && EmailStored(old(table.users), CleanEmail(input.email.value)) ==>
      resp == RegisterRejected(EmailAlreadyExists)
    ensures resp.Registered? <==>
      && AllRequiredPresent(input)
      && !EmailStored(old(table.users), CleanEmail(input.email.value))
      && ValidateRegistration(old(table.users), input, emailSyntaxOk, passwordOk).Success?
    ensures resp.RegisterRejected? ==> table.users == old(table.users) && table.nextId == old(table.nextId)
    ensures resp.Registered? ==>
      var data := ValidateRegistration(old(table.users), input, emailSyntaxOk, passwordOk).value;
      && resp.user == NewUser(old(table.nextId), data.email, data.name, data.phone,
                              Some(data.password), NoExtraFields).(lastLogin := Some(now))
      && resp.user.email == CleanEmail(input.email.value)
      && IsCanonicalUae(resp.user.phone)
      && resp.user.isActive && !resp.user.isAdmin
      && table.users == old(table.users) + [resp.user]
      && table.nextId == old(table.nextId) + 1
  {
    var email := CleanEmail(input.email.GetOr(""));
    var missing := FirstMissingField(input);
    if missing.Some? {
      return RegisterRejected(FieldRequired(missing.value));
    }
    assert !Falsy(FieldValue(input, RequiredFields[0]));
    if EmailStored(table.users, email) {
      return RegisterRejected(EmailAlreadyExists);
    }
    var v := ValidateRegistration(table.users, input, emailSyntaxOk, passwordOk);
    if v.Failure? {
      return RegisterRejected(Invalid(v.error));
    }
    resp := SaveRegistration(table, input.email.value, v.value, now);
  }

  /** serializer.save() and the last_login update, for data the checks
      before it accepted: create_user cannot refuse it. */
  method SaveRegistration(table: UserTable, rawEmail: string, data: RegistrationData, now: int)
    returns (resp: RegisterResponse)
    requires table.Valid()
    requires data.email == CleanEmail(rawEmail) && data.email != ""
    requires !EmailStored(table.users, data.email)
    requires data.name != "" && IsCanonicalUae(data.phone) && !PhoneStored(table.users, data.phone)
    modifies table
    ensures table.Valid()
    ensures resp.Registered?
    ensures resp.user == NewUser(old(table.nextId), data.email, data.name, data.phone,
                                 Some(data.password), NoExtraFields).(lastLogin := Some(now))
    ensures resp.user.email == CleanEmail(rawEmail)
    ensures table.users == old(table.users) + [resp.user]
    ensures table.nextId == old(table.nextId) + 1
  {
    NormalizeLowerStripped(rawEmail);
    var created := table.CreateUser(data.email, data.name, data.phone, Some(data.password), NoExtraFields);
    var row := |table.users| - 1;
    table.RecordLogin(row, now);
    resp := Registered(table.users[row]);
  }

  // ---------------------------------------------------------------------
  // UserLoginView.post

  /** 200 with the user, 400 for a malformed request, 403 for an inactive
      account, 401 for wrong credentials. */
  datatype LoginResponse = LoggedIn(user: User) | LoginRejected | LoginInactive | LoginUnauthorized
  {
    function Status(): int {
      match this
      case LoggedIn(_) => 200
      case LoginRejected => 400
      case LoginInactive => 403
      case LoginUnauthorized => 401
    }
  }

  /** UserLoginView.post. `authenticated` is what authenticate answers for
      the validated credentials: the row of the user, or None. Only a
      successful login changes the table, and only that user's last_login. */
  method Login(table: UserTable, input: LoginInput, emailSyntaxOk: bool,
               authenticated: Option<nat>, now: int)
    returns (resp: LoginResponse)
    requires table.Valid()
    requires authenticated.Some? ==> authenticated.value < |table.users|
    modifies table
    ensures table.Valid()
    ensures ValidateLogin(input, emailSyntaxOk).Failure? ==> resp == LoginRejected
    ensures ValidateLogin(input, emailSyntaxOk).Success? && authenticated.None? ==> resp == LoginUnauthorized
    ensures ValidateLogin(input, emailSyntaxOk).Success? && authenticated.Some? ==>
      (resp == LoginInactive <==> !old(table.users)[authenticated.value].isActive)
    ensures resp.LoggedIn? <==>
      ValidateLogin(input, emailSyntaxOk).Success? && authenticated.Some?
      && old(table.users)[authenticated.value].isActive
    ensures !resp.LoggedIn? ==> table.users == old(table.users)
    ensures resp.LoggedIn? ==>
      var i := authenticated.value;
      && table.users == old(table.users)[i := old(table.users)[i].(lastLogin := Some(now))]
      && resp.user == table.users[i]
    ensures table.nextId == old(table.nextId)
  {
    var creds := ValidateLogin(input, emailSyntaxOk);
    if creds.Failure? {
      return LoginRejected;
    }
    if authenticated.None? {
      return LoginUnauthorized;
    }
    var i := authenticated.value;
    if !table.users[i].isActive {
      return LoginInactive;
    }
    table.RecordLogin(i, now);
    resp := LoggedIn(table.users[i]);
  }

  /** What Django's ModelBackend, the configured backend, answers: the user
      with exactly that email, when the password matches and the account is
      active. */
  function ModelBackendAuthenticate(users: seq<User>, creds: Credentials): (r: Option<nat>)
    ensures r.Some? ==>
      && r.value < |users|
      && users[r.value].email == creds.email
      && users[r.value].password == Hashed(creds.password)
      && users[r.value].isActive
    ensures r.None? && UserByEmail(users, creds.email).Some? ==>
      var u := users[UserByEmail(users, creds.email).value];
      u.password != Hashed(creds.password) || !u.isActive
  {
    match UserByEmail(users, creds.email)
    case None => None
    case Some(i) =>
      if users[i].password == Hashed(creds.password) && users[i].isActive then Some(i) else None
  }

  // ---------------------------------------------------------------------
  // SendPasswordResetEmailView.post

  /** Both 200 answers carry different messages; everything that fails,
      including an invalid address, is a 500. */
  datatype ResetRequestResponse = ResetUnknownEmail | ResetLinkSent(to: string) | ResetRequestFailed
  {
    function Status(): int {
      match this
      case ResetUnknownEmail => 200
      case ResetLinkSent(_) => 200
      case ResetRequestFailed => 500
    }
  }

  /** SendPasswordResetEmailView.post. Nothing is stored; `mailSent` is
      whether send_mail succeeded. */
  function ResetRequest(users: seq<User>, email: Option<string>, emailSyntaxOk: bool, mailSent: bool)
    : (r: ResetRequestResponse)
    ensures ValidateResetRequestEmail(email, emailSyntaxOk).Failure? ==> r == ResetRequestFailed
    ensures r.ResetUnknownEmail? <==>
      ValidateResetRequestEmail(email, emailSyntaxOk).Success?
      && !EmailStored(users, CleanEmail(email.value))
    ensures r.ResetLinkSent? <==>
      ValidateResetRequestEmail(email, emailSyntaxOk).Success?
      && EmailStored(users, CleanEmail(email.value)) && mailSent
    ensures r.ResetLinkSent? ==> r.to == CleanEmail(email.value) && EmailStored(users, r.to)
  {
    match ValidateResetRequestEmail(email, emailSyntaxOk)
    case Failure(_) => ResetRequestFailed
    case Success(address) =>
      match UserByEmail(users, address)
      case None => ResetUnknownEmail
      case Some(i) => if mailSent then ResetLinkSent(users[i].email) else ResetRequestFailed
  }

  /** The status does not tell whether the address belongs to an account:
      for a valid request whose mail goes out, both cases answer 200. */
  lemma ResetRequestHidesAccounts(users: seq<User>, email: Option<string>, emailSyntaxOk: bool)
    requires ValidateResetRequestEmail(email, emailSyntaxOk).Success?
    ensures ResetRequest(users, email, emailSyntaxOk, true).Status() == 200
  {
  }

  // ---------------------------------------------------------------------
  // UserPasswordResetView.post

  datatype ResetRejection = BadPassword(error: ResetPasswordError) | InvalidLink | ExpiredLink

  /** 200, 400 with the reason, or 500. */
  datatype ResetConfirmResponse = PasswordReset | ResetRejected(reason: ResetRejection) | ResetFailed
  {
    function Status(): int {
      match this
      case PasswordReset => 200
      case ResetRejected(_) => 400
      case ResetFailed => 500
    }
  }

  /** The part after validation: `uid` is the decoded primary key (None
      when the link does not decode), `tokenOk` what check_token answers
      for that user. */
  method ApplyReset(table: UserTable, uid: Option<nat>, tokenOk: bool, password: string)
    returns (resp: ResetConfirmResponse)
    requires table.Valid()
    modifies table
    ensures table.Valid() && table.nextId == old(table.nextId)
    ensures uid.None? || UserById(old(table.users), uid.value).None? ==>
      resp == ResetRejected(InvalidLink) && table.users == old(table.users)
    ensures uid.Some? && UserById(old(table.users), uid.value).Some? && !tokenOk ==>
      resp == ResetRejected(ExpiredLink) && table.users == old(table.users)
    ensures uid.Some? && UserById(old(table.users), uid.value).Some? && tokenOk ==>
      var i := UserById(old(table.users), uid.value).value;
      resp == PasswordReset
      && table.users == old(table.users)[i := old(table.users)[i].(password := Hashed(password))]
  {
    if uid.None? {
      return ResetRejected(InvalidLink);
    }
    var row := UserById(table.users, uid.value);
    if row.None? {
      return ResetRejected(InvalidLink);
    }
    if !tokenOk {
      return ResetRejected(ExpiredLink);
    }
    table.SetPassword(row.value, password);
    resp := PasswordReset;
  }

  /** UserPasswordResetView.post as written: the serializer's validation
      error is raised inside the view's catch-all, so a refused password
      answers 500 rather than 400. */
  method ResetConfirmAsWritten(table: UserTable, password: Option<string>, confirm: Option<string>,
                               uid: Option<nat>, tokenOk: bool)
    returns (resp: ResetConfirmResponse)
    requires table.Valid()
    modifies table
    ensures table.Valid() && table.nextId == old(table.nextId)
    ensures ValidateResetPassword(password, confirm).Failure? ==>
      resp == ResetFailed && table.users == old(table.users)
    ensures resp == PasswordReset <==>
      ValidateResetPassword(password, confirm).Success? && uid.Some?
      && UserById(old(table.users), uid.value).Some? && tokenOk
    ensures resp == PasswordReset ==>
      var i := UserById(old(table.users), uid.value).value;
      table.users == old(table.users)[i := old(table.users)[i].(password := Hashed(Trimmed(password)))]
    ensures resp != PasswordReset ==> table.users == old(table.users)
  {
    var v := ValidateResetPassword(password, confirm);
    if v.Failure? {
      return ResetFailed;
    }
    resp := ApplyReset(table, uid, tokenOk, v.value);
  }

  /** UserPasswordResetView.post as intended: a refused password is a 400
      that names the rule it broke, and nothing changes. */
  method ResetConfirm(table: UserTable, password: Option<string>, confirm: Option<string>,
                      uid: Option<nat>, tokenOk: bool)
    returns (resp: ResetConfirmResponse)
    requires table.Valid()
    modifies table
    ensures table.Valid() && table.nextId == old(table.nextId)
    ensures !resp.ResetFailed?
    ensures ValidateResetPassword(password, confirm).Failure? ==>
      resp == ResetRejected(BadPassword(ValidateResetPassword(password, confirm).error))
      && table.users == old(table.users)
    ensures resp == PasswordReset <==>
      ValidateResetPassword(password, confirm).Success? && uid.Some?
      && UserById(old(table.users), uid.value).Some? && tokenOk
    ensures resp == PasswordReset ==>
      var i := UserById(old(table.users), uid.value).value;
      table.users == old(table.users)[i := old(table.users)[i].(password := Hashed(Trimmed(password)))]
    ensures resp != PasswordReset ==> table.users == old(table.users)
  {
    var v := ValidateResetPassword(password, confirm);
    if v.Failure? {
      return ResetRejected(BadPassword(v.error));
    }
    resp := ApplyReset(table, uid, tokenOk, v.value);
  }

  /** The input that shows the difference: "password" typed twice is
      refused as all letters, so the view as written answers 500 for it. */
  lemma LettersOnlyPasswordIsRefused()
    ensures ValidateResetPassword(Some("password"), Some("password")) == Failure(EntirelyAlphabetic)
  {
    var p := "password";
    assert AllLetters(p) by {
      forall i | 0 <= i < |p| ensures IsLetter(p[i]) { }
    }
    assert !AllDigits(p) by { assert !IsDigit(p[0]); }
  }
}
