/**
 * The validators of the account serializers: the UAE phone normaliser of
 * the registration form, the case-insensitive duplicate-email check, the
 * password confirmation, the login and reset-request email normalisation
 * and the reset-password strength rules.
 *
 * A field the client left out is `None`; like DRF's character fields,
 * every check looks at the value with its surrounding white space
 * stripped. The email-syntax and Django password validators are given
 * as booleans.
 */
module AccountSerializers {
  import opened Wrappers
  import opened Text
  import opened AccountModels

  // ---------------------------------------------------------------------
  // UserRegistrationSerializer.validate_phone

  /** Characters the phone cleaner deletes: white space, '-', '(', ')', '+'. */
  predicate IsPhoneNoise(c: char) {
    IsSpace(c) || c == '-' || c == '(' || c == ')' || c == '+'
  }

  predicate NoPhoneNoise(s: string) {
    forall i :: 0 <= i < |s| ==> !IsPhoneNoise(s[i])
  }

  /** re.sub(r'[\s\-\(\)\+]', '', value) */
  function RemovePhoneNoise(s: string): (r: string)
    ensures |r| <= |s|
    ensures NoPhoneNoise(r)
  {
    if s == [] then []
    else (if IsPhoneNoise(s[0]) then [] else [s[0]]) + RemovePhoneNoise(s[1..])
  }

  /** Cleaning a string that has nothing to clean leaves it as it is. */
  lemma {:induction false} RemoveNoiseOfClean(s: string)
    requires NoPhoneNoise(s)
    ensures RemovePhoneNoise(s) == s
  {
    if s != [] {
      RemoveNoiseOfClean(s[1..]);
      assert s == [s[0]] + s[1..];
    }
  }

  /** Cleaning twice is cleaning once. */
  lemma RemoveNoiseIdempotent(s: string)
    ensures RemovePhoneNoise(RemovePhoneNoise(s)) == RemovePhoneNoise(s)
  {
    RemoveNoiseOfClean(RemovePhoneNoise(s));
  }

  /** The four regular expressions of uae_patterns, anchored at both ends. */
  predicate MatchesUaePattern(t: string) {
    || (|t| == 12 && t[..4] == "9715" && AllDigits(t[4..]))
    || (|t| == 10 && t[..2] == "05" && AllDigits(t[2..]))
    || (|t| == 9 && t[..1] == "5" && AllDigits(t[1..]))
    || (|t| == 14 && t[..6] == "009715" && AllDigits(t[6..]))
  }

  /** t is one of the four accepted shapes carrying the eight subscriber
      digits d: 9715d, 05d, 5d or 009715d. */
  predicate IsUaeShape(t: string, d: string) {
    |d| == 8 && AllDigits(d)
    && (t == "9715" + d || t == "05" + d || t == "5" + d || t == "009715" + d)
  }

  /** The canonical form every accepted number is stored in: +9715 then
      eight digits. */
  predicate IsCanonicalUae(s: string) {
    |s| == 13 && s[..5] == "+9715" && AllDigits(s[5..])
  }

  datatype PhoneError = InvalidUaePhone | PhoneTaken

  /** The pattern test agrees with the four shapes. */
  lemma {:induction false} PatternIsShape(t: string)
    ensures MatchesUaePattern(t) <==> exists d :: IsUaeShape(t, d)
    ensures MatchesUaePattern(t) ==> IsUaeShape(t, t[|t| - 8..])
  {
    if MatchesUaePattern(t) {
      var d := t[|t| - 8..];
      if |t| == 12 { assert t == "9715" + d; }
      else if |t| == 10 { assert t == "05" + d; }
      else if |t| == 9 { assert t == "5" + d; }
      else { assert t == "009715" + d; }
      assert IsUaeShape(t, d);
    }
    if exists d :: IsUaeShape(t, d) {
      var d :| IsUaeShape(t, d);
      if t == "9715" + d { assert t[..4] == "9715" && t[4..] == d; }
      else if t == "05" + d { assert t[..2] == "05" && t[2..] == d; }
      else if t == "5" + d { assert t[..1] == "5" && t[1..] == d; }
      else { assert t[..6] == "009715" && t[6..] == d; }
    }
  }

  /** The format part of validate_phone: clean the input, accept it only
      in one of the four UAE shapes, then rewrite it to +9715XXXXXXXX. */
  function ValidatePhoneFormat(value: string): (r: Result<string, PhoneError>)
    ensures r.Success? ==> exists d :: IsUaeShape(RemovePhoneNoise(value), d)
    ensures (exists d :: IsUaeShape(RemovePhoneNoise(value), d)) ==> r.Success?
    ensures r.Failure? ==> r.error == InvalidUaePhone
    ensures r.Success? ==> IsCanonicalUae(r.value)
    ensures r.Success? ==>
      var clean := RemovePhoneNoise(value);
      r.value == "+9715" + clean[|clean| - 8..]
  {
    var clean := RemovePhoneNoise(value);
    PatternIsShape(clean);
    if !MatchesUaePattern(clean) then Failure(InvalidUaePhone)
    else
      RewriteIsCanonical(clean);
      assert IsUaeShape(clean, clean[|clean| - 8..]);
      Success(RewriteUae(clean))
  }

  /** The rewriting chain of validate_phone on a cleaned number: a leading
      05 becomes 9715, a nine-digit 5... gets 971 in front, 00971 loses its
      00, and a '+' is put in front when missing. */
  function RewriteUae(clean: string): string {
    var clean' :=
      if |clean| >= 2 && clean[..2] == "05" then "971" + clean[1..]
      else if |clean| >= 1 && clean[..1] == "5" && |clean| == 9 then "971" + clean
      else if |clean| >= 5 && clean[..5] == "00971" then "971" + clean[5..]
      else clean;
    if |clean'| >= 1 && clean'[..1] == "+" then clean' else "+" + clean'
  }

  lemma RewriteIsCanonical(clean: string)
    requires MatchesUaePattern(clean)
    ensures RewriteUae(clean) == "+9715" + clean[|clean| - 8..]
    ensures IsCanonicalUae(RewriteUae(clean))
  {
    var d := clean[|clean| - 8..];
    assert |d| == 8;
    if |clean| == 12 {
      RewriteInternational(clean, d);
    } else if |clean| == 10 {
      RewriteLocal(clean, d);
    } else if |clean| == 9 {
      RewriteShort(clean, d);
    } else {
      RewriteZeroZero(clean, d);
    }
    assert ("+9715" + d)[..5] == "+9715" && ("+9715" + d)[5..] == d;
  }

  lemma RewriteInternational(clean: string, d: string)
    requires |clean| == 12 && clean[..4] == "9715" && d == clean[4..]
    ensures RewriteUae(clean) == "+9715" + d
  {
    assert clean[0] == '9';
    assert clean[..2] != "05" && clean[..1] != "5" && clean[..5] != "00971";
    assert clean[..1] != "+";
    assert clean == "9715" + d;
  }

  lemma RewriteLocal(clean: string, d: string)
    requires |clean| == 10 && clean[..2] == "05" && d == clean[2..]
    ensures RewriteUae(clean) == "+9715" + d
  {
    assert clean[1..] == "5" + d;
    var c' := "971" + clean[1..];
    assert c' == "9715" + d;
    assert c'[0] == '9';
  }

  lemma RewriteShort(clean: string, d: string)
    requires |clean| == 9 && clean[..1] == "5" && d == clean[1..]
    ensures RewriteUae(clean) == "+9715" + d
  {
    assert clean[0] == '5';
    assert clean[..2] != "05";
    assert clean == "5" + d;
    var c' := "971" + clean;
    assert c' == "9715" + d;
    assert c'[0] == '9';
  }

  lemma RewriteZeroZero(clean: string, d: string)
    requires |clean| == 14 && clean[..6] == "009715" && d == clean[6..]
    ensures RewriteUae(clean) == "+9715" + d
  {
    assert clean[0] == '0' && clean[1] == '0';
    assert clean[..2] != "05" && clean[..1] != "5";
    assert clean[..5] == "00971";
    assert clean[5..] == "5" + d;
    var c' := "971" + clean[5..];
    assert c' == "9715" + d;
    assert c'[0] == '9';
  }

  /** The four shapes that carry the same eight digits become the same number. */
  lemma SameDigitsSameNumber(d: string, t: string)
    requires IsUaeShape(t, d)
    ensures ValidatePhoneFormat(t) == Success("+9715" + d)
  {
    RemoveNoiseOfClean(t);
    assert t[|t| - 8..] == d;
  }

  /** A number already in canonical form is returned unchanged: the '+' is
      cleaned away and put back. */
  lemma CanonicalIsFixedPoint(s: string)
    requires IsCanonicalUae(s)
    ensures ValidatePhoneFormat(s) == Success(s)
  {
    var d := s[5..];
    assert s == "+" + ("9715" + d);
    assert RemovePhoneNoise(s) == RemovePhoneNoise(s[1..]);
    RemoveNoiseOfClean(s[1..]);
    SameDigitsSameNumber(d, "9715" + d);
  }

  /** Normalising is idempotent: the result normalises to itself. */
  lemma NormaliseIdempotent(value: string)
    requires ValidatePhoneFormat(value).Success?
    ensures ValidatePhoneFormat(ValidatePhoneFormat(value).value) == ValidatePhoneFormat(value)
  {
    CanonicalIsFixedPoint(ValidatePhoneFormat(value).value);
  }

  /** Separators in the input do not change the outcome. */
  lemma NoiseIsIgnored(value: string)
    ensures ValidatePhoneFormat(RemovePhoneNoise(value)) == ValidatePhoneFormat(value)
  {
    RemoveNoiseIdempotent(value);
  }

  /** validate_phone: the normalised number, refused when a user already
      has it. */
  function ValidatePhone(users: seq<User>, value: string): (r: Result<string, PhoneError>)
    ensures r.Success? <==>
      ValidatePhoneFormat(value).Success? && !PhoneStored(users, ValidatePhoneFormat(value).value)
    ensures r.Success? ==> IsCanonicalUae(r.value) && r == ValidatePhoneFormat(value)
    ensures r.Failure? && ValidatePhoneFormat(value).Success? ==> r.error == PhoneTaken
  {
    match ValidatePhoneFormat(value)
    case Failure(e) => Failure(e)
    case Success(phone) => if PhoneStored(users, phone) then Failure(PhoneTaken) else Success(phone)
  }

  /** Once a user holds +9715d, every shape of d is refused as taken. */
  lemma TakenInEveryShape(users: seq<User>, d: string, t: string)
    requires IsUaeShape(t, d)
    requires PhoneStored(users, "+9715" + d)
    ensures ValidatePhone(users, t) == Failure(PhoneTaken)
  {
    SameDigitsSameNumber(d, t);
  }

  // ---------------------------------------------------------------------
  // UserRegistrationSerializer.validate_email and validate

  predicate EmailStoredIgnoringCase(users: seq<User>, email: string) {
    exists i | 0 <= i < |users| :: Lower(users[i].email) == Lower(email)
  }

  datatype EmailError = EmailTaken

  /** validate_email: refused when a stored email equals it ignoring case;
      otherwise returned lower-cased. */
  function ValidateRegistrationEmail(users: seq<User>, value: string): (r: Result<string, EmailError>)
    ensures r.Failure? <==> EmailStoredIgnoringCase(users, value)
    ensures r.Success? ==> r.value == Lower(value) && IsLowerCase(r.value)
    ensures r.Success? ==> !EmailStored(users, r.value)
  {
    LowerIsLowerCase(value);
    if EmailStoredIgnoringCase(users, value) then Failure(EmailTaken)
    else Success(Lower(value))
  }

  datatype MismatchError = PasswordsDiffer

  /** validate: the two passwords must be equal; password2 is then popped
      from the attributes and every other attribute is kept. */
  function ValidatePasswordsMatch(attrs: map<string, string>): (r: Result<map<string, string>, MismatchError>)
    requires "password" in attrs && "password2" in attrs
    ensures r.Failure? <==> attrs["password"] != attrs["password2"]
    ensures r.Success? ==> "password2" !in r.value && r.value.Keys == attrs.Keys - {"password2"}
    ensures r.Success? ==> forall k :: k in r.value ==> r.value[k] == attrs[k]
  {
    if attrs["password"] != attrs["password2"] then Failure(PasswordsDiffer)
    else Success(attrs - {"password2"})
  }

  // ---------------------------------------------------------------------
  // UserRegistrationSerializer as a whole

  datatype RegistrationInput = RegistrationInput(
    email: Option<string>, name: Option<string>, phone: Option<string>,
    password: Option<string>, password2: Option<string>)

  /** What the serializer hands to create_user once password2 is popped. */
  datatype RegistrationData = RegistrationData(
    email: string, name: string, phone: string, password: string)

  datatype RegField = EmailField | NameField | PhoneField | PasswordField | Password2Field

  datatype RegistrationErrors = FieldErrors(fields: set<RegField>) | PasswordMismatch

  /** Django's EmailValidator refuses any value without an '@' before it
      looks at the parts; the rest of its syntax check is `emailSyntaxOk`. */
  predicate HasAt(s: string) { exists i | 0 <= i < |s| :: s[i] == '@' }

  /** The fields whose validation fails, each judged on its trimmed value.
      The bounds and the phone pattern come from the User model, whose
      field options the serializer inherits: email at most 255 characters,
      name at most 200, the phone matching ^\+9715\d{8}$ (the model's
      RegexValidator, which also keeps it within max_length 15) before
      validate_phone sees it, and the password at most 128. Email: also
      syntactically valid (`emailSyntaxOk`) and not stored ignoring case.
      Phone: also not stored. Password: also at least 8 characters and
      accepted by Django's validators (`passwordOk`). password2: at least
      8 characters. */
  function RegistrationFieldErrors(users: seq<User>, input: RegistrationInput,
                                   emailSyntaxOk: bool, passwordOk: bool): (errs: set<RegField>)
    ensures EmailField !in errs <==>
      && !Blank(input.email) && |Trimmed(input.email)| <= 255 && HasAt(Trimmed(input.email))
      && emailSyntaxOk && !EmailStoredIgnoringCase(users, Trimmed(input.email))
    ensures NameField !in errs <==> !Blank(input.name) && |Trimmed(input.name)| <= 200
    ensures PhoneField !in errs <==>
      !Blank(input.phone) && IsCanonicalUae(Trimmed(input.phone))
      && !PhoneStored(users, Trimmed(input.phone))
    ensures PasswordField !in errs <==>
      !Blank(input.password) && 8 <= |Trimmed(input.password)| <= 128 && passwordOk
    ensures Password2Field !in errs <==> !Blank(input.password2) && |Trimmed(input.password2)| >= 8
  {
    (if RegEmailOk(users, input.email, emailSyntaxOk) then {} else {EmailField})
    + (if !Blank(input.name) && |Trimmed(input.name)| <= 200 then {} else {NameField})
    + (if RegPhoneOk(users, input.phone) then {} else {PhoneField})
    + (if !Blank(input.password) && 8 <= |Trimmed(input.password)| <= 128 && passwordOk
       then {} else {PasswordField})
    + (if !Blank(input.password2) && |Trimmed(input.password2)| >= 8 then {} else {Password2Field})
  }

  /** The email field: its bound and EmailValidator, then validate_email. */
  predicate RegEmailOk(users: seq<User>, v: Option<string>, emailSyntaxOk: bool)
    ensures RegEmailOk(users, v, emailSyntaxOk) <==>
      !Blank(v) && |Trimmed(v)| <= 255 && HasAt(Trimmed(v))
      && emailSyntaxOk && !EmailStoredIgnoringCase(users, Trimmed(v))
  {
    && !Blank(v) && |Trimmed(v)| <= 255 && HasAt(Trimmed(v)) && emailSyntaxOk
    && ValidateRegistrationEmail(users, Trimmed(v)).Success?
  }

  /** The phone field: the model's pattern, then validate_phone. */
  predicate RegPhoneOk(users: seq<User>, v: Option<string>)
    ensures RegPhoneOk(users, v) <==>
      !Blank(v) && IsCanonicalUae(Trimmed(v)) && !PhoneStored(users, Trimmed(v))
  {
    CanonicalPhoneAccepted(users, Trimmed(v));
    !Blank(v) && IsCanonicalUae(Trimmed(v)) && ValidatePhone(users, Trimmed(v)).Success?
  }

  /** A number that passed the model's pattern reaches validate_phone in
      canonical form, which accepts it unchanged unless it is stored. */
  lemma CanonicalPhoneAccepted(users: seq<User>, phone: string)
    ensures IsCanonicalUae(phone) ==>
      (ValidatePhone(users, phone).Success? <==> !PhoneStored(users, phone))
      && (ValidatePhone(users, phone).Success? ==> ValidatePhone(users, phone).value == phone)
  {
    if IsCanonicalUae(phone) {
      CanonicalIsFixedPoint(phone);
    }
  }

  /** The model's pattern runs before validate_phone, so of the four shapes
      validate_phone would normalise only the canonical one gets through:
      05XXXXXXXX is refused although validate_phone alone accepts it. */
  lemma LocalFormRefusedAtRegistration(users: seq<User>, input: RegistrationInput,
                                       emailSyntaxOk: bool, passwordOk: bool, d: string)
    requires |d| == 8 && AllDigits(d) && input.phone == Some("05" + d)
    ensures PhoneField in RegistrationFieldErrors(users, input, emailSyntaxOk, passwordOk)
    ensures ValidatePhoneFormat("05" + d) == Success("+9715" + d)
  {
    var p := "05" + d;
    assert !IsSpace(p[0]) && !IsSpace(p[|p| - 1]) by {
      assert p[|p| - 1] == d[7];
    }
    StripOfStripped(p);
    assert |Trimmed(input.phone)| == 10;
    SameDigitsSameNumber(d, p);
  }

  /** serializer.is_valid() followed by validated_data: every field is
      trimmed and validated, then the object-level check compares the
      trimmed passwords. */
  function ValidateRegistration(users: seq<User>, input: RegistrationInput,
                                emailSyntaxOk: bool, passwordOk: bool)
    : (r: Result<RegistrationData, RegistrationErrors>)
    ensures r.Success? <==>
      RegistrationFieldErrors(users, input, emailSyntaxOk, passwordOk) == {}
      && Trimmed(input.password) == Trimmed(input.password2)
    ensures r.Failure? && RegistrationFieldErrors(users, input, emailSyntaxOk, passwordOk) != {} ==>
      r.error == FieldErrors(RegistrationFieldErrors(users, input, emailSyntaxOk, passwordOk))
    ensures r.Success? ==>
      && !Blank(input.email) && !Blank(input.name) && !Blank(input.phone)
      && !Blank(input.password) && !Blank(input.password2)
      && r.value.email == CleanEmail(input.email.value) && r.value.email != ""
      && HasAt(Trimmed(input.email)) && !EmailStoredIgnoringCase(users, Trimmed(input.email))
      && r.value.name == Trimmed(input.name) && r.value.name != ""
      && r.value.phone == Trimmed(input.phone)
      && IsCanonicalUae(r.value.phone) && !PhoneStored(users, r.value.phone)
      && r.value.password == Trimmed(input.password) == Trimmed(input.password2)
      && 8 <= |r.value.password| <= 128
  {
    var errs := RegistrationFieldErrors(users, input, emailSyntaxOk, passwordOk);
    if errs != {} then Failure(FieldErrors(errs))
    else
      var email := ValidateRegistrationEmail(users, Trimmed(input.email)).value;
      CanonicalPhoneAccepted(users, Trimmed(input.phone));
      var phone := ValidatePhone(users, Trimmed(input.phone)).value;
      PopConfirmation(email, Trimmed(input.name), phone,
                      Trimmed(input.password), Trimmed(input.password2))
  }

  /** validate() on the validated fields: the passwords must be equal, and
      password2 is popped from the attributes. */
  function PopConfirmation(email: string, name: string, phone: string,
                           password: string, password2: string)
    : (r: Result<RegistrationData, RegistrationErrors>)
    ensures r.Success? <==> password == password2
    ensures r.Failure? ==> r.error == PasswordMismatch
    ensures r.Success? ==> r.value == RegistrationData(email, name, phone, password)
  {
    var attrs := map["email" := email, "name" := name, "phone" := phone,
                     "password" := password, "password2" := password2];
    match ValidatePasswordsMatch(attrs)
    case Failure(_) => Failure(PasswordMismatch)
    case Success(data) =>
      Success(RegistrationData(data["email"], data["name"], data["phone"], data["password"]))
  }

  // ---------------------------------------------------------------------
  // Login and reset-request email

  /** value.strip().lower(), as UserLoginSerializer.validate_email and
      SendPasswordResetEmailSerializer.validate_email do before the
      syntax check. */
  function CleanEmail(value: string): (r: string)
    ensures IsLowerCase(r)
    ensures r == [] || (!IsSpace(r[0]) && !IsSpace(r[|r| - 1]))
    ensures |r| == |Strip(value)|
  {
    var t := Strip(value);
    var r := Lower(t);
    LowerIsLowerCase(t);
    assert r != [] ==> r[0] == ToLowerChar(t[0]) && r[|r| - 1] == ToLowerChar(t[|t| - 1]);
    r
  }

  /** Cleaning a cleaned address changes nothing. */
  lemma CleanEmailIdempotent(value: string)
    ensures CleanEmail(CleanEmail(value)) == CleanEmail(value)
  {
    var r := CleanEmail(value);
    StripOfStripped(r);
    LowerOfLowerCase(r);
  }

  datatype LoginInput = LoginInput(email: Option<string>, password: Option<string>)

  datatype Credentials = Credentials(email: string, password: string)

  datatype LoginError = LoginInvalid

  /** UserLoginSerializer: both fields required and trimmed, at most 255
      and 128 characters once trimmed, the email cleaned and syntax-checked
      (`emailSyntaxOk` judges the cleaned address), then both must be
      non-empty. */
  function ValidateLogin(input: LoginInput, emailSyntaxOk: bool): (r: Result<Credentials, LoginError>)
    ensures r.Success? <==>
      && !Blank(input.email) && !Blank(input.password)
      && |Trimmed(input.email)| <= 255 && |Trimmed(input.password)| <= 128
      && emailSyntaxOk
    ensures r.Success? ==>
      r.value == Credentials(CleanEmail(input.email.value), Trimmed(input.password))
      && r.value.email != "" && r.value.password != ""
  {
    if Blank(input.email) || Blank(input.password) || |Trimmed(input.email)| > 255
       || |Trimmed(input.password)| > 128 || !emailSyntaxOk
    then Failure(LoginInvalid)
    else
      var email := CleanEmail(input.email.value);
      var password := Trimmed(input.password);
      if email == "" || password == "" then Failure(LoginInvalid)
      else Success(Credentials(email, password))
  }

  datatype ResetEmailError = ResetEmailInvalid

  /** SendPasswordResetEmailSerializer: a required address of at most 255
      characters once trimmed, cleaned, that passes the email syntax
      check. */
  function ValidateResetRequestEmail(value: Option<string>, emailSyntaxOk: bool)
    : (r: Result<string, ResetEmailError>)
    ensures r.Success? <==> !Blank(value) && |Trimmed(value)| <= 255 && emailSyntaxOk
    ensures r.Success? ==> r.value == CleanEmail(value.value) && IsLowerCase(r.value) && r.value != ""
  {
    if Blank(value) || |Trimmed(value)| > 255 || !emailSyntaxOk then Failure(ResetEmailInvalid)
    else Success(CleanEmail(value.value))
  }

  // ---------------------------------------------------------------------
  // UserPasswordResetSerializer

  datatype ResetPasswordError =
    | PasswordRequired | TooLong | TooShort | EntirelyNumeric | EntirelyAlphabetic
    | ConfirmRequired | ConfirmTooLong | PasswordsDontMatch

  /** The password field on its trimmed value: at most 128 and at least 8
      characters (the field's declared bounds and validate_password's first
      rule), not all digits and not all letters. */
  function ValidateResetPasswordField(value: string): (r: Result<string, ResetPasswordError>)
    ensures r.Success? <==>
      8 <= |value| <= 128 && !AllDigits(value) && !AllLetters(value)
    ensures r.Success? ==> r.value == value
    ensures |value| < 8 ==> r == Failure(TooShort)
  {
    if |value| > 128 then Failure(TooLong)
    else if |value| < 8 then Failure(TooShort)
    else if IsDigitString(value) then Failure(EntirelyNumeric)
    else if IsAlphaString(value) then Failure(EntirelyAlphabetic)
    else Success(value)
  }

  /** serializer.is_valid() for the reset form: both fields trimmed and
      checked, then the confirmation must equal the password. */
  function ValidateResetPassword(password: Option<string>, confirm: Option<string>)
    : (r: Result<string, ResetPasswordError>)
    ensures r.Success? <==>
      !Blank(password) && !Blank(confirm)
      && ValidateResetPasswordField(Trimmed(password)).Success?
      && |Trimmed(confirm)| <= 128 && Trimmed(password) == Trimmed(confirm)
    ensures r.Success? ==>
      r.value == Trimmed(password) && 8 <= |r.value| <= 128
      && !AllDigits(r.value) && !AllLetters(r.value)
    ensures Blank(password) ==> r == Failure(PasswordRequired)
  {
    if Blank(password) then Failure(PasswordRequired)
    else if Blank(confirm) then Failure(ConfirmRequired)
    else match ValidateResetPasswordField(Trimmed(password))
      case Failure(e) => Failure(e)
      case Success(p) =>
        if |Trimmed(confirm)| > 128 then Failure(ConfirmTooLong)
        else if p != Trimmed(confirm) then Failure(PasswordsDontMatch)
        else Success(p)
  }

  /** A password of letters only is refused, however long. */
  lemma LettersOnlyRefused(p: string)
    requires 8 <= |Strip(p)| <= 128 && AllLetters(Strip(p))
    ensures ValidateResetPassword(Some(p), Some(p)).Failure?
  {
  }

  /** A password of white space only is refused as missing, however long:
      trimming leaves nothing of it. */
  lemma SpacesOnlyPasswordRefused(p: string, confirm: Option<string>)
    requires forall i :: 0 <= i < |p| ==> IsSpace(p[i])
    ensures ValidateResetPassword(Some(p), confirm) == Failure(PasswordRequired)
  {
    StripOfBlank(p);
  }
}
