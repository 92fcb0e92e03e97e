/**
 * The contact-form serializer (field validators and the object-level
 * duplicate and name-repetition checks) and the bilingual read-only
 * serializers of contact methods and office locations.
 *
 * A field the client left out is `None`; the character fields are checked
 * on their values with surrounding white space stripped, as DRF does. The
 * address syntax check of the email field is given as a boolean. Arabic texts that are absent are
 * the empty string.
 */
module ContactSerializers {
  import opened Wrappers
  import opened Text

  // ---------------------------------------------------------------------
  // validate_full_name

  /** Letters, white space, '.', '-' and '\''. */
  predicate IsNameChar(c: char) {
    IsLetter(c) || IsSpace(c) || c == '.' || c == '-' || c == '\''
  }

  /** The name pattern: one or more allowed characters. */
  predicate NameCharsOk(s: string) {
    |s| > 0 && forall i :: 0 <= i < |s| ==> IsNameChar(s[i])
  }

  datatype NameError = NameBadCharacters | NameNotFull

  /** validate_full_name: white space collapsed, only allowed characters,
      at least two words, then title-cased: a letter is upper-cased when it
      starts a run of letters and lower-cased otherwise. */
  function ValidateFullName(value: string): (r: Result<string, NameError>)
    ensures r.Success? <==> NameCharsOk(CollapseSpaces(value)) && |Words(value)| >= 2
    ensures r.Failure? && !NameCharsOk(CollapseSpaces(value)) ==> r.error == NameBadCharacters
    ensures r.Success? ==>
      var c := CollapseSpaces(value);
      && |r.value| == |c|
      && (forall i :: 0 <= i < |c| ==>
            r.value[i] == (if i > 0 && IsLetter(c[i - 1]) then ToLowerChar(c[i]) else ToUpperChar(c[i])))
      && SameSpacing(c, r.value)
      && Lower(r.value) == Lower(c)
      && |Words(r.value)| >= 2
  {
    var collapsed := CollapseSpaces(value);
    CollapseKeepsWords(value);
    if !NameCharsOk(collapsed) then Failure(NameBadCharacters)
    else if |Words(collapsed)| < 2 then Failure(NameNotFull)
    else
      TitledName(collapsed);
      Success(Title(collapsed))
  }

  /** Title-casing keeps the spacing, hence the word count, and changes
      only the case of letters. */
  lemma TitledName(s: string)
    ensures SameSpacing(s, Title(s))
    ensures Lower(Title(s)) == Lower(s)
    ensures |Words(Title(s))| == |Words(s)|
  {
    WordCountSameSpacing(s, Title(s));
    LowerOfTitle(s);
  }

  /** Lower-casing keeps the spacing, hence the word count. */
  lemma LowerKeepsWordCount(s: string)
    ensures |Words(Lower(s))| == |Words(s)|
  {
    assert SameSpacing(s, Lower(s));
    WordCountSameSpacing(s, Lower(s));
  }

  /** An accepted full name has at least two words, also once
      lower-cased, so the name-repetition ratio is always defined. */
  lemma FullNameHasTwoWords(value: string)
    requires ValidateFullName(value).Success?
    ensures |Words(Lower(ValidateFullName(value).value))| >= 2
  {
    LowerKeepsWordCount(ValidateFullName(value).value);
  }

  // ---------------------------------------------------------------------
  // validate_email

  /** The domains the form refuses. */
  const DisposableDomains: seq<string> := [
    "tempmail.com", "throwaway.com", "fake.com", "guerrillamail.com",
    "mailinator.com", "yopmail.com", "temp-mail.org"
  ]

  /** value.split('@')[-1]: what follows the last '@', or the whole value. */
  function DomainPart(value: string): (d: string)
    ensures forall i :: 0 <= i < |d| ==> d[i] != '@'
    ensures d <= value || (|d| <= |value| && d == value[|value| - |d|..])
  {
    match LastIndexOf(value, '@')
    case None => value
    case Some(k) => value[k + 1..]
  }

  /** The domain of local@domain is domain when domain has no '@'. */
  lemma DomainOfAddress(local: string, domain: string)
    requires forall i :: 0 <= i < |domain| ==> domain[i] != '@'
    ensures DomainPart(local + "@" + domain) == domain
  {
    var a := local + "@" + domain;
    var k := LastIndexOf(a, '@');
    assert a[|local|] == '@';
    assert k.Some? && k.value == |local|;
    assert a[|local| + 1..] == domain;
  }

  datatype ContactEmailError = DisposableEmail

  /** validate_email: stripped and lower-cased, then refused iff its domain
      is exactly one of the disposable ones. */
  function ValidateContactEmail(value: string): (r: Result<string, ContactEmailError>)
    ensures r.Failure? <==> DomainPart(Lower(Strip(value))) in DisposableDomains
    ensures r.Success? ==> r.value == Lower(Strip(value)) && IsLowerCase(r.value)
  {
    var v := Lower(Strip(value));
    LowerIsLowerCase(Strip(value));
    if DomainPart(v) in DisposableDomains then Failure(DisposableEmail) else Success(v)
  }

  // ---------------------------------------------------------------------
  // phone_number: max_length 17 and the pattern ^\+?1?\d{9,15}$

  /** The pattern read literally: `plus` and `one` say whether the optional
      '+' and '1' are taken, the rest is 9 to 15 digits. */
  predicate PhonePatternSplit(s: string, plus: nat, one: nat) {
    && plus <= 1 && one <= 1 && plus + one <= |s|
    && (plus == 1 ==> s[0] == '+')
    && (one == 1 ==> s[plus] == '1')
    && AllDigits(s[plus + one..]) && 9 <= |s| - plus - one <= 15
  }

  /** The same pattern in closed form: after an optional leading '+', only
      digits, 9 to 15 of them, or 16 when the first is a '1'. */
  predicate ContactPhoneOk(s: string) {
    var t := if |s| > 0 && s[0] == '+' then s[1..] else s;
    AllDigits(t) && (9 <= |t| <= 15 || (|t| == 16 && t[0] == '1'))
  }

  lemma ContactPhoneOkIsPattern(s: string)
    ensures ContactPhoneOk(s) <==> exists plus, one :: PhonePatternSplit(s, plus, one)
  {
    var plus := if |s| > 0 && s[0] == '+' then 1 else 0;
    var t := s[plus..];
    if ContactPhoneOk(s) {
      if 9 <= |t| <= 15 {
        assert PhonePatternSplit(s, plus, 0);
      } else {
        assert PhonePatternSplit(s, plus, 1);
      }
    }
    if exists p, o :: PhonePatternSplit(s, p, o) {
      var p, o :| PhonePatternSplit(s, p, o);
      assert p == plus;
      if o == 1 {
        assert t == [s[plus]] + s[plus + 1..];
      }
    }
  }

  /** A phone that passes the pattern is never longer than 17, so the
      length limit adds nothing. */
  lemma PhonePatternWithinLength(s: string)
    requires ContactPhoneOk(s)
    ensures |s| <= 17
  {
  }

  // ---------------------------------------------------------------------
  // validate_service_type

  /** The keys of SERVICE_TYPES. */
  const ServiceTypes: seq<string> := ["residential", "commercial", "deep_clean", "move_in_out", "other"]

  // ---------------------------------------------------------------------
  // validate_message

  /** More than five words, and fewer distinct words than 30% of them. */
  predicate Repetitive(words: seq<string>) {
    |words| > 5 && 10 * |SetOf(words)| < 3 * |words|
  }

  datatype MessageError = MessageTooShort | MessageAllCaps | MessageRepetitive

  /** validate_message: stripped, at least 10 characters, not all upper
      case, not repetitive. */
  function ValidateMessage(value: string): (r: Result<string, MessageError>)
    ensures r.Success? <==>
      |Strip(value)| >= 10 && !IsUpperString(Strip(value)) && !Repetitive(Words(Strip(value)))
    ensures r.Success? ==> r.value == Strip(value)
    ensures |Strip(value)| < 10 ==> r == Failure(MessageTooShort)
  {
    var v := Strip(value);
    if |v| < 10 then Failure(MessageTooShort)
    else if IsUpperString(v) then Failure(MessageAllCaps)
    else if Repetitive(Words(v)) then Failure(MessageRepetitive)
    else Success(v)
  }

  /** A message whose words are all different is never repetitive. */
  lemma DistinctWordsNotRepetitive(words: seq<string>)
    requires forall i, j :: 0 <= i < j < |words| ==> words[i] != words[j]
    ensures !Repetitive(words)
  {
    DistinctCount(words);
  }

  /** Six copies of one word are repetitive. */
  lemma SixSameWordsRepetitive(w: string)
    ensures Repetitive([w, w, w, w, w, w])
  {
    var ws := [w, w, w, w, w, w];
    assert SetOf(ws) == {w};
  }

  // ---------------------------------------------------------------------
  // ContactSubmissionSerializer as a whole

  datatype SubmissionInput = SubmissionInput(
    fullName: Option<string>, email: Option<string>, phone: Option<string>,
    serviceType: Option<string>, message: Option<string>)

  /** The validated data. */
  datatype SubmissionData = SubmissionData(
    fullName: string, email: string, phone: string, serviceType: string, message: string)

  /** A stored submission; `createdAt` in seconds. */
  datatype Submission = Submission(
    fullName: string, phone: string, email: string, serviceType: string,
    message: string, isResolved: bool, createdAt: int)

  datatype ContactField = FullNameInput | EmailInput | PhoneInput | ServiceTypeInput | MessageInput

  datatype SubmissionErrors =
    | FieldErrors(fields: set<ContactField>)
    | DuplicateSubmission
    | MessageRepeatsName

  /** full_name: 2 to 200 characters once trimmed, then validate_full_name. */
  predicate FullNameOk(v: Option<string>) {
    !Blank(v) && 2 <= |Trimmed(v)| <= 200 && ValidateFullName(Trimmed(v)).Success?
  }

  predicate EmailOk(v: Option<string>, emailSyntaxOk: bool) {
    !Blank(v) && emailSyntaxOk && ValidateContactEmail(Trimmed(v)).Success?
  }

  /** phone_number: at most 17 characters once trimmed, and the pattern. */
  predicate PhoneOk(v: Option<string>) {
    !Blank(v) && |Trimmed(v)| <= 17 && ContactPhoneOk(Trimmed(v))
  }

  /** service_type is a choice field, which does not trim: the value must
      be one of the keys exactly. */
  predicate ServiceTypeOk(v: Option<string>) {
    v.Some? && v.value in ServiceTypes
  }

  /** message: 10 to 1000 characters once trimmed, then validate_message. */
  predicate MessageOk(v: Option<string>) {
    !Blank(v) && 10 <= |Trimmed(v)| <= 1000 && ValidateMessage(Trimmed(v)).Success?
  }

  /** The fields whose declared bounds or validator refuse them. */
  function SubmissionFieldErrors(input: SubmissionInput, emailSyntaxOk: bool): (errs: set<ContactField>)
    ensures errs == {} <==>
      FullNameOk(input.fullName) && EmailOk(input.email, emailSyntaxOk) && PhoneOk(input.phone)
      && ServiceTypeOk(input.serviceType) && MessageOk(input.message)
  {
    (if FullNameOk(input.fullName) then {} else {FullNameInput})
    + (if EmailOk(input.email, emailSyntaxOk) then {} else {EmailInput})
    + (if PhoneOk(input.phone) then {} else {PhoneInput})
    + (if ServiceTypeOk(input.serviceType) then {} else {ServiceTypeInput})
    + (if MessageOk(input.message) then {} else {MessageInput})
  }

  /** 24 hours, in seconds. */
  const DuplicateWindow: int := 24 * 60 * 60

  /** A stored submission counts as a duplicate of the new one: same
      email, made within the last 24 hours, and its message contains,
      ignoring case, the first 50 characters of the new message. */
  predicate IsRecentDuplicate(s: Submission, email: string, message: string, now: int) {
    s.email == email && s.createdAt >= now - DuplicateWindow && ContainsIgnoreCase(s.message, Take(message, 50))
  }

  predicate HasRecentDuplicate(log: seq<Submission>, email: string, message: string, now: int) {
    exists i | 0 <= i < |log| :: IsRecentDuplicate(log[i], email, message, now)
  }

  /** The lower-cased name occurs in the lower-cased message and more than
      70% of the name's words are words of the message. */
  predicate RepeatsName(name: string, message: string) {
    var nameWords := Words(Lower(name));
    var messageWords := Words(Lower(message));
    Contains(Lower(message), Lower(name))
    && 10 * |SetOf(nameWords) * SetOf(messageWords)| > 7 * |nameWords|
  }

  /** validate: the duplicate check, then the name check. The name has at
      least one word (it is a validated full name), so the ratio is
      defined. */
  function ValidateObject(log: seq<Submission>, data: SubmissionData, now: int)
    : (r: Result<SubmissionData, SubmissionErrors>)
    requires |Words(Lower(data.fullName))| >= 1
    ensures r.Success? <==>
      !HasRecentDuplicate(log, data.email, data.message, now) && !RepeatsName(data.fullName, data.message)
    ensures HasRecentDuplicate(log, data.email, data.message, now) ==> r == Failure(DuplicateSubmission)
    ensures r.Success? ==> r.value == data
  {
    if HasRecentDuplicate(log, data.email, data.message, now) then Failure(DuplicateSubmission)
    else if RepeatsName(data.fullName, data.message) then Failure(MessageRepeatsName)
    else Success(data)
  }

  /** serializer.is_valid(): the field checks, then validate on the
      validated values: the title-cased name, the cleaned address, and the
      trimmed phone number, service type and message. */
  function ValidateSubmission(log: seq<Submission>, input: SubmissionInput, emailSyntaxOk: bool, now: int)
    : (r: Result<SubmissionData, SubmissionErrors>)
    ensures SubmissionFieldErrors(input, emailSyntaxOk) != {} ==>
      r == Failure(FieldErrors(SubmissionFieldErrors(input, emailSyntaxOk)))
    ensures SubmissionFieldErrors(input, emailSyntaxOk) == {} ==>
      var data := SubmissionData(ValidateFullName(Trimmed(input.fullName)).value,
                                 Lower(Trimmed(input.email)), Trimmed(input.phone),
                                 input.serviceType.value, Trimmed(input.message));
      && (r.Success? <==>
            !HasRecentDuplicate(log, data.email, data.message, now)
            && !RepeatsName(data.fullName, data.message))
      && (r.Success? ==> r.value == data)
    ensures r.Success? ==>
      && SubmissionFieldErrors(input, emailSyntaxOk) == {}
      && |Words(r.value.fullName)| >= 2
      && ContactPhoneOk(r.value.phone) && r.value.serviceType in ServiceTypes
      && 10 <= |r.value.message| <= 1000
  {
    var errs := SubmissionFieldErrors(input, emailSyntaxOk);
    if errs != {} then Failure(FieldErrors(errs))
    else
      var data := ValidatedData(input, emailSyntaxOk);
      ValidateObject(log, data, now)
  }

  /** The values the field validators return when every field passed. */
  function ValidatedData(input: SubmissionInput, emailSyntaxOk: bool): (data: SubmissionData)
    requires SubmissionFieldErrors(input, emailSyntaxOk) == {}
    ensures data == SubmissionData(ValidateFullName(Trimmed(input.fullName)).value,
                                   Lower(Trimmed(input.email)), Trimmed(input.phone),
                                   input.serviceType.value, Trimmed(input.message))
    ensures |Words(data.fullName)| >= 2 && |Words(Lower(data.fullName))| >= 2
    ensures ContactPhoneOk(data.phone) && data.serviceType in ServiceTypes
    ensures 10 <= |data.message| <= 1000
  {
    FullNameHasTwoWords(Trimmed(input.fullName));
    TrimmedIsStripped(input.email);
    TrimmedIsStripped(input.message);
    SubmissionData(
      ValidateFullName(Trimmed(input.fullName)).value,
      ValidateContactEmail(Trimmed(input.email)).value,
      Trimmed(input.phone),
      input.serviceType.value,
      ValidateMessage(Trimmed(input.message)).value)
  }

  /** An unchanged resubmission within the day is refused. */
  lemma ResubmissionRefused(log: seq<Submission>, data: SubmissionData, now: int, i: nat)
    requires |Words(Lower(data.fullName))| >= 1
    requires i < |log| && log[i].email == data.email && log[i].message == data.message
    requires now - DuplicateWindow <= log[i].createdAt
    ensures ValidateObject(log, data, now) == Failure(DuplicateSubmission)
  {
    var m := Lower(data.message);
    var p := Lower(Take(data.message, 50));
    assert p == m[..|p|];
    assert OccursAt(m, p, 0);
    assert IsRecentDuplicate(log[i], data.email, data.message, now);
  }

  // ---------------------------------------------------------------------
  // Language and bilingual display

  datatype Lang = En | Ar

  /** What the serializers read from a request: the `lang` query parameter
      and the Accept-Language header, "" when absent. */
  datatype Request = Request(langParam: string, acceptLanguage: string)

  /** _get_language and get_current_language: an explicit `ar`/`en` (any
      case) wins, then an Accept-Language containing "ar", then English. */
  function ResolveLanguage(req: Option<Request>): (lang: Lang)
    ensures req.None? ==> lang == En
    ensures req.Some? && Lower(req.value.langParam) == "ar" ==> lang == Ar
    ensures req.Some? && Lower(req.value.langParam) == "en" ==> lang == En
    ensures req.Some? && Lower(req.value.langParam) != "ar" && Lower(req.value.langParam) != "en" ==>
      (lang == Ar <==> Contains(Lower(req.value.acceptLanguage), "ar"))
  {
    match req
    case None => En
    case Some(r) =>
      var l := Lower(r.langParam);
      if l == "ar" then Ar
      else if l == "en" then En
      else if Contains(Lower(r.acceptLanguage), "ar") then Ar
      else En
  }

  /** The query parameter overrides the header in both directions. */
  lemma ParamOverridesHeader(accept: string)
    ensures ResolveLanguage(Some(Request("EN", accept))) == En
    ensures ResolveLanguage(Some(Request("Ar", accept))) == Ar
  {
    assert Lower("EN") == "en";
    assert Lower("Ar") == "ar";
  }

  /** The Arabic text when Arabic is asked for and the Arabic text is not
      empty, otherwise the English one. */
  function Display(lang: Lang, en: string, ar: string): (r: string)
    ensures r == ar || r == en
    ensures lang == En ==> r == en
    ensures lang == Ar && ar != "" ==> r == ar
    ensures r != en ==> lang == Ar && ar != ""
  {
    if lang == Ar && ar != "" then ar else en
  }

  datatype MethodType = PhoneMethod | WhatsappMethod | EmailMethod

  datatype ContactMethod = ContactMethod(
    id: nat, icon: Option<string>, methodType: MethodType,
    title: string, titleAr: string, description: string, descriptionAr: string,
    value: string, actionText: Option<string>, actionTextAr: string,
    isActive: bool, order: nat)

  datatype ContactMethodView = ContactMethodView(
    id: nat, icon: Option<string>, methodType: MethodType,
    titleDisplay: string, descriptionDisplay: string, value: string,
    actionTextDisplay: string, isActive: bool, order: nat)

  /** ContactMethodSerializer: the display texts in the resolved language,
      the action text falling back to "" when the English one is null. */
  function SerializeMethod(lang: Lang, m: ContactMethod): (v: ContactMethodView)
    ensures v.id == m.id && v.methodType == m.methodType && v.value == m.value
    ensures v.isActive == m.isActive && v.order == m.order && v.icon == m.icon
    ensures v.titleDisplay == Display(lang, m.title, m.titleAr)
    ensures v.descriptionDisplay == Display(lang, m.description, m.descriptionAr)
    ensures v.actionTextDisplay == Display(lang, m.actionText.GetOr(""), m.actionTextAr)
  {
    ContactMethodView(
      m.id, m.icon, m.methodType,
      Display(lang, m.title, m.titleAr),
      Display(lang, m.description, m.descriptionAr),
      m.value,
      if lang == Ar && m.actionTextAr != "" then m.actionTextAr else m.actionText.GetOr(""),
      m.isActive, m.order)
  }

  datatype OfficeLocation = OfficeLocation(
    id: nat, icon: Option<string>,
    title: string, titleAr: string, description: string, descriptionAr: string,
    officeName: string, officeNameAr: string, officeAddress: string, officeAddressAr: string,
    hoursName: string, hoursNameAr: string, hoursWeekdays: string, hoursWeekdaysAr: string,
    mapsLink: Option<string>, isPrimary: bool)

  datatype OfficeLocationView = OfficeLocationView(
    id: nat, icon: Option<string>,
    titleDisplay: string, descriptionDisplay: string,
    officeNameDisplay: string, officeAddressDisplay: string,
    hoursNameDisplay: string, hoursWeekdaysDisplay: string,
    fullAddress: string, mapsLink: Option<string>, isPrimary: bool)

  /** get_full_address: name and address joined by ", ", in Arabic from the
      Arabic fields with no fallback to English. */
  function FullAddress(lang: Lang, o: OfficeLocation): (r: string)
    ensures lang == En ==> r == o.officeName + ", " + o.officeAddress
    ensures lang == Ar ==> r == o.officeNameAr + ", " + o.officeAddressAr
  {
    if lang == Ar then o.officeNameAr + ", " + o.officeAddressAr
    else o.officeName + ", " + o.officeAddress
  }

  /** OfficeLocationSerializer. */
  function SerializeLocation(lang: Lang, o: OfficeLocation): (v: OfficeLocationView)
    ensures v.id == o.id && v.icon == o.icon && v.mapsLink == o.mapsLink && v.isPrimary == o.isPrimary
    ensures v.titleDisplay == Display(lang, o.title, o.titleAr)
    ensures v.descriptionDisplay == Display(lang, o.description, o.descriptionAr)
    ensures v.officeNameDisplay == Display(lang, o.officeName, o.officeNameAr)
    ensures v.officeAddressDisplay == Display(lang, o.officeAddress, o.officeAddressAr)
    ensures v.hoursNameDisplay == Display(lang, o.hoursName, o.hoursNameAr)
    ensures v.hoursWeekdaysDisplay == Display(lang, o.hoursWeekdays, o.hoursWeekdaysAr)
    ensures v.fullAddress == FullAddress(lang, o)
  {
    OfficeLocationView(
      o.id, o.icon,
      Display(lang, o.title, o.titleAr),
      Display(lang, o.description, o.descriptionAr),
      Display(lang, o.officeName, o.officeNameAr),
      Display(lang, o.officeAddress, o.officeAddressAr),
      Display(lang, o.hoursName, o.hoursNameAr),
      Display(lang, o.hoursWeekdays, o.hoursWeekdaysAr),
      FullAddress(lang, o), o.mapsLink, o.isPrimary)
  }

  /** With the Arabic office texts missing, the Arabic view still shows the
      English office name but a full address of just ", ". */
  lemma ArabicAddressHasNoFallback(o: OfficeLocation)
    requires o.officeNameAr == "" && o.officeAddressAr == ""
    ensures SerializeLocation(Ar, o).officeNameDisplay == o.officeName
    ensures SerializeLocation(Ar, o).fullAddress == ", "
  {
  }
}
