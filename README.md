# Bright Scope backend — a Dafny model

Bright Scope is the Django/DRF backend of a cleaning and pest-control
company in the UAE. This project models its decision logic in Dafny and
proves properties of that model:

- **accounts**: registration with the UAE phone check and a
  case-insensitive duplicate-email check, login, and the two-step password
  reset, all over a table of users;
- **contact form**: name, email, phone and message validators, the 24-hour
  duplicate check and the name-repetition check, plus the bilingual
  contact-information endpoint;
- **service catalogue and bookings**: active-service filtering, booking
  pricing (package price plus the listed active addons), and the
  newest-first booking list with its email filter;
- **payments**: a table keyed by the gateway's transaction reference,
  updated at creation and by the gateway callback;
- **features**: automatic display order on save;
- **site settings**: the contact-information record, created on first read,
  and the newsletter subscription.

Database tables are `seq` fields of classes (`UserTable`, `SubmissionLog`,
`BookingStore`, `PaymentTable`, `FeatureTable`, `ContactInfoTable`,
`SubscriberTable`). Their methods state the whole new table. Validators,
filters and serializers are functions with named results. Each endpoint
returns a datatype of its possible answers, and `Status()` gives the HTTP
code.

Some outside answers become parameters of the operations:

- the email-syntax and Django password validators;
- `authenticate`;
- reset-link decoding and token checking;
- `send_mail`;
- the PayTabs gateway;
- DRF's field checks;
- the clock.

Text is ASCII. White space is Python's `isspace` set. `Strip`, `Lower`,
`Words`, `Title` and the other text helpers follow Python's `str` methods
on that alphabet. Prices are integers in minor units. Times are integer
seconds.

DRF strips the white space around every `CharField` and `EmailField`
value before its blank check, its length bounds and its validators. The
model does the same with `Trimmed` and `Blank`. Choice fields are not
stripped. The registration view's own required-field check reads the raw
values.

The registration serializer inherits the `User.phone` options: the pattern
`^\+971[5]\d{8}$` and at most 15 characters. That check runs before
`validate_phone`, so only the canonical `+9715XXXXXXXX` form reaches the
normaliser. The other three shapes it rewrites are refused first
(`AccountSerializers.LocalFormRefusedAtRegistration`).

Modules:

| file | module |
|---|---|
| wrappers.dfy | `Wrappers`: `Option`, `Result` |
| text.dfy | `Text`: Python string operations on ASCII |
| tables.dfy | `Tables`: `filter(...).first()`, `filter`, `order_by` |
| account_models.dfy | `AccountModels` |
| account_serializers.dfy | `AccountSerializers` |
| account_views.dfy | `AccountViews` |
| contact_serializers.dfy | `ContactSerializers` |
| contact_views.dfy | `ContactViews` |
| service_serializers.dfy | `ServiceSerializers` |
| service_views.dfy | `ServiceViews` |
| payments.dfy | `Payments` |
| features.dfy | `Features` |
| site_settings.dfy | `SiteSettings` |

## Model

| member | source | states |
|---|---|---|
| AccountModels.User.HasPerm | apps/account/models.py:85-87 | any permission is granted exactly when the user is an admin |
| AccountModels.User.HasModulePerms | apps/account/models.py:89-91 | every application is visible to every user |
| AccountModels.NewUser | apps/account/models.py:21-28 | the new user has the normalized email, the given name and phone, a hashed or unusable password, no last login; it is active, not admin, not staff and not superuser unless the caller says otherwise |
| AccountModels.SetDefault | apps/account/models.py:36-39 | a flag left out becomes True; a supplied flag is kept |
| AccountModels.SuperuserFields | apps/account/models.py:36-46 | accepted iff none of is_admin, is_staff, is_superuser was supplied as False; otherwise the first refused flag in that order is named; on success all three are True and is_active keeps the caller's value (default True) |
| AccountModels.NormalizeClean | apps/account/models.py:22 | an address without surrounding white space and without upper case is its own normal form |
| AccountModels.NormalizeLowerStripped | apps/account/models.py:22 | normalize_email leaves a stripped, lower-cased address unchanged |
| AccountModels.NormalizeLowered | apps/account/models.py:22 | for an address containing '@', normalize_email of its lower-cased form is its stripped lower-cased form |
| AccountModels.UserByEmail | apps/account/views.py:213-214 | finds a row with exactly that email, and finds none iff no user has it |
| AccountModels.UserById | apps/account/views.py:289-290 | finds a row with that primary key, and finds none iff no user has it |
| AccountModels.UserTable.CreateUser | apps/account/models.py:8-30 | an empty email, name or phone is refused, checked in that order; otherwise it succeeds iff neither the normalized email nor the phone is stored; success appends exactly NewUser with a fresh id; failure changes nothing; email, phone and id stay unique |
| AccountModels.UserTable.CreateSuperuser | apps/account/models.py:32-48 | a refused flag fails before anything is stored; it succeeds iff the flags are accepted and create_user's conditions hold (non-empty email, name and phone, neither the normalized email nor the phone stored); the created user is exactly NewUser with the prepared flags and a fresh id, so admin, staff and superuser, and is appended to the table |
| AccountModels.UserTable.RecordLogin | apps/account/views.py:151-152 | only that user's last_login changes, to `now` |
| AccountModels.UserTable.SetPassword | apps/account/views.py:308-309 | only that user's password changes |
| AccountSerializers.RemovePhoneNoise | apps/account/serializers.py:71 | the result is no longer than the input and holds no white space, '-', '(', ')' or '+' |
| AccountSerializers.RemoveNoiseOfClean | apps/account/serializers.py:71 | cleaning a string with nothing to remove returns it unchanged |
| AccountSerializers.RemoveNoiseIdempotent | apps/account/serializers.py:71 | cleaning twice is cleaning once |
| AccountSerializers.PatternIsShape | apps/account/serializers.py:74-82 | the four anchored patterns match exactly the strings 9715d, 05d, 5d and 009715d for eight digits d |
| AccountSerializers.ValidatePhoneFormat | apps/account/serializers.py:71-100 | accepted iff the cleaned input has one of the four shapes; the result is +9715 followed by the last eight digits of the cleaned input; a refusal is InvalidUaePhone |
| AccountSerializers.RewriteIsCanonical | apps/account/serializers.py:90-100 | on any accepted shape, the rewriting chain yields "+9715" followed by the eight digits, a canonical number |
| AccountSerializers.RewriteLocal | apps/account/serializers.py:91-92 | 05d is rewritten to +9715d |
| AccountSerializers.RewriteShort | apps/account/serializers.py:93-94 | 5d is rewritten to +9715d |
| AccountSerializers.RewriteZeroZero | apps/account/serializers.py:95-96 | 009715d is rewritten to +9715d |
| AccountSerializers.RewriteInternational | apps/account/serializers.py:99-100 | 9715d only gains the '+' and becomes +9715d |
| AccountSerializers.SameDigitsSameNumber | apps/account/serializers.py:91-96 | the four shapes carrying the same eight digits normalise to the same number |
| AccountSerializers.CanonicalIsFixedPoint | apps/account/serializers.py:71-100 | a canonical +9715XXXXXXXX number is returned unchanged |
| AccountSerializers.NormaliseIdempotent | apps/account/serializers.py:71-100 | normalising a normalised number changes nothing |
| AccountSerializers.NoiseIsIgnored | apps/account/serializers.py:71 | separators in the input do not change the outcome |
| AccountSerializers.ValidatePhone | apps/account/serializers.py:66-106 | accepted iff the format is accepted and no user holds the normalised number; a well-formed but stored number is refused as PhoneTaken |
| AccountSerializers.TakenInEveryShape | apps/account/serializers.py:103-104 | once +9715d is stored, every shape of d is refused as taken |
| AccountSerializers.ValidateRegistrationEmail | apps/account/serializers.py:56-63 | refused iff some stored email equals it ignoring case; otherwise the lower-cased value, which is not stored exactly |
| AccountSerializers.ValidatePasswordsMatch | apps/account/serializers.py:108-119 | refused iff password differs from password2; on success password2 is removed and every other attribute is kept |
| AccountSerializers.RegistrationFieldErrors | apps/account/serializers.py:13-106 | for each field, no error iff its trimmed value passes: email non-blank, at most 255 characters, with '@', syntactically valid and not stored ignoring case; name non-blank and at most 200; phone in the canonical +9715XXXXXXXX form the User model's pattern demands and not stored; password 8 to 128 characters and accepted by Django's validators; password2 at least 8 |
| AccountSerializers.RegEmailOk | apps/account/serializers.py:56-63 | the email field passes iff its trimmed value is non-blank, within 255 characters, has an '@', passes the syntax check and is not stored ignoring case |
| AccountSerializers.RegPhoneOk | apps/account/models.py:54-70 | the phone field passes iff its trimmed value matches the model's ^\+9715\d{8}$ pattern and is not stored |
| AccountSerializers.CanonicalPhoneAccepted | apps/account/serializers.py:66-106 | validate_phone accepts a canonical number iff it is not stored, and then returns it unchanged |
| AccountSerializers.LocalFormRefusedAtRegistration | apps/account/models.py:54-57 | a phone written 05XXXXXXXX is refused at registration by the model's pattern, although validate_phone alone would normalise it to +9715XXXXXXXX |
| AccountSerializers.ValidateRegistration | apps/account/serializers.py:13-119 | succeeds iff no field has an error and the trimmed passwords are equal; field errors are reported as they are; the data then holds the cleaned (stripped, lower-cased) email, the trimmed non-empty name, the trimmed phone, which is canonical and unused, and the trimmed confirmed password of 8 to 128 characters |
| AccountSerializers.PopConfirmation | apps/account/serializers.py:108-119 | succeeds iff the passwords are equal, and then holds email, name, phone and password without the confirmation |
| AccountSerializers.CleanEmail | apps/account/serializers.py:142 | the result is lower case, has no white space at either end, and is as long as the stripped input |
| AccountSerializers.CleanEmailIdempotent | apps/account/serializers.py:142 | cleaning a cleaned address changes nothing |
| AccountSerializers.ValidateLogin | apps/account/serializers.py:128-162 | accepted iff both fields are non-blank once trimmed, within 255/128 characters once trimmed, and the email passes the syntax check; the credentials are the cleaned email and the trimmed password, both non-empty |
| AccountSerializers.ValidateResetRequestEmail | apps/account/serializers.py:189-199 | accepted iff non-blank, at most 255 characters once trimmed and syntactically valid; the result is the cleaned, non-empty address |
| AccountSerializers.ValidateResetPasswordField | apps/account/serializers.py:203-231 | on the trimmed password: accepted iff 8 to 128 characters, not all digits and not all letters; a password under 8 characters is refused as TooShort |
| AccountSerializers.ValidateResetPassword | apps/account/serializers.py:202-242 | accepted iff both fields are non-blank once trimmed, the trimmed password passes the field rules and the trimmed confirmation is equal and within 128 characters; the result is the trimmed password; a blank password is PasswordRequired |
| AccountSerializers.LettersOnlyRefused | apps/account/serializers.py:228-229 | a password whose trimmed value is made only of letters is refused whatever its length |
| AccountSerializers.SpacesOnlyPasswordRefused | apps/account/serializers.py:203-215 | a password of white space only, of any length, is refused as missing |
| AccountViews.FirstMissingField | apps/account/views.py:61-67 | finds no field iff email, password, name and phone are all present and non-empty; otherwise the first missing one in that order |
| AccountViews.Register | apps/account/views.py:54-119 | a missing or empty field, or an exactly stored cleaned email, is a 400 before validation; the user is registered iff those pass and the serializer accepts; the new user is NewUser of the validated data with last_login = now, active, not admin, with the cleaned email and a canonical phone, appended with a fresh id; any 400 changes nothing; no modelled input reaches the 500 branch |
| AccountViews.SaveRegistration | apps/account/views.py:79-88 | for validated data create_user cannot refuse: the stored email is the cleaned address, and the appended user has last_login set |
| AccountViews.Login | apps/account/views.py:125-198 | 400 when the serializer refuses, 401 when authentication fails, 403 iff the authenticated user is inactive; logged in iff valid, authenticated and active; only a successful login changes the table, and only that user's last_login |
| AccountViews.ModelBackendAuthenticate | brightscope/settings.py:167-169 | the configured backend returns only an active user with that exact email and password, and returns none for a stored email whose password differs or whose account is inactive |
| AccountViews.ResetRequest | apps/account/views.py:204-269 | an invalid address is a 500; a valid unknown address answers 200 without mail; a valid known address answers 200 with the link sent to that user when the mail goes out |
| AccountViews.ResetRequestHidesAccounts | apps/account/views.py:213-262 | for a valid request whose mail is sent, known and unknown addresses both answer 200 |
| AccountViews.ApplyReset | apps/account/views.py:287-320 | an undecodable uid or unknown user is a 400, a bad token a 400, both without change; otherwise only that user's password is replaced |
| AccountViews.ResetConfirmAsWritten | apps/account/views.py:275-327 | a refused password answers 500 and changes nothing; the password is reset iff the passwords are valid, the user exists and the token is good, and then only that user's password changes, to the trimmed password; any other answer changes nothing |
| AccountViews.ResetConfirm | apps/account/views.py:275-327 | never 500: a refused password is a 400 naming the broken rule; the password is replaced iff the passwords are valid, the user exists and the token is good, and only that user's, by the trimmed password |
| AccountViews.LettersOnlyPasswordIsRefused | apps/account/views.py:282 | "password" typed twice is refused as entirely alphabetic, so the view as written answers 500 for it |
| ContactSerializers.ValidateFullName | apps/contact_us/serializers.py:53-76 | accepted iff the collapsed name has only letters, white space, '.', '-', '\'' and at least two words; the result is the collapsed name title-cased: each letter upper-cased when it starts a run of letters and lower-cased otherwise, other characters kept; it has at least two words |
| ContactSerializers.TitledName | apps/contact_us/serializers.py:74 | title-casing keeps the spacing and the word count and changes only letter case |
| ContactSerializers.LowerKeepsWordCount | apps/contact_us/serializers.py:180-185 | lower-casing keeps the number of words |
| ContactSerializers.FullNameHasTwoWords | apps/contact_us/serializers.py:66-71 | an accepted name has at least two words once lower-cased, so the name ratio never divides by zero |
| ContactSerializers.DomainPart | apps/contact_us/serializers.py:116 | the domain has no '@' and is a suffix of the address |
| ContactSerializers.DomainOfAddress | apps/contact_us/serializers.py:116 | the domain of local@domain is domain |
| ContactSerializers.ValidateContactEmail | apps/contact_us/serializers.py:104-122 | refused iff the domain of the stripped, lower-cased address is one of the seven disposable domains; otherwise that cleaned address |
| ContactSerializers.ContactPhoneOkIsPattern | apps/contact_us/serializers.py:32 | the closed form agrees with the pattern: optional '+', optional '1', then 9 to 15 digits |
| ContactSerializers.PhonePatternWithinLength | apps/contact_us/serializers.py:28-36 | a phone that matches the pattern is at most 17 characters long |
| ContactSerializers.ValidateMessage | apps/contact_us/serializers.py:135-160 | accepted iff the stripped message has at least 10 characters, is not all upper case and is not repetitive; the result is the stripped message |
| ContactSerializers.DistinctWordsNotRepetitive | apps/contact_us/serializers.py:154-158 | a message whose words all differ is never repetitive |
| ContactSerializers.SixSameWordsRepetitive | apps/contact_us/serializers.py:155 | six copies of one word are repetitive |
| ContactSerializers.SubmissionFieldErrors | apps/contact_us/serializers.py:8-160 | no field error iff each field passes on its trimmed value: a name of 2 to 200 characters that validate_full_name accepts, a valid non-disposable email, a phone within 17 characters matching the pattern, one of the service-type keys exactly, and a message of 10 to 1000 characters that validate_message accepts |
| ContactSerializers.ValidateObject | apps/contact_us/serializers.py:162-190 | accepted iff there is no recent duplicate and the message does not repeat the name; a recent duplicate is reported first |
| ContactSerializers.ValidateSubmission | apps/contact_us/serializers.py:8-190 | field errors are reported as they are; when every field passes, it succeeds iff there is no recent duplicate and no name repetition for the validated data (title-cased name, cleaned email, trimmed phone, service type, trimmed message), and then returns exactly that data |
| ContactSerializers.ValidatedData | apps/contact_us/serializers.py:53-160 | the values the field validators return: title-cased name with at least two words, cleaned email, trimmed phone matching the pattern, the service-type key, and the trimmed message of 10 to 1000 characters |
| ContactSerializers.ResubmissionRefused | apps/contact_us/serializers.py:166-177 | the same email and message, stored within 24 hours, is refused as a duplicate |
| ContactSerializers.ResolveLanguage | apps/contact_us/serializers.py:238-252 | no request gives English; a lang parameter of ar or en in any case decides; otherwise Arabic iff the Accept-Language header contains "ar" |
| ContactSerializers.ParamOverridesHeader | apps/contact_us/serializers.py:242-245 | the lang parameter wins over the header in both directions |
| ContactSerializers.Display | apps/contact_us/serializers.py:224-230 | English in English; Arabic when Arabic is asked for and the Arabic text is not empty; the English text in every other case |
| ContactSerializers.SerializeMethod | apps/contact_us/serializers.py:205-236 | the plain fields are copied; each display text is chosen by Display; the action text falls back to "" |
| ContactSerializers.FullAddress | apps/contact_us/serializers.py:303-308 | name and address joined by ", ", from the Arabic fields in Arabic and the English ones otherwise |
| ContactSerializers.SerializeLocation | apps/contact_us/serializers.py:254-308 | the plain fields are copied; six display texts are chosen by Display; the full address is FullAddress |
| ContactSerializers.ArabicAddressHasNoFallback | apps/contact_us/serializers.py:303-306 | with the Arabic office texts empty, the Arabic name falls back to English but the full address is just ", " |
| ContactViews.Stored | apps/contact_us/views.py:15-17 | the stored row carries the validated fields, is unresolved, and is stamped with the request time |
| ContactViews.SubmissionLog.Post | apps/contact_us/views.py:12-27 | rejected iff validation fails, with its errors and without storing; otherwise exactly one row is appended and returned with 201 |
| ContactViews.RepostWithinDayRefused | apps/contact_us/serializers.py:166-177 | posting an accepted form again within 24 hours is refused as a duplicate |
| ContactViews.MethodRank | apps/contact_us/models.py:46 | each method type has one of three ranks |
| ContactViews.MethodKeyIsLexicographic | apps/contact_us/models.py:46 | comparing keys compares by order, then by method type |
| ContactViews.ActiveMethodsInOrder | apps/contact_us/views.py:31 | exactly the active methods, each as often as in the table, sorted by (order, method type); every one is active |
| ContactViews.RenderMethods | apps/contact_us/views.py:35-43 | each method rendered in its place, and the rendered list still sorted by (order, method type) |
| ContactViews.ContactInfoGet | apps/contact_us/views.py:31-43 | the resolved language; every location rendered in it, in table order; the active methods in display order rendered in it |
| ContactViews.ShownIffActive | apps/contact_us/views.py:33 | a stored method is shown iff it is active |
| ServiceSerializers.SelectedAddons | apps/service/serializers.py:79 | exactly the active addons whose id is listed; none for an empty list |
| ServiceSerializers.IdsOf | apps/service/serializers.py:92-93 | the set of ids of the given addons |
| ServiceSerializers.SelectionDependsOnActiveIds | apps/service/serializers.py:79 | two id lists that agree on the active addons select the same addons, the empty list included |
| ServiceSerializers.NothingListedNothingSelected | apps/service/serializers.py:79 | a list naming no active addon selects what the empty-list branch does: nothing |
| ServiceSerializers.RepeatedIdCountsOnce | apps/service/serializers.py:79 | listing an id again changes neither the selection nor the price |
| ServiceSerializers.InactiveOrMissingIdAddsNothing | apps/service/serializers.py:79 | an id of a missing or inactive addon adds nothing, even to an empty list |
| ServiceSerializers.ListedActiveAddonAttached | apps/service/serializers.py:79-93 | every listed active addon is attached, even one of another service |
| ServiceSerializers.NoAddonsPackagePrice | apps/service/serializers.py:79-83 | with no addons listed the total is the package price |
| ServiceSerializers.BookingStore.CreateBooking | apps/service/serializers.py:74-95 | the new booking has total = package price + the selected addons' prices, the selected addons attached, status pending, the request's fields and a fresh id, and is appended |
| ServiceViews.ServiceList | apps/service/views.py:16-24 | exactly the active services, restricted to the given type when a non-empty one is given |
| ServiceViews.ServiceDetail | apps/service/views.py:30-33 | found iff a service with that id is active; the found one is stored, active and has that id |
| ServiceViews.IexactIsIcontains | apps/service/views.py:50-54 | the iexact-or-icontains filter keeps exactly the bookings whose email contains the parameter, ignoring case |
| ServiceViews.BookingList | apps/service/views.py:38-57 | 401 iff not signed in; otherwise the bookings newest first, restricted to emails containing the non-empty parameter ignoring case, each kept booking appearing exactly as often as in the table |
| ServiceViews.KeepListed | apps/service/views.py:50-54 | on sorted rows, keeps exactly the listed ones, as often as they occur, still sorted |
| ServiceViews.BookingPost | apps/service/views.py:60-67 | 201 iff the request is valid; a valid request appends one booking with a fresh id, created at `now`, carrying the request's service, package and customer fields, priced as CreateBooking, pending; a 400 changes nothing |
| Payments.PaymentByRef | apps/payments/views.py:56 | finds a payment holding the reference, and none iff no payment holds it |
| Payments.CallbackStatus | apps/payments/views.py:60-63 | SUCCESS iff response_status is exactly "A", FAILED otherwise, never INITIATED |
| Payments.CallbackTargetIsUnique | apps/payments/models.py:11 | the payment a callback updates is the only one holding that reference |
| Payments.PaymentTable.Create | apps/payments/views.py:16-40 | 400 iff the amount is not positive or the serializer refuses, with nothing stored; otherwise exactly one payment is appended with status INITIATED and currency defaulting to AED; a gateway error marks it FAILED (502); a new tran_ref is recorded and answered as INITIATED; an already-used tran_ref ends in 500 with the row left without reference |
| Payments.PaymentTable.Callback | apps/payments/views.py:47-67 | a missing or empty tran_ref is a 400 and an unknown one a 404, both without change; otherwise only the payment holding it changes, to CallbackStatus, whatever its previous status |
| Features.MaxOrder | apps/feature/models.py:22 | none iff no row has an order; otherwise at least every stored order and equal to one of them |
| Features.NextOrder | apps/feature/models.py:21-23 | at least 1 and greater than every stored order |
| Features.FirstOrderIsOne | apps/feature/models.py:22 | with no order stored or none above 0, the automatic order is 1 |
| Features.FeatureList | apps/feature/models.py:17-18 | the same features, sorted by ascending order |
| Features.FeatureTable.Save | apps/feature/models.py:20-24 | a given order is kept even if another row has it; a missing one becomes NextOrder of the table before the save; the row with that id is replaced, or the feature appended, and no other row changes |
| SiteSettings.DefaultContactInfo | apps/settings/models.py:6-31 | the record created with every model default: company name, phone numbers, address, the three opening-hours texts, emergency service on, blank social links |
| SiteSettings.WorkingHours | apps/settings/serializers.py:15-21 | exactly the keys monday_friday, saturday and sunday, mapped to the three stored hour texts |
| SiteSettings.Serialize | apps/settings/serializers.py:5-21 | the record together with its working hours |
| SiteSettings.NewestIndex | apps/settings/views.py:21 | a row with the latest creation time, and the first such in table order |
| SiteSettings.ContactInfoTable.List | apps/settings/views.py:13-34 | a fault is a 500 without change; an empty table gets exactly one default record, which is returned; otherwise the newest record is returned and nothing is created; after a 200 the table is not empty |
| SiteSettings.SubscriberIndex | apps/settings/serializers.py:49-51 | finds a row with that email, and none iff no row has it |
| SiteSettings.SubscriberTable.GetOrCreate | apps/settings/serializers.py:47-52 | a stored email returns its row and inserts nothing; a new one appends exactly one row with that email; the returned email is the input; emails stay unique |
| SiteSettings.SubscriberTable.Subscribe | apps/settings/views.py:36-57 | 400 when the serializer refuses, 500 on a fault, both without change; otherwise 201 with the email, and the table is unchanged if the email was stored, else it gains exactly one row with that email, a fresh id and `now` |

## Left out

- The answers of library and framework code are inputs, not computed:
  - the JWT tokens;
  - `authenticate`, except that `AccountViews.ModelBackendAuthenticate` states what the configured backend answers;
  - password hashing, modelled as recording the raw password;
  - `PasswordResetTokenGenerator` and base64 decoding of the reset link;
  - `send_mail`;
  - the PayTabs HTTP client;
  - Django's email-syntax and password validators.
- Log lines, message wording, and the exact shapes of response bodies and output serializers.
- Timestamps other than the creation times the checks use, such as `updated_at`.
- Concurrency: concurrent requests and racing gateway callbacks.
- Field limits are modelled where the validation that reads them is: the registration bounds inherited from the User model, the login, reset and contact-form bounds.
- The `User.phone` pattern is checked where the registration serializer inherits it. Django does not run it on save, so `CreateUser` and `CreateSuperuser` do not enforce it, and it is not a table invariant.
- AccountModels.UserTable.CreateSuperuser: the flags are `Option<bool>`. The source's `is not True` also refuses a supplied non-boolean value, such as 1; the model has no such value.
- AccountViews.Register: a JSON null (or any non-string) email makes `.strip()` raise before the view's `try`, an uncaught error (500). The model's fields are missing or strings, and a missing email is the 400 for a required field.
- AccountViews.Login: the catch-all 500 answer is not modelled; a JSON null email reaches it in the source, by the same `.strip()`. The model's fields are missing or strings, and no step of the model raises.
- AccountViews.ResetRequest: a refused address answers 500 because the serializer raises inside the catch-all. The model keeps that behaviour as the code has it.
- ContactSerializers.Repetitive: the source compares with the float product `len(words) * 0.3`; the model uses the integer comparison `10 * distinct < 3 * words`. The two agree for every word count a 1000-character message can have.
- ContactSerializers.IsNameChar: `\s`, `isupper`, `isalpha`, `isdigit` and `title()` are restricted to ASCII. Python's Unicode classes are not modelled.
- ContactSerializers.Display: the contact-method and office-location models in the repository have no `_ar` fields. The serializers read them anyway, and the model gives every record both variants, with `""` for a missing Arabic text. In the repository as it stands, an Arabic request with at least one active method or location therefore raises AttributeError (apps/contact_us/serializers.py:226, 281), and ContactInfoView (apps/contact_us/views.py:42-43) does not catch it, so the answer is 500.
- ServiceViews.ServiceDetail: the nested features, packages and addons it renders are not modelled.
- ServiceViews.BookingPost: the serializer's field checks are the `fieldsOk` input, except the checks that the service and package exist. The package is not checked against the service, as in the source.
- Payments.PaymentTable.Callback: a `payment_result` that is not an object makes the source raise (500). The model takes `response_status` as given.
- Features.FeatureTable.Save: the feature comes with its primary key. The database's choice of a fresh id on insert is not modelled.
- Features.FeatureList: where NULL orders sort depends on the database: SQLite, used when ENVIRONMENT is "local", puts them first, and PostgreSQL, used otherwise, puts them last. The model follows SQLite.
- SiteSettings.NewestIndex: rows with equal creation times are ordered by table position. The database leaves that order open.
- SiteSettings.SubscriberTable.Subscribe: DRF's unique-field validator on the email is part of the `valid` input. It makes the same exact lookup as get-or-create, so a stored address always answers 400; the 201 with the table unchanged is reached only when two requests race past the validator, and concurrency is not modelled. `email` is the validated address, which DRF's EmailField has stripped of surrounding white space.
- Payments.PaymentTable.Callback: the callback answers 404 for an unknown reference and takes the status from the callback body. It never calls `PayTabsService.verify_payment` (apps/payments/services/paytabs_service.py:41-47), which is not part of this model.

## Findings

| source | as written | input that shows it | evidently intended | confidence | as-written member | corrected member |
|---|---|---|---|---|---|---|
| apps/account/views.py:277-282 | `serializer.is_valid(raise_exception=True)` runs inside the view's `try … except Exception`, so a refused password answers 500 | password = password_confirm = "password" (all letters) | a 400 naming the broken password rule, as the other endpoints answer for validation errors | high; not executed | AccountViews.ResetConfirmAsWritten | AccountViews.ResetConfirm |

`AccountViews.LettersOnlyPasswordIsRefused` proves that this input is
refused, so `AccountViews.ResetConfirmAsWritten` answers 500 for it.
