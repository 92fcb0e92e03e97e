/**
 * The user table of the account application: the User record with its
 * field defaults, UserManager.create_user and create_superuser, and the
 * uniqueness of email and phone that the table enforces on save.
 * Password hashing is abstracted: a stored password records which raw
 * password was set, or that none was (an unusable password).
 */
module AccountModels {
  import opened Wrappers
  import opened Text
  import opened Tables

  datatype PasswordState = Unusable | Hashed(raw: string)

  datatype User = User(
    id: nat,
    email: string,
    name: string,
    phone: string,
    password: PasswordState,
    isActive: bool,
    isAdmin: bool,
    isStaff: bool,
    isSuperuser: bool,
    lastLogin: Option<int>)
  {
    /** User.has_perm: admins hold every permission, nobody else holds any. */
    function HasPerm(perm: string): (r: bool)
      ensures r <==> isAdmin
    {
      isAdmin
    }

    /** User.has_module_perms: every user may view every application. */
    function HasModulePerms(appLabel: string): (r: bool)
      ensures r
    {
      true
    }
  }

  /** The optional keyword flags of create_user/create_superuser; None means
      the caller did not supply the flag. */
  datatype ExtraFields = ExtraFields(
    isActive: Option<bool>,
    isAdmin: Option<bool>,
    isStaff: Option<bool>,
    isSuperuser: Option<bool>)

  const NoExtraFields := ExtraFields(None, None, None, None)

  datatype CreateError =
    | MissingEmail | MissingName | MissingPhone
    | NotAdmin | NotStaff | NotSuperuser
    | IntegrityError   // the save broke the unique email or phone constraint

  /** Django's BaseUserManager.normalize_email: the part after the last '@'
      of the stripped address is lower-cased; an address without '@' is
      returned untouched. */
  function NormalizeEmail(email: string): (r: string)
  {
    LowerDomain(email, Strip(email))
  }

  /** The address `stripped` with the text after its last '@' lower-cased,
      or `email` when there is no '@'. */
  function LowerDomain(email: string, stripped: string): (r: string)
  {
    match LastIndexOf(stripped, '@')
    case None => email
    case Some(k) => stripped[..k] + "@" + Lower(stripped[k + 1..])
  }

  /** An address with no white space at its ends and no upper-case letter
      is its own normal form. */
  lemma NormalizeClean(e: string)
    requires e == [] || (!IsSpace(e[0]) && !IsSpace(e[|e| - 1]))
    requires IsLowerCase(e)
    ensures NormalizeEmail(e) == e
  {
    StripOfStripped(e);
    var idx := LastIndexOf(e, '@');
    if idx.Some? {
      var k := idx.value;
      var domain := e[k + 1..];
      assert IsLowerCase(domain);
      LowerOfLowerCase(domain);
      assert e[..k] + "@" + domain == e;
    }
    assert LowerDomain(e, e) == e;
  }

  /** The address the registration serializer stores (stripped, then
      lower-cased) is left as it is by normalize_email. */
  lemma NormalizeLowerStripped(raw: string)
    ensures NormalizeEmail(Lower(Strip(raw))) == Lower(Strip(raw))
  {
    var t := Strip(raw);
    var e := Lower(t);
    if e != [] {
      assert e[0] == ToLowerChar(t[0]) && e[|e| - 1] == ToLowerChar(t[|t| - 1]);
    }
    LowerIsLowerCase(t);
    NormalizeClean(e);
  }

  /** An address that contains '@' and is lower-cased already is kept by
      LowerDomain, whatever `email` is. */
  lemma LowerDomainOfLower(email: string, e: string, i: nat)
    requires i < |e| && e[i] == '@'
    requires IsLowerCase(e)
    ensures LowerDomain(email, e) == e
  {
    var k := LastIndexOf(e, '@').value;
    var domain := e[k + 1..];
    assert IsLowerCase(domain);
    LowerOfLowerCase(domain);
    assert e[..k] + "@" + domain == e;
  }

  /** normalize_email of a lower-cased address that contains '@' is the
      stripped, lower-cased address. */
  lemma NormalizeLowered(raw: string, i: nat)
    requires i < |raw| && raw[i] == '@'
    ensures NormalizeEmail(Lower(raw)) == Lower(Strip(raw))
  {
    StripLower(raw);
    StripKeeps(raw, i);
    var t := Strip(raw);
    var j :| 0 <= j < |t| && t[j] == '@';
    var e := Lower(t);
    assert e[j] == '@';
    LowerIsLowerCase(t);
    LowerDomainOfLower(Lower(raw), e, j);
  }

  /** The user create_user builds: the field defaults of the User model
      (active, not admin, not staff, not superuser) unless the caller
      supplied the flag. */
  function NewUser(id: nat, email: string, name: string, phone: string,
                   password: Option<string>, extra: ExtraFields): (u: User)
    ensures u.id == id && u.email == NormalizeEmail(email) && u.name == name && u.phone == phone
    ensures u.isActive == (extra.isActive != Some(false))
    ensures u.isAdmin == (extra.isAdmin == Some(true))
    ensures u.isStaff == (extra.isStaff == Some(true))
    ensures u.isSuperuser == (extra.isSuperuser == Some(true))
    ensures u.password == (if password.Some? then Hashed(password.value) else Unusable)
    ensures u.lastLogin.None?
  {
    User(id, NormalizeEmail(email), name, phone,
         if password.Some? then Hashed(password.value) else Unusable,
         extra.isActive.GetOr(true), extra.isAdmin.GetOr(false),
         extra.isStaff.GetOr(false), extra.isSuperuser.GetOr(false), None)
  }

  /** create_superuser's preparation of the flags: each of is_admin, is_staff,
      is_superuser and is_active defaults to True, and the first of is_admin,
      is_staff, is_superuser that the caller set to anything but True is
      refused. */
  function SuperuserFields(extra: ExtraFields): (r: Result<ExtraFields, CreateError>)
    ensures r.Success? <==>
      extra.isAdmin != Some(false) && extra.isStaff != Some(false) && extra.isSuperuser != Some(false)
    ensures r.Failure? ==>
      r.error == (if extra.isAdmin == Some(false) then NotAdmin
                  else if extra.isStaff == Some(false) then NotStaff
                  else NotSuperuser)
    ensures r.Success? ==>
      r.value == ExtraFields(Some(extra.isActive != Some(false)), Some(true), Some(true), Some(true))
  {
    var f := ExtraFields(
      Some(SetDefault(extra.isActive)), Some(SetDefault(extra.isAdmin)),
      Some(SetDefault(extra.isStaff)), Some(SetDefault(extra.isSuperuser)));
    if f.isAdmin != Some(true) then Failure(NotAdmin)
    else if f.isStaff != Some(true) then Failure(NotStaff)
    else if f.isSuperuser != Some(true) then Failure(NotSuperuser)
    else Success(f)
  }

  /** extra_fields.setdefault(flag, True) */
  function SetDefault(flag: Option<bool>): (b: bool)
    ensures b <==> flag != Some(false)
  {
    flag.GetOr(true)
  }

  predicate EmailStored(users: seq<User>, email: string) {
    exists i | 0 <= i < |users| :: users[i].email == email
  }

  predicate PhoneStored(users: seq<User>, phone: string) {
    exists i | 0 <= i < |users| :: users[i].phone == phone
  }

  /** The row of the user whose email is exactly `email`
      (User.objects.get(email=...)). */
  function UserByEmail(users: seq<User>, email: string): (r: Option<nat>)
    ensures r.Some? ==> r.value < |users| && users[r.value].email == email
    ensures r.None? <==> !EmailStored(users, email)
  {
    FirstIndex(users, (u: User) => u.email == email)
  }

  /** The row of the user whose primary key is id (User.objects.get(pk=...)). */
  function UserById(users: seq<User>, id: nat): (r: Option<nat>)
    ensures r.Some? ==> r.value < |users| && users[r.value].id == id
    ensures r.None? ==> forall i :: 0 <= i < |users| ==> users[i].id != id
  {
    FirstIndex(users, (u: User) => u.id == id)
  }

  ghost predicate UniqueKeys(users: seq<User>) {
    forall i, j :: 0 <= i < j < |users| ==>
      users[i].id != users[j].id && users[i].email != users[j].email && users[i].phone != users[j].phone
  }

  class UserTable {
    var users: seq<User>
    var nextId: nat

    /** The unique constraints on id, email and phone; new ids are fresh. */
    ghost predicate Valid()
      reads this
    {
      UniqueKeys(users) && forall i :: 0 <= i < |users| ==> users[i].id < nextId
    }

    constructor ()
      ensures Valid() && users == []
    {
      users := [];
      nextId := 1;
    }

    /** UserManager.create_user: refuses an empty email, name or phone, in
        that order; otherwise saves the new user, which the table refuses
        when its normalized email or its phone is already stored. */
    method CreateUser(email: string, name: string, phone: string,
                      password: Option<string>, extra: ExtraFields)
      returns (r: Result<User, CreateError>)
      requires Valid()
      modifies this
      ensures Valid()
      ensures email == "" ==> r == Failure(MissingEmail)
      ensures email != "" && name == "" ==> r == Failure(MissingName)
      ensures email != "" && name != "" && phone == "" ==> r == Failure(MissingPhone)
      ensures r.Success? <==>
        email != "" && name != "" && phone != ""
        && !EmailStored(old(users), NormalizeEmail(email)) && !PhoneStored(old(users), phone)
      ensures r.Failure? ==> users == old(users) && nextId == old(nextId)
      ensures r.Success? ==>
        r.value == NewUser(old(nextId), email, name, phone, password, extra)
        && users == old(users) + [r.value] && nextId == old(nextId) + 1
    {
      if email == "" {
        return Failure(MissingEmail);
      }
      if name == "" {
        return Failure(MissingName);
      }
      if phone == "" {
        return Failure(MissingPhone);
      }
      var user := NewUser(nextId, email, name, phone, password, extra);
      if EmailStored(users, user.email) || PhoneStored(users, user.phone) {
        return Failure(IntegrityError);
      }
      users := users + [user];
      nextId := nextId + 1;
      r := Success(user);
    }

    /** user.last_login = now; user.save(): only that user's last_login
        changes. */
    method RecordLogin(i: nat, now: int)
      requires Valid() && i < |users|
      modifies this
      ensures Valid()
      ensures users == old(users)[i := old(users)[i].(lastLogin := Some(now))]
      ensures nextId == old(nextId)
    {
      users := users[i := users[i].(lastLogin := Some(now))];
    }

    /** user.set_password(raw); user.save(): only that user's password
        changes. */
    method SetPassword(i: nat, raw: string)
      requires Valid() && i < |users|
      modifies this
      ensures Valid()
      ensures users == old(users)[i := old(users)[i].(password := Hashed(raw))]
      ensures nextId == old(nextId)
    {
      users := users[i := users[i].(password := Hashed(raw))];
    }

    /** UserManager.create_superuser: the flags of SuperuserFields, then
        create_user with them. */
    method CreateSuperuser(email: string, name: string, phone: string,
                           password: Option<string>, extra: ExtraFields)
      returns (r: Result<User, CreateError>)
      requires Valid()
      modifies this
      ensures Valid()
      ensures SuperuserFields(extra).Failure? ==>
        r == Failure(SuperuserFields(extra).error) && users == old(users) && nextId == old(nextId)
      ensures r.Failure? ==> users == old(users) && nextId == old(nextId)
      ensures r.Success? <==>
        SuperuserFields(extra).Success?
        && email != "" && name != "" && phone != ""
        && !EmailStored(old(users), NormalizeEmail(email)) && !PhoneStored(old(users), phone)
      ensures r.Success? ==>
        r.value == NewUser(old(nextId), email, name, phone, password, SuperuserFields(extra).value)
        && r.value.isAdmin && r.value.isStaff && r.value.isSuperuser
        && r.value.isActive == (extra.isActive != Some(false))
        && users == old(users) + [r.value] && nextId == old(nextId) + 1
    {
      var fields := SuperuserFields(extra);
      if fields.Failure? {
        return Failure(fields.error);
      }
      r := CreateUser(email, name, phone, password, fields.value);
    }
  }
}
