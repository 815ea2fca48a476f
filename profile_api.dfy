/**
 * `ProfileAPIView.put`: the profile update of the signed-in user. Every
 * field present in the request is stripped and checked; all the problems
 * found are reported together, and nothing is saved unless there are none.
 */
module ProfileApi {
  import opened Wrappers
  import opened Text
  import opened Accounts

  /** The request fields the update reads; an absent field is `None`. */
  datatype ProfileRequest = ProfileRequest(
    firstName: Option<string>, lastName: Option<string>, email: Option<string>, avatar: Option<string>)

  /** The keys of the error map. */
  datatype Field = FirstName | LastName | Email | Avatar

  /** The `data` object of a successful reply: the values just saved. */
  datatype ProfileData = ProfileData(id: string, email: string, firstName: string, lastName: string, avatar: string)

  datatype ProfileReply = Invalid(errors: map<Field, string>) | Updated(data: ProfileData)

  const MaxNameLength := 150
  const MaxAvatarLength := 500

  /** The check of `first_name` or `last_name` (`name` says which): required and at most 150 characters, once stripped. */
  function NameError(raw: string, name: string): (r: Option<string>)
    ensures r.None? <==> !Blank(raw) && |Trim(raw)| <= MaxNameLength
    ensures Blank(raw) ==> r == Some(name + " is required")
    ensures !Blank(raw) && |Trim(raw)| > MaxNameLength ==> r == Some(name + " must be 150 characters or less")
  {
    TrimEmptyIffBlank(raw);
    var v := Trim(raw);
    if v == [] then Some(name + " is required")
    else if |v| > MaxNameLength then Some(name + " must be 150 characters or less")
    else None
  }

  /** The address the update stores: stripped and lower-cased. */
  function NormalEmail(raw: string): string {
    Lower(Trim(raw))
  }

  /**
   * The check of `email`: `emails` holds the addresses Django's
   * `validate_email` accepts, and `owners` maps each stored address to
   * the id of its user, so the user's own current address is not "in use".
   */
  function EmailError(raw: string, self: string, owners: map<string, string>, emails: iset<string>): (r: Option<string>)
    ensures var e := NormalEmail(raw);
      && (r.None? <==> e in emails && (e in owners ==> owners[e] == self))
      && (e !in emails ==> r == Some("Enter a valid email address"))
      && (e in emails && e in owners && owners[e] != self ==> r == Some("This email is already in use"))
  {
    var e := NormalEmail(raw);
    if e !in emails then Some("Enter a valid email address")
    else if e in owners && owners[e] != self then Some("This email is already in use")
    else None
  }

  /** The check of `avatar`: empty is allowed, anything longer than 500 characters once stripped is not. */
  function AvatarError(raw: string): (r: Option<string>)
    ensures r.None? <==> |Trim(raw)| <= MaxAvatarLength
    ensures r.Some? ==> r.value == "Avatar URL must be 500 characters or less"
  {
    var a := Trim(raw);
    if a != [] && |a| > MaxAvatarLength then Some("Avatar URL must be 500 characters or less") else None
  }

  /** The raw value of field `f` in the request, if present. */
  function Requested(req: ProfileRequest, f: Field): Option<string> {
    match f
    case FirstName => req.firstName
    case LastName => req.lastName
    case Email => req.email
    case Avatar => req.avatar
  }

  /** The problem with the raw value `raw` of field `f`, if any. */
  function RawError(f: Field, raw: string, self: string, owners: map<string, string>, emails: iset<string>): Option<string> {
    match f
    case FirstName => NameError(raw, "First name")
    case LastName => NameError(raw, "Last name")
    case Email => EmailError(raw, self, owners, emails)
    case Avatar => AvatarError(raw)
  }

  /** The problem with field `f` of `req`, if it is present and invalid. */
  function FieldError(f: Field, req: ProfileRequest, self: string, owners: map<string, string>, emails: iset<string>): Option<string> {
    match Requested(req, f)
    case None => None
    case Some(raw) => RawError(f, raw, self, owners, emails)
  }

  /** No field of `req` has a problem. */
  predicate Accepted(req: ProfileRequest, self: string, owners: map<string, string>, emails: iset<string>) {
    forall f: Field :: FieldError(f, req, self, owners, emails).None?
  }

  /** `errors[f] = message` when the check of `f` produced one. */
  function Add(errors: map<Field, string>, f: Field, e: Option<string>): map<Field, string> {
    if e.Some? then errors[f := e.value] else errors
  }

  /** The error map `put` builds: the four checks in the order of the view. */
  function Problems(req: ProfileRequest, self: string, owners: map<string, string>, emails: iset<string>): map<Field, string> {
    var m := Add(map[], FirstName, FieldError(FirstName, req, self, owners, emails));
    var m := Add(m, LastName, FieldError(LastName, req, self, owners, emails));
    var m := Add(m, Email, FieldError(Email, req, self, owners, emails));
    Add(m, Avatar, FieldError(Avatar, req, self, owners, emails))
  }

  /** The one of `e1`..`e4` that belongs to field `f`, in the order of the view. */
  function Nth(f: Field, e1: Option<string>, e2: Option<string>, e3: Option<string>, e4: Option<string>): Option<string> {
    match f
    case FirstName => e1
    case LastName => e2
    case Email => e3
    case Avatar => e4
  }

  /** Adding the outcomes of the four checks in turn keeps exactly those with a message. */
  lemma AddAll(e1: Option<string>, e2: Option<string>, e3: Option<string>, e4: Option<string>)
    ensures var m := Add(Add(Add(Add(map[], FirstName, e1), LastName, e2), Email, e3), Avatar, e4);
      && (forall f :: f in m <==> Nth(f, e1, e2, e3, e4).Some?)
      && (forall f :: f in m ==> m[f] == Nth(f, e1, e2, e3, e4).value)
  {
  }

  /** Every problem is reported, not only the first: the map has exactly the invalid fields, each with its message. */
  lemma ProblemsExact(req: ProfileRequest, self: string, owners: map<string, string>, emails: iset<string>)
    ensures var errors := Problems(req, self, owners, emails);
      && (forall f :: f in errors <==> FieldError(f, req, self, owners, emails).Some?)
      && (forall f :: f in errors ==> errors[f] == FieldError(f, req, self, owners, emails).value)
  {
    var e1 := FieldError(FirstName, req, self, owners, emails);
    var e2 := FieldError(LastName, req, self, owners, emails);
    var e3 := FieldError(Email, req, self, owners, emails);
    var e4 := FieldError(Avatar, req, self, owners, emails);
    AddAll(e1, e2, e3, e4);
    forall f ensures Nth(f, e1, e2, e3, e4) == FieldError(f, req, self, owners, emails) {
      match f
      case FirstName => assert Nth(f, e1, e2, e3, e4) == e1;
      case LastName => assert Nth(f, e1, e2, e3, e4) == e2;
      case Email => assert Nth(f, e1, e2, e3, e4) == e3;
      case Avatar => assert Nth(f, e1, e2, e3, e4) == e4;
    }
  }

  /** The error map is empty exactly when the request is accepted. */
  lemma ProblemsEmpty(req: ProfileRequest, self: string, owners: map<string, string>, emails: iset<string>)
    ensures Problems(req, self, owners, emails) == map[] <==> Accepted(req, self, owners, emails)
  {
    ProblemsExact(req, self, owners, emails);
    if !Accepted(req, self, owners, emails) {
      var f: Field :| FieldError(f, req, self, owners, emails).Some?;
      assert f in Problems(req, self, owners, emails);
    }
  }

  /** The profile after an accepted update: present fields normalised, absent fields kept. */
  function Applied(req: ProfileRequest, d: ProfileData): ProfileData {
    ProfileData(
      d.id,
      if req.email.Some? then NormalEmail(req.email.value) else d.email,
      if req.firstName.Some? then Trim(req.firstName.value) else d.firstName,
      if req.lastName.Some? then Trim(req.lastName.value) else d.lastName,
      if req.avatar.Some? then Trim(req.avatar.value) else d.avatar)
  }

  /** The value field `f` is stored as: the email normalised, the others stripped. */
  function Normalised(f: Field, raw: string): string {
    if f == Email then NormalEmail(raw) else Trim(raw)
  }

  /** `p` with field `f` set to `v`. */
  function Store(p: ProfileData, f: Field, v: string): ProfileData {
    match f
    case FirstName => p.(firstName := v)
    case LastName => p.(lastName := v)
    case Email => p.(email := v)
    case Avatar => p.(avatar := v)
  }

  /** `user.<f> = value` when field `f` is present and passed its check. */
  function Keep(p: ProfileData, f: Field, req: ProfileRequest, self: string, owners: map<string, string>, emails: iset<string>): ProfileData {
    match Requested(req, f)
    case None => p
    case Some(raw) =>
      if RawError(f, raw, self, owners, emails).Some? then p else Store(p, f, Normalised(f, raw))
  }

  /** The values `put` has assigned after its four checks. */
  function Staged(req: ProfileRequest, d: ProfileData, owners: map<string, string>, emails: iset<string>): ProfileData {
    var p := Keep(d, FirstName, req, d.id, owners, emails);
    var p := Keep(p, LastName, req, d.id, owners, emails);
    var p := Keep(p, Email, req, d.id, owners, emails);
    Keep(p, Avatar, req, d.id, owners, emails)
  }

  /** When nothing was refused, the assigned values are the ones `Applied` describes. */
  lemma StagedApplied(req: ProfileRequest, d: ProfileData, owners: map<string, string>, emails: iset<string>)
    requires Accepted(req, d.id, owners, emails)
    ensures Staged(req, d, owners, emails) == Applied(req, d)
  {
    assert FieldError(FirstName, req, d.id, owners, emails).None?;
    assert FieldError(LastName, req, d.id, owners, emails).None?;
    assert FieldError(Email, req, d.id, owners, emails).None?;
    assert FieldError(Avatar, req, d.id, owners, emails).None?;
  }

  /** The request that submits `d` back unchanged, as the profile page does. */
  function Echo(d: ProfileData): ProfileRequest {
    ProfileRequest(Some(d.firstName), Some(d.lastName), Some(d.email), Some(d.avatar))
  }

  /** What the update promises about stored profiles: names and avatar stripped and in bounds, a valid normalised email. */
  predicate ValidData(d: ProfileData, emails: iset<string>) {
    && d.firstName != [] && Stripped(d.firstName) && |d.firstName| <= MaxNameLength
    && d.lastName != [] && Stripped(d.lastName) && |d.lastName| <= MaxNameLength
    && d.email in emails && NormalEmail(d.email) == d.email
    && Stripped(d.avatar) && |d.avatar| <= MaxAvatarLength
  }

  /** Normalising an address twice changes nothing. */
  lemma NormalEmailIdempotent(raw: string)
    ensures NormalEmail(NormalEmail(raw)) == NormalEmail(raw)
  {
    var e := NormalEmail(raw);
    LowerKeepsStripped(Trim(raw));
    TrimStripped(e);
    LowerIdempotent(Trim(raw));
  }

  /** An accepted update of a valid profile leaves a valid profile. */
  lemma AcceptedKeepsValid(req: ProfileRequest, d: ProfileData, owners: map<string, string>, emails: iset<string>)
    requires ValidData(d, emails) && Accepted(req, d.id, owners, emails)
    ensures ValidData(Applied(req, d), emails)
  {
    assert FieldError(FirstName, req, d.id, owners, emails).None?;
    assert FieldError(LastName, req, d.id, owners, emails).None?;
    assert FieldError(Email, req, d.id, owners, emails).None?;
    assert FieldError(Avatar, req, d.id, owners, emails).None?;
    if req.firstName.Some? {
      TrimEmptyIffBlank(req.firstName.value);
    }
    if req.lastName.Some? {
      TrimEmptyIffBlank(req.lastName.value);
    }
    if req.email.Some? {
      NormalEmailIdempotent(req.email.value);
    }
  }

  /**
   * Submitting a valid profile back as it is is accepted and changes
   * nothing, provided its address is recorded as the user's own.
   */
  lemma EchoUnchanged(d: ProfileData, owners: map<string, string>, emails: iset<string>)
    requires ValidData(d, emails)
    requires d.email in owners ==> owners[d.email] == d.id
    ensures Accepted(Echo(d), d.id, owners, emails)
    ensures Applied(Echo(d), d) == d
  {
    TrimStripped(d.firstName);
    TrimStripped(d.lastName);
    TrimStripped(d.avatar);
    TrimEmptyIffBlank(d.firstName);
    TrimEmptyIffBlank(d.lastName);
    forall f: Field ensures FieldError(f, Echo(d), d.id, owners, emails).None? {
    }
  }

  /** The state of `user` and `profile` as the data of a reply. */
  function DataOf(user: User, profile: Profile): ProfileData
    reads user, profile
  {
    ProfileData(user.id, user.email, user.firstName, user.lastName, profile.avatar)
  }

  /** The first-name or last-name block of `put`: the stripped value, or the message for it. */
  method CheckName(raw: string, name: string) returns (err: Option<string>, v: string)
    ensures err == NameError(raw, name)
    ensures err.None? ==> v == Trim(raw)
  {
    v := Trim(raw);
    TrimEmptyIffBlank(raw);
    if v == [] {
      err := Some(name + " is required");
    } else if |v| > MaxNameLength {
      err := Some(name + " must be 150 characters or less");
    } else {
      err := None;
    }
  }

  /** The email block of `put`: the normalised address, or the message for it. */
  method CheckEmail(raw: string, self: string, owners: map<string, string>, emails: iset<string>)
    returns (err: Option<string>, e: string)
    ensures err == EmailError(raw, self, owners, emails)
    ensures err.None? ==> e == NormalEmail(raw)
  {
    e := Lower(Trim(raw));
    if e in emails {
      if e in owners && owners[e] != self {
        err := Some("This email is already in use");
      } else {
        err := None;
      }
    } else {
      err := Some("Enter a valid email address");
    }
  }

  /** The avatar block of `put`: the stripped URL, or the message for it. */
  method CheckAvatar(raw: string) returns (err: Option<string>, a: string)
    ensures err == AvatarError(raw)
    ensures err.None? ==> a == Trim(raw)
  {
    a := Trim(raw);
    if a != [] && |a| > MaxAvatarLength {
      err := Some("Avatar URL must be 500 characters or less");
    } else {
      err := None;
    }
  }

  /** The check of the raw value of field `f`, as its block in `put` does it. */
  method CheckValue(f: Field, raw: string, self: string, owners: map<string, string>, emails: iset<string>)
    returns (err: Option<string>, v: string)
    ensures err == RawError(f, raw, self, owners, emails)
    ensures err.None? ==> v == Normalised(f, raw)
  {
    match f
    case FirstName => err, v := CheckName(raw, "First name");
    case LastName => err, v := CheckName(raw, "Last name");
    case Email => err, v := CheckEmail(raw, self, owners, emails);
    case Avatar => err, v := CheckAvatar(raw);
  }

  /** The block of `put` for a present field `f`: its message goes into `errors`, or its new value into `next`. */
  method CheckField(f: Field, d: ProfileData, req: ProfileRequest, owners: map<string, string>, emails: iset<string>,
                    errors: map<Field, string>, next: ProfileData)
    returns (errors': map<Field, string>, next': ProfileData)
    ensures errors' == Add(errors, f, FieldError(f, req, d.id, owners, emails))
    ensures next' == Keep(next, f, req, d.id, owners, emails)
  {
    errors', next' := errors, next;
    var raw := Requested(req, f);
    if raw.Some? {
      var err, v := CheckValue(f, raw.value, d.id, owners, emails);
      if err.Some? {
        errors' := errors[f := err.value];
      } else {
        next' := Store(next, f, v);
      }
    }
  }

  /**
   * The checks of `put` over the current profile `d`, field by field in
   * the order of the view: `errors` maps exactly the fields with a problem
   * to their messages, and without problems `next` is the profile to store.
   */
  method CheckRequest(d: ProfileData, req: ProfileRequest, owners: map<string, string>, emails: iset<string>)
    returns (errors: map<Field, string>, next: ProfileData)
    ensures errors == Problems(req, d.id, owners, emails)
    ensures forall f :: f in errors <==> FieldError(f, req, d.id, owners, emails).Some?
    ensures forall f :: f in errors ==> errors[f] == FieldError(f, req, d.id, owners, emails).value
    ensures errors == map[] <==> Accepted(req, d.id, owners, emails)
    ensures errors == map[] ==> next == Applied(req, d)
  {
    errors, next := CheckField(FirstName, d, req, owners, emails, map[], d);
    errors, next := CheckField(LastName, d, req, owners, emails, errors, next);
    errors, next := CheckField(Email, d, req, owners, emails, errors, next);
    errors, next := CheckField(Avatar, d, req, owners, emails, errors, next);
    ProblemsExact(req, d.id, owners, emails);
    ProblemsEmpty(req, d.id, owners, emails);
    if errors == map[] {
      StagedApplied(req, d, owners, emails);
    }
  }

  /**
   * `ProfileAPIView.put`. With any problem, the reply maps exactly the
   * fields that have one to their messages, and neither row changes.
   * Otherwise the present fields are stored as `Applied` says, the user
   * is saved (which may generate its username) and the reply echoes the
   * stored values.
   */
  method UpdateProfile(user: User, profile: Profile, req: ProfileRequest, owners: map<string, string>, emails: iset<string>)
    returns (reply: ProfileReply)
    modifies user, profile
    ensures reply.Invalid? <==> !Accepted(req, user.id, owners, emails)
    ensures reply.Invalid? ==>
      && (forall f :: f in reply.errors <==> FieldError(f, req, user.id, owners, emails).Some?)
      && (forall f :: f in reply.errors ==> reply.errors[f] == FieldError(f, req, user.id, owners, emails).value)
      && DataOf(user, profile) == old(DataOf(user, profile)) && user.username == old(user.username)
    ensures reply.Updated? ==>
      && DataOf(user, profile) == Applied(req, old(DataOf(user, profile)))
      && user.username == (if old(user.username) == [] then GeneratedUsername(user.email, user.id) else old(user.username))
      && reply.data == DataOf(user, profile)
  {
    var errors, next := CheckRequest(DataOf(user, profile), req, owners, emails);
    if errors != map[] {
      return Invalid(errors);
    }
    user.firstName, user.lastName, user.email := next.firstName, next.lastName, next.email;
    user.Save();
    profile.avatar := next.avatar;
    reply := Updated(DataOf(user, profile));
  }
}
