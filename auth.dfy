/** The user registry: registration with unique emails, login with one
    uniform failure, the caller's own profile and its partial update.
    Password hashing and checking (bcrypt), token signing (JWT) and the
    email and URL validators are opaque: the handlers receive them as
    functions. */
module Auth {
  import opened Wrappers
  import opened Store

  // ---- Register ----

  /** `registerSchema` before validation. */
  datatype RegisterInput = RegisterInput(email: string, password: string, fullName: Option<string>)
  {
    predicate IsValid(isEmail: string -> bool)
    {
      isEmail(email) && Utf16Length(password) >= 6
    }
  }

  /** The body of a successful registration. */
  datatype Registered = Registered(id: Id, email: string, fullName: Option<string>, createdAt: nat, token: string)

  const UserExists := Http(400, "User already exists")

  /** The row a registration inserts: no avatar, bio or job title yet, and an
      empty full name is stored as null. */
  function NewUser(input: RegisterInput, hash: string -> string, now: nat): (u: User)
    ensures u.email == input.email && u.passwordHash == hash(input.password)
    ensures u.fullName == OrNull(input.fullName) && u.createdAt == now
    ensures u.avatarUrl.None? && u.bio.None? && u.jobTitle.None?
  {
    User(input.email, hash(input.password), OrNull(input.fullName), None, None, None, now)
  }

  /** Registering an email that no row has keeps the emails unique and makes
      the new row the one a lookup by that email (the login query) finds. */
  lemma RegisteredUserIsFoundByEmail(us: map<Id, User>, k: Id, input: RegisterInput, hash: string -> string, now: nat)
    requires UniqueEmails(us) && k !in us && UserWithEmail(us, input.email).None?
    ensures UniqueEmails(us[k := NewUser(input, hash, now)])
    ensures UserWithEmail(us[k := NewUser(input, hash, now)], input.email) == Some(k)
  {
    var vs := us[k := NewUser(input, hash, now)];
    forall a, b | a in vs && b in vs && vs[a].email == vs[b].email
      ensures a == b
    {
      if a != k && b != k {
        assert us[a].email == us[b].email;
      }
    }
    assert vs[k].email == input.email;
    var found := UserWithEmail(vs, input.email);
    assert found.Some? && vs[found.value].email == vs[k].email;
  }

  /** `POST /auth/register`: the schema, then the email check, then the
      insert. The welcome project that follows is not part of this model; a
      failure there is swallowed, so the answer does not depend on it. */
  method Register(db: Database, input: RegisterInput, isEmail: string -> bool, hash: string -> string,
                  sign: Id -> string, now: nat)
    returns (r: Result<Registered, Failure>)
    requires db.Valid()
    modifies db`users, db`nextId
    ensures db.Valid()
    ensures !input.IsValid(isEmail) ==> r == Failure(Invalid)
    ensures input.IsValid(isEmail) && old(UserWithEmail(db.users, input.email)).Some? ==> r == Failure(UserExists)
    ensures r.Success? <==> input.IsValid(isEmail) && old(UserWithEmail(db.users, input.email)).None?
    ensures r.Success? ==>
      && r.value.id == old(db.nextId) && r.value.id !in old(db.users)
      && db.users == old(db.users)[r.value.id := NewUser(input, hash, now)]
      && db.nextId == old(db.nextId) + 1
      && r.value == Registered(r.value.id, input.email, OrNull(input.fullName), now, sign(r.value.id))
    ensures r.Failure? ==> db.users == old(db.users) && db.nextId == old(db.nextId)
  {
    if !input.IsValid(isEmail) {
      return Failure(Invalid);
    }
    if UserWithEmail(db.users, input.email).Some? {
      return Failure(UserExists);
    }
    var id := db.nextId;
    var user := NewUser(input, hash, now);
    db.users := db.users[id := user];
    db.nextId := id + 1;
    return Success(Registered(id, user.email, user.fullName, user.createdAt, sign(id)));
  }

  // ---- Login ----

  /** `loginSchema` before validation. */
  datatype LoginInput = LoginInput(email: string, password: string)

  /** The body of a successful login. */
  datatype LoggedIn = LoggedIn(id: Id, email: string, fullName: Option<string>, avatarUrl: Option<string>, token: string)

  const InvalidCredentials := Http(401, "Invalid credentials")

  /** The user the credentials identify: the row with this email, provided
      the password checks against its hash. */
  function Authenticate(us: map<Id, User>, email: string, password: string, verify: (string, string) -> bool)
    : (r: Option<Id>)
    ensures r.Some? ==> r.value in us && us[r.value].email == email && verify(password, us[r.value].passwordHash)
  {
    var found := UserWithEmail(us, email);
    if found.Some? && verify(password, us[found.value].passwordHash) then found else None
  }

  /** With unique emails, the credentials identify a user exactly when some
      user has this email and a hash the password checks against. */
  lemma AuthenticateIffCredentialsMatch(us: map<Id, User>, email: string, password: string,
                                        verify: (string, string) -> bool)
    requires UniqueEmails(us)
    ensures Authenticate(us, email, password, verify).Some? <==>
      exists k :: k in us && us[k].email == email && verify(password, us[k].passwordHash)
  {
    if k :| k in us && us[k].email == email && verify(password, us[k].passwordHash) {
      assert UserWithEmail(us, email) == Some(k);
    }
  }

  /** A user just registered can log in with the password they registered
      with, provided the hash checks against it. */
  lemma RegisteredUserCanLogIn(us: map<Id, User>, id: Id, input: RegisterInput, hash: string -> string, now: nat,
                               verify: (string, string) -> bool)
    requires UniqueEmails(us) && id !in us && UserWithEmail(us, input.email).None?
    requires verify(input.password, hash(input.password))
    ensures Authenticate(us[id := NewUser(input, hash, now)], input.email, input.password, verify) == Some(id)
  {
    var after := us[id := NewUser(input, hash, now)];
    assert UserWithEmail(after, input.email) == Some(id) by {
      assert after[id].email == input.email;
      assert forall k :: k in after && after[k].email == input.email ==> k == id;
    }
  }

  /** `POST /auth/login`: an unknown email and a wrong password get the same
      answer. */
  method Login(db: Database, input: LoginInput, isEmail: string -> bool, verify: (string, string) -> bool,
               sign: Id -> string)
    returns (r: Result<LoggedIn, Failure>)
    ensures !isEmail(input.email) ==> r == Failure(Invalid)
    ensures isEmail(input.email) && r.Failure? ==> r == Failure(InvalidCredentials)
    ensures isEmail(input.email) ==>
      (r.Success? <==> Authenticate(db.users, input.email, input.password, verify).Some?)
    ensures r.Success? ==>
      var k := Authenticate(db.users, input.email, input.password, verify).value;
      r.value == LoggedIn(k, db.users[k].email, db.users[k].fullName, db.users[k].avatarUrl, sign(k))
  {
    if !isEmail(input.email) {
      return Failure(Invalid);
    }
    var found := UserWithEmail(db.users, input.email);
    if found.None? {
      return Failure(InvalidCredentials);
    }
    var user := db.users[found.value];
    if !verify(input.password, user.passwordHash) {
      return Failure(InvalidCredentials);
    }
    return Success(LoggedIn(found.value, user.email, user.fullName, user.avatarUrl, sign(found.value)));
  }

  // ---- Profile ----

  /** A user as `/auth/me` and the profile update show it: every column but
      the password hash. */
  datatype Profile = Profile(
    id: Id,
    email: string,
    fullName: Option<string>,
    avatarUrl: Option<string>,
    bio: Option<string>,
    jobTitle: Option<string>,
    createdAt: nat)

  function ProfileOf(k: Id, u: User): (p: Profile)
    ensures p.id == k && p.email == u.email && p.createdAt == u.createdAt
    ensures p.fullName == u.fullName && p.avatarUrl == u.avatarUrl && p.bio == u.bio && p.jobTitle == u.jobTitle
  {
    Profile(k, u.email, u.fullName, u.avatarUrl, u.bio, u.jobTitle, u.createdAt)
  }

  /** The profile is the user row without its password hash: two rows show
      the same profile exactly when they differ in the hash at most. */
  lemma ProfileIsRowWithoutHash(k: Id, u: User, v: User)
    ensures ProfileOf(k, u) == ProfileOf(k, v) <==> u.(passwordHash := v.passwordHash) == v
  {
  }

  const UserNotFound := Http(404, "User not found")

  /** `GET /auth/me` for the authenticated user id. */
  method Me(db: Database, userId: Id) returns (r: Result<Profile, Failure>)
    ensures userId !in db.users ==> r == Failure(UserNotFound)
    ensures userId in db.users ==> r == Success(ProfileOf(userId, db.users[userId]))
  {
    if userId !in db.users {
      return Failure(UserNotFound);
    }
    return Success(ProfileOf(userId, db.users[userId]));
  }

  /** `updateProfileSchema` after parsing. The last three fields are absent
      (`None`), explicitly null (`Some(None)`) or a value. */
  datatype ProfilePatch = ProfilePatch(
    fullName: Option<string>,
    avatarUrl: Option<Option<string>>,
    bio: Option<Option<string>>,
    jobTitle: Option<Option<string>>)
  {
    predicate IsValid(isUrl: string -> bool)
    {
      && (fullName.Some? ==> |fullName.value| >= 1)
      && (avatarUrl.Some? && avatarUrl.value.Some? ==> isUrl(avatarUrl.value.value))
      && (bio.Some? && bio.value.Some? ==> Utf16Length(bio.value.value) <= 500)
      && (jobTitle.Some? && jobTitle.value.Some? ==> Utf16Length(jobTitle.value.value) <= 100)
    }

    predicate IsEmpty()
    {
      fullName.None? && avatarUrl.None? && bio.None? && jobTitle.None?
    }
  }

  const NoProfileChange := ProfilePatch(None, None, None, None)

  /** The user with every field the patch supplies replaced and the others kept. */
  function PatchProfile(u: User, p: ProfilePatch): User
  {
    u.(fullName := if p.fullName.Some? then p.fullName else u.fullName,
       avatarUrl := p.avatarUrl.GetOr(u.avatarUrl),
       bio := p.bio.GetOr(u.bio),
       jobTitle := p.jobTitle.GetOr(u.jobTitle))
  }

  /** One item of the `UPDATE users SET ...` list. */
  datatype ProfileColumn =
    | FullNameColumn(fullName: string)
    | AvatarUrlColumn(avatarUrl: Option<string>)
    | BioColumn(bio: Option<string>)
    | JobTitleColumn(jobTitle: Option<string>)

  function SetProfileColumn(u: User, c: ProfileColumn): User
  {
    match c
    case FullNameColumn(n) => u.(fullName := Some(n))
    case AvatarUrlColumn(a) => u.(avatarUrl := a)
    case BioColumn(b) => u.(bio := b)
    case JobTitleColumn(j) => u.(jobTitle := j)
  }

  /** The effect of `SET c1, c2, ...` on one row. */
  function SetProfileColumns(u: User, cs: seq<ProfileColumn>): User
  {
    if cs == [] then u else SetProfileColumn(SetProfileColumns(u, cs[..|cs| - 1]), cs[|cs| - 1])
  }

  /** The patch `q` extended with the field one SET item writes. */
  function ExtendProfilePatch(q: ProfilePatch, c: ProfileColumn): ProfilePatch
  {
    match c
    case FullNameColumn(n) => q.(fullName := Some(n))
    case AvatarUrlColumn(a) => q.(avatarUrl := Some(a))
    case BioColumn(b) => q.(bio := Some(b))
    case JobTitleColumn(j) => q.(jobTitle := Some(j))
  }

  /** The patch a SET list amounts to; a later item for the same field wins. */
  function PatchOfProfileColumns(cs: seq<ProfileColumn>): ProfilePatch
  {
    if cs == [] then NoProfileChange else ExtendProfilePatch(PatchOfProfileColumns(cs[..|cs| - 1]), cs[|cs| - 1])
  }

  lemma PatchOfProfileColumnsSnoc(cs: seq<ProfileColumn>, c: ProfileColumn)
    ensures PatchOfProfileColumns(cs + [c]) == ExtendProfilePatch(PatchOfProfileColumns(cs), c)
  {
    assert (cs + [c])[..|cs|] == cs;
  }

  /** Applying a SET list to a row is applying the patch it amounts to. */
  lemma {:induction false} SetProfileColumnsIsPatch(u: User, cs: seq<ProfileColumn>)
    ensures SetProfileColumns(u, cs) == PatchProfile(u, PatchOfProfileColumns(cs))
    decreases |cs|
  {
    if cs != [] {
      var init := cs[..|cs| - 1];
      SetProfileColumnsIsPatch(u, init);
    } else {
      assert PatchProfile(u, NoProfileChange) == u;
    }
  }

  /** A SET list is empty exactly when the patch it amounts to is. */
  lemma PatchOfProfileColumnsEmpty(cs: seq<ProfileColumn>)
    ensures cs == [] <==> PatchOfProfileColumns(cs).IsEmpty()
  {
  }

  /** Builds the SET list the way the handler does: one item per field the
      patch supplies, in the order of the schema. Applying it to any row is
      the field-wise patch, and it is empty exactly for the empty patch. */
  method ProfileUpdates(p: ProfilePatch) returns (updates: seq<ProfileColumn>)
    ensures updates == [] <==> p.IsEmpty()
    ensures forall u :: SetProfileColumns(u, updates) == PatchProfile(u, p)
  {
    ghost var q := NoProfileChange;
    updates := [];
    if p.fullName.Some? {
      PatchOfProfileColumnsSnoc(updates, FullNameColumn(p.fullName.value));
      updates := updates + [FullNameColumn(p.fullName.value)];
    }
    q := ProfilePatch(p.fullName, None, None, None);
    assert PatchOfProfileColumns(updates) == q;
    if p.avatarUrl.Some? {
      PatchOfProfileColumnsSnoc(updates, AvatarUrlColumn(p.avatarUrl.value));
      updates := updates + [AvatarUrlColumn(p.avatarUrl.value)];
    }
    q := ProfilePatch(p.fullName, p.avatarUrl, None, None);
    assert PatchOfProfileColumns(updates) == q;
    if p.bio.Some? {
      PatchOfProfileColumnsSnoc(updates, BioColumn(p.bio.value));
      updates := updates + [BioColumn(p.bio.value)];
    }
    q := ProfilePatch(p.fullName, p.avatarUrl, p.bio, None);
    assert PatchOfProfileColumns(updates) == q;
    if p.jobTitle.Some? {
      PatchOfProfileColumnsSnoc(updates, JobTitleColumn(p.jobTitle.value));
      updates := updates + [JobTitleColumn(p.jobTitle.value)];
    }
    q := ProfilePatch(p.fullName, p.avatarUrl, p.bio, p.jobTitle);
    assert PatchOfProfileColumns(updates) == q;
    PatchOfProfileColumnsEmpty(updates);
    forall u ensures SetProfileColumns(u, updates) == PatchProfile(u, p) {
      SetProfileColumnsIsPatch(u, updates);
    }
  }

  /** A profile update never changes the email, the password hash or the
      creation time; the same patch twice is the patch once; the empty patch
      changes nothing. */
  lemma PatchProfileFacts(u: User, p: ProfilePatch)
    ensures PatchProfile(u, p).email == u.email && PatchProfile(u, p).passwordHash == u.passwordHash
    ensures PatchProfile(u, p).createdAt == u.createdAt
    ensures PatchProfile(PatchProfile(u, p), p) == PatchProfile(u, p)
    ensures p.IsEmpty() ==> PatchProfile(u, p) == u
  {
  }

  /** `PUT /auth/profile` on the caller's own row. When that row is missing
      the update matches nothing and reading the returned row fails, which
      the handler answers with a 500. */
  method UpdateProfile(db: Database, userId: Id, p: ProfilePatch, isUrl: string -> bool)
    returns (r: Result<Profile, Failure>)
    requires db.Valid()
    modifies db`users
    ensures db.Valid()
    ensures !p.IsValid(isUrl) ==> r == Failure(Invalid)
    ensures p.IsValid(isUrl) ==>
      if p.IsEmpty() then r == Failure(NoFieldsToUpdate)
      else if userId !in old(db.users) then r == Failure(InternalError)
      else
        && r == Success(ProfileOf(userId, PatchProfile(old(db.users)[userId], p)))
        && db.users == old(db.users)[userId := PatchProfile(old(db.users)[userId], p)]
    ensures r.Failure? ==> db.users == old(db.users)
  {
    if !p.IsValid(isUrl) {
      return Failure(Invalid);
    }
    var updates := ProfileUpdates(p);
    if updates == [] {
      return Failure(NoFieldsToUpdate);
    }
    if userId !in db.users {
      return Failure(InternalError);
    }
    var updated := SetProfileColumns(db.users[userId], updates);
    db.users := db.users[userId := updated];
    return Success(ProfileOf(userId, updated));
  }
}
