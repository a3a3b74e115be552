/** users/models.py: the custom user (email as identifier, one role out of
    four), its profile, ratings between users, and the manager that creates
    regular users and superusers. The user table, the profile table and the
    rating table are the fields of a UserStore. */
module Users {
  import opened Common

  type UserId = nat

  datatype Role = Student | Teacher | Technician | Admin

  /** role = CharField(choices=ROLE_CHOICES, default='student') */
  const DefaultRole: Role := Student

  /** What the password column holds: the empty default of a row created
      without a password, the mark left by set_password(None), or the hash of
      a secret (hashing itself is not modelled: the secret stands for it). */
  datatype Credential = Blank | Unusable | Hashed(secret: string)

  /** A user row. Equality of users in the views is equality of ids. */
  datatype User = User(
    id: UserId,
    email: string,
    fullName: string,
    role: Role,
    isStaff: bool,
    isSuperuser: bool,
    password: Credential)

  /** A profile row (one-to-one with its user, keyed by the user's id). */
  datatype Profile = Profile(
    picture: Option<string>,
    bio: string,
    phoneNumber: string,
    expertise: string,
    hourlyRate: Option<Cents>,
    totalEarnings: Cents)

  /** Profile.objects.create(user=user): every field at its default. */
  const DefaultProfile: Profile := Profile(None, "", "", "", None, 0)

  /** A rating row: `user` is rated by `ratedBy`. */
  datatype Rating = Rating(user: UserId, ratedBy: UserId, value: int, review: string, createdAt: Timestamp)

  /** rating = PositiveSmallIntegerField(choices=[(i, i) for i in range(1, 6)]) */
  predicate RatingValueAllowed(v: int) {
    1 <= v <= 5
  }

  /** The keyword arguments passed to the manager besides email and password;
      None stands for a key that is absent. */
  datatype ExtraFields = ExtraFields(
    fullName: string,
    role: Option<Role>,
    isStaff: Option<bool>,
    isSuperuser: Option<bool>)

  /** extra_fields.setdefault(key, d) for an optional boolean. */
  function SetDefault(v: Option<bool>, d: bool): (r: Option<bool>)
    ensures r.Some?
    ensures v.Some? ==> r == v
    ensures v.None? ==> r == Some(d)
  {
    if v.Some? then v else Some(d)
  }

  /** create_user: is_staff and is_superuser default to False. */
  function RegularUserFields(extra: ExtraFields): (e: ExtraFields)
    ensures e.isStaff.Some? && e.isStaff.value == (extra.isStaff.Some? && extra.isStaff.value)
    ensures e.isSuperuser.Some? && e.isSuperuser.value == (extra.isSuperuser.Some? && extra.isSuperuser.value)
    ensures e.fullName == extra.fullName && e.role == extra.role
  {
    extra.(isStaff := SetDefault(extra.isStaff, false), isSuperuser := SetDefault(extra.isSuperuser, false))
  }

  /** A flag the caller passed explicitly as False. */
  predicate PassedFalse(v: Option<bool>) {
    v.Some? && !v.value
  }

  /** create_superuser: both flags default to True, and a caller that passes
      either of them as False is refused. */
  function SuperuserFields(extra: ExtraFields): (r: Result<ExtraFields>)
    ensures r.Ok? <==> !PassedFalse(extra.isStaff) && !PassedFalse(extra.isSuperuser)
    ensures r.Ok? ==> r.value.isStaff == Some(true) && r.value.isSuperuser == Some(true)
    ensures r.Ok? ==> r.value.fullName == extra.fullName && r.value.role == extra.role
    ensures r.Err? && PassedFalse(extra.isStaff) ==> r.error == SuperuserNeedsStaff
    ensures r.Err? && !PassedFalse(extra.isStaff) ==> r.error == SuperuserNeedsSuperuser
  {
    var e := extra.(isStaff := SetDefault(extra.isStaff, true), isSuperuser := SetDefault(extra.isSuperuser, true));
    if !(e.isStaff.Some? && e.isStaff.value) then Err(SuperuserNeedsStaff)
    else if !(e.isSuperuser.Some? && e.isSuperuser.value) then Err(SuperuserNeedsSuperuser)
    else Ok(e)
  }

  /** user.set_password(password): None leaves an unusable password. */
  function SetPassword(password: Option<string>): (c: Credential)
    ensures password.None? <==> c == Unusable
    ensures password.Some? ==> c == Hashed(password.value)
  {
    if password.None? then Unusable else Hashed(password.value)
  }

  /** The row _create_user builds: refused when the email is empty; otherwise
      the given email, the extra fields (absent ones at the model's defaults)
      and the password set from `password`. */
  function BuildUser(id: UserId, email: string, password: Option<string>, extra: ExtraFields): (r: Result<User>)
    ensures r.Err? <==> email == ""
    ensures r.Err? ==> r.error == EmailRequired
    ensures r.Ok? ==> r.value.id == id && r.value.email == email && r.value.fullName == extra.fullName
    ensures r.Ok? ==> r.value.role == (if extra.role.Some? then extra.role.value else DefaultRole)
    ensures r.Ok? ==> r.value.isStaff == (extra.isStaff.Some? && extra.isStaff.value)
    ensures r.Ok? ==> r.value.isSuperuser == (extra.isSuperuser.Some? && extra.isSuperuser.value)
    ensures r.Ok? ==> r.value.password == SetPassword(password)
  {
    if email == "" then Err(EmailRequired)
    else
      Ok(User(id, email, extra.fullName, if extra.role.Some? then extra.role.value else DefaultRole,
              extra.isStaff.Some? && extra.isStaff.value,
              extra.isSuperuser.Some? && extra.isSuperuser.value, SetPassword(password)))
  }

  /** email = EmailField(unique=True) */
  ghost predicate EmailsUnique(users: map<UserId, User>) {
    forall a, b :: a in users && b in users && users[a].email == users[b].email ==> a == b
  }

  /** unique_together = ('user', 'rated_by'), the rating choices, and both
      foreign keys pointing at existing users. */
  ghost predicate RatingsWellFormed(ratings: seq<Rating>, ids: set<UserId>) {
    && (forall i :: 0 <= i < |ratings| ==>
          RatingValueAllowed(ratings[i].value) && ratings[i].user in ids && ratings[i].ratedBy in ids)
    && (forall i, j :: 0 <= i < j < |ratings| ==>
          ratings[i].user != ratings[j].user || ratings[i].ratedBy != ratings[j].ratedBy)
  }

  /** The user, profile and rating tables. */
  class UserStore {
    var users: map<UserId, User>
    var profiles: map<UserId, Profile>
    var ratings: seq<Rating>
    var nextId: UserId

    ghost predicate Valid()
      reads this
    {
      && (forall id :: id in users ==> users[id].id == id && id < nextId)
      && EmailsUnique(users)
      && profiles.Keys <= users.Keys
      && RatingsWellFormed(ratings, users.Keys)
    }

    constructor ()
      ensures Valid()
      ensures users == map[] && profiles == map[] && ratings == []
    {
      users, profiles, ratings, nextId := map[], map[], [], 1;
    }

    /** Whether some existing user already has this email address. */
    predicate EmailTaken(email: string)
      reads this
    {
      exists id :: id in users && users[id].email == email
    }

    /** hasattr(user, 'profile') */
    predicate HasProfile(id: UserId)
      reads this
    {
      id in profiles
    }

    /** _create_user: build the row and save it. An empty email raises before
        anything is saved; an email already in use violates the unique
        constraint and nothing is saved. The new user gets the next id. */
    method CreateUserRow(email: string, password: Option<string>, extra: ExtraFields) returns (r: Result<UserId>)
      requires Valid()
      modifies this
      ensures Valid()
      ensures r.Ok? <==> email != "" && !old(EmailTaken(email))
      ensures email == "" ==> r == Err(EmailRequired)
      ensures email != "" && old(EmailTaken(email)) ==> r == Err(DuplicateEmail)
      ensures r.Ok? ==> r.value == old(nextId) && r.value !in old(users)
      ensures r.Ok? ==> users == old(users)[r.value := BuildUser(r.value, email, password, extra).value]
      ensures r.Ok? ==> profiles == old(profiles) && ratings == old(ratings)
      ensures r.Err? ==> unchanged(this)
    {
      var built := BuildUser(nextId, email, password, extra);
      if built.Err? {
        return Err(built.error);
      }
      if EmailTaken(email) {
        return Err(DuplicateEmail);
      }
      var id := nextId;
      users := users[id := built.value];
      nextId := nextId + 1;
      r := Ok(id);
    }

    /** create_user */
    method CreateUser(email: string, password: Option<string>, extra: ExtraFields) returns (r: Result<UserId>)
      requires Valid()
      modifies this
      ensures Valid()
      ensures r.Ok? <==> email != "" && !old(EmailTaken(email))
      ensures r.Ok? ==> r.value in users && r.value !in old(users)
      ensures r.Ok? ==> (users[r.value].isStaff <==> extra.isStaff == Some(true))
      ensures r.Ok? ==> (users[r.value].isSuperuser <==> extra.isSuperuser == Some(true))
      ensures r.Ok? ==> users == old(users)[r.value := BuildUser(r.value, email, password, RegularUserFields(extra)).value]
      ensures r.Ok? ==> profiles == old(profiles) && ratings == old(ratings)
      ensures r.Err? ==> unchanged(this)
    {
      r := CreateUserRow(email, password, RegularUserFields(extra));
    }

    /** create_superuser: refused before anything is saved unless both flags
        end up True; a created superuser is staff and superuser. */
    method CreateSuperuser(email: string, password: string, extra: ExtraFields) returns (r: Result<UserId>)
      requires Valid()
      modifies this
      ensures Valid()
      ensures r.Ok? <==> SuperuserFields(extra).Ok? && email != "" && !old(EmailTaken(email))
      ensures r.Ok? ==> r.value in users && r.value !in old(users)
      ensures r.Ok? ==> users[r.value].isStaff && users[r.value].isSuperuser
      ensures r.Ok? ==> users[r.value].password == Hashed(password)
      ensures r.Ok? ==> users == old(users)[r.value := BuildUser(r.value, email, Some(password), SuperuserFields(extra).value).value]
      ensures r.Ok? ==> profiles == old(profiles) && ratings == old(ratings)
      ensures SuperuserFields(extra).Err? ==> r == Err(SuperuserFields(extra).error)
      ensures SuperuserFields(extra).Ok? && email == "" ==> r == Err(EmailRequired)
      ensures SuperuserFields(extra).Ok? && email != "" && old(EmailTaken(email)) ==> r == Err(DuplicateEmail)
      ensures r.Err? ==> unchanged(this)
    {
      var fields := SuperuserFields(extra);
      if fields.Err? {
        return Err(fields.error);
      }
      r := CreateUserRow(email, Some(password), fields.value);
    }

    /** User.objects.create(email=..., full_name=..., role=...): a row saved
        without going through the manager, so without set_password (the
        password column keeps its empty default) and with both flags False.
        The caller has validated the email. */
    method ObjectsCreate(email: string, fullName: string, role: Option<Role>) returns (id: UserId)
      requires Valid() && email != "" && !EmailTaken(email)
      modifies this`users, this`nextId
      ensures Valid()
      ensures id !in old(users)
      ensures users == old(users)[id := User(id, email, fullName, if role.Some? then role.value else DefaultRole, false, false, Blank)]
    {
      id := nextId;
      users := users[id := User(id, email, fullName, if role.Some? then role.value else DefaultRole, false, false, Blank)];
      nextId := nextId + 1;
    }

    /** Whether `email` is free for user `id`: no other user has it. */
    predicate EmailFreeFor(email: string, id: UserId)
      reads this
    {
      forall other :: other in users && other != id ==> users[other].email != email
    }

    /** instance.save() of an existing user row. */
    method SaveUser(u: User)
      requires Valid() && u.id in users && EmailFreeFor(u.email, u.id)
      modifies this`users
      ensures Valid()
      ensures users == old(users)[u.id := u]
    {
      users := users[u.id := u];
    }

    /** user.set_password(password); user.save(): only that user's
        credential changes. */
    method SavePassword(id: UserId, password: string)
      requires Valid() && id in users
      modifies this`users
      ensures Valid()
      ensures users == old(users)[id := old(users)[id].(password := Hashed(password))]
    {
      users := users[id := users[id].(password := Hashed(password))];
    }

    /** Profile.objects.create(user=id, ...) or profile.save(): the user's
        profile row becomes exactly `p`. */
    method SaveProfile(id: UserId, p: Profile)
      requires Valid() && id in users
      modifies this`profiles
      ensures Valid()
      ensures profiles == old(profiles)[id := p]
    {
      profiles := profiles[id := p];
    }

    /** Whether `ratedBy` has already rated `user`. */
    predicate HasRated(user: UserId, ratedBy: UserId)
      reads this
    {
      exists i :: 0 <= i < |ratings| && ratings[i].user == user && ratings[i].ratedBy == ratedBy
    }

    /** Saving a new rating row that meets the table's constraints. */
    method AddRating(x: Rating)
      requires Valid() && RatingValueAllowed(x.value) && x.user in users && x.ratedBy in users
      requires !HasRated(x.user, x.ratedBy)
      modifies this`ratings
      ensures Valid()
      ensures ratings == old(ratings) + [x]
    {
      ratings := ratings + [x];
    }

    /** profile.total_earnings += amount; profile.save(), done only when the
        user has a profile (the hasattr check of the callers). */
    method AddEarnings(id: UserId, amount: Cents)
      requires Valid()
      modifies this`profiles
      ensures Valid()
      ensures id in old(profiles) ==>
        profiles == old(profiles)[id := old(profiles)[id].(totalEarnings := old(profiles)[id].totalEarnings + amount)]
      ensures id !in old(profiles) ==> profiles == old(profiles)
    {
      if id in profiles {
        var p := profiles[id];
        profiles := profiles[id := p.(totalEarnings := p.totalEarnings + amount)];
      }
    }
  }
}
