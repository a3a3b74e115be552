/** users/serializers.py: creating and updating a user with its nested
    profile, registration with password confirmation, rating another user,
    and the figures of the dashboard (average rating received, completed
    repairs, completed academic sessions). */
module UserSerializers {
  import opened Common
  import opened Users
  import opened RepairModels
  import opened AcademicModels
  import opened AcademicViews
  import RepairViews

  // ------------------------------------------------------------- profile data

  /** One item of a submitted profile dict, as the client sent it.
      total_earnings is read-only in ProfileSerializer, so no item writes it. */
  datatype ProfileAttr =
    | SetPicture(picture: Option<string>)
    | SetBio(bio: string)
    | SetPhoneNumber(phoneNumber: string)
    | SetExpertise(expertise: string)
    | SetHourlyRate(hourlyRate: Option<Cents>)

  /** setattr(profile, attr, value) with the validated value: the text
      fields are CharFields, so they arrive trimmed. */
  function ApplyProfileAttr(p: Profile, a: ProfileAttr): (q: Profile)
    ensures q.totalEarnings == p.totalEarnings
    ensures a.SetBio? ==> q.bio == Strip(a.bio)
    ensures a.SetPhoneNumber? ==> q.phoneNumber == Strip(a.phoneNumber)
    ensures a.SetExpertise? ==> q.expertise == Strip(a.expertise)
  {
    match a
    case SetPicture(v) => p.(picture := v)
    case SetBio(v) => p.(bio := Strip(v))
    case SetPhoneNumber(v) => p.(phoneNumber := Strip(v))
    case SetExpertise(v) => p.(expertise := Strip(v))
    case SetHourlyRate(v) => p.(hourlyRate := v)
  }

  /** The items applied in order. */
  function ApplyProfileAttrs(p: Profile, items: seq<ProfileAttr>): Profile
    decreases |items|
  {
    if items == [] then p else ApplyProfileAttr(ApplyProfileAttrs(p, items[..|items| - 1]), items[|items| - 1])
  }

  /** for attr, value in profile_data.items(): setattr(profile, attr, value) */
  method ApplyProfileItems(p0: Profile, items: seq<ProfileAttr>) returns (p: Profile)
    ensures p == ApplyProfileAttrs(p0, items)
    ensures p.totalEarnings == p0.totalEarnings
  {
    p := p0;
    var j := 0;
    while j < |items|
      invariant 0 <= j <= |items|
      invariant p == ApplyProfileAttrs(p0, items[..j])
      invariant p.totalEarnings == p0.totalEarnings
    {
      assert items[..j + 1][..j] == items[..j];
      p := ApplyProfileAttr(p, items[j]);
      j := j + 1;
    }
    assert items[..|items|] == items;
  }

  /** No profile update touches the earnings. */
  lemma {:induction false} ProfileAttrsKeepEarnings(p: Profile, items: seq<ProfileAttr>)
    ensures ApplyProfileAttrs(p, items).totalEarnings == p.totalEarnings
    decreases |items|
  {
    if items != [] {
      ProfileAttrsKeepEarnings(p, items[..|items| - 1]);
    }
  }

  // ---------------------------------------------------------------- user data

  /** One item of the submitted user dict, as the client sent it: the
      writable fields of UserSerializer (id and date_joined are read-only;
      password is not a declared field and never reaches validated_data). */
  datatype UserAttr = SetEmail(email: string) | SetFullName(fullName: string) | SetRole(role: Role)

  /** setattr(instance, attr, value) with the validated value: email and
      full_name are CharFields, so their text arrives trimmed. */
  function ApplyUserAttr(u: User, a: UserAttr): (v: User)
    ensures v.id == u.id && v.isStaff == u.isStaff && v.isSuperuser == u.isSuperuser && v.password == u.password
    ensures a.SetEmail? ==> v == u.(email := Strip(a.email))
    ensures a.SetFullName? ==> v == u.(fullName := Strip(a.fullName))
    ensures a.SetRole? ==> v == u.(role := a.role)
  {
    match a
    case SetEmail(e) => u.(email := Strip(e))
    case SetFullName(n) => u.(fullName := Strip(n))
    case SetRole(r) => u.(role := r)
  }

  /** for attr, value in validated_data.items(): setattr(instance, attr, value) */
  function ApplyUserAttrs(u: User, items: seq<UserAttr>): User
    decreases |items|
  {
    if items == [] then u else ApplyUserAttr(ApplyUserAttrs(u, items[..|items| - 1]), items[|items| - 1])
  }

  /** for attr, value in validated_data.items(): setattr(instance, attr, value) */
  method ApplyUserItems(u0: User, items: seq<UserAttr>) returns (u: User)
    ensures u == ApplyUserAttrs(u0, items)
    ensures u.id == u0.id && u.isStaff == u0.isStaff && u.isSuperuser == u0.isSuperuser && u.password == u0.password
  {
    u := u0;
    var i := 0;
    while i < |items|
      invariant 0 <= i <= |items|
      invariant u == ApplyUserAttrs(u0, items[..i])
      invariant u.id == u0.id && u.isStaff == u0.isStaff && u.isSuperuser == u0.isSuperuser && u.password == u0.password
    {
      assert items[..i + 1][..i] == items[..i];
      u := ApplyUserAttr(u, items[i]);
      i := i + 1;
    }
    assert items[..|items|] == items;
  }

  /** The loop overwrites only what the items supply: the id, the flags and
      the password stay; a field no item names keeps its value; the email
      ends as it was or as the trimmed text of some supplied email. */
  lemma {:induction false} UserAttrsOnlySupplied(u: User, items: seq<UserAttr>)
    ensures var v := ApplyUserAttrs(u, items);
      && v.id == u.id && v.isStaff == u.isStaff && v.isSuperuser == u.isSuperuser && v.password == u.password
      && (v.email == u.email || exists i :: 0 <= i < |items| && items[i].SetEmail? && Strip(items[i].email) == v.email)
      && ((forall i :: 0 <= i < |items| ==> !items[i].SetEmail?) ==> v.email == u.email)
      && ((forall i :: 0 <= i < |items| ==> !items[i].SetFullName?) ==> v.fullName == u.fullName)
      && ((forall i :: 0 <= i < |items| ==> !items[i].SetRole?) ==> v.role == u.role)
    decreases |items|
  {
    if items != [] {
      var init := items[..|items| - 1];
      UserAttrsOnlySupplied(u, init);
      var w := ApplyUserAttrs(u, init);
      if w.email != u.email {
        var i :| 0 <= i < |init| && init[i].SetEmail? && Strip(init[i].email) == w.email;
        assert items[i] == init[i];
      }
      forall i | 0 <= i < |init| ensures init[i] == items[i] {}
    }
  }

  /** The user after update, before it is saved: the items, then the
      password when one is given and truthy. */
  function UpdatedUser(u: User, items: seq<UserAttr>, password: Option<string>): (v: User)
    ensures TruthyText(password) ==> v.password == Hashed(password.value)
    ensures !TruthyText(password) ==> v.password == u.password
    ensures v.id == u.id && v.isStaff == u.isStaff && v.isSuperuser == u.isSuperuser
  {
    UserAttrsOnlySupplied(u, items);
    var w := ApplyUserAttrs(u, items);
    if TruthyText(password) then w.(password := Hashed(password.value)) else w
  }

  predicate SuppliesEmail(items: seq<UserAttr>) {
    exists i :: 0 <= i < |items| && items[i].SetEmail?
  }

  predicate SuppliesFullName(items: seq<UserAttr>) {
    exists i :: 0 <= i < |items| && items[i].SetFullName?
  }

  /** Field validation of an update. A full update (PUT, `partial` false)
      must supply email and full_name, the required fields (role has a
      default); a partial one (PATCH) need not. Every supplied email must be
      non-blank once trimmed and not used by another user, every supplied
      full name non-blank once trimmed. */
  predicate UpdateAccepted(store: UserStore, id: UserId, items: seq<UserAttr>, partial: bool)
    reads store
  {
    && (!partial ==> SuppliesEmail(items) && SuppliesFullName(items))
    && (forall i :: 0 <= i < |items| && items[i].SetEmail? ==> Strip(items[i].email) != "" && store.EmailFreeFor(Strip(items[i].email), id))
    && (forall i :: 0 <= i < |items| && items[i].SetFullName? ==> Strip(items[i].fullName) != "")
  }

  /** The error a refused update reports: the first failing field in
      declaration order, email before full_name. */
  function UpdateError(store: UserStore, id: UserId, items: seq<UserAttr>, partial: bool): Error
    reads store
  {
    if !partial && !SuppliesEmail(items) then FieldRequired
    else if exists i :: 0 <= i < |items| && items[i].SetEmail? && Strip(items[i].email) == "" then EmailRequired
    else if exists i :: 0 <= i < |items| && items[i].SetEmail? && !store.EmailFreeFor(Strip(items[i].email), id) then DuplicateEmail
    else if !partial && !SuppliesFullName(items) then FieldRequired
    else BlankField
  }

  /** A PUT that supplies only the role is refused for the missing required
      field, while the same items as a PATCH are accepted. */
  lemma FullUpdateNeedsRequiredFields(store: UserStore, id: UserId, role: Role)
    ensures !UpdateAccepted(store, id, [SetRole(role)], false)
    ensures UpdateError(store, id, [SetRole(role)], false) == FieldRequired
    ensures UpdateAccepted(store, id, [SetRole(role)], true)
  {
    assert !SuppliesEmail([SetRole(role)]);
  }

  /** An update whose supplied emails are all free leaves the user with an
      email no other user has. */
  lemma UpdatedEmailFree(store: UserStore, id: UserId, items: seq<UserAttr>, password: Option<string>)
    requires store.Valid() && id in store.users
    requires forall i :: 0 <= i < |items| && items[i].SetEmail? ==> store.EmailFreeFor(Strip(items[i].email), id)
    ensures store.EmailFreeFor(UpdatedUser(store.users[id], items, password).email, id)
  {
    var u0 := store.users[id];
    UserAttrsOnlySupplied(u0, items);
    var v := UpdatedUser(u0, items, password);
    if v.email != u0.email {
      var k :| 0 <= k < |items| && items[k].SetEmail? && Strip(items[k].email) == v.email;
    }
  }

  /** UserSerializer.update, reached through PUT (`partial` false) or PATCH
      (`partial` true): validate, apply the user items, set the password if
      truthy, save; then, when profile items are supplied and the user has a
      profile, apply them to it and save it. `password` is the value popped
      from validated_data, which the declared fields never supply. */
  method Update(store: UserStore, id: UserId, items: seq<UserAttr>, partial: bool, password: Option<string>, profileItems: seq<ProfileAttr>)
    returns (r: Outcome)
    requires store.Valid() && id in store.users
    modifies store`users, store`profiles
    ensures store.Valid()
    ensures r.Done? <==> old(UpdateAccepted(store, id, items, partial))
    ensures r.Rejected? ==> r.error == old(UpdateError(store, id, items, partial))
    ensures r.Rejected? ==> store.users == old(store.users) && store.profiles == old(store.profiles)
    ensures r.Done? ==> store.users == old(store.users)[id := UpdatedUser(old(store.users)[id], items, password)]
    ensures r.Done? && |profileItems| > 0 && id in old(store.profiles) ==>
      store.profiles == old(store.profiles)[id := ApplyProfileAttrs(old(store.profiles)[id], profileItems)]
    ensures r.Done? && !(|profileItems| > 0 && id in old(store.profiles)) ==> store.profiles == old(store.profiles)
  {
    if !UpdateAccepted(store, id, items, partial) {
      return Rejected(UpdateError(store, id, items, partial));
    }
    var u0 := store.users[id];
    var u := ApplyUserItems(u0, items);
    if TruthyText(password) {
      u := u.(password := Hashed(password.value));
    }
    assert u == UpdatedUser(u0, items, password);
    UpdatedEmailFree(store, id, items, password);
    store.SaveUser(u);
    if |profileItems| > 0 && store.HasProfile(id) {
      var p := ApplyProfileItems(store.profiles[id], profileItems);
      store.SaveProfile(id, p);
    }
    r := Done;
  }

  /** The saving half of UserSerializer.create, once the fields are valid:
      User.objects.create with the validated email, name and role, the
      password set only when truthy, and exactly one profile: from the
      profile items when some are supplied, else all defaults. */
  method SaveNewUser(store: UserStore, email: string, fullName: string, role: Option<Role>, password: Option<string>, profileItems: seq<ProfileAttr>)
    returns (id: UserId)
    requires store.Valid() && email != "" && !store.EmailTaken(email)
    modifies store`users, store`profiles, store`nextId
    ensures store.Valid()
    ensures id !in old(store.users) && id !in old(store.profiles)
    ensures store.users == old(store.users)[id :=
      User(id, email, fullName, if role.Some? then role.value else DefaultRole, false, false,
           if TruthyText(password) then Hashed(password.value) else Blank)]
    ensures store.profiles == old(store.profiles)[id :=
      if |profileItems| > 0 then ApplyProfileAttrs(DefaultProfile, profileItems) else DefaultProfile]
  {
    ghost var profile := if |profileItems| > 0 then ApplyProfileAttrs(DefaultProfile, profileItems) else DefaultProfile;
    id := store.ObjectsCreate(email, fullName, role);
    if TruthyText(password) {
      store.SavePassword(id, password.value);
    }
    var p := DefaultProfile;
    if |profileItems| > 0 {
      p := ApplyProfileItems(DefaultProfile, profileItems);
    }
    assert p == profile;
    store.SaveProfile(id, p);
  }

  /** UserSerializer.create: field validation of the email and the full
      name on their trimmed text (email first), then SaveNewUser with the
      trimmed values. */
  method Create(store: UserStore, email: string, fullName: string, role: Option<Role>, password: Option<string>, profileItems: seq<ProfileAttr>)
    returns (r: Result<UserId>)
    requires store.Valid()
    modifies store`users, store`profiles, store`nextId
    ensures store.Valid()
    ensures r.Ok? <==> Strip(email) != "" && !old(store.EmailTaken(Strip(email))) && Strip(fullName) != ""
    ensures Strip(email) == "" ==> r == Err(EmailRequired)
    ensures Strip(email) != "" && old(store.EmailTaken(Strip(email))) ==> r == Err(DuplicateEmail)
    ensures Strip(email) != "" && !old(store.EmailTaken(Strip(email))) && Strip(fullName) == "" ==> r == Err(BlankField)
    ensures r.Err? ==> store.users == old(store.users) && store.profiles == old(store.profiles)
    ensures r.Ok? ==> r.value !in old(store.users) && r.value !in old(store.profiles)
    ensures r.Ok? ==> store.users == old(store.users)[r.value :=
      User(r.value, Strip(email), Strip(fullName), if role.Some? then role.value else DefaultRole, false, false,
           if TruthyText(password) then Hashed(password.value) else Blank)]
    ensures r.Ok? ==> store.profiles == old(store.profiles)[r.value :=
      if |profileItems| > 0 then ApplyProfileAttrs(DefaultProfile, profileItems) else DefaultProfile]
  {
    var e, n := Strip(email), Strip(fullName);
    if e == "" {
      return Err(EmailRequired);
    }
    if store.EmailTaken(e) {
      return Err(DuplicateEmail);
    }
    if n == "" {
      return Err(BlankField);
    }
    var id := SaveNewUser(store, e, n, role, password, profileItems);
    r := Ok(id);
  }

  // ------------------------------------------------------------- registration

  /** What a client submits to register. */
  datatype Registration = Registration(email: string, fullName: string, role: Option<Role>, password: string, password2: string)

  /** The registration as validated_data holds it: every field is a
      CharField, so each text is trimmed. */
  function Cleaned(reg: Registration): (c: Registration)
    ensures c.role == reg.role
    ensures c.email == Strip(reg.email) && c.fullName == Strip(reg.fullName)
    ensures c.password == Strip(reg.password) && c.password2 == Strip(reg.password2)
  {
    Registration(Strip(reg.email), Strip(reg.fullName), reg.role, Strip(reg.password), Strip(reg.password2))
  }

  /** is_valid() on a registration: the field validators in field order on
      the trimmed text (email non-blank and unused, full name non-blank, both
      passwords non-blank), then validate(), which compares the two trimmed
      passwords. `emailTaken` says whether the trimmed email is in use. */
  function ValidateRegistration(reg: Registration, emailTaken: bool): (r: Outcome)
    ensures var c := Cleaned(reg);
      r.Done? <==> c.email != "" && !emailTaken && c.fullName != "" && c.password != "" && c.password2 != "" && c.password == c.password2
    ensures Strip(reg.email) == "" ==> r == Rejected(EmailRequired)
    ensures Strip(reg.email) != "" && emailTaken ==> r == Rejected(DuplicateEmail)
    ensures Strip(reg.email) != "" && !emailTaken && Strip(reg.fullName) == "" ==> r == Rejected(BlankField)
    ensures Strip(reg.email) != "" && !emailTaken && Strip(reg.fullName) != "" && (Strip(reg.password) == "" || Strip(reg.password2) == "") ==>
      r == Rejected(BlankPassword)
    ensures var c := Cleaned(reg);
      c.email != "" && !emailTaken && c.fullName != "" && c.password != "" && c.password2 != "" && c.password != c.password2 ==>
      r == Rejected(PasswordsDoNotMatch)
  {
    var c := Cleaned(reg);
    if c.email == "" then Rejected(EmailRequired)
    else if emailTaken then Rejected(DuplicateEmail)
    else if c.fullName == "" then Rejected(BlankField)
    else if c.password == "" || c.password2 == "" then Rejected(BlankPassword)
    else if c.password != c.password2 then Rejected(PasswordsDoNotMatch)
    else Done
  }

  /** UserRegistrationSerializer: validate, drop password2, create_user with
      the rest of the trimmed data, then create exactly one profile with all
      defaults. */
  method Register(store: UserStore, reg: Registration) returns (r: Result<UserId>)
    requires store.Valid()
    modifies store
    ensures store.Valid()
    ensures r.Ok? <==> ValidateRegistration(reg, old(store.EmailTaken(Strip(reg.email)))).Done?
    ensures r.Err? ==> r.error == ValidateRegistration(reg, old(store.EmailTaken(Strip(reg.email)))).error
    ensures r.Err? ==> store.users == old(store.users) && store.profiles == old(store.profiles)
    ensures store.ratings == old(store.ratings)
    ensures r.Ok? ==> r.value !in old(store.users) && r.value !in old(store.profiles)
    ensures r.Ok? ==> store.users == old(store.users)[r.value :=
      BuildUser(r.value, Strip(reg.email), Some(Strip(reg.password)), RegularUserFields(ExtraFields(Strip(reg.fullName), reg.role, None, None))).value]
    ensures r.Ok? ==> store.users[r.value].password == Hashed(Strip(reg.password))
    ensures r.Ok? ==> !store.users[r.value].isStaff && !store.users[r.value].isSuperuser
    ensures r.Ok? ==> store.profiles == old(store.profiles)[r.value := DefaultProfile]
  {
    var c := Cleaned(reg);
    var v := ValidateRegistration(reg, store.EmailTaken(c.email));
    if v.Rejected? {
      return Err(v.error);
    }
    var created := store.CreateUser(c.email, Some(c.password), ExtraFields(c.fullName, reg.role, None, None));
    if created.Ok? {
      store.SaveProfile(created.value, DefaultProfile);
    }
    r := created;
  }

  /** Both passwords are trimmed before they are compared and saved: " pw "
      confirmed by "pw" registers with the credential of "pw", and a password
      of spaces is blank. */
  lemma RegistrationTrimsPasswords(email: string, name: string)
    requires Strip(email) != "" && Strip(name) != ""
    ensures ValidateRegistration(Registration(email, name, None, " pw ", "pw"), false) == Done
    ensures Cleaned(Registration(email, name, None, " pw ", "pw")).password == "pw"
    ensures ValidateRegistration(Registration(email, name, None, "   ", "   "), false) == Rejected(BlankPassword)
  {
    assert StripStart(" pw ") == "pw ";
    assert StripEnd("pw ") == "pw";
    assert StripStart("pw") == "pw" && StripEnd("pw") == "pw";
    StripBlank("   ");
  }

  /** The role is an ordinary writable field of registration, so anyone may
      register with the admin role: the account is not staff, yet the
      question and repair querysets, which test the role as well as the
      staff flag, show it every case. */
  lemma SelfRegisteredAdminSeesEveryCase(id: UserId, reg: Registration, q: QuestionState, r: RepairState)
    requires reg.role == Some(Admin) && ValidateRegistration(reg, false).Done?
    ensures var c := Cleaned(reg); BuildUser(id, c.email, Some(c.password), RegularUserFields(ExtraFields(c.fullName, reg.role, None, None))).Ok?
    ensures var c := Cleaned(reg); var u := BuildUser(id, c.email, Some(c.password), RegularUserFields(ExtraFields(c.fullName, reg.role, None, None))).value;
      u.role == Admin && !u.isStaff && !u.isSuperuser && CanSeeQuestion(u, q) && RepairViews.CanSeeRepair(u, r)
  {
  }

  // ------------------------------------------------------------------ ratings

  /** is_valid() on a rating: the rated user must exist, the value be one
      of the choices and the review non-blank once trimmed (field validation, in field
      order), the requester must not be the rated user (validate); the pair
      must not be rated yet (the unique_together constraint, which DRF does
      not check because rated_by is read-only, so the database refuses it at
      save). */
  function ValidateRating(requester: UserId, target: UserId, value: int, review: string, known: set<UserId>, alreadyRated: bool): (r: Outcome)
    ensures r.Done? <==> target in known && RatingValueAllowed(value) && Strip(review) != "" && requester != target && !alreadyRated
    ensures target !in known ==> r == Rejected(UnknownObject)
    ensures target in known && !RatingValueAllowed(value) ==> r == Rejected(InvalidRatingValue)
    ensures target in known && RatingValueAllowed(value) && Strip(review) == "" ==> r == Rejected(BlankField)
    ensures target in known && RatingValueAllowed(value) && Strip(review) != "" && requester == target ==> r == Rejected(CannotRateYourself)
    ensures target in known && RatingValueAllowed(value) && Strip(review) != "" && requester != target && alreadyRated ==> r == Rejected(DuplicateRating)
  {
    if target !in known then Rejected(UnknownObject)
    else if !RatingValueAllowed(value) then Rejected(InvalidRatingValue)
    else if Strip(review) == "" then Rejected(BlankField)
    else if SelfRatingCheck(requester, Some(target), None).Rejected? then SelfRatingCheck(requester, Some(target), None)
    else if alreadyRated then Rejected(DuplicateRating)
    else Done
  }

  /** RatingSerializer.validate as written: it reads attrs['user'], which a
      partial update that leaves the rated user out does not hold, so such an
      update raises KeyError. */
  function SelfRatingCheckAsWritten(requester: UserId, submitted: Option<UserId>): (r: Outcome)
    ensures submitted.None? ==> r == Rejected(MissingKey)
    ensures submitted.Some? ==> (r.Rejected? <==> submitted.value == requester)
  {
    if submitted.None? then Rejected(MissingKey)
    else if requester == submitted.value then Rejected(CannotRateYourself)
    else Done
  }

  /** The check validate evidently means: the rated user is the submitted
      one, or, on an update that leaves it out, the one the rating already
      names. Rejected exactly when that user is the requester. */
  function SelfRatingCheck(requester: UserId, submitted: Option<UserId>, current: Option<UserId>): (r: Outcome)
    ensures r.Rejected? <==> (if submitted.Some? then submitted else current) == Some(requester)
    ensures r.Rejected? ==> r.error == CannotRateYourself
  {
    var target := if submitted.Some? then submitted else current;
    if target == Some(requester) then Rejected(CannotRateYourself) else Done
  }

  /** PATCH of a rating one gave, changing only its value: the code as
      written fails with KeyError, the intended check lets it through. */
  lemma PartialRatingUpdateFails()
    ensures SelfRatingCheckAsWritten(1, None) == Rejected(MissingKey)
    ensures SelfRatingCheck(1, None, Some(2)) == Done
  {
  }

  /** Whenever the rated user is submitted (always on create, where the field
      is required) the two checks agree, and the intended one still refuses
      a partial update of a rating of oneself. */
  lemma SelfRatingChecksAgree(requester: UserId, submitted: Option<UserId>, current: Option<UserId>)
    ensures submitted.Some? ==> SelfRatingCheckAsWritten(requester, submitted) == SelfRatingCheck(requester, submitted, current)
    ensures submitted.None? && current == Some(requester) ==> SelfRatingCheck(requester, submitted, current) == Rejected(CannotRateYourself)
  {
  }

  /** RatingSerializer: validate, then create with rated_by the requester
      and the trimmed review. */
  method Rate(store: UserStore, requester: User, target: UserId, value: int, review: string, now: Timestamp)
    returns (r: Result<Rating>)
    requires store.Valid() && requester.id in store.users
    modifies store`ratings
    ensures store.Valid()
    ensures r.Ok? <==> ValidateRating(requester.id, target, value, review, store.users.Keys, old(store.HasRated(target, requester.id))).Done?
    ensures r.Err? ==> r.error == ValidateRating(requester.id, target, value, review, store.users.Keys, old(store.HasRated(target, requester.id))).error
    ensures r.Err? ==> store.ratings == old(store.ratings)
    ensures r.Ok? ==> r.value == Rating(target, requester.id, value, Strip(review), now)
    ensures r.Ok? ==> store.ratings == old(store.ratings) + [r.value]
  {
    var v := ValidateRating(requester.id, target, value, review, store.users.Keys, store.HasRated(target, requester.id));
    if v.Rejected? {
      return Err(v.error);
    }
    var x := Rating(target, requester.id, value, Strip(review), now);
    store.AddRating(x);
    r := Ok(x);
  }

  /** A review of whitespace only is blank, whoever is rated. */
  lemma BlankReviewRefused(requester: UserId, target: UserId, value: int, known: set<UserId>, rated: bool)
    requires target in known && RatingValueAllowed(value)
    ensures ValidateRating(requester, target, value, " \t\n", known, rated) == Rejected(BlankField)
  {
    StripBlank(" \t\n");
  }

  /** A user can never rate themselves, whatever else is submitted. */
  lemma NoSelfRating(u: UserId, value: int, review: string, known: set<UserId>, rated: bool)
    ensures ValidateRating(u, u, value, review, known, rated).Rejected?
  {
  }

  // ---------------------------------------------------------------- dashboard

  /** The values of the ratings `u` has received, in table order. */
  function ReceivedValues(ratings: seq<Rating>, u: UserId): (vs: seq<int>)
    ensures |vs| <= |ratings|
    decreases |ratings|
  {
    if ratings == [] then []
    else if ratings[0].user == u then [ratings[0].value] + ReceivedValues(ratings[1..], u)
    else ReceivedValues(ratings[1..], u)
  }

  function Sum(vs: seq<int>): int
    decreases |vs|
  {
    if vs == [] then 0 else vs[0] + Sum(vs[1..])
  }

  /** A mean kept as the exact fraction sum / count. */
  datatype Average = Average(sum: int, count: nat)

  /** get_average_rating: None when there are no received ratings. */
  function AverageRating(ratings: seq<Rating>, u: UserId): (a: Option<Average>)
    ensures a.None? <==> |ReceivedValues(ratings, u)| == 0
    ensures a.Some? ==> a.value.count == |ReceivedValues(ratings, u)| > 0
    ensures a.Some? ==> a.value.sum == Sum(ReceivedValues(ratings, u))
  {
    var vs := ReceivedValues(ratings, u);
    if |vs| == 0 then None else Some(Average(Sum(vs), |vs|))
  }

  /** A sum of values between lo and hi lies between lo and hi times their
      number. */
  lemma {:induction false} SumBounds(vs: seq<int>, lo: int, hi: int)
    requires forall i :: 0 <= i < |vs| ==> lo <= vs[i] <= hi
    ensures lo * |vs| <= Sum(vs) <= hi * |vs|
    decreases |vs|
  {
    if vs != [] {
      SumBounds(vs[1..], lo, hi);
    }
  }

  /** Every received value is the value of a rating `u` received, so bounds
      on those ratings carry over. */
  lemma {:induction false} ReceivedValuesFrom(ratings: seq<Rating>, u: UserId, lo: int, hi: int)
    requires forall i :: 0 <= i < |ratings| && ratings[i].user == u ==> lo <= ratings[i].value <= hi
    ensures forall k :: 0 <= k < |ReceivedValues(ratings, u)| ==> lo <= ReceivedValues(ratings, u)[k] <= hi
    decreases |ratings|
  {
    if ratings != [] {
      ReceivedValuesFrom(ratings[1..], u, lo, hi);
    }
  }

  /** The average of the ratings `u` received lies between any lower and
      upper bound of those ratings' values (their minimum and maximum, and
      so within 1..5); ratings of other users play no part. */
  lemma AverageWithinRange(ratings: seq<Rating>, u: UserId, lo: int, hi: int)
    requires forall i :: 0 <= i < |ratings| && ratings[i].user == u ==> lo <= ratings[i].value <= hi
    ensures AverageRating(ratings, u).Some? ==>
      lo * AverageRating(ratings, u).value.count <= AverageRating(ratings, u).value.sum <= hi * AverageRating(ratings, u).value.count
  {
    ReceivedValuesFrom(ratings, u, lo, hi);
    SumBounds(ReceivedValues(ratings, u), lo, hi);
  }

  /** Whether a repair request counts as completed work of `t`. */
  predicate IsCompletedRepair(t: UserId, r: RepairState) {
    r.technician == Some(t) && r.status == Completed
  }

  /** The number of repairs `t` is assigned to that are completed. */
  function CountCompletedRepairs(t: UserId, repairs: seq<RepairState>): (n: nat)
    ensures n <= |repairs|
    decreases |repairs|
  {
    if repairs == [] then 0
    else (if IsCompletedRepair(t, repairs[0]) then 1 else 0) + CountCompletedRepairs(t, repairs[1..])
  }

  /** Replacing one request changes the count by what that request
      contributed before and after. */
  lemma {:induction false} CountCompletedRepairsUpdate(t: UserId, rs: seq<RepairState>, i: nat, x: RepairState)
    requires i < |rs|
    ensures CountCompletedRepairs(t, rs[i := x]) + (if IsCompletedRepair(t, rs[i]) then 1 else 0)
         == CountCompletedRepairs(t, rs) + (if IsCompletedRepair(t, x) then 1 else 0)
    decreases |rs|
  {
    if i == 0 {
      assert rs[i := x][1..] == rs[1..];
    } else {
      CountCompletedRepairsUpdate(t, rs[1..], i - 1, x);
      assert rs[i := x][1..] == rs[1..][i - 1 := x];
    }
  }

  /** get_completed_repairs: counted for technicians only. */
  function CompletedRepairs(u: User, repairs: seq<RepairState>): (n: nat)
    ensures u.role != Technician ==> n == 0
    ensures u.role == Technician ==> n == CountCompletedRepairs(u.id, repairs)
  {
    if u.role == Technician then CountCompletedRepairs(u.id, repairs) else 0
  }

  /** Whether a question counts as a completed session of `t`: assigned to
      `t` and answered (a closed question does not count). */
  predicate IsCompletedSession(t: UserId, q: QuestionState) {
    q.teacher == Some(t) && q.status == Answered
  }

  function CountAnswered(t: UserId, qs: seq<QuestionState>): (n: nat)
    ensures n <= |qs|
    decreases |qs|
  {
    if qs == [] then 0
    else (if IsCompletedSession(t, qs[0]) then 1 else 0) + CountAnswered(t, qs[1..])
  }

  /** get_completed_academic_sessions: counted for teachers only. */
  function CompletedSessions(u: User, qs: seq<QuestionState>): (n: nat)
    ensures u.role != Teacher ==> n == 0
    ensures u.role == Teacher ==> n == CountAnswered(u.id, qs)
  {
    if u.role == Teacher then CountAnswered(u.id, qs) else 0
  }

  /** Replacing one question changes the count by what that question
      contributed before and after. */
  lemma {:induction false} CountAnsweredUpdate(t: UserId, qs: seq<QuestionState>, i: nat, x: QuestionState)
    requires i < |qs|
    ensures CountAnswered(t, qs[i := x]) + (if IsCompletedSession(t, qs[i]) then 1 else 0)
         == CountAnswered(t, qs) + (if IsCompletedSession(t, x) then 1 else 0)
    decreases |qs|
  {
    if i == 0 {
      assert qs[i := x][1..] == qs[1..];
    } else {
      CountAnsweredUpdate(t, qs[1..], i - 1, x);
      assert qs[i := x][1..] == qs[1..][i - 1 := x];
    }
  }

  /** Accepting an answer closes the question, so the teacher's completed
      sessions go down by one: the dashboard rewards answered questions whose
      answer has not been accepted yet. */
  lemma AcceptingLowersCompletedSessions(t: User, qs: seq<QuestionState>, i: nat, student: User)
    requires i < |qs| && t.role == Teacher
    requires qs[i].teacher == Some(t.id) && qs[i].status == Answered
    requires AcceptStep(qs[i], student).Ok?
    ensures CompletedSessions(t, qs[i := AcceptStep(qs[i], student).value]) == CompletedSessions(t, qs) - 1
  {
    CountAnsweredUpdate(t.id, qs, i, AcceptStep(qs[i], student).value);
  }

  /** Completing a request that was not completed yet raises the
      technician's completed repairs by one; completing it again, which
      update_status allows, leaves the count as it was. */
  lemma CompletingRaisesCompletedRepairs(t: User, rs: seq<RepairState>, i: nat, c: Option<Cents>)
    requires i < |rs| && t.role == Technician
    requires rs[i].technician == Some(t.id) && TruthyAmount(c)
    ensures RepairViews.UpdateStatusStep(rs[i], t, Some(Completed), c).Ok?
    ensures var after := rs[i := RepairViews.UpdateStatusStep(rs[i], t, Some(Completed), c).value];
      CompletedRepairs(t, after) == CompletedRepairs(t, rs) + (if rs[i].status == Completed then 0 else 1)
  {
    CountCompletedRepairsUpdate(t.id, rs, i, RepairViews.UpdateStatusStep(rs[i], t, Some(Completed), c).value);
  }
}
