/** users/views.py: which serializer the user endpoint uses, which profiles a
    user reaches, and which ratings the rating endpoint lists (and so which
    ratings get_object can reach for a retrieve, update or destroy). */
module UserViews {
  import opened Common
  import opened Users
  import opened Permissions

  // ----------------------------------------------------------------- UserViewSet

  datatype SerializerClass = UserSerializerClass | UserDashboardSerializerClass

  /** UserViewSet.get_serializer_class */
  function SerializerClassFor(a: Action): (c: SerializerClass)
    ensures c == UserDashboardSerializerClass <==> a == Named("dashboard")
    ensures c == UserSerializerClass <==> a != Named("dashboard")
  {
    if a == Named("dashboard") then UserDashboardSerializerClass else UserSerializerClass
  }

  /** UserViewSet.permission_classes, then the object check on the user
      record the request addresses. */
  predicate UserAccess(m: HttpMethod, requester: Option<User>, obj: UserId) {
    Admits([IsAuthenticated], requester) && requester.Some? && IsSameUserOrReadOnly(m, requester.value, obj)
  }

  /** Every authenticated user may read any user's record and dashboard; only
      the user themself may write it; anonymous requests are refused. */
  lemma UserAccessRules(m: HttpMethod, u: User, obj: UserId)
    ensures !UserAccess(m, None, obj)
    ensures IsSafeMethod(m) ==> UserAccess(m, Some(u), obj)
    ensures !IsSafeMethod(m) ==> (UserAccess(m, Some(u), obj) <==> u.id == obj)
  {
    assert !HasPermission([IsAuthenticated][0], None);
  }

  // -------------------------------------------------------------- ProfileViewSet

  /** ProfileViewSet.get_queryset over the profile table (keyed by the
      owner's id): the requester's own profile, if there is one. */
  function ProfileQueryset(u: User, profiles: map<UserId, Profile>): (r: set<UserId>)
    ensures r <= {u.id}
    ensures u.id in profiles <==> r == {u.id}
    ensures u.id !in profiles <==> r == {}
  {
    if u.id in profiles then {u.id} else {}
  }

  /** Because get_object only reaches the requester's own profile, the
      IsOwnerOrReadOnly object check always passes on what it reaches: no
      request touches another user's profile. */
  lemma ProfileReachOnlyOwn(m: HttpMethod, u: User, profiles: map<UserId, Profile>, owner: UserId)
    requires owner in ProfileQueryset(u, profiles)
    ensures owner == u.id && owner in profiles
    ensures IsOwnerOrReadOnly(m, u, owner)
  {
  }

  // --------------------------------------------------------------- RatingViewSet

  /** The query parameters get_queryset looks at. `received` and `given` are
      tested for truthiness; `user` is the numeric id given, and None both
      when it is absent and when it is the empty string `?user=`, which is
      falsy and falls through to the default branch. */
  datatype RatingParams = RatingParams(received: Option<string>, given: Option<string>, user: Option<UserId>)

  const NoRatingParams: RatingParams := RatingParams(None, None, None)

  /** Membership in RatingViewSet.get_queryset: the first parameter present
      decides; with none, staff see every rating and others those they
      received or gave. */
  predicate RatingSelected(u: User, p: RatingParams, r: Rating) {
    if TruthyText(p.received) then r.user == u.id
    else if TruthyText(p.given) then r.ratedBy == u.id
    else if p.user.Some? then r.user == p.user.value
    else if u.isStaff then true
    else r.user == u.id || r.ratedBy == u.id
  }

  /** RatingViewSet.get_queryset over the rating table, in table order. */
  function RatingQueryset(u: User, p: RatingParams, ratings: seq<Rating>): (r: seq<Rating>)
    ensures |r| <= |ratings|
    decreases |ratings|
  {
    if ratings == [] then []
    else if RatingSelected(u, p, ratings[0]) then [ratings[0]] + RatingQueryset(u, p, ratings[1..])
    else RatingQueryset(u, p, ratings[1..])
  }

  /** The listed ratings are exactly the selected ones of the table. */
  lemma {:induction false} RatingQuerysetMembers(u: User, p: RatingParams, ratings: seq<Rating>)
    ensures forall x :: x in RatingQueryset(u, p, ratings) <==> x in ratings && RatingSelected(u, p, x)
    decreases |ratings|
  {
    if ratings != [] {
      RatingQuerysetMembers(u, p, ratings[1..]);
      assert ratings == [ratings[0]] + ratings[1..];
    }
  }

  /** The branches of get_queryset, one per ensures, in their order of
      precedence. */
  lemma RatingSelectionBranches(u: User, p: RatingParams, r: Rating)
    ensures TruthyText(p.received) ==> (RatingSelected(u, p, r) <==> r.user == u.id)
    ensures !TruthyText(p.received) && TruthyText(p.given) ==> (RatingSelected(u, p, r) <==> r.ratedBy == u.id)
    ensures !TruthyText(p.received) && !TruthyText(p.given) && p.user.Some? ==> (RatingSelected(u, p, r) <==> r.user == p.user.value)
    ensures p == NoRatingParams && u.isStaff ==> RatingSelected(u, p, r)
    ensures p == NoRatingParams && !u.isStaff ==> (RatingSelected(u, p, r) <==> r.user == u.id || r.ratedBy == u.id)
  {
  }

  /** RatingViewSet guards every action with IsAuthenticated alone, and
      get_object looks up the pk in get_queryset with the request's query
      parameters. So with ?user=<id> any authenticated user reaches, and may
      update or destroy, every rating that user received; without parameters
      a user reaches the ratings they received as well as those they gave. */
  lemma EveryRatingReachableByAnyUser(u: User, r: Rating, ratings: seq<Rating>)
    requires r in ratings
    ensures Admits([IsAuthenticated], Some(u))
    ensures r in RatingQueryset(u, RatingParams(None, None, Some(r.user)), ratings)
    ensures r.user == u.id ==> r in RatingQueryset(u, NoRatingParams, ratings)
  {
    RatingQuerysetMembers(u, RatingParams(None, None, Some(r.user)), ratings);
    RatingQuerysetMembers(u, NoRatingParams, ratings);
  }
}
