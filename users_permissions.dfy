/** users/permissions.py: the object-level ownership checks and the
    staff/role checks the viewsets combine, plus the way a viewset applies a
    list of permission classes to a request (every class must admit it). */
module Permissions {
  import opened Common
  import opened Users

  datatype HttpMethod = Get | Head | Options | Post | Put | Patch | Delete

  /** permissions.SAFE_METHODS */
  predicate IsSafeMethod(m: HttpMethod) {
    m == Get || m == Head || m == Options
  }

  /** IsOwnerOrReadOnly.has_object_permission; `owner` is obj.user. */
  predicate IsOwnerOrReadOnly(m: HttpMethod, requester: User, owner: UserId) {
    IsSafeMethod(m) || owner == requester.id
  }

  /** IsSameUserOrReadOnly.has_object_permission; `obj` is the user edited. */
  predicate IsSameUserOrReadOnly(m: HttpMethod, requester: User, obj: UserId) {
    IsSafeMethod(m) || obj == requester.id
  }

  /** The permission classes the viewsets list. The requester is None for an
      anonymous request. */
  datatype PermissionClass = IsAuthenticated | IsAdminUser | IsTeacher | IsTechnician | IsStudent

  /** has_permission of each class. IsAdminUser looks at is_staff only (an
      anonymous user is never staff); the role classes compare the role. */
  predicate HasPermission(p: PermissionClass, requester: Option<User>) {
    match p
    case IsAuthenticated => requester.Some?
    case IsAdminUser => requester.Some? && requester.value.isStaff
    case IsTeacher => requester.Some? && requester.value.role == Teacher
    case IsTechnician => requester.Some? && requester.value.role == Technician
    case IsStudent => requester.Some? && requester.value.role == Student
  }

  /** APIView.check_permissions: the request goes through only if every
      listed permission class admits it. */
  predicate Admits(classes: seq<PermissionClass>, requester: Option<User>) {
    forall i :: 0 <= i < |classes| ==> HasPermission(classes[i], requester)
  }

  /** self.action of a viewset: the router's standard actions and the names
      of the extra @action methods. */
  datatype Action = List | Retrieve | Create | Update | PartialUpdate | Destroy | Named(name: string)

  /** How the short permission lists the viewsets build are decided: after
      IsAuthenticated, an authenticated user passes exactly when the second
      class admits them. */
  lemma AdmitsAuthenticatedThen(p: PermissionClass)
    ensures forall u: User :: Admits([IsAuthenticated], Some(u))
    ensures forall u: User :: Admits([IsAuthenticated, p], Some(u)) <==> HasPermission(p, Some(u))
  {
    forall u: User ensures Admits([IsAuthenticated, p], Some(u)) <==> HasPermission(p, Some(u)) {
      assert [IsAuthenticated, p][1] == p;
    }
  }

  /** A write to an object guarded by IsOwnerOrReadOnly is admitted for its
      owner and for nobody else; reads are admitted for everyone. */
  lemma OwnerCheckSingleWriter(m: HttpMethod, owner: UserId, u: User, v: User)
    ensures IsSafeMethod(m) ==> IsOwnerOrReadOnly(m, u, owner)
    ensures !IsSafeMethod(m) && IsOwnerOrReadOnly(m, u, owner) && IsOwnerOrReadOnly(m, v, owner) ==> u.id == v.id
    ensures !IsSafeMethod(m) ==> (IsOwnerOrReadOnly(m, u, owner) <==> u.id == owner)
  {
  }

  /** A write to a user record guarded by IsSameUserOrReadOnly is admitted
      only for that user. */
  lemma SameUserCheckOnlySelf(m: HttpMethod, obj: UserId, u: User)
    ensures IsSafeMethod(m) ==> IsSameUserOrReadOnly(m, u, obj)
    ensures !IsSafeMethod(m) ==> (IsSameUserOrReadOnly(m, u, obj) <==> u.id == obj)
  {
  }

  /** IsAdminUser holds exactly for staff, whatever the role, so a user
      whose role is `admin` but who is not staff is refused by it. */
  lemma AdminRoleAloneIsNotAdminUser()
    ensures forall u: User :: HasPermission(IsAdminUser, Some(u)) <==> u.isStaff
    ensures exists u: User :: u.role == Admin && !HasPermission(IsAdminUser, Some(u))
  {
    var u := User(1, "a@example.org", "A", Admin, false, false, Blank);
    assert u.role == Admin && !HasPermission(IsAdminUser, Some(u));
  }

  /** The role is a single value, so at most one of the three role classes
      admits any user. */
  lemma RoleClassesExclusive(u: Option<User>)
    ensures !(HasPermission(IsTeacher, u) && HasPermission(IsTechnician, u))
    ensures !(HasPermission(IsTeacher, u) && HasPermission(IsStudent, u))
    ensures !(HasPermission(IsTechnician, u) && HasPermission(IsStudent, u))
  {
  }

  /** A permission list that starts with IsAuthenticated refuses every
      anonymous request before any role or staff check is reached. */
  lemma AnonymousRefused(classes: seq<PermissionClass>)
    requires |classes| > 0 && classes[0] == IsAuthenticated
    ensures !Admits(classes, None)
  {
    assert !HasPermission(classes[0], None);
  }
}
