/** resources/views.py: which permission classes guard each action of the
    category and resource viewsets, counting a view, and the list of
    featured resources. */
module ResourceViews {
  import opened Common
  import opened Users
  import opened Permissions
  import opened ResourceModels

  /** ResourceCategoryViewSet.get_permissions: every write needs staff. */
  function CategoryPermissions(a: Action): (r: seq<PermissionClass>)
    ensures |r| > 0 && r[0] == IsAuthenticated
    ensures forall u :: Admits(r, Some(u)) <==> (a in {Create, Update, PartialUpdate, Destroy} ==> u.isStaff)
  {
    AdmitsAuthenticatedThen(IsAdminUser);
    if a in {Create, Update, PartialUpdate, Destroy} then [IsAuthenticated, IsAdminUser]
    else [IsAuthenticated]
  }

  /** ResourceViewSet.get_permissions: update, partial_update and destroy
      need staff; every other action, create included, needs only an
      authenticated user. */
  function ResourcePermissions(a: Action): (r: seq<PermissionClass>)
    ensures |r| > 0 && r[0] == IsAuthenticated
    ensures forall u :: Admits(r, Some(u)) <==> (a in {Update, PartialUpdate, Destroy} ==> u.isStaff)
  {
    AdmitsAuthenticatedThen(IsAdminUser);
    if a in {Update, PartialUpdate, Destroy} then [IsAuthenticated, IsAdminUser]
    else [IsAuthenticated]
  }

  /** Any authenticated user of any role may create a resource, while only
      staff may create a category: for a non-staff user the two viewsets
      differ exactly on create. */
  lemma CreateGuardsDiffer(u: User)
    requires !u.isStaff
    ensures Admits(ResourcePermissions(Create), Some(u))
    ensures !Admits(CategoryPermissions(Create), Some(u))
    ensures forall a :: a != Create ==> (Admits(ResourcePermissions(a), Some(u)) <==> Admits(CategoryPermissions(a), Some(u)))
  {
  }

  /** increment_view, on any resource (get_queryset is the whole table): the
      view count goes up by one and nothing else changes. */
  method IncrementView(r: Resource)
    modifies r`viewCount
    ensures r.viewCount == old(r.viewCount) + 1
  {
    r.viewCount := r.viewCount + 1;
  }

  /** featured, before pagination: the featured resources in listing order. */
  function Featured(rs: seq<Resource>): (r: seq<Resource>)
    reads rs
    ensures |r| <= |rs|
    ensures forall i :: 0 <= i < |r| ==> r[i].isFeatured && r[i] in rs
    decreases |rs|
  {
    if rs == [] then []
    else if rs[0].isFeatured then [rs[0]] + Featured(rs[1..])
    else Featured(rs[1..])
  }

  /** Every featured resource of the listing is in the featured list. */
  lemma {:induction false} FeaturedComplete(rs: seq<Resource>, x: Resource)
    requires x in rs && x.isFeatured
    ensures x in Featured(rs)
    decreases |rs|
  {
    if rs[0] != x {
      assert x in rs[1..];
      FeaturedComplete(rs[1..], x);
    }
  }

  /** Every resource of `rs` was created no later than `t`. */
  predicate CreatedNoLaterThan(rs: seq<Resource>, t: Timestamp)
    reads rs
  {
    forall i :: 0 <= i < |rs| ==> rs[i].createdAt <= t
  }

  lemma {:induction false} FeaturedKeepsBound(rs: seq<Resource>, t: Timestamp)
    requires CreatedNoLaterThan(rs, t)
    ensures CreatedNoLaterThan(Featured(rs), t)
    decreases |rs|
  {
    if rs != [] {
      FeaturedKeepsBound(rs[1..], t);
    }
  }

  /** The featured list keeps the newest-first order of the listing. */
  lemma {:induction false} FeaturedKeepsListingOrder(rs: seq<Resource>)
    requires ResourcesInListingOrder(rs)
    ensures ResourcesInListingOrder(Featured(rs))
    decreases |rs|
  {
    if rs != [] {
      var rest := Featured(rs[1..]);
      FeaturedKeepsListingOrder(rs[1..]);
      if rs[0].isFeatured {
        assert CreatedNoLaterThan(rs[1..], rs[0].createdAt);
        FeaturedKeepsBound(rs[1..], rs[0].createdAt);
        var r := [rs[0]] + rest;
        forall i, j | 0 <= i < j < |r| ensures r[i].createdAt >= r[j].createdAt {
          assert r[j] == rest[j - 1];
          if 0 < i {
            assert r[i] == rest[i - 1];
          }
        }
      }
    }
  }
}
