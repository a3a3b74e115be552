/** repairs/views.py: who sees which repair requests, media and comments,
    which permission classes guard each action, and the repair lifecycle
    pending -> assigned -> in_progress / completed / cancelled driven by the
    actions assign and update_status. */
module RepairViews {
  import opened Common
  import opened Users
  import opened Permissions
  import opened RepairModels
  import opened RepairSerializers

  // ---------------------------------------------------------------- visibility

  /** Membership in RepairRequestViewSet.get_queryset: staff and the admin
      role see every request; a technician sees the requests assigned to them
      and the unassigned pending ones; a student sees their own; any other
      user sees none. */
  predicate CanSeeRepair(u: User, r: RepairState) {
    if u.isStaff || u.role == Admin then true
    else if u.role == Technician then r.technician == Some(u.id) || (r.technician.None? && r.status == Pending)
    else if u.role == Student then r.student == u.id
    else false
  }

  /** RepairRequestViewSet.get_queryset over the repair request table. */
  function RepairQueryset(u: User, all: set<RepairRequest>): (r: set<RepairRequest>)
    reads all
    ensures r <= all
    ensures u.isStaff || u.role == Admin ==> r == all
    ensures !u.isStaff && u.role == Technician ==>
      r == (set q | q in all && q.technician == Some(u.id)) + (set q | q in all && q.technician.None? && q.status == Pending)
    ensures !u.isStaff && u.role == Student ==> r == set q | q in all && q.student == u.id
    ensures !u.isStaff && u.role == Teacher ==> r == {}
  {
    set q | q in all && CanSeeRepair(u, q.State())
  }

  /** Membership in the get_queryset of RepairMediaViewSet and of
      RepairCommentViewSet: rows of the requests the user raised or is
      assigned to, whatever the role. */
  predicate CanSeeRepairAttachments(u: User, r: RepairState) {
    r.student == u.id || r.technician == Some(u.id)
  }

  // --------------------------------------------------------------- permissions

  /** RepairRequestViewSet.get_permissions */
  function RepairPermissions(a: Action): (r: seq<PermissionClass>)
    ensures |r| > 0 && r[0] == IsAuthenticated
    ensures forall u :: Admits(r, Some(u)) <==>
      (a == Create ==> u.role == Student) &&
      (a == Named("assign") || a == Named("update_status") ==> u.role == Technician) &&
      (a == Update || a == PartialUpdate || a == Destroy ==> u.isStaff)
  {
    AdmitsAuthenticatedThen(IsStudent);
    AdmitsAuthenticatedThen(IsTechnician);
    AdmitsAuthenticatedThen(IsAdminUser);
    if a == Create then [IsAuthenticated, IsStudent]
    else if a == Named("assign") || a == Named("update_status") then [IsAuthenticated, IsTechnician]
    else if a == Update || a == PartialUpdate || a == Destroy then [IsAuthenticated, IsAdminUser]
    else [IsAuthenticated]
  }

  // ----------------------------------------------------- lifecycle, as values

  /** assign: only an unassigned, pending request can be claimed; the
      claimant becomes its technician and it becomes assigned. */
  function AssignStep(r: RepairState, requester: User): (s: Result<RepairState>)
    ensures s.Ok? <==> r.technician.None? && r.status == Pending
    ensures s.Ok? ==> s.value == r.(technician := Some(requester.id), status := Assigned)
    ensures s.Err? ==> s.error == (if r.technician.Some? then AlreadyAssigned else NotPending)
  {
    if r.technician.Some? then Err(AlreadyAssigned)
    else if r.status != Pending then Err(NotPending)
    else Ok(r.(technician := Some(requester.id), status := Assigned))
  }

  /** The statuses update_status accepts. */
  predicate AllowedTarget(s: RepairStatus) {
    s == InProgress || s == Completed || s == Cancelled
  }

  /** update_status: only the assigned technician may change the status, and
      only to in_progress, completed or cancelled; the current status is not
      consulted. Completing needs a truthy final cost, which is recorded.
      `requested` is None when the request carries no status or one that
      names no status at all; `finalCost` is the request's final_cost. A
      rejected completion returns before save(), so the stored row keeps its
      old status. */
  function UpdateStatusStep(r: RepairState, requester: User, requested: Option<RepairStatus>, finalCost: Option<Cents>): (s: Result<RepairState>)
    ensures s.Ok? <==> r.technician == Some(requester.id) && requested.Some? && AllowedTarget(requested.value)
                       && (requested.value == Completed ==> TruthyAmount(finalCost))
    ensures r.technician != Some(requester.id) ==> s == Err(NotAssignedToYou)
    ensures r.technician == Some(requester.id) && !(requested.Some? && AllowedTarget(requested.value)) ==> s == Err(InvalidStatus)
    ensures r.technician == Some(requester.id) && requested == Some(Completed) && !TruthyAmount(finalCost) ==> s == Err(FinalCostRequired)
    ensures s.Ok? && requested.value == Completed ==> s.value == r.(status := Completed, finalCost := finalCost)
    ensures s.Ok? && requested.value != Completed ==> s.value == r.(status := requested.value)
  {
    if r.technician != Some(requester.id) then Err(NotAssignedToYou)
    else if !(requested.Some? && AllowedTarget(requested.value)) then Err(InvalidStatus)
    else if requested.value == Completed then
      if !TruthyAmount(finalCost) then Err(FinalCostRequired)
      else Ok(r.(status := Completed, finalCost := finalCost))
    else Ok(r.(status := requested.value))
  }

  /** The amount a successful update_status adds to the technician's
      earnings: the final cost of a completion, nothing otherwise. */
  function EarningsAdded(requested: Option<RepairStatus>, finalCost: Option<Cents>): (c: Cents)
    ensures requested != Some(Completed) ==> c == 0
    ensures requested == Some(Completed) && finalCost.Some? ==> c == finalCost.value
  {
    if requested == Some(Completed) && finalCost.Some? then finalCost.value else 0
  }

  /** update_status as written. The earnings line adds float(final_cost) to
      the profile's total_earnings, a Decimal loaded from the database, and
      Python refuses a Decimal plus a float with a TypeError, raised before
      repair_request.save(). So a completion by a technician with a profile
      takes no effect and fails; every other request ends as UpdateStatusStep
      says. */
  function UpdateStatusAsWritten(r: RepairState, requester: User, requested: Option<RepairStatus>,
                                 finalCost: Option<Cents>, hasProfile: bool): (s: Result<RepairState>)
    ensures s.Ok? <==> UpdateStatusStep(r, requester, requested, finalCost).Ok? && !(requested == Some(Completed) && hasProfile)
    ensures s.Ok? ==> s == UpdateStatusStep(r, requester, requested, finalCost)
    ensures UpdateStatusStep(r, requester, requested, finalCost).Err? ==> s == UpdateStatusStep(r, requester, requested, finalCost)
    ensures UpdateStatusStep(r, requester, requested, finalCost).Ok? && requested == Some(Completed) && hasProfile ==>
      s == Err(UnsupportedOperand)
  {
    var step := UpdateStatusStep(r, requester, requested, finalCost);
    if step.Ok? && requested == Some(Completed) && hasProfile then Err(UnsupportedOperand) else step
  }

  /** As written, a technician with a profile (every registered user has
      one) can never complete a repair, whatever final cost they give; the
      corrected step accepts any truthy cost, records it and credits it. */
  lemma CompletionWithProfileFailsAsWritten(r: RepairState, t: User, c: Option<Cents>)
    requires r.technician == Some(t.id) && TruthyAmount(c)
    ensures UpdateStatusAsWritten(r, t, Some(Completed), c, true) == Err(UnsupportedOperand)
    ensures UpdateStatusAsWritten(r, t, Some(Completed), c, false) == Ok(r.(status := Completed, finalCost := c))
    ensures UpdateStatusStep(r, t, Some(Completed), c) == Ok(r.(status := Completed, finalCost := c))
    ensures EarningsAdded(Some(Completed), c) == c.value
  {
  }

  /** RepairMediaViewSet.perform_create, after the serializer has validated
      the file: only the request's student or its assigned technician may
      attach media. The file check comes first (is_valid runs before
      perform_create). */
  function AddRepairMedia(rid: RepairId, r: RepairState, requester: User, size: nat, fileType: RepairMediaType, now: Timestamp): (m: Result<RepairMedia>)
    ensures m.Ok? <==> size <= MaxRepairMediaSize && CanSeeRepairAttachments(requester, r)
    ensures size > MaxRepairMediaSize ==> m == Err(FileTooLarge)
    ensures size <= MaxRepairMediaSize && m.Err? ==> m.error == PermissionDenied
    ensures m.Ok? ==> m.value == RepairMedia(rid, size, fileType, now)
  {
    var file := ValidateRepairMediaFile(size);
    if file.Err? then Err(file.error)
    else if r.student != requester.id && r.technician != Some(requester.id) then Err(PermissionDenied)
    else Ok(RepairMedia(rid, size, fileType, now))
  }

  /** RepairCommentViewSet.perform_create: the request checked is the one
      the submission's repair_request names (id `rid`, state `r`); only its
      student or its assigned technician may comment; the comment's author
      is the requester whatever the submission says. */
  function AddComment(rid: RepairId, r: RepairState, requester: User, s: CommentSubmission, now: Timestamp): (c: Result<RepairComment>)
    requires s.repairRequest == rid
    ensures c.Ok? <==> CanSeeRepairAttachments(requester, r)
    ensures c.Err? ==> c.error == PermissionDenied
    ensures c.Ok? ==> c.value.user == requester.id && c.value.comment == s.comment && c.value.createdAt == now
    ensures c.Ok? ==> c.value.repairRequest == rid
  {
    if r.student != requester.id && r.technician != Some(requester.id) then Err(PermissionDenied)
    else Ok(NewComment(s, requester, now))
  }

  // ------------------------------------------------ lifecycle, on the objects

  /** assign, on the request fetched through get_object (so visible to the
      requester). A rejection leaves the request as it was. */
  method Assign(q: RepairRequest, requester: User) returns (r: Outcome)
    requires CanSeeRepair(requester, q.State())
    modifies q`technician, q`status
    ensures r.Done? <==> AssignStep(old(q.State()), requester).Ok?
    ensures r.Done? ==> q.State() == AssignStep(old(q.State()), requester).value
    ensures r.Done? ==> q.technician == Some(requester.id) && q.status == Assigned
    ensures r.Rejected? ==> r.error == AssignStep(old(q.State()), requester).error
    ensures r.Rejected? ==> q.technician == old(q.technician) && q.status == old(q.status)
  {
    if q.technician.Some? {
      return Rejected(AlreadyAssigned);
    }
    if q.status != Pending {
      return Rejected(NotPending);
    }
    q.technician := Some(requester.id);
    q.status := Assigned;
    r := Done;
  }

  /** update_status, on the request fetched through get_object, with the
      earnings update as intended (UpdateStatusAsWritten gives the source's
      TypeError). A completion records the final cost and adds it to the
      technician's earnings when the technician has a profile; any other
      accepted target changes only the status. A rejection changes
      nothing. */
  method UpdateStatus(q: RepairRequest, requester: User, requested: Option<RepairStatus>, finalCost: Option<Cents>, users: UserStore)
    returns (r: Outcome)
    requires CanSeeRepair(requester, q.State())
    requires users.Valid()
    modifies q`status, q`finalCost, users`profiles
    ensures users.Valid()
    ensures r.Done? <==> UpdateStatusStep(old(q.State()), requester, requested, finalCost).Ok?
    ensures r.Done? ==> q.State() == UpdateStatusStep(old(q.State()), requester, requested, finalCost).value
    ensures r.Done? && requester.id in old(users.profiles) ==>
      users.profiles == old(users.profiles)[requester.id :=
        old(users.profiles)[requester.id].(totalEarnings := old(users.profiles)[requester.id].totalEarnings + EarningsAdded(requested, finalCost))]
    ensures r.Done? && requester.id !in old(users.profiles) ==> users.profiles == old(users.profiles)
    ensures r.Rejected? ==> r.error == UpdateStatusStep(old(q.State()), requester, requested, finalCost).error
    ensures r.Rejected? ==> q.status == old(q.status) && q.finalCost == old(q.finalCost) && users.profiles == old(users.profiles)
  {
    if q.technician != Some(requester.id) {
      return Rejected(NotAssignedToYou);
    }
    if !(requested.Some? && AllowedTarget(requested.value)) {
      return Rejected(InvalidStatus);
    }
    var newStatus := requested.value;
    if newStatus == Completed {
      if !TruthyAmount(finalCost) {
        return Rejected(FinalCostRequired);
      }
      q.finalCost := finalCost;
      if users.HasProfile(requester.id) {
        users.AddEarnings(requester.id, finalCost.value);
      }
    } else if users.HasProfile(requester.id) {
      assert EarningsAdded(requested, finalCost) == 0;
      assert old(users.profiles)[requester.id].(totalEarnings := old(users.profiles)[requester.id].totalEarnings + 0)
          == old(users.profiles)[requester.id];
    }
    q.status := newStatus;
    r := Done;
  }

  // ---------------------------------------------------- sequences of actions

  /** A lifecycle action on one repair request by one requester. */
  datatype RepairEvent =
    | AssignBy(actor: User)
    | UpdateStatusBy(actor: User, requested: Option<RepairStatus>, finalCost: Option<Cents>)

  /** The stored repair state after one action; a rejected action leaves it
      as it was. */
  function Apply(r: RepairState, e: RepairEvent): RepairState {
    var s := match e
      case AssignBy(u) => AssignStep(r, u)
      case UpdateStatusBy(u, st, c) => UpdateStatusStep(r, u, st, c);
    if s.Ok? then s.value else r
  }

  /** The stored repair state after a sequence of actions. */
  function Run(r: RepairState, es: seq<RepairEvent>): RepairState
    decreases |es|
  {
    if es == [] then r else Run(Apply(r, es[0]), es[1..])
  }

  /** Once a repair request has a technician, no sequence of lifecycle
      actions gives it another one or takes it away, and its student never
      changes. */
  lemma {:induction false} TechnicianKeptOnceAssigned(r: RepairState, es: seq<RepairEvent>)
    requires r.technician.Some?
    ensures Run(r, es).technician == r.technician
    ensures Run(r, es).student == r.student
    decreases |es|
  {
    if es != [] {
      TechnicianKeptOnceAssigned(Apply(r, es[0]), es[1..]);
    }
  }

  /** A repair request that has left `pending` never returns to it through
      the lifecycle actions. */
  lemma {:induction false} RepairNeverBackToPending(r: RepairState, es: seq<RepairEvent>)
    requires r.status != Pending
    ensures Run(r, es).status != Pending
    decreases |es|
  {
    if es != [] {
      RepairNeverBackToPending(Apply(r, es[0]), es[1..]);
    }
  }

  /** The final cost is only ever replaced by a truthy amount, and a request
      that is completed at the end of a run either was completed to begin
      with and kept its cost, or carries a truthy final cost. */
  lemma {:induction false} FinalCostOnlyFromCompletion(r: RepairState, es: seq<RepairEvent>)
    ensures Run(r, es).finalCost == r.finalCost || TruthyAmount(Run(r, es).finalCost)
    ensures Run(r, es).status == Completed ==>
      TruthyAmount(Run(r, es).finalCost) || (r.status == Completed && Run(r, es).finalCost == r.finalCost)
    decreases |es|
  {
    if es != [] {
      var r1 := Apply(r, es[0]);
      FinalCostOnlyFromCompletion(r1, es[1..]);
    }
  }

  /** Of two technicians claiming the same pending request one after the
      other, the first wins and the second is told it is already assigned. */
  lemma FirstRepairClaimWins(r: RepairState, t1: User, t2: User)
    requires r.technician.None? && r.status == Pending
    ensures Run(r, [AssignBy(t1), AssignBy(t2)]).technician == Some(t1.id)
    ensures AssignStep(Apply(r, AssignBy(t1)), t2) == Err(AlreadyAssigned)
  {
    var r1 := Apply(r, AssignBy(t1));
    assert [AssignBy(t1), AssignBy(t2)][1..] == [AssignBy(t2)];
    assert Run(r, [AssignBy(t1), AssignBy(t2)]) == Run(r1, [AssignBy(t2)]);
    assert [AssignBy(t2)][1..] == [];
    assert Run(r1, [AssignBy(t2)]) == Run(Apply(r1, AssignBy(t2)), []);
  }

  /** Claiming moves a request out of every other technician's view and
      keeps it in the claimant's. */
  lemma RepairAssignmentHidesFromOtherTechnicians(r: RepairState, t: User, other: User)
    requires AssignStep(r, t).Ok?
    requires other.role == Technician && !other.isStaff && other.id != t.id
    ensures CanSeeRepair(other, r)
    ensures !CanSeeRepair(other, AssignStep(r, t).value)
    ensures t.role == Technician ==> CanSeeRepair(t, AssignStep(r, t).value)
  {
  }

  /** update_status does not look at the current status: a completed request
      can be completed again, which records the new cost and, with the
      corrected earnings update of the method, credits it a second time; and
      it can be moved back to in_progress or cancelled. */
  lemma CompletedRepairCanBeUpdatedAgain(r: RepairState, t: User, c: Option<Cents>)
    requires r.status == Completed && r.technician == Some(t.id)
    ensures TruthyAmount(c) ==> UpdateStatusStep(r, t, Some(Completed), c) == Ok(r.(finalCost := c))
    ensures TruthyAmount(c) ==> EarningsAdded(Some(Completed), c) == c.value
    ensures UpdateStatusStep(r, t, Some(InProgress), c) == Ok(r.(status := InProgress))
  {
  }

  /** Moving to a status other than completed leaves the final cost as it
      was, whatever final_cost the request carries. */
  lemma NonCompletionKeepsFinalCost(r: RepairState, t: User, s: RepairStatus, c: Option<Cents>)
    requires s != Completed
    ensures UpdateStatusStep(r, t, Some(s), c).Ok? ==> UpdateStatusStep(r, t, Some(s), c).value.finalCost == r.finalCost
  {
  }
}
