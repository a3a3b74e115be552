/** repairs/serializers.py: the media size limit and the fields the
    serializers fill in from the request rather than from the submitted data. */
module RepairSerializers {
  import opened Common
  import opened Users
  import opened RepairModels

  /** 10 MB, the limit of RepairMediaSerializer.validate_file. */
  const MaxRepairMediaSize: nat := 10 * MiB

  /** validate_file: a file larger than 10 MiB is refused; a file of exactly
      10 MiB passes, the comparison being strict. */
  function ValidateRepairMediaFile(size: nat): (r: Result<nat>)
    ensures r.Ok? <==> size <= 10 * 1024 * 1024
    ensures r.Ok? ==> r.value == size
    ensures r.Err? ==> r.error == FileTooLarge
  {
    if size > MaxRepairMediaSize then Err(FileTooLarge) else Ok(size)
  }

  /** What a client submits to create a comment. user and created_at are
      read-only. */
  datatype CommentSubmission = CommentSubmission(
    repairRequest: RepairId,
    comment: string,
    user: Option<UserId>,
    createdAt: Option<Timestamp>)

  /** RepairCommentSerializer.create: validated_data['user'] is the
      requester; created_at is the server clock. */
  function NewComment(s: CommentSubmission, requester: User, now: Timestamp): (c: RepairComment)
    ensures c.user == requester.id && c.createdAt == now
    ensures c.repairRequest == s.repairRequest && c.comment == s.comment
  {
    RepairComment(s.repairRequest, requester.id, s.comment, now)
  }

  /** What a client submits to create a repair request. student, created_at
      and updated_at are read-only; technician, status and both costs are
      writable (status defaulting to 'pending' when absent). */
  datatype RepairSubmission = RepairSubmission(
    title: string,
    description: string,
    student: Option<UserId>,
    technician: Option<UserId>,
    deviceType: DeviceType,
    deviceModel: string,
    status: Option<RepairStatus>,
    estimatedCost: Option<Cents>,
    finalCost: Option<Cents>)

  /** RepairRequestSerializer.create: validated_data['student'] is the
      requester. */
  function NewRepair(s: RepairSubmission, requester: User): (f: RepairFields)
    ensures f.student == requester.id
    ensures f.status == (if s.status.Some? then s.status.value else DefaultRepairStatus)
    ensures f.technician == s.technician && f.estimatedCost == s.estimatedCost && f.finalCost == s.finalCost
    ensures f.title == s.title && f.description == s.description
    ensures f.deviceType == s.deviceType && f.deviceModel == s.deviceModel
  {
    RepairFields(s.title, s.description, requester.id, s.technician, s.deviceType, s.deviceModel,
                 if s.status.Some? then s.status.value else DefaultRepairStatus,
                 s.estimatedCost, s.finalCost)
  }

  /** Two submissions that differ only in the read-only fields create the
      same comment or the same repair request. */
  lemma RepairReadOnlyFieldsIgnored(c: CommentSubmission, d: CommentSubmission, s: RepairSubmission, requester: User, now: Timestamp)
    requires c.repairRequest == d.repairRequest && c.comment == d.comment
    ensures NewComment(c, requester, now) == NewComment(d, requester, now)
    ensures NewRepair(s, requester) == NewRepair(s.(student := None), requester)
    ensures s.technician.None? && s.status.None? ==>
      NewRepair(s, requester).technician.None? && NewRepair(s, requester).status == Pending
  {
  }
}
