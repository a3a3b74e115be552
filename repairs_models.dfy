/** repairs/models.py: gadget repair requests raised by students and claimed
    by technicians, the media attached to them and the comments on them. A
    repair request is an object because the view actions update its fields in
    place before saving it. */
module RepairModels {
  import opened Common
  import opened Users

  type RepairId = nat

  /** STATUS_CHOICES */
  datatype RepairStatus = Pending | Assigned | InProgress | Completed | Cancelled

  /** status = CharField(choices=STATUS_CHOICES, default='pending') */
  const DefaultRepairStatus: RepairStatus := Pending

  /** DEVICE_CHOICES, six of them. */
  datatype DeviceType = Laptop | Desktop | Tablet | Smartphone | Printer | OtherDevice

  /** RepairMedia.file_type choices */
  datatype RepairMediaType = ImageMedia | VideoMedia

  /** The part of a repair request its lifecycle reads and writes: the
      student who raised it, the optional technician, the status and the
      optional final cost. */
  datatype RepairState = RepairState(
    student: UserId,
    technician: Option<UserId>,
    status: RepairStatus,
    finalCost: Option<Cents>)

  /** The values a new repair request row is created from. Both costs are
      nullable. */
  datatype RepairFields = RepairFields(
    title: string,
    description: string,
    student: UserId,
    technician: Option<UserId>,
    deviceType: DeviceType,
    deviceModel: string,
    status: RepairStatus,
    estimatedCost: Option<Cents>,
    finalCost: Option<Cents>)

  class RepairRequest {
    const id: RepairId
    var title: string
    var description: string
    const student: UserId
    /** ForeignKey(null=True, on_delete=SET_NULL): no technician until one claims it. */
    var technician: Option<UserId>
    var deviceType: DeviceType
    var deviceModel: string
    var status: RepairStatus
    var estimatedCost: Option<Cents>
    var finalCost: Option<Cents>
    const createdAt: Timestamp

    function State(): RepairState
      reads this
    {
      RepairState(student, technician, status, finalCost)
    }

    constructor (id: RepairId, f: RepairFields, now: Timestamp)
      ensures this.id == id && createdAt == now
      ensures title == f.title && description == f.description
      ensures deviceType == f.deviceType && deviceModel == f.deviceModel
      ensures estimatedCost == f.estimatedCost
      ensures State() == RepairState(f.student, f.technician, f.status, f.finalCost)
    {
      this.id, this.createdAt := id, now;
      title, description, student, technician := f.title, f.description, f.student, f.technician;
      deviceType, deviceModel, status := f.deviceType, f.deviceModel, f.status;
      estimatedCost, finalCost := f.estimatedCost, f.finalCost;
    }

    /** on_delete=SET_NULL: deleting the assigned technician clears the
        technician and leaves everything else as it was. */
    method TechnicianDeleted(deleted: UserId)
      modifies this`technician
      ensures State() == TechnicianRemoved(old(State()), deleted)
    {
      if technician == Some(deleted) {
        technician := None;
      }
    }
  }

  /** The repair state after the user `deleted` is removed. */
  function TechnicianRemoved(r: RepairState, deleted: UserId): (s: RepairState)
    ensures s.student == r.student && s.status == r.status && s.finalCost == r.finalCost
    ensures r.technician == Some(deleted) ==> s.technician.None?
    ensures r.technician != Some(deleted) ==> s.technician == r.technician
  {
    if r.technician == Some(deleted) then r.(technician := None) else r
  }

  /** A media row attached to a repair request. The file is represented by
      its size. */
  datatype RepairMedia = RepairMedia(repairRequest: RepairId, size: nat, fileType: RepairMediaType, uploadedAt: Timestamp)

  /** A comment row. */
  datatype RepairComment = RepairComment(repairRequest: RepairId, user: UserId, comment: string, createdAt: Timestamp)
}
