/** chat/serializers.py: creating a room from a submitted participant list
    (at least two entries, then the creator is added), creating a message
    through the REST endpoint (the sender is the requester), and the sender
    fields a message is listed with. */
module ChatSerializers {
  import opened Common
  import opened Users
  import opened RepairModels
  import opened AcademicModels
  import opened ChatModels

  /** What a client submits to create a room. `participantIds` is the
      participant_ids list exactly as sent, duplicates included; created_at
      is read-only and not part of it. */
  datatype RoomSubmission = RoomSubmission(
    name: string,
    participantIds: seq<UserId>,
    roomType: Option<RoomType>,
    repairRequest: Option<RepairId>,
    academicQuestion: Option<QuestionId>)

  /** The related-field validation DRF does before validate(): every listed
      participant, and each case link that is given, names an existing row. */
  predicate ReferencesExist(s: RoomSubmission, users: set<UserId>, repairs: set<RepairId>, questions: set<QuestionId>) {
    && (forall i :: 0 <= i < |s.participantIds| ==> s.participantIds[i] in users)
    && (s.repairRequest.Some? ==> s.repairRequest.value in repairs)
    && (s.academicQuestion.Some? ==> s.academicQuestion.value in questions)
  }

  /** is_valid() on a room submission: the related fields first, then
      ChatRoomSerializer.validate, which counts the submitted list itself
      (before the creator is added, duplicates counted). */
  function ValidateRoom(s: RoomSubmission, users: set<UserId>, repairs: set<RepairId>, questions: set<QuestionId>): (r: Outcome)
    ensures r.Done? <==> ReferencesExist(s, users, repairs, questions) && |s.participantIds| >= 2
    ensures !ReferencesExist(s, users, repairs, questions) ==> r == Rejected(UnknownObject)
    ensures ReferencesExist(s, users, repairs, questions) && |s.participantIds| < 2 ==> r == Rejected(TooFewParticipants)
  {
    if !ReferencesExist(s, users, repairs, questions) then Rejected(UnknownObject)
    else if |s.participantIds| < 2 then Rejected(TooFewParticipants)
    else Done
  }

  /** The set of ids a list holds. */
  function Elements(xs: seq<UserId>): set<UserId> {
    set x | x in xs
  }

  /** ChatRoomSerializer.create: the submitted list, with the creator
      appended unless already present. */
  function ParticipantList(submitted: seq<UserId>, creator: UserId): (r: seq<UserId>)
    ensures creator in r
    ensures Elements(r) == Elements(submitted) + {creator}
    ensures creator in submitted ==> r == submitted
    ensures creator !in submitted ==> |r| == |submitted| + 1
  {
    if creator in submitted then submitted else submitted + [creator]
  }

  /** POST to the room endpoint: validate, then create the room with the
      participants of ParticipantList and the room type defaulting to
      general. A rejection creates nothing. */
  method SubmitRoom(store: ChatStore, s: RoomSubmission, creator: User,
                    users: set<UserId>, repairs: set<RepairId>, questions: set<QuestionId>, now: Timestamp)
    returns (r: Result<RoomId>)
    requires store.Valid()
    modifies store`rooms, store`nextRoomId
    ensures store.Valid()
    ensures r.Ok? <==> ValidateRoom(s, users, repairs, questions).Done?
    ensures r.Err? ==> r.error == ValidateRoom(s, users, repairs, questions).error && store.rooms == old(store.rooms)
    ensures r.Ok? ==> r.value !in old(store.rooms)
    ensures r.Ok? ==> store.rooms == old(store.rooms)[r.value :=
      Room(r.value, s.name, Elements(ParticipantList(s.participantIds, creator.id)),
           if s.roomType.Some? then s.roomType.value else DefaultRoomType, now, s.repairRequest, s.academicQuestion)]
  {
    var v := ValidateRoom(s, users, repairs, questions);
    if v.Rejected? {
      return Err(v.error);
    }
    var id := store.CreateRoom(s.name, Elements(ParticipantList(s.participantIds, creator.id)),
                               if s.roomType.Some? then s.roomType.value else DefaultRoomType,
                               s.repairRequest, s.academicQuestion, now);
    r := Ok(id);
  }

  /** The creator ends up a participant whatever the submitted list says, and
      the room holds exactly the submitted users and the creator. */
  lemma CreatorAlwaysParticipant(submitted: seq<UserId>, creator: UserId, u: UserId)
    ensures creator in Elements(ParticipantList(submitted, creator))
    ensures u in Elements(ParticipantList(submitted, creator)) <==> u == creator || u in submitted
  {
  }

  /** Because the count is taken on the submitted list, a user who lists
      themselves twice creates a room with a single participant, while a user
      who lists only the other party is refused although the room would have
      had two participants. */
  lemma CountTakenBeforeCreatorAdded(a: User, b: User, users: set<UserId>)
    requires a.id in users && b.id in users && a.id != b.id
    ensures ValidateRoom(RoomSubmission("r", [a.id, a.id], None, None, None), users, {}, {}).Done?
    ensures Elements(ParticipantList([a.id, a.id], a.id)) == {a.id}
    ensures ValidateRoom(RoomSubmission("r", [b.id], None, None, None), users, {}, {}) == Rejected(TooFewParticipants)
    ensures Elements(ParticipantList([b.id], a.id)) == {a.id, b.id}
  {
    assert Elements([a.id, a.id]) == {a.id};
    assert Elements([b.id]) == {b.id};
  }

  /** What a client submits to create a message. sender and timestamp are
      read-only; is_read is writable. */
  datatype MessageSubmission = MessageSubmission(
    room: RoomId,
    content: string,
    attachment: Option<string>,
    isRead: Option<bool>,
    sender: Option<UserId>,
    timestamp: Option<Timestamp>)

  /** POST to the message endpoint: the room must exist (related-field
      validation); MessageSerializer.create makes the requester the sender.
      Nothing checks that the requester is a participant of the room. */
  method PostMessage(store: ChatStore, s: MessageSubmission, requester: User, now: Timestamp)
    returns (r: Result<Message>)
    requires store.Valid()
    modifies store`messages, store`nextMessageId
    ensures store.Valid()
    ensures r.Ok? <==> s.room in store.rooms
    ensures r.Err? ==> r.error == UnknownObject && store.messages == old(store.messages)
    ensures r.Ok? ==> store.messages == old(store.messages) + [r.value]
    ensures r.Ok? ==> r.value.id == old(store.nextMessageId) && r.value.room == s.room
    ensures r.Ok? ==> r.value.sender == requester.id && r.value.timestamp == now
    ensures r.Ok? ==> r.value.content == s.content && r.value.attachment == s.attachment
    ensures r.Ok? ==> r.value.isRead == (if s.isRead.Some? then s.isRead.value else DefaultIsRead)
  {
    if s.room !in store.rooms {
      return Err(UnknownObject);
    }
    var m := store.AppendMessage(s.room, requester.id, s.content, s.attachment,
                                 if s.isRead.Some? then s.isRead.value else DefaultIsRead, now);
    r := Ok(m);
  }

  /** A message as MessageSerializer lists it. */
  datatype MessageListing = MessageListing(
    id: MessageId,
    room: RoomId,
    sender: UserId,
    senderName: string,
    senderRole: Role,
    content: string,
    attachment: Option<string>,
    isRead: bool,
    timestamp: Timestamp)

  /** MessageSerializer's representation: sender_name and sender_role are
      read from the sender's current user row, every other field from the
      message row. */
  function ListMessage(m: Message, directory: map<UserId, User>): (v: MessageListing)
    requires m.sender in directory
    ensures v.senderName == directory[m.sender].fullName && v.senderRole == directory[m.sender].role
    ensures Message(v.id, v.room, v.sender, v.content, v.attachment, v.isRead, v.timestamp) == m
  {
    var u := directory[m.sender];
    MessageListing(m.id, m.room, m.sender, u.fullName, u.role, m.content, m.attachment, m.isRead, m.timestamp)
  }
}
