/** chat/models.py: chat rooms with a set of participants and the messages
    posted in them. The room table and the message table are the fields of a
    ChatStore. In the modelled handlers the message table is only appended
    to, except that a message's read flag can be set and deleting a room
    deletes its messages; the generic update and destroy of MessageViewSet
    are not modelled. */
module ChatModels {
  import opened Common
  import opened Users
  import opened RepairModels
  import opened AcademicModels

  type RoomId = nat
  type MessageId = nat

  /** ROOM_TYPES */
  datatype RoomType = RepairRoom | AcademicRoom | GeneralRoom

  /** room_type = CharField(choices=ROOM_TYPES, default='general') */
  const DefaultRoomType: RoomType := GeneralRoom

  /** A room row with its participants (a many-to-many relation, so a set).
      The links to a repair request and to an academic question are each
      optional, and neither constrains the other. */
  datatype Room = Room(
    id: RoomId,
    name: string,
    participants: set<UserId>,
    roomType: RoomType,
    createdAt: Timestamp,
    repairRequest: Option<RepairId>,
    academicQuestion: Option<QuestionId>)

  /** A message row. The attachment is a stored file name, absent when null. */
  datatype Message = Message(
    id: MessageId,
    room: RoomId,
    sender: UserId,
    content: string,
    attachment: Option<string>,
    isRead: bool,
    timestamp: Timestamp)

  /** is_read = BooleanField(default=False) */
  const DefaultIsRead: bool := false

  /** Message ids are handed out in increasing order, so the log is sorted by
      id. */
  predicate IdsIncreasing(ms: seq<Message>) {
    forall i, j :: 0 <= i < j < |ms| ==> ms[i].id < ms[j].id
  }

  /** The messages of `ms` that are not in room `room`, in their order: what
      is left after on_delete=CASCADE removes the room's messages. */
  function WithoutRoom(ms: seq<Message>, room: RoomId): (r: seq<Message>)
    ensures |r| <= |ms|
    decreases |ms|
  {
    if ms == [] then []
    else if ms[0].room == room then WithoutRoom(ms[1..], room)
    else [ms[0]] + WithoutRoom(ms[1..], room)
  }

  /** The messages left are exactly those of other rooms. */
  lemma {:induction false} WithoutRoomMembers(ms: seq<Message>, room: RoomId)
    ensures forall m :: m in WithoutRoom(ms, room) <==> m in ms && m.room != room
    decreases |ms|
  {
    if ms != [] {
      WithoutRoomMembers(ms[1..], room);
      assert ms == [ms[0]] + ms[1..];
    }
  }

  /** Every message of `ms` has an id above `bound`. */
  predicate IdsAbove(ms: seq<Message>, bound: int) {
    forall i :: 0 <= i < |ms| ==> bound < ms[i].id
  }

  /** Removing messages keeps a lower bound on the ids. */
  lemma {:induction false} WithoutRoomKeepsBound(ms: seq<Message>, room: RoomId, bound: int)
    requires IdsAbove(ms, bound)
    ensures IdsAbove(WithoutRoom(ms, room), bound)
    decreases |ms|
  {
    if ms != [] {
      WithoutRoomKeepsBound(ms[1..], room, bound);
    }
  }

  /** Removing a room's messages keeps the remaining ones sorted by id. */
  lemma {:induction false} WithoutRoomKeepsIds(ms: seq<Message>, room: RoomId)
    requires IdsIncreasing(ms)
    ensures IdsIncreasing(WithoutRoom(ms, room))
    decreases |ms|
  {
    if ms != [] {
      var rest := WithoutRoom(ms[1..], room);
      WithoutRoomKeepsIds(ms[1..], room);
      if ms[0].room != room {
        assert IdsAbove(ms[1..], ms[0].id);
        WithoutRoomKeepsBound(ms[1..], room, ms[0].id);
        var r := [ms[0]] + rest;
        forall i, j | 0 <= i < j < |r| ensures r[i].id < r[j].id {
          assert r[j] == rest[j - 1];
          if 0 < i {
            assert r[i] == rest[i - 1];
          }
        }
      }
    }
  }

  /** The room and message tables. */
  class ChatStore {
    var rooms: map<RoomId, Room>
    var messages: seq<Message>
    var nextRoomId: RoomId
    var nextMessageId: MessageId

    ghost predicate Valid()
      reads this
    {
      && (forall id :: id in rooms ==> rooms[id].id == id && id < nextRoomId)
      && (forall i :: 0 <= i < |messages| ==> messages[i].room in rooms && messages[i].id < nextMessageId)
      && IdsIncreasing(messages)
    }

    constructor ()
      ensures Valid()
      ensures rooms == map[] && messages == []
    {
      rooms, messages, nextRoomId, nextMessageId := map[], [], 1, 1;
    }

    /** ChatRoom.objects.create followed by room.participants.set(...): the
        new room gets the next id. */
    method CreateRoom(name: string, participants: set<UserId>, roomType: RoomType,
                      repairRequest: Option<RepairId>, academicQuestion: Option<QuestionId>, now: Timestamp)
      returns (id: RoomId)
      requires Valid()
      modifies this`rooms, this`nextRoomId
      ensures Valid()
      ensures id !in old(rooms)
      ensures rooms == old(rooms)[id := Room(id, name, participants, roomType, now, repairRequest, academicQuestion)]
    {
      id := nextRoomId;
      rooms := rooms[id := Room(id, name, participants, roomType, now, repairRequest, academicQuestion)];
      nextRoomId := nextRoomId + 1;
    }

    /** Saving a new message row: appends one message with the next id to the
        log of an existing room. */
    method AppendMessage(room: RoomId, sender: UserId, content: string, attachment: Option<string>, isRead: bool, now: Timestamp)
      returns (m: Message)
      requires Valid() && room in rooms
      modifies this`messages, this`nextMessageId
      ensures Valid()
      ensures m == Message(old(nextMessageId), room, sender, content, attachment, isRead, now)
      ensures messages == old(messages) + [m]
      ensures forall i :: 0 <= i < |old(messages)| ==> old(messages)[i].id < m.id
    {
      m := Message(nextMessageId, room, sender, content, attachment, isRead, now);
      messages := messages + [m];
      nextMessageId := nextMessageId + 1;
    }

    /** message.is_read = True; message.save() for the message at position i
        of the log. */
    method SetRead(i: nat)
      requires Valid() && i < |messages|
      modifies this`messages
      ensures Valid()
      ensures messages == old(messages)[i := old(messages)[i].(isRead := true)]
    {
      messages := messages[i := messages[i].(isRead := true)];
    }

    /** room.participants.add(user) for an existing room. */
    method AddToRoom(id: RoomId, user: UserId)
      requires Valid() && id in rooms
      modifies this`rooms
      ensures Valid()
      ensures rooms == old(rooms)[id := old(rooms)[id].(participants := old(rooms)[id].participants + {user})]
    {
      rooms := rooms[id := rooms[id].(participants := rooms[id].participants + {user})];
    }

    /** Deleting a room: on_delete=CASCADE deletes its messages and keeps the
        others in their order. */
    method DeleteRoom(id: RoomId)
      requires Valid()
      modifies this`rooms, this`messages
      ensures Valid()
      ensures rooms == old(rooms) - {id}
      ensures messages == WithoutRoom(old(messages), id)
    {
      var kept := WithoutRoom(messages, id);
      WithoutRoomKeepsIds(messages, id);
      WithoutRoomMembers(messages, id);
      forall i | 0 <= i < |kept|
        ensures kept[i].room in rooms - {id} && kept[i].id < nextMessageId
      {
        assert kept[i] in kept;
      }
      rooms := rooms - {id};
      messages := kept;
    }
  }
}
