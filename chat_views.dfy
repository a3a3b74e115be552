/** chat/views.py: the rooms and messages a user sees, the unread list,
    adding a participant to a room and marking a message as read. */
module ChatViews {
  import opened Common
  import opened Users
  import opened ChatModels

  // ---------------------------------------------------------------- visibility

  /** ChatRoomViewSet.get_queryset: the rooms that list the user as a
      participant. */
  function RoomQueryset(u: User, rooms: map<RoomId, Room>): (r: set<RoomId>)
    ensures r <= rooms.Keys
    ensures forall id :: id in rooms && u.id in rooms[id].participants <==> id in r
  {
    set id | id in rooms && u.id in rooms[id].participants
  }

  /** Membership in MessageViewSet.get_queryset: a message of a room that
      lists the user as a participant. */
  predicate CanSeeMessage(u: UserId, rooms: map<RoomId, Room>, m: Message) {
    m.room in rooms && u in rooms[m.room].participants
  }

  /** Membership in the unread list: visible, not read, and not sent by the
      user. */
  predicate IsUnreadFor(u: UserId, rooms: map<RoomId, Room>, m: Message) {
    CanSeeMessage(u, rooms, m) && !m.isRead && m.sender != u
  }

  /** MessageViewSet.get_queryset over the message log, in log order. */
  function MessageQueryset(u: UserId, rooms: map<RoomId, Room>, ms: seq<Message>): (r: seq<Message>)
    ensures |r| <= |ms|
    ensures forall i :: 0 <= i < |r| ==> CanSeeMessage(u, rooms, r[i])
    decreases |ms|
  {
    if ms == [] then []
    else if CanSeeMessage(u, rooms, ms[0]) then [ms[0]] + MessageQueryset(u, rooms, ms[1..])
    else MessageQueryset(u, rooms, ms[1..])
  }

  /** MessageViewSet.unread: the messages of the user's rooms with
      is_read=False, excluding the user's own, in log order. */
  function UnreadMessages(u: UserId, rooms: map<RoomId, Room>, ms: seq<Message>): (r: seq<Message>)
    ensures |r| <= |ms|
    ensures forall i :: 0 <= i < |r| ==> IsUnreadFor(u, rooms, r[i])
    decreases |ms|
  {
    if ms == [] then []
    else if IsUnreadFor(u, rooms, ms[0]) then [ms[0]] + UnreadMessages(u, rooms, ms[1..])
    else UnreadMessages(u, rooms, ms[1..])
  }

  /** The messages of `ms` not yet read and not sent by `u`, in order. */
  function NotReadNotOwn(u: UserId, ms: seq<Message>): seq<Message>
    decreases |ms|
  {
    if ms == [] then []
    else if !ms[0].isRead && ms[0].sender != u then [ms[0]] + NotReadNotOwn(u, ms[1..])
    else NotReadNotOwn(u, ms[1..])
  }

  /** Every visible message is listed, and only those. */
  lemma {:induction false} MessageQuerysetMembers(u: UserId, rooms: map<RoomId, Room>, ms: seq<Message>)
    ensures forall m :: m in MessageQueryset(u, rooms, ms) <==> m in ms && CanSeeMessage(u, rooms, m)
    decreases |ms|
  {
    if ms != [] {
      MessageQuerysetMembers(u, rooms, ms[1..]);
      assert ms == [ms[0]] + ms[1..];
    }
  }

  /** Every unread message is listed, and only those. */
  lemma {:induction false} UnreadMembers(u: UserId, rooms: map<RoomId, Room>, ms: seq<Message>)
    ensures forall m :: m in UnreadMessages(u, rooms, ms) <==> m in ms && IsUnreadFor(u, rooms, m)
    decreases |ms|
  {
    if ms != [] {
      UnreadMembers(u, rooms, ms[1..]);
      assert ms == [ms[0]] + ms[1..];
    }
  }

  /** The unread list is the visible list narrowed to unread messages from
      others, order included. */
  lemma {:induction false} UnreadNarrowsQueryset(u: UserId, rooms: map<RoomId, Room>, ms: seq<Message>)
    ensures UnreadMessages(u, rooms, ms) == NotReadNotOwn(u, MessageQueryset(u, rooms, ms))
    decreases |ms|
  {
    if ms != [] {
      UnreadNarrowsQueryset(u, rooms, ms[1..]);
      if CanSeeMessage(u, rooms, ms[0]) {
        var q := MessageQueryset(u, rooms, ms[1..]);
        assert MessageQueryset(u, rooms, ms) == [ms[0]] + q;
        assert ([ms[0]] + q)[1..] == q;
      }
    }
  }

  // ------------------------------------------------------------- add_participant

  /** add_participant, on a room fetched through get_object (so the requester
      is one of its participants). A missing or falsy user_id (0 included) is
      refused, so is an id that names no user; otherwise the user is added to
      the set, which is a no-op when it is already there. */
  method AddParticipant(store: ChatStore, roomId: RoomId, requester: User, userId: Option<nat>, directory: UserStore)
    returns (r: Outcome)
    requires store.Valid() && roomId in store.rooms
    requires requester.id in store.rooms[roomId].participants
    modifies store`rooms
    ensures store.Valid()
    ensures (userId.None? || userId.value == 0) ==> r == Rejected(UserIdRequired)
    ensures userId.Some? && userId.value != 0 && userId.value !in directory.users ==> r == Rejected(UserDoesNotExist)
    ensures r.Done? <==> userId.Some? && userId.value != 0 && userId.value in directory.users
    ensures r.Done? ==> store.rooms == old(store.rooms)[roomId := WithParticipant(old(store.rooms)[roomId], userId.value)]
    ensures r.Rejected? ==> store.rooms == old(store.rooms)
  {
    if userId.None? || userId.value == 0 {
      return Rejected(UserIdRequired);
    }
    if userId.value !in directory.users {
      return Rejected(UserDoesNotExist);
    }
    if userId.value !in store.rooms[roomId].participants {
      store.AddToRoom(roomId, userId.value);
    } else {
      assert WithParticipant(store.rooms[roomId], userId.value) == store.rooms[roomId];
    }
    r := Done;
  }

  /** A room after a user is added: participants before plus that user. */
  function WithParticipant(room: Room, u: UserId): (r: Room)
    ensures u in r.participants
    ensures forall v :: v in r.participants <==> v in room.participants || v == u
    ensures r.(participants := room.participants) == room
  {
    room.(participants := room.participants + {u})
  }

  /** Adding a participant twice is the same as adding it once, and adding
      one who is already there changes nothing. */
  lemma AddParticipantIdempotent(room: Room, u: UserId)
    ensures WithParticipant(WithParticipant(room, u), u) == WithParticipant(room, u)
    ensures u in room.participants ==> WithParticipant(room, u) == room
  {
    assert WithParticipant(WithParticipant(room, u), u).participants == WithParticipant(room, u).participants;
    if u in room.participants {
      assert room.participants + {u} == room.participants;
    }
  }

  /** An added participant sees the room and all of its messages; nobody
      else's view changes. */
  lemma AddedParticipantSees(rooms: map<RoomId, Room>, id: RoomId, u: User, other: User, m: Message)
    requires id in rooms && other.id != u.id
    ensures id in RoomQueryset(u, rooms[id := WithParticipant(rooms[id], u.id)])
    ensures m.room == id ==> CanSeeMessage(u.id, rooms[id := WithParticipant(rooms[id], u.id)], m)
    ensures RoomQueryset(other, rooms[id := WithParticipant(rooms[id], u.id)]) == RoomQueryset(other, rooms)
    ensures CanSeeMessage(other.id, rooms[id := WithParticipant(rooms[id], u.id)], m) == CanSeeMessage(other.id, rooms, m)
  {
  }

  // ---------------------------------------------------------------- mark_as_read

  /** mark_as_read, as seen by one message: it becomes read when the
      requester is a participant of its room and not its sender, and is
      refused otherwise. */
  function MarkAsReadStep(m: Message, rooms: map<RoomId, Room>, requester: UserId): (r: Result<Message>)
    ensures r.Ok? <==> CanSeeMessage(requester, rooms, m) && requester != m.sender
    ensures r.Ok? ==> r.value == m.(isRead := true)
    ensures r.Err? ==> r.error == CannotMarkAsRead
  {
    if m.room in rooms && requester in rooms[m.room].participants && requester != m.sender
    then Ok(m.(isRead := true))
    else Err(CannotMarkAsRead)
  }

  /** mark_as_read on the message at position i of the log, fetched through
      get_object (so visible to the requester). */
  method MarkAsRead(store: ChatStore, i: nat, requester: User) returns (r: Outcome)
    requires store.Valid() && i < |store.messages|
    requires CanSeeMessage(requester.id, store.rooms, store.messages[i])
    modifies store`messages
    ensures store.Valid()
    ensures r.Done? <==> MarkAsReadStep(old(store.messages[i]), store.rooms, requester.id).Ok?
    ensures r.Done? ==> store.messages == old(store.messages)[i := MarkAsReadStep(old(store.messages[i]), store.rooms, requester.id).value]
    ensures r.Rejected? ==> r.error == CannotMarkAsRead && store.messages == old(store.messages)
  {
    var m := store.messages[i];
    if m.room in store.rooms && requester.id in store.rooms[m.room].participants && requester.id != m.sender {
      store.SetRead(i);
      return Done;
    }
    r := Rejected(CannotMarkAsRead);
  }

  /** Through get_object the requester is always a participant, so the
      participant test never refuses and only the sender is refused; marking
      an already read message again succeeds and leaves it read; a marked
      message leaves the requester's unread list. */
  lemma MarkAsReadFacts(m: Message, rooms: map<RoomId, Room>, requester: UserId)
    requires CanSeeMessage(requester, rooms, m)
    ensures MarkAsReadStep(m, rooms, requester).Ok? <==> requester != m.sender
    ensures m.isRead && requester != m.sender ==> MarkAsReadStep(m, rooms, requester) == Ok(m)
    ensures MarkAsReadStep(m, rooms, requester).Ok? ==>
      MarkAsReadStep(MarkAsReadStep(m, rooms, requester).value, rooms, requester) == MarkAsReadStep(m, rooms, requester)
    ensures MarkAsReadStep(m, rooms, requester).Ok? ==> !IsUnreadFor(requester, rooms, MarkAsReadStep(m, rooms, requester).value)
  {
  }
}
