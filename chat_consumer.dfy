/** chat/consumers.py: the WebSocket consumer of a chat room, one handler
    call at a time. Its state is the room and message tables (a ChatStore),
    the channel layer's groups (room -> channel names) and the connection's
    own fields. The group of room n is named chat_n in the source; here the
    room id is the group's key. */
module ChatConsumers {
  import opened Common
  import opened Users
  import opened ChatModels

  type ChannelName = string

  /** The channel layer's group registry. */
  class ChannelLayer {
    var groups: map<RoomId, set<ChannelName>>

    constructor ()
      ensures groups == map[]
    {
      groups := map[];
    }

    /** The channels currently in a group; a group never joined is empty. */
    function Members(g: RoomId): set<ChannelName>
      reads this
    {
      if g in groups then groups[g] else {}
    }

    /** group_add */
    method GroupAdd(g: RoomId, c: ChannelName)
      modifies this
      ensures groups == old(groups)[g := old(Members(g)) + {c}]
    {
      groups := groups[g := Members(g) + {c}];
    }

    /** group_discard: removes one channel from one group. */
    method GroupDiscard(g: RoomId, c: ChannelName)
      modifies this
      ensures g in old(groups) ==> groups == old(groups)[g := old(groups)[g] - {c}]
      ensures g !in old(groups) ==> groups == old(groups)
    {
      if g in groups {
        groups := groups[g := groups[g] - {c}];
      }
    }
  }

  /** Where a connection stands: before connect, accepted, or closed. */
  datatype ConnectionState = Connecting | Open | Closed

  /** An inbound text frame after json.loads: the "message" key (None when
      absent) and the "attachment" key (None when absent). */
  datatype Frame = Frame(message: Option<string>, attachment: Option<string>)

  /** The event receive sends to the room group (its 'type' is always
      chat_message). The attachment is the frame's, as received. */
  datatype ChatEvent = ChatEvent(
    message: string,
    senderId: UserId,
    senderName: string,
    senderRole: Role,
    messageId: MessageId,
    attachment: Option<string>,
    timestamp: Timestamp)

  /** A group_send: the event and the channels of the group at that moment. */
  datatype Broadcast = Broadcast(event: ChatEvent, recipients: set<ChannelName>)

  /** The frame chat_message sends to the socket. */
  datatype OutboundFrame = OutboundFrame(
    messageId: MessageId,
    message: string,
    senderId: UserId,
    senderName: string,
    senderRole: Role,
    attachment: Option<string>,
    timestamp: Timestamp)

  /** is_user_participant: false when the room does not exist. */
  function IsUserParticipant(rooms: map<RoomId, Room>, u: User, roomId: RoomId): (b: bool)
    ensures roomId !in rooms ==> !b
    ensures b ==> u.id in rooms[roomId].participants
    ensures roomId in rooms && u.id in rooms[roomId].participants ==> b
  {
    roomId in rooms && u.id in rooms[roomId].participants
  }

  /** save_message stores the attachment only when it is truthy. */
  function StoredAttachment(a: Option<string>): (s: Option<string>)
    ensures s.Some? <==> TruthyText(a)
    ensures s.Some? ==> s == a
  {
    if TruthyText(a) then a else None
  }

  /** The event receive builds for a saved message `m` sent by `u`. */
  function EventFor(m: Message, u: User, rawAttachment: Option<string>): (e: ChatEvent)
    ensures e.messageId == m.id && e.timestamp == m.timestamp && e.message == m.content
    ensures e.senderId == u.id && e.senderName == u.fullName && e.senderRole == u.role
    ensures e.attachment == rawAttachment
  {
    ChatEvent(m.content, u.id, u.fullName, u.role, m.id, rawAttachment, m.timestamp)
  }

  /** chat_message: the outbound frame holds the seven event fields. */
  function ChatMessage(e: ChatEvent): (f: OutboundFrame)
    ensures ChatEvent(f.message, f.senderId, f.senderName, f.senderRole, f.messageId, f.attachment, f.timestamp) == e
  {
    OutboundFrame(e.messageId, e.message, e.senderId, e.senderName, e.senderRole, e.attachment, e.timestamp)
  }

  class ChatConsumer {
    const channelName: ChannelName
    /** scope['user']; None for an anonymous user. */
    const scopeUser: Option<User>
    /** scope['url_route']['kwargs']['room_id'] */
    const urlRoomId: RoomId
    /** self.room_id, set by connect. */
    var roomId: Option<RoomId>
    var state: ConnectionState
    const store: ChatStore
    const layer: ChannelLayer

    /** An accepted connection has a user and knows its room. */
    ghost predicate Valid()
      reads this
    {
      (state != Connecting ==> roomId == Some(urlRoomId)) && (state == Open ==> scopeUser.Some?)
    }

    constructor (channelName: ChannelName, scopeUser: Option<User>, urlRoomId: RoomId, store: ChatStore, layer: ChannelLayer)
      ensures Valid() && state == Connecting && roomId.None?
      ensures this.channelName == channelName && this.scopeUser == scopeUser && this.urlRoomId == urlRoomId
      ensures this.store == store && this.layer == layer
    {
      this.channelName, this.scopeUser, this.urlRoomId := channelName, scopeUser, urlRoomId;
      this.store, this.layer := store, layer;
      roomId, state := None, Connecting;
    }

    /** connect: join the room's group first, then accept if the user is
        authenticated and a participant of the room, otherwise close. The
        channel stays in the group when the connection is closed. */
    method Connect()
      requires Valid() && state == Connecting
      modifies this`roomId, this`state, layer
      ensures Valid()
      ensures roomId == Some(urlRoomId)
      ensures layer.groups == old(layer.groups)[urlRoomId := old(layer.Members(urlRoomId)) + {channelName}]
      ensures state == Open <==> scopeUser.Some? && IsUserParticipant(store.rooms, scopeUser.value, urlRoomId)
      ensures state == Open || state == Closed
    {
      roomId := Some(urlRoomId);
      layer.GroupAdd(urlRoomId, channelName);
      if scopeUser.None? {
        state := Closed;
        return;
      }
      if !IsUserParticipant(store.rooms, scopeUser.value, urlRoomId) {
        state := Closed;
        return;
      }
      state := Open;
    }

    /** disconnect: leave the room's group; every other channel and group is
        left as it was. */
    method Disconnect()
      requires Valid() && roomId.Some?
      modifies layer
      ensures roomId.value in old(layer.groups) ==>
        layer.groups == old(layer.groups)[roomId.value := old(layer.groups)[roomId.value] - {channelName}]
      ensures roomId.value !in old(layer.groups) ==> layer.groups == old(layer.groups)
      ensures channelName !in layer.Members(roomId.value)
    {
      layer.GroupDiscard(roomId.value, channelName);
    }

    /** receive, on an accepted connection: a frame without "message" raises
        before anything is saved; a room deleted since connect makes
        save_message raise. Otherwise exactly one message is appended, with
        the connection's user as sender and the frame's text as content, and
        one event goes to the channels then in the group. Membership is not
        looked at again. */
    method Receive(f: Frame, now: Timestamp) returns (r: Result<Broadcast>)
      requires Valid() && state == Open
      requires store.Valid()
      modifies store`messages, store`nextMessageId
      ensures store.Valid()
      ensures r.Ok? <==> f.message.Some? && urlRoomId in store.rooms
      ensures f.message.None? ==> r == Err(MalformedFrame)
      ensures f.message.Some? && urlRoomId !in store.rooms ==> r == Err(RoomDoesNotExist)
      ensures r.Err? ==> store.messages == old(store.messages)
      ensures r.Ok? ==> |store.messages| == |old(store.messages)| + 1
      ensures r.Ok? ==> store.messages == old(store.messages) + [SavedMessage(old(store.nextMessageId), scopeUser.value, f, now)]
      ensures r.Ok? ==> r.value == Broadcast(EventFor(store.messages[|store.messages| - 1], scopeUser.value, f.attachment), layer.Members(urlRoomId))
    {
      if f.message.None? {
        return Err(MalformedFrame);
      }
      var user := scopeUser.value;
      if urlRoomId !in store.rooms {
        return Err(RoomDoesNotExist);
      }
      var m := store.AppendMessage(urlRoomId, user.id, f.message.value, StoredAttachment(f.attachment), DefaultIsRead, now);
      r := Ok(Broadcast(EventFor(m, user, f.attachment), layer.Members(urlRoomId)));
    }

    /** The message row receive saves for frame `f`. */
    function SavedMessage(id: MessageId, u: User, f: Frame, now: Timestamp): (m: Message)
      requires f.message.Some?
      ensures m.room == urlRoomId && m.sender == u.id && m.content == f.message.value
      ensures m.attachment == StoredAttachment(f.attachment) && !m.isRead
      ensures m.id == id && m.timestamp == now
    {
      Message(id, urlRoomId, u.id, f.message.value, StoredAttachment(f.attachment), DefaultIsRead, now)
    }
  }

  /** What a group member's socket receives agrees with the row that was
      saved: same id, text, sender and time, and an attachment that is the
      stored one whenever a file was stored. */
  lemma OutboundFrameMatchesSavedMessage(m: Message, u: User, raw: Option<string>)
    requires m.sender == u.id && m.attachment == StoredAttachment(raw)
    ensures var f := ChatMessage(EventFor(m, u, raw));
      && f.messageId == m.id && f.message == m.content && f.senderId == m.sender && f.timestamp == m.timestamp
      && StoredAttachment(f.attachment) == m.attachment
      && (m.attachment.Some? ==> f.attachment == m.attachment)
  {
  }

  /** An empty attachment is broadcast as sent but not stored: the frame
      listeners get and the row saved then disagree on it. */
  lemma EmptyAttachmentBroadcastNotStored(m: Message, u: User)
    ensures StoredAttachment(Some("")) == None
    ensures ChatMessage(EventFor(m, u, Some(""))).attachment == Some("")
  {
  }
}
