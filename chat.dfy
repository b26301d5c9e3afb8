/**
 * The socket.io coordination state of the chat server and one method per
 * socket event. Each handler runs to completion before the next event is
 * handled, updates the state in place and returns the events it emits, each
 * with the audience socket.io would deliver it to.
 */
module Chat {
  import opened Wrappers
  import opened Seqs
  import opened Text
  import JsObject
  import opened MessageStore

  /** `{ username, id: socket.id, room }`, the value stored in `users`. */
  datatype Session = Session(username: string, id: ConnId, room: Room)

  /** Whatever message id a client sends back in a read receipt or a reaction; never looked up. */
  type MessageRef = int

  /** The `type` tag of a `userNotification`. */
  datatype NoticeKind = Join | Leave

  /**
   * The payload of a `private_message`: it has no image and `message` is passed
   * on as received. Its constant `isPrivate: true` is implied by the type and not stored.
   */
  datatype PrivateMsg = PrivateMsg(
    id: int,
    sender: string,
    senderId: ConnId,
    message: Option<string>,
    timestamp: int)

  /** Who an emit reaches. */
  datatype Target =
    | ToRoom(room: string)      // io.to(room).emit
    | ToEveryone                // io.emit
    | ToSender                  // socket.emit, or the acknowledgement callback
    | ToOthersIn(room: string)  // socket.to(room).emit: that room without the sender

  /** The event names and payloads the server emits. */
  datatype Event =
    | UserList(sessions: seq<Session>)                           // 'user_list'
    | UserJoined(username: string, id: ConnId, room: Room)       // 'user_joined'
    | UserLeft(username: string, id: ConnId)                     // 'user_left'
    | UserNotification(text: string, kind: NoticeKind)           // 'userNotification'
    | ReceiveMessage(msg: Msg)                                   // 'receive_message'
    | DeliveryAck(ackId: int)                                    // callback({ id })
    | ReadUpdate(messageId: MessageRef, readerId: ConnId)        // 'message:read:update'
    | TypingUsers(names: seq<string>)                            // 'typing_users'
    | PrivateMessage(data: PrivateMsg)                           // 'private_message'
    | ReactionUpdate(messageId: MessageRef, reaction: string, userId: ConnId) // 'message:reaction:update'

  datatype Outbound = Outbound(target: Target, event: Event)

  /** Every session is stored under its own connection id. */
  ghost predicate KeyedById(users: JsObject.Dict<Session>) {
    forall k :: k in users.entries ==> users.entries[k].id == k
  }

  /** `users[id]?.username || "Anonymous"`. */
  function SenderName(users: JsObject.Dict<Session>, id: ConnId): (name: string)
    ensures name != ""
    ensures name != "Anonymous" ==> id in users.entries && users.entries[id].username == name
    ensures id in users.entries && users.entries[id].username != "" ==> name == users.entries[id].username
  {
    if id in users.entries && users.entries[id].username != "" then users.entries[id].username else "Anonymous"
  }

  /** `users[id]?.room || 'global'`: the room a send is stored under and broadcast to. */
  function StorageRoom(users: JsObject.Dict<Session>, id: ConnId): (room: Room)
    ensures room != ""
    ensures room != "global" ==> id in users.entries && users.entries[id].room == room
    ensures id in users.entries && users.entries[id].room != "" ==> room == users.entries[id].room
  {
    if id in users.entries && users.entries[id].room != "" then users.entries[id].room else "global"
  }

  /** The filter `u => u.room === room`. */
  function InRoom(room: Room): Session -> bool {
    (s: Session) => s.room == room
  }

  /** `Object.values(users).filter(u => u.room === room)`. */
  function RoomMembers(users: JsObject.Dict<Session>, room: Room): (members: seq<Session>)
    requires users.Valid()
    ensures forall s :: s in members <==> s in users.entries.Values && s.room == room
    ensures IsSubsequence(members, users.Values())
  {
    Filter(users.Values(), InRoom(room))
  }

  /** When every session is in `room`, the member list is `Object.values(users)` itself. */
  lemma RoomMembersAll(users: JsObject.Dict<Session>, room: Room)
    requires users.Valid()
    requires forall s :: s in users.entries.Values ==> s.room == room
    ensures RoomMembers(users, room) == users.Values()
  {
    FilterKeepsAll(users.Values(), InRoom(room));
  }

  /** A member list names every connection at most once. */
  lemma RoomMembersDistinct(users: JsObject.Dict<Session>, room: Room)
    requires users.Valid() && KeyedById(users)
    ensures Distinct(RoomMembers(users, room))
  {
    var vs := users.Values();
    assert forall i :: 0 <= i < |vs| ==> vs[i].id == users.keys[i];
    FilterDistinct(vs, InRoom(room));
  }

  /** After a join the room's member list holds the new session, and no other session of that connection. */
  lemma JoinListsJoiner(users: JsObject.Dict<Session>, id: ConnId, username: string, room: Room)
    requires users.Valid() && KeyedById(users)
    ensures var after := users.Set(id, Session(username, id, room));
      && Session(username, id, room) in RoomMembers(after, room)
      && forall s :: s in RoomMembers(after, room) && s.id == id ==> s == Session(username, id, room)
  {
    var after := users.Set(id, Session(username, id, room));
    assert after.entries[id] == Session(username, id, room);
  }

  /** After a disconnect the connection is in no member list, and everyone else in the room still is. */
  lemma LeaverUnlisted(users: JsObject.Dict<Session>, id: ConnId, room: Room)
    requires users.Valid() && KeyedById(users)
    ensures forall s :: s in RoomMembers(users.Delete(id), room) ==> s.id != id
    ensures forall s :: s in RoomMembers(users, room) && s.id != id ==> s in RoomMembers(users.Delete(id), room)
  {
  }
  class ChatServer {
    /** `users`: socket id to session, in connection-join order. */
    var users: JsObject.Dict<Session>
    /** `messages`: the global log of room messages. */
    var messages: seq<Msg>
    /** `typingUsers`: socket id to the username it had at its latest `typing(true)`. */
    var typingUsers: JsObject.Dict<string>
    /** `messagesByRoom`: room name to that room's log. */
    var messagesByRoom: map<Room, seq<Msg>>

    ghost predicate Valid()
      reads this
    {
      && users.Valid()
      && typingUsers.Valid()
      && KeyedById(users)
      && (forall k :: k in typingUsers.entries ==> k in users.entries)
      && |messages| <= Cap
      && (forall r :: r in messagesByRoom ==> 0 < |messagesByRoom[r]| <= Cap)
    }

    /** The module state at start-up: every object and array empty. */
    constructor ()
      ensures Valid()
      ensures users == JsObject.Empty() && typingUsers == JsObject.Empty()
      ensures messages == [] && messagesByRoom == map[]
    {
      users := JsObject.Empty();
      messages := [];
      typingUsers := JsObject.Empty();
      messagesByRoom := map[];
    }

    /** `user_join`: record or replace the session, then announce it to the room. */
    method UserJoin(id: ConnId, username: string, room: Room) returns (out: seq<Outbound>)
      requires Valid()
      modifies this
      ensures Valid()
      ensures users == old(users).Set(id, Session(username, id, room))
      ensures typingUsers == old(typingUsers)
      ensures messages == old(messages) && messagesByRoom == old(messagesByRoom)
      ensures out == [
        Outbound(ToRoom(room), UserList(RoomMembers(users, room))),
        Outbound(ToRoom(room), UserJoined(username, id, room)),
        Outbound(ToRoom(room), UserNotification(username + " joined the chat", Join))]
    {
      users := users.Set(id, Session(username, id, room));
      out := [
        Outbound(ToRoom(room), UserList(RoomMembers(users, room))),
        Outbound(ToRoom(room), UserJoined(username, id, room)),
        Outbound(ToRoom(room), UserNotification(username + " joined the chat", Join))];
    }

    /**
     * `send_message`: build the message from the session (or the anonymous
     * defaults), append it to the global log and to its room's log, evict the
     * oldest entry of a log that grew past `Cap`, broadcast it to the room and
     * acknowledge it to the sender when the client passed a callback.
     */
    method SendMessage(id: ConnId, message: Option<string>, image: Option<string>,
                       now: int, isoTime: int, hasCallback: bool)
      returns (msg: Msg, out: seq<Outbound>)
      requires Valid()
      modifies this
      ensures Valid()
      ensures msg == Msg(now, SenderName(users, id), id, message.GetOr(""),
                         if Truthy(image) then image else None, isoTime)
      ensures messages == BoundedAppend(old(messages), msg)
      ensures var room := StorageRoom(users, id);
        messagesByRoom == old(messagesByRoom)[room := BoundedAppend(Partition(old(messagesByRoom), room), msg)]
      ensures users == old(users) && typingUsers == old(typingUsers)
      ensures out == [Outbound(ToRoom(StorageRoom(users, id)), ReceiveMessage(msg))] +
                     (if hasCallback then [Outbound(ToSender, DeliveryAck(msg.id))] else [])
    {
      msg := Msg(now, SenderName(users, id), id, message.GetOr(""),
                 if Truthy(image) then image else None, isoTime);
      var room := StorageRoom(users, id);
      var global := messages + [msg];
      var roomLog := Partition(messagesByRoom, room) + [msg];
      if |global| > Cap {
        global := global[1..];
      }
      if |roomLog| > Cap {
        roomLog := roomLog[1..];
      }
      assert global == BoundedAppend(messages, msg);
      assert roomLog == BoundedAppend(Partition(messagesByRoom, room), msg);
      messages := global;
      messagesByRoom := messagesByRoom[room := roomLog];
      out := [Outbound(ToRoom(room), ReceiveMessage(msg))];
      if hasCallback {
        out := out + [Outbound(ToSender, DeliveryAck(msg.id))];
      }
    }

    /** `message:read`: relay the receipt to every connection; nothing is stored and no session is needed. */
    method MessageRead(id: ConnId, messageId: MessageRef) returns (out: seq<Outbound>)
      ensures out == [Outbound(ToEveryone, ReadUpdate(messageId, id))]
    {
      out := [Outbound(ToEveryone, ReadUpdate(messageId, id))];
    }

    /** `typing`: with a session, set or clear this connection's entry and broadcast every typing name. */
    method Typing(id: ConnId, isTyping: bool) returns (out: seq<Outbound>)
      requires Valid()
      modifies this
      ensures Valid()
      ensures users == old(users)
      ensures messages == old(messages) && messagesByRoom == old(messagesByRoom)
      ensures id !in users.entries ==> typingUsers == old(typingUsers) && out == []
      ensures id in users.entries ==>
        && typingUsers == (if isTyping then old(typingUsers).Set(id, users.entries[id].username)
                           else old(typingUsers).Delete(id))
        && out == [Outbound(ToEveryone, TypingUsers(typingUsers.Values()))]
    {
      out := [];
      if id in users.entries {
        var username := users.entries[id].username;
        if isTyping {
          typingUsers := typingUsers.Set(id, username);
        } else {
          typingUsers := typingUsers.Delete(id);
        }
        out := [Outbound(ToEveryone, TypingUsers(typingUsers.Values()))];
      }
    }

    /** `private_message`: send to whoever is in room `to` except the sender, and echo to the sender; nothing is stored. */
    method PrivateMessageTo(id: ConnId, to: string, message: Option<string>, now: int, isoTime: int)
      returns (pm: PrivateMsg, out: seq<Outbound>)
      ensures pm == PrivateMsg(now, SenderName(users, id), id, message, isoTime)
      ensures out == [Outbound(ToOthersIn(to), PrivateMessage(pm)), Outbound(ToSender, PrivateMessage(pm))]
    {
      pm := PrivateMsg(now, SenderName(users, id), id, message, isoTime);
      out := [Outbound(ToOthersIn(to), PrivateMessage(pm)), Outbound(ToSender, PrivateMessage(pm))];
    }

    /** `message:reaction`: with a session, relay the reaction to the sender's room; nothing is stored. */
    method MessageReaction(id: ConnId, messageId: MessageRef, reaction: string) returns (out: seq<Outbound>)
      ensures id !in users.entries ==> out == []
      ensures id in users.entries ==>
        out == [Outbound(ToRoom(users.entries[id].room), ReactionUpdate(messageId, reaction, id))]
    {
      var user := users.Get(id);
      if user.None? {
        return [];
      }
      out := [Outbound(ToRoom(user.value.room), ReactionUpdate(messageId, reaction, id))];
    }

    /**
     * `disconnect`: with a session, announce the departure, drop the session
     * and its typing entry, then send the room its new member and typing lists.
     */
    method Disconnect(id: ConnId) returns (out: seq<Outbound>)
      requires Valid()
      modifies this
      ensures Valid()
      ensures messages == old(messages) && messagesByRoom == old(messagesByRoom)
      ensures id !in old(users.entries) ==>
        users == old(users) && typingUsers == old(typingUsers) && out == []
      ensures id in old(users.entries) ==>
        var s := old(users.entries[id]);
        && users == old(users).Delete(id)
        && typingUsers == old(typingUsers).Delete(id)
        && out == [
          Outbound(ToRoom(s.room), UserLeft(s.username, id)),
          Outbound(ToRoom(s.room), UserNotification(s.username + " left the chat", Leave)),
          Outbound(ToRoom(s.room), UserList(RoomMembers(users, s.room))),
          Outbound(ToRoom(s.room), TypingUsers(typingUsers.Values()))]
    {
      out := [];
      var user := users.Get(id);
      if user.Some? {
        var username, room := user.value.username, user.value.room;
        out := [
          Outbound(ToRoom(room), UserLeft(username, id)),
          Outbound(ToRoom(room), UserNotification(username + " left the chat", Leave))];
        users := users.Delete(id);
        typingUsers := typingUsers.Delete(id);
        out := out + [
          Outbound(ToRoom(room), UserList(RoomMembers(users, room))),
          Outbound(ToRoom(room), TypingUsers(typingUsers.Values()))];
      }
    }

    /** `GET /api/users`: every session, one per connection, in the order the connections first joined. */
    function AllUsers(): (r: seq<Session>)
      reads this
      requires Valid()
      ensures |r| == |users.keys|
      ensures forall i :: 0 <= i < |r| ==> r[i].id == users.keys[i] && r[i] == users.entries[users.keys[i]]
      ensures forall s :: s in r <==> s in users.entries.Values
    {
      users.Values()
    }
  }
}
