/** Concrete event sequences whose outcomes are proved from the handler contracts. */
module Scenarios {
  import opened Wrappers
  import opened MessageStore
  import opened Chat
  import History
  import JsObject

  /**
   * Connections "a" and "b" join room "general" as A and B; A sends "hi".
   * The room gets one message with sender A and body "hi", A gets an
   * acknowledgement with the same id, and B's join listed both members in join order.
   */
  method TwoMembersOneMessage(now: int, isoTime: int) returns (joinB: seq<Outbound>, msg: Msg, sent: seq<Outbound>)
    ensures |joinB| == 3 && joinB[0] == Outbound(ToRoom("general"), UserList([Session("A", "a", "general"), Session("B", "b", "general")]))
    ensures msg.sender == "A" && msg.message == "hi" && msg.id == now && msg.image == None
    ensures sent == [Outbound(ToRoom("general"), ReceiveMessage(msg)), Outbound(ToSender, DeliveryAck(now))]
  {
    var server := new ChatServer();
    var joinA := server.UserJoin("a", "A", "general");
    joinB := server.UserJoin("b", "B", "general");
    assert server.users.keys == ["a", "b"];
    assert server.users.Values() == [Session("A", "a", "general"), Session("B", "b", "general")];
    RoomMembersAll(server.users, "general");
    msg, sent := server.SendMessage("a", Some("hi"), None, now, isoTime, true);
  }

  /** A and B in room "general", A typing. */
  method TypingRoom() returns (server: ChatServer)
    ensures fresh(server) && server.Valid()
    ensures server.users == JsObject.Dict(["a", "b"],
      map["a" := Session("A", "a", "general"), "b" := Session("B", "b", "general")])
    ensures server.typingUsers == JsObject.Dict(["a"], map["a" := "A"])
  {
    server := new ChatServer();
    var joinA := server.UserJoin("a", "A", "general");
    var joinB := server.UserJoin("b", "B", "general");
    var typing := server.Typing("a", true);
  }

  /**
   * A connection that is typing disconnects: the room is told it left, gets a
   * member list without it and a typing list without its name.
   */
  method TypingThenDisconnect() returns (out: seq<Outbound>)
    ensures out == [
      Outbound(ToRoom("general"), UserLeft("A", "a")),
      Outbound(ToRoom("general"), UserNotification("A left the chat", Leave)),
      Outbound(ToRoom("general"), UserList([Session("B", "b", "general")])),
      Outbound(ToRoom("general"), TypingUsers([]))]
  {
    var server := TypingRoom();
    out := server.Disconnect("a");
    assert server.users.keys == ["b"];
    assert server.users.Values() == [Session("B", "b", "general")];
    RoomMembersAll(server.users, "general");
    assert server.typingUsers.keys == [];
    assert "A" + " left the chat" == "A left the chat";
  }

  /**
   * Actions of a connection that never joined: a send with an empty image is
   * stored under 'global' as Anonymous with image `null`; typing and reacting do nothing.
   */
  method AnonymousActions(now: int, isoTime: int)
    returns (msg: Msg, sent: seq<Outbound>, typed: seq<Outbound>, reacted: seq<Outbound>, stored: map<Room, seq<Msg>>)
    ensures msg.sender == "Anonymous" && msg.message == "" && msg.image == None
    ensures sent == [Outbound(ToRoom("global"), ReceiveMessage(msg))]
    ensures typed == [] && reacted == []
    ensures stored == map["global" := [msg]]
  {
    var server := new ChatServer();
    msg, sent := server.SendMessage("x", None, Some(""), now, isoTime, false);
    stored := server.messagesByRoom;
    typed := server.Typing("x", true);
    reacted := server.MessageReaction("x", now, "+1");
  }

  /** A private message to an unknown id causes no room broadcast: it goes to room `to` minus the sender, and back to the sender. */
  method PrivateToUnknown(now: int, isoTime: int) returns (out: seq<Outbound>)
    ensures forall o :: o in out ==> !o.target.ToRoom? && o.target != ToOthersIn("general")
    ensures |out| == 2 && out[0].target == ToOthersIn("nobody") && out[1].target == ToSender
  {
    var server := new ChatServer();
    var joinA := server.UserJoin("a", "A", "general");
    var pm;
    pm, out := server.PrivateMessageTo("a", "nobody", Some("psst"), now, isoTime);
  }

  /** After `Cap + 1` sends into a fresh room, a query with a large limit returns all but the first, in order. */
  lemma {:induction false} RetentionThroughQuery(sent: seq<Msg>)
    requires |sent| == Cap + 1
    ensures History.Query(map["general" := AppendAll([], sent)], History.Request(Some("general"), None, Some(1000), None))
            == Success(sent[1..])
  {
    OldestEvicted(sent);
    History.UnfilteredReturnsLog(map["general" := AppendAll([], sent)], "general", 1000);
  }
}
