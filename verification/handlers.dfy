/** One pure transition per socket event the server handles. Each takes the
    stores and the event's data and returns the new stores and the emits, in
    the order the handler makes them. */
module Handlers {
  import opened ChatState
  import PrivateRoom

  /** A new connection: the transport puts the socket in its own id room. */
  function Connect(st: State, s: SocketId): (r: Step)
    requires s !in st.rooms
    ensures r.out == []
    ensures r.st.rooms.Keys == st.rooms.Keys + {s} && r.st.rooms[s] == {s}
    ensures forall x :: x in st.rooms ==> r.st.rooms[x] == st.rooms[x]
    ensures r.st == st.(rooms := r.st.rooms)
  {
    Step(st.(rooms := st.rooms[s := {s}]), [])
  }

  /** `join`: registers `u` for socket `s` unless the name is already bound,
      moves the socket into "General" and posts a welcome notice there. */
  function Join(st: State, s: SocketId, u: string, now: Timestamp): (r: Step)
    requires s in st.rooms
    // rejection: the name is bound (to any socket, this one included)
    ensures u in st.byName ==>
      r.st == st && r.out == [Emit({s}, JoinFail("Username '" + u + "' is already taken."))]
    // registry: exactly the two entries for (s, u) are written
    ensures u !in st.byName ==>
      && r.st.bySocket == st.bySocket[s := User(u, AvatarUrl(u))]
      && r.st.byName == st.byName[u := s]
      && r.st.channels == st.channels
    // membership: s ends in its own room and General, nobody else moves
    ensures u !in st.byName ==>
      && r.st.rooms.Keys == st.rooms.Keys
      && (s in st.rooms[s] ==> r.st.rooms[s] == {s, General})
      && (forall x :: x in st.rooms && x != s ==> r.st.rooms[x] == st.rooms[x])
    // history: one welcome notice at the end of General, nothing else touched
    ensures u !in st.byName ==>
      && History(r.st, General) == History(st, General) + [Notice(u + " joined General", General, now)]
      && (forall k :: k != General ==> History(r.st, k) == History(st, k))
    // emits: success to s, the new user list to everyone, the channel names
    // to s, and the welcome to every member of General, s included
    ensures u !in st.byName ==>
      && |r.out| == 4
      && r.out[0] == Emit({s}, JoinSuccess)
      && r.out[1] == Emit(AllSockets(st), UpdateUserList(r.st.bySocket))
      && r.out[2] == Emit({s}, ChannelList(st.channels.Keys))
      && r.out[3].payload == ReceiveMessage(Notice(u + " joined General", General, now))
      && r.out[3].to == Members(r.st, General) && s in r.out[3].to
  {
    if u in st.byName then
      Step(st, [Emit({s}, JoinFail("Username '" + u + "' is already taken."))])
    else
      var st1 := st.(bySocket := st.bySocket[s := User(u, AvatarUrl(u))],
                     byName := st.byName[u := s]);
      var st2 := st1.(rooms := st1.rooms[s := LeaveAllRooms(st1.rooms[s], s, General) + {General}]);
      var welcome := Notice(u + " joined General", General, now);
      var st3 := st2.(messages := Append(st2.messages, General, welcome));
      Step(st3, [Emit({s}, JoinSuccess),
                 Emit(AllSockets(st2), UpdateUserList(st2.bySocket)),
                 Emit({s}, ChannelList(st2.channels.Keys)),
                 Emit(Members(st3, General), ReceiveMessage(welcome))])
  }

  /** The message a registered sender's `sendMessage` stores and broadcasts:
      a chat message snapshotting the sender, carrying the payload's room,
      privacy flag and content, and typed "text" unless the payload names a
      type. */
  function Outgoing(sender: User, data: SendData, now: Timestamp): (m: Message)
    ensures m.Chat? && m.sender == sender && m.timestamp == now
    ensures m.room == data.room && m.isPrivate == data.isPrivate && m.content == data.content
    ensures Truthy(data.kind) ==> m.kind == data.kind.value
    ensures !Truthy(data.kind) ==> m.kind == "text"
  {
    Chat(sender, TypeOrText(data.kind), data.content, now, data.isPrivate, data.room)
  }

  /** `sendMessage` to a bound name with `isPrivate` set: the message is
      stored under the pair's private-room key with `room` naming the
      recipient, both live sockets are joined to that room, and the message
      is broadcast there. */
  function SendPrivate(st: State, s: SocketId, data: SendData, now: Timestamp): (r: Step)
    requires s in st.rooms && s in st.bySocket && data.isPrivate && data.room in st.byName
    ensures r.st.bySocket == st.bySocket && r.st.byName == st.byName && r.st.channels == st.channels
    ensures r.st.rooms.Keys == st.rooms.Keys
    ensures var key := PrivateRoom.Key(st.bySocket[s].username, data.room);
      var msg := Outgoing(st.bySocket[s], data, now);
      && msg.room == data.room && msg.isPrivate
      && History(r.st, key) == History(st, key) + [msg]
      && (forall k :: k != key ==> History(r.st, k) == History(st, k))
      && key in r.st.rooms[s]
      && (st.byName[data.room] in st.rooms ==> key in r.st.rooms[st.byName[data.room]])
      && (forall x :: x in st.rooms ==> r.st.rooms[x] - {key} == st.rooms[x] - {key})
      && (forall x :: x in st.rooms && x != s && x != st.byName[data.room] ==>
            r.st.rooms[x] == st.rooms[x])
      && r.out == [Emit(Members(r.st, key), ReceiveMessage(msg))]
  {
    var key := PrivateRoom.Key(st.bySocket[s].username, data.room);
    var rs1 := st.rooms[s := st.rooms[s] + {key}];
    var peer := st.byName[data.room];
    var rs2 := if peer in rs1 then rs1[peer := rs1[peer] + {key}] else rs1;
    var msg := Outgoing(st.bySocket[s], data, now);
    var st1 := st.(rooms := rs2, messages := Append(st.messages, key, msg));
    Step(st1, [Emit(Members(st1, key), ReceiveMessage(msg))])
  }

  /** `sendMessage` without `isPrivate`: the message is appended to
      `data.room` whether or not that is a channel and whether or not the
      sender joined it, and reaches the room's current members. */
  function SendToRoom(st: State, s: SocketId, data: SendData, now: Timestamp): (r: Step)
    requires s in st.bySocket && !data.isPrivate
    ensures r.st.bySocket == st.bySocket && r.st.byName == st.byName && r.st.channels == st.channels
    ensures r.st.rooms == st.rooms
    ensures var msg := Outgoing(st.bySocket[s], data, now);
      && msg.room == data.room && !msg.isPrivate
      && History(r.st, data.room) == History(st, data.room) + [msg]
      && (forall k :: k != data.room ==> History(r.st, k) == History(st, k))
      && r.out == [Emit(Members(st, data.room), ReceiveMessage(msg))]
  {
    var msg := Outgoing(st.bySocket[s], data, now);
    var st1 := st.(messages := Append(st.messages, data.room, msg));
    Step(st1, [Emit(Members(st1, data.room), ReceiveMessage(msg))])
  }

  /** `sendMessage`: ignored from an unregistered socket; a private send to
      an unbound name only tells the sender the recipient is offline; other
      sends go to SendPrivate or SendToRoom. No send changes the registry,
      the channels or the set of live sockets. */
  function SendMessage(st: State, s: SocketId, data: SendData, now: Timestamp): (r: Step)
    requires s in st.rooms
    ensures s !in st.bySocket ==> r == Step(st, [])
    ensures r.st.bySocket == st.bySocket && r.st.byName == st.byName && r.st.channels == st.channels
    ensures r.st.rooms.Keys == st.rooms.Keys
    ensures s in st.bySocket && data.isPrivate && data.room !in st.byName ==>
      && r.st == st
      && r.out == [Emit({s}, ReceiveMessage(Notice("User " + data.room + " is offline.", data.room, now)))]
  {
    if s !in st.bySocket then Step(st, [])
    else if data.isPrivate then
      if data.room !in st.byName then
        Step(st, [Emit({s}, ReceiveMessage(Notice("User " + data.room + " is offline.", data.room, now)))])
      else SendPrivate(st, s, data, now)
    else SendToRoom(st, s, data, now)
  }

  /** True when a channel whose stored password is `stored` refuses the
      supplied one: it has a password and the two differ. */
  predicate PasswordRefused(stored: Option<string>, supplied: Option<string>)
    ensures !Truthy(stored) ==> !PasswordRefused(stored, supplied)
    ensures supplied == stored ==> !PasswordRefused(stored, supplied)
    ensures Truthy(stored) && supplied != stored ==> PasswordRefused(stored, supplied)
  {
    Truthy(stored) && stored != supplied
  }

  /** `joinChannel`: moves the socket into an existing channel whose password
      (if any) matches, then replays its history and confirms. */
  function JoinChannel(st: State, s: SocketId, name: string, password: Option<string>,
                       now: Timestamp): (r: Step)
    requires s in st.rooms
    ensures s !in st.bySocket ==> r == Step(st, [])
    ensures s in st.bySocket && name !in st.channels ==>
      r.st == st && r.out == [Emit({s}, JoinFail("Channel '" + name + "' does not exist."))]
    ensures s in st.bySocket && name in st.channels && PasswordRefused(st.channels[name], password) ==>
      r.st == st && r.out == [Emit({s}, JoinFail("Wrong password for channel."))]
    // on success only the socket's own room set changes
    ensures s in st.bySocket && name in st.channels && !PasswordRefused(st.channels[name], password) ==>
      && r.st == st.(rooms := r.st.rooms)
      && r.st.rooms.Keys == st.rooms.Keys
      && (s in st.rooms[s] ==> r.st.rooms[s] == {s, name})
      && (forall x :: x in st.rooms && x != s ==> r.st.rooms[x] == st.rooms[x])
      && |r.out| == |History(st, name)| + 1
      && r.out[..|History(st, name)|] == Replay(s, History(st, name))
      && r.out[|History(st, name)|] == Emit({s}, ReceiveMessage(Notice("You joined " + name, name, now)))
  {
    if s !in st.bySocket then Step(st, [])
    else if name !in st.channels then
      Step(st, [Emit({s}, JoinFail("Channel '" + name + "' does not exist."))])
    else if PasswordRefused(st.channels[name], password) then
      Step(st, [Emit({s}, JoinFail("Wrong password for channel."))])
    else
      var st1 := st.(rooms := st.rooms[s := LeaveAllRooms(st.rooms[s], s, name) + {name}]);
      var out := Replay(s, History(st, name))
                 + [Emit({s}, ReceiveMessage(Notice("You joined " + name, name, now)))];
      assert out[..|History(st, name)|] == Replay(s, History(st, name));
      Step(st1, out)
  }

  /** `createChannel`: adds a channel under an unused name with an empty
      history, announces the channel names to everyone and moves the creator
      into it. */
  function CreateChannel(st: State, s: SocketId, name: string, password: Option<string>,
                         now: Timestamp): (r: Step)
    requires s in st.rooms
    ensures s !in st.bySocket ==> r == Step(st, [])
    ensures s in st.bySocket && name in st.channels ==>
      r.st == st && r.out == [Emit({s}, JoinFail("Channel '" + name + "' already exists."))]
    ensures s in st.bySocket && name !in st.channels ==>
      && r.st.channels == st.channels[name := NormalizePassword(password)]
      && r.st.messages == st.messages[name := []]
      && r.st.bySocket == st.bySocket && r.st.byName == st.byName
      && r.st.rooms.Keys == st.rooms.Keys
      && (s in st.rooms[s] ==> r.st.rooms[s] == {s, name})
      && (forall x :: x in st.rooms && x != s ==> r.st.rooms[x] == st.rooms[x])
      && r.out == [Emit(AllSockets(st), ChannelList(st.channels.Keys + {name})),
                   Emit({s}, ReceiveMessage(Notice("Channel '" + name
                     + "' created successfully. You have been added to it.", name, now)))]
  {
    if s !in st.bySocket then Step(st, [])
    else if name in st.channels then
      Step(st, [Emit({s}, JoinFail("Channel '" + name + "' already exists."))])
    else
      var st1 := st.(channels := st.channels[name := NormalizePassword(password)],
                     messages := st.messages[name := []]);
      var announce := Emit(AllSockets(st1), ChannelList(st.channels.Keys + {name}));
      var st2 := st1.(rooms := st1.rooms[s := LeaveAllRooms(st1.rooms[s], s, name) + {name}]);
      Step(st2, [announce, Emit({s}, ReceiveMessage(Notice("Channel '" + name
                   + "' created successfully. You have been added to it.", name, now)))])
  }

  /** The stored history of a private room as replayed to one side: each
      copy keeps every field of the stored message except `room`, which names
      the other participant. */
  function AsSeenWith(ms: seq<Message>, other: string): (view: seq<Message>)
    ensures |view| == |ms|
    ensures forall i :: 0 <= i < |ms| ==>
      && view[i].room == other
      && view[i].Chat? == ms[i].Chat?
      && view[i].content == ms[i].content && view[i].timestamp == ms[i].timestamp
      && (ms[i].Chat? ==> view[i].sender == ms[i].sender && view[i].kind == ms[i].kind
                          && view[i].isPrivate == ms[i].isPrivate)
    ensures forall i :: 0 <= i < |ms| ==> (view[i] == ms[i] <==> ms[i].room == other)
  {
    seq(|ms|, i requires 0 <= i < |ms| => ms[i].(room := other))
  }

  /** `joinPrivate`: moves the socket into the private room it shares with
      `other`, adds `other`'s live socket to it, and replays the history. */
  function JoinPrivate(st: State, s: SocketId, other: string, now: Timestamp): (r: Step)
    requires s in st.rooms
    ensures s !in st.bySocket ==> r == Step(st, [])
    ensures s in st.bySocket && other !in st.byName ==>
      r.st == st && r.out == [Emit({s}, ReceiveMessage(Notice("User " + other + " is offline.", other, now)))]
    ensures s in st.bySocket && other in st.byName ==>
      var key := PrivateRoom.Key(st.bySocket[s].username, other);
      var peer := st.byName[other];
      && r.st == st.(rooms := r.st.rooms)
      && r.st.rooms.Keys == st.rooms.Keys
      && (s in st.rooms[s] ==> r.st.rooms[s] == {s, key})
      && (peer != s && peer in st.rooms ==> r.st.rooms[peer] == st.rooms[peer] + {key})
      && (forall x :: x in st.rooms && x != s && x != peer ==> r.st.rooms[x] == st.rooms[x])
      && |r.out| == |History(st, key)|
      && (forall i :: 0 <= i < |r.out| ==>
            r.out[i] == Emit({s}, ReceiveMessage(History(st, key)[i].(room := other))))
  {
    if s !in st.bySocket then Step(st, [])
    else if other !in st.byName then
      Step(st, [Emit({s}, ReceiveMessage(Notice("User " + other + " is offline.", other, now)))])
    else
      var key := PrivateRoom.Key(st.bySocket[s].username, other);
      var rs1 := st.rooms[s := LeaveAllRooms(st.rooms[s], s, key) + {key}];
      var peer := st.byName[other];
      var rs2 := if peer in rs1 then rs1[peer := rs1[peer] + {key}] else rs1;
      Step(st.(rooms := rs2), Replay(s, AsSeenWith(History(st, key), other)))
  }

  /** `disconnect`: the transport drops the socket and its rooms; the handler
      then frees the user's name and socket entry and republishes the users. */
  function Disconnect(st: State, s: SocketId): (r: Step)
    requires s in st.rooms
    ensures r.st.rooms == st.rooms - {s}
    ensures r.st.channels == st.channels && r.st.messages == st.messages
    ensures s !in st.bySocket ==>
      r.st.bySocket == st.bySocket && r.st.byName == st.byName && r.out == []
    ensures s in st.bySocket ==>
      && r.st.bySocket == st.bySocket - {s}
      && r.st.byName == st.byName - {st.bySocket[s].username}
      && r.out == [Emit(st.rooms.Keys - {s}, UpdateUserList(st.bySocket - {s}))]
  {
    var st1 := st.(rooms := st.rooms - {s});
    if s in st1.bySocket then
      var st2 := st1.(byName := st1.byName - {st1.bySocket[s].username},
                      bySocket := st1.bySocket - {s});
      Step(st2, [Emit(AllSockets(st2), UpdateUserList(st2.bySocket))])
    else
      Step(st1, [])
  }
}
