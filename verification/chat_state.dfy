/** The server's in-memory stores, the records they hold, the events it
    emits, and the helpers the handlers share. */
module ChatState {

  datatype Option<+T> = None | Some(value: T)

  /** A connection id as the transport hands it out: never the empty string,
      so a stored id is always a truthy value. */
  type SocketId = s: string | |s| > 0 witness "s"

  /** A broadcast scope: "General", a channel name, a private-room key, or a
      socket's own id. */
  type Room = string

  /** A wall-clock time as the server formats it; never interpreted. */
  type Timestamp = string

  const General: Room := "General"

  /** A registered participant. */
  datatype User = User(username: string, avatar: string)

  /** A stored or emitted message: a system notice carries no sender and has
      type "system"; a chat message snapshots its sender at send time. */
  datatype Message =
    | Notice(content: string, room: Room, timestamp: Timestamp)
    | Chat(sender: User, kind: string, content: string, timestamp: Timestamp,
           isPrivate: bool, room: Room)

  /** The payload of an inbound `sendMessage` event; `kind` is None when the
      client left the type out. */
  datatype SendData = SendData(room: string, isPrivate: bool, kind: Option<string>, content: string)

  /** What the server emits. */
  datatype Payload =
    | JoinFail(reason: string)
    | JoinSuccess
    | UpdateUserList(users: map<SocketId, User>)
    | ChannelList(names: set<string>)
    | ReceiveMessage(msg: Message)

  /** One emit, with the set of live sockets it reaches resolved at the moment
      it is made. */
  datatype Emit = Emit(to: set<SocketId>, payload: Payload)

  /** The five stores. `rooms` maps every live socket to the rooms it has
      joined, so its domain is the set of live connections. */
  datatype State = State(
    bySocket: map<SocketId, User>,
    byName: map<string, SocketId>,
    channels: map<string, Option<string>>,
    messages: map<Room, seq<Message>>,
    rooms: map<SocketId, set<Room>>)

  /** A transition's result: the new state and what it emitted, in order. */
  datatype Step = Step(st: State, out: seq<Emit>)

  /** The stores at start-up: no users, only the open "General" channel, no
      history, no connections. */
  function Init(): (st: State)
    ensures st.channels.Keys == {General} && st.channels[General] == None
    ensures st.bySocket == map[] && st.byName == map[] && st.rooms == map[]
    ensures st.messages == map[]
  {
    State(map[], map[], map[General := None], map[], map[])
  }

  /** The history stored for `room`, empty when it has none. */
  function History(st: State, room: Room): seq<Message>
  {
    if room in st.messages then st.messages[room] else []
  }

  /** Appends `m` to the history of `room`, creating the history if needed. */
  function Append(msgs: map<Room, seq<Message>>, room: Room, m: Message): (r: map<Room, seq<Message>>)
    ensures r.Keys == msgs.Keys + {room}
    ensures |r[room]| > 0 && r[room][|r[room]| - 1] == m
    ensures room in msgs ==> r[room][..|r[room]| - 1] == msgs[room]
    ensures room !in msgs ==> r[room] == [m]
    ensures forall k :: k in msgs && k != room ==> r[k] == msgs[k]
  {
    msgs[room := (if room in msgs then msgs[room] else []) + [m]]
  }

  /** Every live connection. */
  function AllSockets(st: State): set<SocketId>
  {
    st.rooms.Keys
  }

  /** The live connections currently joined to `room`: an emit to the room
      reaches no dead socket and no live socket outside it. */
  function Members(st: State, room: Room): (r: set<SocketId>)
    ensures r <= AllSockets(st)
    ensures forall x :: x in r <==> x in st.rooms && room in st.rooms[x]
  {
    set x | x in st.rooms && room in st.rooms[x]
  }

  /** The rooms a socket keeps when it leaves every room but its own id room
      and `except`. */
  function LeaveAllRooms(held: set<Room>, id: SocketId, except: Room): (kept: set<Room>)
    ensures kept <= held
    ensures kept <= {id, except}
    ensures id in held ==> id in kept
    ensures except in held ==> except in kept
  {
    set r | r in held && (r == id || r == except)
  }

  /** JavaScript truthiness of an optional string: present and non-empty. */
  predicate Truthy(p: Option<string>)
  {
    p.Some? && p.value != ""
  }

  /** `password || null`: a falsy password is stored as no password. */
  function NormalizePassword(p: Option<string>): (stored: Option<string>)
    ensures stored == None || Truthy(stored)
    ensures Truthy(p) ==> stored == p
    ensures !Truthy(p) ==> stored == None
  {
    if Truthy(p) then p else None
  }

  /** `data.type || "text"`: a missing or empty type becomes "text". */
  function TypeOrText(kind: Option<string>): (t: string)
    ensures t != ""
    ensures Truthy(kind) ==> t == kind.value
    ensures !Truthy(kind) ==> t == "text"
  {
    if Truthy(kind) then kind.value else "text"
  }

  /** The default avatar URL assigned at registration; the username is
      inserted as is (percent-encoding is not modelled). */
  function AvatarUrl(username: string): string
  {
    "https://ui-avatars.com/api/?name=" + username + "&background=667eea&color=fff&bold=true"
  }

  /** True when every emit of `out` delivers a single message. */
  predicate AllMessages(out: seq<Emit>)
  {
    forall i :: 0 <= i < |out| ==> out[i].payload.ReceiveMessage?
  }

  /** The messages a sequence of message emits delivers, in order. */
  function Carried(out: seq<Emit>): (ms: seq<Message>)
    requires AllMessages(out)
    ensures |ms| == |out|
  {
    seq(|out|, i requires 0 <= i < |out| => out[i].payload.msg)
  }

  /** Emits each message of `ms`, in order, to socket `s` alone. */
  function Replay(s: SocketId, ms: seq<Message>): (out: seq<Emit>)
    ensures forall i :: 0 <= i < |out| ==> out[i].to == {s}
    ensures AllMessages(out) && Carried(out) == ms
  {
    seq(|ms|, i requires 0 <= i < |ms| => Emit({s}, ReceiveMessage(ms[i])))
  }

  /** Every live socket is a member of its own id room. */
  ghost predicate OwnRooms(st: State)
  {
    forall x :: x in st.rooms ==> x in st.rooms[x]
  }

  /** Only live sockets are registered. */
  ghost predicate RegisteredLive(st: State)
  {
    st.bySocket.Keys <= st.rooms.Keys
  }

  /** The name index holds every registered user's name, pointing back at
      that user's socket. */
  ghost predicate NamesIndexed(st: State)
  {
    forall x :: x in st.bySocket ==>
      st.bySocket[x].username in st.byName && st.byName[st.bySocket[x].username] == x
  }

  /** "General" exists and has no password. */
  ghost predicate GeneralOpen(st: State)
  {
    General in st.channels && st.channels[General] == None
  }

  /** The invariants every reachable state keeps. */
  ghost predicate Valid(st: State)
  {
    OwnRooms(st) && RegisteredLive(st) && NamesIndexed(st) && GeneralOpen(st)
  }

  /** Every entry of the name index points at a registered socket holding
      that name: together with NamesIndexed, the two maps are inverses. */
  ghost predicate NamesCurrent(st: State)
  {
    forall u :: u in st.byName ==>
      st.byName[u] in st.bySocket && st.bySocket[st.byName[u]].username == u
  }

  /** No two registered sockets share a username. */
  ghost predicate UniqueNames(st: State)
  {
    forall x, y :: x in st.bySocket && y in st.bySocket && x != y ==>
      st.bySocket[x].username != st.bySocket[y].username
  }

  lemma IndexedNamesAreUnique(st: State)
    requires NamesIndexed(st)
    ensures UniqueNames(st)
  {
  }
}
