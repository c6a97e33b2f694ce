/** The server as a whole: inbound events dispatched to their handlers, runs
    of events from start-up, and the invariants every run keeps. */
module Server {
  import opened ChatState
  import H = Handlers
  import PrivateRoom

  /** An inbound event, tagged by kind, with the socket it arrived on. */
  datatype Request =
    | Connection(id: SocketId)
    | Join(id: SocketId, username: string, now: Timestamp)
    | SendMessage(id: SocketId, data: SendData, now: Timestamp)
    | JoinChannel(id: SocketId, name: string, password: Option<string>, now: Timestamp)
    | CreateChannel(id: SocketId, name: string, password: Option<string>, now: Timestamp)
    | JoinPrivate(id: SocketId, other: string, now: Timestamp)
    | Disconnect(id: SocketId)

  /** The transport connects a socket only under an id that is not live and
      delivers events only from live connections; an event that could not
      arrive is dropped. */
  predicate Deliverable(st: State, e: Request)
  {
    if e.Connection? then e.id !in st.rooms else e.id in st.rooms
  }

  /** Runs the handler for one event. Only a connection or a disconnect
      changes which sockets are live, and no event touches the registration
      of any socket but its own. */
  function Apply(st: State, e: Request): (r: Step)
    ensures !Deliverable(st, e) ==> r == Step(st, [])
    ensures Deliverable(st, e) && e.Connection? ==> r.st.rooms.Keys == st.rooms.Keys + {e.id}
    ensures Deliverable(st, e) && e.Disconnect? ==> r.st.rooms.Keys == st.rooms.Keys - {e.id}
    ensures !e.Connection? && !e.Disconnect? ==> r.st.rooms.Keys == st.rooms.Keys
    ensures forall x :: x in r.st.bySocket && x != e.id ==>
      x in st.bySocket && r.st.bySocket[x] == st.bySocket[x]
    ensures forall x :: x in st.bySocket && x != e.id ==> x in r.st.bySocket
  {
    if !Deliverable(st, e) then Step(st, [])
    else
      match e
      case Connection(id) => H.Connect(st, id)
      case Join(id, u, now) => H.Join(st, id, u, now)
      case SendMessage(id, data, now) => H.SendMessage(st, id, data, now)
      case JoinChannel(id, name, pw, now) => H.JoinChannel(st, id, name, pw, now)
      case CreateChannel(id, name, pw, now) => H.CreateChannel(st, id, name, pw, now)
      case JoinPrivate(id, other, now) => H.JoinPrivate(st, id, other, now)
      case Disconnect(id) => H.Disconnect(st, id)
  }

  /** The stores after handling `evs` in order. */
  function Run(st: State, evs: seq<Request>): State
    decreases |evs|
  {
    if |evs| == 0 then st else Run(Apply(st, evs[0]).st, evs[1..])
  }

  // ---------------------------------------------------------------------
  // Invariants of single events

  /** A `join` keeps the four invariants: a refused join changes nothing,
      and an accepted one indexes exactly the new name. */
  lemma JoinPreservesValid(st: State, s: SocketId, u: string, now: Timestamp)
    requires Valid(st) && s in st.rooms
    ensures Valid(H.Join(st, s, u, now).st)
  {
    var r := H.Join(st, s, u, now);
    if u !in st.byName {
      forall x | x in r.st.bySocket
        ensures r.st.bySocket[x].username in r.st.byName
        ensures r.st.byName[r.st.bySocket[x].username] == x
      {
        if x != s {
          assert st.bySocket[x].username in st.byName;
        }
      }
    }
  }

  /** A disconnect keeps the four invariants: it frees the departing user's
      name and no other. */
  lemma DisconnectPreservesValid(st: State, s: SocketId)
    requires Valid(st) && s in st.rooms
    ensures Valid(H.Disconnect(st, s).st)
  {
    var r := H.Disconnect(st, s);
    if s in st.bySocket {
      forall x | x in r.st.bySocket
        ensures r.st.bySocket[x].username in r.st.byName
        ensures r.st.byName[r.st.bySocket[x].username] == x
      {
        assert st.byName[st.bySocket[x].username] == x;
      }
    }
  }

  lemma ApplyPreservesValid(st: State, e: Request)
    requires Valid(st)
    ensures Valid(Apply(st, e).st)
  {
    if Deliverable(st, e) {
      match e
      case Connection(id) =>
      case Join(id, u, now) => JoinPreservesValid(st, id, u, now);
      case SendMessage(id, data, now) => SendPreservesValid(st, id, data, now);
      case JoinChannel(id, name, pw, now) => JoinChannelPreservesValid(st, id, name, pw, now);
      case CreateChannel(id, name, pw, now) => CreatePreservesValid(st, id, name, pw, now);
      case JoinPrivate(id, other, now) => JoinPrivatePreservesValid(st, id, other, now);
      case Disconnect(id) => DisconnectPreservesValid(st, id);
    }
  }

  /** A `sendMessage` only adds private-room memberships and history, so
      the invariants survive it. */
  lemma SendPreservesValid(st: State, s: SocketId, data: SendData, now: Timestamp)
    requires Valid(st) && s in st.rooms
    ensures Valid(H.SendMessage(st, s, data, now).st)
  {
  }

  /** A `joinChannel` keeps the socket in its own room and touches no
      registry entry. */
  lemma JoinChannelPreservesValid(st: State, s: SocketId, name: string, pw: Option<string>, now: Timestamp)
    requires Valid(st) && s in st.rooms
    ensures Valid(H.JoinChannel(st, s, name, pw, now).st)
  {
  }

  /** A `createChannel` never replaces General, whose name is already taken. */
  lemma CreatePreservesValid(st: State, s: SocketId, name: string, pw: Option<string>, now: Timestamp)
    requires Valid(st) && s in st.rooms
    ensures Valid(H.CreateChannel(st, s, name, pw, now).st)
  {
  }

  /** A `joinPrivate` keeps every socket in its own room and touches no
      registry entry. */
  lemma JoinPrivatePreservesValid(st: State, s: SocketId, other: string, now: Timestamp)
    requires Valid(st) && s in st.rooms
    ensures Valid(H.JoinPrivate(st, s, other, now).st)
  {
  }

  /** True when every entry of `a`'s channel directory is still in `b` with
      the same stored password. */
  ghost predicate ChannelsKept(a: State, b: State)
  {
    forall n :: n in a.channels ==> n in b.channels && b.channels[n] == a.channels[n]
  }

  /** No event removes a channel or changes its password. */
  lemma ApplyKeepsChannels(st: State, e: Request)
    ensures ChannelsKept(st, Apply(st, e).st)
  {
  }

  /** True when every history of `a` is a prefix of the same room's history
      in `b`: messages are only ever added at the end. */
  ghost predicate HistoriesExtend(a: State, b: State)
  {
    forall k :: History(a, k) <= History(b, k)
  }

  /** True unless `e` is a `createChannel` that will succeed over a room
      name already holding messages: the one event that resets a history. */
  ghost predicate KeepsHistory(st: State, e: Request)
  {
    (e.CreateChannel? && Deliverable(st, e) && e.id in st.bySocket && e.name !in st.channels)
    ==> History(st, e.name) == []
  }

  /** Every event appends to histories without altering or dropping earlier
      messages, except a successful `createChannel` over a room that already
      holds messages (see CreateChannelDiscardsHistory). */
  lemma ApplyAppendOnly(st: State, e: Request)
    requires KeepsHistory(st, e)
    ensures HistoriesExtend(st, Apply(st, e).st)
  {
    if Deliverable(st, e) {
      match e
      case Join(id, u, now) => JoinAppends(st, id, u, now);
      case SendMessage(id, data, now) => SendAppends(st, id, data, now);
      case _ =>
    }
  }

  /** A `join` only appends: the welcome notice goes at the end of General. */
  lemma JoinAppends(st: State, s: SocketId, u: string, now: Timestamp)
    requires s in st.rooms
    ensures HistoriesExtend(st, H.Join(st, s, u, now).st)
  {
  }

  /** A `sendMessage` only appends to the history it targets. */
  lemma SendAppends(st: State, s: SocketId, data: SendData, now: Timestamp)
    requires s in st.rooms
    ensures HistoriesExtend(st, H.SendMessage(st, s, data, now).st)
  {
  }

  /** Every handler other than `join` leaves the stores alone when the socket
      never registered; `disconnect` then only drops the socket itself. */
  lemma UnregisteredSocketChangesNothing(st: State, e: Request)
    requires e.id in st.rooms && e.id !in st.bySocket
    requires !e.Connection? && !e.Join?
    ensures !e.Disconnect? ==> Apply(st, e) == Step(st, [])
    ensures e.Disconnect? ==> Apply(st, e) == Step(st.(rooms := st.rooms - {e.id}), [])
  {
  }

  /** With the name index current, both sides of an accepted private send are
      joined to the pair's room and receive the message. */
  lemma PrivateSendReachesBoth(st: State, s: SocketId, data: SendData, now: Timestamp)
    requires Valid(st) && NamesCurrent(st)
    requires s in st.bySocket && data.isPrivate && data.room in st.byName
    ensures var r := H.SendMessage(st, s, data, now);
            var key := PrivateRoom.Key(st.bySocket[s].username, data.room);
            && key in r.st.rooms[s] && key in r.st.rooms[st.byName[data.room]]
            && |r.out| == 1 && s in r.out[0].to && st.byName[data.room] in r.out[0].to
  {
  }

  /** "General" can always be joined, whatever password is supplied. */
  lemma GeneralAlwaysJoinable(st: State, s: SocketId, password: Option<string>, now: Timestamp)
    requires Valid(st) && s in st.bySocket
    ensures H.JoinChannel(st, s, General, password, now).st.rooms[s] == {s, General}
  {
  }

  /** Creating "General" is always refused. */
  lemma GeneralCannotBeRecreated(st: State, s: SocketId, password: Option<string>, now: Timestamp)
    requires Valid(st) && s in st.bySocket
    ensures H.CreateChannel(st, s, General, password, now).st == st
  {
  }

  /** A `join` keeps the two maps inverse to each other unless it rebinds an
      already registered socket to a new name. */
  lemma JoinKeepsNamesCurrent(st: State, s: SocketId, u: string, now: Timestamp)
    requires Valid(st) && NamesCurrent(st)
    requires s in st.rooms && (s in st.bySocket ==> u in st.byName)
    ensures NamesCurrent(H.Join(st, s, u, now).st)
  {
  }

  /** A disconnect frees exactly the departing user's name, so the maps stay
      inverse to each other. */
  lemma DisconnectKeepsNamesCurrent(st: State, s: SocketId)
    requires Valid(st) && NamesCurrent(st)
    requires s in st.rooms
    ensures NamesCurrent(H.Disconnect(st, s).st)
  {
  }

  /** Every event keeps the maps inverse, provided a `join` on a socket
      that is already registered asks for a name that is taken (and so is
      refused). */
  lemma ApplyKeepsNamesCurrent(st: State, e: Request)
    requires Valid(st) && NamesCurrent(st)
    requires e.Join? && e.id in st.bySocket ==> e.username in st.byName
    ensures NamesCurrent(Apply(st, e).st)
  {
    if Deliverable(st, e) {
      match e
      case Connection(id) => SameRegistry(st, Apply(st, e).st);
      case Join(id, u, now) => JoinKeepsNamesCurrent(st, id, u, now);
      case SendMessage(id, data, now) => SameRegistry(st, H.SendMessage(st, id, data, now).st);
      case JoinChannel(id, name, pw, now) => SameRegistry(st, H.JoinChannel(st, id, name, pw, now).st);
      case CreateChannel(id, name, pw, now) => SameRegistry(st, H.CreateChannel(st, id, name, pw, now).st);
      case JoinPrivate(id, other, now) => SameRegistry(st, H.JoinPrivate(st, id, other, now).st);
      case Disconnect(id) => DisconnectKeepsNamesCurrent(st, id);
    }
  }

  /** A state with the same registry and name index keeps them inverse. */
  lemma SameRegistry(a: State, b: State)
    requires NamesCurrent(a) && b.bySocket == a.bySocket && b.byName == a.byName
    ensures NamesCurrent(b)
  {
  }

  // ---------------------------------------------------------------------
  // Invariants of runs

  lemma {:induction false} RunPreservesValid(st: State, evs: seq<Request>)
    requires Valid(st)
    ensures Valid(Run(st, evs))
    decreases |evs|
  {
    if |evs| > 0 {
      ApplyPreservesValid(st, evs[0]);
      RunPreservesValid(Apply(st, evs[0]).st, evs[1..]);
    }
  }

  /** From start-up, whatever the events, no two live users share a name
      and "General" stays open. */
  lemma RunFromInitKeepsNamesUnique(evs: seq<Request>)
    ensures Valid(Run(Init(), evs))
    ensures UniqueNames(Run(Init(), evs))
  {
    RunPreservesValid(Init(), evs);
    IndexedNamesAreUnique(Run(Init(), evs));
  }

  lemma {:induction false} RunKeepsChannels(st: State, evs: seq<Request>)
    ensures ChannelsKept(st, Run(st, evs))
    decreases |evs|
  {
    if |evs| > 0 {
      ApplyKeepsChannels(st, evs[0]);
      RunKeepsChannels(Apply(st, evs[0]).st, evs[1..]);
    }
  }

  /** True when, along the run of `evs` from `st`, no registered socket
      successfully joins again: a `join` on a registered socket asks for a
      name that is already taken. */
  ghost predicate NeverRenames(st: State, evs: seq<Request>)
    decreases |evs|
  {
    |evs| == 0 ||
    ((evs[0].Join? && evs[0].id in st.bySocket ==> evs[0].username in st.byName)
     && NeverRenames(Apply(st, evs[0]).st, evs[1..]))
  }

  /** When no registered socket successfully joins under a second name, the
      name index and the socket registry stay exact inverses. */
  lemma {:induction false} RunKeepsNamesCurrent(st: State, evs: seq<Request>)
    requires Valid(st) && NamesCurrent(st) && NeverRenames(st, evs)
    ensures NamesCurrent(Run(st, evs))
    decreases |evs|
  {
    if |evs| > 0 {
      ApplyKeepsNamesCurrent(st, evs[0]);
      ApplyPreservesValid(st, evs[0]);
      RunKeepsNamesCurrent(Apply(st, evs[0]).st, evs[1..]);
    }
  }

  /** True when, along the run of `evs` from `st`, no channel is created
      over a room name that already holds messages. */
  ghost predicate CreatesOverEmpty(st: State, evs: seq<Request>)
    decreases |evs|
  {
    |evs| == 0 ||
    (KeepsHistory(st, evs[0]) && CreatesOverEmpty(Apply(st, evs[0]).st, evs[1..]))
  }

  lemma {:induction false} RunAppendOnly(st: State, evs: seq<Request>)
    requires CreatesOverEmpty(st, evs)
    ensures HistoriesExtend(st, Run(st, evs))
    decreases |evs|
  {
    if |evs| > 0 {
      var next := Apply(st, evs[0]).st;
      ApplyAppendOnly(st, evs[0]);
      RunAppendOnly(next, evs[1..]);
      forall k ensures History(st, k) <= History(Run(st, evs), k) {
        assert History(st, k) <= History(next, k);
      }
    }
  }

  // ---------------------------------------------------------------------
  // Behaviour of the code as written

  /** A socket that re-joins under a second name leaves its first name bound;
      after it disconnects the first name points at a dead socket and can
      never be joined again. */
  lemma RejoinLeavesStaleName(t: Timestamp)
    ensures var st1 := H.Connect(Init(), "s1").st;
            var st2 := H.Join(st1, "s1", "a", t).st;
            var st3 := H.Join(st2, "s1", "b", t).st;
            var st4 := H.Disconnect(st3, "s1").st;
            && "a" in st4.byName && st4.byName["a"] == "s1"
            && "s1" !in st4.rooms && "s1" !in st4.bySocket
            && !NamesCurrent(st4)
  {
  }

  /** A message sent to a room name that is not a channel is stored; creating
      a channel of that name afterwards replaces the history with an empty
      one. */
  lemma CreateChannelDiscardsHistory(t: Timestamp)
    ensures var st1 := H.Connect(Init(), "s1").st;
            var st2 := H.Join(st1, "s1", "alice", t).st;
            var st3 := H.SendMessage(st2, "s1", SendData("dev", false, None, "hi"), t).st;
            var st4 := H.CreateChannel(st3, "s1", "dev", None, t).st;
            && |History(st3, "dev")| == 1
            && History(st4, "dev") == []
  {
  }

  /** A fresh socket registering an unused name keeps both invariants and
      binds exactly that name to it. */
  lemma FreshJoin(st: State, s: SocketId, u: string, t: Timestamp)
    requires Valid(st) && NamesCurrent(st)
    requires s in st.rooms && s !in st.bySocket && u !in st.byName
    ensures var st' := H.Join(st, s, u, t).st;
            && Valid(st') && NamesCurrent(st')
            && st'.byName == st.byName[u := s]
            && st'.bySocket[s].username == u
            && (forall x :: x in st.bySocket ==> st'.bySocket[x] == st.bySocket[x])
            && st'.rooms.Keys == st.rooms.Keys
  {
  }

  /** A private message is broadcast to both sides with `room` set to the
      recipient's name: the recipient sees its own name there, never the
      sender's. */
  lemma PrivateMessageCarriesRecipientName(st: State, s: SocketId, data: SendData, now: Timestamp)
    requires Valid(st) && NamesCurrent(st)
    requires s in st.bySocket && data.isPrivate && data.room in st.byName
    ensures var r := H.SendMessage(st, s, data, now);
            var peer := st.byName[data.room];
            && |r.out| == 1 && r.out[0].payload.ReceiveMessage?
            && peer in r.out[0].to && s in r.out[0].to
            && r.out[0].payload.msg.room == st.bySocket[peer].username
            && (peer != s ==> r.out[0].payload.msg.room != st.bySocket[s].username)
  {
    PrivateSendReachesBoth(st, s, data, now);
    IndexedNamesAreUnique(st);
  }
}
