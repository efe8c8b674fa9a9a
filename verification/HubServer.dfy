/** The hub as the source has it: rooms, connections and the TURN table updated in place, one message at a time. */
module HubServer {
  import opened Collections
  import opened HubModel
  import opened HubInvariants
  import opened HubBoundary
  import opened HubEvents
  import opened HubTheorems
  import opened HubOverview
  import opened HubRefinement
  import opened Rosters

  /** What a key is derived from; the derivation itself is foreign. */
  datatype AuthKey = AuthKey(username: Username, realm: string, password: string)

  datatype Permit = Permit(addr: Addr, key: AuthKey)

  const REALM := "ScreenShare"

  /** The TURN server's table of user names. */
  class InternalServer {
    var lookup: map<Username, Permit>

    constructor ()
      ensures lookup == map[]
    {
      lookup := map[];
    }

    /** The addresses in the table, which is all that the hub sees of it. */
    ghost function Addrs(): map<Username, Addr>
      reads this
    {
      map u | u in lookup :: lookup[u].addr
    }

    method Allow(username: Username, password: string, addr: Addr)
      modifies this
      ensures lookup == old(lookup)[username := Permit(addr, AuthKey(username, REALM, password))]
      ensures Addrs() == old(Addrs())[username := addr]
    {
      lookup := lookup[username := Permit(addr, AuthKey(username, REALM, password))];
    }

    method Disallow(username: Username)
      modifies this
      ensures lookup == old(lookup) - {username} && Addrs() == old(Addrs()) - {username}
    {
      lookup := lookup - {username};
    }

    /** The password may be any. */
    method Credentials(id: Username, addr: Addr) returns (username: Username, password: string)
      modifies this
      ensures username == id && lookup == old(lookup)[id := Permit(addr, AuthKey(id, REALM, password))]
      ensures Addrs() == old(Addrs())[id := addr]
    {
      password := *;
      Allow(id, password, addr);
      username := id;
    }

    /** Whoever has a user name that is allowed right now gets in, by the key of the password last handed out for it. */
    method Authenticate(username: Username) returns (key: Option<AuthKey>)
      ensures key.Some? <==> username in lookup
      ensures key.Some? ==> key.value == lookup[username].key
    {
      key := if username in lookup then Some(lookup[username].key) else None;
    }
  }

  class Room {
    const id: string
    const closeOnOwnerLeave: bool
    const mode: Mode
    var users: map<Id, User>
    var sessions: map<Sid, Session>

    constructor (id: string, closeOnOwnerLeave: bool, mode: Mode, owner: User)
      ensures View() == RoomData(id, closeOnOwnerLeave, mode, map[owner.id := owner], map[])
    {
      this.id, this.closeOnOwnerLeave, this.mode := id, closeOnOwnerLeave, mode;
      users, sessions := map[owner.id := owner], map[];
    }

    ghost function View(): RoomData
      reads this
    {
      RoomData(id, closeOnOwnerLeave, mode, users, sessions)
    }

    /** current is the connection whose message is handled, recorded with every write. */
    method NewSession(hub: Rooms, host: Id, client: Id, current: Id, ips: Ips)
      requires hub.Valid() && hub.Has(this) && host in users && client in users
      modifies this`sessions, hub`log, hub`counters, hub`nextSid, hub`history, hub.turnServer
      ensures hub.Valid() && hub.Now() == OpenSession(old(hub.Now()), id, host, client, current, ips)
    {
      hide Rooms.Views;
      var sid := hub.nextSid;
      hub.nextSid := sid + 1;
      sessions := sessions[sid := Session(host, client)];
      hub.history := hub.history[sid := Record(id, Session(host, client), mode, ips)];
      hub.counters := hub.counters.(sessionsCreated := hub.counters.sessionsCreated + 1);

      var iceHost, iceClient := NoServers, NoServers;
      match mode {
        case Local =>
        case Stun =>
          iceHost, iceClient := StunServers(ips), StunServers(ips);
        case Turn =>
          var hostName, hostPassword := hub.turnServer.Credentials(Username(sid, HostRole), users[host].addr);
          var clientName, clientPassword := hub.turnServer.Credentials(Username(sid, ClientRole), users[client].addr);
          iceHost, iceClient := TurnServers(ips, hostName), TurnServers(ips, clientName);
        case OtherMode(_) =>
      }
      hub.log := hub.log + [Sent(host, current, HostSession(sid, client, iceHost))];
      hub.log := hub.log + [Sent(client, current, ClientSession(sid, host, iceClient))];
      hub.RoomChanged(this);
    }

    method CloseSession(hub: Rooms, sid: Sid)
      requires hub.Valid() && hub.Has(this)
      modifies this`sessions, hub`counters, hub.turnServer
      ensures hub.Valid() && hub.Now() == HubModel.CloseSession(old(hub.Now()), id, sid)
    {
      hide Rooms.Views;
      if mode.Turn? {
        hub.turnServer.Disallow(Username(sid, HostRole));
        hub.turnServer.Disallow(Username(sid, ClientRole));
      }
      sessions := sessions - {sid};
      hub.counters := hub.counters.(sessionsClosed := hub.counters.sessionsClosed + 1);
      hub.RoomChanged(this);
    }

    /** A user's entry is replaced. */
    method SetEntry(hub: Rooms, user: User)
      requires hub.Valid() && hub.Has(this) && user.id in users
      modifies this`users
      ensures hub.Valid() && id in old(hub.Views()) && hub.Now() == SetUser(old(hub.Now()), id, user.id, user)
      ensures users == old(users)[user.id := user]
    {
      hide Rooms.Views;
      users := users[user.id := user];
      hub.RoomChanged(this);
    }

    method NotifyInfoChanged(hub: Rooms, current: Id) returns (ghost notices: seq<Notice>)
      requires hub.Valid() && hub.Has(this) && forall c :: c in users ==> users[c].id == c
      modifies hub`log
      ensures GoodNotices(users, notices) && hub.Now() == NotifyAll(old(hub.Now()), id, current, notices)
    {
      hide Rooms.Views, IsRoster;
      notices := [];
      ghost var st := hub.Now();
      var todo := users.Keys;
      while todo != {}
        invariant hub.Now() == NotifyAll(st, id, current, notices)
        invariant todo <= users.Keys && Enumerates(Recipients(notices), users.Keys - todo)
        invariant forall i :: 0 <= i < |notices| ==> IsRoster(users, notices[i].to, notices[i].users)
      {
        var c :| c in todo;
        todo := todo - {c};
        var list := MakeRoster(users, c);
        hub.log := hub.log + [Sent(c, current, RoomInfo(id, list))];
        NotifyOneMore(st, id, current, notices, Notice(c, list));
        assert Recipients(notices + [Notice(c, list)]) == Recipients(notices) + [c];
        notices := notices + [Notice(c, list)];
      }
      assert users.Keys - todo == users.Keys;
    }
  }

  class Rooms {
    var connected: map<Id, string>
    var rooms: map<string, Room>
    const turnServer: InternalServer
    const authMode: AuthMode
    var counters: Counters
    var nextSid: Sid
    /** All writes to all queues, in order. */
    var log: seq<Sent>
    ghost var known: set<Id>
    ghost var history: map<Sid, Record>
    ghost var rejoins: nat

    constructor (turnServer: InternalServer, authMode: AuthMode)
      requires turnServer.lookup == map[]
      ensures Valid() && Now() == INITIAL && this.authMode == authMode && this.turnServer == turnServer
    {
      this.turnServer, this.authMode := turnServer, authMode;
      connected, rooms, counters, nextSid, log := map[], map[], Counters(0, 0, 0, 0, 0, 0), 0, [];
      known, history, rejoins := {}, map[], 0;
    }

    /** Rooms are stored under their own identifiers, so no two entries share a room. */
    ghost predicate Valid()
      reads this`rooms
    {
      forall r :: r in rooms ==> rooms[r].id == r
    }

    ghost predicate Has(room: Room)
      reads this`rooms
    {
      room.id in rooms && rooms[room.id] == room
    }

    ghost function Views(): RoomMap
      reads this`rooms, rooms.Values
    {
      map r | r in rooms :: rooms[r].View()
    }

    /** The state of the model this hub is in. */
    ghost function Now(): State
      reads this, turnServer, rooms.Values
    {
      State(connected, Views(), turnServer.Addrs(), counters, nextSid, known, history, rejoins, log)
    }

    /** Where one room object changed, one entry changed. */
    twostate lemma RoomChanged(room: Room)
      requires old(Valid()) && old(Has(room)) && rooms == old(rooms)
      requires forall r :: r in rooms && r != room.id ==> unchanged(rooms[r])
      ensures room.id in old(Views()) && old(Views())[room.id] == old(room.View())
      ensures Views() == old(Views())[room.id := room.View()]
    {}

    lemma ViewOf(room: Room)
      requires Valid() && Has(room)
      ensures room.id in Views() && Views()[room.id] == room.View() && Views().Keys == rooms.Keys
    {}

    lemma SameRooms()
      ensures Views().Keys == rooms.Keys
    {}

    /** A room in which this connection is a user. */
    ghost predicate IsIn(room: Room, id: Id)
      reads this`rooms, room
    {
      Has(room) && id in room.users && forall c :: c in room.users ==> room.users[c].id == c
    }

    /** The room a connection is in, or why there is none. The room does have the connection among its users. */
    method CurrentRoom(id: Id) returns (room: Room?, error: Option<Error>)
      requires Valid() && Consistent(Now(), {}, "")
      ensures error.Some? ==> HubModel.CurrentRoom(Now(), id) == Missing(error.value)
      ensures error.None? ==> room != null && HubModel.CurrentRoom(Now(), id) == Found(room.id) && IsIn(room, id)
    {
      hide Consistent;
      SameRooms();
      room, error := null, None;
      if id !in connected {
        error := Some(NotConnected);
      } else if connected[id] == "" {
        error := Some(NotInRoom);
      } else if connected[id] !in rooms {
        error := Some(NoSuchRoom(connected[id]));
      } else {
        room := rooms[connected[id]];
        ViewOf(room);
        WhereAmI(Now(), id);
        UsersKeyed(Now(), room.id);
      }
    }

    /** What a handler returns, as the model's outcome. */
    ghost function After(error: Option<Error>): Outcome
      reads this, turnServer, rooms.Values
    {
      if error.None? then Done(Now()) else Failed(Now(), error.value)
    }

    /** A session to every other user. */
    method ShareWithAll(room: Room, id: Id, ips: Ips) returns (ghost partners: seq<Id>)
      requires Valid() && Has(room) && id in room.users
      modifies this, turnServer, room`sessions
      ensures Valid() && Has(room) && rooms == old(rooms) && Enumerates(partners, room.users.Keys - {id})
      ensures forall p :: p in partners ==> p in room.users
      ensures room.id in old(Views()) && old(Views())[room.id].users == room.users
      ensures Now() == OpenAll(old(Now()), room.id, id, true, partners, ips)
    {
      hide Rooms.Views, Enumerates, OpenAll;
      ghost var st := Now();
      partners := [];
      ViewOf(room);
      EnumeratesNone<Id>();
      OpenNone(st, room.id, id, true, ips);
      var todo := room.users.Keys;
      assert room.users.Keys - todo - {id} == {};
      while todo != {}
        invariant Valid() && Has(room) && rooms == old(rooms) && todo <= room.users.Keys
        invariant Enumerates(partners, room.users.Keys - todo - {id}) && forall p :: p in partners ==> p in room.users
        invariant Now() == OpenAll(st, room.id, id, true, partners, ips)
      {
        var p :| p in todo;
        ghost var before := room.users.Keys - todo - {id};
        todo := todo - {p};
        if p == id {
          assert room.users.Keys - todo - {id} == before;
          continue;
        }
        assert room.users.Keys - todo - {id} == before + {p};
        EnumeratesMore(partners, before, p);
        room.NewSession(this, id, p, id, ips);
        OpenOneMore(st, room.id, id, true, partners, p, ips);
        partners := partners + [p];
      }
      assert room.users.Keys - todo - {id} == room.users.Keys - {id};
    }

    method ShareIn(room: Room, id: Id, ips: Option<Ips>)
      returns (error: Option<Error>, ghost partners: seq<Id>, ghost notices: seq<Notice>)
      requires Valid() && IsIn(room, id)
      modifies this, turnServer, room`sessions, room`users
      ensures rooms == old(rooms)
      ensures Valid() && room.id in old(Views()) && old(Views())[room.id] == old(room.View())
      ensures room.users == old(room.users)[id := old(room.users[id]).(streaming := true)]
      ensures error == if ips.None? then Some(LookupFailed) else None
      ensures ips.None? ==> Now() == Sharing(old(Now()), room.id, id)
      ensures ips.Some? ==>
        && Enumerates(partners, room.users.Keys - {id}) && GoodNotices(room.users, notices)
        && (forall p :: p in partners ==> p in room.users)
        && Now() ==
          NotifyAll(OpenAll(Sharing(old(Now()), room.id, id), room.id, id, true, partners, ips.value),
                    room.id, id, notices)
    {
      hide Rooms.Views, GoodNotices, Enumerates, OpenAll, NotifyAll;
      ViewOf(room);
      room.SetEntry(this, room.users[id].(streaming := true));
      error, partners, notices := None, [], [];
      if ips.None? {
        error := Some(LookupFailed);
        return;
      }
      partners := ShareWithAll(room, id, ips.value);
      notices := room.NotifyInfoChanged(this, id);
    }

    method StartShare(id: Id, ips: Option<Ips>) returns (error: Option<Error>, ghost ch: Choice)
      requires Valid() && Consistent(Now(), {}, "") && NoDangling(Now()) && id in connected
      modifies this, turnServer, rooms.Values
      ensures rooms == old(rooms)
      ensures Valid() && ch.ips == ips && GoodShare(old(Now()), id, ch)
      ensures After(error) == ExecuteShare(old(Now()), id, ch)
    {
      hide Rooms.Views, Consistent, GoodNotices, Enumerates, NoDangling, OpenAll, GoodShare, ExecuteShare, NotifyAll;
      hide HubModel.CurrentRoom;
      ghost var st := Now();
      ch := Choice(ips, "", [], [], [], LeaveChoice([], [], [], []));
      var room;
      room, error := CurrentRoom(id);
      if error.None? {
        ghost var partners, notices;
        error, partners, notices := ShareIn(room, id, ips);
        ch := ch.(partners := partners, notices := notices);
        if ips.Some? { ShareSucceeds(st, id, room.id, Sharing(st, room.id, id), ch); }
      }
      ShareFails(st, id, ch);
    }

    method Name(id: Id, userName: string) returns (error: Option<Error>, ghost ch: Choice)
      requires Valid() && Consistent(Now(), {}, "") && NoDangling(Now())
      modifies this, turnServer, rooms.Values
      ensures rooms == old(rooms)
      ensures Valid() && GoodName(old(Now()), id, userName, ch)
      ensures After(error) == ExecuteName(old(Now()), id, userName, ch)
    {
      hide Rooms.Views, Consistent, GoodNotices, NoDangling, GoodName, ExecuteName, NotifyAll, HubModel.CurrentRoom;
      ghost var st := Now();
      ch := Choice(None, "", [], [], [], LeaveChoice([], [], [], []));
      var room;
      room, error := CurrentRoom(id);
      if error.None? {
        ViewOf(room);
        room.SetEntry(this, room.users[id].(name := userName));
        ghost var mid := Now();
        ViewOf(room);
        ghost var notices := room.NotifyInfoChanged(this, id);
        ch := ch.(notices := notices);
        NameSucceeds(st, id, room.id, userName, mid, ch);
      }
      NameFails(st, id, userName, ch);
    }

    /** Every session this user hosts is ended, and its client told. */
    method EndHosted(room: Room, id: Id) returns (ghost ending: seq<Sid>)
      requires Valid() && Has(room)
      requires forall s :: s in room.sessions ==>
        room.sessions[s].client in room.users && room.sessions[s].client != room.sessions[s].host
      modifies this, turnServer, room`sessions
      ensures Valid() && Has(room) && rooms == old(rooms) && Enumerates(ending, HostedBy(old(room.sessions), id))
      ensures room.id in old(Views()) && old(Views())[room.id] == old(room.View())
      ensures (forall s :: s in ending ==> s in old(room.sessions))
      ensures (forall i, j :: 0 <= i < j < |ending| ==> ending[i] != ending[j])
      ensures Now() == EndAll(old(Now()), room.id, id, ending)
    {
      hide Rooms.Views, Enumerates, EndAll;
      ghost var st := Now();
      ghost var sessions := room.sessions;
      ending := [];
      ViewOf(room);
      EnumeratesNone<Sid>();
      EndNone(st, room.id, id);
      var todo := room.sessions.Keys;
      assert HostedBy(sessions, id) - todo == {};
      while todo != {}
        invariant Valid() && Has(room) && rooms == old(rooms) && room.users == old(room.users) && todo <= sessions.Keys
        invariant Enumerates(ending, HostedBy(sessions, id) - todo)
        invariant forall s :: s in ending ==> s in sessions
        invariant forall i, j :: 0 <= i < j < |ending| ==> ending[i] != ending[j]
        invariant Now() == EndAll(st, room.id, id, ending)
      {
        var sid :| sid in todo;
        ghost var before := HostedBy(sessions, id) - todo;
        EndedSessions(sessions, ending, before, sid);
        ViewOf(room);
        todo := todo - {sid};
        var session := room.sessions[sid];
        if session.host == id {
          ghost var prior := Now();
          if session.client in room.users {
            log := log + [Sent(session.client, id, EndShare(sid))];
          }
          assert Now() == Send(prior, session.client, id, EndShare(sid));
          room.CloseSession(this, sid);
          EndIsSendAndClose(prior, room.id, sid, id, session.client);
          EndOneMore(st, room.id, id, ending, sid);
          assert HostedBy(sessions, id) - todo == before + {sid};
          EnumeratesMore(ending, before, sid);
          ending := ending + [sid];
        } else {
          assert HostedBy(sessions, id) - todo == before;
        }
      }
      assert HostedBy(sessions, id) - todo == HostedBy(sessions, id);
    }

    method StopShare(id: Id) returns (error: Option<Error>, ghost ch: Choice)
      requires Valid() && Consistent(Now(), {}, "") && NoDangling(Now())
      modifies this, turnServer, rooms.Values
      ensures rooms == old(rooms)
      ensures Valid() && GoodStop(old(Now()), id, ch)
      ensures After(error) == ExecuteStop(old(Now()), id, ch)
    {
      hide Rooms.Views, Consistent, GoodNotices, NoDangling, GoodStop, ExecuteStop, NotifyAll, HubModel.CurrentRoom;
      hide EndAll, Enumerates;
      ghost var st := Now();
      ch := Choice(None, "", [], [], [], LeaveChoice([], [], [], []));
      var room;
      room, error := CurrentRoom(id);
      if error.None? {
        ViewOf(room);
        SessionEnds(st, room.id);
        room.SetEntry(this, room.users[id].(streaming := false));
        ghost var ending := EndHosted(room, id);
        ghost var notices := room.NotifyInfoChanged(this, id);
        ch := ch.(ending := ending, notices := notices);
        StopSucceeds(st, id, room.id, ch);
      }
      StopFails(st, id, ch);
    }

    /** The four relay messages, each from one end of a session to the other. */
    method RelayMessage(id: Id, kind: RelayKind, sid: Sid, value: string) returns (error: Option<Error>)
      requires Valid() && Consistent(Now(), {}, "")
      modifies this`log
      ensures After(error) == ExecuteRelay(old(Now()), id, kind, sid, value)
    {
      hide Rooms.Views, Consistent, HubModel.CurrentRoom;
      var room;
      room, error := CurrentRoom(id);
      if error.Some? { return; }
      ViewOf(room);
      if sid !in room.sessions { return; }
      var session := room.sessions[sid];
      SessionEnds(Now(), room.id);
      var from, to :=
        if FromHost(kind) then session.host else session.client,
        if FromHost(kind) then session.client else session.host;
      if from != id {
        error := Some(PermissionDenied(sid));
        return;
      }
      var user := room.users[to];
      log := log + [Sent(to, id, Relayed(kind, sid, value))];
    }

    method Connect(id: Id)
      requires Valid()
      modifies this`connected, this`known
      ensures Now() == ExecuteConnected(old(Now()), id)
    {
      connected := connected[id := ""];
      known := known + {id};
    }

    /** A session from every other user who streams. */
    method ReceiveFromAll(room: Room, id: Id, ips: Ips) returns (ghost partners: seq<Id>)
      requires Valid() && Has(room) && id in room.users
      modifies this, turnServer, room`sessions
      ensures rooms == old(rooms)
      ensures Valid() && Enumerates(partners, StreamersBut(room.users, id))
      ensures forall p :: p in partners ==> p in room.users
      ensures room.id in old(Views()) && old(Views())[room.id].users == room.users
      ensures Now() == OpenAll(old(Now()), room.id, id, false, partners, ips)
    {
      hide Rooms.Views, Enumerates, OpenAll;
      ghost var st := Now();
      partners := [];
      ViewOf(room);
      EnumeratesNone<Id>();
      OpenNone(st, room.id, id, false, ips);
      var todo := room.users.Keys;
      assert StreamersBut(room.users, id) - todo == {};
      while todo != {}
        invariant Valid() && Has(room) && rooms == old(rooms) && todo <= room.users.Keys
        invariant Enumerates(partners, StreamersBut(room.users, id) - todo)
        invariant forall p :: p in partners ==> p in room.users
        invariant Now() == OpenAll(st, room.id, id, false, partners, ips)
      {
        var p :| p in todo;
        ghost var before := StreamersBut(room.users, id) - todo;
        todo := todo - {p};
        if p == id || !room.users[p].streaming {
          assert StreamersBut(room.users, id) - todo == before;
          continue;
        }
        assert StreamersBut(room.users, id) - todo == before + {p};
        EnumeratesMore(partners, before, p);
        room.NewSession(this, p, id, id, ips);
        OpenOneMore(st, room.id, id, false, partners, p, ips);
        partners := partners + [p];
      }
      assert StreamersBut(room.users, id) - todo == StreamersBut(room.users, id);
    }

    /** The new member is put in, everyone is told, and only then is the member counted. */
    method Admit(room: Room, user: User) returns (ghost notices: seq<Notice>)
      requires Valid() && Has(room) && forall c :: c in room.users ==> room.users[c].id == c
      modifies this, room`users
      ensures Valid() && Has(room) && rooms == old(rooms) && room.users == old(room.users)[user.id := user]
      ensures room.id in old(Views()) && old(Views())[room.id] == old(room.View())
      ensures GoodNotices(room.users, notices)
      ensures Now() == NotifyAll(AddUser(old(Now()), room.id, user), room.id, user.id, notices)
    {
      hide Rooms.Views, GoodNotices, NotifyAll;
      ghost var st := Now();
      rejoins := if user.id in room.users then rejoins + 1 else rejoins;
      room.users := room.users[user.id := user];
      connected := connected[user.id := room.id];
      RoomChanged(room);
      ghost var mid := Now();
      notices := room.NotifyInfoChanged(this, user.id);
      counters := counters.(usersJoined := counters.usersJoined + 1);
      NotifyCounters(mid, room.id, user.id, notices, counters);
      assert WithCounters(mid, counters) == AddUser(st, room.id, user);
    }

    /** The login name of who is logged in, else the name asked for, and never an empty one unless made up so. */
    method NameFor(info: ClientInfo, userName: string, randomName: string) returns (name: string)
      ensures name == DisplayName(info, userName, randomName)
    {
      name := userName;
      if info.authenticated { name := info.authenticatedUser; }
      if name == "" { name := randomName; }
    }

    method Join(info: ClientInfo, rid: string, userName: string, ips: Option<Ips>, randomName: string)
      returns (error: Option<Error>, ghost ch: Choice)
      requires Valid() && Consistent(Now(), {}, "")
      modifies this, turnServer, rooms.Values
      ensures rooms == old(rooms)
      ensures Valid() && GoodJoin(old(Now()), info, rid, userName, ch)
      ensures After(error) == ExecuteJoin(old(Now()), info, rid, userName, ch)
    {
      hide Rooms.Views, Consistent, GoodNotices, GoodJoin, ExecuteJoin, NotifyAll, OpenAll, Enumerates, DisplayName;
      ghost var st := Now();
      ch := Choice(ips, randomName, [], [], [], LeaveChoice([], [], [], []));
      error := None;
      SameRooms();
      JoinFails(st, info, rid, userName, ch);
      if info.id in connected && connected[info.id] != "" {
        error := Some(AlreadyInRoom);
        return;
      }
      if rid !in rooms {
        error := Some(NoSuchRoom(rid));
        return;
      }
      var room := rooms[rid];
      var name := NameFor(info, userName, randomName);
      ViewOf(room);
      UsersKeyed(st, rid);
      ghost var notices := Admit(room, User(info.id, info.addr, name, false, false));
      ch := ch.(notices := notices);
      ghost var joined := Now();
      if ips.None? {
        error := Some(LookupFailed);
      } else {
        ghost var partners := ReceiveFromAll(room, info.id, ips.value);
        ch := ch.(partners := partners);
      }
      JoinSucceeds(st, info, rid, userName, AddUser(st, rid, NewMember(info, userName, randomName, false)), joined, ch);
    }

    twostate lemma RoomAdded(room: Room)
      requires room.id !in old(rooms) && rooms == old(rooms)[room.id := room]
      requires forall r :: r in old(rooms) ==> unchanged(old(rooms)[r])
      ensures Views() == old(Views())[room.id := room.View()]
    {}

    /** A new room is put in, its owner is told, and only then are room and owner counted. */
    method AddNewRoom(room: Room, owner: User) returns (ghost notices: seq<Notice>)
      requires Valid() && room.id !in rooms && room !in rooms.Values && room.users == map[owner.id := owner]
      requires room.sessions == map[]
      modifies this
      ensures rooms == old(rooms)[room.id := room]
      ensures Valid() && GoodNotices(map[owner.id := owner], notices)
      ensures Now() ==
        NotifyAll(AddRoom(old(Now()), RoomData(room.id, room.closeOnOwnerLeave, room.mode, map[], map[]), owner),
                  room.id, owner.id, notices)
    {
      hide Rooms.Views, GoodNotices, NotifyAll;
      ghost var st := Now();
      connected := connected[owner.id := room.id];
      rooms := rooms[room.id := room];
      RoomAdded(room);
      ghost var mid := Now();
      notices := room.NotifyInfoChanged(this, owner.id);
      counters := counters.(usersJoined := counters.usersJoined + 1);
      counters := counters.(roomsCreated := counters.roomsCreated + 1);
      NotifyCounters(mid, room.id, owner.id, notices, counters);
      assert WithCounters(mid, counters) ==
        AddRoom(st, RoomData(room.id, room.closeOnOwnerLeave, room.mode, map[], map[]), owner);
    }

    /** Whether creating a room takes a login that is missing. */
    method Authorize(info: ClientInfo, mode: Mode) returns (error: Option<Error>)
      ensures error == CreateRefused(authMode, info, mode)
      ensures error.None? <==> Admits(authMode, info, mode)
    {
      error := None;
      match authMode {
        case AuthNone =>
        case AuthAll => if !info.authenticated { error := Some(LoginNeeded); }
        case AuthTurn => if mode != Stun && mode != Local && !info.authenticated { error := Some(LoginNeeded); }
        case AuthOther(name) => error := Some(InvalidAuthMode(name));
      }
    }

    method CreateNew(info: ClientInfo, e: Event, ips: Option<Ips>, randomName: string)
      returns (error: Option<Error>, ghost ch: Choice)
      requires Valid() && e.Create? && RoomOf(Now(), info.id) == "" && e.id !in rooms
      modifies this
      ensures (error.Some? ==> rooms == old(rooms)) && fresh(rooms.Values - old(rooms.Values))
      ensures Valid() && GoodCreate(old(Now()), info, authMode, e, ch)
      ensures After(error) == ExecuteCreate(old(Now()), info, authMode, e, ch)
    {
      hide Rooms.Views, GoodNotices, GoodCreate, ExecuteCreate, NotifyAll, DisplayName, CreateRefused;
      hide Admits;
      ghost var st := Now();
      ch := Choice(ips, randomName, [], [], [], LeaveChoice([], [], [], []));
      SameRooms();
      CreateFails(st, info, authMode, e, ch);
      var name := NameFor(info, e.userName, randomName);
      error := Authorize(info, e.mode);
      if error.Some? { return; }
      var owner := User(info.id, info.addr, name, false, true);
      var room := new Room(e.id, e.closeOnOwnerLeave, e.mode, owner);
      ghost var notices := AddNewRoom(room, owner);
      ch := ch.(notices := notices);
      CreateSucceeds(st, info, authMode, e, ch);
    }

    method Create(info: ClientInfo, e: Event, ips: Option<Ips>, randomName: string)
      returns (error: Option<Error>, ghost ch: Choice)
      requires Valid() && Consistent(Now(), {}, "") && e.Create?
      modifies this, turnServer, rooms.Values
      ensures (error.Some? ==> rooms == old(rooms)) && fresh(rooms.Values - old(rooms.Values))
      ensures Valid() && GoodCreate(old(Now()), info, authMode, e, ch)
      ensures After(error) == ExecuteCreate(old(Now()), info, authMode, e, ch)
    {
      hide Rooms.Views, Consistent, GoodJoin, ExecuteJoin, GoodCreate, ExecuteCreate;
      ghost var st := Now();
      ch := Choice(ips, randomName, [], [], [], LeaveChoice([], [], [], []));
      error := None;
      SameRooms();
      CreateFails(st, info, authMode, e, ch);
      if info.id in connected && connected[info.id] != "" {
        error := Some(AlreadyInRoom);
        return;
      }
      if e.id in rooms {
        if e.joinIfExist {
          error, ch := Join(info, e.id, e.userName, ips, randomName);
          CreateJoins(st, info, authMode, e, ch);
          return;
        }
        error := Some(RoomExists(e.id));
        return;
      }
      error, ch := CreateNew(info, e, ips, randomName);
    }

    /** All that is left of a room goes. */
    method CloseRoom(rid: string) returns (ghost closing: seq<Sid>)
      requires Valid()
      modifies this, turnServer, rooms.Values
      ensures rooms.Values <= old(rooms.Values)
      ensures Valid()
      ensures rid !in old(rooms) ==> Now() == old(Now())
      ensures rid in old(rooms) ==>
        && rid in old(Views()) && Enumerates(closing, old(Views())[rid].sessions.Keys)
        && Now() == DropRoom(CloseAll(old(Now()), rid, closing), rid)
    {
      hide Rooms.Views, Enumerates, CloseAll;
      closing := [];
      SameRooms();
      if rid !in rooms { return; }
      var room := rooms[rid];
      ghost var st := Now();
      ViewOf(room);
      var n := |room.users|;
      counters := counters.(usersLeft := counters.usersLeft + n);
      CloseNone(st, rid);
      EnumeratesNone<Sid>();
      var todo := room.sessions.Keys;
      ghost var all := todo;
      assert all - todo == {};
      while todo != {}
        invariant Valid() && Has(room) && rooms == old(rooms) && room.users == old(room.users) && todo <= all
        invariant Enumerates(closing, all - todo)
        invariant Now() == Leavers(CloseAll(st, rid, closing), n)
      {
        var sid :| sid in todo;
        ghost var before, prior := all - todo, CloseAll(st, rid, closing);
        todo := todo - {sid};
        assert all - todo == before + {sid};
        EnumeratesMore(closing, before, sid);
        room.CloseSession(this, sid);
        CountThenClose(prior, rid, sid, n);
        CloseOneMore(st, rid, closing, sid);
        closing := closing + [sid];
      }
      assert all - todo == all;
      label L:
      ViewOf(room);
      assert |CloseAll(st, rid, closing).rooms[rid].users| == n;
      rooms := rooms - {rid};
      counters := counters.(roomsClosed := counters.roomsClosed + 1);
      RoomDropped@L(rid);
    }

    twostate lemma RoomDropped(rid: string)
      requires rooms == old(rooms) - {rid}
      requires forall r :: r in rooms ==> unchanged(rooms[r])
      ensures Views() == old(Views()) - {rid}
    {}

    /** Every session of a user who was already dropped is ended, and its other end told. */
    method EndSessionsOf(room: Room, id: Id, ghost closed: State) returns (ghost ending: seq<Sid>)
      requires Valid() && Has(room) && id !in room.users
      requires room.id in closed.rooms && closed.rooms[room.id].sessions == room.sessions
      requires Now() == RemoveUser(closed, room.id, id)
      requires forall s :: s in room.sessions ==> var session := room.sessions[s];
        && session.host != session.client
        && (session.host == id || session.host in room.users) && (session.client == id || session.client in room.users)
      modifies this, turnServer, room`sessions
      ensures Valid() && Has(room) && rooms == old(rooms)
      ensures Enumerates(ending, SessionsOf(old(room.sessions), id))
      ensures room.sessions == old(room.sessions) - SessionsOf(old(room.sessions), id)
      ensures (forall s :: s in ending ==> s in closed.rooms[room.id].sessions)
      ensures (forall i, j :: 0 <= i < j < |ending| ==> ending[i] != ending[j])
      ensures Now() == RemoveUser(EndAll(closed, room.id, id, ending), room.id, id)
    {
      hide Rooms.Views, Enumerates, EndAll, RemoveUser;
      ghost var sessions := room.sessions;
      ending := [];
      EnumeratesNone<Sid>();
      EndNone(closed, room.id, id);
      var todo := room.sessions.Keys;
      assert SessionsOf(sessions, id) - todo == {};
      while todo != {}
        invariant Valid() && Has(room) && rooms == old(rooms) && room.users == old(room.users) && todo <= sessions.Keys
        invariant Enumerates(ending, SessionsOf(sessions, id) - todo)
        invariant room.sessions == sessions - (SessionsOf(sessions, id) - todo)
        invariant forall s :: s in ending ==> s in sessions
        invariant forall i, j :: 0 <= i < j < |ending| ==> ending[i] != ending[j]
        invariant Now() == RemoveUser(EndAll(closed, room.id, id, ending), room.id, id)
      {
        var sid :| sid in todo;
        ghost var before := SessionsOf(sessions, id) - todo;
        EndedSessions(sessions, ending, before, sid);
        todo := todo - {sid};
        var session := room.sessions[sid];
        if session.client == id || session.host == id {
          EndOne(room, id, sid, closed, ending);
          assert SessionsOf(sessions, id) - todo == before + {sid};
          EnumeratesMore(ending, before, sid);
          ending := ending + [sid];
        } else {
          assert SessionsOf(sessions, id) - todo == before;
        }
      }
      assert SessionsOf(sessions, id) - todo == SessionsOf(sessions, id);
    }

    method EndOne(room: Room, id: Id, sid: Sid, ghost closed: State, ghost ending: seq<Sid>)
      requires Valid() && Has(room) && id !in room.users && sid in room.sessions && room.id in closed.rooms
      requires var session := room.sessions[sid];
        && session.host != session.client && (session.host == id || session.client == id)
        && (session.host == id || session.host in room.users) && (session.client == id || session.client in room.users)
        && sid in closed.rooms[room.id].sessions && closed.rooms[room.id].sessions[sid] == session && sid !in ending
      requires forall s :: s in ending ==> s in closed.rooms[room.id].sessions
      requires forall i, j :: 0 <= i < j < |ending| ==> ending[i] != ending[j]
      requires Now() == RemoveUser(EndAll(closed, room.id, id, ending), room.id, id)
      modifies this, turnServer, room`sessions
      ensures Valid() && rooms == old(rooms) && room.sessions == old(room.sessions) - {sid}
      ensures forall s :: s in ending + [sid] ==> s in closed.rooms[room.id].sessions
      ensures forall i, j :: 0 <= i < j < |ending + [sid]| ==> (ending + [sid])[i] != (ending + [sid])[j]
      ensures Now() == RemoveUser(EndAll(closed, room.id, id, ending + [sid]), room.id, id)
    {
      hide Rooms.Views, EndAll;
      ViewOf(room);
      ghost var start, prior := Now(), EndAll(closed, room.id, id, ending);
      var session := room.sessions[sid];
      if session.client == id {
        if session.host in room.users {
          log := log + [Sent(session.host, id, EndShare(sid))];
        }
        assert Now() == Send(start, Other(session, id), id, EndShare(sid));
        room.CloseSession(this, sid);
      }
      if session.host == id {
        if session.client in room.users {
          log := log + [Sent(session.client, id, EndShare(sid))];
        }
        assert Now() == Send(start, Other(session, id), id, EndShare(sid));
        room.CloseSession(this, sid);
      }
      EndIsSendAndClose(start, room.id, sid, id, Other(session, id));
      RemoveThenEnd(prior, room.id, id, sid);
      EndOneMore(closed, room.id, id, ending, sid);
      ViewOf(room);
    }

    /** Every remaining member's connection is closed. */
    method KickMembers(room: Room, id: Id) returns (ghost members: seq<Id>)
      requires Valid() && Has(room) && forall c :: c in room.users ==> room.users[c].id == c
      modifies this`connected, this`log
      ensures Enumerates(members, room.users.Keys) && Now() == KickAll(old(Now()), id, members)
    {
      hide Rooms.Views, Enumerates, KickAll;
      ghost var st := Now();
      members := [];
      EnumeratesNone<Id>();
      KickNobody(st, id);
      var todo := room.users.Keys;
      assert room.users.Keys - todo == {};
      while todo != {}
        invariant todo <= room.users.Keys && Enumerates(members, room.users.Keys - todo)
        invariant Now() == KickAll(st, id, members)
      {
        var c :| c in todo;
        ghost var before := room.users.Keys - todo;
        todo := todo - {c};
        assert room.users.Keys - todo == before + {c};
        EnumeratesMore(members, before, c);
        KickOneMore(st, id, members, c);
        var member := room.users[c];
        connected := connected - {member.id};
        log := log + [Sent(member.id, id, CloseWriter(NORMAL_CLOSURE, OwnerLeft))];
        members := members + [c];
      }
      assert room.users.Keys - todo == room.users.Keys;
    }

    /** The end of the room, or new rosters for who is left in it. */
    method Settle(room: Room, id: Id, ownerCloses: bool, ghost ending: seq<Sid>) returns (ghost lc: LeaveChoice)
      requires Valid() && Has(room) && forall c :: c in room.users ==> room.users[c].id == c
      modifies this, turnServer, rooms.Values
      ensures rooms.Values <= old(rooms.Values)
      ensures Valid() && room.id in old(Views()) && lc.ending == ending
      ensures GoodAftermath(old(room.users), old(room.sessions), ownerCloses, lc)
      ensures Now() == Aftermath(old(Now()), room.id, id, ownerCloses, lc)
    {
      hide Rooms.Views, Enumerates, KickAll, CloseAll, NotifyAll, DropRoom, GoodNotices;
      ViewOf(room);
      lc := LeaveChoice(ending, [], [], []);
      if ownerCloses {
        ghost var members := KickMembers(room, id);
        ViewOf(room);
        ghost var closing := CloseRoom(room.id);
        lc := lc.(members := members, closing := closing);
        return;
      }
      if |room.users| == 0 {
        ghost var closing := CloseRoom(room.id);
        lc := lc.(closing := closing);
        return;
      }
      ghost var notices := room.NotifyInfoChanged(this, id);
      lc := lc.(notices := notices);
    }

    method Disconnect(id: Id, code: int, reason: Reason) returns (ghost lc: LeaveChoice)
      requires Valid() && Consistent(Now(), {}, "")
      modifies this, turnServer, rooms.Values
      ensures rooms.Values <= old(rooms.Values)
      ensures Valid() && GoodLeave(old(Now()), id, lc) && Now() == Leave(old(Now()), id, code, reason, lc)
    {
      hide Rooms.Views, Consistent, Enumerates, GoodLeave, Leave, EndAll, RemoveUser, Aftermath, GoodAftermath;
      ghost var st := Now();
      lc := LeaveChoice([], [], [], []);
      SameRooms();
      var rid := if id in connected then connected[id] else "";
      connected := connected - {id};
      log := log + [Sent(id, id, CloseWriter(code, reason))];
      ghost var closed := Now();
      assert closed == CloseConnection(st, id, id, code, reason);
      if rid == "" {
        LeaveIsClose(st, id, code, reason, lc);
        return;
      }
      if rid !in rooms {
        LeaveIsClose(st, id, code, reason, lc);
        return;
      }
      var room := rooms[rid];
      ViewOf(room);
      if id !in room.users {
        LeaveIsClose(st, id, code, reason, lc);
        return;
      }
      UsersKeyed(st, rid);
      SessionEnds(st, rid);
      var user := room.users[id];
      DropUser(room, id);
      ghost var ending := EndSessionsOf(room, id, closed);
      lc := Settle(room, id, user.owner && room.closeOnOwnerLeave, ending);
      LeaveIs(st, id, code, reason, lc, rid);
    }

    method DropUser(room: Room, id: Id)
      requires Valid() && Has(room)
      modifies this`counters, room`users
      ensures Valid() && room.users == old(room.users) - {id}
      ensures room.id in old(Views()) && old(Views())[room.id] == old(room.View())
      ensures Now() == RemoveUser(old(Now()), room.id, id)
    {
      hide Rooms.Views;
      room.users := room.users - {id};
      counters := counters.(usersLeft := counters.usersLeft + 1);
      RoomChanged(room);
    }

    /** One event is executed. */
    method Execute(msg: Incoming, ips: Option<Ips>, randomName: string) returns (error: Option<Error>, ghost ch: Choice)
      requires Valid() && Consistent(Now(), {}, "") && NoDangling(Now())
      requires (msg.info.id in connected || msg.event.Connected?)
      modifies this, turnServer, rooms.Values
      ensures (error.Some? ==> rooms == old(rooms)) && fresh(rooms.Values - old(rooms.Values))
      ensures Valid() && GoodExecute(old(Now()), authMode, msg, ch)
      ensures After(error) == HubModel.Execute(old(Now()), authMode, msg, ch)
    {
      hide Rooms.Views, Consistent, NoDangling, GoodCreate, ExecuteCreate, GoodJoin, ExecuteJoin, GoodName, ExecuteName;
      hide GoodShare, ExecuteShare, GoodStop, ExecuteStop, GoodLeave, HubModel.Leave, ExecuteRelay, ExecuteConnected;
      ch := Choice(ips, randomName, [], [], [], LeaveChoice([], [], [], []));
      error := None;
      var id := msg.info.id;
      match msg.event {
        case Connected => Connect(id);
        case Create(_, _, _, _, _) => error, ch := Create(msg.info, msg.event, ips, randomName);
        case Join(rid, userName) => error, ch := Join(msg.info, rid, userName, ips, randomName);
        case Name(userName) => error, ch := Name(id, userName);
        case StartShare => error, ch := StartShare(id, ips);
        case StopShare => error, ch := StopShare(id);
        case Relay(kind, sid, value) => error := RelayMessage(id, kind, sid, value);
        case Disconnected(code, reason) =>
          ghost var lc := Disconnect(id, code, reason);
          ch := ch.(leave := lc);
      }
    }

    /** One message: ignored if its connection is not registered, and turned into a disconnect if it fails. */
    method Handle(msg: Incoming, ips: Option<Ips>, randomName: string) returns (ghost ch: Choice)
      requires Valid() && Inv(Now()) && NoDangling(Now()) && Allowed(Now(), msg)
      modifies this, turnServer, rooms.Values
      ensures fresh(rooms.Values - old(rooms.Values))
      ensures Valid() && Inv(Now()) && NoDangling(Now())
      ensures GoodChoice(old(Now()), authMode, msg, ch) && Now() == Step(old(Now()), authMode, msg, ch)
    {
      hide Rooms.Views, Consistent, NoDangling, GoodLeave, HubModel.Leave, RoomOk, HubModel.Execute, GoodExecute;
      hide AlmostInv;
      ghost var st := Now();
      ch := Choice(ips, randomName, [], [], [], LeaveChoice([], [], [], []));
      if msg.skipCheck || msg.info.id in connected {
        var error;
        error, ch := Execute(msg, ips, randomName);
        if error.Some? {
          FailedInOrder(st, authMode, msg, ch);
          ghost var lc := Disconnect(msg.info.id, NORMAL_CLOSURE, Because(error.value));
          LeaveApart(st, authMode, msg, ch, lc);
          ch := ch.(leave := lc);
        }
      }
      StepKeeps(st, authMode, msg, ch);
    }

    /** The main loop: whatever it is sent, in any order, it goes through a run of the model. */
    method Start(incoming: seq<Incoming>, ips: seq<Option<Ips>>, randomNames: seq<string>)
      returns (ghost rounds: seq<Round>, ghost states: seq<State>)
      requires Valid() && Now() == INITIAL && |ips| == |randomNames| == |incoming| && Expected({}, incoming)
      modifies this, turnServer, rooms.Values
      ensures Valid() && Run(authMode, rounds, states) && states[|rounds|] == Now()
      ensures |rounds| == |incoming| && forall i :: 0 <= i < |rounds| ==> rounds[i].msg == incoming[i]
    {
      hide Rooms.Views, Inv, NoDangling, GoodChoice, Step;
      rounds, states := [], [Now()];
      InitialInv();
      InvNoDangling(INITIAL) by { InvConsistent(INITIAL); }
      for k := 0 to |incoming|
        invariant Valid() && Inv(Now()) && NoDangling(Now()) && fresh(rooms.Values - old(rooms.Values))
        invariant Run(authMode, rounds, states) && states[|rounds|] == Now()
        invariant |rounds| == k && forall i :: 0 <= i < k ==> rounds[i].msg == incoming[i]
        invariant Expected(known, incoming[k..])
      {
        var msg := incoming[k];
        assert incoming[k..][0] == msg && incoming[k..][1..] == incoming[k + 1..];
        ghost var st := Now();
        ghost var ch := Handle(msg, ips[k], randomNames[k]);
        StepKnown(st, authMode, msg, ch);
        RunOneMore(authMode, rounds, states, Round(msg, ch), Now());
        rounds, states := rounds + [Round(msg, ch)], states + [Now()];
      }
    }
  }
}
