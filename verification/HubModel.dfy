/** The signalling hub as a state and the steps of its main loop. */
module HubModel {
  import opened Collections

  /** Connection and session identifiers: values handed out once each. */
  type Id = nat
  type Sid = nat
  type Addr = nat

  datatype Mode = Local | Stun | Turn | OtherMode(name: string)
  datatype AuthMode = AuthNone | AuthAll | AuthTurn | AuthOther(name: string)

  /** What the IP provider returns when it does not fail. */
  datatype Ips = Ips(v4: Option<Addr>, v6: Option<Addr>)

  datatype Role = HostRole | ClientRole

  /** A TURN user name: the session identifier followed by the role. */
  datatype Username = Username(sid: Sid, role: Role)

  datatype IceServers = NoServers | StunServers(ips: Ips) | TurnServers(ips: Ips, username: Username)

  datatype Entry = Entry(id: Id, name: string, streaming: bool, you: bool, owner: bool)

  /** Why an event failed. */
  datatype Error =
    | NotConnected | NotInRoom | NoSuchRoom(id: string) | AlreadyInRoom | RoomExists(id: string)
    | LoginNeeded | InvalidAuthMode(name: string) | PermissionDenied(sid: Sid) | LookupFailed

  datatype Reason = Text(text: string) | Because(error: Error) | OwnerLeft

  datatype RelayKind = HostOffer | HostICE | ClientAnswer | ClientICE

  datatype Message =
    | RoomInfo(room: string, users: seq<Entry>)
    | HostSession(sid: Sid, peer: Id, ice: IceServers)
    | ClientSession(sid: Sid, peer: Id, ice: IceServers)
    | Relayed(kind: RelayKind, sid: Sid, value: string)
    | EndShare(sid: Sid)
    | CloseWriter(code: int, reason: Reason)

  /** One write to a connection's queue, with the connection whose event caused it. */
  datatype Sent = Sent(to: Id, actor: Id, msg: Message)

  datatype User = User(id: Id, addr: Addr, name: string, streaming: bool, owner: bool)

  datatype Session = Session(host: Id, client: Id)

  datatype RoomData =
    RoomData(id: string, closeOnOwnerLeave: bool, mode: Mode, users: map<Id, User>, sessions: map<Sid, Session>)

  datatype Counters =
    Counters(roomsCreated: nat, roomsClosed: nat, usersJoined: nat, usersLeft: nat,
             sessionsCreated: nat, sessionsClosed: nat)

  /** What is remembered of a session: its room, its ends, the room's mode, and the addresses looked up for it. */
  datatype Record = Record(room: string, session: Session, mode: Mode, ips: Ips)

  /**
   * known, history, rejoins and log only remember: every connection and session there ever was, how often somebody
   * joined a room they were already in, and every write in order.
   */
  datatype State = State(connected: map<Id, string>, rooms: map<string, RoomData>, lookup: map<Username, Addr>,
                         counters: Counters, nextSid: Sid, known: set<Id>, history: map<Sid, Record>, rejoins: nat,
                         log: seq<Sent>)

  datatype ClientInfo = ClientInfo(id: Id, authenticated: bool, authenticatedUser: string, addr: Addr)

  datatype Event =
    | Connected
    | Create(id: string, mode: Mode, closeOnOwnerLeave: bool, userName: string, joinIfExist: bool)
    | Join(id: string, userName: string)
    | Name(userName: string)
    | StartShare
    | StopShare
    | Relay(kind: RelayKind, sid: Sid, value: string)
    | Disconnected(code: int, reason: Reason)

  /** skipCheck is set on the one message that announces a new connection. */
  datatype Incoming = Incoming(info: ClientInfo, skipCheck: bool, event: Event)

  const NORMAL_CLOSURE := 1000

  // ---- What the loop does not decide itself ------------------------------------------------------

  /** One room info on its way to a member. */
  datatype Notice = Notice(to: Id, users: seq<Entry>)

  /** Iteration orders and sorted rosters of a disconnect. */
  datatype LeaveChoice = LeaveChoice(ending: seq<Sid>, members: seq<Id>, closing: seq<Sid>, notices: seq<Notice>)

  /** The IP lookup, the random name, iteration orders and sorted rosters of one step. */
  datatype Choice =
    Choice(ips: Option<Ips>, randomName: string, partners: seq<Id>, ending: seq<Sid>, notices: seq<Notice>,
           leave: LeaveChoice)

  /** A map's keys in some iteration order. */
  ghost predicate Enumerates<T(!new)>(order: seq<T>, keys: set<T>) {
    && (forall x :: x in order <==> x in keys)
    && (forall i, j :: 0 <= i < j < |order| ==> order[i] != order[j])
  }

  // ---- Rosters -------------------------------------------------------------------------------------

  /** String order, character by character. */
  predicate StringLess(a: string, b: string) {
    if b == "" then false
    else if a == "" then true
    else if a[0] != b[0] then a[0] < b[0]
    else StringLess(a[1..], b[1..])
  }

  /** Owners first, then those who stream, then by name. */
  predicate Before(a: Entry, b: Entry) {
    if a.owner != b.owner then a.owner
    else if a.streaming != b.streaming then a.streaming
    else StringLess(a.name, b.name)
  }

  function EntryFor(user: User, me: Id): Entry {
    Entry(user.id, user.name, user.streaming, user.id == me, user.owner)
  }

  /** A sorted listing of all users, as shown to one of them. */
  ghost predicate IsRoster(users: map<Id, User>, me: Id, list: seq<Entry>) {
    && (forall i :: 0 <= i < |list| ==> list[i].id in users && list[i] == EntryFor(users[list[i].id], me))
    && (forall c :: c in users ==> exists i :: 0 <= i < |list| && list[i].id == c)
    && (forall i, j :: 0 <= i < j < |list| ==> list[i].id != list[j].id)
    && (forall i, j :: 0 <= i < j < |list| ==> !Before(list[j], list[i]))
  }

  function Recipients(notices: seq<Notice>): seq<Id> {
    seq(|notices|, i requires 0 <= i < |notices| => notices[i].to)
  }

  /** One sorted roster for each user. */
  ghost predicate GoodNotices(users: map<Id, User>, notices: seq<Notice>) {
    && Enumerates(Recipients(notices), users.Keys)
    && forall i :: 0 <= i < |notices| ==> IsRoster(users, notices[i].to, notices[i].users)
  }

  // ---- Single changes --------------------------------------------------------------------------------

  function Send(st: State, to: Id, actor: Id, msg: Message): State {
    st.(log := st.log + [Sent(to, actor, msg)])
  }

  function IceFor(mode: Mode, ips: Ips, username: Username): IceServers {
    match mode
    case Local => NoServers
    case Stun => StunServers(ips)
    case Turn => TurnServers(ips, username)
    case OtherMode(_) => NoServers
  }

  function OpenSession(st: State, rid: string, host: Id, client: Id, actor: Id, ips: Ips): State
    requires rid in st.rooms && host in st.rooms[rid].users && client in st.rooms[rid].users
  {
    var room, sid, session := st.rooms[rid], st.nextSid, Session(host, client);
    var h, c := Username(sid, HostRole), Username(sid, ClientRole);
    State(st.connected,
          st.rooms[rid := room.(sessions := room.sessions[sid := session])],
          if room.mode.Turn? then st.lookup[h := room.users[host].addr][c := room.users[client].addr] else st.lookup,
          st.counters.(sessionsCreated := st.counters.sessionsCreated + 1),
          sid + 1, st.known, st.history[sid := Record(rid, session, room.mode, ips)], st.rejoins,
          st.log + [Sent(host, actor, HostSession(sid, client, IceFor(room.mode, ips, h)))]
                 + [Sent(client, actor, ClientSession(sid, host, IceFor(room.mode, ips, c)))])
  }

  function CloseSession(st: State, rid: string, sid: Sid): State
    requires rid in st.rooms
  {
    var room := st.rooms[rid];
    st.(rooms := st.rooms[rid := room.(sessions := room.sessions - {sid})],
        lookup := if room.mode.Turn?
          then st.lookup - {Username(sid, HostRole), Username(sid, ClientRole)}
          else st.lookup,
        counters := st.counters.(sessionsClosed := st.counters.sessionsClosed + 1))
  }

  function Other(session: Session, id: Id): Id {
    if session.client == id then session.host else session.client
  }

  /** The endpoint that did not cause it is told, and the session is gone. */
  function EndSession(st: State, rid: string, sid: Sid, actor: Id): State
    requires rid in st.rooms && sid in st.rooms[rid].sessions
  {
    CloseSession(Send(st, Other(st.rooms[rid].sessions[sid], actor), actor, EndShare(sid)), rid, sid)
  }

  function CloseConnection(st: State, id: Id, actor: Id, code: int, reason: Reason): State {
    Send(st.(connected := st.connected - {id}), id, actor, CloseWriter(code, reason))
  }

  function RemoveUser(st: State, rid: string, id: Id): State
    requires rid in st.rooms
  {
    var room := st.rooms[rid];
    st.(rooms := st.rooms[rid := room.(users := room.users - {id})],
        counters := st.counters.(usersLeft := st.counters.usersLeft + 1))
  }

  /** What is left of closeRoom once the sessions are closed. */
  function DropRoom(st: State, rid: string): State
    requires rid in st.rooms
  {
    st.(rooms := st.rooms - {rid},
        counters := st.counters.(usersLeft := st.counters.usersLeft + |st.rooms[rid].users|,
                                 roomsClosed := st.counters.roomsClosed + 1))
  }

  function AddUser(st: State, rid: string, user: User): State
    requires rid in st.rooms
  {
    var room := st.rooms[rid];
    st.(connected := st.connected[user.id := rid],
        rooms := st.rooms[rid := room.(users := room.users[user.id := user])],
        counters := st.counters.(usersJoined := st.counters.usersJoined + 1),
        rejoins := if user.id in room.users then st.rejoins + 1 else st.rejoins)
  }

  function AddRoom(st: State, room: RoomData, owner: User): State {
    st.(connected := st.connected[owner.id := room.id],
        rooms := st.rooms[room.id := room.(users := map[owner.id := owner], sessions := map[])],
        counters := st.counters.(usersJoined := st.counters.usersJoined + 1,
                                roomsCreated := st.counters.roomsCreated + 1))
  }

  function SetUser(st: State, rid: string, id: Id, user: User): State
    requires rid in st.rooms
  {
    var room := st.rooms[rid];
    st.(rooms := st.rooms[rid := room.(users := room.users[id := user])])
  }

  // ---- Loops -----------------------------------------------------------------------------------------

  function NotifyAll(st: State, rid: string, actor: Id, notices: seq<Notice>): (r: State)
    ensures r == st.(log := r.log)
  {
    if notices == [] then st
    else
      var n := |notices| - 1;
      Send(NotifyAll(st, rid, actor, notices[..n]), notices[n].to, actor, RoomInfo(rid, notices[n].users))
  }

  /** Sessions are opened one by one between host(partner) and client(partner). */
  function OpenAll(st: State, rid: string, actor: Id, hosting: bool, partners: seq<Id>, ips: Ips): (r: State)
    requires rid in st.rooms && actor in st.rooms[rid].users
    requires forall p :: p in partners ==> p in st.rooms[rid].users
    ensures rid in r.rooms && r.rooms[rid].users == st.rooms[rid].users && r.known == st.known
    ensures r.rejoins == st.rejoins && r.connected == st.connected
  {
    if partners == [] then st
    else
      var n := |partners| - 1;
      var p := partners[n];
      OpenSession(OpenAll(st, rid, actor, hosting, partners[..n], ips), rid,
                  if hosting then actor else p, if hosting then p else actor, actor, ips)
  }

  function EndAll(st: State, rid: string, actor: Id, sids: seq<Sid>): (r: State)
    requires rid in st.rooms && (forall s :: s in sids ==> s in st.rooms[rid].sessions)
    requires forall i, j :: 0 <= i < j < |sids| ==> sids[i] != sids[j]
    ensures rid in r.rooms && r.rooms[rid].sessions == st.rooms[rid].sessions - (set s | s in sids)
    ensures r.known == st.known && r.connected == st.connected && r.rejoins == st.rejoins && r.history == st.history
  {
    if sids == [] then st
    else
      var n := |sids| - 1;
      var before := EndAll(st, rid, actor, sids[..n]);
      assert sids == sids[..n] + [sids[n]];
      EndSession(before, rid, sids[n], actor)
  }

  function CloseAll(st: State, rid: string, sids: seq<Sid>): (r: State)
    requires rid in st.rooms
    ensures rid in r.rooms && r.rooms[rid].users == st.rooms[rid].users && r.known == st.known
    ensures r.connected == st.connected && r.rejoins == st.rejoins && r.history == st.history
  {
    if sids == [] then st
    else CloseSession(CloseAll(st, rid, sids[..|sids| - 1]), rid, sids[|sids| - 1])
  }

  function KickAll(st: State, actor: Id, members: seq<Id>): (r: State)
    ensures r.rooms == st.rooms && r.known == st.known && r.connected.Keys <= st.connected.Keys
    ensures r.rejoins == st.rejoins && r.history == st.history
  {
    if members == [] then st
    else CloseConnection(
      KickAll(st, actor, members[..|members| - 1]), members[|members| - 1], actor, NORMAL_CLOSURE, OwnerLeft)
  }

  // ---- Events ----------------------------------------------------------------------------------------

  datatype Outcome = Done(st: State) | Failed(st: State, error: Error)

  datatype Lookup = Found(rid: string) | Missing(error: Error)

  /** Room of a connection; "" stands for none. */
  function RoomOf(st: State, id: Id): string {
    if id in st.connected then st.connected[id] else ""
  }

  function CurrentRoom(st: State, id: Id): Lookup {
    if id !in st.connected then Missing(NotConnected)
    else if st.connected[id] == "" then Missing(NotInRoom)
    else if st.connected[id] !in st.rooms then Missing(NoSuchRoom(st.connected[id]))
    else Found(st.connected[id])
  }

  /** The look-ups that the handlers make without a check find what they look for. */
  ghost predicate NoDangling(st: State) {
    && (forall id :: id in st.connected && st.connected[id] != "" && st.connected[id] in st.rooms ==>
          id in st.rooms[st.connected[id]].users)
    && (forall r, s :: r in st.rooms && s in st.rooms[r].sessions ==>
          st.rooms[r].sessions[s].host in st.rooms[r].users && st.rooms[r].sessions[s].client in st.rooms[r].users)
  }

  function SessionsOf(sessions: map<Sid, Session>, id: Id): set<Sid> {
    set s | s in sessions && (sessions[s].host == id || sessions[s].client == id)
  }

  function HostedBy(sessions: map<Sid, Session>, id: Id): set<Sid> {
    set s | s in sessions && sessions[s].host == id
  }

  function StreamersBut(users: map<Id, User>, id: Id): set<Id> {
    set c | c in users && c != id && users[c].streaming
  }

  function DisplayName(info: ClientInfo, userName: string, randomName: string): string {
    var name := if info.authenticated then info.authenticatedUser else userName;
    if name == "" then randomName else name
  }

  ghost predicate GoodJoin(st: State, info: ClientInfo, rid: string, userName: string, ch: Choice) {
    RoomOf(st, info.id) == "" && rid in st.rooms ==>
      var users := st.rooms[rid].users[info.id :=
        User(info.id, info.addr, DisplayName(info, userName, ch.randomName), false, false)];
      && GoodNotices(users, ch.notices)
      && (ch.ips.Some? ==> Enumerates(ch.partners, StreamersBut(users, info.id)))
  }

  ghost function ExecuteJoin(st: State, info: ClientInfo, rid: string, userName: string, ch: Choice): (r: Outcome)
    requires GoodJoin(st, info, rid, userName, ch)
    ensures r.st.known == st.known
  {
    if RoomOf(st, info.id) != "" then Failed(st, AlreadyInRoom)
    else if rid !in st.rooms then Failed(st, NoSuchRoom(rid))
    else
      var user := User(info.id, info.addr, DisplayName(info, userName, ch.randomName), false, false);
      var joined := NotifyAll(AddUser(st, rid, user), rid, info.id, ch.notices);
      if ch.ips.None? then Failed(joined, LookupFailed)
      else Done(OpenAll(joined, rid, info.id, false, ch.partners, ch.ips.value))
  }

  /** The login check of room creation. */
  function CreateRefused(auth: AuthMode, info: ClientInfo, mode: Mode): Option<Error> {
    match auth
    case AuthNone => None
    case AuthAll => if info.authenticated then None else Some(LoginNeeded)
    case AuthTurn => if !mode.Stun? && !mode.Local? && !info.authenticated then Some(LoginNeeded) else None
    case AuthOther(name) => Some(InvalidAuthMode(name))
  }

  ghost predicate GoodCreate(st: State, info: ClientInfo, auth: AuthMode, e: Event, ch: Choice)
    requires e.Create?
  {
    && (RoomOf(st, info.id) == "" && e.id in st.rooms && e.joinIfExist ==> GoodJoin(st, info, e.id, e.userName, ch))
    && (RoomOf(st, info.id) == "" && e.id !in st.rooms && CreateRefused(auth, info, e.mode).None? ==>
          GoodNotices(
            map[info.id := User(info.id, info.addr, DisplayName(info, e.userName, ch.randomName), false, true)],
            ch.notices))
  }

  ghost function ExecuteCreate(st: State, info: ClientInfo, auth: AuthMode, e: Event, ch: Choice): (r: Outcome)
    requires e.Create? && GoodCreate(st, info, auth, e, ch)
    ensures r.st.known == st.known
  {
    if RoomOf(st, info.id) != "" then Failed(st, AlreadyInRoom)
    else if e.id in st.rooms then
      if e.joinIfExist then ExecuteJoin(st, info, e.id, e.userName, ch) else Failed(st, RoomExists(e.id))
    else
      var refused := CreateRefused(auth, info, e.mode);
      if refused.Some? then Failed(st, refused.value)
      else
        var owner := User(info.id, info.addr, DisplayName(info, e.userName, ch.randomName), false, true);
        var room := RoomData(e.id, e.closeOnOwnerLeave, e.mode, map[], map[]);
        Done(NotifyAll(AddRoom(st, room, owner), e.id, info.id, ch.notices))
  }

  ghost predicate GoodName(st: State, id: Id, userName: string, ch: Choice)
    requires NoDangling(st)
  {
    var current := CurrentRoom(st, id);
    current.Found? ==>
      var users := st.rooms[current.rid].users;
      GoodNotices(users[id := users[id].(name := userName)], ch.notices)
  }

  ghost function ExecuteName(st: State, id: Id, userName: string, ch: Choice): (r: Outcome)
    requires NoDangling(st) && GoodName(st, id, userName, ch)
    ensures r.st.known == st.known
  {
    var current := CurrentRoom(st, id);
    if current.Missing? then Failed(st, current.error)
    else
      var user := st.rooms[current.rid].users[id];
      Done(NotifyAll(SetUser(st, current.rid, id, user.(name := userName)), current.rid, id, ch.notices))
  }

  ghost predicate GoodShare(st: State, id: Id, ch: Choice)
    requires NoDangling(st)
  {
    var current := CurrentRoom(st, id);
    current.Found? && ch.ips.Some? ==>
      var users := st.rooms[current.rid].users;
      && Enumerates(ch.partners, users.Keys - {id})
      && GoodNotices(users[id := users[id].(streaming := true)], ch.notices)
  }

  ghost function ExecuteShare(st: State, id: Id, ch: Choice): (r: Outcome)
    requires NoDangling(st) && GoodShare(st, id, ch)
    ensures r.st.known == st.known
  {
    var current := CurrentRoom(st, id);
    if current.Missing? then Failed(st, current.error)
    else
      var user := st.rooms[current.rid].users[id];
      var sharing := SetUser(st, current.rid, id, user.(streaming := true));
      if ch.ips.None? then Failed(sharing, LookupFailed)
      else Done(NotifyAll(
        OpenAll(sharing, current.rid, id, true, ch.partners, ch.ips.value), current.rid, id, ch.notices))
  }

  ghost predicate GoodStop(st: State, id: Id, ch: Choice)
    requires NoDangling(st)
  {
    var current := CurrentRoom(st, id);
    current.Found? ==>
      var room := st.rooms[current.rid];
      && Enumerates(ch.ending, HostedBy(room.sessions, id))
      && GoodNotices(room.users[id := room.users[id].(streaming := false)], ch.notices)
  }

  ghost function ExecuteStop(st: State, id: Id, ch: Choice): (r: Outcome)
    requires NoDangling(st) && GoodStop(st, id, ch)
    ensures r.st.known == st.known
  {
    var current := CurrentRoom(st, id);
    if current.Missing? then Failed(st, current.error)
    else
      var user := st.rooms[current.rid].users[id];
      var stopped := SetUser(st, current.rid, id, user.(streaming := false));
      Done(NotifyAll(EndAll(stopped, current.rid, id, ch.ending), current.rid, id, ch.notices))
  }

  predicate FromHost(kind: RelayKind) {
    kind.HostOffer? || kind.HostICE?
  }

  function ExecuteRelay(st: State, id: Id, kind: RelayKind, sid: Sid, value: string): (r: Outcome)
    ensures r.st.known == st.known
  {
    var current := CurrentRoom(st, id);
    if current.Missing? then Failed(st, current.error)
    else if sid !in st.rooms[current.rid].sessions then Done(st)
    else
      var session := st.rooms[current.rid].sessions[sid];
      if (if FromHost(kind) then session.host else session.client) != id then Failed(st, PermissionDenied(sid))
      else Done(Send(st, if FromHost(kind) then session.client else session.host, id, Relayed(kind, sid, value)))
  }

  function ExecuteConnected(st: State, id: Id): State {
    st.(connected := st.connected[id := ""], known := st.known + {id})
  }

  // ---- Leaving -----------------------------------------------------------------------------------------

  predicate OwnerCloses(room: RoomData, id: Id)
    requires id in room.users
  {
    room.users[id].owner && room.closeOnOwnerLeave
  }

  ghost predicate GoodLeave(st: State, id: Id, lc: LeaveChoice) {
    var rid := RoomOf(st, id);
    rid != "" && rid in st.rooms && id in st.rooms[rid].users ==>
      var room := st.rooms[rid];
      var users, ended := room.users - {id}, SessionsOf(room.sessions, id);
      && Enumerates(lc.ending, ended)
      && (OwnerCloses(room, id) ==> Enumerates(lc.members, users.Keys))
      && (OwnerCloses(room, id) || users == map[] ==> Enumerates(lc.closing, room.sessions.Keys - ended))
      && (!OwnerCloses(room, id) && users != map[] ==> GoodNotices(users, lc.notices))
  }

  /**
   * A connection goes: its close message first, then the end of each of its sessions, then either the whole room
   * or a new roster. (The source drops the user before it ends the sessions; the result is the same.)
   */
  ghost function Leave(st: State, id: Id, code: int, reason: Reason, lc: LeaveChoice): (r: State)
    requires GoodLeave(st, id, lc)
    ensures r.known == st.known && id !in r.connected && r.rejoins == st.rejoins && r.history == st.history
  {
    var rid := RoomOf(st, id);
    var closed := CloseConnection(st, id, id, code, reason);
    if rid == "" || rid !in st.rooms || id !in st.rooms[rid].users then closed
    else
      var room := st.rooms[rid];
      var ended := EndAll(closed, rid, id, lc.ending);
      var left := RemoveUser(ended, rid, id);
      if OwnerCloses(room, id) then DropRoom(CloseAll(KickAll(left, id, lc.members), rid, lc.closing), rid)
      else if room.users - {id} == map[] then DropRoom(CloseAll(left, rid, lc.closing), rid)
      else NotifyAll(left, rid, id, lc.notices)
  }

  // ---- The main loop ---------------------------------------------------------------------------------------

  ghost predicate GoodExecute(st: State, auth: AuthMode, msg: Incoming, ch: Choice)
    requires NoDangling(st)
  {
    match msg.event
    case Connected => true
    case Create(_, _, _, _, _) => GoodCreate(st, msg.info, auth, msg.event, ch)
    case Join(rid, userName) => GoodJoin(st, msg.info, rid, userName, ch)
    case Name(userName) => GoodName(st, msg.info.id, userName, ch)
    case StartShare => GoodShare(st, msg.info.id, ch)
    case StopShare => GoodStop(st, msg.info.id, ch)
    case Relay(_, _, _) => true
    case Disconnected(_, _) => GoodLeave(st, msg.info.id, ch.leave)
  }

  ghost function Execute(st: State, auth: AuthMode, msg: Incoming, ch: Choice): Outcome
    requires NoDangling(st) && GoodExecute(st, auth, msg, ch)
  {
    var id := msg.info.id;
    match msg.event
    case Connected => Done(ExecuteConnected(st, id))
    case Create(_, _, _, _, _) => ExecuteCreate(st, msg.info, auth, msg.event, ch)
    case Join(rid, userName) => ExecuteJoin(st, msg.info, rid, userName, ch)
    case Name(userName) => ExecuteName(st, id, userName, ch)
    case StartShare => ExecuteShare(st, id, ch)
    case StopShare => ExecuteStop(st, id, ch)
    case Relay(kind, sid, value) => ExecuteRelay(st, id, kind, sid, value)
    case Disconnected(code, reason) => Done(Leave(st, id, code, reason, ch.leave))
  }

  /** Messages of connections that are not registered are dropped. */
  predicate Ignored(st: State, msg: Incoming) {
    !msg.skipCheck && msg.info.id !in st.connected
  }

  /** The choices a step needs exist as this says: orders of the right keys, sorted rosters. */
  ghost predicate GoodChoice(st: State, auth: AuthMode, msg: Incoming, ch: Choice)
    requires NoDangling(st)
  {
    Ignored(st, msg) ||
    (GoodExecute(st, auth, msg, ch) &&
      var outcome := Execute(st, auth, msg, ch);
      outcome.Failed? ==> GoodLeave(outcome.st, msg.info.id, ch.leave))
  }

  /** One turn of the loop: a failing event disconnects its connection in the same turn. */
  ghost function Step(st: State, auth: AuthMode, msg: Incoming, ch: Choice): State
    requires NoDangling(st) && GoodChoice(st, auth, msg, ch)
  {
    if Ignored(st, msg) then st
    else
      match Execute(st, auth, msg, ch)
      case Done(after) => after
      case Failed(after, error) => Leave(after, msg.info.id, NORMAL_CLOSURE, Because(error), ch.leave)
  }

  /** What the rest of the program guarantees: only the first message of a new connection skips the check. */
  predicate Allowed(st: State, msg: Incoming) {
    && (msg.skipCheck <==> msg.event.Connected?)
    && (msg.event.Connected? ==> msg.info.id !in st.known)
  }

  const INITIAL := State(map[], map[], map[], Counters(0, 0, 0, 0, 0, 0), 0, {}, map[], 0, [])
}
