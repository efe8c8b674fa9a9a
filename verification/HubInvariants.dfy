/** What holds of the hub between any two changes, and what no change ever undoes. */
module HubInvariants {
  import opened HubModel

  type RoomMap = map<string, RoomData>

  // ---- Histories ---------------------------------------------------------------------------------------

  predicate Carries(msg: Message, sid: Sid) {
    match msg
    case RoomInfo(_, _) => false
    case HostSession(s, _, _) => s == sid
    case ClientSession(s, _, _) => s == sid
    case Relayed(_, s, _) => s == sid
    case EndShare(s) => s == sid
    case CloseWriter(_, _) => false
  }

  /** The writes that carry a session's identifier, in order. */
  function SessionLog(log: seq<Sent>, sid: Sid): seq<Sent> {
    if log == [] then []
    else
      var n := |log| - 1;
      if Carries(log[n].msg, sid) then SessionLog(log[..n], sid) + [log[n]] else SessionLog(log[..n], sid)
  }

  /** What a connection's queue has been sent. */
  function Queue(log: seq<Sent>, id: Id): seq<Message> {
    if log == [] then []
    else
      var n := |log| - 1;
      if log[n].to == id then Queue(log[..n], id) + [log[n].msg] else Queue(log[..n], id)
  }

  lemma LogAppend(log: seq<Sent>, e: Sent, sid: Sid)
    ensures SessionLog(log + [e], sid) ==
      if Carries(e.msg, sid) then SessionLog(log, sid) + [e] else SessionLog(log, sid)
  {
    assert (log + [e])[..|log|] == log;
  }

  lemma QueueAppend(log: seq<Sent>, e: Sent, id: Id)
    ensures Queue(log + [e], id) == if e.to == id then Queue(log, id) + [e.msg] else Queue(log, id)
  {
    assert (log + [e])[..|log|] == log;
  }

  // ---- Components of the invariant -------------------------------------------------------------------------

  /** No room is stored under the empty identifier, which is also the mark of a connection that is in no room. */
  predicate Named(rooms: RoomMap) {
    "" !in rooms
  }

  /** Who is in such a room counts as being in none, and is never taken out again. */
  function Nameless(rooms: RoomMap): set<Id> {
    if "" in rooms then rooms[""].users.Keys else {}
  }

  /** In a room without a name nobody can share, as its users count as being in no room. */
  predicate KeyedRoom(rid: string, room: RoomData) {
    && room.id == rid && (forall c :: c in room.users ==> room.users[c].id == c)
    && (rid == "" ==> room.sessions == map[] && forall c :: c in room.users ==> !room.users[c].streaming)
  }

  /** Rooms and users are stored under their own identifiers. */
  ghost predicate Keyed(rooms: RoomMap) {
    forall r :: r in rooms ==> KeyedRoom(r, rooms[r])
  }

  /** Connections in out are on their way out of the room where: still its users, no longer connected. */
  predicate RegisteredIn(rid: string, users: map<Id, User>, connected: map<Id, string>, known: set<Id>, out: set<Id>,
        where: string) {
    forall c :: c in users ==>
      && c in known
      && (rid != "" ==> if c in out then rid == where && c !in connected else c in connected && connected[c] == rid)
  }

  predicate IsUser(rooms: RoomMap, rid: string, id: Id) {
    rid in rooms && id in rooms[rid].users
  }

  /** A connection maps to a named room exactly when it is one of its users, so it is in at most one of them. */
  ghost predicate Members(rooms: RoomMap, connected: map<Id, string>, known: set<Id>, out: set<Id>, where: string) {
    && (forall r :: r in rooms ==> RegisteredIn(r, rooms[r].users, connected, known, out, where))
    && (forall c :: c in connected ==> c in known && (connected[c] != "" ==> IsUser(rooms, connected[c], c)))
  }

  /** The sessions of a room are between two of its users and remembered as sessions of this room. */
  predicate SessionsIn(rid: string, room: RoomData, history: map<Sid, Record>) {
    forall s :: s in room.sessions ==>
      && room.sessions[s].host in room.users && room.sessions[s].client in room.users
      && room.sessions[s].host != room.sessions[s].client
      && s in history && history[s] == Record(rid, room.sessions[s], room.mode, history[s].ips)
  }

  /** Session identifiers are never reused. */
  ghost predicate Endpoints(rooms: RoomMap, history: map<Sid, Record>, nextSid: Sid) {
    && (forall r :: r in rooms ==> SessionsIn(r, rooms[r], history))
    && (forall s: Sid :: s in history <==> s < nextSid)
  }

  predicate Live(rooms: RoomMap, history: map<Sid, Record>, sid: Sid) {
    sid in history && history[sid].room in rooms && sid in rooms[history[sid].room].sessions
  }

  /** Both ends of each session are in the table, with their addresses. */
  predicate ListedIn(room: RoomData, lookup: map<Username, Addr>) {
    forall s :: s in room.sessions && room.mode.Turn? ==>
      && Username(s, HostRole) in lookup && Username(s, ClientRole) in lookup
      && (room.sessions[s].host in room.users ==>
        lookup[Username(s, HostRole)] == room.users[room.sessions[s].host].addr)
      && (room.sessions[s].client in room.users ==>
        lookup[Username(s, ClientRole)] == room.users[room.sessions[s].client].addr)
  }

  /** The TURN table holds the ends of the live sessions of TURN rooms, and nothing else. */
  ghost predicate Credentials(rooms: RoomMap, history: map<Sid, Record>, lookup: map<Username, Addr>) {
    && (forall r :: r in rooms ==> ListedIn(rooms[r], lookup))
    && (forall u :: u in lookup ==> Live(rooms, history, u.sid) && rooms[history[u.sid].room].mode.Turn?)
  }

  ghost function LivePairs(rooms: RoomMap): set<(string, Sid)> {
    set r, s | r in rooms && s in rooms[r].sessions :: (r, s)
  }

  ghost function MemberPairs(rooms: RoomMap): set<(string, Id)> {
    set r, c | r in rooms && c in rooms[r].users :: (r, c)
  }

  /** Created minus closed, joined minus left: the counters account for what exists, but for who was counted twice. */
  ghost predicate Counted(rooms: RoomMap, counters: Counters, rejoins: nat) {
    && counters.roomsCreated - counters.roomsClosed == |rooms|
    && counters.sessionsCreated - counters.sessionsClosed == |LivePairs(rooms)|
    && counters.usersJoined - counters.usersLeft == |MemberPairs(rooms)| + rejoins
  }

  /** A relayed message goes from one end to the other, in the direction its kind says. */
  predicate IsRelay(e: Sent, sid: Sid, session: Session) {
    && e.msg.Relayed? && e.msg.sid == sid
    && match e.msg.kind
       case HostOffer => e.actor == session.host && e.to == session.client
       case HostICE => e.actor == session.host && e.to == session.client
       case ClientAnswer => e.actor == session.client && e.to == session.host
       case ClientICE => e.actor == session.client && e.to == session.host
  }

  /** The servers an end is told of: in a TURN room with its own user name, in a STUN room without, else none. */
  predicate Serves(ice: IceServers, record: Record, sid: Sid, role: Role) {
    && (record.mode == Turn ==> ice.TurnServers? && ice.ips == record.ips && ice.username == Username(sid, role))
    && (record.mode == Stun ==> ice.StunServers? && ice.ips == record.ips)
    && (record.mode != Turn && record.mode != Stun ==> ice.NoServers?)
  }

  /** First one HostSession to the host, then one ClientSession to the client, then relayed messages only. */
  ghost predicate OpenTrace(w: seq<Sent>, sid: Sid, record: Record) {
    var session := record.session;
    && |w| >= 2
    && w[0].to == session.host && w[0].msg.HostSession? && w[0].msg.sid == sid && w[0].msg.peer == session.client
    && w[1].to == session.client && w[1].msg.ClientSession? && w[1].msg.sid == sid && w[1].msg.peer == session.host
    && Serves(w[0].msg.ice, record, sid, HostRole) && Serves(w[1].msg.ice, record, sid, ClientRole)
    && forall i :: 2 <= i < |w| ==> IsRelay(w[i], sid, session)
  }

  /** One EndShare, told to the end that did not cause it. */
  predicate IsEnd(e: Sent, sid: Sid, session: Session) {
    e.msg == EndShare(sid) && e.actor in {session.host, session.client} && e.to == Other(session, e.actor)
  }

  /** The same with at most one EndShare, at the very end. */
  ghost predicate ClosedTrace(w: seq<Sent>, sid: Sid, record: Record) {
    || OpenTrace(w, sid, record)
    || (|w| > 0 && OpenTrace(w[..|w| - 1], sid, record) && IsEnd(w[|w| - 1], sid, record.session))
  }

  ghost predicate TraceOf(w: seq<Sent>, live: bool, history: map<Sid, Record>, sid: Sid) {
    if sid !in history then w == []
    else if live then OpenTrace(w, sid, history[sid]) else ClosedTrace(w, sid, history[sid])
  }

  ghost predicate Traces(rooms: RoomMap, history: map<Sid, Record>, log: seq<Sent>) {
    forall sid: Sid :: TraceOf(SessionLog(log, sid), Live(rooms, history, sid), history, sid)
  }

  predicate OfNameless(msg: Message) {
    msg.RoomInfo? && msg.room == ""
  }

  /**
   * Who is sent a close message is registered no more. Nothing comes after it but room infos of the room without a
   * name, to its users.
   */
  ghost predicate Quiet(nameless: set<Id>, connected: map<Id, string>, known: set<Id>, log: seq<Sent>) {
    && (forall i :: 0 <= i < |log| ==> log[i].to in known)
    && (forall i :: 0 <= i < |log| && log[i].msg.CloseWriter? ==> log[i].to !in connected)
    && (forall i, j :: 0 <= i < j < |log| && log[i].msg.CloseWriter? && log[j].to == log[i].to ==>
          OfNameless(log[j].msg) && log[j].to in nameless)
  }

  ghost predicate WasClosed(log: seq<Sent>, id: Id) {
    exists i :: 0 <= i < |log| && log[i].to == id && log[i].msg.CloseWriter?
  }

  /** Nobody is dropped without a close message. */
  ghost predicate Dismissed(connected: map<Id, string>, known: set<Id>, log: seq<Sent>) {
    forall c :: c in known && c !in connected ==> WasClosed(log, c)
  }

  ghost predicate Consistent(st: State, out: set<Id>, where: string) {
    && Keyed(st.rooms) && Members(st.rooms, st.connected, st.known, out, where)
    && Endpoints(st.rooms, st.history, st.nextSid)
    && Credentials(st.rooms, st.history, st.lookup) && Counted(st.rooms, st.counters, st.rejoins)
    && Traces(st.rooms, st.history, st.log)
    && Quiet(Nameless(st.rooms), st.connected, st.known, st.log) && Dismissed(st.connected, st.known, st.log)
  }

  // ---- Progress: what can never be undone --------------------------------------------------------------------

  /** Closed sessions stay closed and nothing more is sent for them. */
  ghost predicate SessionsFrozen(a: State, b: State) {
    && (forall s :: s in a.history ==> s in b.history && b.history[s] == a.history[s])
    && (forall s :: s in a.history && !Live(a.rooms, a.history, s) ==>
          !Live(b.rooms, b.history, s) && SessionLog(b.log, s) == SessionLog(a.log, s))
  }

  predicate Gone(st: State, c: Id) {
    c in st.known && c !in st.connected
  }

  /** A connection that is gone stays gone and, unless it is a user of the room without a name, is sent nothing more. */
  ghost predicate ConnectionsFrozen(a: State, b: State) {
    && a.known <= b.known && Nameless(a.rooms) <= Nameless(b.rooms)
    && (forall c :: Gone(a, c) ==> Gone(b, c))
    && (forall c :: Gone(a, c) && c !in Nameless(a.rooms) ==>
          c !in Nameless(b.rooms) && Queue(b.log, c) == Queue(a.log, c))
  }

  /** A room without a name never goes again. */
  ghost predicate Evolves(a: State, b: State) {
    && a.log <= b.log && SessionsFrozen(a, b) && ConnectionsFrozen(a, b)
    && (Named(b.rooms) ==> Named(a.rooms))
  }

  lemma EvolvesTransitive(a: State, b: State, c: State)
    requires Evolves(a, b) && Evolves(b, c)
    ensures Evolves(a, c)
  {
    hide Live, Named, Nameless;
    forall s | s in a.history && !Live(a.rooms, a.history, s)
      ensures !Live(c.rooms, c.history, s) && SessionLog(c.log, s) == SessionLog(a.log, s)
    {
      assert s in b.history && !Live(b.rooms, b.history, s);
    }
    forall k | Gone(a, k)
      ensures Gone(c, k)
      ensures k !in Nameless(a.rooms) ==> k !in Nameless(c.rooms) && Queue(c.log, k) == Queue(a.log, k)
    {
      assert Gone(b, k);
    }
  }

  // ---- Appending one write ------------------------------------------------------------------------------------

  /** To a registered connection anything but a close message may be sent. */
  lemma QuietSend(nameless: set<Id>, connected: map<Id, string>, known: set<Id>, log: seq<Sent>, e: Sent)
    requires Quiet(nameless, connected, known, log) && !e.msg.CloseWriter? && e.to in known
    requires e.to in connected || (OfNameless(e.msg) && e.to in nameless)
    ensures Quiet(nameless, connected, known, log + [e])
  {}

  lemma ClosedAppend(log: seq<Sent>, e: Sent, id: Id)
    ensures WasClosed(log, id) ==> WasClosed(log + [e], id)
    ensures e.to == id && e.msg.CloseWriter? ==> WasClosed(log + [e], id)
  {
    assert (log + [e])[|log|] == e;
    if WasClosed(log, id) {
      var i :| 0 <= i < |log| && log[i].to == id && log[i].msg.CloseWriter?;
      assert (log + [e])[i] == log[i];
    }
  }

  lemma DismissedSend(connected: map<Id, string>, known: set<Id>, log: seq<Sent>, e: Sent)
    requires Dismissed(connected, known, log)
    ensures Dismissed(connected, known, log + [e])
  {
    hide WasClosed;
    forall c | c in known && c !in connected ensures WasClosed(log + [e], c) { ClosedAppend(log, e, c); }
  }

  /** A message without a session leaves all traces alone. */
  lemma TracesSend(rooms: RoomMap, history: map<Sid, Record>, log: seq<Sent>, e: Sent)
    requires Traces(rooms, history, log) && (e.msg.RoomInfo? || e.msg.CloseWriter?)
    ensures Traces(rooms, history, log + [e])
    ensures forall s: Sid :: SessionLog(log + [e], s) == SessionLog(log, s)
  {
    hide TraceOf;
    forall s: Sid ensures SessionLog(log + [e], s) == SessionLog(log, s) { LogAppend(log, e, s); }
  }

  lemma QueuesSend(log: seq<Sent>, e: Sent)
    ensures forall c :: c != e.to ==> Queue(log + [e], c) == Queue(log, c)
  {
    forall c | c != e.to ensures Queue(log + [e], c) == Queue(log, c) { QueueAppend(log, e, c); }
  }

  lemma SendInfoKeeps(st: State, out: set<Id>, where: string, to: Id, actor: Id, msg: Message)
    requires Consistent(st, out, where) && msg.RoomInfo? && to in st.known
    requires to in st.connected || (OfNameless(msg) && to in Nameless(st.rooms))
    ensures Consistent(Send(st, to, actor, msg), out, where) && Evolves(st, Send(st, to, actor, msg))
  {
    var e := Sent(to, actor, msg);
    hide Keyed, Endpoints, Credentials, Counted, Quiet, Dismissed, Traces, Live, RegisteredIn, Nameless, Queue;
    QuietSend(Nameless(st.rooms), st.connected, st.known, st.log, e);
    DismissedSend(st.connected, st.known, st.log, e);
    TracesSend(st.rooms, st.history, st.log, e);
    QueuesSend(st.log, e);
  }
}
