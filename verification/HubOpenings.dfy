/** New connections, new rooms and new sessions keep the invariant between changes and undo nothing. */
module HubOpenings {
  import opened HubModel
  import opened HubInvariants
  import opened HubChanges
  import opened HubAdditions

  // ---- A new connection ------------------------------------------------------------------------------------

  lemma MembersConnected(rooms: RoomMap, connected: map<Id, string>, known: set<Id>, id: Id)
    requires Members(rooms, connected, known, {}, "") && id !in known
    ensures Members(rooms, connected[id := ""], known + {id}, {}, "")
  {}

  lemma QuietConnected(nameless: set<Id>, connected: map<Id, string>, known: set<Id>, log: seq<Sent>, id: Id)
    requires Quiet(nameless, connected, known, log) && Dismissed(connected, known, log) && id !in known
    ensures Quiet(nameless, connected[id := ""], known + {id}, log)
    ensures Dismissed(connected[id := ""], known + {id}, log)
  {}

  lemma ConnectedKeeps(st: State, id: Id)
    requires Consistent(st, {}, "") && id !in st.known
    ensures var st' := ExecuteConnected(st, id); Consistent(st', {}, "") && Evolves(st, st')
  {
    hide Keyed, Endpoints, Credentials, Counted, Members, Quiet, Dismissed, Traces, Live, Nameless;
    MembersConnected(st.rooms, st.connected, st.known, id);
    QuietConnected(Nameless(st.rooms), st.connected, st.known, st.log, id);
  }

  // ---- A new room -----------------------------------------------------------------------------------------------

  function OnlyOwner(room: RoomData, owner: User): RoomData {
    room.(users := map[owner.id := owner], sessions := map[])
  }

  lemma RoomsWithRoom(rooms: RoomMap, history: map<Sid, Record>, nextSid: Sid, room: RoomData, owner: User,
        after: RoomMap)
    requires Keyed(rooms) && Endpoints(rooms, history, nextSid) && room.id !in rooms && !owner.streaming
    requires after == rooms[room.id := OnlyOwner(room, owner)]
    ensures Keyed(after) && Endpoints(after, history, nextSid) && SameLive(rooms, after, history)
    ensures forall s :: Live(rooms, history, s) ==> after[history[s].room].mode == rooms[history[s].room].mode
  {
    forall r | r in after ensures KeyedRoom(r, after[r]) && SessionsIn(r, after[r], history) {
      if r in rooms { assert KeyedRoom(r, rooms[r]) && SessionsIn(r, rooms[r], history); }
    }
  }

  lemma MembersWithRoom(rooms: RoomMap, connected: map<Id, string>, known: set<Id>, room: RoomData, owner: User,
        after: RoomMap)
    requires Keyed(rooms) && Members(rooms, connected, known, {}, "") && room.id !in rooms
    requires owner.id in connected && connected[owner.id] == "" && after == rooms[room.id := OnlyOwner(room, owner)]
    ensures Members(after, connected[owner.id := room.id], known, {}, "")
  {
    InNoRoom(rooms, connected, known, owner.id);
    forall r | r in after ensures RegisteredIn(r, after[r].users, connected[owner.id := room.id], known, {}, "") {
      if r in rooms { assert RegisteredIn(r, rooms[r].users, connected, known, {}, ""); }
    }
  }

  lemma PairsWithRoom(rooms: RoomMap, room: RoomData, owner: User, after: RoomMap)
    requires room.id !in rooms && after == rooms[room.id := OnlyOwner(room, owner)]
    ensures LivePairs(after) == LivePairs(rooms)
    ensures MemberPairs(after) == MemberPairs(rooms) + {(room.id, owner.id)}
    ensures (room.id, owner.id) !in MemberPairs(rooms)
  {}

  lemma CountedWithRoom(rooms: RoomMap, counters: Counters, rejoins: nat, room: RoomData, owner: User, after: RoomMap)
    requires Counted(rooms, counters, rejoins) && room.id !in rooms && after == rooms[room.id := OnlyOwner(room, owner)]
    ensures Counted(after,
      counters.(usersJoined := counters.usersJoined + 1, roomsCreated := counters.roomsCreated + 1), rejoins)
  {
    PairsWithRoom(rooms, room, owner, after);
    hide LivePairs, MemberPairs, OnlyOwner;
    RoomCount(rooms, room.id, OnlyOwner(room, owner));
  }

  lemma RoomCount(rooms: RoomMap, rid: string, room: RoomData)
    ensures |rooms[rid := room]| == if rid in rooms then |rooms| else |rooms| + 1
  {
    var after := rooms[rid := room];
    assert after.Keys == rooms.Keys + {rid};
    assert |after.Keys| == |after| && |rooms.Keys| == |rooms|;
  }

  lemma ListedWithRoom(rooms: RoomMap, history: map<Sid, Record>, lookup: map<Username, Addr>, room: RoomData,
        owner: User, after: RoomMap)
    requires Credentials(rooms, history, lookup) && after == rooms[room.id := OnlyOwner(room, owner)]
    ensures forall r :: r in after ==> ListedIn(after[r], lookup)
  {}

  lemma AddRoomKeeps(st: State, room: RoomData, owner: User)
    requires Consistent(st, {}, "") && room.id !in st.rooms && owner.id in st.connected && !owner.streaming
    requires st.connected[owner.id] == ""
    ensures var st' := AddRoom(st, room, owner); Consistent(st', {}, "") && Evolves(st, st')
  {
    hide Endpoints, Credentials, Counted, Traces, Live, ListedIn, Evolves, SameLive, Keyed, Members, Quiet, Dismissed;
    var after := st.rooms[room.id := OnlyOwner(room, owner)];
    var st' := AddRoom(st, room, owner);
    assert st'.rooms == after && st'.connected.Keys == st.connected.Keys;
    RoomsWithRoom(st.rooms, st.history, st.nextSid, room, owner, after);
    MembersWithRoom(st.rooms, st.connected, st.known, room, owner, after);
    CountedWithRoom(st.rooms, st.counters, st.rejoins, room, owner, after);
    ListedWithRoom(st.rooms, st.history, st.lookup, room, owner, after);
    TracesSame(st.rooms, after, st.history, st.log);
    CredentialsSame(st.rooms, after, st.history, st.lookup);
    assert Nameless(after) == if room.id == "" then {owner.id} else Nameless(st.rooms);
    QuietSame(Nameless(st.rooms), Nameless(after), st.connected, st'.connected, st.known, st.log);
    SilentEvolves(st, st');
  }

  // ---- A new session ----------------------------------------------------------------------------------------------

  function WithSession(room: RoomData, sid: Sid, session: Session): RoomData {
    room.(sessions := room.sessions[sid := session])
  }

  lemma RoomsWithSession(rooms: RoomMap, connected: map<Id, string>, known: set<Id>, history: map<Sid, Record>,
        nextSid: Sid, rid: string, session: Session, ips: Ips, after: RoomMap, history': map<Sid, Record>)
    requires Keyed(rooms) && Members(rooms, connected, known, {}, "") && Endpoints(rooms, history, nextSid)
    requires rid in rooms && rid != "" && session.host in rooms[rid].users && session.client in rooms[rid].users
    requires session.host != session.client
    requires after == rooms[rid := WithSession(rooms[rid], nextSid, session)]
    requires history' == history[nextSid := Record(rid, session, rooms[rid].mode, ips)]
    ensures Keyed(after) && Members(after, connected, known, {}, "") && Endpoints(after, history', nextSid + 1)
    ensures session.host in connected && session.client in connected && session.host in known && session.client in known
    ensures nextSid !in history && nextSid !in rooms[rid].sessions
    ensures forall s :: Live(after, history', s) <==> s == nextSid || Live(rooms, history, s)
  {
    hide Members, Live;
    assert nextSid !in history && SessionsIn(rid, rooms[rid], history);
    MembersWithSession(rooms, connected, known, rid, nextSid, session, after);
    LiveWithSession(rooms, history, rid, nextSid, session, ips, after, history');
    forall r | r in after ensures KeyedRoom(r, after[r]) && SessionsIn(r, after[r], history') {
      assert KeyedRoom(r, rooms[r]) && SessionsIn(r, rooms[r], history);
    }
  }

  lemma LiveWithSession(rooms: RoomMap, history: map<Sid, Record>, rid: string, sid: Sid, session: Session, ips: Ips,
        after: RoomMap, history': map<Sid, Record>)
    requires rid in rooms && sid !in history
    requires after == rooms[rid := WithSession(rooms[rid], sid, session)]
    requires history' == history[sid := Record(rid, session, rooms[rid].mode, ips)]
    ensures forall s :: Live(after, history', s) <==> s == sid || Live(rooms, history, s)
  {}

  lemma MembersWithSession(rooms: RoomMap, connected: map<Id, string>, known: set<Id>, rid: string, sid: Sid,
        session: Session, after: RoomMap)
    requires Members(rooms, connected, known, {}, "") && rid in rooms && rid != ""
    requires session.host in rooms[rid].users && session.client in rooms[rid].users
    requires after == rooms[rid := WithSession(rooms[rid], sid, session)]
    ensures Members(after, connected, known, {}, "")
    ensures session.host in connected && session.client in connected && session.host in known && session.client in known
  {
    assert RegisteredIn(rid, rooms[rid].users, connected, known, {}, "");
    forall r | r in after ensures RegisteredIn(r, after[r].users, connected, known, {}, "") {
      assert RegisteredIn(r, rooms[r].users, connected, known, {}, "");
    }
  }

  function Granted(room: RoomData, lookup: map<Username, Addr>, sid: Sid, session: Session): map<Username, Addr>
    requires session.host in room.users && session.client in room.users
  {
    if room.mode.Turn?
    then
      var host, client := room.users[session.host].addr, room.users[session.client].addr;
      lookup[Username(sid, HostRole) := host][Username(sid, ClientRole) := client]
    else lookup
  }

  lemma ListedWithSession(room: RoomData, lookup: map<Username, Addr>, of: RoomData, sid: Sid, session: Session)
    requires ListedIn(room, lookup) && session.host in of.users && session.client in of.users
    requires sid !in room.sessions
    ensures ListedIn(room, Granted(of, lookup, sid, session))
    ensures room == of ==> ListedIn(WithSession(room, sid, session), Granted(of, lookup, sid, session))
  {}

  lemma TableWithSession(rooms: RoomMap, history: map<Sid, Record>, lookup: map<Username, Addr>, rid: string, sid: Sid,
        session: Session, ips: Ips, after: RoomMap, history': map<Sid, Record>)
    requires Credentials(rooms, history, lookup) && rid in rooms && session.host in rooms[rid].users
    requires session.client in rooms[rid].users
    requires after == rooms[rid := WithSession(rooms[rid], sid, session)]
    requires history' == history[sid := Record(rid, session, rooms[rid].mode, ips)]
    requires sid !in history && forall s :: Live(after, history', s) <==> s == sid || Live(rooms, history, s)
    ensures forall u :: u in Granted(rooms[rid], lookup, sid, session) ==>
      Live(after, history', u.sid) && after[history'[u.sid].room].mode.Turn?
  {
    hide ListedIn;
    forall u | u in Granted(rooms[rid], lookup, sid, session)
      ensures Live(after, history', u.sid) && after[history'[u.sid].room].mode.Turn?
    {
      if u.sid != sid { assert u in lookup && Live(rooms, history, u.sid); }
    }
  }

  lemma CredentialsWithSession(rooms: RoomMap, history: map<Sid, Record>, lookup: map<Username, Addr>, rid: string,
        sid: Sid, session: Session, ips: Ips, after: RoomMap, history': map<Sid, Record>)
    requires Credentials(rooms, history, lookup) && rid in rooms && session.host in rooms[rid].users
    requires session.client in rooms[rid].users
    requires after == rooms[rid := WithSession(rooms[rid], sid, session)]
    requires history' == history[sid := Record(rid, session, rooms[rid].mode, ips)]
    requires sid !in history && forall r, s :: r in rooms && s in rooms[r].sessions ==> s in history
    requires forall s :: Live(after, history', s) <==> s == sid || Live(rooms, history, s)
    ensures Credentials(after, history', Granted(rooms[rid], lookup, sid, session))
  {
    hide Live, ListedIn;
    forall r | r in after ensures ListedIn(after[r], Granted(rooms[rid], lookup, sid, session)) {
      ListedWithSession(rooms[r], lookup, rooms[rid], sid, session);
    }
    TableWithSession(rooms, history, lookup, rid, sid, session, ips, after, history');
  }

  lemma CountedWithSession(rooms: RoomMap, counters: Counters, rejoins: nat, rid: string, sid: Sid, session: Session,
        after: RoomMap)
    requires Counted(rooms, counters, rejoins) && rid in rooms && sid !in rooms[rid].sessions
    requires after == rooms[rid := WithSession(rooms[rid], sid, session)]
    ensures Counted(after, counters.(sessionsCreated := counters.sessionsCreated + 1), rejoins)
  {
    hide LivePairs, MemberPairs;
    PairsWithSession(rooms, rid, sid, session, after);
    SameSize(rooms, rid, WithSession(rooms[rid], sid, session));
  }

  lemma PairsWithSession(rooms: RoomMap, rid: string, sid: Sid, session: Session, after: RoomMap)
    requires rid in rooms && sid !in rooms[rid].sessions && after == rooms[rid := WithSession(rooms[rid], sid, session)]
    ensures MemberPairs(after) == MemberPairs(rooms)
    ensures LivePairs(after) == LivePairs(rooms) + {(rid, sid)} && (rid, sid) !in LivePairs(rooms)
  {}

  predicate Announces(e: Sent, f: Sent, sid: Sid, record: Record) {
    var session := record.session;
    && e.to == session.host && e.msg.HostSession? && e.msg.sid == sid && e.msg.peer == session.client
    && f.to == session.client && f.msg.ClientSession? && f.msg.sid == sid && f.msg.peer == session.host
    && Serves(e.msg.ice, record, sid, HostRole) && Serves(f.msg.ice, record, sid, ClientRole)
  }

  /** A trace begins here; all others go on unchanged. */
  lemma TracesOpen(rooms: RoomMap, history: map<Sid, Record>, log: seq<Sent>, after: RoomMap, history': map<Sid,
        Record>,
        sid: Sid, record: Record, e: Sent, f: Sent)
    requires Traces(rooms, history, log) && sid !in history && history' == history[sid := record]
    requires forall s :: Live(after, history', s) <==> s == sid || Live(rooms, history, s)
    requires Announces(e, f, sid, record)
    ensures Traces(after, history', log + [e] + [f])
    ensures forall s :: s != sid ==> SessionLog(log + [e] + [f], s) == SessionLog(log, s)
  {
    hide Live, TraceOf, Announces;
    forall s: Sid ensures
      && TraceOf(SessionLog(log + [e] + [f], s), Live(after, history', s), history', s)
      && (s != sid ==> SessionLog(log + [e] + [f], s) == SessionLog(log, s))
    {
      assert TraceOf(SessionLog(log, s), Live(rooms, history, s), history, s);
      TraceOpens(log, history, sid, record, e, f, s, Live(rooms, history, s));
    }
  }

  lemma TraceOpens(log: seq<Sent>, history: map<Sid, Record>, sid: Sid, record: Record, e: Sent, f: Sent, s: Sid,
        live: bool)
    requires sid !in history && Announces(e, f, sid, record)
    requires TraceOf(SessionLog(log, s), live, history, s)
    ensures s == sid ==> TraceOf(SessionLog(log + [e] + [f], s), true, history[sid := record], s)
    ensures s != sid ==> SessionLog(log + [e] + [f], s) == SessionLog(log, s)
    ensures s != sid ==> TraceOf(SessionLog(log + [e] + [f], s), live, history[sid := record], s)
  {
    hide SessionLog;
    LogAppend(log, e, s);
    LogAppend(log + [e], f, s);
    if s == sid { assert SessionLog(log + [e] + [f], s) == [e, f]; }
  }

  lemma OpenFields(st: State, rid: string, host: Id, client: Id, actor: Id, ips: Ips, e: Sent, f: Sent)
    requires rid in st.rooms && host in st.rooms[rid].users && client in st.rooms[rid].users
    requires var room, sid := st.rooms[rid], st.nextSid;
      && e == Sent(host, actor, HostSession(sid, client, IceFor(room.mode, ips, Username(sid, HostRole))))
      && f == Sent(client, actor, ClientSession(sid, host, IceFor(room.mode, ips, Username(sid, ClientRole))))
    ensures var session := Session(host, client);
      OpenSession(st, rid, host, client, actor, ips) ==
      State(st.connected, st.rooms[rid := WithSession(st.rooms[rid], st.nextSid, session)],
            Granted(st.rooms[rid], st.lookup, st.nextSid, session),
            st.counters.(sessionsCreated := st.counters.sessionsCreated + 1), st.nextSid + 1, st.known,
            st.history[st.nextSid := Record(rid, session, st.rooms[rid].mode, ips)], st.rejoins, st.log + [e] + [f])
    ensures Announces(e, f, st.nextSid, Record(rid, Session(host, client), st.rooms[rid].mode, ips))
  {}

  lemma OpenEvolves(a: State, b: State, sid: Sid, record: Record, e: Sent, f: Sent)
    requires b.log == a.log + [e] + [f] && b.history == a.history[sid := record] && sid !in a.history
    requires b.known == a.known && b.connected == a.connected && e.to in a.connected && f.to in a.connected
    requires forall s :: Live(b.rooms, b.history, s) <==> s == sid || Live(a.rooms, a.history, s)
    requires forall s :: s != sid ==> SessionLog(b.log, s) == SessionLog(a.log, s)
    requires b.rooms.Keys == a.rooms.Keys && Nameless(b.rooms) == Nameless(a.rooms)
    ensures Evolves(a, b)
  {
    hide Live, SessionLog, Nameless, Queue;
    QueuesSend(a.log, e);
    QueuesSend(a.log + [e], f);
  }

  lemma OpenSessionKeeps(st: State, rid: string, host: Id, client: Id, actor: Id, ips: Ips)
    requires Consistent(st, {}, "") && rid in st.rooms && host in st.rooms[rid].users && client in st.rooms[rid].users
    requires host != client && rid != ""
    ensures var st' := OpenSession(st, rid, host, client, actor, ips); Consistent(st', {}, "") && Evolves(st, st')
  {
    hide Endpoints, Credentials, Counted, Traces, Live, Evolves, Keyed, Members, Quiet, Dismissed, Granted;
    hide OpenSession, Announces, Named, Nameless;
    var session, sid, room := Session(host, client), st.nextSid, st.rooms[rid];
    var e := Sent(host, actor, HostSession(sid, client, IceFor(room.mode, ips, Username(sid, HostRole))));
    var f := Sent(client, actor, ClientSession(sid, host, IceFor(room.mode, ips, Username(sid, ClientRole))));
    var record := Record(rid, session, room.mode, ips);
    var after, history' := st.rooms[rid := WithSession(room, sid, session)], st.history[sid := record];
    OpenFields(st, rid, host, client, actor, ips, e, f);
    RoomsWithSession(st.rooms, st.connected, st.known, st.history, sid, rid, session, ips, after, history');
    RoomOfSession(st.rooms, st.history, sid);
    CredentialsWithSession(st.rooms, st.history, st.lookup, rid, sid, session, ips, after, history');
    CountedWithSession(st.rooms, st.counters, st.rejoins, rid, sid, session, after);
    TracesOpen(st.rooms, st.history, st.log, after, history', sid, record, e, f);
    SameNames(st.rooms, rid, WithSession(room, sid, session));
    QuietSend(Nameless(st.rooms), st.connected, st.known, st.log, e);
    QuietSend(Nameless(st.rooms), st.connected, st.known, st.log + [e], f);
    DismissedSend(st.connected, st.known, st.log, e);
    DismissedSend(st.connected, st.known, st.log + [e], f);
    OpenEvolves(st, OpenSession(st, rid, host, client, actor, ips), sid, record, e, f);
  }
}
