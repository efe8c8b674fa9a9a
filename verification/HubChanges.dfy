/** Every single change of the hub keeps the invariant between changes and undoes nothing. */
module HubChanges {
  import opened HubModel
  import opened HubInvariants

  // ---- Closing a connection --------------------------------------------------------------------------

  lemma QuietClose(nameless: set<Id>, connected: map<Id, string>, known: set<Id>, log: seq<Sent>, id: Id, e: Sent)
    requires Quiet(nameless, connected, known, log) && id in connected && id in known && e.to == id
    ensures Quiet(nameless, connected - {id}, known, log + [e])
  {}

  lemma DismissedClose(connected: map<Id, string>, known: set<Id>, log: seq<Sent>, id: Id, e: Sent)
    requires Dismissed(connected, known, log) && e.to == id && e.msg.CloseWriter?
    ensures Dismissed(connected - {id}, known, log + [e])
  {
    hide WasClosed;
    forall c | c in known && c !in connected - {id} ensures WasClosed(log + [e], c) { ClosedAppend(log, e, c); }
  }

  /** The first to go may come from any room; later ones must be of the same room. */
  lemma MembersClose(rooms: RoomMap, connected: map<Id, string>, known: set<Id>, out: set<Id>, where: string, id: Id)
    requires Members(rooms, connected, known, out, where) && id in connected
    requires out == {} || connected[id] == where
    ensures Members(rooms, connected - {id}, known, out + {id}, if out == {} then connected[id] else where)
    ensures id in known
  {}

  lemma CloseConnectionKeeps(st: State, out: set<Id>, where: string, id: Id, actor: Id, code: int, reason: Reason)
    requires Consistent(st, out, where) && id in st.connected
    requires out == {} || st.connected[id] == where
    ensures var st' := CloseConnection(st, id, actor, code, reason);
      Consistent(st', out + {id}, if out == {} then st.connected[id] else where) && Evolves(st, st')
  {
    hide Keyed, Endpoints, Credentials, Counted, Members, Quiet, Dismissed, Traces, Live, Nameless, Queue;
    var e := Sent(id, actor, CloseWriter(code, reason));
    MembersClose(st.rooms, st.connected, st.known, out, where, id);
    QuietClose(Nameless(st.rooms), st.connected, st.known, st.log, id, e);
    DismissedClose(st.connected, st.known, st.log, id, e);
    TracesSend(st.rooms, st.history, st.log, e);
    QueuesSend(st.log, e);
  }

  // ---- Closing a session --------------------------------------------------------------------------------

  function Without(room: RoomData, sid: Sid): RoomData {
    room.(sessions := room.sessions - {sid})
  }

  lemma RoomsWithout(rooms: RoomMap, connected: map<Id, string>, known: set<Id>, out: set<Id>, where: string,
                     history: map<Sid, Record>, nextSid: Sid, rid: string, sid: Sid)
    requires Keyed(rooms) && Members(rooms, connected, known, out, where) && Endpoints(rooms, history, nextSid)
    requires rid in rooms && sid in rooms[rid].sessions
    ensures var after := rooms[rid := Without(rooms[rid], sid)];
      && Keyed(after) && Members(after, connected, known, out, where) && Endpoints(after, history, nextSid)
      && Live(rooms, history, sid) && history[sid].room == rid && history[sid].session == rooms[rid].sessions[sid]
      && forall s :: Live(after, history, s) <==> s != sid && Live(rooms, history, s)
  {
    hide Live, RegisteredIn;
    var after := rooms[rid := Without(rooms[rid], sid)];
    assert SessionsIn(rid, rooms[rid], history);
    LiveWithout(rooms, history, rid, sid, after);
    forall r | r in after ensures KeyedRoom(r, after[r]) && SessionsIn(r, after[r], history) {
      assert KeyedRoom(r, rooms[r]) && SessionsIn(r, rooms[r], history);
    }
    forall r | r in after ensures RegisteredIn(r, after[r].users, connected, known, out, where) {
      assert RegisteredIn(r, rooms[r].users, connected, known, out, where);
    }
  }

  lemma LiveWithout(rooms: RoomMap, history: map<Sid, Record>, rid: string, sid: Sid, after: RoomMap)
    requires rid in rooms && after == rooms[rid := Without(rooms[rid], sid)]
    requires sid in rooms[rid].sessions && sid in history && history[sid].room == rid
    ensures Live(rooms, history, sid)
    ensures forall s :: Live(after, history, s) <==> s != sid && Live(rooms, history, s)
  {}

  function Revoked(mode: Mode, lookup: map<Username, Addr>, sid: Sid): map<Username, Addr> {
    if mode.Turn? then lookup - {Username(sid, HostRole), Username(sid, ClientRole)} else lookup
  }

  lemma ListedWithout(room: RoomData, lookup: map<Username, Addr>, mode: Mode, sid: Sid)
    requires ListedIn(room, lookup) && sid !in room.sessions
    ensures ListedIn(room, Revoked(mode, lookup, sid))
  {}

  lemma TableWithout(rooms: RoomMap, history: map<Sid, Record>, lookup: map<Username, Addr>, rid: string, sid: Sid,
        after: RoomMap)
    requires Credentials(rooms, history, lookup) && rid in rooms && sid in rooms[rid].sessions
    requires after == rooms[rid := Without(rooms[rid], sid)]
    requires Live(rooms, history, sid) && history[sid].room == rid
    requires forall s :: Live(after, history, s) <==> s != sid && Live(rooms, history, s)
    ensures forall u :: u in Revoked(rooms[rid].mode, lookup, sid) ==>
      Live(after, history, u.sid) && after[history[u.sid].room].mode.Turn?
  {
    hide ListedIn;
    var lookup' := Revoked(rooms[rid].mode, lookup, sid);
    forall u | u in lookup' ensures Live(after, history, u.sid) && after[history[u.sid].room].mode.Turn? {
      assert u in lookup && u == Username(u.sid, u.role);
      assert u.role == HostRole || u.role == ClientRole;
    }
  }

  lemma CredentialsWithout(rooms: RoomMap, history: map<Sid, Record>, lookup: map<Username, Addr>, rid: string,
        sid: Sid, after: RoomMap)
    requires Credentials(rooms, history, lookup) && rid in rooms && sid in rooms[rid].sessions
    requires after == rooms[rid := Without(rooms[rid], sid)]
    requires forall r, s :: r in rooms && s in rooms[r].sessions ==> s in history && history[s].room == r
    requires forall s :: Live(after, history, s) <==> s != sid && Live(rooms, history, s)
    ensures Credentials(after, history, Revoked(rooms[rid].mode, lookup, sid))
  {
    var lookup' := Revoked(rooms[rid].mode, lookup, sid);
    forall r | r in after ensures ListedIn(after[r], lookup') {
      assert ListedIn(rooms[r], lookup);
      assert history[sid].room == rid;
      assert sid !in after[r].sessions;
      ListedWithout(after[r], lookup, rooms[rid].mode, sid);
    }
    TableWithout(rooms, history, lookup, rid, sid, after);
  }

  lemma CountedWithout(rooms: RoomMap, counters: Counters, rejoins: nat, rid: string, sid: Sid)
    requires Counted(rooms, counters, rejoins) && rid in rooms && sid in rooms[rid].sessions
    ensures Counted(rooms[rid := Without(rooms[rid], sid)],
                    counters.(sessionsClosed := counters.sessionsClosed + 1), rejoins)
  {
    var after := rooms[rid := Without(rooms[rid], sid)];
    assert after.Keys == rooms.Keys;
    assert |after.Keys| == |after| && |rooms.Keys| == |rooms|;
    assert MemberPairs(after) == MemberPairs(rooms);
    assert LivePairs(after) == LivePairs(rooms) - {(rid, sid)};
    assert (rid, sid) in LivePairs(rooms);
  }

  /** A trace ends here, with or without an EndShare; all others go on. */
  lemma TracesWithout(rooms: RoomMap, history: map<Sid, Record>, log: seq<Sent>, after: RoomMap, sid: Sid)
    requires Traces(rooms, history, log)
    requires forall s :: Live(after, history, s) <==> s != sid && Live(rooms, history, s)
    ensures Traces(after, history, log)
  {
    hide Live, OpenTrace;
    forall s: Sid ensures TraceOf(SessionLog(log, s), Live(after, history, s), history, s) {
      assert TraceOf(SessionLog(log, s), Live(rooms, history, s), history, s);
    }
  }

  lemma TracesEnd(rooms: RoomMap, history: map<Sid, Record>, log: seq<Sent>, after: RoomMap, sid: Sid, e: Sent)
    requires Traces(rooms, history, log) && Live(rooms, history, sid) && sid in history
    requires IsEnd(e, sid, history[sid].session)
    requires forall s :: Live(after, history, s) <==> s != sid && Live(rooms, history, s)
    ensures Traces(after, history, log + [e])
    ensures forall s :: s != sid ==> SessionLog(log + [e], s) == SessionLog(log, s)
  {
    hide Live, OpenTrace;
    forall s: Sid ensures
      && TraceOf(SessionLog(log + [e], s), Live(after, history, s), history, s)
      && (s != sid ==> SessionLog(log + [e], s) == SessionLog(log, s))
    {
      assert TraceOf(SessionLog(log, s), Live(rooms, history, s), history, s);
      LogAppend(log, e, s);
      var w := SessionLog(log, s);
      assert (w + [e])[..|w|] == w;
    }
  }

  /** Each live session is remembered with its room. */
  lemma RoomOfSession(rooms: RoomMap, history: map<Sid, Record>, nextSid: Sid)
    requires Endpoints(rooms, history, nextSid)
    ensures forall r, s :: r in rooms && s in rooms[r].sessions ==> s in history && history[s].room == r
  {}

  lemma KnownMembers(rooms: RoomMap, connected: map<Id, string>, known: set<Id>, out: set<Id>, where: string)
    requires Members(rooms, connected, known, out, where)
    ensures forall c :: c in connected ==> c in known
  {}

  lemma EndSessionEvolves(a: State, b: State, sid: Sid, e: Sent)
    requires b.log == a.log + [e] && b.history == a.history && b.known == a.known && b.connected == a.connected
    requires e.to in a.connected && Live(a.rooms, a.history, sid)
    requires forall s :: s != sid ==> SessionLog(b.log, s) == SessionLog(a.log, s)
    requires forall s :: Live(b.rooms, b.history, s) <==> s != sid && Live(a.rooms, a.history, s)
    requires b.rooms.Keys == a.rooms.Keys && Nameless(b.rooms) == Nameless(a.rooms)
    ensures Evolves(a, b)
  {
    hide Live, SessionLog, Nameless, Queue;
    QueuesSend(a.log, e);
  }

  /** What ending a session changes, field by field. */
  lemma EndSessionFields(st: State, rid: string, sid: Sid, actor: Id, after: RoomMap, e: Sent)
    requires rid in st.rooms && sid in st.rooms[rid].sessions
    requires after == st.rooms[rid := Without(st.rooms[rid], sid)]
    requires e == Sent(Other(st.rooms[rid].sessions[sid], actor), actor, EndShare(sid))
    ensures EndSession(st, rid, sid, actor) ==
      State(st.connected, after, Revoked(st.rooms[rid].mode, st.lookup, sid),
            st.counters.(sessionsClosed := st.counters.sessionsClosed + 1),
            st.nextSid, st.known, st.history, st.rejoins, st.log + [e])
  {}

  /** A room that changes keeps its name, and one that has no name its users. */
  lemma SameNames(rooms: RoomMap, rid: string, room: RoomData)
    requires rid in rooms && (rid == "" ==> rooms[rid].users.Keys <= room.users.Keys)
    ensures Named(rooms[rid := room]) == Named(rooms) && rooms[rid := room].Keys == rooms.Keys
    ensures var nameless := Nameless(rooms[rid := room]);
      nameless == if rid == "" then room.users.Keys else Nameless(rooms)
    ensures rid == "" ==> Nameless(rooms) == rooms[rid].users.Keys
  {}

  /** Closing a session keeps the parts of the invariant that say nothing of the writes. */
  lemma RoomsKept(st: State, out: set<Id>, where: string, rid: string, sid: Sid, after: RoomMap)
    requires Consistent(st, out, where) && rid in st.rooms && sid in st.rooms[rid].sessions
    requires after == st.rooms[rid := Without(st.rooms[rid], sid)]
    ensures Keyed(after) && Members(after, st.connected, st.known, out, where)
    ensures Endpoints(after, st.history, st.nextSid)
    ensures Credentials(after, st.history, Revoked(st.rooms[rid].mode, st.lookup, sid))
    ensures Counted(after, st.counters.(sessionsClosed := st.counters.sessionsClosed + 1), st.rejoins)
    ensures Live(st.rooms, st.history, sid) && sid in st.history
    ensures st.history[sid].room == rid && st.history[sid].session == st.rooms[rid].sessions[sid]
    ensures forall s :: Live(after, st.history, s) <==> s != sid && Live(st.rooms, st.history, s)
    ensures forall c :: c in st.connected ==> c in st.known
  {
    hide Keyed, Endpoints, Credentials, Counted, Members, Quiet, Dismissed, Traces, Live, Revoked, Named;
    RoomsWithout(st.rooms, st.connected, st.known, out, where, st.history, st.nextSid, rid, sid);
    KnownMembers(st.rooms, st.connected, st.known, out, where);
    RoomOfSession(st.rooms, st.history, st.nextSid);
    CredentialsWithout(st.rooms, st.history, st.lookup, rid, sid, after);
    CountedWithout(st.rooms, st.counters, st.rejoins, rid, sid);
  }

  lemma CloseSessionKeeps(st: State, out: set<Id>, where: string, rid: string, sid: Sid)
    requires Consistent(st, out, where) && rid in st.rooms && sid in st.rooms[rid].sessions
    ensures var st' := CloseSession(st, rid, sid); Consistent(st', out, where) && Evolves(st, st')
  {
    hide Keyed, Endpoints, Credentials, Counted, Members, Quiet, Dismissed, Traces, Live, Named, Nameless;
    var after := st.rooms[rid := Without(st.rooms[rid], sid)];
    assert CloseSession(st, rid, sid).rooms == after;
    RoomsKept(st, out, where, rid, sid, after);
    SameNames(st.rooms, rid, Without(st.rooms[rid], sid));
    TracesWithout(st.rooms, st.history, st.log, after, sid);
  }

  lemma EndSessionKeeps(st: State, out: set<Id>, where: string, rid: string, sid: Sid, actor: Id)
    requires Consistent(st, out, where) && rid in st.rooms && sid in st.rooms[rid].sessions
    requires var session := st.rooms[rid].sessions[sid];
      actor in {session.host, session.client} && Other(session, actor) in st.connected
    ensures var st' := EndSession(st, rid, sid, actor); Consistent(st', out, where) && Evolves(st, st')
  {
    var e := Sent(Other(st.rooms[rid].sessions[sid], actor), actor, EndShare(sid));
    hide Keyed, Endpoints, Credentials, Counted, Members, Quiet, Dismissed, Traces, Live, Evolves, Revoked, EndSession;
    hide Named, Nameless;
    var after := st.rooms[rid := Without(st.rooms[rid], sid)];
    RoomsKept(st, out, where, rid, sid, after);
    EndSessionFields(st, rid, sid, actor, after, e);
    SameNames(st.rooms, rid, Without(st.rooms[rid], sid));
    TracesEnd(st.rooms, st.history, st.log, after, sid, e);
    EndSessionEvolves(st, EndSession(st, rid, sid, actor), sid, e);
    QuietSend(Nameless(st.rooms), st.connected, st.known, st.log, e);
    DismissedSend(st.connected, st.known, st.log, e);
  }
}
