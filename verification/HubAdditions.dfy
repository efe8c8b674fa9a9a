/** The changes that add or update: each keeps the invariant between changes and undoes nothing. */
module HubAdditions {
  import opened Collections
  import opened HubModel
  import opened HubInvariants
  import opened HubChanges

  // ---- Changes that leave the set of live sessions alone ---------------------------------------------------

  ghost predicate SameLive(rooms: RoomMap, after: RoomMap, history: map<Sid, Record>) {
    forall s :: Live(after, history, s) <==> Live(rooms, history, s)
  }

  lemma TracesSame(rooms: RoomMap, after: RoomMap, history: map<Sid, Record>, log: seq<Sent>)
    requires Traces(rooms, history, log) && SameLive(rooms, after, history)
    ensures Traces(after, history, log)
  {
    hide Live, TraceOf;
    forall s: Sid ensures TraceOf(SessionLog(log, s), Live(after, history, s), history, s) {
      assert TraceOf(SessionLog(log, s), Live(rooms, history, s), history, s);
      assert Live(after, history, s) <==> Live(rooms, history, s);
    }
  }

  /** The table is judged by the live sessions, their modes and their users' addresses only. */
  lemma CredentialsSame(rooms: RoomMap, after: RoomMap, history: map<Sid, Record>, lookup: map<Username, Addr>)
    requires Credentials(rooms, history, lookup) && SameLive(rooms, after, history)
    requires forall r :: r in after ==> ListedIn(after[r], lookup)
    requires forall s :: Live(rooms, history, s) ==> after[history[s].room].mode == rooms[history[s].room].mode
    ensures Credentials(after, history, lookup)
  {
    hide ListedIn;
    forall u | u in lookup ensures Live(after, history, u.sid) && after[history[u.sid].room].mode.Turn? {
      assert Live(rooms, history, u.sid);
      assert Live(after, history, u.sid);
    }
  }

  /** Without a write, and with the same live sessions, nothing is undone. */
  lemma SilentEvolves(a: State, b: State)
    requires b.log == a.log && b.history == a.history && b.known == a.known && b.connected.Keys == a.connected.Keys
    requires SameLive(a.rooms, b.rooms, a.history) && (Named(b.rooms) ==> Named(a.rooms))
    requires Nameless(a.rooms) <= Nameless(b.rooms) <= Nameless(a.rooms) + a.connected.Keys
    ensures Evolves(a, b)
  {
    hide Live, Nameless;
  }

  // ---- A relayed message ------------------------------------------------------------------------------------

  lemma TracesRelay(rooms: RoomMap, history: map<Sid, Record>, log: seq<Sent>, sid: Sid, e: Sent)
    requires Traces(rooms, history, log) && Live(rooms, history, sid) && sid in history
    requires IsRelay(e, sid, history[sid].session)
    ensures Traces(rooms, history, log + [e])
    ensures forall s :: s != sid ==> SessionLog(log + [e], s) == SessionLog(log, s)
  {
    hide Live;
    forall s: Sid ensures
      && TraceOf(SessionLog(log + [e], s), Live(rooms, history, s), history, s)
      && (s != sid ==> SessionLog(log + [e], s) == SessionLog(log, s))
    {
      assert TraceOf(SessionLog(log, s), Live(rooms, history, s), history, s);
      LogAppend(log, e, s);
    }
  }

  lemma RelayEvolves(a: State, sid: Sid, e: Sent)
    requires Live(a.rooms, a.history, sid) && e.to in a.connected
    requires forall s :: s != sid ==> SessionLog(a.log + [e], s) == SessionLog(a.log, s)
    ensures Evolves(a, a.(log := a.log + [e]))
  {
    hide Live, SessionLog, Nameless, Queue;
    QueuesSend(a.log, e);
  }

  lemma RelayKeeps(st: State, rid: string, sid: Sid, to: Id, actor: Id, msg: Message)
    requires Consistent(st, {}, "") && rid in st.rooms && sid in st.rooms[rid].sessions
    requires IsRelay(Sent(to, actor, msg), sid, st.rooms[rid].sessions[sid])
    ensures var st' := Send(st, to, actor, msg); Consistent(st', {}, "") && Evolves(st, st')
  {
    hide Keyed, Endpoints, Credentials, Counted, Quiet, Dismissed, Traces, Live, Members, Evolves;
    var e := Sent(to, actor, msg);
    SessionFacts(st, rid, sid);
    KnownMembers(st.rooms, st.connected, st.known, {}, "");
    QuietSend(Nameless(st.rooms), st.connected, st.known, st.log, e);
    DismissedSend(st.connected, st.known, st.log, e);
    TracesRelay(st.rooms, st.history, st.log, sid, e);
    RelayEvolves(st, sid, e);
  }

  /** A stored session is in a named room, live, remembered, and both its ends are registered. */
  lemma SessionFacts(st: State, rid: string, sid: Sid)
    requires Consistent(st, {}, "") && rid in st.rooms && sid in st.rooms[rid].sessions
    ensures Live(st.rooms, st.history, sid) && sid in st.history
    ensures st.history[sid].room == rid && st.history[sid].session == st.rooms[rid].sessions[sid] && rid != ""
    ensures st.history[sid].mode == st.rooms[rid].mode
    ensures var s := st.rooms[rid].sessions[sid];
      && s.host in st.rooms[rid].users && s.client in st.rooms[rid].users && s.host != s.client
      && s.host in st.connected && s.client in st.connected
  {
    hide Traces, Counted, Credentials, Quiet;
    assert SessionsIn(rid, st.rooms[rid], st.history) && KeyedRoom(rid, st.rooms[rid]);
    assert RegisteredIn(rid, st.rooms[rid].users, st.connected, st.known, {}, "");
  }

  // ---- Users go and rooms are dropped -----------------------------------------------------------------------

  function WithoutUser(room: RoomData, id: Id): RoomData {
    room.(users := room.users - {id})
  }

  lemma MembersWithoutUser(rooms: RoomMap, connected: map<Id, string>, known: set<Id>, out: set<Id>, where: string,
                           rid: string, id: Id, after: RoomMap)
    requires Members(rooms, connected, known, out, where)
    requires rid in rooms && rid != "" && id in rooms[rid].users && id in out
    requires after == rooms[rid := WithoutUser(rooms[rid], id)]
    ensures Members(after, connected, known, out - {id}, where)
  {
    assert RegisteredIn(rid, rooms[rid].users, connected, known, out, where);
    forall r | r in after ensures RegisteredIn(r, after[r].users, connected, known, out - {id}, where) {
      assert RegisteredIn(r, rooms[r].users, connected, known, out, where);
    }
  }

  lemma EndpointsWithoutUser(rooms: RoomMap, history: map<Sid, Record>, nextSid: Sid, rid: string, id: Id,
        after: RoomMap)
    requires Endpoints(rooms, history, nextSid)
    requires rid in rooms && SessionsOf(rooms[rid].sessions, id) == {}
    requires after == rooms[rid := WithoutUser(rooms[rid], id)]
    ensures Endpoints(after, history, nextSid)
  {
    assert SessionsIn(rid, after[rid], history) by {
      assert SessionsIn(rid, rooms[rid], history);
      forall s | s in rooms[rid].sessions
        ensures rooms[rid].sessions[s].host != id && rooms[rid].sessions[s].client != id
      {
        assert s !in SessionsOf(rooms[rid].sessions, id);
      }
    }
    forall r | r in after ensures SessionsIn(r, after[r], history) { assert SessionsIn(r, rooms[r], history); }
  }

  lemma RoomsWithoutUser(rooms: RoomMap, history: map<Sid, Record>, lookup: map<Username, Addr>, rid: string, id: Id,
        after: RoomMap)
    requires Keyed(rooms) && Credentials(rooms, history, lookup) && rid in rooms
    requires after == rooms[rid := WithoutUser(rooms[rid], id)]
    ensures Keyed(after) && SameLive(rooms, after, history)
    ensures forall r :: r in after ==> ListedIn(after[r], lookup)
    ensures forall s :: Live(rooms, history, s) ==> after[history[s].room].mode == rooms[history[s].room].mode
  {
    forall r | r in after ensures KeyedRoom(r, after[r]) && ListedIn(after[r], lookup) {
      assert KeyedRoom(r, rooms[r]) && ListedIn(rooms[r], lookup);
    }
  }

  lemma CountedWithoutUser(rooms: RoomMap, counters: Counters, rejoins: nat, rid: string, id: Id, after: RoomMap)
    requires Counted(rooms, counters, rejoins) && rid in rooms && id in rooms[rid].users
    requires after == rooms[rid := WithoutUser(rooms[rid], id)]
    ensures Counted(after, counters.(usersLeft := counters.usersLeft + 1), rejoins)
  {
    assert after.Keys == rooms.Keys;
    assert |after.Keys| == |after| && |rooms.Keys| == |rooms|;
    assert LivePairs(after) == LivePairs(rooms);
    assert MemberPairs(after) == MemberPairs(rooms) - {(rid, id)};
    assert (rid, id) in MemberPairs(rooms);
  }

  /** Who goes must have no session left. */
  lemma RemoveUserKeeps(st: State, out: set<Id>, where: string, rid: string, id: Id)
    requires Consistent(st, out, where) && rid in st.rooms && rid != "" && id in st.rooms[rid].users && id in out
    requires SessionsOf(st.rooms[rid].sessions, id) == {}
    ensures var st' := RemoveUser(st, rid, id); Consistent(st', out - {id}, where) && Evolves(st, st')
  {
    hide Keyed, Endpoints, Credentials, Counted, Members, Quiet, Dismissed, Traces, Live, ListedIn, Evolves, SameLive;
    hide Nameless;
    var after := st.rooms[rid := WithoutUser(st.rooms[rid], id)];
    assert RemoveUser(st, rid, id).rooms == after;
    SameNames(st.rooms, rid, WithoutUser(st.rooms[rid], id));
    RoomsWithoutUser(st.rooms, st.history, st.lookup, rid, id, after);
    MembersWithoutUser(st.rooms, st.connected, st.known, out, where, rid, id, after);
    EndpointsWithoutUser(st.rooms, st.history, st.nextSid, rid, id, after);
    CountedWithoutUser(st.rooms, st.counters, st.rejoins, rid, id, after);
    TracesSame(st.rooms, after, st.history, st.log);
    CredentialsSame(st.rooms, after, st.history, st.lookup);
    SilentEvolves(st, RemoveUser(st, rid, id));
  }

  ghost function RoomPairs(rid: string, users: set<Id>): set<(string, Id)> {
    set c | c in users :: (rid, c)
  }

  lemma PairsOfRoom(rid: string, users: set<Id>)
    ensures |RoomPairs(rid, users)| == |users|
  {
    if users == {} {
      assert RoomPairs(rid, users) == {};
    } else {
      var c :| c in users;
      PairsOfRoom(rid, users - {c});
      assert RoomPairs(rid, users) == RoomPairs(rid, users - {c}) + {(rid, c)};
      assert (rid, c) !in RoomPairs(rid, users - {c});
    }
  }

  lemma InMemberPairs(rooms: RoomMap, p: (string, Id))
    ensures p in MemberPairs(rooms) <==> p.0 in rooms && p.1 in rooms[p.0].users
  {
    assert p == (p.0, p.1);
  }

  lemma MemberPairsSplit(rooms: RoomMap, rid: string)
    requires rid in rooms
    ensures MemberPairs(rooms) == MemberPairs(rooms - {rid}) + RoomPairs(rid, rooms[rid].users.Keys)
    ensures MemberPairs(rooms - {rid}) !! RoomPairs(rid, rooms[rid].users.Keys)
  {
    hide MemberPairs;
    forall p: (string, Id)
      ensures p in MemberPairs(rooms) <==> p in MemberPairs(rooms - {rid}) || p in RoomPairs(rid, rooms[rid].users.Keys)
      ensures !(p in MemberPairs(rooms - {rid}) && p in RoomPairs(rid, rooms[rid].users.Keys))
    {
      InMemberPairs(rooms, p);
      InMemberPairs(rooms - {rid}, p);
      assert p == (p.0, p.1);
    }
  }

  lemma MembersCounted(rooms: RoomMap, rid: string)
    requires rid in rooms
    ensures |MemberPairs(rooms)| == |MemberPairs(rooms - {rid})| + |rooms[rid].users|
  {
    hide MemberPairs, RoomPairs;
    var users, kept := rooms[rid].users.Keys, MemberPairs(rooms - {rid});
    PairsOfRoom(rid, users);
    assert |users| == |rooms[rid].users|;
    MemberPairsSplit(rooms, rid);
    DisjointSize(kept, RoomPairs(rid, users));
  }

  lemma CountedDropped(rooms: RoomMap, counters: Counters, rejoins: nat, rid: string)
    requires Counted(rooms, counters, rejoins) && rid in rooms && rid != "" && rooms[rid].sessions == map[]
    ensures Counted(rooms - {rid}, counters.(usersLeft := counters.usersLeft + |rooms[rid].users|,
                                             roomsClosed := counters.roomsClosed + 1), rejoins)
  {
    var after := rooms - {rid};
    assert LivePairs(after) == LivePairs(rooms);
    MembersCounted(rooms, rid);
    hide MemberPairs, LivePairs;
    assert after.Keys == rooms.Keys - {rid};
    assert |after.Keys| == |after| && |rooms.Keys| == |rooms|;
  }

  lemma MembersDropped(rooms: RoomMap, connected: map<Id, string>, known: set<Id>, out: set<Id>, where: string,
        rid: string)
    requires Members(rooms, connected, known, out, where) && rid in rooms && rid != "" && rooms[rid].users.Keys == out
    ensures Members(rooms - {rid}, connected, known, {}, "")
  {
    assert RegisteredIn(rid, rooms[rid].users, connected, known, out, where);
    forall r | r in rooms - {rid} ensures RegisteredIn(r, rooms[r].users, connected, known, {}, "") {
      assert RegisteredIn(r, rooms[r].users, connected, known, out, where);
    }
  }

  lemma RoomsDropped(rooms: RoomMap, history: map<Sid, Record>, nextSid: Sid, lookup: map<Username, Addr>, rid: string)
    requires Keyed(rooms) && Endpoints(rooms, history, nextSid) && Credentials(rooms, history, lookup)
    requires rid in rooms && rooms[rid].sessions == map[]
    ensures Keyed(rooms - {rid}) && Endpoints(rooms - {rid}, history, nextSid)
    ensures SameLive(rooms, rooms - {rid}, history) && Credentials(rooms - {rid}, history, lookup)
  {
    hide ListedIn, SessionsIn;
    ModesDropped(rooms, history, rid);
    CredentialsSame(rooms, rooms - {rid}, history, lookup);
  }

  lemma ModesDropped(rooms: RoomMap, history: map<Sid, Record>, rid: string)
    requires rid in rooms && rooms[rid].sessions == map[]
    ensures forall s :: Live(rooms, history, s) ==>
      s in history && history[s].room in rooms - {rid} &&
      (rooms - {rid})[history[s].room] == rooms[history[s].room]
  {}

  lemma NamesDropped(rooms: RoomMap, rid: string)
    requires rid != ""
    ensures Named(rooms - {rid}) == Named(rooms) && Nameless(rooms - {rid}) == Nameless(rooms)
  {}

  /** A room without sessions goes, with all that are still counted as its users. */
  lemma DropRoomKeeps(st: State, out: set<Id>, where: string, rid: string)
    requires Consistent(st, out, where) && rid in st.rooms && rid != "" && st.rooms[rid].sessions == map[]
    requires st.rooms[rid].users.Keys == out
    ensures var st' := DropRoom(st, rid); Consistent(st', {}, "") && Evolves(st, st')
  {
    hide Keyed, Endpoints, Credentials, Counted, Members, Quiet, Dismissed, Traces, Evolves, SameLive;
    hide Named, Nameless, DropRoom;
    DropFields(st, rid);
    NamesDropped(st.rooms, rid);
    DroppedKept(st.rooms, st.history, st.nextSid, st.lookup, st.connected, st.known, out, where, rid);
    CountedDropped(st.rooms, st.counters, st.rejoins, rid);
    TracesSame(st.rooms, st.rooms - {rid}, st.history, st.log);
    DropEvolves(st, rid);
  }

  lemma DropEvolves(st: State, rid: string)
    requires rid in st.rooms && rid != "" && SameLive(st.rooms, st.rooms - {rid}, st.history)
    ensures Evolves(st, DropRoom(st, rid))
  {
    hide Evolves, SameLive, Named, Nameless;
    NamesDropped(st.rooms, rid);
    SilentEvolves(st, DropRoom(st, rid));
  }

  lemma DroppedKept(rooms: RoomMap, history: map<Sid, Record>, nextSid: Sid, lookup: map<Username, Addr>,
        connected: map<Id, string>, known: set<Id>, out: set<Id>, where: string, rid: string)
    requires Keyed(rooms) && Endpoints(rooms, history, nextSid) && Credentials(rooms, history, lookup)
    requires Members(rooms, connected, known, out, where) && rid in rooms && rid != ""
    requires rooms[rid].sessions == map[] && rooms[rid].users.Keys == out
    ensures var after := rooms - {rid};
      && Keyed(after) && Members(after, connected, known, {}, "") && Endpoints(after, history, nextSid)
      && Credentials(after, history, lookup) && SameLive(rooms, after, history)
  {
    hide Keyed, Endpoints, Credentials, Members, SameLive;
    RoomsDropped(rooms, history, nextSid, lookup, rid);
    MembersDropped(rooms, connected, known, out, where, rid);
  }

  lemma DropFields(st: State, rid: string)
    requires rid in st.rooms
    ensures DropRoom(st, rid) ==
      st.(rooms := st.rooms - {rid},
          counters := st.counters.(usersLeft := st.counters.usersLeft + |st.rooms[rid].users|,
                                   roomsClosed := st.counters.roomsClosed + 1))
  {}

  // ---- Users come and change ----------------------------------------------------------------------------------

  /** Who is registered as being in no room is in no room that has a name. */
  lemma InNoRoom(rooms: RoomMap, connected: map<Id, string>, known: set<Id>, id: Id)
    requires Keyed(rooms) && Members(rooms, connected, known, {}, "") && id in connected && connected[id] == ""
    ensures id in known && forall r :: r in rooms && r != "" ==> id !in rooms[r].users
  {
    forall r | r in rooms && r != "" ensures id !in rooms[r].users {
      assert KeyedRoom(r, rooms[r]) && RegisteredIn(r, rooms[r].users, connected, known, {}, "");
    }
  }

  /** One user of a room is put in, or replaced without a change of identifier and address. */
  ghost predicate Puts(room: RoomData, user: User) {
    room.sessions != map[] && user.id in room.users ==> room.users[user.id].addr == user.addr
  }

  function WithUser(room: RoomData, user: User): RoomData {
    room.(users := room.users[user.id := user])
  }

  lemma RoomsWithUser(rooms: RoomMap, history: map<Sid, Record>, nextSid: Sid, rid: string, user: User, after: RoomMap)
    requires Keyed(rooms) && Endpoints(rooms, history, nextSid)
    requires rid in rooms && (rid == "" ==> !user.streaming) && after == rooms[rid := WithUser(rooms[rid], user)]
    ensures Keyed(after) && Endpoints(after, history, nextSid) && SameLive(rooms, after, history)
    ensures forall s :: Live(rooms, history, s) ==> after[history[s].room].mode == rooms[history[s].room].mode
  {
    forall r | r in after ensures KeyedRoom(r, after[r]) && SessionsIn(r, after[r], history) {
      assert KeyedRoom(r, rooms[r]) && SessionsIn(r, rooms[r], history);
    }
    hide KeyedRoom, SessionsIn;
  }

  lemma ListedWithUser(rooms: RoomMap, history: map<Sid, Record>, nextSid: Sid, lookup: map<Username, Addr>,
        rid: string, user: User, after: RoomMap)
    requires Endpoints(rooms, history, nextSid) && Credentials(rooms, history, lookup)
    requires rid in rooms && Puts(rooms[rid], user) && after == rooms[rid := WithUser(rooms[rid], user)]
    ensures forall r :: r in after ==> ListedIn(after[r], lookup)
  {
    hide Live;
    forall r | r in after ensures ListedIn(after[r], lookup) {
      assert SessionsIn(r, rooms[r], history) && ListedIn(rooms[r], lookup);
    }
  }

  lemma RegisteredWith(r: string, users: map<Id, User>, connected: map<Id, string>, known: set<Id>, rid: string,
        user: User)
    requires RegisteredIn(r, users, connected, known, {}, "")
    requires user.id in connected && user.id in known && connected[user.id] in {"", rid}
    ensures RegisteredIn(
      r, if r == rid then users[user.id := user] else users, connected[user.id := rid], known, {}, "")
  {}

  lemma MembersWithUser(rooms: RoomMap, connected: map<Id, string>, known: set<Id>, rid: string, user: User,
        after: RoomMap)
    requires Members(rooms, connected, known, {}, "") && rid in rooms
    requires after == rooms[rid := WithUser(rooms[rid], user)]
    requires user.id in connected && connected[user.id] in {"", rid}
    ensures Members(after, connected[user.id := rid], known, {}, "")
  {
    hide RegisteredIn;
    forall r | r in after ensures RegisteredIn(r, after[r].users, connected[user.id := rid], known, {}, "") {
      RegisteredWith(r, rooms[r].users, connected, known, rid, user);
    }
  }

  /** Who joins is counted, also somebody who is already there. */
  lemma CountedWithUser(rooms: RoomMap, counters: Counters, rejoins: nat, rid: string, user: User, joins: bool,
        after: RoomMap)
    requires Counted(rooms, counters, rejoins) && rid in rooms && after == rooms[rid := WithUser(rooms[rid], user)]
    requires joins || user.id in rooms[rid].users
    ensures Counted(after, if joins then counters.(usersJoined := counters.usersJoined + 1) else counters,
                    if joins && user.id in rooms[rid].users then rejoins + 1 else rejoins)
  {
    hide LivePairs, MemberPairs;
    PairsWithUser(rooms, rid, user, after);
    InMemberPairs(rooms, (rid, user.id));
    SameSize(rooms, rid, WithUser(rooms[rid], user));
    var pairs, pair := MemberPairs(rooms), (rid, user.id);
    assert pair in pairs ==> pairs + {pair} == pairs;
    assert pair !in pairs ==> |pairs + {pair}| == |pairs| + 1;
  }

  lemma PairsWithUser(rooms: RoomMap, rid: string, user: User, after: RoomMap)
    requires rid in rooms && after == rooms[rid := WithUser(rooms[rid], user)]
    ensures LivePairs(after) == LivePairs(rooms) && MemberPairs(after) == MemberPairs(rooms) + {(rid, user.id)}
  {}

  lemma SameSize(rooms: RoomMap, rid: string, room: RoomData)
    requires rid in rooms
    ensures |rooms[rid := room]| == |rooms|
  {
    assert rooms[rid := room].Keys == rooms.Keys;
    assert |rooms[rid := room].Keys| == |rooms[rid := room]| && |rooms.Keys| == |rooms|;
  }

  lemma AddUserKeeps(st: State, rid: string, user: User)
    requires Consistent(st, {}, "") && rid in st.rooms && user.id in st.connected && st.connected[user.id] == ""
    requires rid == "" ==> !user.streaming
    ensures var st' := AddUser(st, rid, user); Consistent(st', {}, "") && Evolves(st, st')
  {
    hide Endpoints, Credentials, Counted, Traces, Live, ListedIn, Evolves, SameLive, Keyed, Members, Quiet, Dismissed;
    hide Named, Nameless;
    var after := st.rooms[rid := WithUser(st.rooms[rid], user)];
    var st' := AddUser(st, rid, user);
    assert st'.rooms == after && st'.connected.Keys == st.connected.Keys;
    if rid == "" { NamelessEmpty(st, rid); }
    SameNames(st.rooms, rid, WithUser(st.rooms[rid], user));
    InNoRoom(st.rooms, st.connected, st.known, user.id);
    RoomsWithUser(st.rooms, st.history, st.nextSid, rid, user, after);
    ListedWithUser(st.rooms, st.history, st.nextSid, st.lookup, rid, user, after);
    MembersWithUser(st.rooms, st.connected, st.known, rid, user, after);
    CountedWithUser(st.rooms, st.counters, st.rejoins, rid, user, true, after);
    TracesSame(st.rooms, after, st.history, st.log);
    CredentialsSame(st.rooms, after, st.history, st.lookup);
    QuietSame(Nameless(st.rooms), Nameless(after), st.connected, st'.connected, st.known, st.log);
    SilentEvolves(st, st');
  }

  /** A room without a name has no sessions. */
  lemma NamelessEmpty(st: State, rid: string)
    requires Consistent(st, {}, "") && rid in st.rooms && rid == ""
    ensures st.rooms[rid].sessions == map[]
  {
    assert KeyedRoom(rid, st.rooms[rid]);
  }

  lemma QuietSame(nameless: set<Id>, nameless': set<Id>, connected: map<Id, string>, connected': map<Id, string>,
        known: set<Id>, log: seq<Sent>)
    requires Quiet(nameless, connected, known, log) && Dismissed(connected, known, log)
    requires connected'.Keys == connected.Keys && nameless <= nameless'
    ensures Quiet(nameless', connected', known, log) && Dismissed(connected', known, log)
  {}

  lemma UserRegistered(rooms: RoomMap, connected: map<Id, string>, known: set<Id>, rid: string, id: Id)
    requires Members(rooms, connected, known, {}, "") && rid in rooms && rid != "" && id in rooms[rid].users
    ensures id in connected && connected[id] == rid
  {
    assert RegisteredIn(rid, rooms[rid].users, connected, known, {}, "");
  }

  lemma SetUserKeeps(st: State, rid: string, id: Id, user: User)
    requires Consistent(st, {}, "") && rid in st.rooms && rid != "" && id in st.rooms[rid].users && user.id == id
    requires user.addr == st.rooms[rid].users[id].addr
    ensures var st' := SetUser(st, rid, id, user); Consistent(st', {}, "") && Evolves(st, st')
  {
    hide Endpoints, Credentials, Counted, Traces, Live, ListedIn, Evolves, SameLive, Keyed, Members, Quiet, Dismissed;
    hide Named, Nameless;
    UserRegistered(st.rooms, st.connected, st.known, rid, id);
    var after := st.rooms[rid := WithUser(st.rooms[rid], user)];
    var st' := SetUser(st, rid, id, user);
    assert st'.rooms == after && st.connected[id := rid] == st.connected;
    SameNames(st.rooms, rid, WithUser(st.rooms[rid], user));
    RoomsWithUser(st.rooms, st.history, st.nextSid, rid, user, after);
    ListedWithUser(st.rooms, st.history, st.nextSid, st.lookup, rid, user, after);
    MembersWithUser(st.rooms, st.connected, st.known, rid, user, after);
    CountedWithUser(st.rooms, st.counters, st.rejoins, rid, user, false, after);
    TracesSame(st.rooms, after, st.history, st.log);
    CredentialsSame(st.rooms, after, st.history, st.lookup);
    SilentEvolves(st, st');
  }
}
