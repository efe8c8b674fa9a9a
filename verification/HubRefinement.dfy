/** The model's loops and branches in the steps the program takes them. */
module HubRefinement {
  import opened Collections
  import opened HubModel
  import opened HubInvariants
  import opened HubBoundary
  import opened HubTheorems

  // ---- The loops of the model, one round longer ---------------------------------------------------------------

  lemma NotifyOneMore(st: State, rid: string, current: Id, notices: seq<Notice>, n: Notice)
    ensures NotifyAll(st, rid, current, notices + [n]) ==
      Send(NotifyAll(st, rid, current, notices), n.to, current, RoomInfo(rid, n.users))
  {
    assert (notices + [n])[..|notices|] == notices;
  }

  lemma OpenNone(st: State, rid: string, current: Id, hosting: bool, ips: Ips)
    requires rid in st.rooms && current in st.rooms[rid].users
    ensures OpenAll(st, rid, current, hosting, [], ips) == st
  {}

  lemma OpenOneMore(st: State, rid: string, current: Id, hosting: bool, partners: seq<Id>, p: Id, ips: Ips)
    requires rid in st.rooms && current in st.rooms[rid].users && p in st.rooms[rid].users
    requires forall q :: q in partners ==> q in st.rooms[rid].users
    ensures OpenAll(st, rid, current, hosting, partners + [p], ips) ==
      OpenSession(
        OpenAll(st, rid, current, hosting, partners, ips),
        rid, if hosting then current else p, if hosting then p else current, current, ips)
  {
    assert (partners + [p])[..|partners|] == partners;
  }

  lemma CloseOneMore(st: State, rid: string, sids: seq<Sid>, sid: Sid)
    requires rid in st.rooms
    ensures CloseAll(st, rid, sids + [sid]) == HubModel.CloseSession(CloseAll(st, rid, sids), rid, sid)
  {
    assert (sids + [sid])[..|sids|] == sids;
  }

  lemma KickOneMore(st: State, current: Id, members: seq<Id>, c: Id)
    ensures KickAll(st, current, members + [c]) ==
      CloseConnection(KickAll(st, current, members), c, current, NORMAL_CLOSURE, OwnerLeft)
  {
    assert (members + [c])[..|members|] == members;
  }

  lemma EndOneMore(st: State, rid: string, current: Id, sids: seq<Sid>, sid: Sid)
    requires rid in st.rooms && (forall s :: s in sids ==> s in st.rooms[rid].sessions) && sid in st.rooms[rid].sessions
    requires sid !in sids
    requires forall i, j :: 0 <= i < j < |sids| ==> sids[i] != sids[j]
    ensures EndAll(st, rid, current, sids + [sid]) == EndSession(EndAll(st, rid, current, sids), rid, sid, current)
  {
    assert (sids + [sid])[..|sids|] == sids;
  }

  lemma EnumeratesNone<T(!new)>()
    ensures Enumerates<T>([], {})
  {}

  lemma EnumeratesMore<T(!new)>(order: seq<T>, keys: set<T>, x: T)
    requires Enumerates(order, keys) && x !in keys
    ensures Enumerates(order + [x], keys + {x}) && x !in order
  {}

  /** Users are stored under their own identifiers. */
  lemma UsersKeyed(st: State, rid: string)
    requires Consistent(st, {}, "") && rid in st.rooms
    ensures forall c :: c in st.rooms[rid].users ==> st.rooms[rid].users[c].id == c
  {
    assert KeyedRoom(rid, st.rooms[rid]);
  }

  // ---- What the model does, branch by branch ----------------------------------------------------------------------

  function Sharing(st: State, rid: string, id: Id): State
    requires rid in st.rooms && id in st.rooms[rid].users
  {
    SetUser(st, rid, id, st.rooms[rid].users[id].(streaming := true))
  }

  lemma ShareFails(st: State, id: Id, ch: Choice)
    requires NoDangling(st) && id in st.connected
    ensures var current := CurrentRoom(st, id);
      && (current.Missing? ==> GoodShare(st, id, ch) && ExecuteShare(st, id, ch) == Failed(st, current.error))
      && (current.Found? && ch.ips.None? ==>
        GoodShare(st, id, ch) && ExecuteShare(st, id, ch) == Failed(Sharing(st, current.rid, id), LookupFailed))
  {}

  lemma ShareSucceeds(st: State, id: Id, rid: string, mid: State, ch: Choice)
    requires NoDangling(st) && id in st.connected && CurrentRoom(st, id) == Found(rid) && ch.ips.Some?
    requires mid == Sharing(st, rid, id)
    requires Enumerates(ch.partners, mid.rooms[rid].users.Keys - {id}) && GoodNotices(mid.rooms[rid].users, ch.notices)
    ensures forall p :: p in ch.partners ==> p in mid.rooms[rid].users
    ensures GoodShare(st, id, ch) && ExecuteShare(st, id, ch) ==
      Done(NotifyAll(OpenAll(mid, rid, id, true, ch.partners, ch.ips.value), rid, id, ch.notices))
  {
    hide GoodNotices, OpenAll, NotifyAll;
    assert mid.rooms[rid].users.Keys - {id} == st.rooms[rid].users.Keys - {id};
  }

  lemma NameFails(st: State, id: Id, userName: string, ch: Choice)
    requires NoDangling(st)
    ensures var current := CurrentRoom(st, id);
      current.Missing? ==>
      GoodName(st, id, userName, ch) && ExecuteName(st, id, userName, ch) == Failed(st, current.error)
  {}

  lemma NameSucceeds(st: State, id: Id, rid: string, userName: string, mid: State, ch: Choice)
    requires NoDangling(st) && CurrentRoom(st, id) == Found(rid)
    requires mid == SetUser(st, rid, id, st.rooms[rid].users[id].(name := userName))
    requires GoodNotices(mid.rooms[rid].users, ch.notices)
    ensures GoodName(st, id, userName, ch)
    ensures ExecuteName(st, id, userName, ch) == Done(NotifyAll(mid, rid, id, ch.notices))
  {
    hide GoodNotices, NotifyAll;
  }

  lemma StopFails(st: State, id: Id, ch: Choice)
    requires NoDangling(st)
    ensures var current := CurrentRoom(st, id);
      current.Missing? ==> GoodStop(st, id, ch) && ExecuteStop(st, id, ch) == Failed(st, current.error)
  {}

  function Stopped(st: State, rid: string, id: Id): State
    requires rid in st.rooms && id in st.rooms[rid].users
  {
    SetUser(st, rid, id, st.rooms[rid].users[id].(streaming := false))
  }

  lemma StopSucceeds(st: State, id: Id, rid: string, ch: Choice)
    requires NoDangling(st) && CurrentRoom(st, id) == Found(rid)
    requires Enumerates(ch.ending, HostedBy(st.rooms[rid].sessions, id))
    requires GoodNotices(Stopped(st, rid, id).rooms[rid].users, ch.notices)
    ensures (forall s :: s in ch.ending ==> s in st.rooms[rid].sessions)
    ensures (forall i, j :: 0 <= i < j < |ch.ending| ==> ch.ending[i] != ch.ending[j])
    ensures GoodStop(st, id, ch)
    ensures ExecuteStop(st, id, ch) ==
      Done(NotifyAll(EndAll(Stopped(st, rid, id), rid, id, ch.ending), rid, id, ch.notices))
  {
    hide GoodNotices, NotifyAll, EndAll;
  }

  /** Telling the other end and closing the session is ending it. */
  lemma EndIsSendAndClose(st: State, rid: string, sid: Sid, current: Id, to: Id)
    requires rid in st.rooms && sid in st.rooms[rid].sessions && to == Other(st.rooms[rid].sessions[sid], current)
    ensures HubModel.CloseSession(Send(st, to, current, EndShare(sid)), rid, sid) == EndSession(st, rid, sid, current)
  {}

  lemma EndNone(st: State, rid: string, current: Id)
    requires rid in st.rooms
    ensures EndAll(st, rid, current, []) == st
  {}

  lemma EndedSessions(sessions: map<Sid, Session>, ending: seq<Sid>, keys: set<Sid>, sid: Sid)
    requires Enumerates(ending, keys) && sid in sessions && sid !in keys
    ensures sid in sessions - (set s | s in ending) && (sessions - (set s | s in ending))[sid] == sessions[sid]
    ensures sid !in ending && forall i, j :: 0 <= i < j < |ending| ==> ending[i] != ending[j]
  {}

  lemma SessionEnds(st: State, rid: string)
    requires Consistent(st, {}, "") && rid in st.rooms
    ensures forall s :: s in st.rooms[rid].sessions ==> var session := st.rooms[rid].sessions[s];
      session.host in st.rooms[rid].users && session.client in st.rooms[rid].users && session.client != session.host
  {
    assert SessionsIn(rid, st.rooms[rid], st.history);
  }

  function WithCounters(st: State, counters: Counters): State {
    st.(counters := counters)
  }

  /** Rosters do not depend on the counters. */
  lemma {:induction false} NotifyCounters(st: State, rid: string, current: Id, notices: seq<Notice>, counters: Counters)
    ensures NotifyAll(WithCounters(st, counters), rid, current, notices) ==
      WithCounters(NotifyAll(st, rid, current, notices), counters)
  {
    if notices != [] { NotifyCounters(st, rid, current, notices[..|notices| - 1], counters); }
  }

  function NewMember(info: ClientInfo, userName: string, randomName: string, owner: bool): User {
    User(info.id, info.addr, DisplayName(info, userName, randomName), false, owner)
  }

  lemma JoinFails(st: State, info: ClientInfo, rid: string, userName: string, ch: Choice)
    ensures RoomOf(st, info.id) != "" ==>
      GoodJoin(st, info, rid, userName, ch) && ExecuteJoin(st, info, rid, userName, ch) == Failed(st, AlreadyInRoom)
    ensures RoomOf(st, info.id) == "" && rid !in st.rooms ==>
      GoodJoin(st, info, rid, userName, ch) && ExecuteJoin(st, info, rid, userName, ch) == Failed(st, NoSuchRoom(rid))
  {}

  lemma JoinSucceeds(st: State, info: ClientInfo, rid: string, userName: string, added: State, joined: State,
        ch: Choice)
    requires RoomOf(st, info.id) == "" && rid in st.rooms
    requires added == AddUser(st, rid, NewMember(info, userName, ch.randomName, false))
    requires joined == NotifyAll(added, rid, info.id, ch.notices)
    requires GoodNotices(added.rooms[rid].users, ch.notices)
    requires ch.ips.Some? ==> Enumerates(ch.partners, StreamersBut(added.rooms[rid].users, info.id))
    ensures ch.ips.Some? ==> forall p :: p in ch.partners ==> p in joined.rooms[rid].users
    ensures GoodJoin(st, info, rid, userName, ch)
    ensures ExecuteJoin(st, info, rid, userName, ch) ==
      if ch.ips.None? then Failed(joined, LookupFailed)
      else Done(OpenAll(joined, rid, info.id, false, ch.partners, ch.ips.value))
  {
    hide GoodNotices, OpenAll, NotifyAll;
  }

  lemma CreateFails(st: State, info: ClientInfo, auth: AuthMode, e: Event, ch: Choice)
    requires e.Create?
    ensures RoomOf(st, info.id) != "" ==>
      GoodCreate(st, info, auth, e, ch) && ExecuteCreate(st, info, auth, e, ch) == Failed(st, AlreadyInRoom)
    ensures RoomOf(st, info.id) == "" && e.id in st.rooms && !e.joinIfExist ==>
      GoodCreate(st, info, auth, e, ch) && ExecuteCreate(st, info, auth, e, ch) == Failed(st, RoomExists(e.id))
    ensures var refused := CreateRefused(auth, info, e.mode);
      RoomOf(st, info.id) == "" && e.id !in st.rooms && refused.Some? ==>
        GoodCreate(st, info, auth, e, ch) && ExecuteCreate(st, info, auth, e, ch) == Failed(st, refused.value)
  {}

  lemma CreateJoins(st: State, info: ClientInfo, auth: AuthMode, e: Event, ch: Choice)
    requires e.Create? && RoomOf(st, info.id) == "" && e.id in st.rooms && e.joinIfExist
    requires GoodJoin(st, info, e.id, e.userName, ch)
    ensures GoodCreate(st, info, auth, e, ch)
    ensures ExecuteCreate(st, info, auth, e, ch) == ExecuteJoin(st, info, e.id, e.userName, ch)
  {
    hide GoodJoin, ExecuteJoin;
  }

  lemma CreateSucceeds(st: State, info: ClientInfo, auth: AuthMode, e: Event, ch: Choice)
    requires e.Create? && RoomOf(st, info.id) == "" && e.id !in st.rooms && CreateRefused(auth, info, e.mode).None?
    requires GoodNotices(map[info.id := NewMember(info, e.userName, ch.randomName, true)], ch.notices)
    ensures GoodCreate(st, info, auth, e, ch)
    ensures ExecuteCreate(st, info, auth, e, ch) ==
      Done(NotifyAll(
        AddRoom(st, RoomData(e.id, e.closeOnOwnerLeave, e.mode, map[], map[]),
               NewMember(info, e.userName, ch.randomName, true)), e.id, info.id, ch.notices))
  {
    hide GoodNotices, NotifyAll;
  }

  // ---- Leaving, in the order of the source ------------------------------------------------------------------

  /** The source drops the user before it ends the sessions; the order makes no difference. */
  lemma RemoveThenEnd(st: State, rid: string, id: Id, sid: Sid)
    requires rid in st.rooms && sid in st.rooms[rid].sessions
    ensures EndSession(RemoveUser(st, rid, id), rid, sid, id) == RemoveUser(EndSession(st, rid, sid, id), rid, id)
  {}

  /** The source counts the users of a closing room before it closes the sessions: the order makes no difference. */
  function Leavers(st: State, n: nat): State {
    st.(counters := st.counters.(usersLeft := st.counters.usersLeft + n))
  }

  lemma CountThenClose(st: State, rid: string, sid: Sid, n: nat)
    requires rid in st.rooms
    ensures HubModel.CloseSession(Leavers(st, n), rid, sid) == Leavers(HubModel.CloseSession(st, rid, sid), n)
  {}

  lemma CloseNone(st: State, rid: string)
    requires rid in st.rooms
    ensures CloseAll(st, rid, []) == st
  {}

  lemma KickNobody(st: State, current: Id)
    ensures KickAll(st, current, []) == st
  {}

  lemma LeaveIsClose(st: State, id: Id, code: int, reason: Reason, lc: LeaveChoice)
    requires RoomOf(st, id) == "" || RoomOf(st, id) !in st.rooms || id !in st.rooms[RoomOf(st, id)].users
    ensures GoodLeave(st, id, lc) && Leave(st, id, code, reason, lc) == CloseConnection(st, id, id, code, reason)
  {}

  /** What Leave does once the user and their sessions are gone. */
  ghost function Aftermath(left: State, rid: string, id: Id, ownerCloses: bool, lc: LeaveChoice): State
    requires rid in left.rooms
  {
    if ownerCloses then DropRoom(CloseAll(KickAll(left, id, lc.members), rid, lc.closing), rid)
    else if left.rooms[rid].users == map[] then DropRoom(CloseAll(left, rid, lc.closing), rid)
    else NotifyAll(left, rid, id, lc.notices)
  }

  ghost predicate GoodAftermath(users: map<Id, User>, sessions: map<Sid, Session>, ownerCloses: bool, lc: LeaveChoice) {
    && (ownerCloses ==> Enumerates(lc.members, users.Keys))
    && (ownerCloses || users == map[] ==> Enumerates(lc.closing, sessions.Keys))
    && (!ownerCloses && users != map[] ==> GoodNotices(users, lc.notices))
  }

  lemma LeaveIs(st: State, id: Id, code: int, reason: Reason, lc: LeaveChoice, rid: string)
    requires rid == RoomOf(st, id) && rid != "" && rid in st.rooms && id in st.rooms[rid].users
    requires var room := st.rooms[rid];
      && Enumerates(lc.ending, SessionsOf(room.sessions, id))
      && GoodAftermath(room.users - {id}, room.sessions - SessionsOf(room.sessions, id), OwnerCloses(room, id), lc)
    ensures GoodLeave(st, id, lc)
    ensures (forall s :: s in lc.ending ==> s in st.rooms[rid].sessions)
    ensures forall i, j :: 0 <= i < j < |lc.ending| ==> lc.ending[i] != lc.ending[j]
    ensures Leave(st, id, code, reason, lc) ==
      Aftermath(RemoveUser(EndAll(CloseConnection(st, id, id, code, reason), rid, id, lc.ending), rid, id),
                rid, id, OwnerCloses(st.rooms[rid], id), lc)
  {
    hide GoodNotices, EndAll, NotifyAll, CloseAll, KickAll, DropRoom;
    var room := st.rooms[rid];
    assert (room.sessions - SessionsOf(room.sessions, id)).Keys == room.sessions.Keys - SessionsOf(room.sessions, id);
    LeftRoom(CloseConnection(st, id, id, code, reason), rid, id, lc.ending);
  }

  lemma LeftRoom(closed: State, rid: string, id: Id, ending: seq<Sid>)
    requires rid in closed.rooms && (forall s :: s in ending ==> s in closed.rooms[rid].sessions)
    requires forall i, j :: 0 <= i < j < |ending| ==> ending[i] != ending[j]
    ensures RemoveUser(EndAll(closed, rid, id, ending), rid, id).rooms[rid].users == closed.rooms[rid].users - {id}
  {
    EndAllUsers(closed, rid, id, ending);
  }

  lemma {:induction false} EndAllUsers(st: State, rid: string, current: Id, sids: seq<Sid>)
    requires rid in st.rooms && (forall s :: s in sids ==> s in st.rooms[rid].sessions)
    requires forall i, j :: 0 <= i < j < |sids| ==> sids[i] != sids[j]
    ensures EndAll(st, rid, current, sids).rooms[rid].users == st.rooms[rid].users
  {
    if sids != [] {
      assert sids[|sids| - 1] in sids;
      EndAllUsers(st, rid, current, sids[..|sids| - 1]);
      SetOfLast(sids);
    }
  }

  // ---- One message and the next -----------------------------------------------------------------------------

  /** The choices made for the disconnect play no role in the event itself. */
  lemma LeaveApart(st: State, auth: AuthMode, msg: Incoming, ch: Choice, lc: LeaveChoice)
    requires NoDangling(st) && GoodExecute(st, auth, msg, ch) && !msg.event.Disconnected?
    ensures GoodExecute(st, auth, msg, ch.(leave := lc))
    ensures Execute(st, auth, msg, ch.(leave := lc)) == Execute(st, auth, msg, ch)
  {
    hide GoodNotices, Enumerates, NotifyAll, OpenAll, EndAll;
  }

  lemma FailedInOrder(st: State, auth: AuthMode, msg: Incoming, ch: Choice)
    requires Inv(st) && NoDangling(st) && Allowed(st, msg) && !Ignored(st, msg) && GoodExecute(st, auth, msg, ch)
    requires HubModel.Execute(st, auth, msg, ch).Failed?
    ensures Consistent(HubModel.Execute(st, auth, msg, ch).st, {}, "") && !msg.event.Disconnected?
  {
    hide Consistent, GoodNotices, Enumerates, RoomOk, Evolves, KeepsLive, NoDangling, ExecuteCreate, ExecuteJoin;
    hide ExecuteName, ExecuteShare, ExecuteStop, ExecuteRelay, ExecuteConnected, GoodCreate, GoodJoin, GoodName;
    hide GoodShare, GoodStop, GoodLeave, Leave;
    assert !msg.event.Disconnected?;
    ExecuteHandled(st, auth, msg, ch);
  }

  /** Connections are known from their first message on. */
  lemma StepKnown(st: State, auth: AuthMode, msg: Incoming, ch: Choice)
    requires NoDangling(st) && Allowed(st, msg) && GoodChoice(st, auth, msg, ch)
    ensures Step(st, auth, msg, ch).known == KnownAfter(st.known, msg)
  {
    hide ExecuteCreate, ExecuteJoin, ExecuteName, ExecuteShare, ExecuteStop, ExecuteRelay, Leave, GoodCreate, GoodJoin;
    hide GoodName, GoodShare, GoodStop, GoodLeave, NoDangling;
  }

  function KnownAfter(known: set<Id>, msg: Incoming): set<Id> {
    if msg.event.Connected? then known + {msg.info.id} else known
  }

  /**
   * What the rest of the program guarantees of the messages: only the first one of a connection skips the check, and
   * identifiers of connections are not reused.
   */
  predicate Expected(known: set<Id>, incoming: seq<Incoming>)
    decreases |incoming|
  {
    incoming == [] ||
    var msg := incoming[0];
    && (msg.skipCheck <==> msg.event.Connected?) && (msg.event.Connected? ==> msg.info.id !in known)
    && Expected(KnownAfter(known, msg), incoming[1..])
  }

  lemma RunOneMore(auth: AuthMode, rounds: seq<Round>, states: seq<State>, round: Round, next: State)
    requires Run(auth, rounds, states) && Follows(states[|rounds|], auth, round, next)
    ensures Run(auth, rounds + [round], states + [next])
  {
    hide NoDangling, GoodChoice, Step, Allowed;
    var rounds', states' := rounds + [round], states + [next];
    forall i {:trigger rounds'[i]} | 0 <= i < |rounds'| ensures Follows(states'[i], auth, rounds'[i], states'[i + 1]) {
      if i < |rounds| { assert Follows(states[i], auth, rounds[i], states[i + 1]); }
    }
  }
}
