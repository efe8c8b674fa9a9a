/**
 * The hub seen from outside: rooms with their users, and nothing else. The whole state machine, with its failures,
 * loops and partial updates, does to that view what one short function says.
 */
module HubOverview {
  import opened Collections
  import opened HubModel
  import opened HubInvariants
  import opened HubAdditions
  import opened HubBoundary
  import opened HubEvents
  import opened HubTheorems

  datatype Hall = Hall(closeOnOwnerLeave: bool, mode: Mode, users: map<Id, User>)

  function HallOf(room: RoomData): Hall {
    Hall(room.closeOnOwnerLeave, room.mode, room.users)
  }

  ghost function Halls(rooms: RoomMap): map<string, Hall> {
    map r | r in rooms :: HallOf(rooms[r])
  }

  // ---- What each message is for -----------------------------------------------------------------------------

  /** Who may create a room, by how the server authenticates. */
  predicate Admits(auth: AuthMode, info: ClientInfo, mode: Mode) {
    || auth.AuthNone?
    || (auth.AuthAll? && info.authenticated)
    || (auth.AuthTurn? && (info.authenticated || mode.Local? || mode.Stun?))
  }

  lemma AdmitsWhom(auth: AuthMode, info: ClientInfo, mode: Mode)
    ensures CreateRefused(auth, info, mode).None? <==> Admits(auth, info, mode)
  {}

  /** The login name of who is logged in, else the name they ask for; where that is empty, one is made up. */
  function NameFor(info: ClientInfo, asked: string, madeUp: string): string {
    if info.authenticated && info.authenticatedUser != "" then info.authenticatedUser
    else if !info.authenticated && asked != "" then asked
    else madeUp
  }

  lemma NameForWhom(info: ClientInfo, asked: string, madeUp: string)
    ensures DisplayName(info, asked, madeUp) == NameFor(info, asked, madeUp)
  {}

  /** Who is in a hall without a name counts as being in none. */
  predicate Inside(halls: map<string, Hall>, at: string, id: Id) {
    at != "" && at in halls && id in halls[at].users
  }

  /** One user goes; the hall goes too if its owner should close it, or if nobody is left. */
  function Departed(halls: map<string, Hall>, at: string, id: Id): map<string, Hall> {
    if !Inside(halls, at, id) then halls
    else
      var hall := halls[at];
      if (hall.users[id].owner && hall.closeOnOwnerLeave) || hall.users - {id} == map[] then halls - {at}
      else halls[at := hall.(users := hall.users - {id})]
  }

  function WithEntry(halls: map<string, Hall>, at: string, id: Id, user: User): map<string, Hall>
    requires at in halls
  {
    halls[at := halls[at].(users := halls[at].users[id := user])]
  }

  /** A join whose address lookup fails leaves the halls as they were, unless the hall has no name. */
  function Joined(halls: map<string, Hall>, rid: string, found: bool, user: User): map<string, Hall> {
    if rid in halls && (found || rid == "") then WithEntry(halls, rid, user.id, user) else halls
  }

  /** Someone in a hall changes their own entry; anyone else changes nothing. */
  function Changed(halls: map<string, Hall>, at: string, id: Id, change: User -> User): map<string, Hall> {
    if Inside(halls, at, id) then WithEntry(halls, at, id, change(halls[at].users[id])) else halls
  }

  /**
   * at is the hall the connection is in, found whether the address lookup succeeds, denied whether a relayed
   * message comes from the wrong end of its session.
   */
  function NextHalls(halls: map<string, Hall>, at: string, auth: AuthMode, msg: Incoming, found: bool,
        randomName: string, denied: bool): map<string, Hall> {
    var id, addr := msg.info.id, msg.info.addr;
    match msg.event
    case Connected => halls
    case Disconnected(_, _) => Departed(halls, at, id)
    case Create(rid, mode, closeOnOwnerLeave, userName, joinIfExist) =>
      var name := NameFor(msg.info, userName, randomName);
      if at != "" then Departed(halls, at, id)
      else if rid in halls then
        if joinIfExist then Joined(halls, rid, found, User(id, addr, name, false, false)) else halls
      else if !Admits(auth, msg.info, mode) then halls
      else halls[rid := Hall(closeOnOwnerLeave, mode, map[id := User(id, addr, name, false, true)])]
    case Join(rid, userName) =>
      if at != "" then Departed(halls, at, id)
      else Joined(halls, rid, found, User(id, addr, NameFor(msg.info, userName, randomName), false, false))
    case Name(userName) => Changed(halls, at, id, (user: User) => user.(name := userName))
    case StartShare =>
      if found then Changed(halls, at, id, (user: User) => user.(streaming := true)) else Departed(halls, at, id)
    case StopShare => Changed(halls, at, id, (user: User) => user.(streaming := false))
    case Relay(_, _, _) => if denied then Departed(halls, at, id) else halls
  }

  // ---- What the loops leave alone ------------------------------------------------------------------------------

  lemma HallsChange(rooms: RoomMap, rid: string, room: RoomData)
    ensures Halls(rooms[rid := room]) == Halls(rooms)[rid := HallOf(room)]
    ensures rid in rooms && HallOf(room) == HallOf(rooms[rid]) ==> Halls(rooms[rid := room]) == Halls(rooms)
  {}

  lemma {:induction false} HallsOpen(st: State, rid: string, actor: Id, hosting: bool, partners: seq<Id>, ips: Ips)
    requires rid in st.rooms && actor in st.rooms[rid].users && forall p :: p in partners ==> p in st.rooms[rid].users
    ensures Halls(OpenAll(st, rid, actor, hosting, partners, ips).rooms) == Halls(st.rooms)
  {
    hide Halls;
    if partners != [] {
      var n := |partners| - 1;
      var before := OpenAll(st, rid, actor, hosting, partners[..n], ips);
      HallsOpen(st, rid, actor, hosting, partners[..n], ips);
      HallsChange(before.rooms, rid, OpenAll(st, rid, actor, hosting, partners, ips).rooms[rid]);
    }
  }

  lemma {:induction false} HallsEnd(st: State, rid: string, actor: Id, sids: seq<Sid>)
    requires rid in st.rooms && (forall s :: s in sids ==> s in st.rooms[rid].sessions)
    requires forall i, j :: 0 <= i < j < |sids| ==> sids[i] != sids[j]
    ensures Halls(EndAll(st, rid, actor, sids).rooms) == Halls(st.rooms)
  {
    hide Halls;
    if sids != [] {
      var n := |sids| - 1;
      var before, r := EndAll(st, rid, actor, sids[..n]), EndAll(st, rid, actor, sids);
      HallsEnd(st, rid, actor, sids[..n]);
      assert sids == sids[..n] + [sids[n]];
      HallsChange(before.rooms, rid, r.rooms[rid]);
    }
  }

  lemma {:induction false} HallsClose(st: State, rid: string, sids: seq<Sid>)
    requires rid in st.rooms
    ensures Halls(CloseAll(st, rid, sids).rooms) == Halls(st.rooms)
  {
    hide Halls;
    if sids != [] {
      var before := CloseAll(st, rid, sids[..|sids| - 1]);
      HallsClose(st, rid, sids[..|sids| - 1]);
      HallsChange(before.rooms, rid, CloseAll(st, rid, sids).rooms[rid]);
    }
  }

  lemma HallsDrop(st: State, rid: string)
    requires rid in st.rooms
    ensures Halls(DropRoom(st, rid).rooms) == Halls(st.rooms) - {rid}
  {}

  lemma HallAt(rooms: RoomMap, rid: string)
    ensures rid in Halls(rooms) <==> rid in rooms
    ensures rid in rooms ==> Halls(rooms)[rid] == HallOf(rooms[rid])
  {}

  lemma HallsRemove(st: State, rid: string, id: Id)
    requires rid in st.rooms
    ensures Halls(RemoveUser(st, rid, id).rooms) ==
      Halls(st.rooms)[rid := HallOf(st.rooms[rid]).(users := st.rooms[rid].users - {id})]
  {
    hide Halls;
    HallsChange(st.rooms, rid, RemoveUser(st, rid, id).rooms[rid]);
  }

  // ---- Leaving ---------------------------------------------------------------------------------------------------

  lemma DropAdded(halls: map<string, Hall>, rid: string, hall: Hall)
    ensures halls[rid := hall] - {rid} == halls - {rid}
  {}

  lemma LeaveHalls(st: State, id: Id, code: int, reason: Reason, lc: LeaveChoice)
    requires Consistent(st, {}, "") && GoodLeave(st, id, lc)
    ensures Halls(Leave(st, id, code, reason, lc).rooms) == Departed(Halls(st.rooms), RoomOf(st, id), id)
  {
    hide Halls, Consistent, EndAll, CloseAll, KickAll, NotifyAll, DropRoom, RemoveUser, GoodNotices;
    var rid := RoomOf(st, id);
    HallAt(st.rooms, rid);
    if rid != "" && rid in st.rooms && id in st.rooms[rid].users {
      var room := st.rooms[rid];
      var closed := CloseConnection(st, id, id, code, reason);
      var ended := EndAll(closed, rid, id, lc.ending);
      var left := RemoveUser(ended, rid, id);
      HallsEnd(closed, rid, id, lc.ending);
      HallAt(ended.rooms, rid);
      HallsRemove(ended, rid, id);
      HallAt(left.rooms, rid);
      DropAdded(Halls(st.rooms), rid, HallOf(room).(users := room.users - {id}));
      if OwnerCloses(room, id) {
        var kicked := KickAll(left, id, lc.members);
        HallsClose(kicked, rid, lc.closing);
        HallsDrop(CloseAll(kicked, rid, lc.closing), rid);
      } else if room.users - {id} == map[] {
        HallsClose(left, rid, lc.closing);
        HallsDrop(CloseAll(left, rid, lc.closing), rid);
      }
    }
  }

  // ---- Handling one message -----------------------------------------------------------------------------------------

  /** Whether a relayed message comes from a user at the wrong end of its session. */
  predicate Denied(st: State, msg: Incoming) {
    msg.event.Relay? &&
    var current := CurrentRoom(st, msg.info.id);
    && current.Found? && msg.event.sid in st.rooms[current.rid].sessions
    && SendingEnd(msg.event.kind, st.rooms[current.rid].sessions[msg.event.sid]) != msg.info.id
  }

  /** The halls once a failed event has also disconnected its connection. */
  ghost function Settled(outcome: Outcome, id: Id): map<string, Hall> {
    if outcome.Done? then Halls(outcome.st.rooms) else Departed(Halls(outcome.st.rooms), RoomOf(outcome.st, id), id)
  }

  /** A member who joins and goes again leaves no trace exactly if the hall has a name. */
  lemma JoinUndone(halls: map<string, Hall>, rid: string, user: User)
    requires rid in halls && user.id !in halls[rid].users && !user.owner && halls[rid].users != map[]
    ensures Departed(WithEntry(halls, rid, user.id, user), rid, user.id) == halls <==> rid != ""
  {
    var users := halls[rid].users;
    assert user.id in WithEntry(halls, rid, user.id, user)[rid].users;
    assert users[user.id := user] - {user.id} == users;
    assert halls[rid := halls[rid].(users := users[user.id := user])][rid := halls[rid]] == halls;
  }

  lemma NewHere(st: State, id: Id, rid: string)
    requires Inv(st) && id in st.connected && st.connected[id] == "" && rid in st.rooms && rid != ""
    ensures id !in st.rooms[rid].users && st.rooms[rid].users != map[]
  {
    hide Endpoints, Credentials, Counted, Traces, Quiet, Dismissed, Covered, Informed, Members;
    InNoRoom(st.rooms, st.connected, st.known, id);
    InvCovered(st, rid);
  }

  lemma AddedHalls(st: State, rid: string, user: User)
    requires rid in st.rooms
    ensures rid in Halls(st.rooms)
    ensures Halls(AddUser(st, rid, user).rooms) == WithEntry(Halls(st.rooms), rid, user.id, user)
    ensures RoomOf(AddUser(st, rid, user), user.id) == rid
  {
    hide Halls;
    HallAt(st.rooms, rid);
    HallsChange(st.rooms, rid, AddUser(st, rid, user).rooms[rid]);
  }

  lemma JoinHalls(st: State, info: ClientInfo, rid: string, userName: string, ch: Choice, user: User)
    requires Inv(st) && info.id in st.connected && st.connected[info.id] == "" && rid in st.rooms
    requires GoodJoin(st, info, rid, userName, ch)
    requires user == User(info.id, info.addr, DisplayName(info, userName, ch.randomName), false, false)
    ensures Settled(ExecuteJoin(st, info, rid, userName, ch), info.id) ==
      Joined(Halls(st.rooms), rid, ch.ips.Some?, user)
  {
    hide Halls, OpenAll, NotifyAll, GoodNotices, Enumerates, Inv, WithEntry, Departed, AddUser;
    HallAt(st.rooms, rid);
    AddedHalls(st, rid, user);
    var joined := NotifyAll(AddUser(st, rid, user), rid, info.id, ch.notices);
    if ch.ips.Some? {
      AddedUsers(st, rid, user);
      EnumeratesSet(ch.partners, StreamersBut(joined.rooms[rid].users, info.id));
      forall p | p in ch.partners ensures p in joined.rooms[rid].users { assert p in SetOf(ch.partners); }
      HallsOpen(joined, rid, info.id, false, ch.partners, ch.ips.value);
    } else if rid == "" {
      NobodyDeparts(Halls(joined.rooms), info.id);
    } else {
      NewHere(st, info.id, rid);
      JoinUndone(Halls(st.rooms), rid, user);
    }
  }

  lemma NobodyDeparts(halls: map<string, Hall>, id: Id)
    ensures Departed(halls, "", id) == halls
  {}

  lemma AddedUsers(st: State, rid: string, user: User)
    requires rid in st.rooms
    ensures var added := AddUser(st, rid, user);
      rid in added.rooms && added.rooms[rid].users == st.rooms[rid].users[user.id := user]
  {}

  /** Where a connection is among the halls. */
  lemma AtHall(st: State, id: Id)
    requires Inv(st) && id in st.connected
    ensures var current, halls, at := CurrentRoom(st, id), Halls(st.rooms), RoomOf(st, id);
      && (current.Missing? ==> at == "" && !Inside(halls, at, id) && Departed(halls, at, id) == halls)
      && (current.Found? ==> at == current.rid && IsUser(st.rooms, at, id) && st.rooms[at].users[id].id == id)
      && (current.Found? ==> Inside(halls, at, id) && halls[at] == HallOf(st.rooms[at]))
  {
    hide RoomOk;
    WhereAmI(st, id);
    hide Consistent, Halls;
    HallAt(st.rooms, RoomOf(st, id));
  }

  lemma SetUserHalls(st: State, rid: string, id: Id, user: User)
    requires rid in st.rooms && user.id == id
    ensures rid in Halls(st.rooms)
    ensures Halls(SetUser(st, rid, id, user).rooms) == WithEntry(Halls(st.rooms), rid, id, user)
  {
    hide Halls;
    HallAt(st.rooms, rid);
    HallsChange(st.rooms, rid, SetUser(st, rid, id, user).rooms[rid]);
  }

  lemma NameHalls(st: State, auth: AuthMode, msg: Incoming, ch: Choice)
    requires Inv(st) && NoDangling(st) && msg.info.id in st.connected && msg.event.Name?
    requires GoodName(st, msg.info.id, msg.event.userName, ch)
    ensures Settled(ExecuteName(st, msg.info.id, msg.event.userName, ch), msg.info.id) ==
      NextHalls(Halls(st.rooms), RoomOf(st, msg.info.id), auth, msg, ch.ips.Some?, ch.randomName, false)
  {
    hide Halls, NotifyAll, GoodNotices, Inv, NoDangling;
    var id := msg.info.id;
    AtHall(st, id);
    var current := CurrentRoom(st, id);
    if current.Found? {
      SetUserHalls(st, current.rid, id, st.rooms[current.rid].users[id].(name := msg.event.userName));
    }
  }

  lemma ShareHalls(st: State, auth: AuthMode, msg: Incoming, ch: Choice)
    requires Inv(st) && NoDangling(st) && msg.info.id in st.connected && msg.event.StartShare?
    requires GoodShare(st, msg.info.id, ch)
    ensures Settled(ExecuteShare(st, msg.info.id, ch), msg.info.id) ==
      NextHalls(Halls(st.rooms), RoomOf(st, msg.info.id), auth, msg, ch.ips.Some?, ch.randomName, false)
  {
    hide Halls, NotifyAll, GoodNotices, Inv, NoDangling, OpenAll, Enumerates;
    var id := msg.info.id;
    AtHall(st, id);
    var current := CurrentRoom(st, id);
    if current.Found? {
      var rid := current.rid;
      var user := st.rooms[rid].users[id].(streaming := true);
      var mid := SetUser(st, rid, id, user);
      SetUserHalls(st, rid, id, user);
      if ch.ips.Some? {
        EnumeratesSet(ch.partners, st.rooms[rid].users.Keys - {id});
        forall p | p in ch.partners ensures p in mid.rooms[rid].users { assert p in SetOf(ch.partners); }
        HallsOpen(mid, rid, id, true, ch.partners, ch.ips.value);
      } else {
        ShareUndone(Halls(st.rooms), rid, id, user);
      }
    }
  }

  /** What becomes of a user's own entry does not matter once the user goes. */
  lemma ShareUndone(halls: map<string, Hall>, rid: string, id: Id, user: User)
    requires Inside(halls, rid, id) && user.owner == halls[rid].users[id].owner
    ensures Departed(WithEntry(halls, rid, id, user), rid, id) == Departed(halls, rid, id)
  {
    var users := halls[rid].users;
    assert users[id := user] - {id} == users - {id};
    assert halls[rid := halls[rid].(users := users[id := user])] - {rid} == halls - {rid};
  }

  lemma StopHalls(st: State, auth: AuthMode, msg: Incoming, ch: Choice)
    requires Inv(st) && NoDangling(st) && msg.info.id in st.connected && msg.event.StopShare?
    requires GoodStop(st, msg.info.id, ch)
    ensures Settled(ExecuteStop(st, msg.info.id, ch), msg.info.id) ==
      NextHalls(Halls(st.rooms), RoomOf(st, msg.info.id), auth, msg, ch.ips.Some?, ch.randomName, false)
  {
    hide Halls, NotifyAll, GoodNotices, Inv, NoDangling, EndAll, Enumerates;
    var id := msg.info.id;
    AtHall(st, id);
    var current := CurrentRoom(st, id);
    if current.Found? {
      var rid := current.rid;
      var user := st.rooms[rid].users[id].(streaming := false);
      var mid := SetUser(st, rid, id, user);
      SetUserHalls(st, rid, id, user);
      EnumeratesSet(ch.ending, HostedBy(st.rooms[rid].sessions, id));
      forall s | s in ch.ending ensures s in mid.rooms[rid].sessions { assert s in SetOf(ch.ending); }
      HallsEnd(mid, rid, id, ch.ending);
    }
  }

  lemma RelayHalls(st: State, auth: AuthMode, msg: Incoming, ch: Choice)
    requires Inv(st) && msg.info.id in st.connected && msg.event.Relay?
    ensures Settled(ExecuteRelay(st, msg.info.id, msg.event.kind, msg.event.sid, msg.event.value), msg.info.id) ==
      NextHalls(Halls(st.rooms), RoomOf(st, msg.info.id), auth, msg, ch.ips.Some?, ch.randomName, Denied(st, msg))
  {
    hide Halls, Inv;
    AtHall(st, msg.info.id);
  }

  lemma JoinHandledHalls(st: State, auth: AuthMode, msg: Incoming, ch: Choice)
    requires Inv(st) && msg.info.id in st.connected && msg.event.Join?
    requires GoodJoin(st, msg.info, msg.event.id, msg.event.userName, ch)
    ensures Settled(ExecuteJoin(st, msg.info, msg.event.id, msg.event.userName, ch), msg.info.id) ==
      NextHalls(Halls(st.rooms), RoomOf(st, msg.info.id), auth, msg, ch.ips.Some?, ch.randomName, false)
  {
    hide Halls, Inv, Departed, WithEntry, NotifyAll, OpenAll, GoodNotices, Enumerates, DisplayName, NameFor;
    NameForWhom(msg.info, msg.event.userName, ch.randomName);
    var rid := msg.event.id;
    HallAt(st.rooms, rid);
    NobodyDeparts(Halls(st.rooms), msg.info.id);
    if RoomOf(st, msg.info.id) == "" && rid in st.rooms {
      JoinHalls(st, msg.info, rid, msg.event.userName, ch,
                User(msg.info.id, msg.info.addr,
                     DisplayName(msg.info, msg.event.userName, ch.randomName), false, false));
    }
  }

  lemma AddRoomHalls(st: State, room: RoomData, owner: User)
    ensures Halls(AddRoom(st, room, owner).rooms) ==
      Halls(st.rooms)[room.id := Hall(room.closeOnOwnerLeave, room.mode, map[owner.id := owner])]
  {
    hide Halls;
    HallsChange(st.rooms, room.id, AddRoom(st, room, owner).rooms[room.id]);
  }

  lemma CreateHalls(st: State, auth: AuthMode, msg: Incoming, ch: Choice)
    requires Inv(st) && msg.info.id in st.connected && msg.event.Create?
    requires GoodCreate(st, msg.info, auth, msg.event, ch)
    ensures Settled(ExecuteCreate(st, msg.info, auth, msg.event, ch), msg.info.id) ==
      NextHalls(Halls(st.rooms), RoomOf(st, msg.info.id), auth, msg, ch.ips.Some?, ch.randomName, false)
  {
    hide Halls, Inv, Departed, WithEntry, NotifyAll, GoodNotices, ExecuteJoin, GoodJoin, AddRoom;
    hide CreateRefused, Admits, DisplayName, NameFor;
    AdmitsWhom(auth, msg.info, msg.event.mode);
    NameForWhom(msg.info, msg.event.userName, ch.randomName);
    var e, id := msg.event, msg.info.id;
    HallAt(st.rooms, e.id);
    NobodyDeparts(Halls(st.rooms), id);
    var name := DisplayName(msg.info, e.userName, ch.randomName);
    if RoomOf(st, id) == "" {
      if e.id in st.rooms {
        if e.joinIfExist { JoinHalls(st, msg.info, e.id, e.userName, ch, User(id, msg.info.addr, name, false, false)); }
      } else {
        AddRoomHalls(
          st, RoomData(e.id, e.closeOnOwnerLeave, e.mode, map[], map[]), User(id, msg.info.addr, name, false, true));
      }
    }
  }

  /** Every turn of the loop does to the halls what NextHalls says, whatever the iteration orders were. */
  lemma StepHalls(st: State, auth: AuthMode, msg: Incoming, ch: Choice)
    requires Inv(st) && NoDangling(st) && Allowed(st, msg) && GoodChoice(st, auth, msg, ch) && !Ignored(st, msg)
    ensures Halls(Step(st, auth, msg, ch).rooms) ==
      NextHalls(Halls(st.rooms), RoomOf(st, msg.info.id), auth, msg, ch.ips.Some?, ch.randomName, Denied(st, msg))
  {
    hide Halls, Inv, NoDangling, Departed, WithEntry, Consistent, AlmostInv, Evolves, KeepsLive, GoodCreate, GoodJoin;
    hide GoodName, GoodShare, GoodStop, GoodLeave, Leave, ExecuteCreate, ExecuteJoin, ExecuteName, ExecuteShare;
    hide ExecuteStop, ExecuteRelay;
    var id := msg.info.id;
    InvConsistent(st);
    match msg.event {
      case Connected =>
      case Disconnected(code, reason) => LeaveHalls(st, id, code, reason, ch.leave);
      case _ =>
        EventHalls(st, auth, msg, ch);
        ExecuteHandled(st, auth, msg, ch);
        var outcome := Execute(st, auth, msg, ch);
        if outcome.Failed? {
          AlmostConsistent(outcome.st, id);
          LeaveHalls(outcome.st, id, NORMAL_CLOSURE, Because(outcome.error), ch.leave);
        }
    }
  }

  lemma AlmostConsistent(st: State, id: Id)
    requires AlmostInv(st, id)
    ensures Consistent(st, {}, "")
  {}

  lemma EventHalls(st: State, auth: AuthMode, msg: Incoming, ch: Choice)
    requires Inv(st) && NoDangling(st) && msg.info.id in st.connected && GoodExecute(st, auth, msg, ch)
    requires !msg.event.Connected? && !msg.event.Disconnected?
    ensures Settled(Execute(st, auth, msg, ch), msg.info.id) ==
      NextHalls(Halls(st.rooms), RoomOf(st, msg.info.id), auth, msg, ch.ips.Some?, ch.randomName, Denied(st, msg))
  {
    hide Inv, NoDangling, NextHalls, Settled, GoodCreate, GoodJoin, GoodName, GoodShare, GoodStop, ExecuteCreate;
    hide ExecuteJoin, ExecuteName, ExecuteShare, ExecuteStop, ExecuteRelay;
    match msg.event
    case Create(_, _, _, _, _) => CreateHalls(st, auth, msg, ch);
    case Join(_, _) => JoinHandledHalls(st, auth, msg, ch);
    case Name(_) => NameHalls(st, auth, msg, ch);
    case StartShare => ShareHalls(st, auth, msg, ch);
    case StopShare => StopHalls(st, auth, msg, ch);
    case Relay(_, _, _) => RelayHalls(st, auth, msg, ch);
  }

  /** The same for every message of every run; ignored ones change nothing. */
  lemma RunHalls(auth: AuthMode, rounds: seq<Round>, states: seq<State>, k: nat)
    requires Run(auth, rounds, states) && k < |rounds|
    ensures var st, msg, ch := states[k], rounds[k].msg, rounds[k].ch;
      Halls(states[k + 1].rooms) ==
        if Ignored(st, msg) then Halls(st.rooms)
        else
          NextHalls(Halls(st.rooms), RoomOf(st, msg.info.id), auth, msg, ch.ips.Some?, ch.randomName, Denied(st, msg))
  {
    hide Inv, NoDangling, Halls, NextHalls, GoodExecute, Execute, Denied;
    RunKeeps(auth, rounds, states, k);
    assert Follows(states[k], auth, rounds[k], states[k + 1]);
    if !Ignored(states[k], rounds[k].msg) { StepHalls(states[k], auth, rounds[k].msg, rounds[k].ch); }
  }
}
