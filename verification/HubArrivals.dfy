/** Joining and creating rooms take one state in order to another. */
module HubArrivals {
  import opened Collections
  import opened HubModel
  import opened HubInvariants
  import opened HubAdditions
  import opened HubOpenings
  import opened HubLoops
  import opened HubBoundary
  import opened HubEvents

  // ---- Joining --------------------------------------------------------------------------------------------

  lemma JoinedAlive(room: RoomData, joined: RoomData, user: User)
    requires Alive(room) && Covered(room) && user.id !in room.users && !user.owner
    requires joined == room.(users := room.users[user.id := user])
    ensures Alive(joined) && CoveredBut(joined, user.id)
  {
    assert user.id in joined.users;
    if room.closeOnOwnerLeave {
      var c :| c in room.users && room.users[c].owner;
      assert c in joined.users && joined.users[c].owner;
    }
  }

  /** A session from everyone who streams is what a new member lacks. */
  lemma JoinCovered(room: RoomData, user: User, partners: seq<Id>, after: RoomData)
    requires Covered(room) && user.id !in room.users && !user.streaming
    requires after.users == room.users[user.id := user] && SetOf(partners) == StreamersBut(after.users, user.id)
    requires after.sessions.Values == room.sessions.Values + OpenedPairs(user.id, false, partners)
    ensures Covered(after)
  {
    forall h, c ensures Session(h, c) in after.sessions.Values <==> Shares(after.users, h, c) {
      assert Session(h, c) in room.sessions.Values <==> Shares(room.users, h, c);
      assert Session(h, c) in OpenedPairs(user.id, false, partners) <==> c == user.id && h in SetOf(partners) by {
        if c == user.id && h in SetOf(partners) { assert h in partners && Session(h, c) == Opened(user.id, false, h); }
      }
    }
  }

  lemma AddUserOthers(st: State, rid: string, user: User)
    requires Inv(st) && rid in st.rooms && user.id in st.connected && st.connected[user.id] == ""
    requires !user.owner && !user.streaming
    ensures var r := AddUser(st, rid, user);
      && Consistent(r, {}, "") && Evolves(st, r) && OthersOk(r, rid) && KeepsLive(st, r)
      && (rid != "" ==> Alive(r.rooms[rid]) && CoveredBut(r.rooms[rid], user.id))
      && (rid != "" ==> user.id !in st.rooms[rid].users && Covered(st.rooms[rid]))
  {
    hide Evolves, Alive, Covered, CoveredBut, Informed, LastInfo, Live, KeepsLive, OthersOk, Traces, Credentials;
    hide Counted, Quiet, Dismissed, Endpoints, Members, Keyed;
    var r := AddUser(st, rid, user);
    AddUserKeeps(st, rid, user);
    InNoRoom(st.rooms, st.connected, st.known, user.id);
    if rid != "" {
      InvCovered(st, rid);
      JoinedAlive(st.rooms[rid], r.rooms[rid], user);
    }
    AddUserLive(st, rid, user);
    AllButOne(st, rid);
    OthersSame(st, r, rid);
  }

  lemma AddUserLive(st: State, rid: string, user: User)
    requires rid in st.rooms
    ensures KeepsLive(st, AddUser(st, rid, user))
  {}

  lemma OthersInformed(a: State, b: State, rid: string)
    requires OthersOk(a, rid) && b == a.(log := b.log)
    requires var nameless := Nameless(a.rooms);
      forall o :: o in a.rooms && o != rid && o != "" && Informed(nameless, a.log, o, a.rooms[o].users) ==>
        Informed(nameless, b.log, o, a.rooms[o].users)
    ensures OthersOk(b, rid)
  {
    hide Alive, Covered, Informed, Nameless;
    forall o | o in b.rooms && o != rid ensures RoomOk(Nameless(b.rooms), b.log, o, b.rooms[o]) {
      assert RoomOk(Nameless(a.rooms), a.log, o, a.rooms[o]);
    }
  }

  /** The new member is in, and everyone knows; the sessions are still to come. */
  lemma Welcomed(st: State, info: ClientInfo, rid: string, user: User, notices: seq<Notice>)
    requires Inv(st) && rid in st.rooms && user.id == info.id && info.id in st.connected && st.connected[info.id] == ""
    requires !user.owner && !user.streaming && GoodNotices(st.rooms[rid].users[user.id := user], notices)
    ensures var joined := NotifyAll(AddUser(st, rid, user), rid, info.id, notices);
      && Consistent(joined, {}, "") && Evolves(st, joined) && OthersOk(joined, rid) && KeepsLive(st, joined)
      && (rid != "" ==> Alive(joined.rooms[rid]) && CoveredBut(joined.rooms[rid], user.id))
      && Informed(Nameless(joined.rooms), joined.log, rid, joined.rooms[rid].users)
  {
    hide Consistent, Evolves, GoodNotices, NotifyAll, Alive, Covered, CoveredBut, Live;
    hide OthersOk, KeepsLive, Inv, Informed;
    hide Announced, Nameless;
    var added := AddUser(st, rid, user);
    AddUserOthers(st, rid, user);
    Notified(added, rid, info.id, notices);
    var joined := NotifyAll(added, rid, info.id, notices);
    OthersInformed(added, joined, rid);
    EvolvesTransitive(st, added, joined);
    KeepsLiveSent(st, added, joined, info.id);
  }

  lemma JoinHandled(st: State, info: ClientInfo, rid: string, userName: string, ch: Choice)
    requires Inv(st) && info.id in st.connected && GoodJoin(st, info, rid, userName, ch)
    ensures Handled(st, ExecuteJoin(st, info, rid, userName, ch), info.id)
  {
    hide Consistent, Evolves, RoomOk, GoodNotices, NotifyAll, Alive, Covered, CoveredBut, Live, OthersOk, OpenAll;
    hide KeepsLive, Enumerates, Announced, Inv, Informed, Nameless;
    if RoomOf(st, info.id) != "" {
      NothingDone(st, info.id, AlreadyInRoom);
    } else if rid !in st.rooms {
      NothingDone(st, info.id, NoSuchRoom(rid));
    } else {
      var user := User(info.id, info.addr, DisplayName(info, userName, ch.randomName), false, false);
      var joined := NotifyAll(AddUser(st, rid, user), rid, info.id, ch.notices);
      Welcomed(st, info, rid, user, ch.notices);
      if ch.ips.Some? {
        EnumeratesSet(ch.partners, StreamersBut(joined.rooms[rid].users, info.id));
        if rid == "" {
          JoinNameless(st, joined, user, ch);
        } else {
          AddUserOthers(st, rid, user);
          JoinDone(st, joined, rid, user, ch);
        }
      }
    }
  }

  /** In a room without a name nobody streams, so there is no session to open. */
  lemma JoinNameless(st: State, joined: State, user: User, ch: Choice)
    requires Consistent(joined, {}, "") && OthersOk(joined, "") && "" in joined.rooms && ch.ips.Some?
    requires SetOf(ch.partners) == StreamersBut(joined.rooms[""].users, user.id) && user.id in joined.rooms[""].users
    requires Evolves(st, joined) && KeepsLive(st, joined)
    ensures ch.partners == []
    ensures var r := OpenAll(joined, "", user.id, false, ch.partners, ch.ips.value);
      Inv(r) && Evolves(st, r) && Announced(st, r, user.id)
  {
    assert KeyedRoom("", joined.rooms[""]);
    assert StreamersBut(joined.rooms[""].users, user.id) == {};
    SetOfNone(ch.partners);
    hide Consistent, Evolves, KeepsLive, Announced;
    KeepsLiveSilent(st, joined, user.id);
  }

  lemma JoinDone(st: State, joined: State, rid: string, user: User, ch: Choice)
    requires rid in st.rooms && rid != "" && Covered(st.rooms[rid])
    requires user.id !in st.rooms[rid].users && !user.streaming
    requires Consistent(joined, {}, "") && OthersOk(joined, rid) && rid in joined.rooms && Alive(joined.rooms[rid])
    requires Informed(Nameless(joined.rooms), joined.log, rid, joined.rooms[rid].users)
    requires joined.rooms[rid] == st.rooms[rid].(users := st.rooms[rid].users[user.id := user])
    requires ch.ips.Some? && SetOf(ch.partners) == StreamersBut(joined.rooms[rid].users, user.id)
    requires Evolves(st, joined) && KeepsLive(st, joined)
    ensures forall p :: p in ch.partners ==> p in joined.rooms[rid].users
    ensures var r := OpenAll(joined, rid, user.id, false, ch.partners, ch.ips.value);
      Inv(r) && Evolves(st, r) && Announced(st, r, user.id)
  {
    hide Consistent, Evolves, Covered, Live, OpenAll, KeepsLive, Alive, SameInfos, Announced, Informed, OthersOk;
    hide Nameless;
    forall p | p in ch.partners ensures p in joined.rooms[rid].users && p != user.id { assert p in SetOf(ch.partners); }
    OpenAllOthers(joined, rid, user.id, false, ch.partners, ch.ips.value);
    var r := OpenAll(joined, rid, user.id, false, ch.partners, ch.ips.value);
    JoinCovered(st.rooms[rid], user, ch.partners, r.rooms[rid]);
    AliveSame(joined.rooms[rid], r.rooms[rid]);
    var nameless := Nameless(joined.rooms);
    SameNameless(joined.rooms, r.rooms, rid);
    InformedSame(nameless, nameless, joined.log, r.log, rid, joined.rooms[rid].users);
    EvolvesTransitive(st, joined, r);
    KeepsLiveTransitive(st, joined, r);
    KeepsLiveSilent(st, r, user.id);
    AllOk(r, rid);
  }

  lemma SameNameless(a: RoomMap, b: RoomMap, rid: string)
    requires rid in a && rid in b && b == a[rid := b[rid]] && (rid == "" ==> b[rid].users == a[rid].users)
    ensures Nameless(b) == Nameless(a)
  {}

  lemma AllOk(st: State, rid: string)
    requires Consistent(st, {}, "") && OthersOk(st, rid)
    requires rid in st.rooms && rid != "" ==> RoomOk(Nameless(st.rooms), st.log, rid, st.rooms[rid])
    ensures Inv(st)
  {
    hide Consistent, Alive, Covered, Informed, Nameless;
  }

  // ---- Creating ------------------------------------------------------------------------------------------------

  lemma NewRoomOk(room: RoomData, owner: User)
    requires owner.owner && room.users == map[owner.id := owner] && room.sessions == map[]
    ensures Alive(room) && Covered(room)
  {
    assert owner.id in room.users && room.users[owner.id].owner;
  }

  lemma AddRoomOthers(st: State, room: RoomData, owner: User)
    requires Inv(st) && room.id !in st.rooms && owner.id in st.connected && st.connected[owner.id] == ""
    requires owner.owner && !owner.streaming
    ensures var r := AddRoom(st, room, owner);
      && Consistent(r, {}, "") && Evolves(st, r) && OthersOk(r, room.id) && KeepsLive(st, r)
      && Alive(r.rooms[room.id]) && Covered(r.rooms[room.id])
  {
    hide Evolves, Alive, Covered, Informed, LastInfo, Live, KeepsLive, OthersOk, Consistent;
    var r := AddRoom(st, room, owner);
    AddRoomKeeps(st, room, owner);
    NewRoomOk(r.rooms[room.id], owner);
    AddRoomLive(st, room, owner);
    AllButOne(st, room.id);
    OthersSame(st, r, room.id);
  }

  lemma AddRoomLive(st: State, room: RoomData, owner: User)
    requires room.id !in st.rooms
    ensures KeepsLive(st, AddRoom(st, room, owner))
  {}

  lemma CreationHandled(st: State, info: ClientInfo, room: RoomData, owner: User, notices: seq<Notice>)
    requires Inv(st) && room.id !in st.rooms && owner.id in st.connected && st.connected[owner.id] == ""
    requires owner.owner && !owner.streaming && owner.id == info.id
    requires GoodNotices(map[owner.id := owner], notices)
    ensures Handled(st, Done(NotifyAll(AddRoom(st, room, owner), room.id, info.id, notices)), info.id)
  {
    hide Consistent, Evolves, RoomOk, GoodNotices, NotifyAll, Alive, Covered, Live, OthersOk, KeepsLive, Announced, Inv;
    var added := AddRoom(st, room, owner);
    AddRoomOthers(st, room, owner);
    Completed(added, room.id, info.id, notices);
    var r := NotifyAll(added, room.id, info.id, notices);
    EvolvesTransitive(st, added, r);
    KeepsLiveSent(st, added, r, info.id);
  }

  lemma CreateHandled(st: State, info: ClientInfo, auth: AuthMode, e: Event, ch: Choice)
    requires Inv(st) && info.id in st.connected && e.Create? && GoodCreate(st, info, auth, e, ch)
    ensures Handled(st, ExecuteCreate(st, info, auth, e, ch), info.id)
  {
    hide Consistent, Evolves, RoomOk, GoodNotices, NotifyAll, Alive, Covered, Live, OthersOk, KeepsLive, Announced, Inv;
    hide GoodJoin, ExecuteJoin, Handled;
    if RoomOf(st, info.id) == "" && e.id in st.rooms && e.joinIfExist {
      JoinHandled(st, info, e.id, e.userName, ch);
    } else if RoomOf(st, info.id) == "" && e.id !in st.rooms && CreateRefused(auth, info, e.mode).None? {
      var owner := User(info.id, info.addr, DisplayName(info, e.userName, ch.randomName), false, true);
      var room := RoomData(e.id, e.closeOnOwnerLeave, e.mode, map[], map[]);
      CreationHandled(st, info, room, owner, ch.notices);
    } else {
      NothingDone(st, info.id, ExecuteCreate(st, info, auth, e, ch).error);
    }
  }
}
