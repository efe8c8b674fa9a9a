/** A connection that goes, also after a failed event, leaves a state in order. */
module HubDepartures {
  import opened Collections
  import opened HubModel
  import opened HubInvariants
  import opened HubChanges
  import opened HubAdditions
  import opened HubLoops
  import opened HubBoundary
  import opened HubEvents
  import opened HubArrivals

  /** A room without one of its users and their sessions. */
  function Rest(room: RoomData, id: Id): RoomData {
    room.(users := room.users - {id}, sessions := room.sessions - SessionsOf(room.sessions, id))
  }

  /** The connection is closed, its sessions are ended, and it is out of its room. */
  ghost predicate Left(st: State, r: State, id: Id, rid: string) {
    && rid in st.rooms && rid in r.rooms && rid != ""
    && Consistent(r, {}, "") && Evolves(st, r) && SameInfos(st.log, r.log)
    && r.rooms == st.rooms[rid := Rest(st.rooms[rid], id)]
    && r.connected == st.connected - {id} && r.history == st.history
    && forall s :: s in SessionsOf(st.rooms[rid].sessions, id) ==>
         Told(r.log, |st.log|, Other(st.rooms[rid].sessions[s], id), EndShare(s))
  }

  lemma CloseConnectionInfos(st: State, id: Id, code: int, reason: Reason)
    ensures SameInfos(st.log, CloseConnection(st, id, id, code, reason).log)
  {
    InfosAppend(st.log, Sent(id, id, CloseWriter(code, reason)));
  }

  lemma SameInfosTransitive(a: seq<Sent>, b: seq<Sent>, c: seq<Sent>)
    requires SameInfos(a, b) && SameInfos(b, c)
    ensures SameInfos(a, c)
  {}

  /** A closed connection is out; the other ends of its sessions can be told. */
  lemma CanLeave(closed: State, rid: string, id: Id, sids: seq<Sid>)
    requires Consistent(closed, {id}, rid) && rid in closed.rooms && rid != ""
    requires Enumerates(sids, SessionsOf(closed.rooms[rid].sessions, id))
    ensures CanEnd(closed, rid, id, sids) && SetOf(sids) == SessionsOf(closed.rooms[rid].sessions, id)
  {
    hide Keyed, Credentials, Counted, Quiet, Dismissed, Traces;
    assert SessionsIn(rid, closed.rooms[rid], closed.history);
    assert RegisteredIn(rid, closed.rooms[rid].users, closed.connected, closed.known, {id}, rid);
    forall s | s in sids ensures s in closed.rooms[rid].sessions && HeardBy(closed, closed.rooms[rid].sessions[s], id) {
      assert s in SessionsOf(closed.rooms[rid].sessions, id);
    }
  }

  lemma NoneLeft(sessions: map<Sid, Session>, id: Id)
    ensures SessionsOf(sessions - SessionsOf(sessions, id), id) == {}
  {}

  lemma TellsLater(a: seq<Sent>, b: seq<Sent>, log: seq<Sent>, to: Id, msg: Message)
    requires a <= b && Told(log, |b|, to, msg)
    ensures Told(log, |a|, to, msg)
  {}

  lemma LeaveStarts(st: State, id: Id, code: int, reason: Reason, rid: string, ending: seq<Sid>)
    requires Consistent(st, {}, "") && id in st.connected && st.connected[id] == rid && rid in st.rooms
    requires id in st.rooms[rid].users && rid != ""
    requires Enumerates(ending, SessionsOf(st.rooms[rid].sessions, id))
    ensures var closed := CloseConnection(st, id, id, code, reason);
      && (forall s :: s in ending ==> s in closed.rooms[rid].sessions)
      && (forall i, j :: 0 <= i < j < |ending| ==> ending[i] != ending[j])
      && Left(st, RemoveUser(EndAll(closed, rid, id, ending), rid, id), id, rid)
  {
    hide Consistent, Evolves, SameInfos, Told, RemoveUser, EndAll, HeardBy, Enumerates;
    var closed := CloseConnection(st, id, id, code, reason);
    CloseConnectionKeeps(st, {}, "", id, id, code, reason);
    CloseConnectionInfos(st, id, code, reason);
    assert {} + {id} == {id};
    CanLeave(closed, rid, id, ending);
    EndAllKeeps(closed, {id}, rid, rid, id, ending);
    EndAllTells(closed, {id}, rid, rid, id, ending);
    var ended := EndAll(closed, rid, id, ending);
    NoneLeft(st.rooms[rid].sessions, id);
    RemoveUserKeeps(ended, {id}, rid, rid, id);
    var left := RemoveUser(ended, rid, id);
    RemoveUserFields(ended, rid, id);
    assert {id} - {id} == {};
    NobodyOut(left, rid, "");
    EvolvesTransitive(st, closed, ended);
    EvolvesTransitive(st, ended, left);
    SameInfosTransitive(st.log, closed.log, ended.log);
    forall s | s in SessionsOf(st.rooms[rid].sessions, id)
      ensures Told(left.log, |st.log|, Other(st.rooms[rid].sessions[s], id), EndShare(s))
    {
      assert s in SetOf(ending);
      TellsLater(st.log, closed.log, left.log, Other(st.rooms[rid].sessions[s], id), EndShare(s));
    }
  }

  lemma RemoveUserFields(st: State, rid: string, id: Id)
    requires rid in st.rooms
    ensures var r := RemoveUser(st, rid, id);
      r == st.(rooms := st.rooms[rid := st.rooms[rid].(users := st.rooms[rid].users - {id})], counters := r.counters)
  {}

  // ---- Who is told -------------------------------------------------------------------------------------------

  /** The sessions of the users that stayed behind end with their connections. */
  ghost predicate RestTold(left: State, r: State, rid: string)
    requires rid in left.rooms
  {
    forall s :: s in left.rooms[rid].sessions && !(rid in r.rooms && s in r.rooms[rid].sessions) ==>
      && Told(r.log, |left.log|, left.rooms[rid].sessions[s].host, OWNER_LEFT)
      && Told(r.log, |left.log|, left.rooms[rid].sessions[s].client, OWNER_LEFT)
  }

  lemma EndedWithRoom(st: State, left: State, r: State, id: Id, rid: string, s: Sid)
    requires Left(st, left, id, rid) && left.log <= r.log && RestTold(left, r, rid) && st.log <= left.log
    requires s in st.rooms[rid].sessions && !(rid in r.rooms && s in r.rooms[rid].sessions)
    ensures var session := st.rooms[rid].sessions[s];
      KnowsEnd(r.log, |st.log|, session.host, s, id) && KnowsEnd(r.log, |st.log|, session.client, s, id)
  {
    hide Consistent, Evolves, SameInfos, Told;
    var session := st.rooms[rid].sessions[s];
    if s in SessionsOf(st.rooms[rid].sessions, id) {
      ToldLater(left.log, r.log, |st.log|, Other(session, id), EndShare(s));
    } else {
      assert s in left.rooms[rid].sessions && left.rooms[rid].sessions[s] == session;
      TellsLater(st.log, left.log, r.log, session.host, OWNER_LEFT);
      TellsLater(st.log, left.log, r.log, session.client, OWNER_LEFT);
    }
  }

  lemma OfThisRoom(st: State, left: State, r: State, id: Id, rid: string, s: Sid)
    requires rid in st.rooms && left.rooms == st.rooms[rid := Rest(st.rooms[rid], id)] && r.history == st.history
    requires forall o :: o in left.rooms && o != rid ==> o in r.rooms && r.rooms[o] == left.rooms[o]
    requires Live(st.rooms, st.history, s) && !Live(r.rooms, r.history, s)
    ensures st.history[s].room == rid && s in st.rooms[rid].sessions && !(rid in r.rooms && s in r.rooms[rid].sessions)
  {}

  /** Only sessions of the room can have ended; those of the leaving user were announced one by one. */
  lemma LeftAnnounced(st: State, left: State, r: State, id: Id, rid: string)
    requires Left(st, left, id, rid) && Consistent(st, {}, "") && left.log <= r.log && r.history == left.history
    requires RestTold(left, r, rid)
    requires forall o :: o in left.rooms && o != rid ==> o in r.rooms && r.rooms[o] == left.rooms[o]
    ensures Announced(st, r, id)
  {
    hide Consistent, Evolves, SameInfos, KnowsEnd, RestTold, Told;
    RememberedSessions(st, {}, "", rid);
    LogGrows(st, left);
    assert left.history == st.history && left.rooms == st.rooms[rid := Rest(st.rooms[rid], id)];
    hide Left;
    forall s | Live(st.rooms, st.history, s) && !Live(r.rooms, r.history, s)
      ensures KnowsEnd(r.log, |st.log|, st.history[s].session.host, s, id)
      ensures KnowsEnd(r.log, |st.log|, st.history[s].session.client, s, id)
    {
      OfThisRoom(st, left, r, id, rid, s);
      EndedWithRoom(st, left, r, id, rid, s);
    }
  }

  // ---- Some stay ----------------------------------------------------------------------------------------------

  lemma RestOk(room: RoomData, id: Id)
    requires Alive(room) && CoveredBut(room, id) && id in room.users && room.users - {id} != map[]
    requires !OwnerCloses(room, id)
    ensures Alive(Rest(room, id)) && Covered(Rest(room, id))
  {
    var rest := Rest(room, id);
    if room.closeOnOwnerLeave {
      var c :| c in room.users && room.users[c].owner;
      assert c in rest.users && rest.users[c].owner;
    }
    forall h, c ensures Session(h, c) in rest.sessions.Values <==> Shares(rest.users, h, c) {
      if Session(h, c) in room.sessions.Values && h != id && c != id {
        var s :| s in room.sessions && room.sessions[s] == Session(h, c);
        assert s in rest.sessions && rest.sessions[s] == Session(h, c);
      }
    }
  }

  lemma LeftOthers(st: State, left: State, id: Id, rid: string)
    requires Left(st, left, id, rid) && OthersOk(st, rid)
    ensures OthersOk(left, rid)
  {
    hide Consistent, Evolves, RoomOk, SameInfos, Told;
    OthersSame(st, left, rid);
  }

  lemma SomeStay(st: State, left: State, id: Id, rid: string, notices: seq<Notice>)
    requires Left(st, left, id, rid) && AlmostInv(st, id) && st.connected[id] == rid && id in st.rooms[rid].users
    requires st.rooms[rid].users - {id} != map[] && !OwnerCloses(st.rooms[rid], id)
    requires GoodNotices(st.rooms[rid].users - {id}, notices)
    ensures var r := NotifyAll(left, rid, id, notices); Inv(r) && Evolves(st, r) && Announced(st, r, id)
  {
    hide Consistent, Evolves, SameInfos, Told, GoodNotices, OthersOk, Alive, Covered, CoveredBut, NotifyAll, Announced;
    hide Inv;
    RestOk(st.rooms[rid], id);
    LeftOthers(st, left, id, rid);
    Completed(left, rid, id, notices);
    var r := NotifyAll(left, rid, id, notices);
    EvolvesTransitive(st, left, r);
    LogGrows(left, r);
    LeftAnnounced(st, left, r, id, rid);
  }

  // ---- The room goes -------------------------------------------------------------------------------------------

  /** A room whose users are all out is dropped once its sessions are closed. */
  lemma Emptied(kicked: State, rid: string, closing: seq<Sid>, out: set<Id>)
    requires Consistent(kicked, out, rid) && rid in kicked.rooms && rid != "" && out == kicked.rooms[rid].users.Keys
    requires Enumerates(closing, kicked.rooms[rid].sessions.Keys)
    ensures var r := DropRoom(CloseAll(kicked, rid, closing), rid);
      && Consistent(r, {}, "") && Evolves(kicked, r) && r.log == kicked.log && r.history == kicked.history
      && r.rooms == kicked.rooms - {rid} && r.connected == kicked.connected
  {
    hide Consistent, Evolves, SameInfos, CloseAll, Enumerates;
    EnumeratesSet(closing, kicked.rooms[rid].sessions.Keys);
    forall s | s in closing ensures s in kicked.rooms[rid].sessions { assert s in SetOf(closing); }
    CloseAllKeeps(kicked, out, rid, rid, closing);
    var closed := CloseAll(kicked, rid, closing);
    assert closed.rooms[rid].sessions == map[];
    DropRoomKeeps(closed, out, rid, rid);
    EvolvesTransitive(kicked, closed, DropRoom(closed, rid));
  }

  lemma Dropped(left: State, kicked: State, rid: string, closing: seq<Sid>, out: set<Id>)
    requires Consistent(kicked, out, rid) && Evolves(left, kicked) && SameInfos(left.log, kicked.log)
    requires OthersOk(left, rid) && rid != ""
    requires rid in left.rooms && kicked.rooms == left.rooms && kicked.history == left.history
    requires out == left.rooms[rid].users.Keys && Enumerates(closing, left.rooms[rid].sessions.Keys)
    ensures var r := DropRoom(CloseAll(kicked, rid, closing), rid);
      && Inv(r) && Evolves(left, r) && r.log == kicked.log && r.history == left.history
      && r.rooms == left.rooms - {rid} && r.connected == kicked.connected
  {
    hide Consistent, Evolves, SameInfos, Inv, OthersOk, CloseAll, Enumerates, DropRoom, RoomOk;
    Emptied(kicked, rid, closing, out);
    var r := DropRoom(CloseAll(kicked, rid, closing), rid);
    EvolvesTransitive(left, kicked, r);
    OthersSame(left, r, rid);
    AllOk(r, rid);
  }

  lemma RoomGone(st: State, left: State, kicked: State, id: Id, rid: string, closing: seq<Sid>, out: set<Id>)
    requires Left(st, left, id, rid) && AlmostInv(st, id) && st.connected[id] == rid
    requires Consistent(kicked, out, rid) && Evolves(left, kicked) && SameInfos(left.log, kicked.log)
    requires kicked.rooms == left.rooms && kicked.history == left.history
    requires out == left.rooms[rid].users.Keys && Enumerates(closing, left.rooms[rid].sessions.Keys)
    requires forall s :: s in left.rooms[rid].sessions ==>
      && Told(kicked.log, |left.log|, left.rooms[rid].sessions[s].host, OWNER_LEFT)
      && Told(kicked.log, |left.log|, left.rooms[rid].sessions[s].client, OWNER_LEFT)
    ensures var r := DropRoom(CloseAll(kicked, rid, closing), rid);
      && Inv(r) && Evolves(st, r) && Announced(st, r, id)
      && rid !in r.rooms && r.log == kicked.log && r.connected == kicked.connected
  {
    hide Consistent, Evolves, SameInfos, Told, Alive, CoveredBut, Announced, Inv, OthersOk, CloseAll, DropRoom;
    hide Enumerates;
    LeftOthers(st, left, id, rid);
    Dropped(left, kicked, rid, closing, out);
    var r := DropRoom(CloseAll(kicked, rid, closing), rid);
    EvolvesTransitive(st, left, r);
    LogGrows(left, r);
    LeftAnnounced(st, left, r, id, rid);
  }

  lemma StillThere(st: State, rid: string)
    requires Consistent(st, {}, "") && rid in st.rooms
    ensures forall s :: s in st.rooms[rid].sessions ==>
      st.rooms[rid].sessions[s].host in st.rooms[rid].users && st.rooms[rid].sessions[s].client in st.rooms[rid].users
  {
    hide Keyed, Members, Credentials, Counted, Quiet, Dismissed, Traces;
    assert SessionsIn(rid, st.rooms[rid], st.history);
  }

  /** Every member is told, and nothing is left of the room. */
  lemma OwnerGoes(st: State, left: State, id: Id, rid: string, members: seq<Id>, closing: seq<Sid>)
    requires Left(st, left, id, rid) && AlmostInv(st, id) && st.connected[id] == rid
    requires Enumerates(members, left.rooms[rid].users.Keys) && Enumerates(closing, left.rooms[rid].sessions.Keys)
    ensures var r := DropRoom(CloseAll(KickAll(left, id, members), rid, closing), rid);
      && Inv(r) && Evolves(st, r) && Announced(st, r, id) && rid !in r.rooms
      && forall c :: c in members ==> c !in r.connected && Told(r.log, |left.log|, c, OWNER_LEFT)
  {
    hide Consistent, Evolves, SameInfos, Told, AlmostInv, Announced, Inv, CloseAll, KickAll, DropRoom;
    UserIsConnected(left, rid);
    EnumeratesSet(members, left.rooms[rid].users.Keys);
    forall c | c in members ensures c in left.connected && left.connected[c] == rid { assert c in SetOf(members); }
    KickAllKeeps(left, rid, id, members);
    StillThere(left, rid);
    RoomGone(st, left, KickAll(left, id, members), id, rid, closing, SetOf(members));
  }

  lemma NobodyStays(st: State, left: State, id: Id, rid: string, closing: seq<Sid>)
    requires Left(st, left, id, rid) && AlmostInv(st, id) && st.connected[id] == rid
    requires left.rooms[rid].users == map[] && Enumerates(closing, left.rooms[rid].sessions.Keys)
    ensures var r := DropRoom(CloseAll(left, rid, closing), rid);
      Inv(r) && Evolves(st, r) && Announced(st, r, id) && rid !in r.rooms && r.log == left.log
  {
    hide Consistent, Evolves, AlmostInv, Announced, Inv, CloseAll, DropRoom, Told, LastInfo;
    EvolvesReflexive(left);
    NobodyOut(left, "", rid);
    StillThere(left, rid);
    RoomGone(st, left, left, id, rid, closing, {});
  }

  // ---- All together ----------------------------------------------------------------------------------------------

  lemma LeftNoRoom(st: State, id: Id, code: int, reason: Reason)
    requires AlmostInv(st, id) && st.connected[id] == ""
    ensures var r := CloseConnection(st, id, id, code, reason); Inv(r) && Evolves(st, r) && Announced(st, r, id)
  {
    hide Evolves, Alive, CoveredBut, RoomOk, SameInfos, OthersOk, Endpoints, Credentials, Counted, Traces, Quiet;
    hide Announced, Dismissed;
    var r := CloseConnection(st, id, id, code, reason);
    CloseConnectionKeeps(st, {}, "", id, id, code, reason);
    InNoRoom(st.rooms, st.connected, st.known, id);
    forall o | o in r.rooms ensures RegisteredIn(o, r.rooms[o].users, r.connected, r.known, {}, "") {
      assert RegisteredIn(o, r.rooms[o].users, r.connected, r.known, {id}, "");
    }
    CloseConnectionInfos(st, id, code, reason);
    OthersSame(st, r, "");
    AllOk(r, "");
    KeepsLiveSilent(st, r, id) by { assert KeepsLive(st, r); }
  }

  lemma LeaveHandled(st: State, id: Id, code: int, reason: Reason, lc: LeaveChoice)
    requires AlmostInv(st, id) && GoodLeave(st, id, lc)
    ensures var r := Leave(st, id, code, reason, lc); Inv(r) && Evolves(st, r) && Announced(st, r, id)
  {
    hide Consistent, Evolves, Alive, CoveredBut, OthersOk, Announced, Inv, GoodNotices, Enumerates, EndAll, RemoveUser;
    hide NotifyAll, CloseAll, KickAll, DropRoom, SameInfos, Told;
    var rid := RoomOf(st, id);
    ConnectedIsUser(st, id);
    if rid == "" {
      LeftNoRoom(st, id, code, reason);
    } else {
      var closed := CloseConnection(st, id, id, code, reason);
      var room := st.rooms[rid];
      LeaveStarts(st, id, code, reason, rid, lc.ending);
      var left := RemoveUser(EndAll(closed, rid, id, lc.ending), rid, id);
      assert left.rooms[rid].sessions.Keys == room.sessions.Keys - SessionsOf(room.sessions, id);
      if OwnerCloses(room, id) {
        OwnerGoes(st, left, id, rid, lc.members, lc.closing);
      } else if room.users - {id} == map[] {
        NobodyStays(st, left, id, rid, lc.closing);
      } else {
        SomeStay(st, left, id, rid, lc.notices);
      }
    }
  }
}
