/** Every event of the hub takes one state in order to another. */
module HubEvents {
  import opened Collections
  import opened HubModel
  import opened HubInvariants
  import opened HubAdditions
  import opened HubOpenings
  import opened HubLoops
  import opened HubBoundary

  /** What a handler guarantees: on success all is in order, on failure all but its own connection is. */
  ghost predicate Handled(st: State, outcome: Outcome, id: Id) {
    && Evolves(st, outcome.st)
    && (outcome.Done? ==> Inv(outcome.st) && Announced(st, outcome.st, id))
    && (outcome.Failed? ==> AlmostInv(outcome.st, id) && KeepsLive(st, outcome.st))
  }

  lemma NothingDone(st: State, id: Id, error: Error)
    requires Inv(st) && id in st.connected
    ensures Handled(st, Failed(st, error), id) && Handled(st, Done(st), id)
  {
    hide Consistent, Evolves, RoomOk;
    EvolvesReflexive(st);
    InvAlmost(st, id);
  }

  /** Where no session goes, there is nothing to announce. */
  lemma KeepsLiveSilent(a: State, b: State, id: Id)
    requires KeepsLive(a, b)
    ensures Announced(a, b, id)
  {
    hide Live;
  }

  // ---- Connecting ------------------------------------------------------------------------------------------

  lemma ConnectedHandled(st: State, id: Id)
    requires Inv(st) && id !in st.known
    ensures Handled(st, Done(ExecuteConnected(st, id)), id)
  {
    hide Consistent, Evolves, RoomOk, Live;
    ConnectedKeeps(st, id);
    KeepsLiveSilent(st, ExecuteConnected(st, id), id);
  }

  // ---- Relaying ----------------------------------------------------------------------------------------------

  lemma AllSame(a: State, b: State)
    requires Consistent(b, {}, "") && b.rooms == a.rooms && SameInfos(a.log, b.log)
    requires forall r :: r in a.rooms ==> RoomOk(Nameless(a.rooms), a.log, r, a.rooms[r])
    ensures Inv(b)
  {
    hide Consistent, Alive, Covered, SameInfos, Informed, Nameless;
    var nameless := Nameless(a.rooms);
    forall r | r in b.rooms ensures RoomOk(nameless, b.log, r, b.rooms[r]) {
      assert RoomOk(nameless, a.log, r, a.rooms[r]);
      if r != "" { InformedSame(nameless, nameless, a.log, b.log, r, a.rooms[r].users); }
    }
  }

  lemma RelayHandled(st: State, id: Id, kind: RelayKind, sid: Sid, value: string)
    requires Inv(st) && id in st.connected
    ensures Handled(st, ExecuteRelay(st, id, kind, sid, value), id)
  {
    hide Consistent, Evolves, RoomOk, Inv, Handled;
    var current, outcome := CurrentRoom(st, id), ExecuteRelay(st, id, kind, sid, value);
    if outcome.st == st {
      NothingDone(st, id, NotInRoom);
      if outcome.Failed? { NothingDone(st, id, outcome.error); }
    } else {
      var session := st.rooms[current.rid].sessions[sid];
      var to := if FromHost(kind) then session.client else session.host;
      RelaySent(st, id, current.rid, sid, to, Relayed(kind, sid, value));
    }
  }

  lemma RelaySent(st: State, id: Id, rid: string, sid: Sid, to: Id, msg: Message)
    requires Inv(st) && rid in st.rooms && sid in st.rooms[rid].sessions
    requires IsRelay(Sent(to, id, msg), sid, st.rooms[rid].sessions[sid])
    ensures Handled(st, Done(Send(st, to, id, msg)), id)
  {
    hide Consistent, Evolves, RoomOk, Live;
    RelayKeeps(st, rid, sid, to, id, msg);
    InfosAppend(st.log, Sent(to, id, msg));
    AllSame(st, Send(st, to, id, msg));
    KeepsLiveSilent(st, Send(st, to, id, msg), id);
  }

  // ---- Changing one's own entry ---------------------------------------------------------------------------------

  lemma WhereAmI(st: State, id: Id)
    requires Consistent(st, {}, "") && id in st.connected
    ensures var current := CurrentRoom(st, id);
      current.Found? ==>
        && current.rid == st.connected[id] && current.rid != ""
        && IsUser(st.rooms, current.rid, id) && st.rooms[current.rid].users[id].id == id
    ensures var current := CurrentRoom(st, id); current.Missing? ==> st.connected[id] == ""
  {
    ConnectedIsUser(st, id);
    var current := CurrentRoom(st, id);
    if current.Found? { assert KeyedRoom(current.rid, st.rooms[current.rid]); }
  }

  /** An entry is replaced by one of the same connection: all other rooms are as they were. */
  lemma SetUserOthers(st: State, rid: string, id: Id, user: User)
    requires Inv(st) && rid in st.rooms && rid != "" && id in st.rooms[rid].users && user.id == id
    requires user.addr == st.rooms[rid].users[id].addr
    requires user.owner == st.rooms[rid].users[id].owner
    ensures var r := SetUser(st, rid, id, user);
      && Consistent(r, {}, "") && Evolves(st, r) && OthersOk(r, rid) && KeepsLive(st, r)
      && Alive(r.rooms[rid]) && CoveredBut(r.rooms[rid], id)
  {
    hide Consistent, Evolves, Alive, Covered, CoveredBut, Informed, LastInfo, Live, KeepsLive, OthersOk;
    var r := SetUser(st, rid, id, user);
    SetUserKeeps(st, rid, id, user);
    InvCovered(st, rid);
    SetUserAlive(st.rooms[rid], r.rooms[rid], id, user);
    SetUserLive(st, rid, id, user);
    assert OthersOk(st, rid) by { AllButOne(st, rid); }
    OthersSame(st, r, rid);
  }

  lemma AllButOne(st: State, rid: string)
    requires Inv(st)
    ensures OthersOk(st, rid)
  {
    hide Consistent, RoomOk;
  }

  lemma SetUserLive(st: State, rid: string, id: Id, user: User)
    requires rid in st.rooms
    ensures KeepsLive(st, SetUser(st, rid, id, user))
  {}

  lemma SetUserAlive(room: RoomData, room': RoomData, id: Id, user: User)
    requires Alive(room) && Covered(room) && id in room.users && room' == room.(users := room.users[id := user])
    requires user.owner == room.users[id].owner
    ensures Alive(room') && CoveredBut(room', id)
    ensures user.streaming == room.users[id].streaming ==> Covered(room')
  {
    assert id in room'.users;
    if room.closeOnOwnerLeave {
      var c :| c in room.users && room.users[c].owner;
      assert c in room'.users && room'.users[c].owner;
    }
  }

  lemma NameHandled(st: State, id: Id, userName: string, ch: Choice)
    requires Inv(st) && id in st.connected && NoDangling(st) && GoodName(st, id, userName, ch)
    ensures Handled(st, ExecuteName(st, id, userName, ch), id)
  {
    hide Consistent, Evolves, RoomOk, GoodNotices, NotifyAll, Alive, Covered, CoveredBut, Live, OthersOk;
    var current := CurrentRoom(st, id);
    WhereAmI(st, id);
    if current.Missing? {
      NothingDone(st, id, current.error);
    } else {
      var rid := current.rid;
      var user := st.rooms[rid].users[id].(name := userName);
      var mid := SetUser(st, rid, id, user);
      SetUserOthers(st, rid, id, user);
      SetUserCovered(st, rid, id, user);
      Completed(mid, rid, id, ch.notices);
      var r := NotifyAll(mid, rid, id, ch.notices);
      EvolvesTransitive(st, mid, r);
      KeepsLiveSilent(st, r, id);
    }
  }

  lemma SetUserCovered(st: State, rid: string, id: Id, user: User)
    requires Inv(st) && rid in st.rooms && rid != "" && id in st.rooms[rid].users
    requires user.owner == st.rooms[rid].users[id].owner
    requires user.streaming == st.rooms[rid].users[id].streaming
    ensures Covered(SetUser(st, rid, id, user).rooms[rid])
  {
    hide Consistent, Informed, Inv;
    InvCovered(st, rid);
    SetUserAlive(st.rooms[rid], SetUser(st, rid, id, user).rooms[rid], id, user);
  }

  // ---- Sharing -------------------------------------------------------------------------------------------------

  /** A session to everyone else is what a new streamer lacks; sharing again only repeats pairs. */
  lemma ShareCovered(room: RoomData, id: Id, user: User, partners: seq<Id>, after: RoomData)
    requires Covered(room) && user.streaming && id in room.users && SetOf(partners) == room.users.Keys - {id}
    requires after.users == room.users[id := user]
    requires after.sessions.Values == room.sessions.Values + OpenedPairs(id, true, partners)
    ensures Covered(after)
  {
    forall h, c ensures Session(h, c) in after.sessions.Values <==> Shares(after.users, h, c) {
      assert Session(h, c) in room.sessions.Values <==> Shares(room.users, h, c);
      assert Session(h, c) in OpenedPairs(id, true, partners) <==> h == id && c in SetOf(partners) by {
        if h == id && c in SetOf(partners) { assert c in partners && Session(h, c) == Opened(id, true, c); }
      }
    }
  }

  lemma EnumeratesSet<T(!new)>(order: seq<T>, keys: set<T>)
    requires Enumerates(order, keys)
    ensures SetOf(order) == keys && forall i, j :: 0 <= i < j < |order| ==> order[i] != order[j]
  {}

  /** Opening sessions in a room leaves the other rooms alone and ends nothing. */
  lemma OpenAllOthers(st: State, rid: string, id: Id, hosting: bool, partners: seq<Id>, ips: Ips)
    requires Consistent(st, {}, "") && rid in st.rooms && id in st.rooms[rid].users && OthersOk(st, rid)
    requires forall p :: p in partners ==> p in st.rooms[rid].users && p != id
    requires rid == "" ==> partners == []
    ensures var r := OpenAll(st, rid, id, hosting, partners, ips);
      && Consistent(r, {}, "") && Evolves(st, r) && OnlyOpens(st, r, rid) && OthersOk(r, rid) && KeepsLive(st, r)
      && r.rooms[rid].sessions.Values == st.rooms[rid].sessions.Values + OpenedPairs(id, hosting, partners)
  {
    hide Consistent, RoomOk, OpenAll, SameInfos;
    OpenAllKeeps(st, rid, id, hosting, partners, ips);
    OpenAllPairs(st, rid, id, hosting, partners, ips);
    var r := OpenAll(st, rid, id, hosting, partners, ips);
    OthersSame(st, r, rid);
  }

  lemma ShareHandled(st: State, id: Id, ch: Choice)
    requires Inv(st) && id in st.connected && NoDangling(st) && GoodShare(st, id, ch)
    ensures Handled(st, ExecuteShare(st, id, ch), id)
  {
    hide Consistent, Evolves, RoomOk, GoodNotices, NotifyAll, Alive, Covered, CoveredBut, Live, OthersOk, OpenAll;
    hide KeepsLive, Enumerates, Announced, Inv, CurrentRoom, NoDangling;
    var current := CurrentRoom(st, id);
    WhereAmI(st, id) by { assert Consistent(st, {}, "") by { InvConsistent(st); } }
    if current.Missing? {
      NothingDone(st, id, current.error);
    } else {
      var rid := current.rid;
      var user := st.rooms[rid].users[id].(streaming := true);
      var mid := SetUser(st, rid, id, user);
      SetUserOthers(st, rid, id, user);
      if ch.ips.Some? {
        InvCovered(st, rid);
        EnumeratesSet(ch.partners, st.rooms[rid].users.Keys - {id});
        ShareDone(st, mid, rid, id, user, ch);
      }
    }
  }

  lemma InvConsistent(st: State)
    requires Inv(st)
    ensures Consistent(st, {}, "") && forall r :: r in st.rooms ==> RoomOk(Nameless(st.rooms), st.log, r, st.rooms[r])
  {}

  lemma InvCovered(st: State, rid: string)
    requires Inv(st) && rid in st.rooms && rid != ""
    ensures Covered(st.rooms[rid]) && Alive(st.rooms[rid])
  {
    hide Consistent, Alive, Covered, Informed;
    assert RoomOk(Nameless(st.rooms), st.log, rid, st.rooms[rid]);
  }

  lemma ShareDone(st: State, mid: State, rid: string, id: Id, user: User, ch: Choice)
    requires rid in st.rooms && Covered(st.rooms[rid]) && Consistent(mid, {}, "") && rid in mid.rooms && rid != ""
    requires Alive(mid.rooms[rid]) && OthersOk(mid, rid)
    requires user.streaming && id in st.rooms[rid].users
    requires mid.rooms[rid] == st.rooms[rid].(users := st.rooms[rid].users[id := user])
    requires SetOf(ch.partners) == st.rooms[rid].users.Keys - {id} && ch.ips.Some?
    requires GoodNotices(mid.rooms[rid].users, ch.notices)
    requires Evolves(st, mid) && KeepsLive(st, mid)
    ensures forall p :: p in ch.partners ==> p in mid.rooms[rid].users
    ensures var r := NotifyAll(OpenAll(mid, rid, id, true, ch.partners, ch.ips.value), rid, id, ch.notices);
      Inv(r) && Evolves(st, r) && Announced(st, r, id)
  {
    hide Consistent, Evolves, Covered, Live, OthersOk, OpenAll, NotifyAll, KeepsLive, GoodNotices, Alive, Inv;
    hide SameInfos, Announced;
    forall p | p in ch.partners ensures p in mid.rooms[rid].users && p != id { assert p in SetOf(ch.partners); }
    OpenAllOthers(mid, rid, id, true, ch.partners, ch.ips.value);
    var after := OpenAll(mid, rid, id, true, ch.partners, ch.ips.value);
    ShareCovered(st.rooms[rid], id, user, ch.partners, after.rooms[rid]);
    AliveSame(mid.rooms[rid], after.rooms[rid]);
    Completed(after, rid, id, ch.notices);
    var r := NotifyAll(after, rid, id, ch.notices);
    EvolvesTransitive(st, mid, after);
    EvolvesTransitive(st, after, r);
    KeepsLiveTransitive(st, mid, after);
    KeepsLiveSent(st, after, r, id);
  }

  lemma AliveSame(a: RoomData, b: RoomData)
    requires Alive(a) && b == a.(sessions := b.sessions)
    ensures Alive(b)
  {}

  lemma KeepsLiveTransitive(a: State, b: State, c: State)
    requires KeepsLive(a, b) && KeepsLive(b, c)
    ensures KeepsLive(a, c)
  {}

  lemma KeepsLiveSent(a: State, b: State, c: State, id: Id)
    requires KeepsLive(a, b) && c == b.(log := c.log)
    ensures KeepsLive(a, c) && Announced(a, c, id)
  {
    hide Told;
  }

  // ---- No longer sharing --------------------------------------------------------------------------------------------

  lemma StopCovered(room: RoomData, id: Id, user: User, stopped: RoomData)
    requires Covered(room) && !user.streaming && id in room.users
    requires stopped.users == room.users[id := user] && stopped.sessions == room.sessions - HostedBy(room.sessions, id)
    ensures Covered(stopped)
  {
    forall h, c ensures Session(h, c) in stopped.sessions.Values <==> Shares(stopped.users, h, c) {
      assert Session(h, c) in room.sessions.Values <==> Shares(room.users, h, c);
      if Session(h, c) in room.sessions.Values && h != id {
        var s :| s in room.sessions && room.sessions[s] == Session(h, c);
        assert s in stopped.sessions && stopped.sessions[s] == Session(h, c);
      }
    }
  }

  /** What EndAll ends is announced. */
  lemma EndedAnnounced(a: State, b: State, rid: string, sids: seq<Sid>, id: Id)
    requires OnlyCloses(a, b, rid, SetOf(sids)) && CanEnd(a, rid, id, sids)
    requires forall s :: Live(a.rooms, a.history, s) && a.history[s].room == rid ==>
      a.history[s].session == a.rooms[rid].sessions[s]
    requires forall s :: s in sids ==> Told(b.log, |a.log|, Other(a.rooms[rid].sessions[s], id), EndShare(s))
    ensures Announced(a, b, id)
  {
    hide Told, SameInfos;
    forall s | Live(a.rooms, a.history, s) && !Live(b.rooms, b.history, s)
      ensures KnowsEnd(b.log, |a.log|, a.history[s].session.host, s, id)
      ensures KnowsEnd(b.log, |a.log|, a.history[s].session.client, s, id)
    {
      assert a.history[s].room == rid && s in SetOf(sids);
    }
  }

  lemma RememberedSessions(st: State, out: set<Id>, where: string, rid: string)
    requires Consistent(st, out, where) && rid in st.rooms
    ensures forall s :: Live(st.rooms, st.history, s) && st.history[s].room == rid ==>
      st.history[s].session == st.rooms[rid].sessions[s]
    ensures forall s :: s in st.rooms[rid].sessions ==> Live(st.rooms, st.history, s)
  {
    hide Keyed, Members, Credentials, Counted, Quiet, Dismissed, Traces;
    assert SessionsIn(rid, st.rooms[rid], st.history);
  }

  lemma AnnouncedSent(a: State, b: State, c: State, id: Id)
    requires Announced(a, b, id) && c == b.(log := c.log) && b.log <= c.log
    ensures Announced(a, c, id)
  {
    hide Live, Told;
    forall s | Live(a.rooms, a.history, s) && !Live(c.rooms, c.history, s)
      ensures s in a.history && KnowsEnd(c.log, |a.log|, a.history[s].session.host, s, id)
      ensures KnowsEnd(c.log, |a.log|, a.history[s].session.client, s, id)
    {
      LiveKnown(a, s);
      KnowsEndLater(b.log, c.log, |a.log|, a.history[s].session.host, s, id);
      KnowsEndLater(b.log, c.log, |a.log|, a.history[s].session.client, s, id);
    }
  }

  lemma LiveKnown(a: State, s: Sid)
    requires Live(a.rooms, a.history, s)
    ensures s in a.history
  {}

  lemma KnowsEndLater(log: seq<Sent>, later: seq<Sent>, since: nat, c: Id, sid: Sid, actor: Id)
    requires KnowsEnd(log, since, c, sid, actor) && log <= later
    ensures KnowsEnd(later, since, c, sid, actor)
  {
    if Told(log, since, c, EndShare(sid)) { ToldLater(log, later, since, c, EndShare(sid)); }
    if Told(log, since, c, OWNER_LEFT) { ToldLater(log, later, since, c, OWNER_LEFT); }
  }

  lemma CanStop(st: State, rid: string, id: Id, sids: seq<Sid>)
    requires Consistent(st, {}, "") && rid in st.rooms && Enumerates(sids, HostedBy(st.rooms[rid].sessions, id))
    ensures CanEnd(st, rid, id, sids) && SetOf(sids) == HostedBy(st.rooms[rid].sessions, id)
  {
    hide Consistent;
    forall s | s in sids ensures s in st.rooms[rid].sessions && HeardBy(st, st.rooms[rid].sessions[s], id) {
      assert s in HostedBy(st.rooms[rid].sessions, id);
      SessionFacts(st, rid, s);
    }
  }

  lemma StopHandled(st: State, id: Id, ch: Choice)
    requires Inv(st) && id in st.connected && NoDangling(st) && GoodStop(st, id, ch)
    ensures Handled(st, ExecuteStop(st, id, ch), id)
  {
    hide Consistent, Evolves, RoomOk, GoodNotices, NotifyAll, Alive, Covered, CoveredBut, Live, OthersOk, EndAll;
    hide KeepsLive, Enumerates, Announced, Inv, CurrentRoom, NoDangling, CanEnd, OnlyCloses;
    var current := CurrentRoom(st, id);
    WhereAmI(st, id) by { assert Consistent(st, {}, "") by { InvConsistent(st); } }
    if current.Missing? {
      NothingDone(st, id, current.error);
    } else {
      var rid := current.rid;
      var user := st.rooms[rid].users[id].(streaming := false);
      var mid := SetUser(st, rid, id, user);
      SetUserOthers(st, rid, id, user);
      InvCovered(st, rid);
      CanStop(mid, rid, id, ch.ending);
      StopDone(st, mid, rid, id, user, ch);
    }
  }

  lemma StopDone(st: State, mid: State, rid: string, id: Id, user: User, ch: Choice)
    requires rid in st.rooms && Covered(st.rooms[rid]) && Consistent(mid, {}, "") && rid in mid.rooms
    requires Alive(mid.rooms[rid]) && OthersOk(mid, rid)
    requires !user.streaming && id in st.rooms[rid].users
    requires mid.rooms[rid] == st.rooms[rid].(users := st.rooms[rid].users[id := user])
    requires CanEnd(mid, rid, id, ch.ending) && SetOf(ch.ending) == HostedBy(mid.rooms[rid].sessions, id)
    requires GoodNotices(mid.rooms[rid].users, ch.notices) && Evolves(st, mid) && KeepsLive(st, mid)
    ensures var r := NotifyAll(EndAll(mid, rid, id, ch.ending), rid, id, ch.notices);
      Inv(r) && Evolves(st, r) && Announced(st, r, id)
  {
    hide Consistent, Evolves, Covered, Live, EndAll, NotifyAll, KeepsLive, GoodNotices, Alive, Inv, SameInfos;
    hide Announced, HeardBy, Told, RoomOk;
    EndAllKeeps(mid, {}, "", rid, id, ch.ending);
    EndAllTells(mid, {}, "", rid, id, ch.ending);
    var ended := EndAll(mid, rid, id, ch.ending);
    RememberedSessions(mid, {}, "", rid);
    EndedAnnounced(mid, ended, rid, ch.ending, id);
    OthersSame(mid, ended, rid);
    hide OthersOk;
    StopCovered(st.rooms[rid], id, user, ended.rooms[rid]);
    AliveSame(mid.rooms[rid], ended.rooms[rid]);
    Completed(ended, rid, id, ch.notices);
    var r := NotifyAll(ended, rid, id, ch.notices);
    EvolvesTransitive(mid, ended, r);
    EvolvesTransitive(st, mid, r);
    LogGrows(st, mid);
    LogGrows(ended, r);
    AnnouncedSent(mid, ended, r, id);
    KeepsLiveAnnounces(st, mid, r, id);
  }

  lemma LogGrows(a: State, b: State)
    requires Evolves(a, b)
    ensures a.log <= b.log
  {}
}
