/** What holds whenever the main loop waits for the next message. */
module HubBoundary {
  import opened Collections
  import opened HubModel
  import opened HubInvariants
  import opened HubLoops

  predicate OneOwner(users: map<Id, User>) {
    forall c, d :: c in users && d in users && users[c].owner && users[d].owner ==> c == d
  }

  predicate HasOwner(users: map<Id, User>) {
    exists c :: c in users && users[c].owner
  }

  /** A room has somebody in it, at most one owner, and its owner if it is to close with them. */
  predicate Alive(room: RoomData) {
    room.users != map[] && OneOwner(room.users) && (room.closeOnOwnerLeave ==> HasOwner(room.users))
  }

  predicate Shares(users: map<Id, User>, host: Id, client: Id) {
    host in users && client in users && host != client && users[host].streaming
  }

  /** There is a session from everyone who streams to everyone else, and no other. */
  ghost predicate Covered(room: RoomData) {
    forall h, c :: Session(h, c) in room.sessions.Values <==> Shares(room.users, h, c)
  }

  /** The same, for all but one connection. */
  ghost predicate CoveredBut(room: RoomData, id: Id) {
    forall h, c :: h != id && c != id ==> (Session(h, c) in room.sessions.Values <==> Shares(room.users, h, c))
  }

  ghost predicate HasRoster(log: seq<Sent>, rid: string, users: map<Id, User>, c: Id) {
    var last := LastInfo(log, c);
    last.Some? && last.value.RoomInfo? && last.value.room == rid && IsRoster(users, c, last.value.users)
  }

  /** The last room info a connection was sent is that of the room without a name. */
  predicate ReadsNameless(log: seq<Sent>, c: Id) {
    LastInfo(log, c).Some? && OfNameless(LastInfo(log, c).value)
  }

  /**
   * The last room info every user was sent is the roster as it is now, but for those who are also in the room
   * without a name and were last sent its roster.
   */
  ghost predicate Informed(nameless: set<Id>, log: seq<Sent>, rid: string, users: map<Id, User>) {
    forall c :: c in users ==> HasRoster(log, rid, users, c) || (c in nameless && ReadsNameless(log, c))
  }

  /** A named room is in order, and its users know it as it is. */
  ghost predicate RoomOk(nameless: set<Id>, log: seq<Sent>, rid: string, room: RoomData) {
    rid != "" ==> Alive(room) && Covered(room) && Informed(nameless, log, rid, room.users)
  }

  ghost predicate OthersOk(st: State, rid: string) {
    forall r :: r in st.rooms && r != rid ==> RoomOk(Nameless(st.rooms), st.log, r, st.rooms[r])
  }

  ghost predicate Inv(st: State) {
    Consistent(st, {}, "") && forall r :: r in st.rooms ==> RoomOk(Nameless(st.rooms), st.log, r, st.rooms[r])
  }

  /** After a failed event: the room of its connection may still lack sessions and rosters. */
  ghost predicate AlmostInv(st: State, id: Id) {
    && Consistent(st, {}, "") && id in st.connected && OthersOk(st, st.connected[id])
    && (st.connected[id] != "" && st.connected[id] in st.rooms ==>
          Alive(st.rooms[st.connected[id]]) && CoveredBut(st.rooms[st.connected[id]], id))
  }

  /** Told that a session is over: by its end, or by the end of the connection; whoever caused it needs no telling. */
  ghost predicate KnowsEnd(log: seq<Sent>, since: nat, c: Id, sid: Sid, actor: Id) {
    c == actor || Told(log, since, c, EndShare(sid)) || Told(log, since, c, OWNER_LEFT)
  }

  /** Every session that ends is announced to both its ends. */
  ghost predicate Announced(a: State, b: State, actor: Id) {
    forall s :: Live(a.rooms, a.history, s) && !Live(b.rooms, b.history, s) ==>
      && KnowsEnd(b.log, |a.log|, a.history[s].session.host, s, actor)
      && KnowsEnd(b.log, |a.log|, a.history[s].session.client, s, actor)
  }

  /** No session ends. */
  ghost predicate KeepsLive(a: State, b: State) {
    forall s :: Live(a.rooms, a.history, s) ==> Live(b.rooms, b.history, s) && b.history[s] == a.history[s]
  }

  lemma KeepsLiveAnnounces(a: State, b: State, c: State, actor: Id)
    requires KeepsLive(a, b) && a.log <= b.log && Announced(b, c, actor)
    ensures Announced(a, c, actor)
  {
    hide Told;
    forall s | Live(a.rooms, a.history, s) && !Live(c.rooms, c.history, s)
      ensures KnowsEnd(c.log, |a.log|, a.history[s].session.host, s, actor)
      ensures KnowsEnd(c.log, |a.log|, a.history[s].session.client, s, actor)
    {
      assert Live(b.rooms, b.history, s);
      EarlierEnd(c.log, |a.log|, |b.log|, a.history[s].session.host, s, actor);
      EarlierEnd(c.log, |a.log|, |b.log|, a.history[s].session.client, s, actor);
    }
  }

  lemma EarlierEnd(log: seq<Sent>, since: nat, later: nat, c: Id, sid: Sid, actor: Id)
    requires since <= later && KnowsEnd(log, later, c, sid, actor)
    ensures KnowsEnd(log, since, c, sid, actor)
  {}

  lemma InvAlmost(st: State, id: Id)
    requires Inv(st) && id in st.connected
    ensures AlmostInv(st, id)
  {
    hide Consistent, Alive, Informed, Nameless;
    forall r | r in st.rooms && r != st.connected[id] ensures RoomOk(Nameless(st.rooms), st.log, r, st.rooms[r]) {}
    if st.connected[id] in st.rooms {
      assert RoomOk(Nameless(st.rooms), st.log, st.connected[id], st.rooms[st.connected[id]]);
    }
  }

  /** The unchecked look-ups of the handlers find what they look for. */
  lemma InvNoDangling(st: State)
    requires Consistent(st, {}, "")
    ensures NoDangling(st)
  {
    hide Keyed, Credentials, Counted, Quiet, Dismissed, Traces, RegisteredIn;
    forall r, s | r in st.rooms && s in st.rooms[r].sessions
      ensures st.rooms[r].sessions[s].host in st.rooms[r].users && st.rooms[r].sessions[s].client in st.rooms[r].users
    {
      assert SessionsIn(r, st.rooms[r], st.history);
    }
  }

  // ---- Rooms apart -----------------------------------------------------------------------------------------

  lemma UserIsConnected(st: State, rid: string)
    requires Consistent(st, {}, "") && rid in st.rooms && rid != ""
    ensures forall c :: c in st.rooms[rid].users ==> c in st.connected && st.connected[c] == rid
  {
    hide Endpoints, Credentials, Counted, Quiet, Dismissed, Traces;
    assert RegisteredIn(rid, st.rooms[rid].users, st.connected, st.known, {}, "");
  }

  lemma ConnectedIsUser(st: State, id: Id)
    requires Consistent(st, {}, "") && id in st.connected
    ensures id in st.known
    ensures st.connected[id] != "" ==> IsUser(st.rooms, st.connected[id], id)
  {
    hide Endpoints, Credentials, Counted, Quiet, Dismissed, Traces, RegisteredIn;
  }

  lemma UserIsKnown(st: State, rid: string)
    requires Consistent(st, {}, "") && rid in st.rooms
    ensures forall c :: c in st.rooms[rid].users ==> c in st.known
    ensures rid == "" ==> st.rooms[rid].users.Keys == Nameless(st.rooms)
  {
    hide Endpoints, Credentials, Counted, Quiet, Dismissed, Traces;
    assert RegisteredIn(rid, st.rooms[rid].users, st.connected, st.known, {}, "");
  }

  /** Rosters of a named room do not reach the users of another; those of the one without a name reach its own only. */
  lemma Notified(st: State, rid: string, actor: Id, notices: seq<Notice>)
    requires Consistent(st, {}, "") && rid in st.rooms && GoodNotices(st.rooms[rid].users, notices)
    ensures var r, nameless := NotifyAll(st, rid, actor, notices), Nameless(st.rooms);
      && Consistent(r, {}, "") && Evolves(st, r) && r == st.(log := r.log)
      && Informed(nameless, r.log, rid, st.rooms[rid].users)
      && forall o :: o in st.rooms && o != rid && o != "" && Informed(nameless, st.log, o, st.rooms[o].users) ==>
           Informed(nameless, r.log, o, st.rooms[o].users)
  {
    hide Consistent, Evolves, NotifyAll, IsRoster, Informed, Nameless, ReadsNameless;
    var users, nameless, r := st.rooms[rid].users, Nameless(st.rooms), NotifyAll(st, rid, actor, notices);
    Addressees(users, notices);
    UserIsKnown(st, rid);
    if rid != "" { UserIsConnected(st, rid); }
    NotifyAllInforms(st, rid, actor, notices);
    NowInformed(nameless, r.log, rid, users, notices);
    forall o | o in st.rooms && o != rid && o != "" && Informed(nameless, st.log, o, st.rooms[o].users)
      ensures Informed(nameless, r.log, o, st.rooms[o].users)
    {
      UserIsConnected(st, o);
      StillInformed(nameless, st.log, r.log, rid, o, st.rooms[o].users, notices);
    }
    NotifyAllKeeps(st, rid, actor, notices);
  }

  lemma NowInformed(nameless: set<Id>, log: seq<Sent>, rid: string, users: map<Id, User>, notices: seq<Notice>)
    requires forall i :: 0 <= i < |notices| ==>
      notices[i].to in users && IsRoster(users, notices[i].to, notices[i].users)
    requires forall c :: c in users ==> exists i :: 0 <= i < |notices| && notices[i].to == c
    requires forall i :: 0 <= i < |notices| ==> LastInfo(log, notices[i].to) == Some(RoomInfo(rid, notices[i].users))
    ensures Informed(nameless, log, rid, users)
  {
    hide IsRoster;
    forall c | c in users ensures HasRoster(log, rid, users, c) {
      var i :| 0 <= i < |notices| && notices[i].to == c;
    }
  }

  lemma StillInformed(nameless: set<Id>, before: seq<Sent>, log: seq<Sent>, from: string, rid: string,
        users: map<Id, User>, notices: seq<Notice>)
    requires Informed(nameless, before, rid, users)
    requires forall i :: 0 <= i < |notices| && notices[i].to in users ==> from == "" && notices[i].to in nameless
    requires forall i :: 0 <= i < |notices| ==> LastInfo(log, notices[i].to) == Some(RoomInfo(from, notices[i].users))
    requires forall c: Id :: (forall i :: 0 <= i < |notices| ==> notices[i].to != c) ==>
      LastInfo(log, c) == LastInfo(before, c)
    ensures Informed(nameless, log, rid, users)
  {
    hide IsRoster;
    forall c | c in users ensures HasRoster(log, rid, users, c) || (c in nameless && ReadsNameless(log, c)) {
      assert HasRoster(before, rid, users, c) || (c in nameless && ReadsNameless(before, c));
    }
  }

  lemma Addressees(users: map<Id, User>, notices: seq<Notice>)
    requires GoodNotices(users, notices)
    ensures forall i :: 0 <= i < |notices| ==>
      notices[i].to in users && IsRoster(users, notices[i].to, notices[i].users)
    ensures forall i, j :: 0 <= i < j < |notices| ==> notices[i].to != notices[j].to
    ensures forall c :: c in users ==> exists i :: 0 <= i < |notices| && notices[i].to == c
  {
    hide IsRoster;
    var tos := Recipients(notices);
    forall i | 0 <= i < |notices| ensures notices[i].to in users { assert tos[i] in tos; }
    forall i, j | 0 <= i < j < |notices| ensures notices[i].to != notices[j].to { assert tos[i] != tos[j]; }
    forall c | c in users ensures exists i :: 0 <= i < |notices| && notices[i].to == c {
      assert c in tos;
      var i :| 0 <= i < |tos| && tos[i] == c;
      assert notices[i].to == c;
    }
  }

  lemma InformedSame(nameless: set<Id>, nameless': set<Id>, a: seq<Sent>, b: seq<Sent>, rid: string,
        users: map<Id, User>)
    requires Informed(nameless, a, rid, users) && SameInfos(a, b) && nameless <= nameless'
    ensures Informed(nameless', b, rid, users)
  {
    hide IsRoster, LastInfo;
    forall c | c in users ensures HasRoster(b, rid, users, c) || (c in nameless' && ReadsNameless(b, c)) {
      assert HasRoster(a, rid, users, c) || (c in nameless && ReadsNameless(a, c));
    }
  }

  lemma OthersSame(a: State, b: State, rid: string)
    requires OthersOk(a, rid) && SameInfos(a.log, b.log) && Nameless(a.rooms) <= Nameless(b.rooms)
    requires forall r :: r in b.rooms && r != rid ==> r in a.rooms && b.rooms[r] == a.rooms[r]
    ensures OthersOk(b, rid)
  {
    hide Alive, Covered, SameInfos, Informed, Nameless;
    forall r | r in b.rooms && r != rid ensures RoomOk(Nameless(b.rooms), b.log, r, b.rooms[r]) {
      assert RoomOk(Nameless(a.rooms), a.log, r, a.rooms[r]);
      if r != "" { InformedSame(Nameless(a.rooms), Nameless(b.rooms), a.log, b.log, r, a.rooms[r].users); }
    }
  }

  /** With the room of the event in order again, and its rosters sent, all is in order. */
  lemma Completed(st: State, rid: string, actor: Id, notices: seq<Notice>)
    requires Consistent(st, {}, "") && rid in st.rooms && GoodNotices(st.rooms[rid].users, notices)
    requires OthersOk(st, rid) && (rid != "" ==> Alive(st.rooms[rid]) && Covered(st.rooms[rid]))
    ensures var r := NotifyAll(st, rid, actor, notices); Inv(r) && Evolves(st, r) && r == st.(log := r.log)
  {
    hide Consistent, Evolves, Alive, Covered, Informed, GoodNotices, NotifyAll, Nameless;
    Notified(st, rid, actor, notices);
    var r := NotifyAll(st, rid, actor, notices);
    forall o | o in r.rooms ensures RoomOk(Nameless(r.rooms), r.log, o, r.rooms[o]) {
      if o != rid { assert RoomOk(Nameless(st.rooms), st.log, o, st.rooms[o]); }
    }
  }
}
