/**
 * What a room without a name spoils, exactly: what is written to connections that are gone, which rosters its users
 * miss in other rooms, and whom the counters count twice.
 */
module HubNameless {
  import opened Collections
  import opened HubModel
  import opened HubInvariants
  import opened HubAdditions
  import opened HubLoops
  import opened HubBoundary
  import opened HubEvents
  import opened HubTheorems
  import opened HubOverview
  import opened HubNames
  import opened HubRefinement

  /** A registered connection that counts as being in no room joins the one without a name. */
  predicate JoinsNameless(st: State, msg: Incoming) {
    && !Ignored(st, msg) && RoomOf(st, msg.info.id) == "" && "" in st.rooms
    && (msg.event.Join? || (msg.event.Create? && msg.event.joinIfExist)) && msg.event.id == ""
  }

  // ---- Turns that write nothing for it ----------------------------------------------------------------------------

  /** No room info of it is among the writes since. */
  ghost predicate NoneOfNameless(a: seq<Sent>, b: seq<Sent>) {
    a <= b && forall i :: |a| <= i < |b| ==> !OfNameless(b[i].msg)
  }

  lemma NoneAppend(a: seq<Sent>, b: seq<Sent>, e: Sent)
    requires NoneOfNameless(a, b) && !OfNameless(e.msg)
    ensures NoneOfNameless(a, b + [e])
  {}

  lemma NoneTransitive(a: seq<Sent>, b: seq<Sent>, c: seq<Sent>)
    requires NoneOfNameless(a, b) && NoneOfNameless(b, c)
    ensures NoneOfNameless(a, c)
  {}

  lemma {:induction false} NotifyWrites(st: State, rid: string, actor: Id, notices: seq<Notice>)
    requires rid != ""
    ensures NoneOfNameless(st.log, NotifyAll(st, rid, actor, notices).log)
  {
    if notices != [] { NotifyWrites(st, rid, actor, notices[..|notices| - 1]); }
  }

  lemma {:induction false} OpenWrites(st: State, rid: string, actor: Id, hosting: bool, partners: seq<Id>, ips: Ips)
    requires rid in st.rooms && actor in st.rooms[rid].users && forall p :: p in partners ==> p in st.rooms[rid].users
    ensures NoneOfNameless(st.log, OpenAll(st, rid, actor, hosting, partners, ips).log)
  {
    if partners != [] { OpenWrites(st, rid, actor, hosting, partners[..|partners| - 1], ips); }
  }

  lemma {:induction false} EndWrites(st: State, rid: string, actor: Id, sids: seq<Sid>)
    requires rid in st.rooms && (forall s :: s in sids ==> s in st.rooms[rid].sessions)
    requires forall i, j :: 0 <= i < j < |sids| ==> sids[i] != sids[j]
    ensures NoneOfNameless(st.log, EndAll(st, rid, actor, sids).log)
  {
    if sids != [] {
      assert sids == sids[..|sids| - 1] + [sids[|sids| - 1]];
      EndWrites(st, rid, actor, sids[..|sids| - 1]);
    }
  }

  lemma {:induction false} CloseWrites(st: State, rid: string, sids: seq<Sid>)
    requires rid in st.rooms
    ensures CloseAll(st, rid, sids).log == st.log
  {
    if sids != [] { CloseWrites(st, rid, sids[..|sids| - 1]); }
  }

  lemma {:induction false} KickWrites(st: State, actor: Id, members: seq<Id>)
    ensures NoneOfNameless(st.log, KickAll(st, actor, members).log)
  {
    if members != [] { KickWrites(st, actor, members[..|members| - 1]); }
  }

  lemma LeaveWrites(st: State, id: Id, code: int, reason: Reason, lc: LeaveChoice)
    requires GoodLeave(st, id, lc)
    ensures NoneOfNameless(st.log, Leave(st, id, code, reason, lc).log)
    ensures NoneOfNameless(CloseConnection(st, id, id, code, reason).log, Leave(st, id, code, reason, lc).log)
  {
    hide GoodNotices, EndAll, CloseAll, KickAll, NotifyAll, NoneOfNameless;
    var rid, closed := RoomOf(st, id), CloseConnection(st, id, id, code, reason);
    NothingWritten(st.log);
    NothingWritten(closed.log);
    NoneAppend(st.log, st.log, Sent(id, id, CloseWriter(code, reason)));
    if rid != "" && rid in st.rooms && id in st.rooms[rid].users {
      var left := RemoveUser(EndAll(closed, rid, id, lc.ending), rid, id);
      EndWrites(closed, rid, id, lc.ending);
      if OwnerCloses(st.rooms[rid], id) {
        KickWrites(left, id, lc.members);
        CloseWrites(KickAll(left, id, lc.members), rid, lc.closing);
        NoneTransitive(closed.log, left.log, KickAll(left, id, lc.members).log);
      } else if st.rooms[rid].users - {id} == map[] {
        CloseWrites(left, rid, lc.closing);
      } else {
        NotifyWrites(left, rid, id, lc.notices);
        NoneTransitive(closed.log, left.log, NotifyAll(left, rid, id, lc.notices).log);
      }
    }
    NoneTransitive(st.log, closed.log, Leave(st, id, code, reason, lc).log);
  }

  lemma JoinWrites(st: State, info: ClientInfo, rid: string, userName: string, ch: Choice)
    requires GoodJoin(st, info, rid, userName, ch) && (rid != "" || RoomOf(st, info.id) != "" || "" !in st.rooms)
    ensures NoneOfNameless(st.log, ExecuteJoin(st, info, rid, userName, ch).st.log)
  {
    hide GoodNotices, OpenAll, NotifyAll;
    if RoomOf(st, info.id) == "" && rid in st.rooms {
      var user := User(info.id, info.addr, DisplayName(info, userName, ch.randomName), false, false);
      var added := AddUser(st, rid, user);
      NotifyWrites(added, rid, info.id, ch.notices);
      if ch.ips.Some? {
        OpenWrites(NotifyAll(added, rid, info.id, ch.notices), rid, info.id, false, ch.partners, ch.ips.value);
      }
    }
  }

  lemma CreateWrites(st: State, info: ClientInfo, auth: AuthMode, e: Event, ch: Choice)
    requires e.Create? && GoodCreate(st, info, auth, e, ch)
    requires e.id != "" || RoomOf(st, info.id) != "" || ("" in st.rooms && !e.joinIfExist) ||
      ("" !in st.rooms && CreateRefused(auth, info, e.mode).Some?)
    ensures NoneOfNameless(st.log, ExecuteCreate(st, info, auth, e, ch).st.log)
  {
    hide GoodNotices, NotifyAll, GoodJoin, ExecuteJoin, CreateRefused;
    if RoomOf(st, info.id) == "" && e.id in st.rooms && e.joinIfExist {
      JoinWrites(st, info, e.id, e.userName, ch);
    } else if RoomOf(st, info.id) == "" && e.id !in st.rooms && CreateRefused(auth, info, e.mode).None? {
      var owner := User(info.id, info.addr, DisplayName(info, e.userName, ch.randomName), false, true);
      var room := RoomData(e.id, e.closeOnOwnerLeave, e.mode, map[], map[]);
      NotifyWrites(AddRoom(st, room, owner), e.id, info.id, ch.notices);
    }
  }

  lemma ShareWrites(st: State, id: Id, ch: Choice)
    requires NoDangling(st) && GoodShare(st, id, ch)
    ensures NoneOfNameless(st.log, ExecuteShare(st, id, ch).st.log)
  {
    hide GoodNotices, OpenAll, NotifyAll;
    var current := CurrentRoom(st, id);
    if current.Found? && ch.ips.Some? {
      var sharing := SetUser(st, current.rid, id, st.rooms[current.rid].users[id].(streaming := true));
      var shared := OpenAll(sharing, current.rid, id, true, ch.partners, ch.ips.value);
      OpenWrites(sharing, current.rid, id, true, ch.partners, ch.ips.value);
      NotifyWrites(shared, current.rid, id, ch.notices);
    }
  }

  lemma StopWrites(st: State, id: Id, ch: Choice)
    requires NoDangling(st) && GoodStop(st, id, ch)
    ensures NoneOfNameless(st.log, ExecuteStop(st, id, ch).st.log)
  {
    hide GoodNotices, EndAll, NotifyAll;
    var current := CurrentRoom(st, id);
    if current.Found? {
      var stopped := SetUser(st, current.rid, id, st.rooms[current.rid].users[id].(streaming := false));
      EndWrites(stopped, current.rid, id, ch.ending);
      NotifyWrites(EndAll(stopped, current.rid, id, ch.ending), current.rid, id, ch.notices);
    }
  }

  lemma NameWrites(st: State, id: Id, userName: string, ch: Choice)
    requires NoDangling(st) && GoodName(st, id, userName, ch)
    ensures NoneOfNameless(st.log, ExecuteName(st, id, userName, ch).st.log)
  {
    hide GoodNotices, NotifyAll;
    var current := CurrentRoom(st, id);
    if current.Found? {
      var user := st.rooms[current.rid].users[id].(name := userName);
      NotifyWrites(SetUser(st, current.rid, id, user), current.rid, id, ch.notices);
    }
  }

  /** Room infos of the room without a name are written only where it is joined or created. */
  lemma StepWrites(st: State, auth: AuthMode, msg: Incoming, ch: Choice)
    requires NoDangling(st) && Allowed(st, msg) && GoodChoice(st, auth, msg, ch)
    requires !JoinsNameless(st, msg) && !CreatesNameless(st, auth, msg)
    ensures NoneOfNameless(st.log, Step(st, auth, msg, ch).log)
  {
    hide NoDangling, NoneOfNameless, GoodLeave, Leave, GoodCreate, GoodJoin, GoodName, GoodShare, GoodStop;
    hide ExecuteCreate, ExecuteJoin, ExecuteName, ExecuteShare, ExecuteStop, CreateRefused;
    NothingWritten(st.log);
    if !Ignored(st, msg) {
      var id, outcome := msg.info.id, Execute(st, auth, msg, ch);
      match msg.event {
        case Connected =>
        case Create(_, mode, _, _, _) =>
          AdmitsWhom(auth, msg.info, mode);
          CreateWrites(st, msg.info, auth, msg.event, ch);
        case Join(rid, userName) => JoinWrites(st, msg.info, rid, userName, ch);
        case Name(userName) => NameWrites(st, id, userName, ch);
        case StartShare => ShareWrites(st, id, ch);
        case StopShare => StopWrites(st, id, ch);
        case Relay(kind, sid, value) => RelayWrites(st, id, kind, sid, value);
        case Disconnected(code, reason) => LeaveWrites(st, id, code, reason, ch.leave);
      }
      if outcome.Failed? {
        LeaveWrites(outcome.st, id, NORMAL_CLOSURE, Because(outcome.error), ch.leave);
        NoneTransitive(st.log, outcome.st.log, Step(st, auth, msg, ch).log);
      }
    }
  }

  lemma NothingWritten(log: seq<Sent>)
    ensures NoneOfNameless(log, log)
  {}

  lemma RelayWrites(st: State, id: Id, kind: RelayKind, sid: Sid, value: string)
    ensures NoneOfNameless(st.log, ExecuteRelay(st, id, kind, sid, value).st.log)
  {}

  // ---- The turn that joins it -------------------------------------------------------------------------------------

  /** What the join does: a failed lookup only closes the connection again, as a session is not opened either way. */
  lemma Joined(st: State, auth: AuthMode, msg: Incoming, ch: Choice, joined: State)
    requires Inv(st) && NoDangling(st) && GoodChoice(st, auth, msg, ch) && JoinsNameless(st, msg)
    requires var user := User(msg.info.id, msg.info.addr, DisplayName(msg.info, msg.event.userName, ch.randomName),
                              false, false);
      joined == NotifyAll(AddUser(st, "", user), "", msg.info.id, ch.notices)
    ensures GoodNotices(joined.rooms[""].users, ch.notices)
    ensures Step(st, auth, msg, ch) ==
      if ch.ips.Some? then joined else CloseConnection(joined, msg.info.id, msg.info.id, NORMAL_CLOSURE,
                                                       Because(LookupFailed))
  {
    hide NotifyAll, GoodNotices, Enumerates, Inv, NoDangling, StreamersBut;
    var id := msg.info.id;
    if ch.ips.Some? { NobodyStreams(st, joined, id, ch.partners); }
  }

  lemma NobodyStreams(st: State, joined: State, id: Id, partners: seq<Id>)
    requires Inv(st) && "" in st.rooms && "" in joined.rooms
    requires forall c :: c in joined.rooms[""].users && c != id ==>
      c in st.rooms[""].users && joined.rooms[""].users[c] == st.rooms[""].users[c]
    requires Enumerates(partners, StreamersBut(joined.rooms[""].users, id))
    ensures partners == []
  {
    assert KeyedRoom("", st.rooms[""]) by { hide RoomOk; }
    hide Inv;
    assert StreamersBut(joined.rooms[""].users, id) == {};
    SetOfNone(partners);
  }

  lemma NotifyInforms(added: State, actor: Id, users: map<Id, User>, notices: seq<Notice>, c: Id)
    requires GoodNotices(users, notices) && c in users
    ensures var log := NotifyAll(added, "", actor, notices).log;
      ReadsNameless(log, c) && |Queue(log, c)| > |Queue(added.log, c)|
  {
    hide NotifyAll, GoodNotices, Queue, ReadsNameless, IsRoster;
    Addressees(users, notices);
    var i :| 0 <= i < |notices| && notices[i].to == c;
    QueueGrows(added, "", actor, notices, i);
    InformsAt(added, actor, notices, i);
  }

  lemma InformsAt(added: State, actor: Id, notices: seq<Notice>, i: nat)
    requires i < |notices| && forall i, j :: 0 <= i < j < |notices| ==> notices[i].to != notices[j].to
    ensures ReadsNameless(NotifyAll(added, "", actor, notices).log, notices[i].to)
  {
    hide NotifyAll, LastInfo;
    NotifyAllInforms(added, "", actor, notices);
  }

  lemma ReadsAfterClose(log: seq<Sent>, e: Sent, c: Id)
    requires ReadsNameless(log, c) && e.msg.CloseWriter?
    ensures ReadsNameless(log + [e], c) && |Queue(log + [e], c)| >= |Queue(log, c)|
  {
    hide LastInfo, Queue;
    QueueAppend(log, e, c);
    LastInfoAppend(log, e, c);
  }

  /** Everyone who is in the room afterwards is sent its roster as the last room info. */
  lemma JoinInforms(st: State, auth: AuthMode, msg: Incoming, ch: Choice, c: Id)
    requires Inv(st) && NoDangling(st) && GoodChoice(st, auth, msg, ch) && JoinsNameless(st, msg)
    requires c in Nameless(st.rooms) || c == msg.info.id
    ensures var r := Step(st, auth, msg, ch);
      c in Nameless(r.rooms) && ReadsNameless(r.log, c) && |Queue(r.log, c)| > |Queue(st.log, c)|
  {
    hide NotifyAll, GoodNotices, GoodChoice, Inv, NoDangling, Step, Queue, ReadsNameless;
    var id := msg.info.id;
    var user := User(id, msg.info.addr, DisplayName(msg.info, msg.event.userName, ch.randomName), false, false);
    var joined := NotifyAll(AddUser(st, "", user), "", id, ch.notices);
    Joined(st, auth, msg, ch, joined);
    NotifyInforms(AddUser(st, "", user), id, joined.rooms[""].users, ch.notices, c);
    ReadsAfterClose(joined.log, Sent(id, id, CloseWriter(NORMAL_CLOSURE, Because(LookupFailed))), c);
  }

  lemma {:induction false} QueueGrows(st: State, rid: string, actor: Id, notices: seq<Notice>, i: nat)
    requires i < |notices|
    ensures |Queue(NotifyAll(st, rid, actor, notices).log, notices[i].to)| > |Queue(st.log, notices[i].to)|
  {
    var n := |notices| - 1;
    var before := NotifyAll(st, rid, actor, notices[..n]).log;
    QueueAppend(before, Sent(notices[n].to, actor, RoomInfo(rid, notices[n].users)), notices[i].to);
    if i < n {
      QueueGrows(st, rid, actor, notices[..n], i);
    } else {
      QueueNoShorter(st, rid, actor, notices[..n], notices[i].to);
    }
  }

  lemma {:induction false} QueueNoShorter(st: State, rid: string, actor: Id, notices: seq<Notice>, c: Id)
    ensures |Queue(NotifyAll(st, rid, actor, notices).log, c)| >= |Queue(st.log, c)|
  {
    if notices != [] {
      var n := |notices| - 1;
      var before := NotifyAll(st, rid, actor, notices[..n]).log;
      QueueAppend(before, Sent(notices[n].to, actor, RoomInfo(rid, notices[n].users)), c);
      QueueNoShorter(st, rid, actor, notices[..n], c);
    }
  }

  // ---- Who is gone ------------------------------------------------------------------------------------------------

  lemma {:induction false} NothingQueued(a: seq<Sent>, b: seq<Sent>, c: Id)
    requires a <= b && forall i :: |a| <= i < |b| ==> b[i].to != c
    ensures Queue(b, c) == Queue(a, c)
  {
    if |a| < |b| {
      NothingQueued(a, b[..|b| - 1], c);
    } else {
      assert a == b;
    }
  }

  /** Whoever is gone gets room infos of the room without a name, or nothing. */
  lemma NothingForGone(a: State, b: State, c: Id)
    requires Consistent(a, {}, "") && Consistent(b, {}, "") && Gone(a, c) && NoneOfNameless(a.log, b.log)
    ensures Queue(b.log, c) == Queue(a.log, c)
  {
    hide Keyed, Members, Endpoints, Credentials, Counted, Traces, Queue;
    assert WasClosed(a.log, c);
    var i :| 0 <= i < |a.log| && a.log[i].to == c && a.log[i].msg.CloseWriter?;
    assert b.log[i] == a.log[i];
    NothingQueued(a.log, b.log, c);
  }

  /**
   * A turn of the loop writes to a connection that is gone exactly if it joins the room without a name, and the
   * connection is one of that room's users.
   */
  lemma StepSilence(st: State, auth: AuthMode, msg: Incoming, ch: Choice, c: Id)
    requires Inv(st) && NoDangling(st) && Allowed(st, msg) && GoodChoice(st, auth, msg, ch) && Gone(st, c)
    ensures Queue(Step(st, auth, msg, ch).log, c) == Queue(st.log, c)
      <==> !(JoinsNameless(st, msg) && c in Nameless(st.rooms))
  {
    hide Consistent, RoomOk, NoDangling, Allowed, GoodChoice, Step, Queue, SessionsFrozen, Announced, NoneOfNameless;
    hide JoinsNameless;
    StepKeeps(st, auth, msg, ch);
    if c in Nameless(st.rooms) {
      if JoinsNameless(st, msg) {
        JoinInforms(st, auth, msg, ch, c);
      } else {
        StepWrites(st, auth, msg, ch);
        NothingForGone(st, Step(st, auth, msg, ch), c);
      }
    }
  }

  lemma {:induction false} QueueOfPrefix(a: seq<Sent>, b: seq<Sent>, c: Id)
    requires a <= b
    ensures Queue(a, c) <= Queue(b, c)
  {
    if |a| < |b| {
      QueueOfPrefix(a, b[..|b| - 1], c);
    } else {
      assert a == b;
    }
  }

  /**
   * So in every run nothing is written to a connection that is gone exactly if it is not in the room without a name,
   * or nobody joins that room in the meantime.
   */
  lemma {:induction false} RunSilence(auth: AuthMode, rounds: seq<Round>, states: seq<State>, i: nat, k: nat, c: Id)
    requires Run(auth, rounds, states) && i <= k < |states| && Gone(states[i], c)
    ensures Queue(states[k].log, c) == Queue(states[i].log, c) <==>
      c !in Nameless(states[i].rooms) || forall j :: i <= j < k ==> !JoinsNameless(states[j], rounds[j].msg)
    decreases k
  {
    hide Inv, NoDangling, Allowed, GoodChoice, Step, Queue, SessionsFrozen, JoinsNameless;
    if i < k {
      var before := states[k - 1];
      RunSilence(auth, rounds, states, i, k - 1, c);
      RunKeeps(auth, rounds, states, k - 1);
      RunEvolves(auth, rounds, states, i, k - 1);
      RunEvolves(auth, rounds, states, k - 1, k);
      assert Follows(before, auth, rounds[k - 1], states[k - 1 + 1]);
      StepSilence(before, auth, rounds[k - 1].msg, rounds[k - 1].ch, c);
      QueueOfPrefix(states[i].log, before.log, c);
      QueueOfPrefix(before.log, states[k].log, c);
    }
  }

  // ---- Rosters of other rooms -------------------------------------------------------------------------------------

  lemma {:induction false} StillReads(a: seq<Sent>, b: seq<Sent>, c: Id)
    requires NoneOfNameless(a, b) && ReadsNameless(b, c)
    ensures ReadsNameless(a, c)
  {
    if |a| < |b| {
      StillReads(a, b[..|b| - 1], c);
    } else {
      assert a == b;
    }
  }

  /** The roster a user of a named room was last sent is that room's as it is, or that of the room without a name. */
  lemma RosterOrNameless(st: State, rid: string, c: Id)
    requires Inv(st) && rid != "" && IsUser(st.rooms, rid, c)
    ensures HasRoster(st.log, rid, st.rooms[rid].users, c) <==> !ReadsNameless(st.log, c)
    ensures ReadsNameless(st.log, c) ==> c in Nameless(st.rooms)
    ensures c in st.connected && st.connected[c] == rid
  {
    InvConsistent(st);
    UserIsConnected(st, rid);
    hide Consistent, Alive, Covered, IsRoster, Nameless;
    assert RoomOk(Nameless(st.rooms), st.log, rid, st.rooms[rid]);
  }

  lemma CreatesForOne(st: State, auth: AuthMode, msg: Incoming, ch: Choice, c: Id)
    requires NoDangling(st) && GoodChoice(st, auth, msg, ch) && CreatesNameless(st, auth, msg) && c != msg.info.id
    ensures LastInfo(Step(st, auth, msg, ch).log, c) == LastInfo(st.log, c)
  {
    hide NotifyAll, GoodNotices, NoDangling, LastInfo, Enumerates;
    var owner :=
      User(msg.info.id, msg.info.addr, DisplayName(msg.info, msg.event.userName, ch.randomName), false, true);
    var added := AddRoom(st, RoomData("", msg.event.closeOnOwnerLeave, msg.event.mode, map[], map[]), owner);
    Addressees(map[msg.info.id := owner], ch.notices);
    NotifyAllInforms(added, "", msg.info.id, ch.notices);
    assert Step(st, auth, msg, ch) == NotifyAll(added, "", msg.info.id, ch.notices);
  }

  /**
   * A user of a named room who knows it as it is, and stays in it, no longer does so after a turn of the loop exactly
   * if the turn joins the room without a name and they are also a user of that one.
   */
  lemma StepRosters(st: State, auth: AuthMode, msg: Incoming, ch: Choice, rid: string, c: Id)
    requires Inv(st) && NoDangling(st) && Allowed(st, msg) && GoodChoice(st, auth, msg, ch)
    requires rid != "" && IsUser(st.rooms, rid, c) && HasRoster(st.log, rid, st.rooms[rid].users, c)
    requires IsUser(Step(st, auth, msg, ch).rooms, rid, c)
    ensures var r := Step(st, auth, msg, ch);
      HasRoster(r.log, rid, r.rooms[rid].users, c) <==> !(JoinsNameless(st, msg) && c in Nameless(st.rooms))
  {
    hide Inv, NoDangling, Allowed, GoodChoice, Step, Evolves, Announced, HasRoster, ReadsNameless, NoneOfNameless;
    hide Nameless, CreateRefused;
    var r := Step(st, auth, msg, ch);
    StepKeeps(st, auth, msg, ch);
    RosterOrNameless(st, rid, c);
    RosterOrNameless(r, rid, c);
    if JoinsNameless(st, msg) {
      if c in Nameless(st.rooms) { JoinInforms(st, auth, msg, ch, c); } else { JoinKeepsOut(st, auth, msg, ch, c); }
    } else if CreatesNameless(st, auth, msg) {
      CreatesForOne(st, auth, msg, ch, c);
      SameReads(st.log, r.log, c);
    } else {
      StepWrites(st, auth, msg, ch);
      if ReadsNameless(r.log, c) { StillReads(st.log, r.log, c); }
    }
  }

  lemma SameReads(a: seq<Sent>, b: seq<Sent>, c: Id)
    requires LastInfo(b, c) == LastInfo(a, c)
    ensures ReadsNameless(b, c) == ReadsNameless(a, c)
  {}

  lemma JoinKeepsOut(st: State, auth: AuthMode, msg: Incoming, ch: Choice, c: Id)
    requires Inv(st) && NoDangling(st) && GoodChoice(st, auth, msg, ch) && JoinsNameless(st, msg)
    requires c !in Nameless(st.rooms) && c != msg.info.id
    ensures c !in Nameless(Step(st, auth, msg, ch).rooms)
  {
    hide NotifyAll, GoodNotices, GoodChoice, Inv, NoDangling, Step;
    var id := msg.info.id;
    var user := User(id, msg.info.addr, DisplayName(msg.info, msg.event.userName, ch.randomName), false, false);
    Joined(st, auth, msg, ch, NotifyAll(AddUser(st, "", user), "", id, ch.notices));
  }

  // ---- Who is counted twice ---------------------------------------------------------------------------------------

  /** Somebody joins the room without a name who is in it already. */
  predicate Rejoins(st: State, msg: Incoming) {
    JoinsNameless(st, msg) && msg.info.id in Nameless(st.rooms)
  }

  /** Joined minus left, above the users there are. */
  ghost function Surplus(st: State): int {
    st.counters.usersJoined - st.counters.usersLeft - |MemberPairs(st.rooms)|
  }

  lemma JoinRejoins(st: State, info: ClientInfo, rid: string, userName: string, ch: Choice)
    requires Inv(st) && info.id in st.connected && GoodJoin(st, info, rid, userName, ch)
    ensures var again := RoomOf(st, info.id) == "" && rid == "" && info.id in Nameless(st.rooms);
      ExecuteJoin(st, info, rid, userName, ch).st.rejoins == st.rejoins + if again then 1 else 0
  {
    hide GoodNotices, OpenAll, NotifyAll, RoomOk, Endpoints, Credentials, Counted, Traces, Quiet, Dismissed;
    if RoomOf(st, info.id) == "" { InNoRoom(st.rooms, st.connected, st.known, info.id); }
  }

  lemma StepRejoins(st: State, auth: AuthMode, msg: Incoming, ch: Choice)
    requires Inv(st) && NoDangling(st) && Allowed(st, msg) && GoodChoice(st, auth, msg, ch)
    ensures Step(st, auth, msg, ch).rejoins == st.rejoins + if Rejoins(st, msg) then 1 else 0
  {
    hide Inv, NoDangling, GoodNotices, GoodLeave, Leave, GoodJoin, ExecuteJoin, OpenAll, NotifyAll, EndAll;
    hide CreateRefused, Enumerates;
    if msg.info.id in st.connected {
      if msg.event.Join? && !Ignored(st, msg) {
        JoinRejoins(st, msg.info, msg.event.id, msg.event.userName, ch);
      } else if msg.event.Create? && !Ignored(st, msg) && RoomOf(st, msg.info.id) == "" && msg.event.joinIfExist &&
        msg.event.id in st.rooms {
        JoinRejoins(st, msg.info, msg.event.id, msg.event.userName, ch);
      }
    }
  }

  /** The user counter goes up by one too many in exactly these turns, and is right in all others. */
  lemma StepSurplus(st: State, auth: AuthMode, msg: Incoming, ch: Choice)
    requires Inv(st) && NoDangling(st) && Allowed(st, msg) && GoodChoice(st, auth, msg, ch)
    ensures Surplus(Step(st, auth, msg, ch)) == Surplus(st) + if Rejoins(st, msg) then 1 else 0
  {
    hide NoDangling, Allowed, GoodChoice, Step, Evolves, Announced, Rejoins, RoomOk, MemberPairs;
    hide Keyed, Members, Endpoints, Credentials, Traces, Quiet, Dismissed;
    StepKeeps(st, auth, msg, ch);
    StepRejoins(st, auth, msg, ch);
  }

  function RejoinCount(rounds: seq<Round>, states: seq<State>, k: nat): nat
    requires k <= |rounds| && k < |states|
  {
    if k == 0 then 0
    else RejoinCount(rounds, states, k - 1) + if Rejoins(states[k - 1], rounds[k - 1].msg) then 1 else 0
  }

  /**
   * In every run, joined minus left are the connections that are in a room, the users of the room without a name, and
   * one more for each time somebody joined that room again. As long as all rooms have names it is the first alone.
   */
  lemma {:induction false} UsersCounted(auth: AuthMode, rounds: seq<Round>, states: seq<State>, k: nat)
    requires Run(auth, rounds, states) && k < |states|
    ensures var st := states[k];
      var users := st.counters.usersJoined - st.counters.usersLeft;
      && users == |InRooms(st.connected)| + |Nameless(st.rooms)| + RejoinCount(rounds, states, k)
      && (Named(st.rooms) ==> users == |InRooms(st.connected)|)
  {
    hide Run, InRooms, Nameless;
    Conservation(auth, rounds, states, k);
    RunRejoins(auth, rounds, states, k);
    if Named(states[k].rooms) { NobodyNameless(states[k].rooms); }
  }

  lemma NobodyNameless(rooms: RoomMap)
    requires Named(rooms)
    ensures Nameless(rooms) == {}
  {}

  lemma {:induction false} RunRejoins(auth: AuthMode, rounds: seq<Round>, states: seq<State>, k: nat)
    requires Run(auth, rounds, states) && k < |states|
    ensures states[k].rejoins == RejoinCount(rounds, states, k)
    ensures Named(states[k].rooms) ==> RejoinCount(rounds, states, k) == 0
  {
    hide Inv, NoDangling, Allowed, GoodChoice, Step, SessionsFrozen, ConnectionsFrozen;
    if k > 0 {
      RunRejoins(auth, rounds, states, k - 1);
      RunKeeps(auth, rounds, states, k - 1);
      RunEvolves(auth, rounds, states, k - 1, k);
      assert Follows(states[k - 1], auth, rounds[k - 1], states[k - 1 + 1]);
      StepRejoins(states[k - 1], auth, rounds[k - 1].msg, rounds[k - 1].ch);
    }
  }

  // ---- The shortest runs of these kinds ---------------------------------------------------------------------------

  const NOWHERE := Ips(None, None)

  /** A run of three messages, and after its first two. */
  lemma RunOfThree(third: Round, next: State) returns (rounds: seq<Round>, states: seq<State>)
    requires Follows(SECOND, AuthNone, third, next)
    ensures Run(AuthNone, rounds, states) && |rounds| == 3 && |states| == 4
    ensures states[2] == SECOND && states[3] == next
  {
    hide Follows, Run;
    var connect := Round(Incoming(NOBODY, true, Connected), NO_CHOICE);
    var create := Round(Incoming(NOBODY, false, CREATE), NO_CHOICE.(notices := [Notice(0, [FOUNDER_ENTRY])]));
    RunStarts(connect);
    CreateFollows(create);
    rounds, states := LongerRun([connect], [INITIAL, FIRST], create, SECOND);
    rounds, states := LongerRun(rounds, states, third, next);
  }

  lemma RunLength(auth: AuthMode, rounds: seq<Round>, states: seq<State>)
    requires Run(auth, rounds, states)
    ensures |states| == |rounds| + 1
  {}

  const AGAIN := Join("", "a")
  const MEMBER := User(0, 0, "a", false, false)
  const MEMBER_NOTICE := Notice(0, [Entry(0, "a", false, true, false)])
  const TWICE := NotifyAll(AddUser(SECOND, "", MEMBER), "", 0, [MEMBER_NOTICE])

  lemma AgainFollows(again: Round)
    requires again == Round(Incoming(NOBODY, false, AGAIN),
                            NO_CHOICE.(ips := Some(NOWHERE), notices := [MEMBER_NOTICE]))
    ensures Follows(SECOND, AuthNone, again, TWICE)
  {
    assert Recipients([MEMBER_NOTICE]) == [0];
    assert MEMBER_NOTICE.users[0].id == 0;
    assert SECOND.rooms[""].users[0 := MEMBER] == map[0 := MEMBER];
    assert GoodNotices(map[0 := MEMBER], again.ch.notices);
    hide GoodNotices, NotifyAll;
    assert StreamersBut(map[0 := MEMBER], 0) == {};
    assert GoodJoin(SECOND, NOBODY, "", "a", again.ch);
    assert ExecuteJoin(SECOND, NOBODY, "", "a", again.ch) == Done(TWICE);
    hide GoodJoin, ExecuteJoin;
    assert GoodChoice(SECOND, AuthNone, again.msg, again.ch);
  }

  /** From the start of the program: connect, create a room without a name, join it. One user is counted twice. */
  lemma CountedTwice()
    ensures exists rounds: seq<Round>, states: seq<State> ::
      Run(AuthNone, rounds, states) && |rounds| == 3 && Surplus(states[3]) == 1
  {
    var again :=
      Round(Incoming(NOBODY, false, AGAIN), NO_CHOICE.(ips := Some(NOWHERE), notices := [MEMBER_NOTICE]));
    AgainFollows(again);
    var rounds, states := RunOfThree(again, TWICE);
    hide Run, Keyed, Members, Endpoints, Credentials, Traces, Quiet, Dismissed, RoomOk, NoDangling, NotifyAll;
    RunKeeps(AuthNone, rounds, states, 3);
    assert TWICE.rejoins == 1;
  }

  const CREATE_A := Create("a", Local, false, "a", false)
  const GUEST_INFO := ClientInfo(1, false, "", 0)
  const GUEST := User(1, 0, "b", false, false)
  const IN_BOTH :=
    NotifyAll(AddRoom(SECOND, RoomData("a", false, Local, map[], map[]), FOUNDER), "a", 0,
              [Notice(0, [FOUNDER_ENTRY])])
  const WITH_GUEST := ExecuteConnected(IN_BOTH, 1)
  const GUEST_NOTICES := [
    Notice(0, [FOUNDER_ENTRY, Entry(1, "b", false, false, false)]),
    Notice(1, [FOUNDER_ENTRY.(you := false), Entry(1, "b", false, true, false)])
  ]
  const DISTRACTED := NotifyAll(AddUser(WITH_GUEST, "", GUEST), "", 1, GUEST_NOTICES)

  lemma CreateNamedFollows(create: Round)
    requires create == Round(Incoming(NOBODY, false, CREATE_A), NO_CHOICE.(notices := [Notice(0, [FOUNDER_ENTRY])]))
    ensures Follows(SECOND, AuthNone, create, IN_BOTH)
  {
    OnlyRoster();
    hide GoodNotices, NotifyAll;
    assert GoodCreate(SECOND, NOBODY, AuthNone, CREATE_A, create.ch);
    assert ExecuteCreate(SECOND, NOBODY, AuthNone, CREATE_A, create.ch) == Done(IN_BOTH);
    hide GoodCreate, ExecuteCreate;
    assert GoodChoice(SECOND, AuthNone, create.msg, create.ch);
  }

  lemma BothRosters()
    ensures GoodNotices(map[0 := FOUNDER, 1 := GUEST], GUEST_NOTICES)
  {
    assert Recipients(GUEST_NOTICES) == [0, 1];
    forall n | 0 <= n < 2 ensures IsRoster(map[0 := FOUNDER, 1 := GUEST], n, GUEST_NOTICES[n].users) {
      var list := GUEST_NOTICES[n].users;
      assert list[0].id == 0 && list[1].id == 1;
    }
  }

  lemma GuestConnects(connect: Round)
    requires NoDangling(IN_BOTH) && connect == Round(Incoming(GUEST_INFO, true, Connected), NO_CHOICE)
    ensures Follows(IN_BOTH, AuthNone, connect, WITH_GUEST)
  {
    hide NotifyAll;
  }

  lemma GuestJoins(join: Round)
    requires NoDangling(WITH_GUEST)
    requires join == Round(Incoming(GUEST_INFO, false, Join("", "b")),
                           NO_CHOICE.(ips := Some(NOWHERE), notices := GUEST_NOTICES))
    ensures Follows(WITH_GUEST, AuthNone, join, DISTRACTED) && JoinsNameless(WITH_GUEST, join.msg)
  {
    hide NotifyAll, NoDangling;
    BothRosters();
    hide GoodNotices;
    var users := map[0 := FOUNDER, 1 := GUEST];
    assert WITH_GUEST.rooms[""].users[1 := GUEST] == users;
    assert StreamersBut(users, 1) == {};
    assert GoodJoin(WITH_GUEST, GUEST_INFO, "", "b", join.ch);
    assert ExecuteJoin(WITH_GUEST, GUEST_INFO, "", "b", join.ch) == Done(DISTRACTED);
    hide GoodJoin, ExecuteJoin;
    assert GoodChoice(WITH_GUEST, AuthNone, join.msg, join.ch);
  }

  lemma RunOfFour() returns (rounds: seq<Round>, states: seq<State>)
    ensures Run(AuthNone, rounds, states) && |rounds| == 4 && |states| == 5 && states[4] == WITH_GUEST
    ensures NoDangling(WITH_GUEST)
  {
    hide Run, Follows, NoDangling, Inv, NotifyAll;
    var create := Round(Incoming(NOBODY, false, CREATE_A), NO_CHOICE.(notices := [Notice(0, [FOUNDER_ENTRY])]));
    var connect := Round(Incoming(GUEST_INFO, true, Connected), NO_CHOICE);
    CreateNamedFollows(create);
    rounds, states := RunOfThree(create, IN_BOTH);
    RunKeeps(AuthNone, rounds, states, 3);
    GuestConnects(connect);
    rounds, states := LongerRun(rounds, states, connect, WITH_GUEST);
    RunKeeps(AuthNone, rounds, states, 4);
  }

  lemma LongerRun(rounds: seq<Round>, states: seq<State>, round: Round, next: State)
    returns (rounds': seq<Round>, states': seq<State>)
    requires Run(AuthNone, rounds, states) && Follows(states[|rounds|], AuthNone, round, next)
    ensures Run(AuthNone, rounds', states') && |rounds'| == |rounds| + 1 && |states'| == |rounds'| + 1
    ensures states'[|rounds|] == states[|rounds|] && states'[|rounds| + 1] == next
  {
    RunLength(AuthNone, rounds, states);
    hide Run, Follows;
    RunOneMore(AuthNone, rounds, states, round, next);
    rounds', states' := rounds + [round], states + [next];
  }

  lemma RunOfFive() returns (rounds: seq<Round>, states: seq<State>, join: Round)
    ensures Run(AuthNone, rounds, states) && |rounds| == 5 && |states| == 6
    ensures states[4] == WITH_GUEST && states[5] == DISTRACTED
    ensures Follows(WITH_GUEST, AuthNone, join, DISTRACTED) && JoinsNameless(WITH_GUEST, join.msg)
  {
    hide Run, Follows, NoDangling, NotifyAll, JoinsNameless;
    rounds, states := RunOfFour();
    join := Round(Incoming(GUEST_INFO, false, Join("", "b")),
                  NO_CHOICE.(ips := Some(NOWHERE), notices := GUEST_NOTICES));
    GuestJoins(join);
    rounds, states := LongerRun(rounds, states, join, DISTRACTED);
  }

  lemma InBoth()
    ensures 0 in Nameless(WITH_GUEST.rooms) && IsUser(DISTRACTED.rooms, "a", 0)
  {
    hide NotifyAll;
  }

  /**
   * From the start of the program: connect, create a room without a name, then one with a name. Somebody else joins
   * the first, and the roster of the second is no longer the last its user was sent.
   */
  lemma RosterMissed()
    ensures exists rounds: seq<Round>, states: seq<State> ::
      && Run(AuthNone, rounds, states) && |rounds| == 5 && IsUser(states[5].rooms, "a", 0)
      && !HasRoster(states[5].log, "a", states[5].rooms["a"].users, 0)
  {
    hide Run, Follows, NoDangling, Inv, GoodChoice, Step, NotifyAll, JoinsNameless, HasRoster, ReadsNameless, Nameless;
    hide IsUser;
    var rounds, states, join := RunOfFive();
    RunKeeps(AuthNone, rounds, states, 4);
    RunKeeps(AuthNone, rounds, states, 5);
    FollowsMeans(WITH_GUEST, join, DISTRACTED);
    InBoth();
    JoinInforms(WITH_GUEST, AuthNone, join.msg, join.ch, 0);
    RosterOrNameless(DISTRACTED, "a", 0);
    assert "a" in DISTRACTED.rooms by { Within(DISTRACTED.rooms); }
  }

  lemma Within(rooms: RoomMap)
    requires IsUser(rooms, "a", 0)
    ensures "a" in rooms
  {}

  lemma FollowsMeans(a: State, round: Round, b: State)
    requires Follows(a, AuthNone, round, b)
    ensures NoDangling(a) && Allowed(a, round.msg) && GoodChoice(a, AuthNone, round.msg, round.ch)
    ensures b == Step(a, AuthNone, round.msg, round.ch)
  {}
}
