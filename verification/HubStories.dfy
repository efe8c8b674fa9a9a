/**
 * What the messages of a run lead to, in plain terms: which rooms there are, what their users are called, what each
 * session was opened with, who is disconnected, and in what order a turn writes.
 */
module HubStories {
  import opened Collections
  import opened HubModel
  import opened HubInvariants
  import opened HubAdditions
  import opened HubBoundary
  import opened HubEvents
  import opened HubDepartures
  import opened HubTheorems
  import opened HubOverview
  import opened HubNameless

  // ---- Who creates rooms ----------------------------------------------------------------------------------------

  /** Whoever is in no room and asks for one that is not there gets it, or is disconnected with nothing else changed. */
  lemma CreateDecided(st: State, auth: AuthMode, msg: Incoming, ch: Choice)
    requires Inv(st) && NoDangling(st) && Allowed(st, msg) && GoodChoice(st, auth, msg, ch)
    requires msg.event.Create? && msg.info.id in st.connected && st.connected[msg.info.id] == ""
    requires msg.event.id !in st.rooms
    ensures var id, rid, mode, info, r := msg.info.id, msg.event.id, msg.event.mode, msg.info, Step(st, auth, msg, ch);
      var admitted :=
        || auth.AuthNone?
        || (auth.AuthAll? && info.authenticated)
        || (auth.AuthTurn? && (info.authenticated || mode.Local? || mode.Stun?));
      && (rid in r.rooms <==> admitted)
      && (admitted ==>
            && id in r.connected && r.connected[id] == rid
            && IsUser(r.rooms, rid, id) && r.rooms[rid].users[id].owner)
      && (!admitted ==> r.rooms == st.rooms && r.connected == st.connected - {id})
  {
    hide Inv, NoDangling, GoodNotices, NotifyAll, Enumerates;
    AdmitsWhom(auth, msg.info, msg.event.mode);
  }

  lemma NextHall(halls: map<string, Hall>, at: string, auth: AuthMode, msg: Incoming, found: bool, madeUp: string,
        denied: bool, rid: string)
    requires rid in NextHalls(halls, at, auth, msg, found, madeUp, denied)
    ensures var hall := NextHalls(halls, at, auth, msg, found, madeUp, denied)[rid];
      || (rid in halls && hall.mode == halls[rid].mode && hall.closeOnOwnerLeave == halls[rid].closeOnOwnerLeave)
      || (msg.event.Create? && msg.event.id == rid && Admits(auth, msg.info, msg.event.mode) &&
            hall.mode == msg.event.mode && hall.closeOnOwnerLeave == msg.event.closeOnOwnerLeave)
  {
    hide Admits, NameFor;
  }

  /** This message creates a room of this kind, and its sender may. */
  predicate Creates(auth: AuthMode, msg: Incoming, rid: string, mode: Mode, closeOnOwnerLeave: bool) {
    && msg.event.Create? && msg.event.id == rid && msg.event.mode == mode
    && msg.event.closeOnOwnerLeave == closeOnOwnerLeave
    && (auth.AuthAll? ==> msg.info.authenticated)
    && (auth.AuthTurn? && !msg.info.authenticated ==> mode.Local? || mode.Stun?)
    && !auth.AuthOther?
  }

  /** In every run, every room there is was created by an earlier message, of someone who may create it. */
  lemma {:induction false} RoomStory(auth: AuthMode, rounds: seq<Round>, states: seq<State>, k: nat, rid: string)
    requires Run(auth, rounds, states) && k < |states| && rid in states[k].rooms
    ensures var room := states[k].rooms[rid];
      exists i :: 0 <= i < k && Creates(auth, rounds[i].msg, rid, room.mode, room.closeOnOwnerLeave)
  {
    hide Run, Halls, NextHalls, Creates, Denied;
    RunLength(auth, rounds, states);
    if k == 0 {
      RunBegins(auth, rounds, states);
    } else {
      var st, msg, ch := states[k - 1], rounds[k - 1].msg, rounds[k - 1].ch;
      RunHalls(auth, rounds, states, k - 1);
      HallAt(states[k].rooms, rid);
      HallAt(st.rooms, rid);
      if Ignored(st, msg) {
        RoomStory(auth, rounds, states, k - 1, rid);
      } else {
        NextHall(
          Halls(st.rooms), RoomOf(st, msg.info.id), auth, msg, ch.ips.Some?, ch.randomName, Denied(st, msg), rid);
        var room := states[k].rooms[rid];
        if rid in st.rooms && room.mode == st.rooms[rid].mode &&
          room.closeOnOwnerLeave == st.rooms[rid].closeOnOwnerLeave
        {
          RoomStory(auth, rounds, states, k - 1, rid);
        } else {
          assert Creates(auth, msg, rid, room.mode, room.closeOnOwnerLeave) by { CreatesIf(auth, msg, rid); }
        }
      }
    }
  }

  lemma CreatesIf(auth: AuthMode, msg: Incoming, rid: string)
    requires msg.event.Create? && msg.event.id == rid && Admits(auth, msg.info, msg.event.mode)
    ensures Creates(auth, msg, rid, msg.event.mode, msg.event.closeOnOwnerLeave)
  {}

  lemma RunBegins(auth: AuthMode, rounds: seq<Round>, states: seq<State>)
    requires Run(auth, rounds, states)
    ensures states[0] == INITIAL
  {}

  // ---- What users are called ------------------------------------------------------------------------------------

  /** The message of somebody who counts as being in no room, to join a room or create it, and the name they get. */
  predicate Enters(st: State, round: Round, rid: string, c: Id, name: string) {
    var msg := round.msg;
    && msg.info.id == c && !Ignored(st, msg) && RoomOf(st, c) == ""
    && (msg.event.Join? || msg.event.Create?) && msg.event.id == rid
    && var wanted := if msg.info.authenticated then msg.info.authenticatedUser else msg.event.userName;
       name == if wanted != "" then wanted else round.ch.randomName
  }

  /** The message of somebody in this room to change their name. */
  predicate Renames(st: State, round: Round, rid: string, c: Id) {
    && round.msg.info.id == c && !Ignored(st, round.msg) && round.msg.event.Name?
    && RoomOf(st, c) == rid && rid != ""
  }

  predicate Calls(st: State, round: Round, rid: string, c: Id, name: string) {
    || Enters(st, round, rid, c, name)
    || (Renames(st, round, rid, c) && name == round.msg.event.userName)
  }

  lemma NextUser(halls: map<string, Hall>, at: string, auth: AuthMode, msg: Incoming, found: bool, madeUp: string,
        denied: bool, rid: string, c: Id)
    requires var next := NextHalls(halls, at, auth, msg, found, madeUp, denied); rid in next && c in next[rid].users
    ensures var name := NextHalls(halls, at, auth, msg, found, madeUp, denied)[rid].users[c].name;
      || (msg.info.id == c && at == "" && (msg.event.Join? || msg.event.Create?) && msg.event.id == rid &&
            name == NameFor(msg.info, msg.event.userName, madeUp))
      || (msg.info.id == c && at == rid && rid != "" && msg.event.Name? && name == msg.event.userName)
      || (rid in halls && c in halls[rid].users && name == halls[rid].users[c].name &&
            !(msg.info.id == c && at == rid && rid != "" && msg.event.Name?))
  {
    hide Admits, NameFor;
  }

  lemma NextName(halls: map<string, Hall>, st: State, auth: AuthMode, round: Round, denied: bool, rid: string, c: Id)
    requires !Ignored(st, round.msg)
    requires var next := NextHalls(halls, RoomOf(st, round.msg.info.id), auth, round.msg, round.ch.ips.Some?,
                                   round.ch.randomName, denied);
      rid in next && c in next[rid].users
    ensures var next := NextHalls(halls, RoomOf(st, round.msg.info.id), auth, round.msg, round.ch.ips.Some?,
                                  round.ch.randomName, denied);
      || Calls(st, round, rid, c, next[rid].users[c].name)
      || (rid in halls && c in halls[rid].users && next[rid].users[c].name == halls[rid].users[c].name &&
            !Renames(st, round, rid, c))
  {
    hide NextHalls;
    NextUser(halls, RoomOf(st, round.msg.info.id), auth, round.msg, round.ch.ips.Some?, round.ch.randomName, denied,
             rid, c);
  }

  /** The name comes from this round, and no later one changes it. */
  ghost predicate CalledSince(rounds: seq<Round>, states: seq<State>, k: nat, rid: string, c: Id, name: string, i: nat)
    requires i < k <= |rounds| && k < |states|
  {
    Calls(states[i], rounds[i], rid, c, name) && forall j :: i < j < k ==> !Renames(states[j], rounds[j], rid, c)
  }

  /**
   * In every run, every user of a room is called what they asked for when they last changed their name there, and if
   * they never did: by their login if they are logged in, else as they asked, and only where that is empty by a name
   * that is made up.
   */
  lemma {:induction false} NameStory(auth: AuthMode, rounds: seq<Round>, states: seq<State>, k: nat, rid: string, c: Id)
    returns (i: nat)
    requires Run(auth, rounds, states) && k < |states| && IsUser(states[k].rooms, rid, c)
    ensures i < k <= |rounds|
    ensures CalledSince(rounds, states, k, rid, c, states[k].rooms[rid].users[c].name, i)
  {
    hide Run, Halls, NextHalls, Calls, Renames, Denied;
    RunLength(auth, rounds, states);
    if k == 0 {
      RunBegins(auth, rounds, states);
      assert false;
    } else {
      var st, msg, ch := states[k - 1], rounds[k - 1].msg, rounds[k - 1].ch;
      var name := states[k].rooms[rid].users[c].name;
      RunHalls(auth, rounds, states, k - 1);
      HallAt(states[k].rooms, rid);
      HallAt(st.rooms, rid);
      var kept :=
        IsUser(st.rooms, rid, c) && st.rooms[rid].users[c].name == name && !Renames(st, rounds[k - 1], rid, c);
      if Ignored(st, msg) {
        NotRenaming(st, rounds[k - 1], rid, c);
      } else {
        NextName(Halls(st.rooms), st, auth, rounds[k - 1], Denied(st, msg), rid, c);
      }
      if kept {
        i := NameStory(auth, rounds, states, k - 1, rid, c);
        assert CalledSince(rounds, states, k, rid, c, name, i);
      } else {
        i := k - 1;
      }
    }
  }

  lemma NotRenaming(st: State, round: Round, rid: string, c: Id)
    requires Ignored(st, round.msg)
    ensures !Renames(st, round, rid, c)
  {}

  // ---- What sessions are opened with ----------------------------------------------------------------------------

  predicate OpenedWith(st: State, sid: Sid, rid: string, ips: Ips) {
    && sid in st.history && st.history[sid].room == rid && st.history[sid].ips == ips
    && rid in st.rooms && sid in st.rooms[rid].sessions
  }

  lemma {:induction false} OpenAllWith(st: State, rid: string, actor: Id, hosting: bool, partners: seq<Id>, ips: Ips)
    requires rid in st.rooms && actor in st.rooms[rid].users && forall p :: p in partners ==> p in st.rooms[rid].users
    ensures var r := OpenAll(st, rid, actor, hosting, partners, ips);
      forall s :: s in r.history && s !in st.history ==> OpenedWith(r, s, rid, ips)
  {
    if partners != [] {
      var before := OpenAll(st, rid, actor, hosting, partners[..|partners| - 1], ips);
      OpenAllWith(st, rid, actor, hosting, partners[..|partners| - 1], ips);
      forall s | s in before.history && s !in st.history ensures OpenedWith(before, s, rid, ips) {}
    }
  }

  lemma JoinOpens(st: State, info: ClientInfo, rid: string, userName: string, ch: Choice, sid: Sid)
    requires GoodJoin(st, info, rid, userName, ch)
    requires sid in ExecuteJoin(st, info, rid, userName, ch).st.history && sid !in st.history
    ensures var outcome := ExecuteJoin(st, info, rid, userName, ch);
      outcome.Done? && ch.ips.Some? && OpenedWith(outcome.st, sid, rid, ch.ips.value)
  {
    hide OpenAll, NotifyAll, GoodNotices, OpenedWith;
    var user := User(info.id, info.addr, DisplayName(info, userName, ch.randomName), false, false);
    var joined := NotifyAll(AddUser(st, rid, user), rid, info.id, ch.notices);
    if ch.ips.Some? { OpenAllWith(joined, rid, info.id, false, ch.partners, ch.ips.value); }
  }

  lemma ShareOpens(st: State, id: Id, ch: Choice, sid: Sid)
    requires NoDangling(st) && GoodShare(st, id, ch)
    requires sid in ExecuteShare(st, id, ch).st.history && sid !in st.history
    ensures var outcome := ExecuteShare(st, id, ch);
      outcome.Done? && ch.ips.Some? && OpenedWith(outcome.st, sid, RoomOf(st, id), ch.ips.value)
  {
    hide OpenAll, NotifyAll, GoodNotices, OpenedWith;
    var at := RoomOf(st, id);
    var sharing := SetUser(st, at, id, st.rooms[at].users[id].(streaming := true));
    if ch.ips.Some? {
      var opens := OpenAll(sharing, at, id, true, ch.partners, ch.ips.value);
      OpenAllWith(sharing, at, id, true, ch.partners, ch.ips.value);
      SameSessions(opens, NotifyAll(opens, at, id, ch.notices), sid);
    }
  }

  lemma SameSessions(a: State, b: State, sid: Sid)
    requires b == a.(log := b.log)
    ensures forall rid, ips :: OpenedWith(a, sid, rid, ips) ==> OpenedWith(b, sid, rid, ips)
  {}

  lemma CreateOpens(st: State, info: ClientInfo, auth: AuthMode, e: Event, ch: Choice, sid: Sid)
    requires e.Create? && GoodCreate(st, info, auth, e, ch)
    requires sid in ExecuteCreate(st, info, auth, e, ch).st.history && sid !in st.history
    ensures var outcome := ExecuteCreate(st, info, auth, e, ch);
      outcome.Done? && ch.ips.Some? && OpenedWith(outcome.st, sid, e.id, ch.ips.value)
  {
    hide ExecuteJoin, GoodJoin, NotifyAll, GoodNotices, OpenedWith, CreateRefused, DisplayName;
    if RoomOf(st, info.id) == "" && e.id in st.rooms && e.joinIfExist {
      JoinOpens(st, info, e.id, e.userName, ch, sid);
    }
  }

  /** Every session a turn opens is opened with the addresses looked up in that turn, and lives after it. */
  lemma StepOpens(st: State, auth: AuthMode, msg: Incoming, ch: Choice, sid: Sid)
    requires Inv(st) && NoDangling(st) && Allowed(st, msg) && GoodChoice(st, auth, msg, ch)
    requires sid in Step(st, auth, msg, ch).history && sid !in st.history
    ensures var r := Step(st, auth, msg, ch);
      && ch.ips == Some(r.history[sid].ips) && Live(r.rooms, r.history, sid)
      && r.rooms[r.history[sid].room].mode == r.history[sid].mode
  {
    hide Inv, NoDangling, GoodNotices, Leave, GoodLeave, NotifyAll, EndAll, Enumerates, OpenedWith;
    hide GoodCreate, GoodJoin, GoodShare, ExecuteCreate, ExecuteJoin, ExecuteShare;
    var id := msg.info.id;
    if msg.event.StartShare? {
      ShareOpens(st, id, ch, sid);
    } else if msg.event.Join? {
      JoinOpens(st, msg.info, msg.event.id, msg.event.userName, ch, sid);
    } else {
      CreateOpens(st, msg.info, auth, msg.event, ch, sid);
    }
    LiveMode(st, auth, msg, ch, sid);
  }

  lemma LiveMode(st: State, auth: AuthMode, msg: Incoming, ch: Choice, sid: Sid)
    requires Inv(st) && NoDangling(st) && Allowed(st, msg) && GoodChoice(st, auth, msg, ch) && ch.ips.Some?
    requires exists rid :: OpenedWith(Step(st, auth, msg, ch), sid, rid, ch.ips.value)
    ensures var r := Step(st, auth, msg, ch);
      && sid in r.history && ch.ips == Some(r.history[sid].ips) && Live(r.rooms, r.history, sid)
      && r.rooms[r.history[sid].room].mode == r.history[sid].mode
  {
    hide Inv, NoDangling, GoodChoice, Step, Evolves, Announced;
    StepKeeps(st, auth, msg, ch);
    var r := Step(st, auth, msg, ch);
    InvConsistent(r);
    SessionFacts(r, r.history[sid].room, sid);
  }

  /**
   * In every run, every session was opened in a turn in which the addresses were looked up that its ends were told of,
   * in a room whose mode decided what servers these were.
   */
  lemma {:induction false} SessionStory(auth: AuthMode, rounds: seq<Round>, states: seq<State>, k: nat, sid: Sid)
    returns (i: nat)
    requires Run(auth, rounds, states) && k < |states| && sid in states[k].history
    ensures i < k <= |rounds| && sid !in states[i].history && sid in states[i + 1].history
    ensures var record, after := states[k].history[sid], states[i + 1];
      && rounds[i].ch.ips == Some(record.ips) && record == after.history[sid]
      && Live(after.rooms, after.history, sid) && after.rooms[record.room].mode == record.mode
  {
    hide Run, Inv, NoDangling, GoodChoice, Step, Live, ConnectionsFrozen;
    RunLength(auth, rounds, states);
    if k == 0 {
      RunBegins(auth, rounds, states);
      assert false;
    } else if sid in states[k - 1].history {
      i := SessionStory(auth, rounds, states, k - 1, sid);
      RunEvolves(auth, rounds, states, k - 1, k);
    } else {
      i := k - 1;
      RunKeeps(auth, rounds, states, i);
      RunFollows(auth, rounds, states, i);
      StepOpens(states[i], auth, rounds[i].msg, rounds[i].ch, sid);
    }
  }

  lemma RunFollows(auth: AuthMode, rounds: seq<Round>, states: seq<State>, i: nat)
    requires Run(auth, rounds, states) && i < |rounds|
    ensures Follows(states[i], auth, rounds[i], states[i + 1])
  {}

  // ---- Who is disconnected, and what they are told --------------------------------------------------------------

  /** Why a message is refused, if it is. */
  function Refusal(st: State, auth: AuthMode, msg: Incoming, found: bool): Option<Error> {
    var id := msg.info.id;
    var at := RoomOf(st, id);
    match msg.event
    case Connected => None
    case Disconnected(_, _) => None
    case Create(rid, mode, _, _, joinIfExist) =>
      if at != "" then Some(AlreadyInRoom)
      else if rid in st.rooms then
        if !joinIfExist then Some(RoomExists(rid)) else if found then None else Some(LookupFailed)
      else if Admits(auth, msg.info, mode) then None
      else if auth.AuthOther? then Some(InvalidAuthMode(auth.name)) else Some(LoginNeeded)
    case Join(rid, _) =>
      if at != "" then Some(AlreadyInRoom)
      else if rid !in st.rooms then Some(NoSuchRoom(rid))
      else if found then None else Some(LookupFailed)
    case Name(_) => if at == "" then Some(NotInRoom) else None
    case StartShare => if at == "" then Some(NotInRoom) else if found then None else Some(LookupFailed)
    case StopShare => if at == "" then Some(NotInRoom) else None
    case Relay(kind, sid, _) =>
      if at == "" then Some(NotInRoom)
      else if at in st.rooms && sid in st.rooms[at].sessions && SendingEnd(kind, st.rooms[at].sessions[sid]) != id
      then Some(PermissionDenied(sid))
      else None
  }

  /** It fails exactly where it is refused, and else leaves its connection registered. */
  ghost predicate FailsAs(outcome: Outcome, refusal: Option<Error>, id: Id) {
    && (outcome.Failed? <==> refusal.Some?) && (outcome.Failed? ==> outcome.error == refusal.value)
    && (outcome.Done? ==> id in outcome.st.connected)
  }

  lemma CreateFails(st: State, auth: AuthMode, msg: Incoming, ch: Choice)
    requires msg.event.Create? && msg.info.id in st.connected && GoodCreate(st, msg.info, auth, msg.event, ch)
    ensures FailsAs(ExecuteCreate(st, msg.info, auth, msg.event, ch), Refusal(st, auth, msg, ch.ips.Some?), msg.info.id)
  {
    hide GoodNotices, OpenAll, NotifyAll, Enumerates, CreateRefused, DisplayName, Admits;
    AdmitsWhom(auth, msg.info, msg.event.mode);
    if CreateRefused(auth, msg.info, msg.event.mode).Some? { RefusedHow(auth, msg.info, msg.event.mode); }
  }

  lemma JoinFails(st: State, auth: AuthMode, msg: Incoming, ch: Choice)
    requires msg.event.Join? && msg.info.id in st.connected
    requires GoodJoin(st, msg.info, msg.event.id, msg.event.userName, ch)
    ensures FailsAs(ExecuteJoin(st, msg.info, msg.event.id, msg.event.userName, ch),
                    Refusal(st, auth, msg, ch.ips.Some?), msg.info.id)
  {
    hide GoodNotices, OpenAll, NotifyAll, Enumerates, DisplayName;
  }

  lemma ShareFails(st: State, auth: AuthMode, msg: Incoming, ch: Choice)
    requires msg.event.StartShare? && msg.info.id in st.connected && NoDangling(st) && GoodShare(st, msg.info.id, ch)
    requires CurrentRoom(st, msg.info.id).Missing? ==>
      RoomOf(st, msg.info.id) == "" && CurrentRoom(st, msg.info.id).error == NotInRoom
    ensures FailsAs(ExecuteShare(st, msg.info.id, ch), Refusal(st, auth, msg, ch.ips.Some?), msg.info.id)
  {
    hide GoodNotices, OpenAll, NotifyAll, Enumerates;
  }

  lemma OthersFail(st: State, auth: AuthMode, msg: Incoming, ch: Choice)
    requires msg.info.id in st.connected && NoDangling(st) && GoodExecute(st, auth, msg, ch)
    requires msg.event.Name? || msg.event.StopShare? || msg.event.Relay?
    requires CurrentRoom(st, msg.info.id).Missing? ==>
      RoomOf(st, msg.info.id) == "" && CurrentRoom(st, msg.info.id).error == NotInRoom
    ensures FailsAs(Execute(st, auth, msg, ch), Refusal(st, auth, msg, ch.ips.Some?), msg.info.id)
  {
    hide GoodNotices, EndAll, NotifyAll, Enumerates;
  }

  lemma FailsWith(st: State, auth: AuthMode, msg: Incoming, ch: Choice)
    requires Inv(st) && NoDangling(st) && GoodExecute(st, auth, msg, ch) && !msg.event.Disconnected?
    requires msg.event.Connected? || msg.info.id in st.connected
    ensures FailsAs(Execute(st, auth, msg, ch), Refusal(st, auth, msg, ch.ips.Some?), msg.info.id)
  {
    if msg.info.id in st.connected { Whereabouts(st, msg.info.id); }
    hide Inv, NoDangling, CurrentRoom;
    match msg.event
    case Connected =>
    case Create(_, _, _, _, _) => CreateFails(st, auth, msg, ch);
    case Join(_, _) => JoinFails(st, auth, msg, ch);
    case StartShare => ShareFails(st, auth, msg, ch);
    case _ => OthersFail(st, auth, msg, ch);
  }

  lemma Whereabouts(st: State, id: Id)
    requires Inv(st) && id in st.connected
    ensures var current := CurrentRoom(st, id);
      current.Missing? ==> RoomOf(st, id) == "" && current.error == NotInRoom
  {
    hide RoomOk;
    WhereAmI(st, id) by { hide Consistent; }
  }

  lemma RefusedHow(auth: AuthMode, info: ClientInfo, mode: Mode)
    requires CreateRefused(auth, info, mode).Some?
    ensures CreateRefused(auth, info, mode).value ==
      if auth.AuthOther? then InvalidAuthMode(auth.name) else LoginNeeded
  {}

  /** The last that a connection is sent when it goes. */
  lemma LastWords(st: State, id: Id, code: int, reason: Reason, lc: LeaveChoice)
    requires AlmostInv(st, id) && GoodLeave(st, id, lc)
    ensures var r := Leave(st, id, code, reason, lc);
      Queue(r.log, id) == Queue(st.log, id) + [CloseWriter(code, reason)]
  {
    hide Consistent, AlmostInv, GoodLeave, Leave, Queue, NoneOfNameless, Evolves, Announced, RoomOk;
    var closed, r := CloseConnection(st, id, id, code, reason), Leave(st, id, code, reason, lc);
    LeaveHandled(st, id, code, reason, lc);
    LeaveWrites(st, id, code, reason, lc);
    QueueAppend(st.log, Sent(id, id, CloseWriter(code, reason)), id);
    NothingAfterClose(r, closed.log, id, |st.log|);
  }

  lemma NothingAfterClose(r: State, log: seq<Sent>, id: Id, n: nat)
    requires Consistent(r, {}, "") && NoneOfNameless(log, r.log)
    requires n < |log| && log[n].to == id && log[n].msg.CloseWriter?
    ensures Queue(r.log, id) == Queue(log, id)
  {
    hide Keyed, Members, Endpoints, Credentials, Counted, Traces, Dismissed, Queue;
    assert r.log[n] == log[n];
    NothingQueued(log, r.log, id);
  }

  /**
   * A turn disconnects the sender of its message exactly if they said so or were refused. The last they are sent is
   * what they said, or a normal closure with the reason of the refusal.
   */
  lemma Farewell(st: State, auth: AuthMode, msg: Incoming, ch: Choice)
    requires Inv(st) && NoDangling(st) && Allowed(st, msg) && GoodChoice(st, auth, msg, ch) && !Ignored(st, msg)
    ensures var id, r, refusal := msg.info.id, Step(st, auth, msg, ch), Refusal(st, auth, msg, ch.ips.Some?);
      var queue := Queue(r.log, id);
      && (id in r.connected <==> !msg.event.Disconnected? && refusal.None?)
      && (msg.event.Disconnected? ==>
            queue == Queue(st.log, id) + [CloseWriter(msg.event.code, msg.event.reason)])
      && (refusal.Some? ==> |queue| > 0 && queue[|queue| - 1] == CloseWriter(1000, Because(refusal.value)))
  {
    hide Inv, NoDangling, GoodLeave, Leave, Execute, GoodExecute, AlmostInv, Refusal, Queue, KeepsLive, Evolves;
    var id := msg.info.id;
    if msg.event.Disconnected? {
      InvAlmost(st, id);
      LeavesNow(st, auth, msg, ch);
      LastWords(st, id, msg.event.code, msg.event.reason, ch.leave);
    } else {
      FailsWith(st, auth, msg, ch);
      ExecuteHandled(st, auth, msg, ch);
      var outcome := Execute(st, auth, msg, ch);
      if outcome.Failed? { LastWords(outcome.st, id, 1000, Because(outcome.error), ch.leave); }
    }
  }

  lemma LeavesNow(st: State, auth: AuthMode, msg: Incoming, ch: Choice)
    requires NoDangling(st) && GoodChoice(st, auth, msg, ch) && !Ignored(st, msg) && msg.event.Disconnected?
    ensures GoodLeave(st, msg.info.id, ch.leave)
    ensures Step(st, auth, msg, ch) == Leave(st, msg.info.id, msg.event.code, msg.event.reason, ch.leave)
    ensures Refusal(st, auth, msg, ch.ips.Some?) == None
  {
    hide Leave, GoodLeave, NoDangling;
  }

  // ---- In what order a turn writes ------------------------------------------------------------------------------

  ghost predicate NoInfos(a: seq<Sent>, b: seq<Sent>) {
    a <= b && forall i :: |a| <= i < |b| ==> !b[i].msg.RoomInfo?
  }

  ghost predicate OnlyInfos(a: seq<Sent>, b: seq<Sent>) {
    a <= b && forall i :: |a| <= i < |b| ==> b[i].msg.RoomInfo?
  }

  /** First everything else, then room infos. */
  ghost predicate InfosLast(a: seq<Sent>, b: seq<Sent>) {
    exists mid: seq<Sent> :: NoInfos(a, mid) && OnlyInfos(mid, b)
  }

  /** First room infos, then everything else. */
  ghost predicate InfosFirst(a: seq<Sent>, b: seq<Sent>) {
    exists mid: seq<Sent> :: OnlyInfos(a, mid) && NoInfos(mid, b)
  }

  lemma NoInfosTransitive(a: seq<Sent>, b: seq<Sent>, c: seq<Sent>)
    requires NoInfos(a, b) && NoInfos(b, c)
    ensures NoInfos(a, c)
  {}

  lemma {:induction false} NotifyInfos(st: State, rid: string, actor: Id, notices: seq<Notice>)
    ensures OnlyInfos(st.log, NotifyAll(st, rid, actor, notices).log)
  {
    if notices != [] { NotifyInfos(st, rid, actor, notices[..|notices| - 1]); }
  }

  lemma {:induction false} OpenInfos(st: State, rid: string, actor: Id, hosting: bool, partners: seq<Id>, ips: Ips)
    requires rid in st.rooms && actor in st.rooms[rid].users && forall p :: p in partners ==> p in st.rooms[rid].users
    ensures NoInfos(st.log, OpenAll(st, rid, actor, hosting, partners, ips).log)
  {
    if partners != [] { OpenInfos(st, rid, actor, hosting, partners[..|partners| - 1], ips); }
  }

  lemma {:induction false} EndInfos(st: State, rid: string, actor: Id, sids: seq<Sid>)
    requires rid in st.rooms && (forall s :: s in sids ==> s in st.rooms[rid].sessions)
    requires forall i, j :: 0 <= i < j < |sids| ==> sids[i] != sids[j]
    ensures NoInfos(st.log, EndAll(st, rid, actor, sids).log)
  {
    if sids != [] {
      assert sids == sids[..|sids| - 1] + [sids[|sids| - 1]];
      EndInfos(st, rid, actor, sids[..|sids| - 1]);
    }
  }

  lemma {:induction false} KickInfos(st: State, actor: Id, members: seq<Id>)
    ensures NoInfos(st.log, KickAll(st, actor, members).log)
  {
    if members != [] { KickInfos(st, actor, members[..|members| - 1]); }
  }

  lemma LeaveInfos(st: State, id: Id, code: int, reason: Reason, lc: LeaveChoice)
    requires GoodLeave(st, id, lc)
    ensures InfosLast(st.log, Leave(st, id, code, reason, lc).log)
  {
    hide GoodNotices, EndAll, CloseAll, KickAll, NotifyAll, InfosLast;
    var rid, closed, r := RoomOf(st, id), CloseConnection(st, id, id, code, reason), Leave(st, id, code, reason, lc);
    assert NoInfos(st.log, closed.log);
    hide NoInfos, OnlyInfos;
    if rid != "" && rid in st.rooms && id in st.rooms[rid].users {
      var left := RemoveUser(EndAll(closed, rid, id, lc.ending), rid, id);
      EndInfos(closed, rid, id, lc.ending);
      NoInfosTransitive(st.log, closed.log, left.log);
      if OwnerCloses(st.rooms[rid], id) {
        KickInfos(left, id, lc.members);
        CloseWrites(KickAll(left, id, lc.members), rid, lc.closing);
        NoInfosTransitive(st.log, left.log, KickAll(left, id, lc.members).log);
        NoneAtEnd(st.log, r.log);
      } else if st.rooms[rid].users - {id} == map[] {
        CloseWrites(left, rid, lc.closing);
        NoneAtEnd(st.log, r.log);
      } else {
        NotifyInfos(left, rid, id, lc.notices);
        Split(st.log, left.log, r.log);
      }
    } else {
      NoneAtEnd(st.log, r.log);
    }
  }

  lemma Split(a: seq<Sent>, mid: seq<Sent>, b: seq<Sent>)
    ensures NoInfos(a, mid) && OnlyInfos(mid, b) ==> InfosLast(a, b)
    ensures OnlyInfos(a, mid) && NoInfos(mid, b) ==> InfosFirst(a, b)
  {}

  lemma NoneAtEnd(a: seq<Sent>, b: seq<Sent>)
    requires NoInfos(a, b)
    ensures InfosLast(a, b)
  {
    assert OnlyInfos(b, b);
  }

  /** The message asks to join a room that is there. */
  predicate AsksToJoin(st: State, msg: Incoming) {
    (msg.event.Join? || (msg.event.Create? && msg.event.joinIfExist)) && msg.event.id in st.rooms
  }

  lemma JoinOrder(st: State, info: ClientInfo, rid: string, userName: string, ch: Choice)
    requires GoodJoin(st, info, rid, userName, ch)
    ensures var outcome := ExecuteJoin(st, info, rid, userName, ch);
      && (outcome.Done? ==> InfosFirst(st.log, outcome.st.log))
      && (RoomOf(st, info.id) != "" || rid !in st.rooms ==> outcome.st == st)
  {
    hide OpenAll, NotifyAll, GoodNotices, InfosFirst, NoInfos, OnlyInfos;
    if RoomOf(st, info.id) == "" && rid in st.rooms && ch.ips.Some? {
      var user := User(info.id, info.addr, DisplayName(info, userName, ch.randomName), false, false);
      var added := AddUser(st, rid, user);
      var joined := NotifyAll(added, rid, info.id, ch.notices);
      NotifyInfos(added, rid, info.id, ch.notices);
      OpenInfos(joined, rid, info.id, false, ch.partners, ch.ips.value);
      Split(st.log, joined.log, OpenAll(joined, rid, info.id, false, ch.partners, ch.ips.value).log);
    }
  }

  lemma CreateOrder(st: State, info: ClientInfo, auth: AuthMode, e: Event, ch: Choice)
    requires e.Create? && GoodCreate(st, info, auth, e, ch) && !(e.joinIfExist && e.id in st.rooms)
    ensures var outcome := ExecuteCreate(st, info, auth, e, ch);
      InfosLast(st.log, outcome.st.log) && (outcome.Failed? ==> outcome.st == st)
  {
    hide NotifyAll, GoodNotices, InfosLast, NoInfos, OnlyInfos, ExecuteJoin, GoodJoin, CreateRefused, DisplayName;
    Nothing(st.log);
    if RoomOf(st, info.id) == "" && e.id !in st.rooms && CreateRefused(auth, info, e.mode).None? {
      var owner := User(info.id, info.addr, DisplayName(info, e.userName, ch.randomName), false, true);
      var room := RoomData(e.id, e.closeOnOwnerLeave, e.mode, map[], map[]);
      NotifyInfos(AddRoom(st, room, owner), e.id, info.id, ch.notices);
      Split(st.log, st.log, NotifyAll(AddRoom(st, room, owner), e.id, info.id, ch.notices).log);
    }
  }

  lemma Nothing(log: seq<Sent>)
    ensures NoInfos(log, log) && InfosLast(log, log)
  {
    NoneAtEnd(log, log);
  }

  lemma ShareOrder(st: State, id: Id, ch: Choice)
    requires NoDangling(st) && GoodShare(st, id, ch)
    ensures var outcome := ExecuteShare(st, id, ch);
      InfosLast(st.log, outcome.st.log) && (outcome.Failed? ==> outcome.st.log == st.log)
  {
    hide OpenAll, NotifyAll, GoodNotices, InfosLast, NoInfos, OnlyInfos;
    Nothing(st.log);
    var current := CurrentRoom(st, id);
    if current.Found? && ch.ips.Some? {
      var sharing := SetUser(st, current.rid, id, st.rooms[current.rid].users[id].(streaming := true));
      var opens := OpenAll(sharing, current.rid, id, true, ch.partners, ch.ips.value);
      OpenInfos(sharing, current.rid, id, true, ch.partners, ch.ips.value);
      NotifyInfos(opens, current.rid, id, ch.notices);
      Split(st.log, opens.log, NotifyAll(opens, current.rid, id, ch.notices).log);
    }
  }

  lemma StopOrder(st: State, id: Id, ch: Choice)
    requires NoDangling(st) && GoodStop(st, id, ch)
    ensures var outcome := ExecuteStop(st, id, ch);
      InfosLast(st.log, outcome.st.log) && (outcome.Failed? ==> outcome.st.log == st.log)
  {
    hide EndAll, NotifyAll, GoodNotices, InfosLast, NoInfos, OnlyInfos;
    Nothing(st.log);
    var current := CurrentRoom(st, id);
    if current.Found? {
      var stopped := SetUser(st, current.rid, id, st.rooms[current.rid].users[id].(streaming := false));
      var ended := EndAll(stopped, current.rid, id, ch.ending);
      EndInfos(stopped, current.rid, id, ch.ending);
      NotifyInfos(ended, current.rid, id, ch.notices);
      Split(st.log, ended.log, NotifyAll(ended, current.rid, id, ch.notices).log);
    }
  }

  lemma NameOrder(st: State, id: Id, userName: string, ch: Choice)
    requires NoDangling(st) && GoodName(st, id, userName, ch)
    ensures var outcome := ExecuteName(st, id, userName, ch);
      InfosLast(st.log, outcome.st.log) && (outcome.Failed? ==> outcome.st.log == st.log)
  {
    hide NotifyAll, GoodNotices, InfosLast, NoInfos, OnlyInfos;
    Nothing(st.log);
    var current := CurrentRoom(st, id);
    if current.Found? {
      var mid := SetUser(st, current.rid, id, st.rooms[current.rid].users[id].(name := userName));
      NotifyInfos(mid, current.rid, id, ch.notices);
      Split(st.log, st.log, NotifyAll(mid, current.rid, id, ch.notices).log);
    }
  }

  lemma RelayOrder(st: State, id: Id, kind: RelayKind, sid: Sid, value: string)
    ensures var outcome := ExecuteRelay(st, id, kind, sid, value);
      InfosLast(st.log, outcome.st.log) && (outcome.Failed? ==> outcome.st.log == st.log)
  {
    hide InfosLast;
    NoneAtEnd(st.log, ExecuteRelay(st, id, kind, sid, value).st.log);
  }

  /**
   * A turn that lets its sender join a room writes the room infos first and what goes with new sessions after them.
   * Any other turn writes its room infos last, but for a join that fails.
   */
  lemma StepOrder(st: State, auth: AuthMode, msg: Incoming, ch: Choice)
    requires Inv(st) && NoDangling(st) && Allowed(st, msg) && GoodChoice(st, auth, msg, ch) && !Ignored(st, msg)
    ensures var r := Step(st, auth, msg, ch);
      && (AsksToJoin(st, msg) && Refusal(st, auth, msg, ch.ips.Some?).None? ==> InfosFirst(st.log, r.log))
      && (!AsksToJoin(st, msg) ==> InfosLast(st.log, r.log))
  {
    hide Inv, NoDangling, Leave, GoodLeave, GoodCreate, GoodJoin, GoodName, GoodShare, GoodStop, ExecuteJoin, Refusal;
    hide ExecuteCreate, ExecuteName, ExecuteShare, ExecuteStop, ExecuteRelay, InfosFirst, InfosLast, NoInfos;
    var id := msg.info.id;
    Nothing(st.log);
    if !msg.event.Disconnected? { FailsWith(st, auth, msg, ch); }
    match msg.event {
      case Connected =>
      case Create(rid, _, _, _, joinIfExist) =>
        if joinIfExist && rid in st.rooms {
          CreateJoins(st, auth, msg, ch);
          JoinOrder(st, msg.info, rid, msg.event.userName, ch);
        } else {
          CreateOrder(st, msg.info, auth, msg.event, ch);
        }
      case Join(rid, userName) => JoinOrder(st, msg.info, rid, userName, ch);
      case Name(userName) => NameOrder(st, id, userName, ch);
      case StartShare => ShareOrder(st, id, ch);
      case StopShare => StopOrder(st, id, ch);
      case Relay(kind, sid, value) => RelayOrder(st, id, kind, sid, value);
      case Disconnected(code, reason) => LeaveInfos(st, id, code, reason, ch.leave);
    }
    if !msg.event.Disconnected? {
      var outcome := Execute(st, auth, msg, ch);
      if outcome.Failed? && !AsksToJoin(st, msg) {
        LeaveInfos(outcome.st, id, NORMAL_CLOSURE, Because(outcome.error), ch.leave);
        assert outcome.st.log == st.log;
      }
    }
  }

  lemma CreateJoins(st: State, auth: AuthMode, msg: Incoming, ch: Choice)
    requires msg.event.Create? && msg.event.joinIfExist && msg.event.id in st.rooms
    requires GoodCreate(st, msg.info, auth, msg.event, ch)
    ensures RoomOf(st, msg.info.id) == "" ==>
      GoodJoin(st, msg.info, msg.event.id, msg.event.userName, ch) &&
      ExecuteCreate(st, msg.info, auth, msg.event, ch) ==
      ExecuteJoin(st, msg.info, msg.event.id, msg.event.userName, ch)
    ensures RoomOf(st, msg.info.id) != "" ==>
      ExecuteCreate(st, msg.info, auth, msg.event, ch) == Failed(st, AlreadyInRoom)
    ensures GoodJoin(st, msg.info, msg.event.id, msg.event.userName, ch)
  {
    hide GoodNotices, NotifyAll, OpenAll, Enumerates;
  }
}
