/** What holds in every run of the hub. */
module HubTheorems {
  import opened Collections
  import opened HubModel
  import opened HubInvariants
  import opened HubAdditions
  import opened HubLoops
  import opened HubBoundary
  import opened HubEvents
  import opened HubArrivals
  import opened HubDepartures
  import opened RosterOrder

  // ---- One turn of the loop --------------------------------------------------------------------------------

  lemma ExecuteHandled(st: State, auth: AuthMode, msg: Incoming, ch: Choice)
    requires Inv(st) && NoDangling(st) && Allowed(st, msg) && !Ignored(st, msg) && GoodExecute(st, auth, msg, ch)
    requires !msg.event.Disconnected?
    ensures Handled(st, Execute(st, auth, msg, ch), msg.info.id)
  {
    hide Inv, NoDangling, Handled, GoodCreate, GoodJoin, GoodName, GoodShare, GoodStop, ExecuteCreate, ExecuteJoin;
    hide ExecuteName, ExecuteShare, ExecuteStop, ExecuteRelay, ExecuteConnected;
    var id := msg.info.id;
    match msg.event
    case Connected => ConnectedHandled(st, id);
    case Create(_, _, _, _, _) => CreateHandled(st, msg.info, auth, msg.event, ch);
    case Join(rid, userName) => JoinHandled(st, msg.info, rid, userName, ch);
    case Name(userName) => NameHandled(st, id, userName, ch);
    case StartShare => ShareHandled(st, id, ch);
    case StopShare => StopHandled(st, id, ch);
    case Relay(kind, sid, value) => RelayHandled(st, id, kind, sid, value);
  }

  /** Every message takes a state in order to a state in order, undoes nothing, and ends no session silently. */
  lemma StepKeeps(st: State, auth: AuthMode, msg: Incoming, ch: Choice)
    requires Inv(st) && NoDangling(st) && Allowed(st, msg) && GoodChoice(st, auth, msg, ch)
    ensures var r := Step(st, auth, msg, ch); Inv(r) && NoDangling(r) && Evolves(st, r) && Announced(st, r, msg.info.id)
  {
    hide Consistent, RoomOk, NoDangling, Announced, Evolves, AlmostInv, KeepsLive, GoodLeave, Leave, GoodExecute;
    hide ExecuteCreate, ExecuteJoin, ExecuteName, ExecuteShare, ExecuteStop, ExecuteRelay, ExecuteConnected;
    var r := Step(st, auth, msg, ch);
    if Ignored(st, msg) {
      EvolvesReflexive(st);
      KeepsLiveSilent(st, st, msg.info.id) by { hide *; LiveStays(st); }
    } else if msg.event.Disconnected? {
      InvAlmost(st, msg.info.id);
      LeaveNow(st, auth, msg, ch);
    } else {
      ExecuteHandled(st, auth, msg, ch);
      var outcome := Execute(st, auth, msg, ch);
      if outcome.Failed? {
        LeaveHandled(outcome.st, msg.info.id, NORMAL_CLOSURE, Because(outcome.error), ch.leave);
        EvolvesTransitive(st, outcome.st, r);
        LogGrows(st, outcome.st);
        KeepsLiveAnnounces(st, outcome.st, r, msg.info.id);
      }
    }
    InvNoDangling(r);
  }

  lemma LiveStays(st: State)
    ensures KeepsLive(st, st)
  {}

  lemma LeaveNow(st: State, auth: AuthMode, msg: Incoming, ch: Choice)
    requires NoDangling(st) && AlmostInv(st, msg.info.id) && msg.event.Disconnected? && !Ignored(st, msg)
    requires GoodChoice(st, auth, msg, ch)
    ensures var r := Step(st, auth, msg, ch); Inv(r) && Evolves(st, r) && Announced(st, r, msg.info.id)
  {
    hide AlmostInv, NoDangling, Inv, Evolves, Announced, Leave, GoodLeave;
    LeaveHandled(st, msg.info.id, msg.event.code, msg.event.reason, ch.leave);
  }

  // ---- Runs ---------------------------------------------------------------------------------------------------

  datatype Round = Round(msg: Incoming, ch: Choice)

  /** One message is handled. NoDangling says that the handlers are defined on the state. */
  ghost predicate Follows(a: State, auth: AuthMode, round: Round, b: State) {
    && NoDangling(a) && Allowed(a, round.msg) && GoodChoice(a, auth, round.msg, round.ch)
    && b == Step(a, auth, round.msg, round.ch)
  }

  /** The states between the messages of a run, from the start of the program. */
  ghost predicate Run(auth: AuthMode, rounds: seq<Round>, states: seq<State>) {
    && |states| == |rounds| + 1 && states[0] == INITIAL
    && forall i {:trigger rounds[i]} :: 0 <= i < |rounds| ==> Follows(states[i], auth, rounds[i], states[i + 1])
  }

  lemma InitialCounted()
    ensures Counted(INITIAL.rooms, INITIAL.counters, 0)
  {
    assert LivePairs(INITIAL.rooms) == {} && MemberPairs(INITIAL.rooms) == {};
  }

  lemma InitialTraces()
    ensures Traces(INITIAL.rooms, INITIAL.history, INITIAL.log)
    ensures Quiet({}, INITIAL.connected, INITIAL.known, INITIAL.log)
    ensures Dismissed(INITIAL.connected, INITIAL.known, INITIAL.log)
  {
    hide OpenTrace, ClosedTrace;
  }

  lemma InitialInv()
    ensures Inv(INITIAL)
  {
    hide Counted, Traces, Quiet, Dismissed, RoomOk, KeyedRoom, RegisteredIn, SessionsIn, ListedIn;
    InitialCounted();
    InitialTraces();
  }

  /** The invariant holds in every state of every run, and no handler ever misses a user it takes for granted. */
  lemma {:induction false} RunKeeps(auth: AuthMode, rounds: seq<Round>, states: seq<State>, k: nat)
    requires Run(auth, rounds, states) && k < |states|
    ensures Inv(states[k]) && NoDangling(states[k])
  {
    hide Inv, NoDangling, Allowed, GoodChoice, Step;
    if k == 0 {
      InitialInv();
      InvNoDangling(INITIAL) by { InvConsistent(INITIAL); }
    } else {
      RunKeeps(auth, rounds, states, k - 1);
      assert Follows(states[k - 1], auth, rounds[k - 1], states[k - 1 + 1]);
      StepKeeps(states[k - 1], auth, rounds[k - 1].msg, rounds[k - 1].ch);
    }
  }

  /** What is closed stays closed, between any two states of a run. */
  lemma {:induction false} RunEvolves(auth: AuthMode, rounds: seq<Round>, states: seq<State>, i: nat, k: nat)
    requires Run(auth, rounds, states) && i <= k < |states|
    ensures Evolves(states[i], states[k])
    decreases k
  {
    hide Inv, NoDangling, Allowed, GoodChoice, Step, Evolves, Announced;
    if i == k {
      EvolvesReflexive(states[i]);
    } else {
      RunEvolves(auth, rounds, states, i, k - 1);
      RunKeeps(auth, rounds, states, k - 1);
      assert Follows(states[k - 1], auth, rounds[k - 1], states[k - 1 + 1]);
      StepKeeps(states[k - 1], auth, rounds[k - 1].msg, rounds[k - 1].ch);
      EvolvesTransitive(states[i], states[k - 1], states[k]);
    }
  }

  /** Whenever a turn ends a session, both ends other than the cause learn it in that turn. */
  lemma RunAnnounces(auth: AuthMode, rounds: seq<Round>, states: seq<State>, k: nat)
    requires Run(auth, rounds, states) && k < |rounds|
    ensures Announced(states[k], states[k + 1], rounds[k].msg.info.id)
  {
    hide Inv, NoDangling, Allowed, GoodChoice, Step, Evolves, Announced;
    RunKeeps(auth, rounds, states, k);
    assert Follows(states[k], auth, rounds[k], states[k + 1]);
    StepKeeps(states[k], auth, rounds[k].msg, rounds[k].ch);
  }

  // ---- Sessions --------------------------------------------------------------------------------------------------

  /** The life of a session as its messages tell it. */
  ghost predicate WellFormedTrace(w: seq<Sent>, record: Record, sid: Sid) {
    var session := record.session;
    && |w| >= 2
    && (forall i :: 0 <= i < |w| ==> (w[i].msg.HostSession? <==> i == 0) && (w[i].msg.ClientSession? <==> i == 1))
    && w[0].to == session.host && w[0].msg.peer == session.client
    && w[1].to == session.client && w[1].msg.peer == session.host
    && (record.mode.Turn? ==>
          && w[0].msg.ice == TurnServers(record.ips, Username(sid, HostRole))
          && w[1].msg.ice == TurnServers(record.ips, Username(sid, ClientRole)))
    && (record.mode.Stun? ==> w[0].msg.ice == StunServers(record.ips) && w[1].msg.ice == StunServers(record.ips))
    && (record.mode.Local? || record.mode.OtherMode? ==> w[0].msg.ice == NoServers && w[1].msg.ice == NoServers)
    && (forall i :: 0 <= i < |w| && w[i].msg.EndShare? ==> i == |w| - 1 && IsEnd(w[i], sid, session))
    && (forall i :: 0 <= i < |w| && w[i].msg.Relayed? ==>
          && (w[i].msg.kind in {HostOffer, HostICE} ==> w[i].actor == session.host && w[i].to == session.client)
          && (w[i].msg.kind in {ClientAnswer, ClientICE} ==> w[i].actor == session.client && w[i].to == session.host))
  }

  lemma TraceMeaning(w: seq<Sent>, record: Record, sid: Sid)
    requires ClosedTrace(w, sid, record)
    ensures WellFormedTrace(w, record, sid)
  {
    if !OpenTrace(w, sid, record) {
      var v := w[..|w| - 1];
      assert forall i :: 0 <= i < |v| ==> w[i] == v[i];
    }
  }

  /** In every run, each session ever opened has such a life, and no end yet while it is live. */
  lemma SessionLife(auth: AuthMode, rounds: seq<Round>, states: seq<State>, k: nat, sid: Sid)
    requires Run(auth, rounds, states) && k < |states|
    ensures var st := states[k];
      && (sid !in st.history ==> SessionLog(st.log, sid) == [])
      && (sid in st.history ==> WellFormedTrace(SessionLog(st.log, sid), st.history[sid], sid))
      && (Live(st.rooms, st.history, sid) ==> forall e :: e in SessionLog(st.log, sid) ==> !e.msg.EndShare?)
  {
    hide Run, Keyed, Members, Endpoints, Credentials, Counted, Quiet, Dismissed, RoomOk;
    RunKeeps(auth, rounds, states, k);
    var st := states[k];
    assert TraceOf(SessionLog(st.log, sid), Live(st.rooms, st.history, sid), st.history, sid);
    if sid in st.history { TraceMeaning(SessionLog(st.log, sid), st.history[sid], sid); }
  }

  /** Once a session is closed it never lives again, and nothing that carries its identifier is sent any more. */
  lemma ClosedForever(auth: AuthMode, rounds: seq<Round>, states: seq<State>, i: nat, k: nat, sid: Sid)
    requires Run(auth, rounds, states) && i <= k < |states|
    requires sid in states[i].history && !Live(states[i].rooms, states[i].history, sid)
    ensures !Live(states[k].rooms, states[k].history, sid)
    ensures SessionLog(states[k].log, sid) == SessionLog(states[i].log, sid)
  {
    hide Run, Live;
    RunEvolves(auth, rounds, states, i, k);
  }

  /** The end of a session that sends, and the end that receives, a relayed message of some kind. */
  function SendingEnd(kind: RelayKind, session: Session): Id {
    match kind
    case HostOffer => session.host
    case HostICE => session.host
    case ClientAnswer => session.client
    case ClientICE => session.client
  }

  function ReceivingEnd(kind: RelayKind, session: Session): Id {
    match kind
    case HostOffer => session.client
    case HostICE => session.client
    case ClientAnswer => session.host
    case ClientICE => session.host
  }

  /**
   * A message is relayed, as it is and to the other end, exactly when its session is live and its sender is the
   * right end of it. With a session that its room does not know nothing happens, and nothing happens only then; a
   * sender that is in no room, or at the wrong end, is disconnected.
   */
  lemma RelayDelivers(st: State, auth: AuthMode, msg: Incoming, ch: Choice)
    requires Inv(st) && NoDangling(st) && Allowed(st, msg) && msg.event.Relay? && msg.info.id in st.connected
    requires GoodChoice(st, auth, msg, ch)
    ensures var sid, kind, id, r := msg.event.sid, msg.event.kind, msg.info.id, Step(st, auth, msg, ch);
      && ((Live(st.rooms, st.history, sid) && SendingEnd(kind, st.history[sid].session) == id) <==>
            (id in r.connected && r != st))
      && (id in r.connected && r != st ==>
            r == Send(st, ReceivingEnd(kind, st.history[sid].session), id, Relayed(kind, sid, msg.event.value)))
      && (r == st <==> st.connected[id] != "" && sid !in st.rooms[st.connected[id]].sessions)
      && (id in r.connected <==>
            (st.connected[id] != "" &&
             var sessions := st.rooms[st.connected[id]].sessions;
             sid in sessions ==> SendingEnd(kind, sessions[sid]) == id))
  {
    hide Leave, GoodLeave, NoDangling, Credentials, Counted, Traces, Quiet, Dismissed, RoomOk;
    var sid, id := msg.event.sid, msg.info.id;
    WhereAmI(st, id);
    if Live(st.rooms, st.history, sid) {
      SessionFacts(st, st.history[sid].room, sid);
      UserIsConnected(st, st.history[sid].room);
    }
    var outcome := Execute(st, auth, msg, ch);
    var current := CurrentRoom(st, id);
    if current.Found? && sid in st.rooms[current.rid].sessions { SessionFacts(st, current.rid, sid); }
  }

  // ---- Connections ------------------------------------------------------------------------------------------------

  /** What is in a queue was written to it. */
  lemma {:induction false} InQueue(log: seq<Sent>, id: Id, k: nat) returns (i: nat)
    requires k < |Queue(log, id)|
    ensures i < |log| && log[i].to == id && log[i].msg == Queue(log, id)[k]
  {
    var n := |log| - 1;
    if k < |Queue(log[..n], id)| { i := InQueue(log[..n], id, k); } else { i := n; }
  }

  /** What comes after a close message in a queue was written after it. */
  lemma {:induction false} AfterClose(nameless: set<Id>, log: seq<Sent>, id: Id, q: seq<Message>)
    requires q == Queue(log, id)
    requires forall i, j :: 0 <= i < j < |log| && log[i].msg.CloseWriter? && log[j].to == log[i].to ==>
      OfNameless(log[j].msg) && log[j].to in nameless
    ensures forall i, j :: 0 <= i < j < |q| && q[i].CloseWriter? ==> OfNameless(q[j]) && id in nameless
  {
    if log != [] {
      var n := |log| - 1;
      var before := Queue(log[..n], id);
      AfterClose(nameless, log[..n], id, before);
      forall i, j | 0 <= i < j < |q| && q[i].CloseWriter? ensures OfNameless(q[j]) && id in nameless {
        assert q[i] == before[i];
        if j < |before| {
          assert q[j] == before[j];
        } else {
          var k := InQueue(log[..n], id, i);
          assert log[k] == log[..n][k];
        }
      }
    }
  }

  /** What was written to a connection is in its queue. */
  lemma {:induction false} WrittenIsQueued(log: seq<Sent>, id: Id, i: nat) returns (k: nat)
    requires i < |log| && log[i].to == id
    ensures k < |Queue(log, id)| && Queue(log, id)[k] == log[i].msg
  {
    var n := |log| - 1;
    if i == n { k := |Queue(log[..n], id)|; } else { k := WrittenIsQueued(log[..n], id, i); }
  }

  /** A connection that is gone stays gone, and the loop ignores whatever it still says: nothing at all changes. */
  lemma GoneForGood(auth: AuthMode, rounds: seq<Round>, states: seq<State>, i: nat, k: nat, id: Id, msg: Incoming)
    requires Run(auth, rounds, states) && i <= k < |states|
    requires Gone(states[i], id) && msg.info.id == id && Allowed(states[k], msg)
    ensures Gone(states[k], id) && NoDangling(states[k])
    ensures forall ch :: GoodChoice(states[k], auth, msg, ch) && Step(states[k], auth, msg, ch) == states[k]
  {
    hide Run, Inv, NoDangling, Execute, GoodExecute, SessionsFrozen, Nameless;
    RunKeeps(auth, rounds, states, k);
    RunEvolves(auth, rounds, states, i, k);
    assert Ignored(states[k], msg);
  }

  /**
   * In every run, a connection has been sent a close message exactly when it is registered no more, and then exactly
   * one. It is the very last thing in its queue, unless the connection is a user of the room without a name: then
   * room infos of that room may follow, and nothing else.
   */
  lemma CloseIsFinal(auth: AuthMode, rounds: seq<Round>, states: seq<State>, k: nat, id: Id)
    requires Run(auth, rounds, states) && k < |states|
    ensures var st := states[k];
      var q := Queue(st.log, id);
      && ((exists j :: 0 <= j < |q| && q[j].CloseWriter?) <==> Gone(st, id))
      && (forall i, j :: 0 <= i < |q| && 0 <= j < |q| && q[i].CloseWriter? && q[j].CloseWriter? ==> i == j)
      && (forall i, j :: 0 <= i < j < |q| && q[i].CloseWriter? ==> OfNameless(q[j]) && id in Nameless(st.rooms))
  {
    hide Run, Keyed, Members, Endpoints, Credentials, Counted, Traces, Dismissed, RoomOk, NoDangling, Queue, Nameless;
    RunKeeps(auth, rounds, states, k);
    var st := states[k];
    var q := Queue(st.log, id);
    AfterClose(Nameless(st.rooms), st.log, id, q);
    if Gone(st, id) { var j := GoneIsClosed(st, id); }
    forall j | 0 <= j < |q| && q[j].CloseWriter? ensures Gone(st, id) { ClosedIsGone(st, id, j); }
  }

  lemma GoneIsClosed(st: State, id: Id) returns (j: nat)
    requires Dismissed(st.connected, st.known, st.log) && Gone(st, id)
    ensures j < |Queue(st.log, id)| && Queue(st.log, id)[j].CloseWriter?
  {
    assert WasClosed(st.log, id);
    var i :| 0 <= i < |st.log| && st.log[i].to == id && st.log[i].msg.CloseWriter?;
    j := WrittenIsQueued(st.log, id, i);
  }

  lemma ClosedIsGone(st: State, id: Id, j: nat)
    requires Quiet(Nameless(st.rooms), st.connected, st.known, st.log)
    requires j < |Queue(st.log, id)| && Queue(st.log, id)[j].CloseWriter?
    ensures Gone(st, id)
  {
    hide Nameless, Queue;
    var i := InQueue(st.log, id, j);
    assert st.log[i].to == id;
  }

  /** Outside the room without a name, no later message joins it there. */
  lemma QueueIsFrozen(auth: AuthMode, rounds: seq<Round>, states: seq<State>, i: nat, k: nat, id: Id)
    requires Run(auth, rounds, states) && i <= k < |states|
    requires Gone(states[i], id) && id !in Nameless(states[i].rooms)
    ensures Queue(states[k].log, id) == Queue(states[i].log, id) && id !in Nameless(states[k].rooms)
  {
    hide Run, SessionsFrozen, Nameless, Queue;
    RunEvolves(auth, rounds, states, i, k);
  }

  // ---- Membership -------------------------------------------------------------------------------------------------

  /** A connection is a user of a named room exactly when it is registered for it. */
  ghost predicate InAgreement(rooms: RoomMap, connected: map<Id, string>) {
    forall r, c :: r != "" ==> (IsUser(rooms, r, c) <==> c in connected && connected[c] == r)
  }

  lemma Agreement(st: State)
    requires Inv(st)
    ensures InAgreement(st.rooms, st.connected)
  {
    hide Endpoints, Credentials, Counted, Quiet, Dismissed, Traces, RoomOk;
    forall r, c | r != "" ensures IsUser(st.rooms, r, c) <==> c in st.connected && st.connected[c] == r {
      if r in st.rooms { assert RegisteredIn(r, st.rooms[r].users, st.connected, st.known, {}, ""); }
    }
  }

  lemma OneRoomOnly(st: State, r: string, o: string, c: Id)
    requires Inv(st) && r != "" && o != "" && IsUser(st.rooms, r, c) && IsUser(st.rooms, o, c)
    ensures r == o
  {
    Agreement(st);
    hide Inv;
  }

  // ---- The other promises, read off the invariant ------------------------------------------------------------------

  /** In every state of every run, the credentials are those of the live sessions of TURN rooms, for both ends. */
  lemma CredentialTable(auth: AuthMode, rounds: seq<Round>, states: seq<State>, k: nat, u: Username)
    requires Run(auth, rounds, states) && k < |states|
    ensures var st := states[k];
      && (u in st.lookup <==> exists r :: r in st.rooms && st.rooms[r].mode.Turn? && u.sid in st.rooms[r].sessions)
      && forall r :: r in st.rooms && st.rooms[r].mode.Turn? && u.sid in st.rooms[r].sessions ==>
           var session := st.rooms[r].sessions[u.sid];
           var end := if u.role.HostRole? then session.host else session.client;
           end in st.rooms[r].users && u in st.lookup && st.lookup[u] == st.rooms[r].users[end].addr
  {
    hide Run, Keyed, Members, Counted, Quiet, Dismissed, Traces, RoomOk;
    RunKeeps(auth, rounds, states, k);
    var st := states[k];
    assert u == Username(u.sid, u.role);
    forall r | r in st.rooms && st.rooms[r].mode.Turn? && u.sid in st.rooms[r].sessions
      ensures var session := st.rooms[r].sessions[u.sid];
        var end := if u.role.HostRole? then session.host else session.client;
        end in st.rooms[r].users && u in st.lookup && st.lookup[u] == st.rooms[r].users[end].addr
    {
      assert SessionsIn(r, st.rooms[r], st.history) && ListedIn(st.rooms[r], st.lookup);
      assert u.role == HostRole || u.role == ClientRole;
    }
  }

  /** While a session of a TURN room lives, the user name each end was sent is in the table with that end's address. */
  lemma LiveCredentials(auth: AuthMode, rounds: seq<Round>, states: seq<State>, k: nat, sid: Sid)
    requires Run(auth, rounds, states) && k < |states|
    requires Live(states[k].rooms, states[k].history, sid) && states[k].history[sid].mode.Turn?
    ensures var st := states[k];
      var w, record := SessionLog(st.log, sid), st.history[sid];
      var users := st.rooms[record.room].users;
      && |w| >= 2 && w[0].msg.HostSession? && w[0].msg.ice.TurnServers?
      && w[1].msg.ClientSession? && w[1].msg.ice.TurnServers?
      && w[0].to in users && w[0].msg.ice.username in st.lookup
      && st.lookup[w[0].msg.ice.username] == users[w[0].to].addr
      && w[1].to in users && w[1].msg.ice.username in st.lookup
      && st.lookup[w[1].msg.ice.username] == users[w[1].to].addr
  {
    var st := states[k];
    hide Run, Inv, NoDangling, TraceOf, IsRelay, IsEnd;
    SessionLife(auth, rounds, states, k, sid);
    CredentialTable(auth, rounds, states, k, Username(sid, HostRole));
    CredentialTable(auth, rounds, states, k, Username(sid, ClientRole));
    RunKeeps(auth, rounds, states, k);
    InvConsistent(st);
    hide Consistent, RoomOk;
    SessionFacts(st, st.history[sid].room, sid);
  }

  /**
   * In every state of every run, the counters account for the rooms and sessions there are, for the connections that
   * are in a room, and for the users of the room without a name, each time they joined it.
   */
  lemma Conservation(auth: AuthMode, rounds: seq<Round>, states: seq<State>, k: nat)
    requires Run(auth, rounds, states) && k < |states|
    ensures var st := states[k];
      && st.counters.roomsCreated - st.counters.roomsClosed == |st.rooms|
      && st.counters.sessionsCreated - st.counters.sessionsClosed == |LivePairs(st.rooms)|
      && st.counters.usersJoined - st.counters.usersLeft
           == |InRooms(st.connected)| + |Nameless(st.rooms)| + st.rejoins
  {
    hide Run, Keyed, Members, Endpoints, Credentials, Quiet, Dismissed, Traces, RoomOk, MemberPairs, InRooms;
    hide Nameless;
    RunKeeps(auth, rounds, states, k);
    MembersAreConnected(states[k]);
  }

  ghost function InRooms(connected: map<Id, string>): set<Id> {
    set c | c in connected && connected[c] != ""
  }

  ghost function PairsOf(connected: map<Id, string>, s: set<Id>): set<(string, Id)>
    requires forall c :: c in s ==> c in connected
  {
    set c | c in s :: (connected[c], c)
  }

  lemma {:induction false} PairsOfSize(connected: map<Id, string>, s: set<Id>)
    requires forall c :: c in s ==> c in connected
    ensures |PairsOf(connected, s)| == |s|
  {
    if s == {} {
      assert PairsOf(connected, s) == {};
    } else {
      var c :| c in s;
      PairsOfSize(connected, s - {c});
      assert PairsOf(connected, s) == PairsOf(connected, s - {c}) + {(connected[c], c)};
      assert (connected[c], c) !in PairsOf(connected, s - {c});
    }
  }

  /** Everyone in a named room is registered for it; the others are in the room without a name. */
  lemma MembersAreConnected(st: State)
    requires Inv(st)
    ensures |MemberPairs(st.rooms)| == |InRooms(st.connected)| + |Nameless(st.rooms)|
  {
    hide Inv, MemberPairs, PairsOf, InAgreement;
    var s := InRooms(st.connected);
    Agreement(st);
    PairsOfSize(st.connected, s);
    SamePairs(st.rooms, st.connected, s);
    if "" in st.rooms {
      MembersCounted(st.rooms, "");
      assert |st.rooms[""].users| == |st.rooms[""].users.Keys|;
    } else {
      assert st.rooms - {""} == st.rooms;
    }
  }

  lemma SamePairs(rooms: RoomMap, connected: map<Id, string>, s: set<Id>)
    requires InAgreement(rooms, connected) && s == InRooms(connected)
    ensures MemberPairs(rooms - {""}) == PairsOf(connected, s)
  {
    hide MemberPairs;
    forall p: (string, Id) ensures p in MemberPairs(rooms - {""}) <==> p in PairsOf(connected, s) {
      InMemberPairs(rooms - {""}, p);
      assert p == (p.0, p.1);
      assert p.0 != "" ==> (IsUser(rooms, p.0, p.1) <==> p.1 in connected && connected[p.1] == p.0);
    }
  }

  /** A roster lists every user once and marks exactly one entry as the reader. */
  lemma RosterShape(users: map<Id, User>, me: Id, list: seq<Entry>)
    requires IsRoster(users, me, list) && me in users && forall c :: c in users ==> users[c].id == c
    ensures |list| == |users|
    ensures exists i :: 0 <= i < |list| && list[i].you && list[i].id == me
    ensures forall i, j :: 0 <= i < |list| && 0 <= j < |list| && list[i].you && list[j].you ==> i == j
  {
    var i :| 0 <= i < |list| && list[i].id == me;
    assert list[i].you;
    var ids := seq(|list|, k requires 0 <= k < |list| => list[k].id);
    DistinctSize(ids);
    forall c ensures c in users <==> c in ids {
      if c in users { var k :| 0 <= k < |list| && list[k].id == c; assert ids[k] == c; }
    }
    assert SetOf(ids) == users.Keys;
  }

  /**
   * In every state of every run, a named room has somebody in it and at most one owner, and its sessions are those
   * from who streams to everyone else. The last room info a user was sent shows the room as it is, exactly unless it
   * is that of the room without a name; which can be only for who is in that room too. What it shows is said in plain
   * terms.
   */
  lemma RoomsInOrder(auth: AuthMode, rounds: seq<Round>, states: seq<State>, k: nat, rid: string)
    requires Run(auth, rounds, states) && k < |states| && rid in states[k].rooms && rid != ""
    ensures var st := states[k];
      && Alive(st.rooms[rid]) && Covered(st.rooms[rid]) && st.rooms[rid].id == rid
      && forall c :: c in st.rooms[rid].users ==>
           && (HasRoster(st.log, rid, st.rooms[rid].users, c) <==> !ReadsNameless(st.log, c))
           && (ReadsNameless(st.log, c) ==> c in Nameless(st.rooms))
           && (!ReadsNameless(st.log, c) ==>
                 var info := LastInfo(st.log, c);
                 info.Some? && info.value.RoomInfo? && info.value.room == rid &&
                 PlainRoster(st.rooms[rid].users, c, info.value.users))
  {
    hide Run, Members, Endpoints, Credentials, Counted, Quiet, Dismissed, Traces, Alive, Covered, Nameless, IsRoster;
    RunKeeps(auth, rounds, states, k);
    var st := states[k];
    assert RoomOk(Nameless(st.rooms), st.log, rid, st.rooms[rid]) && KeyedRoom(rid, st.rooms[rid]);
    hide PlainRoster;
    forall c | c in st.rooms[rid].users && HasRoster(st.log, rid, st.rooms[rid].users, c)
      ensures PlainRoster(st.rooms[rid].users, c, LastInfo(st.log, c).value.users)
    {
      RosterIsPlain(st.rooms[rid].users, c, LastInfo(st.log, c).value.users);
    }
  }
}
