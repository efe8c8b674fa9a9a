/**
 * Rooms without a name. The source takes any identifier for a new room, also the empty one, with which it marks the
 * connections that are in no room. Here is when such a room comes to be, and who stays in it.
 */
module HubNames {
  import opened Collections
  import opened HubModel
  import opened HubInvariants
  import opened HubBoundary
  import opened HubEvents
  import opened HubArrivals
  import opened HubTheorems
  import opened HubOverview
  import opened HubRefinement

  // ---- When all rooms have names ------------------------------------------------------------------------------

  /** A registered connection that is in no room, and may create rooms, asks for one without a name. */
  predicate CreatesNameless(st: State, auth: AuthMode, msg: Incoming) {
    && msg.event.Create? && msg.event.id == "" && "" !in st.rooms && !Ignored(st, msg)
    && RoomOf(st, msg.info.id) == "" && Admits(auth, msg.info, msg.event.mode)
  }

  lemma NamedHalls(rooms: RoomMap)
    ensures Named(rooms) <==> "" !in Halls(rooms)
  {
    HallAt(rooms, "");
  }

  lemma NextHallsNamed(halls: map<string, Hall>, at: string, auth: AuthMode, msg: Incoming, found: bool,
                       randomName: string, denied: bool)
    ensures "" in NextHalls(halls, at, auth, msg, found, randomName, denied) <==>
      || "" in halls
      || (msg.event.Create? && msg.event.id == "" && at == "" && Admits(auth, msg.info, msg.event.mode))
  {
    hide Admits, NameFor;
  }

  /** A room without a name comes to be in exactly this way, and never goes again. */
  lemma StepNamed(st: State, auth: AuthMode, msg: Incoming, ch: Choice)
    requires Inv(st) && NoDangling(st) && Allowed(st, msg) && GoodChoice(st, auth, msg, ch)
    ensures Named(Step(st, auth, msg, ch).rooms) <==> Named(st.rooms) && !CreatesNameless(st, auth, msg)
  {
    hide Inv, NoDangling, GoodExecute, Execute, Halls, Named, NextHalls, Denied, Admits;
    var r := Step(st, auth, msg, ch);
    NamedHalls(st.rooms);
    NamedHalls(r.rooms);
    HallAt(st.rooms, "");
    if !Ignored(st, msg) {
      StepHalls(st, auth, msg, ch);
      NextHallsNamed(Halls(st.rooms), RoomOf(st, msg.info.id), auth, msg, ch.ips.Some?, ch.randomName,
                     Denied(st, msg));
    }
  }

  /** In every run all rooms have names until, and only until, one is created without. */
  lemma {:induction false} RunNamed(auth: AuthMode, rounds: seq<Round>, states: seq<State>, k: nat)
    requires Run(auth, rounds, states) && k < |states|
    ensures Named(states[k].rooms) <==> forall i :: 0 <= i < k ==> !CreatesNameless(states[i], auth, rounds[i].msg)
  {
    hide Inv, NoDangling, Allowed, GoodChoice, Step, CreatesNameless;
    if k > 0 {
      RunNamed(auth, rounds, states, k - 1);
      RunKeeps(auth, rounds, states, k - 1);
      assert Follows(states[k - 1], auth, rounds[k - 1], states[k - 1 + 1]);
      StepNamed(states[k - 1], auth, rounds[k - 1].msg, rounds[k - 1].ch);
    }
  }

  // ---- What a room without a name spoils -------------------------------------------------------------------------

  predicate Among(halls: map<string, Hall>, rid: string, id: Id) {
    rid in halls && id in halls[rid].users
  }

  lemma UserAmongHalls(rooms: RoomMap, rid: string, id: Id)
    ensures IsUser(rooms, rid, id) <==> Among(Halls(rooms), rid, id)
  {
    HallAt(rooms, rid);
  }

  /** The room is there with its owner in it, and its owner is registered as being in it. */
  lemma Founded(st: State, info: ClientInfo, auth: AuthMode, e: Event, ch: Choice)
    requires Inv(st) && info.id in st.connected && st.connected[info.id] == ""
    requires e.Create? && e.id !in st.rooms && Admits(auth, info, e.mode)
    requires GoodCreate(st, info, auth, e, ch)
    ensures var r := ExecuteCreate(st, info, auth, e, ch).st;
      var owner := User(info.id, info.addr, NameFor(info, e.userName, ch.randomName), false, true);
      && Inv(r) && info.id in r.connected && r.connected[info.id] == e.id
      && Halls(r.rooms) == Halls(st.rooms)[e.id := Hall(e.closeOnOwnerLeave, e.mode, map[info.id := owner])]
  {
    hide Inv, GoodNotices, NotifyAll, Halls, Announced, Evolves, AlmostInv;
    AdmitsWhom(auth, info, e.mode);
    NameForWhom(info, e.userName, ch.randomName);
    CreateHandled(st, info, auth, e, ch);
    HallAt(st.rooms, e.id);
    CreateHalls(st, auth, Incoming(info, false, e), ch);
  }

  lemma FounderDeparts(halls: map<string, Hall>, rid: string, hall: Hall, id: Id, left: map<string, Hall>)
    requires rid !in halls && hall.users.Keys == {id} && forall o :: o != "" ==> !Among(halls, o, id)
    requires left == Departed(halls[rid := hall], rid, id)
    ensures forall o :: Among(left, o, id) <==> o == "" && (rid == "" || Among(halls, "", id))
  {
    assert hall.users - {id} == map[];
    forall o ensures Among(left, o, id) <==> o == "" && (rid == "" || Among(halls, "", id)) {
      assert o != "" ==> !Among(halls, o, id);
    }
  }

  /**
   * Someone who is registered for no room creates one and disconnects. They are still a user of some room exactly if
   * the room was created without a name, or they were in such a room before: a disconnect does not look there.
   */
  lemma StaysBehind(st: State, info: ClientInfo, auth: AuthMode, e: Event, ch: Choice, code: int, reason: Reason,
        lc: LeaveChoice)
    requires Inv(st) && info.id in st.connected && st.connected[info.id] == ""
    requires e.Create? && e.id !in st.rooms && Admits(auth, info, e.mode)
    requires GoodCreate(st, info, auth, e, ch) && GoodLeave(ExecuteCreate(st, info, auth, e, ch).st, info.id, lc)
    ensures var r := Leave(ExecuteCreate(st, info, auth, e, ch).st, info.id, code, reason, lc);
      && info.id !in r.connected
      && ((exists o :: IsUser(r.rooms, o, info.id)) <==> e.id == "" || IsUser(st.rooms, "", info.id))
  {
    hide Inv, GoodCreate, GoodLeave, Leave, ExecuteCreate, Halls, IsUser, Departed, Admits, Consistent;
    var id, created := info.id, ExecuteCreate(st, info, auth, e, ch).st;
    var r := Leave(created, id, code, reason, lc);
    Founded(st, info, auth, e, ch);
    InvConsistent(created);
    LeaveHalls(created, id, code, reason, lc);
    HallAt(st.rooms, e.id);
    Agreement(st);
    forall o ensures IsUser(st.rooms, o, id) <==> Among(Halls(st.rooms), o, id) { UserAmongHalls(st.rooms, o, id); }
    forall o | o != "" ensures !Among(Halls(st.rooms), o, id) { assert !IsUser(st.rooms, o, id); }
    FounderDeparts(Halls(st.rooms), e.id, Halls(created.rooms)[e.id], id, Halls(r.rooms));
    forall o ensures IsUser(r.rooms, o, id) <==> Among(Halls(r.rooms), o, id) { UserAmongHalls(r.rooms, o, id); }
    assert IsUser(r.rooms, "", id) <==> e.id == "" || IsUser(st.rooms, "", id);
  }

  // ---- The shortest run of this kind -----------------------------------------------------------------------------

  const NOBODY := ClientInfo(0, false, "", 0)
  const NO_LEAVE := LeaveChoice([], [], [], [])
  const NO_CHOICE := Choice(None, "", [], [], [], NO_LEAVE)

  /** From the start of the program: connect, create a room without a name, disconnect. The user stays behind. */
  lemma NamelessRun()
    ensures exists rounds: seq<Round>, states: seq<State> ::
      && Run(AuthNone, rounds, states) && |rounds| == 3
      && states[3].connected == map[] && IsUser(states[3].rooms, "", 0)
  {
    hide Follows, Run;
    var notices := [Notice(0, [FOUNDER_ENTRY])];
    var connect := Round(Incoming(NOBODY, true, Connected), NO_CHOICE);
    var create := Round(Incoming(NOBODY, false, CREATE), NO_CHOICE.(notices := notices));
    var leave := Round(Incoming(NOBODY, false, Disconnected(1000, Text(""))), NO_CHOICE);
    RunStarts(connect);
    CreateFollows(create);
    LeaveFollows(leave);
    RunOneMore(AuthNone, [connect], [INITIAL, FIRST], create, SECOND);
    RunOneMore(AuthNone, [connect] + [create], [INITIAL, FIRST] + [SECOND], leave, THIRD);
    assert ([INITIAL, FIRST] + [SECOND] + [THIRD])[3] == THIRD;
    assert THIRD.connected == map[] && IsUser(THIRD.rooms, "", 0);
  }

  const CREATE := Create("", Local, false, "a", false)
  const FOUNDER := User(0, 0, "a", false, true)
  const FOUNDER_ENTRY := Entry(0, "a", false, true, true)
  const FIRST := State(map[0 := ""], map[], map[], Counters(0, 0, 0, 0, 0, 0), 0, {0}, map[], 0, [])
  const SECOND := State(map[0 := ""], map["" := RoomData("", false, Local, map[0 := FOUNDER], map[])], map[],
                        Counters(1, 0, 1, 0, 0, 0), 0, {0}, map[], 0, [Sent(0, 0, RoomInfo("", [FOUNDER_ENTRY]))])
  const THIRD := CloseConnection(SECOND, 0, 0, 1000, Text(""))

  lemma RunStarts(connect: Round)
    requires connect == Round(Incoming(NOBODY, true, Connected), NO_CHOICE)
    ensures Run(AuthNone, [connect], [INITIAL, FIRST])
  {
    assert Follows(INITIAL, AuthNone, connect, FIRST);
  }

  lemma OnlyRoster()
    ensures GoodNotices(map[0 := FOUNDER], [Notice(0, [FOUNDER_ENTRY])])
  {
    assert Recipients([Notice(0, [FOUNDER_ENTRY])]) == [0];
    assert [FOUNDER_ENTRY][0].id == 0;
  }

  lemma CreateFollows(create: Round)
    requires create == Round(Incoming(NOBODY, false, CREATE), NO_CHOICE.(notices := [Notice(0, [FOUNDER_ENTRY])]))
    ensures Follows(FIRST, AuthNone, create, SECOND)
  {
    OnlyRoster();
    var ch := create.ch;
    assert ch.notices[..0] == [];
    hide GoodNotices;
    assert GoodCreate(FIRST, NOBODY, AuthNone, CREATE, ch);
    var added := AddRoom(FIRST, RoomData("", false, Local, map[], map[]), FOUNDER);
    assert added.connected == map[0 := ""] && added.rooms == SECOND.rooms;
    assert NotifyAll(added, "", 0, ch.notices) == SECOND;
    assert ExecuteCreate(FIRST, NOBODY, AuthNone, CREATE, ch) == Done(SECOND);
    hide GoodCreate, ExecuteCreate;
    assert GoodChoice(FIRST, AuthNone, create.msg, ch);
  }

  lemma LeaveFollows(leave: Round)
    requires leave == Round(Incoming(NOBODY, false, Disconnected(1000, Text(""))), NO_CHOICE)
    ensures Follows(SECOND, AuthNone, leave, THIRD)
  {
    assert GoodLeave(SECOND, 0, NO_LEAVE) && Leave(SECOND, 0, 1000, Text(""), NO_LEAVE) == THIRD;
    hide GoodLeave, Leave;
    assert GoodChoice(SECOND, AuthNone, leave.msg, NO_CHOICE);
  }
}
