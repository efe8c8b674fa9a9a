/** A once that lets go of its lock before it runs its function, under any interleaving of any number of callers. */
module Once {

  type Caller = nat

  /** A connection that fails also tells the hub; one that the hub closed does not. */
  datatype Kind = OnError | OnDone

  /** Where a call is: before the first load, before the lock, holding it, and running the function. */
  datatype Place = Called | Waiting | Testing | Storing | Releasing(won: bool) | Ready | Closing | Returned

  datatype Owner = Nobody | By(c: Caller)

  /**
   * done and holder are the flag and the lock. started lists the calls whose function began, in order; spawned,
   * delivered and frames count the goroutines begun, the disconnect messages they delivered, and the close frames.
   */
  datatype State = State(done: bool, holder: Owner, kinds: map<Caller, Kind>, places: map<Caller, Place>,
                         winner: Owner, started: seq<Caller>, spawned: nat, delivered: nat, frames: nat)

  datatype Action =
    | Call(c: Caller, kind: Kind) | Load(c: Caller) | Lock(c: Caller) | Test(c: Caller) | Store(c: Caller)
    | Unlock(c: Caller) | Begin(c: Caller) | WriteClose(c: Caller) | Deliver

  const INITIAL := State(false, Nobody, map[], map[], Nobody, [], 0, 0, 0)

  predicate At(st: State, c: Caller, p: Place) {
    c in st.places && st.places[c] == p
  }

  function Move(st: State, c: Caller, p: Place): State {
    st.(places := st.places[c := p])
  }

  predicate Enabled(st: State, a: Action) {
    match a
    case Call(c, _) => c !in st.places
    case Load(c) => At(st, c, Called)
    case Lock(c) => At(st, c, Waiting) && st.holder == Nobody
    case Test(c) => At(st, c, Testing)
    case Store(c) => At(st, c, Storing)
    case Unlock(c) => At(st, c, Releasing(true)) || At(st, c, Releasing(false))
    case Begin(c) => At(st, c, Ready) && c in st.kinds
    case WriteClose(c) => At(st, c, Closing)
    case Deliver => st.delivered < st.spawned
  }

  function Next(st: State, a: Action): State
    requires Enabled(st, a)
  {
    match a
    case Call(c, kind) => Move(st, c, Called).(kinds := st.kinds[c := kind])
    case Load(c) => Move(st, c, if st.done then Returned else Waiting)
    case Lock(c) => Move(st, c, Testing).(holder := By(c))
    case Test(c) => Move(st, c, if st.done then Releasing(false) else Storing)
    case Store(c) => Move(st, c, Releasing(true)).(done := true, winner := By(c))
    case Unlock(c) => Move(st, c, if st.places[c].won then Ready else Returned).(holder := Nobody)
    case Begin(c) =>
      var more := if st.kinds[c].OnError? then 1 else 0;
      Move(st, c, Closing).(started := st.started + [c], spawned := st.spawned + more)
    case WriteClose(c) => Move(st, c, Returned).(frames := st.frames + 1)
    case Deliver => st.(delivered := st.delivered + 1)
  }

  // ---- The invariant ---------------------------------------------------------------------------------------

  predicate Inside(p: Place) {
    p.Testing? || p.Storing? || p.Releasing?
  }

  predicate HasWon(p: Place) {
    p == Releasing(true) || p.Ready? || p.Closing?
  }

  /** What is true of one call. */
  predicate CallOk(st: State, c: Caller)
    requires c in st.places
  {
    var p := st.places[c];
    && c in st.kinds
    && (Inside(p) <==> st.holder == By(c))
    && (p.Storing? ==> !st.done) && (p == Releasing(false) || p.Returned? ==> st.done)
    && (HasWon(p) ==> st.winner == By(c)) && (st.winner == By(c) ==> HasWon(p) || p.Returned?)
    && (st.started != [] && st.started[0] == c <==> st.winner == By(c) && (p.Closing? || p.Returned?))
  }

  ghost predicate Calls(st: State) {
    && (forall c :: c in st.places ==> CallOk(st, c))
    && (st.done <==> st.winner.By?)
    && (st.holder.By? ==> st.holder.c in st.places) && (st.winner.By? ==> st.winner.c in st.places)
    && (st.started == [] || (st.winner.By? && st.started == [st.winner.c]))
  }

  /** What the function of the one call that won has done so far. */
  predicate Effects(st: State) {
    && st.frames == (if st.started != [] && At(st, st.started[0], Returned) then 1 else 0)
    && st.spawned ==
      (if st.started != [] && st.started[0] in st.kinds && st.kinds[st.started[0]].OnError? then 1 else 0)
    && st.delivered <= st.spawned
  }

  ghost predicate Inv(st: State) {
    Calls(st) && Effects(st)
  }

  lemma CallsNext(st: State, a: Action)
    requires Calls(st) && Enabled(st, a)
    ensures Calls(Next(st, a))
  {
    var r := Next(st, a);
    if !a.Deliver? && !a.Call? { assert CallOk(st, a.c); }
    if a.Begin? { assert st.started == []; }
    forall c | c in r.places ensures CallOk(r, c) {
      if c in st.places { assert CallOk(st, c); }
    }
  }

  lemma EffectsNext(st: State, a: Action)
    requires Inv(st) && Enabled(st, a)
    ensures Effects(Next(st, a))
  {
    if !a.Deliver? && !a.Call? { assert CallOk(st, a.c); }
    if st.started != [] { assert CallOk(st, st.started[0]); }
  }

  lemma InvNext(st: State, a: Action)
    requires Inv(st) && Enabled(st, a)
    ensures Inv(Next(st, a))
  {
    CallsNext(st, a);
    EffectsNext(st, a);
  }

  // ---- Every schedule ----------------------------------------------------------------------------------------

  ghost predicate Schedule(actions: seq<Action>, states: seq<State>) {
    && |states| == |actions| + 1 && states[0] == INITIAL
    && forall i {:trigger actions[i]} :: 0 <= i < |actions| ==>
         Enabled(states[i], actions[i]) && states[i + 1] == Next(states[i], actions[i])
  }

  lemma {:induction false} AlwaysInv(actions: seq<Action>, states: seq<State>, k: nat)
    requires Schedule(actions, states) && k < |states|
    ensures Inv(states[k])
  {
    if k > 0 {
      AlwaysInv(actions, states, k - 1);
      InvNext(states[k - 1], actions[k - 1]);
      assert states[k - 1 + 1] == states[k];
    }
  }

  /** At most one function begins, so there is at most one disconnect message and at most one close frame. */
  lemma AtMostOnce(actions: seq<Action>, states: seq<State>, k: nat)
    requires Schedule(actions, states) && k < |states|
    ensures |states[k].started| <= 1 && states[k].delivered <= states[k].spawned <= 1 && states[k].frames <= 1
  {
    AlwaysInv(actions, states, k);
  }

  /** When all calls, and there was one, have returned, exactly one function has run, to its end. */
  lemma ExactlyOnce(actions: seq<Action>, states: seq<State>, k: nat)
    requires Schedule(actions, states) && k < |states|
    requires states[k].places != map[] && forall c :: c in states[k].places ==> At(states[k], c, Returned)
    ensures var st := states[k];
      && |st.started| == 1 && st.frames == 1 && st.started[0] in st.kinds
      && st.spawned == if st.kinds[st.started[0]].OnError? then 1 else 0
  {
    AlwaysInv(actions, states, k);
    var st := states[k];
    var c :| c in st.places;
    assert CallOk(st, c);
    assert CallOk(st, st.winner.c);
  }

  /** How many steps a call has still to take at most. */
  function StepsLeft(p: Place): nat {
    match p
    case Called => 7
    case Waiting => 6
    case Testing => 5
    case Storing => 4
    case Releasing(_) => 3
    case Ready => 2
    case Closing => 1
    case Returned => 0
  }

  /** As long as some call has not returned, some call can take a step, and each step brings it nearer to its return. */
  lemma Progress(st: State, c: Caller) returns (a: Action)
    requires Inv(st) && c in st.places && st.places[c] != Returned
    ensures Enabled(st, a) && !a.Call? && !a.Deliver? && a.c in st.places && st.places[a.c] != Returned
    ensures Next(st, a).places == st.places[a.c := Next(st, a).places[a.c]]
    ensures StepsLeft(Next(st, a).places[a.c]) < StepsLeft(st.places[a.c])
  {
    assert CallOk(st, c);
    var d := if st.places[c].Waiting? && st.holder.By? then st.holder.c else c;
    assert CallOk(st, d);
    a := match st.places[d]
      case Called => Load(d)
      case Waiting => Lock(d)
      case Testing => Test(d)
      case Storing => Store(d)
      case Releasing(_) => Unlock(d)
      case Ready => Begin(d)
      case Closing => WriteClose(d);
  }

  // ---- Whether the function has run when a call returns --------------------------------------------------------

  /** The function has run to its end. */
  predicate Done(st: State) {
    st.frames == 1
  }

  /** Under every schedule, once some call has returned, the function has run exactly if the call that won returned. */
  lemma DoneIffWinnerReturned(actions: seq<Action>, states: seq<State>, k: nat, c: Caller)
    requires Schedule(actions, states) && k < |states| && At(states[k], c, Returned)
    ensures var st := states[k]; st.winner.By? && (Done(st) <==> At(st, st.winner.c, Returned))
  {
    AlwaysInv(actions, states, k);
    var st := states[k];
    assert CallOk(st, c);
    assert CallOk(st, st.winner.c);
  }

  predicate Open(st: State, c: Caller) {
    c in st.places && !st.places[c].Returned?
  }

  /** No two calls overlap. */
  ghost predicate Alone(st: State) {
    forall c, d :: Open(st, c) && Open(st, d) ==> c == d
  }

  /** So it has whenever a call returns, if no two calls overlap; ReturnsEarly shows a schedule where two do. */
  lemma {:induction false} DoneIfNoOverlap(actions: seq<Action>, states: seq<State>, k: nat, c: Caller)
    requires Schedule(actions, states) && k < |states| && At(states[k], c, Returned)
    requires forall i :: 0 <= i < k ==> Alone(states[i])
    ensures Done(states[k])
  {
    DoneIffWinnerReturned(actions, states, k, c);
    if k > 0 {
      var st, a := states[k - 1], actions[k - 1];
      assert states[k - 1 + 1] == Next(st, a);
      AlwaysInv(actions, states, k - 1);
      if d :| d in st.places && st.places[d] == Returned {
        DoneIfNoOverlap(actions, states, k - 1, d);
        StaysDone(st, a);
      } else {
        FirstReturn(st, a, c);
      }
    }
  }

  lemma StaysDone(st: State, a: Action)
    requires Inv(st) && Enabled(st, a) && Done(st)
    ensures Done(Next(st, a))
  {
    EffectsNext(st, a);
  }

  /** If nobody returned before, and nobody else is there, the call that returns is the one that won. */
  lemma FirstReturn(st: State, a: Action, c: Caller)
    requires Inv(st) && Enabled(st, a) && Alone(st) && At(Next(st, a), c, Returned)
    requires forall d :: d in st.places ==> st.places[d] != Returned
    ensures Done(Next(st, a))
  {
    assert CallOk(st, c);
    assert Open(st, c);
    if st.winner.By? { assert Open(st, st.winner.c); }
  }

  // ---- An early return -------------------------------------------------------------------------------------------

  lemma OneMore(actions: seq<Action>, states: seq<State>, a: Action)
    returns (actions': seq<Action>, states': seq<State>)
    requires Schedule(actions, states) && Enabled(states[|actions|], a)
    ensures actions' == actions + [a] && |states'| == |actions'| + 1 && Schedule(actions', states')
    ensures states'[|actions'|] == Next(states[|actions|], a)
  {
    hide Enabled, Next;
    actions', states' := actions + [a], states + [Next(states[|actions|], a)];
    forall i {:trigger actions'[i]} | 0 <= i < |actions'|
      ensures Enabled(states'[i], actions'[i]) && states'[i + 1] == Next(states'[i], actions'[i])
    {
      if i < |actions| { assert actions'[i] == actions[i]; }
    }
  }

  lemma FirstTests(first: Caller, second: Caller, kind: Kind) returns (actions: seq<Action>, states: seq<State>)
    requires first != second
    ensures Schedule(actions, states)
    ensures states[|actions|] == State(false, By(first), map[first := kind, second := kind],
                                       map[first := Testing, second := Called], Nobody, [], 0, 0, 0)
  {
    actions, states := [], [INITIAL];
    assert Schedule(actions, states);
    hide Schedule;
    actions, states := OneMore(actions, states, Call(first, kind));
    actions, states := OneMore(actions, states, Call(second, kind));
    actions, states := OneMore(actions, states, Load(first));
    actions, states := OneMore(actions, states, Lock(first));
  }

  /** Unlike with a once that keeps its lock, a call may return before the one function has even begun. */
  lemma ReturnsEarly(first: Caller, second: Caller, kind: Kind)
    requires first != second
    ensures exists actions: seq<Action>, states: seq<State> ::
      && Schedule(actions, states) && At(states[|actions|], second, Returned)
      && At(states[|actions|], first, Ready) && states[|actions|].started == []
  {
    hide Schedule;
    var actions, states := FirstTests(first, second, kind);
    actions, states := OneMore(actions, states, Test(first));
    actions, states := OneMore(actions, states, Store(first));
    actions, states := OneMore(actions, states, Unlock(first));
    actions, states := OneMore(actions, states, Load(second));
    assert At(states[|actions|], second, Returned) && At(states[|actions|], first, Ready);
    assert states[|actions|].started == [];
  }
}
