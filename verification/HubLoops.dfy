/** The loops of the handlers: each keeps the invariant between changes, undoes nothing, and does what it is for. */
module HubLoops {
  import opened Collections
  import opened HubModel
  import opened HubInvariants
  import opened HubChanges
  import opened HubOpenings

  /** The last room info sent to a connection. */
  function LastInfo(log: seq<Sent>, id: Id): Option<Message> {
    if log == [] then None
    else
      var n := |log| - 1;
      if log[n].to == id && log[n].msg.RoomInfo? then Some(log[n].msg) else LastInfo(log[..n], id)
  }

  lemma LastInfoAppend(log: seq<Sent>, e: Sent, id: Id)
    ensures LastInfo(log + [e], id) == if e.to == id && e.msg.RoomInfo? then Some(e.msg) else LastInfo(log, id)
  {
    assert (log + [e])[..|log|] == log;
  }

  ghost predicate SameInfos(before: seq<Sent>, after: seq<Sent>) {
    forall c: Id :: LastInfo(after, c) == LastInfo(before, c)
  }

  lemma InfosAppend(log: seq<Sent>, e: Sent)
    requires !e.msg.RoomInfo?
    ensures SameInfos(log, log + [e])
  {
    forall c: Id ensures LastInfo(log + [e], c) == LastInfo(log, c) { LastInfoAppend(log, e, c); }
  }

  /** Sent to this connection since the log had this length. */
  ghost predicate Told(log: seq<Sent>, since: nat, to: Id, msg: Message) {
    exists i :: since <= i < |log| && log[i].to == to && log[i].msg == msg
  }

  lemma ToldAppend(log: seq<Sent>, e: Sent, since: nat)
    requires since <= |log|
    ensures Told(log + [e], since, e.to, e.msg)
    ensures forall to, msg :: Told(log, since, to, msg) ==> Told(log + [e], since, to, msg)
  {
    assert (log + [e])[|log|] == e;
    forall to, msg | Told(log, since, to, msg) ensures Told(log + [e], since, to, msg) {
      var i :| since <= i < |log| && log[i].to == to && log[i].msg == msg;
      assert (log + [e])[i] == log[i];
    }
  }

  lemma ToldLater(log: seq<Sent>, later: seq<Sent>, since: nat, to: Id, msg: Message)
    requires Told(log, since, to, msg) && log <= later
    ensures Told(later, since, to, msg)
  {
    var i :| since <= i < |log| && log[i].to == to && log[i].msg == msg;
    assert later[i] == log[i];
  }

  lemma EvolvesReflexive(st: State)
    ensures Evolves(st, st)
  {}

  /** Where leaving connections came from does not matter when there are none. */
  lemma NobodyOut(st: State, where: string, where': string)
    requires Consistent(st, {}, where)
    ensures Consistent(st, {}, where')
  {
    hide Keyed, Endpoints, Credentials, Counted, Quiet, Dismissed, Traces;
    forall r | r in st.rooms ensures RegisteredIn(r, st.rooms[r].users, st.connected, st.known, {}, where') {
      assert RegisteredIn(r, st.rooms[r].users, st.connected, st.known, {}, where);
    }
  }

  // ---- Rosters ---------------------------------------------------------------------------------------------

  lemma {:induction false} NotifyAllKeeps(st: State, rid: string, actor: Id, notices: seq<Notice>)
    requires Consistent(st, {}, "")
    requires forall i :: 0 <= i < |notices| ==>
      && notices[i].to in st.known
      && (notices[i].to in st.connected || (rid == "" && notices[i].to in Nameless(st.rooms)))
    ensures var r := NotifyAll(st, rid, actor, notices); Consistent(r, {}, "") && Evolves(st, r)
  {
    hide Consistent, Evolves, Nameless;
    if notices == [] {
      EvolvesReflexive(st);
    } else {
      var n := |notices| - 1;
      var before := NotifyAll(st, rid, actor, notices[..n]);
      NotifyAllKeeps(st, rid, actor, notices[..n]);
      SendInfoKeeps(before, {}, "", notices[n].to, actor, RoomInfo(rid, notices[n].users));
      EvolvesTransitive(st, before, NotifyAll(st, rid, actor, notices));
    }
  }

  /** Everyone addressed is sent the list made for them, everyone else nothing. */
  lemma {:induction false} NotifyAllInforms(st: State, rid: string, actor: Id, notices: seq<Notice>)
    requires forall i, j :: 0 <= i < j < |notices| ==> notices[i].to != notices[j].to
    ensures var log := NotifyAll(st, rid, actor, notices).log;
      && (forall i :: 0 <= i < |notices| ==> LastInfo(log, notices[i].to) == Some(RoomInfo(rid, notices[i].users)))
      && (forall c: Id :: (forall i :: 0 <= i < |notices| ==> notices[i].to != c) ==>
        LastInfo(log, c) == LastInfo(st.log, c))
  {
    if notices != [] {
      var n := |notices| - 1;
      NotifyAllInforms(st, rid, actor, notices[..n]);
      var before := NotifyAll(st, rid, actor, notices[..n]).log;
      var e := Sent(notices[n].to, actor, RoomInfo(rid, notices[n].users));
      assert NotifyAll(st, rid, actor, notices).log == before + [e];
      forall c: Id ensures LastInfo(before + [e], c) == if e.to == c then Some(e.msg) else LastInfo(before, c) {
        LastInfoAppend(before, e, c);
      }
      forall i | 0 <= i < |notices|
        ensures LastInfo(before + [e], notices[i].to) == Some(RoomInfo(rid, notices[i].users))
      {
        if i < n { assert notices[..n][i] == notices[i]; }
      }
    }
  }

  // ---- Sessions opened --------------------------------------------------------------------------------------

  function Opened(actor: Id, hosting: bool, partner: Id): Session {
    if hosting then Session(actor, partner) else Session(partner, actor)
  }

  /** What opening sessions in a room may change, besides the table and the counters. */
  ghost predicate OnlyOpens(a: State, b: State, rid: string) {
    && rid in a.rooms && rid in b.rooms
    && b.connected == a.connected && b.known == a.known
    && b.rooms == a.rooms[rid := a.rooms[rid].(sessions := b.rooms[rid].sessions)]
    && (forall s :: s in a.rooms[rid].sessions ==>
          s in b.rooms[rid].sessions && b.rooms[rid].sessions[s] == a.rooms[rid].sessions[s])
    && SameInfos(a.log, b.log)
  }

  lemma OpenSessionOnlyOpens(st: State, rid: string, host: Id, client: Id, actor: Id, ips: Ips)
    requires rid in st.rooms && host in st.rooms[rid].users && client in st.rooms[rid].users
    requires st.nextSid !in st.rooms[rid].sessions
    ensures var r := OpenSession(st, rid, host, client, actor, ips);
      && OnlyOpens(st, r, rid)
      && r.rooms[rid].sessions == st.rooms[rid].sessions[st.nextSid := Session(host, client)]
  {
    var sid, mode := st.nextSid, st.rooms[rid].mode;
    var e := Sent(host, actor, HostSession(sid, client, IceFor(mode, ips, Username(sid, HostRole))));
    var f := Sent(client, actor, ClientSession(sid, host, IceFor(mode, ips, Username(sid, ClientRole))));
    InfosAppend(st.log, e);
    InfosAppend(st.log + [e], f);
    hide LastInfo;
  }

  lemma FreshSid(st: State, rid: string)
    requires Consistent(st, {}, "") && rid in st.rooms
    ensures st.nextSid !in st.rooms[rid].sessions
  {
    hide Keyed, Members, Credentials, Counted, Quiet, Dismissed, Traces;
    assert SessionsIn(rid, st.rooms[rid], st.history);
  }

  lemma OnlyOpensNone(st: State, rid: string)
    requires rid in st.rooms
    ensures OnlyOpens(st, st, rid)
  {
    hide LastInfo;
  }

  lemma OnlyOpensTransitive(a: State, b: State, c: State, rid: string)
    requires OnlyOpens(a, b, rid) && OnlyOpens(b, c, rid)
    ensures OnlyOpens(a, c, rid)
  {
    hide LastInfo;
  }

  lemma {:induction false} OpenAllKeeps(st: State, rid: string, actor: Id, hosting: bool, partners: seq<Id>, ips: Ips)
    requires Consistent(st, {}, "") && rid in st.rooms && actor in st.rooms[rid].users
    requires forall p :: p in partners ==> p in st.rooms[rid].users && p != actor
    requires rid == "" ==> partners == []
    ensures var r := OpenAll(st, rid, actor, hosting, partners, ips);
      Consistent(r, {}, "") && Evolves(st, r) && OnlyOpens(st, r, rid)
  {
    hide Consistent, Evolves, OnlyOpens;
    if partners == [] {
      EvolvesReflexive(st);
      OnlyOpensNone(st, rid);
    } else {
      var n := |partners| - 1;
      var p := partners[n];
      assert p in partners;
      var before := OpenAll(st, rid, actor, hosting, partners[..n], ips);
      var r := OpenAll(st, rid, actor, hosting, partners, ips);
      OpenAllKeeps(st, rid, actor, hosting, partners[..n], ips);
      FreshSid(before, rid);
      var host, client := if hosting then actor else p, if hosting then p else actor;
      OpenSessionKeeps(before, rid, host, client, actor, ips);
      OpenSessionOnlyOpens(before, rid, host, client, actor, ips);
      EvolvesTransitive(st, before, r);
      OnlyOpensTransitive(st, before, r, rid);
    }
  }

  ghost function OpenedPairs(actor: Id, hosting: bool, partners: seq<Id>): set<Session> {
    set p | p in partners :: Opened(actor, hosting, p)
  }

  lemma OpenedPairsLast(actor: Id, hosting: bool, partners: seq<Id>)
    requires partners != []
    ensures OpenedPairs(actor, hosting, partners) ==
      OpenedPairs(actor, hosting, partners[..|partners| - 1]) + {Opened(actor, hosting, partners[|partners| - 1])}
  {
    assert partners == partners[..|partners| - 1] + [partners[|partners| - 1]];
  }

  lemma OpenSessionPairs(st: State, rid: string, actor: Id, hosting: bool, p: Id, ips: Ips)
    requires Consistent(st, {}, "") && rid in st.rooms && actor in st.rooms[rid].users && p in st.rooms[rid].users
    ensures var host, client := if hosting then actor else p, if hosting then p else actor;
      OpenSession(st, rid, host, client, actor, ips).rooms[rid].sessions.Values
      == st.rooms[rid].sessions.Values + {Opened(actor, hosting, p)}
  {
    FreshSid(st, rid);
    hide Consistent;
    ValuesWith(st.rooms[rid].sessions, st.nextSid, Opened(actor, hosting, p));
  }

  /** A session with each partner is opened, in the right direction, and no other. */
  lemma {:induction false} OpenAllPairs(st: State, rid: string, actor: Id, hosting: bool, partners: seq<Id>, ips: Ips)
    requires Consistent(st, {}, "") && rid in st.rooms && actor in st.rooms[rid].users
    requires forall p :: p in partners ==> p in st.rooms[rid].users && p != actor
    requires rid == "" ==> partners == []
    ensures OpenAll(st, rid, actor, hosting, partners, ips).rooms[rid].sessions.Values ==
      st.rooms[rid].sessions.Values + OpenedPairs(actor, hosting, partners)
  {
    hide Consistent, Evolves, OnlyOpens, OpenSession, Opened;
    if partners == [] {
      assert OpenedPairs(actor, hosting, partners) == {};
    } else {
      var n := |partners| - 1;
      assert partners[n] in partners;
      var before := OpenAll(st, rid, actor, hosting, partners[..n], ips);
      OpenAllPairs(st, rid, actor, hosting, partners[..n], ips);
      OpenAllKeeps(st, rid, actor, hosting, partners[..n], ips);
      OpenSessionPairs(before, rid, actor, hosting, partners[n], ips);
      OpenedPairsLast(actor, hosting, partners);
    }
  }

  lemma ValuesWith(m: map<Sid, Session>, k: Sid, v: Session)
    requires k !in m
    ensures m[k := v].Values == m.Values + {v}
  {
    forall x ensures x in m[k := v].Values <==> x in m.Values || x == v {
      assert k in m[k := v] && m[k := v][k] == v;
      if x in m.Values { var i :| i in m && m[i] == x; assert i in m[k := v] && m[k := v][i] == x; }
    }
  }

  // ---- Sessions ended and closed ------------------------------------------------------------------------------

  function WithoutAll(room: RoomData, sids: set<Sid>): RoomData {
    room.(sessions := room.sessions - sids)
  }

  /** What ending or closing sessions of a room may change, besides the table and the counters. */
  ghost predicate OnlyCloses(a: State, b: State, rid: string, sids: set<Sid>) {
    && rid in a.rooms && rid in b.rooms
    && b.connected == a.connected && b.known == a.known && b.history == a.history
    && b.rooms == a.rooms[rid := WithoutAll(a.rooms[rid], sids)]
    && SameInfos(a.log, b.log)
  }

  lemma OnlyClosesNone(st: State, rid: string)
    requires rid in st.rooms
    ensures OnlyCloses(st, st, rid, {})
  {
    assert WithoutAll(st.rooms[rid], {}) == st.rooms[rid];
    hide LastInfo;
  }

  lemma OnlyClosesMore(a: State, b: State, c: State, rid: string, sids: set<Sid>, more: set<Sid>)
    requires OnlyCloses(a, b, rid, sids) && OnlyCloses(b, c, rid, more)
    ensures OnlyCloses(a, c, rid, sids + more)
  {
    hide LastInfo;
    assert WithoutAll(WithoutAll(a.rooms[rid], sids), more) == WithoutAll(a.rooms[rid], sids + more);
  }

  lemma EndSessionOnlyCloses(st: State, rid: string, sid: Sid, actor: Id)
    requires rid in st.rooms && sid in st.rooms[rid].sessions
    ensures OnlyCloses(st, EndSession(st, rid, sid, actor), rid, {sid})
  {
    InfosAppend(st.log, Sent(Other(st.rooms[rid].sessions[sid], actor), actor, EndShare(sid)));
    hide LastInfo;
  }

  /** The other end of each session is there to be told. */
  ghost predicate CanEnd(st: State, rid: string, actor: Id, sids: seq<Sid>) {
    && rid in st.rooms && (forall i, j :: 0 <= i < j < |sids| ==> sids[i] != sids[j])
    && forall s :: s in sids ==> s in st.rooms[rid].sessions && HeardBy(st, st.rooms[rid].sessions[s], actor)
  }

  predicate HeardBy(st: State, session: Session, actor: Id) {
    actor in {session.host, session.client} && Other(session, actor) in st.connected
  }

  lemma {:induction false} EndAllKeeps(st: State, out: set<Id>, where: string, rid: string, actor: Id, sids: seq<Sid>)
    requires Consistent(st, out, where) && CanEnd(st, rid, actor, sids)
    ensures var r := EndAll(st, rid, actor, sids);
      Consistent(r, out, where) && Evolves(st, r) && OnlyCloses(st, r, rid, SetOf(sids))
  {
    hide Consistent, Evolves, OnlyCloses, EndSession;
    if sids == [] {
      EvolvesReflexive(st);
      OnlyClosesNone(st, rid);
      assert SetOf(sids) == {};
    } else {
      var n := |sids| - 1;
      var before, r := EndAll(st, rid, actor, sids[..n]), EndAll(st, rid, actor, sids);
      EndAllKeeps(st, out, where, rid, actor, sids[..n]);
      SetOfLast(sids);
      EndAllNext(st, before, rid, actor, sids);
      EndSessionKeeps(before, out, where, rid, sids[n], actor);
      EndSessionOnlyCloses(before, rid, sids[n], actor);
      EvolvesTransitive(st, before, r);
      OnlyClosesMore(st, before, r, rid, SetOf(sids[..n]), {sids[n]});
    }
  }

  lemma EndAllNext(st: State, before: State, rid: string, actor: Id, sids: seq<Sid>)
    requires CanEnd(st, rid, actor, sids) && sids != [] && OnlyCloses(st, before, rid, SetOf(sids[..|sids| - 1]))
    ensures var s := sids[|sids| - 1];
      && s in before.rooms[rid].sessions && before.rooms[rid].sessions[s] == st.rooms[rid].sessions[s]
      && var session := st.rooms[rid].sessions[s];
        actor in {session.host, session.client} && Other(session, actor) in before.connected
  {
    SetOfLast(sids);
    assert sids[|sids| - 1] in sids;
    hide SameInfos;
  }

  /** The other end of each session is told. */
  lemma {:induction false} EndAllTells(st: State, out: set<Id>, where: string, rid: string, actor: Id, sids: seq<Sid>)
    requires Consistent(st, out, where) && CanEnd(st, rid, actor, sids)
    ensures forall s :: s in sids ==>
      Told(EndAll(st, rid, actor, sids).log, |st.log|, Other(st.rooms[rid].sessions[s], actor), EndShare(s))
  {
    hide Consistent, OnlyCloses, Told;
    if sids != [] {
      var n := |sids| - 1;
      var before := EndAll(st, rid, actor, sids[..n]);
      EndAllTells(st, out, where, rid, actor, sids[..n]);
      EndAllKeeps(st, out, where, rid, actor, sids[..n]);
      EndAllNext(st, before, rid, actor, sids);
      ToldAppend(before.log, Sent(Other(st.rooms[rid].sessions[sids[n]], actor), actor, EndShare(sids[n])), |st.log|);
      assert sids == sids[..n] + [sids[n]];
    }
  }

  lemma CloseSessionOnlyCloses(st: State, rid: string, sid: Sid)
    requires rid in st.rooms
    ensures OnlyCloses(st, CloseSession(st, rid, sid), rid, {sid}) && CloseSession(st, rid, sid).log == st.log
  {
    hide LastInfo;
  }

  lemma {:induction false} CloseAllKeeps(st: State, out: set<Id>, where: string, rid: string, sids: seq<Sid>)
    requires Consistent(st, out, where) && rid in st.rooms && forall i, j :: 0 <= i < j < |sids| ==> sids[i] != sids[j]
    requires forall s :: s in sids ==> s in st.rooms[rid].sessions
    ensures var r := CloseAll(st, rid, sids);
      Consistent(r, out, where) && Evolves(st, r) && OnlyCloses(st, r, rid, SetOf(sids)) && r.log == st.log
  {
    hide Consistent, Evolves, OnlyCloses, CloseSession;
    if sids == [] {
      EvolvesReflexive(st);
      OnlyClosesNone(st, rid);
      assert SetOf(sids) == {};
    } else {
      var n := |sids| - 1;
      var before, r := CloseAll(st, rid, sids[..n]), CloseAll(st, rid, sids);
      CloseAllKeeps(st, out, where, rid, sids[..n]);
      SetOfLast(sids);
      CloseAllNext(st, before, rid, sids);
      CloseSessionKeeps(before, out, where, rid, sids[n]);
      CloseSessionOnlyCloses(before, rid, sids[n]);
      EvolvesTransitive(st, before, r);
      OnlyClosesMore(st, before, r, rid, SetOf(sids[..n]), {sids[n]});
    }
  }

  lemma CloseAllNext(st: State, before: State, rid: string, sids: seq<Sid>)
    requires rid in st.rooms && sids != [] && (forall s :: s in sids ==> s in st.rooms[rid].sessions)
    requires forall i, j :: 0 <= i < j < |sids| ==> sids[i] != sids[j]
    requires OnlyCloses(st, before, rid, SetOf(sids[..|sids| - 1]))
    ensures sids[|sids| - 1] in before.rooms[rid].sessions
  {
    SetOfLast(sids);
    assert sids[|sids| - 1] in sids;
    hide SameInfos;
  }

  // ---- Connections closed -----------------------------------------------------------------------------------------

  /** A normal closure. */
  const OWNER_LEFT := CloseWriter(1000, OwnerLeft)

  /** What closing connections may change. */
  ghost predicate OnlyKicks(a: State, b: State, members: set<Id>) {
    && b == a.(connected := a.connected - members, log := b.log)
    && SameInfos(a.log, b.log) && a.log <= b.log
    && forall c :: c in members ==> Told(b.log, |a.log|, c, OWNER_LEFT)
  }

  lemma KickOne(a: State, before: State, members: set<Id>, actor: Id, id: Id)
    requires OnlyKicks(a, before, members)
    ensures OnlyKicks(a, CloseConnection(before, id, actor, NORMAL_CLOSURE, OwnerLeft), members + {id})
  {
    var e := Sent(id, actor, OWNER_LEFT);
    InfosAppend(before.log, e);
    ToldAppend(before.log, e, |a.log|);
    hide LastInfo, Told;
    assert a.connected - members - {id} == a.connected - (members + {id});
  }

  lemma {:induction false} KickAllKeeps(st: State, where: string, actor: Id, members: seq<Id>)
    requires Consistent(st, {}, "") && forall i, j :: 0 <= i < j < |members| ==> members[i] != members[j]
    requires forall c :: c in members ==> c in st.connected && st.connected[c] == where
    ensures var r := KickAll(st, actor, members);
      Consistent(r, SetOf(members), where) && Evolves(st, r) && OnlyKicks(st, r, SetOf(members))
  {
    hide Consistent, Evolves, OnlyKicks, CloseConnection;
    if members == [] {
      EvolvesReflexive(st);
      NobodyOut(st, "", where);
      assert SetOf(members) == {};
      KickNone(st);
    } else {
      var n := |members| - 1;
      var id := members[n];
      var before, r := KickAll(st, actor, members[..n]), KickAll(st, actor, members);
      KickAllKeeps(st, where, actor, members[..n]);
      SetOfLast(members);
      assert id in members;
      assert id in before.connected && before.connected[id] == where by {
        KickedOthers(st, before, SetOf(members[..n]), id);
      }
      CloseConnectionKeeps(before, SetOf(members[..n]), where, id, actor, NORMAL_CLOSURE, OwnerLeft);
      EvolvesTransitive(st, before, r);
      KickOne(st, before, SetOf(members[..n]), actor, id);
    }
  }

  lemma KickNone(st: State)
    ensures OnlyKicks(st, st, {})
  {
    assert st.connected - {} == st.connected;
  }

  lemma KickedOthers(st: State, before: State, gone: set<Id>, id: Id)
    requires OnlyKicks(st, before, gone) && id in st.connected && id !in gone
    ensures id in before.connected && before.connected[id] == st.connected[id]
  {
    hide SameInfos, Told;
  }
}
