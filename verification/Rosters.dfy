/** Sorting a room's entries: owners first, then streamers, then by name. */
module Rosters {
  import opened HubModel
  import opened RosterOrder

  // ---- The order is total up to ties -------------------------------------------------------------------------

  lemma {:induction false} StringAsymmetric(a: string, b: string)
    requires StringLess(a, b)
    ensures !StringLess(b, a)
  {
    if a != "" && a[0] == b[0] { StringAsymmetric(a[1..], b[1..]); }
  }

  lemma {:induction false} StringNotLess(a: string, b: string, c: string)
    requires !StringLess(b, a) && !StringLess(c, b)
    ensures !StringLess(c, a)
  {
    if a != "" && b != "" && c != "" && a[0] == b[0] == c[0] { StringNotLess(a[1..], b[1..], c[1..]); }
  }

  lemma BeforeAsymmetric(a: Entry, b: Entry)
    requires Before(a, b)
    ensures !Before(b, a)
  {
    if a.owner == b.owner && a.streaming == b.streaming { StringAsymmetric(a.name, b.name); }
  }

  lemma NotBefore(a: Entry, b: Entry, c: Entry)
    requires !Before(b, a) && !Before(c, b)
    ensures !Before(c, a)
  {
    if a.owner == b.owner == c.owner && a.streaming == b.streaming == c.streaming {
      StringNotLess(a.name, b.name, c.name);
    }
  }

  ghost predicate Ordered(list: seq<Entry>) {
    forall i, j :: 0 <= i < j < |list| ==> !Before(list[j], list[i])
  }

  ghost predicate Distinct(list: seq<Entry>) {
    forall i, j :: 0 <= i < j < |list| ==> list[i].id != list[j].id
  }

  ghost predicate SameEntries(a: seq<Entry>, b: seq<Entry>) {
    forall e :: e in a <==> e in b
  }

  // ---- Sorting ---------------------------------------------------------------------------------------------------

  function Put(list: seq<Entry>, e: Entry, k: nat): seq<Entry>
    requires k <= |list|
  {
    list[..k] + [e] + list[k..]
  }

  lemma PutEntries(list: seq<Entry>, e: Entry, k: nat)
    requires k <= |list|
    ensures multiset(Put(list, e, k)) == multiset(list + [e]) && SameEntries(Put(list, e, k), list + [e])
  {
    assert list == list[..k] + list[k..];
    var r := Put(list, e, k);
    assert multiset(r) == multiset(list + [e]);
    forall x ensures x in r <==> x in list + [e] { assert x in multiset(r) <==> x in multiset(list + [e]); }
  }

  lemma PutOrdered(list: seq<Entry>, e: Entry, k: nat)
    requires k <= |list| && Ordered(list) && Distinct(list) && forall x :: x in list ==> x.id != e.id
    requires forall i :: k <= i < |list| ==> !Before(list[i], e)
    requires forall i :: 0 <= i < k ==> !Before(e, list[i])
    ensures Ordered(Put(list, e, k)) && Distinct(Put(list, e, k))
  {
    hide Before;
    var r := Put(list, e, k);
    forall i, j | 0 <= i < j < |r| ensures !Before(r[j], r[i]) && r[i].id != r[j].id {
      assert i < k ==> r[i] == list[i];
      assert i > k ==> r[i] == list[i - 1];
      assert j < k ==> r[j] == list[j];
      assert j > k ==> r[j] == list[j - 1];
    }
  }

  method Insert(list: seq<Entry>, e: Entry) returns (r: seq<Entry>)
    requires Ordered(list) && Distinct(list) && forall x :: x in list ==> x.id != e.id
    ensures Ordered(r) && Distinct(r) && multiset(r) == multiset(list + [e]) && SameEntries(r, list + [e])
  {
    hide Before;
    var k := |list|;
    while k > 0 && Before(e, list[k - 1])
      invariant 0 <= k <= |list|
      invariant forall i :: k <= i < |list| ==> Before(e, list[i])
    {
      k := k - 1;
    }
    r := Put(list, e, k);
    PutEntries(list, e, k);
    forall i | k <= i < |list| ensures !Before(list[i], e) { BeforeAsymmetric(e, list[i]); }
    forall i | 0 <= i < k ensures !Before(e, list[i]) {
      if i < k - 1 { NotBefore(list[i], list[k - 1], e); }
    }
    PutOrdered(list, e, k);
  }

  method SortRoster(list: seq<Entry>) returns (sorted: seq<Entry>)
    requires Distinct(list)
    ensures Ordered(sorted) && Distinct(sorted) && multiset(sorted) == multiset(list) && SameEntries(sorted, list)
    ensures PlainOrder(sorted)
  {
    hide Before, PlainOrder;
    sorted := [];
    for k := 0 to |list|
      invariant Ordered(sorted) && Distinct(sorted) && multiset(sorted) == multiset(list[..k])
      invariant SameEntries(sorted, list[..k])
    {
      assert list[..k + 1] == list[..k] + [list[k]];
      forall x | x in sorted ensures x.id != list[k].id { assert x in list[..k]; }
      sorted := Insert(sorted, list[k]);
    }
    assert list[..|list|] == list;
    OrderIsPlain(sorted);
  }

  /** The entries of all users as one of them is shown them, in any order at first. */
  method MakeRoster(users: map<Id, User>, current: Id) returns (list: seq<Entry>)
    requires forall c :: c in users ==> users[c].id == c
    ensures IsRoster(users, current, list) && PlainRoster(users, current, list)
  {
    hide Before, PlainOrder, PlainRoster;
    list := [];
    var todo := users.Keys;
    while todo != {}
      invariant todo <= users.Keys && Distinct(list)
      invariant forall e :: e in list ==> e.id in users && e.id !in todo && e == EntryFor(users[e.id], current)
      invariant forall c :: c in users && c !in todo ==> EntryFor(users[c], current) in list
    {
      var c :| c in todo;
      todo := todo - {c};
      list := list + [EntryFor(users[c], current)];
    }
    var listed := list;
    list := SortRoster(listed);
    forall i | 0 <= i < |list|
      ensures list[i].id in users && list[i] == EntryFor(users[list[i].id], current)
    { assert list[i] in listed; }
    forall c | c in users
      ensures exists i :: 0 <= i < |list| && list[i].id == c
    { assert EntryFor(users[c], current) in list; }
    RosterIsPlain(users, current, list);
  }
}
