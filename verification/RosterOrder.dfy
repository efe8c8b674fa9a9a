/** What the order of a room listing is in plain terms. */
module RosterOrder {
  import opened HubModel

  /** The second name is no proper prefix of the first, nor smaller at the first character in which they differ. */
  ghost predicate NamesInOrder(a: string, b: string) {
    && !(|b| < |a| && a[..|b|] == b)
    && forall n :: 0 <= n < |a| && n < |b| && a[..n] == b[..n] ==> a[n] <= b[n]
  }

  lemma NamesStep(a: string, b: string)
    requires a != "" && b != "" && a[0] == b[0]
    ensures NamesInOrder(a, b) <==> NamesInOrder(a[1..], b[1..])
  {
    var x, y := a[1..], b[1..];
    assert |b| < |a| ==> (a[..|b|] == b <==> x[..|y|] == y) by {
      if |b| < |a| { assert a[..|b|] == [a[0]] + x[..|y|] && b == [b[0]] + y; }
    }
    forall n | 0 <= n < |x| && n < |y|
      ensures (x[..n] == y[..n] <==> a[..n + 1] == b[..n + 1]) && a[n + 1] == x[n] && b[n + 1] == y[n]
    {
      assert a[..n + 1] == [a[0]] + x[..n] && b[..n + 1] == [b[0]] + y[..n];
    }
    if NamesInOrder(a, b) {
      forall n | 0 <= n < |x| && n < |y| && x[..n] == y[..n] ensures x[n] <= y[n] { assert a[n + 1] <= b[n + 1]; }
    }
    if NamesInOrder(x, y) {
      forall n | 0 <= n < |a| && n < |b| && a[..n] == b[..n] ensures a[n] <= b[n] {
        if n > 0 { assert x[..n - 1] == y[..n - 1]; }
      }
    }
  }

  lemma HeadsDiffer(a: string, b: string, n: nat)
    requires a != "" && b != "" && a[0] != b[0] && n <= |a| && n <= |b|
    ensures a[..n] == b[..n] <==> n == 0
  {
    if n > 0 { assert a[..n][0] != b[..n][0]; }
  }

  lemma {:induction false} NameOrder(a: string, b: string)
    ensures !StringLess(b, a) <==> NamesInOrder(a, b)
  {
    if a != "" && b != "" && a[0] == b[0] {
      NameOrder(a[1..], b[1..]);
      NamesStep(a, b);
    } else if a != "" && b != "" {
      assert a[..0] == b[..0];
      if NamesInOrder(a, b) { assert a[0] <= b[0]; }
      if a[0] < b[0] {
        forall n | 0 <= n <= |a| && n <= |b| ensures a[..n] == b[..n] <==> n == 0 { HeadsDiffer(a, b, n); }
        assert b[..|b|] == b;
      }
    } else if b == "" {
      assert a[..0] == b;
    }
  }

  /** Owners before the others; of these, who streams before who does not; of these, by name. */
  ghost predicate PlainOrder(list: seq<Entry>) {
    forall i, j :: 0 <= i < j < |list| ==>
      && (list[j].owner ==> list[i].owner)
      && (list[i].owner == list[j].owner && list[j].streaming ==> list[i].streaming)
      && (list[i].owner == list[j].owner && list[i].streaming == list[j].streaming ==>
            NamesInOrder(list[i].name, list[j].name))
  }

  lemma OrderIsPlain(list: seq<Entry>)
    ensures (forall i, j :: 0 <= i < j < |list| ==> !Before(list[j], list[i])) <==> PlainOrder(list)
  {
    hide StringLess, NamesInOrder;
    forall i, j | 0 <= i < j < |list|
      ensures !StringLess(list[j].name, list[i].name) <==> NamesInOrder(list[i].name, list[j].name)
    {
      NameOrder(list[i].name, list[j].name);
    }
  }

  /** Everyone is listed once and as they are, in this order, and the reader is marked. */
  ghost predicate PlainRoster(users: map<Id, User>, me: Id, list: seq<Entry>) {
    && (forall i :: 0 <= i < |list| ==>
          var entry := list[i];
          && entry.id in users && entry.name == users[entry.id].name && entry.streaming == users[entry.id].streaming
          && entry.owner == users[entry.id].owner && entry.you == (entry.id == me))
    && (forall c :: c in users ==> exists i :: 0 <= i < |list| && list[i].id == c)
    && (forall i, j :: 0 <= i < j < |list| ==> list[i].id != list[j].id)
    && PlainOrder(list)
  }

  lemma RosterIsPlain(users: map<Id, User>, me: Id, list: seq<Entry>)
    requires forall c :: c in users ==> users[c].id == c
    ensures IsRoster(users, me, list) <==> PlainRoster(users, me, list)
  {
    hide Before, PlainOrder;
    OrderIsPlain(list);
  }
}
