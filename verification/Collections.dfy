/** Options, and the sizes of sets and sequences. */
module Collections {

  datatype Option<+T> = None | Some(value: T)

  function SetOf<T>(s: seq<T>): set<T> {
    set x | x in s
  }

  lemma SetOfLast<T>(s: seq<T>)
    requires s != []
    ensures SetOf(s) == SetOf(s[..|s| - 1]) + {s[|s| - 1]}
    ensures (forall i, j :: 0 <= i < j < |s| ==> s[i] != s[j]) ==> s[|s| - 1] !in SetOf(s[..|s| - 1])
  {
    assert s == s[..|s| - 1] + [s[|s| - 1]];
  }

  lemma SetOfNone<T>(s: seq<T>)
    ensures SetOf(s) == {} <==> s == []
  {
    if s != [] { assert s[0] in SetOf(s); }
  }

  lemma {:induction false} DistinctSize<T>(s: seq<T>)
    requires forall i, j :: 0 <= i < j < |s| ==> s[i] != s[j]
    ensures |SetOf(s)| == |s|
  {
    if s == [] {
      assert SetOf(s) == {};
    } else {
      DistinctSize(s[..|s| - 1]);
      SetOfLast(s);
    }
  }

  lemma {:induction false} SubsetSize<T>(a: set<T>, b: set<T>)
    requires a <= b
    ensures |a| <= |b|
    ensures a != b ==> |a| < |b|
  {
    if a != {} {
      var x :| x in a;
      SubsetSize(a - {x}, b - {x});
      if a != b { assert a - {x} != b - {x} by { ProperWithout(a, b, x); } }
    }
  }

  lemma ProperWithout<T>(a: set<T>, b: set<T>, x: T)
    requires a <= b && a != b && x in a
    ensures a - {x} != b - {x}
  {
    var y :| y in b && y !in a;
    assert y in b - {x} && y !in a - {x};
  }

  lemma DisjointSize<T>(a: set<T>, b: set<T>)
    requires a !! b
    ensures |a + b| == |a| + |b|
  {
    assert a * b == {};
  }
}
