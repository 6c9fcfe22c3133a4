/** What several parts share. */
module Prelude {
  datatype Option<+T> = None | Some(value: T)

  predicate NoDup<T(==)>(xs: seq<T>) {
    forall i, j :: 0 <= i < j < |xs| ==> xs[i] != xs[j]
  }

  lemma NoDupConcat<T>(a: seq<T>, b: seq<T>)
    requires NoDup(a) && NoDup(b) && forall x :: x in a ==> x !in b
    ensures NoDup(a + b)
  {
    forall i, j | 0 <= i < j < |a + b| ensures (a + b)[i] != (a + b)[j] {
      assert i < |a| ==> (a + b)[i] in a;
      assert j >= |a| ==> (a + b)[j] == b[j - |a|] && (a + b)[j] in b;
    }
  }

  /** Where `x` stands last in `s`. */
  function LastIndex<T(==)>(s: seq<T>, x: T): (k: nat)
    requires x in s
    ensures k < |s| && s[k] == x && forall j :: k < j < |s| ==> s[j] != x
  {
    if s[|s| - 1] == x then |s| - 1 else LastIndex(s[..|s| - 1], x)
  }

  /** `env` with every name set to its value; all at once, so the values have been read before. */
  function BindAll<T(==)>(env: map<T, int>, names: seq<T>, vals: seq<int>): map<T, int>
    requires |names| == |vals|
  {
    env + map x | x in names :: vals[LastIndex(names, x)]
  }

  lemma {:induction false} NoDupLength<T>(s: seq<T>, all: set<T>)
    requires NoDup(s) && forall x :: x in s ==> x in all
    ensures |s| <= |all|
  {
    if s != [] {
      var last := s[|s| - 1];
      assert last in s;
      forall x | x in s[..|s| - 1] ensures x in all - {last} {
        var i :| 0 <= i < |s| - 1 && s[i] == x;
        assert s[i] in s;
      }
      NoDupLength(s[..|s| - 1], all - {last});
    }
  }

  lemma {:induction false} SubsetSize<T>(a: set<T>, b: set<T>)
    requires a <= b
    ensures |a| <= |b|
  {
    if a != {} {
      var x :| x in a;
      SubsetSize(a - {x}, b - {x});
    }
  }
}
