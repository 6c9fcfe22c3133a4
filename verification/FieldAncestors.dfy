/** Which fields lie, however deep, within which other fields. */
module FieldAncestors {
  import opened Prelude
  import Slicing

  type Field = string
  type TypeName = string

  datatype Elem = Elem(name: Field, typ: TypeName)
  datatype Struct = Struct(name: TypeName, elems: seq<Elem>)

  /** A field of a record type lies in every field that holds such a record, or a map of such records. */
  predicate Holds(structs: seq<Struct>, child: Field, father: Field) {
    exists i, j :: 0 <= i < |structs| && 0 <= j < |structs| && HasField(structs[i], child) && FieldOfType(structs[j],
      father, structs[i].name)
  }

  predicate HasField(s: Struct, f: Field) {
    exists k :: 0 <= k < |s.elems| && s.elems[k].name == f
  }

  predicate FieldOfType(s: Struct, f: Field, t: TypeName) {
    exists k :: 0 <= k < |s.elems| && s.elems[k].name == f && (s.elems[k].typ == t || s.elems[k].typ == "ZMap_" + t)
  }

  /** A walk up from field to field, each step to a field that holds the one before. */
  ghost predicate IsWalk(structs: seq<Struct>, walk: seq<Field>) {
    |walk| >= 2 && forall i :: 0 < i < |walk| ==> Holds(structs, walk[i - 1], walk[i])
  }

  ghost predicate Within(structs: seq<Struct>, child: Field, ancestor: Field) {
    exists walk :: IsWalk(structs, walk) && walk[0] == child && walk[|walk| - 1] == ancestor
  }

  function FieldNames(structs: seq<Struct>): set<Field> {
    set i, k | 0 <= i < |structs| && 0 <= k < |structs[i].elems| :: structs[i].elems[k].name
  }

  ghost predicate WithinOnly(structs: seq<Struct>, pairs: set<(Field, Field)>) {
    forall p :: p in pairs ==> Within(structs, p.0, p.1) && p.0 in FieldNames(structs) && p.1 in FieldNames(structs)
  }

  /** The pairs one round finds. */
  function Composed(pairs: set<(Field, Field)>): set<(Field, Field)> {
    set p, q | p in pairs && q in pairs && p.1 == q.0 && (p.0, q.1) !in pairs :: (p.0, q.1)
  }

  /** `collect_field_ancestors`: the result is the transitive closure of `Holds`. */
  method CollectFieldAncestors(structs: seq<Struct>) returns (ancestors: set<(Field, Field)>)
    ensures forall child, ancestor :: (child, ancestor) in ancestors <==> Within(structs, child, ancestor)
  {
    hide *;
    var fathers := CollectFathers(structs);
    FathersAreWithin(structs, fathers);
    ancestors := Close(structs, fathers);
    forall child, ancestor ensures (child, ancestor) in ancestors <==> Within(structs, child, ancestor) {
      if (child, ancestor) in ancestors {
        PairIsWithin(structs, ancestors, child, ancestor);
      } else if Within(structs, child, ancestor) {
        WithinIsFound(structs, ancestors, child, ancestor);
      }
    }
  }

  lemma PairIsWithin(structs: seq<Struct>, pairs: set<(Field, Field)>, child: Field, ancestor: Field)
    requires WithinOnly(structs, pairs) && (child, ancestor) in pairs
    ensures Within(structs, child, ancestor)
  {
    hide Within, FieldNames;
  }

  lemma WithinIsFound(structs: seq<Struct>, pairs: set<(Field, Field)>, child: Field, ancestor: Field)
    requires Composed(pairs) == {} && Within(structs, child, ancestor)
    requires forall child, father :: Holds(structs, child, father) ==> (child, father) in pairs
    ensures (child, ancestor) in pairs
  {
    hide Holds, Composed;
    var walk :| IsWalk(structs, walk) && walk[0] == child && walk[|walk| - 1] == ancestor;
    WalkIsFound(structs, pairs, walk);
  }

  /** Composes until nothing is added. */
  method Close(ghost structs: seq<Struct>, fathers: set<(Field, Field)>) returns (pairs: set<(Field, Field)>)
    requires WithinOnly(structs, fathers)
    ensures fathers <= pairs && WithinOnly(structs, pairs) && Composed(pairs) == {}
  {
    hide Within, FieldNames, Composed;
    pairs := fathers;
    ghost var names := FieldNames(structs);
    ghost var all := set a, b | a in names && b in names :: (a, b);
    var changed := true;
    while changed
      invariant fathers <= pairs && WithinOnly(structs, pairs)
      invariant !changed ==> Composed(pairs) == {}
      decreases |all - pairs|, changed
    {
      var toAdd := ComposeAll(pairs);
      changed := toAdd != {};
      ComposedAreWithin(structs, pairs);
      if changed {
        var p :| p in toAdd;
        ComposedAreNew(pairs, p);
        Fewer(all, pairs, toAdd, p);
        pairs := pairs + toAdd;
      }
    }
  }

  lemma ComposedAreNew(pairs: set<(Field, Field)>, p: (Field, Field))
    requires p in Composed(pairs)
    ensures p !in pairs
  {
  }

  /** The fields of a type are the fathers of the fields that have it. */
  ghost predicate JoinedBy(done: set<(Field, TypeName)>, byType: map<TypeName, set<Field>>, child: Field,
                           father: Field) {
    exists t :: (child, t) in done && (father in Fields(byType, t) || father in Fields(byType, "ZMap_" + t))
  }

  ghost predicate Joined(fathers: set<(Field, Field)>, done: set<(Field, TypeName)>,
                         byType: map<TypeName, set<Field>>) {
    forall child, father :: (child, father) in fathers <==> JoinedBy(done, byType, child, father)
  }

  lemma JoinedMore(fathers: set<(Field, Field)>, done: set<(Field, TypeName)>, byType: map<TypeName, set<Field>>,
                   edge: (Field, TypeName))
    requires Joined(fathers, done, byType)
    ensures var here := Fields(byType, edge.1) + Fields(byType, "ZMap_" + edge.1);
      Joined(fathers + (set f | f in here :: (edge.0, f)), done + {edge}, byType)
  {
    var here := Fields(byType, edge.1) + Fields(byType, "ZMap_" + edge.1);
    var more, done' := fathers + (set f | f in here :: (edge.0, f)), done + {edge};
    hide Fields;
    forall child, father ensures (child, father) in more <==> JoinedBy(done', byType, child, father) {
      if JoinedBy(done, byType, child, father) {
        var t :| (child, t) in done && (father in Fields(byType, t) || father in Fields(byType, "ZMap_" + t));
        assert (child, t) in done';
      }
      if child == edge.0 && father in here {
        assert (child, edge.1) in done';
      }
    }
  }

  lemma JoinedHolds(structs: seq<Struct>, edges: set<(Field, TypeName)>, byType: map<TypeName, set<Field>>,
                    child: Field, father: Field)
    requires forall f, t :: (f, t) in edges <==> FieldIn(structs, f, t)
    requires forall f, t :: f in Fields(byType, t) <==> TypedIn(structs, f, t)
    ensures JoinedBy(edges, byType, child, father) <==> Holds(structs, child, father)
  {
    hide Fields, Holds;
    HoldsByType(structs, child, father);
  }

  lemma AllJoined(structs: seq<Struct>, fathers: set<(Field, Field)>, edges: set<(Field, TypeName)>,
                  byType: map<TypeName, set<Field>>)
    requires forall f, t :: (f, t) in edges <==> FieldIn(structs, f, t)
    requires forall f, t :: f in Fields(byType, t) <==> TypedIn(structs, f, t)
    requires Joined(fathers, edges, byType)
    ensures forall child, father :: (child, father) in fathers <==> Holds(structs, child, father)
  {
    hide Fields, Holds, FieldIn, TypedIn, JoinedBy;
    forall child, father ensures (child, father) in fathers <==> Holds(structs, child, father) {
      JoinedHolds(structs, edges, byType, child, father);
    }
  }

  /** All pairs of a field and a field that holds it. */
  method CollectFathers(structs: seq<Struct>) returns (fathers: set<(Field, Field)>)
    ensures forall child, father :: (child, father) in fathers <==> Holds(structs, child, father)
  {
    var fieldToFatherType: set<(Field, TypeName)> := {};
    var fieldsByType: map<TypeName, set<Field>> := map[];
    for i := 0 to |structs|
      invariant forall f, t :: (f, t) in fieldToFatherType <==> FieldIn(structs[..i], f, t)
      invariant forall f, t :: f in Fields(fieldsByType, t) <==> TypedIn(structs[..i], f, t)
    {
      fieldToFatherType, fieldsByType := CollectStruct(structs[..i], structs[i], fieldToFatherType, fieldsByType);
      assert structs[..i] + [structs[i]] == structs[..i + 1];
    }
    assert structs[..|structs|] == structs;
    fathers := {};
    ghost var done: set<(Field, TypeName)> := {};
    assert Joined(fathers, done, fieldsByType);
    hide Joined, Fields;
    var left := fieldToFatherType;
    while left != {}
      invariant done + left == fieldToFatherType
      invariant Joined(fathers, done, fieldsByType)
      decreases |left|
    {
      var edge :| edge in left;
      var here := Fields(fieldsByType, edge.1) + Fields(fieldsByType, "ZMap_" + edge.1);
      JoinedMore(fathers, done, fieldsByType, edge);
      fathers := fathers + set f | f in here :: (edge.0, f);
      done, left := done + {edge}, left - {edge};
    }
    assert done == fieldToFatherType;
    AllJoined(structs, fathers, done, fieldsByType);
  }

  function Fields(byType: map<TypeName, set<Field>>, t: TypeName): set<Field> {
    if t in byType then byType[t] else {}
  }

  predicate FieldIn(structs: seq<Struct>, f: Field, t: TypeName) {
    exists i :: 0 <= i < |structs| && structs[i].name == t && HasField(structs[i], f)
  }

  predicate TypedIn(structs: seq<Struct>, f: Field, t: TypeName) {
    exists i :: 0 <= i < |structs| && HasElem(structs[i], f, t)
  }

  predicate HasElem(s: Struct, f: Field, t: TypeName) {
    Elem(f, t) in s.elems
  }

  method CollectStruct(ghost before: seq<Struct>, s: Struct, fathers0: set<(Field, TypeName)>,
                       byType0: map<TypeName, set<Field>>)
    returns (fathers: set<(Field, TypeName)>, byType: map<TypeName, set<Field>>)
    requires forall f, t :: (f, t) in fathers0 <==> FieldIn(before, f, t)
    requires forall f, t :: f in Fields(byType0, t) <==> TypedIn(before, f, t)
    ensures forall f, t :: (f, t) in fathers <==> FieldIn(before + [s], f, t)
    ensures forall f, t :: f in Fields(byType, t) <==> TypedIn(before + [s], f, t)
  {
    fathers, byType := fathers0, byType0;
    for k := 0 to |s.elems|
      invariant forall f, t ::
        (f, t) in fathers <==> (f, t) in fathers0 || (t == s.name && exists j :: 0 <= j < k && s.elems[j].name == f)
      invariant forall f, t :: f in Fields(byType, t) <==> f in Fields(byType0, t) || Elem(f, t) in s.elems[..k]
    {
      var e := s.elems[k];
      fathers := fathers + {(e.name, s.name)};
      byType := byType[e.typ := Fields(byType, e.typ) + {e.name}];
      assert s.elems[..k + 1] == s.elems[..k] + [e];
    }
    OneMore(before, s);
    assert s.elems[..|s.elems|] == s.elems;
  }

  lemma OneMore(before: seq<Struct>, s: Struct)
    ensures forall f, t :: FieldIn(before + [s], f, t) <==> FieldIn(before, f, t) || (t == s.name && HasField(s, f))
    ensures forall f, t :: TypedIn(before + [s], f, t) <==> TypedIn(before, f, t) || HasElem(s, f, t)
  {
    var all := before + [s];
    assert all[|before|] == s;
    forall f, t ensures FieldIn(all, f, t) <==> FieldIn(before, f, t) || (t == s.name && HasField(s, f)) {
      if FieldIn(before, f, t) {
        var i :| 0 <= i < |before| && before[i].name == t && HasField(before[i], f);
        assert all[i] == before[i];
      }
    }
    forall f, t ensures TypedIn(all, f, t) <==> TypedIn(before, f, t) || HasElem(s, f, t) {
      if TypedIn(before, f, t) {
        var i :| 0 <= i < |before| && HasElem(before[i], f, t);
        assert all[i] == before[i];
      }
    }
  }

  lemma HoldsByType(structs: seq<Struct>, child: Field, father: Field)
    ensures Holds(structs, child, father) <==>
      exists t :: FieldIn(structs, child, t) && (TypedIn(structs, father, t) || TypedIn(structs, father, "ZMap_" + t))
  {
    hide HasField;
    if Holds(structs, child, father) {
      var i, j :| 0 <= i < |structs| && 0 <= j < |structs| && HasField(structs[i], child)
        && FieldOfType(structs[j], father, structs[i].name);
      var k :| 0 <= k < |structs[j].elems| && structs[j].elems[k].name == father &&
        (structs[j].elems[k].typ == structs[i].name || structs[j].elems[k].typ == "ZMap_" + structs[i].name);
      assert HasElem(structs[j], father, structs[j].elems[k].typ);
      assert FieldIn(structs, child, structs[i].name);
    }
    if t :| FieldIn(structs, child, t) && (TypedIn(structs, father, t) || TypedIn(structs, father, "ZMap_" + t)) {
      var i :| 0 <= i < |structs| && structs[i].name == t && HasField(structs[i], child);
      var u := if TypedIn(structs, father, t) then t else "ZMap_" + t;
      var j :| 0 <= j < |structs| && HasElem(structs[j], father, u);
      var k :| 0 <= k < |structs[j].elems| && structs[j].elems[k] == Elem(father, u);
      assert FieldOfType(structs[j], father, structs[i].name);
    }
  }

  method ComposeAll(pairs: set<(Field, Field)>) returns (toAdd: set<(Field, Field)>)
    ensures toAdd == Composed(pairs)
  {
    toAdd := {};
    ghost var done: set<(Field, Field)> := {};
    var left := pairs;
    while left != {}
      invariant done + left == pairs
      invariant toAdd == set p, q | p in done && q in pairs && p.1 == q.0 && (p.0, q.1) !in pairs :: (p.0, q.1)
      decreases |left|
    {
      var p :| p in left;
      var new' := ComposeOne(pairs, p);
      toAdd := toAdd + new';
      done, left := done + {p}, left - {p};
    }
    assert done == pairs;
  }

  method ComposeOne(pairs: set<(Field, Field)>, p: (Field, Field)) returns (toAdd: set<(Field, Field)>)
    ensures toAdd == set q | q in pairs && p.1 == q.0 && (p.0, q.1) !in pairs :: (p.0, q.1)
  {
    toAdd := {};
    ghost var done: set<(Field, Field)> := {};
    var left := pairs;
    while left != {}
      invariant done + left == pairs
      invariant toAdd == set q | q in done && p.1 == q.0 && (p.0, q.1) !in pairs :: (p.0, q.1)
      decreases |left|
    {
      var q :| q in left;
      if p.1 == q.0 && (p.0, q.1) !in pairs {
        toAdd := toAdd + {(p.0, q.1)};
      }
      done, left := done + {q}, left - {q};
    }
    assert done == pairs;
  }

  lemma Fewer(all: set<(Field, Field)>, was: set<(Field, Field)>, more: set<(Field, Field)>, p: (Field, Field))
    requires p in more && p in all && p !in was
    ensures |all - (was + more)| < |all - was|
  {
    SubsetSize(all - (was + more), (all - was) - {p});
  }

  lemma FathersAreWithin(structs: seq<Struct>, fathers: set<(Field, Field)>)
    requires forall child, father :: (child, father) in fathers <==> Holds(structs, child, father)
    ensures WithinOnly(structs, fathers)
  {
    forall p | p in fathers ensures Within(structs, p.0, p.1) && p.0 in FieldNames(structs)
      && p.1 in FieldNames(structs) {
      assert (p.0, p.1) in fathers;
      HoldsNames(structs, p.0, p.1);
      assert IsWalk(structs, [p.0, p.1]);
    }
  }

  lemma HoldsNames(structs: seq<Struct>, child: Field, father: Field)
    requires Holds(structs, child, father)
    ensures child in FieldNames(structs) && father in FieldNames(structs)
  {
    var i, j :| 0 <= i < |structs| && 0 <= j < |structs| && HasField(structs[i], child)
      && FieldOfType(structs[j], father, structs[i].name);
    var k :| 0 <= k < |structs[i].elems| && structs[i].elems[k].name == child;
    var l :| 0 <= l < |structs[j].elems| && structs[j].elems[l].name == father;
  }

  lemma ComposedAreWithin(structs: seq<Struct>, pairs: set<(Field, Field)>)
    requires WithinOnly(structs, pairs)
    ensures WithinOnly(structs, Composed(pairs))
  {
    hide FieldNames, IsWalk;
    forall r | r in Composed(pairs) ensures Within(structs, r.0, r.1) && r.0 in FieldNames(structs)
      && r.1 in FieldNames(structs) {
      var p, q :| p in pairs && q in pairs && p.1 == q.0 && r == (p.0, q.1);
      JoinWalks(structs, p.0, p.1, q.1);
    }
  }

  lemma JoinWalks(structs: seq<Struct>, a: Field, b: Field, c: Field)
    requires Within(structs, a, b) && Within(structs, b, c)
    ensures Within(structs, a, c)
  {
    hide Holds;
    var v :| IsWalk(structs, v) && v[0] == a && v[|v| - 1] == b;
    var w :| IsWalk(structs, w) && w[0] == b && w[|w| - 1] == c;
    assert IsWalk(structs, v + w[1..]);
  }

  lemma {:induction false} WalkIsFound(structs: seq<Struct>, pairs: set<(Field, Field)>, walk: seq<Field>)
    requires IsWalk(structs, walk) && Composed(pairs) == {}
    requires forall child, father :: Holds(structs, child, father) ==> (child, father) in pairs
    ensures (walk[0], walk[|walk| - 1]) in pairs
  {
    hide Holds;
    var n := |walk|;
    assert Holds(structs, walk[n - 2], walk[n - 1]);
    if n > 2 {
      WalkIsFound(structs, pairs, walk[..n - 1]);
      var p, q := (walk[0], walk[n - 2]), (walk[n - 2], walk[n - 1]);
      assert p in pairs && q in pairs;
      assert (p.0, q.1) in pairs || (p.0, q.1) in Composed(pairs);
    }
  }

  /** With these ancestors, a path down the state is one that slicing knows as a path. */
  lemma PathsAreKnown(structs: seq<Struct>, ancestors: set<(Field, Field)>, path: seq<Field>)
    requires forall child, ancestor :: (child, ancestor) in ancestors <==> Within(structs, child, ancestor)
    requires path != [] && forall i :: 0 < i < |path| ==> Holds(structs, path[i], path[i - 1])
    ensures Slicing.IsPath(ancestors, path)
  {
    forall j, k | 0 <= j < k < |path| ensures (path[k], path[j]) in ancestors {
      UpThePath(structs, path, j, k);
    }
  }

  lemma {:induction false} UpThePath(structs: seq<Struct>, path: seq<Field>, j: nat, k: nat)
    requires j < k < |path| && forall i :: 0 < i < |path| ==> Holds(structs, path[i], path[i - 1])
    ensures Within(structs, path[k], path[j])
  {
    hide Holds;
    assert IsWalk(structs, [path[k], path[k - 1]]);
    if j < k - 1 {
      UpThePath(structs, path, j, k - 1);
      JoinWalks(structs, path[k], path[k - 1], path[j]);
    }
  }
}
