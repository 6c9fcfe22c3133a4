/** Leaving out the writes to fields nobody is interested in. */
module Slicing {
  import opened Prelude
  import opened StateSpec

  /** `coi` holds access chains, last field first; `ancestors` holds (field, field around it). */
  predicate IsSubfieldOfAnyone(f: Field, coi: set<seq<Field>>, ancestors: set<(Field, Field)>) {
    exists c :: c in coi && c != [] && (c[0] == f || (f, c[0]) in ancestors)
  }

  /** What to keep writing. */
  datatype Interest = Interest(coi: set<seq<Field>>, ancestors: set<(Field, Field)>) {
    predicate Keeps(f: Field) {
      IsSubfieldOfAnyone(f, coi, ancestors)
    }

    predicate Hides(path: seq<Field>) {
      path != [] && !Keeps(path[|path| - 1])
    }
  }

  function Hide(i: Interest, e: Expr): Expr {
    match e
    case Sym(_) => e
    case Const(_) => e
    case Prim(op, args) => Prim(op, HideAll(i, args))
    case And(a, b) => And(Hide(i, a), Hide(i, b))
    case Not(a) => Not(Hide(i, a))
    case RecGet(r, f) => RecGet(Hide(i, r), f)
    case RecSet(r, path, v) => if i.Hides(path) then Hide(i, r) else RecSet(Hide(i, r), path, Hide(i, v))
    case MapGet(a, k) => MapGet(Hide(i, a), Hide(i, k))
    case MapSet(a, k, v) => MapSet(Hide(i, a), Hide(i, k), Hide(i, v))
  }

  function HideAll(i: Interest, es: seq<Expr>): (r: seq<Expr>)
    ensures |r| == |es| && forall k :: 0 <= k < |es| ==> r[k] == Hide(i, es[k])
  {
    seq(|es|, k requires 0 <= k < |es| => Hide(i, es[k]))
  }

  /** `hide_write`. */
  function HideWrite(i: Interest, s: Spec): Spec {
    match s
    case Let(x, e, body) => Let(x, Hide(i, e), HideWrite(i, body))
    case When(names, call, args, body) => When(names, call, HideAll(i, args), HideWrite(i, body))
    case Rely(prop, body) => Rely(Hide(i, prop), HideWrite(i, body))
    case If(c, thn, els) => If(Hide(i, c), HideWrite(i, thn), HideWrite(i, els))
    case Ret(vals, st) => Ret(HideAll(i, vals), Hide(i, st))
    case Fail => Fail
  }

  /** No write to a field that is not kept is left. */
  predicate ShowsAll(i: Interest, e: Expr) {
    match e
    case Sym(_) => true
    case Const(_) => true
    case Prim(_, args) => AllShow(i, args)
    case And(a, b) => ShowsAll(i, a) && ShowsAll(i, b)
    case Not(a) => ShowsAll(i, a)
    case RecGet(r, _) => ShowsAll(i, r)
    case RecSet(r, path, v) => (path != [] ==> i.Keeps(path[|path| - 1])) && ShowsAll(i, r) && ShowsAll(i, v)
    case MapGet(a, k) => ShowsAll(i, a) && ShowsAll(i, k)
    case MapSet(a, k, v) => ShowsAll(i, a) && ShowsAll(i, k) && ShowsAll(i, v)
  }

  predicate AllShow(i: Interest, es: seq<Expr>) {
    es == [] || (ShowsAll(i, es[0]) && AllShow(i, es[1..]))
  }

  predicate SpecShows(i: Interest, s: Spec) {
    match s
    case Let(_, e, body) => ShowsAll(i, e) && SpecShows(i, body)
    case When(_, _, args, body) => AllShow(i, args) && SpecShows(i, body)
    case Rely(prop, body) => ShowsAll(i, prop) && SpecShows(i, body)
    case If(c, thn, els) => ShowsAll(i, c) && SpecShows(i, thn) && SpecShows(i, els)
    case Ret(vals, st) => AllShow(i, vals) && ShowsAll(i, st)
    case Fail => true
  }

  /** Hiding leaves nothing that is not kept, and what is all kept it leaves as it is. */
  lemma {:induction false} HideShows(i: Interest, e: Expr)
    ensures ShowsAll(i, Hide(i, e)) && (ShowsAll(i, e) ==> Hide(i, e) == e)
  {
    match e
    case Sym(_) =>
    case Const(_) =>
    case Prim(_, args) => HideAllShows(i, args);
    case And(a, b) => HideShows(i, a); HideShows(i, b);
    case Not(a) => HideShows(i, a);
    case RecGet(r, _) => HideShows(i, r);
    case RecSet(r, _, v) => HideShows(i, r); HideShows(i, v);
    case MapGet(a, k) => HideShows(i, a); HideShows(i, k);
    case MapSet(a, k, v) => HideShows(i, a); HideShows(i, k); HideShows(i, v);
  }

  lemma {:induction false} HideAllShows(i: Interest, es: seq<Expr>)
    ensures AllShow(i, HideAll(i, es)) && (AllShow(i, es) ==> HideAll(i, es) == es)
  {
    if es != [] {
      HideShows(i, es[0]);
      HideAllShows(i, es[1..]);
      assert HideAll(i, es) == [Hide(i, es[0])] + HideAll(i, es[1..]);
      assert HideAll(i, es)[1..] == HideAll(i, es[1..]) && es == [es[0]] + es[1..];
    }
  }

  lemma {:induction false} HideWriteShows(i: Interest, s: Spec)
    ensures SpecShows(i, HideWrite(i, s)) && (SpecShows(i, s) ==> HideWrite(i, s) == s)
  {
    match s
    case Let(_, e, body) => HideShows(i, e); HideWriteShows(i, body);
    case When(_, _, args, body) => HideAllShows(i, args); HideWriteShows(i, body);
    case Rely(prop, body) => HideShows(i, prop); HideWriteShows(i, body);
    case If(c, thn, els) => HideShows(i, c); HideWriteShows(i, thn); HideWriteShows(i, els);
    case Ret(vals, st) => HideAllShows(i, vals); HideShows(i, st);
    case Fail =>
  }

  // ---------- what is read and what is hidden

  function Reads(e: Expr): set<Field> {
    match e
    case Sym(_) => {}
    case Const(_) => {}
    case Prim(_, args) => ReadsAll(args)
    case And(a, b) => Reads(a) + Reads(b)
    case Not(a) => Reads(a)
    case RecGet(r, f) => Reads(r) + {f}
    case RecSet(r, _, v) => Reads(r) + Reads(v)
    case MapGet(a, k) => Reads(a) + Reads(k)
    case MapSet(a, k, v) => Reads(a) + Reads(k) + Reads(v)
  }

  function ReadsAll(es: seq<Expr>): (r: set<Field>)
    ensures forall k :: 0 <= k < |es| ==> Reads(es[k]) <= r
  {
    if es == [] then {} else Reads(es[0]) + ReadsAll(es[1..])
  }

  function Names(e: Expr): set<Name> {
    match e
    case Sym(x) => {x}
    case Const(_) => {}
    case Prim(_, args) => NamesAll(args)
    case And(a, b) => Names(a) + Names(b)
    case Not(a) => Names(a)
    case RecGet(r, _) => Names(r)
    case RecSet(r, _, v) => Names(r) + Names(v)
    case MapGet(a, k) => Names(a) + Names(k)
    case MapSet(a, k, v) => Names(a) + Names(k) + Names(v)
  }

  function NamesAll(es: seq<Expr>): (r: set<Name>)
    ensures forall k :: 0 <= k < |es| ==> Names(es[k]) <= r
  {
    if es == [] then {} else Names(es[0]) + NamesAll(es[1..])
  }

  /** The names whose values matter: those in conditions, in the arguments of calls and in what is returned, and those
      from which they are computed. */
  function Wanted(s: Spec): set<Name> {
    match s
    case Let(x, e, body) => if x in Wanted(body) then Wanted(body) - {x} + Names(e) else Wanted(body)
    case When(names, _, args, body) => (Wanted(body) - set x | x in names) + NamesAll(args)
    case Rely(prop, body) => Names(prop) + Wanted(body)
    case If(c, thn, els) => Names(c) + Wanted(thn) + Wanted(els)
    case Ret(vals, st) => NamesAll(vals) + Names(st)
    case Fail => {}
  }

  /** What is read, as far as it matters. */
  function SpecReads(s: Spec): set<Field> {
    match s
    case Let(x, e, body) => (if x in Wanted(body) then Reads(e) else {}) + SpecReads(body)
    case When(_, _, args, body) => ReadsAll(args) + SpecReads(body)
    case Rely(prop, body) => Reads(prop) + SpecReads(body)
    case If(c, thn, els) => Reads(c) + SpecReads(thn) + SpecReads(els)
    case Ret(vals, st) => ReadsAll(vals) + Reads(st)
    case Fail => {}
  }

  /** The fields whose writes are left out, those inside left-out values excepted. */
  function Hidden(i: Interest, e: Expr): set<Field> {
    match e
    case Sym(_) => {}
    case Const(_) => {}
    case Prim(_, args) => HiddenAll(i, args)
    case And(a, b) => Hidden(i, a) + Hidden(i, b)
    case Not(a) => Hidden(i, a)
    case RecGet(r, _) => Hidden(i, r)
    case RecSet(r, path, v) => Hidden(i, r) + if i.Hides(path) then {path[|path| - 1]} else Hidden(i, v)
    case MapGet(a, k) => Hidden(i, a) + Hidden(i, k)
    case MapSet(a, k, v) => Hidden(i, a) + Hidden(i, k) + Hidden(i, v)
  }

  function HiddenAll(i: Interest, es: seq<Expr>): (r: set<Field>)
    ensures forall k :: 0 <= k < |es| ==> Hidden(i, es[k]) <= r
  {
    if es == [] then {} else Hidden(i, es[0]) + HiddenAll(i, es[1..])
  }

  /** The same for what matters in the slice. */
  function HiddenFields(i: Interest, s: Spec): set<Field> {
    match s
    case Let(x, e, body) => (if x in Wanted(HideWrite(i, body)) then Hidden(i, e) else {}) + HiddenFields(i, body)
    case When(_, _, args, body) => HiddenAll(i, args) + HiddenFields(i, body)
    case Rely(prop, body) => Hidden(i, prop) + HiddenFields(i, body)
    case If(c, thn, els) => Hidden(i, c) + HiddenFields(i, thn) + HiddenFields(i, els)
    case Ret(vals, st) => HiddenAll(i, vals) + Hidden(i, st)
    case Fail => {}
  }

  // ---------- values up to hidden fields

  /** The value without the fields in `w`, wherever they stand. */
  function Erase(v: Value, w: set<Field>): Value {
    match v
    case Num(_) => v
    case Rec(fs) => Rec(map f | f in fs && f !in w :: Erase(fs[f], w))
    case Arr(cs) => Arr(map k | k in cs :: Erase(cs[k], w))
  }

  predicate Same(a: Value, b: Value, w: set<Field>) {
    Erase(a, w) == Erase(b, w)
  }

  predicate SameAll(a: seq<Value>, b: seq<Value>, w: set<Field>) {
    |a| == |b| && forall k :: 0 <= k < |a| ==> Same(a[k], b[k], w)
  }

  /** Both environments hold the same for the names in `xs`. */
  predicate SameEnv(a: Env, b: Env, xs: set<Name>, w: set<Field>) {
    forall x :: x in xs ==> (x in a <==> x in b) && (x in a ==> Same(a[x], b[x], w))
  }

  predicate SameOutcome(a: Outcome, b: Outcome, w: set<Field>) {
    match a
    case Failed => b.Failed?
    case Done(vals, st) => b.Done? && SameAll(vals, b.vals, w) && Same(st, b.st, w)
  }

  /** Operations and the specifications that are called do not look at the fields in `w` either. */
  ghost predicate Respects(m: Machine, w: set<Field>) {
    && (forall op, a, b :: SameAll(a, b, w) ==> Same(m.prim(op, a), m.prim(op, b), w))
    && (forall op, a, b :: SameAll(a, b, w) ==>
          match m.call(op, a)
          case None => m.call(op, b).None?
          case Some(r) => m.call(op, b).Some? && SameAll(r, m.call(op, b).value, w))
  }

  lemma EraseGetField(v: Value, f: Field, w: set<Field>)
    requires f !in w
    ensures Erase(GetField(v, f), w) == GetField(Erase(v, w), f)
  {
  }

  lemma EraseCell(v: Value, k: int, x: Value, w: set<Field>)
    ensures Erase(GetCell(v, k), w) == GetCell(Erase(v, w), k)
    ensures Erase(SetCell(v, k, x), w) == SetCell(Erase(v, w), k, Erase(x, w))
  {
  }

  lemma EraseUpdate(fs: map<Field, Value>, f: Field, x: Value, w: set<Field>)
    ensures Erase(Rec(fs[f := x]), w) ==
      if f in w then Erase(Rec(fs), w) else Rec(Erase(Rec(fs), w).fields[f := Erase(x, w)])
  {
    var was, now := Erase(Rec(fs), w).fields, Erase(Rec(fs[f := x]), w).fields;
    assert f in w ==> now == was;
    assert f !in w ==> now == was[f := Erase(x, w)];
  }

  lemma {:induction false} EraseSetPath(v: Value, path: seq<Field>, x: Value, w: set<Field>)
    requires path != []
    ensures Erase(SetPath(v, path, x), w) ==
      if path[|path| - 1] in w then Erase(v, w) else SetPath(Erase(v, w), path, Erase(x, w))
  {
    if v.Rec? && |path| > 1 && path[0] in v.fields {
      EraseSetPath(v.fields[path[0]], path[1..], x, w);
      EraseUpdate(v.fields, path[0], SetPath(v.fields[path[0]], path[1..], x), w);
      var e := Erase(v, w).fields;
      assert path[0] !in w ==> e[path[0]] == Erase(v.fields[path[0]], w);
      assert path[0] !in w ==> e[path[0] := e[path[0]]] == e;
    } else if v.Rec? && |path| == 1 {
      EraseUpdate(v.fields, path[0], x, w);
    }
  }

  // ---------- the slice does what the specification does, up to hidden fields

  lemma FieldSame(a: Value, b: Value, f: Field, w: set<Field>)
    requires Same(a, b, w) && f !in w
    ensures Same(GetField(a, f), GetField(b, f), w)
  {
    EraseGetField(a, f, w);
    EraseGetField(b, f, w);
  }

  lemma PathSame(a: Value, b: Value, path: seq<Field>, x: Value, y: Value, w: set<Field>)
    requires Same(a, b, w) && Same(x, y, w)
    ensures Same(SetPath(a, path, x), SetPath(b, path, y), w)
  {
    if path != [] {
      EraseSetPath(a, path, x, w);
      EraseSetPath(b, path, y, w);
    }
  }

  lemma CellSame(a: Value, b: Value, k: Value, k': Value, x: Value, y: Value, w: set<Field>)
    requires Same(a, b, w) && Same(k, k', w) && Same(x, y, w)
    ensures Same(GetCell(a, AsInt(k)), GetCell(b, AsInt(k')), w)
    ensures Same(SetCell(a, AsInt(k), x), SetCell(b, AsInt(k'), y), w)
  {
    EraseCell(a, AsInt(k), x, w);
    EraseCell(b, AsInt(k'), y, w);
  }

  lemma {:induction false} HideSame(m: Machine, i: Interest, w: set<Field>, xs: set<Name>, e: Expr, a: Env, b: Env)
    requires Respects(m, w) && SameEnv(a, b, xs, w) && Names(Hide(i, e)) <= xs
    requires Hidden(i, e) <= w && Reads(Hide(i, e)) !! w && forall f :: f in w ==> !i.Keeps(f)
    ensures Same(Ev(m, e, a), Ev(m, Hide(i, e), b), w)
  {
    hide Same, SameEnv, Respects;
    match e
    case Sym(x) => SymSame(m, x, a, b, xs, w);
    case Const(n) => SameSelf(Num(n), w);
    case Prim(op, args) =>
      HideAllSame(m, i, w, xs, args, a, b);
      PrimSame(m, w, op, EvAll(m, args, a), EvAll(m, HideAll(i, args), b));
    case And(p, q) =>
      HideSame(m, i, w, xs, p, a, b);
      HideSame(m, i, w, xs, q, a, b);
      TruthSame(Ev(m, p, a), Ev(m, Hide(i, p), b), w);
      TruthSame(Ev(m, q, a), Ev(m, Hide(i, q), b), w);
      SameSelf(Ev(m, e, a), w);
    case Not(p) =>
      HideSame(m, i, w, xs, p, a, b);
      TruthSame(Ev(m, p, a), Ev(m, Hide(i, p), b), w);
      SameSelf(Ev(m, e, a), w);
    case RecGet(r, f) =>
      HideSame(m, i, w, xs, r, a, b);
      FieldSame(Ev(m, r, a), Ev(m, Hide(i, r), b), f, w);
    case RecSet(r, path, v) =>
      HideSame(m, i, w, xs, r, a, b);
      if i.Hides(path) {
        WriteSkipped(Ev(m, r, a), Ev(m, Hide(i, r), b), path, Ev(m, v, a), w);
      } else {
        HideSame(m, i, w, xs, v, a, b);
        PathSame(Ev(m, r, a), Ev(m, Hide(i, r), b), path, Ev(m, v, a), Ev(m, Hide(i, v), b), w);
      }
    case MapGet(r, k) =>
      HideSame(m, i, w, xs, r, a, b);
      HideSame(m, i, w, xs, k, a, b);
      SameSelf(Num(0), w);
      CellSame(Ev(m, r, a), Ev(m, Hide(i, r), b), Ev(m, k, a), Ev(m, Hide(i, k), b), Num(0), Num(0), w);
    case MapSet(r, k, v) =>
      HideSame(m, i, w, xs, r, a, b);
      HideSame(m, i, w, xs, k, a, b);
      HideSame(m, i, w, xs, v, a, b);
      CellSame(Ev(m, r, a), Ev(m, Hide(i, r), b), Ev(m, k, a), Ev(m, Hide(i, k), b), Ev(m, v, a),
        Ev(m, Hide(i, v), b), w);
  }

  lemma SymSame(m: Machine, x: Name, a: Env, b: Env, xs: set<Name>, w: set<Field>)
    requires SameEnv(a, b, xs, w) && x in xs
    ensures Same(Ev(m, Sym(x), a), Ev(m, Sym(x), b), w)
  {
  }

  lemma SameSelf(v: Value, w: set<Field>)
    ensures Same(v, v, w)
  {
  }

  lemma WriteSkipped(a: Value, b: Value, path: seq<Field>, x: Value, w: set<Field>)
    requires Same(a, b, w) && path != [] && path[|path| - 1] in w
    ensures Same(SetPath(a, path, x), b, w)
  {
    EraseSetPath(a, path, x, w);
  }

  lemma PrimSame(m: Machine, w: set<Field>, op: Op, x: seq<Value>, y: seq<Value>)
    requires Respects(m, w) && SameAll(x, y, w)
    ensures Same(m.prim(op, x), m.prim(op, y), w)
  {
  }

  lemma {:induction false} HideAllSame(m: Machine, i: Interest, w: set<Field>, xs: set<Name>, es: seq<Expr>, a: Env,
                                       b: Env)
    requires Respects(m, w) && SameEnv(a, b, xs, w) && NamesAll(HideAll(i, es)) <= xs
    requires HiddenAll(i, es) <= w && ReadsAll(HideAll(i, es)) !! w && forall f :: f in w ==> !i.Keeps(f)
    ensures SameAll(EvAll(m, es, a), EvAll(m, HideAll(i, es), b), w)
  {
    forall k | 0 <= k < |es| ensures Same(Ev(m, es[k], a), Ev(m, Hide(i, es[k]), b), w) {
      assert HideAll(i, es)[k] == Hide(i, es[k]);
      HideSame(m, i, w, xs, es[k], a, b);
    }
  }

  lemma {:induction false} BindSame(a: Env, b: Env, names: seq<Name>, x: seq<Value>, y: seq<Value>, xs: set<Name>,
                                    w: set<Field>)
    requires SameEnv(a, b, xs - (set n | n in names), w) && SameAll(x, y, w) && |names| == |x|
    ensures SameEnv(Bind(a, names, x), Bind(b, names, y), xs, w)
  {
    if names != [] {
      var first, last := names[..|names| - 1], names[|names| - 1];
      assert forall n :: n in names <==> n in first || n == last by {
        assert names == first + [last];
      }
      BindSame(a, b, first, x[..|x| - 1], y[..|y| - 1], xs - {last}, w);
    } else {
      assert xs - (set n | n in names) == xs;
    }
  }

  /** Same branches, and the same outcome but for the hidden fields. */
  lemma {:induction false} SliceSame(m: Machine, i: Interest, w: set<Field>, s: Spec, a: Env, b: Env)
    requires Respects(m, w) && SameEnv(a, b, Wanted(HideWrite(i, s)), w)
    requires HiddenFields(i, s) <= w && SpecReads(HideWrite(i, s)) !! w && forall f :: f in w ==> !i.Keeps(f)
    ensures Eval(m, s, a).branches == Eval(m, HideWrite(i, s), b).branches
    ensures SameOutcome(Eval(m, s, a).out, Eval(m, HideWrite(i, s), b).out, w)
    decreases s, 1
  {
    hide Respects, Ev, Hide, Same, Names, Reads, Hidden, EvAll, HideAll, NamesAll, ReadsAll, HiddenAll, SameAll;
    match s
    case Let(_, _, _) => SliceLet(m, i, w, s, a, b);
    case When(_, _, _, _) => SliceCall(m, i, w, s, a, b);
    case Rely(prop, body) =>
      HideSame(m, i, w, Wanted(HideWrite(i, s)), prop, a, b);
      TruthSame(Ev(m, prop, a), Ev(m, Hide(i, prop), b), w);
      SliceSame(m, i, w, body, a, b);
    case If(c, thn, els) =>
      HideSame(m, i, w, Wanted(HideWrite(i, s)), c, a, b);
      TruthSame(Ev(m, c, a), Ev(m, Hide(i, c), b), w);
      SliceSame(m, i, w, thn, a, b);
      SliceSame(m, i, w, els, a, b);
    case Ret(vals, st) =>
      HideAllSame(m, i, w, Wanted(HideWrite(i, s)), vals, a, b);
      HideSame(m, i, w, Wanted(HideWrite(i, s)), st, a, b);
    case Fail =>
  }

  lemma {:induction false} SliceLet(m: Machine, i: Interest, w: set<Field>, s: Spec, a: Env, b: Env)
    requires Respects(m, w) && SameEnv(a, b, Wanted(HideWrite(i, s)), w) && s.Let?
    requires HiddenFields(i, s) <= w && SpecReads(HideWrite(i, s)) !! w && forall f :: f in w ==> !i.Keeps(f)
    ensures Eval(m, s, a).branches == Eval(m, HideWrite(i, s), b).branches
    ensures SameOutcome(Eval(m, s, a).out, Eval(m, HideWrite(i, s), b).out, w)
    decreases s, 0
  {
    hide Respects, Ev, Hide, Same, Names, Reads, Hidden, SameOutcome;
    if s.name in Wanted(HideWrite(i, s.body)) {
      HideSame(m, i, w, Wanted(HideWrite(i, s)), s.val, a, b);
    }
    SliceSame(m, i, w, s.body, a[s.name := Ev(m, s.val, a)], b[s.name := Ev(m, Hide(i, s.val), b)]);
  }

  lemma {:induction false} SliceCall(m: Machine, i: Interest, w: set<Field>, s: Spec, a: Env, b: Env)
    requires Respects(m, w) && SameEnv(a, b, Wanted(HideWrite(i, s)), w) && s.When?
    requires HiddenFields(i, s) <= w && SpecReads(HideWrite(i, s)) !! w && forall f :: f in w ==> !i.Keeps(f)
    ensures Eval(m, s, a).branches == Eval(m, HideWrite(i, s), b).branches
    ensures SameOutcome(Eval(m, s, a).out, Eval(m, HideWrite(i, s), b).out, w)
    decreases s, 0
  {
    hide Respects, Ev, Hide, Same, EvAll, HideAll, NamesAll, ReadsAll, HiddenAll, SameAll, Bind;
    HideAllSame(m, i, w, Wanted(HideWrite(i, s)), s.args, a, b);
    var x, y := EvAll(m, s.args, a), EvAll(m, HideAll(i, s.args), b);
    CallSame(m, w, s.call, x, y);
    var r, r' := m.call(s.call, x), m.call(s.call, y);
    if r.Some? && |r.value| == |s.names| {
      BindSame(a, b, s.names, r.value, r'.value, Wanted(HideWrite(i, s.body)), w);
      SliceSame(m, i, w, s.body, Bind(a, s.names, r.value), Bind(b, s.names, r'.value));
    }
  }

  lemma TruthSame(a: Value, b: Value, w: set<Field>)
    requires Same(a, b, w)
    ensures Truth(a) == Truth(b)
  {
  }

  lemma CallSame(m: Machine, w: set<Field>, call: Op, x: seq<Value>, y: seq<Value>)
    requires Respects(m, w) && SameAll(x, y, w)
    ensures |x| == |y| && (m.call(call, x).Some? <==> m.call(call, y).Some?)
    ensures m.call(call, x).Some? ==>
      SameAll(m.call(call, x).value, m.call(call, y).value, w) && |m.call(call, x).value| == |m.call(call, y).value|
  {
  }

  // ---------- what the user of the slice may rely on

  /** A path down the state: every field lies within the ones before it. */
  predicate IsPath(ancestors: set<(Field, Field)>, path: seq<Field>) {
    path != [] && forall j, k :: 0 <= j < k < |path| ==> (path[k], path[j]) in ancestors
  }

  /** Both states hold the same at every kept field. */
  ghost predicate AgreesOnKept(i: Interest, a: Value, b: Value, w: set<Field>) {
    forall path :: IsPath(i.ancestors, path) && i.Keeps(path[|path| - 1]) ==>
      Same(GetPath(a, path), GetPath(b, path), w) && AsInt(GetPath(a, path)) == AsInt(GetPath(b, path))
  }

  /** What is left and matters reads nothing that is not written any more. */
  predicate Closed(i: Interest, s: Spec) {
    SpecReads(HideWrite(i, s)) !! HiddenFields(i, s)
  }

  /** A name that nobody asks for in the slice costs nothing: what it is bound to hides nothing and reads nothing. */
  lemma DeadLet(i: Interest, x: Name, e: Expr, body: Spec)
    requires x !in Wanted(HideWrite(i, body))
    ensures var s := Let(x, e, body);
      && Wanted(HideWrite(i, s)) == Wanted(HideWrite(i, body)) && HiddenFields(i, s) == HiddenFields(i, body)
      && (Closed(i, s) <==> Closed(i, body))
  {
    assert HideWrite(i, Let(x, e, body)).Let? && HideWrite(i, Let(x, e, body)).body == HideWrite(i, body);
  }

  /** No field with a hidden write has a kept field inside. */
  predicate NothingKeptBelow(i: Interest, w: set<Field>) {
    forall p :: p in i.ancestors && i.Keeps(p.0) ==> p.1 !in w
  }

  lemma {:induction false} HiddenIsNotKept(i: Interest, e: Expr)
    ensures forall f :: f in Hidden(i, e) ==> !i.Keeps(f)
  {
    match e
    case Sym(_) =>
    case Const(_) =>
    case Prim(_, args) => HiddenAllIsNotKept(i, args);
    case And(a, b) => HiddenIsNotKept(i, a); HiddenIsNotKept(i, b);
    case Not(a) => HiddenIsNotKept(i, a);
    case RecGet(r, _) => HiddenIsNotKept(i, r);
    case RecSet(r, _, v) => HiddenIsNotKept(i, r); HiddenIsNotKept(i, v);
    case MapGet(a, k) => HiddenIsNotKept(i, a); HiddenIsNotKept(i, k);
    case MapSet(a, k, v) => HiddenIsNotKept(i, a); HiddenIsNotKept(i, k); HiddenIsNotKept(i, v);
  }

  lemma {:induction false} HiddenAllIsNotKept(i: Interest, es: seq<Expr>)
    ensures forall f :: f in HiddenAll(i, es) ==> !i.Keeps(f)
  {
    if es != [] {
      HiddenIsNotKept(i, es[0]);
      HiddenAllIsNotKept(i, es[1..]);
    }
  }

  lemma {:induction false} HiddenFieldsAreNotKept(i: Interest, s: Spec)
    ensures forall f :: f in HiddenFields(i, s) ==> !i.Keeps(f)
  {
    match s
    case Let(_, e, body) => HiddenIsNotKept(i, e); HiddenFieldsAreNotKept(i, body);
    case When(_, _, args, body) => HiddenAllIsNotKept(i, args); HiddenFieldsAreNotKept(i, body);
    case Rely(prop, body) => HiddenIsNotKept(i, prop); HiddenFieldsAreNotKept(i, body);
    case If(c, thn, els) => HiddenIsNotKept(i, c); HiddenFieldsAreNotKept(i, thn); HiddenFieldsAreNotKept(i, els);
    case Ret(vals, st) => HiddenAllIsNotKept(i, vals); HiddenIsNotKept(i, st);
    case Fail =>
  }

  lemma {:induction false} EraseGetPath(v: Value, path: seq<Field>, w: set<Field>)
    requires forall f :: f in path ==> f !in w
    ensures Erase(GetPath(v, path), w) == GetPath(Erase(v, w), path)
    decreases |path|
  {
    if path != [] {
      EraseGetField(v, path[0], w);
      EraseGetPath(GetField(v, path[0]), path[1..], w);
    }
  }

  /** A path that comes to an interesting field leads to one that is kept, however far it goes on below it. */
  lemma BelowInterestIsKept(i: Interest, path: seq<Field>, j: nat, c: seq<Field>)
    requires IsPath(i.ancestors, path) && j < |path| && c in i.coi && c != [] && c[0] == path[j]
    ensures i.Keeps(path[|path| - 1]) && !i.Hides(path)
  {
    assert j < |path| - 1 ==> (path[|path| - 1], path[j]) in i.ancestors;
  }

  /** A field that is neither interesting nor below an interesting one is not kept. */
  lemma ElseNotKept(i: Interest, f: Field)
    requires forall c :: c in i.coi && c != [] ==> c[0] != f && (f, c[0]) !in i.ancestors
    ensures !i.Keeps(f) && i.Hides([f])
  {
  }

  lemma SameAgrees(i: Interest, a: Value, b: Value, w: set<Field>)
    requires Same(a, b, w) && NothingKeptBelow(i, w) && forall f :: f in w ==> !i.Keeps(f)
    ensures AgreesOnKept(i, a, b, w)
  {
    forall path | IsPath(i.ancestors, path) && i.Keeps(path[|path| - 1])
      ensures Same(GetPath(a, path), GetPath(b, path), w) && AsInt(GetPath(a, path)) == AsInt(GetPath(b, path))
    {
      forall f | f in path ensures f !in w {
        var j :| 0 <= j < |path| && path[j] == f;
        if j < |path| - 1 {
          assert (path[|path| - 1], path[j]) in i.ancestors;
        }
      }
      EraseGetPath(a, path, w);
      EraseGetPath(b, path, w);
    }
  }

  /** Slicing is sound: same branches, success together, and agreement on every kept field. */
  lemma SlicingIsSound(m: Machine, i: Interest, s: Spec, env: Env)
    requires Closed(i, s) && NothingKeptBelow(i, HiddenFields(i, s)) && Respects(m, HiddenFields(i, s))
    ensures var was, now := Eval(m, s, env), Eval(m, HideWrite(i, s), env);
      && was.branches == now.branches
      && SameOutcome(was.out, now.out, HiddenFields(i, s))
      && (was.out.Done? ==> AgreesOnKept(i, was.out.st, now.out.st, HiddenFields(i, s)))
  {
    HiddenFieldsAreNotKept(i, s);
    SliceSame(m, i, HiddenFields(i, s), s, env, env);
    if Eval(m, s, env).out.Done? {
      SameAgrees(i, Eval(m, s, env).out.st, Eval(m, HideWrite(i, s), env).out.st, HiddenFields(i, s));
    }
  }

  /** A counter that nobody is interested in, counted up by way of a name of its own: that the name is read from the
      counter does not matter, as only the counter depends on it. */
  lemma HiddenCounterIsClosed(inc: Op)
    ensures var i := Interest({["a"]}, {});
      var last := Ret([], RecSet(Sym("st1"), ["a"], Const(1)));
      var s := Let("v", RecGet(Sym("st"), "cnt"), Let("st1", RecSet(Sym("st"), ["cnt"], Prim(inc, [Sym("v")])), last));
      && Closed(i, s) && HiddenFields(i, s) == {"cnt"} && "cnt" in Reads(HideWrite(i, s).val)
      && HideWrite(i, s) == Let("v", RecGet(Sym("st"), "cnt"), Let("st1", Sym("st"), last))
  {
    var i, last := Interest({["a"]}, {}), Ret([], RecSet(Sym("st1"), ["a"], Const(1)));
    var bump := RecSet(Sym("st"), ["cnt"], Prim(inc, [Sym("v")]));
    assert ["a"] in i.coi && i.Keeps("a") && !i.Keeps("cnt");
    assert HideAll(i, []) == [] && HideWrite(i, last) == last && Wanted(last) == {"st1"};
    assert SpecReads(last) == {} && HiddenFields(i, last) == {};
    assert Hide(i, bump) == Sym("st") && Hidden(i, bump) == {"cnt"};
    assert Hide(i, RecGet(Sym("st"), "cnt")) == RecGet(Sym("st"), "cnt");
    var rest := Let("st1", Sym("st"), last);
    assert HideWrite(i, Let("st1", bump, last)) == rest && Wanted(rest) == {"st"} && SpecReads(rest) == {};
    assert HiddenFields(i, Let("st1", bump, last)) == {"cnt"};
  }

  /** The check for a write only looks below: a write to the whole of a record is left out although a field of
      interest lies inside, and then the slice loses it. */
  lemma WriteAboveKept(m: Machine)
    ensures var i := Interest({["len"]}, {("len", "buffer")});
      var s := Ret([], RecSet(Sym("st"), ["buffer"], Sym("fresh")));
      var env := map["st" := Rec(map["buffer" := Rec(map["len" := Num(1)])]), "fresh" := Rec(map["len" := Num(2)])];
      && Closed(i, s) && HideWrite(i, s) == Ret([], Sym("st")) && IsPath(i.ancestors, ["buffer", "len"])
         && i.Keeps("len")
      && FinalState(m, s, env).Some? && GetPath(FinalState(m, s, env).value, ["buffer", "len"]) == Num(2)
      && FinalState(m, HideWrite(i, s), env).Some? && GetPath(FinalState(m, HideWrite(i, s), env).value,
         ["buffer", "len"]) == Num(1)
  {
    var i := Interest({["len"]}, {("len", "buffer")});
    var s := Ret([], RecSet(Sym("st"), ["buffer"], Sym("fresh")));
    var st, blank := Rec(map["buffer" := Rec(map["len" := Num(1)])]), Rec(map["len" := Num(2)]);
    var env := map["st" := st, "fresh" := blank];
    assert i.Hides(["buffer"]);
    assert ["len"] in i.coi && i.Keeps("len");
    var after := Rec(map["buffer" := blank]);
    assert Ev(m, RecSet(Sym("st"), ["buffer"], Sym("fresh")), env) == after;
    assert GetPath(GetField(after, "buffer"), ["len"]) == Num(2);
    assert GetPath(GetField(st, "buffer"), ["len"]) == Num(1);
  }

  /** When one write does not matter at the end of `path`, whatever the state and the value: exactly when
      it is not to that place and not to anything around it. */
  lemma WriteIsHarmlessIff(write: seq<Field>, path: seq<Field>)
    requires write != []
    ensures (forall v, x :: AsInt(GetPath(SetPath(v, write, x), path)) == AsInt(GetPath(v, path))) <==> !(write <= path)
  {
    if write <= path {
      var v, x := Holding(path, Num(0)), Holding(path[|write|..], Num(1));
      assert path == write + path[|write|..];
      WriteShows(write, path[|write|..]);
      assert AsInt(GetPath(SetPath(v, write, x), path)) != AsInt(GetPath(v, path));
    } else {
      forall v, x ensures AsInt(GetPath(SetPath(v, write, x), path)) == AsInt(GetPath(v, path)) {
        WriteBeside(v, write, x, path);
      }
    }
  }

  /** A value with `x` at the end of `path`. */
  function Holding(path: seq<Field>, x: Value): Value {
    if path == [] then x else Rec(map[path[0] := Holding(path[1..], x)])
  }

  lemma {:induction false} WriteShows(write: seq<Field>, rest: seq<Field>)
    requires write != []
    ensures AsInt(GetPath(Holding(write + rest, Num(0)), write + rest)) == 0
    ensures AsInt(GetPath(SetPath(Holding(write + rest, Num(0)), write, Holding(rest, Num(1))), write + rest)) == 1
  {
    var path := write + rest;
    HoldingGet(path, Num(0));
    assert path[0] == write[0] && path[1..] == write[1..] + rest;
    if |write| > 1 {
      WriteShows(write[1..], rest);
    } else {
      assert path[1..] == rest;
      HoldingGet(rest, Num(1));
    }
  }

  lemma {:induction false} HoldingGet(path: seq<Field>, x: Value)
    ensures GetPath(Holding(path, x), path) == x
  {
    if path != [] {
      HoldingGet(path[1..], x);
    }
  }

  lemma {:induction false} WriteBeside(v: Value, write: seq<Field>, x: Value, path: seq<Field>)
    requires write != [] && !(write <= path)
    ensures AsInt(GetPath(SetPath(v, write, x), path)) == AsInt(GetPath(v, path))
  {
    if v.Rec? && path != [] && write[0] == path[0] {
      assert |write| > 1;
      if path[0] in v.fields {
        WriteBeside(v.fields[path[0]], write[1..], x, path[1..]);
      }
    }
  }
}
