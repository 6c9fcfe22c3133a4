/** Merging branches that return the same state, and the loop that alternates this with leaving out writes.

    Only the returned state is to be kept: of two branches with the same state one survives with its values. */
module BranchMerge {
  import opened Prelude
  import opened StateSpec
  import opened Slicing

  datatype Returned = StateIs(st: Expr) | NoState

  /** `try_get_return_state`. */
  function TryGetReturnState(s: Spec): Option<Returned> {
    match s
    case Ret(vals, st) => if vals == [] && st.Const? then None else Some(StateIs(st))
    case Fail => Some(NoState)
    case _ => None
  }

  /** One node, its children done already. */
  function MergeNode(s: Spec): Spec {
    if !s.If? then s
    else
      var t, e := TryGetReturnState(s.thn), TryGetReturnState(s.els);
      if t.Some? && e.Some? then
        if t == e then s.thn else s
      else if t.Some? && s.els.If? then
        if TryGetReturnState(s.els.thn) == t then If(And(s.cond, s.els.cond), s.els.thn, s.els.els)
        else if TryGetReturnState(s.els.els) == t then If(And(s.cond, Not(s.els.cond)), s.els.thn, s.els.els)
        else s
      else if e.Some? && s.thn.If? then
        if TryGetReturnState(s.thn.thn) == e then If(And(s.cond, Not(s.thn.cond)), s.thn.els, s.thn.thn)
        else if TryGetReturnState(s.thn.els) == e then If(And(s.cond, s.thn.cond), s.thn.thn, s.thn.els)
        else s
      else s
  }

  /** `merge_branch`. */
  function MergeBranch(s: Spec): Spec {
    match s
    case Let(x, e, body) => Let(x, e, MergeBranch(body))
    case When(names, call, args, body) => When(names, call, args, MergeBranch(body))
    case Rely(prop, body) => Rely(prop, MergeBranch(body))
    case If(c, thn, els) => MergeNode(If(c, MergeBranch(thn), MergeBranch(els)))
    case _ => s
  }

  /** One of the two shapes with the inner `if` in the else branch. */
  predicate IsElseNested(s: Spec) {
    && s.If? && s.els.If? && TryGetReturnState(s.thn).Some?
    && (TryGetReturnState(s.thn) == TryGetReturnState(s.els.thn)
       || TryGetReturnState(s.thn) == TryGetReturnState(s.els.els))
  }

  /** An `if` whose branches return the same state, or whose one branch returns what a branch of the other one does. */
  predicate IsMergeable(s: Spec) {
    s.If? && (
      || ReturnSame(s.thn, s.els)
      || (s.els.If? && (ReturnSame(s.thn, s.els.thn) || ReturnSame(s.thn, s.els.els)))
      || (s.thn.If? && (ReturnSame(s.els, s.thn.thn) || ReturnSame(s.els, s.thn.els))))
  }

  predicate ReturnSame(a: Spec, b: Spec) {
    TryGetReturnState(a).Some? && TryGetReturnState(a) == TryGetReturnState(b)
  }

  /** No such `if` stands anywhere. */
  predicate FullyMerged(s: Spec) {
    match s
    case Let(_, _, body) => FullyMerged(body)
    case When(_, _, _, body) => FullyMerged(body)
    case Rely(_, body) => FullyMerged(body)
    case If(_, thn, els) => FullyMerged(thn) && FullyMerged(els) && !IsMergeable(s)
    case _ => true
  }

  // ---------- each shape by itself

  lemma SameReturn(m: Machine, a: Spec, b: Spec, env: Env)
    requires TryGetReturnState(a).Some? && TryGetReturnState(a) == TryGetReturnState(b)
    ensures FinalState(m, a, env) == FinalState(m, b, env)
  {
    hide Ev;
  }

  lemma FinalIf(m: Machine, c: Expr, thn: Spec, els: Spec, env: Env)
    ensures FinalState(m, If(c, thn, els), env) == FinalState(m, if Truth(Ev(m, c, env)) then thn else els, env)
  {
    hide Ev;
  }

  /** Except for the shapes with the inner `if` in the else branch, the state is kept. */
  lemma NodeKeepsState(m: Machine, s: Spec, env: Env)
    requires !IsElseNested(s)
    ensures FinalState(m, MergeNode(s), env) == FinalState(m, s, env)
  {
    if s.If? && MergeNode(s) != s {
      hide FinalState, TryGetReturnState;
      FinalIf(m, s.cond, s.thn, s.els, env);
      var t, e := TryGetReturnState(s.thn), TryGetReturnState(s.els);
      if t.Some? {
        SameReturn(m, s.thn, s.els, env);
      } else {
        FinalIf(m, s.thn.cond, s.thn.thn, s.thn.els, env);
        if TryGetReturnState(s.thn.thn) == e {
          SameReturn(m, s.thn.thn, s.els, env);
          FinalIf(m, And(s.cond, Not(s.thn.cond)), s.thn.els, s.thn.thn, env);
        } else {
          SameReturn(m, s.thn.els, s.els, env);
          FinalIf(m, And(s.cond, s.thn.cond), s.thn.thn, s.thn.els, env);
        }
      }
    }
  }

  /** With the inner `if` in the else branch, the state is kept exactly when the two conditions agree or the
      remaining branch returns that state too. */
  lemma ElseNestedKeepsStateIff(m: Machine, s: Spec, env: Env)
    requires IsElseNested(s)
    ensures var rest := if TryGetReturnState(s.thn) == TryGetReturnState(s.els.thn) then s.els.els else s.els.thn;
      FinalState(m, MergeNode(s), env) == FinalState(m, s, env) <==>
        (Truth(Ev(m, s.cond, env)) <==> Truth(Ev(m, s.els.cond, env)))
          || FinalState(m, rest, env) == FinalState(m, s.thn, env)
  {
    NotARet(s.els);
    hide FinalState, TryGetReturnState;
    FinalIf(m, s.cond, s.thn, s.els, env);
    FinalIf(m, s.els.cond, s.els.thn, s.els.els, env);
    if TryGetReturnState(s.thn) == TryGetReturnState(s.els.thn) {
      SameReturn(m, s.thn, s.els.thn, env);
      FinalIf(m, And(s.cond, s.els.cond), s.els.thn, s.els.els, env);
    } else {
      SameReturn(m, s.thn, s.els.els, env);
      FinalIf(m, And(s.cond, Not(s.els.cond)), s.els.thn, s.els.els, env);
    }
  }

  lemma NotARet(s: Spec)
    requires s.If?
    ensures TryGetReturnState(s).None?
  {
  }

  /** Two inputs on which the two shapes go wrong: `if x then Some st else if y then Some st else Some other` with
      only `x` true, and `if x then Some st else if y then Some other else Some st` with only `x` true. */
  lemma ElseNestedGoesWrong(m: Machine)
    ensures var st, other := Ret([], Sym("st")), Ret([], Sym("other"));
      var env: Env := map["x" := Num(1), "y" := Num(0), "st" := Num(1), "other" := Num(2)];
      var first := If(Sym("x"), st, If(Sym("y"), st, other));
      var second := If(Sym("x"), st, If(Sym("y"), other, st));
      && FinalState(m, first, env) == Some(Num(1)) && FinalState(m, MergeBranch(first), env) == Some(Num(2))
      && FinalState(m, second, env) == Some(Num(1)) && FinalState(m, MergeBranch(second), env) == Some(Num(2))
  {
    var st, other := Ret([], Sym("st")), Ret([], Sym("other"));
    var env: Env := map["x" := Num(1), "y" := Num(0), "st" := Num(1), "other" := Num(2)];
    assert MergeBranch(If(Sym("x"), st, If(Sym("y"), st, other))) == If(And(Sym("x"), Sym("y")), st, other);
    assert MergeBranch(If(Sym("x"), st, If(Sym("y"), other, st))) == If(And(Sym("x"), Not(Sym("y"))), other, st);
    FinalIf(m, Sym("x"), st, If(Sym("y"), st, other), env);
    FinalIf(m, Sym("x"), st, If(Sym("y"), other, st), env);
    FinalIf(m, And(Sym("x"), Sym("y")), st, other, env);
    FinalIf(m, And(Sym("x"), Not(Sym("y"))), other, st, env);
  }

  /** The conditions these shapes call for are `x || y` and `!x && y`. */
  lemma ElseNestedIntended(m: Machine, s: Spec, env: Env)
    requires IsElseNested(s)
    ensures TryGetReturnState(s.thn) == TryGetReturnState(s.els.thn) ==>
      FinalState(m, If(Not(And(Not(s.cond), Not(s.els.cond))), s.els.thn, s.els.els), env) == FinalState(m, s, env)
    ensures TryGetReturnState(s.thn) == TryGetReturnState(s.els.els) ==>
      FinalState(m, If(And(Not(s.cond), s.els.cond), s.els.thn, s.els.els), env) == FinalState(m, s, env)
  {
    hide FinalState, TryGetReturnState;
    FinalIf(m, s.cond, s.thn, s.els, env);
    FinalIf(m, s.els.cond, s.els.thn, s.els.els, env);
    var x, y := Truth(Ev(m, s.cond, env)), Truth(Ev(m, s.els.cond, env));
    assert Truth(Ev(m, And(Not(s.cond), Not(s.els.cond)), env)) <==> !x && !y;
    FinalIf(m, Not(And(Not(s.cond), Not(s.els.cond))), s.els.thn, s.els.els, env);
    FinalIf(m, And(Not(s.cond), s.els.cond), s.els.thn, s.els.els, env);
    if TryGetReturnState(s.thn) == TryGetReturnState(s.els.thn) {
      SameReturn(m, s.thn, s.els.thn, env);
    }
    if TryGetReturnState(s.thn) == TryGetReturnState(s.els.els) {
      SameReturn(m, s.thn, s.els.els, env);
    }
  }

  // ---------- anywhere in a specification

  /** Whether, somewhere, a shape with the inner `if` in the else branch is rewritten. */
  predicate RewritesElseNested(s: Spec) {
    match s
    case Let(_, _, body) => RewritesElseNested(body)
    case When(_, _, _, body) => RewritesElseNested(body)
    case Rely(_, body) => RewritesElseNested(body)
    case If(c, thn, els) =>
      RewritesElseNested(thn) || RewritesElseNested(els) || IsElseNested(If(c, MergeBranch(thn), MergeBranch(els)))
    case _ => false
  }

  lemma {:induction false} MergeKeepsState(m: Machine, s: Spec, env: Env)
    requires !RewritesElseNested(s)
    ensures FinalState(m, MergeBranch(s), env) == FinalState(m, s, env)
  {
    match s
    case Let(x, e, body) => MergeKeepsState(m, body, env[x := Ev(m, e, env)]);
    case When(names, call, args, body) =>
      var r := m.call(call, EvAll(m, args, env));
      if r.Some? && |r.value| == |names| {
        MergeKeepsState(m, body, Bind(env, names, r.value));
      }
    case Rely(_, body) => MergeKeepsState(m, body, env);
    case If(c, thn, els) =>
      hide FinalState, MergeNode;
      MergeKeepsState(m, thn, env);
      MergeKeepsState(m, els, env);
      FinalIf(m, c, thn, els, env);
      FinalIf(m, c, MergeBranch(thn), MergeBranch(els), env);
      NodeKeepsState(m, If(c, MergeBranch(thn), MergeBranch(els)), env);
    case _ =>
  }

  /** What the nested `if`s at the head may return. */
  function Returns(s: Spec): set<Returned> {
    if s.If? then Returns(s.thn) + Returns(s.els)
    else match TryGetReturnState(s)
      case Some(r) => {r}
      case None => {}
  }

  /** No `if` in an else branch returns what the then branch may return. */
  predicate Separate(s: Spec) {
    match s
    case Let(_, _, body) => Separate(body)
    case When(_, _, _, body) => Separate(body)
    case Rely(_, body) => Separate(body)
    case If(_, thn, els) => Separate(thn) && Separate(els) && (els.If? ==> Returns(thn) !! Returns(els))
    case _ => true
  }

  lemma NodeIsSeparate(s: Spec)
    requires s.If? && Separate(s)
    ensures !IsElseNested(s) && Separate(MergeNode(s)) && Returns(MergeNode(s)) <= Returns(s)
  {
    NotARet(s);
    if s.els.If? {
      assert Returns(s.els.thn) <= Returns(s.els) && Returns(s.els.els) <= Returns(s.els);
    }
  }

  /** Then merging never rewrites the wrong shapes, now or later. */
  lemma {:induction false} SeparateIsKept(s: Spec)
    requires Separate(s)
    ensures !RewritesElseNested(s) && Separate(MergeBranch(s)) && (!s.If? ==> !MergeBranch(s).If?)
    ensures Returns(MergeBranch(s)) <= Returns(s)
  {
    match s
    case Let(_, _, body) => SeparateIsKept(body);
    case When(_, _, _, body) => SeparateIsKept(body);
    case Rely(_, body) => SeparateIsKept(body);
    case If(c, thn, els) =>
      hide TryGetReturnState, IsElseNested, MergeNode;
      SeparateIsKept(thn);
      SeparateIsKept(els);
      NodeIsSeparate(If(c, MergeBranch(thn), MergeBranch(els)));
    case _ =>
  }

  // ---------- the number of `if`s and writes

  function Writes(e: Expr): nat {
    match e
    case Sym(_) => 0
    case Const(_) => 0
    case Prim(_, args) => WritesAll(args)
    case And(a, b) => Writes(a) + Writes(b)
    case Not(a) => Writes(a)
    case RecGet(r, _) => Writes(r)
    case RecSet(r, _, v) => 1 + Writes(r) + Writes(v)
    case MapGet(a, k) => Writes(a) + Writes(k)
    case MapSet(a, k, v) => Writes(a) + Writes(k) + Writes(v)
  }

  function WritesAll(es: seq<Expr>): nat {
    if es == [] then 0 else Writes(es[0]) + WritesAll(es[1..])
  }

  function Size(s: Spec): nat {
    match s
    case Let(_, e, body) => Writes(e) + Size(body)
    case When(_, _, args, body) => WritesAll(args) + Size(body)
    case Rely(prop, body) => Writes(prop) + Size(body)
    case If(c, thn, els) => 1 + Writes(c) + Size(thn) + Size(els)
    case Ret(vals, st) => WritesAll(vals) + Writes(st)
    case Fail => 0
  }

  lemma {:induction false} HideShrinks(i: Interest, e: Expr)
    ensures Hide(i, e) == e || Writes(Hide(i, e)) < Writes(e)
    ensures Hide(i, Hide(i, e)) == Hide(i, e)
  {
    match e
    case Sym(_) =>
    case Const(_) =>
    case Prim(op, args) =>
      HideAllShrinks(i, args);
    case And(a, b) => HideShrinks(i, a); HideShrinks(i, b);
    case Not(a) => HideShrinks(i, a);
    case RecGet(r, _) => HideShrinks(i, r);
    case RecSet(r, _, v) => HideShrinks(i, r); HideShrinks(i, v);
    case MapGet(a, k) => HideShrinks(i, a); HideShrinks(i, k);
    case MapSet(a, k, v) => HideShrinks(i, a); HideShrinks(i, k); HideShrinks(i, v);
  }

  lemma {:induction false} HideAllShrinks(i: Interest, es: seq<Expr>)
    ensures HideAll(i, es) == es || WritesAll(HideAll(i, es)) < WritesAll(es)
    ensures HideAll(i, HideAll(i, es)) == HideAll(i, es)
  {
    if es != [] {
      HideShrinks(i, es[0]);
      HideAllShrinks(i, es[1..]);
      assert HideAll(i, es) == [Hide(i, es[0])] + HideAll(i, es[1..]);
      assert HideAll(i, HideAll(i, es)) == [Hide(i, Hide(i, es[0]))] + HideAll(i, HideAll(i, es[1..]));
      assert es == [es[0]] + es[1..];
      assert HideAll(i, es)[1..] == HideAll(i, es[1..]);
    }
  }

  lemma {:induction false} HideWriteShrinks(i: Interest, s: Spec)
    ensures HideWrite(i, s) == s || Size(HideWrite(i, s)) < Size(s)
    ensures HideWrite(i, HideWrite(i, s)) == HideWrite(i, s)
  {
    match s
    case Let(_, e, body) => HideShrinks(i, e); HideWriteShrinks(i, body);
    case When(_, _, args, body) => HideAllShrinks(i, args); HideWriteShrinks(i, body);
    case Rely(prop, body) => HideShrinks(i, prop); HideWriteShrinks(i, body);
    case If(c, thn, els) => HideShrinks(i, c); HideWriteShrinks(i, thn); HideWriteShrinks(i, els);
    case Ret(vals, st) => HideAllShrinks(i, vals); HideShrinks(i, st);
    case Fail =>
  }

  lemma NodeShrinks(s: Spec)
    ensures MergeNode(s) == s || Size(MergeNode(s)) < Size(s)
  {
    if s.If? {
      var c := s.cond;
      if s.els.If? {
        assert Size(s) == 1 + Writes(c) + Size(s.thn) + (1 + Writes(s.els.cond) + Size(s.els.thn) + Size(s.els.els));
        assert Writes(And(c, Not(s.els.cond))) == Writes(c) + Writes(s.els.cond);
      }
      if s.thn.If? {
        assert Size(s) == 1 + Writes(c) + (1 + Writes(s.thn.cond) + Size(s.thn.thn) + Size(s.thn.els)) + Size(s.els);
        assert Writes(And(c, Not(s.thn.cond))) == Writes(c) + Writes(s.thn.cond);
      }
    }
  }

  lemma {:induction false} MergeShrinks(s: Spec)
    ensures MergeBranch(s) == s || Size(MergeBranch(s)) < Size(s)
  {
    match s
    case Let(_, _, body) => MergeShrinks(body);
    case When(_, _, _, body) => MergeShrinks(body);
    case Rely(_, body) => MergeShrinks(body);
    case If(c, thn, els) =>
      MergeShrinks(thn);
      MergeShrinks(els);
      NodeShrinks(If(c, MergeBranch(thn), MergeBranch(els)));
    case _ =>
  }

  // ---------- what is merged

  /** How many `if`s there are. */
  function Ifs(s: Spec): nat {
    match s
    case Let(_, _, body) => Ifs(body)
    case When(_, _, _, body) => Ifs(body)
    case Rely(_, body) => Ifs(body)
    case If(_, thn, els) => 1 + Ifs(thn) + Ifs(els)
    case _ => 0
  }

  /** A node of one of the five shapes loses an `if`, any other one stays. */
  lemma NodeMerges(s: Spec)
    ensures IsMergeable(s) ==> Ifs(MergeNode(s)) < Ifs(s)
    ensures !IsMergeable(s) ==> MergeNode(s) == s
  {
    if s.If? {
      if s.els.If? {
        NotARet(s.els);
      }
      if s.thn.If? {
        NotARet(s.thn);
      }
    }
  }

  /** The same is returned by two failures and by two results with the same state, unless this state is a constant and
      stands alone. */
  lemma ReturnSameIff(a: Spec, b: Spec)
    ensures ReturnSame(a, b) <==>
      || (a.Fail? && b.Fail?)
      || (a.Ret? && b.Ret? && a.st == b.st && (a.st.Const? ==> a.vals != [] && b.vals != []))
  {
  }

  /** Branches with the same state become one of them: no `if` is left in that place, and the state is returned. */
  lemma SameStateMerged(c: Expr, thn: Spec, els: Spec)
    requires ReturnSame(thn, els)
    ensures var r := MergeBranch(If(c, thn, els));
      && !r.If? && ReturnSame(r, thn) && Ifs(r) == 0
  {
    assert MergeBranch(thn) == thn && MergeBranch(els) == els;
  }

  lemma {:induction false} MergeLosesIfs(s: Spec)
    ensures MergeBranch(s) == s || Ifs(MergeBranch(s)) < Ifs(s)
  {
    match s
    case Let(_, _, body) => MergeLosesIfs(body);
    case When(_, _, _, body) => MergeLosesIfs(body);
    case Rely(_, body) => MergeLosesIfs(body);
    case If(c, thn, els) =>
      MergeLosesIfs(thn);
      MergeLosesIfs(els);
      NodeMerges(If(c, MergeBranch(thn), MergeBranch(els)));
    case _ =>
  }

  /** Merging changes nothing exactly if none of the five shapes is found anywhere. */
  lemma {:induction false} FullyMergedIff(s: Spec)
    ensures MergeBranch(s) == s <==> FullyMerged(s)
  {
    match s
    case Let(_, _, body) => FullyMergedIff(body);
    case When(_, _, _, body) => FullyMergedIff(body);
    case Rely(_, body) => FullyMergedIff(body);
    case If(c, thn, els) =>
      hide IsMergeable, MergeNode;
      FullyMergedIff(thn);
      FullyMergedIff(els);
      MergeLosesIfs(thn);
      MergeLosesIfs(els);
      NodeMerges(If(c, MergeBranch(thn), MergeBranch(els)));
    case _ =>
  }

  /** Merging does not bring back a write that has been left out. */
  lemma {:induction false} MergeKeepsSlice(i: Interest, s: Spec)
    requires HideWrite(i, s) == s
    ensures HideWrite(i, MergeBranch(s)) == MergeBranch(s)
  {
    match s
    case Let(_, _, body) => MergeKeepsSlice(i, body);
    case When(_, _, _, body) => MergeKeepsSlice(i, body);
    case Rely(_, body) => MergeKeepsSlice(i, body);
    case If(c, thn, els) =>
      MergeKeepsSlice(i, thn);
      MergeKeepsSlice(i, els);
      NodeKeepsSlice(i, If(c, MergeBranch(thn), MergeBranch(els)));
    case _ =>
  }

  lemma NodeKeepsSlice(i: Interest, s: Spec)
    requires HideWrite(i, s) == s
    ensures HideWrite(i, MergeNode(s)) == MergeNode(s)
  {
    if s.If? {
      if s.els.If? {
        assert HideWrite(i, s.els) == s.els;
        assert Hide(i, And(s.cond, Not(s.els.cond))) == And(s.cond, Not(s.els.cond));
      }
      if s.thn.If? {
        assert HideWrite(i, s.thn) == s.thn;
        assert Hide(i, And(s.cond, Not(s.thn.cond))) == And(s.cond, Not(s.thn.cond));
      }
    }
  }

  // ---------- the loop

  predicate SameState(a: Option<Value>, b: Option<Value>, w: set<Field>) {
    match a
    case None => b.None?
    case Some(st) => b.Some? && Same(st, b.value, w)
  }

  /** `coi_reduction`: left with nothing to leave out and nothing to merge, anywhere.  `sound` says that no round has
      rewritten a shape with the inner `if` in the else branch, which is so if in the slice no such `if` returns what
      the then branch may return.  Then the state is kept up to the hidden fields, if the slice is closed. */
  method CoiReduction(i: Interest, s0: Spec) returns (s: Spec, ghost sound: bool)
    ensures SpecShows(i, s) && FullyMerged(s) && Size(s) <= Size(s0)
    ensures Separate(HideWrite(i, s0)) ==> sound
    ensures sound && Closed(i, s0) ==> forall m, env :: Respects(m, HiddenFields(i, s0)) ==>
      SameState(FinalState(m, s0, env), FinalState(m, s, env), HiddenFields(i, s0))
  {
    hide MergeBranch, FullyMerged, SpecShows, Separate, RewritesElseNested, HideWrite, Size, FinalState, SameState;
    s := s0;
    sound := true;
    ghost var slice := HideWrite(i, s0);
    HideWriteShrinks(i, s0);
    ghost var current := slice;   // what hiding makes of `s`
    while true
      invariant HideWrite(i, s) == current && HideWrite(i, current) == current
      invariant Size(s) <= Size(s0)
      invariant Separate(slice) ==> sound && Separate(current)
      invariant sound ==> forall m, env :: FinalState(m, current, env) == FinalState(m, slice, env)
      decreases Size(s)
    {
      var hidden := HideWrite(i, s);
      HideWriteShrinks(i, s);
      var merged := MergeBranch(hidden);
      MergeShrinks(hidden);
      MergeKeepsSlice(i, hidden);
      var changed := hidden != s || merged != hidden;
      if Separate(hidden) {
        SeparateIsKept(hidden);
      }
      if RewritesElseNested(hidden) {
        sound := false;
      } else {
        forall m, env ensures FinalState(m, merged, env) == FinalState(m, hidden, env) {
          MergeKeepsState(m, hidden, env);
        }
      }
      s := merged;
      current := merged;
      if !changed {
        break;
      }
    }
    FullyMergedIff(s);
    HideWriteShows(i, s);
    if sound && Closed(i, s0) {
      forall m, env | Respects(m, HiddenFields(i, s0))
        ensures SameState(FinalState(m, s0, env), FinalState(m, s, env), HiddenFields(i, s0))
      {
        SliceKeepsState(m, i, s0, env);
      }
    }
  }

  lemma SliceKeepsState(m: Machine, i: Interest, s: Spec, env: Env)
    requires Closed(i, s) && Respects(m, HiddenFields(i, s))
    ensures SameState(FinalState(m, s, env), FinalState(m, HideWrite(i, s), env), HiddenFields(i, s))
  {
    HiddenFieldsAreNotKept(i, s);
    SliceSame(m, i, HiddenFields(i, s), s, env, env);
  }
}
