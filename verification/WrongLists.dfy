/** Code for which the lists noted by going through the text are not right, and when that shows. */
module WrongLists {
  import opened Prelude
  import opened FlagEncoding
  import opened InputOutput
  import opened LeftBreaks
  import opened ReadingOrder

  // ---------- noting the lists of given code

  lemma OneOf(list: Listing, x: Name)
    requires Lists(list)
    ensures list({x}) == [x] && list({}) == []
  {
    var one := list({x});
    assert x in one;
    forall i | 0 <= i < |one| ensures one[i] == x {
      assert one[i] in one;
    }
    NoDupLength(one, {x});
    NoDupLength(list({}), {});
  }

  lemma AnnotateCons(s: Stmt, rest: seq<Stmt>, list: Listing, before: set<Name>, after: set<Name>, inLoop: bool)
    ensures Annotate([s] + rest, list, before, after, inLoop) ==
      [AnnotateOne(s, list, before, AfterReads(rest, after), inLoop)]
        + Annotate(rest, list, before + WritesOf(s), after, inLoop)
  {
    hide AnnotateOne, AfterReads, WritesOf;
    assert ([s] + rest)[1..] == rest;
  }

  lemma TextCons(s: Stmt, rest: seq<Stmt>)
    ensures Reads([s] + rest) == ReadsOf(s) + (Reads(rest) - WritesOf(s))
      && Writes([s] + rest) == WritesOf(s) + Writes(rest)
    ensures Reads([]) == {} && Writes([]) == {}
  {
    hide ReadsOf, WritesOf;
    assert ([s] + rest)[1..] == rest;
  }

  lemma LeafNoted(s: Stmt, list: Listing, known: set<Name>, after: set<Name>, inLoop: bool)
    requires !s.Branch? && !s.While?
    ensures Annotate([s], list, known, after, inLoop) == [s] && Reads([s]) == ReadsOf(s) && Writes([s]) == WritesOf(s)
  {
    hide WritesOf, ReadsOf;
    AnnotateCons(s, [], list, known, after, inLoop);
    LeavesKept(list);
    TextCons(s, []);
    assert [s] + [] == [s];
  }

  /** An `if` that sets one name, or leaves the loop. */
  lemma IfNoted(c: Name, s: Stmt, list: Listing, known: set<Name>, more: set<Name>, inLoop: bool, x: Name)
    requires Lists(list) && x in known
    requires (s == BreakStmt && x == BREAK && inLoop) || (s.Assign? && s.x == x && s.e.Const? && !inLoop && Plain(x))
    ensures var b := Branch(Var(c), [s], [], [], []);
      && AnnotateOne(b, list, known, more, inLoop) == Branch(Var(c), [s], [], if inLoop || x in more then [x] else [],
         [])
      && WritesOf(b) == {x} && ReadsOf(b) == {c}
  {
    LeafNoted(s, list, known, more, inLoop);
    OneOf(list, x);
    var b := Branch(Var(c), [s], [], [], []);
    assert WritesOf(b) == {x} && ReadsOf(b) == {c};
    assert {x} * more == if x in more then {x} else {};
    assert Outputs(list, {x}, more, inLoop) == if inLoop || x in more then [x] else [];
    assert Without([x], known) == [] && Without([], known) == [];
    LeavesKept(list);
  }

  const RETURN_X := [ReturnStmt(Some(Var("x")))]

  lemma ReturnXNoted(list: Listing, known: set<Name>)
    ensures Annotate(RETURN_X, list, known, {}, false) == RETURN_X && AfterReads(RETURN_X, {}) == {"x"}
      && Reads(RETURN_X) == {"x"}
  {
    LeafNoted(ReturnStmt(Some(Var("x"))), list, known, {}, false);
  }

  lemma ReturnXTerm(m: Model, t: Env, st: RData)
    ensures Eval(m, Translate(RETURN_X, [RETVAL], false), t, st) == Result([Get(t, "x")], st)
    ensures Run(m, RETURN_X, t, st) == Returned(t[RETVAL := Get(t, "x")], st)
  {
    var t' := t[RETURN := 1][RETVAL := Get(t, "x")];
    assert RETURN_X[1..] == [];
    assert Translate(RETURN_X, [RETVAL], false) == LetT(RETURN, Const(1), LetT(RETVAL, Var("x"), TupleT([RETVAL])));
    assert Get(t[RETURN := 1], "x") == Get(t, "x");
    EvalTuple(m, [RETVAL], t', st);
    assert GetAll(t', [RETVAL]) == [Get(t, "x")];
  }

  // ---------- a name set in an `if`, perhaps set again in a second one, and read after both

  function SetIf(c: Name, n: int, output: seq<Name>): Stmt {
    Branch(Var(c), [Assign("x", Const(n))], [], output, [])
  }

  function SetAgain(w: int, output: seq<Name>): seq<Stmt> {
    [SetIf("b", w, output)] + RETURN_X
  }

  function SetOnce(v: int, w: int, output: seq<Name>): seq<Stmt> {
    [SetIf("a", v, [])] + SetAgain(w, output)
  }

  function SetTwice(p: int, v: int, w: int, output: seq<Name>): seq<Stmt> {
    [Assign("x", Const(p))] + SetOnce(v, w, output)
  }

  /** The first `if` is noted to hand on nothing. */
  lemma SetTwiceNoted(list: Listing, p: int, v: int, w: int)
    requires Lists(list)
    ensures Annotate(SetTwice(p, v, w, []), list, {"a", "b"}, {}, false) == SetTwice(p, v, w, ["x"])
  {
    hide Annotate, AnnotateOne, Reads, Writes, ReadsOf, WritesOf, SetIf;
    var k := {"a", "b", "x"};
    ReturnXNoted(list, k);
    SetIfNoted("b", w, list, k, {"x"});
    AnnotateCons(SetIf("b", w, []), RETURN_X, list, k, {}, false);
    TextCons(SetIf("b", w, []), RETURN_X);
    assert {"b"} + ({"x"} - {"x"}) == {"b"} && k + {"x"} == k && {"a", "b"} + {"x"} == k;
    SetIfNoted("a", v, list, k, {"b"});
    AnnotateCons(SetIf("a", v, []), SetAgain(w, []), list, k, {}, false);
    assert AfterReads(SetAgain(w, []), {}) == {"b"};
    AnnotateCons(Assign("x", Const(p)), SetOnce(v, w, []), list, {"a", "b"}, {}, false);
    LeavesKept(list);
    LeafNoted(Assign("x", Const(p)), list, {}, {}, false);
    assert WritesOf(Assign("x", Const(p))) == {"x"} by {
      SetsX(p);
    }
  }

  lemma SetsX(p: int)
    ensures WritesOf(Assign("x", Const(p))) == {"x"} && ReadsOf(Assign("x", Const(p))) == {}
  {
  }

  lemma SetIfNoted(c: Name, n: int, list: Listing, known: set<Name>, more: set<Name>)
    requires Lists(list) && "x" in known
    ensures AnnotateOne(SetIf(c, n, []), list, known, more, false) == SetIf(c, n, if "x" in more then ["x"] else [])
    ensures WritesOf(SetIf(c, n, [])) == {"x"} && ReadsOf(SetIf(c, n, [])) == {c}
  {
    IfNoted(c, Assign("x", Const(n)), list, known, more, false, "x");
  }

  /** In the term the `if` sets the name only if it is handed on. */
  lemma SetIfTerm(m: Model, c: Name, n: int, output: seq<Name>, rest: seq<Stmt>, outs: seq<Name>, t: Env, st: RData)
    returns (t': Env)
    requires output == [] || output == ["x"]
    ensures forall y :: Get(t', y) == if y == "x" && output != [] && Get(t, c) != 0 then n else Get(t, y)
    ensures Eval(m, Translate([SetIf(c, n, output)] + rest, outs, false), t, st) ==
      Eval(m, Translate(rest, outs, false), t', st)
  {
    var s := SetIf(c, n, output);
    var l := [s] + rest;
    assert l[0] == s && l[1..] == rest;
    BranchTerm(m, l, outs, false, t, st);
    assert BindAll(t, [], Zeros(0)) == t;
    var b := if Get(t, c) != 0 then s.thn else s.els;
    assert [Assign("x", Const(n))][1..] == [];
    assert Translate([Assign("x", Const(n))], output, false) == LetT("x", Const(n), TupleT(output));
    EvalTuple(m, output, t, st);
    EvalTuple(m, output, t["x" := n], st);
    var vals := GetAll(if Get(t, c) != 0 then t["x" := n] else t, output);
    assert Eval(m, Translate(b, output, false), t, st) == Result(vals, st);
    t' := BindAll(t, output, vals);
    forall y ensures Get(t', y) == if y == "x" && output != [] && Get(t, c) != 0 then n else Get(t, y) {
      GetBound(t, output, vals, y);
    }
    AfterBranchEval(m, output, outs, false, Translate(rest, outs, false), t', st);
  }

  lemma SetTwiceTerm(m: Model, p: int, v: int, w: int, args: Env, st: RData)
    ensures Eval(m, Translate(SetTwice(p, v, w, ["x"]), [RETVAL], false), args, st) ==
      Result([if Get(args, "b") != 0 then w else p], st)
  {
    var t, l := args["x" := p], SetTwice(p, v, w, ["x"]);
    assert l[0] == Assign("x", Const(p)) && l[1..] == SetOnce(v, w, ["x"]);
    assert Eval(m, Translate(l, [RETVAL], false), args, st) == Eval(m, Translate(l[1..], [RETVAL], false), t, st);
    hide Eval, Translate;
    var t1 := SetIfTerm(m, "a", v, [], SetAgain(w, ["x"]), [RETVAL], t, st);
    var t2 := SetIfTerm(m, "b", w, ["x"], RETURN_X, [RETVAL], t1, st);
    ReturnXTerm(m, t2, st);
  }

  lemma SetIfRun(m: Model, c: Name, n: int, output: seq<Name>, rest: seq<Stmt>, d: Env, st: RData)
    ensures Run(m, [SetIf(c, n, output)] + rest, d, st) == Run(m, rest, if Get(d, c) != 0 then d["x" := n] else d, st)
  {
    var l := [SetIf(c, n, output)] + rest;
    assert l[1..] == rest && [Assign("x", Const(n))][1..] == [];
    BranchRun(m, l, d, st);
    assert Run(m, [Assign("x", Const(n))], d, st) == Fell(d["x" := n], st);
  }

  lemma SetTwiceRun(m: Model, p: int, v: int, w: int, args: Env, st: RData)
    ensures var how := Run(m, SetTwice(p, v, w, ["x"]), args, st);
      how.Returned? && how.st == st
      && Get(how.env, RETVAL) == if Get(args, "b") != 0 then w else if Get(args, "a") != 0 then v else p
  {
    var d, l := args["x" := p], SetTwice(p, v, w, ["x"]);
    assert l[0] == Assign("x", Const(p)) && l[1..] == SetOnce(v, w, ["x"]);
    assert Run(m, l, args, st) == Run(m, l[1..], d, st);
    hide Run;
    SetIfRun(m, "a", v, [], SetAgain(w, ["x"]), d, st);
    var d1 := if Get(d, "a") != 0 then d["x" := v] else d;
    SetIfRun(m, "b", w, ["x"], RETURN_X, d1, st);
    ReturnXTerm(m, if Get(d1, "b") != 0 then d1["x" := w] else d1, st);
  }

  /** Analysed and translated, the code returns what it returns when run if and only if the first `if` is not taken,
      or the second is, or both values are the same. */
  lemma SetTwiceRightIff(m: Model, list: Listing, p: int, v: int, w: int, args: Env, st: RData)
    requires Lists(list)
    ensures var noted := Annotate(SetTwice(p, v, w, []), list, {"a", "b"}, {}, false);
      var how := Run(m, noted, args, st);
      && how.Returned?
      && (Eval(m, Translate(noted, [RETVAL], false), args, st) == Result([Get(how.env, RETVAL)], how.st) <==>
            Get(args, "a") == 0 || Get(args, "b") != 0 || v == p)
  {
    hide Run, Eval, Translate, SetTwice;
    SetTwiceNoted(list, p, v, w);
    SetTwiceTerm(m, p, v, w, args, st);
    SetTwiceRun(m, p, v, w, args, st);
  }

  const VALUE := Needs({}, {}, {}, {RETVAL})

  lemma ReturnXReads(w: int)
    ensures MayRead(RETURN_X, false, false, VALUE) == {"x"} && MayRead(SetAgain(w, []), false, false, VALUE) ==
      {"b", "x"}
    ensures Reads(SetAgain(w, [])) == {"b"} && Reads(RETURN_X) == {"x"}
  {
    assert RETURN_X[1..] == [] && SetAgain(w, [])[1..] == RETURN_X && Falls([], false, false);
    assert MayRead(RETURN_X, false, false, VALUE) == {"x"};
    assert GoesOn(SetAgain(w, [])[0], false, false);
    assert MayRead([], false, false, VALUE.(fall := {"x"})) == {"x"};
    var sets := [Assign("x", Const(w))];
    assert sets[1..] == [] && MayRead(sets, false, false, VALUE.(fall := {"x"})) == {};
    assert Writes(sets) == {"x"} && Reads(sets) == {};
  }

  /** Code with well-formed parts. */
  lemma SetShaped(x: Name, e: Expr, rest: seq<Stmt>, inLoop: bool)
    requires (x == "x" || x == "y") && (e.Const? || (e.Var? && e.x == "y")) && Shaped(rest, inLoop, false)
    ensures Shaped([Assign(x, e)] + rest, inLoop, false)
  {
    assert ([Assign(x, e)] + rest)[1..] == rest && |x| == |"y"| == 1;
    assert Vars(e) <= {"y"};
  }

  lemma LeavesShaped(x: Name, e: Expr)
    requires (x == "x" || x == "y") && (e.Const? || (e.Var? && e.x == "y"))
    ensures Shaped([BreakStmt], true, false) && Shaped([Assign(x, e)] + [BreakStmt], true, false)
  {
    assert [BreakStmt][1..] == [];
    SetShaped(x, e, [BreakStmt], true);
  }

  lemma IfShaped(c: Name, thn: seq<Stmt>, rest: seq<Stmt>, inLoop: bool)
    requires |c| == 1 && Shaped(thn, inLoop, false) && Shaped(rest, inLoop, false)
    ensures Shaped([Branch(Var(c), thn, [], [], [])] + rest, inLoop, false)
  {
    assert ([Branch(Var(c), thn, [], [], [])] + rest)[1..] == rest && Vars(Var(c)) == {c};
    assert Shaped([], inLoop, false);
  }

  lemma LoopShaped(id: LoopId, body: seq<Stmt>, rest: seq<Stmt>, inLoop: bool)
    requires Shaped(body, true, false) && Shaped(rest, inLoop, false)
    ensures Shaped([While(id, body, [], [], [])] + rest, inLoop, false)
  {
    assert ([While(id, body, [], [], [])] + rest)[1..] == rest;
  }

  lemma ReturnXShaped()
    ensures Shaped(RETURN_X, false, false)
  {
    assert RETURN_X[1..] == [] && Vars(Var("x")) == {"x"} && |"x"| == 1 && Shaped([], false, false);
  }

  lemma SetTwiceIsShaped(p: int, v: int, w: int)
    ensures Shaped(SetTwice(p, v, w, []), false, false)
  {
    hide Plain, AllPlain;
    assert [Assign("x", Const(v))] + [] == [Assign("x", Const(v))]
      && [Assign("x", Const(w))] + [] == [Assign("x", Const(w))];
    assert Shaped([], false, false);
    hide Shaped;
    SetShaped("x", Const(w), [], false);
    SetShaped("x", Const(v), [], false);
    ReturnXShaped();
    IfShaped("b", [Assign("x", Const(w))], RETURN_X, false);
    IfShaped("a", [Assign("x", Const(v))], SetAgain(w, []), false);
    SetShaped("x", Const(p), SetOnce(v, w, []), false);
  }

  /** A run reads x after the first `if`, the text does not. */
  lemma SetTwiceIsNotTold(p: int, v: int, w: int)
    ensures Shaped(SetTwice(p, v, w, []), false, false) && !Told(SetTwice(p, v, w, []), {}, false, false, VALUE)
  {
    assert Shaped(SetTwice(p, v, w, []), false, false) by {
      SetTwiceIsShaped(p, v, w);
    }
    var l, once, again := SetTwice(p, v, w, []), SetOnce(v, w, []), SetAgain(w, []);
    assert l[1..] == once && once[1..] == again;
    ReturnXReads(w);
    var sets := [Assign("x", Const(v))];
    assert sets[1..] == [] && Assigned([]) == {};
    assert Assigned(sets) == {"x"} && Falls([], false, false) && GoesOn(once[0], false, false);
    assert "x" in ReadAfter(once, false, false, VALUE) && "x" !in AfterReads(again, {});
    assert "x" in Assigned(sets) + Assigned([]);
    assert !Told(once, {}, false, false, VALUE);
  }

  // ---------- a name set before a loop and in it, and read after it only

  function SetLater(w: int, op: Op): seq<Stmt> {
    [Assign("x", Const(w))] + [Call("y", op, [Var("y")])]
  }

  /** The loop is left as soon as y is set; else x gets its value and y a new one. */
  function LeavesFirst(w: int, op: Op, output: seq<Name>): seq<Stmt> {
    [Branch(Var("y"), [BreakStmt], [], output, [])] + SetLater(w, op)
  }

  function LoopSets(loop: Stmt): seq<Stmt> {
    [loop] + RETURN_X
  }

  function SetBefore(p: int, loop: Stmt): seq<Stmt> {
    [Assign("x", Const(p))] + LoopSets(loop)
  }

  function Bare(w: int, op: Op): Stmt {
    While(0, LeavesFirst(w, op, []), [], [], [])
  }

  /** The name is an argument of the loop, but not one of its inputs. */
  function NotedLoop(w: int, op: Op, args: seq<Name>): Stmt {
    While(0, LeavesFirst(w, op, [BREAK]), args, ["y"], ["x"])
  }

  predicate IsArgs(args: seq<Name>) {
    NoDup(args) && Names(args) == {BREAK, "x", "y"}
  }

  lemma LeavesFirstNoted(list: Listing, w: int, op: Op, args: set<Name>)
    requires Lists(list) && args == {BREAK, "x", "y"}
    ensures Annotate(LeavesFirst(w, op, []), list, args, args, true) == LeavesFirst(w, op, [BREAK])
    ensures Writes(LeavesFirst(w, op, [])) == args && Reads(LeavesFirst(w, op, [])) == {"y"}
  {
    var sets, gets := Assign("x", Const(w)), Call("y", op, [Var("y")]);
    GetsY(w, op);
    var leaves := Branch(Var("y"), [BreakStmt], [], [], []);
    hide Annotate, AnnotateOne, Reads, Writes, ReadsOf, WritesOf;
    IfNoted("y", BreakStmt, list, args, AfterReads(SetLater(w, op), args), true, BREAK);
    LeafNoted(gets, list, args + {BREAK} + {"x"}, args, true);
    AnnotateCons(sets, [gets], list, args + {BREAK}, args, true);
    TextCons(sets, [gets]);
    LeavesKept(list);
    AnnotateCons(leaves, SetLater(w, op), list, args, args, true);
    TextCons(leaves, SetLater(w, op));
    assert {"y"} - {"x"} == {"y"} && {} + {"y"} == {"y"} && {"y"} - {BREAK} == {"y"};
  }

  lemma GetsY(w: int, op: Op)
    ensures WritesOf(Assign("x", Const(w))) == {"x"} && ReadsOf(Assign("x", Const(w))) == {}
    ensures WritesOf(Call("y", op, [Var("y")])) == {"y"} && ReadsOf(Call("y", op, [Var("y")])) == {"y"}
  {
    assert VarsAll([Var("y")]) == {"y"} by {
      assert [Var("y")][1..] == [];
    }
  }

  lemma LoopNotedAs(list: Listing, w: int, op: Op) returns (args: seq<Name>)
    requires Lists(list)
    ensures IsArgs(args) && AnnotateOne(Bare(w, op), list, {"x", "y"}, {"x"}, false) == NotedLoop(w, op, args)
  {
    hide Annotate, AnnotateOne, Reads, Writes, LeavesFirst, LoopArgs, Outputs, NoDup, WritesOf, ReadsOf;
    var body, all := LeavesFirst(w, op, []), {BREAK, "x", "y"};
    LeavesFirstNoted(list, w, op, all);
    args := LoopArgs(list, body, {"x"});
    ArgsAre(list, body, {"x"});
    OneOf(list, "y");
    XHandedOn(list, all);
    ArgSet(all);
    assert {"x", "y"} * {"y"} == {"y"};
    LoopNotedWith(0, body, list, {"x", "y"}, {"x"}, false, args);
  }

  /** What is noted for a loop, from its text. */
  lemma LoopNotedWith(id: LoopId, body: seq<Stmt>, list: Listing, known: set<Name>, more: set<Name>, inLoop: bool,
                      args: seq<Name>)
    requires args == LoopArgs(list, body, if LeavesRound(Writes(body), inLoop) then {} else more)
    ensures AnnotateOne(While(id, body, [], [], []), list, known, more, inLoop) ==
      While(id, Annotate(body, list, Names(args), Names(args), true), args, list(known * Reads(body)),
        Outputs(list, Writes(body), more, inLoop))
  {
    LoopIs(While(id, body, [], [], []), list, known, more, inLoop);
    LoopText(id, body);
    hide Annotate, AnnotateOne, Reads, Writes, WritesOf, ReadsOf, LoopArgs, Outputs;
  }

  lemma LoopText(id: LoopId, body: seq<Stmt>)
    ensures WritesOf(While(id, body, [], [], [])) == Writes(body) && ReadsOf(While(id, body, [], [], [])) == Reads(body)
  {
  }

  lemma ArgSet(all: set<Name>)
    requires all == {BREAK, "x", "y"}
    ensures {"y"} + all * ({"x"} + {BREAK, RETVAL, RETURN}) == all
  {
  }

  lemma XHandedOn(list: Listing, all: set<Name>)
    requires Lists(list) && "x" in all && RETVAL !in all && RETURN !in all
    ensures Outputs(list, all, {"x"}, false) == ["x"]
  {
    OneOf(list, "x");
    assert all * {"x"} == {"x"};
  }

  lemma SetBeforeNoted(list: Listing, p: int, w: int, op: Op) returns (args: seq<Name>)
    requires Lists(list)
    ensures IsArgs(args)
    ensures Annotate(SetBefore(p, Bare(w, op)), list, {"y"}, {}, false) == SetBefore(p, NotedLoop(w, op, args))
  {
    args := LoopNotedAs(list, w, op);
    SetsX(p);
    hide Annotate, AnnotateOne, Reads, Writes, ReadsOf, WritesOf, Bare, NotedLoop;
    ReturnXNoted(list, {"x", "y"} + WritesOf(Bare(w, op)));
    AnnotateCons(Bare(w, op), RETURN_X, list, {"x", "y"}, {}, false);
    AnnotateCons(Assign("x", Const(p)), LoopSets(Bare(w, op)), list, {"y"}, {}, false);
    assert {"y"} + {"x"} == {"x", "y"};
    LeavesKept(list);
  }

  // What may be read of x and y in the loop and after it.

  const ROUND := Needs({"x", "y"}, {"x"}, {"x", "y"}, {})

  lemma GetsCovered(op: Op)
    ensures var l := [Call("y", op, [Var("y")])];
      && Covered(l, true, false, ROUND) && Live(l, true, false, ROUND) == {"x", "y"}
      && Assigned(l) == {"y"} && Exits(l) == {} && !HasBreak(l) && NoInnerLoop(l, true) && Falls(l, true, false)
  {
    var l := [Call("y", op, [Var("y")])];
    assert VarsAll([Var("y")]) == {"y"} by {
      assert [Var("y")][1..] == [];
    }
    assert l[1..] == [] && GoesOn(l[0], true, false);
    assert Live(l[1..], true, false, ROUND) == {"x", "y"} && Covered(l[1..], true, false, ROUND);
    assert FlagFree({"y"}) && Assigned(l) == {"y"};
  }

  lemma LaterCovered(w: int, op: Op)
    ensures var l := SetLater(w, op);
      && Covered(l, true, false, ROUND) && Live(l, true, false, ROUND) == {"y"}
      && Assigned(l) == {"x", "y"} && Exits(l) == {} && !HasBreak(l) && NoInnerLoop(l, true) && Falls(l, true, false)
  {
    var l := SetLater(w, op);
    GetsCovered(op);
    assert l[1..] == [Call("y", op, [Var("y")])] && l[0] == Assign("x", Const(w));
  }

  lemma BreakCovered(needs: Needs)
    ensures var l := [BreakStmt];
      && Covered(l, true, false, needs) && Live(l, true, false, needs) == needs.brk
      && Assigned(l) == {} && Exits(l) == {BREAK} && HasBreak(l) && NoInnerLoop(l, true)
  {
    assert [BreakStmt][1..] == [];
  }

  lemma LeavesFirstIsOk(w: int, op: Op, args: seq<Name>)
    requires IsArgs(args)
    ensures LoopOk(LeavesFirst(w, op, [BREAK]), args, ROUND) && NoInnerLoop(LeavesFirst(w, op, [BREAK]), true)
    ensures !GoesRoundForever(LeavesFirst(w, op, [BREAK]))
  {
    var body, rest := LeavesFirst(w, op, [BREAK]), SetLater(w, op);
    InNames(args, BREAK);
    InNames(args, CONTINUE);
    LaterCovered(w, op);
    BreakCovered(ROUND.(fall := {"y"}));
    assert body[1..] == rest && body[0] == Branch(Var("y"), [BreakStmt], [], [BREAK], []);
    assert Falls([], true, false) && GoesOn(body[0], true, false);
    assert LiveAfter(body, true, false, ROUND) == {"y"};
    assert Names([BREAK]) == {BREAK} && NoDup([BREAK]);
    assert Exits(body) == {BREAK} && Assigned(body) == {"x", "y"} && HasBreak(body);
    assert Live(body, true, false, ROUND) == {"x", "y"};
    assert Live([], true, false, ROUND.(fall := {"y"})) == {"y"};
  }

  /** A loop starts with the values of its inputs, and with the default for what else it carries along. */
  lemma InitFrom(m: Model, loopArgs: seq<Name>, input: seq<Name>, needs: Needs, d: Env, t: Env, st: RData)
    requires FlagFree(Names(input) + needs.fall) && needs.fall <= Names(loopArgs) && CONTINUE !in loopArgs
    requires forall x :: x in needs.fall ==> Get(d, x) == if x in input then Get(t, x) else 0
    ensures FixState(Result(EvAll(m, LoopInit(loopArgs, input), t), st), loopArgs, Running(d, st), needs)
  {
    hide BindAll;
    var args := EvAll(m, LoopInit(loopArgs, input), t);
    var t0 := BindAll(map[], loopArgs, args);
    forall x ensures Get(t0, x) == if x in loopArgs && x in input then Get(t, x) else 0 {
      GetBound(map[], loopArgs, args, x);
      if x in loopArgs {
        var i := LastIndex(loopArgs, x);
        assert args[i] == Ev(m, LoopInit(loopArgs, input)[i], t);
      }
      assert x in input ==> x in Names(input);
    }
    assert forall x :: x in needs.fall ==> x in loopArgs;
    assert FlagsClear(t0, true) by {
      assert forall x :: x in input ==> x in Names(input);
      assert Get(t0, RETURN) == 0 && Get(t0, BREAK) == 0 && Get(t0, CONTINUE) == 0;
    }
  }

  lemma LeavesFirstRun(m: Model, w: int, op: Op, d: Env, st: RData)
    ensures Round(m, LeavesFirst(w, op, [BREAK]), d, st) ==
      if Get(d, "y") != 0 then Ended(Broke(d, st))
      else
        var r := m.call(op, [Get(d, "y")], st);
        if r.None? then Ended(Undef) else Running(d["x" := w]["y" := r.value.0], r.value.1)
  {
    var body, rest := LeavesFirst(w, op, [BREAK]), SetLater(w, op);
    assert body[1..] == rest && rest[1..] == [Call("y", op, [Var("y")])] && [BreakStmt][1..] == [];
    assert EvAll(m, [Var("y")], d["x" := w]) == [Get(d, "y")];
    BranchRun(m, body, d, st);
    if Get(d, "y") != 0 {
      assert Run(m, [BreakStmt], d, st) == Broke(d, st);
    } else {
      assert Run(m, [], d, st) == Fell(d, st);
      GetsRun(m, op, d["x" := w], st);
      assert Run(m, rest, d, st) == Run(m, rest[1..], d["x" := w], st);
    }
  }

  lemma GetsRun(m: Model, op: Op, d: Env, st: RData)
    ensures Run(m, [Call("y", op, [Var("y")])], d, st) ==
      var r := m.call(op, EvAll(m, [Var("y")], d), st);
      if r.None? then Undef else Fell(d["y" := r.value.0], r.value.1)
  {
    assert [Call("y", op, [Var("y")])][1..] == [];
  }

  /** Once a round has been gone through, it does not matter what x was before. */
  lemma SetIsForgotten(m: Model, w: int, op: Op, n: nat, d: Env, st: RData)
    requires n > 0
    ensures var body, d0 := LeavesFirst(w, op, [BREAK]), d["x" := 0];
      if Get(d, "y") != 0 then
        Rounds(m, body, n, d, st) == Ended(Broke(d, st)) && Rounds(m, body, n, d0, st) == Ended(Broke(d0, st))
      else Rounds(m, body, n, d, st) == Rounds(m, body, n, d0, st)
  {
    var body, d0 := LeavesFirst(w, op, [BREAK]), d["x" := 0];
    hide Round, LeavesFirst;
    RoundsFromFirst(m, body, n, d, st);
    RoundsFromFirst(m, body, n, d0, st);
    LeavesFirstRun(m, w, op, d, st);
    LeavesFirstRun(m, w, op, d0, st);
    assert d0["x" := w] == d["x" := w];
  }

  /** The recursive definition is where the loop is that starts from the default for x. */
  lemma FixFromDefault(m: Model, w: int, op: Op, loopArgs: seq<Name>, d: Env, st: RData, n: nat)
    requires IsArgs(loopArgs)
    ensures var body, args := LeavesFirst(w, op, [BREAK]), EvAll(m, LoopInit(loopArgs, ["y"]), d);
      var p := Rounds(m, body, n, d["x" := 0], st);
      && FixState(Fix(m, loopArgs, Step(loopArgs, Translate(body, loopArgs, true)), n, args, st), loopArgs, p, ROUND)
      && (p.Ended? ==> p.how.Undef? || p.how.OutOfFuel? || p.how.Broke?)
  {
    var body, d0 := LeavesFirst(w, op, [BREAK]), d["x" := 0];
    LeavesFirstIsOk(w, op, loopArgs);
    InNames(loopArgs, CONTINUE);
    InitFrom(m, loopArgs, ["y"], ROUND, d0, d, st);
    LeavesFirstExits(w, op);
    hide LoopOk, LeavesFirst, Translate, Fix, Step, LoopInit, Rounds, TermRounds, Run, MeetsWithin, NoInnerLoop,
      FixState, Exits;
    NeverMeetsWithin(m, body, n, d0, st);
    NotMetWithin(m, body, n, d0, st);
    FixCorrect(m, body, loopArgs, ROUND, n, EvAll(m, LoopInit(loopArgs, ["y"]), d), d0, st);
    TermRoundsExit(m, body, n, d0, st);
  }

  /** After the loop x has the value it was left with. */
  lemma LeftTerm(m: Model, loopArgs: seq<Name>, needs: Needs, d: Env, r: Result, how: Ending)
    requires "x" in loopArgs && "x" in needs.brk && how.Broke? && FixState(r, loopArgs, Ended(how), needs)
    ensures r.Result? && |r.vals| == |loopArgs|
    ensures Eval(m, AfterLoop(["x"], [RETVAL], Translate(RETURN_X, [RETVAL], false)), BindAll(d, loopArgs, r.vals),
      r.st) ==
      Result([Get(how.env, "x")], how.st)
  {
    var t1, t2 := BindAll(map[], loopArgs, r.vals), BindAll(d, loopArgs, r.vals);
    hide Eval, Translate, BindAll, AfterLoop;
    assert RightAt("x", Get(t1, "x"), how, true, needs);
    GetBound(map[], loopArgs, r.vals, "x");
    GetBound(d, loopArgs, r.vals, "x");
    AfterLoopEval(m, ["x"], [RETVAL], Translate(RETURN_X, [RETVAL], false), t2, r.st);
    ReturnXTerm(m, t2, r.st);
  }

  lemma XIsArg(args: seq<Name>)
    requires IsArgs(args)
    ensures "x" in args
  {
    InNames(args, "x");
  }

  lemma UndefFix(r: Result, loopArgs: seq<Name>, needs: Needs)
    requires FixState(r, loopArgs, Ended(Undef), needs)
    ensures r == NoResult
  {
  }

  /** What the term gives: what x is where the loop ends that starts from the default for x. */
  lemma SetBeforeTerm(m: Model, w: int, op: Op, loopArgs: seq<Name>, d: Env, st: RData)
    requires IsArgs(loopArgs)
    ensures var r := Eval(m, Translate(LoopSets(NotedLoop(w, op, loopArgs)), [RETVAL], false), d, st);
      var n := m.rank(0, GetAll(d, ["y"]));
      if n < 0 then r == NoResult
      else match Rounds(m, LeavesFirst(w, op, [BREAK]), n, d["x" := 0], st)
        case Ended(Undef) => r == NoResult
        case Ended(Broke(e, st')) => r == Result([Get(e, "x")], st')
        case Ended(how) => how.OutOfFuel?
        case _ => true
  {
    var body, l := LeavesFirst(w, op, [BREAK]), LoopSets(NotedLoop(w, op, loopArgs));
    assert l[0] == NotedLoop(w, op, loopArgs) && l[1..] == RETURN_X;
    LeavesFirstIsOk(w, op, loopArgs);
    hide LoopOk, LeavesFirst, Eval, Translate, Fix, Step, LoopInit, Rounds, BindAll, FixState, AfterLoop, NoInnerLoop;
    hide GoesRoundForever, EvAll, IsArgs;
    WhileTerm(m, l, [RETVAL], false, d, st);
    var n := m.rank(0, GetAll(d, ["y"]));
    if n >= 0 {
      FixFromDefault(m, w, op, loopArgs, d, st, n);
      var p := Rounds(m, body, n, d["x" := 0], st);
      var args := EvAll(m, LoopInit(loopArgs, ["y"]), d);
      var r := Fix(m, loopArgs, Step(loopArgs, Translate(body, loopArgs, true)), n, args, st);
      if p.Ended? && p.how.Undef? {
        UndefFix(r, loopArgs, ROUND);
      } else if p.Ended? && p.how.Broke? {
        assert "x" in loopArgs by {
          XIsArg(loopArgs);
        }
        LeftTerm(m, loopArgs, ROUND, d, r, p.how);
      }
    }
  }

  lemma SetBeforeRun(m: Model, w: int, op: Op, loopArgs: seq<Name>, d: Env, st: RData)
    ensures var how := Run(m, LoopSets(NotedLoop(w, op, loopArgs)), d, st);
      var n := m.rank(0, GetAll(d, ["y"]));
      if n < 0 then how == Undef
      else match Rounds(m, LeavesFirst(w, op, [BREAK]), n, d, st)
        case Running(_, _) => how == OutOfFuel
        case Ended(Broke(e, st')) => how == Returned(e[RETVAL := Get(e, "x")], st')
        case Ended(how') => !how'.Fell? ==> how == how'
  {
    var l := LoopSets(NotedLoop(w, op, loopArgs));
    assert l[0] == NotedLoop(w, op, loopArgs) && l[1..] == RETURN_X;
    hide Run, Rounds, LeavesFirst;
    WhileRun(m, l, d, st);
    var n := m.rank(0, GetAll(d, ["y"]));
    if n >= 0 {
      var q := Rounds(m, LeavesFirst(w, op, [BREAK]), n, d, st);
      if q.Ended? && q.how.Broke? {
        ReturnXTerm(m, q.how.env, q.how.st);
      }
    }
  }

  lemma LeavesFirstExits(w: int, op: Op)
    ensures Exits(LeavesFirst(w, op, [BREAK])) == {BREAK}
  {
    LaterCovered(w, op);
    BreakCovered(ROUND);
    assert LeavesFirst(w, op, [BREAK])[1..] == SetLater(w, op);
  }

  lemma SetBeforeFirst(m: Model, p: int, loop: Stmt, args: Env, st: RData)
    ensures Run(m, SetBefore(p, loop), args, st) == Run(m, LoopSets(loop), args["x" := p], st)
    ensures Eval(m, Translate(SetBefore(p, loop), [RETVAL], false), args, st) ==
      Eval(m, Translate(LoopSets(loop), [RETVAL], false), args["x" := p], st)
  {
    assert SetBefore(p, loop)[1..] == LoopSets(loop);
    hide LoopSets;
  }

  /** If the run ends, then analysed and translated the code returns the same if and only if the loop sets the name
      before it is left, or the name has the default value before the loop. */
  lemma SetBeforeRightIff(m: Model, list: Listing, p: int, w: int, op: Op, args: Env, st: RData)
    requires Lists(list)
    ensures var noted := Annotate(SetBefore(p, Bare(w, op)), list, {"y"}, {}, false);
      var how, r := Run(m, noted, args, st), Eval(m, Translate(noted, [RETVAL], false), args, st);
      && (how.Undef? || how.OutOfFuel? || how.Returned?) && (how.Undef? ==> r == NoResult)
      && (how.Returned? ==> (r == Result([Get(how.env, RETVAL)], how.st) <==> Get(args, "y") == 0 || p == 0))
  {
    var loopArgs := SetBeforeNoted(list, p, w, op);
    var loop, d := NotedLoop(w, op, loopArgs), args["x" := p];
    SetBeforeFirst(m, p, loop, args, st);
    hide Annotate, Eval, Translate, Run, Rounds, LeavesFirst, SetBefore, LoopSets, NotedLoop, IsArgs;
    SetBeforeRun(m, w, op, loopArgs, d, st);
    SetBeforeTerm(m, w, op, loopArgs, d, st);
    var n := m.rank(0, GetAll(d, ["y"]));
    if n == 0 {
      NoRounds(m, LeavesFirst(w, op, [BREAK]), d, st);
    } else if n > 0 {
      SetIsForgotten(m, w, op, n, d, st);
    }
  }

  lemma NoRounds(m: Model, body: seq<Stmt>, d: Env, st: RData)
    ensures Rounds(m, body, 0, d, st) == Running(d, st)
  {
  }

  // ---------- a loop that is never left

  const RETURN_ONE := [ReturnStmt(Some(Const(1)))]
  const STAYS := [Branch(Const(0), [BreakStmt], [], [], [])]
  const NEVER_LEFT := [While(0, STAYS, [], [], [])] + RETURN_ONE

  const NOTED_STAYS := [Branch(Const(0), [BreakStmt], [], [BREAK], [])]
  const NOTED_NEVER := [While(0, NOTED_STAYS, [BREAK], [], [])] + RETURN_ONE

  lemma StaysNoted(list: Listing)
    requires Lists(list)
    ensures Annotate(STAYS, list, {BREAK}, {BREAK}, true) == NOTED_STAYS && Writes(STAYS) == {BREAK}
      && Reads(STAYS) == {}
  {
    var s := Branch(Const(0), [BreakStmt], [], [], []);
    OneOf(list, BREAK);
    LeafNoted(BreakStmt, list, {BREAK}, {BREAK}, true);
    assert WritesOf(s) == {BREAK} && ReadsOf(s) == {} && AfterReads([], {BREAK}) == {BREAK};
    assert Outputs(list, {BREAK}, {BREAK}, true) == [BREAK] && Without([BREAK], {BREAK}) == [];
    LeavesKept(list);
    assert AnnotateOne(s, list, {BREAK}, {BREAK}, true) == NOTED_STAYS[0];
    assert [s] + [] == STAYS;
    hide Annotate, AnnotateOne, ReadsOf, WritesOf;
    AnnotateCons(s, [], list, {BREAK}, {BREAK}, true);
    TextCons(s, []);
  }

  lemma NeverLeftNoted(list: Listing)
    requires Lists(list)
    ensures Annotate(NEVER_LEFT, list, {}, {}, false) == NOTED_NEVER
  {
    var loop := While(0, STAYS, [], [], []);
    OneOf(list, BREAK);
    StaysNoted(list);
    LeafNoted(ReturnStmt(Some(Const(1))), list, {BREAK}, {}, false);
    assert AfterReads(RETURN_ONE, {}) == {};
    LoopText(0, STAYS);
    ArgsOfStays(list);
    var none: set<Name> := {};
    hide Annotate, AnnotateOne, Reads, Writes, WritesOf, ReadsOf, LoopArgs, Outputs;
    LoopNotedWith(0, STAYS, list, none, none, false, [BREAK]);
    assert Names([BREAK]) == {BREAK} && none + {BREAK} == {BREAK} && none * none == none;
    AnnotateCons(loop, RETURN_ONE, list, {}, {}, false);
  }

  lemma ArgsOfStays(list: Listing)
    requires Lists(list)
    ensures LoopArgs(list, STAYS, {}) == [BREAK] && Outputs(list, {BREAK}, {}, false) == []
  {
    OneOf(list, BREAK);
    StaysNoted(list);
    assert {BREAK} * {} == {};
  }

  lemma {:induction false} NeverLeftRun(m: Model, n: nat, d: Env, st: RData)
    ensures Rounds(m, NOTED_STAYS, n, d, st) == Running(d, st)
  {
    if n > 0 {
      NeverLeftRun(m, n - 1, d, st);
      BranchRun(m, NOTED_STAYS, d, st);
      assert NOTED_STAYS[1..] == [];
    }
  }

  lemma StaysTerm(m: Model, t: Env, st: RData)
    requires Get(t, BREAK) == 0
    ensures Eval(m, Translate(NOTED_STAYS, [BREAK], true), t, st) == Result([0], st)
  {
    hide Eval, Translate;
    BranchTerm(m, NOTED_STAYS, [BREAK], true, t, st);
    assert BindAll(t, [], Zeros(0)) == t && NOTED_STAYS[1..] == [];
    NothingTerm(m, [BREAK], true, t, st);
    assert GetAll(t, [BREAK]) == [0];
    var t2 := BindAll(t, [BREAK], [0]);
    GetBound(t, [BREAK], [0], BREAK);
    AfterBranchEval(m, [BREAK], [BREAK], true, Translate([], [BREAK], true), t2, st);
    NothingTerm(m, [BREAK], true, t2, st);
    assert GetAll(t2, [BREAK]) == [0];
  }

  lemma NothingTerm(m: Model, outs: seq<Name>, inLoop: bool, t: Env, st: RData)
    ensures Eval(m, Translate([], outs, inLoop), t, st) == Result(GetAll(t, outs), st)
  {
  }

  lemma {:induction false} NeverLeftFix(m: Model, n: nat, st: RData)
    ensures Fix(m, [BREAK], Step([BREAK], Translate(NOTED_STAYS, [BREAK], true)), n, [0], st) == Result([0], st)
  {
    var code := Translate(NOTED_STAYS, [BREAK], true);
    hide Eval, Translate, Step, Fix;
    if n == 0 {
      FixStart(m, [BREAK], Step([BREAK], code), [0], st);
    } else {
      NeverLeftFix(m, n - 1, st);
      FixNext(m, [BREAK], Step([BREAK], code), n, [0], st);
      var t := BindAll(map[], [BREAK], [0]);
      GetBound(map[], [BREAK], [0], BREAK);
      StepEval(m, [BREAK], code, t, st);
      StaysTerm(m, t, st);
    }
  }

  lemma ReturnOneTerm(m: Model, t: Env, st: RData)
    ensures Eval(m, Translate(RETURN_ONE, [RETVAL], false), t, st) == Result([1], st)
  {
    assert RETURN_ONE[1..] == [];
    assert Translate(RETURN_ONE, [RETVAL], false) == LetT(RETURN, Const(1), LetT(RETVAL, Const(1), TupleT([RETVAL])));
    EvalTuple(m, [RETVAL], t[RETURN := 1][RETVAL := 1], st);
    assert GetAll(t[RETURN := 1][RETVAL := 1], [RETVAL]) == [1];
  }

  /** Whatever the rank: the fuel runs out before the loop has been left, and still the term goes on and returns. */
  lemma NeverLeftGoesOn(m: Model, list: Listing, args: Env, st: RData)
    requires Lists(list) && m.rank(0, []) >= 0
    ensures var noted := Annotate(NEVER_LEFT, list, {}, {}, false);
      && Run(m, noted, args, st) == OutOfFuel
      && Eval(m, Translate(noted, [RETVAL], false), args, st) == Result([1], st)
  {
    NeverLeftNoted(list);
    var n, l := m.rank(0, []), NOTED_NEVER;
    assert l[0] == While(0, NOTED_STAYS, [BREAK], [], []) && l[1..] == RETURN_ONE && GetAll(args, []) == [];
    assert !GoesRoundForever(NOTED_STAYS);
    assert EvAll(m, LoopInit([BREAK], []), args) == [0];
    hide Annotate, Eval, Translate, Run, Rounds, Fix, Step, LoopInit, AfterLoop;
    WhileRun(m, l, args, st);
    NeverLeftRun(m, n, args, st);
    WhileTerm(m, l, [RETVAL], false, args, st);
    NeverLeftFix(m, n, st);
    var t := BindAll(args, [BREAK], [0]);
    AfterLoopEval(m, [], [RETVAL], Translate(RETURN_ONE, [RETVAL], false), t, st);
    ReturnOneTerm(m, t, st);
  }

  // ---------- a loop within a loop

  /** The counterexample of the flags, before it has been analysed. */
  const BARE_INNER := While(1, [BreakStmt], [], [], [])
  const BARE_BRANCH := Branch(Var("x"), [Assign("x", Const(2)), BreakStmt], [Assign("x", Const(1))], [], [])
  const BARE_OUTER := While(0, [BARE_INNER, BARE_BRANCH], [], [], [])

  lemma BreakNoted(list: Listing)
    requires Lists(list)
    ensures Annotate([BreakStmt], list, {BREAK}, {BREAK}, true) == [BreakStmt]
    ensures Writes([BreakStmt]) == {BREAK} && Reads([BreakStmt]) == {}
    ensures LoopArgs(list, [BreakStmt], {}) == [BREAK] && forall more :: Outputs(list, {BREAK}, more, true) == [BREAK]
  {
    OneOf(list, BREAK);
    LeafNoted(BreakStmt, list, {BREAK}, {BREAK}, true);
    assert WritesOf(BreakStmt) == {BREAK} && ReadsOf(BreakStmt) == {};
    assert {BREAK} * {} == {};
  }

  lemma InnerNoted(list: Listing, known: set<Name>, more: set<Name>)
    requires Lists(list)
    ensures AnnotateOne(BARE_INNER, list, known, more, true) == INNER
    ensures WritesOf(BARE_INNER) == {BREAK} && ReadsOf(BARE_INNER) == {}
  {
    BreakNoted(list);
    OneOf(list, BREAK);
    LoopText(1, [BreakStmt]);
    hide Annotate, AnnotateOne, Reads, Writes, WritesOf, ReadsOf, LoopArgs, Outputs;
    LoopNotedWith(1, [BreakStmt], list, known, more, true, [BREAK]);
    assert Names([BREAK]) == {BREAK} && known * {} == {};
  }

  lemma BranchesNoted(list: Listing, known: set<Name>, more: set<Name>)
    ensures Annotate(BARE_BRANCH.thn, list, known, more, true) == BARE_BRANCH.thn
      && Writes(BARE_BRANCH.thn) == {"x", BREAK}
    ensures Annotate(BARE_BRANCH.els, list, known, more, true) == BARE_BRANCH.els && Writes(BARE_BRANCH.els) == {"x"}
    ensures Reads(BARE_BRANCH.thn) == {} && Reads(BARE_BRANCH.els) == {}
  {
    var sets := Assign("x", Const(2));
    SetsX(1);
    SetsX(2);
    assert WritesOf(BreakStmt) == {BREAK} && ReadsOf(BreakStmt) == {};
    LeavesKept(list);
    hide Annotate, AnnotateOne, Reads, Writes, ReadsOf, WritesOf;
    LeafNoted(Assign("x", Const(1)), list, known, more, true);
    LeafNoted(BreakStmt, list, known + {"x"}, more, true);
    AnnotateCons(sets, [BreakStmt], list, known, more, true);
    TextCons(sets, [BreakStmt]);
    assert [sets] + [BreakStmt] == BARE_BRANCH.thn;
  }

  lemma OuterBranchNoted(list: Listing, known: set<Name>, more: set<Name>)
    requires Lists(list) && list({BREAK, "x"}) == [BREAK, "x"] && {BREAK, "x"} <= known
    ensures AnnotateOne(BARE_BRANCH, list, known, more, true) == OUTER_BODY[1]
    ensures WritesOf(BARE_BRANCH) == {BREAK, "x"} && ReadsOf(BARE_BRANCH) == {"x"}
  {
    BranchesNoted(list, known, more);
    assert WritesOf(BARE_BRANCH) == {"x", BREAK} + {"x"} == {BREAK, "x"};
    BranchIs(BARE_BRANCH, list, known, more, true);
    hide Annotate, AnnotateOne, WritesOf, Writes, Reads;
    assert Outputs(list, {BREAK, "x"}, more, true) == [BREAK, "x"];
    assert Without(["x"], known) == [] && Without([BREAK, "x"], known) == [] by {
      assert [BREAK, "x"][1..] == ["x"];
    }
  }

  lemma OuterBodyNoted(list: Listing)
    requires Lists(list) && list({BREAK, "x"}) == [BREAK, "x"]
    ensures var args, body := {BREAK, "x"}, BARE_OUTER.body;
      Annotate(body, list, args, args, true) == OUTER_BODY && Writes(body) == args && Reads(body) == {"x"}
  {
    var args := {BREAK, "x"};
    hide Annotate, AnnotateOne, Reads, Writes, ReadsOf, WritesOf;
    InnerNoted(list, args, AfterReads([BARE_BRANCH], args));
    OuterBranchNoted(list, args + {BREAK}, AfterReads([], args));
    AnnotateCons(BARE_INNER, [BARE_BRANCH], list, args, args, true);
    TextCons(BARE_INNER, [BARE_BRANCH]);
    AnnotateCons(BARE_BRANCH, [], list, args + {BREAK}, args, true);
    TextCons(BARE_BRANCH, []);
    LeavesKept(list);
    assert [BARE_BRANCH] + [] == [BARE_BRANCH] && [BARE_INNER] + [BARE_BRANCH] == BARE_OUTER.body;
    assert {"x"} - {BREAK} == {"x"};
  }

  lemma OuterLists(list: Listing)
    requires Lists(list) && list({BREAK, "x"}) == [BREAK, "x"]
    ensures LoopArgs(list, BARE_OUTER.body, {"x"}) == [BREAK, "x"] && Outputs(list, {BREAK, "x"}, {"x"}, false) == ["x"]
  {
    hide Reads, Writes, Annotate, AnnotateOne;
    OneOf(list, "x");
    OuterBodyNoted(list);
    assert {"x"} + {BREAK, "x"} * {"x"} == {"x"} && {BREAK, "x"} * {"x"} == {"x"};
  }

  /** The lists of the counterexample are those the analysis notes. */
  lemma NestedBreakNoted(list: Listing)
    requires Lists(list) && list({BREAK, "x"}) == [BREAK, "x"]
    ensures Annotate([BARE_OUTER], list, {"x"}, {"x"}, false) == [OUTER]
  {
    hide Annotate, AnnotateOne, Reads, Writes, LoopArgs, Outputs, Without;
    OneOf(list, "x");
    OuterBodyNoted(list);
    OuterLists(list);
    LeavesKept(list);
    assert AfterReads([], {"x"}) == {"x"} by {
      TextCons(BreakStmt, []);
    }
    assert Names([BREAK, "x"]) == {BREAK, "x"} && {"x"} * {"x"} == {"x"};
    LoopNotedWith(0, BARE_OUTER.body, list, {"x"}, {"x"}, false, [BREAK, "x"]);
    AnnotateCons(BARE_OUTER, [], list, {"x"}, {"x"}, false);
    assert [BARE_OUTER] + [] == [BARE_OUTER];
  }

  /** Run, the analysed code ends with x = 2; its translation ends with x = 1. */
  lemma NestedBreakAnalysed(m: Model, list: Listing, st: RData)
    requires Lists(list) && list({BREAK, "x"}) == [BREAK, "x"] && m.rank(1, []) == 1 && m.rank(0, [0]) == 2
    ensures var noted := Annotate([BARE_OUTER], list, {"x"}, {"x"}, false);
      && Run(m, noted, map["x" := 0], st) == Fell(map["x" := 2], st)
      && Eval(m, Translate(noted, ["x"], false), map["x" := 0], st) == Result([1], st)
  {
    hide Annotate, Run, Eval, Translate;
    NestedBreakNoted(list);
    NestedBreakGoesWrong(m, st);
  }

  // ---------- a break of an inner loop that passes code over

  /** After an inner loop that breaks at once the loop is left if the name c is set; else x gets a value first. */
  function PassedOver(c: Name, v: int, inner: Stmt, output: seq<Name>): seq<Stmt> {
    [inner] + IfLeaves(c, v, output)
  }

  function IfLeaves(c: Name, v: int, output: seq<Name>): seq<Stmt> {
    [Branch(Var(c), [BreakStmt], [], output, [])] + SetLeave(v)
  }

  function SetLeave(v: int): seq<Stmt> {
    [Assign("x", Const(v))] + [BreakStmt]
  }

  function BarePassed(c: Name, v: int): Stmt {
    While(0, PassedOver(c, v, BARE_INNER, []), [], [], [])
  }

  function NotedPassed(c: Name, v: int, args: seq<Name>): Stmt {
    While(0, PassedOver(c, v, INNER, [BREAK]), args, [c], ["x"])
  }

  predicate PassedArgs(c: Name, args: seq<Name>) {
    NoDup(args) && Names(args) == {BREAK, c, "x"} && (c == "a" || c == "x")
  }

  lemma SetLeaveNoted(list: Listing, v: int, known: set<Name>, after: set<Name>)
    ensures Annotate(SetLeave(v), list, known, after, true) == SetLeave(v)
  {
    var sets := Assign("x", Const(v));
    SetsX(v);
    assert WritesOf(BreakStmt) == {BREAK} && ReadsOf(BreakStmt) == {};
    LeavesKept(list);
    hide Annotate, AnnotateOne, Reads, Writes, ReadsOf, WritesOf;
    LeafNoted(BreakStmt, list, known + WritesOf(sets), after, true);
    AnnotateCons(sets, [BreakStmt], list, known, after, true);
  }

  lemma PassedOverNoted(list: Listing, c: Name, v: int, args: set<Name>)
    requires Lists(list) && args == {BREAK, c, "x"} && (c == "a" || c == "x")
    ensures var body := PassedOver(c, v, BARE_INNER, []);
      && Annotate(body, list, args, args, true) == PassedOver(c, v, INNER, [BREAK])
      && Writes(body) == {BREAK, "x"} && Reads(body) == {c}
  {
    var leaves := Branch(Var(c), [BreakStmt], [], [], []);
    hide Annotate, AnnotateOne, Reads, Writes, ReadsOf, WritesOf;
    InnerNoted(list, args, AfterReads(IfLeaves(c, v, []), args));
    IfNoted(c, BreakStmt, list, args + {BREAK}, AfterReads(SetLeave(v), args), true, BREAK);
    SetLeaveNoted(list, v, args + {BREAK} + {BREAK}, args);
    AnnotateCons(leaves, SetLeave(v), list, args + {BREAK}, args, true);
    AnnotateCons(BARE_INNER, IfLeaves(c, v, []), list, args, args, true);
    PassedOverText(c, v);
    assert args + {BREAK} == args;
  }

  lemma XIsCarried(read: set<Name>, sets: set<Name>)
    requires BREAK in sets && "x" in sets && RETVAL !in sets && RETURN !in sets
    ensures read + sets * ({"x"} + {BREAK, RETVAL, RETURN}) == read + {BREAK, "x"}
  {
  }

  lemma PassedLoopNoted(list: Listing, c: Name, v: int) returns (args: seq<Name>)
    requires Lists(list) && (c == "a" || c == "x")
    ensures PassedArgs(c, args)
    ensures AnnotateOne(BarePassed(c, v), list, {"a", "x"}, {"x"}, false) == NotedPassed(c, v, args)
  {
    var body, all := PassedOver(c, v, BARE_INNER, []), {BREAK, c, "x"};
    hide Annotate, AnnotateOne, Reads, Writes, PassedOver, LoopArgs, Outputs, NoDup, WritesOf, ReadsOf;
    PassedOverNoted(list, c, v, all);
    args := LoopArgs(list, body, {"x"});
    ArgsAre(list, body, {"x"});
    OneOf(list, c);
    assert RETVAL != "x" && RETURN != "x" by {
      assert |"x"| == 1 && |RETVAL| > 1 && |RETURN| > 1;
    }
    XHandedOn(list, {BREAK, "x"});
    XIsCarried({c}, {BREAK, "x"});
    assert Names(args) == all;
    hide Lists, Names;
    assert {"a", "x"} * {c} == {c};
    LoopNotedWith(0, body, list, {"a", "x"}, {"x"}, false, args);
  }

  lemma PassedNoted(list: Listing, c: Name, p: int, v: int) returns (args: seq<Name>)
    requires Lists(list) && (c == "a" || c == "x")
    ensures PassedArgs(c, args)
    ensures Annotate(SetBefore(p, BarePassed(c, v)), list, {"a"}, {}, false) == SetBefore(p, NotedPassed(c, v, args))
  {
    args := PassedLoopNoted(list, c, v);
    SetsX(p);
    hide Annotate, AnnotateOne, Reads, Writes, ReadsOf, WritesOf, BarePassed, NotedPassed;
    ReturnXNoted(list, {"a", "x"} + WritesOf(BarePassed(c, v)));
    AnnotateCons(BarePassed(c, v), RETURN_X, list, {"a", "x"}, {}, false);
    AnnotateCons(Assign("x", Const(p)), LoopSets(BarePassed(c, v)), list, {"a"}, {}, false);
    assert {"a"} + {"x"} == {"a", "x"};
    LeavesKept(list);
  }

  /** In both runs the inner loop breaks at once. */
  lemma InnerBreaks(m: Model, n: nat, d: Env, st: RData)
    requires n > 0
    ensures Rounds(m, [BreakStmt], n, d, st) == Ended(Broke(d, st))
    ensures TermRounds(m, [BreakStmt], n, d, st) == Ended(Broke(d, st))
  {
    assert NoInnerLoop([BreakStmt], true) by {
      assert [BreakStmt][1..] == [];
    }
    assert Round(m, [BreakStmt], d, st) == Ended(Broke(d, st));
    RoundsFromFirst(m, [BreakStmt], n, d, st);
    NeverMeetsWithin(m, [BreakStmt], n, d, st);
    NotMetWithin(m, [BreakStmt], n, d, st);
  }

  /** The direct run breaks for the second time, the run that the term makes at once. */
  lemma PassedRound(m: Model, c: Name, v: int, d: Env, st: RData)
    requires m.rank(1, []) >= 1
    ensures var body := PassedOver(c, v, INNER, [BREAK]);
      && Round(m, body, d, st) == Ended(Broke(if Get(d, c) != 0 then d else d["x" := v], st))
      && TermRound(m, body, d, st) == Ended(Broke(d, st))
  {
    var body, rest, n := PassedOver(c, v, INNER, [BREAK]), IfLeaves(c, v, [BREAK]), m.rank(1, []);
    assert body[0] == INNER && body[1..] == rest && rest[1..] == SetLeave(v) && GetAll(d, []) == [];
    InnerBreaks(m, n, d, st);
    assert [BreakStmt][1..] == [] && HasBreak([BreakStmt]) && IsInnerLoop(INNER, true) && Hands(rest[0]);
    LeaveRuns(m, v, d, st);
    hide Rounds, TermRounds, HasBreak;
    WhileRun(m, body, d, st);
    TermWhileRun(m, body, true, false, d, st);
    BranchRun(m, rest, d, st);
    TermBranchRun(m, rest, true, true, d, st);
  }

  lemma LeaveRuns(m: Model, v: int, d: Env, st: RData)
    ensures Run(m, SetLeave(v), d, st) == Broke(d["x" := v], st) && Run(m, [BreakStmt], d, st) == Broke(d, st)
    ensures Run(m, [], d, st) == Fell(d, st)
    ensures TermRun(m, [BreakStmt], true, true, d, st) == TermRun(m, [], true, true, d, st) == Broke(d, st)
  {
    assert SetLeave(v)[1..] == [BreakStmt];
  }

  lemma PassedRounds(m: Model, c: Name, v: int, n: nat, d: Env, st: RData)
    requires m.rank(1, []) >= 1 && n > 0
    ensures var body := PassedOver(c, v, INNER, [BREAK]);
      && Rounds(m, body, n, d, st) == Ended(Broke(if Get(d, c) != 0 then d else d["x" := v], st))
      && TermRounds(m, body, n, d, st) == Ended(Broke(d, st))
  {
    var body := PassedOver(c, v, INNER, [BREAK]);
    PassedRound(m, c, v, d, st);
    RoundsFromFirst(m, body, n, d, st);
    assert TermRounds(m, body, 0, d, st) == Running(d, st);
    assert TermRounds(m, body, 1, d, st) == Ended(Broke(d, st));
    TermRoundsStay(m, body, 1, n, d, st);
  }

  function PassedNeeds(c: Name): Needs {
    Needs({c, "x"}, {"x"}, {c, "x"}, {})
  }

  lemma IfLeavesLive(c: Name, v: int)
    requires c == "a" || c == "x"
    ensures var l, needs := IfLeaves(c, v, [BREAK]), Needs({"x"}, {"x"}, {"x"}, {});
      && Covered(l, true, true, needs) && Live(l, true, true, needs) == {c, "x"} && Assigned(l) == {"x"}
      && Exits(l) == {BREAK} && HasBreak(l)
  {
    var l, needs := IfLeaves(c, v, [BREAK]), Needs({"x"}, {"x"}, {"x"}, {});
    assert l[1..] == SetLeave(v) && SetLeave(v)[1..] == [BreakStmt] && [BreakStmt][1..] == [];
    assert Assigned([]) == {} && Assigned([BreakStmt]) == {} && Assigned(SetLeave(v)) == {"x"};
    assert Exits([]) == {} && Exits([BreakStmt]) == {BREAK} && Exits(SetLeave(v)) == {BREAK};
    assert HasBreak([BreakStmt]) && Hands(l[0]) && !GoesOn(l[0], true, true);
    assert Live([BreakStmt], true, true, needs) == {"x"} && Live([], true, true, needs) == {"x"};
    assert |c| == 1 && |"x"| == 1 && Names([BREAK]) == {BREAK};
  }

  lemma PassedIsOk(c: Name, v: int, args: seq<Name>)
    requires PassedArgs(c, args)
    ensures LoopOk(PassedOver(c, v, INNER, [BREAK]), args, PassedNeeds(c))
    ensures !GoesRoundForever(PassedOver(c, v, INNER, [BREAK]))
  {
    var body, rest, needs := PassedOver(c, v, INNER, [BREAK]), IfLeaves(c, v, [BREAK]), PassedNeeds(c);
    InNames(args, BREAK);
    InNames(args, CONTINUE);
    InnerIsCovered({c, "x"}, needs);
    IfLeavesLive(c, v);
    assert body[1..] == rest && body[0] == INNER && |body| > 1 && |c| == |"x"| == 1;
    hide Covered, LoopCovered, IfLeaves, Live, Exits, NoDup;
    assert NeedsAfter(INNER, true, needs) == Needs({"x"}, {"x"}, {"x"}, {});
    InnerFirst(rest, needs, {c, "x"});
  }

  lemma InnerIsCovered(after: set<Name>, needs: Needs)
    requires FlagFree(after) && needs.ret == {}
    ensures LoopCovered(INNER, true, after, needs) && HasBreak(INNER.body) && IsInnerLoop(INNER, true)
    ensures Exits(INNER.body) == {BREAK} && Assigned(INNER.body) == {}
  {
    assert INNER.body == [BreakStmt] && [BreakStmt][1..] == [] && Names([BREAK]) == {BREAK} && NoDup([BREAK]);
  }

  /** A list with that inner loop at its head. */
  lemma InnerFirst(rest: seq<Stmt>, needs: Needs, after: set<Name>)
    requires needs.ret == {} && FlagFree(after) && FlagFree(Assigned(rest)) && RETURN !in Exits(rest)
    requires var needs' := NeedsAfter(INNER, true, needs);
      Covered(rest, true, true, needs') && Live(rest, true, true, needs') == after
    ensures var l := [INNER] + rest;
      && Covered(l, true, false, needs) && Live(l, true, false, needs) == after && Assigned(l) == Assigned(rest)
      && HasBreak(l) && RETURN !in Exits(l)
  {
    var l := [INNER] + rest;
    InnerIsCovered(after, needs);
    assert l[0] == INNER && l[1..] == rest && PendingAfter(INNER, true, false);
    hide LoopCovered, NeedsAfter;
    assert LiveAfter(l, true, false, needs) == after;
    assert Names([BREAK]) == {BREAK};
  }

  /** The loop starts from the default for x, unless that is one of its inputs. */
  lemma PassedFix(m: Model, c: Name, v: int, loopArgs: seq<Name>, d: Env, st: RData, n: nat)
    requires PassedArgs(c, loopArgs) && m.rank(1, []) >= 1 && n > 0
    ensures var body, args := PassedOver(c, v, INNER, [BREAK]), EvAll(m, LoopInit(loopArgs, [c]), d);
      FixState(Fix(m, loopArgs, Step(loopArgs, Translate(body, loopArgs, true)), n, args, st), loopArgs,
        Ended(Broke(if c == "x" then d else d["x" := 0], st)), PassedNeeds(c))
  {
    var body, d0 := PassedOver(c, v, INNER, [BREAK]), if c == "x" then d else d["x" := 0];
    PassedIsOk(c, v, loopArgs);
    InNames(loopArgs, CONTINUE);
    assert Names([c]) == {c} && |c| == |"x"| == 1;
    PassedRounds(m, c, v, n, d0, st);
    hide LoopOk, PassedOver, Translate, Fix, Step, LoopInit, TermRounds, FixState, NoDup;
    InitFrom(m, loopArgs, [c], PassedNeeds(c), d0, d, st);
    FixCorrect(m, body, loopArgs, PassedNeeds(c), n, EvAll(m, LoopInit(loopArgs, [c]), d), d0, st);
  }

  lemma PassedTerm(m: Model, c: Name, v: int, loopArgs: seq<Name>, d: Env, st: RData)
    requires PassedArgs(c, loopArgs) && m.rank(1, []) >= 1 && m.rank(0, [Get(d, c)]) >= 1
    ensures Eval(m, Translate(LoopSets(NotedPassed(c, v, loopArgs)), [RETVAL], false), d, st) ==
      Result([if c == "x" then Get(d, "x") else 0], st)
  {
    var body, l := PassedOver(c, v, INNER, [BREAK]), LoopSets(NotedPassed(c, v, loopArgs));
    assert l[0] == NotedPassed(c, v, loopArgs) && l[1..] == RETURN_X && GetAll(d, [c]) == [Get(d, c)];
    PassedIsOk(c, v, loopArgs);
    var n := m.rank(0, [Get(d, c)]);
    PassedFix(m, c, v, loopArgs, d, st, n);
    hide LoopOk, PassedOver, Eval, Translate, Fix, Step, LoopInit, BindAll, FixState, AfterLoop, GoesRoundForever,
      EvAll;
    WhileTerm(m, l, [RETVAL], false, d, st);
    var r := Fix(m, loopArgs, Step(loopArgs, Translate(body, loopArgs, true)), n,
      EvAll(m, LoopInit(loopArgs, [c]), d), st);
    InNames(loopArgs, "x");
    LeftTerm(m, loopArgs, PassedNeeds(c), d, r, Broke(if c == "x" then d else d["x" := 0], st));
  }

  lemma PassedRun(m: Model, c: Name, v: int, loopArgs: seq<Name>, d: Env, st: RData)
    requires m.rank(1, []) >= 1 && m.rank(0, [Get(d, c)]) >= 1
    ensures var how := Run(m, LoopSets(NotedPassed(c, v, loopArgs)), d, st);
      how.Returned? && how.st == st && Get(how.env, RETVAL) == if Get(d, c) != 0 then Get(d, "x") else v
  {
    var l := LoopSets(NotedPassed(c, v, loopArgs));
    assert l[0] == NotedPassed(c, v, loopArgs) && l[1..] == RETURN_X && GetAll(d, [c]) == [Get(d, c)];
    PassedRounds(m, c, v, m.rank(0, [Get(d, c)]), d, st);
    hide Run, Rounds, PassedOver;
    WhileRun(m, l, d, st);
    ReturnXTerm(m, if Get(d, c) != 0 then d else d["x" := v], st);
  }

  /** Analysed and translated, the code never sets x in the loop: the break of the inner loop, left pending, takes
      effect at the `if`.  So it returns the same if and only if that is taken, or the value it passes over is the one
      x has; and if x is no input of the loop, that is the default. */
  lemma PassedOverRightIff(m: Model, list: Listing, c: Name, p: int, v: int, args: Env, st: RData)
    requires Lists(list) && (c == "a" || c == "x")
    requires m.rank(1, []) >= 1 && m.rank(0, [Get(args["x" := p], c)]) >= 1
    ensures var noted := Annotate(SetBefore(p, BarePassed(c, v)), list, {"a"}, {}, false);
      var how, r := Run(m, noted, args, st), Eval(m, Translate(noted, [RETVAL], false), args, st);
      && how.Returned?
      && (c == "x" ==> (r == Result([Get(how.env, RETVAL)], how.st) <==> p != 0 || v == p))
      && (c == "a" ==> (r == Result([Get(how.env, RETVAL)], how.st) <==> (if Get(args, "a") != 0 then p else v) == 0))
  {
    var loopArgs := PassedNoted(list, c, p, v);
    var d := args["x" := p];
    SetBeforeFirst(m, p, NotedPassed(c, v, loopArgs), args, st);
    hide Annotate, Eval, Translate, Run, SetBefore, LoopSets, NotedPassed, BarePassed, NoDup;
    PassedRun(m, c, v, loopArgs, d, st);
    PassedTerm(m, c, v, loopArgs, d, st);
  }

  // ---------- a name set in an inner loop and read after it

  /** The inner loop sets y and is left, then x gets the value of y. */
  function Lost(inner: Stmt): seq<Stmt> {
    [inner] + XFromY()
  }

  function XFromY(): seq<Stmt> {
    [Assign("x", Var("y"))] + [BreakStmt]
  }

  function SetY(v: int): seq<Stmt> {
    [Assign("y", Const(v))] + [BreakStmt]
  }

  function BareLost(v: int): Stmt {
    While(0, Lost(While(1, SetY(v), [], [], [])), [], [], [])
  }

  /** Only the flag is an argument of the inner loop. */
  function LostInner(v: int, output: seq<Name>): Stmt {
    While(1, SetY(v), [BREAK], [], output)
  }

  function NotedLost(v: int, output: seq<Name>, args: seq<Name>): Stmt {
    While(0, Lost(LostInner(v, output)), args, [], ["x"])
  }

  predicate LostArgs(args: seq<Name>) {
    NoDup(args) && Names(args) == {BREAK, "x"}
  }

  lemma SetYNoted(list: Listing, v: int, known: set<Name>, after: set<Name>)
    requires Lists(list)
    ensures Annotate(SetY(v), list, known, after, true) == SetY(v) && Reads(SetY(v)) == {}
      && Writes(SetY(v)) == {"y", BREAK}
    ensures Annotate(XFromY(), list, known, after, true) == XFromY()
    ensures Reads(XFromY()) == {"y"} && Writes(XFromY()) == {"x", BREAK}
  {
    var sets, gets := Assign("y", Const(v)), Assign("x", Var("y"));
    assert WritesOf(sets) == {"y"} && ReadsOf(sets) == {} && WritesOf(gets) == {"x"} && ReadsOf(gets) == {"y"};
    assert WritesOf(BreakStmt) == {BREAK} && ReadsOf(BreakStmt) == {};
    LeavesKept(list);
    hide Annotate, AnnotateOne, Reads, Writes, ReadsOf, WritesOf;
    LeafNoted(BreakStmt, list, known + WritesOf(sets), after, true);
    LeafNoted(BreakStmt, list, known + WritesOf(gets), after, true);
    AnnotateCons(sets, [BreakStmt], list, known, after, true);
    TextCons(sets, [BreakStmt]);
    AnnotateCons(gets, [BreakStmt], list, known, after, true);
    TextCons(gets, [BreakStmt]);
  }

  lemma LostInnerNoted(list: Listing, v: int, known: set<Name>, more: set<Name>)
    requires Lists(list)
    ensures var inner, output := While(1, SetY(v), [], [], []), Outputs(list, {"y", BREAK}, {}, true);
      && AnnotateOne(inner, list, known, more, true) == LostInner(v, output)
      && WritesOf(inner) == {"y", BREAK} && ReadsOf(inner) == {} && BREAK in output && RETURN !in output
  {
    SetYNoted(list, v, {BREAK}, {BREAK});
    OneOf(list, BREAK);
    LoopText(1, SetY(v));
    assert LoopArgs(list, SetY(v), {}) == [BREAK] by {
      assert {} + {"y", BREAK} * {} == {};
    }
    OutputsAre(list, {"y", BREAK}, {}, true);
    var output := Outputs(list, {"y", BREAK}, {}, true);
    InNames(output, BREAK);
    InNames(output, RETURN);
    assert output == Outputs(list, {"y", BREAK}, more, true);
    assert Names(output) == {"y", BREAK} && RETURN != "y" by {
      assert |RETURN| > 1 && |RETVAL| > 1;
    }
    hide Annotate, AnnotateOne, Reads, Writes, WritesOf, ReadsOf, LoopArgs, Outputs;
    LoopNotedWith(1, SetY(v), list, known, more, true, [BREAK]);
    assert Names([BREAK]) == {BREAK} && known * {} == {};
  }

  lemma LostNoted(list: Listing, v: int) returns (output: seq<Name>, args: seq<Name>)
    requires Lists(list)
    ensures LostArgs(args) && BREAK in output && RETURN !in output
    ensures Annotate(LoopSets(BareLost(v)), list, {}, {}, false) == LoopSets(NotedLost(v, output, args))
  {
    output := Outputs(list, {"y", BREAK}, {}, true);
    args := LostLoopNoted(list, v, output);
    hide Annotate, AnnotateOne, Reads, Writes, ReadsOf, WritesOf, BareLost, NotedLost;
    LostInnerNoted(list, v, {}, {});
    ReturnXNoted(list, {} + WritesOf(BareLost(v)));
    AnnotateCons(BareLost(v), RETURN_X, list, {}, {}, false);
  }

  lemma LostBodyNoted(list: Listing, v: int, known: set<Name>)
    requires Lists(list)
    ensures var body := Lost(While(1, SetY(v), [], [], []));
      && Annotate(body, list, known, known, true) == Lost(LostInner(v, Outputs(list, {"y", BREAK}, {}, true)))
      && Writes(body) == {"y", BREAK, "x"} && Reads(body) == {}
  {
    var inner := While(1, SetY(v), [], [], []);
    SetYNoted(list, v, known + {"y", BREAK}, known);
    hide Annotate, AnnotateOne, Reads, Writes, ReadsOf, WritesOf, LostInner, SetY;
    LostInnerNoted(list, v, known, AfterReads(XFromY(), known));
    AnnotateCons(inner, XFromY(), list, known, known, true);
    TextCons(inner, XFromY());
    assert {} + ({"y"} - {"y", BREAK}) == {} && {"y", BREAK} + {"x", BREAK} == {"y", BREAK, "x"};
  }

  lemma LostLoopNoted(list: Listing, v: int, output: seq<Name>) returns (args: seq<Name>)
    requires Lists(list) && output == Outputs(list, {"y", BREAK}, {}, true)
    ensures LostArgs(args) && AnnotateOne(BareLost(v), list, {}, {"x"}, false) == NotedLost(v, output, args)
  {
    var body, all := Lost(While(1, SetY(v), [], [], [])), {"y", BREAK, "x"};
    LostBodyNoted(list, v, {});
    args := LoopArgs(list, body, {"x"});
    ArgsAre(list, body, {"x"});
    OneOf(list, "x");
    var none: set<Name> := {};
    assert none * none == none && list(none) == [];
    assert RETVAL !in all && RETURN !in all by {
      assert |"x"| == |"y"| == 1 && |RETVAL| > 1 && |RETURN| > 1;
    }
    XHandedOn(list, all);
    XIsCarried(none, all);
    hide Annotate, AnnotateOne, Reads, Writes, Lost, LoopArgs, Outputs, Lists, NoDup, Names, WritesOf, ReadsOf;
    LostBodyNoted(list, v, Names(args));
    LoopNotedWith(0, body, list, none, {"x"}, false, args);
  }

  lemma LostRound(m: Model, v: int, output: seq<Name>, d: Env, st: RData)
    requires m.rank(1, []) >= 1
    ensures Round(m, Lost(LostInner(v, output)), d, st) == Ended(Broke(d["y" := v]["x" := v], st))
  {
    var body, n, d1 := Lost(LostInner(v, output)), m.rank(1, []), d["y" := v];
    assert body[0] == LostInner(v, output) && body[1..] == XFromY() && XFromY()[1..] == [BreakStmt]
      && GetAll(d, []) == [];
    assert SetY(v)[1..] == [BreakStmt];
    assert Run(m, [BreakStmt], d1, st) == Broke(d1, st) && Run(m, SetY(v), d, st) == Broke(d1, st);
    assert Run(m, [BreakStmt], d1["x" := v], st) == Broke(d1["x" := v], st);
    assert Run(m, XFromY(), d1, st) == Broke(d1["x" := v], st);
    RoundsFromFirst(m, SetY(v), n, d, st);
    hide Rounds;
    WhileRun(m, body, d, st);
  }

  lemma LostRun(m: Model, v: int, output: seq<Name>, args: seq<Name>, d: Env, st: RData)
    requires m.rank(1, []) >= 1 && m.rank(0, []) >= 1
    ensures var how := Run(m, LoopSets(NotedLost(v, output, args)), d, st);
      how.Returned? && how.st == st && Get(how.env, RETVAL) == v
  {
    var l, body := LoopSets(NotedLost(v, output, args)), Lost(LostInner(v, output));
    assert l[0] == NotedLost(v, output, args) && l[1..] == RETURN_X && GetAll(d, []) == [];
    LostRound(m, v, output, d, st);
    RoundsFromFirst(m, body, m.rank(0, []), d, st);
    hide Run, Rounds, Lost;
    WhileRun(m, l, d, st);
    ReturnXTerm(m, d["y" := v]["x" := v], st);
  }

  /** The inner loop hands on that it has been left, and not y. */
  lemma LostInnerTerm(m: Model, v: int, n: nat, st: RData)
    requires n > 0
    ensures Fix(m, [BREAK], Step([BREAK], Translate(SetY(v), [BREAK], true)), n, [0], st) == Result([1], st)
  {
    var code := Translate(SetY(v), [BREAK], true);
    FixStart(m, [BREAK], Step([BREAK], code), [0], st);
    FixNext(m, [BREAK], Step([BREAK], code), 1, [0], st);
    var t := BindAll(map[], [BREAK], [0]);
    GetBound(map[], [BREAK], [0], BREAK);
    StepEval(m, [BREAK], code, t, st);
    SetThenBreak("y", Const(v), [BREAK]);
    EvalTuple(m, [BREAK], t["y" := v][BREAK := 1], st);
    assert GetAll(t["y" := v][BREAK := 1], [BREAK]) == [1];
    assert Eval(m, LetT(BREAK, Const(1), TupleT([BREAK])), t["y" := v], st) == Result([1], st);
    assert Eval(m, code, t, st) == Result([1], st);
    FlagStops([BREAK], [1], 0, st);
    hide Fix, Step, Stops;
    FixStopped(m, [BREAK], code, 1, n, [0], st);
  }

  lemma SetThenBreak(x: Name, e: Expr, outs: seq<Name>)
    ensures Translate([Assign(x, e)] + [BreakStmt], outs, true) == LetT(x, e, LetT(BREAK, Const(1), TupleT(outs)))
  {
    assert ([Assign(x, e)] + [BreakStmt])[1..] == [BreakStmt] && [BreakStmt][1..] == [];
    assert Translate([BreakStmt], outs, true) == LetT(BREAK, Const(1), TupleT(outs));
  }

  lemma FlagStops(args: seq<Name>, vals: seq<int>, i: nat, st: RData)
    requires |args| == |vals| && i < |args| && args[i] == BREAK && vals[i] != 0
    ensures Stops(Result(vals, st), args)
  {
  }

  lemma LostRoundTerm(m: Model, v: int, output: seq<Name>, args: seq<Name>, t: Env, st: RData)
    requires LostArgs(args) && m.rank(1, []) >= 1 && BREAK in output && RETURN !in output && Get(t, "y") == 0
    ensures var vals := seq(|args|, i requires 0 <= i < |args| => if args[i] == BREAK then 1 else 0);
      Eval(m, Translate(Lost(LostInner(v, output)), args, true), t, st) == Result(vals, st)
  {
    var body, n := Lost(LostInner(v, output)), m.rank(1, []);
    assert body[0] == LostInner(v, output) && body[1..] == XFromY() && GetAll(t, []) == [];
    assert EvAll(m, LoopInit([BREAK], []), t) == [0] && !GoesRoundForever(SetY(v));
    LostInnerTerm(m, v, n, st);
    var t1 := BindAll(t, [BREAK], [1]);
    GetBound(t, [BREAK], [1], BREAK);
    GetBound(t, [BREAK], [1], "y");
    assert |"y"| == |"x"| == 1;
    XFromYTerm(m, args, t1, st);
    hide Eval, Fix, Step, Translate, LoopInit, AfterLoop, BindAll, GoesRoundForever;
    WhileTerm(m, body, args, true, t, st);
    AfterLoopEval(m, output, args, Translate(XFromY(), args, true), t1, st);
  }

  lemma XFromYTerm(m: Model, args: seq<Name>, t: Env, st: RData)
    requires LostArgs(args) && Get(t, "y") == 0
    ensures var vals := seq(|args|, i requires 0 <= i < |args| => if args[i] == BREAK then 1 else 0);
      Eval(m, Translate(XFromY(), args, true), t, st) == Result(vals, st)
  {
    SetThenBreak("x", Var("y"), args);
    var t' := t["x" := 0][BREAK := 1];
    EvalTuple(m, args, t', st);
    assert Eval(m, Translate(XFromY(), args, true), t, st) == Eval(m, TupleT(args), t', st);
    forall i | 0 <= i < |args| ensures Get(t', args[i]) == if args[i] == BREAK then 1 else 0 {
      assert args[i] in Names(args);
    }
    assert GetAll(t', args) == seq(|args|, i requires 0 <= i < |args| => if args[i] == BREAK then 1 else 0);
  }

  lemma LostFix(m: Model, v: int, output: seq<Name>, args: seq<Name>, n: nat, st: RData)
    requires LostArgs(args) && m.rank(1, []) >= 1 && BREAK in output && RETURN !in output && n > 0
    ensures var start := seq(|args|, i requires 0 <= i < |args| => 0);
      var vals := seq(|args|, i requires 0 <= i < |args| => if args[i] == BREAK then 1 else 0);
      Fix(m, args, Step(args, Translate(Lost(LostInner(v, output)), args, true)), n, start, st) == Result(vals, st)
  {
    var start := seq(|args|, i requires 0 <= i < |args| => 0);
    var vals := seq(|args|, i requires 0 <= i < |args| => if args[i] == BREAK then 1 else 0);
    var code := Translate(Lost(LostInner(v, output)), args, true);
    var t := BindAll(map[], args, start);
    forall x ensures Get(t, x) == 0 {
      GetBound(map[], args, start, x);
    }
    hide Eval, Fix, Step, Translate, Lost, LostInner, Stops, BindAll;
    FixStart(m, args, Step(args, code), start, st);
    FixNext(m, args, Step(args, code), 1, start, st);
    StepEval(m, args, code, t, st);
    LostRoundTerm(m, v, output, args, t, st);
    InNames(args, BREAK);
    FlagStops(args, vals, LastIndex(args, BREAK), st);
    FixStopped(m, args, code, 1, n, start, st);
  }

  lemma LostTerm(m: Model, v: int, output: seq<Name>, args: seq<Name>, d: Env, st: RData)
    requires LostArgs(args) && BREAK in output && RETURN !in output && m.rank(1, []) >= 1 && m.rank(0, []) >= 1
    ensures Eval(m, Translate(LoopSets(NotedLost(v, output, args)), [RETVAL], false), d, st) == Result([0], st)
  {
    var l, body := LoopSets(NotedLost(v, output, args)), Lost(LostInner(v, output));
    assert l[0] == NotedLost(v, output, args) && l[1..] == RETURN_X && GetAll(d, []) == [] && |body| > 1;
    var start := seq(|args|, i requires 0 <= i < |args| => 0);
    var vals := seq(|args|, i requires 0 <= i < |args| => if args[i] == BREAK then 1 else 0);
    assert EvAll(m, LoopInit(args, []), d) == start;
    assert !GoesRoundForever(body);
    LostFix(m, v, output, args, m.rank(0, []), st);
    hide Eval, Fix, Step, Translate, Lost, LoopInit, AfterLoop, BindAll, EvAll, GoesRoundForever;
    WhileTerm(m, l, [RETVAL], false, d, st);
    var t := BindAll(d, args, vals);
    InNames(args, "x");
    GetBound(d, args, vals, "x");
    assert |"x"| == 1;
    AfterLoopEval(m, ["x"], [RETVAL], Translate(RETURN_X, [RETVAL], false), t, st);
    InNames(args, RETURN);
    ReturnXTerm(m, t, st);
  }

  /** What is set in an inner loop is lost after it: the code returns v when run, and analysed and translated the
      default, which is the same if and only if v is the default. */
  lemma LostRightIff(m: Model, list: Listing, v: int, args: Env, st: RData)
    requires Lists(list) && m.rank(1, []) >= 1 && m.rank(0, []) >= 1
    ensures var noted := Annotate(LoopSets(BareLost(v)), list, {}, {}, false);
      var how, r := Run(m, noted, args, st), Eval(m, Translate(noted, [RETVAL], false), args, st);
      && how.Returned? && Get(how.env, RETVAL) == v && r == Result([0], st)
      && (r == Result([Get(how.env, RETVAL)], how.st) <==> v == 0)
  {
    var output, loopArgs := LostNoted(list, v);
    hide Annotate, Eval, Translate, Run, LoopSets, NotedLost, BareLost, NoDup;
    LostRun(m, v, output, loopArgs, args, st);
    LostTerm(m, v, output, loopArgs, args, st);
  }

  /** What is read in the list after that inner loop, its break pending. */
  lemma IfLeavesRead(c: Name, v: int, after: set<Name>)
    ensures var l, needs := IfLeaves(c, v, []), Needs({"x"}, {"x"}, {"x"}, {});
      && MayRead(l, true, true, needs) == {c, "x"} && Told(l, after, true, true, needs) && Assigned(l) == {"x"}
  {
    var l, needs := IfLeaves(c, v, []), Needs({"x"}, {"x"}, {"x"}, {});
    assert l[1..] == SetLeave(v) && SetLeave(v)[1..] == [BreakStmt] && [BreakStmt][1..] == [];
    assert HasBreak([BreakStmt]) && Hands(l[0]) && !GoesOn(l[0], true, true);
    assert Assigned([]) == {} && Assigned([BreakStmt]) == {} && Assigned(SetLeave(v)) == {"x"};
    assert Writes([BreakStmt]) == {BREAK} && LeavesRound(WritesOf(l[0]), true);
    assert MayRead([BreakStmt], true, true, needs) == {"x"} && MayRead([], true, true, needs) == {"x"};
  }

  /** The loop reads the name of its `if` and x, its text the name only. */
  lemma PassedOverRead(c: Name, v: int, args: set<Name>, round: Needs)
    requires round.brk == {"x"} && round.ret == {} && (c == "a" || c == "x")
    ensures var body := PassedOver(c, v, BARE_INNER, []);
      && MayRead(body, true, false, round) == {c, "x"} && Told(body, args, true, false, round)
         && Assigned(body) == {"x"}
      && HasBreak(body)
  {
    var body, rest := PassedOver(c, v, BARE_INNER, []), IfLeaves(c, v, []);
    IfLeavesRead(c, v, args);
    assert body[0] == BARE_INNER && body[1..] == rest && [BreakStmt][1..] == [];
    assert HasBreak([BreakStmt]) && Assigned([BreakStmt]) == {} && Reads([BreakStmt]) == {};
    assert Writes([BreakStmt]) == {BREAK} && LeavesRound(WritesOf(BARE_INNER), true);
    assert BREAK != "x" && BREAK != c by {
      assert |c| == |"x"| == 1 && |BREAK| > 1;
    }
    hide IfLeaves, Reads, Writes;
    assert ReadAfter(body, true, false, round) == {c, "x"};
    BareInnerTold(body, {c, "x"}, args, round);
  }

  /** That inner loop sets nothing that is read later. */
  lemma BareInnerTold(l: seq<Stmt>, live: set<Name>, after: set<Name>, needs: Needs)
    requires l != [] && l[0] == BARE_INNER && live == ReadAfter(l, true, false, needs) && BREAK !in live
      && needs.ret == {}
    requires Told(l[1..], after, true, true, NeedsAfter(BARE_INNER, true, needs))
    ensures Told(l, after, true, false, needs) && MayRead(l, true, false, needs) == live
  {
    var b := [BreakStmt];
    assert b[1..] == [] && HasBreak(b) && Assigned(b) == {} && Reads(b) == {} && Writes(b) == {BREAK};
    assert LoopReads(BARE_INNER, AfterReads(l[1..], after), true) == {};
    var args := ArgNames(b, {});
    var round := RoundNeeds(b, args, live, needs);
    assert args == {BREAK} && round.brk == {} && MayRead(b, true, false, round) == {}
      && Told(b, args, true, false, round);
    hide ReadAfter, AfterReads, Reads, Writes;
  }

  /** The text tells what is read if and only if the name of the `if` is x itself: then the lists are right, and still
      code is passed over. */
  lemma PassedOverIsTold(c: Name, p: int, v: int)
    requires c == "a" || c == "x"
    ensures var l := SetBefore(p, BarePassed(c, v));
      && Shaped(l, false, false) && (Told(l, {}, false, false, VALUE) <==> c == "x")
         && MayRead(l, false, false, VALUE) <= {"a"}
  {
    var l, loop, body := SetBefore(p, BarePassed(c, v)), LoopSets(BarePassed(c, v)), PassedOver(c, v, BARE_INNER, []);
    assert l[0] == Assign("x", Const(p)) && l[1..] == loop;
    PassedLoopTold(c, v);
    PassedShaped(c, p, v);
    hide LoopSets, PassedOver, Shaped;
  }

  lemma PassedShaped(c: Name, p: int, v: int)
    requires c == "a" || c == "x"
    ensures Shaped(SetBefore(p, BarePassed(c, v)), false, false)
  {
    hide Shaped, Plain, AllPlain;
    LeavesShaped("x", Const(v));
    IfShaped(c, [BreakStmt], SetLeave(v), true);
    LoopShaped(1, [BreakStmt], IfLeaves(c, v, []), true);
    ReturnXShaped();
    LoopShaped(0, PassedOver(c, v, BARE_INNER, []), RETURN_X, false);
    SetShaped("x", Const(p), LoopSets(BarePassed(c, v)), false);
  }

  lemma PassedLoopTold(c: Name, v: int)
    requires c == "a" || c == "x"
    ensures var l := LoopSets(BarePassed(c, v));
      && (Told(l, {}, false, false, VALUE) <==> c == "x") && MayRead(l, false, false, VALUE) == {c} + ({"x"} - {"x"})
  {
    var l, body := LoopSets(BarePassed(c, v)), PassedOver(c, v, BARE_INNER, []);
    hide PassedOver, Reads, Writes, Told, MayRead;
    assert l[0] == BarePassed(c, v) && l[1..] == RETURN_X;
    ReturnXTold();
    PassedOverText(c, v);
    var args := ArgNames(body, {"x"});
    XIsCarried({c}, {BREAK, "x"});
    assert args == {BREAK, c, "x"};
    var round := RoundNeeds(body, args, {"x"}, VALUE);
    assert RETVAL !in args by {
      assert |c| == |"x"| == 1 && |RETVAL| > 1 && |RETVAL| != |BREAK|;
    }
    assert round == Needs({c}, {"x"}, {c}, {});
    PassedOverRead(c, v, args, round);
    OnlyLoop(l, args, round);
  }

  lemma ReturnXTold()
    ensures Told(RETURN_X, {}, false, false, VALUE) && MayRead(RETURN_X, false, false, VALUE) == {"x"}
    ensures AfterReads(RETURN_X, {}) == {"x"}
  {
    assert RETURN_X[1..] == [];
  }

  /** A loop in no other, and x returned after it. */
  lemma OnlyLoop(l: seq<Stmt>, args: set<Name>, round: Needs)
    requires l != [] && l[0].While? && l[1..] == RETURN_X && HasBreak(l[0].body) && Assigned(l[0].body) == {"x"}
    requires args == ArgNames(l[0].body, {"x"}) && round == RoundNeeds(l[0].body, args, {"x"}, VALUE) && "x" in args
    requires Told(l[0].body, args, true, false, round)
    ensures Told(l, {}, false, false, VALUE) <==> MayRead(l[0].body, true, false, round) <= Reads(l[0].body)
    ensures MayRead(l, false, false, VALUE) == Reads(l[0].body) + ({"x"} - {"x"})
  {
    ReturnXTold();
    assert LoopReads(l[0], {"x"}, false) == {"x"} && ReadAfter(l, false, false, VALUE) == {"x"};
    hide ReadAfter, AfterReads, ArgNames, RoundNeeds, HasBreak, Reads, Writes, Assigned, LoopReads;
  }

  lemma LeaveText(c: Name)
    ensures var leaves := Branch(Var(c), [BreakStmt], [], [], []);
      WritesOf(leaves) == {BREAK} && ReadsOf(leaves) == {c} && WritesOf(BARE_INNER) == {BREAK}
        && ReadsOf(BARE_INNER) == {}
    ensures WritesOf(BreakStmt) == {BREAK} && ReadsOf(BreakStmt) == {}
  {
    var b := [BreakStmt];
    assert b[1..] == [] && Reads(b) == {} && Writes(b) == {BREAK} && Reads([]) == {} && Writes([]) == {};
  }

  lemma PassedOverText(c: Name, v: int)
    requires c == "a" || c == "x"
    ensures var body := PassedOver(c, v, BARE_INNER, []); Reads(body) == {c} && Writes(body) == {BREAK, "x"}
  {
    var leaves, none: set<Name> := Branch(Var(c), [BreakStmt], [], [], []), {};
    hide Reads, Writes, WritesOf, ReadsOf;
    assert c != BREAK by {
      assert |c| == 1;
    }
    LeaveText(c);
    SetsX(v);
    TextCons(BreakStmt, []);
    TextCons(Assign("x", Const(v)), [BreakStmt]);
    TextCons(leaves, SetLeave(v));
    TextCons(BARE_INNER, IfLeaves(c, v, []));
    assert [BreakStmt] + [] == [BreakStmt];
    assert Reads(SetLeave(v)) == none && Writes(SetLeave(v)) == {"x", BREAK};
    assert {c} + (none - {BREAK}) == {c} && none + ({c} - {BREAK}) == {c};
  }

  /** Of the name set in the inner loop the text does not tell that it is read later. */
  lemma LostIsNotTold(v: int)
    ensures Shaped(LoopSets(BareLost(v)), false, false) && !Told(LoopSets(BareLost(v)), {}, false, false, VALUE)
  {
    var l, inner, body := LoopSets(BareLost(v)), While(1, SetY(v), [], [], []), Lost(While(1, SetY(v), [], [], []));
    assert l[0] == BareLost(v) && l[1..] == RETURN_X && body[0] == inner && body[1..] == XFromY();
    LostShaped(v);
    SetYText(v);
    var args := ArgNames(body, LoopReads(l[0], AfterReads(RETURN_X, {}), false));
    var round := RoundNeeds(body, args, ReadAfter(l, false, false, VALUE), VALUE);
    var needs := NeedsAfter(inner, true, round);
    assert XFromY()[1..] == [BreakStmt];
    assert "y" in MayRead(XFromY(), true, true, needs);
    assert GoesOn(inner, true, false) && "y" in ReadAfter(body, true, false, round);
    assert LoopReads(inner, AfterReads(XFromY(), args), true) == {};
    assert "y" !in ArgNames(SetY(v), {}) by {
      assert |"y"| == 1 && |BREAK| > 1 && |RETVAL| > 1 && |RETURN| > 1;
    }
    hide SetY, XFromY, MayRead, AfterReads, ReadAfter, Reads, Writes, ArgNames, RoundNeeds, Assigned;
    assert !Told(body, args, true, false, round);
  }

  lemma SetYText(v: int)
    ensures Assigned(SetY(v)) == {"y"} && Reads(SetY(v)) == {} && Writes(SetY(v)) == {"y", BREAK} && HasBreak(SetY(v))
  {
    assert SetY(v)[1..] == [BreakStmt] && [BreakStmt][1..] == [];
    assert Assigned([BreakStmt]) == {} && Writes([BreakStmt]) == {BREAK} && Reads([BreakStmt]) == {};
  }

  lemma LostShaped(v: int)
    ensures Shaped(LoopSets(BareLost(v)), false, false)
  {
    hide Shaped, Plain, AllPlain;
    LeavesShaped("y", Const(v));
    LeavesShaped("x", Var("y"));
    LoopShaped(1, SetY(v), XFromY(), true);
    ReturnXShaped();
    LoopShaped(0, Lost(While(1, SetY(v), [], [], [])), RETURN_X, false);
  }
}
