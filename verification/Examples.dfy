/** Code that meets the hypotheses of the main results: a loop that counts down. */
module Examples {
  import opened Prelude
  import opened SpoqIR
  import opened Structuring
  import opened GraphRuns
  import opened LoopLowering
  import Old = FlagEncoding
  import opened InputOutput
  import opened ReadingOrder
  import opened LeftBreaks

  // ---------- as a graph

  /** 0 is the preheader, 1 the header, 2 the latch and 3 the postheader; register 10 counts. */
  ghost predicate CountsDown(g: Cfg) {
    && g.blocks.Keys == {0, 1, 2, 3} && g.jump.Keys == {0} && g.jump[0] == 3
    && g.blocks[0] == BasicBlock([], Br(1)) && g.blocks[1] == BasicBlock([], CondBr(Ref(10), 2, 3))
    && g.blocks[2] == BasicBlock([Pure(11, 0, [Ref(10)])], Br(1)) && g.blocks[3] == BasicBlock([], Ret(Some(Ref(12))))
    && PhisAt(g, 1) == [Phi(10, map[0 := Ref(5), 2 := Ref(11)])] && PhisAt(g, 3) == [Phi(12, map[1 := Ref(10)])]
    && PhisAt(g, 2) == []
  }

  /** The region of the loop, and an order of its blocks. */
  ghost predicate Inside(loops: Loops) {
    && loops.region.Keys == {0} && loops.rank.Keys == {0} && loops.region[0] == {0, 1, 2}
    && loops.rank[0].Keys == {0, 1, 2} && loops.rank[0][0] == 2 && loops.rank[0][1] == 1 && loops.rank[0][2] == 0
  }

  ghost predicate Outside(rank: map<Block, nat>) {
    rank.Keys == {0, 3} && rank[0] == 1 && rank[3] == 0
  }

  lemma {:induction false} CountsDownHasRegions(g: Cfg, loops: Loops, rank: map<Block, nat>)
    requires CountsDown(g) && Inside(loops) && Outside(rank)
    ensures AllRegions(g, loops) && Region(g, None, {0, 3}, rank) && LoopPhis(g, loops) && PhisAtLoops(g, None, {0, 3})
    ensures NothingForgotten(g, map[0 := LoopInfo([], [], map[], {10, 11, 12})])
  {
    hide Region;
    InsideIsRegion(g, loops);
    OutsideIsRegion(g, rank);
    assert forall pre :: pre in g.jump ==> pre == 0;
    assert HasHeader(g, 0) && HasRegion(g, loops, 0);
    hide HasHeader, HasRegion, CountsDown, Inside;
  }

  lemma {:induction false} InsideIsRegion(g: Cfg, loops: Loops)
    requires CountsDown(g) && Inside(loops)
    ensures Region(g, Some(0), loops.region[0], loops.rank[0])
  {
    var region, inner := loops.region[0], loops.rank[0];
    assert forall b :: b in region ==> b == 0 || b == 1 || b == 2;
    assert Straight(g.blocks[0].insts) && Straight(g.blocks[1].insts) && Straight(g.blocks[2].insts);
    assert Targets(g.blocks[0].term) == {1} && Targets(g.blocks[1].term) == {2, 3} && Targets(g.blocks[2].term) == {1};
    assert !IsNested(g, Some(0), 0) && !IsNested(g, Some(0), 1) && !IsNested(g, Some(0), 2);
    hide Straight, Targets, IsNested;
  }

  lemma {:induction false} OutsideIsRegion(g: Cfg, rank: map<Block, nat>)
    requires CountsDown(g) && Outside(rank)
    ensures Region(g, None, {0, 3}, rank)
  {
    assert Straight(g.blocks[0].insts) && Straight(g.blocks[3].insts);
  }

  lemma {:induction false} CountsDownHasLoopPhis(g: Cfg, loops: Loops)
    requires CountsDown(g) && Inside(loops)
    ensures LoopPhis(g, loops) && PhisAtLoops(g, None, {0, 3})
  {
    hide PhisAtLoops;
    InsideHasPhis(g, loops);
    OutsideHasPhis(g);
    assert forall pre :: HasHeader(g, pre) ==> pre == 0;
  }

  lemma {:induction false} InsideHasPhis(g: Cfg, loops: Loops)
    requires CountsDown(g) && Inside(loops)
    ensures PhisAtLoops(g, Some(0), loops.region[0])
  {
    assert forall b :: b in loops.region[0] ==> b == 0 || b == 1 || b == 2;
    assert Targets(g.blocks[1].term) == {2, 3} && Targets(g.blocks[2].term) == {1};
  }

  lemma {:induction false} OutsideHasPhis(g: Cfg)
    requires CountsDown(g)
    ensures PhisAtLoops(g, None, {0, 3})
  {
    assert Targets(g.blocks[3].term) == {};
  }

  /** The lists it becomes. */
  function Around(): seq<Inst> {
    [Inst.Loop(0), Return(Some(Ref(12)))]
  }

  function Within(): seq<Inst> {
    [If(Ref(10), [Pure(11, 0, [Ref(10)]), Continue(2)], [Break(1)])]
  }

  lemma {:induction false} CountsDownBecomes(g: Cfg, loops: Loops, rank: map<Block, nat>)
    requires CountsDown(g) && Inside(loops) && Outside(rank) && AllRegions(g, loops) && Region(g, None, {0, 3}, rank)
    ensures Structure(g, None, {0, 3}, rank, None, 0) == Around() && LoopBody(g, loops, 0) == Within()
  {
    hide Region, AllRegions;
    RegionOf(g, loops, 0);
    var region, inner := loops.region[0], loops.rank[0];
    OutsideBecomes(g, rank);
    StructureStops(g, Some(0), region, inner, Some(2), 1);
    StructureStops(g, Some(0), region, inner, Some(1), 3);
    StructureIsTail(g, Some(0), region, inner, Some(1), 2);
    assert Structure(g, Some(0), region, inner, Some(1), 2) == [Pure(11, 0, [Ref(10)]), Continue(2)];
    StructureIsTail(g, Some(0), region, inner, Some(0), 1);
    assert Structure(g, Some(0), region, inner, Some(0), 1) == Within();
    StructureIsTail(g, Some(0), region, inner, None, 0);
    hide Structure;
    assert Structure(g, Some(0), region, inner, None, 0) == Within();
  }

  lemma {:induction false} OutsideBecomes(g: Cfg, rank: map<Block, nat>)
    requires CountsDown(g) && Outside(rank) && Region(g, None, {0, 3}, rank)
    ensures Structure(g, None, {0, 3}, rank, None, 0) == Around()
  {
    hide Region;
    StructureIsTail(g, None, {0, 3}, rank, None, 3);
    StructureIsTail(g, None, {0, 3}, rank, None, 0);
  }

  // ---------- as lists

  /** As the lists of a program, the loop has all the shapes lowering asks for. */
  lemma {:induction false} CountsDownIsScoped(p: Program)
    requires p.Keys == {0} && p[0] == LoopDef([], [Phi(10, map[0 := Ref(5), 2 := Ref(11)])], [],
      [Phi(12, map[1 := Ref(10)])], map[], {10, 11, 12}, Within())
    ensures LoopsShaped(p) && LoopsFramed(p) && LoopsScoped(p) && Scoped(p, Around(), {5}, None)
  {
    BodyFits(p);
    var ld := p[0];
    assert Dsts(ld.headerPhis) == [10] && Dsts(ld.postPhis) == [12];
    assert Incoming(ld.headerPhis, 0) == [Ref(5)];
    assert Around()[1..] == [Return(Some(Ref(12)))];
    assert Results(ld) == {12};
    hide Scoped, SetsOnly, StaysInLoop;
    assert WellShaped(ld);
    AroundFits(p);
  }

  lemma {:induction false} AroundFits(p: Program)
    requires p.Keys == {0} && p[0].passIn == [] && p[0].regs == {10, 11, 12} && Results(p[0]) == {12}
      && Incoming(p[0].headerPhis, 0) == [Ref(5)]
    ensures Scoped(p, Around(), {5}, None)
  {
    assert Around()[1..] == [Return(Some(Ref(12)))];
    assert Scoped(p, [Return(Some(Ref(12)))], {5} + {12}, None);
  }

  lemma {:induction false} BodyFits(p: Program)
    requires p.Keys == {0} && p[0] == LoopDef([], [Phi(10, map[0 := Ref(5), 2 := Ref(11)])], [],
      [Phi(12, map[1 := Ref(10)])], map[], {10, 11, 12}, Within())
    ensures StaysInLoop(Within()) && SetsOnly(p, Within(), {10, 11, 12}) && Scoped(p, Within(), Bodies(p[0]), Some(0))
  {
    var ld, thn, els := p[0], [Pure(11, 0, [Ref(10)]), Inst.Continue(2)], [Inst.Break(1)];
    assert thn[1..] == [Inst.Continue(2)] && els[1..] == [] && Within()[1..] == [] && [Inst.Continue(2)][1..] == [];
    assert Incoming(ld.headerPhis, 2) == [Ref(11)] && Incoming(ld.postPhis, 1) == [Ref(10)];
    assert Dsts(ld.headerPhis) == [10];
    assert Bodies(ld) == {10};
    assert Scoped(p, [Inst.Continue(2)], {10} + {11}, Some(0)) && Scoped(p, els, {10}, Some(0));
    assert StaysInLoop(thn) && StaysInLoop(els);
    assert SetsOnly(p, thn, {10, 11, 12}) && SetsOnly(p, els, {10, 11, 12});
  }

  /** So graph, lists and terms of this function agree whatever the operations mean. */
  lemma {:induction false} CountsDownIsTranslated(g: Cfg, loops: Loops, rank: map<Block, nat>)
    requires CountsDown(g) && Inside(loops) && Outside(rank)
    ensures AllRegions(g, loops) && Region(g, None, {0, 3}, rank)
    ensures NothingForgotten(g, map[0 := LoopInfo([], [], map[], {10, 11, 12})])
    ensures var p := ProgramOf(g, loops, map[0 := LoopInfo([], [], map[], {10, 11, 12})]);
      LoopsShaped(p) && LoopsFramed(p) && LoopsScoped(p) && Scoped(p, Structure(g, None, {0, 3}, rank, None, 0), {5},
        None)
  {
    hide Region, AllRegions, LoopPhis, PhisAtLoops, Structure, Scoped, SetsOnly, StaysInLoop, LoopsShaped, LoopsFramed,
      LoopsScoped, WellShaped, LoopBody;
    CountsDownHasRegions(g, loops, rank);
    CountsDownHasLoopPhis(g, loops);
    CountsDownBecomes(g, loops, rank);
    var p := ProgramOf(g, loops, map[0 := LoopInfo([], [], map[], {10, 11, 12})]);
    assert p.Keys == {0};
    CountsDownIsScoped(p);
  }

  // ---------- in the older form

  /** The counter is set before the loop, read in it and set again, and read after it. */
  function CountsDownOld(): seq<Old.Stmt> {
    [Old.Assign("x", Old.Var("n"))] + LoopOld()
  }

  function LoopOld(): seq<Old.Stmt> {
    [Old.While(0, RoundOld(), [], [], [])] + ReturnOld()
  }

  function RoundOld(): seq<Old.Stmt> {
    [Old.Branch(Old.Var("x"), [], [Old.BreakStmt], [], [])] + StepOld()
  }

  function StepOld(): seq<Old.Stmt> {
    [Old.Assign("x", Old.Prim(0, [Old.Var("x")]))]
  }

  function ReturnOld(): seq<Old.Stmt> {
    [Old.ReturnStmt(Some(Old.Var("x")))]
  }

  const VALUE := Old.Needs({}, {}, {}, {Old.RETVAL})
  const ROUND := Old.Needs({"x"}, {"x"}, {"x"}, {})

  lemma {:induction false} StepOldIs()
    ensures Shaped(StepOld(), true, false) && Told(StepOld(), {"x", Old.BREAK}, true, false, ROUND)
      && NoInnerLoop(StepOld(), true)
    ensures Reads(StepOld()) == {"x"} && Writes(StepOld()) == {"x"} && Old.Assigned(StepOld()) == {"x"}
    ensures MayRead(StepOld(), true, false, ROUND) == {"x"} && Old.Exits(StepOld()) == {} && !Old.HasBreak(StepOld())
  {
    assert StepOld()[1..] == [] && |"x"| == 1 && Plain("x");
    assert Old.VarsAll([Old.Var("x")]) == {"x"} by {
      assert [Old.Var("x")][1..] == [];
    }
    assert Shaped([], true, false) && MayRead([], true, false, ROUND) == {"x"};
  }

  lemma {:induction false} RoundOldIs()
    ensures Shaped(RoundOld(), true, false) && Told(RoundOld(), {"x", Old.BREAK}, true, false, ROUND)
      && NoInnerLoop(RoundOld(), true)
    ensures Reads(RoundOld()) == {"x"} && Writes(RoundOld()) == {"x", Old.BREAK} && Old.Assigned(RoundOld()) == {"x"}
    ensures MayRead(RoundOld(), true, false, ROUND) == {"x"} && Old.HasBreak(RoundOld())
  {
    var leave, needs := [Old.BreakStmt], ROUND.(fall := {"x"});
    assert RoundOld()[1..] == StepOld() && leave[1..] == [] && |"x"| == 1 && Plain("x");
    StepOldIs();
    assert Old.Falls([], true, false) && Old.GoesOn(RoundOld()[0], true, false);
    assert Old.Assigned(leave) == {} && Reads(leave) == {} && Writes(leave) == {Old.BREAK}
      && Old.Exits(leave) == {Old.BREAK};
    assert MayRead(leave, true, false, needs) == {"x"} && MayRead([], true, false, needs) == {"x"};
    assert Shaped(leave, true, false) && Shaped([], true, false);
  }

  lemma {:induction false} ReturnOldIs()
    ensures Shaped(ReturnOld(), false, false) && Told(ReturnOld(), {}, false, false, VALUE)
      && NoInnerLoop(ReturnOld(), false)
    ensures MayRead(ReturnOld(), false, false, VALUE) == {"x"} && AfterReads(ReturnOld(), {}) == {"x"}
    ensures "x" !in Old.Assigned(ReturnOld())
  {
    assert ReturnOld()[1..] == [] && |"x"| == 1 && Plain("x");
    assert Reads(ReturnOld()) == {"x"};
  }

  /** A list with a loop at its head, and one with an assignment. */
  lemma LoopHead(l: seq<Old.Stmt>, after: set<Old.Name>, needs: Old.Needs)
    requires l != [] && l[0].While?
    requires Shaped(l[1..], false, false) && Shaped(l[0].body, true, false)
    requires NoInnerLoop(l[1..], false) && NoInnerLoop(l[0].body, true) && Told(l[1..], after, false, false, needs)
    requires var body, live, more := l[0].body, ReadAfter(l, false, false, needs), AfterReads(l[1..], after);
      var args := ArgNames(body, more);
      var round := RoundNeeds(body, args, live, needs);
      && Old.Assigned(body) * live <= args && MayRead(body, true, false, round) <= Reads(body)
      && Told(body, args, true, false, round)
    ensures Shaped(l, false, false) && NoInnerLoop(l, false) && Told(l, after, false, false, needs)
    ensures MayRead(l, false, false, needs) == Reads(l[0].body) + (ReadAfter(l, false, false, needs) -
      Old.Assigned(l[0].body))
  {
    hide ReadAfter, AfterReads, ArgNames, RoundNeeds, Reads, Old.Assigned, WritesOf;
  }

  lemma AssignHead(x: Old.Name, e: Old.Expr, rest: seq<Old.Stmt>, after: set<Old.Name>, needs: Old.Needs)
    requires Plain(x) && AllPlain(Old.Vars(e)) && Shaped(rest, false, false) && NoInnerLoop(rest, false)
    requires Told(rest, after, false, false, needs)
    ensures var l := [Old.Assign(x, e)] + rest;
      && Shaped(l, false, false) && NoInnerLoop(l, false) && Told(l, after, false, false, needs)
      && MayRead(l, false, false, needs) == MayRead(rest, false, false, needs) - {x} + Old.Vars(e)
  {
    assert ([Old.Assign(x, e)] + rest)[1..] == rest;
  }

  lemma {:induction false} LoopOldIs()
    ensures Shaped(LoopOld(), false, false) && Told(LoopOld(), {}, false, false, VALUE) && NoInnerLoop(LoopOld(), false)
    ensures MayRead(LoopOld(), false, false, VALUE) == {"x"}
  {
    hide Told, Shaped, NoInnerLoop, RoundOld, ReturnOld, MayRead, Old.Assigned, Old.HasBreak, Reads, Writes;
    RoundOldIs();
    ReturnOldIs();
    assert LoopOld()[1..] == ReturnOld() && LoopOld()[0] == Old.While(0, RoundOld(), [], [], []);
    assert Old.GoesOn(LoopOld()[0], false, false) && !Old.IsInnerLoop(LoopOld()[0], false);
    assert ReadAfter(LoopOld(), false, false, VALUE) == {"x"};
    assert ArgNames(RoundOld(), {"x"}) == {"x", Old.BREAK};
    assert RoundNeeds(RoundOld(), {"x", Old.BREAK}, {"x"}, VALUE) == ROUND by {
      assert |Old.RETVAL| > 1 && |Old.RETVAL| != |Old.BREAK|;
    }
    hide ArgNames, RoundNeeds, AfterReads, WritesOf, ReadAfter;
    LoopHead(LoopOld(), {}, VALUE);
  }

  lemma {:induction false} CountsDownOldIs()
    ensures Shaped(CountsDownOld(), false, false) && Told(CountsDownOld(), {}, false, false, VALUE)
    ensures MayRead(CountsDownOld(), false, false, VALUE) == {"n"} && NoInnerLoop(CountsDownOld(), false)
  {
    hide LoopOld, Told, MayRead, Shaped, NoInnerLoop;
    LoopOldIs();
    assert |"x"| == |"n"| == 1;
    AssignHead("x", Old.Var("n"), LoopOld(), {}, VALUE);
  }

  /** So the older translation of this function returns what the function returns, for every meaning of the operation
      and every rank. */
  lemma {:induction false} CountsDownIsTold(m: Old.Model, list: Listing, args: Old.Env, st: Old.RData)
    requires Lists(list) && Old.FlagsClear(args, false)
    ensures var noted := Annotate(CountsDownOld(), list, {"n"}, {}, false);
      var how := Old.Run(m, noted, args, st);
      var r := Old.Eval(m, Old.Translate(noted, [Old.RETVAL], false), args, st);
      (how.Returned? ==> r == Old.Result([Old.Get(how.env, Old.RETVAL)], how.st)) && (how.Undef? ==> r == Old.NoResult)
  {
    CountsDownOldIs();
    hide CountsDownOld, Annotate, Old.Run, Old.Eval, Old.Translate, Told, MayRead, Shaped, NoInnerLoop;
    var noted := Annotate(CountsDownOld(), list, {"n"}, {}, false);
    AnnotateNoInnerLoop(CountsDownOld(), list, {"n"}, {}, false, false);
    NeverMeets(m, noted, false, args, st);
    AnalysedFunctionRuns(m, list, CountsDownOld(), {"n"}, false, args, st);
  }

  /** A name set in an `if`, set again after it and only then read: the text tells what is read. */
  lemma {:induction false} DeadStoreIsTold()
    ensures var l := [Old.Branch(Old.Var("a"), [Old.Assign("x", Old.Const(1))], [], [], [])] + DeadStoreOn();
      Told(l, {}, false, false, VALUE) && MayRead(l, false, false, VALUE) == {"a"} && !Tidy(l, {}, false, false, VALUE)
  {
    ReturnOldIs();
    var on, sets := DeadStoreOn(), [Old.Assign("x", Old.Const(1))];
    var l := [Old.Branch(Old.Var("a"), sets, [], [], [])] + on;
    assert l[1..] == on && on[1..] == ReturnOld() && sets[1..] == [];
    assert Old.Falls([], false, false) && Old.GoesOn(l[0], false, false);
    assert MayRead(on, false, false, VALUE) == {} && Told(on, {}, false, false, VALUE);
    assert MayRead([], false, false, VALUE.(fall := {})) == {} && MayRead(sets, false, false, VALUE.(fall := {})) == {};
    assert "x" in Old.Assigned(sets) && "x" in Old.Assigned(on) && Reads(on) == {} && |"x"| != |Old.RETVAL|;
    assert "x" in (Old.Assigned(sets) + Old.Assigned([])) * Old.Assigned(on) - {Old.RETVAL};
  }

  function DeadStoreOn(): seq<Old.Stmt> {
    [Old.Assign("x", Old.Const(2))] + ReturnOld()
  }
}
