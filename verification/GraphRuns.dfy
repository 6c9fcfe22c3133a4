/** Running the control-flow graph edge by edge, without a word about regions, lists or loops: that is what running it
    by regions comes to. */
module GraphRuns {
  import opened Prelude
  import opened SpoqIR
  import opened Structuring

  /** Where a run stands: before a block, behind its instructions, or on an edge, the phi nodes at its end not yet
      set. */
  datatype Place =
    | Before(block: Block, env: Regs, st: RData)
    | Behind(block: Block, env: Regs, st: RData)
    | OnEdge(from: Block, to: Block, env: Regs, st: RData)
    | Ended(o: Outcome)

  function Step(m: Machine, g: Cfg, s: Place): Place {
    match s
    case Before(b, env, st) =>
      if b !in g.blocks || !Straight(g.blocks[b].insts) then Ended(Stuck)
      else (match RunInsts(m, g.blocks[b].insts, env, st)
            case Go(env', st') => Behind(b, env', st')
            case Halt(o) => Ended(o))
    case Behind(b, env, st) => if b in g.blocks then TakeBranch(g.blocks[b].term, b, env, st) else Ended(Stuck)
    case OnEdge(from, to, env, st) =>
      (match Transfer(PhisAt(g, to), from, env)
       case None => Ended(Stuck)
       case Some(env') => Before(to, env', st))
    case Ended(_) => s
  }

  function TakeBranch(term: Terminator, b: Block, env: Regs, st: RData): Place {
    match term
    case Br(t) => OnEdge(b, t, env, st)
    case CondBr(cond, yes, no) =>
      (match Read(cond, env)
       case None => Ended(Stuck)
       case Some(c) => OnEdge(b, if c != 0 then yes else no, env, st))
    case Ret(None) => Ended(Returned([], st))
    case Ret(Some(o)) =>
      (match Read(o, env)
       case None => Ended(Stuck)
       case Some(v) => Ended(Returned([v], st)))
    case NoReturn => Ended(Undefined)
  }

  function Steps(m: Machine, g: Cfg, n: nat, s: Place): Place {
    if n == 0 then s else Steps(m, g, n - 1, Step(m, g, s))
  }

  lemma {:induction false} StepsThen(m: Machine, g: Cfg, a: nat, b: nat, s: Place)
    ensures Steps(m, g, a + b, s) == Steps(m, g, b, Steps(m, g, a, s))
  {
    if a > 0 {
      StepsThen(m, g, a - 1, b, Step(m, g, s));
    }
  }

  lemma {:induction false} StaysEnded(m: Machine, g: Cfg, n: nat, o: Outcome)
    ensures Steps(m, g, n, Ended(o)) == Ended(o)
  {
    if n > 0 {
      StaysEnded(m, g, n - 1, o);
    }
  }

  lemma OverEdge(m: Machine, g: Cfg, k: nat, s: Place, from: Block, to: Block, env: Regs, env': Regs, st: RData)
    requires Steps(m, g, k, s) == OnEdge(from, to, env, st) && Transfer(PhisAt(g, to), from, env) == Some(env')
    ensures Steps(m, g, k + 1, s) == Before(to, env', st)
  {
    StepsThen(m, g, k, 1, s);
    assert Steps(m, g, 1, OnEdge(from, to, env, st)) == Step(m, g, OnEdge(from, to, env, st));
  }

  /** Phi nodes stand at headers and postheaders only, and no edge from inside a loop leads before it. */
  ghost predicate PhisAtLoops(g: Cfg, cur: Option<Block>, region: set<Block>)
    requires cur.Some? ==> HasHeader(g, cur.value)
  {
    && (cur.Some? ==> Header(g, cur.value) != g.jump[cur.value])
    && forall b :: b in region && b in g.blocks ==>
      && (IsNested(g, cur, b) ==> Some(g.jump[b]) != cur)
      && (!IsNested(g, cur, b) && cur != Some(b) ==>
            forall t :: t in Targets(g.blocks[b].term) && !IsBackward(g, cur, Some(b), t) && !IsExiting(g, cur, t) ==>
              PhisAt(g, t) == [] && Some(t) != cur)
  }

  ghost predicate LoopPhis(g: Cfg, loops: Loops) {
    forall pre :: HasHeader(g, pre) ==> pre in loops.region && PhisAtLoops(g, Some(pre), loops.region[pre])
  }

  /** The place at which running a region from `block`, come to from `parent`, begins. */
  function PlaceOf(g: Cfg, cur: Option<Block>, parent: Option<Block>, block: Block, env: Regs, st: RData): Place
    requires cur.Some? ==> HasHeader(g, cur.value)
  {
    if parent.Some? && parent != cur then OnEdge(parent.value, block, env, st)
    else if cur == Some(block) then Before(Header(g, block), env, st)
    else Before(block, env, st)
  }

  ghost predicate Reaches(m: Machine, g: Cfg, s: Place, place: Place) {
    exists k :: Steps(m, g, k, s) == place
  }

  ghost predicate GoesOnFor(m: Machine, g: Cfg, s: Place, least: nat) {
    forall k: nat :: k <= least ==> !Steps(m, g, k, s).Ended?
  }

  /** The run from `s` comes to where a region ends with `r`, and goes on for `least` steps at least if that has run
      out of fuel. */
  ghost predicate ComesTo(m: Machine, g: Cfg, cur: Option<Block>, s: Place, r: Outcome, least: nat)
    requires cur.Some? ==> HasHeader(g, cur.value)
  {
    match r
    case Continued(latch, env, st) => cur.Some? && Reaches(m, g, s, OnEdge(latch, Header(g, cur.value), env, st))
    case Broke(exiting, env, st) => cur.Some? && Reaches(m, g, s, OnEdge(exiting, g.jump[cur.value], env, st))
    case OutOfFuel => GoesOnFor(m, g, s, least)
    case Stuck => true
    case _ => Reaches(m, g, s, Ended(r))
  }

  lemma ReachesLater(m: Machine, g: Cfg, j: nat, s: Place, place: Place)
    requires Reaches(m, g, Steps(m, g, j, s), place)
    ensures Reaches(m, g, s, place)
  {
    var k: nat :| Steps(m, g, k, Steps(m, g, j, s)) == place;
    StepsThen(m, g, j, k, s);
    assert Steps(m, g, j + k, s) == place;
  }

  lemma GoesOnLater(m: Machine, g: Cfg, j: nat, s: Place, least: nat)
    requires GoesOnFor(m, g, Steps(m, g, j, s), least)
    ensures GoesOnFor(m, g, s, least + j)
  {
    var s' := Steps(m, g, j, s);
    forall k: nat | k <= least + j ensures !Steps(m, g, k, s).Ended? {
      if Steps(m, g, k, s).Ended? {
        var rest := least + j - k;
        StepsThen(m, g, k, rest, s);
        StaysEnded(m, g, rest, Steps(m, g, k, s).o);
        StepsThen(m, g, j, least, s);
        assert false;
      }
    }
  }

  lemma ComesLater(m: Machine, g: Cfg, cur: Option<Block>, j: nat, s: Place, r: Outcome, least: nat)
    requires (cur.Some? ==> HasHeader(g, cur.value)) && ComesTo(m, g, cur, Steps(m, g, j, s), r, least)
    ensures ComesTo(m, g, cur, s, r, least + j)
  {
    hide Steps, Reaches, GoesOnFor;
    match r
    case Continued(latch, env, st) => ReachesLater(m, g, j, s, OnEdge(latch, Header(g, cur.value), env, st));
    case Broke(exiting, env, st) => ReachesLater(m, g, j, s, OnEdge(exiting, g.jump[cur.value], env, st));
    case OutOfFuel => GoesOnLater(m, g, j, s, least);
    case Stuck =>
    case _ => ReachesLater(m, g, j, s, Ended(r));
  }

  /** What is asked of a place in a region at which a run is said to be. */
  ghost predicate IsPlace(g: Cfg, cur: Option<Block>, region: set<Block>, parent: Option<Block>, block: Block)
    requires cur.Some? ==> HasHeader(g, cur.value)
  {
    && (IsBackward(g, cur, parent, block) || IsExiting(g, cur, block) || block in region)
    && match parent
       case None => !IsBackward(g, cur, parent, block) && !IsExiting(g, cur, block)
       case Some(b) =>
         if parent == cur then block == Header(g, b)
         else b in region && b in g.blocks && !IsNested(g, cur, b) && block in Targets(g.blocks[b].term)
  }

  /** Running a region by blocks and inner loops is running the graph edge by edge. */
  lemma {:induction false} RegionRuns(m: Machine, g: Cfg, loops: Loops, fuel: nat, cur: Option<Block>,
                                      region: set<Block>, rank: map<Block, nat>, parent: Option<Block>, block: Block,
                                      env: Regs, st: RData)
    requires AllRegions(g, loops) && LoopPhis(g, loops) && Region(g, cur, region, rank) && PhisAtLoops(g, cur, region)
    requires IsPlace(g, cur, region, parent, block) && (cur.Some? ==> Header(g, cur.value) != cur.value)
    ensures ComesTo(m, g, cur, PlaceOf(g, cur, parent, block, env, st),
                    RunBlock(m, g, loops, fuel, cur, region, rank, parent, block, env, st), fuel + 1)
    decreases fuel, 1, if IsBackward(g, cur, parent, block) || IsExiting(g, cur, block) then 0 else rank[block] + 1, 2
  {
    hide Transfer, RunRound, RunInsts, AllRegions, LoopPhis;
    var s := PlaceOf(g, cur, parent, block, env, st);
    if IsBackward(g, cur, parent, block) || IsExiting(g, cur, block) {
      assert Steps(m, g, 0, s) == s;
    } else if cur == Some(block) {
      var header := Header(g, block);
      assert header in Targets(g.blocks[block].term) && !IsBackward(g, cur, cur, header) && !IsExiting(g, cur, header);
      RegionRuns(m, g, loops, fuel, cur, region, rank, cur, header, env, st);
      SkipsInsts(m, g, loops, fuel, region, rank, parent, block, env, st);
    } else {
      hide RunBlock, ComesTo;
      var j := if parent.Some? && parent != cur then 1 else 0;
      if j == 1 {
        NoPhis(g, block, parent.value, env);
      }
      assert Steps(m, g, j, s) == Before(block, env, st);
      FromBlock(m, g, loops, fuel, cur, region, rank, parent, block, env, st);
      ComesLater(m, g, cur, j, s, RunBlock(m, g, loops, fuel, cur, region, rank, parent, block, env, st), fuel + 1);
      MoreThan(m, g, cur, s, RunBlock(m, g, loops, fuel, cur, region, rank, parent, block, env, st), fuel + 1, j);
    }
  }

  /** Running a loop starts at its preheader, whose instructions have been run before. */
  lemma SkipsInsts(m: Machine, g: Cfg, loops: Loops, fuel: nat, region: set<Block>, rank: map<Block, nat>,
                   parent: Option<Block>, block: Block, env: Regs, st: RData)
    requires AllRegions(g, loops) && Region(g, Some(block), region, rank) && block in region
    requires !IsBackward(g, Some(block), parent, block) && !IsExiting(g, Some(block), block)
    requires !IsBackward(g, Some(block), Some(block), Header(g, block)) && !IsExiting(g, Some(block), Header(g, block))
    requires Header(g, block) in region
    ensures RunBlock(m, g, loops, fuel, Some(block), region, rank, parent, block, env, st) ==
      RunBlock(m, g, loops, fuel, Some(block), region, rank, Some(block), Header(g, block), env, st)
  {
    hide Transfer, RunRound, AllRegions, RunBlock;
    assert RunInsts(m, [], env, st) == Go(env, st);
    RunGoesOn(m, g, loops, fuel, Some(block), region, rank, parent, block, env, st, env, st);
  }

  lemma NoPhis(g: Cfg, block: Block, from: Block, env: Regs)
    requires PhisAt(g, block) == []
    ensures Transfer(PhisAt(g, block), from, env) == Some(env)
  {
    assert Incoming([], from) == [] && Dsts([]) == [];
    assert ReadAll([], env) == Some([]);
    assert SetAll(env, [], []) == env;
  }

  lemma MoreThan(m: Machine, g: Cfg, cur: Option<Block>, s: Place, r: Outcome, least: nat, j: nat)
    requires (cur.Some? ==> HasHeader(g, cur.value)) && ComesTo(m, g, cur, s, r, least + j)
    ensures ComesTo(m, g, cur, s, r, least)
  {
    hide Steps, Reaches;
  }

  lemma {:induction false} FromBlock(m: Machine, g: Cfg, loops: Loops, fuel: nat, cur: Option<Block>,
                                     region: set<Block>, rank: map<Block, nat>, parent: Option<Block>, block: Block,
                                     env: Regs, st: RData)
    requires AllRegions(g, loops) && LoopPhis(g, loops) && Region(g, cur, region, rank) && PhisAtLoops(g, cur, region)
    requires IsPlace(g, cur, region, parent, block) && (cur.Some? ==> Header(g, cur.value) != cur.value)
    requires cur != Some(block) && !IsBackward(g, cur, parent, block) && !IsExiting(g, cur, block)
    ensures ComesTo(m, g, cur, Before(block, env, st),
                    RunBlock(m, g, loops, fuel, cur, region, rank, parent, block, env, st), fuel + 1)
    decreases fuel, 1, rank[block] + 1, 1
  {
    hide Transfer, RunRound, RunInsts, AllRegions, LoopPhis, RunBlock, RunTail;
    var s := Before(block, env, st);
    var r := RunBlock(m, g, loops, fuel, cur, region, rank, parent, block, env, st);
    match RunInsts(m, g.blocks[block].insts, env, st)
    case Halt(o) =>
      Halts(m, g, loops, fuel, cur, region, rank, parent, block, env, st, o);
      assert Steps(m, g, 1, s) == Step(m, g, s);
    case Go(env', st') =>
      RunGoesOn(m, g, loops, fuel, cur, region, rank, parent, block, env, st, env', st');
      assert Steps(m, g, 1, s) == Behind(block, env', st');
      FromBranch(m, g, loops, fuel, cur, region, rank, parent, block, env', st');
      hide ComesTo;
      ComesLater(m, g, cur, 1, s, r, fuel);
  }

  lemma Halts(m: Machine, g: Cfg, loops: Loops, fuel: nat, cur: Option<Block>, region: set<Block>,
              rank: map<Block, nat>, parent: Option<Block>, block: Block, env: Regs, st: RData, o: Outcome)
    requires AllRegions(g, loops) && Region(g, cur, region, rank) && block in region
    requires cur != Some(block) && !IsBackward(g, cur, parent, block) && !IsExiting(g, cur, block)
    requires RunInsts(m, g.blocks[block].insts, env, st) == Halt(o)
    ensures RunBlock(m, g, loops, fuel, cur, region, rank, parent, block, env, st) == o
  {
    hide Transfer, RunRound, RunInsts, AllRegions;
  }

  lemma {:induction false} FromBranch(m: Machine, g: Cfg, loops: Loops, fuel: nat, cur: Option<Block>,
                                      region: set<Block>, rank: map<Block, nat>, parent: Option<Block>, block: Block,
                                      env: Regs, st: RData)
    requires AllRegions(g, loops) && LoopPhis(g, loops) && Region(g, cur, region, rank) && PhisAtLoops(g, cur, region)
    requires IsPlace(g, cur, region, parent, block) && (cur.Some? ==> Header(g, cur.value) != cur.value)
    requires cur != Some(block) && !IsBackward(g, cur, parent, block) && !IsExiting(g, cur, block)
    ensures ComesTo(m, g, cur, Behind(block, env, st),
                    RunTail(m, g, loops, fuel, cur, region, rank, block, env, st), fuel)
    decreases fuel, 1, rank[block] + 1, 0
  {
    hide Transfer, RunRound, RunInsts, AllRegions, LoopPhis, RunBlock;
    var s := Behind(block, env, st);
    var r := RunTail(m, g, loops, fuel, cur, region, rank, block, env, st);
    var next := Step(m, g, s);
    assert Steps(m, g, 1, s) == next;
    if IsNested(g, cur, block) {
      NestedRuns(m, g, loops, fuel, cur, region, rank, parent, block, env, st);
    } else if next.OnEdge? {
      RegionRuns(m, g, loops, fuel, cur, region, rank, Some(block), next.to, env, st);
      hide ComesTo;
      ComesLater(m, g, cur, 1, s, r, fuel + 1);
      MoreThan(m, g, cur, s, r, fuel, 2);
    }
  }

  lemma {:induction false} NestedRuns(m: Machine, g: Cfg, loops: Loops, fuel: nat, cur: Option<Block>,
                                      region: set<Block>, rank: map<Block, nat>, parent: Option<Block>, block: Block,
                                      env: Regs, st: RData)
    requires AllRegions(g, loops) && LoopPhis(g, loops) && Region(g, cur, region, rank) && PhisAtLoops(g, cur, region)
    requires IsPlace(g, cur, region, parent, block) && (cur.Some? ==> Header(g, cur.value) != cur.value)
    requires cur != Some(block) && !IsBackward(g, cur, parent, block) && !IsExiting(g, cur, block)
    requires IsNested(g, cur, block)
    ensures ComesTo(m, g, cur, Behind(block, env, st),
                    RunTail(m, g, loops, fuel, cur, region, rank, block, env, st), fuel)
    decreases fuel, 1, rank[block] + 1, 0, 1
  {
    hide Transfer, RunRound, RunInsts, AllRegions, LoopPhis, RunBlock, RunAfter, PhisAtLoops, Steps, RunTail, Region,
      ComesTo;
    var s := Behind(block, env, st);
    HeaderOf(g, cur, region, rank);
    RegionAt(g, cur, region, rank, block);
    NestedIs(m, g, loops, fuel, cur, region, rank, block, env, st);
    var start := Transfer(PhisAt(g, Header(g, block)), block, env);
    if start.Some? {
      LoopAt(g, loops, block);
      IntoLoop(m, g, block, env, start.value, st);
      RoundRuns(m, g, loops, fuel, block, start.value, st);
      var end := RunRound(m, g, loops, fuel, block, start.value, st);
      AfterLoopRuns(m, g, loops, fuel, cur, region, rank, parent, block, Before(Header(g, block), start.value, st),
        end);
      var r := RunAfter(m, g, loops, fuel, cur, region, rank, block, end);
      ComesLater(m, g, cur, 2, s, r, fuel);
      MoreThan(m, g, cur, s, r, fuel, 2);
    } else {
      StuckAnyway(m, g, cur, s, fuel);
    }
  }

  lemma NestedIs(m: Machine, g: Cfg, loops: Loops, fuel: nat, cur: Option<Block>, region: set<Block>,
                 rank: map<Block, nat>, block: Block, env: Regs, st: RData)
    requires AllRegions(g, loops) && Region(g, cur, region, rank) && block in region && IsNested(g, cur, block)
    requires HasHeader(g, block)
    ensures var start := Transfer(PhisAt(g, Header(g, block)), block, env);
      RunTail(m, g, loops, fuel, cur, region, rank, block, env, st) == if start.None? then Stuck
      else RunAfter(m, g, loops, fuel, cur, region, rank, block, RunRound(m, g, loops, fuel, block, start.value, st))
  {
    hide Transfer, RunRound, AllRegions, RunBlock, RunAfter;
  }

  lemma StuckAnyway(m: Machine, g: Cfg, cur: Option<Block>, s: Place, least: nat)
    requires cur.Some? ==> HasHeader(g, cur.value)
    ensures ComesTo(m, g, cur, s, Stuck, least)
  {
  }

  lemma IntoLoop(m: Machine, g: Cfg, block: Block, env: Regs, env': Regs, st: RData)
    requires HasHeader(g, block) && Transfer(PhisAt(g, Header(g, block)), block, env) == Some(env')
    ensures Steps(m, g, 2, Behind(block, env, st)) == Before(Header(g, block), env', st)
  {
    var s := Behind(block, env, st);
    assert Steps(m, g, 1, s) == Step(m, g, s);
    OverEdge(m, g, 1, s, block, Header(g, block), env, env', st);
  }

  lemma LoopAt(g: Cfg, loops: Loops, pre: Block)
    requires AllRegions(g, loops) && LoopPhis(g, loops) && HasHeader(g, pre)
    ensures HasRegion(g, loops, pre) && PhisAtLoops(g, Some(pre), loops.region[pre]) && Header(g, pre) != pre
  {
  }

  lemma {:induction false} AfterLoopRuns(m: Machine, g: Cfg, loops: Loops, fuel: nat, cur: Option<Block>,
                                         region: set<Block>, rank: map<Block, nat>, parent: Option<Block>,
                                         block: Block, s: Place, r: Outcome)
    requires AllRegions(g, loops) && LoopPhis(g, loops) && Region(g, cur, region, rank) && PhisAtLoops(g, cur, region)
    requires IsPlace(g, cur, region, parent, block) && (cur.Some? ==> Header(g, cur.value) != cur.value)
    requires cur != Some(block) && !IsBackward(g, cur, parent, block) && !IsExiting(g, cur, block)
    requires IsNested(g, cur, block) && ComesTo(m, g, Some(block), s, r, fuel)
    ensures ComesTo(m, g, cur, s, RunAfter(m, g, loops, fuel, cur, region, rank, block, r), fuel)
    decreases fuel, 1, rank[block] + 1, 0, 0
  {
    hide Transfer, RunRound, RunInsts, AllRegions, LoopPhis, RunBlock, Region;
    RegionAt(g, cur, region, rank, block);
    HeaderOf(g, cur, region, rank);
    assert Some(g.jump[block]) != cur;
    hide PhisAtLoops;
    if r.Broke? {
      hide Steps;
      var k: nat :| Steps(m, g, k, s) == OnEdge(r.exiting, g.jump[block], r.env, r.st);
      var after := Exit(g, block, r.exiting, r.env);
      if after.Some? {
        OverEdge(m, g, k, s, r.exiting, g.jump[block], r.env, after.value, r.st);
        RegionRuns(m, g, loops, fuel, cur, region, rank, None, g.jump[block], after.value, r.st);
        hide ComesTo;
        var end := RunBlock(m, g, loops, fuel, cur, region, rank, None, g.jump[block], after.value, r.st);
        ComesLater(m, g, cur, k + 1, s, end, fuel + 1);
        MoreThan(m, g, cur, s, end, fuel, k + 2);
      }
    }
  }

  lemma RoundIs(m: Machine, g: Cfg, loops: Loops, fuel: nat, pre: Block, env: Regs, st: RData)
    requires AllRegions(g, loops) && HasHeader(g, pre) && fuel > 0
    requires pre in loops.region && pre in loops.rank && Region(g, Some(pre), loops.region[pre], loops.rank[pre])
    requires IsPlace(g, Some(pre), loops.region[pre], None, pre)
    ensures var r :=
        RunBlock(m, g, loops, fuel - 1, Some(pre), loops.region[pre], loops.rank[pre], None, pre, env, st);
      RunRound(m, g, loops, fuel, pre, env, st) == match r
        case Continued(latch, env', st') =>
          var next := Transfer(PhisAt(g, Header(g, pre)), latch, env');
          if next.None? then Stuck else RunRound(m, g, loops, fuel - 1, pre, next.value, st')
        case r => r
  {
    hide Transfer, RunInsts, RunBlock;
  }

  /** And so are the rounds of a loop, its phi nodes set from the latch each time. */
  lemma {:induction false} RoundRuns(m: Machine, g: Cfg, loops: Loops, fuel: nat, pre: Block, env: Regs, st: RData)
    requires AllRegions(g, loops) && LoopPhis(g, loops) && HasHeader(g, pre)
    ensures ComesTo(m, g, Some(pre), Before(Header(g, pre), env, st), RunRound(m, g, loops, fuel, pre, env, st), fuel)
    decreases fuel, 0
  {
    hide Transfer, RunInsts, AllRegions, LoopPhis, RunBlock, Region, PhisAtLoops, HasRegion, Steps, RunRound, ComesTo;
    var s := Before(Header(g, pre), env, st);
    if fuel == 0 {
      NoRound(m, g, loops, pre, env, st);
    } else {
      LoopIs(g, loops, pre);
      RoundIs(m, g, loops, fuel, pre, env, st);
      var region, rank := loops.region[pre], loops.rank[pre];
      var r := RunBlock(m, g, loops, fuel - 1, Some(pre), region, rank, None, pre, env, st);
      RegionRuns(m, g, loops, fuel - 1, Some(pre), region, rank, None, pre, env, st);
      if r.Continued? {
        AgainRuns(m, g, loops, fuel - 1, pre, s, r);
      }
    }
  }

  lemma LoopIs(g: Cfg, loops: Loops, pre: Block)
    requires AllRegions(g, loops) && LoopPhis(g, loops) && HasHeader(g, pre)
    ensures pre in loops.region && pre in loops.rank && Region(g, Some(pre), loops.region[pre], loops.rank[pre])
    ensures PhisAtLoops(g, Some(pre), loops.region[pre]) && IsPlace(g, Some(pre), loops.region[pre], None, pre)
      && Header(g, pre) != pre
  {
    hide Region, PhisAtLoops;
  }

  lemma NoRound(m: Machine, g: Cfg, loops: Loops, pre: Block, env: Regs, st: RData)
    requires AllRegions(g, loops) && HasHeader(g, pre)
    ensures ComesTo(m, g, Some(pre), Before(Header(g, pre), env, st), RunRound(m, g, loops, 0, pre, env, st), 0)
  {
    hide AllRegions;
  }

  lemma {:induction false} AgainRuns(m: Machine, g: Cfg, loops: Loops, fuel: nat, pre: Block, s: Place, r: Outcome)
    requires AllRegions(g, loops) && LoopPhis(g, loops) && HasHeader(g, pre)
    requires r.Continued? && ComesTo(m, g, Some(pre), s, r, fuel + 1)
    ensures var next := Transfer(PhisAt(g, Header(g, pre)), r.latch, r.env);
      ComesTo(m, g, Some(pre), s,
        if next.None? then Stuck else RunRound(m, g, loops, fuel, pre, next.value, r.st), fuel + 1)
    decreases fuel, 1
  {
    hide Transfer, RunInsts, AllRegions, LoopPhis, RunBlock, RunRound, Steps;
    var next := Transfer(PhisAt(g, Header(g, pre)), r.latch, r.env);
    if next.Some? {
      var k: nat :| Steps(m, g, k, s) == OnEdge(r.latch, Header(g, pre), r.env, r.st);
      OverEdge(m, g, k, s, r.latch, Header(g, pre), r.env, next.value, r.st);
      RoundRuns(m, g, loops, fuel, pre, next.value, r.st);
      hide ComesTo;
      var end := RunRound(m, g, loops, fuel, pre, next.value, r.st);
      ComesLater(m, g, Some(pre), k + 1, s, end, fuel);
      MoreThan(m, g, Some(pre), s, end, fuel + 1, k);
    }
  }

  lemma OneEnd(m: Machine, g: Cfg, a: nat, b: nat, s: Place)
    requires Steps(m, g, a, s).Ended? && Steps(m, g, b, s).Ended?
    ensures Steps(m, g, a, s) == Steps(m, g, b, s)
  {
    var lo, hi := if a <= b then a else b, if a <= b then b else a;
    StepsThen(m, g, lo, hi - lo, s);
    StaysEnded(m, g, hi - lo, Steps(m, g, lo, s).o);
  }

  /** A whole function: its run ends as running it by regions does, and takes more steps than there was fuel if that
      was not enough. */
  lemma FunctionRuns(m: Machine, g: Cfg, loops: Loops, fuel: nat, region: set<Block>, rank: map<Block, nat>,
                     entry: Block, env: Regs, st: RData)
    requires AllRegions(g, loops) && LoopPhis(g, loops) && Region(g, None, region, rank)
    requires PhisAtLoops(g, None, region) && entry in region
    ensures var r := RunBlock(m, g, loops, fuel, None, region, rank, None, entry, env, st);
      match r
      case OutOfFuel => GoesOnFor(m, g, Before(entry, env, st), fuel)
      case Stuck => true
      case _ => (r.Returned? || r.Undefined?) && Reaches(m, g, Before(entry, env, st), Ended(r))
  {
    hide RunBlock, AllRegions, LoopPhis, PhisAtLoops, Region, Steps, Reaches;
    RegionRuns(m, g, loops, fuel, None, region, rank, None, entry, env, st);
  }
}
