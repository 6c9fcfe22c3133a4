/** The two translations in a row: from the control-flow graph to the specification terms. */
module Frontend {
  import opened Prelude
  import opened SpoqIR
  import opened Structuring
  import opened GraphRuns
  import opened LoopLowering
  import opened NeverStuck

  /** The specification of a function computes what its graph computes, whatever the loops do and for however
      many rounds: unless a register without a value is read, both return the same, or both are undefined. */
  lemma GraphToSpecification(m: Machine, g: Cfg, loops: Loops, infos: map<Block, LoopInfo>, region: set<Block>,
                             rank: map<Block, nat>, fuel: nat, entry: Block, args: seq<Reg>, vals: seq<int>, st: RData)
    requires AllRegions(g, loops) && Region(g, None, region, rank) && entry in region
    requires |args| == |vals| && NoDup(args)
    requires var p := ProgramOf(g, loops, infos);
      LoopsShaped(p) && LoopsFramed(p) && LoopsScoped(p)
    requires Scoped(ProgramOf(g, loops, infos), Structure(g, None, region, rank, None, entry), (set r | r in args),
      None)
    requires !Exec(m, ProgramOf(g, loops, infos), fuel, Structure(g, None, region, rank, None, entry),
      SetAll(map[], args, vals), st).Stuck?
    ensures var p := ProgramOf(g, loops, infos);
      var spec := Eval(m, Defs(p), fuel, Lower(p, Structure(g, None, region, rank, None, entry), None),
        ArgEnv(args, vals), st);
      match RunBlock(m, g, loops, fuel, None, region, rank, None, entry, SetAll(map[], args, vals), st)
      case Returned(rets, st') => spec == Done(rets, st')
      case Undefined => spec == IsNone
      case OutOfFuel => spec == NoFuel
      case _ => false
  {
    hide Exec, RunBlock, Structure, Lower, Eval, LoopsShaped, LoopsFramed, LoopsScoped, Scoped, ProgramOf, AllRegions,
      Region, SetAll, ArgEnv;
    var p, env := ProgramOf(g, loops, infos), SetAll(map[], args, vals);
    var top := Structure(g, None, region, rank, None, entry);
    DfsFaithful(false, m, g, loops, infos, fuel, None, region, rank, None, entry, env, env, st);
    FunctionCorrect(m, p, fuel, top, args, vals, st);
  }

  /** That no register without a value is read can be told from the lists: it is enough that they read only what is
      known, and after a loop only what the loop has set whichever way it has been left. */
  lemma SureSpecification(m: Machine, g: Cfg, loops: Loops, infos: map<Block, LoopInfo>, region: set<Block>,
                          rank: map<Block, nat>, fuel: nat, entry: Block, args: seq<Reg>, vals: seq<int>, st: RData)
    requires AllRegions(g, loops) && Region(g, None, region, rank) && entry in region
    requires |args| == |vals| && NoDup(args)
    requires var p := ProgramOf(g, loops, infos);
      LoopsShaped(p) && LoopsFramed(p) && LoopsScoped(p) && LoopsSure(p)
    requires var p, top := ProgramOf(g, loops, infos), Structure(g, None, region, rank, None, entry);
      Scoped(p, top, (set r | r in args), None) && Sure(p, top, (set r | r in args), None)
    ensures var p := ProgramOf(g, loops, infos);
      var spec := Eval(m, Defs(p), fuel, Lower(p, Structure(g, None, region, rank, None, entry), None),
        ArgEnv(args, vals), st);
      match RunBlock(m, g, loops, fuel, None, region, rank, None, entry, SetAll(map[], args, vals), st)
      case Returned(rets, st') => spec == Done(rets, st')
      case Undefined => spec == IsNone
      case OutOfFuel => spec == NoFuel
      case _ => false
  {
    hide Exec, RunBlock, Structure, Lower, Eval, LoopsShaped, LoopsFramed, LoopsScoped, LoopsSure, Scoped, Sure,
      ProgramOf, AllRegions;
    hide Region, SetAll, ArgEnv, StaysInLoop;
    var p, env, top := ProgramOf(g, loops, infos), SetAll(map[], args, vals),
      Structure(g, None, region, rank, None, entry);
    ArgsAreSet(args, vals);
    SureRuns(m, p, fuel, top, None, (set r | r in args), env, st);
    GraphToSpecification(m, g, loops, infos, region, rank, fuel, entry, args, vals, st);
  }

  lemma ArgsAreSet(args: seq<Reg>, vals: seq<int>)
    requires |args| == |vals|
    ensures (set r | r in args) <= SetAll(map[], args, vals).Keys
  {
  }

  /** When no loop is left with registers forgotten, the scoping of the lists is all that is asked for: graph and
      specification come to the same end, and the graph reads no register without a value. */
  lemma {:induction false} GraphIsSpecification(m: Machine, g: Cfg, loops: Loops, infos: map<Block, LoopInfo>,
                                                region: set<Block>, rank: map<Block, nat>, fuel: nat, entry: Block,
                                                args: seq<Reg>, vals: seq<int>, st: RData)
    requires AllRegions(g, loops) && Region(g, None, region, rank) && entry in region && NothingForgotten(g, infos)
    requires |args| == |vals| && NoDup(args)
    requires var p := ProgramOf(g, loops, infos);
      LoopsShaped(p) && LoopsFramed(p) && LoopsScoped(p)
    requires Scoped(ProgramOf(g, loops, infos), Structure(g, None, region, rank, None, entry), (set r | r in args),
      None)
    ensures var p := ProgramOf(g, loops, infos);
      var spec := Eval(m, Defs(p), fuel, Lower(p, Structure(g, None, region, rank, None, entry), None),
        ArgEnv(args, vals), st);
      match RunBlock(m, g, loops, fuel, None, region, rank, None, entry, SetAll(map[], args, vals), st)
      case Returned(rets, st') => spec == Done(rets, st')
      case Undefined => spec == IsNone
      case OutOfFuel => spec == NoFuel
      case _ => false
  {
    hide Exec, RunBlock, Structure, Lower, Eval, LoopsShaped, LoopsFramed, LoopsScoped, LoopsSure, Scoped, Sure,
      ProgramOf, AllRegions;
    hide Region, SetAll, ArgEnv, NothingForgotten;
    var p := ProgramOf(g, loops, infos);
    UndefEmpty(g, loops, infos);
    AllSure(p);
    ScopedIsSure(p, Structure(g, None, region, rank, None, entry), (set r | r in args), None);
    SureSpecification(m, g, loops, infos, region, rank, fuel, entry, args, vals, st);
  }

  lemma UndefEmpty(g: Cfg, loops: Loops, infos: map<Block, LoopInfo>)
    requires AllRegions(g, loops) && NothingForgotten(g, infos)
    ensures var p := ProgramOf(g, loops, infos); forall pre :: pre in p ==> p[pre].undef == map[]
  {
  }

  lemma AllSure(p: Program)
    requires LoopsScoped(p) && forall pre :: pre in p ==> p[pre].undef == map[]
    ensures LoopsSure(p)
  {
    hide Scoped, Sure;
    forall pre | pre in p ensures Sure(p, p[pre].body, Bodies(p[pre]), Some(pre)) {
      ScopedIsSure(p, p[pre].body, Bodies(p[pre]), Some(pre));
    }
  }

  /** Fuel only bounds how long graph and specification are run: once the graph has come to an end, the specification
      comes to the same end with any fuel that is enough for it, and as much as the graph has had is enough. */
  lemma {:induction false} AnyFuel(m: Machine, g: Cfg, loops: Loops, infos: map<Block, LoopInfo>, region: set<Block>,
                                   rank: map<Block, nat>, fuel: nat, other: nat, entry: Block, args: seq<Reg>,
                                   vals: seq<int>, st: RData)
    requires AllRegions(g, loops) && Region(g, None, region, rank) && entry in region
    requires |args| == |vals| && NoDup(args)
    requires var p := ProgramOf(g, loops, infos);
      LoopsShaped(p) && LoopsFramed(p) && LoopsScoped(p)
    requires Scoped(ProgramOf(g, loops, infos), Structure(g, None, region, rank, None, entry), (set r | r in args),
      None)
    requires !Exec(m, ProgramOf(g, loops, infos), fuel, Structure(g, None, region, rank, None, entry),
      SetAll(map[], args, vals), st).Stuck?
    ensures var p := ProgramOf(g, loops, infos);
      var spec := Eval(m, Defs(p), other, Lower(p, Structure(g, None, region, rank, None, entry), None),
        ArgEnv(args, vals), st);
      var how := RunBlock(m, g, loops, fuel, None, region, rank, None, entry, SetAll(map[], args, vals), st);
      && (other >= fuel && how != OutOfFuel ==> spec != NoFuel)
      && (spec != NoFuel ==>
            match how
            case Returned(rets, st') => spec == Done(rets, st')
            case Undefined => spec == IsNone
            case how => how.OutOfFuel?)
  {
    hide Exec, RunBlock, Structure, Lower, Eval, LoopsShaped, LoopsFramed, LoopsScoped, Scoped, ProgramOf, AllRegions,
      Region, SetAll,
         ArgEnv;
    var p, env := ProgramOf(g, loops, infos), SetAll(map[], args, vals);
    var top := Structure(g, None, region, rank, None, entry);
    DfsFaithful(false, m, g, loops, infos, fuel, None, region, rank, None, entry, env, env, st);
    FunctionCorrect(m, p, other, top, args, vals, st);
    if other >= fuel {
      if Exec(m, p, fuel, top, env, st) != OutOfFuel {
        MoreFuel(m, p, fuel, other, top, env, st);
      }
    } else if Exec(m, p, other, top, env, st) != OutOfFuel {
      MoreFuel(m, p, other, fuel, top, env, st);
    }
  }

  /** The same without a word about regions: what the graph, run edge by edge, ends with is what the specification
      gives, with any fuel if it gives anything, and with at least as much fuel as the run has steps in any case. */
  lemma RunToSpecification(m: Machine, g: Cfg, loops: Loops, infos: map<Block, LoopInfo>, region: set<Block>,
                           rank: map<Block, nat>, fuel: nat, entry: Block, args: seq<Reg>, vals: seq<int>, st: RData)
    requires AllRegions(g, loops) && Region(g, None, region, rank) && entry in region
    requires LoopPhis(g, loops) && PhisAtLoops(g, None, region) && |args| == |vals| && NoDup(args)
    requires var p := ProgramOf(g, loops, infos);
      LoopsShaped(p) && LoopsFramed(p) && LoopsScoped(p)
    requires Scoped(ProgramOf(g, loops, infos), Structure(g, None, region, rank, None, entry), (set r | r in args),
      None)
    requires !Exec(m, ProgramOf(g, loops, infos), fuel, Structure(g, None, region, rank, None, entry),
      SetAll(map[], args, vals), st).Stuck?
    ensures var p := ProgramOf(g, loops, infos);
      var spec := Eval(m, Defs(p), fuel, Lower(p, Structure(g, None, region, rank, None, entry), None),
        ArgEnv(args, vals), st);
      var start := Before(entry, SetAll(map[], args, vals), st);
      && (spec.Done? || spec.IsNone? || spec.NoFuel?)
      && (spec != NoFuel ==> exists n :: Steps(m, g, n, start).Ended?)
      && forall n: nat :: Steps(m, g, n, start).Ended? && (n <= fuel || spec != NoFuel) ==>
           match Steps(m, g, n, start).o
           case Returned(rets, st') => spec == Done(rets, st')
           case Undefined => spec == IsNone
           case _ => false
  {
    var env, p := SetAll(map[], args, vals), ProgramOf(g, loops, infos);
    var start := Before(entry, env, st);
    hide Exec, RunBlock, Structure, Lower, Eval, LoopsShaped, LoopsFramed, LoopsScoped, Scoped, ProgramOf, AllRegions,
      Region, SetAll, ArgEnv, LoopPhis, PhisAtLoops, Steps;
    GraphToSpecification(m, g, loops, infos, region, rank, fuel, entry, args, vals, st);
    FunctionRuns(m, g, loops, fuel, region, rank, entry, env, st);
    var spec := Eval(m, Defs(p), fuel, Lower(p, Structure(g, None, region, rank, None, entry), None),
      ArgEnv(args, vals), st);
    if spec != NoFuel {
      var k: nat :| Steps(m, g, k, start).Ended?;
      forall n: nat | Steps(m, g, n, start).Ended? ensures Steps(m, g, n, start) == Steps(m, g, k, start) {
        OneEnd(m, g, n, k, start);
      }
    }
  }
}
