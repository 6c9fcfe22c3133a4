/** From a tree-shaped control-flow graph to structured lists, one list for the function and one for each loop.

    A region is walked depth-first.  An edge back to the loop header becomes `continue`, an edge to the
    postheader becomes `break`, and a nested loop becomes one instruction followed by what its postheader
    leads to. */
module Structuring {
  import opened Prelude
  import opened SpoqIR

  datatype Terminator =
    | Br(target: Block)
    | CondBr(cond: Operand, yes: Block, no: Block)
    | Ret(val: Option<Operand>)
    | NoReturn

  /** The instructions of a block are operations only; phi nodes are listed in `Cfg.phis`. */
  datatype BasicBlock = BasicBlock(insts: seq<Inst>, term: Terminator)

  /** `jump` leads from each preheader to its postheader. */
  datatype Cfg = Cfg(blocks: map<Block, BasicBlock>, phis: map<Block, seq<Phi>>, jump: map<Block, Block>)

  /** What other analyses have found out about a loop. */
  datatype LoopInfo = LoopInfo(passIn: seq<Reg>, passOut: seq<Reg>, undef: map<Block, set<Reg>>, regs: set<Reg>)

  function Targets(t: Terminator): set<Block> {
    match t
    case Br(b) => {b}
    case CondBr(_, yes, no) => {yes, no}
    case _ => {}
  }

  /** The loop header is the one successor of the preheader. */
  predicate HasHeader(g: Cfg, pre: Block) {
    pre in g.blocks && pre in g.jump && g.blocks[pre].term.Br?
  }

  function Header(g: Cfg, pre: Block): Block
    requires HasHeader(g, pre)
  {
    g.blocks[pre].term.target
  }

  predicate IsBackward(g: Cfg, cur: Option<Block>, parent: Option<Block>, block: Block)
    requires cur.Some? ==> HasHeader(g, cur.value)
  {
    cur.Some? && parent != cur && block == Header(g, cur.value)
  }

  predicate IsExiting(g: Cfg, cur: Option<Block>, block: Block)
    requires cur.Some? ==> HasHeader(g, cur.value)
  {
    cur.Some? && block == g.jump[cur.value]
  }

  predicate IsNested(g: Cfg, cur: Option<Block>, block: Block) {
    block in g.jump && cur != Some(block)
  }

  predicate Straight(l: seq<Inst>) {
    forall i :: 0 <= i < |l| ==> l[i].Pure? || l[i].Effect?
  }

  /** `region` holds the blocks of the loop `cur`, or of the function outside of any loop, and `rank` shows
      that its edges, other than back and exiting ones, do not form a cycle. */
  ghost predicate Region(g: Cfg, cur: Option<Block>, region: set<Block>, rank: map<Block, nat>) {
    && (cur.Some? ==> HasHeader(g, cur.value))
    && forall b :: b in region ==>
      && b in g.blocks && b in rank && Straight(g.blocks[b].insts)
      && (IsNested(g, cur, b) ==>
            && HasHeader(g, b) && g.jump[b] in region && g.jump[b] in rank && rank[g.jump[b]] < rank[b]
            && !IsBackward(g, cur, None, g.jump[b]) && !IsExiting(g, cur, g.jump[b]))
      && (!IsNested(g, cur, b) ==>
            forall t :: t in Targets(g.blocks[b].term) && !IsBackward(g, cur, Some(b), t) && !IsExiting(g, cur, t) ==>
              t in region && t in rank && rank[t] < rank[b])
  }

  /** `dfs_llvm_ir_to_spoq_inst_vec`. */
  function Structure(g: Cfg, cur: Option<Block>, ghost region: set<Block>, ghost rank: map<Block, nat>,
                     parent: Option<Block>, block: Block): seq<Inst>
    requires Region(g, cur, region, rank)
    requires IsBackward(g, cur, parent, block) || IsExiting(g, cur, block) || block in region
    requires parent.None? ==> !IsBackward(g, cur, parent, block) && !IsExiting(g, cur, block)
    decreases if IsBackward(g, cur, parent, block) || IsExiting(g, cur, block) then 0 else rank[block] + 1
  {
    if IsBackward(g, cur, parent, block) then [Continue(parent.value)]
    else if IsExiting(g, cur, block) then [Break(parent.value)]
    else if IsNested(g, cur, block) then
      g.blocks[block].insts + [Loop(block)] + Structure(g, cur, region, rank, None, g.jump[block])
    else
      (if cur == Some(block) then [] else g.blocks[block].insts) +
      match g.blocks[block].term
      case Br(t) => Structure(g, cur, region, rank, Some(block), t)
      case CondBr(cond, yes, no) =>
        [If(cond, Structure(g, cur, region, rank, Some(block), yes), Structure(g, cur, region, rank, Some(block), no))]
      case Ret(val) => [Return(val)]
      case NoReturn => [Unreachable]
  }

  /** The shape every consumer of a list relies on: control comes last, and does come. */
  predicate ControlLast(l: seq<Inst>) {
    l != [] && if l[0].Pure? || l[0].Effect? || l[0].Loop? then ControlLast(l[1..])
      else |l| == 1 && (l[0].If? ==> ControlLast(l[0].thn) && ControlLast(l[0].els))
  }

  lemma {:induction false} ControlLastAfter(a: seq<Inst>, b: seq<Inst>)
    requires (forall i :: 0 <= i < |a| ==> a[i].Pure? || a[i].Effect? || a[i].Loop?) && ControlLast(b)
    ensures ControlLast(a + b)
  {
    if a == [] {
      assert a + b == b;
    } else {
      ControlLastAfter(a[1..], b);
      assert (a + b)[1..] == a[1..] + b;
    }
  }

  lemma {:induction false} StructureControlLast(g: Cfg, cur: Option<Block>, region: set<Block>, rank: map<Block, nat>,
                                                parent: Option<Block>, block: Block)
    requires Region(g, cur, region, rank)
    requires IsBackward(g, cur, parent, block) || IsExiting(g, cur, block) || block in region
    requires parent.None? ==> !IsBackward(g, cur, parent, block) && !IsExiting(g, cur, block)
    ensures ControlLast(Structure(g, cur, region, rank, parent, block))
    decreases if IsBackward(g, cur, parent, block) || IsExiting(g, cur, block) then 0 else rank[block] + 1
  {
    if IsBackward(g, cur, parent, block) || IsExiting(g, cur, block) {
    } else if IsNested(g, cur, block) {
      StructureControlLast(g, cur, region, rank, None, g.jump[block]);
      ControlLastAfter(g.blocks[block].insts + [Loop(block)], Structure(g, cur, region, rank, None, g.jump[block]));
    } else {
      var insts := if cur == Some(block) then [] else g.blocks[block].insts;
      match g.blocks[block].term
      case Br(t) =>
        StructureControlLast(g, cur, region, rank, Some(block), t);
        ControlLastAfter(insts, Structure(g, cur, region, rank, Some(block), t));
      case CondBr(cond, yes, no) =>
        StructureControlLast(g, cur, region, rank, Some(block), yes);
        StructureControlLast(g, cur, region, rank, Some(block), no);
        ControlLastAfter(insts, [If(cond, Structure(g, cur, region, rank, Some(block), yes),
          Structure(g, cur, region, rank, Some(block), no))]);
      case Ret(val) => ControlLastAfter(insts, [Return(val)]);
      case NoReturn => ControlLastAfter(insts, [Unreachable]);
    }
  }

  // ---------- running the graph itself

  datatype Straightened = Go(env: Regs, st: RData) | Halt(o: Outcome)

  function RunInsts(m: Machine, l: seq<Inst>, env: Regs, st: RData): (r: Straightened)
    requires Straight(l)
    ensures r.Halt? ==> r.o == Stuck || r.o == Undefined
  {
    if l == [] then Go(env, st)
    else
      var vals := ReadAll(l[0].args, env);
      if vals.None? then Halt(Stuck)
      else match l[0]
        case Pure(dst, op, _) => RunInsts(m, l[1..], env[dst := m.pure(op, vals.value)], st)
        case Effect(result, op, _) =>
          var r := m.effect(op, vals.value, st);
          if r.None? then Halt(Undefined)
          else RunInsts(m, l[1..], if result.Some? then env[result.value := r.value.0] else env, r.value.1)
  }

  /** The registers after the edge from `exiting` to the postheader: all stay readable. */
  function Exit(g: Cfg, pre: Block, exiting: Block, env: Regs): Option<Regs>
    requires pre in g.jump
  {
    Transfer(PhisAt(g, g.jump[pre]), exiting, env)
  }

  function PhisAt(g: Cfg, b: Block): seq<Phi> {
    if b in g.phis then g.phis[b] else []
  }

  datatype Loops = Loops(region: map<Block, set<Block>>, rank: map<Block, map<Block, nat>>)

  /** Every loop has a region. */
  ghost predicate AllRegions(g: Cfg, loops: Loops) {
    forall pre :: pre in g.jump && HasHeader(g, pre) ==> HasRegion(g, loops, pre)
  }

  ghost predicate HasRegion(g: Cfg, loops: Loops, pre: Block)
    requires HasHeader(g, pre)
  {
    && pre in loops.region && pre in loops.rank && pre in loops.region[pre]
       && Region(g, Some(pre), loops.region[pre], loops.rank[pre])
    && !IsExiting(g, Some(pre), pre) && Header(g, pre) != pre
  }

  /** Runs the graph from `block`, entered from `parent`, until the loop `cur` is gone round or left. */
  ghost function RunBlock(m: Machine, g: Cfg, loops: Loops, fuel: nat, cur: Option<Block>, region: set<Block>,
                          rank: map<Block, nat>, parent: Option<Block>, block: Block, env: Regs, st: RData): Outcome
    requires AllRegions(g, loops) && Region(g, cur, region, rank)
    requires IsBackward(g, cur, parent, block) || IsExiting(g, cur, block) || block in region
    requires parent.None? ==> !IsBackward(g, cur, parent, block) && !IsExiting(g, cur, block)
    decreases fuel, 1, if IsBackward(g, cur, parent, block) || IsExiting(g, cur, block) then 0 else rank[block] + 1
  {
    if IsBackward(g, cur, parent, block) then Continued(parent.value, env, st)
    else if IsExiting(g, cur, block) then Broke(parent.value, env, st)
    else match RunInsts(m, if cur == Some(block) then [] else g.blocks[block].insts, env, st)
      case Halt(o) => o
      case Go(env, st) =>
        if IsNested(g, cur, block) then
          var start := Transfer(PhisAt(g, Header(g, block)), block, env);
          if start.None? then Stuck
          else match RunRound(m, g, loops, fuel, block, start.value, st)
            case Broke(exiting, env', st') =>
              var after := Exit(g, block, exiting, env');
              if after.None? then Stuck
              else RunBlock(m, g, loops, fuel, cur, region, rank, None, g.jump[block], after.value, st')
            case Undefined => Undefined
            case OutOfFuel => OutOfFuel
            case _ => Stuck
        else match g.blocks[block].term
          case Br(t) => RunBlock(m, g, loops, fuel, cur, region, rank, Some(block), t, env, st)
          case CondBr(cond, yes, no) =>
            var c := Read(cond, env);
            if c.None? then Stuck
            else RunBlock(m, g, loops, fuel, cur, region, rank, Some(block), if c.value != 0 then yes else no, env, st)
          case Ret(None) => Returned([], st)
          case Ret(Some(o)) =>
            var v := Read(o, env);
            if v.None? then Stuck else Returned([v.value], st)
          case NoReturn => Undefined
  }

  /** Runs a loop from its preheader's branch, the header's phi nodes set already, until it is left. */
  ghost function RunRound(m: Machine, g: Cfg, loops: Loops, fuel: nat, pre: Block, env: Regs, st: RData): Outcome
    requires AllRegions(g, loops) && HasHeader(g, pre)
    decreases fuel, 0
  {
    if fuel == 0 then OutOfFuel
    else match RunBlock(m, g, loops, fuel - 1, Some(pre), loops.region[pre], loops.rank[pre], None, pre, env, st)
      case Continued(latch, env', st') =>
        var next := Transfer(PhisAt(g, Header(g, pre)), latch, env');
        if next.None? then Stuck else RunRound(m, g, loops, fuel - 1, pre, next.value, st')
      case r => r
  }

  // ---------- the list does what the graph does

  /** The list of a loop, walked from its preheader. */
  ghost function LoopBody(g: Cfg, loops: Loops, pre: Block): seq<Inst>
    requires AllRegions(g, loops) && HasHeader(g, pre)
  {
    Structure(g, Some(pre), loops.region[pre], loops.rank[pre], None, pre)
  }

  /** `llvm_ir_to_spoq_ir`: the list of every loop. */
  ghost function ProgramOf(g: Cfg, loops: Loops, infos: map<Block, LoopInfo>): Program
    requires AllRegions(g, loops)
  {
    map pre | pre in g.jump && HasHeader(g, pre) && pre in infos ::
      LoopDef(infos[pre].passIn, PhisAt(g, Header(g, pre)), infos[pre].passOut, PhisAt(g, g.jump[pre]),
        infos[pre].undef, infos[pre].regs,
              LoopBody(g, loops, pre))
  }

  ghost predicate Sub(a: Regs, b: Regs) {
    forall r :: r in a ==> r in b && b[r] == a[r]
  }

  /** Every loop is known, and no register is forgotten as a loop is left. */
  ghost predicate NothingForgotten(g: Cfg, infos: map<Block, LoopInfo>) {
    forall pre :: pre in g.jump && HasHeader(g, pre) ==> pre in infos && infos[pre].undef == map[]
  }

  ghost predicate Close(exact: bool, a: Regs, b: Regs) {
    if exact then a == b else Sub(a, b)
  }

  /** The list may forget registers that have no value on the way taken, and gets stuck if it needs them;
      apart from that it ends as the graph does, from the same latch or exiting block.  If nothing is forgotten
      both end in exactly the same way. */
  ghost predicate Refines(exact: bool, l: Outcome, c: Outcome) {
    if exact then l == c
    else match l
      case Stuck => true
      case Continued(latch, env, st) => c.Continued? && c.latch == latch && c.st == st && Sub(env, c.env)
      case Broke(exiting, env, st) => c.Broke? && c.exiting == exiting && c.st == st && Sub(env, c.env)
      case _ => c == l
  }

  lemma ReadAllSub(os: seq<Operand>, a: Regs, b: Regs)
    requires Sub(a, b) && ReadAll(os, a).Some?
    ensures ReadAll(os, b) == ReadAll(os, a)
  {
    if os != [] {
      ReadAllSub(os[..|os| - 1], a, b);
    }
  }

  lemma TransferSub(phis: seq<Phi>, from: Block, a: Regs, b: Regs)
    requires Sub(a, b) && Transfer(phis, from, a).Some?
    ensures Transfer(phis, from, b).Some? && Sub(Transfer(phis, from, a).value, Transfer(phis, from, b).value)
  {
    ReadAllSub(Incoming(phis, from), a, b);
  }

  lemma LeaveSub(g: Cfg, pre: Block, ld: LoopDef, exiting: Block, a: Regs, b: Regs)
    requires Sub(a, b) && pre in g.jump && ld.postPhis == PhisAt(g, g.jump[pre]) && Leave(ld, exiting, a).Some?
    ensures Exit(g, pre, exiting, b).Some? && Sub(Leave(ld, exiting, a).value, Exit(g, pre, exiting, b).value)
  {
    ReadAllSub(Incoming(ld.postPhis, exiting), a, b);
  }

  lemma LeaveAll(g: Cfg, pre: Block, ld: LoopDef, exiting: Block, env: Regs)
    requires pre in g.jump && ld.postPhis == PhisAt(g, g.jump[pre]) && ld.undef == map[]
    ensures Leave(ld, exiting, env) == Exit(g, pre, exiting, env)
  {
    assert env - UndefAt(ld, exiting) == env;
  }

  lemma {:induction false} RunInstsSub(m: Machine, l: seq<Inst>, a: Regs, b: Regs, st: RData)
    requires Straight(l) && Sub(a, b)
    ensures match RunInsts(m, l, a, st)
      case Go(env, st') =>
        RunInsts(m, l, b, st).Go? && RunInsts(m, l, b, st).st == st' && Sub(env, RunInsts(m, l, b, st).env)
      case Halt(o) => o == Stuck || RunInsts(m, l, b, st) == Halt(o)
  {
    if l != [] && ReadAll(l[0].args, a).Some? {
      ReadAllSub(l[0].args, a, b);
      var vals := ReadAll(l[0].args, a).value;
      match l[0]
      case Pure(dst, op, _) =>
        RunInstsSub(m, l[1..], a[dst := m.pure(op, vals)], b[dst := m.pure(op, vals)], st);
      case Effect(result, op, _) =>
        var r := m.effect(op, vals, st);
        if r.Some? {
          RunInstsSub(m, l[1..], if result.Some? then a[result.value := r.value.0] else a,
                      if result.Some? then b[result.value := r.value.0] else b, r.value.1);
        }
    }
  }

  lemma {:induction false} ExecInsts(m: Machine, p: Program, fuel: nat, a: seq<Inst>, rest: seq<Inst>, env: Regs,
                                     st: RData)
    requires Straight(a)
    ensures Exec(m, p, fuel, a + rest, env, st) ==
      match RunInsts(m, a, env, st)
      case Go(env', st') => Exec(m, p, fuel, rest, env', st')
      case Halt(o) => o
  {
    if a == [] {
      assert a + rest == rest;
    } else {
      assert (a + rest)[1..] == a[1..] + rest && (a + rest)[0] == a[0];
      if ReadAll(a[0].args, env).Some? {
        var vals := ReadAll(a[0].args, env).value;
        match a[0]
        case Pure(dst, op, _) =>
          ExecInsts(m, p, fuel, a[1..], rest, env[dst := m.pure(op, vals)], st);
        case Effect(result, op, _) =>
          var r := m.effect(op, vals, st);
          if r.Some? {
            ExecInsts(m, p, fuel, a[1..], rest, if result.Some? then env[result.value := r.value.0] else env,
              r.value.1);
          }
      }
    }
  }

  /** Executing the list built from a block simulates running the graph from that block. */
  lemma {:induction false} DfsFaithful(exact: bool, m: Machine, g: Cfg, loops: Loops, infos: map<Block, LoopInfo>,
                                       fuel: nat, cur: Option<Block>, region: set<Block>, rank: map<Block, nat>,
                                       parent: Option<Block>, block: Block, a: Regs, b: Regs, st: RData)
    requires AllRegions(g, loops) && Region(g, cur, region, rank) && Close(exact, a, b)
      && (exact ==> NothingForgotten(g, infos))
    requires IsBackward(g, cur, parent, block) || IsExiting(g, cur, block) || block in region
    requires parent.None? ==> !IsBackward(g, cur, parent, block) && !IsExiting(g, cur, block)
    ensures Refines(exact, Exec(m, ProgramOf(g, loops, infos), fuel, Structure(g, cur, region, rank, parent, block),
      a, st),
                    RunBlock(m, g, loops, fuel, cur, region, rank, parent, block, b, st))
    decreases fuel, 1, if IsBackward(g, cur, parent, block) || IsExiting(g, cur, block) then 0 else rank[block] + 1, 1
  {
    hide RunInsts, Structure, Transfer, RunRound, RunLoop, Exit, AllRegions;
    var p := ProgramOf(g, loops, infos);
    if IsBackward(g, cur, parent, block) || IsExiting(g, cur, block) {
      StopFaithful(exact, m, g, loops, infos, fuel, cur, region, rank, parent, block, a, b, st);
    } else {
      hide Exec, RunBlock, Refines;
      var insts := if cur == Some(block) then [] else g.blocks[block].insts;
      var rest := Tail(g, cur, region, rank, block);
      StructureIsTail(g, cur, region, rank, parent, block);
      ExecInsts(m, p, fuel, insts, rest, a, st);
      RunInstsSub(m, insts, a, b, st);
      match RunInsts(m, insts, a, st)
      case Halt(o) =>
        HaltFaithful(exact, m, g, loops, fuel, cur, region, rank, parent, block, b, st, o);
      case Go(a', st') =>
        var b' := RunInsts(m, insts, b, st).env;
        TailFaithful(exact, m, g, loops, infos, fuel, cur, region, rank, parent, block, a', b', st');
        RunGoesOn(m, g, loops, fuel, cur, region, rank, parent, block, b, st, b', st');
    }
  }

  lemma {:induction false} StopFaithful(exact: bool, m: Machine, g: Cfg, loops: Loops, infos: map<Block, LoopInfo>,
                                        fuel: nat, cur: Option<Block>, region: set<Block>, rank: map<Block, nat>,
                                        parent: Option<Block>, block: Block, a: Regs, b: Regs, st: RData)
    requires AllRegions(g, loops) && Region(g, cur, region, rank) && Close(exact, a, b)
      && (exact ==> NothingForgotten(g, infos))
    requires IsBackward(g, cur, parent, block) || IsExiting(g, cur, block) || block in region
    requires parent.None? ==> !IsBackward(g, cur, parent, block) && !IsExiting(g, cur, block)
    requires IsBackward(g, cur, parent, block) || IsExiting(g, cur, block)
    ensures Refines(exact, Exec(m, ProgramOf(g, loops, infos), fuel, Structure(g, cur, region, rank, parent, block),
      a, st),
                    RunBlock(m, g, loops, fuel, cur, region, rank, parent, block, b, st))
  {
    hide Transfer, RunRound, RunLoop, RunInsts, Exit, AllRegions;
  }

  /** What comes after the instructions of a block. */
  ghost function Tail(g: Cfg, cur: Option<Block>, region: set<Block>, rank: map<Block, nat>, block: Block): seq<Inst>
    requires Region(g, cur, region, rank) && block in region
  {
    if IsNested(g, cur, block) then [Loop(block)] + Structure(g, cur, region, rank, None, g.jump[block])
    else match g.blocks[block].term
      case Br(t) => Structure(g, cur, region, rank, Some(block), t)
      case CondBr(cond, yes, no) =>
        [If(cond, Structure(g, cur, region, rank, Some(block), yes), Structure(g, cur, region, rank, Some(block), no))]
      case Ret(val) => [Return(val)]
      case NoReturn => [Unreachable]
  }

  lemma StructureIsTail(g: Cfg, cur: Option<Block>, region: set<Block>, rank: map<Block, nat>, parent: Option<Block>,
                        block: Block)
    requires Region(g, cur, region, rank) && block in region && !IsBackward(g, cur, parent, block)
      && !IsExiting(g, cur, block)
    ensures Structure(g, cur, region, rank, parent, block) ==
      (if cur == Some(block) then [] else g.blocks[block].insts) + Tail(g, cur, region, rank, block)
  {
    if IsNested(g, cur, block) {
      var s := Structure(g, cur, region, rank, None, g.jump[block]);
      assert g.blocks[block].insts + [Loop(block)] + s == g.blocks[block].insts + ([Loop(block)] + s);
    }
  }

  /** Runs the graph from the end of the instructions of a block. */
  ghost function RunTail(m: Machine, g: Cfg, loops: Loops, fuel: nat, cur: Option<Block>, region: set<Block>,
                         rank: map<Block, nat>, block: Block, env: Regs, st: RData): Outcome
    requires AllRegions(g, loops) && Region(g, cur, region, rank) && block in region
  {
    if IsNested(g, cur, block) then
      var start := Transfer(PhisAt(g, Header(g, block)), block, env);
      if start.None? then Stuck
      else RunAfter(m, g, loops, fuel, cur, region, rank, block, RunRound(m, g, loops, fuel, block, start.value, st))
    else match g.blocks[block].term
      case Br(t) => RunBlock(m, g, loops, fuel, cur, region, rank, Some(block), t, env, st)
      case CondBr(cond, yes, no) =>
        var c := Read(cond, env);
        if c.None? then Stuck
        else RunBlock(m, g, loops, fuel, cur, region, rank, Some(block), if c.value != 0 then yes else no, env, st)
      case Ret(None) => Returned([], st)
      case Ret(Some(o)) =>
        var v := Read(o, env);
        if v.None? then Stuck else Returned([v.value], st)
      case NoReturn => Undefined
  }

  ghost function RunAfter(m: Machine, g: Cfg, loops: Loops, fuel: nat, cur: Option<Block>, region: set<Block>,
                          rank: map<Block, nat>, block: Block, r: Outcome): Outcome
    requires AllRegions(g, loops) && Region(g, cur, region, rank) && block in region && IsNested(g, cur, block)
  {
    match r
    case Broke(exiting, env', st') =>
      var after := Exit(g, block, exiting, env');
      if after.None? then Stuck
      else RunBlock(m, g, loops, fuel, cur, region, rank, None, g.jump[block], after.value, st')
    case Undefined => Undefined
    case OutOfFuel => OutOfFuel
    case _ => Stuck
  }

  lemma {:induction false} RunGoesOn(m: Machine, g: Cfg, loops: Loops, fuel: nat, cur: Option<Block>,
                                     region: set<Block>, rank: map<Block, nat>, parent: Option<Block>, block: Block,
                                     env: Regs, st: RData, env': Regs, st': RData)
    requires AllRegions(g, loops) && Region(g, cur, region, rank) && block in region
    requires !IsBackward(g, cur, parent, block) && !IsExiting(g, cur, block)
    requires RunInsts(m, if cur == Some(block) then [] else g.blocks[block].insts, env, st) == Go(env', st')
    ensures RunBlock(m, g, loops, fuel, cur, region, rank, parent, block, env, st) ==
      RunTail(m, g, loops, fuel, cur, region, rank, block, env', st')
  {
    hide Transfer, RunRound, RunInsts, Exit, AllRegions;
  }

  lemma {:induction false} HaltFaithful(exact: bool, m: Machine, g: Cfg, loops: Loops, fuel: nat, cur: Option<Block>,
                                        region: set<Block>, rank: map<Block, nat>, parent: Option<Block>,
                                        block: Block, b: Regs, st: RData, o: Outcome)
    requires AllRegions(g, loops) && Region(g, cur, region, rank) && block in region
    requires !IsBackward(g, cur, parent, block) && !IsExiting(g, cur, block)
    requires (o == Stuck && !exact) || ((o == Stuck || o == Undefined)
      && RunInsts(m, if cur == Some(block) then [] else g.blocks[block].insts, b, st) == Halt(o))
    ensures Refines(exact, o, RunBlock(m, g, loops, fuel, cur, region, rank, parent, block, b, st))
  {
    hide Transfer, RunRound, RunInsts, Exit, AllRegions;
  }

  lemma {:induction false} TailFaithful(exact: bool, m: Machine, g: Cfg, loops: Loops, infos: map<Block, LoopInfo>,
                                        fuel: nat, cur: Option<Block>, region: set<Block>, rank: map<Block, nat>,
                                        parent: Option<Block>, block: Block, a: Regs, b: Regs, st: RData)
    requires AllRegions(g, loops) && Region(g, cur, region, rank) && Close(exact, a, b)
      && (exact ==> NothingForgotten(g, infos)) && block in region
    requires !IsBackward(g, cur, parent, block) && !IsExiting(g, cur, block)
    ensures Refines(exact, Exec(m, ProgramOf(g, loops, infos), fuel, Tail(g, cur, region, rank, block), a, st),
                    RunTail(m, g, loops, fuel, cur, region, rank, block, b, st))
    decreases fuel, 1, if IsBackward(g, cur, parent, block) || IsExiting(g, cur, block) then 0 else rank[block] + 1,
      0, 2
  {
    hide *;
    if IsNested(g, cur, block) {
      NestedFaithful(exact, m, g, loops, infos, fuel, cur, region, rank, parent, block, a, b, st);
    } else {
      BranchFaithful(exact, m, g, loops, infos, fuel, cur, region, rank, parent, block, a, b, st);
    }
  }

  lemma {:induction false} BranchFaithful(exact: bool, m: Machine, g: Cfg, loops: Loops, infos: map<Block, LoopInfo>,
                                          fuel: nat, cur: Option<Block>, region: set<Block>, rank: map<Block, nat>,
                                          parent: Option<Block>, block: Block, a: Regs, b: Regs, st: RData)
    requires AllRegions(g, loops) && Region(g, cur, region, rank) && Close(exact, a, b)
      && (exact ==> NothingForgotten(g, infos)) && block in region && !IsNested(g, cur, block)
    requires !IsBackward(g, cur, parent, block) && !IsExiting(g, cur, block)
    ensures Refines(exact, Exec(m, ProgramOf(g, loops, infos), fuel, Tail(g, cur, region, rank, block), a, st),
                    RunTail(m, g, loops, fuel, cur, region, rank, block, b, st))
    decreases fuel, 1, if IsBackward(g, cur, parent, block) || IsExiting(g, cur, block) then 0 else rank[block] + 1,
      0, 0
  {
    hide Exec, RunInsts, Structure, Transfer, RunRound, RunLoop, Exit, AllRegions, RunBlock, RunAfter, ProgramOf,
      NothingForgotten;
    var p := ProgramOf(g, loops, infos);
    match g.blocks[block].term
    case Br(t) =>
      DfsFaithful(exact, m, g, loops, infos, fuel, cur, region, rank, Some(block), t, a, b, st);
    case CondBr(cond, yes, no) =>
      ExecIf(m, p, fuel, cond, Structure(g, cur, region, rank, Some(block), yes),
        Structure(g, cur, region, rank, Some(block), no), a, st);
      if Read(cond, a).Some? {
        DfsFaithful(exact, m, g, loops, infos, fuel, cur, region, rank, Some(block),
          if Read(cond, a).value != 0 then yes else no, a, b, st);
      }
    case Ret(val) =>
      ExecEnd(m, p, fuel, val, a, st);
    case NoReturn =>
      ExecEnd(m, p, fuel, None, a, st);
  }

  lemma ExecIf(m: Machine, p: Program, fuel: nat, cond: Operand, thn: seq<Inst>, els: seq<Inst>, env: Regs, st: RData)
    ensures Exec(m, p, fuel, [If(cond, thn, els)], env, st) ==
      match Read(cond, env)
      case None => Stuck
      case Some(c) => Exec(m, p, fuel, if c != 0 then thn else els, env, st)
  {
  }

  lemma ExecEnd(m: Machine, p: Program, fuel: nat, val: Option<Operand>, env: Regs, st: RData)
    ensures Exec(m, p, fuel, [Unreachable], env, st) == Undefined
    ensures Exec(m, p, fuel, [Return(val)], env, st) ==
      match val
      case None => Returned([], st)
      case Some(o) => if Read(o, env).None? then Stuck else Returned([Read(o, env).value], st)
  {
  }

  lemma {:induction false} NestedFaithful(exact: bool, m: Machine, g: Cfg, loops: Loops, infos: map<Block, LoopInfo>,
                                          fuel: nat, cur: Option<Block>, region: set<Block>, rank: map<Block, nat>,
                                          parent: Option<Block>, block: Block, a: Regs, b: Regs, st: RData)
    requires AllRegions(g, loops) && Region(g, cur, region, rank) && Close(exact, a, b)
      && (exact ==> NothingForgotten(g, infos)) && block in region && IsNested(g, cur, block)
    requires !IsBackward(g, cur, parent, block) && !IsExiting(g, cur, block)
    ensures Refines(exact, Exec(m, ProgramOf(g, loops, infos), fuel, Tail(g, cur, region, rank, block), a, st),
                    RunTail(m, g, loops, fuel, cur, region, rank, block, b, st))
    decreases fuel, 1, if IsBackward(g, cur, parent, block) || IsExiting(g, cur, block) then 0 else rank[block] + 1,
      0, 1
  {
    hide Exec, RunBlock, RunInsts, Structure, Transfer, Leave, Exit, RunRound, RunLoop, ProgramOf, RunAfter, ExecAfter;
    var p := ProgramOf(g, loops, infos);
    LoopOf(g, loops, infos, block);
    var l := Tail(g, cur, region, rank, block);
    var rest := Structure(g, cur, region, rank, None, g.jump[block]);
    assert l[0] == Loop(block) && l[1..] == rest;
    if block !in infos {
      LoopUnknown(m, p, fuel, l, a, st);
    } else {
      var ld := p[block];
      ExecLoop(m, p, fuel, l, a, st);
      if Transfer(ld.headerPhis, block, a).Some? {
        TransferSub(ld.headerPhis, block, a, b);
        var a', b' := Transfer(ld.headerPhis, block, a).value, Transfer(ld.headerPhis, block, b).value;
        RoundFaithful(exact, m, g, loops, infos, fuel, block, a', b', st);
        AfterFaithful(exact, m, g, loops, infos, fuel, cur, region, rank, parent, block,
                      RunLoop(m, p, fuel, block, a', st), RunRound(m, g, loops, fuel, block, b', st));
      }
    }
  }

  lemma {:induction false} AfterFaithful(exact: bool, m: Machine, g: Cfg, loops: Loops, infos: map<Block, LoopInfo>,
                                         fuel: nat, cur: Option<Block>, region: set<Block>, rank: map<Block, nat>,
                                         parent: Option<Block>, block: Block, r: Outcome, r': Outcome)
    requires AllRegions(g, loops) && Region(g, cur, region, rank) && block in region && IsNested(g, cur, block)
      && block in infos
    requires !IsBackward(g, cur, parent, block) && !IsExiting(g, cur, block) && Refines(exact, r, r')
      && (exact ==> NothingForgotten(g, infos))
    ensures block in ProgramOf(g, loops, infos)
    ensures var p := ProgramOf(g, loops, infos);
      Refines(exact, ExecAfter(m, p, fuel, p[block], Structure(g, cur, region, rank, None, g.jump[block]), r),
              RunAfter(m, g, loops, fuel, cur, region, rank, block, r'))
    decreases fuel, 1, if IsBackward(g, cur, parent, block) || IsExiting(g, cur, block) then 0 else rank[block] + 1,
      0, 0
  {
    hide Exec, RunBlock, Structure, Leave, Exit, ProgramOf, AllRegions;
    LoopOf(g, loops, infos, block);
    var ld := ProgramOf(g, loops, infos)[block];
    if exact && r.Broke? {
      LeaveAll(g, block, ld, r.exiting, r.env);
    }
    if r.Broke? && Leave(ld, r.exiting, r.env).Some? {
      LeaveSub(g, block, ld, r.exiting, r.env, r'.env);
      DfsFaithful(exact, m, g, loops, infos, fuel, cur, region, rank, None, g.jump[block],
                  Leave(ld, r.exiting, r.env).value, Exit(g, block, r.exiting, r'.env).value, r.st);
    }
  }

  lemma RegionOf(g: Cfg, loops: Loops, pre: Block)
    requires AllRegions(g, loops) && HasHeader(g, pre)
    ensures HasRegion(g, loops, pre)
  {
    hide Region, IsExiting, Header;
  }

  lemma LoopOf(g: Cfg, loops: Loops, infos: map<Block, LoopInfo>, pre: Block)
    requires AllRegions(g, loops) && pre in g.jump && HasHeader(g, pre)
    ensures pre in ProgramOf(g, loops, infos) <==> pre in infos
    ensures pre in infos ==> var ld := ProgramOf(g, loops, infos)[pre];
      && ld.headerPhis == PhisAt(g, Header(g, pre)) && ld.postPhis == PhisAt(g, g.jump[pre])
         && ld.undef == infos[pre].undef
      && ld.body == Structure(g, Some(pre), loops.region[pre], loops.rank[pre], None, pre)
  {
    hide Structure;
  }

  /** The rest of a round, given how the body has ended. */
  ghost function NextRound(m: Machine, g: Cfg, loops: Loops, fuel: nat, pre: Block, o: Outcome): Outcome
    requires AllRegions(g, loops) && HasHeader(g, pre)
  {
    match o
    case Continued(latch, env, st) =>
      var next := Transfer(PhisAt(g, Header(g, pre)), latch, env);
      if next.None? then Stuck else RunRound(m, g, loops, fuel, pre, next.value, st)
    case _ => o
  }

  lemma RoundStep(m: Machine, g: Cfg, loops: Loops, fuel: nat, pre: Block, env: Regs, st: RData)
    requires AllRegions(g, loops) && HasHeader(g, pre) && fuel > 0
    ensures RunRound(m, g, loops, fuel, pre, env, st) == NextRound(m, g, loops, fuel - 1, pre,
      RunBlock(m, g, loops, fuel - 1, Some(pre), loops.region[pre], loops.rank[pre], None, pre, env, st))
  {
    hide RunBlock, Transfer;
  }

  lemma RunLoopStep(m: Machine, p: Program, fuel: nat, pre: Block, env: Regs, st: RData)
    requires pre in p && fuel > 0
    ensures var o := Exec(m, p, fuel - 1, p[pre].body, env, st);
      RunLoop(m, p, fuel, pre, env, st) ==
        if o.Continued? then
          var next := Transfer(p[pre].headerPhis, o.latch, o.env);
          if next.None? then Stuck else RunLoop(m, p, fuel - 1, pre, next.value, o.st)
        else o
  {
    hide Exec, Transfer;
  }

  lemma LoopUnknown(m: Machine, p: Program, fuel: nat, l: seq<Inst>, env: Regs, st: RData)
    requires l != [] && l[0].Loop? && l[0].preheader !in p
    ensures Exec(m, p, fuel, l, env, st) == Stuck
  {
  }

  lemma {:induction false} RoundFaithful(exact: bool, m: Machine, g: Cfg, loops: Loops, infos: map<Block, LoopInfo>,
                                         fuel: nat, pre: Block, a: Regs, b: Regs, st: RData)
    requires AllRegions(g, loops) && HasHeader(g, pre) && pre in infos && Close(exact, a, b)
      && (exact ==> NothingForgotten(g, infos))
    ensures Refines(exact, RunLoop(m, ProgramOf(g, loops, infos), fuel, pre, a, st),
      RunRound(m, g, loops, fuel, pre, b, st))
    decreases fuel, 0
  {
    hide Exec, RunBlock, RunRound, RunLoop, RunInsts, Structure, Transfer, ProgramOf, AllRegions;
    if fuel > 0 {
      RegionOf(g, loops, pre);
      var p := ProgramOf(g, loops, infos);
      LoopOf(g, loops, infos, pre);
      var o := Exec(m, p, fuel - 1, p[pre].body, a, st);
      var o' := RunBlock(m, g, loops, fuel - 1, Some(pre), loops.region[pre], loops.rank[pre], None, pre, b, st);
      DfsFaithful(exact, m, g, loops, infos, fuel - 1, Some(pre), loops.region[pre], loops.rank[pre], None, pre, a, b,
        st);
      RoundStep(m, g, loops, fuel, pre, b, st);
      RunLoopStep(m, p, fuel, pre, a, st);
      if o.Continued? && Transfer(p[pre].headerPhis, o.latch, o.env).Some? {
        TransferSub(p[pre].headerPhis, o.latch, o.env, o'.env);
        RoundFaithful(exact, m, g, loops, infos, fuel - 1, pre, Transfer(p[pre].headerPhis, o.latch, o.env).value,
                      Transfer(p[pre].headerPhis, o.latch, o'.env).value, o.st);
      }
    } else {
      LoopOf(g, loops, infos, pre);
      NoFuelLeft(m, g, loops, ProgramOf(g, loops, infos), pre, a, b, st);
    }
  }

  lemma NoFuelLeft(m: Machine, g: Cfg, loops: Loops, p: Program, pre: Block, a: Regs, b: Regs, st: RData)
    requires AllRegions(g, loops) && HasHeader(g, pre) && pre in p
    ensures RunLoop(m, p, 0, pre, a, st) == RunRound(m, g, loops, 0, pre, b, st) == OutOfFuel
  {
  }

  // ---------- the walk itself

  /** Appends to `vec0` what is run from `block` on. */
  method Dfs(g: Cfg, cur: Option<Block>, ghost region: set<Block>, ghost rank: map<Block, nat>, parent: Option<Block>,
             block: Block, vec0: seq<Inst>)
    returns (vec: seq<Inst>)
    requires Region(g, cur, region, rank)
    requires IsBackward(g, cur, parent, block) || IsExiting(g, cur, block) || block in region
    requires parent.None? ==> !IsBackward(g, cur, parent, block) && !IsExiting(g, cur, block)
    ensures vec == vec0 + Structure(g, cur, region, rank, parent, block)
    decreases if IsBackward(g, cur, parent, block) || IsExiting(g, cur, block) then 0 else rank[block] + 1
  {
    hide Structure, Region;
    HeaderOf(g, cur, region, rank);
    if IsBackward(g, cur, parent, block) {
      StructureStops(g, cur, region, rank, parent, block);
      return vec0 + [Continue(parent.value)];
    }
    if IsExiting(g, cur, block) {
      StructureStops(g, cur, region, rank, parent, block);
      return vec0 + [Break(parent.value)];
    }
    RegionAt(g, cur, region, rank, block);
    var insts := if cur == Some(block) then [] else g.blocks[block].insts;
    vec := PushAll(vec0, insts);
    ghost var tail := Tail(g, cur, region, rank, block);
    StructureIsTail(g, cur, region, rank, parent, block);
    Append(vec0, insts, tail);
    ghost var before := vec;
    if IsNested(g, cur, block) {
      vec := Dfs(g, cur, region, rank, None, g.jump[block], vec + [Loop(block)]);
      Append(before, [Loop(block)], Structure(g, cur, region, rank, None, g.jump[block]));
    } else {
      match g.blocks[block].term
      case Br(t) => vec := Dfs(g, cur, region, rank, Some(block), t, vec);
      case CondBr(cond, yes, no) =>
        var thn := Dfs(g, cur, region, rank, Some(block), yes, []);
        var els := Dfs(g, cur, region, rank, Some(block), no, []);
        assert thn == Structure(g, cur, region, rank, Some(block), yes)
          && els == Structure(g, cur, region, rank, Some(block), no);
        vec := vec + [If(cond, thn, els)];
      case Ret(val) => vec := vec + [Return(val)];
      case NoReturn => vec := vec + [Unreachable];
    }
    hide Structure, Region;
    assert vec == before + tail;
  }

  method PushAll(vec0: seq<Inst>, insts: seq<Inst>) returns (vec: seq<Inst>)
    ensures vec == vec0 + insts
  {
    vec := vec0;
    for i := 0 to |insts|
      invariant vec == vec0 + insts[..i]
    {
      vec := vec + [insts[i]];
    }
  }

  lemma StructureStops(g: Cfg, cur: Option<Block>, region: set<Block>, rank: map<Block, nat>, parent: Option<Block>,
                       block: Block)
    requires Region(g, cur, region, rank)
    requires IsBackward(g, cur, parent, block) || IsExiting(g, cur, block)
    requires parent.None? ==> !IsBackward(g, cur, parent, block) && !IsExiting(g, cur, block)
    ensures Structure(g, cur, region, rank, parent, block) ==
      [if IsBackward(g, cur, parent, block) then Continue(parent.value) else Break(parent.value)]
  {
    hide Region;
  }

  lemma HeaderOf(g: Cfg, cur: Option<Block>, region: set<Block>, rank: map<Block, nat>)
    requires Region(g, cur, region, rank)
    ensures cur.Some? ==> HasHeader(g, cur.value)
  {
  }

  lemma RegionAt(g: Cfg, cur: Option<Block>, region: set<Block>, rank: map<Block, nat>, b: Block)
    requires Region(g, cur, region, rank) && b in region
    ensures b in g.blocks && b in rank && Straight(g.blocks[b].insts)
    ensures IsNested(g, cur, b) ==>
            && HasHeader(g, b) && g.jump[b] in region && g.jump[b] in rank && rank[g.jump[b]] < rank[b]
            && !IsBackward(g, cur, None, g.jump[b]) && !IsExiting(g, cur, g.jump[b])
    ensures !IsNested(g, cur, b) ==>
      forall t :: t in Targets(g.blocks[b].term) && !IsBackward(g, cur, Some(b), t) && !IsExiting(g, cur, t) ==>
        t in region && t in rank && rank[t] < rank[b]
  {
  }

  lemma Append(a: seq<Inst>, b: seq<Inst>, c: seq<Inst>)
    ensures a + b + c == a + (b + c)
  {
  }

  /** The list of one loop. */
  method LoopInsts(g: Cfg, ghost loops: Loops, pre: Block) returns (body: seq<Inst>)
    requires AllRegions(g, loops) && HasHeader(g, pre)
    ensures body == LoopBody(g, loops, pre) && ControlLast(body)
  {
    hide Structure, Region, ControlLast;
    RegionOf(g, loops, pre);
    body := Dfs(g, Some(pre), loops.region[pre], loops.rank[pre], None, pre, []);
    StructureControlLast(g, Some(pre), loops.region[pre], loops.rank[pre], None, pre);
  }

  /** Translates the function, then its loops one after the other, in whatever order they are stepped through. */
  method LlvmIrToSpoqIr(g: Cfg, entry: Block, steps: seq<Block>, ghost region: set<Block>,
                        ghost rank: map<Block, nat>, ghost loops: Loops)
    returns (top: seq<Inst>, loopInsts: map<Block, seq<Inst>>)
    requires AllRegions(g, loops) && Region(g, None, region, rank) && entry in region
    requires forall pre :: pre in steps ==> HasHeader(g, pre)
    ensures top == Structure(g, None, region, rank, None, entry) && ControlLast(top)
    ensures forall pre :: pre in loopInsts <==> pre in steps
    ensures forall pre :: pre in steps ==> loopInsts[pre] == LoopBody(g, loops, pre) && ControlLast(loopInsts[pre])
  {
    hide Structure, Region, ControlLast, LoopBody;
    top := Dfs(g, None, region, rank, None, entry, []);
    StructureControlLast(g, None, region, rank, None, entry);
    loopInsts := map[];
    for i := 0 to |steps|
      invariant forall k :: 0 <= k < i ==> steps[k] in loopInsts
      invariant forall pre :: pre in loopInsts ==>
        pre in steps && loopInsts[pre] == LoopBody(g, loops, pre) && ControlLast(loopInsts[pre])
    {
      var body := LoopInsts(g, loops, steps[i]);
      loopInsts := loopInsts[steps[i] := body];
    }
  }
}
