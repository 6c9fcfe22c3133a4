/** The structured form of a function: lists of instructions with `if`, loops, `continue` and `break`.

    Registers are in single-assignment form.  The phi nodes of a loop header and of a postheader are kept
    with the loop: they are the loop's own variables and its results. */
module SpoqIR {
  import opened Prelude

  type Block = nat
  type Reg = nat
  type Op = nat
  type RData = map<int, int>   // the abstract data every operation may read and change
  type Regs = map<Reg, int>

  /** An undefined value is read as 0. */
  datatype Operand = Ref(reg: Reg) | Lit(n: int)

  datatype Inst =
    | Pure(dst: Reg, op: Op, args: seq<Operand>)
    | Effect(result: Option<Reg>, op: Op, args: seq<Operand>)
    | Return(val: Option<Operand>)
    | Unreachable
    | If(cond: Operand, thn: seq<Inst>, els: seq<Inst>)
    | Loop(preheader: Block)
    | Continue(latch: Block)
    | Break(exiting: Block)

  datatype Phi = Phi(dst: Reg, incoming: map<Block, Operand>)

  /** A loop with what its specification passes in and out.  `undef` says which of the registers passed out
      have no value when the loop is left from a given block; `regs` are all registers the loop sets. */
  datatype LoopDef = LoopDef(passIn: seq<Reg>, headerPhis: seq<Phi>, passOut: seq<Reg>, postPhis: seq<Phi>,
                             undef: map<Block, set<Reg>>, regs: set<Reg>, body: seq<Inst>)

  type Program = map<Block, LoopDef>

  /** What operations mean.  An effect may be undefined. */
  datatype Machine = Machine(pure: (Op, seq<int>) -> int, effect: (Op, seq<int>, RData) -> Option<(int, RData)>)

  datatype Outcome =
    | Returned(vals: seq<int>, st: RData)
    | Continued(latch: Block, env: Regs, st: RData)
    | Broke(exiting: Block, env: Regs, st: RData)
    | Undefined   // an operation has no result
    | Stuck       // a register without a value was read, or control is malformed
    | OutOfFuel

  function Read(o: Operand, env: Regs): Option<int> {
    match o
    case Lit(n) => Some(n)
    case Ref(r) => if r in env then Some(env[r]) else None
  }

  function ReadAll(os: seq<Operand>, env: Regs): (r: Option<seq<int>>)
    ensures r.Some? ==> |r.value| == |os| && forall i :: 0 <= i < |os| ==> Read(os[i], env) == Some(r.value[i])
    ensures r.None? ==> exists i :: 0 <= i < |os| && Read(os[i], env) == None
  {
    if os == [] then Some([])
    else
      var rest := ReadAll(os[..|os| - 1], env);
      var last := Read(os[|os| - 1], env);
      if rest.Some? && last.Some? then Some(rest.value + [last.value]) else None
  }

  function SetAll(env: Regs, regs: seq<Reg>, vals: seq<int>): Regs
    requires |regs| == |vals|
  {
    BindAll(env, regs, vals)
  }

  function Dsts(phis: seq<Phi>): (r: seq<Reg>)
    ensures |r| == |phis| && forall i :: 0 <= i < |phis| ==> r[i] == phis[i].dst
  {
    seq(|phis|, i requires 0 <= i < |phis| => phis[i].dst)
  }

  /** `getIncomingValueForBlock` for each of the phi nodes. */
  function Incoming(phis: seq<Phi>, from: Block): (r: seq<Operand>)
    ensures |r| == |phis|
    ensures forall i :: 0 <= i < |phis| ==> r[i] == if from in phis[i].incoming then phis[i].incoming[from] else Lit(0)
  {
    seq(|phis|, i requires 0 <= i < |phis| => if from in phis[i].incoming then phis[i].incoming[from] else Lit(0))
  }

  /** The phi nodes as control comes from block `from`. */
  function Transfer(phis: seq<Phi>, from: Block, env: Regs): Option<Regs> {
    var vals := ReadAll(Incoming(phis, from), env);
    if vals.Some? then Some(SetAll(env, Dsts(phis), vals.value)) else None
  }

  function UndefAt(ld: LoopDef, exiting: Block): set<Reg> {
    if exiting in ld.undef then ld.undef[exiting] else {}
  }

  /** The registers once the loop has been left from `exiting`. */
  function Leave(ld: LoopDef, exiting: Block, env: Regs): Option<Regs> {
    var vals := ReadAll(Incoming(ld.postPhis, exiting), env);
    if vals.Some? then Some(SetAll(env - UndefAt(ld, exiting), Dsts(ld.postPhis), vals.value)) else None
  }

  /** Runs a list.  `fuel` bounds the number of loop iterations nested or in a row. */
  function Exec(m: Machine, p: Program, fuel: nat, l: seq<Inst>, env: Regs, st: RData): Outcome
    decreases fuel, 1, l
  {
    if l == [] then Returned([], st)
    else match l[0]
      case Pure(dst, op, args) =>
        var vals := ReadAll(args, env);
        if vals.None? then Stuck else Exec(m, p, fuel, l[1..], env[dst := m.pure(op, vals.value)], st)
      case Effect(result, op, args) =>
        var vals := ReadAll(args, env);
        if vals.None? then Stuck
        else
          var r := m.effect(op, vals.value, st);
          if r.None? then Undefined
          else Exec(m, p, fuel, l[1..], if result.Some? then env[result.value := r.value.0] else env, r.value.1)
      case Return(None) => Returned([], st)
      case Return(Some(o)) =>
        var v := Read(o, env);
        if v.None? then Stuck else Returned([v.value], st)
      case Unreachable => Undefined
      case If(cond, thn, els) =>
        var c := Read(cond, env);
        if c.None? then Stuck else Exec(m, p, fuel, if c.value != 0 then thn else els, env, st)
      case Continue(latch) => Continued(latch, env, st)
      case Break(exiting) => Broke(exiting, env, st)
      case Loop(pre) =>
        if pre !in p then Stuck
        else
          var start := Transfer(p[pre].headerPhis, pre, env);
          if start.None? then Stuck
          else match RunLoop(m, p, fuel, pre, start.value, st)
            case Broke(exiting, env', st') =>
              var after := Leave(p[pre], exiting, env');
              if after.None? then Stuck else Exec(m, p, fuel, l[1..], after.value, st')
            case Undefined => Undefined
            case OutOfFuel => OutOfFuel
            case _ => Stuck   // a loop is only left by a break
  }

  function RunLoop(m: Machine, p: Program, fuel: nat, pre: Block, env: Regs, st: RData): Outcome
    requires pre in p
    decreases fuel, 0
  {
    if fuel == 0 then OutOfFuel
    else match Exec(m, p, fuel - 1, p[pre].body, env, st)
      case Continued(latch, env', st') =>
        var next := Transfer(p[pre].headerPhis, latch, env');
        if next.None? then Stuck else RunLoop(m, p, fuel - 1, pre, next.value, st')
      case r => r
  }

  /** The list after a loop, given how the loop has ended. */
  function ExecAfter(m: Machine, p: Program, fuel: nat, ld: LoopDef, rest: seq<Inst>, r: Outcome): Outcome {
    match r
    case Broke(exiting, env, st) =>
      var after := Leave(ld, exiting, env);
      if after.None? then Stuck else Exec(m, p, fuel, rest, after.value, st)
    case Undefined => Undefined
    case OutOfFuel => OutOfFuel
    case _ => Stuck
  }

  lemma ExecLoop(m: Machine, p: Program, fuel: nat, l: seq<Inst>, regs: Regs, st: RData)
    requires l != [] && l[0].Loop? && l[0].preheader in p
    ensures var pre := l[0].preheader;
      var start := Transfer(p[pre].headerPhis, pre, regs);
      Exec(m, p, fuel, l, regs, st) ==
        if start.None? then Stuck else ExecAfter(m, p, fuel, p[pre], l[1..], RunLoop(m, p, fuel, pre, start.value, st))
  {
    hide RunLoop, Leave, Transfer;
  }

  /** With enough fuel for an outcome, more fuel gives the same one. */
  lemma {:induction false} MoreFuel(m: Machine, p: Program, fuel: nat, more: nat, l: seq<Inst>, env: Regs, st: RData)
    requires more >= fuel && Exec(m, p, fuel, l, env, st) != OutOfFuel
    ensures Exec(m, p, more, l, env, st) == Exec(m, p, fuel, l, env, st)
    decreases fuel, 1, l
  {
    hide ReadAll, Transfer, Leave;
    if l != [] {
      match l[0]
      case Pure(dst, op, args) =>
        var vals := ReadAll(args, env);
        if vals.Some? {
          MoreFuel(m, p, fuel, more, l[1..], env[dst := m.pure(op, vals.value)], st);
        }
      case Effect(result, op, args) =>
        var vals := ReadAll(args, env);
        if vals.Some? {
          var r := m.effect(op, vals.value, st);
          if r.Some? {
            MoreFuel(m, p, fuel, more, l[1..], if result.Some? then env[result.value := r.value.0] else env, r.value.1);
          }
        }
      case If(cond, thn, els) =>
        var c := Read(cond, env);
        if c.Some? {
          MoreFuel(m, p, fuel, more, if c.value != 0 then thn else els, env, st);
        }
      case Loop(pre) =>
        if pre in p && Transfer(p[pre].headerPhis, pre, env).Some? {
          var start := Transfer(p[pre].headerPhis, pre, env).value;
          LoopMoreFuel(m, p, fuel, more, pre, start, st);
          var r := RunLoop(m, p, fuel, pre, start, st);
          if r.Broke? && Leave(p[pre], r.exiting, r.env).Some? {
            MoreFuel(m, p, fuel, more, l[1..], Leave(p[pre], r.exiting, r.env).value, r.st);
          }
        }
      case _ =>
    }
  }

  lemma {:induction false} LoopMoreFuel(m: Machine, p: Program, fuel: nat, more: nat, pre: Block, env: Regs, st: RData)
    requires pre in p && more >= fuel && RunLoop(m, p, fuel, pre, env, st) != OutOfFuel
    ensures RunLoop(m, p, more, pre, env, st) == RunLoop(m, p, fuel, pre, env, st)
    decreases fuel, 0
  {
    hide ReadAll, Transfer, Leave;
    MoreFuel(m, p, fuel - 1, more - 1, p[pre].body, env, st);
    var o := Exec(m, p, fuel - 1, p[pre].body, env, st);
    if o.Continued? && Transfer(p[pre].headerPhis, o.latch, o.env).Some? {
      LoopMoreFuel(m, p, fuel - 1, more - 1, pre, Transfer(p[pre].headerPhis, o.latch, o.env).value, o.st);
    }
  }
}
