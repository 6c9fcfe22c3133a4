/** From structured lists to specification terms: one recursive definition for each loop.

    `continue` becomes a tail call, `break` a tuple of results, and the loop itself a call whose result is
    taken apart by a pattern.  Arguments, parameters, tuple and pattern are four lists built separately,
    which have to name the same value at the same position; the state comes last in each of them and is
    left implicit here. */
module LoopLowering {
  import opened Prelude
  import opened SpoqIR

  /** The names a generated term uses: registers, their unused values after a loop, unused parameters. */
  datatype Name = Value(reg: Reg) | After(reg: Reg) | ArgDummy(i: nat)

  datatype Atom = Symbol(name: Name) | Const(n: int)

  datatype Term =
    | Let(x: Name, op: Op, args: seq<Atom>, body: Term)
    | When(result: Option<Name>, op: Op, args: seq<Atom>, body: Term)
    | Cond(cond: Atom, thn: Term, els: Term)
    | SomeTuple(vals: seq<Atom>)
    | NoneTerm
    | TailCall(loop: Block, args: seq<Atom>)
    | WhenLoop(pattern: seq<Name>, loop: Block, args: seq<Atom>, body: Term)

  datatype Fixpoint = Fixpoint(params: seq<Name>, body: Term)

  type Definitions = map<Block, Fixpoint>

  // ---------- the translation

  function Spec(o: Operand): Atom {
    match o
    case Ref(r) => Symbol(Value(r))
    case Lit(n) => Const(n)
  }

  function Specs(os: seq<Operand>): (r: seq<Atom>)
    ensures |r| == |os| && forall i :: 0 <= i < |os| ==> r[i] == Spec(os[i])
  {
    seq(|os|, i requires 0 <= i < |os| => Spec(os[i]))
  }

  function Values(regs: seq<Reg>): (r: seq<Name>)
    ensures |r| == |regs| && forall i :: 0 <= i < |regs| ==> r[i] == Value(regs[i])
  {
    seq(|regs|, i requires 0 <= i < |regs| => Value(regs[i]))
  }

  function Afters(regs: seq<Reg>): (r: seq<Name>)
    ensures |r| == |regs| && forall i :: 0 <= i < |regs| ==> r[i] == After(regs[i])
  {
    seq(|regs|, i requires 0 <= i < |regs| => After(regs[i]))
  }

  function Symbols(names: seq<Name>): (r: seq<Atom>)
    ensures |r| == |names| && forall i :: 0 <= i < |names| ==> r[i] == Symbol(names[i])
  {
    seq(|names|, i requires 0 <= i < |names| => Symbol(names[i]))
  }

  function Dummies(n: nat): (r: seq<Name>)
    ensures |r| == n && forall i :: 0 <= i < n ==> r[i] == ArgDummy(i)
  {
    seq(n, i requires 0 <= i < n => ArgDummy(i))
  }

  function Outs(ld: LoopDef): nat {
    |ld.passOut| + |ld.postPhis|
  }

  /** `compute_loop_spec_arg`. */
  function Params(ld: LoopDef): seq<Name> {
    Values(ld.passIn) + Values(Dsts(ld.headerPhis)) + Dummies(Outs(ld))
  }

  /** `compute_loop_continue_arg_list` as a call from outside: the dummies get an undefined value. */
  function EntryArgs(ld: LoopDef, pre: Block): seq<Atom> {
    Symbols(Values(ld.passIn)) + Specs(Incoming(ld.headerPhis, pre)) + seq(Outs(ld), _ => Const(0))
  }

  /** The same for a `continue`: the dummies are handed on. */
  function ContinueArgs(ld: LoopDef, latch: Block): seq<Atom> {
    Symbols(Values(ld.passIn)) + Specs(Incoming(ld.headerPhis, latch)) + Symbols(Dummies(Outs(ld)))
  }

  function PassedOut(ld: LoopDef, exiting: Block): (r: seq<Atom>)
    ensures |r| == |ld.passOut|
    ensures forall i :: 0 <= i < |r| ==>
      r[i] == if ld.passOut[i] in UndefAt(ld, exiting) then Const(0) else Symbol(Value(ld.passOut[i]))
  {
    seq(|ld.passOut|, i requires 0 <= i < |ld.passOut| =>
      if ld.passOut[i] in UndefAt(ld, exiting) then Const(0) else Symbol(Value(ld.passOut[i])))
  }

  /** `update_loop_break_return_list`. */
  function BreakTuple(ld: LoopDef, exiting: Block): seq<Atom> {
    Symbols(Values(ld.passIn)) + Symbols(Values(Dsts(ld.headerPhis)))
      + PassedOut(ld, exiting) + Specs(Incoming(ld.postPhis, exiting))
  }

  /** `compute_loop_break_return_list`, the pattern of the call. */
  function Pattern(ld: LoopDef): seq<Name> {
    Afters(ld.passIn) + Afters(Dsts(ld.headerPhis)) + Values(ld.passOut) + Values(Dsts(ld.postPhis))
  }

  /** `spoq_inst_to_spec`; `cur` is the loop the list belongs to. */
  function Lower(p: Program, l: seq<Inst>, cur: Option<Block>): Term {
    if l == [] then SomeTuple([])
    else match l[0]
      case Pure(dst, op, args) => Let(Value(dst), op, Specs(args), Lower(p, l[1..], cur))
      case Effect(result, op, args) =>
        When(if result.Some? then Some(Value(result.value)) else None, op, Specs(args), Lower(p, l[1..], cur))
      case Return(None) => SomeTuple([])
      case Return(Some(o)) => SomeTuple([Spec(o)])
      case Unreachable => NoneTerm
      case If(cond, thn, els) => Cond(Spec(cond), Lower(p, thn, cur), Lower(p, els, cur))
      case Loop(pre) =>
        if pre !in p then NoneTerm
        else WhenLoop(Pattern(p[pre]), pre, EntryArgs(p[pre], pre), Lower(p, l[1..], cur))
      case Continue(latch) =>
        if cur.Some? && cur.value in p then TailCall(cur.value, ContinueArgs(p[cur.value], latch)) else NoneTerm
      case Break(exiting) =>
        if cur.Some? && cur.value in p then SomeTuple(BreakTuple(p[cur.value], exiting)) else NoneTerm
  }

  function Defs(p: Program): Definitions {
    map pre | pre in p :: Fixpoint(Params(p[pre]), Lower(p, p[pre].body, Some(pre)))
  }

  // ---------- what terms mean

  type Env = map<Name, int>

  datatype Result = Done(vals: seq<int>, st: RData) | IsNone | NoFuel

  /** Every symbol of a generated term is bound; an unbound one would read as 0. */
  function ValueOf(a: Atom, env: Env): int {
    match a
    case Const(n) => n
    case Symbol(x) => if x in env then env[x] else 0
  }

  function ValuesOf(atoms: seq<Atom>, env: Env): (r: seq<int>)
    ensures |r| == |atoms| && forall i :: 0 <= i < |atoms| ==> r[i] == ValueOf(atoms[i], env)
  {
    seq(|atoms|, i requires 0 <= i < |atoms| => ValueOf(atoms[i], env))
  }

  function Bind(env: Env, names: seq<Name>, vals: seq<int>): Env
    requires |names| == |vals|
  {
    BindAll(env, names, vals)
  }

  function Eval(m: Machine, d: Definitions, fuel: nat, t: Term, env: Env, st: RData): Result
    decreases fuel, 1, t
  {
    match t
    case Let(x, op, args, body) => Eval(m, d, fuel, body, env[x := m.pure(op, ValuesOf(args, env))], st)
    case When(result, op, args, body) =>
      var r := m.effect(op, ValuesOf(args, env), st);
      if r.None? then IsNone
      else Eval(m, d, fuel, body, if result.Some? then env[result.value := r.value.0] else env, r.value.1)
    case Cond(c, thn, els) =>
      if ValueOf(c, env) != 0 then Eval(m, d, fuel, thn, env, st) else Eval(m, d, fuel, els, env, st)
    case SomeTuple(vals) => Done(ValuesOf(vals, env), st)
    case NoneTerm => IsNone
    case TailCall(loop, args) => Apply(m, d, fuel, loop, ValuesOf(args, env), st)
    case WhenLoop(pattern, loop, args, body) =>
      match Apply(m, d, fuel, loop, ValuesOf(args, env), st)
      case Done(vals, st') =>
        if |vals| == |pattern| then Eval(m, d, fuel, body, Bind(env, pattern, vals), st') else IsNone
      case r => r
  }

  function Apply(m: Machine, d: Definitions, fuel: nat, loop: Block, args: seq<int>, st: RData): Result
    decreases fuel, 0
  {
    if loop !in d || |args| != |d[loop].params| then IsNone
    else if fuel == 0 then NoFuel
    else Eval(m, d, fuel - 1, d[loop].body, Bind(map[], d[loop].params, args), st)
  }

  // ---------- which programs are translated

  predicate ReadsIn(os: seq<Operand>, scope: set<Reg>) {
    forall i :: 0 <= i < |os| && os[i].Ref? ==> os[i].reg in scope
  }

  function Bodies(ld: LoopDef): set<Reg> {
    (set r | r in ld.passIn) + (set r | r in Dsts(ld.headerPhis))
  }

  /** What code after the loop may read of it. */
  function Results(ld: LoopDef): set<Reg> {
    (set r | r in ld.passOut) + (set r | r in Dsts(ld.postPhis))
  }

  /** Every operand is in scope: a register of the list itself, a value the loop is passed or a variable of
      the loop, or a result of a loop before it.  Registers are set once only. */
  predicate Scoped(p: Program, l: seq<Inst>, scope: set<Reg>, cur: Option<Block>)
    requires cur.Some? ==> cur.value in p
  {
    if l == [] then true
    else match l[0]
      case Pure(dst, _, args) => ReadsIn(args, scope) && dst !in scope && Scoped(p, l[1..], scope + {dst}, cur)
      case Effect(None, _, args) => ReadsIn(args, scope) && Scoped(p, l[1..], scope, cur)
      case Effect(Some(dst), _, args) => ReadsIn(args, scope) && dst !in scope && Scoped(p, l[1..], scope + {dst}, cur)
      case Return(None) => true
      case Return(Some(o)) => ReadsIn([o], scope)
      case Unreachable => true
      case If(cond, thn, els) => ReadsIn([cond], scope) && Scoped(p, thn, scope, cur) && Scoped(p, els, scope, cur)
      case Loop(pre) =>
        && pre in p
        && (forall r :: r in p[pre].passIn ==> r in scope)
        && ReadsIn(Incoming(p[pre].headerPhis, pre), scope)
        && p[pre].regs !! scope
        && Scoped(p, l[1..], scope + Results(p[pre]), cur)
      case Continue(latch) => cur.Some? && ReadsIn(Incoming(p[cur.value].headerPhis, latch), scope)
      case Break(exiting) =>
        && cur.Some? && ReadsIn(Incoming(p[cur.value].postPhis, exiting), scope)
        && forall r :: r in p[cur.value].passOut && r !in UndefAt(p[cur.value], exiting) ==> r in scope
  }

  /** All registers the list sets are among `regs`. */
  predicate SetsOnly(p: Program, l: seq<Inst>, regs: set<Reg>) {
    l == [] || (SetsOnly(p, l[1..], regs) && match l[0]
      case Pure(dst, _, _) => dst in regs
      case Effect(result, _, _) => result.Some? ==> result.value in regs
      case If(_, thn, els) => SetsOnly(p, thn, regs) && SetsOnly(p, els, regs)
      case Loop(pre) => pre in p && p[pre].regs <= regs
      case _ => true)
  }

  /** What a loop is passed is set outside of it, what it passes out is set inside, and no value is named twice. */
  predicate WellShaped(ld: LoopDef) {
    && (forall r :: r in ld.passIn ==> r !in ld.regs)
    && (forall r :: r in Dsts(ld.headerPhis) ==> r in ld.regs)
    && (forall r :: r in Dsts(ld.postPhis) ==> r in ld.regs)
    && (forall r :: r in ld.passOut ==> r in ld.regs && r !in Dsts(ld.postPhis))
    && (forall e :: e in ld.undef ==> ld.undef[e] <= ld.regs)
    && NoDup(ld.passIn) && NoDup(Dsts(ld.headerPhis)) && NoDup(ld.passOut) && NoDup(Dsts(ld.postPhis))
  }

  /** Every way through the list goes round the loop, leaves it, or is unreachable. */
  predicate StaysInLoop(l: seq<Inst>) {
    l != [] && match l[0]
      case Continue(_) => true
      case Break(_) => true
      case Unreachable => true
      case Return(_) => false
      case If(_, thn, els) => StaysInLoop(thn) && StaysInLoop(els)
      case _ => StaysInLoop(l[1..])
  }

  ghost predicate LoopsShaped(p: Program) {
    forall pre :: pre in p ==> WellShaped(p[pre]) && StaysInLoop(p[pre].body)
  }

  ghost predicate LoopsFramed(p: Program) {
    forall pre :: pre in p ==> SetsOnly(p, p[pre].body, p[pre].regs)
  }

  ghost predicate LoopsScoped(p: Program) {
    forall pre :: pre in p ==> Scoped(p, p[pre].body, Bodies(p[pre]), Some(pre))
  }

  // ---------- correctness

  /** The registers in scope that have a value have the same value in the term. */
  ghost predicate Agree(scope: set<Reg>, regs: Regs, env: Env) {
    forall r :: r in scope && r in regs ==> Value(r) in env && env[Value(r)] == regs[r]
  }

  lemma ReadsAgree(os: seq<Operand>, scope: set<Reg>, regs: Regs, env: Env)
    requires ReadsIn(os, scope) && Agree(scope, regs, env) && ReadAll(os, regs).Some?
    ensures ValuesOf(Specs(os), env) == ReadAll(os, regs).value
  {
    forall i | 0 <= i < |os| ensures ValueOf(Specs(os)[i], env) == ReadAll(os, regs).value[i] {
      assert Read(os[i], regs) == Some(ReadAll(os, regs).value[i]);
    }
  }

  lemma BindAt(env: Env, names: seq<Name>, vals: seq<int>, i: nat)
    requires |names| == |vals| && NoDup(names) && i < |names|
    ensures names[i] in Bind(env, names, vals) && Bind(env, names, vals)[names[i]] == vals[i]
  {
    assert names[i] in names;
  }

  lemma SetAllAt(regs: Regs, dsts: seq<Reg>, vals: seq<int>, i: nat)
    requires |dsts| == |vals| && NoDup(dsts) && i < |dsts|
    ensures dsts[i] in SetAll(regs, dsts, vals) && SetAll(regs, dsts, vals)[dsts[i]] == vals[i]
  {
    assert dsts[i] in dsts;
  }

  /** `args` are what the loop is to be called with when its registers are `regs`. */
  ghost predicate LoopArgs(ld: LoopDef, regs: Regs, args: seq<int>) {
    && |args| == |Params(ld)|
    && (forall i :: 0 <= i < |ld.passIn| && ld.passIn[i] in regs ==> args[i] == regs[ld.passIn[i]])
    && (forall i :: 0 <= i < |ld.headerPhis| && ld.headerPhis[i].dst in regs ==>
          args[|ld.passIn| + i] == regs[ld.headerPhis[i].dst])
  }

  lemma ParamsDistinct(ld: LoopDef)
    requires WellShaped(ld)
    ensures NoDup(Params(ld)) && NoDup(Pattern(ld))
  {
    var hs, posts := Dsts(ld.headerPhis), Dsts(ld.postPhis);
    assert forall r :: r in hs ==> r !in ld.passIn;
    forall x | x in Values(ld.passIn) ensures x !in Values(hs) { assert x.reg in ld.passIn; }
    NoDupConcat(Values(ld.passIn), Values(hs));
    NoDupConcat(Values(ld.passIn) + Values(hs), Dummies(Outs(ld)));
    forall x | x in Afters(ld.passIn) ensures x !in Afters(hs) { assert x.reg in ld.passIn; }
    NoDupConcat(Afters(ld.passIn), Afters(hs));
    NoDupConcat(Afters(ld.passIn) + Afters(hs), Values(ld.passOut));
    forall x | x in Values(posts) ensures x !in Values(ld.passOut) { assert x.reg in posts; }
    NoDupConcat(Afters(ld.passIn) + Afters(hs) + Values(ld.passOut), Values(posts));
  }

  /** The parameter a register of the loop is passed as. */
  lemma ParamOf(ld: LoopDef, r: Reg) returns (k: nat)
    requires r in Bodies(ld)
    ensures k < |ld.passIn| + |ld.headerPhis| <= |Params(ld)| && Params(ld)[k] == Value(r)
    ensures if k < |ld.passIn| then ld.passIn[k] == r else ld.headerPhis[k - |ld.passIn|].dst == r
  {
    if r in ld.passIn {
      k :| 0 <= k < |ld.passIn| && ld.passIn[k] == r;
    } else {
      var i :| 0 <= i < |Dsts(ld.headerPhis)| && Dsts(ld.headerPhis)[i] == r;
      k := |ld.passIn| + i;
    }
  }

  /** The parameters of a loop stand for its registers, and the pattern of its call gives each its name for after the
      loop, in the same place. */
  lemma BodyParam(ld: LoopDef, i: nat)
    requires i < |ld.passIn| + |ld.headerPhis|
    ensures |Params(ld)| == |Pattern(ld)| == |ld.passIn| + |ld.headerPhis| + Outs(ld)
    ensures Params(ld)[i].Value? && Params(ld)[i].reg in Bodies(ld) && Pattern(ld)[i] == After(Params(ld)[i].reg)
  {
    if i < |ld.passIn| {
      assert Params(ld)[i].reg == ld.passIn[i] && ld.passIn[i] in ld.passIn;
    } else {
      var j := i - |ld.passIn|;
      assert Params(ld)[i].reg == Dsts(ld.headerPhis)[j] && Dsts(ld.headerPhis)[j] in Dsts(ld.headerPhis);
    }
  }

  /** The pattern has the name of a register for after the loop exactly where the parameters have the register. */
  lemma PatternOfParams(ld: LoopDef, i: nat, r: Reg)
    requires i < |Params(ld)|
    ensures |Pattern(ld)| == |Params(ld)| && (Pattern(ld)[i] == After(r) <==> Params(ld)[i] == Value(r))
  {
    if i < |ld.passIn| + |ld.headerPhis| {
      BodyParam(ld, i);
    } else {
      var j := i - |ld.passIn| - |ld.headerPhis|;
      assert Params(ld)[i] == Dummies(Outs(ld))[j];
      assert Pattern(ld)[i] == if j < |ld.passOut| then Value(ld.passOut[j]) else
        Value(Dsts(ld.postPhis)[j - |ld.passOut|]);
    }
  }

  /** A call made inside the loop hands on what the loop is passed, and the dummies, under their own parameters. */
  lemma HandedOn(ld: LoopDef, latch: Block, i: nat)
    requires i < |Params(ld)| && !(|ld.passIn| <= i < |ld.passIn| + |ld.headerPhis|)
    ensures |ContinueArgs(ld, latch)| == |Params(ld)| && ContinueArgs(ld, latch)[i] == Symbol(Params(ld)[i])
  {
    if i >= |ld.passIn| + |ld.headerPhis| {
      var j := i - |ld.passIn| - |ld.headerPhis|;
      assert Params(ld)[i] == Dummies(Outs(ld))[j];
      assert ContinueArgs(ld, latch)[i] == Symbols(Dummies(Outs(ld)))[j];
    }
  }

  /** A call from outside passes the same values in, and the undefined value, which is 0, for the dummies. */
  lemma EnteredWith(ld: LoopDef, pre: Block, i: nat)
    requires i < |Params(ld)|
    ensures |EntryArgs(ld, pre)| == |Params(ld)|
    ensures i < |ld.passIn| ==> EntryArgs(ld, pre)[i] == Symbol(Params(ld)[i])
    ensures i >= |ld.passIn| + |ld.headerPhis| ==> EntryArgs(ld, pre)[i] == Const(0)
  {
  }

  lemma ArgsAgree(ld: LoopDef, regs: Regs, args: seq<int>)
    requires WellShaped(ld) && LoopArgs(ld, regs, args)
    ensures Agree(Bodies(ld), regs, Bind(map[], Params(ld), args))
  {
    ParamsDistinct(ld);
    forall r | r in Bodies(ld) && r in regs
      ensures Value(r) in Bind(map[], Params(ld), args) && Bind(map[], Params(ld), args)[Value(r)] == regs[r]
    {
      var k := ParamOf(ld, r);
      BindAt(map[], Params(ld), args, k);
      assert args[k] == regs[r] by {
        if k >= |ld.passIn| { assert args[|ld.passIn| + (k - |ld.passIn|)] == regs[r]; }
      }
    }
  }

  /** The arguments of a call made where the registers are as in `env`, the dummies apart. */
  ghost predicate HeadArgs(ld: LoopDef, from: Block, env: Env, args: seq<int>) {
    && |args| == |Params(ld)|
    && (forall i :: 0 <= i < |ld.passIn| ==> args[i] == ValueOf(Symbol(Value(ld.passIn[i])), env))
    && (forall i :: 0 <= i < |ld.headerPhis| ==>
          args[|ld.passIn| + i] == ValueOf(Spec(Incoming(ld.headerPhis, from)[i]), env))
  }

  /** Entering a loop, or going round it again: the header phis are set from `from`, all at once. */
  lemma TransferArgs(ld: LoopDef, from: Block, scope: set<Reg>, regs: Regs, env: Env, args: seq<int>)
    requires WellShaped(ld) && Agree(scope, regs, env)
    requires ReadsIn(Incoming(ld.headerPhis, from), scope) && forall r :: r in ld.passIn ==> r in scope
    requires Transfer(ld.headerPhis, from, regs).Some? && HeadArgs(ld, from, env, args)
    ensures LoopArgs(ld, Transfer(ld.headerPhis, from, regs).value, args)
  {
    var vals := ReadAll(Incoming(ld.headerPhis, from), regs).value;
    ReadsAgree(Incoming(ld.headerPhis, from), scope, regs, env);
    var next := Transfer(ld.headerPhis, from, regs).value;
    forall i | 0 <= i < |ld.passIn| && ld.passIn[i] in next ensures args[i] == next[ld.passIn[i]] {
      assert ld.passIn[i] in ld.passIn && ld.passIn[i] !in Dsts(ld.headerPhis);
    }
    forall i | 0 <= i < |ld.headerPhis| ensures args[|ld.passIn| + i] == next[ld.headerPhis[i].dst] {
      assert args[|ld.passIn| + i] == ValuesOf(Specs(Incoming(ld.headerPhis, from)), env)[i];
      SetAllAt(regs, Dsts(ld.headerPhis), vals, i);
    }
  }

  /** `vals` is what a loop left from `exiting` gives back: first what its parameters hold when it is left, then its
      results. */
  ghost predicate BreakVals(ld: LoopDef, exiting: Block, regs: Regs, vals: seq<int>) {
    && |vals| == |ld.passIn| + |ld.headerPhis| + |ld.passOut| + |ld.postPhis|
    && (forall i :: 0 <= i < |ld.passIn| + |ld.headerPhis| ==> HeldAt(ld, regs, vals, i))
    && (forall i :: 0 <= i < |ld.passOut| ==> OutAt(ld, exiting, regs, vals, i))
    && (forall i :: 0 <= i < |ld.postPhis| ==> PostAt(ld, exiting, regs, vals, i))
  }

  /** The register whose parameter stands there. */
  ghost predicate HeldAt(ld: LoopDef, regs: Regs, vals: seq<int>, i: nat)
    requires i < |Params(ld)| == |vals|
  {
    Params(ld)[i].Value? && (Params(ld)[i].reg in regs ==> vals[i] == regs[Params(ld)[i].reg])
  }

  ghost predicate OutAt(ld: LoopDef, exiting: Block, regs: Regs, vals: seq<int>, i: nat)
    requires i < |ld.passOut| && |vals| == |ld.passIn| + |ld.headerPhis| + |ld.passOut| + |ld.postPhis|
  {
    ld.passOut[i] in regs && ld.passOut[i] !in UndefAt(ld, exiting) ==>
      vals[|ld.passIn| + |ld.headerPhis| + i] == regs[ld.passOut[i]]
  }

  ghost predicate PostAt(ld: LoopDef, exiting: Block, regs: Regs, vals: seq<int>, i: nat)
    requires i < |ld.postPhis| && |vals| == |ld.passIn| + |ld.headerPhis| + |ld.passOut| + |ld.postPhis|
  {
    Read(Incoming(ld.postPhis, exiting)[i], regs).Some? ==>
      vals[|ld.passIn| + |ld.headerPhis| + |ld.passOut| + i] == Read(Incoming(ld.postPhis, exiting)[i], regs).value
  }

  lemma BreakTupleVals(ld: LoopDef, exiting: Block, scope: set<Reg>, regs: Regs, env: Env)
    requires Agree(scope, regs, env) && ReadsIn(Incoming(ld.postPhis, exiting), scope)
    requires forall r :: r in ld.passOut && r !in UndefAt(ld, exiting) ==> r in scope
    requires Bodies(ld) <= scope
    ensures BreakVals(ld, exiting, regs, ValuesOf(BreakTuple(ld, exiting), env))
  {
    var o, vals, tuple := |ld.passIn| + |ld.headerPhis|, ValuesOf(BreakTuple(ld, exiting), env),
      BreakTuple(ld, exiting);
    forall i | 0 <= i < o ensures HeldAt(ld, regs, vals, i) {
      BodyParam(ld, i);
      assert tuple[i] == Symbol(Params(ld)[i]);
    }
    forall i | 0 <= i < |ld.passOut| ensures OutAt(ld, exiting, regs, vals, i) {
      assert tuple[o + i] == PassedOut(ld, exiting)[i];
      assert ld.passOut[i] in ld.passOut;
    }
    forall i | 0 <= i < |ld.postPhis| ensures PostAt(ld, exiting, regs, vals, i) {
      assert tuple[o + |ld.passOut| + i] == Spec(Incoming(ld.postPhis, exiting)[i]);
    }
  }

  ghost predicate SameOutside(before: Regs, after: Regs, regs: set<Reg>) {
    forall r :: r !in regs ==> (r in before <==> r in after) && (r in before ==> after[r] == before[r])
  }

  lemma OutsideTwice(a: Regs, b: Regs, c: Regs, regs: set<Reg>, regs': set<Reg>)
    requires SameOutside(a, b, regs) && SameOutside(b, c, regs) && regs <= regs'
    ensures SameOutside(a, c, regs')
  {
  }

  lemma TransferOutside(ld: LoopDef, from: Block, env: Regs)
    requires WellShaped(ld) && Transfer(ld.headerPhis, from, env).Some?
    ensures SameOutside(env, Transfer(ld.headerPhis, from, env).value, ld.regs)
  {
  }

  lemma LeaveOutside(ld: LoopDef, exiting: Block, env: Regs)
    requires WellShaped(ld) && Leave(ld, exiting, env).Some?
    ensures SameOutside(env, Leave(ld, exiting, env).value, ld.regs)
  {
  }

  lemma LeaveKeeps(ld: LoopDef, exiting: Block, regs: Regs, r: Reg)
    requires Leave(ld, exiting, regs).Some? && r !in Dsts(ld.postPhis) && r in Leave(ld, exiting, regs).value
    ensures r in regs && r !in UndefAt(ld, exiting) && Leave(ld, exiting, regs).value[r] == regs[r]
  {
    assert r in regs - UndefAt(ld, exiting);
  }

  lemma LeaveSets(ld: LoopDef, exiting: Block, regs: Regs, i: nat)
    requires Leave(ld, exiting, regs).Some? && NoDup(Dsts(ld.postPhis)) && i < |ld.postPhis|
    ensures Dsts(ld.postPhis)[i] in Leave(ld, exiting, regs).value
    ensures Read(Incoming(ld.postPhis, exiting)[i], regs) == Some(Leave(ld, exiting, regs).value[Dsts(ld.postPhis)[i]])
  {
    SetAllAt(regs - UndefAt(ld, exiting), Dsts(ld.postPhis), ReadAll(Incoming(ld.postPhis, exiting), regs).value, i);
  }

  /** The value a result gets from the pattern. */
  lemma ResultVal(ld: LoopDef, exiting: Block, regs: Regs, after: Regs, vals: seq<int>, i: nat)
    requires WellShaped(ld) && BreakVals(ld, exiting, regs, vals) && Leave(ld, exiting, regs) == Some(after)
    requires i < |ld.passOut| + |ld.postPhis|
    ensures ResultReg(ld, i) in after ==> vals[|ld.passIn| + |ld.headerPhis| + i] == after[ResultReg(ld, i)]
  {
    if i < |ld.passOut| {
      assert OutAt(ld, exiting, regs, vals, i) && ld.passOut[i] in ld.passOut;
      if ld.passOut[i] in after {
        LeaveKeeps(ld, exiting, regs, ld.passOut[i]);
      }
    } else {
      assert PostAt(ld, exiting, regs, vals, i - |ld.passOut|);
      LeaveSets(ld, exiting, regs, i - |ld.passOut|);
    }
  }

  function ResultReg(ld: LoopDef, i: nat): Reg
    requires i < |ld.passOut| + |ld.postPhis|
  {
    if i < |ld.passOut| then ld.passOut[i] else ld.postPhis[i - |ld.passOut|].dst
  }

  lemma PatternAt(ld: LoopDef, env: Env, vals: seq<int>, i: nat)
    requires WellShaped(ld) && i < |ld.passOut| + |ld.postPhis|
    requires |vals| == |ld.passIn| + |ld.headerPhis| + |ld.passOut| + |ld.postPhis| == |Pattern(ld)|
    ensures Value(ResultReg(ld, i)) in Bind(env, Pattern(ld), vals)
    ensures Bind(env, Pattern(ld), vals)[Value(ResultReg(ld, i))] == vals[|ld.passIn| + |ld.headerPhis| + i]
  {
    ParamsDistinct(ld);
    assert Pattern(ld)[|ld.passIn| + |ld.headerPhis| + i] == Value(ResultReg(ld, i));
    BindAt(env, Pattern(ld), vals, |ld.passIn| + |ld.headerPhis| + i);
  }

  lemma ResultAgrees(ld: LoopDef, exiting: Block, regs: Regs, after: Regs, env: Env, vals: seq<int>, r: Reg)
    requires WellShaped(ld) && BreakVals(ld, exiting, regs, vals) && Leave(ld, exiting, regs) == Some(after)
    requires r in Results(ld) && r in after
    ensures Value(r) in Bind(env, Pattern(ld), vals) && Bind(env, Pattern(ld), vals)[Value(r)] == after[r]
  {
    var i: nat;
    if r in Dsts(ld.postPhis) {
      i :| i < |Dsts(ld.postPhis)| && Dsts(ld.postPhis)[i] == r;
      i := |ld.passOut| + i;
    } else {
      i :| i < |ld.passOut| && ld.passOut[i] == r;
    }
    ResultVal(ld, exiting, regs, after, vals, i);
    PatternAt(ld, env, vals, i);
  }

  lemma OuterAgrees(ld: LoopDef, env: Env, vals: seq<int>, r: Reg)
    requires |vals| == |Pattern(ld)| && r !in Results(ld) && Value(r) in env
    ensures Value(r) in Bind(env, Pattern(ld), vals) && Bind(env, Pattern(ld), vals)[Value(r)] == env[Value(r)]
  {
    assert Value(r) !in Pattern(ld);
  }

  /** Taking the result of a loop apart leaves the term with the registers the loop leaves. */
  lemma LeaveAgrees(ld: LoopDef, exiting: Block, scope: set<Reg>, before: Regs, regs: Regs, after: Regs, env: Env,
                    vals: seq<int>)
    requires WellShaped(ld) && ld.regs !! scope && Agree(scope, before, env) && SameOutside(before, regs, ld.regs)
    requires BreakVals(ld, exiting, regs, vals) && Leave(ld, exiting, regs) == Some(after)
    ensures Agree(scope + Results(ld), after, Bind(env, Pattern(ld), vals))
  {
    LeaveOutside(ld, exiting, regs);
    OutsideTwice(before, regs, after, ld.regs, ld.regs);
    forall r | r in scope + Results(ld) && r in after
      ensures Value(r) in Bind(env, Pattern(ld), vals) && Bind(env, Pattern(ld), vals)[Value(r)] == after[r]
    {
      if r in Results(ld) {
        ResultAgrees(ld, exiting, regs, after, env, vals, r);
      } else {
        OuterAgrees(ld, env, vals, r);
      }
    }
  }

  /** What a list does to the registers stays within the registers it sets. */
  lemma {:induction false} ExecFrame(m: Machine, p: Program, fuel: nat, l: seq<Inst>, env: Regs, st: RData,
                                     regs: set<Reg>)
    requires LoopsShaped(p) && LoopsFramed(p) && SetsOnly(p, l, regs)
    ensures match Exec(m, p, fuel, l, env, st)
      case Continued(_, env', _) => SameOutside(env, env', regs)
      case Broke(_, env', _) => SameOutside(env, env', regs)
      case _ => true
    decreases fuel, 1, l
  {
    hide RunLoop, WellShaped, Leave, Transfer;
    if l != [] {
      match l[0]
      case Pure(dst, op, args) =>
        if ReadAll(args, env).Some? {
          ExecFrame(m, p, fuel, l[1..], env[dst := m.pure(op, ReadAll(args, env).value)], st, regs);
        }
      case Effect(result, op, args) =>
        if ReadAll(args, env).Some? {
          var r := m.effect(op, ReadAll(args, env).value, st);
          if r.Some? {
            ExecFrame(m, p, fuel, l[1..], if result.Some? then env[result.value := r.value.0] else env, r.value.1,
              regs);
          }
        }
      case If(cond, thn, els) =>
        ExecFrame(m, p, fuel, thn, env, st, regs);
        ExecFrame(m, p, fuel, els, env, st, regs);
      case Loop(pre) =>
        var start := Transfer(p[pre].headerPhis, pre, env);
        if start.Some? {
          LoopOutside(m, p, fuel, pre, env, st);
          match RunLoop(m, p, fuel, pre, start.value, st)
          case Broke(exiting, env', st') =>
            var after := Leave(p[pre], exiting, env');
            if after.Some? {
              LeaveOutside(p[pre], exiting, env');
              OutsideTwice(env, env', after.value, p[pre].regs, regs);
              ExecFrame(m, p, fuel, l[1..], after.value, st', regs);
            }
          case _ =>
        }
      case _ =>
    }
  }

  lemma {:induction false} LoopFrame(m: Machine, p: Program, fuel: nat, pre: Block, env: Regs, st: RData)
    requires LoopsShaped(p) && LoopsFramed(p) && pre in p
    ensures var r := RunLoop(m, p, fuel, pre, env, st);
      r.Broke? ==> SameOutside(env, r.env, p[pre].regs)
    decreases fuel, 0, 0
  {
    hide Exec, WellShaped, SetsOnly, SameOutside, Transfer;
    if fuel > 0 {
      ExecFrame(m, p, fuel - 1, p[pre].body, env, st, p[pre].regs);
      match Exec(m, p, fuel - 1, p[pre].body, env, st)
      case Continued(latch, env', st') =>
        var next := Transfer(p[pre].headerPhis, latch, env');
        if next.Some? {
          TransferOutside(p[pre], latch, env');
          OutsideTwice(env, env', next.value, p[pre].regs, p[pre].regs);
          LoopFrame(m, p, fuel - 1, pre, next.value, st');
          var last := RunLoop(m, p, fuel - 1, pre, next.value, st');
          if last.Broke? {
            OutsideTwice(env, next.value, last.env, p[pre].regs, p[pre].regs);
          }
        }
      case _ =>
    }
  }

  /** The term does what the list does.  Where the list goes round its loop the term calls the loop, and
      where it breaks the term gives the loop's results. */
  ghost predicate Simulates(m: Machine, p: Program, fuel: nat, cur: Option<Block>, o: Outcome, t: Result)
    requires cur.Some? ==> cur.value in p
  {
    match o
    case Returned(vals, st) => t == Done(vals, st)
    case Undefined => t == IsNone
    case OutOfFuel => t == NoFuel
    case Stuck => true
    case Continued(latch, regs, st) => cur.Some? &&
      var next := Transfer(p[cur.value].headerPhis, latch, regs);
      next.Some? ==>
        exists args :: LoopArgs(p[cur.value], next.value, args) && t == Apply(m, Defs(p), fuel, cur.value, args, st)
    case Broke(exiting, regs, st) =>
      cur.Some? && t.Done? && t.st == st && BreakVals(p[cur.value], exiting, regs, t.vals)
  }

  ghost predicate InLoop(p: Program, cur: Option<Block>, scope: set<Reg>) {
    cur.Some? ==> cur.value in p && Bodies(p[cur.value]) <= scope
  }

  lemma {:induction false} LowerCorrect(m: Machine, p: Program, fuel: nat, l: seq<Inst>, cur: Option<Block>,
                                        scope: set<Reg>, regs: Regs, env: Env, st: RData)
    requires LoopsShaped(p) && LoopsFramed(p) && LoopsScoped(p) && InLoop(p, cur, scope)
    requires Scoped(p, l, scope, cur) && Agree(scope, regs, env)
    ensures Simulates(m, p, fuel, cur, Exec(m, p, fuel, l, regs, st), Eval(m, Defs(p), fuel, Lower(p, l, cur), env, st))
    decreases fuel, 1, l, 1
  {
    hide Exec, Eval, Lower, Simulates, Apply, RunLoop;
    if l == [] {
      LowerLeaf(m, p, fuel, l, cur, scope, regs, env, st);
    } else {
      match l[0]
      case Pure(_, _, _) => LowerPure(m, p, fuel, l, cur, scope, regs, env, st);
      case Effect(_, _, _) => LowerEffect(m, p, fuel, l, cur, scope, regs, env, st);
      case If(_, _, _) => LowerIf(m, p, fuel, l, cur, scope, regs, env, st);
      case Loop(_) => LowerLoop(m, p, fuel, l, cur, scope, regs, env, st);
      case Continue(_) => LowerExit(m, p, fuel, l, cur, scope, regs, env, st);
      case Break(_) => LowerExit(m, p, fuel, l, cur, scope, regs, env, st);
      case _ => LowerLeaf(m, p, fuel, l, cur, scope, regs, env, st);
    }
  }

  lemma {:induction false} LowerPure(m: Machine, p: Program, fuel: nat, l: seq<Inst>, cur: Option<Block>,
                                     scope: set<Reg>, regs: Regs, env: Env, st: RData)
    requires LoopsShaped(p) && LoopsFramed(p) && LoopsScoped(p) && InLoop(p, cur, scope)
    requires l != [] && l[0].Pure? && Scoped(p, l, scope, cur) && Agree(scope, regs, env)
    ensures Simulates(m, p, fuel, cur, Exec(m, p, fuel, l, regs, st), Eval(m, Defs(p), fuel, Lower(p, l, cur), env, st))
    decreases fuel, 1, l, 0
  {
    hide Apply, RunLoop, Simulates;
    var Pure(dst, op, args) := l[0];
    var vals := ReadAll(args, regs);
    if vals.Some? {
      ReadsAgree(args, scope, regs, env);
      var v := m.pure(op, vals.value);
      LowerCorrect(m, p, fuel, l[1..], cur, scope + {dst}, regs[dst := v], env[Value(dst) := v], st);
    } else {
      StuckSimulates(m, p, fuel, cur, Eval(m, Defs(p), fuel, Lower(p, l, cur), env, st));
    }
  }

  lemma StuckSimulates(m: Machine, p: Program, fuel: nat, cur: Option<Block>, t: Result)
    requires cur.Some? ==> cur.value in p
    ensures Simulates(m, p, fuel, cur, Stuck, t)
  {
  }

  lemma {:induction false} LowerEffect(m: Machine, p: Program, fuel: nat, l: seq<Inst>, cur: Option<Block>,
                                       scope: set<Reg>, regs: Regs, env: Env, st: RData)
    requires LoopsShaped(p) && LoopsFramed(p) && LoopsScoped(p) && InLoop(p, cur, scope)
    requires l != [] && l[0].Effect? && Scoped(p, l, scope, cur) && Agree(scope, regs, env)
    ensures Simulates(m, p, fuel, cur, Exec(m, p, fuel, l, regs, st), Eval(m, Defs(p), fuel, Lower(p, l, cur), env, st))
    decreases fuel, 1, l, 0
  {
    hide Apply, RunLoop, Simulates;
    var Effect(result, op, args) := l[0];
    var vals := ReadAll(args, regs);
    if vals.Some? {
      ReadsAgree(args, scope, regs, env);
      var r := m.effect(op, vals.value, st);
      if r.Some? {
        if result.Some? {
          var dst := result.value;
          LowerCorrect(m, p, fuel, l[1..], cur, scope + {dst}, regs[dst := r.value.0], env[Value(dst) := r.value.0],
            r.value.1);
        } else {
          LowerCorrect(m, p, fuel, l[1..], cur, scope, regs, env, r.value.1);
        }
      } else {
        LeafSimulates(m, p, fuel, cur, Undefined, IsNone);
      }
    } else {
      StuckSimulates(m, p, fuel, cur, Eval(m, Defs(p), fuel, Lower(p, l, cur), env, st));
    }
  }

  lemma {:induction false} LowerIf(m: Machine, p: Program, fuel: nat, l: seq<Inst>, cur: Option<Block>,
                                   scope: set<Reg>, regs: Regs, env: Env, st: RData)
    requires LoopsShaped(p) && LoopsFramed(p) && LoopsScoped(p) && InLoop(p, cur, scope)
    requires l != [] && l[0].If? && Scoped(p, l, scope, cur) && Agree(scope, regs, env)
    ensures Simulates(m, p, fuel, cur, Exec(m, p, fuel, l, regs, st), Eval(m, Defs(p), fuel, Lower(p, l, cur), env, st))
    decreases fuel, 1, l, 0
  {
    hide Apply, RunLoop, Simulates;
    var If(cond, thn, els) := l[0];
    if Read(cond, regs).Some? {
      OperandAgrees(cond, scope, regs, env);
      LowerCorrect(m, p, fuel, thn, cur, scope, regs, env, st);
      LowerCorrect(m, p, fuel, els, cur, scope, regs, env, st);
    } else {
      StuckSimulates(m, p, fuel, cur, Eval(m, Defs(p), fuel, Lower(p, l, cur), env, st));
    }
  }

  lemma {:induction false} LowerLeaf(m: Machine, p: Program, fuel: nat, l: seq<Inst>, cur: Option<Block>,
                                     scope: set<Reg>, regs: Regs, env: Env, st: RData)
    requires LoopsShaped(p) && LoopsFramed(p) && LoopsScoped(p) && InLoop(p, cur, scope)
    requires (l != [] ==> l[0].Return? || l[0].Unreachable?) && Scoped(p, l, scope, cur) && Agree(scope, regs, env)
    ensures Simulates(m, p, fuel, cur, Exec(m, p, fuel, l, regs, st), Eval(m, Defs(p), fuel, Lower(p, l, cur), env, st))
    decreases fuel, 1, l, 0
  {
    hide RunLoop, Simulates, Apply;
    if l == [] || l[0] == Return(None) {
      LeafSimulates(m, p, fuel, cur, Returned([], st), Done([], st));
    } else if l[0].Unreachable? {
      LeafSimulates(m, p, fuel, cur, Undefined, IsNone);
    } else {
      var o := l[0].val.value;
      if Read(o, regs).Some? {
        OperandAgrees(o, scope, regs, env);
        assert ValuesOf([Spec(o)], env) == [Read(o, regs).value];
        LeafSimulates(m, p, fuel, cur, Returned([Read(o, regs).value], st), Done([Read(o, regs).value], st));
      } else {
        StuckSimulates(m, p, fuel, cur, Eval(m, Defs(p), fuel, Lower(p, l, cur), env, st));
      }
    }
  }

  lemma {:induction false} LowerExit(m: Machine, p: Program, fuel: nat, l: seq<Inst>, cur: Option<Block>,
                                     scope: set<Reg>, regs: Regs, env: Env, st: RData)
    requires LoopsShaped(p) && LoopsFramed(p) && LoopsScoped(p) && InLoop(p, cur, scope)
    requires l != [] && (l[0].Continue? || l[0].Break?) && Scoped(p, l, scope, cur) && Agree(scope, regs, env)
    ensures Simulates(m, p, fuel, cur, Exec(m, p, fuel, l, regs, st), Eval(m, Defs(p), fuel, Lower(p, l, cur), env, st))
    decreases fuel, 1, l, 0
  {
    hide RunLoop, Simulates, Apply;
    match l[0]
    case Continue(latch) =>
      ContinueSimulates(m, p, fuel, cur.value, latch, scope, regs, env, st);
    case Break(exiting) =>
      BreakTupleVals(p[cur.value], exiting, scope, regs, env);
      LeafSimulates(m, p, fuel, cur, Broke(exiting, regs, st),
        Done(ValuesOf(BreakTuple(p[cur.value], exiting), env), st));
  }

  lemma LeafSimulates(m: Machine, p: Program, fuel: nat, cur: Option<Block>, o: Outcome, t: Result)
    requires cur.Some? ==> cur.value in p
    requires match o
      case Returned(vals, st) => t == Done(vals, st)
      case Undefined => t == IsNone
      case Broke(exiting, regs, st) =>
        cur.Some? && t.Done? && t.st == st && BreakVals(p[cur.value], exiting, regs, t.vals)
      case _ => false
    ensures Simulates(m, p, fuel, cur, o, t)
  {
    hide Apply;
  }

  lemma ContinueSimulates(m: Machine, p: Program, fuel: nat, pre: Block, latch: Block, scope: set<Reg>, regs: Regs,
                          env: Env, st: RData)
    requires pre in p && LoopsShaped(p) && InLoop(p, Some(pre), scope) && Agree(scope, regs, env)
    requires ReadsIn(Incoming(p[pre].headerPhis, latch), scope)
    ensures Simulates(m, p, fuel, Some(pre), Continued(latch, regs, st),
      Apply(m, Defs(p), fuel, pre, ValuesOf(ContinueArgs(p[pre], latch), env), st))
  {
    hide Apply, WellShaped, Transfer;
    var ld := p[pre];
    if Transfer(ld.headerPhis, latch, regs).Some? {
      ContinueHead(ld, latch, env);
      TransferArgs(ld, latch, scope, regs, env, ValuesOf(ContinueArgs(ld, latch), env));
    }
  }

  lemma OperandAgrees(o: Operand, scope: set<Reg>, regs: Regs, env: Env)
    requires ReadsIn([o], scope) && Agree(scope, regs, env) && Read(o, regs).Some?
    ensures ValueOf(Spec(o), env) == Read(o, regs).value
  {
    assert o.Ref? ==> [o][0].reg in scope;
  }

  lemma ContinueHead(ld: LoopDef, latch: Block, env: Env)
    ensures HeadArgs(ld, latch, env, ValuesOf(ContinueArgs(ld, latch), env))
  {
  }

  lemma EntryHead(ld: LoopDef, pre: Block, env: Env)
    ensures HeadArgs(ld, pre, env, ValuesOf(EntryArgs(ld, pre), env))
  {
  }

  /** The term after the call of a loop. */
  function EvalAfter(m: Machine, d: Definitions, fuel: nat, pattern: seq<Name>, body: Term, env: Env,
                     r: Result): Result {
    match r
    case Done(vals, st) => if |vals| == |pattern| then Eval(m, d, fuel, body, Bind(env, pattern, vals), st) else IsNone
    case _ => r
  }

  lemma EvalLoop(m: Machine, p: Program, fuel: nat, l: seq<Inst>, cur: Option<Block>, env: Env, st: RData)
    requires l != [] && l[0].Loop? && l[0].preheader in p
    ensures var pre := l[0].preheader;
      Eval(m, Defs(p), fuel, Lower(p, l, cur), env, st) ==
        EvalAfter(m, Defs(p), fuel, Pattern(p[pre]), Lower(p, l[1..], cur), env,
          Apply(m, Defs(p), fuel, pre, ValuesOf(EntryArgs(p[pre], pre), env), st))
  {
    hide Apply, Bind;
  }

  lemma {:induction false} LowerLoop(m: Machine, p: Program, fuel: nat, l: seq<Inst>, cur: Option<Block>,
                                     scope: set<Reg>, regs: Regs, env: Env, st: RData)
    requires LoopsShaped(p) && LoopsFramed(p) && LoopsScoped(p) && InLoop(p, cur, scope)
    requires l != [] && l[0].Loop? && Scoped(p, l, scope, cur) && Agree(scope, regs, env)
    ensures Simulates(m, p, fuel, cur, Exec(m, p, fuel, l, regs, st), Eval(m, Defs(p), fuel, Lower(p, l, cur), env, st))
    decreases fuel, 1, l, 0
  {
    hide Exec, Eval, Lower, Apply, RunLoop, Simulates, Leave, Transfer, WellShaped, Bind, SetAll;
    var pre := l[0].preheader;
    var ld := p[pre];
    var start := Transfer(ld.headerPhis, pre, regs);
    ExecLoop(m, p, fuel, l, regs, st);
    if start.None? {
      StuckSimulates(m, p, fuel, cur, Eval(m, Defs(p), fuel, Lower(p, l, cur), env, st));
    } else {
      var args := ValuesOf(EntryArgs(ld, pre), env);
      EntryHead(ld, pre, env);
      TransferArgs(ld, pre, scope, regs, env, args);
      LoopCorrect(m, p, fuel, pre, start.value, args, st);
      LoopOutside(m, p, fuel, pre, regs, st);
      EvalLoop(m, p, fuel, l, cur, env, st);
      AfterCorrect(m, p, fuel, ld, l[1..], cur, scope, regs, env,
        RunLoop(m, p, fuel, pre, start.value, st), Apply(m, Defs(p), fuel, pre, args, st));
    }
  }

  /** `t` is the result of the Fixpoint, `r` that of the loop. */
  ghost predicate SameLoop(ld: LoopDef, r: Outcome, t: Result) {
    match r
    case Broke(exiting, regs, st) => t.Done? && t.st == st && BreakVals(ld, exiting, regs, t.vals)
    case Undefined => t == IsNone
    case OutOfFuel => t == NoFuel
    case Stuck => true
    case _ => false
  }

  lemma {:induction false} AfterCorrect(m: Machine, p: Program, fuel: nat, ld: LoopDef, rest: seq<Inst>,
                                        cur: Option<Block>, scope: set<Reg>, regs: Regs, env: Env, r: Outcome,
                                        t: Result)
    requires LoopsShaped(p) && LoopsFramed(p) && LoopsScoped(p) && InLoop(p, cur, scope)
    requires WellShaped(ld) && ld.regs !! scope && Scoped(p, rest, scope + Results(ld), cur) && Agree(scope, regs, env)
    requires SameLoop(ld, r, t) && (r.Broke? ==> SameOutside(regs, r.env, ld.regs))
    ensures Simulates(m, p, fuel, cur, ExecAfter(m, p, fuel, ld, rest, r),
      EvalAfter(m, Defs(p), fuel, Pattern(ld), Lower(p, rest, cur), env, t))
    decreases fuel, 1, rest, 2
  {
    hide Exec, Eval, Lower, Simulates, Leave, WellShaped, Bind, Scoped;
    match r
    case Broke(exiting, regs', st) =>
      var after := Leave(ld, exiting, regs');
      if after.Some? {
        LeaveAgrees(ld, exiting, scope, regs, regs', after.value, env, t.vals);
        LowerCorrect(m, p, fuel, rest, cur, scope + Results(ld), after.value, Bind(env, Pattern(ld), t.vals), st);
      } else {
        StuckSimulates(m, p, fuel, cur, EvalAfter(m, Defs(p), fuel, Pattern(ld), Lower(p, rest, cur), env, t));
      }
    case Undefined =>
      LeafSimulates(m, p, fuel, cur, Undefined, IsNone);
    case OutOfFuel =>
      FuelSimulates(m, p, fuel, cur);
    case _ =>
      StuckSimulates(m, p, fuel, cur, EvalAfter(m, Defs(p), fuel, Pattern(ld), Lower(p, rest, cur), env, t));
  }

  lemma FuelSimulates(m: Machine, p: Program, fuel: nat, cur: Option<Block>)
    requires cur.Some? ==> cur.value in p
    ensures Simulates(m, p, fuel, cur, OutOfFuel, NoFuel)
  {
  }

  lemma LoopOutside(m: Machine, p: Program, fuel: nat, pre: Block, env: Regs, st: RData)
    requires LoopsShaped(p) && LoopsFramed(p) && pre in p && Transfer(p[pre].headerPhis, pre, env).Some?
    ensures var r := RunLoop(m, p, fuel, pre, Transfer(p[pre].headerPhis, pre, env).value, st);
      r.Broke? ==> SameOutside(env, r.env, p[pre].regs)
    decreases fuel, 0, 1
  {
    hide RunLoop, WellShaped;
    var start := Transfer(p[pre].headerPhis, pre, env).value;
    TransferOutside(p[pre], pre, env);
    LoopFrame(m, p, fuel, pre, start, st);
    var r := RunLoop(m, p, fuel, pre, start, st);
    if r.Broke? {
      OutsideTwice(env, start, r.env, p[pre].regs, p[pre].regs);
    }
  }

  /** The generated Fixpoint, called with what the loop's registers hold, gives the loop's results exactly
      when the loop breaks, none exactly when it runs into something undefined, and goes on as long as it. */
  lemma {:induction false} LoopCorrect(m: Machine, p: Program, fuel: nat, pre: Block, regs: Regs, args: seq<int>,
                                       st: RData)
    requires LoopsShaped(p) && LoopsFramed(p) && LoopsScoped(p) && pre in p && LoopArgs(p[pre], regs, args)
    ensures SameLoop(p[pre], RunLoop(m, p, fuel, pre, regs, st), Apply(m, Defs(p), fuel, pre, args, st))
    decreases fuel, 0
  {
    hide Exec, Eval, Lower, Scoped, Bind, Transfer, WellShaped, SetsOnly;
    if fuel > 0 {
      var ld := p[pre];
      var env := Bind(map[], Params(ld), args);
      ArgsAgree(ld, regs, args);
      LowerCorrect(m, p, fuel - 1, ld.body, Some(pre), Bodies(ld), regs, env, st);
      NoReturn(m, p, fuel - 1, ld.body, regs, st);
      match Exec(m, p, fuel - 1, ld.body, regs, st)
      case Continued(latch, regs', st') =>
        var next := Transfer(ld.headerPhis, latch, regs');
        if next.Some? {
          var args' :| LoopArgs(ld, next.value, args')
            && Eval(m, Defs(p), fuel - 1, Lower(p, ld.body, Some(pre)), env, st) ==
               Apply(m, Defs(p), fuel - 1, pre, args', st');
          LoopCorrect(m, p, fuel - 1, pre, next.value, args', st');
        }
      case _ =>
    }
  }

  lemma {:induction false} NoReturn(m: Machine, p: Program, fuel: nat, l: seq<Inst>, env: Regs, st: RData)
    requires StaysInLoop(l)
    ensures !Exec(m, p, fuel, l, env, st).Returned?
    decreases l
  {
    match l[0]
    case Pure(dst, op, args) =>
      if ReadAll(args, env).Some? {
        NoReturn(m, p, fuel, l[1..], env[dst := m.pure(op, ReadAll(args, env).value)], st);
      }
    case Effect(result, op, args) =>
      if ReadAll(args, env).Some? {
        var r := m.effect(op, ReadAll(args, env).value, st);
        if r.Some? {
          NoReturn(m, p, fuel, l[1..], if result.Some? then env[result.value := r.value.0] else env, r.value.1);
        }
      }
    case If(cond, thn, els) =>
      NoReturn(m, p, fuel, thn, env, st);
      NoReturn(m, p, fuel, els, env, st);
    case Loop(pre) =>
      if pre in p && Transfer(p[pre].headerPhis, pre, env).Some? {
        match RunLoop(m, p, fuel, pre, Transfer(p[pre].headerPhis, pre, env).value, st)
        case Broke(exiting, env', st') =>
          if Leave(p[pre], exiting, env').Some? {
            NoReturn(m, p, fuel, l[1..], Leave(p[pre], exiting, env').value, st');
          }
        case _ =>
      }
    case _ =>
  }

  /** The name a register of the loop has after it holds what the register held when the loop was left. */
  lemma AfterHolds(ld: LoopDef, exiting: Block, regs: Regs, env: Env, vals: seq<int>, r: Reg)
    requires WellShaped(ld) && BreakVals(ld, exiting, regs, vals) && |vals| == |Pattern(ld)|
    requires r in Bodies(ld) && r in regs
    ensures After(r) in Bind(env, Pattern(ld), vals) && Bind(env, Pattern(ld), vals)[After(r)] == regs[r]
  {
    hide Bind;
    ParamsDistinct(ld);
    var k := ParamOf(ld, r);
    BodyParam(ld, k);
    assert HeldAt(ld, regs, vals, k);
    BindAt(env, Pattern(ld), vals, k);
  }

  /** A loop and its Fixpoint, called on the values the loop starts with: one gives results exactly when the
      other breaks, the state and every result read later are the same, and so is what the loop's own registers held
      when it was left. */
  lemma LoopBecomesFixpoint(m: Machine, p: Program, fuel: nat, pre: Block, scope: set<Reg>, regs: Regs, env: Env,
                            st: RData)
    requires LoopsShaped(p) && LoopsFramed(p) && LoopsScoped(p) && pre in p && Agree(scope, regs, env)
    requires (forall r :: r in p[pre].passIn ==> r in scope) && ReadsIn(Incoming(p[pre].headerPhis, pre), scope)
    requires p[pre].regs !! scope && Transfer(p[pre].headerPhis, pre, regs).Some?
    requires !RunLoop(m, p, fuel, pre, Transfer(p[pre].headerPhis, pre, regs).value, st).Stuck?
    ensures var r := RunLoop(m, p, fuel, pre, Transfer(p[pre].headerPhis, pre, regs).value, st);
      var t := Apply(m, Defs(p), fuel, pre, ValuesOf(EntryArgs(p[pre], pre), env), st);
      && (t.Done? <==> r.Broke?) && (t.IsNone? <==> r.Undefined?) && (t.NoFuel? <==> r.OutOfFuel?)
      && (t.Done? ==> t.st == r.st && forall after :: Leave(p[pre], r.exiting, r.env) == Some(after) ==>
            |t.vals| == |Pattern(p[pre])| && Agree(scope + Results(p[pre]), after, Bind(env, Pattern(p[pre]), t.vals)))
      && (t.Done? ==> |t.vals| == |Pattern(p[pre])| && forall x :: x in Bodies(p[pre]) && x in r.env ==>
            && After(x) in Bind(env, Pattern(p[pre]), t.vals)
            && Bind(env, Pattern(p[pre]), t.vals)[After(x)] == r.env[x])
  {
    hide Exec, Eval, Lower, Apply, RunLoop, Leave, Transfer, WellShaped, Bind;
    var ld := p[pre];
    var start := Transfer(ld.headerPhis, pre, regs).value;
    var args := ValuesOf(EntryArgs(ld, pre), env);
    EntryHead(ld, pre, env);
    TransferArgs(ld, pre, scope, regs, env, args);
    LoopCorrect(m, p, fuel, pre, start, args, st);
    LoopOutside(m, p, fuel, pre, regs, st);
    var r, t := RunLoop(m, p, fuel, pre, start, st), Apply(m, Defs(p), fuel, pre, args, st);
    if r.Broke? {
      forall after | Leave(ld, r.exiting, r.env) == Some(after)
        ensures |t.vals| == |Pattern(ld)| && Agree(scope + Results(ld), after, Bind(env, Pattern(ld), t.vals))
      {
        LeaveAgrees(ld, r.exiting, scope, regs, r.env, after, env, t.vals);
      }
      forall x | x in Bodies(ld) && x in r.env
        ensures After(x) in Bind(env, Pattern(ld), t.vals) && Bind(env, Pattern(ld), t.vals)[After(x)] == r.env[x]
      {
        AfterHolds(ld, r.exiting, r.env, env, t.vals, x);
      }
    }
  }

  function ArgEnv(args: seq<Reg>, vals: seq<int>): Env
    requires |args| == |vals|
  {
    Bind(map[], Values(args), vals)
  }

  /** The specification generated for a whole function computes what the function does. */
  lemma FunctionCorrect(m: Machine, p: Program, fuel: nat, top: seq<Inst>, args: seq<Reg>, vals: seq<int>, st: RData)
    requires LoopsShaped(p) && LoopsFramed(p) && LoopsScoped(p)
    requires |args| == |vals| && NoDup(args) && Scoped(p, top, (set r | r in args), None)
    ensures match Exec(m, p, fuel, top, SetAll(map[], args, vals), st)
      case Returned(rets, st') => Eval(m, Defs(p), fuel, Lower(p, top, None), ArgEnv(args, vals), st) == Done(rets, st')
      case Undefined => Eval(m, Defs(p), fuel, Lower(p, top, None), ArgEnv(args, vals), st) == IsNone
      case OutOfFuel => Eval(m, Defs(p), fuel, Lower(p, top, None), ArgEnv(args, vals), st) == NoFuel
      case Stuck => true
      case _ => false
  {
    hide Exec, Eval, Lower, Scoped, Bind, SetAll;
    var scope := set r | r in args;
    forall r | r in scope
      ensures r in SetAll(map[], args, vals) && Value(r) in ArgEnv(args, vals)
      ensures ArgEnv(args, vals)[Value(r)] == SetAll(map[], args, vals)[r]
    {
      var i: nat :| i < |args| && args[i] == r;
      SetAllAt(map[], args, vals, i);
      assert Values(args)[i] == Value(r);
      BindAt(map[], Values(args), vals, i);
    }
    LowerCorrect(m, p, fuel, top, None, scope, SetAll(map[], args, vals), ArgEnv(args, vals), st);
  }
}
