/** The older translation of structured code: `break`, `continue` and `return` become boolean flags that the
    tuples of results carry along, and a loop becomes a recursive definition on its fuel that first runs the
    earlier rounds and then the body once more. */
module FlagEncoding {
  import opened Prelude

  type Op = nat
  type RData = map<int, int>
  type Name = string
  type LoopId = nat
  type Env = map<Name, int>

  const BREAK := "__break__"
  const CONTINUE := "__continue__"
  const RETURN := "__return__"
  const RETVAL := "__retval__"

  predicate IsFlag(x: Name) {
    x == BREAK || x == CONTINUE || x == RETURN
  }

  datatype Expr = Var(x: Name) | Const(n: int) | Prim(op: Op, args: seq<Expr>)

  /** `output`, `needInit`, `loopArgs` and `input` are what the analysis of inputs and outputs has noted. */
  datatype Stmt =
    | Assign(x: Name, e: Expr)
    | Call(x: Name, op: Op, args: seq<Expr>)
    | Branch(cond: Expr, thn: seq<Stmt>, els: seq<Stmt>, output: seq<Name>, needInit: seq<Name>)
    | While(id: LoopId, body: seq<Stmt>, loopArgs: seq<Name>, input: seq<Name>, output: seq<Name>)
    | BreakStmt
    | ContinueStmt
    | ReturnStmt(val: Option<Expr>)

  /** Each loop has a rank function over its inputs, written by hand: the number of rounds it may take. */
  datatype Model = Model(
    pure: (Op, seq<int>) -> int,
    call: (Op, seq<int>, RData) -> Option<(int, RData)>,
    rank: (LoopId, seq<int>) -> int)

  /** A name without a value has the default value. */
  function Get(env: Env, x: Name): int {
    if x in env then env[x] else 0
  }

  function GetAll(env: Env, xs: seq<Name>): (r: seq<int>)
    ensures |r| == |xs| && forall i :: 0 <= i < |xs| ==> r[i] == Get(env, xs[i])
  {
    seq(|xs|, i requires 0 <= i < |xs| => Get(env, xs[i]))
  }

  function Ev(m: Model, e: Expr, env: Env): int {
    match e
    case Var(x) => Get(env, x)
    case Const(n) => n
    case Prim(op, args) => m.pure(op, EvAll(m, args, env))
  }

  function EvAll(m: Model, es: seq<Expr>, env: Env): (r: seq<int>)
    ensures |r| == |es| && forall i :: 0 <= i < |es| ==> r[i] == Ev(m, es[i], env)
  {
    seq(|es|, i requires 0 <= i < |es| => Ev(m, es[i], env))
  }

  // ---------- running the code directly

  datatype Ending =
    | Fell(env: Env, st: RData)
    | Broke(env: Env, st: RData)
    | Continued(env: Env, st: RData)
    | Returned(env: Env, st: RData)   // the value is in RETVAL
    | Undef
    | OutOfFuel

  datatype Progress = Running(env: Env, st: RData) | Ended(how: Ending)

  function Run(m: Model, l: seq<Stmt>, env: Env, st: RData): Ending
    decreases l, 0
  {
    if l == [] then Fell(env, st)
    else match l[0]
      case Assign(x, e) => Run(m, l[1..], env[x := Ev(m, e, env)], st)
      case Call(x, op, args) =>
        var r := m.call(op, EvAll(m, args, env), st);
        if r.None? then Undef else Run(m, l[1..], env[x := r.value.0], r.value.1)
      case Branch(cond, thn, els, _, _) =>
        var r := Run(m, if Ev(m, cond, env) != 0 then thn else els, env, st);
        if r.Fell? then Run(m, l[1..], r.env, r.st) else r
      case While(id, body, _, input, _) =>
        var n := m.rank(id, GetAll(env, input));
        if n < 0 then Undef
        else
          var r := LoopEnd(Rounds(m, body, n, env, st));
          if r.Fell? then Run(m, l[1..], r.env, r.st) else r
      case BreakStmt => Broke(env, st)
      case ContinueStmt => Continued(env, st)
      case ReturnStmt(None) => Returned(env, st)
      case ReturnStmt(Some(e)) => Returned(env[RETVAL := Ev(m, e, env)], st)
  }

  /** Where a loop stands after `n` rounds. */
  function Rounds(m: Model, body: seq<Stmt>, n: nat, env: Env, st: RData): Progress
    decreases body, n + 1
  {
    if n == 0 then Running(env, st)
    else match Rounds(m, body, n - 1, env, st)
      case Running(env', st') => Round(m, body, env', st')
      case Ended(how) => Ended(how)
  }

  function Round(m: Model, body: seq<Stmt>, env: Env, st: RData): Progress
    decreases body, 1
  {
    match Run(m, body, env, st)
    case Fell(env', st') => Running(env', st')
    case Continued(env', st') => Running(env', st')
    case how => Ended(how)
  }

  function LoopEnd(p: Progress): Ending {
    match p
    case Running(_, _) => OutOfFuel
    case Ended(Broke(env, st)) => Fell(env, st)
    case Ended(how) => how
  }

  /** The rounds may as well be counted from the first one on. */
  lemma {:induction false} RoundsFromFirst(m: Model, body: seq<Stmt>, n: nat, env: Env, st: RData)
    requires n > 0
    ensures Rounds(m, body, n, env, st) ==
      match Round(m, body, env, st)
      case Running(env', st') => Rounds(m, body, n - 1, env', st')
      case Ended(how) => Ended(how)
  {
    hide Run;
    if n > 1 {
      RoundsFromFirst(m, body, n - 1, env, st);
    }
  }

  // ---------- the run the term makes

  /** A `break` stands somewhere in the text, of whichever loop. */
  predicate HasBreak(l: seq<Stmt>) {
    l != [] && (HasBreak(l[1..]) || match l[0]
      case Branch(_, thn, els, _, _) => HasBreak(thn) || HasBreak(els)
      case While(_, body, _, _, _) => HasBreak(body)
      case BreakStmt => true
      case _ => false)
  }

  /** An `if` with a `break` in it. */
  predicate Hands(s: Stmt) {
    s.Branch? && (HasBreak(s.thn) || HasBreak(s.els))
  }

  /** A loop within a loop, with a `break` in it. */
  predicate IsInnerLoop(s: Stmt, inLoop: bool) {
    inLoop && s.While? && HasBreak(s.body)
  }

  /** There is one flag for the `break`s of all loops, and an inner loop that has ended leaves it set.  While a break is
      pending in this way the code runs on, up to the end of the next `if` with a `break` in it, the next `continue` or
      the end of the list, and there breaks out of the outer loop.  An inner loop that runs out of fuel has no
      result. */
  function TermRun(m: Model, l: seq<Stmt>, inLoop: bool, pending: bool, env: Env, st: RData): Ending
    decreases l, 0
  {
    if l == [] then if pending then Broke(env, st) else Fell(env, st)
    else match l[0]
      case Assign(x, e) => TermRun(m, l[1..], inLoop, pending, env[x := Ev(m, e, env)], st)
      case Call(x, op, args) =>
        var r := m.call(op, EvAll(m, args, env), st);
        if r.None? then Undef else TermRun(m, l[1..], inLoop, pending, env[x := r.value.0], r.value.1)
      case Branch(cond, thn, els, _, _) =>
        var r := TermRun(m, if Ev(m, cond, env) != 0 then thn else els, inLoop, pending && Hands(l[0]), env, st);
        if r.Fell? then TermRun(m, l[1..], inLoop, pending, r.env, r.st) else Left(r, pending)
      case While(id, body, _, input, _) =>
        var n := m.rank(id, GetAll(env, input));
        if n < 0 then Undef
        else
          var r := TermLoopEnd(TermRounds(m, body, n, env, st), IsInnerLoop(l[0], inLoop));
          if r.Fell? then TermRun(m, l[1..], inLoop, pending || IsInnerLoop(l[0], inLoop), r.env, r.st) else r
      case BreakStmt => Broke(env, st)
      case ContinueStmt => Left(Continued(env, st), pending)
      case ReturnStmt(None) => Returned(env, st)
      case ReturnStmt(Some(e)) => Returned(env[RETVAL := Ev(m, e, env)], st)
  }

  /** With a break pending, going round is breaking. */
  function Left(how: Ending, pending: bool): Ending {
    if pending && how.Continued? then Broke(how.env, how.st) else how
  }

  function TermRounds(m: Model, body: seq<Stmt>, n: nat, env: Env, st: RData): Progress
    decreases body, n + 1
  {
    if n == 0 then Running(env, st)
    else match TermRounds(m, body, n - 1, env, st)
      case Running(env', st') => TermRound(m, body, env', st')
      case Ended(how) => Ended(how)
  }

  function TermRound(m: Model, body: seq<Stmt>, env: Env, st: RData): Progress
    decreases body, 1
  {
    match TermRun(m, body, true, false, env, st)
    case Fell(env', st') => Running(env', st')
    case Continued(env', st') => Running(env', st')
    case how => Ended(how)
  }

  function TermLoopEnd(p: Progress, inner: bool): Ending {
    match p
    case Running(_, _) => if inner then Undef else OutOfFuel
    case Ended(Broke(env, st)) => Fell(env, st)
    case Ended(how) => how
  }

  // ---------- the terms

  datatype Term =
    | LetT(x: Name, e: Expr, body: Term)
    | CallT(x: Name, op: Op, args: seq<Expr>, body: Term)
    | IfT(cond: Expr, thn: Term, els: Term)
    | WhenT(names: seq<Name>, val: Term, body: Term)
    | LoopT(params: seq<Name>, step: Term, id: LoopId, input: seq<Name>, init: seq<Expr>, body: Term)
    | TupleT(names: seq<Name>)
    | NoneT

  datatype Result = NoResult | Result(vals: seq<int>, st: RData)

  function Eval(m: Model, t: Term, env: Env, st: RData): Result
    decreases t, 0
  {
    match t
    case LetT(x, e, body) => Eval(m, body, env[x := Ev(m, e, env)], st)
    case CallT(x, op, args, body) =>
      var r := m.call(op, EvAll(m, args, env), st);
      if r.None? then NoResult else Eval(m, body, env[x := r.value.0], r.value.1)
    case IfT(cond, thn, els) => if Ev(m, cond, env) != 0 then Eval(m, thn, env, st) else Eval(m, els, env, st)
    case WhenT(names, val, body) =>
      var r := Eval(m, val, env, st);
      if r.NoResult? || |r.vals| != |names| then NoResult else Eval(m, body, BindAll(env, names, r.vals), r.st)
    case LoopT(params, step, id, input, init, body) =>
      var n := m.rank(id, GetAll(env, input));
      if n < 0 then NoResult
      else
        var r := Fix(m, params, step, n, EvAll(m, init, env), st);
        if r.NoResult? || |r.vals| != |params| then NoResult else Eval(m, body, BindAll(env, params, r.vals), r.st)
    case TupleT(names) => Result(GetAll(env, names), st)
    case NoneT => NoResult
  }

  /** The recursive definition of a loop: without fuel its arguments, else one step on what the rest of the fuel
      gives. */
  function Fix(m: Model, params: seq<Name>, step: Term, n: nat, args: seq<int>, st: RData): Result
    decreases step, n + 1
  {
    if n == 0 then Result(args, st)
    else
      var r := Fix(m, params, step, n - 1, args, st);
      if r.NoResult? || |r.vals| != |params| then NoResult else Eval(m, step, BindAll(map[], params, r.vals), r.st)
  }

  // ---------- the translation

  /** `ir_insts_to_spec`: the term that returns `outs`. */
  function Translate(l: seq<Stmt>, outs: seq<Name>, inLoop: bool): Term {
    if l == [] then TupleT(outs)
    else
      var rest := Translate(l[1..], outs, inLoop);
      match l[0]
      case Assign(x, e) => LetT(x, e, rest)
      case Call(x, op, args) => CallT(x, op, args, rest)
      case ReturnStmt(None) => LetT(RETURN, Const(1), rest)
      case ReturnStmt(Some(e)) => LetT(RETURN, Const(1), LetT(RETVAL, e, rest))
      case BreakStmt => LetT(BREAK, Const(1), rest)
      case ContinueStmt => LetT(CONTINUE, Const(1), rest)
      case Branch(cond, thn, els, output, needInit) =>
        WhenT(output, Inits(needInit, IfT(cond, Translate(thn, output, inLoop), Translate(els, output, inLoop))),
              AfterBranch(output, outs, inLoop, rest))
      case While(id, body, loopArgs, input, output) =>
        if GoesRoundForever(body) then NoneT
        else
          LoopT(loopArgs, Step(loopArgs, Translate(body, loopArgs, true)), id, input, LoopInit(loopArgs, input),
                AfterLoop(output, outs, rest))
  }

  function Inits(needInit: seq<Name>, t: Term): Term {
    if needInit == [] then t else LetT(needInit[|needInit| - 1], Const(0), Inits(needInit[..|needInit| - 1], t))
  }

  function AfterBranch(output: seq<Name>, outs: seq<Name>, inLoop: bool, rest: Term): Term {
    var t := if inLoop && CONTINUE in output then IfT(Var(CONTINUE), TupleT(outs), rest) else rest;
    var t := if inLoop && BREAK in output then IfT(Var(BREAK), TupleT(outs), t) else t;
    if RETURN in output then IfT(Var(RETURN), TupleT(outs), t) else t
  }

  predicate GoesRoundForever(body: seq<Stmt>) {
    |body| == 1 && match body[0]
      case Branch(_, _, _, output, _) => output == [CONTINUE]
      case While(_, _, _, _, output) => output == [CONTINUE]
      case ContinueStmt => true
      case _ => false
  }

  function Step(loopArgs: seq<Name>, body: Term): Term {
    var t := if RETURN in loopArgs then IfT(Var(RETURN), TupleT(loopArgs), body) else body;
    if BREAK in loopArgs then IfT(Var(BREAK), TupleT(loopArgs), t) else t
  }

  function LoopInit(loopArgs: seq<Name>, input: seq<Name>): (r: seq<Expr>)
    ensures |r| == |loopArgs|
  {
    seq(|loopArgs|, i requires 0 <= i < |loopArgs| =>
      if loopArgs[i] == RETURN || loopArgs[i] == BREAK || loopArgs[i] !in input then Const(0) else Var(loopArgs[i]))
  }

  function AfterLoop(output: seq<Name>, outs: seq<Name>, rest: Term): Term {
    var t := if BREAK in output then IfT(Var(BREAK), rest, NoneT) else rest;
    if RETURN in output then IfT(Var(RETURN), TupleT(outs), t) else t
  }

  // ---------- which variables matter

  /** What is read after a list has ended, by the way it has ended. */
  datatype Needs = Needs(fall: set<Name>, brk: set<Name>, cont: set<Name>, ret: set<Name>)

  function Needed(needs: Needs, how: Ending): set<Name> {
    match how
    case Fell(_, _) => needs.fall
    case Broke(_, _) => needs.brk
    case Continued(_, _) => needs.cont
    case Returned(_, _) => needs.ret
    case _ => {}
  }

  function Vars(e: Expr): set<Name> {
    match e
    case Var(x) => {x}
    case Const(_) => {}
    case Prim(_, args) => VarsAll(args)
  }

  function VarsAll(es: seq<Expr>): (r: set<Name>)
    ensures forall i :: 0 <= i < |es| ==> Vars(es[i]) <= r
  {
    if es == [] then {} else Vars(es[0]) + VarsAll(es[1..])
  }

  function Names(xs: seq<Name>): set<Name> {
    set x | x in xs
  }

  /** A break left behind by the statement, or by one before it, is pending after it. */
  predicate PendingAfter(s: Stmt, inLoop: bool, pending: bool) {
    pending || IsInnerLoop(s, inLoop)
  }

  /** A run can come past the statement, as far as the text tells. */
  predicate GoesOn(s: Stmt, inLoop: bool, pending: bool) {
    match s
    case Assign(_, _) => true
    case Call(_, _, _) => true
    case Branch(_, thn, els, _, _) => !(pending && Hands(s)) && (Falls(thn, inLoop, false) || Falls(els, inLoop, false))
    case While(_, body, _, _, _) => HasBreak(body)
    case _ => false
  }

  predicate Falls(l: seq<Stmt>, inLoop: bool, pending: bool) {
    if l == [] then !pending
    else GoesOn(l[0], inLoop, pending) && Falls(l[1..], inLoop, PendingAfter(l[0], inLoop, pending))
  }

  /** What is read after the end of the rest of a list: with a break pending every end is a break. */
  function NeedsAfter(s: Stmt, inLoop: bool, needs: Needs): Needs {
    if IsInnerLoop(s, inLoop) then Needs(needs.brk, needs.brk, needs.brk, needs.ret) else needs
  }

  /** What is read after the end of a branch. */
  function BranchNeeds(s: Stmt, pending: bool, after: set<Name>, needs: Needs): Needs {
    if pending && Hands(s) then needs else needs.(fall := after)
  }

  /** The variables with a value that may still be read. */
  function Live(l: seq<Stmt>, inLoop: bool, pending: bool, needs: Needs): set<Name>
    decreases l, 0
  {
    if l == [] then needs.fall
    else
      var after := LiveAfter(l, inLoop, pending, needs);
      match l[0]
      case Assign(x, e) => after - {x} + Vars(e)
      case Call(x, _, args) => after - {x} + VarsAll(args)
      case Branch(cond, thn, els, _, _) =>
        var sub, hands := BranchNeeds(l[0], pending, after, needs), pending && Hands(l[0]);
        Vars(cond) + Live(thn, inLoop, hands, sub) + Live(els, inLoop, hands, sub)
      case While(_, body, loopArgs, input, _) =>
        Names(input) + (after + (if RETURN in Exits(body) then needs.ret else {}) - Names(loopArgs))
      case BreakStmt => needs.brk
      case ContinueStmt => needs.cont
      case ReturnStmt(None) => needs.ret
      case ReturnStmt(Some(e)) => needs.ret - {RETVAL} + Vars(e)
  }

  /** Those read after the first statement of a list. */
  function LiveAfter(l: seq<Stmt>, inLoop: bool, pending: bool, needs: Needs): set<Name>
    requires l != []
    decreases l[1..], 1
  {
    if GoesOn(l[0], inLoop, pending)
    then Live(l[1..], inLoop, PendingAfter(l[0], inLoop, pending), NeedsAfter(l[0], inLoop, needs))
    else {}
  }

  function Assigned(l: seq<Stmt>): set<Name> {
    if l == [] then {}
    else
      Assigned(l[1..]) + match l[0]
        case Assign(x, _) => {x}
        case Call(x, _, _) => {x}
        case Branch(_, thn, els, _, _) => Assigned(thn) + Assigned(els)
        case While(_, body, _, _, _) => Assigned(body)
        case ReturnStmt(Some(_)) => {RETVAL}
        case _ => {}
  }

  /** The flags for the ways a list may be left early. */
  function Exits(l: seq<Stmt>): set<Name> {
    if l == [] then {}
    else
      Exits(l[1..]) + match l[0]
        case Branch(_, thn, els, _, _) => Exits(thn) + Exits(els)
        case While(_, body, _, _, _) => Exits(body) * {RETURN}
        case BreakStmt => {BREAK}
        case ContinueStmt => {CONTINUE}
        case ReturnStmt(_) => {RETURN}
        case _ => {}
  }

  /** What is read after an early exit of a branch. */
  function NeededFor(s: Stmt, inLoop: bool, needs: Needs): set<Name>
    requires s.Branch?
  {
    var exits := Exits(s.thn) + Exits(s.els);
    (if inLoop && Hands(s) then needs.brk else {}) + (if CONTINUE in exits then needs.cont else {})
      + (if RETURN in exits then needs.ret else {})
  }

  predicate FlagFree(xs: set<Name>) {
    forall x :: x in xs ==> !IsFlag(x)
  }

  function BodyNeeds(w: Stmt, after: set<Name>, needs: Needs): Needs
    requires w.While?
  {
    Needs(Names(w.input), after * Names(w.loopArgs), Names(w.input), needs.ret * Names(w.loopArgs))
  }

  /** The noted lists cover what is read later, and early exits come last in their lists. */
  predicate Covered(l: seq<Stmt>, inLoop: bool, pending: bool, needs: Needs) {
    l != [] ==>
      var after := LiveAfter(l, inLoop, pending, needs);
      && FlagFree(Assigned(l))
      && (GoesOn(l[0], inLoop, pending) ==>
            Covered(l[1..], inLoop, PendingAfter(l[0], inLoop, pending), NeedsAfter(l[0], inLoop, needs)))
      && match l[0]
        case Assign(x, e) => FlagFree(Vars(e))
        case Call(x, _, args) => FlagFree(VarsAll(args))
        case Branch(cond, thn, els, output, needInit) =>
          var sub, hands := BranchNeeds(l[0], pending, after, needs), pending && Hands(l[0]);
          && FlagFree(Vars(cond)) && Covered(thn, inLoop, hands, sub) && Covered(els, inLoop, hands, sub)
          && Exits(thn) + Exits(els) <= Names(output)
          && (inLoop ==> BREAK !in needInit && (BREAK in output <==> Hands(l[0])))
          && (Assigned(thn) + Assigned(els)) * (after + NeededFor(l[0], inLoop, needs)) <= Names(output)
          && Names(needInit) !! Vars(cond) + Live(thn, inLoop, hands, sub) + Live(els, inLoop, hands, sub)
        case While(id, body, loopArgs, input, output) =>
          FlagFree(Names(input)) && LoopCovered(l[0], inLoop, after, needs)
        case ReturnStmt(val) => |l| == 1 && (val.Some? ==> FlagFree(Vars(val.value)))
        case _ => |l| == 1 && inLoop
  }

  /** The lists of a loop cover what its rounds and the code after it read. */
  predicate LoopCovered(w: Stmt, inLoop: bool, after: set<Name>, needs: Needs)
    requires w.While?
  {
    var inner := BodyNeeds(w, after, needs);
    && Covered(w.body, true, false, inner)
    && NoDup(w.loopArgs) && Names(w.input) <= Names(w.loopArgs) && CONTINUE !in w.loopArgs
    && Live(w.body, true, false, inner) <= Names(w.input) && Assigned(w.body) * (after + needs.ret) <= Names(w.loopArgs)
    && (BREAK in w.loopArgs <==> HasBreak(w.body)) && (IsInnerLoop(w, inLoop) ==> BREAK in w.output)
    && (RETURN in Exits(w.body) ==> RETURN in w.loopArgs && RETURN in w.output)
  }

  // ---------- agreement between the run and the term

  predicate Agree(xs: set<Name>, d: Env, t: Env) {
    forall x :: x in xs ==> Get(d, x) == Get(t, x)
  }

  /** The flags as a list starts.  That of `break` is looked at only where there are `break`s or it is handed on. */
  predicate FlagsAre(t: Env, inLoop: bool, pending: bool, shown: bool) {
    Get(t, RETURN) == 0 && (inLoop ==> Get(t, CONTINUE) == 0 && (shown ==> Get(t, BREAK) == if pending then 1 else 0))
  }

  predicate Shown(l: seq<Stmt>, outs: seq<Name>) {
    HasBreak(l) || BREAK in outs
  }

  predicate FlagsClear(t: Env, inLoop: bool) {
    FlagsAre(t, inLoop, false, true)
  }

  predicate NeedsFlagFree(needs: Needs) {
    FlagFree(needs.fall + needs.brk + needs.cont + needs.ret)
  }

  /** With a break pending a list ends by it or by `return`. */
  predicate Pended(inLoop: bool, pending: bool, needs: Needs) {
    pending ==> inLoop && needs.fall == needs.brk && needs.cont == needs.brk
  }

  function FlagOf(how: Ending): Name {
    match how
    case Broke(_, _) => BREAK
    case Continued(_, _) => CONTINUE
    case Returned(_, _) => RETURN
    case _ => ""
  }

  predicate Ends(how: Ending) {
    !how.Undef? && !how.OutOfFuel?
  }

  /** `v` is right for the name `x` at the end of a list: a flag says how it has ended, as far as one asked before it
      does not, a variable has its value. */
  predicate RightAt(x: Name, v: int, how: Ending, inLoop: bool, needs: Needs)
    requires Ends(how)
  {
    if x == RETURN then v == if how.Returned? then 1 else 0
    else if x == BREAK then inLoop && !how.Returned? ==> v == if how.Broke? then 1 else 0
    else if x == CONTINUE then inLoop && !how.Returned? && !how.Broke? ==> v == if how.Continued? then 1 else 0
    else x in Needed(needs, how) ==> v == Get(how.env, x)
  }

  /** The term computes the tuple that belongs to the ending. */
  ghost predicate Right(r: Result, outs: seq<Name>, how: Ending, inLoop: bool, needs: Needs) {
    match how
    case Undef => r == NoResult
    case OutOfFuel => true
    case _ =>
      && r.Result? && |r.vals| == |outs| && r.st == how.st
      && forall i :: 0 <= i < |outs| ==> RightAt(outs[i], r.vals[i], how, inLoop, needs)
  }

  /** The same for an environment. */
  ghost predicate Reflects(t: Env, how: Ending, inLoop: bool, needs: Needs, shown: bool) {
    Ends(how) && forall x :: (x == BREAK ==> shown) ==> RightAt(x, Get(t, x), how, inLoop, needs)
  }

  lemma GetBound(env: Env, names: seq<Name>, vals: seq<int>, x: Name)
    requires |names| == |vals|
    ensures Get(BindAll(env, names, vals), x) == if x in names then vals[LastIndex(names, x)] else Get(env, x)
  {
  }

  lemma TupleRight(m: Model, outs: seq<Name>, t: Env, how: Ending, inLoop: bool, needs: Needs, shown: bool)
    requires Reflects(t, how, inLoop, needs, shown) && (BREAK in outs ==> shown)
    ensures Right(Eval(m, TupleT(outs), t, how.st), outs, how, inLoop, needs)
  {
    hide RightAt;
  }

  lemma AgreeSet(xs: set<Name>, ys: set<Name>, d: Env, t: Env, x: Name, v: int)
    requires Agree(ys, d, t) && xs - {x} <= ys
    ensures Agree(xs, d[x := v], t[x := v])
  {
    forall y | y in xs ensures Get(d[x := v], y) == Get(t[x := v], y) {
      assert y != x ==> y in ys;
    }
  }

  lemma AgreeFlag(xs: set<Name>, d: Env, t: Env)
    requires Agree(xs, d, t) && FlagFree(xs)
    ensures Agree(xs, d, t[RETURN := 1])
  {
  }

  lemma {:induction false} EvAgree(m: Model, e: Expr, d: Env, t: Env)
    requires Agree(Vars(e), d, t)
    ensures Ev(m, e, d) == Ev(m, e, t)
  {
    if e.Prim? {
      EvAllAgree(m, e.args, d, t);
    }
  }

  lemma {:induction false} EvAllAgree(m: Model, es: seq<Expr>, d: Env, t: Env)
    requires Agree(VarsAll(es), d, t)
    ensures EvAll(m, es, d) == EvAll(m, es, t)
  {
    forall i | 0 <= i < |es| ensures Ev(m, es[i], d) == Ev(m, es[i], t) {
      EvAgree(m, es[i], d, t);
    }
  }

  // ---------- facts about the run

  lemma {:induction false} LiveFlagFree(l: seq<Stmt>, inLoop: bool, pending: bool, needs: Needs)
    requires Covered(l, inLoop, pending, needs) && NeedsFlagFree(needs)
    ensures FlagFree(Live(l, inLoop, pending, needs)) && (l != [] ==> FlagFree(LiveAfter(l, inLoop, pending, needs)))
  {
    if l != [] {
      if GoesOn(l[0], inLoop, pending) {
        LiveFlagFree(l[1..], inLoop, PendingAfter(l[0], inLoop, pending), NeedsAfter(l[0], inLoop, needs));
      }
      if l[0].Branch? {
        var sub := BranchNeeds(l[0], pending, LiveAfter(l, inLoop, pending, needs), needs);
        LiveFlagFree(l[0].thn, inLoop, pending && Hands(l[0]), sub);
        LiveFlagFree(l[0].els, inLoop, pending && Hands(l[0]), sub);
      }
    }
  }

  /** With a break pending no list comes to its end or goes round. */
  lemma {:induction false} PendingEnds(m: Model, l: seq<Stmt>, inLoop: bool, env: Env, st: RData)
    ensures var how := TermRun(m, l, inLoop, true, env, st); !how.Fell? && !how.Continued?
  {
    hide TermRounds;
    if l != [] {
      match l[0]
      case Assign(x, e) => PendingEnds(m, l[1..], inLoop, env[x := Ev(m, e, env)], st);
      case Call(x, op, args) =>
        var r := m.call(op, EvAll(m, args, env), st);
        if r.Some? {
          PendingEnds(m, l[1..], inLoop, env[x := r.value.0], r.value.1);
        }
      case Branch(cond, thn, els, _, _) =>
        var r := TermRun(m, if Ev(m, cond, env) != 0 then thn else els, inLoop, Hands(l[0]), env, st);
        if r.Fell? {
          PendingEnds(m, l[1..], inLoop, r.env, r.st);
        }
      case While(id, body, _, input, _) =>
        var n := m.rank(id, GetAll(env, input));
        if n >= 0 {
          TermRoundsExit(m, body, n, env, st);
          var r := TermLoopEnd(TermRounds(m, body, n, env, st), IsInnerLoop(l[0], inLoop));
          if r.Fell? {
            PendingEnds(m, l[1..], inLoop, r.env, r.st);
          }
        }
      case _ =>
    }
  }

  /** The ending is one the text tells of. */
  predicate Tells(l: seq<Stmt>, pending: bool, how: Ending) {
    && (how.Broke? ==> pending || HasBreak(l)) && (how.Continued? ==> CONTINUE in Exits(l))
    && (how.Returned? ==> RETURN in Exits(l))
  }

  lemma TellsMore(l: seq<Stmt>, pending: bool, how: Ending)
    requires l != []
    ensures (Tells(l[1..], pending, how) ==> Tells(l, pending, how))
    ensures l[0].Branch? ==>
      var hands := pending && Hands(l[0]);
      Tells(l[0].thn, hands, how) || Tells(l[0].els, hands, how) ==> Tells(l, pending, Left(how, pending))
  {
  }

  lemma TellsLoop(l: seq<Stmt>, inLoop: bool, pending: bool, how: Ending)
    requires l != [] && l[0].While?
    ensures Tells(l[1..], pending || IsInnerLoop(l[0], inLoop), how) ==> Tells(l, pending, how)
    ensures how.Returned? && RETURN in Exits(l[0].body) ==> Tells(l, pending, how)
  {
  }

  /** Lists end early only the ways the text tells. */
  lemma {:induction false} ExitsTell(m: Model, l: seq<Stmt>, inLoop: bool, pending: bool, env: Env, st: RData)
    ensures Tells(l, pending, TermRun(m, l, inLoop, pending, env, st))
    decreases l, 0
  {
    if l != [] {
      hide TermRounds, Exits, HasBreak, Hands;
      TellsMore(l, pending, TermRun(m, l, inLoop, pending, env, st));
      match l[0]
      case Assign(x, e) => ExitsTell(m, l[1..], inLoop, pending, env[x := Ev(m, e, env)], st);
      case Call(x, op, args) =>
        var r := m.call(op, EvAll(m, args, env), st);
        if r.Some? {
          ExitsTell(m, l[1..], inLoop, pending, env[x := r.value.0], r.value.1);
        }
      case Branch(cond, thn, els, _, _) =>
        var b := if Ev(m, cond, env) != 0 then thn else els;
        var r := TermRun(m, b, inLoop, pending && Hands(l[0]), env, st);
        ExitsTell(m, b, inLoop, pending && Hands(l[0]), env, st);
        TellsMore(l, pending, r);
        if r.Fell? {
          ExitsTell(m, l[1..], inLoop, pending, r.env, r.st);
        }
      case While(id, body, _, input, _) =>
        var n := m.rank(id, GetAll(env, input));
        if n >= 0 {
          TermRoundsExit(m, body, n, env, st);
          var inner := IsInnerLoop(l[0], inLoop);
          var r := TermLoopEnd(TermRounds(m, body, n, env, st), inner);
          TellsLoop(l, inLoop, pending, TermRun(m, l, inLoop, pending, env, st));
          if r.Fell? {
            ExitsTell(m, l[1..], inLoop, pending || inner, r.env, r.st);
          }
        }
      case _ => LeafTells(m, l, inLoop, pending, env, st);
    }
  }

  lemma LeafTells(m: Model, l: seq<Stmt>, inLoop: bool, pending: bool, env: Env, st: RData)
    requires l != [] && (l[0].BreakStmt? || l[0].ContinueStmt? || l[0].ReturnStmt?)
    ensures Tells(l, pending, TermRun(m, l, inLoop, pending, env, st))
  {
  }

  lemma {:induction false} TermRoundsExit(m: Model, body: seq<Stmt>, n: nat, env: Env, st: RData)
    ensures var p := TermRounds(m, body, n, env, st);
      p.Ended? ==>
        && !p.how.Fell? && !p.how.Continued? && (p.how.Broke? ==> HasBreak(body))
        && (p.how.Returned? ==> RETURN in Exits(body))
    decreases body, n + 1
  {
    if n > 0 {
      TermRoundsExit(m, body, n - 1, env, st);
      var p := TermRounds(m, body, n - 1, env, st);
      if p.Running? {
        ExitsTell(m, body, true, false, p.env, p.st);
      }
    }
  }

  /** A run that comes to the end of a list shows that the text falls through. */
  lemma {:induction false} FellFalls(m: Model, l: seq<Stmt>, inLoop: bool, pending: bool, env: Env, st: RData)
    requires TermRun(m, l, inLoop, pending, env, st).Fell?
    ensures Falls(l, inLoop, pending)
    decreases l, 0
  {
    hide TermRounds;
    if l != [] {
      match l[0]
      case Assign(x, e) => FellFalls(m, l[1..], inLoop, pending, env[x := Ev(m, e, env)], st);
      case Call(x, op, args) =>
        var r := m.call(op, EvAll(m, args, env), st).value;
        FellFalls(m, l[1..], inLoop, pending, env[x := r.0], r.1);
      case Branch(cond, thn, els, _, _) =>
        BranchGoesOn(m, l, inLoop, pending, env, st);
        var r := TermRun(m, if Ev(m, cond, env) != 0 then thn else els, inLoop, pending && Hands(l[0]), env, st);
        FellFalls(m, l[1..], inLoop, pending, r.env, r.st);
      case While(id, body, _, input, _) =>
        var n := m.rank(id, GetAll(env, input));
        LoopGoesOn(m, l, inLoop, pending, n, env, st);
        var r := TermLoopEnd(TermRounds(m, body, n, env, st), IsInnerLoop(l[0], inLoop));
        FellFalls(m, l[1..], inLoop, PendingAfter(l[0], inLoop, pending), r.env, r.st);
    }
  }

  lemma {:induction false} BranchGoesOn(m: Model, l: seq<Stmt>, inLoop: bool, pending: bool, env: Env, st: RData)
    requires l != [] && l[0].Branch?
    requires var b := if Ev(m, l[0].cond, env) != 0 then l[0].thn else l[0].els;
      TermRun(m, b, inLoop, pending && Hands(l[0]), env, st).Fell?
    ensures GoesOn(l[0], inLoop, pending)
    decreases l, 0, 0
  {
    hide TermRun;
    var b, hands := if Ev(m, l[0].cond, env) != 0 then l[0].thn else l[0].els, pending && Hands(l[0]);
    FellFalls(m, b, inLoop, hands, env, st);
    if hands {
      PendingEnds(m, b, inLoop, env, st);
    }
  }

  lemma LoopGoesOn(m: Model, l: seq<Stmt>, inLoop: bool, pending: bool, n: nat, env: Env, st: RData)
    requires l != [] && l[0].While?
    requires TermLoopEnd(TermRounds(m, l[0].body, n, env, st), IsInnerLoop(l[0], inLoop)).Fell?
    ensures GoesOn(l[0], inLoop, pending)
  {
    hide TermRounds;
    TermRoundsExit(m, l[0].body, n, env, st);
  }

  lemma TermBranchRun(m: Model, l: seq<Stmt>, inLoop: bool, pending: bool, env: Env, st: RData)
    requires l != [] && l[0].Branch?
    ensures var b := if Ev(m, l[0].cond, env) != 0 then l[0].thn else l[0].els;
      var r := TermRun(m, b, inLoop, pending && Hands(l[0]), env, st);
      TermRun(m, l, inLoop, pending, env, st) ==
        if r.Fell? then TermRun(m, l[1..], inLoop, pending, r.env, r.st) else Left(r, pending)
  {
  }

  lemma TermWhileRun(m: Model, l: seq<Stmt>, inLoop: bool, pending: bool, env: Env, st: RData)
    requires l != [] && l[0].While?
    ensures var n, inner := m.rank(l[0].id, GetAll(env, l[0].input)), IsInnerLoop(l[0], inLoop);
      TermRun(m, l, inLoop, pending, env, st) ==
        if n < 0 then Undef
        else
          var r := TermLoopEnd(TermRounds(m, l[0].body, n, env, st), inner);
          if r.Fell? then TermRun(m, l[1..], inLoop, PendingAfter(l[0], inLoop, pending), r.env, r.st) else r
  {
    hide TermRounds, TermLoopEnd;
  }

  /** What is needed after a list whatever is pending. */
  predicate Kept(l: seq<Stmt>, inLoop: bool, pending: bool, needs: Needs, env: Env, how: Ending, x: Name) {
    Ends(how) ==> Get(how.env, x) == Get(env, x) && (x in Needed(needs, how) ==> x in Live(l, inLoop, pending, needs))
  }

  lemma KeptMore(l: seq<Stmt>, inLoop: bool, pending: bool, needs: Needs, env: Env, v: int, how: Ending, x: Name)
    requires l != [] && (l[0].Assign? || l[0].Call?) && x !in Assigned(l)
    requires Kept(l[1..], inLoop, pending, needs, env[l[0].x := v], how, x)
    ensures Kept(l, inLoop, pending, needs, env, how, x)
  {
    assert LiveAfter(l, inLoop, pending, needs) == Live(l[1..], inLoop, pending, needs);
  }

  /** What is not assigned keeps its value, and is live if it is needed in the end. */
  lemma {:induction false} Untouched(m: Model, l: seq<Stmt>, inLoop: bool, pending: bool, needs: Needs, env: Env,
                                     st: RData, x: Name)
    requires Covered(l, inLoop, pending, needs) && Pended(inLoop, pending, needs) && x !in Assigned(l)
    ensures Kept(l, inLoop, pending, needs, env, TermRun(m, l, inLoop, pending, env, st), x)
    decreases l, 1
  {
    if l != [] {
      hide TermRounds, Kept;
      match l[0]
      case Assign(y, e) =>
        var v := Ev(m, e, env);
        Untouched(m, l[1..], inLoop, pending, needs, env[y := v], st, x);
        KeptMore(l, inLoop, pending, needs, env, v, TermRun(m, l, inLoop, pending, env, st), x);
      case Call(y, op, args) =>
        var r := m.call(op, EvAll(m, args, env), st);
        if r.Some? {
          Untouched(m, l[1..], inLoop, pending, needs, env[y := r.value.0], r.value.1, x);
          KeptMore(l, inLoop, pending, needs, env, r.value.0, TermRun(m, l, inLoop, pending, env, st), x);
        } else {
          NeverKept(l, inLoop, pending, needs, env, x);
        }
      case Branch(_, _, _, _, _) => UntouchedBranch(m, l, inLoop, pending, needs, env, st, x);
      case While(_, _, _, _, _) => UntouchedLoop(m, l, inLoop, pending, needs, env, st, x);
      case _ => LeafKept(m, l, inLoop, pending, needs, env, st, x);
    }
  }

  lemma NeverKept(l: seq<Stmt>, inLoop: bool, pending: bool, needs: Needs, env: Env, x: Name)
    ensures Kept(l, inLoop, pending, needs, env, Undef, x)
  {
  }

  lemma LeafKept(m: Model, l: seq<Stmt>, inLoop: bool, pending: bool, needs: Needs, env: Env, st: RData, x: Name)
    requires l != [] && (l[0].BreakStmt? || l[0].ContinueStmt? || l[0].ReturnStmt?)
    requires Pended(inLoop, pending, needs) && x !in Assigned(l)
    ensures Kept(l, inLoop, pending, needs, env, TermRun(m, l, inLoop, pending, env, st), x)
  {
  }

  lemma {:induction false} UntouchedBranch(m: Model, l: seq<Stmt>, inLoop: bool, pending: bool, needs: Needs,
                                           env: Env, st: RData, x: Name)
    requires Covered(l, inLoop, pending, needs) && Pended(inLoop, pending, needs) && x !in Assigned(l)
    requires l != [] && l[0].Branch?
    ensures Kept(l, inLoop, pending, needs, env, TermRun(m, l, inLoop, pending, env, st), x)
    decreases l, 0
  {
    hide TermRun, TermRounds, FlagFree, Names, NeededFor, Vars, Exits;
    var sub := BranchNeeds(l[0], pending, LiveAfter(l, inLoop, pending, needs), needs);
    var b, hands := if Ev(m, l[0].cond, env) != 0 then l[0].thn else l[0].els, pending && Hands(l[0]);
    TermBranchRun(m, l, inLoop, pending, env, st);
    Untouched(m, b, inLoop, hands, sub, env, st, x);
    var r := TermRun(m, b, inLoop, hands, env, st);
    if r.Fell? {
      BranchGoesOn(m, l, inLoop, pending, env, st);
      Untouched(m, l[1..], inLoop, pending, needs, r.env, r.st, x);
    }
  }

  lemma {:induction false} UntouchedLoop(m: Model, l: seq<Stmt>, inLoop: bool, pending: bool, needs: Needs, env: Env,
                                         st: RData, x: Name)
    requires Covered(l, inLoop, pending, needs) && Pended(inLoop, pending, needs) && x !in Assigned(l)
    requires l != [] && l[0].While?
    ensures Kept(l, inLoop, pending, needs, env, TermRun(m, l, inLoop, pending, env, st), x)
    decreases l, 0
  {
    hide TermRun, TermRounds;
    var w := l[0];
    var n := m.rank(w.id, GetAll(env, w.input));
    TermWhileRun(m, l, inLoop, pending, env, st);
    if n >= 0 {
      TermRoundsExit(m, w.body, n, env, st);
      UntouchedRounds(m, w.body, BodyNeeds(w, LiveAfter(l, inLoop, pending, needs), needs), n, env, st, x);
      var r := TermLoopEnd(TermRounds(m, w.body, n, env, st), IsInnerLoop(w, inLoop));
      if r.Fell? {
        LoopGoesOn(m, l, inLoop, pending, n, env, st);
        var after, pending' := NeedsAfter(w, inLoop, needs), PendingAfter(w, inLoop, pending);
        Untouched(m, l[1..], inLoop, pending', after, r.env, r.st, x);
        if pending' {
          PendingEnds(m, l[1..], inLoop, r.env, r.st);
        }
      }
    }
  }

  lemma {:induction false} UntouchedRounds(m: Model, body: seq<Stmt>, needs: Needs, n: nat, env: Env, st: RData,
                                           x: Name)
    requires Covered(body, true, false, needs) && x !in Assigned(body)
    ensures match TermRounds(m, body, n, env, st)
      case Running(env', _) => Get(env', x) == Get(env, x)
      case Ended(how) => Kept(body, true, false, needs, env, how, x)
    decreases body, n + 2
  {
    if n > 0 {
      UntouchedRounds(m, body, needs, n - 1, env, st, x);
      var p := TermRounds(m, body, n - 1, env, st);
      if p.Running? {
        Untouched(m, body, true, false, needs, p.env, p.st, x);
      }
    }
  }

  // ---------- the pieces of a term

  lemma EvalFlagIf(m: Model, flag: Name, thn: Term, els: Term, t: Env, st: RData)
    ensures Eval(m, IfT(Var(flag), thn, els), t, st) == if Get(t, flag) != 0 then Eval(m, thn, t, st)
      else Eval(m, els, t, st)
  {
  }

  lemma {:induction false} InitsEval(m: Model, needInit: seq<Name>, t: Term, env: Env, st: RData)
    ensures Eval(m, Inits(needInit, t), env, st) == Eval(m, t, BindAll(env, needInit, Zeros(|needInit|)), st)
  {
    hide BindAll;
    if needInit == [] {
      ZerosLast(env, needInit);
    } else {
      var n := |needInit|;
      InitsEval(m, needInit[..n - 1], t, env[needInit[n - 1] := 0], st);
      ZerosLast(env, needInit);
    }
  }

  lemma ZerosBound(env: Env, xs: seq<Name>)
    ensures BindAll(env, xs, Zeros(|xs|)) == env + map x | x in xs :: 0
  {
  }

  lemma ZerosLast(env: Env, xs: seq<Name>)
    ensures xs == [] ==> BindAll(env, xs, Zeros(0)) == env
    ensures xs != [] ==>
      BindAll(env, xs, Zeros(|xs|)) == BindAll(env[xs[|xs| - 1] := 0], xs[..|xs| - 1], Zeros(|xs| - 1))
  {
    hide LastIndex, BindAll, Zeros;
    ZerosBound(env, xs);
    if xs == [] {
      assert env + (map x | x in xs :: 0) == env;
    } else {
      var first, last := xs[..|xs| - 1], xs[|xs| - 1];
      ZerosBound(env[last := 0], first);
      assert forall x :: x in xs <==> x in first || x == last by {
        assert xs == first + [last];
      }
      assert env + (map x | x in xs :: 0) == env[last := 0] + map x | x in first :: 0;
    }
  }

  function Zeros(n: nat): (r: seq<int>)
    ensures |r| == n && forall i :: 0 <= i < n ==> r[i] == 0
  {
    seq(n, _ => 0)
  }

  lemma AfterBranchEval(m: Model, output: seq<Name>, outs: seq<Name>, inLoop: bool, rest: Term, t: Env, st: RData)
    ensures Eval(m, AfterBranch(output, outs, inLoop, rest), t, st) ==
      if RETURN in output && Get(t, RETURN) != 0 then Eval(m, TupleT(outs), t, st)
      else if inLoop && BREAK in output && Get(t, BREAK) != 0 then Eval(m, TupleT(outs), t, st)
      else if inLoop && CONTINUE in output && Get(t, CONTINUE) != 0 then Eval(m, TupleT(outs), t, st)
      else Eval(m, rest, t, st)
  {
    hide Eval;
    var t1 := if inLoop && CONTINUE in output then IfT(Var(CONTINUE), TupleT(outs), rest) else rest;
    var t2 := if inLoop && BREAK in output then IfT(Var(BREAK), TupleT(outs), t1) else t1;
    EvalFlagIf(m, CONTINUE, TupleT(outs), rest, t, st);
    EvalFlagIf(m, BREAK, TupleT(outs), t1, t, st);
    EvalFlagIf(m, RETURN, TupleT(outs), t2, t, st);
  }

  /** When nothing has left early and no break that is handed on is pending, the guards after a branch let the rest
      run. */
  lemma AfterBranchGoesOn(m: Model, output: seq<Name>, outs: seq<Name>, inLoop: bool, rest: Term, t: Env, st: RData)
    requires Get(t, RETURN) == 0 && (inLoop ==> Get(t, CONTINUE) == 0 && (BREAK in output ==> Get(t, BREAK) == 0))
    ensures Eval(m, AfterBranch(output, outs, inLoop, rest), t, st) == Eval(m, rest, t, st)
  {
    AfterBranchEval(m, output, outs, inLoop, rest, t, st);
  }

  lemma AfterBranchLeaves(m: Model, output: seq<Name>, outs: seq<Name>, inLoop: bool, rest: Term, t: Env, r: Ending,
                          needs: Needs)
    requires Ends(r) && !r.Fell? && FlagOf(r) in output && (inLoop || r.Returned?)
    requires RightAt(FlagOf(r), Get(t, FlagOf(r)), r, inLoop, needs)
    ensures Eval(m, AfterBranch(output, outs, inLoop, rest), t, r.st) == Eval(m, TupleT(outs), t, r.st)
  {
    AfterBranchEval(m, output, outs, inLoop, rest, t, r.st);
  }

  lemma AfterLoopEval(m: Model, output: seq<Name>, outs: seq<Name>, rest: Term, t: Env, st: RData)
    ensures Eval(m, AfterLoop(output, outs, rest), t, st) ==
      if RETURN in output && Get(t, RETURN) != 0 then Eval(m, TupleT(outs), t, st)
      else if BREAK in output && Get(t, BREAK) == 0 then NoResult
      else Eval(m, rest, t, st)
  {
    hide Eval;
    var t1 := if BREAK in output then IfT(Var(BREAK), rest, NoneT) else rest;
    EvalFlagIf(m, BREAK, rest, NoneT, t, st);
    EvalFlagIf(m, RETURN, TupleT(outs), t1, t, st);
    assert Eval(m, NoneT, t, st) == NoResult by {
      EvalNone(m, t, st);
    }
  }

  lemma EvalNone(m: Model, t: Env, st: RData)
    ensures Eval(m, NoneT, t, st) == NoResult
  {
  }

  lemma StepEval(m: Model, loopArgs: seq<Name>, body: Term, t: Env, st: RData)
    ensures Eval(m, Step(loopArgs, body), t, st) ==
      if (BREAK in loopArgs && Get(t, BREAK) != 0) || (RETURN in loopArgs && Get(t, RETURN) != 0)
        then Result(GetAll(t, loopArgs), st)
      else Eval(m, body, t, st)
  {
    hide Eval;
    var t1 := if RETURN in loopArgs then IfT(Var(RETURN), TupleT(loopArgs), body) else body;
    EvalFlagIf(m, RETURN, TupleT(loopArgs), body, t, st);
    EvalFlagIf(m, BREAK, TupleT(loopArgs), t1, t, st);
    EvalTuple(m, loopArgs, t, st);
  }

  lemma EvalTuple(m: Model, names: seq<Name>, t: Env, st: RData)
    ensures Eval(m, TupleT(names), t, st) == Result(GetAll(t, names), st)
  {
  }

  lemma EvalWhen(m: Model, names: seq<Name>, val: Term, body: Term, t: Env, st: RData)
    ensures Eval(m, WhenT(names, val, body), t, st) ==
      var r := Eval(m, val, t, st);
      if r.NoResult? || |r.vals| != |names| then NoResult else Eval(m, body, BindAll(t, names, r.vals), r.st)
  {
    hide BindAll;
  }

  // ---------- the translation is correct

  /** The flags as they belong to an ending. */
  predicate FlagsFit(t: Env, how: Ending, inLoop: bool, shown: bool) {
    && (Get(t, RETURN) == if how.Returned? then 1 else 0)
    && (inLoop && !how.Returned? && shown ==> Get(t, BREAK) == if how.Broke? then 1 else 0)
    && (inLoop && !how.Returned? && !how.Broke? ==> Get(t, CONTINUE) == if how.Continued? then 1 else 0)
  }

  lemma EndCorrect(m: Model, outs: seq<Name>, inLoop: bool, needs: Needs, t: Env, how: Ending)
    requires Ends(how) && NeedsFlagFree(needs) && Agree(Needed(needs, how), how.env, t)
    requires FlagsFit(t, how, inLoop, BREAK in outs)
    ensures Right(Eval(m, TupleT(outs), t, how.st), outs, how, inLoop, needs)
  {
    assert Reflects(t, how, inLoop, needs, BREAK in outs);
    TupleRight(m, outs, t, how, inLoop, needs, BREAK in outs);
  }

  lemma NothingRight(outs: seq<Name>, inLoop: bool, needs: Needs)
    ensures Right(NoResult, outs, Undef, inLoop, needs)
  {
  }

  lemma AnythingRight(r: Result, outs: seq<Name>, inLoop: bool, needs: Needs)
    ensures Right(r, outs, OutOfFuel, inLoop, needs)
  {
  }

  lemma RightShape(r: Result, outs: seq<Name>, how: Ending, inLoop: bool, needs: Needs)
    requires Right(r, outs, how, inLoop, needs)
    ensures how.Undef? ==> r == NoResult
    ensures Ends(how) ==> r.Result? && |r.vals| == |outs| && r.st == how.st && r == Result(r.vals, how.st)
  {
  }

  /** What is needed after other endings does not matter. */
  lemma RightFor(r: Result, outs: seq<Name>, how: Ending, inLoop: bool, needs: Needs, needs': Needs)
    requires Right(r, outs, how, inLoop, needs) && Needed(needs, how) == Needed(needs', how)
    ensures Right(r, outs, how, inLoop, needs')
  {
    if Ends(how) {
      forall i | 0 <= i < |outs| ensures RightAt(outs[i], r.vals[i], how, inLoop, needs') {
        assert RightAt(outs[i], r.vals[i], how, inLoop, needs);
      }
    }
  }

  /** The flags once a variable has been set. */
  lemma FlagsKept(t: Env, inLoop: bool, pending: bool, l: seq<Stmt>, outs: seq<Name>, x: Name, v: int)
    requires l != [] && FlagsAre(t, inLoop, pending, Shown(l, outs)) && !IsFlag(x)
    ensures FlagsAre(t[x := v], inLoop, pending, Shown(l[1..], outs))
  {
  }

  /** For every covered list and every model: started from environments that agree on what is live, the term has
      no result if the run it makes is undefined, and else the tuple that belongs to the way that run ends. */
  lemma {:induction false} TranslateCorrect(m: Model, l: seq<Stmt>, outs: seq<Name>, inLoop: bool, pending: bool,
                                            needs: Needs, d: Env, t: Env, st: RData)
    requires Covered(l, inLoop, pending, needs) && Pended(inLoop, pending, needs) && NeedsFlagFree(needs)
    requires Agree(Live(l, inLoop, pending, needs), d, t) && FlagsAre(t, inLoop, pending, Shown(l, outs))
    ensures Right(Eval(m, Translate(l, outs, inLoop), t, st), outs, TermRun(m, l, inLoop, pending, d, st), inLoop,
      needs)
    decreases l, 1
  {
    hide BindAll, GoesRoundForever, Right;
    if l == [] {
      EndCorrect(m, outs, inLoop, needs, t, TermRun(m, l, inLoop, pending, d, st));
    } else {
      match l[0]
      case Assign(_, _) => SetCorrect(m, l, outs, inLoop, pending, needs, d, t, st);
      case Call(_, _, _) => SetCorrect(m, l, outs, inLoop, pending, needs, d, t, st);
      case Branch(_, _, _, _, _) => BranchCorrect(m, l, outs, inLoop, pending, needs, d, t, st);
      case While(_, _, _, _, _) => LoopCorrect(m, l, outs, inLoop, pending, needs, d, t, st);
      case _ => LeaveCorrect(m, l, outs, inLoop, pending, needs, d, t, st);
    }
  }

  lemma {:induction false} SetCorrect(m: Model, l: seq<Stmt>, outs: seq<Name>, inLoop: bool, pending: bool,
                                      needs: Needs, d: Env, t: Env, st: RData)
    requires Covered(l, inLoop, pending, needs) && Pended(inLoop, pending, needs) && NeedsFlagFree(needs)
    requires Agree(Live(l, inLoop, pending, needs), d, t) && FlagsAre(t, inLoop, pending, Shown(l, outs))
    requires l != [] && (l[0].Assign? || l[0].Call?)
    ensures Right(Eval(m, Translate(l, outs, inLoop), t, st), outs, TermRun(m, l, inLoop, pending, d, st), inLoop,
      needs)
    decreases l, 0
  {
    hide Right, Pended, FlagsAre, NeedsFlagFree, Shown;
    var x, live, after := l[0].x, Live(l, inLoop, pending, needs), Live(l[1..], inLoop, pending, needs);
    assert LiveAfter(l, inLoop, pending, needs) == after;
    if l[0].Assign? {
      EvAgree(m, l[0].e, d, t);
      var v := Ev(m, l[0].e, d);
      AgreeSet(after, live, d, t, x, v);
      FlagsKept(t, inLoop, pending, l, outs, x, v);
      TranslateCorrect(m, l[1..], outs, inLoop, pending, needs, d[x := v], t[x := v], st);
    } else {
      EvAllAgree(m, l[0].args, d, t);
      var r := m.call(l[0].op, EvAll(m, l[0].args, d), st);
      if r.Some? {
        AgreeSet(after, live, d, t, x, r.value.0);
        FlagsKept(t, inLoop, pending, l, outs, x, r.value.0);
        TranslateCorrect(m, l[1..], outs, inLoop, pending, needs, d[x := r.value.0], t[x := r.value.0], r.value.1);
      } else {
        NothingRight(outs, inLoop, needs);
      }
    }
  }

  lemma LeaveCorrect(m: Model, l: seq<Stmt>, outs: seq<Name>, inLoop: bool, pending: bool, needs: Needs, d: Env,
                     t: Env, st: RData)
    requires Covered(l, inLoop, pending, needs) && Pended(inLoop, pending, needs) && NeedsFlagFree(needs)
    requires Agree(Live(l, inLoop, pending, needs), d, t) && FlagsAre(t, inLoop, pending, Shown(l, outs))
    requires l != [] && (l[0].BreakStmt? || l[0].ContinueStmt? || l[0].ReturnStmt?)
    ensures Right(Eval(m, Translate(l, outs, inLoop), t, st), outs, TermRun(m, l, inLoop, pending, d, st), inLoop,
      needs)
  {
    hide Right, BindAll;
    assert Translate(l[1..], outs, inLoop) == TupleT(outs);
    var how := TermRun(m, l, inLoop, pending, d, st);
    match l[0]
    case BreakStmt => EndCorrect(m, outs, inLoop, needs, t[BREAK := 1], how);
    case ContinueStmt => EndCorrect(m, outs, inLoop, needs, t[CONTINUE := 1], how);
    case ReturnStmt(None) => EndCorrect(m, outs, inLoop, needs, t[RETURN := 1], how);
    case ReturnStmt(Some(_)) => ReturnCorrect(m, l, outs, inLoop, pending, needs, d, t, st);
  }

  lemma ReturnCorrect(m: Model, l: seq<Stmt>, outs: seq<Name>, inLoop: bool, pending: bool, needs: Needs, d: Env,
                      t: Env, st: RData)
    requires Covered(l, inLoop, pending, needs) && NeedsFlagFree(needs)
    requires Agree(Live(l, inLoop, pending, needs), d, t) && FlagsAre(t, inLoop, pending, Shown(l, outs))
    requires l != [] && l[0].ReturnStmt? && l[0].val.Some?
    ensures Right(Eval(m, Translate(l, outs, inLoop), t, st), outs, TermRun(m, l, inLoop, pending, d, st), inLoop,
      needs)
  {
    var e := l[0].val.value;
    assert TermRun(m, l, inLoop, pending, d, st) == Returned(d[RETVAL := Ev(m, e, d)], st);
    assert Live(l, inLoop, pending, needs) == needs.ret - {RETVAL} + Vars(e);
    assert Translate(l, outs, inLoop) == LetT(RETURN, Const(1), LetT(RETVAL, e, TupleT(outs))) by {
      assert l[1..] == [];
    }
    hide Right, TermRun, Live, Translate, Covered;
    EvAgree(m, e, d, t[RETURN := 1]);
    var v := Ev(m, e, d);
    AgreeSet(needs.ret, Live(l, inLoop, pending, needs), d, t, RETVAL, v);
    assert t[RETURN := 1][RETVAL := v] == t[RETVAL := v][RETURN := 1];
    AgreeFlag(needs.ret, d[RETVAL := v], t[RETVAL := v]);
    assert Eval(m, LetT(RETVAL, e, TupleT(outs)), t[RETURN := 1], st) ==
      Eval(m, TupleT(outs), t[RETURN := 1][RETVAL := v], st);
    EndCorrect(m, outs, inLoop, needs, t[RETURN := 1][RETVAL := v], Returned(d[RETVAL := v], st));
  }

  lemma InitAgrees(t: Env, needInit: seq<Name>, x: Name)
    ensures Get(BindAll(t, needInit, Zeros(|needInit|)), x) == if x in needInit then 0 else Get(t, x)
  {
    GetBound(t, needInit, Zeros(|needInit|), x);
  }

  /** A branch starts with the flags of its `if`. */
  lemma BranchStarts(l: seq<Stmt>, b: seq<Stmt>, outs: seq<Name>, inLoop: bool, pending: bool, needs: Needs, d: Env,
                     t: Env)
    requires Covered(l, inLoop, pending, needs) && l != [] && l[0].Branch? && (b == l[0].thn || b == l[0].els)
    requires Agree(Live(l, inLoop, pending, needs), d, t) && FlagsAre(t, inLoop, pending, Shown(l, outs))
    ensures var s, t0 := l[0], BindAll(t, l[0].needInit, Zeros(|l[0].needInit|));
      var sub, hands := BranchNeeds(s, pending, LiveAfter(l, inLoop, pending, needs), needs), pending && Hands(s);
      && Agree(Vars(s.cond), d, t0) && Agree(Live(b, inLoop, hands, sub), d, t0)
      && FlagsAre(t0, inLoop, hands, Shown(b, s.output)) && Covered(b, inLoop, hands, sub)
  {
    var s, t0 := l[0], BindAll(t, l[0].needInit, Zeros(|l[0].needInit|));
    var sub, hands := BranchNeeds(s, pending, LiveAfter(l, inLoop, pending, needs), needs), pending && Hands(s);
    hide BindAll;
    forall x ensures Get(t0, x) == if x in s.needInit then 0 else Get(t, x) {
      InitAgrees(t, s.needInit, x);
    }
    var read := Vars(s.cond) + Live(b, inLoop, hands, sub);
    assert read <= Live(l, inLoop, pending, needs) && Names(s.needInit) !! read;
    forall x | x in read ensures Get(d, x) == Get(t0, x) {
      assert x !in Names(s.needInit);
    }
  }

  /** What the names have after a branch: what the branch hands on, or what they had before. */
  lemma BranchEnv(m: Model, l: seq<Stmt>, b: seq<Stmt>, inLoop: bool, pending: bool, needs: Needs, d: Env, t: Env,
                  st: RData, vals: seq<int>, x: Name)
    requires Covered(l, inLoop, pending, needs) && Pended(inLoop, pending, needs) && NeedsFlagFree(needs)
    requires l != [] && l[0].Branch? && (b == l[0].thn || b == l[0].els) && Agree(Live(l, inLoop, pending, needs), d, t)
    requires var sub, hands := BranchNeeds(l[0], pending, LiveAfter(l, inLoop, pending, needs), needs), pending
      && Hands(l[0]);
      var r := TermRun(m, b, inLoop, hands, d, st);
      Ends(r) && Right(Result(vals, r.st), l[0].output, r, inLoop, sub) && x in Needed(sub, r) && !IsFlag(x)
    ensures var r := TermRun(m, b, inLoop, pending && Hands(l[0]), d, st);
      Get(BindAll(t, l[0].output, vals), x) == Get(r.env, x)
  {
    var s, sub, hands := l[0], BranchNeeds(l[0], pending, LiveAfter(l, inLoop, pending, needs), needs), pending
      && Hands(l[0]);
    var r := TermRun(m, b, inLoop, hands, d, st);
    hide TermRun, BindAll;
    GetBound(t, s.output, vals, x);
    if x in s.output {
      assert RightAt(s.output[LastIndex(s.output, x)], vals[LastIndex(s.output, x)], r, inLoop, sub);
    } else {
      ExitsTell(m, b, inLoop, hands, d, st);
      LeavesBy(m, l, b, inLoop, pending, needs, d, st);
      assert x !in Names(s.output);
      NeededHandedOn(l, b, inLoop, pending, needs, r, x);
      Untouched(m, b, inLoop, hands, sub, d, st, x);
      assert x in Live(l, inLoop, pending, needs);
    }
  }

  lemma NeededHandedOn(l: seq<Stmt>, b: seq<Stmt>, inLoop: bool, pending: bool, needs: Needs, r: Ending, x: Name)
    requires Covered(l, inLoop, pending, needs) && Pended(inLoop, pending, needs)
    requires l != [] && l[0].Branch? && (b == l[0].thn || b == l[0].els) && Tells(b, pending && Hands(l[0]), r)
    requires r.Broke? ==> inLoop
    requires x in Needed(BranchNeeds(l[0], pending, LiveAfter(l, inLoop, pending, needs), needs), r)
    ensures x !in Names(l[0].output) ==> x !in Assigned(b)
  {
    hide Live, LiveAfter;
  }

  /** A flag after a branch. */
  lemma BranchFlag(output: seq<Name>, t: Env, vals: seq<int>, r: Ending, inLoop: bool, needs: Needs, x: Name)
    requires Ends(r) && Right(Result(vals, r.st), output, r, inLoop, needs)
    ensures |vals| == |output|
    ensures var t2 := BindAll(t, output, vals);
      if x in output then RightAt(x, Get(t2, x), r, inLoop, needs) else Get(t2, x) == Get(t, x)
  {
    hide BindAll;
    GetBound(t, output, vals, x);
    if x in output {
      assert RightAt(output[LastIndex(output, x)], vals[LastIndex(output, x)], r, inLoop, needs);
    }
  }

  lemma {:induction false} BranchCorrect(m: Model, l: seq<Stmt>, outs: seq<Name>, inLoop: bool, pending: bool,
                                         needs: Needs, d: Env, t: Env, st: RData)
    requires Covered(l, inLoop, pending, needs) && Pended(inLoop, pending, needs) && NeedsFlagFree(needs)
    requires Agree(Live(l, inLoop, pending, needs), d, t) && FlagsAre(t, inLoop, pending, Shown(l, outs))
    requires l != [] && l[0].Branch?
    ensures Right(Eval(m, Translate(l, outs, inLoop), t, st), outs, TermRun(m, l, inLoop, pending, d, st), inLoop,
      needs)
    decreases l, 0
  {
    hide TermRun, Eval, BindAll, Right, Translate, FlagsAre, Shown, Agree;
    LiveFlagFree(l, inLoop, pending, needs);
    var s, sub, hands := l[0], BranchNeeds(l[0], pending, LiveAfter(l, inLoop, pending, needs), needs), pending
      && Hands(l[0]);
    var t0 := BindAll(t, s.needInit, Zeros(|s.needInit|));
    BranchTerm(m, l, outs, inLoop, t, st);
    var b := if Ev(m, s.cond, d) != 0 then s.thn else s.els;
    BranchStarts(l, b, outs, inLoop, pending, needs, d, t);
    EvAgree(m, s.cond, d, t0);
    TranslateCorrect(m, b, s.output, inLoop, hands, sub, d, t0, st);
    var how, r := TermRun(m, b, inLoop, hands, d, st), Eval(m, Translate(b, s.output, inLoop), t0, st);
    TermBranchRun(m, l, inLoop, pending, d, st);
    RightShape(r, s.output, how, inLoop, sub);
    if how.Undef? {
      NothingRight(outs, inLoop, needs);
    } else if how.OutOfFuel? {
      AnythingRight(Eval(m, Translate(l, outs, inLoop), t, st), outs, inLoop, needs);
    } else if how.Fell? {
      BranchFell(m, l, b, outs, inLoop, pending, needs, d, t, st, r.vals);
      var t2 := BindAll(t, s.output, r.vals);
      AfterBranchGoesOn(m, s.output, outs, inLoop, Translate(l[1..], outs, inLoop), t2, how.st);
      TranslateCorrect(m, l[1..], outs, inLoop, pending, needs, how.env, t2, how.st);
    } else {
      BranchLeaves(m, l, b, outs, inLoop, pending, needs, d, t, st, r.vals);
    }
  }

  /** A branch that comes to its end leaves everything ready for the rest of the list. */
  lemma {:induction false} BranchFell(m: Model, l: seq<Stmt>, b: seq<Stmt>, outs: seq<Name>, inLoop: bool,
                                      pending: bool, needs: Needs, d: Env, t: Env, st: RData, vals: seq<int>)
    requires Covered(l, inLoop, pending, needs) && Pended(inLoop, pending, needs) && NeedsFlagFree(needs)
    requires Agree(Live(l, inLoop, pending, needs), d, t) && FlagsAre(t, inLoop, pending, Shown(l, outs))
    requires l != [] && l[0].Branch? && b == if Ev(m, l[0].cond, d) != 0 then l[0].thn else l[0].els
    requires var sub, hands := BranchNeeds(l[0], pending, LiveAfter(l, inLoop, pending, needs), needs), pending
      && Hands(l[0]);
      var how := TermRun(m, b, inLoop, hands, d, st);
      how.Fell? && Right(Result(vals, how.st), l[0].output, how, inLoop, sub)
    ensures |vals| == |l[0].output|
    ensures var how, t2 := TermRun(m, b, inLoop, pending && Hands(l[0]), d, st), BindAll(t, l[0].output, vals);
      && GoesOn(l[0], inLoop, pending) && Agree(LiveAfter(l, inLoop, pending, needs), how.env, t2)
      && FlagsAre(t2, inLoop, pending, Shown(l[1..], outs))
      && Get(t2, RETURN) == 0 && (inLoop ==> Get(t2, CONTINUE) == 0 && (BREAK in l[0].output ==> Get(t2, BREAK) == 0))
  {
    var sub, hands := BranchNeeds(l[0], pending, LiveAfter(l, inLoop, pending, needs), needs), pending && Hands(l[0]);
    var how, t2, output := TermRun(m, b, inLoop, hands, d, st), BindAll(t, l[0].output, vals), l[0].output;
    BranchGoesOn(m, l, inLoop, pending, d, st);
    LiveFlagFree(l, inLoop, pending, needs);
    BranchFlag(output, t, vals, how, inLoop, sub, RETURN);
    BranchFlag(output, t, vals, how, inLoop, sub, BREAK);
    BranchFlag(output, t, vals, how, inLoop, sub, CONTINUE);
    hide TermRun, BindAll, Live, LiveAfter, Right;
    if hands {
      PendingEnds(m, b, inLoop, d, st);
    }
    forall x | x in LiveAfter(l, inLoop, pending, needs) ensures Get(how.env, x) == Get(t2, x) {
      BranchEnv(m, l, b, inLoop, pending, needs, d, t, st, vals, x);
    }
  }

  /** A branch left early is the last of its list. */
  lemma {:induction false} BranchLeaves(m: Model, l: seq<Stmt>, b: seq<Stmt>, outs: seq<Name>, inLoop: bool,
                                        pending: bool, needs: Needs, d: Env, t: Env, st: RData, vals: seq<int>)
    requires Covered(l, inLoop, pending, needs) && Pended(inLoop, pending, needs) && NeedsFlagFree(needs)
    requires Agree(Live(l, inLoop, pending, needs), d, t) && FlagsAre(t, inLoop, pending, Shown(l, outs))
    requires l != [] && l[0].Branch? && (b == l[0].thn || b == l[0].els)
    requires var sub, hands := BranchNeeds(l[0], pending, LiveAfter(l, inLoop, pending, needs), needs), pending
      && Hands(l[0]);
      var r := TermRun(m, b, inLoop, hands, d, st);
      Ends(r) && !r.Fell? && Right(Result(vals, r.st), l[0].output, r, inLoop, sub)
    ensures |vals| == |l[0].output|
    ensures var r, t2 := TermRun(m, b, inLoop, pending && Hands(l[0]), d, st), BindAll(t, l[0].output, vals);
      Right(Eval(m, AfterBranch(l[0].output, outs, inLoop, Translate(l[1..], outs, inLoop)), t2, r.st), outs,
        Left(r, pending), inLoop, needs)
  {
    var s, sub, hands := l[0], BranchNeeds(l[0], pending, LiveAfter(l, inLoop, pending, needs), needs), pending
      && Hands(l[0]);
    var r, t2, output := TermRun(m, b, inLoop, hands, d, st), BindAll(t, l[0].output, vals), l[0].output;
    LiveFlagFree(l, inLoop, pending, needs);
    LeavesBy(m, l, b, inLoop, pending, needs, d, st);
    BranchFlag(output, t, vals, r, inLoop, sub, FlagOf(r));
    BranchFlag(output, t, vals, r, inLoop, sub, RETURN);
    BranchFlag(output, t, vals, r, inLoop, sub, BREAK);
    hide TermRun, BindAll, Live, LiveAfter, Right, Eval, Translate, AfterBranch;
    AfterBranchLeaves(m, output, outs, inLoop, Translate(l[1..], outs, inLoop), t2, r, sub);
    var how := Left(r, pending);
    forall x | x in Needed(needs, how) ensures Get(how.env, x) == Get(t2, x) {
      BranchEnv(m, l, b, inLoop, pending, needs, d, t, st, vals, x);
    }
    EndCorrect(m, outs, inLoop, needs, t2, how);
  }

  /** The flag of the way a branch has been left is handed on. */
  lemma {:induction false} LeavesBy(m: Model, l: seq<Stmt>, b: seq<Stmt>, inLoop: bool, pending: bool, needs: Needs,
                                    d: Env, st: RData)
    requires Covered(l, inLoop, pending, needs) && Pended(inLoop, pending, needs)
    requires l != [] && l[0].Branch? && (b == l[0].thn || b == l[0].els)
    ensures var r := TermRun(m, b, inLoop, pending && Hands(l[0]), d, st);
      && (Ends(r) && !r.Fell? ==> FlagOf(r) in l[0].output && (inLoop || r.Returned?))
      && (r.Continued? && pending ==> !Hands(l[0]))
  {
    var sub, hands := BranchNeeds(l[0], pending, LiveAfter(l, inLoop, pending, needs), needs), pending && Hands(l[0]);
    hide TermRun, Live, LiveAfter;
    ExitsTell(m, b, inLoop, hands, d, st);
    if !inLoop {
      LeavesInLoop(m, b, sub, d, st);
    }
    if hands {
      PendingEnds(m, b, inLoop, d, st);
    }
    assert forall x :: x in Names(l[0].output) ==> x in l[0].output;
  }

  lemma BranchTerm(m: Model, l: seq<Stmt>, outs: seq<Name>, inLoop: bool, t: Env, st: RData)
    requires l != [] && l[0].Branch?
    ensures var s := l[0];
      var t0 := BindAll(t, s.needInit, Zeros(|s.needInit|));
      var r := Eval(m, Translate(if Ev(m, s.cond, t0) != 0 then s.thn else s.els, s.output, inLoop), t0, st);
      Eval(m, Translate(l, outs, inLoop), t, st) ==
        if r.NoResult? || |r.vals| != |s.output| then NoResult
        else Eval(m, AfterBranch(s.output, outs, inLoop, Translate(l[1..], outs, inLoop)),
          BindAll(t, s.output, r.vals), r.st)
  {
    hide BindAll, AfterBranch, Inits;
    var s := l[0];
    var branch := IfT(s.cond, Translate(s.thn, s.output, inLoop), Translate(s.els, s.output, inLoop));
    InitsEval(m, s.needInit, branch, t, st);
    EvalWhen(m, s.output, Inits(s.needInit, branch), AfterBranch(s.output, outs, inLoop,
      Translate(l[1..], outs, inLoop)), t, st);
  }

  /** Only code inside a loop breaks or continues. */
  lemma {:induction false} LeavesInLoop(m: Model, l: seq<Stmt>, needs: Needs, env: Env, st: RData)
    requires Covered(l, false, false, needs)
    ensures var how := TermRun(m, l, false, false, env, st); !how.Broke? && !how.Continued?
  {
    hide TermRounds;
    if l != [] {
      match l[0]
      case Assign(x, e) => LeavesInLoop(m, l[1..], needs, env[x := Ev(m, e, env)], st);
      case Call(x, op, args) =>
        var r := m.call(op, EvAll(m, args, env), st);
        if r.Some? {
          LeavesInLoop(m, l[1..], needs, env[x := r.value.0], r.value.1);
        }
      case Branch(cond, thn, els, _, _) =>
        var b := if Ev(m, cond, env) != 0 then thn else els;
        LeavesInLoop(m, b, BranchNeeds(l[0], false, LiveAfter(l, false, false, needs), needs), env, st);
        var r := TermRun(m, b, false, false, env, st);
        if r.Fell? {
          BranchGoesOn(m, l, false, false, env, st);
          LeavesInLoop(m, l[1..], needs, r.env, r.st);
        }
      case While(id, body, _, input, _) =>
        var n := m.rank(id, GetAll(env, input));
        if n >= 0 {
          var r := TermLoopEnd(TermRounds(m, body, n, env, st), false);
          TermRoundsExit(m, body, n, env, st);
          if r.Fell? {
            LoopGoesOn(m, l, false, false, n, env, st);
            LeavesInLoop(m, l[1..], needs, r.env, r.st);
          }
        }
      case _ =>
    }
  }

  // ---------- loops

  predicate LoopOk(body: seq<Stmt>, loopArgs: seq<Name>, needs: Needs) {
    && Covered(body, true, false, needs) && NeedsFlagFree(needs) && NoDup(loopArgs) && CONTINUE !in loopArgs
    && needs.fall == needs.cont && needs.fall + needs.brk + needs.ret <= Names(loopArgs)
    && Live(body, true, false, needs) <= needs.fall
    && (BREAK in loopArgs <==> HasBreak(body)) && (RETURN in Exits(body) ==> RETURN in loopArgs)
  }

  /** What the recursive definition gives for the fuel `n` stands for where the loop is after `n` rounds. */
  ghost predicate FixState(r: Result, loopArgs: seq<Name>, p: Progress, needs: Needs) {
    match p
    case Running(d, st) =>
      && r.Result? && |r.vals| == |loopArgs| && r.st == st
      && Agree(needs.fall, d, BindAll(map[], loopArgs, r.vals)) && FlagsClear(BindAll(map[], loopArgs, r.vals), true)
    case Ended(Undef) => r == NoResult
    case Ended(OutOfFuel) => true
    case Ended(how) =>
      && r.Result? && |r.vals| == |loopArgs| && r.st == how.st
      && Reflects(BindAll(map[], loopArgs, r.vals), how, true, needs, BREAK in loopArgs)
  }

  lemma FixNext(m: Model, params: seq<Name>, step: Term, n: nat, args: seq<int>, st: RData)
    requires n > 0
    ensures var r := Fix(m, params, step, n - 1, args, st);
      Fix(m, params, step, n, args, st) ==
        if r.NoResult? || |r.vals| != |params| then NoResult else Eval(m, step, BindAll(map[], params, r.vals), r.st)
  {
    hide Eval, BindAll;
  }

  /** F(n) is the body run n times, from the first argument values on, until a flag is set. */
  lemma {:induction false} FixCorrect(m: Model, body: seq<Stmt>, loopArgs: seq<Name>, needs: Needs, n: nat,
                                      args: seq<int>, d: Env, st: RData)
    requires LoopOk(body, loopArgs, needs) && |args| == |loopArgs|
    requires FixState(Result(args, st), loopArgs, Running(d, st), needs)
    ensures FixState(Fix(m, loopArgs, Step(loopArgs, Translate(body, loopArgs, true)), n, args, st), loopArgs,
      TermRounds(m, body, n, d, st), needs)
    decreases body, n + 2
  {
    hide TermRun, Eval, BindAll, Translate, FixState, Step, LoopOk;
    if n > 0 {
      var step := Step(loopArgs, Translate(body, loopArgs, true));
      FixCorrect(m, body, loopArgs, needs, n - 1, args, d, st);
      FixNext(m, loopArgs, step, n, args, st);
      var r, p := Fix(m, loopArgs, step, n - 1, args, st), TermRounds(m, body, n - 1, d, st);
      if p.Running? {
        FixRound(m, body, loopArgs, needs, r, p.env, p.st);
      } else {
        TermRoundsExit(m, body, n - 1, d, st);
        FixStays(m, body, loopArgs, needs, r, p.how);
      }
    } else {
      FixStart(m, loopArgs, Step(loopArgs, Translate(body, loopArgs, true)), args, st);
    }
  }

  lemma FixStart(m: Model, params: seq<Name>, step: Term, args: seq<int>, st: RData)
    ensures Fix(m, params, step, 0, args, st) == Result(args, st)
  {
  }

  lemma {:induction false} FixRound(m: Model, body: seq<Stmt>, loopArgs: seq<Name>, needs: Needs, r: Result, d: Env,
                                    st: RData)
    requires LoopOk(body, loopArgs, needs) && FixState(r, loopArgs, Running(d, st), needs)
    ensures r.Result? && |r.vals| == |loopArgs|
    ensures var next := Eval(m, Step(loopArgs, Translate(body, loopArgs, true)), BindAll(map[], loopArgs, r.vals),
      r.st);
      FixState(next, loopArgs, TermRound(m, body, d, st), needs)
    decreases body, 2
  {
    hide TermRun, Eval, BindAll, Translate, Right, Step;
    var t := BindAll(map[], loopArgs, r.vals);
    StepEval(m, loopArgs, Translate(body, loopArgs, true), t, st);
    TranslateCorrect(m, body, loopArgs, true, false, needs, d, t, st);
    var how, r' := TermRun(m, body, true, false, d, st), Eval(m, Translate(body, loopArgs, true), t, st);
    ExitsTell(m, body, true, false, d, st);
    RightShape(r', loopArgs, how, true, needs);
    if Ends(how) {
      RoundReflects(loopArgs, r', how, needs, body);
    }
  }

  /** The tuple of a round, bound to the parameters.  That the round has ended with `continue` is not passed on. */
  lemma RoundReflects(loopArgs: seq<Name>, r: Result, how: Ending, needs: Needs, body: seq<Stmt>)
    requires Ends(how) && Right(r, loopArgs, how, true, needs) && Tells(body, false, how)
    requires LoopOk(body, loopArgs, needs)
    ensures |r.vals| == |loopArgs|
    ensures var t := BindAll(map[], loopArgs, r.vals);
      if how.Fell? || how.Continued? then Agree(needs.fall, how.env, t) && FlagsClear(t, true)
      else Reflects(t, how, true, needs, BREAK in loopArgs)
  {
    var t := BindAll(map[], loopArgs, r.vals);
    hide BindAll, Covered, Live, Exits, HasBreak, NoDup, RightAt;
    forall x ensures if x in loopArgs then RightAt(x, Get(t, x), how, true, needs) else Get(t, x) == 0 {
      GetBound(map[], loopArgs, r.vals, x);
      if x in loopArgs {
        assert RightAt(loopArgs[LastIndex(loopArgs, x)], r.vals[LastIndex(loopArgs, x)], how, true, needs);
      }
    }
    assert Needed(needs, how) <= Names(loopArgs);
    forall x | x == BREAK ==>
      x in loopArgs ensures RightAt(x, Get(t, x), how, true, needs) || (how.Continued? && x == CONTINUE) {
      if x !in loopArgs {
        OutsideRight(loopArgs, how, needs, x);
      }
    }
    if how.Fell? || how.Continued? {
      GoesRound(loopArgs, t, how, needs);
    }
  }

  /** A name that is no parameter is not needed, or it is a flag that is not set. */
  lemma OutsideRight(loopArgs: seq<Name>, how: Ending, needs: Needs, x: Name)
    requires Ends(how) && Needed(needs, how) <= Names(loopArgs) && (how.Returned? ==> RETURN in loopArgs)
    requires x !in loopArgs && x != BREAK
    ensures RightAt(x, 0, how, true, needs) || (how.Continued? && x == CONTINUE)
  {
    assert x !in Names(loopArgs);
  }

  lemma GoesRound(loopArgs: seq<Name>, t: Env, how: Ending, needs: Needs)
    requires (how.Fell? || how.Continued?) && needs.fall == needs.cont && NeedsFlagFree(needs) && CONTINUE !in loopArgs
    requires forall x :: if x in loopArgs then RightAt(x, Get(t, x), how, true, needs) else Get(t, x) == 0
    requires needs.fall <= Names(loopArgs)
    ensures Agree(needs.fall, how.env, t) && FlagsClear(t, true)
  {
    assert RETURN in loopArgs ==> RightAt(RETURN, Get(t, RETURN), how, true, needs);
    assert BREAK in loopArgs ==> RightAt(BREAK, Get(t, BREAK), how, true, needs);
    forall x | x in needs.fall ensures Get(how.env, x) == Get(t, x) {
      assert x in Names(loopArgs) && RightAt(x, Get(t, x), how, true, needs);
    }
  }

  /** Once a flag is set, more fuel changes nothing. */
  lemma FixStays(m: Model, body: seq<Stmt>, loopArgs: seq<Name>, needs: Needs, r: Result, how: Ending)
    requires LoopOk(body, loopArgs, needs) && FixState(r, loopArgs, Ended(how), needs)
    requires !how.Fell? && !how.Continued? && Tells(body, false, how)
    ensures FixState(if r.NoResult? || |r.vals| != |loopArgs| then NoResult
                     else Eval(m, Step(loopArgs, Translate(body, loopArgs, true)), BindAll(map[], loopArgs, r.vals),
                       r.st),
      loopArgs, Ended(how), needs)
    ensures Ends(how) ==>
      && r.Result? && |r.vals| == |loopArgs|
      && Eval(m, Step(loopArgs, Translate(body, loopArgs, true)), BindAll(map[], loopArgs, r.vals), r.st) == r
  {
    if Ends(how) {
      hide Eval, Translate, TermRun, Step, Covered, Live, BindAll, RightAt, Reflects;
      FlagSet(BindAll(map[], loopArgs, r.vals), how, needs, BREAK in loopArgs);
      var i := LastIndex(loopArgs, FlagOf(how));
      GetBound(map[], loopArgs, r.vals, FlagOf(how));
      assert r.vals[i] != 0;
      StepRepeats(m, loopArgs, Translate(body, loopArgs, true), r.vals, r.st);
    }
  }

  lemma FlagSet(t: Env, how: Ending, needs: Needs, shown: bool)
    requires Reflects(t, how, true, needs, shown) && ((how.Broke? && shown) || how.Returned?)
    ensures Get(t, FlagOf(how)) == 1
  {
    assert RightAt(FlagOf(how), Get(t, FlagOf(how)), how, true, needs);
  }

  lemma ForeverIff(body: seq<Stmt>)
    ensures GoesRoundForever(body) <==>
      |body| == 1 && (body[0].ContinueStmt? || ((body[0].Branch? || body[0].While?) && body[0].output == [CONTINUE]))
  {
  }

  lemma WhileTerm(m: Model, l: seq<Stmt>, outs: seq<Name>, inLoop: bool, t: Env, st: RData)
    requires l != [] && l[0].While?
    ensures var w := l[0];
      var n := m.rank(w.id, GetAll(t, w.input));
      if GoesRoundForever(w.body) || n < 0 then Eval(m, Translate(l, outs, inLoop), t, st) == NoResult
      else
        var r := Fix(m, w.loopArgs, Step(w.loopArgs, Translate(w.body, w.loopArgs, true)), n,
          EvAll(m, LoopInit(w.loopArgs, w.input), t), st);
        Eval(m, Translate(l, outs, inLoop), t, st) ==
          if r.NoResult? || |r.vals| != |w.loopArgs| then NoResult
          else Eval(m, AfterLoop(w.output, outs, Translate(l[1..], outs, inLoop)), BindAll(t, w.loopArgs, r.vals), r.st)
  {
    hide BindAll, Fix, AfterLoop, Step, LoopInit, GoesRoundForever;
  }

  /** What a loop starts with: the flags are not set, an input has its value, and everything else is 0. */
  lemma InitValues(m: Model, loopArgs: seq<Name>, input: seq<Name>, t: Env, i: nat)
    requires i < |loopArgs|
    ensures EvAll(m, LoopInit(loopArgs, input), t)[i] ==
      if loopArgs[i] in {RETURN, BREAK} || loopArgs[i] !in input then 0 else Get(t, loopArgs[i])
  {
  }

  lemma InitCorrect(m: Model, loopArgs: seq<Name>, input: seq<Name>, needs: Needs, d: Env, t: Env, st: RData)
    requires FlagFree(Names(input)) && Names(input) <= Names(loopArgs) && needs.fall == Names(input)
      && Agree(Names(input), d, t)
    requires CONTINUE !in loopArgs
    ensures FixState(Result(EvAll(m, LoopInit(loopArgs, input), t), st), loopArgs, Running(d, st), needs)
  {
    hide BindAll;
    var args := EvAll(m, LoopInit(loopArgs, input), t);
    var t0 := BindAll(map[], loopArgs, args);
    forall x ensures Get(t0, x) == if x in input then Get(t, x) else 0 {
      GetBound(map[], loopArgs, args, x);
      if x in loopArgs {
        var i := LastIndex(loopArgs, x);
        assert args[i] == Ev(m, LoopInit(loopArgs, input)[i], t);
      } else {
        assert x in input ==> x in Names(input);
      }
      assert x in input ==> x in Names(input);
    }
    assert FlagsClear(t0, true) by {
      assert !IsFlag(RETVAL) && forall x :: x in input ==> x in Names(input);
      assert Get(t0, RETURN) == 0 && Get(t0, BREAK) == 0 && Get(t0, CONTINUE) == 0;
    }
    assert Agree(needs.fall, d, t0);
  }

  lemma {:induction false} LoopCorrect(m: Model, l: seq<Stmt>, outs: seq<Name>, inLoop: bool, pending: bool,
                                       needs: Needs, d: Env, t: Env, st: RData)
    requires Covered(l, inLoop, pending, needs) && Pended(inLoop, pending, needs) && NeedsFlagFree(needs)
    requires Agree(Live(l, inLoop, pending, needs), d, t) && FlagsAre(t, inLoop, pending, Shown(l, outs))
    requires l != [] && l[0].While?
    ensures Right(Eval(m, Translate(l, outs, inLoop), t, st), outs, TermRun(m, l, inLoop, pending, d, st), inLoop,
      needs)
    decreases l, 0
  {
    hide TermRun, Eval, BindAll, Right, Translate, Reflects, GoesRoundForever, LoopInit, AfterLoop, Step, FixState, Fix;
    hide FlagsAre, Shown, TermRounds;
    var w, after := l[0], LiveAfter(l, inLoop, pending, needs);
    var inner := BodyNeeds(w, after, needs);
    WhileTerm(m, l, outs, inLoop, t, st);
    TermWhileRun(m, l, inLoop, pending, d, st);
    assert GetAll(d, w.input) == GetAll(t, w.input) by {
      assert forall i :: 0 <= i < |w.input| ==> w.input[i] in Names(w.input);
    }
    var n := m.rank(w.id, GetAll(t, w.input));
    if n < 0 {
      NothingRight(outs, inLoop, needs);
    } else if GoesRoundForever(w.body) {
      RoundForever(m, w.body, inner, n, d, st);
      NothingRight(outs, inLoop, needs);
      AnythingRight(NoResult, outs, inLoop, needs);
    } else {
      LoopIsOk(l, inLoop, pending, needs);
      var args := EvAll(m, LoopInit(w.loopArgs, w.input), t);
      InitCorrect(m, w.loopArgs, w.input, inner, d, t, st);
      FixCorrect(m, w.body, w.loopArgs, inner, n, args, d, st);
      var r := Fix(m, w.loopArgs, Step(w.loopArgs, Translate(w.body, w.loopArgs, true)), n, args, st);
      AfterLoopCorrect(m, l, outs, inLoop, pending, needs, d, t, st, n, r);
    }
  }

  lemma LoopIsOk(l: seq<Stmt>, inLoop: bool, pending: bool, needs: Needs)
    requires Covered(l, inLoop, pending, needs) && NeedsFlagFree(needs) && l != [] && l[0].While?
    ensures LoopOk(l[0].body, l[0].loopArgs, BodyNeeds(l[0], LiveAfter(l, inLoop, pending, needs), needs))
  {
    LiveFlagFree(l, inLoop, pending, needs);
  }

  /** A body that is nothing but a branch that may go round never leaves the loop. */
  lemma {:induction false} RoundForever(m: Model, body: seq<Stmt>, needs: Needs, n: nat, env: Env, st: RData)
    requires Covered(body, true, false, needs) && GoesRoundForever(body)
    ensures var p := TermRounds(m, body, n, env, st); p.Running? || p.how.Undef? || p.how.OutOfFuel?
  {
    hide TermRun, TermRounds;
    TermRoundsExit(m, body, n, env, st);
    assert Exits(body[1..]) == {} && !HasBreak(body[1..]);
    match body[0]
    case Branch(_, thn, els, output, _) => assert Names(output) == {CONTINUE};
    case While(_, _, _, _, output) => assert Names(output) == {CONTINUE};
    case _ =>
  }

  lemma {:induction false} AfterLoopCorrect(m: Model, l: seq<Stmt>, outs: seq<Name>, inLoop: bool, pending: bool,
                                            needs: Needs, d: Env, t: Env, st: RData, n: nat, r: Result)
    requires Covered(l, inLoop, pending, needs) && Pended(inLoop, pending, needs) && NeedsFlagFree(needs)
    requires Agree(Live(l, inLoop, pending, needs), d, t) && FlagsAre(t, inLoop, pending, Shown(l, outs))
    requires l != [] && l[0].While?
    requires FixState(r, l[0].loopArgs, TermRounds(m, l[0].body, n, d, st),
                      BodyNeeds(l[0], LiveAfter(l, inLoop, pending, needs), needs))
    ensures var how := TermLoopEnd(TermRounds(m, l[0].body, n, d, st), IsInnerLoop(l[0], inLoop));
      Right(if r.NoResult? || |r.vals| != |l[0].loopArgs| then NoResult
            else Eval(m, AfterLoop(l[0].output, outs, Translate(l[1..], outs, inLoop)),
              BindAll(t, l[0].loopArgs, r.vals), r.st),
        outs, if how.Fell? then TermRun(m, l[1..], inLoop, PendingAfter(l[0], inLoop, pending), how.env, how.st)
          else how,
        inLoop, needs)
    decreases l, 0, 0
  {
    assert Get(t, RETURN) == 0;
    hide TermRun, Eval, BindAll, Right, Translate, Reflects, AfterLoop, TermRounds, FlagsAre, Shown;
    var w, after, p := l[0], LiveAfter(l, inLoop, pending, needs), TermRounds(m, l[0].body, n, d, st);
    TermRoundsExit(m, w.body, n, d, st);
    var rest, t2 := Translate(l[1..], outs, inLoop), if r.Result? && |r.vals| == |w.loopArgs| then BindAll(t,
      w.loopArgs, r.vals) else t;
    if p.Running? && IsInnerLoop(w, inLoop) {
      RunsOut(m, l, outs, inLoop, pending, needs, t, r);
      NothingRight(outs, inLoop, needs);
    } else if p.Running? || p.how.OutOfFuel? {
      AnythingRight(if r.NoResult? || |r.vals| != |w.loopArgs| then NoResult
                    else Eval(m, AfterLoop(w.output, outs, rest), t2, r.st), outs, inLoop, needs);
    } else if p.how.Undef? {
      NothingRight(outs, inLoop, needs);
    } else {
      AfterLoopEval(m, w.output, outs, rest, t2, p.how.st);
      LoopReflects(m, l, outs, inLoop, pending, needs, d, t, st, n, r);
      if p.how.Broke? {
        LoopGoesOn(m, l, inLoop, pending, n, d, st);
        var pending', needs' := PendingAfter(w, inLoop, pending), NeedsAfter(w, inLoop, needs);
        TranslateCorrect(m, l[1..], outs, inLoop, pending', needs', p.how.env, t2, p.how.st);
        var how := TermRun(m, l[1..], inLoop, pending', p.how.env, p.how.st);
        if pending' {
          PendingEnds(m, l[1..], inLoop, p.how.env, p.how.st);
        }
        RightFor(Eval(m, rest, t2, p.how.st), outs, how, inLoop, needs', needs);
      } else {
        EndCorrect(m, outs, inLoop, needs, t2, p.how);
      }
    }
  }

  /** An inner loop that is still running has no result. */
  lemma RunsOut(m: Model, l: seq<Stmt>, outs: seq<Name>, inLoop: bool, pending: bool, needs: Needs, t: Env, r: Result)
    requires Covered(l, inLoop, pending, needs) && l != [] && l[0].While? && IsInnerLoop(l[0], inLoop)
    requires r.Result? && |r.vals| == |l[0].loopArgs| && Get(t, RETURN) == 0
    requires FlagsClear(BindAll(map[], l[0].loopArgs, r.vals), true)
    ensures Eval(m, AfterLoop(l[0].output, outs, Translate(l[1..], outs, inLoop)), BindAll(t, l[0].loopArgs, r.vals),
      r.st) == NoResult
  {
    var w, t2 := l[0], BindAll(t, l[0].loopArgs, r.vals);
    hide BindAll, Eval, Translate, AfterLoop, Live, LiveAfter;
    AfterLoopEval(m, w.output, outs, Translate(l[1..], outs, inLoop), t2, r.st);
    LoopBinds(t, w.loopArgs, r.vals, RETURN);
    LoopBinds(t, w.loopArgs, r.vals, BREAK);
  }

  lemma LoopBinds(t: Env, loopArgs: seq<Name>, vals: seq<int>, x: Name)
    requires |vals| == |loopArgs|
    ensures Get(BindAll(t, loopArgs, vals), x) ==
      if x in loopArgs then Get(BindAll(map[], loopArgs, vals), x) else Get(t, x)
  {
    hide BindAll;
    GetBound(map[], loopArgs, vals, x);
    GetBound(t, loopArgs, vals, x);
  }

  /** The environment after a loop: ready for the code that follows, or for leaving that code by the `return`. */
  lemma {:induction false} LoopReflects(m: Model, l: seq<Stmt>, outs: seq<Name>, inLoop: bool, pending: bool,
                                        needs: Needs, d: Env, t: Env, st: RData, n: nat, r: Result)
    requires Covered(l, inLoop, pending, needs) && Pended(inLoop, pending, needs) && NeedsFlagFree(needs)
    requires Agree(Live(l, inLoop, pending, needs), d, t) && FlagsAre(t, inLoop, pending, Shown(l, outs))
    requires l != [] && l[0].While? && TermRounds(m, l[0].body, n, d, st).Ended?
    requires var how := TermRounds(m, l[0].body, n, d, st).how;
      && (how.Broke? || how.Returned?) && Tells(l[0].body, false, how) && r.Result? && |r.vals| == |l[0].loopArgs|
      && Reflects(BindAll(map[], l[0].loopArgs, r.vals), how, true,
                  BodyNeeds(l[0], LiveAfter(l, inLoop, pending, needs), needs), BREAK in l[0].loopArgs)
    ensures var how, t2 := TermRounds(m, l[0].body, n, d, st).how, BindAll(t, l[0].loopArgs, r.vals);
      && (how.Broke? ==>
            && Agree(LiveAfter(l, inLoop, pending, needs), how.env, t2) && Get(t2, RETURN) == 0 && Get(t2, BREAK) == 1
            && FlagsAre(t2, inLoop, PendingAfter(l[0], inLoop, pending), Shown(l[1..], outs)))
      && (how.Returned? ==> Agree(needs.ret, how.env, t2) && Get(t2, RETURN) == 1)
  {
    hide TermRun, TermRounds, BindAll, Live;
    var w, after := l[0], LiveAfter(l, inLoop, pending, needs);
    var inner, how := BodyNeeds(w, after, needs), TermRounds(m, w.body, n, d, st).how;
    var t1, t2 := BindAll(map[], w.loopArgs, r.vals), BindAll(t, w.loopArgs, r.vals);
    LiveFlagFree(l, inLoop, pending, needs);
    forall x ensures Get(t2, x) == if x in w.loopArgs then Get(t1, x) else Get(t, x) {
      LoopBinds(t, w.loopArgs, r.vals, x);
    }
    FlagSet(t1, how, inner, BREAK in w.loopArgs);
    assert RightAt(RETURN, Get(t1, RETURN), how, true, inner);
    forall x | x in (if how.Returned? then needs.ret else after) ensures Get(t2, x) == Get(how.env, x) {
      LoopValue(m, l, inLoop, pending, needs, d, t, st, n, r, x);
    }
  }

  /** A name has the value of the run after the loop, if it is needed then. */
  lemma {:induction false} LoopValue(m: Model, l: seq<Stmt>, inLoop: bool, pending: bool, needs: Needs, d: Env,
                                     t: Env, st: RData, n: nat, r: Result, x: Name)
    requires Covered(l, inLoop, pending, needs) && NeedsFlagFree(needs) && Agree(Live(l, inLoop, pending, needs), d, t)
    requires l != [] && l[0].While? && TermRounds(m, l[0].body, n, d, st).Ended?
    requires var how := TermRounds(m, l[0].body, n, d, st).how;
      && (how.Broke? || how.Returned?) && Tells(l[0].body, false, how) && r.Result? && |r.vals| == |l[0].loopArgs|
      && Reflects(BindAll(map[], l[0].loopArgs, r.vals), how, true,
                  BodyNeeds(l[0], LiveAfter(l, inLoop, pending, needs), needs), BREAK in l[0].loopArgs)
      && x in if how.Returned? then needs.ret else LiveAfter(l, inLoop, pending, needs)
    ensures Get(BindAll(t, l[0].loopArgs, r.vals), x) == Get(TermRounds(m, l[0].body, n, d, st).how.env, x)
  {
    hide TermRun, TermRounds, BindAll;
    var w, after := l[0], LiveAfter(l, inLoop, pending, needs);
    var inner, how := BodyNeeds(w, after, needs), TermRounds(m, w.body, n, d, st).how;
    LiveFlagFree(l, inLoop, pending, needs);
    LoopBinds(t, w.loopArgs, r.vals, x);
    assert !IsFlag(x);
    if x in w.loopArgs {
      assert RightAt(x, Get(BindAll(map[], w.loopArgs, r.vals), x), how, true, inner);
    } else {
      assert x !in Names(w.loopArgs) && Assigned(w.body) * (after + needs.ret) <= Names(w.loopArgs);
      assert x !in Assigned(w.body) && x in Live(l, inLoop, pending, needs);
      UntouchedRounds(m, w.body, inner, n, d, st, x);
    }
  }

  function Outs(isVoid: bool): seq<Name> {
    if isVoid then [] else [RETVAL]
  }

  /** The result that belongs to the ending of a function. */
  predicate Gives(r: Result, how: Ending, isVoid: bool) {
    match how
    case Returned(env, st) => r == Result(if isVoid then [] else [Get(env, RETVAL)], st)
    case Fell(_, st) => r.Result? && |r.vals| == |Outs(isVoid)| && r.st == st
    case Undef => r == NoResult
    case OutOfFuel => true
    case _ => false
  }

  /** A whole function: it returns what the run it makes returns, and has no result if that is undefined. */
  lemma {:induction false} FunctionCorrect(m: Model, body: seq<Stmt>, isVoid: bool, args: Env, st: RData)
    requires var needs := Needs({}, {}, {}, if isVoid then {} else {RETVAL});
      Covered(body, false, false, needs) && FlagsClear(args, false)
    ensures Gives(Eval(m, Translate(body, Outs(isVoid), false), args, st), TermRun(m, body, false, false, args, st),
      isVoid)
  {
    var needs, outs := Needs({}, {}, {}, if isVoid then {} else {RETVAL}), Outs(isVoid);
    hide TermRun, Eval, Translate, Covered, Live;
    TranslateCorrect(m, body, outs, false, false, needs, args, args, st);
    LeavesInLoop(m, body, needs, args, st);
    var r, how := Eval(m, Translate(body, outs, false), args, st), TermRun(m, body, false, false, args, st);
    if how.Returned? {
      assert forall i :: 0 <= i < |outs| ==> RightAt(outs[i], r.vals[i], how, false, needs);
      assert r.vals == if isVoid then [] else [Get(how.env, RETVAL)];
    }
  }

  predicate FlagIsSet(params: seq<Name>, vals: seq<int>)
    requires |vals| == |params|
  {
    exists i :: 0 <= i < |params| && (params[i] == BREAK || params[i] == RETURN) && vals[i] != 0
  }

  /** Whatever the body does, once a flag is set all larger fuel gives the same. */
  lemma {:induction false} FixIsStationary(m: Model, params: seq<Name>, body: Term, k: nat, n: nat, args: seq<int>,
                                           st: RData, vals: seq<int>, st': RData)
    requires NoDup(params) && k <= n && |vals| == |params| && FlagIsSet(params, vals)
    requires Fix(m, params, Step(params, body), k, args, st) == Result(vals, st')
    ensures Fix(m, params, Step(params, body), n, args, st) == Result(vals, st')
    decreases n
  {
    hide Eval, Step, BindAll, FlagIsSet, NoDup, Fix;
    if k < n {
      FixIsStationary(m, params, body, k, n - 1, args, st, vals, st');
      FixNext(m, params, Step(params, body), n, args, st);
      StepRepeats(m, params, body, vals, st');
    }
  }

  /** With a flag set, a step gives its arguments back. */
  lemma StepRepeats(m: Model, params: seq<Name>, body: Term, vals: seq<int>, st: RData)
    requires NoDup(params) && |vals| == |params| && FlagIsSet(params, vals)
    ensures Eval(m, Step(params, body), BindAll(map[], params, vals), st) == Result(vals, st)
  {
    var t := BindAll(map[], params, vals);
    hide Eval, Step, BindAll, LastIndex, NoDup, Get;
    StepEval(m, params, body, t, st);
    forall i | 0 <= i < |params| ensures Get(t, params[i]) == vals[i] {
      GetBound(map[], params, vals, params[i]);
      LastOfDistinct(params, i);
    }
    assert GetAll(t, params) == vals;
    EvalTuple(m, params, t, st);
  }

  lemma LastOfDistinct(names: seq<Name>, i: nat)
    requires NoDup(names) && i < |names|
    ensures LastIndex(names, names[i]) == i
  {
  }

  /** The recursive definition of a loop, started from what the code before it has left. */
  lemma {:induction false} LoopFix(m: Model, l: seq<Stmt>, inLoop: bool, pending: bool, needs: Needs, d: Env, t: Env,
                                   st: RData, n: nat)
    requires Covered(l, inLoop, pending, needs) && NeedsFlagFree(needs) && Agree(Live(l, inLoop, pending, needs), d, t)
    requires l != [] && l[0].While?
    ensures var w := l[0];
      var inner, args := BodyNeeds(w, LiveAfter(l, inLoop, pending, needs), needs),
        EvAll(m, LoopInit(w.loopArgs, w.input), t);
      && LoopOk(w.body, w.loopArgs, inner) && FixState(Result(args, st), w.loopArgs, Running(d, st), inner)
      && FixState(Fix(m, w.loopArgs, Step(w.loopArgs, Translate(w.body, w.loopArgs, true)), n, args, st), w.loopArgs,
           TermRounds(m, w.body, n, d, st), inner)
  {
    hide TermRun, TermRounds, Translate, LoopInit, Step, FixState, Fix;
    var w, inner := l[0], BodyNeeds(l[0], LiveAfter(l, inLoop, pending, needs), needs);
    LoopIsOk(l, inLoop, pending, needs);
    InitCorrect(m, w.loopArgs, w.input, inner, d, t, st);
    FixCorrect(m, w.body, w.loopArgs, inner, n, EvAll(m, LoopInit(w.loopArgs, w.input), t), d, st);
  }

  /** A loop that is still running when its fuel is used up: if its only statement is a `continue`, or hands on nothing
      but that, or the break flag is among the outputs of the loop, which is so for the loops within loops with a
      `break`, the code has no result; else the code after the loop runs on from where the rounds have got to: in their
      state, and with their values for what the rounds read and for what only the code after them reads. */
  lemma {:induction false} StillRunning(m: Model, l: seq<Stmt>, outs: seq<Name>, inLoop: bool, pending: bool,
                                        needs: Needs, d: Env, t: Env, st: RData)
    requires Covered(l, inLoop, pending, needs) && NeedsFlagFree(needs) && Agree(Live(l, inLoop, pending, needs), d, t)
    requires FlagsAre(t, inLoop, pending, Shown(l, outs))
    requires l != [] && l[0].While?
    requires var n := m.rank(l[0].id, GetAll(t, l[0].input)); n >= 0 && TermRounds(m, l[0].body, n, d, st).Running?
    ensures var w, r := l[0], Eval(m, Translate(l, outs, inLoop), t, st);
      var p := TermRounds(m, w.body, m.rank(w.id, GetAll(t, w.input)), d, st);
      if |w.body| == 1 && (w.body[0].ContinueStmt? || ((w.body[0].Branch? || w.body[0].While?) &&
        w.body[0].output == [CONTINUE])) then r == NoResult
      else if BREAK in w.output && (BREAK in w.loopArgs || Get(t, BREAK) == 0) then r == NoResult
      else exists t2 ::
        && FlagsAre(t2, inLoop, pending, Shown(l[1..], outs)) && r == Eval(m, Translate(l[1..], outs, inLoop), t2, p.st)
        && Agree(Names(w.input) + (LiveAfter(l, inLoop, pending, needs) - Names(w.loopArgs)), p.env, t2)
  {
    hide TermRun, Eval, Right, Translate, GoesRoundForever, LoopInit, AfterLoop, Step, Fix, LoopOk;
    var w, inner := l[0], BodyNeeds(l[0], LiveAfter(l, inLoop, pending, needs), needs);
    ForeverIff(w.body);
    WhileTerm(m, l, outs, inLoop, t, st);
    var n := m.rank(w.id, GetAll(t, w.input));
    LoopFix(m, l, inLoop, pending, needs, d, t, st, n);
    var args := EvAll(m, LoopInit(w.loopArgs, w.input), t);
    var r, p := Fix(m, w.loopArgs, Step(w.loopArgs, Translate(w.body, w.loopArgs, true)), n, args, st),
      TermRounds(m, w.body, n, d, st);
    var t1, t2 := BindAll(map[], w.loopArgs, r.vals), BindAll(t, w.loopArgs, r.vals);
    AfterLoopEval(m, w.output, outs, Translate(l[1..], outs, inLoop), t2, r.st);
    hide BindAll, TermRounds;
    forall x ensures Get(t2, x) == if x in w.loopArgs then Get(t1, x) else Get(t, x) {
      LoopBinds(t, w.loopArgs, r.vals, x);
    }
    if BREAK !in w.output || (BREAK !in w.loopArgs && Get(t, BREAK) != 0) {
      assert FlagsAre(t2, inLoop, pending, Shown(l[1..], outs));
      forall x | x in Names(w.input) + (LiveAfter(l, inLoop, pending, needs) - Names(w.loopArgs))
        ensures Get(p.env, x) == Get(t2, x) {
        if x !in Names(w.loopArgs) {
          assert Assigned(w.body) * (LiveAfter(l, inLoop, pending, needs) + needs.ret) <= Names(w.loopArgs);
          assert x !in Assigned(w.body) && x in Live(l, inLoop, pending, needs);
          UntouchedRounds(m, w.body, inner, n, d, st, x);
        }
      }
    }
  }

  /** A loop that breaks within its fuel: the code after it goes on in the state of the loop, with its values for all
      that is read later, and with the break flag set, to be cleared by nobody. */
  lemma {:induction false} LoopLeft(m: Model, l: seq<Stmt>, outs: seq<Name>, inLoop: bool, pending: bool,
                                    needs: Needs, d: Env, t: Env, st: RData) returns (t2: Env)
    requires Covered(l, inLoop, pending, needs) && Pended(inLoop, pending, needs) && NeedsFlagFree(needs)
    requires Agree(Live(l, inLoop, pending, needs), d, t) && FlagsAre(t, inLoop, pending, Shown(l, outs))
    requires l != [] && l[0].While?
    requires var n := m.rank(l[0].id, GetAll(t, l[0].input));
      n >= 0 && TermRounds(m, l[0].body, n, d, st).Ended? && TermRounds(m, l[0].body, n, d, st).how.Broke?
    ensures var how := TermRounds(m, l[0].body, m.rank(l[0].id, GetAll(t, l[0].input)), d, st).how;
      && Eval(m, Translate(l, outs, inLoop), t, st) == Eval(m, Translate(l[1..], outs, inLoop), t2, how.st)
      && Agree(LiveAfter(l, inLoop, pending, needs), how.env, t2) && Get(t2, BREAK) == 1
      && FlagsAre(t2, inLoop, PendingAfter(l[0], inLoop, pending), Shown(l[1..], outs))
  {
    hide TermRun, Eval, Translate, LoopInit, AfterLoop, Step, Fix, LoopOk, BindAll, TermRounds, FlagsAre, Shown, Live;
    hide LiveAfter, Pended, Reflects;
    var w := l[0];
    var n := m.rank(w.id, GetAll(t, w.input));
    WhileTerm(m, l, outs, inLoop, t, st);
    LoopFix(m, l, inLoop, pending, needs, d, t, st, n);
    TermRoundsExit(m, w.body, n, d, st);
    NotForever(m, l, inLoop, pending, needs, n, d, st);
    var args := EvAll(m, LoopInit(w.loopArgs, w.input), t);
    var r := Fix(m, w.loopArgs, Step(w.loopArgs, Translate(w.body, w.loopArgs, true)), n, args, st);
    LoopReflects(m, l, outs, inLoop, pending, needs, d, t, st, n, r);
    t2 := BindAll(t, w.loopArgs, r.vals);
    AfterLoopEval(m, w.output, outs, Translate(l[1..], outs, inLoop), t2, r.st);
  }

  lemma NotForever(m: Model, l: seq<Stmt>, inLoop: bool, pending: bool, needs: Needs, n: nat, d: Env, st: RData)
    requires Covered(l, inLoop, pending, needs) && l != [] && l[0].While?
    requires TermRounds(m, l[0].body, n, d, st).Ended? && TermRounds(m, l[0].body, n, d, st).how.Broke?
    ensures !GoesRoundForever(l[0].body)
  {
    hide TermRounds, Live, LiveAfter;
    if GoesRoundForever(l[0].body) {
      RoundForever(m, l[0].body, BodyNeeds(l[0], LiveAfter(l, inLoop, pending, needs), needs), n, d, st);
    }
  }
}
