/** Specifications: terms that compute a new abstract state, or nothing.

    The state is a record of records and of maps of records; a write names the path of fields down to the one
    it replaces. */
module StateSpec {
  import opened Prelude
  type Name = string
  type Field = string
  type Op = string

  datatype Value = Num(n: int) | Rec(fields: map<Field, Value>) | Arr(cells: map<int, Value>)

  type Env = map<Name, Value>

  datatype Expr =
    | Sym(name: Name)
    | Const(n: int)
    | Prim(op: Op, args: seq<Expr>)
    | And(left: Expr, right: Expr)
    | Not(arg: Expr)
    | RecGet(rec: Expr, field: Field)
    | RecSet(rec: Expr, path: seq<Field>, val: Expr)
    | MapGet(arr: Expr, key: Expr)
    | MapSet(arr: Expr, key: Expr, val: Expr)

  /** `Ret` is `Some (vals, st)`, or `Some st` without values; `Fail` is `None`. */
  datatype Spec =
    | Let(name: Name, val: Expr, body: Spec)
    | When(names: seq<Name>, call: Op, args: seq<Expr>, body: Spec)
    | Rely(prop: Expr, body: Spec)
    | If(cond: Expr, thn: Spec, els: Spec)
    | Ret(vals: seq<Expr>, st: Expr)
    | Fail

  datatype Machine = Machine(prim: (Op, seq<Value>) -> Value, call: (Op, seq<Value>) -> Option<seq<Value>>)

  function AsInt(v: Value): int {
    if v.Num? then v.n else 0
  }

  function Truth(v: Value): bool {
    AsInt(v) != 0
  }

  function GetField(v: Value, f: Field): Value {
    if v.Rec? && f in v.fields then v.fields[f] else Num(0)
  }

  /** Only the last field of a path may be new. */
  function SetPath(v: Value, path: seq<Field>, x: Value): Value {
    if path == [] then x
    else if !v.Rec? then v
    else if |path| == 1 then Rec(v.fields[path[0] := x])
    else if path[0] in v.fields then Rec(v.fields[path[0] := SetPath(v.fields[path[0]], path[1..], x)])
    else v
  }

  function GetPath(v: Value, path: seq<Field>): Value
    decreases |path|
  {
    if path == [] then v else GetPath(GetField(v, path[0]), path[1..])
  }

  function GetCell(v: Value, k: int): Value {
    if v.Arr? && k in v.cells then v.cells[k] else Num(0)
  }

  function SetCell(v: Value, k: int, x: Value): Value {
    if v.Arr? then Arr(v.cells[k := x]) else v
  }

  function Ev(m: Machine, e: Expr, env: Env): Value {
    match e
    case Sym(x) => if x in env then env[x] else Num(0)
    case Const(n) => Num(n)
    case Prim(op, args) => m.prim(op, EvAll(m, args, env))
    case And(a, b) => if Truth(Ev(m, a, env)) && Truth(Ev(m, b, env)) then Num(1) else Num(0)
    case Not(a) => if Truth(Ev(m, a, env)) then Num(0) else Num(1)
    case RecGet(r, f) => GetField(Ev(m, r, env), f)
    case RecSet(r, path, v) => SetPath(Ev(m, r, env), path, Ev(m, v, env))
    case MapGet(a, k) => GetCell(Ev(m, a, env), AsInt(Ev(m, k, env)))
    case MapSet(a, k, v) => SetCell(Ev(m, a, env), AsInt(Ev(m, k, env)), Ev(m, v, env))
  }

  function EvAll(m: Machine, es: seq<Expr>, env: Env): (r: seq<Value>)
    ensures |r| == |es| && forall i :: 0 <= i < |es| ==> r[i] == Ev(m, es[i], env)
  {
    seq(|es|, i requires 0 <= i < |es| => Ev(m, es[i], env))
  }

  function Bind(env: Env, names: seq<Name>, vals: seq<Value>): Env
    requires |names| == |vals|
  {
    if names == [] then env
    else Bind(env, names[..|names| - 1], vals[..|vals| - 1])[names[|names| - 1] := vals[|vals| - 1]]
  }

  datatype Outcome = Failed | Done(vals: seq<Value>, st: Value)

  /** The branches taken, and what comes of it. */
  datatype Run = Run(branches: seq<bool>, out: Outcome)

  function Eval(m: Machine, s: Spec, env: Env): Run {
    match s
    case Let(x, e, body) => Eval(m, body, env[x := Ev(m, e, env)])
    case When(names, call, args, body) =>
      var r := m.call(call, EvAll(m, args, env));
      if r.None? || |r.value| != |names| then Run([], Failed) else Eval(m, body, Bind(env, names, r.value))
    case Rely(prop, body) => if Truth(Ev(m, prop, env)) then Eval(m, body, env) else Run([], Failed)
    case If(c, thn, els) =>
      var b := Truth(Ev(m, c, env));
      var r := Eval(m, if b then thn else els, env);
      Run([b] + r.branches, r.out)
    case Ret(vals, st) => Run([], Done(EvAll(m, vals, env), Ev(m, st, env)))
    case Fail => Run([], Failed)
  }

  /** The state a run ends in, if any. */
  function FinalState(m: Machine, s: Spec, env: Env): Option<Value> {
    match Eval(m, s, env).out
    case Done(_, st) => Some(st)
    case Failed => None
  }
}
