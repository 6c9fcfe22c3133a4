/** Rewriting a term by patterns: an expression that matches a raw pattern becomes the abstract one. */
module PatternMatch {
  import opened Prelude

  type Name = string
  type Env = map<Name, int>

  datatype Op = Minus | Other(name: string)

  datatype Node = Symbol(name: Name) | IntConst(n: int) | App(op: Op, args: seq<Node>)

  datatype Machine = Machine(op: (Op, seq<int>) -> int)

  /** Minus of one argument is negation; nothing else is known of the operators. */
  ghost predicate Negates(m: Machine) {
    forall n :: m.op(Minus, [n]) == -n
  }

  function Get(env: Env, x: Name): int {
    if x in env then env[x] else 0
  }

  function Eval(m: Machine, t: Node, env: Env): int {
    match t
    case Symbol(x) => Get(env, x)
    case IntConst(n) => n
    case App(op, args) => m.op(op, EvalAll(m, args, env))
  }

  function EvalAll(m: Machine, ts: seq<Node>, env: Env): (r: seq<int>)
    ensures |r| == |ts| && forall i :: 0 <= i < |ts| ==> r[i] == Eval(m, ts[i], env)
  {
    seq(|ts|, i requires 0 <= i < |ts| => Eval(m, ts[i], env))
  }

  /** What names are bound to by `let`s above the term. */
  type LetCache = map<Name, Node>

  ghost predicate Consistent(m: Machine, cache: LetCache, env: Env) {
    forall x :: x in cache ==> Get(env, x) == Eval(m, cache[x], env)
  }

  /** A name bound to another name stands higher than that name. */
  ghost predicate Acyclic(cache: LetCache, rank: map<Name, nat>) {
    && (forall x :: x in cache ==> x in rank)
    && (forall x :: x in cache && cache[x].Symbol? && cache[x].name in cache ==> rank[cache[x].name] < rank[x])
  }

  ghost function Height(cache: LetCache, rank: map<Name, nat>, value: Node): nat
    requires Acyclic(cache, rank)
  {
    if value.Symbol? && value.name in cache then rank[value.name] + 1 else 0
  }

  /** A pattern: `holes` and the raw core stand for any term. */
  datatype Pattern = Pattern(raw: Node, rawCore: Name, absCore: Name, holes: set<Name>) {
    predicate IsHole(x: Name) {
      x == rawCore || x in holes
    }
  }

  type Cores = map<Name, Node>

  datatype Verdict = Yes(cores: Cores) | No | Aborts

  /** `add_core_map`: terms are compared by address, so a second occurrence never passes. */
  function AddCore(cores: Cores, x: Name, value: Node): Verdict {
    if x in cores then No else Yes(cores[x := value])
  }

  /** `check_abstraction_pattern`. */
  function Check(p: Pattern, cache: LetCache, ghost rank: map<Name, nat>, value: Node, raw: Node, cores: Cores): Verdict
    requires Acyclic(cache, rank)
    decreases raw, Height(cache, rank, value), 0
  {
    match raw
    case Symbol(x) =>
      if p.IsHole(x) then AddCore(cores, x, value)
      else if value == raw then Yes(cores)
      else No
    case IntConst(n) => if value == raw then Yes(cores) else No
    case App(op, args) =>
      match value
      case Symbol(x) => if x in cache then Check(p, cache, rank, cache[x], raw, cores) else No
      case App(op', args') =>
        if op == op' && |args| == |args'| then CheckAll(p, cache, rank, args', args, cores) else No
      case IntConst(v) =>
        if op != Minus then No
        else if |args| != 1 then Aborts
        else if args[0].IntConst? && -v == args[0].n then Yes(cores)
        else No
  }

  function CheckAll(p: Pattern, cache: LetCache, ghost rank: map<Name, nat>, values: seq<Node>, raws: seq<Node>,
                    cores: Cores): Verdict
    requires Acyclic(cache, rank) && |values| == |raws|
    decreases raws, 0, |raws|
  {
    if raws == [] then Yes(cores)
    else
      match Check(p, cache, rank, values[0], raws[0], cores)
      case Yes(cores') => CheckAll(p, cache, rank, values[1..], raws[1..], cores')
      case v => v
  }

  /** The environment in which the holes stand for what they have been matched with. */
  function HoleEnv(m: Machine, cores: Cores, env: Env): Env {
    env + map x | x in cores :: Eval(m, cores[x], env)
  }

  lemma HoleGet(m: Machine, cores: Cores, env: Env, x: Name)
    ensures Get(HoleEnv(m, cores, env), x) == if x in cores then Eval(m, cores[x], env) else Get(env, x)
  {
  }

  function Holes(p: Pattern, raw: Node): set<Name> {
    match raw
    case Symbol(x) => if p.IsHole(x) then {x} else {}
    case IntConst(_) => {}
    case App(_, args) => HolesAll(p, args)
  }

  function HolesAll(p: Pattern, raws: seq<Node>): (r: set<Name>)
    ensures forall i :: 0 <= i < |raws| ==> Holes(p, raws[i]) <= r
  {
    if raws == [] then {} else Holes(p, raws[0]) + HolesAll(p, raws[1..])
  }

  /** Cores only hold holes. */
  predicate OnlyHoles(p: Pattern, cores: Cores) {
    forall x :: x in cores ==> p.IsHole(x)
  }

  ghost predicate Extends(cores: Cores, cores': Cores) {
    forall x :: x in cores ==> x in cores' && cores'[x] == cores[x]
  }

  /** If the pattern matches, the term, with its names looked up, is the raw pattern with its holes filled. */
  lemma {:induction false} MatchMeans(m: Machine, p: Pattern, cache: LetCache, rank: map<Name, nat>, value: Node,
                                      raw: Node, cores: Cores, env: Env)
    requires Negates(m) && Acyclic(cache, rank) && Consistent(m, cache, env) && OnlyHoles(p, cores)
    requires Check(p, cache, rank, value, raw, cores).Yes?
    ensures var cores' := Check(p, cache, rank, value, raw, cores).cores;
      && OnlyHoles(p, cores') && Extends(cores, cores') && Holes(p, raw) <= cores'.Keys
      && forall all: Cores :: OnlyHoles(p, all) && Extends(cores', all) ==>
         Eval(m, raw, HoleEnv(m, all, env)) == Eval(m, value, env)
    decreases raw, Height(cache, rank, value), 0
  {
    hide HoleEnv;
    var cores' := Check(p, cache, rank, value, raw, cores).cores;
    match raw
    case Symbol(x) =>
      forall all: Cores | OnlyHoles(p, all) && Extends(cores', all)
        ensures Eval(m, raw, HoleEnv(m, all, env)) == Eval(m, value, env) {
        HoleGet(m, all, env, x);
      }
    case IntConst(_) =>
    case App(op, args) =>
      match value
      case Symbol(x) => MatchMeans(m, p, cache, rank, cache[x], raw, cores, env);
      case App(_, args') => MatchAllMeans(m, p, cache, rank, args', args, cores, env);
      case IntConst(v) =>
        forall all: Cores ensures Eval(m, raw, HoleEnv(m, all, env)) == v {
          assert EvalAll(m, args, HoleEnv(m, all, env)) == [args[0].n];
        }
        assert HolesAll(p, args[1..]) == {};
  }

  lemma {:induction false} MatchAllMeans(m: Machine, p: Pattern, cache: LetCache, rank: map<Name, nat>,
                                         values: seq<Node>, raws: seq<Node>, cores: Cores, env: Env)
    requires Negates(m) && Acyclic(cache, rank) && Consistent(m, cache, env) && OnlyHoles(p, cores)
      && |values| == |raws|
    requires CheckAll(p, cache, rank, values, raws, cores).Yes?
    ensures var cores' := CheckAll(p, cache, rank, values, raws, cores).cores;
      && OnlyHoles(p, cores') && Extends(cores, cores') && HolesAll(p, raws) <= cores'.Keys
      && forall all: Cores :: OnlyHoles(p, all) && Extends(cores', all) ==>
         EvalAll(m, raws, HoleEnv(m, all, env)) == EvalAll(m, values, env)
    decreases raws, 0, |raws|
  {
    hide HoleEnv;
    if raws != [] {
      MatchMeans(m, p, cache, rank, values[0], raws[0], cores, env);
      var next := Check(p, cache, rank, values[0], raws[0], cores).cores;
      MatchAllMeans(m, p, cache, rank, values[1..], raws[1..], next, env);
      var cores' := CheckAll(p, cache, rank, values, raws, cores).cores;
      forall all: Cores | OnlyHoles(p, all) && Extends(cores', all)
        ensures EvalAll(m, raws, HoleEnv(m, all, env)) == EvalAll(m, values, env) {
        assert Extends(next, all);
        var e := HoleEnv(m, all, env);
        assert EvalAll(m, raws, e) == [Eval(m, raws[0], e)] + EvalAll(m, raws[1..], e);
        assert EvalAll(m, values, env) == [Eval(m, values[0], env)] + EvalAll(m, values[1..], env);
      }
    }
  }

  // ---------- building the abstract term

  /** `construct_abstraction_pattern`: the abstract core becomes what the raw core has been matched with. */
  function Construct(absCore: Name, core: Node, abs: Node): Node {
    match abs
    case Symbol(x) => if x == absCore then core else abs
    case IntConst(_) => abs
    case App(op, args) => App(op, ConstructAll(absCore, core, args))
  }

  function ConstructAll(absCore: Name, core: Node, ts: seq<Node>): (r: seq<Node>)
    ensures |r| == |ts| && forall i :: 0 <= i < |ts| ==> r[i] == Construct(absCore, core, ts[i])
  {
    seq(|ts|, i requires 0 <= i < |ts| => Construct(absCore, core, ts[i]))
  }

  lemma {:induction false} ConstructMeans(m: Machine, absCore: Name, core: Node, abs: Node, env: Env)
    ensures Eval(m, Construct(absCore, core, abs), env) == Eval(m, abs, env[absCore := Eval(m, core, env)])
  {
    match abs
    case Symbol(_) =>
    case IntConst(_) =>
    case App(op, args) =>
      var env' := env[absCore := Eval(m, core, env)];
      forall i | 0 <= i < |args| ensures Eval(m, ConstructAll(absCore, core, args)[i], env) == Eval(m, args[i], env') {
        ConstructMeans(m, absCore, core, args[i], env);
      }
      assert EvalAll(m, ConstructAll(absCore, core, args), env) == EvalAll(m, args, env');
  }

  /** An abstraction gives the abstract term for what the holes have been matched with, or declines. */
  datatype Abstraction = Abstraction(p: Pattern, skip: bool, abs: Cores -> Option<Node>)

  /** Raw and abstract term agree, whatever the core. */
  ghost predicate Agrees(m: Machine, a: Abstraction) {
    && a.p.rawCore in Holes(a.p, a.p.raw)
    && forall cores: Cores, env :: OnlyHoles(a.p, cores) && Holes(a.p, a.p.raw) <= cores.Keys && a.abs(cores).Some? ==>
         Eval(m, a.p.raw, HoleEnv(m, cores, env)) == Eval(m, a.abs(cores).value,
           env[a.p.absCore := Eval(m, cores[a.p.rawCore], env)])
  }

  datatype Rewritten = Term(t: Node) | Aborted

  /** The state of one match. */
  class MatchContext {
    var coreMap: Cores

    constructor ()
      ensures coreMap == map[]
    {
      coreMap := map[];
    }

    method AddCoreMap(x: Name, value: Node) returns (ok: bool)
      modifies this
      ensures ok == AddCore(old(coreMap), x, value).Yes?
      ensures coreMap == if ok then AddCore(old(coreMap), x, value).cores else old(coreMap)
    {
      if x in coreMap {
        return false;
      }
      coreMap := coreMap[x := value];
      return true;
    }

    /** Fills the core map as far as the term matches.  `alive` is false if an assertion of the program fails. */
    method CheckPattern(p: Pattern, cache: LetCache, ghost rank: map<Name, nat>, value: Node, raw: Node)
      returns (ok: bool, alive: bool)
      requires Acyclic(cache, rank)
      modifies this
      ensures match Check(p, cache, rank, value, raw, old(coreMap))
        case Yes(cores) => ok && alive && coreMap == cores
        case No => !ok && alive
        case Aborts => !alive
      decreases raw, Height(cache, rank, value), 0
    {
      ok, alive := false, true;
      match raw
      case Symbol(x) =>
        if p.IsHole(x) {
          ok := AddCoreMap(x, value);
        } else {
          ok := value == raw;
        }
      case IntConst(_) => ok := value == raw;
      case App(op, args) =>
        match value
        case Symbol(x) =>
          if x in cache {
            ok, alive := CheckPattern(p, cache, rank, cache[x], raw);
          }
        case App(op', args') =>
          if op == op' && |args| == |args'| {
            ok := true;
            ghost var cores0 := coreMap;
            assert args'[0..] == args' && args[0..] == args;
            for i := 0 to |args|
              invariant ok && alive
              invariant CheckAll(p, cache, rank, args', args, cores0) ==
                CheckAll(p, cache, rank, args'[i..], args[i..], coreMap)
            {
              assert args'[i..][1..] == args'[i + 1..] && args[i..][1..] == args[i + 1..];
              ok, alive := CheckPattern(p, cache, rank, args'[i], args[i]);
              if !ok || !alive {
                return;
              }
            }
          }
        case IntConst(v) =>
          if op == Minus {
            if |args| != 1 {
              alive := false;
            } else {
              ok := args[0].IntConst? && -v == args[0].n;
            }
          }
    }
  }

  /** What one abstraction makes of the term; nothing if it does not apply. */
  function Applied(a: Abstraction, cache: LetCache, ghost rank: map<Name, nat>, spec: Node): Option<Rewritten>
    requires Acyclic(cache, rank)
  {
    match Check(a.p, cache, rank, spec, a.p.raw, map[])
    case No => None
    case Aborts => Some(Aborted)
    case Yes(cores) =>
      if a.abs(cores).None? then None
      else if a.p.rawCore !in cores then Some(Aborted)
      else Some(Term(Construct(a.p.absCore, cores[a.p.rawCore], a.abs(cores).value)))
  }

  /** The term the first abstraction that applies makes, of those that are not skipped. */
  ghost predicate FirstApplied(abstractions: seq<Abstraction>, cache: LetCache, rank: map<Name, nat>, spec: Node,
                               r: Rewritten)
    requires Acyclic(cache, rank)
  {
    || (r == Term(spec) && PassedOver(abstractions, cache, rank, spec))
    || (exists i :: 0 <= i < |abstractions| && PassedOver(abstractions[..i], cache, rank, spec)
         && !abstractions[i].skip && Applied(abstractions[i], cache, rank, spec) == Some(r))
  }

  ghost predicate PassedOver(abstractions: seq<Abstraction>, cache: LetCache, rank: map<Name, nat>, spec: Node)
    requires Acyclic(cache, rank)
  {
    forall a :: a in abstractions ==> a.skip || Applied(a, cache, rank, spec) == None
  }

  lemma OneMorePassed(abstractions: seq<Abstraction>, i: nat, cache: LetCache, rank: map<Name, nat>, spec: Node)
    requires Acyclic(cache, rank) && i < |abstractions| && PassedOver(abstractions[..i], cache, rank, spec)
    requires abstractions[i].skip || Applied(abstractions[i], cache, rank, spec) == None
    ensures PassedOver(abstractions[..i + 1], cache, rank, spec)
  {
    hide Applied;
    assert abstractions[..i + 1] == abstractions[..i] + [abstractions[i]];
  }

  /** `apply_abstraction`: the first abstraction that matches, and does not decline, is applied.  The value stays
      the same wherever the names have the values they are bound to. */
  method ApplyAbstraction(abstractions: seq<Abstraction>, cache: LetCache, ghost rank: map<Name, nat>, spec: Node)
    returns (r: Rewritten)
    requires Acyclic(cache, rank)
    ensures FirstApplied(abstractions, cache, rank, spec, r)
    ensures r.Term? ==> forall m, env ::
      Negates(m) && Consistent(m, cache, env) && (forall a :: a in abstractions ==> Agrees(m, a)) ==>
        Eval(m, r.t, env) == Eval(m, spec, env)
  {
    hide Eval, Check, Construct, Agrees, Consistent, Negates, PassedOver, Acyclic;
    NonePassed(cache, rank, spec);
    for i := 0 to |abstractions|
      invariant PassedOver(abstractions[..i], cache, rank, spec)
    {
      var a := abstractions[i];
      if a.skip {
        OneMorePassed(abstractions, i, cache, rank, spec);
        continue;
      }
      var context := new MatchContext();
      var ok, alive := context.CheckPattern(a.p, cache, rank, spec, a.p.raw);
      if !alive {
        return Aborted;
      }
      if ok {
        var abs := a.abs(context.coreMap);
        if abs.Some? {
          if a.p.rawCore !in context.coreMap {
            return Aborted;
          }
          var t := Construct(a.p.absCore, context.coreMap[a.p.rawCore], abs.value);
          forall m, env | Negates(m) && Consistent(m, cache, env) && (forall a :: a in abstractions ==> Agrees(m, a))
            ensures Eval(m, t, env) == Eval(m, spec, env)
          {
            OneIsSound(m, a, cache, rank, spec, context.coreMap, env);
          }
          return Term(t);
        }
      }
      OneMorePassed(abstractions, i, cache, rank, spec);
    }
    assert abstractions[..|abstractions|] == abstractions;
    return Term(spec);
  }

  lemma NonePassed(cache: LetCache, rank: map<Name, nat>, spec: Node)
    requires Acyclic(cache, rank)
    ensures PassedOver([], cache, rank, spec)
  {
  }

  lemma OneIsSound(m: Machine, a: Abstraction, cache: LetCache, rank: map<Name, nat>, spec: Node, cores: Cores,
                   env: Env)
    requires Negates(m) && Acyclic(cache, rank) && Consistent(m, cache, env) && Agrees(m, a)
    requires Check(a.p, cache, rank, spec, a.p.raw, map[]) == Yes(cores) && a.abs(cores).Some? && a.p.rawCore in cores
    ensures Eval(m, Construct(a.p.absCore, cores[a.p.rawCore], a.abs(cores).value), env) == Eval(m, spec, env)
  {
    hide Eval, HoleEnv, Construct, Check;
    MatchMeans(m, a.p, cache, rank, spec, a.p.raw, map[], env);
    assert Extends(cores, cores);
    ConstructMeans(m, a.p.absCore, cores[a.p.rawCore], a.abs(cores).value, env);
  }

  // ---------- patterns with a hole more than once

  function HoleList(p: Pattern, raw: Node): seq<Name> {
    match raw
    case Symbol(x) => if p.IsHole(x) then [x] else []
    case IntConst(_) => []
    case App(_, args) => HoleListAll(p, args)
  }

  function HoleListAll(p: Pattern, raws: seq<Node>): seq<Name> {
    if raws == [] then [] else HoleList(p, raws[0]) + HoleListAll(p, raws[1..])
  }

  /** All holes are new, and they are what the match adds. */
  ghost predicate Fresh(holes: seq<Name>, cores: Cores, cores': Cores) {
    NoDup(holes) && (forall x :: x in holes ==> x !in cores) && forall x :: x in cores' <==> x in cores || x in holes
  }

  /** A pattern in which a hole occurs more than once never matches, not even a term with the same part twice. */
  lemma RepeatedHoleNeverMatches(p: Pattern, cache: LetCache, rank: map<Name, nat>, value: Node)
    requires Acyclic(cache, rank) && !NoDup(HoleList(p, p.raw))
    ensures !Check(p, cache, rank, value, p.raw, map[]).Yes?
  {
    if Check(p, cache, rank, value, p.raw, map[]).Yes? {
      HolesAreFresh(p, cache, rank, value, p.raw, map[]);
    }
  }

  lemma {:induction false} HolesAreFresh(p: Pattern, cache: LetCache, rank: map<Name, nat>, value: Node, raw: Node,
                                         cores: Cores)
    requires Acyclic(cache, rank) && Check(p, cache, rank, value, raw, cores).Yes?
    ensures Fresh(HoleList(p, raw), cores, Check(p, cache, rank, value, raw, cores).cores)
    decreases raw, Height(cache, rank, value), 0
  {
    match raw
    case Symbol(_) =>
    case IntConst(_) =>
    case App(op, args) =>
      match value
      case Symbol(x) => HolesAreFresh(p, cache, rank, cache[x], raw, cores);
      case App(_, args') => AllHolesAreFresh(p, cache, rank, args', args, cores);
      case IntConst(_) => assert HoleListAll(p, args) == HoleList(p, args[0]) + HoleListAll(p, args[1..]);
  }

  lemma {:induction false} AllHolesAreFresh(p: Pattern, cache: LetCache, rank: map<Name, nat>, values: seq<Node>,
                                            raws: seq<Node>, cores: Cores)
    requires Acyclic(cache, rank) && |values| == |raws| && CheckAll(p, cache, rank, values, raws, cores).Yes?
    ensures Fresh(HoleListAll(p, raws), cores, CheckAll(p, cache, rank, values, raws, cores).cores)
    decreases raws, 0, |raws|
  {
    if raws != [] {
      HolesAreFresh(p, cache, rank, values[0], raws[0], cores);
      AllHolesAreFresh(p, cache, rank, values[1..], raws[1..], Check(p, cache, rank, values[0], raws[0], cores).cores);
      NoDupConcat(HoleList(p, raws[0]), HoleListAll(p, raws[1..]));
    }
  }

  // ---------- patterns with every hole once

  /** The raw pattern with its holes filled. */
  function Instance(p: Pattern, raw: Node, sub: Cores): Node {
    match raw
    case Symbol(x) => if p.IsHole(x) && x in sub then sub[x] else raw
    case IntConst(_) => raw
    case App(op, args) => App(op, InstanceAll(p, args, sub))
  }

  function InstanceAll(p: Pattern, raws: seq<Node>, sub: Cores): (r: seq<Node>)
    ensures |r| == |raws|
  {
    if raws == [] then [] else [Instance(p, raws[0], sub)] + InstanceAll(p, raws[1..], sub)
  }

  /** The cores once the holes have been filled from `sub`. */
  ghost predicate FilledFrom(holes: seq<Name>, sub: Cores, cores: Cores, cores': Cores) {
    && (forall x :: x in cores' <==> x in cores || x in holes)
    && (forall x :: x in cores' ==> if x in holes then x in sub && cores'[x] == sub[x] else cores'[x] == cores[x])
  }

  /** A pattern in which no hole occurs twice matches each of its instances, and finds what the holes were filled
      with. */
  lemma {:induction false} InstanceMatches(p: Pattern, cache: LetCache, rank: map<Name, nat>, raw: Node, sub: Cores,
                                           cores: Cores)
    requires Acyclic(cache, rank) && NoDup(HoleList(p, raw)) && forall x :: x in HoleList(p, raw) ==>
      x in sub && x !in cores
    ensures Check(p, cache, rank, Instance(p, raw, sub), raw, cores).Yes?
    ensures FilledFrom(HoleList(p, raw), sub, cores, Check(p, cache, rank, Instance(p, raw, sub), raw, cores).cores)
    decreases raw, 0
  {
    match raw
    case Symbol(x) =>
    case IntConst(_) =>
    case App(op, args) =>
      AllInstancesMatch(p, cache, rank, args, sub, cores);
  }

  lemma {:induction false} AllInstancesMatch(p: Pattern, cache: LetCache, rank: map<Name, nat>, raws: seq<Node>,
                                             sub: Cores, cores: Cores)
    requires Acyclic(cache, rank) && NoDup(HoleListAll(p, raws)) && forall x :: x in HoleListAll(p, raws) ==>
      x in sub && x !in cores
    ensures CheckAll(p, cache, rank, InstanceAll(p, raws, sub), raws, cores).Yes?
    ensures FilledFrom(HoleListAll(p, raws), sub, cores, CheckAll(p, cache, rank, InstanceAll(p, raws, sub), raws,
      cores).cores)
    decreases raws, 1
  {
    hide Check, HoleList, Instance, Acyclic;
    if raws != [] {
      var first, rest := HoleList(p, raws[0]), HoleListAll(p, raws[1..]);
      NoDupParts(first, rest);
      InstanceMatches(p, cache, rank, raws[0], sub, cores);
      var values := InstanceAll(p, raws, sub);
      assert values == [Instance(p, raws[0], sub)] + InstanceAll(p, raws[1..], sub);
      AllInstancesMatch(p, cache, rank, raws[1..], sub, Check(p, cache, rank, values[0], raws[0], cores).cores);
    }
  }

  /** What a term stands for, through all names that are bound to names. */
  function Lookup(cache: LetCache, ghost rank: map<Name, nat>, t: Node): Node
    requires Acyclic(cache, rank)
    decreases Height(cache, rank, t)
  {
    if t.Symbol? && t.name in cache then Lookup(cache, rank, cache[t.name]) else t
  }

  /** A name in a pattern stands for any term exactly if it is the core or among the holes, and else for itself. */
  lemma HoleIff(p: Pattern, cache: LetCache, rank: map<Name, nat>, value: Node, x: Name)
    requires Acyclic(cache, rank)
    ensures Check(p, cache, rank, value, Symbol(x), map[]) ==
      if x == p.rawCore || x in p.holes then Yes(map[x := value])
      else if value == Symbol(x) then Yes(map[]) else No
  {
  }

  /** The term as the pattern sees it: names are looked up wherever the pattern has an operator, and a constant is
      read as the negation of its negative where the pattern has the negation of a constant. */
  function Unfold(cache: LetCache, ghost rank: map<Name, nat>, raw: Node, t: Node): Node
    requires Acyclic(cache, rank)
    decreases raw, 0
  {
    match raw
    case App(op, args) =>
      var u := Lookup(cache, rank, t);
      if u.App? && |u.args| == |args| then App(u.op, UnfoldAll(cache, rank, args, u.args))
      else if u.IntConst? && op == Minus && |args| == 1 && args[0].IntConst? then App(Minus, [IntConst(-u.n)])
      else u
    case _ => t
  }

  function UnfoldAll(cache: LetCache, ghost rank: map<Name, nat>, raws: seq<Node>, ts: seq<Node>): (r: seq<Node>)
    requires Acyclic(cache, rank) && |raws| == |ts|
    ensures |r| == |ts|
    decreases raws, 1
  {
    if raws == [] then [] else [Unfold(cache, rank, raws[0], ts[0])] + UnfoldAll(cache, rank, raws[1..], ts[1..])
  }

  /** Matching is unfolding to an instance, for given fillings of the holes. */
  ghost predicate Matches(p: Pattern, raw: Node, t: Node, holes: seq<Name>, cores: Cores, v: Verdict) {
    && (v.Yes? ==>
       Filling(holes, v.cores) && FilledFrom(holes, v.cores, cores, v.cores) && Instance(p, raw, v.cores) == t)
    && (forall sub :: Filling(holes, sub) && Instance(p, raw, sub) == t ==>
          v.Yes? && FilledFrom(holes, sub, cores, v.cores))
  }

  ghost predicate MatchesAll(p: Pattern, raws: seq<Node>, ts: seq<Node>, holes: seq<Name>, cores: Cores, v: Verdict) {
    && (v.Yes? ==>
          Filling(holes, v.cores) && FilledFrom(holes, v.cores, cores, v.cores) && InstanceAll(p, raws, v.cores) == ts)
    && (forall sub :: Filling(holes, sub) && InstanceAll(p, raws, sub) == ts ==>
          v.Yes? && FilledFrom(holes, sub, cores, v.cores))
  }

  /** Every hole has a filling. */
  predicate Filling(holes: seq<Name>, sub: Cores) {
    forall x :: x in holes ==> x in sub
  }

  /** A pattern with distinct holes matches exactly the terms that unfold to one of its instances, and finds exactly
      what the holes are filled with there. */
  lemma {:induction false} MatchesIff(p: Pattern, cache: LetCache, rank: map<Name, nat>, value: Node, raw: Node,
                                      cores: Cores)
    requires Acyclic(cache, rank) && NoDup(HoleList(p, raw)) && forall x :: x in HoleList(p, raw) ==> x !in cores
    ensures Matches(p, raw, Unfold(cache, rank, raw, value), HoleList(p, raw), cores,
      Check(p, cache, rank, value, raw, cores))
    decreases raw, Height(cache, rank, value), 0
  {
    match raw
    case Symbol(_) =>
    case IntConst(_) =>
    case App(op, args) =>
      match value
      case Symbol(x) =>
        if x in cache {
          MatchesIff(p, cache, rank, cache[x], raw, cores);
          assert Unfold(cache, rank, raw, value) == Unfold(cache, rank, raw, cache[x]);
        }
      case App(op', args') =>
        if op == op' && |args| == |args'| {
          AllMatchIff(p, cache, rank, args', args, cores);
          hide CheckAll, UnfoldAll, HoleListAll, InstanceAll, MatchesAll, Matches, Filling, FilledFrom;
          AppMatches(p, op, args, UnfoldAll(cache, rank, args, args'), cores,
            CheckAll(p, cache, rank, args', args, cores));
        }
      case IntConst(v) =>
        if op == Minus && |args| == 1 && args[0].IntConst? {
          ConstMatches(p, cache, rank, v, args, cores);
        }
  }

  lemma ConstMatches(p: Pattern, cache: LetCache, rank: map<Name, nat>, v: int, args: seq<Node>, cores: Cores)
    requires Acyclic(cache, rank) && |args| == 1 && args[0].IntConst?
    ensures var raw, value := App(Minus, args), IntConst(v);
      Matches(p, raw, Unfold(cache, rank, raw, value), HoleList(p, raw), cores,
              Check(p, cache, rank, value, raw, cores))
  {
    ConstInstance(p, args);
  }

  lemma ConstInstance(p: Pattern, args: seq<Node>)
    requires |args| == 1 && args[0].IntConst?
    ensures HoleListAll(p, args) == [] && forall sub :: InstanceAll(p, args, sub) == [args[0]]
  {
    assert HoleListAll(p, args[1..]) == [] && args[1..] == [];
    forall sub ensures InstanceAll(p, args, sub) == [args[0]] {
      assert InstanceAll(p, args[1..], sub) == [];
    }
  }

  lemma AppMatches(p: Pattern, op: Op, args: seq<Node>, ts: seq<Node>, cores: Cores, v: Verdict)
    requires MatchesAll(p, args, ts, HoleListAll(p, args), cores, v)
    ensures Matches(p, App(op, args), App(op, ts), HoleList(p, App(op, args)), cores, v)
  {
    hide InstanceAll, HoleListAll, Filling, FilledFrom;
  }

  lemma {:induction false} AllMatchIff(p: Pattern, cache: LetCache, rank: map<Name, nat>, values: seq<Node>,
                                       raws: seq<Node>, cores: Cores)
    requires Acyclic(cache, rank) && |values| == |raws|
    requires NoDup(HoleListAll(p, raws)) && forall x :: x in HoleListAll(p, raws) ==> x !in cores
    ensures MatchesAll(p, raws, UnfoldAll(cache, rank, raws, values), HoleListAll(p, raws), cores,
      CheckAll(p, cache, rank, values, raws, cores))
    decreases raws, 0, |raws|
  {
    hide Check, HoleList, Instance, Unfold, Acyclic;
    if raws != [] {
      var first, rest := HoleList(p, raws[0]), HoleListAll(p, raws[1..]);
      NoDupParts(first, rest);
      MatchesIff(p, cache, rank, values[0], raws[0], cores);
      var v, t := Check(p, cache, rank, values[0], raws[0], cores), Unfold(cache, rank, raws[0], values[0]);
      var next := if v.Yes? then CheckAll(p, cache, rank, values[1..], raws[1..], v.cores) else v;
      if v.Yes? {
        AllMatchIff(p, cache, rank, values[1..], raws[1..], v.cores);
      }
      MatchesBoth(p, raws, [t] + UnfoldAll(cache, rank, raws[1..], values[1..]), cores, v, next);
    }
  }

  lemma MatchesBoth(p: Pattern, raws: seq<Node>, ts: seq<Node>, cores: Cores, v: Verdict, next: Verdict)
    requires raws != [] && ts != []
    requires var first, rest := HoleList(p, raws[0]), HoleListAll(p, raws[1..]);
      && (forall x :: x in first ==> x !in rest) && Matches(p, raws[0], ts[0], first, cores, v)
      && (if v.Yes? then MatchesAll(p, raws[1..], ts[1..], rest, v.cores, next) else next == v)
    ensures MatchesAll(p, raws, ts, HoleListAll(p, raws), cores, next)
  {
    hide HoleList, Instance, InstanceAll;
    var first, rest := HoleList(p, raws[0]), HoleListAll(p, raws[1..]);
    assert HoleListAll(p, raws) == first + rest;
    forall sub ensures InstanceAll(p, raws, sub) == [Instance(p, raws[0], sub)] + InstanceAll(p, raws[1..], sub) {
      InstanceFirst(p, raws, sub);
    }
    if next.Yes? {
      InstanceSame(p, raws[0], v.cores, next.cores);
      assert ts == [ts[0]] + ts[1..];
    }
    forall sub | Filling(first + rest, sub) && InstanceAll(p, raws, sub) == ts
      ensures next.Yes? && FilledFrom(first + rest, sub, cores, next.cores)
    {
      assert Filling(first, sub) && Filling(rest, sub);
      assert InstanceAll(p, raws, sub)[0] == ts[0] && InstanceAll(p, raws, sub)[1..] == ts[1..];
    }
  }

  lemma InstanceFirst(p: Pattern, raws: seq<Node>, sub: Cores)
    requires raws != []
    ensures InstanceAll(p, raws, sub) == [Instance(p, raws[0], sub)] + InstanceAll(p, raws[1..], sub)
  {
  }

  /** An instance depends on what its holes are filled with only. */
  lemma {:induction false} InstanceSame(p: Pattern, raw: Node, a: Cores, b: Cores)
    requires forall x :: x in HoleList(p, raw) ==> x in a && x in b && a[x] == b[x]
    ensures Instance(p, raw, a) == Instance(p, raw, b)
    decreases raw, 0
  {
    if raw.App? {
      InstanceAllSame(p, raw.args, a, b);
    }
  }

  lemma {:induction false} InstanceAllSame(p: Pattern, raws: seq<Node>, a: Cores, b: Cores)
    requires forall x :: x in HoleListAll(p, raws) ==> x in a && x in b && a[x] == b[x]
    ensures InstanceAll(p, raws, a) == InstanceAll(p, raws, b)
    decreases raws, 1
  {
    if raws != [] {
      assert HoleListAll(p, raws) == HoleList(p, raws[0]) + HoleListAll(p, raws[1..]);
      InstanceSame(p, raws[0], a, b);
      InstanceAllSame(p, raws[1..], a, b);
    }
  }

  /** So an abstraction whose pattern has distinct holes, the core among them, is applied to exactly the terms that
      unfold to an instance of it for which it does not decline; what is built is its abstract term for just that
      instance. */
  lemma {:induction false} AppliedIff(a: Abstraction, cache: LetCache, rank: map<Name, nat>, spec: Node, sub: Cores)
    requires Acyclic(cache, rank) && NoDup(HoleList(a.p, a.p.raw)) && a.p.rawCore in HoleList(a.p, a.p.raw)
    requires forall x :: x in sub <==> x in HoleList(a.p, a.p.raw)
    ensures var u, r := Unfold(cache, rank, a.p.raw, spec), Applied(a, cache, rank, spec);
      && (Instance(a.p, a.p.raw, sub) == u ==>
            r == match a.abs(sub)
              case None => None
              case Some(abs) => Some(Term(Construct(a.p.absCore, sub[a.p.rawCore], abs))))
      && (r.Some? && r.value.Term? ==> exists cores: Cores ::
            && Instance(a.p, a.p.raw, cores) == u && a.abs(cores).Some?
            && (forall x :: x in cores <==> x in HoleList(a.p, a.p.raw)))
  {
    hide Check, Unfold, Instance, HoleList, Construct;
    MatchesIff(a.p, cache, rank, spec, a.p.raw, map[]);
    var v, holes := Check(a.p, cache, rank, spec, a.p.raw, map[]), HoleList(a.p, a.p.raw);
    if Instance(a.p, a.p.raw, sub) == Unfold(cache, rank, a.p.raw, spec) {
      assert Filling(holes, sub) && FilledFrom(holes, sub, map[], v.cores);
      assert v.cores == sub;
    }
    if v.Yes? {
      assert FilledFrom(holes, v.cores, map[], v.cores);
    }
  }

  /** Every negation in the pattern has one part. */
  predicate NegatesOne(raw: Node) {
    raw.App? ==> (raw.op == Minus ==> |raw.args| == 1) && forall t :: t in raw.args ==> NegatesOne(t)
  }

  /** Only a negation of more or less than one part makes the program fail, and it does so where it meets a
      constant. */
  lemma {:induction false} NeverAborts(p: Pattern, cache: LetCache, rank: map<Name, nat>, value: Node, raw: Node,
                                       cores: Cores)
    requires Acyclic(cache, rank)
    ensures NegatesOne(raw) ==> !Check(p, cache, rank, value, raw, cores).Aborts?
    ensures raw.App? && raw.op == Minus && |raw.args| != 1 && Lookup(cache, rank, value).IntConst? ==>
      Check(p, cache, rank, value, raw, cores).Aborts?
    decreases raw, Height(cache, rank, value), 0
  {
    if raw.App? {
      match value
      case Symbol(x) =>
        if x in cache {
          NeverAborts(p, cache, rank, cache[x], raw, cores);
        }
      case App(_, args') =>
        if |raw.args| == |args'| && NegatesOne(raw) {
          AllNeverAbort(p, cache, rank, args', raw.args, cores);
        }
      case _ =>
    }
  }

  lemma {:induction false} AllNeverAbort(p: Pattern, cache: LetCache, rank: map<Name, nat>, values: seq<Node>,
                                         raws: seq<Node>, cores: Cores)
    requires Acyclic(cache, rank) && |values| == |raws| && forall t :: t in raws ==> NegatesOne(t)
    ensures !CheckAll(p, cache, rank, values, raws, cores).Aborts?
    decreases raws, 0, |raws|
  {
    if raws != [] {
      assert raws[0] in raws && forall t :: t in raws[1..] ==> t in raws;
      NeverAborts(p, cache, rank, values[0], raws[0], cores);
      var v := Check(p, cache, rank, values[0], raws[0], cores);
      if v.Yes? {
        AllNeverAbort(p, cache, rank, values[1..], raws[1..], v.cores);
      }
    }
  }

  lemma NoDupParts(a: seq<Name>, b: seq<Name>)
    requires NoDup(a + b)
    ensures NoDup(a) && NoDup(b) && forall x :: x in a ==> x !in b
  {
    assert forall i :: 0 <= i < |a| ==> (a + b)[i] == a[i];
    assert forall i :: 0 <= i < |b| ==> (a + b)[|a| + i] == b[i];
  }
}
