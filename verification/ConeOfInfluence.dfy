/** Which fields a specification depends on, found backwards from its results and branch conditions.

    A chain of fields has the innermost field first.  Calls are not followed into other specifications. */
module ConeOfInfluence {
  import opened Prelude
  import opened StateSpec
  import Slicing

  type Chain = seq<Field>

  predicate IsGet(e: Expr) {
    e.RecGet? || e.MapGet?
  }

  datatype Accessed = Accessed(chain: Chain, used: set<Chain>)

  /** `get_access_field`. */
  function Access(e: Expr): Accessed
    decreases e, if IsGet(e) then 0 else 2
  {
    match e
    case Sym(_) => Accessed([], {})
    case Const(_) => Accessed([], {})
    case RecGet(r, f) =>
      var a := Access(r);
      Accessed([f] + a.chain, a.used)
    case MapGet(a, k) =>
      var b := Access(a);
      Accessed(b.chain, b.used + Used(k))
    case _ => Accessed([], Used(e))
  }

  /** `rec_analyze_used_fields`.  Of writes, only the key of a map is looked at. */
  function Used(e: Expr): set<Chain>
    decreases e, 1
  {
    match e
    case Sym(_) => {}
    case Const(_) => {}
    case Prim(_, args) => UsedAll(args)
    case And(a, b) => Used(a) + Used(b)
    case Not(a) => Used(a)
    case RecSet(_, _, _) => {}
    case MapSet(_, k, _) => Used(k)
    case _ =>
      var a := Access(e);
      a.used + if a.chain == [] then {} else {a.chain}
  }

  function UsedAll(es: seq<Expr>): set<Chain>
    decreases es, 0
  {
    if es == [] then {} else Used(es[0]) + UsedAll(es[1..])
  }

  /** `contains_field`: one behind the other, anywhere. */
  predicate Contains(c: Chain, f: Chain) {
    exists i :: 0 <= i <= |c| && StandsAt(c, f, i)
  }

  predicate StandsAt(c: Chain, f: Chain, i: int) {
    0 <= i && i + |f| <= |c| && c[i..i + |f|] == f
  }

  predicate HasSubfield(fields: set<Chain>, f: Chain) {
    exists c :: c in fields && Contains(c, f)
  }

  function Reverse(path: seq<Field>): Chain {
    if path == [] then [] else Reverse(path[1..]) + [path[0]]
  }

  // ---------- what chains stand for

  lemma ContainsIff(c: Chain, f: Chain)
    ensures Contains(c, f) <==> exists a, b :: c == a + f + b
  {
    if Contains(c, f) {
      var i :| 0 <= i <= |c| && StandsAt(c, f, i);
      assert c == c[..i] + f + c[i + |f|..];
    }
    if a, b :| c == a + f + b {
      assert c[|a|..|a| + |f|] == f;
      assert StandsAt(c, f, |a|);
    }
  }

  /** The field at the end of a path is read. */
  function Along(e: Expr, path: seq<Field>): Expr
    decreases |path|
  {
    if path == [] then e else Along(RecGet(e, path[0]), path[1..])
  }

  /** A read along a path gives what the state holds there, and its chain is that of a write along the path. */
  lemma {:induction false} AlongPath(m: Machine, e: Expr, path: seq<Field>, env: Env)
    ensures Ev(m, Along(e, path), env) == GetPath(Ev(m, e, env), path)
    ensures Access(Along(e, path)) == Accessed(Reverse(path) + Access(e).chain, Access(e).used)
    decreases |path|
  {
    if path != [] {
      AlongPath(m, RecGet(e, path[0]), path[1..], env);
      assert Reverse(path[1..]) + ([path[0]] + Access(e).chain) == Reverse(path) + Access(e).chain;
    } else {
      assert [] + Access(e).chain == Access(e).chain;
    }
  }

  lemma {:induction false} ReverseBoth(a: seq<Field>, b: seq<Field>)
    ensures Reverse(a + b) == Reverse(b) + Reverse(a)
  {
    if a == [] {
      assert a + b == b && Reverse(b) + [] == Reverse(b);
    } else {
      assert (a + b)[1..] == a[1..] + b;
      ReverseBoth(a[1..], b);
    }
  }

  lemma AccessByKey(e: Expr, k: Expr)
    ensures Access(MapGet(e, k)) == Accessed(Access(e).chain, Access(e).used + Used(k))
  {
    hide Used;
  }

  /** A look into a map on the way is no step of the path, but what its key uses is used. */
  lemma KeyIsNoStep(m: Machine, e: Expr, path: seq<Field>, k: Expr, rest: seq<Field>, env: Env)
    ensures var a := Access(Along(MapGet(Along(e, path), k), rest));
      && a.chain == Reverse(path + rest) + Access(e).chain && a.used == Access(e).used + Used(k)
  {
    hide Reverse, Used, Access, Along, GetPath, Ev;
    AlongPath(m, e, path, env);
    AlongPath(m, MapGet(Along(e, path), k), rest, env);
    AccessByKey(Along(e, path), k);
    ReverseBoth(path, rest);
  }

  function FieldsOf(chains: set<Chain>): set<Field> {
    set c, f | c in chains && f in c :: f
  }

  /** An expression without the writes in it: nothing of them is left but the keys of maps. */
  function Unwritten(e: Expr): Expr {
    match e
    case Sym(_) => e
    case Const(_) => e
    case Prim(op, args) => Prim(op, AllUnwritten(args))
    case And(a, b) => And(Unwritten(a), Unwritten(b))
    case Not(a) => Not(Unwritten(a))
    case RecGet(r, f) => RecGet(Unwritten(r), f)
    case MapGet(a, k) => MapGet(Unwritten(a), Unwritten(k))
    case RecSet(_, _, _) => Const(0)
    case MapSet(_, k, _) => Unwritten(k)
  }

  function AllUnwritten(es: seq<Expr>): seq<Expr> {
    if es == [] then [] else [Unwritten(es[0])] + AllUnwritten(es[1..])
  }

  lemma FieldsOfBoth(a: set<Chain>, b: set<Chain>, c: Chain)
    ensures FieldsOf(a + b) == FieldsOf(a) + FieldsOf(b) && FieldsOf({}) == {} && FieldsOf({c}) == set f | f in c
  {
  }

  /** The chains used by an expression, none of them empty, hold exactly the fields it reads outside the writes in
      it. */
  lemma {:induction false} UsedIsRead(e: Expr)
    ensures FieldsOf(Used(e)) == Slicing.Reads(Unwritten(e)) && [] !in Used(e)
    decreases e, 2
  {
    match e
    case Sym(_) =>
    case Const(_) =>
    case Prim(_, args) => AllUsedIsRead(args);
    case And(a, b) =>
      UsedIsRead(a);
      UsedIsRead(b);
      FieldsOfBoth(Used(a), Used(b), []);
    case Not(a) => UsedIsRead(a);
    case RecGet(_, _) => GetIsRead(e);
    case MapGet(_, _) => GetIsRead(e);
    case RecSet(_, _, _) =>
    case MapSet(_, k, _) => UsedIsRead(k);
  }

  lemma {:induction false} GetIsRead(e: Expr)
    requires IsGet(e)
    ensures FieldsOf(Used(e)) == Slicing.Reads(Unwritten(e)) && [] !in Used(e)
    decreases e, 1
  {
    AccessIsRead(e);
    var a := Access(e);
    FieldsOfBoth(a.used, if a.chain == [] then {} else {a.chain}, a.chain);
  }

  lemma {:induction false} AccessIsRead(e: Expr)
    ensures FieldsOf(Access(e).used) + (set f | f in Access(e).chain) == Slicing.Reads(Unwritten(e))
    ensures [] !in Access(e).used
    decreases e, if IsGet(e) then 0 else 3
  {
    match e
    case RecGet(r, f) => AccessIsRead(r);
    case MapGet(a, k) =>
      AccessIsRead(a);
      UsedIsRead(k);
      FieldsOfBoth(Access(a).used, Used(k), []);
    case _ => UsedIsRead(e);
  }

  lemma {:induction false} AllUsedIsRead(es: seq<Expr>)
    ensures FieldsOf(UsedAll(es)) == Slicing.ReadsAll(AllUnwritten(es)) && [] !in UsedAll(es)
    decreases es, 0
  {
    if es != [] {
      UsedIsRead(es[0]);
      AllUsedIsRead(es[1..]);
      FieldsOfBoth(Used(es[0]), UsedAll(es[1..]), []);
      assert AllUnwritten(es)[1..] == AllUnwritten(es[1..]);
    }
  }

  // ---------- going through an expression

  datatype Found = Found(coi: set<Chain>, symbols: set<Name>)

  /** The global black list, which every read is held against, and the recursive definitions whose fixpoint is being
      looked for: their calls are passed over. */
  datatype Guard = Guard(skip: set<Field>, visiting: set<Op>)

  /** `backward_propagation_on_expr`.  Of a write to a map only the key is followed, not the value. */
  function Propagate(e: Expr, coi: set<Chain>, trace: set<Chain>, guard: Guard): Found
    decreases e, 0
  {
    match e
    case Sym(x) => Found(coi, {x})
    case Const(_) => Found(coi, {})
    case Prim(op, args) => if op in guard.visiting then Found(coi, {}) else PropagateAll(args, coi, trace, guard)
    case And(a, b) => Both(Propagate(a, coi, trace, guard), b, trace, guard)
    case Not(a) => Propagate(a, coi, trace, guard)
    case RecGet(_, f) =>
      Found(if !HasSubfield(trace, Access(e).chain) && f !in guard.skip then coi + Used(e) else coi, {})
    case MapGet(a, k) => Both(Propagate(a, coi, trace, guard), k, trace, guard)
    case RecSet(r, path, v) =>
      var field := Reverse(path);
      if HasSubfield(coi, field) then Both(Propagate(v, coi, trace + {field}, guard), r, trace + {field}, guard)
      else Propagate(r, coi, trace, guard)
    case MapSet(a, k, _) =>
      var chain := Access(a).chain;
      Propagate(k, if HasSubfield(trace, chain) then coi else coi + {chain}, trace, guard)
  }

  function Both(first: Found, e: Expr, trace: set<Chain>, guard: Guard): Found
    decreases e, 1
  {
    var second := Propagate(e, first.coi, trace, guard);
    Found(second.coi, first.symbols + second.symbols)
  }

  function PropagateAll(es: seq<Expr>, coi: set<Chain>, trace: set<Chain>, guard: Guard): Found
    decreases es, 0
  {
    if es == [] then Found(coi, {})
    else
      var first := Propagate(es[0], coi, trace, guard);
      var rest := PropagateAll(es[1..], first.coi, trace, guard);
      Found(rest.coi, first.symbols + rest.symbols)
  }

  // ---------- where values come from

  /** An expression, and the branches taken to get there. */
  datatype Node = Node(expr: Expr, path: seq<bool>)

  /** `collect_immi_symbols_in`: what each name along a path is bound to.  The path of a node goes one branch
      further than the name's binding. */
  function Sources(s: Spec, done: seq<bool>, rest: seq<bool>): map<Name, Node> {
    match s
    case Let(x, e, body) => map[x := Node(e, done + Head(rest))] + Sources(body, done, rest)
    case When(names, call, args, body) =>
      (map x | x in names :: Node(Prim(call, args), done + Head(rest))) + Sources(body, done, rest)
    case Rely(_, body) => Sources(body, done, rest)
    case If(_, thn, els) =>
      if rest == [] then map[] else Sources(if rest[0] then thn else els, done + [rest[0]], rest[1..])
    case _ => map[]
  }

  function Head(rest: seq<bool>): seq<bool> {
    if rest == [] then [] else [rest[0]]
  }

  /** `collect_init_nodes_in`: returned states and branch conditions. */
  function InitNodes(s: Spec, path: seq<bool>): seq<Node> {
    match s
    case Let(_, _, body) => InitNodes(body, path)
    case When(_, _, _, body) => InitNodes(body, path)
    case Rely(_, body) => InitNodes(body, path)
    case If(c, thn, els) => [Node(c, path)] + InitNodes(thn, path + [true]) + InitNodes(els, path + [false])
    case Ret(vals, st) => if vals == [] && (st.Sym? || st.Const?) then [] else [Node(st, path)]
    case Fail => []
  }

  // ---------- scopes

  function Syms(e: Expr): set<Name> {
    match e
    case Sym(x) => {x}
    case Const(_) => {}
    case Prim(_, args) => SymsAll(args)
    case And(a, b) => Syms(a) + Syms(b)
    case Not(a) => Syms(a)
    case RecGet(r, _) => Syms(r)
    case RecSet(r, _, v) => Syms(r) + Syms(v)
    case MapGet(a, k) => Syms(a) + Syms(k)
    case MapSet(a, k, v) => Syms(a) + Syms(k) + Syms(v)
  }

  function SymsAll(es: seq<Expr>): set<Name> {
    if es == [] then {} else Syms(es[0]) + SymsAll(es[1..])
  }

  function Binders(s: Spec): set<Name> {
    match s
    case Let(x, _, body) => {x} + Binders(body)
    case When(names, _, _, body) => (set x | x in names) + Binders(body)
    case Rely(_, body) => Binders(body)
    case If(_, thn, els) => Binders(thn) + Binders(els)
    case _ => {}
  }

  /** Every name is bound once, and used where it is known. */
  predicate WellScoped(s: Spec, scope: set<Name>) {
    match s
    case Let(x, e, body) => Syms(e) <= scope && x !in scope && x !in Binders(body) && WellScoped(body, scope + {x})
    case When(names, _, args, body) =>
      var new' := set x | x in names;
      SymsAll(args) <= scope && new' !! scope && new' !! Binders(body) && WellScoped(body, scope + new')
    case Rely(prop, body) => Syms(prop) <= scope && WellScoped(body, scope)
    case If(c, thn, els) =>
      Syms(c) <= scope && Binders(thn) !! Binders(els) && WellScoped(thn, scope) && WellScoped(els, scope)
    case Ret(vals, st) => SymsAll(vals) + Syms(st) <= scope
    case Fail => true
  }

  /** How many names are bound before each. */
  function Depths(s: Spec, d: nat): map<Name, nat> {
    match s
    case Let(x, _, body) => map[x := d] + Depths(body, d + 1)
    case When(names, _, _, body) => (map x | x in names :: d) + Depths(body, d + 1)
    case Rely(_, body) => Depths(body, d)
    case If(_, thn, els) => Depths(thn, d) + Depths(els, d)
    case _ => map[]
  }

  lemma {:induction false} DepthsDomain(s: Spec, d: nat)
    ensures Depths(s, d).Keys == Binders(s) && forall x :: x in Depths(s, d) ==> Depths(s, d)[x] >= d
  {
    match s
    case Let(_, _, body) => DepthsDomain(body, d + 1);
    case When(_, _, _, body) => DepthsDomain(body, d + 1);
    case Rely(_, body) => DepthsDomain(body, d);
    case If(_, thn, els) =>
      DepthsDomain(thn, d);
      DepthsDomain(els, d);
    case _ =>
  }

  /** The symbols of an expression, arguments aside, are bound at depths below `n`. */
  predicate Under(e: Expr, args: set<Name>, depth: map<Name, nat>, n: nat) {
    forall x :: x in Syms(e) && x !in args ==> x in depth && depth[x] < n
  }

  /** On its path, every name is bound to something from above, and the path of the node leads past all of that. */
  lemma {:induction false} SourcesAbove(s: Spec, done: seq<bool>, rest: seq<bool>, d: nat, args: set<Name>,
                                        above: set<Name>, depth: map<Name, nat>)
    requires WellScoped(s, args + above) && args !! Binders(s)
    requires (forall x :: x in above && x !in args ==> x in depth && depth[x] < d) && forall x ::
      x in Depths(s, d) ==> x in depth && depth[x] == Depths(s, d)[x]
    ensures forall x :: x in Sources(s, done, rest) ==>
      x in Binders(s) && x in depth && Known(s, done, rest, args, above, depth, Sources(s, done, rest)[x], depth[x])
  {
    hide Known;
    DepthsDomain(s, d);
    match s
    case Let(x, e, body) =>
      DepthsDomain(body, d + 1);
      assert args + above + {x} == args + (above + {x});
      SourcesAbove(body, done, rest, d + 1, args, above + {x}, depth);
      forall y | y in Sources(s, done, rest) ensures Known(s, done, rest, args, above, depth,
        Sources(s, done, rest)[y], depth[y]) {
        if y in Sources(body, done, rest) {
          KnownOutside(s, body, {x}, done, rest, args, above, depth, Sources(body, done, rest)[y], depth[y]);
        } else {
          KnownHere(s, done, rest, args, above, depth, e, depth[x]);
        }
      }
    case When(names, call, cargs, body) =>
      var new' := set x | x in names;
      DepthsDomain(body, d + 1);
      assert args + above + new' == args + (above + new');
      SourcesAbove(body, done, rest, d + 1, args, above + new', depth);
      forall y | y in Sources(s, done, rest) ensures Known(s, done, rest, args, above, depth,
        Sources(s, done, rest)[y], depth[y]) {
        if y in Sources(body, done, rest) {
          KnownOutside(s, body, new', done, rest, args, above, depth, Sources(body, done, rest)[y], depth[y]);
        } else {
          KnownHere(s, done, rest, args, above, depth, Prim(call, cargs), depth[y]);
        }
      }
    case Rely(_, body) =>
      SourcesAbove(body, done, rest, d, args, above, depth);
      forall y | y in Sources(s, done, rest) ensures Known(s, done, rest, args, above, depth,
        Sources(s, done, rest)[y], depth[y]) {
        assert above + {} == above;
        KnownOutside(s, body, {}, done, rest, args, above, depth, Sources(body, done, rest)[y], depth[y]);
      }
    case If(_, thn, els) =>
      if rest != [] {
        DepthsDomain(thn, d);
        DepthsDomain(els, d);
        SourcesAbove(if rest[0] then thn else els, done + [rest[0]], rest[1..], d, args, above, depth);
        forall y | y in Sources(s, done, rest) ensures Known(s, done, rest, args, above, depth,
          Sources(s, done, rest)[y], depth[y]) {
          KnownInBranch(s, done, rest, args, above, depth, Sources(s, done, rest)[y], depth[y]);
        }
      }
    case _ =>
  }

  lemma KnownHere(s: Spec, done: seq<bool>, rest: seq<bool>, args: set<Name>, above: set<Name>, depth: map<Name, nat>,
                  e: Expr, n: nat)
    requires Syms(e) <= args + above && forall x :: x in above && x !in args ==> x in depth && depth[x] < n
    ensures Known(s, done, rest, args, above, depth, Node(e, done + Head(rest)), n)
  {
    assert IsFor(s, done, rest, args, above, Node(e, done + Head(rest)), Head(rest));
  }

  /** `s` binds `more` names and goes on with `body`. */
  lemma KnownOutside(s: Spec, body: Spec, more: set<Name>, done: seq<bool>, rest: seq<bool>, args: set<Name>,
                     above: set<Name>, depth: map<Name, nat>, node: Node, n: nat)
    requires Known(body, done, rest, args, above + more, depth, node, n)
    requires forall r :: more + Sources(body, done, r).Keys <= Sources(s, done, r).Keys
    ensures Known(s, done, rest, args, above, depth, node, n)
  {
    var r :| IsFor(body, done, rest, args, above + more, node, r);
    assert IsFor(s, done, rest, args, above, node, r);
  }

  lemma KnownInBranch(s: Spec, done: seq<bool>, rest: seq<bool>, args: set<Name>, above: set<Name>,
                      depth: map<Name, nat>, node: Node, n: nat)
    requires s.If? && rest != [] && Known(if rest[0] then s.thn else s.els, done + [rest[0]], rest[1..], args, above,
      depth, node, n)
    ensures Known(s, done, rest, args, above, depth, node, n)
  {
    var b := if rest[0] then s.thn else s.els;
    var r :| IsFor(b, done + [rest[0]], rest[1..], args, above, node, r);
    var r' := [rest[0]] + r;
    assert done + [rest[0]] + r == done + r' && r'[1..] == r;
    assert IsFor(s, done, rest, args, above, node, r');
  }

  /** `node` lies on the path, after the branches `r`, and its symbols are known there. */
  ghost predicate IsFor(s: Spec, done: seq<bool>, rest: seq<bool>, args: set<Name>, above: set<Name>, node: Node,
                        r: seq<bool>) {
    node.path == done + r && Syms(node.expr) <= args + above + Sources(s, done, r).Keys
  }

  ghost predicate Known(s: Spec, done: seq<bool>, rest: seq<bool>, args: set<Name>, above: set<Name>,
                        depth: map<Name, nat>, node: Node, n: nat) {
    (exists r :: IsFor(s, done, rest, args, above, node, r)) && Under(node.expr, args, depth, n)
  }

  lemma {:induction false} InitNodesAbove(s: Spec, done: seq<bool>, d: nat, args: set<Name>, above: set<Name>,
                                          depth: map<Name, nat>)
    requires WellScoped(s, args + above)
    requires (forall x :: x in above && x !in args ==> x in depth) && forall x :: x in Binders(s) ==> x in depth
    ensures forall node :: node in InitNodes(s, done) ==> exists r :: IsFor(s, done, r, args, above, node, r)
    ensures forall node, x :: node in InitNodes(s, done) && x in Syms(node.expr) && x !in args ==> x in depth
  {
    match s
    case Let(x, _, body) =>
      assert args + above + {x} == args + (above + {x});
      InitNodesAbove(body, done, d, args, above + {x}, depth);
      forall node | node in InitNodes(s, done) ensures exists r :: IsFor(s, done, r, args, above, node, r) {
        assert node in InitNodes(body, done);
        var r :| IsFor(body, done, r, args, above + {x}, node, r);
        assert Sources(s, done, r).Keys == {x} + Sources(body, done, r).Keys;
        assert IsFor(s, done, r, args, above, node, r);
      }
    case When(names, call, cargs, body) =>
      var new' := set x | x in names;
      assert args + above + new' == args + (above + new');
      InitNodesAbove(body, done, d, args, above + new', depth);
      forall node | node in InitNodes(s, done) ensures exists r :: IsFor(s, done, r, args, above, node, r) {
        assert node in InitNodes(body, done);
        var r :| IsFor(body, done, r, args, above + new', node, r);
        assert IsFor(s, done, r, args, above, node, r);
      }
    case Rely(_, body) =>
      InitNodesAbove(body, done, d, args, above, depth);
      forall node | node in InitNodes(s, done) ensures exists r :: IsFor(s, done, r, args, above, node, r) {
        assert node in InitNodes(body, done);
        var r :| IsFor(body, done, r, args, above, node, r);
        assert IsFor(s, done, r, args, above, node, r);
      }
    case If(c, thn, els) =>
      InitNodesAbove(thn, done + [true], d, args, above, depth);
      InitNodesAbove(els, done + [false], d, args, above, depth);
      forall node | node in InitNodes(s, done) ensures exists r :: IsFor(s, done, r, args, above, node, r) {
        if node in InitNodes(thn, done + [true]) {
          BranchFor(s, done, true, thn, done + [true], args, above, node);
        } else if node in InitNodes(els, done + [false]) {
          BranchFor(s, done, false, els, done + [false], args, above, node);
        } else {
          assert node == Node(c, done) && IsFor(s, done, [], args, above, node, []);
        }
      }
    case Ret(_, st) =>
      forall node | node in InitNodes(s, done) ensures exists r :: IsFor(s, done, r, args, above, node, r) {
        assert IsFor(s, done, [], args, above, node, []);
      }
    case Fail =>
  }

  lemma BranchFor(s: Spec, done: seq<bool>, b: bool, c: Spec, further: seq<bool>, args: set<Name>, above: set<Name>,
                  node: Node)
    requires s.If? && c == (if b then s.thn else s.els) && further == done + [b]
      && exists r :: IsFor(c, further, r, args, above, node, r)
    ensures exists r :: IsFor(s, done, r, args, above, node, r)
  {
    var r :| IsFor(c, further, r, args, above, node, r);
    var r' := [b] + r;
    assert further + r == done + r' && r'[1..] == r;
    assert IsFor(s, done, r', args, above, node, r');
  }

  // ---------- what there is to be found

  /** The chains that an expression reads: of a write, those of the record around it, and those of the value if it
      is to a field in `follow` or one around it.  What is read within a field of `block` that is being written, or
      one around it, is passed over; `trace` are those fields. */
  function Needs(e: Expr, follow: set<Chain>, block: set<Chain>, trace: set<Chain>, guard: Guard): set<Chain>
    decreases e, 0
  {
    match e
    case Sym(_) => {}
    case Const(_) => {}
    case Prim(op, args) => if op in guard.visiting then {} else NeedsAll(args, follow, block, trace, guard)
    case And(a, b) => Needs(a, follow, block, trace, guard) + Needs(b, follow, block, trace, guard)
    case Not(a) => Needs(a, follow, block, trace, guard)
    case RecGet(_, f) => if HasSubfield(trace, Access(e).chain) || f in guard.skip then {} else Used(e)
    case MapGet(a, k) => Needs(a, follow, block, trace, guard) + Needs(k, follow, block, trace, guard)
    case RecSet(r, path, v) =>
      var within := if HasSubfield(block, Reverse(path)) then trace + {Reverse(path)} else trace;
      Needs(r, follow, block, within, guard)
        + if HasSubfield(follow, Reverse(path)) then Needs(v, follow, block, within, guard) else {}
    case MapSet(a, k, _) =>
      Needs(k, follow, block, trace, guard) + if HasSubfield(trace, Access(a).chain) then {} else {Access(a).chain}
  }

  function NeedsAll(es: seq<Expr>, follow: set<Chain>, block: set<Chain>, trace: set<Chain>, guard: Guard): set<Chain>
    decreases es, 0
  {
    if es == [] then {} else Needs(es[0], follow, block, trace, guard) + NeedsAll(es[1..], follow, block, trace, guard)
  }

  /** The names whose values it needs, those it reads fields of aside. */
  function Asks(e: Expr, follow: set<Chain>, guard: Guard): set<Name> {
    match e
    case Sym(x) => {x}
    case Const(_) => {}
    case Prim(op, args) => if op in guard.visiting then {} else AsksAll(args, follow, guard)
    case And(a, b) => Asks(a, follow, guard) + Asks(b, follow, guard)
    case Not(a) => Asks(a, follow, guard)
    case RecGet(_, _) => {}
    case MapGet(a, k) => Asks(a, follow, guard) + Asks(k, follow, guard)
    case RecSet(r, path, v) =>
      Asks(r, follow, guard) + if HasSubfield(follow, Reverse(path)) then Asks(v, follow, guard) else {}
    case MapSet(_, k, _) => Asks(k, follow, guard)
  }

  function AsksAll(es: seq<Expr>, follow: set<Chain>, guard: Guard): set<Name> {
    if es == [] then {} else Asks(es[0], follow, guard) + AsksAll(es[1..], follow, guard)
  }

  /** The names a specification needs: for its branch conditions, for the states it returns, and for what such names
      are bound to. */
  function SpecAsks(s: Spec, follow: set<Chain>, guard: Guard): set<Name> {
    match s
    case Let(x, e, body) =>
      var later := SpecAsks(body, follow, guard);
      later + if x in later then Asks(e, follow, guard) else {}
    case When(names, call, args, body) =>
      var later := SpecAsks(body, follow, guard);
      later + if exists x :: x in names && x in later then Asks(Prim(call, args), follow, guard) else {}
    case Rely(_, body) => SpecAsks(body, follow, guard)
    case If(c, thn, els) => Asks(c, follow, guard) + SpecAsks(thn, follow, guard) + SpecAsks(els, follow, guard)
    case Ret(vals, st) => if vals == [] && (st.Sym? || st.Const?) then {} else Asks(st, follow, guard)
    case Fail => {}
  }

  /** And the chains it reads for them. */
  function SpecNeeds(s: Spec, follow: set<Chain>, block: set<Chain>, guard: Guard): set<Chain> {
    match s
    case Let(x, e, body) =>
      SpecNeeds(body, follow, block, guard)
        + if x in SpecAsks(body, follow, guard) then Needs(e, follow, block, {}, guard) else {}
    case When(names, call, args, body) =>
      SpecNeeds(body, follow, block, guard)
        + if exists x :: x in names && x in SpecAsks(body, follow, guard)
          then Needs(Prim(call, args), follow, block, {}, guard) else {}
    case Rely(_, body) => SpecNeeds(body, follow, block, guard)
    case If(c, thn, els) =>
      Needs(c, follow, block, {}, guard) + SpecNeeds(thn, follow, block, guard) + SpecNeeds(els, follow, block, guard)
    case Ret(vals, st) => if vals == [] && (st.Sym? || st.Const?) then {} else Needs(st, follow, block, {}, guard)
    case Fail => {}
  }

  lemma SubfieldMore(fields: set<Chain>, more: set<Chain>, f: Chain)
    requires fields <= more && HasSubfield(fields, f)
    ensures HasSubfield(more, f)
  {
    var c :| c in fields && Contains(c, f);
    assert c in more;
  }

  /** Going through an expression while the set of interest grows from `low` or more to `high` or less finds all
      that it reads to follow `low` whatever is passed over for `high`. */
  lemma {:induction false} NeedsFound(e: Expr, low: set<Chain>, high: set<Chain>, within: set<Chain>, coi: set<Chain>,
                                      trace: set<Chain>, guard: Guard)
    requires low <= coi && Propagate(e, coi, trace, guard).coi <= high && trace <= within
    ensures var found := Propagate(e, coi, trace, guard);
      coi <= found.coi && Needs(e, low, high, within, guard) <= found.coi && Asks(e, low, guard) <= found.symbols
    decreases e, 1
  {
    SymbolsAreSyms(e, coi, trace, guard);
    match e
    case Sym(_) =>
    case Const(_) =>
    case Prim(op, args) =>
      if op !in guard.visiting {
        NeedsAllFound(args, low, high, within, coi, trace, guard);
      }
    case And(a, b) =>
      var first := Propagate(a, coi, trace, guard);
      SymbolsAreSyms(b, first.coi, trace, guard);
      NeedsFound(a, low, high, within, coi, trace, guard);
      NeedsFound(b, low, high, within, first.coi, trace, guard);
    case Not(a) => NeedsFound(a, low, high, within, coi, trace, guard);
    case RecGet(_, _) =>
      if HasSubfield(trace, Access(e).chain) {
        SubfieldMore(trace, within, Access(e).chain);
      }
    case MapGet(a, k) =>
      var first := Propagate(a, coi, trace, guard);
      SymbolsAreSyms(k, first.coi, trace, guard);
      NeedsFound(a, low, high, within, coi, trace, guard);
      NeedsFound(k, low, high, within, first.coi, trace, guard);
    case RecSet(_, _, _) => WriteFound(e, low, high, within, coi, trace, guard);
    case MapSet(a, k, _) =>
      var chain := Access(a).chain;
      if HasSubfield(trace, chain) {
        SubfieldMore(trace, within, chain);
      }
      NeedsFound(k, low, high, within, if HasSubfield(trace, chain) then coi else coi + {chain}, trace, guard);
  }

  lemma {:induction false} WriteFound(e: Expr, low: set<Chain>, high: set<Chain>, within: set<Chain>, coi: set<Chain>,
                                      trace: set<Chain>, guard: Guard)
    requires low <= coi && Propagate(e, coi, trace, guard).coi <= high && trace <= within && e.RecSet?
    ensures var found := Propagate(e, coi, trace, guard);
      Needs(e, low, high, within, guard) <= found.coi && Asks(e, low, guard) <= found.symbols
    decreases e, 0
  {
    var field := Reverse(e.path);
    SymbolsAreSyms(e, coi, trace, guard);
    var within' := if HasSubfield(high, field) then within + {field} else within;
    if HasSubfield(coi, field) {
      SubfieldMore(coi, high, field);
      var trace' := trace + {field};
      var first := Propagate(e.val, coi, trace', guard);
      SymbolsAreSyms(e.rec, first.coi, trace', guard);
      NeedsFound(e.val, low, high, within', coi, trace', guard);
      NeedsFound(e.rec, low, high, within', first.coi, trace', guard);
    } else {
      if HasSubfield(low, field) {
        SubfieldMore(low, coi, field);
      }
      NeedsFound(e.rec, low, high, within', coi, trace, guard);
    }
  }

  lemma {:induction false} NeedsAllFound(es: seq<Expr>, low: set<Chain>, high: set<Chain>, within: set<Chain>,
                                         coi: set<Chain>, trace: set<Chain>, guard: Guard)
    requires low <= coi && PropagateAll(es, coi, trace, guard).coi <= high && trace <= within
    ensures var found := PropagateAll(es, coi, trace, guard);
      && coi <= found.coi && NeedsAll(es, low, high, within, guard) <= found.coi
      && AsksAll(es, low, guard) <= found.symbols
    decreases es, 0
  {
    if es != [] {
      var first := Propagate(es[0], coi, trace, guard);
      SymbolsAreSyms(es[0], coi, trace, guard);
      SymbolsAreSymsAll(es[1..], first.coi, trace, guard);
      NeedsFound(es[0], low, high, within, coi, trace, guard);
      NeedsAllFound(es[1..], low, high, within, first.coi, trace, guard);
    }
  }

  /** And it finds nothing but what it reads to follow `high` if only that is passed over which is for `low`. */
  lemma {:induction false} FoundNeeded(e: Expr, low: set<Chain>, high: set<Chain>, within: set<Chain>,
                                       coi: set<Chain>, trace: set<Chain>, guard: Guard)
    requires low <= coi && Propagate(e, coi, trace, guard).coi <= high && within <= trace
    ensures var found := Propagate(e, coi, trace, guard);
      found.coi <= coi + Needs(e, high, low, within, guard) && found.symbols <= Asks(e, high, guard)
    decreases e, 1
  {
    SymbolsAreSyms(e, coi, trace, guard);
    match e
    case Sym(_) =>
    case Const(_) =>
    case Prim(op, args) =>
      if op !in guard.visiting {
        AllFoundNeeded(args, low, high, within, coi, trace, guard);
      }
    case And(a, b) =>
      var first := Propagate(a, coi, trace, guard);
      SymbolsAreSyms(a, coi, trace, guard);
      SymbolsAreSyms(b, first.coi, trace, guard);
      FoundNeeded(a, low, high, within, coi, trace, guard);
      FoundNeeded(b, low, high, within, first.coi, trace, guard);
    case Not(a) => FoundNeeded(a, low, high, within, coi, trace, guard);
    case RecGet(_, _) =>
      if HasSubfield(within, Access(e).chain) {
        SubfieldMore(within, trace, Access(e).chain);
      }
    case MapGet(a, k) =>
      var first := Propagate(a, coi, trace, guard);
      SymbolsAreSyms(a, coi, trace, guard);
      SymbolsAreSyms(k, first.coi, trace, guard);
      FoundNeeded(a, low, high, within, coi, trace, guard);
      FoundNeeded(k, low, high, within, first.coi, trace, guard);
    case RecSet(_, _, _) => FoundWritten(e, low, high, within, coi, trace, guard);
    case MapSet(a, k, _) =>
      var chain := Access(a).chain;
      if HasSubfield(within, chain) {
        SubfieldMore(within, trace, chain);
      }
      FoundNeeded(k, low, high, within, if HasSubfield(trace, chain) then coi else coi + {chain}, trace, guard);
  }

  lemma {:induction false} FoundWritten(e: Expr, low: set<Chain>, high: set<Chain>, within: set<Chain>,
                                        coi: set<Chain>, trace: set<Chain>, guard: Guard)
    requires low <= coi && Propagate(e, coi, trace, guard).coi <= high && within <= trace && e.RecSet?
    ensures var found := Propagate(e, coi, trace, guard);
      found.coi <= coi + Needs(e, high, low, within, guard) && found.symbols <= Asks(e, high, guard)
    decreases e, 0
  {
    var field := Reverse(e.path);
    SymbolsAreSyms(e, coi, trace, guard);
    var within' := if HasSubfield(low, field) then within + {field} else within;
    if HasSubfield(low, field) {
      SubfieldMore(low, coi, field);
    }
    if HasSubfield(coi, field) {
      SubfieldMore(coi, high, field);
      var trace' := trace + {field};
      var first := Propagate(e.val, coi, trace', guard);
      SymbolsAreSyms(e.val, coi, trace', guard);
      SymbolsAreSyms(e.rec, first.coi, trace', guard);
      FoundNeeded(e.val, low, high, within', coi, trace', guard);
      FoundNeeded(e.rec, low, high, within', first.coi, trace', guard);
    } else {
      FoundNeeded(e.rec, low, high, within', coi, trace, guard);
    }
  }

  lemma {:induction false} AllFoundNeeded(es: seq<Expr>, low: set<Chain>, high: set<Chain>, within: set<Chain>,
                                          coi: set<Chain>, trace: set<Chain>, guard: Guard)
    requires low <= coi && PropagateAll(es, coi, trace, guard).coi <= high && within <= trace
    ensures var found := PropagateAll(es, coi, trace, guard);
      found.coi <= coi + NeedsAll(es, high, low, within, guard) && found.symbols <= AsksAll(es, high, guard)
    decreases es, 0
  {
    if es != [] {
      var first := Propagate(es[0], coi, trace, guard);
      SymbolsAreSyms(es[0], coi, trace, guard);
      SymbolsAreSymsAll(es[1..], first.coi, trace, guard);
      FoundNeeded(es[0], low, high, within, coi, trace, guard);
      AllFoundNeeded(es[1..], low, high, within, first.coi, trace, guard);
    }
  }

  // ---------- the worklist

  /** The symbols of a node are known on its path. */
  ghost predicate NodeOk(s: Spec, args: set<Name>, depth: map<Name, nat>, node: Node) {
    Syms(node.expr) <= args + Sources(s, [], node.path).Keys && forall x :: x in Syms(node.expr) && x !in args ==>
      x in depth
  }

  ghost predicate QueueOk(s: Spec, args: set<Name>, depth: map<Name, nat>, queue: seq<Node>) {
    forall node :: node in queue ==> NodeOk(s, args, depth, node)
  }

  /** A definition whose names are bound once and known where they are used. */
  ghost predicate Proper(s: Spec, args: set<Name>) {
    WellScoped(s, args) && args !! Binders(s)
  }

  lemma SourceOk(s: Spec, args: set<Name>, path: seq<bool>, x: Name)
    requires Proper(s, args) && x in Sources(s, [], path)
    ensures var depth, node := Depths(s, 0), Sources(s, [], path)[x];
      x in depth && NodeOk(s, args, depth, node) && Under(node.expr, args, depth, depth[x])
  {
    var depth, node := Depths(s, 0), Sources(s, [], path)[x];
    assert args + {} == args;
    SourcesAbove(s, [], path, 0, args, {}, depth);
    var r :| IsFor(s, [], path, args, {}, node, r);
    assert [] + r == r;
  }

  lemma InitOk(s: Spec, args: set<Name>)
    requires Proper(s, args)
    ensures QueueOk(s, args, Depths(s, 0), InitNodes(s, []))
  {
    var depth := Depths(s, 0);
    DepthsDomain(s, 0);
    assert args + {} == args;
    InitNodesAbove(s, [], 0, args, {}, depth);
    forall node | node in InitNodes(s, []) ensures NodeOk(s, args, depth, node) {
      var r :| IsFor(s, [], r, args, {}, node, r);
      assert [] + r == r;
    }
  }

  /** One more than the depth of the innermost symbol. */
  ghost function Rank(e: Expr, args: set<Name>, depth: map<Name, nat>): nat {
    match e
    case Sym(x) => if x in depth && x !in args then depth[x] + 1 else 0
    case Const(_) => 0
    case Prim(_, es) => RankAll(es, args, depth)
    case And(a, b) => Max(Rank(a, args, depth), Rank(b, args, depth))
    case Not(a) => Rank(a, args, depth)
    case RecGet(r, _) => Rank(r, args, depth)
    case RecSet(r, _, v) => Max(Rank(r, args, depth), Rank(v, args, depth))
    case MapGet(a, k) => Max(Rank(a, args, depth), Rank(k, args, depth))
    case MapSet(a, k, v) => Max(Rank(a, args, depth), Max(Rank(k, args, depth), Rank(v, args, depth)))
  }

  ghost function RankAll(es: seq<Expr>, args: set<Name>, depth: map<Name, nat>): nat {
    if es == [] then 0 else Max(Rank(es[0], args, depth), RankAll(es[1..], args, depth))
  }

  function Max(a: nat, b: nat): nat {
    if a < b then b else a
  }

  lemma {:induction false} RankAbove(e: Expr, args: set<Name>, depth: map<Name, nat>)
    ensures forall x :: x in Syms(e) && x !in args && x in depth ==> depth[x] < Rank(e, args, depth)
  {
    match e
    case Sym(_) =>
    case Const(_) =>
    case Prim(_, es) => RankAboveAll(es, args, depth);
    case And(a, b) => RankAbove(a, args, depth); RankAbove(b, args, depth);
    case Not(a) => RankAbove(a, args, depth);
    case RecGet(r, _) => RankAbove(r, args, depth);
    case RecSet(r, _, v) => RankAbove(r, args, depth); RankAbove(v, args, depth);
    case MapGet(a, k) => RankAbove(a, args, depth); RankAbove(k, args, depth);
    case MapSet(a, k, v) => RankAbove(a, args, depth); RankAbove(k, args, depth); RankAbove(v, args, depth);
  }

  lemma {:induction false} RankAboveAll(es: seq<Expr>, args: set<Name>, depth: map<Name, nat>)
    ensures forall x :: x in SymsAll(es) && x !in args && x in depth ==> depth[x] < RankAll(es, args, depth)
  {
    if es != [] {
      RankAbove(es[0], args, depth);
      RankAboveAll(es[1..], args, depth);
    }
  }

  lemma {:induction false} RankWithin(e: Expr, args: set<Name>, depth: map<Name, nat>, n: nat)
    requires Under(e, args, depth, n)
    ensures Rank(e, args, depth) <= n
  {
    match e
    case Sym(_) =>
    case Const(_) =>
    case Prim(_, es) => RankWithinAll(es, args, depth, n);
    case And(a, b) => RankWithin(a, args, depth, n); RankWithin(b, args, depth, n);
    case Not(a) => RankWithin(a, args, depth, n);
    case RecGet(r, _) => RankWithin(r, args, depth, n);
    case RecSet(r, _, v) => RankWithin(r, args, depth, n); RankWithin(v, args, depth, n);
    case MapGet(a, k) => RankWithin(a, args, depth, n); RankWithin(k, args, depth, n);
    case MapSet(a, k, v) => RankWithin(a, args, depth, n); RankWithin(k, args, depth, n); RankWithin(v, args, depth, n);
  }

  lemma {:induction false} RankWithinAll(es: seq<Expr>, args: set<Name>, depth: map<Name, nat>, n: nat)
    requires forall x :: x in SymsAll(es) && x !in args ==> x in depth && depth[x] < n
    ensures RankAll(es, args, depth) <= n
  {
    if es != [] {
      RankWithin(es[0], args, depth, n);
      RankWithinAll(es[1..], args, depth, n);
    }
  }

  lemma RankBounds(e: Expr, args: set<Name>, depth: map<Name, nat>, n: nat)
    ensures forall x :: x in Syms(e) && x !in args && x in depth ==> depth[x] < Rank(e, args, depth)
    ensures Under(e, args, depth, n) ==> Rank(e, args, depth) <= n
  {
    RankAbove(e, args, depth);
    if Under(e, args, depth, n) {
      RankWithin(e, args, depth, n);
    }
  }

  function Pow(b: nat, n: nat): (r: nat)
    requires b > 0
    ensures r > 0
  {
    if n == 0 then 1 else b * Pow(b, n - 1)
  }

  lemma {:induction false} PowMonotone(b: nat, m: nat, n: nat)
    requires b > 0 && m <= n
    ensures Pow(b, m) <= Pow(b, n)
  {
    if m < n {
      PowMonotone(b, m, n - 1);
      Grows(b, Pow(b, n - 1));
    }
  }

  lemma Grows(b: nat, x: nat)
    requires b > 0
    ensures x <= b * x
  {
  }

  /** A node counts more than all that can follow from it. */
  ghost function Weight(queue: seq<Node>, args: set<Name>, depth: map<Name, nat>): nat {
    if queue == [] then 0 else Pow(|depth| + 1, Rank(queue[0].expr, args, depth)) + Weight(queue[1..], args, depth)
  }

  lemma {:induction false} WeightConcat(a: seq<Node>, b: seq<Node>, args: set<Name>, depth: map<Name, nat>)
    ensures Weight(a + b, args, depth) == Weight(a, args, depth) + Weight(b, args, depth)
  {
    if a == [] {
      assert a + b == b;
    } else {
      WeightConcat(a[1..], b, args, depth);
      assert (a + b)[1..] == a[1..] + b;
    }
  }

  lemma {:induction false} WeightBound(nodes: seq<Node>, args: set<Name>, depth: map<Name, nat>, n: nat)
    requires forall node :: node in nodes ==> Rank(node.expr, args, depth) <= n
    ensures Weight(nodes, args, depth) <= |nodes| * Pow(|depth| + 1, n)
  {
    hide Pow, Rank;
    if nodes != [] {
      assert nodes[0] in nodes;
      PowMonotone(|depth| + 1, Rank(nodes[0].expr, args, depth), n);
      WeightBound(nodes[1..], args, depth, n);
      OneMoreTime(|nodes| - 1, Pow(|depth| + 1, n));
    }
  }

  lemma OneMoreTime(k: nat, p: nat)
    ensures (k + 1) * p == k * p + p
  {
  }

  /** The nodes the symbols lead to; no value where the program throws. */
  function NextNodes(sources: map<Name, Node>, args: set<Name>, symbols: seq<Name>): Option<seq<Node>> {
    if symbols == [] then Some([])
    else
      var rest := NextNodes(sources, args, symbols[1..]);
      if rest.None? then None
      else if symbols[0] in args then rest
      else if symbols[0] in sources then Some([sources[symbols[0]]] + rest.value)
      else None
  }

  lemma {:induction false} SymbolsAreSyms(e: Expr, coi: set<Chain>, trace: set<Chain>, guard: Guard)
    ensures Propagate(e, coi, trace, guard).symbols <= Syms(e) && coi <= Propagate(e, coi, trace, guard).coi
    decreases e, 1
  {
    match e
    case Sym(_) =>
    case Const(_) =>
    case Prim(_, args) => SymbolsAreSymsAll(args, coi, trace, guard);
    case And(a, b) =>
      SymbolsAreSyms(a, coi, trace, guard);
      SymbolsAreSyms(b, Propagate(a, coi, trace, guard).coi, trace, guard);
    case Not(a) => SymbolsAreSyms(a, coi, trace, guard);
    case RecGet(_, _) =>
    case MapGet(a, k) =>
      SymbolsAreSyms(a, coi, trace, guard);
      SymbolsAreSyms(k, Propagate(a, coi, trace, guard).coi, trace, guard);
    case RecSet(r, path, v) =>
      var field := Reverse(path);
      SymbolsAreSyms(v, coi, trace + {field}, guard);
      SymbolsAreSyms(r, Propagate(v, coi, trace + {field}, guard).coi, trace + {field}, guard);
      SymbolsAreSyms(r, coi, trace, guard);
    case MapSet(a, k, _) =>
      SymbolsAreSyms(k, coi, trace, guard);
      SymbolsAreSyms(k, coi + {Access(a).chain}, trace, guard);
  }

  lemma {:induction false} SymbolsAreSymsAll(es: seq<Expr>, coi: set<Chain>, trace: set<Chain>, guard: Guard)
    ensures PropagateAll(es, coi, trace, guard).symbols <= SymsAll(es) && coi <= PropagateAll(es, coi, trace, guard).coi
    decreases es, 0
  {
    if es != [] {
      SymbolsAreSyms(es[0], coi, trace, guard);
      SymbolsAreSymsAll(es[1..], Propagate(es[0], coi, trace, guard).coi, trace, guard);
    }
  }

  /** How a set of names is listed, whatever the order. */
  type Listing = set<Name> -> seq<Name>

  ghost predicate Lists(list: Listing) {
    forall s :: NoDup(list(s)) && forall x :: x in list(s) <==> x in s
  }

  function OpenSymbols(symbols: seq<Name>, args: set<Name>): set<Name> {
    set x | x in symbols && x !in args
  }

  lemma {:induction false} NextNodesOk(s: Spec, args: set<Name>, path: seq<bool>, symbols: seq<Name>, n: nat)
    requires Proper(s, args) && NoDup(symbols)
    requires forall x :: x in symbols && x !in args ==>
      x in Sources(s, [], path) && x in Depths(s, 0) && Depths(s, 0)[x] < n
    ensures var depth, next := Depths(s, 0), NextNodes(Sources(s, [], path), args, symbols);
      && next.Some? && QueueOk(s, args, depth, next.value) && |next.value| <= |OpenSymbols(symbols, args)|
      && (forall node :: node in next.value ==> Rank(node.expr, args, depth) < n)
      && (OpenSymbols(symbols, args) == {} ==> next.value == [])
  {
    hide Proper, NodeOk, Sources, Depths, Rank, Under, NoDup, Syms, OpenSymbols;
    OpenStep(symbols, args);
    if symbols != [] {
      TailNoDup(symbols);
      var x, rest := symbols[0], symbols[1..];
      assert symbols == [x] + rest && x in symbols;
      NextNodesOk(s, args, path, rest, n);
      if x !in args {
        SourceOk(s, args, path, x);
        RankBounds(Sources(s, [], path)[x].expr, args, Depths(s, 0), Depths(s, 0)[x]);
      }
    }
  }

  lemma OpenStep(symbols: seq<Name>, args: set<Name>)
    requires NoDup(symbols)
    ensures symbols == [] ==> OpenSymbols(symbols, args) == {}
    ensures symbols != [] && symbols[0] in args ==> OpenSymbols(symbols, args) == OpenSymbols(symbols[1..], args)
    ensures symbols != [] && symbols[0] !in args ==>
      |OpenSymbols(symbols, args)| == |OpenSymbols(symbols[1..], args)| + 1 && OpenSymbols(symbols, args) != {}
  {
    if symbols != [] {
      var x, rest := symbols[0], symbols[1..];
      assert symbols == [x] + rest;
      TailNoDup(symbols);
      assert OpenSymbols(symbols, args) == OpenSymbols(rest, args) + if x in args then {} else {x};
    }
  }

  lemma TailNoDup(symbols: seq<Name>)
    requires symbols != [] && NoDup(symbols)
    ensures NoDup(symbols[1..]) && symbols[0] !in symbols[1..]
  {
  }

  /** Going on from one node makes the queue lighter, and never throws. */
  lemma NodeDone(s: Spec, args: set<Name>, node: Node, queue: seq<Node>, symbols: seq<Name>)
    requires Proper(s, args) && NodeOk(s, args, Depths(s, 0), node) && QueueOk(s, args, Depths(s, 0), queue)
    requires NoDup(symbols) && forall x :: x in symbols ==> x in Syms(node.expr)
    ensures var depth, next := Depths(s, 0), NextNodes(Sources(s, [], node.path), args, symbols);
      next.Some? && QueueOk(s, args, depth, queue + next.value)
        && Weight(queue + next.value, args, depth) < Weight([node] + queue, args, depth)
  {
    var depth := Depths(s, 0);
    var n := Rank(node.expr, args, depth);
    RankBounds(node.expr, args, depth, n);
    SymbolsKnown(s, args, depth, node);
    hide Proper, Pow, Rank, Weight, Sources, Depths, NodeOk, NoDup, Under;
    NextNodesOk(s, args, node.path, symbols, n);
    var next := NextNodes(Sources(s, [], node.path), args, symbols).value;
    WeightConcat(queue, next, args, depth);
    WeightFirst(node, queue, args, depth);
    if n > 0 {
      SubsetSize(OpenSymbols(symbols, args), depth.Keys);
      WeightBound(next, args, depth, n - 1);
      Lighter(|next|, |depth|, n);
    } else {
      assert OpenSymbols(symbols, args) == {};
      WeightFirst(node, [], args, depth);
    }
  }

  lemma SymbolsKnown(s: Spec, args: set<Name>, depth: map<Name, nat>, node: Node)
    requires NodeOk(s, args, depth, node)
    ensures forall x :: x in Syms(node.expr) && x !in args ==> x in Sources(s, [], node.path) && x in depth
  {
  }

  lemma WeightFirst(node: Node, queue: seq<Node>, args: set<Name>, depth: map<Name, nat>)
    ensures Weight([node] + queue, args, depth) == Pow(|depth| + 1, Rank(node.expr, args, depth))
      + Weight(queue, args, depth)
    ensures Weight([], args, depth) == 0
  {
    assert ([node] + queue)[1..] == queue;
  }

  lemma Lighter(k: nat, m: nat, n: nat)
    requires k <= m && n > 0
    ensures k * Pow(m + 1, n - 1) < Pow(m + 1, n)
  {
    var p := Pow(m + 1, n - 1);
    TimesMonotone(k, m, p);
    OneMoreTime(m, p);
  }

  lemma TimesMonotone(a: nat, b: nat, p: nat)
    requires a <= b
    ensures a * p <= b * p
  {
  }

  /** The worklist to its end. */
  function Work(s: Spec, args: set<Name>, guard: Guard, list: Listing, queue: seq<Node>,
                coi: set<Chain>): Option<set<Chain>>
    requires Proper(s, args) && Lists(list) && QueueOk(s, args, Depths(s, 0), queue)
    decreases Weight(queue, args, Depths(s, 0))
  {
    if queue == [] then Some(coi)
    else
      var node := queue[0];
      var found := Propagate(node.expr, coi, {}, guard);
      var symbols := list(found.symbols);
      assert node in queue && queue == [node] + queue[1..];
      SymbolsAreSyms(node.expr, coi, {}, guard);
      NodeDone(s, args, node, queue[1..], symbols);
      var next := NextNodes(Sources(s, [], node.path), args, symbols);
      if next.None? then None else Work(s, args, guard, list, queue[1..] + next.value, found.coi)
  }

  /** What is reported: the white list, and the chains that are neither empty nor on the black list. */
  function Report(coi: set<Chain>, whitelist: set<Field>, blacklist: set<Field>): set<Chain> {
    (set f | f in whitelist :: [f]) + set c | c in coi && c != [] && c[0] !in blacklist
  }

  /** `analyze_cone_of_influence`. */
  function Analysis(s: Spec, args: set<Name>, guard: Guard, list: Listing, seeds: set<Chain>, whitelist: set<Field>,
                    blacklist: set<Field>): Option<set<Chain>>
    requires Proper(s, args) && Lists(list)
  {
    InitOk(s, args);
    var coi := Work(s, args, guard, list, InitNodes(s, []), seeds);
    if coi.None? then None else Some(Report(coi.value, whitelist, blacklist))
  }

  lemma AnalysisIs(s: Spec, args: set<Name>, guard: Guard, list: Listing, seeds: set<Chain>, whitelist: set<Field>,
                   blacklist: set<Field>)
    requires Proper(s, args) && Lists(list) && QueueOk(s, args, Depths(s, 0), InitNodes(s, []))
    ensures var coi := Work(s, args, guard, list, InitNodes(s, []), seeds);
      Analysis(s, args, guard, list, seeds, whitelist, blacklist) == if coi.None? then None
        else Some(Report(coi.value, whitelist, blacklist))
  {
    hide Work, Report;
  }

  lemma ReportIs(coi: set<Chain>, whitelist: set<Field>, blacklist: set<Field>)
    ensures forall c :: c in Report(coi, whitelist, blacklist) <==>
      (|c| == 1 && c[0] in whitelist) || (c != [] && c[0] !in blacklist && c in coi)
  {
    forall c | |c| == 1 && c[0] in whitelist ensures c in Report(coi, whitelist, blacklist) {
      assert c == [c[0]];
    }
  }

  lemma WorkEnd(s: Spec, args: set<Name>, guard: Guard, list: Listing, coi: set<Chain>)
    requires Proper(s, args) && Lists(list)
    ensures QueueOk(s, args, Depths(s, 0), []) && Work(s, args, guard, list, [], coi) == Some(coi)
  {
  }

  lemma WorkStep(s: Spec, args: set<Name>, guard: Guard, list: Listing, node: Node, queue: seq<Node>, coi: set<Chain>)
    requires Proper(s, args) && Lists(list) && QueueOk(s, args, Depths(s, 0), [node] + queue)
    ensures var found := Propagate(node.expr, coi, {}, guard);
      var next := NextNodes(Sources(s, [], node.path), args, list(found.symbols));
      && coi <= found.coi && next.Some? && QueueOk(s, args, Depths(s, 0), queue + next.value)
      && Weight(queue + next.value, args, Depths(s, 0)) < Weight([node] + queue, args, Depths(s, 0))
      && Work(s, args, guard, list, [node] + queue, coi) == Work(s, args, guard, list, queue + next.value, found.coi)
  {
    var found := Propagate(node.expr, coi, {}, guard);
    assert node in [node] + queue && ([node] + queue)[1..] == queue;
    assert forall x :: x in queue ==> x in [node] + queue;
    SymbolsAreSyms(node.expr, coi, {}, guard);
    NodeDone(s, args, node, queue, list(found.symbols));
  }

  /** Every worklist run ends, does not throw, and keeps what it has started with. */
  lemma {:induction false} WorkKeeps(s: Spec, args: set<Name>, guard: Guard, list: Listing, queue: seq<Node>,
                                     coi: set<Chain>)
    requires Proper(s, args) && Lists(list) && QueueOk(s, args, Depths(s, 0), queue)
    ensures Work(s, args, guard, list, queue, coi).Some? && coi <= Work(s, args, guard, list, queue, coi).value
    decreases Weight(queue, args, Depths(s, 0))
  {
    if queue == [] {
      WorkEnd(s, args, guard, list, coi);
    } else {
      hide Work, Propagate, QueueOk, Proper, Lists, Sources, NextNodes, Weight;
      var node, rest := queue[0], queue[1..];
      assert queue == [node] + rest;
      WorkStep(s, args, guard, list, node, rest, coi);
      var found := Propagate(node.expr, coi, {}, guard);
      var next := NextNodes(Sources(s, [], node.path), args, list(found.symbols)).value;
      WorkKeeps(s, args, guard, list, rest + next, found.coi);
    }
  }

  // ---------- the worklist finds it

  /** The nodes in `all` have been gone through, and so has what their names are bound to. */
  ghost predicate Visited(s: Spec, args: set<Name>, guard: Guard, low: set<Chain>, high: set<Chain>, all: set<Node>,
                          coi: set<Chain>) {
    forall node :: node in all ==> Visits(s, args, guard, low, high, all, coi, node)
  }

  ghost predicate Visits(s: Spec, args: set<Name>, guard: Guard, low: set<Chain>, high: set<Chain>, all: set<Node>,
                         coi: set<Chain>, node: Node) {
    && Needs(node.expr, low, high, {}, guard) <= coi
    && forall x :: x in Asks(node.expr, low, guard) && x !in args ==>
         x in Sources(s, [], node.path) && Sources(s, [], node.path)[x] in all
  }

  lemma {:induction false} WorkVisits(s: Spec, args: set<Name>, guard: Guard, list: Listing, queue: seq<Node>,
                                      low: set<Chain>, high: set<Chain>, coi: set<Chain>) returns (all: set<Node>)
    requires Proper(s, args) && Lists(list) && QueueOk(s, args, Depths(s, 0), queue) && low <= coi
    requires Work(s, args, guard, list, queue, coi).Some? && Work(s, args, guard, list, queue, coi).value <= high
    ensures (forall node :: node in queue ==> node in all)
    ensures Visited(s, args, guard, low, high, all, Work(s, args, guard, list, queue, coi).value)
    decreases Weight(queue, args, Depths(s, 0))
  {
    WorkKeeps(s, args, guard, list, queue, coi);
    if queue == [] {
      WorkEnd(s, args, guard, list, coi);
      all := {};
    } else {
      hide Work, Propagate, QueueOk, Proper, Lists, Sources, NextNodes, Weight, Needs, Asks, Visits, Visited;
      var node, rest := queue[0], queue[1..];
      assert queue == [node] + rest;
      WorkStep(s, args, guard, list, node, rest, coi);
      var found := Propagate(node.expr, coi, {}, guard);
      WorkKeeps(s, args, guard, list, rest + NextNodes(Sources(s, [], node.path), args, list(found.symbols)).value,
        found.coi);
      NeedsFound(node.expr, low, high, {}, coi, {}, guard);
      var next := NextNodes(Sources(s, [], node.path), args, list(found.symbols)).value;
      var before := WorkVisits(s, args, guard, list, rest + next, low, high, found.coi);
      all := before + {node};
      var last := Work(s, args, guard, list, queue, coi).value;
      WorkKeeps(s, args, guard, list, rest + next, found.coi);
      FirstVisited(s, args, guard, list, low, high, before, last, node, found.symbols);
      VisitedMore(s, args, guard, low, high, before, node, last);
    }
  }

  lemma VisitedMore(s: Spec, args: set<Name>, guard: Guard, low: set<Chain>, high: set<Chain>, before: set<Node>,
                    node: Node, coi: set<Chain>)
    requires Visited(s, args, guard, low, high, before, coi)
    requires Visits(s, args, guard, low, high, before + {node}, coi, node)
    ensures Visited(s, args, guard, low, high, before + {node}, coi)
  {
    hide Visits;
    forall n | n in before ensures Visits(s, args, guard, low, high, before + {node}, coi, n) {
      VisitsMore(s, args, guard, low, high, before, before + {node}, coi, n);
    }
  }

  lemma VisitsMore(s: Spec, args: set<Name>, guard: Guard, low: set<Chain>, high: set<Chain>, some: set<Node>,
                   all: set<Node>, coi: set<Chain>, node: Node)
    requires Visits(s, args, guard, low, high, some, coi, node) && some <= all
    ensures Visits(s, args, guard, low, high, all, coi, node)
  {
  }

  lemma FirstVisited(s: Spec, args: set<Name>, guard: Guard, list: Listing, low: set<Chain>, high: set<Chain>,
                     before: set<Node>, coi: set<Chain>, node: Node, symbols: set<Name>)
    requires Lists(list) && NextNodes(Sources(s, [], node.path), args, list(symbols)).Some?
    requires forall n :: n in NextNodes(Sources(s, [], node.path), args, list(symbols)).value ==> n in before
    requires Needs(node.expr, low, high, {}, guard) <= coi && Asks(node.expr, low, guard) <= symbols
    ensures Visits(s, args, guard, low, high, before + {node}, coi, node)
  {
    forall x | x in Asks(node.expr, low, guard) && x !in args
      ensures x in Sources(s, [], node.path) && Sources(s, [], node.path)[x] in before + {node}
    {
      NextHas(Sources(s, [], node.path), args, list(symbols), x);
    }
  }

  lemma {:induction false} NextHas(sources: map<Name, Node>, args: set<Name>, symbols: seq<Name>, x: Name)
    requires NextNodes(sources, args, symbols).Some? && x in symbols && x !in args
    ensures x in sources && sources[x] in NextNodes(sources, args, symbols).value
  {
    if symbols[0] != x {
      assert x in symbols[1..];
      NextHas(sources, args, symbols[1..], x);
    }
  }

  /** What each name is bound to, wherever that stands. */
  function Bindings(s: Spec): map<Name, Expr> {
    match s
    case Let(x, e, body) => map[x := e] + Bindings(body)
    case When(names, call, args, body) => (map x | x in names :: Prim(call, args)) + Bindings(body)
    case Rely(_, body) => Bindings(body)
    case If(_, thn, els) => Bindings(thn) + Bindings(els)
    case _ => map[]
  }

  lemma {:induction false} BindingsDomain(s: Spec)
    ensures Bindings(s).Keys == Binders(s)
  {
    match s
    case Let(_, _, body) => BindingsDomain(body);
    case When(_, _, _, body) => BindingsDomain(body);
    case Rely(_, body) => BindingsDomain(body);
    case If(_, thn, els) =>
      BindingsDomain(thn);
      BindingsDomain(els);
    case _ =>
  }

  lemma {:induction false} SourcesAreBindings(s: Spec, scope: set<Name>, done: seq<bool>, rest: seq<bool>)
    requires WellScoped(s, scope)
    ensures forall x :: x in Sources(s, done, rest) ==>
      x in Bindings(s) && Sources(s, done, rest)[x].expr == Bindings(s)[x]
  {
    BindingsDomain(s);
    match s
    case Let(x, e, body) =>
      BindingsDomain(body);
      SourcesAreBindings(body, scope + {x}, done, rest);
      assert Sources(s, done, rest) == map[x := Node(e, done + Head(rest))] + Sources(body, done, rest);
    case When(names, call, args, body) =>
      BindingsDomain(body);
      SourcesAreBindings(body, scope + (set x | x in names), done, rest);
      var here := map x | x in names :: Node(Prim(call, args), done + Head(rest));
      assert Sources(s, done, rest) == here + Sources(body, done, rest);
    case Rely(_, body) => SourcesAreBindings(body, scope, done, rest);
    case If(_, thn, els) =>
      if rest != [] {
        BindingsDomain(thn);
        BindingsDomain(els);
        SourcesAreBindings(if rest[0] then thn else els, scope, done + [rest[0]], rest[1..]);
      }
    case _ =>
  }

  /** What the name is bound to has been gone through. */
  ghost predicate Reached(s: Spec, all: set<Node>, x: Name) {
    exists path :: x in Sources(s, [], path) && Sources(s, [], path)[x] in all
  }

  lemma NodeReaches(s: Spec, args: set<Name>, guard: Guard, low: set<Chain>, high: set<Chain>, all: set<Node>,
                    coi: set<Chain>, node: Node)
    requires Visited(s, args, guard, low, high, all, coi) && node in all
    ensures Needs(node.expr, low, high, {}, guard) <= coi
    ensures forall x :: x in Asks(node.expr, low, guard) && x !in args ==> Reached(s, all, x)
  {
    hide Sources, Needs, Asks;
    assert Visits(s, args, guard, low, high, all, coi, node);
  }

  lemma BindingReaches(s: Spec, args: set<Name>, guard: Guard, low: set<Chain>, high: set<Chain>, all: set<Node>,
                       coi: set<Chain>, x: Name, e: Expr)
    requires Proper(s, args) && Visited(s, args, guard, low, high, all, coi) && Reached(s, all, x)
    requires x in Bindings(s) && Bindings(s)[x] == e
    ensures Needs(e, low, high, {}, guard) <= coi
    ensures forall y :: y in Asks(e, low, guard) && y !in args ==> Reached(s, all, y)
  {
    hide Sources, Needs, Asks, Visited;
    var path :| x in Sources(s, [], path) && Sources(s, [], path)[x] in all;
    SourcesAreBindings(s, args, [], path);
    NodeReaches(s, args, guard, low, high, all, coi, Sources(s, [], path)[x]);
  }

  /** If the nodes it starts from have been gone through, then all that part of the specification needs. */
  lemma {:induction false} SpecVisited(s: Spec, args: set<Name>, guard: Guard, low: set<Chain>, high: set<Chain>,
                                       all: set<Node>, coi: set<Chain>, b: Spec, done: seq<bool>, scope: set<Name>)
    requires Proper(s, args) && Visited(s, args, guard, low, high, all, coi)
    requires WellScoped(b, scope) && args !! Binders(b)
    requires forall x :: x in Bindings(b) ==> x in Bindings(s) && Bindings(s)[x] == Bindings(b)[x]
    requires forall node :: node in InitNodes(b, done) ==> node in all
    ensures SpecNeeds(b, low, high, guard) <= coi
    ensures forall x :: x in SpecAsks(b, low, guard) && x !in args ==> Reached(s, all, x)
    decreases b
  {
    hide Visited, Reached, Needs, Asks, Proper;
    BindingsDomain(b);
    match b
    case Let(x, e, body) =>
      BindingsDomain(body);
      SpecVisited(s, args, guard, low, high, all, coi, body, done, scope + {x});
      if x in SpecAsks(body, low, guard) {
        BindingReaches(s, args, guard, low, high, all, coi, x, e);
      }
    case When(names, call, cargs, body) =>
      BindingsDomain(body);
      SpecVisited(s, args, guard, low, high, all, coi, body, done, scope + (set x | x in names));
      if x :| x in names && x in SpecAsks(body, low, guard) {
        BindingReaches(s, args, guard, low, high, all, coi, x, Prim(call, cargs));
      }
    case Rely(_, body) => SpecVisited(s, args, guard, low, high, all, coi, body, done, scope);
    case If(c, thn, els) =>
      BindingsDomain(thn);
      BindingsDomain(els);
      SpecVisited(s, args, guard, low, high, all, coi, thn, done + [true], scope);
      SpecVisited(s, args, guard, low, high, all, coi, els, done + [false], scope);
      NodeReaches(s, args, guard, low, high, all, coi, Node(c, done));
    case Ret(vals, st) =>
      if !(vals == [] && (st.Sym? || st.Const?)) {
        NodeReaches(s, args, guard, low, high, all, coi, Node(st, done));
      }
    case Fail =>
  }

  // ---------- and nothing else

  lemma {:induction false} AsksAreSyms(e: Expr, follow: set<Chain>, guard: Guard)
    ensures Asks(e, follow, guard) <= Syms(e)
  {
    match e
    case Sym(_) =>
    case Const(_) =>
    case Prim(_, args) => AllAsksAreSyms(args, follow, guard);
    case And(a, b) => AsksAreSyms(a, follow, guard); AsksAreSyms(b, follow, guard);
    case Not(a) => AsksAreSyms(a, follow, guard);
    case RecGet(_, _) =>
    case MapGet(a, k) => AsksAreSyms(a, follow, guard); AsksAreSyms(k, follow, guard);
    case RecSet(r, _, v) => AsksAreSyms(r, follow, guard); AsksAreSyms(v, follow, guard);
    case MapSet(_, k, _) => AsksAreSyms(k, follow, guard);
  }

  lemma {:induction false} AllAsksAreSyms(es: seq<Expr>, follow: set<Chain>, guard: Guard)
    ensures AsksAll(es, follow, guard) <= SymsAll(es)
  {
    if es != [] {
      AsksAreSyms(es[0], follow, guard);
      AllAsksAreSyms(es[1..], follow, guard);
    }
  }

  lemma {:induction false} AsksInScope(s: Spec, scope: set<Name>, follow: set<Chain>, guard: Guard)
    requires WellScoped(s, scope)
    ensures SpecAsks(s, follow, guard) <= scope + Binders(s) && scope !! Binders(s)
  {
    match s
    case Let(x, e, body) =>
      AsksAreSyms(e, follow, guard);
      AsksInScope(body, scope + {x}, follow, guard);
    case When(names, call, args, body) =>
      AsksAreSyms(Prim(call, args), follow, guard);
      AsksInScope(body, scope + (set x | x in names), follow, guard);
    case Rely(_, body) => AsksInScope(body, scope, follow, guard);
    case If(c, thn, els) =>
      AsksAreSyms(c, follow, guard);
      AsksInScope(thn, scope, follow, guard);
      AsksInScope(els, scope, follow, guard);
    case Ret(_, st) => AsksAreSyms(st, follow, guard);
    case Fail =>
  }

  /** What the name is bound to is among what the specification needs, if the name is. */
  predicate BoundNeeded(s: Spec, follow: set<Chain>, block: set<Chain>, guard: Guard, e: Expr) {
    && Asks(e, follow, guard) <= SpecAsks(s, follow, guard)
    && Needs(e, follow, block, {}, guard) <= SpecNeeds(s, follow, block, guard)
  }

  lemma {:induction false} BindingsNeeded(s: Spec, scope: set<Name>, follow: set<Chain>, block: set<Chain>,
                                          guard: Guard)
    requires WellScoped(s, scope)
    ensures forall x :: x in SpecAsks(s, follow, guard) && x in Bindings(s) ==>
      BoundNeeded(s, follow, block, guard, Bindings(s)[x])
  {
    hide Needs, Asks;
    BindingsDomain(s);
    AsksInScope(s, scope, follow, guard);
    match s
    case Let(x, e, body) =>
      AsksAreSyms(e, follow, guard);
      BindingsDomain(body);
      AsksInScope(body, scope + {x}, follow, guard);
      BindingsNeeded(body, scope + {x}, follow, block, guard);
    case When(names, call, args, body) =>
      var more := set x | x in names;
      AsksAreSyms(Prim(call, args), follow, guard);
      assert Syms(Prim(call, args)) == SymsAll(args);
      BindingsDomain(body);
      AsksInScope(body, scope + more, follow, guard);
      BindingsNeeded(body, scope + more, follow, block, guard);
    case Rely(_, body) => BindingsNeeded(body, scope, follow, block, guard);
    case If(c, thn, els) =>
      AsksAreSyms(c, follow, guard);
      BindingsDomain(thn);
      BindingsDomain(els);
      AsksInScope(thn, scope, follow, guard);
      AsksInScope(els, scope, follow, guard);
      BindingsNeeded(thn, scope, follow, block, guard);
      BindingsNeeded(els, scope, follow, block, guard);
    case _ =>
  }

  lemma {:induction false} InitNeeded(s: Spec, path: seq<bool>, follow: set<Chain>, block: set<Chain>, guard: Guard)
    ensures forall node :: node in InitNodes(s, path) ==> BoundNeeded(s, follow, block, guard, node.expr)
  {
    hide Needs, Asks;
    match s
    case Let(_, _, body) => InitNeeded(body, path, follow, block, guard);
    case When(_, _, _, body) => InitNeeded(body, path, follow, block, guard);
    case Rely(_, body) => InitNeeded(body, path, follow, block, guard);
    case If(_, thn, els) =>
      InitNeeded(thn, path + [true], follow, block, guard);
      InitNeeded(els, path + [false], follow, block, guard);
    case _ =>
  }

  lemma NextNeeded(s: Spec, args: set<Name>, follow: set<Chain>, block: set<Chain>, guard: Guard, node: Node,
                   symbols: seq<Name>)
    requires Proper(s, args) && BoundNeeded(s, follow, block, guard, node.expr)
    requires forall x :: x in symbols ==> x in Asks(node.expr, follow, guard)
    requires NextNodes(Sources(s, [], node.path), args, symbols).Some?
    ensures forall n :: n in NextNodes(Sources(s, [], node.path), args, symbols).value ==>
      BoundNeeded(s, follow, block, guard, n.expr)
    decreases |symbols|
  {
    hide Needs, Asks, Sources, BoundNeeded, SpecAsks, SpecNeeds;
    if symbols != [] {
      var x := symbols[0];
      assert forall y :: y in symbols[1..] ==> y in symbols;
      NextNeeded(s, args, follow, block, guard, node, symbols[1..]);
      SourcesAreBindings(s, args, [], node.path);
      BindingsNeeded(s, args, follow, block, guard);
      AskedHere(s, follow, block, guard, node.expr, x);
    }
  }

  lemma AskedHere(s: Spec, follow: set<Chain>, block: set<Chain>, guard: Guard, e: Expr, x: Name)
    requires BoundNeeded(s, follow, block, guard, e) && x in Asks(e, follow, guard)
    ensures x in SpecAsks(s, follow, guard)
  {
    hide Asks, SpecAsks;
  }

  lemma {:induction false} WorkWithin(s: Spec, args: set<Name>, guard: Guard, list: Listing, queue: seq<Node>,
                                      low: set<Chain>, high: set<Chain>, coi: set<Chain>)
    requires Proper(s, args) && Lists(list) && QueueOk(s, args, Depths(s, 0), queue) && low <= coi
    requires forall node :: node in queue ==> BoundNeeded(s, high, low, guard, node.expr)
    requires Work(s, args, guard, list, queue, coi).Some? && Work(s, args, guard, list, queue, coi).value <= high
    ensures Work(s, args, guard, list, queue, coi).value <= coi + SpecNeeds(s, high, low, guard)
    decreases Weight(queue, args, Depths(s, 0))
  {
    if queue == [] {
      WorkEnd(s, args, guard, list, coi);
    } else {
      hide Work, Propagate, QueueOk, Proper, Sources, NextNodes, Weight, Needs, Asks, SpecNeeds, SpecAsks;
      var node, rest := queue[0], queue[1..];
      assert queue == [node] + rest;
      WorkStep(s, args, guard, list, node, rest, coi);
      var found := Propagate(node.expr, coi, {}, guard);
      var next := NextNodes(Sources(s, [], node.path), args, list(found.symbols)).value;
      WorkKeeps(s, args, guard, list, rest + next, found.coi);
      FoundNeeded(node.expr, low, high, {}, coi, {}, guard);
      NextNeeded(s, args, high, low, guard, node, list(found.symbols));
      WorkWithin(s, args, guard, list, rest + next, low, high, found.coi);
    }
  }

  // ---------- the iteration for recursive definitions

  /** All chains that an expression can add. */
  function AllChains(e: Expr): set<Chain> {
    match e
    case Sym(_) => {}
    case Const(_) => {}
    case Prim(_, args) => AllChainsOf(args)
    case And(a, b) => AllChains(a) + AllChains(b)
    case Not(a) => AllChains(a)
    case RecGet(_, _) => Used(e)
    case MapGet(a, k) => AllChains(a) + AllChains(k)
    case RecSet(r, _, v) => AllChains(r) + AllChains(v)
    case MapSet(a, k, _) => {Access(a).chain} + AllChains(k)
  }

  function AllChainsOf(es: seq<Expr>): set<Chain> {
    if es == [] then {} else AllChains(es[0]) + AllChainsOf(es[1..])
  }

  function SpecChains(s: Spec): set<Chain> {
    match s
    case Let(_, e, body) => AllChains(e) + SpecChains(body)
    case When(_, call, args, body) => AllChains(Prim(call, args)) + SpecChains(body)
    case Rely(_, body) => SpecChains(body)
    case If(c, thn, els) => AllChains(c) + SpecChains(thn) + SpecChains(els)
    case Ret(_, st) => AllChains(st)
    case Fail => {}
  }

  lemma {:induction false} PropagateAdds(e: Expr, coi: set<Chain>, trace: set<Chain>, guard: Guard)
    ensures Propagate(e, coi, trace, guard).coi <= coi + AllChains(e)
    decreases e, 1
  {
    match e
    case Sym(_) =>
    case Const(_) =>
    case Prim(_, args) => PropagateAllAdds(args, coi, trace, guard);
    case And(a, b) =>
      PropagateAdds(a, coi, trace, guard);
      PropagateAdds(b, Propagate(a, coi, trace, guard).coi, trace, guard);
    case Not(a) => PropagateAdds(a, coi, trace, guard);
    case RecGet(_, _) =>
    case MapGet(a, k) =>
      PropagateAdds(a, coi, trace, guard);
      PropagateAdds(k, Propagate(a, coi, trace, guard).coi, trace, guard);
    case RecSet(r, path, v) =>
      var field := Reverse(path);
      PropagateAdds(v, coi, trace + {field}, guard);
      PropagateAdds(r, Propagate(v, coi, trace + {field}, guard).coi, trace + {field}, guard);
      PropagateAdds(r, coi, trace, guard);
    case MapSet(a, k, _) =>
      PropagateAdds(k, coi, trace, guard);
      PropagateAdds(k, coi + {Access(a).chain}, trace, guard);
  }

  lemma {:induction false} PropagateAllAdds(es: seq<Expr>, coi: set<Chain>, trace: set<Chain>, guard: Guard)
    ensures PropagateAll(es, coi, trace, guard).coi <= coi + AllChainsOf(es)
    decreases es, 0
  {
    if es != [] {
      PropagateAdds(es[0], coi, trace, guard);
      PropagateAllAdds(es[1..], Propagate(es[0], coi, trace, guard).coi, trace, guard);
    }
  }

  lemma {:induction false} SourceChains(s: Spec, done: seq<bool>, rest: seq<bool>)
    ensures forall x :: x in Sources(s, done, rest) ==> AllChains(Sources(s, done, rest)[x].expr) <= SpecChains(s)
  {
    match s
    case Let(_, _, body) => SourceChains(body, done, rest);
    case When(_, _, _, body) => SourceChains(body, done, rest);
    case Rely(_, body) => SourceChains(body, done, rest);
    case If(_, thn, els) =>
      if rest != [] {
        SourceChains(if rest[0] then thn else els, done + [rest[0]], rest[1..]);
      }
    case _ =>
  }

  lemma {:induction false} InitChains(s: Spec, path: seq<bool>)
    ensures forall node :: node in InitNodes(s, path) ==> AllChains(node.expr) <= SpecChains(s)
  {
    match s
    case Let(_, _, body) => InitChains(body, path);
    case When(_, _, _, body) => InitChains(body, path);
    case Rely(_, body) => InitChains(body, path);
    case If(_, thn, els) =>
      InitChains(thn, path + [true]);
      InitChains(els, path + [false]);
    case _ =>
  }

  lemma {:induction false} NextChains(s: Spec, sources: map<Name, Node>, args: set<Name>, symbols: seq<Name>)
    requires forall x :: x in sources ==> AllChains(sources[x].expr) <= SpecChains(s)
    ensures NextNodes(sources, args, symbols).Some? ==>
      forall node :: node in NextNodes(sources, args, symbols).value ==> AllChains(node.expr) <= SpecChains(s)
  {
    if symbols != [] {
      NextChains(s, sources, args, symbols[1..]);
    }
  }

  lemma {:induction false} WorkAdds(s: Spec, args: set<Name>, guard: Guard, list: Listing, queue: seq<Node>,
                                    coi: set<Chain>)
    requires Proper(s, args) && Lists(list) && QueueOk(s, args, Depths(s, 0), queue)
    requires forall node :: node in queue ==> AllChains(node.expr) <= SpecChains(s)
    ensures Work(s, args, guard, list, queue, coi).Some? && Work(s, args, guard, list, queue, coi).value <= coi
      + SpecChains(s)
    decreases Weight(queue, args, Depths(s, 0))
  {
    if queue == [] {
      WorkEnd(s, args, guard, list, coi);
    } else {
      hide Work, Propagate, QueueOk, Proper, Lists, AllChains, SpecChains, Sources, Weight;
      var node, rest := queue[0], queue[1..];
      assert queue == [node] + rest && node in queue;
      WorkStep(s, args, guard, list, node, rest, coi);
      var found := Propagate(node.expr, coi, {}, guard);
      PropagateAdds(node.expr, coi, {}, guard);
      SourceChains(s, [], node.path);
      NextChains(s, Sources(s, [], node.path), args, list(found.symbols));
      var next := NextNodes(Sources(s, [], node.path), args, list(found.symbols)).value;
      WorkAdds(s, args, guard, list, rest + next, found.coi);
    }
  }

  /** The worklist finds what the specification needs for its seeds, and only what it needs for all that is found. */
  lemma {:induction false} WorkBounds(s: Spec, args: set<Name>, guard: Guard, list: Listing, seeds: set<Chain>,
                                      high: set<Chain>)
    requires Proper(s, args) && Lists(list) && QueueOk(s, args, Depths(s, 0), InitNodes(s, []))
    requires var r := Work(s, args, guard, list, InitNodes(s, []), seeds); r.Some? && r.value <= high
    ensures var r := Work(s, args, guard, list, InitNodes(s, []), seeds).value;
      seeds + SpecNeeds(s, seeds, high, guard) <= r <= seeds + SpecNeeds(s, high, seeds, guard)
  {
    hide Work, QueueOk, Lists, Visited, BoundNeeded;
    var r := Work(s, args, guard, list, InitNodes(s, []), seeds).value;
    WorkKeeps(s, args, guard, list, InitNodes(s, []), seeds);
    var all := WorkVisits(s, args, guard, list, InitNodes(s, []), seeds, high, seeds);
    SpecVisited(s, args, guard, seeds, high, all, r, s, [], args);
    InitNeeded(s, [], high, seeds, guard);
    WorkWithin(s, args, guard, list, InitNodes(s, []), seeds, high, seeds);
  }

  /** `analyze_cone_of_influence`.  `all` is what the specification needs for the seeds, and nothing that it does
      not need for `all`; reported are the white list, and what of `all` is neither empty nor on the black list. */
  method AnalyzeConeOfInfluence(s: Spec, args: set<Name>, guard: Guard, list: Listing, seeds: set<Chain>,
                                whitelist: set<Field>, blacklist: set<Field>)
    returns (coi: set<Chain>, ghost all: set<Chain>)
    requires Proper(s, args) && Lists(list)
    ensures Analysis(s, args, guard, list, seeds, whitelist, blacklist) == Some(coi)
    ensures seeds + SpecNeeds(s, seeds, all, guard) <= all <= seeds + SpecNeeds(s, all, seeds, guard)
    ensures forall c :: c in coi <==>
      (|c| == 1 && c[0] in whitelist) || (c != [] && c[0] !in blacklist && c in all)
  {
    hide Work, Propagate, QueueOk, NodeOk, Proper, Lists, Report, Analysis, Sources, NextNodes, Weight, Depths,
      SpecNeeds;
    InitOk(s, args);
    AnalysisIs(s, args, guard, list, seeds, whitelist, blacklist);
    var queue := InitNodes(s, []);
    coi := seeds;
    WorkKeeps(s, args, guard, list, queue, coi);
    while queue != []
      invariant QueueOk(s, args, Depths(s, 0), queue)
      invariant Work(s, args, guard, list, InitNodes(s, []), seeds) == Work(s, args, guard, list, queue, coi)
      decreases Weight(queue, args, Depths(s, 0))
    {
      var node := queue[0];
      assert queue == [node] + queue[1..];
      queue := queue[1..];
      var found := Propagate(node.expr, coi, {}, guard);
      WorkStep(s, args, guard, list, node, queue, coi);
      var next := NextNodes(Sources(s, [], node.path), args, list(found.symbols));
      queue, coi := queue + next.value, found.coi;
    }
    WorkEnd(s, args, guard, list, coi);
    WorkBounds(s, args, guard, list, seeds, coi);
    all := coi;
    ReportIs(coi, whitelist, blacklist);
    coi := Report(coi, whitelist, blacklist);
  }

  /** One pass without lists keeps all chains but the empty one, and adds what the specification needs for them, and
      only chains of the specification. */
  lemma PassBounds(s: Spec, args: set<Name>, guard: Guard, list: Listing, coi: set<Chain>)
    requires Proper(s, args) && Lists(list)
    ensures var next := Analysis(s, args, guard, list, coi, {}, {});
      && next.Some? && (coi + SpecNeeds(s, coi, next.value + {[]}, guard)) - {[]} <= next.value
      && next.value <= (coi + SpecNeeds(s, next.value + {[]}, coi, guard)) * (coi + SpecChains(s)) && [] !in next.value
  {
    hide Work, Proper, Lists, SpecNeeds, SpecChains;
    InitOk(s, args);
    InitChains(s, []);
    WorkKeeps(s, args, guard, list, InitNodes(s, []), coi);
    WorkAdds(s, args, guard, list, InitNodes(s, []), coi);
    var next := Analysis(s, args, guard, list, coi, {}, {}).value;
    WorkBounds(s, args, guard, list, coi, next + {[]});
  }

  /** The iteration for a recursive definition ends, at a set that one more pass leaves as it is: with every field it
      holds, it holds what the specification needs for that. */
  method FindFixpoint(s: Spec, args: set<Name>, guard: Guard, list: Listing, seeds: set<Chain>)
    returns (coi: set<Chain>)
    requires Proper(s, args) && Lists(list)
    ensures Analysis(s, args, guard, list, coi, {}, {}) == Some(coi)
    ensures seeds - {[]} <= coi <= seeds + SpecChains(s) && SpecNeeds(s, coi, coi + {[]}, guard) - {[]} <= coi
  {
    hide Analysis, Proper, Lists, SpecChains, SpecNeeds;
    coi := seeds;
    ghost var every := seeds + SpecChains(s);
    PassBounds(s, args, guard, list, coi);
    var next, all := AnalyzeConeOfInfluence(s, args, guard, list, coi, {}, {});
    while next != coi
      invariant Analysis(s, args, guard, list, coi, {}, {}) == Some(next)
      invariant seeds - {[]} <= coi <= every && coi - {[]} <= next <= every && [] !in next
      invariant SpecNeeds(s, coi, next + {[]}, guard) - {[]} <= next
      decreases if [] in coi then 1 else 0, |every - coi|
    {
      SmallerRest(every, coi, next);
      coi := next;
      PassBounds(s, args, guard, list, coi);
      next, all := AnalyzeConeOfInfluence(s, args, guard, list, coi, {}, {});
    }
  }

  lemma SmallerRest(all: set<Chain>, coi: set<Chain>, next: set<Chain>)
    requires coi - {[]} <= next <= all && next != coi
    ensures [] in coi || |all - next| < |all - coi|
  {
    if [] !in coi {
      assert coi - {[]} == coi;
      var c :| c in next && c !in coi;
      SubsetSize(all - next, (all - coi) - {c});
    }
  }

  // ---------- what the analysis does not see

  const BEFORE := RecSet(Sym("st"), ["b"], Sym("v"))

  /** Stores `v` into a cell of the map `a`. */
  function Stores(v: Expr): Expr {
    RecSet(Sym("st1"), ["a"], MapSet(RecGet(Sym("st1"), "a"), Const(0), v))
  }

  function StoresAfter(v: Expr): Spec {
    Let("st1", BEFORE, Ret([], Stores(v)))
  }

  /** The value stored into a map is not followed: with `a` of interest, the analysis finds the same whatever is
      stored, and the write to `b` is left out of the slice.  The slice is closed if and only if what remains of the
      stored value reads neither `b` nor another field whose writes are left out. */
  lemma {:induction false} MapValuesAreMissed(v: Expr, guard: Guard, list: Listing)
    requires Lists(list) && Syms(v) <= {"st", "st1", "v"}
    ensures Proper(StoresAfter(v), {"st", "v"})
    ensures Analysis(StoresAfter(v), {"st", "v"}, guard, list, {["a"]}, {}, {}) == Some({["a"]})
    ensures var i := Slicing.Interest({["a"]}, {});
      && Slicing.HideWrite(i, StoresAfter(v)) == Let("st1", Sym("st"), Ret([], Stores(Slicing.Hide(i, v))))
      && (Slicing.Closed(i, StoresAfter(v)) <==> Slicing.Reads(Slicing.Hide(i, v)) !! {"b"} + Slicing.Hidden(i, v))
  {
    hide Slicing.Hide, Slicing.Closed, Slicing.HideWrite, Propagate, Analysis;
    MissedProper(v);
    MissedSlice(v);
    MissedAfter(v, guard);
    MissedBefore(guard);
    OneName(list, "st1");
    OneName(list, "st");
    MissedNodes(v);
    TwoSteps(StoresAfter(v), {"st", "v"}, guard, list, Node(Stores(v), []), Node(BEFORE, []), "st1", "st", {["a"]});
    ReportSame();
  }

  lemma TwoSteps(s: Spec, args: set<Name>, guard: Guard, list: Listing, last: Node, first: Node, x: Name, y: Name,
                 coi: set<Chain>)
    requires Proper(s, args) && Lists(list) && InitNodes(s, []) == [last] && list({x}) == [x] && list({y}) == [y]
    requires Propagate(last.expr, coi, {}, guard) == Found(coi, {x})
      && NextNodes(Sources(s, [], last.path), args, [x]) == Some([first])
    requires Propagate(first.expr, coi, {}, guard) == Found(coi, {y})
      && NextNodes(Sources(s, [], first.path), args, [y]) == Some([])
    ensures Analysis(s, args, guard, list, coi, {}, {}) == Some(Report(coi, {}, {}))
  {
    hide Proper, Lists, Work, Propagate, QueueOk, Sources, InitNodes, NextNodes, Weight, Depths, Analysis, Report;
    InitOk(s, args);
    var none: seq<Node> := [];
    assert [last] + none == [last] && [first] + none == [first] && none + [first] == [first] && none + none == none;
    WorkStep(s, args, guard, list, last, none, coi);
    WorkStep(s, args, guard, list, first, none, coi);
    WorkEnd(s, args, guard, list, coi);
    AnalysisIs(s, args, guard, list, coi, {}, {});
  }

  lemma ReportSame()
    ensures Report({["a"]}, {}, {}) == {["a"]}
  {
  }

  lemma {:induction false} MissedNodes(v: Expr)
    ensures InitNodes(StoresAfter(v), []) == [Node(Stores(v), [])]
    ensures NextNodes(Sources(StoresAfter(v), [], []), {"st", "v"}, ["st1"]) == Some([Node(BEFORE, [])])
    ensures NextNodes(Sources(StoresAfter(v), [], []), {"st", "v"}, ["st"]) == Some([])
  {
    var first := Node(BEFORE, []);
    assert [] + Head([]) == [];
    assert Sources(Ret([], Stores(v)), [], []) == map[];
    assert Sources(StoresAfter(v), [], []) == map["st1" := first];
    assert ["st1"][1..] == [] && ["st"][1..] == [] && [first] + [] == [first];
  }

  lemma {:induction false} MissedProper(v: Expr)
    requires Syms(v) <= {"st", "st1", "v"}
    ensures Proper(StoresAfter(v), {"st", "v"})
  {
    var cell := Stores(v).val;
    assert Syms(RecGet(Sym("st1"), "a")) == {"st1"} && Syms(Const(0)) == {};
    assert Syms(cell) == {"st1"} + Syms(v);
    assert Syms(BEFORE) == {"st", "v"} && Syms(Stores(v)) == {"st1"} + Syms(v);
    assert WellScoped(Ret([], Stores(v)), {"st", "v", "st1"});
    assert {"st", "v"} + {"st1"} == {"st", "v", "st1"};
  }

  lemma OneName(list: Listing, x: Name)
    requires Lists(list)
    ensures list({x}) == [x]
  {
    var l := list({x});
    assert x in l;
    forall i | 0 <= i < |l| ensures l[i] == x {
      assert l[i] in l;
    }
    NoDupLength(l, {x});
  }

  lemma {:induction false} MissedAfter(v: Expr, guard: Guard)
    ensures Propagate(Stores(v), {["a"]}, {}, guard) == Found({["a"]}, {"st1"})
  {
    var read := RecGet(Sym("st1"), "a");
    assert Access(read).chain == ["a"] by {
      assert ["a"] + [] == ["a"];
    }
    var trace: set<Chain> := {["a"]};
    IsThere(trace, ["a"]);
    assert Reverse(["a"]) == ["a"] by {
      assert ["a"][1..] == [];
    }
    assert {} + {["a"]} == trace;
    assert Propagate(Stores(v).val, {["a"]}, trace, guard) == Found({["a"]}, {});
    assert Propagate(Sym("st1"), {["a"]}, trace, guard) == Found({["a"]}, {"st1"});
  }

  lemma MissedBefore(guard: Guard)
    ensures Propagate(BEFORE, {["a"]}, {}, guard) == Found({["a"]}, {"st"})
  {
    assert Reverse(["b"]) == ["b"] by {
      assert ["b"][1..] == [];
    }
    forall i ensures !StandsAt(["a"], ["b"], i) {
      if StandsAt(["a"], ["b"], i) {
        FirstIsThere(["a"], ["b"], i);
      }
    }
  }

  lemma FirstIsThere(c: Chain, f: Chain, i: int)
    requires StandsAt(c, f, i) && f != []
    ensures f[0] in c
  {
    assert c[i..i + |f|][0] == c[i];
  }

  lemma IsThere(fields: set<Chain>, f: Chain)
    requires f in fields
    ensures HasSubfield(fields, f)
  {
    assert StandsAt(f, f, 0);
  }

  lemma {:induction false} MissedSlice(v: Expr)
    ensures var i := Slicing.Interest({["a"]}, {});
      && Slicing.HideWrite(i, StoresAfter(v)) == Let("st1", Sym("st"), Ret([], Stores(Slicing.Hide(i, v))))
      && (Slicing.Closed(i, StoresAfter(v)) <==> Slicing.Reads(Slicing.Hide(i, v)) !! {"b"} + Slicing.Hidden(i, v))
  {
    var i := Slicing.Interest({["a"]}, {});
    assert ["a"] in i.coi && i.Keeps("a") && !i.Keeps("b");
    assert !i.Hides(["a"]) && i.Hides(["b"]);
    StoresSlice(i, v);
    StoresSlice(i, Slicing.Hide(i, v));
    Slicing.HiddenIsNotKept(i, v);
    SliceParts(i, v);
    hide Slicing.Hide, Slicing.Reads, Slicing.Hidden, Slicing.HideWrite, Slicing.SpecReads, Slicing.HiddenFields;
    assert Slicing.SpecReads(Slicing.HideWrite(i, StoresAfter(v))) == {"a"} + Slicing.Reads(Slicing.Hide(i, v));
    assert Slicing.HiddenFields(i, StoresAfter(v)) == {"b"} + Slicing.Hidden(i, v);
  }

  lemma {:induction false} StoresSlice(i: Slicing.Interest, v: Expr)
    requires !i.Hides(["a"]) && i.Hides(["b"])
    ensures Slicing.Hide(i, Stores(v)) == Stores(Slicing.Hide(i, v)) && Slicing.Hide(i, BEFORE) == Sym("st")
    ensures Slicing.Hidden(i, BEFORE) == {"b"} && Slicing.Hidden(i, Stores(v)) == Slicing.Hidden(i, v)
    ensures Slicing.Reads(Stores(v)) == {"a"} + Slicing.Reads(v) && "st1" in Slicing.Names(Stores(v))
  {
    hide Slicing.Interest.Hides;
    var read := RecGet(Sym("st1"), "a");
    SymSlice(i, "st");
    SymSlice(i, "st1");
    FieldSlice(i, Sym("st1"), "a");
    CellSlice(i, read, v);
    WriteSlice(i, Sym("st1"), ["a"], MapSet(read, Const(0), v));
    WriteSlice(i, Sym("st"), ["b"], Sym("v"));
  }

  lemma SymSlice(i: Slicing.Interest, x: Name)
    ensures Slicing.Hide(i, Sym(x)) == Sym(x) && Slicing.Hidden(i, Sym(x)) == {} && Slicing.Reads(Sym(x)) == {}
    ensures Slicing.Names(Sym(x)) == {x}
  {
  }

  lemma FieldSlice(i: Slicing.Interest, r: Expr, f: Field)
    ensures Slicing.Hide(i, RecGet(r, f)) == RecGet(Slicing.Hide(i, r), f)
    ensures Slicing.Hidden(i, RecGet(r, f)) == Slicing.Hidden(i, r)
      && Slicing.Reads(RecGet(r, f)) == Slicing.Reads(r) + {f}
  {
  }

  /** The cell of a map. */
  lemma CellSlice(i: Slicing.Interest, arr: Expr, v: Expr)
    ensures Slicing.Hide(i, MapSet(arr, Const(0), v)) == MapSet(Slicing.Hide(i, arr), Const(0), Slicing.Hide(i, v))
    ensures Slicing.Hidden(i, MapSet(arr, Const(0), v)) == Slicing.Hidden(i, arr) + Slicing.Hidden(i, v)
    ensures Slicing.Reads(MapSet(arr, Const(0), v)) == Slicing.Reads(arr) + Slicing.Reads(v)
  {
    assert Slicing.Hide(i, Const(0)) == Const(0) && Slicing.Hidden(i, Const(0)) == {} && Slicing.Reads(Const(0)) == {};
  }

  /** The field of a record. */
  lemma WriteSlice(i: Slicing.Interest, r: Expr, path: seq<Field>, v: Expr)
    requires path != []
    ensures Slicing.Hide(i, RecSet(r, path, v)) ==
      if i.Hides(path) then Slicing.Hide(i, r) else RecSet(Slicing.Hide(i, r), path, Slicing.Hide(i, v))
    ensures Slicing.Hidden(i, RecSet(r, path, v)) ==
      Slicing.Hidden(i, r) + if i.Hides(path) then {path[|path| - 1]} else Slicing.Hidden(i, v)
    ensures Slicing.Reads(RecSet(r, path, v)) == Slicing.Reads(r) + Slicing.Reads(v)
    ensures Slicing.Names(r) <= Slicing.Names(RecSet(r, path, v))
  {
  }

  lemma {:induction false} SliceParts(i: Slicing.Interest, v: Expr)
    requires Slicing.Hide(i, BEFORE) == Sym("st") && "st1" in Slicing.Names(Slicing.Hide(i, Stores(v)))
    ensures Slicing.HideWrite(i, StoresAfter(v)) == Let("st1", Sym("st"), Ret([], Slicing.Hide(i, Stores(v))))
    ensures Slicing.SpecReads(Slicing.HideWrite(i, StoresAfter(v))) == Slicing.Reads(Slicing.Hide(i, Stores(v)))
    ensures Slicing.HiddenFields(i, StoresAfter(v)) == Slicing.Hidden(i, BEFORE) + Slicing.Hidden(i, Stores(v))
  {
    hide Slicing.Hide, Slicing.Reads, Slicing.Hidden, Slicing.Names;
    assert Slicing.HideAll(i, []) == [];
    SymSlice(i, "st");
    assert Slicing.HideWrite(i, Ret([], Stores(v))) == Ret([], Slicing.Hide(i, Stores(v)));
    assert "st1" in Slicing.Wanted(Ret([], Slicing.Hide(i, Stores(v))));
  }
}
