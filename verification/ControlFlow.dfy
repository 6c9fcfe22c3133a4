/** Turning an acyclic region of the control-flow graph into a tree, in place.

    A region is the part of the graph one step of the conversion works on: the whole function, or one
    loop between its preheader and its postheader, with every nested loop collapsed to the single edge
    from its preheader to its postheader.  The headers of the loop under work are "stops": edges may
    lead to them, but nothing is cloned or visited past them. */
module ControlFlow {

  type Block = nat   // the identity of a basic block
  type Inst = nat    // the identity of an instruction of the source function

  datatype Step = Toplevel(entry: Block) | Loop(preheader: Block, loopheader: Block, postheader: Block)

  /** A basic block: its instructions, the targets of its branch in operand order, and its position,
      counted from the end, in a topological order of the region.  The position is never looked at: it is
      there to say that the region is acyclic. */
  datatype Body = Body(code: seq<Inst>, succs: seq<Block>, rank: nat)

  type Graph = map<Block, Body>

  /** All executions of a block at once: its instructions, then one subtree for each branch target. */
  datatype Tree = Stop(header: Block) | Node(code: seq<Inst>, kids: seq<Tree>)

  function Stops(step: Step): set<Block> {
    match step
    case Toplevel(entry) => {entry}
    case Loop(pre, header, post) => {pre, header, post}
  }

  /** Where the depth-first walk of the step begins in earnest. */
  function Start(step: Step): Block {
    match step
    case Toplevel(entry) => entry
    case Loop(_, header, _) => header
  }

  ghost predicate Acyclic(g: Graph, stops: set<Block>) {
    forall b, i :: b in g && 0 <= i < |g[b].succs| ==>
         && g[b].succs[i] in g
         && (g[b].succs[i] !in stops ==> g[g[b].succs[i]].rank < g[b].rank)
  }

  ghost function Expand(g: Graph, stops: set<Block>, b: Block): Tree
    requires Acyclic(g, stops) && b in g
    decreases g[b].rank
  {
    Node(g[b].code, seq(|g[b].succs|, i requires 0 <= i < |g[b].succs| =>
      if g[b].succs[i] in stops then Stop(g[b].succs[i]) else Expand(g, stops, g[b].succs[i])))
  }

  ghost predicate Edge(g: Graph, u: Block, i: nat, w: Block) {
    u in g && i < |g[u].succs| && g[u].succs[i] == w
  }

  /** Some two edges lead to `w`. */
  ghost predicate Joined(g: Graph, w: Block) {
    exists u, i: nat, v, j: nat :: Edge(g, u, i, w) && Edge(g, v, j, w) && (u != v || i != j)
  }

  /** No two edges meet below `b`: what hangs there is a tree already. */
  ghost predicate Parted(g: Graph, stops: set<Block>, b: Block)
    requires Acyclic(g, stops) && b in g
    decreases g[b].rank
  {
    forall i :: 0 <= i < |g[b].succs| && g[b].succs[i] !in stops ==>
      !Joined(g, g[b].succs[i]) && Parted(g, stops, g[b].succs[i])
  }

  predicate TwoPredecessors(g: Graph, w: Block): (two: bool)
    ensures two <==> Joined(g, w)
  {
    var two := exists u, v :: u in g && v in g && TargetedTwice(g[u].succs, g[v].succs, u == v, w);
    assert two ==> Joined(g, w) by {
      if two {
        var u, v :| u in g && v in g && TargetedTwice(g[u].succs, g[v].succs, u == v, w);
        var i: nat, j: nat :| i < |g[u].succs| && j < |g[v].succs| && g[u].succs[i] == w && g[v].succs[j] == w
          && (u != v || i != j);
        assert Edge(g, u, i, w) && Edge(g, v, j, w);
      }
    }
    assert Joined(g, w) ==> two by {
      if Joined(g, w) {
        var u, i: nat, v, j: nat :| Edge(g, u, i, w) && Edge(g, v, j, w) && (u != v || i != j);
        assert TargetedTwice(g[u].succs, g[v].succs, u == v, w);
      }
    }
    two
  }

  predicate TargetedTwice(a: seq<Block>, b: seq<Block>, same: bool, w: Block) {
    exists i, j :: 0 <= i < |a| && 0 <= j < |b| && a[i] == w && b[j] == w && (!same || i != j)
  }

  /** `w` has exactly one incoming edge, and it leaves a block of `from`. */
  ghost predicate OwnedBy(g: Graph, w: Block, from: set<Block>) {
    && (exists u, i: nat :: Edge(g, u, i, w) && u in from)
    && forall u, i: nat, v, j: nat :: Edge(g, u, i, w) && Edge(g, v, j, w) ==> u == v && i == j
  }

  /** `h` folds `g'` onto `g`: it forgets which copy of a block one is in. */
  ghost predicate Folds(h: map<Block, Block>, g': Graph, g: Graph, stops: set<Block>) {
    && h.Keys == g'.Keys
    && forall b :: b in h ==>
        && h[b] in g
        && g'[b].code == g[h[b]].code
        && |g'[b].succs| == |g[h[b]].succs|
        && forall i :: 0 <= i < |g'[b].succs| ==>
             FoldsTo(h, g'[b].succs[i], g[h[b]].succs[i], stops)
  }

  ghost predicate FoldsTo(h: map<Block, Block>, s': Block, s: Block, stops: set<Block>) {
    if s' in stops then s == s' else s !in stops && s' in h && h[s'] == s
  }

  lemma {:induction false} ExpandFolds(h: map<Block, Block>, g': Graph, g: Graph, stops: set<Block>, b: Block)
    requires Acyclic(g', stops) && Acyclic(g, stops) && Folds(h, g', g, stops) && b in h
    ensures Expand(g', stops, b) == Expand(g, stops, h[b])
    decreases g'[b].rank
  {
    var t', t := Expand(g', stops, b), Expand(g, stops, h[b]);
    forall i | 0 <= i < |g'[b].succs| ensures t'.kids[i] == t.kids[i] {
      var s', s := g'[b].succs[i], g[h[b]].succs[i];
      assert FoldsTo(h, s', s, stops);
      if s' !in stops {
        ExpandFolds(h, g', g, stops, s');
      }
    }
    assert t'.kids == t.kids;
  }

  /** Number of blocks a fully split copy of the tree needs. */
  function Nodes(t: Tree): nat {
    match t
    case Stop(_) => 0
    case Node(_, kids) => 1 + NodesOf(kids)
  }

  function NodesOf(ts: seq<Tree>): nat {
    if ts == [] then 0 else NodesOf(ts[..|ts| - 1]) + Nodes(ts[|ts| - 1])
  }

  ghost predicate Same(g': Graph, g: Graph, stops: set<Block>)
    requires Acyclic(g, stops) && Acyclic(g', stops)
  {
    g.Keys <= g'.Keys && forall b :: b in g ==> Expand(g', stops, b) == Expand(g, stops, b)
  }


  function Remap(s: seq<Block>, vm: map<Block, Block>): (r: seq<Block>)
    ensures |r| == |s| && forall i :: 0 <= i < |s| ==> r[i] == if s[i] in vm then vm[s[i]] else s[i]
  {
    seq(|s|, i requires 0 <= i < |s| => if s[i] in vm then vm[s[i]] else s[i])
  }

  ghost predicate Injective(vm: map<Block, Block>) {
    forall a, b :: a in vm && b in vm && vm[a] == vm[b] ==> a == b
  }

  /** Every one of these branch targets that is not a stop has a copy. */
  ghost predicate HaveCopies(targets: seq<Block>, stops: set<Block>, vm: map<Block, Block>) {
    forall s :: s in targets && s !in stops ==> s in vm
  }

  lemma HaveCopiesStep(targets: seq<Block>, i: nat, stops: set<Block>, vm: map<Block, Block>, vm': map<Block, Block>)
    requires i < |targets| && HaveCopies(targets[..i], stops, vm) && vm.Keys <= vm'.Keys
    requires targets[i] in stops || targets[i] in vm'
    ensures HaveCopies(targets[..i + 1], stops, vm')
  {
    assert targets[..i + 1] == targets[..i] + [targets[i]];
  }

  ghost predicate SuccsCopied(g: Graph, stops: set<Block>, vm: map<Block, Block>, b: Block)
    requires b in g
  {
    HaveCopies(g[b].succs, stops, vm)
  }

  /** The blocks in `vm` have got copies; `root` is the copy of `ori` and was there before. */
  ghost predicate Copies(g: Graph, g': Graph, stops: set<Block>, vm: map<Block, Block>, root: Block, ori: Block) {
    && g'.Keys == g.Keys + vm.Values
    && ori in vm && vm[ori] == root && Injective(vm) && root in g && root !in vm
    && vm.Keys <= g.Keys - stops
    && (forall b :: b in vm ==> Copied(g, g', vm, ori, b))
    && (forall b :: b in g ==> Kept(g, g', root, b))
  }

  ghost predicate Copied(g: Graph, g': Graph, vm: map<Block, Block>, ori: Block, b: Block)
    requires b in vm && b in g && ori in g
  {
    && (b != ori ==> vm[b] !in g)
    && vm[b] in g'
    && g'[vm[b]].code == g[b].code && g'[vm[b]].rank == g[b].rank <= g[ori].rank
  }

  ghost predicate Kept(g: Graph, g': Graph, root: Block, b: Block)
    requires b in g
  {
    b in g' && if b == root then g'[b] == g[b].(succs := g'[b].succs) else g'[b] == g[b]
  }

  /** The copies are wired to one another: a whole subgraph has been duplicated. */
  ghost predicate Duplicated(g: Graph, g': Graph, stops: set<Block>, vm: map<Block, Block>, root: Block, ori: Block) {
    && Copies(g, g', stops, vm, root, ori)
    && forall b :: b in vm ==> SuccsCopied(g, stops, vm, b) && g'[vm[b]].succs == Remap(g[b].succs, vm)
  }

  /** Copies made so far, still pointing at the blocks the originals point at. */
  ghost predicate Copying(g: Graph, g': Graph, stops: set<Block>, vm: map<Block, Block>, root: Block, ori: Block) {
    && Copies(g, g', stops, vm, root, ori)
    && forall b :: b in vm ==> vm[b] in g' && g'[vm[b]].succs == g[b].succs
  }

  /** The search has finished with every copied block except those in the queue and `pending`. */
  ghost predicate Searched(g: Graph, stops: set<Block>, vm: map<Block, Block>, root: Block, ori: Block, q: seq<Block>,
                           pending: set<Block>)
    requires vm.Keys <= g.Keys
  {
    && (forall x :: x in q ==> x == root || (x in vm && x != ori))
    && (forall b :: b in vm && b !in pending ==> (if b == ori then root else b) in q || SuccsCopied(g, stops, vm, b))
  }

  lemma SearchPops(g: Graph, stops: set<Block>, vm: map<Block, Block>, root: Block, ori: Block, q: seq<Block>)
    requires vm.Keys <= g.Keys && ori in vm && root !in vm && q != [] && Searched(g, stops, vm, root, ori, q, {})
    ensures Searched(g, stops, vm, root, ori, q[1..], {if q[0] == root then ori else q[0]})
  {
    assert q == [q[0]] + q[1..];
  }

  lemma SearchGrows(g: Graph, stops: set<Block>, vm: map<Block, Block>, root: Block, ori: Block, q: seq<Block>,
                    from: Block, s: Block, c: Block)
    requires vm.Keys <= g.Keys && s in g && s !in vm && ori in vm
    requires Searched(g, stops, vm, root, ori, q, {from})
    ensures Searched(g, stops, vm[s := c], root, ori, q + [s], {from})
  {
    assert s in q + [s];
  }

  lemma SearchClosed(g: Graph, stops: set<Block>, vm: map<Block, Block>, root: Block, ori: Block, q: seq<Block>,
                     from: Block)
    requires vm.Keys <= g.Keys && from in vm
    requires Searched(g, stops, vm, root, ori, q, {from}) && SuccsCopied(g, stops, vm, from)
    ensures Searched(g, stops, vm, root, ori, q, {})
  {
  }

  lemma SmallerDomain(vm: map<Block, Block>, s: set<Block>)
    requires vm.Keys <= s
    ensures |vm| <= |s|
  {
    var rest := s - vm.Keys;
    assert s == vm.Keys + rest && |vm.Keys| == |vm|;
  }

  ghost predicate Copyable(g: Graph, stops: set<Block>, root: Block, ori: Block, targets: seq<Block>) {
    ori in g && forall s :: s in targets ==> s in g && s != root && (s !in stops ==> g[s].rank <= g[ori].rank)
  }

  lemma CopyableTargets(g: Graph, stops: set<Block>, root: Block, ori: Block, from: Block)
    requires Acyclic(g, stops) && from in g && ori in g && g[from].rank <= g[ori].rank
    requires forall u, i: nat :: !Edge(g, u, i, root)
    ensures Copyable(g, stops, root, ori, g[from].succs)
  {
    forall s | s in g[from].succs ensures s != root {
      var i: nat :| i < |g[from].succs| && g[from].succs[i] == s;
      assert Edge(g, from, i, s);
    }
  }

  lemma ValuesGrow(vm: map<Block, Block>, s: Block, c: Block)
    requires s !in vm
    ensures vm[s := c].Values == vm.Values + {c}
  {
    var vm' := vm[s := c];
    assert vm'[s] == c;
    assert forall b :: b in vm ==> vm'[b] == vm[b];
  }

  lemma CopyOne(g: Graph, g1: Graph, g2: Graph, stops: set<Block>, vm: map<Block, Block>, root: Block, ori: Block,
                s: Block, c: Block)
    requires Copying(g, g1, stops, vm, root, ori)
    requires s in g && s !in vm && s !in stops && s != root && c !in g1 && g[s].rank <= g[ori].rank
    requires g2 == g1[c := g1[s]]
    ensures Copying(g, g2, stops, vm[s := c], root, ori)
  {
    ValuesGrow(vm, s, c);
    forall b | b in vm[s := c] ensures Copied(g, g2, vm[s := c], ori, b) && g2[vm[s := c][b]].succs == g[b].succs {
      if b != s { assert Copied(g, g1, vm, ori, b); }
    }
    assert Kept(g, g1, root, s);
    assert g2.Keys == g1.Keys + {c} == g.Keys + vm[s := c].Values;
    forall b | b in g ensures Kept(g, g2, root, b) {
      assert Kept(g, g1, root, b);
    }
  }

  /** `remapInstructionsInBlocks`: the branches of the copies are redirected to copies. */
  function RemapBlocks(g: Graph, vm: map<Block, Block>): (r: Graph)
    ensures r.Keys == g.Keys
    ensures forall b :: b in g ==> r[b] == if b in vm.Values then g[b].(succs := Remap(g[b].succs, vm)) else g[b]
  {
    map b | b in g :: if b in vm.Values then g[b].(succs := Remap(g[b].succs, vm)) else g[b]
  }

  lemma Redirect(g: Graph, g1: Graph, g2: Graph, stops: set<Block>, vm: map<Block, Block>, root: Block, ori: Block)
    requires Acyclic(g, stops) && stops <= g.Keys && root !in stops && Copying(g, g1, stops, vm, root, ori)
    requires forall b :: b in vm ==> SuccsCopied(g, stops, vm, b)
    requires g2 == RemapBlocks(g1, vm)
    ensures Duplicated(g, g2, stops, vm, root, ori)
    ensures Acyclic(g2, stops)
  {
    assert forall b :: b in vm ==> vm[b] in vm.Values;
    assert forall v :: v in vm.Values ==> exists b :: b in vm && vm[b] == v;
    forall b, i | b in g2 && 0 <= i < |g2[b].succs|
      ensures g2[b].succs[i] in g2 && (g2[b].succs[i] !in stops ==> g2[g2[b].succs[i]].rank < g2[b].rank)
    {
      if b in vm.Values {
        var o :| o in vm && vm[o] == b;
        var s := g[o].succs[i];
        assert s in g;
        if s in vm { assert g2[b].succs[i] == vm[s]; }
      }
    }
  }

  /** No edge leads into `own` from outside. */
  ghost predicate Sealed(g: Graph, stops: set<Block>, own: set<Block>) {
    forall u, i: nat, w :: Edge(g, u, i, w) && w in own && w !in stops ==> u in own
  }

  ghost predicate TargetsWithin(g: Graph, stops: set<Block>, u: Block, within: set<Block>) {
    forall i: nat, w :: Edge(g, u, i, w) && w !in stops ==> w in within
  }

  ghost predicate TargetsOutside(g: Graph, stops: set<Block>, u: Block, own: set<Block>) {
    forall i: nat, w :: Edge(g, u, i, w) && w !in stops ==> w !in own
  }

  ghost predicate OnlyEdge(g: Graph, u: Block, i: nat, w: Block) {
    Edge(g, u, i, w) && forall v, j: nat :: Edge(g, v, j, w) ==> v == u && j == i
  }

  /** What hangs below `bb`: a tree, every block of it entered by one edge only. */
  ghost predicate TreeBelow(g: Graph, stops: set<Block>, bb: Block, tree: set<Block>) {
    && tree <= g.Keys && tree !! stops
    && (forall t :: t in tree ==> OwnedBy(g, t, tree + {bb}))
    && (forall u :: u in tree ==> TargetsWithin(g, stops, u, tree))
  }

  /** The first `i` branch targets of `bb` have been split off; `own` are blocks finished with earlier. */
  ghost predicate Progress(g: Graph, stops: set<Block>, own: set<Block>, bb: Block, tree: set<Block>, i: nat) {
    && bb in own && bb in g && tree !! own
    && TreeBelow(g, stops, bb, tree)
    && Sealed(g, stops, own + tree)
    && (forall j: nat, w :: Edge(g, bb, j, w) && w !in stops ==> if j < i then w in tree else w !in own + tree)
  }

  /** `setSuccessor`. */
  function Retarget(g: Graph, bb: Block, i: nat, target: Block): Graph
    requires bb in g && i < |g[bb].succs|
  {
    var targets: seq<Block> := g[bb].succs[i := target];
    g[bb := g[bb].(succs := targets)]
  }

  /** `g2` is `g` with a second copy, given by `vm`, of everything reachable from the domain of `vm`. */
  ghost predicate Doubled(g: Graph, g2: Graph, stops: set<Block>, vm: map<Block, Block>) {
    && g2.Keys == g.Keys + vm.Values && vm.Keys <= g.Keys - stops
    && (forall b :: b in g ==> g2[b] == g[b])
    && (forall b :: b in vm ==> CopyOf(g, g2, stops, vm, b))
    && Injective(vm)
  }

  ghost predicate CopyOf(g: Graph, g2: Graph, stops: set<Block>, vm: map<Block, Block>, b: Block)
    requires b in vm && b in g
  {
    && vm[b] !in g && vm[b] in g2 && HaveCopies(g[b].succs, stops, vm)
    && g2[vm[b]] == g[b].(succs := Remap(g[b].succs, vm))
  }

  lemma DuplicatedDoubles(g: Graph, g1: Graph, g2: Graph, stops: set<Block>, vm: map<Block, Block>, root: Block,
                          ori: Block)
    requires Acyclic(g, stops) && root !in g && stops <= g.Keys && ori in g
    requires g1 == g[root := g[ori]]
    requires Duplicated(g1, g2, stops, vm, root, ori)
    ensures Doubled(g, g2, stops, vm)
  {
    assert vm[ori] in vm.Values;
    forall b | b in vm ensures b in g && CopyOf(g, g2, stops, vm, b) {
      assert SuccsCopied(g1, stops, vm, b);
      assert vm[b] in vm.Values;
    }
  }

  lemma RetargetAcyclic(g: Graph, g2: Graph, stops: set<Block>, bb: Block, i: nat, vm: map<Block, Block>, ori: Block)
    requires Acyclic(g, stops) && Acyclic(g2, stops) && Doubled(g, g2, stops, vm) && Edge(g, bb, i, ori) && ori in vm
    ensures Edge(g2, bb, i, ori) && Acyclic(Retarget(g2, bb, i, vm[ori]), stops)
  {
    var g3 := Retarget(g2, bb, i, vm[ori]);
    assert CopyOf(g, g2, stops, vm, ori);
    forall b, k | b in g3 && 0 <= k < |g3[b].succs|
      ensures g3[b].succs[k] in g3 && (g3[b].succs[k] !in stops ==> g3[g3[b].succs[k]].rank < g3[b].rank)
    {
      assert g2[b].succs[k] in g2;
    }
  }

  ghost function FoldMap(g: Graph, g3: Graph, vm: map<Block, Block>): (h: map<Block, Block>)
    requires g3.Keys == g.Keys + vm.Values
    ensures h.Keys == g3.Keys
    ensures forall x :: x in h ==> if x in g then h[x] == x else h[x] in vm && vm[h[x]] == x
  {
    map x | x in g3 :: if x in g then x else Original(vm, x)
  }

  lemma CopyFolds(g: Graph, g2: Graph, stops: set<Block>, vm: map<Block, Block>, h: map<Block, Block>, b: Block, k: nat)
    requires Acyclic(g, stops) && Doubled(g, g2, stops, vm) && h == FoldMap(g, g2, vm) && stops <= g.Keys
    requires b in vm && k < |g[b].succs|
    ensures vm[b] in g2 && |g2[vm[b]].succs| == |g[b].succs| && FoldsTo(h, g2[vm[b]].succs[k], g[b].succs[k], stops)
  {
    assert CopyOf(g, g2, stops, vm, b);
    var s := g[b].succs[k];
    assert s in g && s in g[b].succs;
    if s in vm {
      assert CopyOf(g, g2, stops, vm, s);
    }
  }

  lemma RetargetFolds(g: Graph, g2: Graph, stops: set<Block>, bb: Block, i: nat, vm: map<Block, Block>, ori: Block)
    requires Acyclic(g, stops) && Doubled(g, g2, stops, vm) && Edge(g, bb, i, ori) && ori in vm && stops <= g.Keys
    ensures Edge(g2, bb, i, ori) && Folds(FoldMap(g, g2, vm), Retarget(g2, bb, i, vm[ori]), g, stops)
  {
    var g3, h := Retarget(g2, bb, i, vm[ori]), FoldMap(g, g2, vm);
    assert CopyOf(g, g2, stops, vm, ori);
    forall b | b in h
      ensures g3[b].code == g[h[b]].code && |g3[b].succs| == |g[h[b]].succs|
      ensures forall k :: 0 <= k < |g3[b].succs| ==> FoldsTo(h, g3[b].succs[k], g[h[b]].succs[k], stops)
    {
      if b !in g {
        assert CopyOf(g, g2, stops, vm, h[b]);
        forall k | 0 <= k < |g3[b].succs| ensures FoldsTo(h, g3[b].succs[k], g[h[b]].succs[k], stops) {
          CopyFolds(g, g2, stops, vm, h, h[b], k);
        }
      }
    }
  }

  lemma RetargetSame(g: Graph, g2: Graph, stops: set<Block>, bb: Block, i: nat, vm: map<Block, Block>, ori: Block)
    requires Acyclic(g, stops) && Doubled(g, g2, stops, vm) && Edge(g, bb, i, ori) && ori in vm && stops <= g.Keys
    requires Edge(g2, bb, i, ori) && Acyclic(Retarget(g2, bb, i, vm[ori]), stops)
    ensures Same(Retarget(g2, bb, i, vm[ori]), g, stops)
  {
    RetargetFolds(g, g2, stops, bb, i, vm, ori);
    forall b | b in g ensures Expand(Retarget(g2, bb, i, vm[ori]), stops, b) == Expand(g, stops, b) {
      ExpandFolds(FoldMap(g, g2, vm), Retarget(g2, bb, i, vm[ori]), g, stops, b);
    }
  }

  ghost function Original(vm: map<Block, Block>, c: Block): (o: Block)
    requires c in vm.Values
    ensures o in vm && vm[o] == c
  {
    var o :| o in vm && vm[o] == c; o
  }

  /** Edges of the copies lead to copies of blocks properly below `ori`, or to stops. */
  lemma CopyEdges(g: Graph, g2: Graph, stops: set<Block>, vm: map<Block, Block>, ori: Block, u: Block, i: nat, w: Block)
    requires Acyclic(g, stops) && stops <= g.Keys && Doubled(g, g2, stops, vm) && ori in vm
    requires forall b :: b in vm ==> g[b].rank <= g[ori].rank
    requires Edge(g2, u, i, w) && u !in g
    ensures w in stops || (w !in g && w != vm[ori])
  {
    var b := Original(vm, u);
    assert CopyOf(g, g2, stops, vm, b);
    var s := g[b].succs[i];
    assert s in g[b].succs && s in g;
    if s !in stops {
      assert CopyOf(g, g2, stops, vm, s);
      assert s != ori;
    }
  }

  lemma RetargetProgress(g: Graph, g2: Graph, stops: set<Block>, own: set<Block>, bb: Block, tree: set<Block>, i: nat,
                         vm: map<Block, Block>, ori: Block)
    requires Acyclic(g, stops) && stops <= g.Keys && Doubled(g, g2, stops, vm) && Edge(g, bb, i, ori) && ori in vm
    requires forall b :: b in vm ==> g[b].rank <= g[ori].rank
    requires own <= g.Keys && Progress(g, stops, own, bb, tree, i)
    ensures Edge(g2, bb, i, ori)
    ensures var g3 := Retarget(g2, bb, i, vm[ori]);
      Progress(g3, stops, own, bb, tree, i) && OnlyEdge(g3, bb, i, vm[ori])
  {
    var root, g3 := vm[ori], Retarget(g2, bb, i, vm[ori]);
    assert CopyOf(g, g2, stops, vm, ori);
    // what edges of the new graph are: old ones, the one to the copy, and those of the copies
    forall u, j: nat, w | Edge(g3, u, j, w)
      ensures if u !in g then w in stops || (w !in g && w != root)
              else if u == bb && j == i then w == root else Edge(g, u, j, w)
    {
      if u !in g {
        assert Edge(g2, u, j, w);
        CopyEdges(g, g2, stops, vm, ori, u, j, w);
      }
    }
    assert forall u, j: nat, w :: Edge(g, u, j, w) && (u != bb || j != i) ==> Edge(g3, u, j, w);
    forall t | t in tree ensures OwnedBy(g3, t, tree + {bb}) {
      assert OwnedBy(g, t, tree + {bb});
      var u, j: nat :| Edge(g, u, j, t) && u in tree + {bb};
      assert u != bb || j != i;
      assert Edge(g3, u, j, t);
    }
  }

  /** A target entered by one edge only, and not yet in the tree, can be descended into. */
  lemma Descend(g: Graph, stops: set<Block>, own: set<Block>, bb: Block, tree: set<Block>, i: nat, s: Block)
    requires Acyclic(g, stops) && Progress(g, stops, own, bb, tree, i) && OnlyEdge(g, bb, i, s) && s !in stops
    ensures Sealed(g, stops, own + tree + {s}) && TargetsOutside(g, stops, s, own + tree + {s})
  {
    assert s !in own + tree;
    forall u, j: nat, w | Edge(g, u, j, w) && w in own + tree + {s} && w !in stops ensures u in own + tree + {s} {
      if w != s { assert w in own + tree; }
    }
    forall j: nat, w | Edge(g, s, j, w) && w !in stops ensures w !in own + tree + {s} {
      if w in own + tree { assert false; }
    }
  }

  lemma SkipStop(g: Graph, stops: set<Block>, own: set<Block>, bb: Block, tree: set<Block>, i: nat, s: Block)
    requires Progress(g, stops, own, bb, tree, i) && Edge(g, bb, i, s) && s in stops
    ensures Progress(g, stops, own, bb, tree, i + 1)
  {
  }

  /** The subtree below `s` joins the tree. */
  lemma Join(g: Graph, g': Graph, stops: set<Block>, own: set<Block>, bb: Block, tree: set<Block>, i: nat, s: Block,
             sub: set<Block>)
    requires Progress(g, stops, own, bb, tree, i) && OnlyEdge(g, bb, i, s) && s !in stops && s in g'
    requires g.Keys <= g'.Keys && own <= g.Keys
    requires var own' := own + tree + {s};
      && sub !! own' && TreeBelow(g', stops, s, sub) && TargetsWithin(g', stops, s, sub)
      && Sealed(g', stops, own')
      && forall x :: x in own' && x != s ==> g'[x].succs == g[x].succs
    ensures Progress(g', stops, own, bb, tree + {s} + sub, i + 1)
  {
    var own', tree' := own + tree + {s}, tree + {s} + sub;
    assert s !in own + tree;
    forall u, j: nat, w | Edge(g', u, j, w) && w in own' && w !in stops
      ensures u in own' && u != s && Edge(g, u, j, w) {
      assert u in own';
    }
    forall u, j: nat, w | Edge(g', u, j, w) && w in sub && w !in stops ensures u in sub + {s} {
      assert OwnedBy(g', w, sub + {s});
    }
    assert own + tree' == own' + sub;
    assert Sealed(g', stops, own + tree');
    forall t | t in tree' ensures OwnedBy(g', t, tree' + {bb}) {
      if t in tree {
        assert OwnedBy(g, t, tree + {bb});
        var u, j: nat :| Edge(g, u, j, t) && u in tree + {bb};
        assert Edge(g', u, j, t);
      } else if t == s {
        assert Edge(g', bb, i, s);
      } else {
        assert OwnedBy(g', t, sub + {s});
      }
    }
    forall u | u in tree' ensures TargetsWithin(g', stops, u, tree') {
      if u in tree {
        assert TargetsWithin(g, stops, u, tree);
        assert forall j: nat, w :: Edge(g', u, j, w) ==> Edge(g, u, j, w);
      }
    }
    forall j: nat, w | Edge(g', bb, j, w) && w !in stops ensures if j < i + 1 then w in tree' else w !in own + tree' {
      assert Edge(g, bb, j, w);
      if j > i {
        assert w != s;
      }
    }
  }

  lemma SplitStep(g: Graph, g2: Graph, stops: set<Block>, own: set<Block>, bb: Block, tree: set<Block>, i: nat,
                  vm: map<Block, Block>, ori: Block)
    requires Acyclic(g, stops) && Acyclic(g2, stops) && stops <= g.Keys && Edge(g, bb, i, ori) && ori in vm
    requires Doubled(g, g2, stops, vm) && forall b :: b in vm ==> g[b].rank <= g[ori].rank
    requires own <= g.Keys && Progress(g, stops, own, bb, tree, i)
    ensures Edge(g2, bb, i, ori)
    ensures SplitOff(g, Retarget(g2, bb, i, vm[ori]), stops, own, bb, tree, i, vm[ori])
  {
    assert CopyOf(g, g2, stops, vm, ori);
    RetargetProgress(g, g2, stops, own, bb, tree, i, vm, ori);
    RetargetAcyclic(g, g2, stops, bb, i, vm, ori);
    RetargetSame(g, g2, stops, bb, i, vm, ori);
  }

  /** Edge `i` of `bb` leads to `s`, which nothing else leads to; apart from that `g'` means what `g` means. */
  ghost predicate SplitOff(g: Graph, g': Graph, stops: set<Block>, own: set<Block>, bb: Block, tree: set<Block>,
                           i: nat, s: Block) {
    && Acyclic(g, stops) && Acyclic(g', stops) && Same(g', g, stops)
    && Progress(g', stops, own, bb, tree, i) && Edge(g', bb, i, s) && (s !in stops ==> OnlyEdge(g', bb, i, s))
    && bb in g && |g'[bb].succs| == |g[bb].succs|
    && (forall x :: x in own && x != bb && x in g ==> g'[x].succs == g[x].succs)
    && (forall x :: x in g ==> g'[x].rank == g[x].rank)
  }

  lemma StaysOff(g: Graph, stops: set<Block>, own: set<Block>, bb: Block, tree: set<Block>, i: nat)
    requires Acyclic(g, stops) && Progress(g, stops, own, bb, tree, i) && i < |g[bb].succs|
    requires g[bb].succs[i] in stops || !Joined(g, g[bb].succs[i])
    ensures SplitOff(g, g, stops, own, bb, tree, i, g[bb].succs[i])
  {
    assert Edge(g, bb, i, g[bb].succs[i]);
  }

  /** Everything below `bb` has become a tree, and no block has changed its meaning. */
  ghost predicate SplitBelow(g: Graph, g': Graph, stops: set<Block>, own: set<Block>, bb: Block, tree: set<Block>) {
    && Acyclic(g, stops) && Acyclic(g', stops) && Same(g', g, stops)
    && tree !! own && TreeBelow(g', stops, bb, tree) && TargetsWithin(g', stops, bb, tree)
    && Sealed(g', stops, own)
    && Framed(g, g', own - {bb})
    && bb in g && |tree| + 1 == Nodes(Expand(g, stops, bb))
  }

  /** Nothing about the blocks `own` has changed, and no block has changed its rank. */
  ghost predicate Framed(g: Graph, g': Graph, own: set<Block>) {
    && (forall x :: x in own ==> x in g && x in g' && g'[x].succs == g[x].succs)
    && (forall x :: x in g ==> x in g' && g'[x].rank == g[x].rank)
  }

  /** The invariant of the loop over the targets of `bb`, from the graph `g0` at its start. */
  ghost predicate Splitting(g0: Graph, g: Graph, stops: set<Block>, own: set<Block>, bb: Block, tree: set<Block>,
                            i: nat) {
    && Acyclic(g0, stops) && Acyclic(g, stops) && Same(g, g0, stops)
    && own <= g.Keys && Progress(g, stops, own, bb, tree, i)
    && Framed(g0, g, own - {bb})
    && bb in g0 && |g[bb].succs| == |g0[bb].succs| && i <= |g[bb].succs|
    && |tree| == NodesOf(Expand(g0, stops, bb).kids[..i])
  }

  lemma SubtreeCounted(g0: Graph, g: Graph, stops: set<Block>, bb: Block, i: nat, s: Block)
    requires Acyclic(g0, stops) && Acyclic(g, stops) && Same(g, g0, stops) && bb in g0 && Edge(g, bb, i, s)
    ensures var kids := Expand(g0, stops, bb).kids;
      && |kids| == |g[bb].succs|
      && NodesOf(kids[..i + 1]) == NodesOf(kids[..i]) + (if s in stops then 0 else Nodes(Expand(g, stops, s)))
  {
    var kids := Expand(g0, stops, bb).kids;
    assert Expand(g, stops, bb).kids == kids;
    assert kids[..i + 1][..i] == kids[..i];
  }

  lemma SameTransitive(g2: Graph, g1: Graph, g0: Graph, stops: set<Block>)
    requires Acyclic(g0, stops) && Acyclic(g1, stops) && Acyclic(g2, stops) && Same(g2, g1, stops)
      && Same(g1, g0, stops)
    ensures Same(g2, g0, stops)
  {
  }

  lemma SplittingGoesOn(g0: Graph, gi: Graph, g: Graph, stops: set<Block>, own: set<Block>, bb: Block,
                        tree: set<Block>, i: nat, s: Block)
    requires Splitting(g0, gi, stops, own, bb, tree, i) && SplitOff(gi, g, stops, own, bb, tree, i, s)
    ensures Splitting(g0, g, stops, own, bb, tree, i)
  {
    SameTransitive(g, gi, g0, stops);
  }

  lemma SplittingSkips(g0: Graph, g: Graph, stops: set<Block>, own: set<Block>, bb: Block, tree: set<Block>, i: nat,
                       s: Block)
    requires Splitting(g0, g, stops, own, bb, tree, i) && Edge(g, bb, i, s) && s in stops
    ensures Splitting(g0, g, stops, own, bb, tree, i + 1)
  {
    SubtreeCounted(g0, g, stops, bb, i, s);
    SkipStop(g, stops, own, bb, tree, i, s);
  }

  lemma FramedTwice(g0: Graph, g: Graph, g': Graph, own: set<Block>, own': set<Block>)
    requires Framed(g0, g, own) && Framed(g, g', own') && own <= own'
    ensures Framed(g0, g', own)
  {
  }

  lemma JoinCounts(tree: set<Block>, s: Block, sub: set<Block>)
    requires s !in tree && s !in sub && tree !! sub
    ensures |tree + {s} + sub| == |tree| + 1 + |sub|
  {
    assert |tree + {s} + sub| == |tree + {s}| + |sub|;
  }

  lemma SplittingJoins(g0: Graph, g: Graph, g': Graph, stops: set<Block>, own: set<Block>, bb: Block,
                       tree: set<Block>, i: nat, s: Block, sub: set<Block>)
    requires Splitting(g0, g, stops, own, bb, tree, i) && OnlyEdge(g, bb, i, s) && s !in stops
    requires SplitBelow(g, g', stops, own + tree + {s}, s, sub)
    ensures Splitting(g0, g', stops, own, bb, tree + {s} + sub, i + 1)
  {
    hide Expand, NodesOf, Nodes;
    SubtreeCounted(g0, g, stops, bb, i, s);
    Join(g, g', stops, own, bb, tree, i, s, sub);
    SameTransitive(g', g, g0, stops);
    FramedTwice(g0, g, g', own - {bb}, own + tree + {s} - {s});
    JoinCounts(tree, s, sub);
  }

  lemma SplittingEnds(g0: Graph, g: Graph, stops: set<Block>, own: set<Block>, bb: Block, tree: set<Block>)
    requires bb in g0 && Splitting(g0, g, stops, own, bb, tree, |g0[bb].succs|)
    ensures SplitBelow(g0, g, stops, own, bb, tree)
  {
    var kids := Expand(g0, stops, bb).kids;
    assert kids[..|g0[bb].succs|] == kids;
    forall u, i: nat, w | Edge(g, u, i, w) && w in own && w !in stops ensures u in own {
      assert u in own + tree;
    }
  }

  /** How an execution of a region ends, with all the instructions it went through. */
  datatype Outcome = Returned(trace: seq<Inst>) | Reached(header: Block, trace: seq<Inst>)

  /** Decides every branch, knowing the instructions executed so far. */
  type Oracle = seq<Inst> -> nat

  function Run(g: Graph, stops: set<Block>, b: Block, oracle: Oracle, past: seq<Inst>): Outcome
    requires Acyclic(g, stops) && b in g
    decreases g[b].rank
  {
    var now := past + g[b].code;
    if g[b].succs == [] then Returned(now)
    else
      var s := g[b].succs[oracle(now) % |g[b].succs|];
      if s in stops then Reached(s, now) else Run(g, stops, s, oracle, now)
  }

  function Walk(t: Tree, oracle: Oracle, past: seq<Inst>): Outcome {
    match t
    case Stop(h) => Reached(h, past)
    case Node(code, kids) =>
      if kids == [] then Returned(past + code)
      else Walk(kids[oracle(past + code) % |kids|], oracle, past + code)
  }

  lemma {:induction false} RunIsWalk(g: Graph, stops: set<Block>, b: Block, oracle: Oracle, past: seq<Inst>)
    requires Acyclic(g, stops) && b in g
    ensures Run(g, stops, b, oracle, past) == Walk(Expand(g, stops, b), oracle, past)
    decreases g[b].rank
  {
    if g[b].succs != [] {
      var now := past + g[b].code;
      var i := oracle(now) % |g[b].succs|;
      if g[b].succs[i] !in stops {
        RunIsWalk(g, stops, g[b].succs[i], oracle, now);
      }
    }
  }

  /** A path of blocks between the stops, one edge after the other. */
  ghost predicate Path(g: Graph, stops: set<Block>, b: Block, p: seq<Block>)
    decreases |p|
  {
    p == [] || ((exists i: nat :: Edge(g, b, i, p[0])) && p[0] !in stops && Path(g, stops, p[0], p[1..]))
  }

  /** Splitting the region below `bb`: no execution changes, whatever the branches decide, and no two
      edges of what can be reached meet before a stop.  The price is the size of the unfolded region. */
  lemma {:induction false} SplitIsFaithful(g: Graph, g': Graph, stops: set<Block>, own: set<Block>, bb: Block,
                                           tree: set<Block>, oracle: Oracle, past: seq<Inst>)
    requires SplitBelow(g, g', stops, own, bb, tree)
    ensures bb in g' && Run(g', stops, bb, oracle, past) == Run(g, stops, bb, oracle, past)
    ensures forall p :: Path(g', stops, bb, p) ==> forall w :: w in p ==> w in tree && OwnedBy(g', w, tree + {bb})
  {
    RunIsWalk(g, stops, bb, oracle, past);
    RunIsWalk(g', stops, bb, oracle, past);
    forall p | Path(g', stops, bb, p) ensures forall w :: w in p ==> w in tree {
      PathInTree(g', stops, bb, tree, bb, p);
    }
  }

  lemma {:induction false} PathInTree(g: Graph, stops: set<Block>, bb: Block, tree: set<Block>, b: Block, p: seq<Block>)
    requires TreeBelow(g, stops, bb, tree) && TargetsWithin(g, stops, bb, tree) && (b == bb || b in tree)
    requires Path(g, stops, b, p)
    ensures forall w :: w in p ==> w in tree
    decreases |p|
  {
    if p != [] {
      var i: nat :| Edge(g, b, i, p[0]);
      assert TargetsWithin(g, stops, b, tree);
      PathInTree(g, stops, bb, tree, p[0], p[1..]);
    }
  }

  /** A chain of blocks without a choice is one block. */
  function Flow(t: Tree): Tree {
    match t
    case Stop(_) => t
    case Node(code, kids) =>
      if |kids| == 1 && kids[0].Node? then Prefixed(code, Flow(kids[0]))
      else Node(code, seq(|kids|, i requires 0 <= i < |kids| => Flow(kids[i])))
  }

  function Prefixed(code: seq<Inst>, t: Tree): Tree {
    match t
    case Stop(_) => Node(code, [t])
    case Node(code', kids) => Node(code + code', kids)
  }

  /** Executions cannot tell a chain from a single block. */
  lemma {:induction false} WalkFlow(t: Tree, oracle: Oracle, past: seq<Inst>)
    ensures Walk(Flow(t), oracle, past) == Walk(t, oracle, past)
  {
    match t
    case Stop(_) =>
    case Node(code, kids) =>
      if kids != [] {
        var i := oracle(past + code) % |kids|;
        WalkFlow(kids[i], oracle, past + code);
        if |kids| == 1 && kids[0].Node? {
          var f := Flow(kids[0]);
          assert i == 0 && past + (code + f.code) == past + code + f.code;
        }
      }
  }

  ghost predicate SameFlow(g': Graph, g: Graph, stops: set<Block>)
    requires Acyclic(g, stops) && Acyclic(g', stops)
  {
    g'.Keys <= g.Keys && forall b :: b in g' ==> Flow(Expand(g', stops, b)) == Flow(Expand(g, stops, b))
  }

  /** `bb` leads to `s` only, and nothing else leads to `s`. */
  ghost predicate Bridge(g: Graph, kept: set<Block>, bb: Block, s: Block) {
    bb in g && |g[bb].succs| == 1 && OnlyEdge(g, bb, 0, s) && s !in kept
  }

  /** `bb` takes in the instructions and the branch of `s`, which goes. */
  function Spliced(g: Graph, bb: Block, s: Block): Graph
    requires bb in g && s in g
  {
    (g - {s})[bb := Body(g[bb].code + g[s].code, g[s].succs, g[bb].rank)]
  }

  lemma SpliceAcyclic(g: Graph, stops: set<Block>, kept: set<Block>, bb: Block, s: Block)
    requires Acyclic(g, stops) && stops <= kept && Bridge(g, kept, bb, s)
    ensures bb != s && s in g && Acyclic(Spliced(g, bb, s), stops)
  {
    assert g[bb].succs[0] == s;
    var g' := Spliced(g, bb, s);
    forall b, i | b in g' && 0 <= i < |g'[b].succs|
      ensures g'[b].succs[i] in g' && (g'[b].succs[i] !in stops ==> g'[g'[b].succs[i]].rank < g'[b].rank)
    {
      var from := if b == bb then s else b;
      var w := g'[b].succs[i];
      assert Edge(g, from, i, w);
      assert w != s;
      assert w in g && (w !in stops ==> g[w].rank < g[from].rank);
    }
  }

  lemma {:induction false} SpliceFlow(g: Graph, stops: set<Block>, kept: set<Block>, bb: Block, s: Block, b: Block)
    requires Acyclic(g, stops) && stops <= kept && Bridge(g, kept, bb, s) && b in g && b != s
    requires bb != s && Acyclic(Spliced(g, bb, s), stops)
    ensures Flow(Expand(Spliced(g, bb, s), stops, b)) == Flow(Expand(g, stops, b))
    decreases g[b].rank
  {
    var g' := Spliced(g, bb, s);
    var from := if b == bb then s else b;
    assert Edge(g, bb, 0, s);
    var t', t := Expand(g', stops, b), Expand(g, stops, from);
    assert |t'.kids| == |t.kids| == |g[from].succs|;
    forall i | 0 <= i < |t.kids| ensures Flow(t'.kids[i]) == Flow(t.kids[i]) && t'.kids[i].Node? == t.kids[i].Node? {
      var w := g[from].succs[i];
      assert Edge(g, from, i, w);
      if w !in stops {
        SpliceFlow(g, stops, kept, bb, s, w);
      }
    }
    FlowByKids(t'.code, t'.kids, t.code, t.kids);
    if b == bb {
      assert Expand(g, stops, bb).kids == [t];
      assert Flow(Expand(g, stops, bb)) == Prefixed(g[bb].code, Flow(t));
      PrefixFlow(g[bb].code, g[s].code, t'.kids);
    }
  }

  lemma FlowByKids(code': seq<Inst>, kids': seq<Tree>, code: seq<Inst>, kids: seq<Tree>)
    requires |kids'| == |kids|
    requires forall i :: 0 <= i < |kids| ==> Flow(kids'[i]) == Flow(kids[i]) && kids'[i].Node? == kids[i].Node?
    ensures Flow(Node(code, kids')) == Flow(Node(code, kids))
  {
    assert seq(|kids|, i requires 0 <= i < |kids| => Flow(kids[i])) ==
      seq(|kids'|, i requires 0 <= i < |kids'| => Flow(kids'[i]));
  }

  lemma PrefixFlow(first: seq<Inst>, code: seq<Inst>, kids: seq<Tree>)
    ensures Flow(Node(first + code, kids)) == Prefixed(first, Flow(Node(code, kids)))
  {
    if |kids| == 1 && kids[0].Node? {
      var f := Flow(kids[0]);
      assert first + code + f.code == first + (code + f.code);
    }
  }

  /** `b` leads to one block at most that could be spliced into it, and it has been. */
  ghost predicate NoBridge(g: Graph, kept: set<Block>, b: Block) {
    b in g && (|g[b].succs| == 1 ==> g[b].succs[0] in kept || Joined(g, g[b].succs[0]))
  }

  /** The blocks dealt with so far: each is a stop or has been come to from another one. */
  ghost predicate Rooted(g: Graph, stops: set<Block>, skip: set<Block>) {
    forall b :: b in skip ==> b in g && (b in stops || exists u, i: nat :: u in skip && Edge(g, u, i, b))
  }

  /** Nothing happens to blocks dealt with, and where edges join they go on joining. */
  ghost predicate MergeFramed(g: Graph, g': Graph, skip: set<Block>) {
    && g'.Keys <= g.Keys
    && (forall b :: b in skip ==> b in g && b in g' && g'[b] == g[b])
    && (forall w :: w in g' && Joined(g, w) ==> Joined(g', w))
  }

  ghost predicate Merged(g: Graph, g': Graph, stops: set<Block>, kept: set<Block>, skip: set<Block>,
                         skip': set<Block>) {
    && Acyclic(g, stops) && Acyclic(g', stops) && SameFlow(g', g, stops)
    && skip <= skip' && Rooted(g', stops, skip') && MergeFramed(g, g', skip)
    && forall b :: b in skip' - skip ==> NoBridge(g', kept, b)
  }

  ghost predicate ComeTo(g: Graph, stops: set<Block>, skip: set<Block>, b: Block) {
    b in g && (b in stops || exists u, i: nat :: u in skip && Edge(g, u, i, b))
  }

  lemma SpliceFramed(g: Graph, stops: set<Block>, kept: set<Block>, skip: set<Block>, bb: Block, s: Block)
    requires Acyclic(g, stops) && stops <= kept && Bridge(g, kept, bb, s) && Rooted(g, stops, skip)
    requires bb !in skip && ComeTo(g, stops, skip, bb) && bb != s && s in g
    ensures s !in skip
    ensures var g' := Spliced(g, bb, s);
      MergeFramed(g, g', skip) && Rooted(g', stops, skip) && ComeTo(g', stops, skip, bb)
  {
    var g' := Spliced(g, bb, s);
    forall b | b in skip && b !in stops ensures exists u, i: nat :: u in skip && Edge(g', u, i, b) {
      var u, i: nat :| u in skip && Edge(g, u, i, b);
      assert Edge(g', u, i, b);
    }
    if bb !in stops {
      var u, i: nat :| u in skip && Edge(g, u, i, bb);
      assert Edge(g', u, i, bb);
    }
    forall w | w in g' && Joined(g, w) ensures Joined(g', w) {
      var u, i: nat, v, j: nat :| Edge(g, u, i, w) && Edge(g, v, j, w) && (u != v || i != j);
      var u', v' := if u == s then bb else u, if v == s then bb else v;
      assert u != bb && v != bb;
      assert Edge(g', u', i, w) && Edge(g', v', j, w);
    }
  }

  lemma SpliceMerges(g: Graph, stops: set<Block>, kept: set<Block>, skip: set<Block>, bb: Block, s: Block)
    requires Acyclic(g, stops) && stops <= kept && Bridge(g, kept, bb, s) && Rooted(g, stops, skip)
    requires bb !in skip && ComeTo(g, stops, skip, bb)
    ensures bb != s && s in g && s !in skip
    ensures var g' := Spliced(g, bb, s); Merged(g, g', stops, kept, skip, skip) && ComeTo(g', stops, skip, bb)
  {
    SpliceAcyclic(g, stops, kept, bb, s);
    SpliceFramed(g, stops, kept, skip, bb, s);
    var g' := Spliced(g, bb, s);
    forall b | b in g' ensures Flow(Expand(g', stops, b)) == Flow(Expand(g, stops, b)) {
      SpliceFlow(g, stops, kept, bb, s, b);
    }
  }

  lemma VisitMerges(g: Graph, stops: set<Block>, kept: set<Block>, skip: set<Block>, bb: Block)
    requires Acyclic(g, stops) && Rooted(g, stops, skip) && ComeTo(g, stops, skip, bb) && NoBridge(g, kept, bb)
    ensures Merged(g, g, stops, kept, skip, skip + {bb})
  {
    forall b | b in skip && b !in stops ensures exists u, i: nat :: u in skip + {bb} && Edge(g, u, i, b) {
      var u, i: nat :| u in skip && Edge(g, u, i, b);
    }
  }

  lemma MergedTwice(g0: Graph, g1: Graph, g2: Graph, stops: set<Block>, kept: set<Block>, skip0: set<Block>,
                    skip1: set<Block>, skip2: set<Block>)
    requires Merged(g0, g1, stops, kept, skip0, skip1) && Merged(g1, g2, stops, kept, skip1, skip2)
    ensures Merged(g0, g2, stops, kept, skip0, skip2)
  {
    forall b | b in skip2 - skip0 ensures NoBridge(g2, kept, b) {
      if b in skip1 {
        assert NoBridge(g1, kept, b) && g2[b] == g1[b];
        if |g2[b].succs| == 1 { assert g2[b].succs[0] in g2; }
      }
    }
  }

  /** The search from the blocks newly dealt with has gone on as far as it can. */
  ghost predicate Visited(g: Graph, skip: set<Block>, skip': set<Block>) {
    forall b :: b in skip' - skip ==> TargetsWithin(g, {}, b, skip')
  }

  lemma VisitedTwice(g1: Graph, g2: Graph, stops: set<Block>, kept: set<Block>, skip0: set<Block>, bb: Block,
                     skip1: set<Block>, skip2: set<Block>)
    requires Merged(g1, g2, stops, kept, skip1, skip2) && Visited(g2, skip1, skip2)
    requires skip0 + {bb} <= skip1 && Visited(g1, skip0 + {bb}, skip1)
    ensures Visited(g2, skip0 + {bb}, skip2)
  {
    forall b | b in skip2 - (skip0 + {bb}) ensures TargetsWithin(g2, {}, b, skip2) {
      if b in skip1 {
        assert TargetsWithin(g1, {}, b, skip1) && g2[b] == g1[b];
        assert forall i: nat, w :: Edge(g2, b, i, w) ==> Edge(g1, b, i, w);
      }
    }
  }

  /** Below `bb` no bridge is left, and no block has changed its meaning. */
  ghost predicate MergedBelow(g: Graph, g': Graph, stops: set<Block>, kept: set<Block>, skip: set<Block>,
                              skip': set<Block>, bb: Block) {
    Merged(g, g', stops, kept, skip, skip') && Visited(g', skip, skip') && bb in skip'
  }

  /** The invariant of the loop over the successors of `bb`. */
  ghost predicate Merging(g: Graph, g': Graph, stops: set<Block>, kept: set<Block>, skip: set<Block>,
                          skip': set<Block>, bb: Block, i: nat) {
    && Merged(g, g', stops, kept, skip, skip') && Visited(g', skip + {bb}, skip')
    && bb in skip' && bb in g && bb in g' && g'[bb] == g[bb] && i <= |g[bb].succs|
    && forall k :: 0 <= k < i ==> g[bb].succs[k] in skip'
  }

  lemma MergingStarts(g: Graph, stops: set<Block>, kept: set<Block>, skip: set<Block>, bb: Block)
    requires Acyclic(g, stops) && Rooted(g, stops, skip) && ComeTo(g, stops, skip, bb) && NoBridge(g, kept, bb)
    ensures Merging(g, g, stops, kept, skip, skip + {bb}, bb, 0)
  {
    VisitMerges(g, stops, kept, skip, bb);
  }

  lemma MergingNext(g: Graph, g': Graph, stops: set<Block>, kept: set<Block>, skip: set<Block>, skip': set<Block>,
                    bb: Block, i: nat)
    requires bb in g && bb !in skip && i < |g[bb].succs| && Merging(g, g', stops, kept, skip, skip', bb, i)
    ensures Acyclic(g', stops) && Rooted(g', stops, skip') && ComeTo(g', stops, skip', g[bb].succs[i])
    ensures g'.Keys - skip' < g.Keys - skip && bb in g' && g'[bb] == g[bb]
  {
    assert Edge(g', bb, i, g[bb].succs[i]);
    assert bb in g.Keys - skip && bb !in g'.Keys - skip';
  }

  lemma ComeToBlock(g: Graph, stops: set<Block>, skip: set<Block>, b: Block)
    requires ComeTo(g, stops, skip, b)
    ensures b in g
  {
  }

  lemma NothingMerged(g: Graph, stops: set<Block>, kept: set<Block>, skip: set<Block>, bb: Block)
    requires Acyclic(g, stops) && Rooted(g, stops, skip) && bb in skip
    ensures MergedBelow(g, g, stops, kept, skip, skip, bb)
  {
  }

  lemma BlockKept(g: Graph, g': Graph, stops: set<Block>, kept: set<Block>, skip: set<Block>, skip': set<Block>,
                  bb: Block, i: nat)
    requires Merging(g, g', stops, kept, skip, skip', bb, i)
    ensures bb in g && bb in g' && g'[bb] == g[bb]
  {
  }

  lemma MergingGoesOn(g: Graph, gi: Graph, g': Graph, stops: set<Block>, kept: set<Block>, skip: set<Block>,
                      si: set<Block>, skip': set<Block>, bb: Block, i: nat)
    requires bb in g && i < |g[bb].succs| && Merging(g, gi, stops, kept, skip, si, bb, i)
    requires MergedBelow(gi, g', stops, kept, si, skip', g[bb].succs[i])
    ensures Merging(g, g', stops, kept, skip, skip', bb, i + 1)
  {
    MergedTwice(g, gi, g', stops, kept, skip, si, skip');
    VisitedTwice(gi, g', stops, kept, skip, bb, si, skip');
  }

  lemma MergingEnds(g: Graph, g': Graph, stops: set<Block>, kept: set<Block>, skip: set<Block>, skip': set<Block>,
                    bb: Block)
    requires bb in g && Merging(g, g', stops, kept, skip, skip', bb, |g[bb].succs|)
    ensures MergedBelow(g, g', stops, kept, skip, skip', bb)
  {
  }

  /** Whether `bb` is followed by a bridge is what the code looks for. */
  lemma BridgeIs(g: Graph, kept: set<Block>, bb: Block)
    requires bb in g
    ensures |g[bb].succs| == 1 && !TwoPredecessors(g, g[bb].succs[0]) && g[bb].succs[0] !in kept ==>
      Bridge(g, kept, bb, g[bb].succs[0])
    ensures !(|g[bb].succs| == 1 && !TwoPredecessors(g, g[bb].succs[0]) && g[bb].succs[0] !in kept) ==>
      NoBridge(g, kept, bb)
  {
    if |g[bb].succs| == 1 {
      assert Edge(g, bb, 0, g[bb].succs[0]);
    }
  }

  lemma SpliceReady(g: Graph, stops: set<Block>, kept: set<Block>, skip: set<Block>, bb: Block, s: Block)
    requires Acyclic(g, stops) && stops <= kept && stops <= g.Keys && Bridge(g, kept, bb, s) && Rooted(g, stops, skip)
    requires bb in g && bb !in skip && ComeTo(g, stops, skip, bb)
    ensures s in g && s !in stops
    ensures var g' := Spliced(g, bb, s);
      && Merged(g, g', stops, kept, skip, skip) && ComeTo(g', stops, skip, bb) && Rooted(g', stops, skip)
         && Acyclic(g', stops)
      && g'.Keys <= g.Keys && stops <= g'.Keys && g'.Keys - skip < g.Keys - skip && bb in g'
  {
    SpliceMerges(g, stops, kept, skip, bb, s);
    assert s in g.Keys - skip && s !in Spliced(g, bb, s).Keys - skip;
  }

  lemma SplicedFirst(g: Graph, g1: Graph, g': Graph, stops: set<Block>, kept: set<Block>, skip: set<Block>,
                     skip': set<Block>, bb: Block)
    requires Merged(g, g1, stops, kept, skip, skip) && MergedBelow(g1, g', stops, kept, skip, skip', bb)
    ensures MergedBelow(g, g', stops, kept, skip, skip', bb)
  {
    MergedTwice(g, g1, g', stops, kept, skip, skip, skip');
  }

  /** Merging the bridges below `bb`: no execution changes, and no bridge is left to be come to, by whatever path. */
  lemma {:induction false} MergeIsFaithful(g: Graph, g': Graph, stops: set<Block>, kept: set<Block>, bb: Block,
                                           skip': set<Block>, oracle: Oracle, past: seq<Inst>)
    requires MergedBelow(g, g', stops, kept, {}, skip', bb)
    ensures bb in g && bb in g' && Run(g', stops, bb, oracle, past) == Run(g, stops, bb, oracle, past)
    ensures forall p :: Path(g', {}, bb, p) ==> forall w :: w in [bb] + p ==> NoBridge(g', kept, w)
  {
    assert NoBridge(g', kept, bb);
    RunIsWalk(g, stops, bb, oracle, past);
    RunIsWalk(g', stops, bb, oracle, past);
    WalkFlow(Expand(g, stops, bb), oracle, past);
    WalkFlow(Expand(g', stops, bb), oracle, past);
    forall p | Path(g', {}, bb, p) ensures forall w :: w in p ==> w in skip' {
      PathVisited(g', skip', bb, p);
    }
  }

  lemma {:induction false} PathVisited(g: Graph, skip: set<Block>, b: Block, p: seq<Block>)
    requires Visited(g, {}, skip) && b in skip && Path(g, {}, b, p)
    ensures forall w :: w in p ==> w in skip
    decreases |p|
  {
    if p != [] {
      var i: nat :| Edge(g, b, i, p[0]);
      assert TargetsWithin(g, {}, b, skip);
      PathVisited(g, skip, p[0], p[1..]);
    }
  }

  class Region {
    const step: Step
    const headers: set<Block>   // the preheaders and postheaders of all loops, which have to stay
    var blocks: Graph
    var next: Block

    ghost predicate Valid() reads this {
      && Acyclic(blocks, Stops(step))
      && Stops(step) <= blocks.Keys
      && forall b :: b in blocks ==> b < next
    }

    constructor (step: Step, headers: set<Block>, blocks: Graph, next: Block)
      requires Acyclic(blocks, Stops(step)) && Stops(step) <= blocks.Keys && forall b :: b in blocks ==> b < next
      ensures Valid() && this.step == step && this.headers == headers && this.blocks == blocks
    {
      this.step, this.headers, this.blocks, this.next := step, headers, blocks, next;
    }

    predicate RequireClone(b: Block) {
      b !in Stops(step)
    }

    predicate RequireSplit(b: Block) reads this {
      RequireClone(b) && TwoPredecessors(blocks, b)
    }

    method CloneBlock(b: Block) returns (c: Block)
      requires Valid() && b in blocks
      modifies this
      ensures Valid() && c !in old(blocks) && blocks == old(blocks)[c := old(blocks)[b]]
    {
      c := next;
      next := next + 1;
      blocks := blocks[c := blocks[b]];
    }

    /** Copies one branch target, unless it is a stop or has a copy already, and queues it. */
    method CopyTarget(ghost g: Graph, succ: Block, ghost from: Block, vm0: map<Block, Block>, q0: seq<Block>,
                      ghost root: Block, ghost ori: Block)
      returns (vm: map<Block, Block>, q: seq<Block>)
      requires Valid() && Copying(g, blocks, Stops(step), vm0, root, ori)
        && Searched(g, Stops(step), vm0, root, ori, q0, {from})
      requires succ in g && succ != root && (RequireClone(succ) ==> g[succ].rank <= g[ori].rank)
      modifies this
      ensures Valid() && Copying(g, blocks, Stops(step), vm, root, ori)
        && Searched(g, Stops(step), vm, root, ori, q, {from})
      ensures vm0.Keys <= vm.Keys && (RequireClone(succ) ==> succ in vm)
      ensures |vm0| < |vm| || (|vm| == |vm0| && |q| == |q0|)
    {
      vm, q := vm0, q0;
      if RequireClone(succ) && succ !in vm {
        ghost var g1 := blocks;
        var c := CloneBlock(succ);
        CopyOne(g, g1, blocks, Stops(step), vm, root, ori, succ, c);
        SearchGrows(g, Stops(step), vm, root, ori, q, from, succ, c);
        q, vm := q + [succ], vm[succ := c];
      }
    }

    method CopyTargets(ghost g: Graph, cur: Block, ghost from: Block, vm0: map<Block, Block>, q0: seq<Block>,
                       ghost root: Block, ghost ori: Block)
      returns (vm: map<Block, Block>, q: seq<Block>)
      requires Valid() && Copying(g, blocks, Stops(step), vm0, root, ori)
      requires Searched(g, Stops(step), vm0, root, ori, q0, {from})
      requires cur in blocks && from in vm0 && blocks[cur].succs == g[from].succs
      requires Copyable(g, Stops(step), root, ori, blocks[cur].succs)
      modifies this
      ensures Valid() && Copying(g, blocks, Stops(step), vm, root, ori)
      ensures Searched(g, Stops(step), vm, root, ori, q, {from}) && from in vm && SuccsCopied(g, Stops(step), vm, from)
      ensures |vm0| < |vm| || (|vm| == |vm0| && |q| == |q0|)
    {
      vm, q := vm0, q0;
      var targets := blocks[cur].succs;
      for i := 0 to |targets|
        invariant Valid() && Copying(g, blocks, Stops(step), vm, root, ori)
        invariant from in vm && (|vm0| < |vm| || (|vm| == |vm0| && |q| == |q0|))
        invariant Searched(g, Stops(step), vm, root, ori, q, {from})
        invariant HaveCopies(targets[..i], Stops(step), vm)
      {
        ghost var vm1 := vm;
        vm, q := CopyTarget(g, targets[i], from, vm, q, root, ori);
        HaveCopiesStep(targets, i, Stops(step), vm1, vm);
      }
    }

    /** Redirects the branches of the copies to copies. */
    method RemapInstructions(ghost g: Graph, vm: map<Block, Block>, ghost root: Block, ghost ori: Block)
      requires Valid() && Acyclic(g, Stops(step)) && Stops(step) <= g.Keys && root !in Stops(step)
      requires Copying(g, blocks, Stops(step), vm, root, ori)
      requires forall b :: b in vm ==> SuccsCopied(g, Stops(step), vm, b)
      modifies this
      ensures Valid() && Duplicated(g, blocks, Stops(step), vm, root, ori)
    {
      ghost var g1 := blocks;
      blocks := RemapBlocks(blocks, vm);
      Redirect(g, g1, blocks, Stops(step), vm, root, ori);
    }

    /** Breadth-first: copies whatever can be reached from `root` before a stop, then redirects the copies. */
    method Duplicate(root: Block, ori: Block) returns (vm: map<Block, Block>)
      requires Valid() && root in blocks && ori in blocks && root != ori && RequireClone(root) && RequireClone(ori)
      requires blocks[root] == blocks[ori]
      requires forall u, i: nat :: !Edge(blocks, u, i, root)
      modifies this
      ensures Valid() && Duplicated(old(blocks), blocks, Stops(step), vm, root, ori)
    {
      ghost var g := blocks;
      ghost var stops := Stops(step);
      vm := map[ori := root];
      var q := [root];
      while q != []
        invariant Valid() && Copying(g, blocks, stops, vm, root, ori)
        invariant Searched(g, stops, vm, root, ori, q, {})
        decreases |g| - |vm|, |q|
      {
        SmallerDomain(vm, g.Keys);
        var cur := q[0];
        ghost var from := if cur == root then ori else cur;
        assert Copied(g, blocks, vm, ori, from) && Kept(g, blocks, root, cur);
        SearchPops(g, stops, vm, root, ori, q);
        q := q[1..];
        CopyableTargets(g, stops, root, ori, from);
        vm, q := CopyTargets(g, cur, from, vm, q, root, ori);
        SearchClosed(g, stops, vm, root, ori, q, from);
      }
      RemapInstructions(g, vm, root, ori);
    }

    method SetSuccessor(bb: Block, i: nat, target: Block)
      requires bb in blocks && i < |blocks[bb].succs|
      modifies this`blocks
      ensures blocks == Retarget(old(blocks), bb, i, target)
    {
      blocks := Retarget(blocks, bb, i, target);
    }

    /** Copies `ori` and everything reachable from it before a stop. */
    method CloneSubgraph(ori: Block) returns (vm: map<Block, Block>)
      requires Valid() && ori in blocks && RequireClone(ori)
      modifies this
      ensures Valid() && ori in vm && Doubled(old(blocks), blocks, Stops(step), vm)
      ensures forall b :: b in vm ==> old(blocks)[b].rank <= old(blocks)[ori].rank
    {
      ghost var g := blocks;
      var cloned := CloneBlock(ori);
      ghost var g1 := blocks;
      assert forall u, j: nat :: !Edge(g1, u, j, cloned);
      vm := Duplicate(cloned, ori);
      DuplicatedDoubles(g, g1, blocks, Stops(step), vm, cloned, ori);
    }

    /** Makes sure edge `i` of `bb` leads to a block nothing else leads to: to a copy if two edges meet there, else to
        the block it leads to. */
    method SplitTarget(bb: Block, i: nat, ghost own: set<Block>, ghost tree: set<Block>) returns (succ: Block)
      requires Valid() && bb in blocks && i < |blocks[bb].succs|
      requires own <= blocks.Keys && Progress(blocks, Stops(step), own, bb, tree, i)
      modifies this
      ensures Valid() && SplitOff(old(blocks), blocks, Stops(step), own, bb, tree, i, succ)
      ensures var g, t := old(blocks), old(blocks[bb].succs[i]);
        if t !in Stops(step) && Joined(g, t) then succ !in g && succ in blocks && blocks[succ].code == g[t].code
        else succ == t && blocks == g
    {
      hide SplitOff, Same, Expand, Joined, TreeBelow, Sealed;
      succ := blocks[bb].succs[i];
      if RequireSplit(succ) {
        ghost var g := blocks;
        var vm := CloneSubgraph(succ);
        ghost var g2 := blocks;
        SplitStep(g, g2, Stops(step), own, bb, tree, i, vm, succ);
        SetSuccessor(bb, i, vm[succ]);
        succ := vm[succ];
      } else {
        StaysOff(blocks, Stops(step), own, bb, tree, i);
      }
    }

    /** Depth-first from `bb`: wherever two edges meet, one of them gets a copy of its own. */
    method CloneAndSplit(bb: Block, ghost own: set<Block>) returns (ghost tree: set<Block>)
      requires Valid() && bb in own && own <= blocks.Keys
      requires Sealed(blocks, Stops(step), own) && TargetsOutside(blocks, Stops(step), bb, own)
      modifies this
      ensures Valid() && SplitBelow(old(blocks), blocks, Stops(step), own, bb, tree)
      ensures Parted(old(blocks), Stops(step), bb) ==> blocks == old(blocks)
      decreases blocks[bb].rank, 1
    {
      tree := {};
      ghost var g0 := blocks;
      for i := 0 to |blocks[bb].succs|
        invariant Valid() && Splitting(g0, blocks, Stops(step), own, bb, tree, i)
        invariant Parted(g0, Stops(step), bb) ==> blocks == g0
      {
        ghost var gi := blocks;
        var succ := SplitTarget(bb, i, own, tree);
        SplittingGoesOn(g0, gi, blocks, Stops(step), own, bb, tree, i, succ);
        if RequireClone(succ) {
          tree := SplitSubtree(bb, i, succ, own, tree, g0);
        } else {
          SplittingSkips(g0, blocks, Stops(step), own, bb, tree, i, succ);
        }
      }
      SplittingEnds(g0, blocks, Stops(step), own, bb, tree);
    }

    method SplitSubtree(bb: Block, i: nat, succ: Block, ghost own: set<Block>, ghost tree: set<Block>,
                        ghost g0: Graph) returns (ghost tree': set<Block>)
      requires Valid() && Splitting(g0, blocks, Stops(step), own, bb, tree, i)
      requires OnlyEdge(blocks, bb, i, succ) && RequireClone(succ)
      modifies this
      ensures Valid() && Splitting(g0, blocks, Stops(step), own, bb, tree', i + 1)
      ensures Parted(old(blocks), Stops(step), succ) ==> blocks == old(blocks)
      decreases blocks[bb].rank, 0
    {
      ghost var g := blocks;
      Descend(g, Stops(step), own, bb, tree, i, succ);
      ghost var sub := CloneAndSplit(succ, own + tree + {succ});
      SplittingJoins(g0, g, blocks, Stops(step), own, bb, tree, i, succ, sub);
      tree' := tree + {succ} + sub;
    }

    /** One step of the conversion.  The start of a loop is its preheader, which leads to the loop header only. */
    method Convert() returns (ghost tree: set<Block>)
      requires Valid() && (step.Loop? ==> blocks[step.preheader].succs == [step.loopheader])
      modifies this
      ensures Valid() && SplitBelow(old(blocks), blocks, Stops(step), Stops(step), Start(step), tree)
    {
      tree := CloneAndSplit(Start(step), Stops(step));
    }

    /** Splices chains of blocks into one block each, depth-first from `bb`. */
    method MergeBridge(bb: Block, skip: set<Block>) returns (skip': set<Block>)
      requires Valid() && Rooted(blocks, Stops(step), skip) && ComeTo(blocks, Stops(step), skip, bb)
      modifies this
      ensures Valid()
      ensures MergedBelow(old(blocks), blocks, Stops(step), Stops(step) + headers, skip, skip', bb)
      decreases blocks.Keys - skip
    {
      hide Merging, MergedBelow, Merged, Rooted, ComeTo, Acyclic, Bridge, NoBridge, Joined, TwoPredecessors, Spliced;
      ghost var g, stops, kept := blocks, Stops(step), Stops(step) + headers;
      ComeToBlock(g, stops, skip, bb);
      if bb in skip {
        NothingMerged(g, stops, kept, skip, bb);
        return skip;
      }
      BridgeIs(g, kept, bb);
      if |blocks[bb].succs| == 1 && !TwoPredecessors(blocks, blocks[bb].succs[0])
        && blocks[bb].succs[0] !in Stops(step) + headers {
        var s := blocks[bb].succs[0];
        SpliceReady(g, stops, kept, skip, bb, s);
        blocks := Spliced(blocks, bb, s);
        ghost var g1 := blocks;
        skip' := MergeBridge(bb, skip);
        SplicedFirst(g, g1, blocks, stops, kept, skip, skip', bb);
        return;
      }
      skip' := skip + {bb};
      MergingStarts(g, stops, kept, skip, bb);
      for i := 0 to |blocks[bb].succs|
        invariant Valid() && bb in g && i <= |g[bb].succs| && bb in blocks && blocks[bb] == g[bb]
        invariant Merging(g, blocks, stops, kept, skip, skip', bb, i)
      {
        ghost var gi, si := blocks, skip';
        MergingNext(g, gi, stops, kept, skip, si, bb, i);
        var s := blocks[bb].succs[i];
        skip' := MergeBridge(s, skip');
        MergingGoesOn(g, gi, blocks, stops, kept, skip, si, skip', bb, i);
        BlockKept(g, blocks, stops, kept, skip, skip', bb, i + 1);
      }
      MergingEnds(g, blocks, stops, kept, skip, skip', bb);
    }
  }
}
