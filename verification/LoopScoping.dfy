/** Which values a loop takes in and gives out, found by one walk over the tree of blocks.

    A loop is named by its preheader.  `outer` grows during the walk: the parent of a loop is known from the
    moment the walk enters the loop. */
module LoopScoping {
  import opened Prelude
  type LoopId = int
  type Val = int

  /** Definitions outside of every loop, and arguments, have no loop. */
  datatype Use = Use(def: Option<LoopId>, val: Val)

  /** The blocks as the walk sees them: a preheader leads into its loop and to its postheader, every other block
      has uses and successors; edges back to the header and to the postheader of the loop lead nowhere. */
  datatype Walk = Block(uses: seq<Use>, succs: seq<Walk>) | Enter(pre: LoopId, inside: Walk, after: Walk)

  /** The loop forest: the next outer loop, if any, and how deep a loop lies. */
  datatype Forest = Forest(parent: map<LoopId, LoopId>, depth: map<LoopId, nat>) {
    predicate Valid() {
      forall l :: l in parent ==> l in depth && parent[l] in depth && depth[parent[l]] < depth[l]
    }

    /** The loops around, innermost first. */
    function Chain(l: Option<LoopId>): (c: seq<LoopId>)
      requires Valid()
      decreases if l.None? then 0 else if l.value in depth then depth[l.value] + 2 else 1
    {
      if l.None? then [] else [l.value] + Chain(Parent(l.value))
    }

    function Parent(l: LoopId): Option<LoopId> {
      if l in parent then Some(parent[l]) else None
    }

    lemma {:induction false} ChainDepth(l: LoopId)
      requires Valid() && l in depth
      ensures forall k :: k in Chain(Parent(l)) ==> k in depth && depth[k] < depth[l]
      decreases depth[l]
    {
      if l in parent {
        ChainDepth(parent[l]);
        assert Chain(Parent(l)) == [parent[l]] + Chain(Parent(parent[l]));
      }
    }

    lemma {:induction false} ChainTransitive(l: Option<LoopId>, k: LoopId)
      requires Valid() && k in Chain(l)
      ensures forall j :: j in Chain(Some(k)) ==> j in Chain(l)
      decreases |Chain(l)|
    {
      assert Chain(l) == [l.value] + Chain(Parent(l.value));
      if k != l.value {
        ChainTransitive(Parent(l.value), k);
      }
    }
  }

  function Reverse<T>(s: seq<T>): (r: seq<T>)
    ensures |r| == |s| && forall i :: 0 <= i < |s| ==> r[i] == s[|s| - 1 - i]
  {
    if s == [] then [] else Reverse(s[1..]) + [s[0]]
  }

  function Top(stack: seq<LoopId>): Option<LoopId> {
    if stack == [] then None else Some(stack[|stack| - 1])
  }

  /** The stack holds the loops around the current block, outermost first. */
  ghost predicate IsStack(f: Forest, stack: seq<LoopId>)
    requires f.Valid()
  {
    && (forall l :: l in stack ==> l in f.depth)
    && (stack != [] ==> f.Parent(stack[|stack| - 1]) == Top(stack[..|stack| - 1]) && IsStack(f, stack[..|stack| - 1]))
  }

  lemma {:induction false} StackIsChain(f: Forest, stack: seq<LoopId>)
    requires f.Valid() && IsStack(f, stack)
    ensures forall l :: l in stack <==> l in f.Chain(Top(stack))
  {
    if stack != [] {
      StackIsChain(f, stack[..|stack| - 1]);
      assert stack == stack[..|stack| - 1] + [stack[|stack| - 1]];
    }
  }

  function Get(m: map<LoopId, seq<Val>>, l: LoopId): seq<Val> {
    if l in m then m[l] else []
  }

  function Added(s: seq<Val>, v: Val): seq<Val> {
    if v in s then s else s + [v]
  }

  /** `m'` is `m` with `v` added, unless already there, at exactly the loops in `ls`. */
  ghost predicate AddedAt(m: map<LoopId, seq<Val>>, m': map<LoopId, seq<Val>>, ls: set<LoopId>, v: Val) {
    forall l :: Get(m', l) == if l in ls then Added(Get(m, l), v) else Get(m, l)
  }

  lemma NothingAdded(m: map<LoopId, seq<Val>>, v: Val)
    ensures AddedAt(m, m, {}, v)
  {
  }

  lemma AddedThen(m: map<LoopId, seq<Val>>, m1: map<LoopId, seq<Val>>, m2: map<LoopId, seq<Val>>, ls: set<LoopId>,
                  l: LoopId, v: Val)
    requires AddedAt(m, m1, ls, v) && AddedAt(m1, m2, {l}, v)
    ensures AddedAt(m, m2, ls + {l}, v)
  {
  }

  /** A use where it was found. */
  datatype Site = Site(use: Use, stack: seq<LoopId>)

  /** The loops around the definition but not around the use. */
  ghost function LeftBy(f: Forest, s: Site): set<LoopId>
    requires f.Valid()
  {
    set l | l in f.Chain(s.use.def) && l !in s.stack
  }

  /** The loops around the use but not around the definition. */
  ghost function EnteredBy(f: Forest, s: Site): set<LoopId>
    requires f.Valid()
  {
    set l | l in s.stack && l !in f.Chain(s.use.def)
  }

  ghost function Elements(s: seq<LoopId>): set<LoopId> {
    set l | l in s
  }

  function LoopsIn(w: Walk): set<LoopId> {
    match w
    case Block(_, succs) => LoopsInAll(succs)
    case Enter(pre, inside, after) => {pre} + LoopsIn(inside) + LoopsIn(after)
  }

  function LoopsInAll(ws: seq<Walk>): set<LoopId> {
    if ws == [] then {} else LoopsInAll(ws[..|ws| - 1]) + LoopsIn(ws[|ws| - 1])
  }

  /** Every use in the walk, with the loops around it. */
  function SitesIn(w: Walk, stack: seq<LoopId>): set<Site> {
    match w
    case Block(uses, succs) => SitesHere(uses, stack) + SitesInAll(succs, stack)
    case Enter(pre, inside, after) => SitesIn(inside, stack + [pre]) + SitesIn(after, stack)
  }

  function SitesHere(uses: seq<Use>, stack: seq<LoopId>): set<Site> {
    set u | u in uses :: Site(u, stack)
  }

  function SitesInAll(ws: seq<Walk>, stack: seq<LoopId>): set<Site> {
    if ws == [] then {} else SitesInAll(ws[..|ws| - 1], stack) + SitesIn(ws[|ws| - 1], stack)
  }

  /** At the end of `path` the walk has come to `part`, with the loops `around` it: a number leads to that target of a
      block, and 0 into a loop, anything else behind it. */
  ghost predicate ComesTo(w: Walk, stack: seq<LoopId>, path: seq<nat>, part: Walk, around: seq<LoopId>)
    decreases |path|
  {
    if path == [] then part == w && around == stack
    else match w
      case Block(_, succs) => path[0] < |succs| && ComesTo(succs[path[0]], stack, path[1..], part, around)
      case Enter(pre, inside, after) =>
        if path[0] == 0 then ComesTo(inside, stack + [pre], path[1..], part, around)
        else ComesTo(after, stack, path[1..], part, around)
  }

  lemma {:induction false} OneOfAll(ws: seq<Walk>, stack: seq<LoopId>)
    ensures forall s :: s in SitesInAll(ws, stack) <==> exists i :: 0 <= i < |ws| && s in SitesIn(ws[i], stack)
    ensures forall l :: l in LoopsInAll(ws) <==> exists i :: 0 <= i < |ws| && l in LoopsIn(ws[i])
  {
    if ws != [] {
      hide SitesIn, LoopsIn;
      var n := |ws| - 1;
      OneOfAll(ws[..n], stack);
      assert forall i :: 0 <= i < n ==> ws[..n][i] == ws[i];
      forall s ensures s in SitesInAll(ws, stack) <==> exists i :: 0 <= i < |ws| && s in SitesIn(ws[i], stack) {
        if i :| 0 <= i < |ws| && s in SitesIn(ws[i], stack) && i < n {
          assert s in SitesIn(ws[..n][i], stack);
        }
      }
      forall l ensures l in LoopsInAll(ws) <==> exists i :: 0 <= i < |ws| && l in LoopsIn(ws[i]) {
        if i :| 0 <= i < |ws| && l in LoopsIn(ws[i]) && i < n {
          assert l in LoopsIn(ws[..n][i]);
        }
      }
    }
  }

  /** Some path comes to a block with this use and these loops around it. */
  ghost predicate IsSite(w: Walk, stack: seq<LoopId>, s: Site) {
    exists path: seq<nat>, part: Walk ::
      ComesTo(w, stack, path, part, s.stack) && part.Block? && s.use in part.uses
  }

  lemma SitesIff(w: Walk, stack: seq<LoopId>, s: Site)
    ensures s in SitesIn(w, stack) <==> IsSite(w, stack, s)
  {
    if s in SitesIn(w, stack) {
      var path, part := SitePath(w, stack, s);
      assert ComesTo(w, stack, path, part, s.stack);
    }
    if IsSite(w, stack, s) {
      var path: seq<nat>, part: Walk :| ComesTo(w, stack, path, part, s.stack) && part.Block? && s.use in part.uses;
      SiteFound(w, stack, path, part, s);
    }
  }

  lemma {:induction false} SitePath(w: Walk, stack: seq<LoopId>, s: Site) returns (path: seq<nat>, part: Walk)
    requires s in SitesIn(w, stack)
    ensures ComesTo(w, stack, path, part, s.stack) && part.Block? && s.use in part.uses
  {
    match w
    case Enter(pre, inside, after) =>
      if s in SitesIn(inside, stack + [pre]) {
        path, part := SitePath(inside, stack + [pre], s);
        path := [0] + path;
      } else {
        path, part := SitePath(after, stack, s);
        path := [1] + path;
      }
    case Block(uses, succs) =>
      OneOfAll(succs, stack);
      if s in SitesHere(uses, stack) {
        path, part := [], w;
      } else {
        var i :| 0 <= i < |succs| && s in SitesIn(succs[i], stack);
        path, part := SitePath(succs[i], stack, s);
        path := [i] + path;
      }
  }

  lemma {:induction false} SiteFound(w: Walk, stack: seq<LoopId>, path: seq<nat>, part: Walk, s: Site)
    requires ComesTo(w, stack, path, part, s.stack) && part.Block? && s.use in part.uses
    ensures s in SitesIn(w, stack)
    decreases |path|
  {
    if path != [] {
      match w
      case Enter(pre, inside, after) =>
        if path[0] == 0 {
          SiteFound(inside, stack + [pre], path[1..], part, s);
        } else {
          SiteFound(after, stack, path[1..], part, s);
        }
      case Block(_, succs) =>
        SiteFound(succs[path[0]], stack, path[1..], part, s);
        OneOfAll(succs, stack);
    }
  }

  /** Some path comes to this loop. */
  ghost predicate IsLoop(w: Walk, stack: seq<LoopId>, l: LoopId) {
    exists path: seq<nat>, part: Walk, around: seq<LoopId> ::
      ComesTo(w, stack, path, part, around) && part.Enter? && part.pre == l
  }

  lemma LoopsIff(w: Walk, stack: seq<LoopId>, l: LoopId)
    ensures l in LoopsIn(w) <==> IsLoop(w, stack, l)
  {
    if l in LoopsIn(w) {
      var path, part, around := LoopPath(w, stack, l);
      assert ComesTo(w, stack, path, part, around);
    }
    if IsLoop(w, stack, l) {
      var path: seq<nat>, part: Walk, around: seq<LoopId> :|
        ComesTo(w, stack, path, part, around) && part.Enter? && part.pre == l;
      LoopFound(w, stack, path, part, around);
    }
  }

  lemma {:induction false} LoopPath(w: Walk, stack: seq<LoopId>, l: LoopId)
    returns (path: seq<nat>, part: Walk, around: seq<LoopId>)
    requires l in LoopsIn(w)
    ensures ComesTo(w, stack, path, part, around) && part.Enter? && part.pre == l
  {
    match w
    case Enter(pre, inside, after) =>
      if l == pre {
        path, part, around := [], w, stack;
      } else if l in LoopsIn(inside) {
        path, part, around := LoopPath(inside, stack + [pre], l);
        path := [0] + path;
      } else {
        path, part, around := LoopPath(after, stack, l);
        path := [1] + path;
      }
    case Block(_, succs) =>
      OneOfAll(succs, stack);
      var i :| 0 <= i < |succs| && l in LoopsIn(succs[i]);
      path, part, around := LoopPath(succs[i], stack, l);
      path := [i] + path;
  }

  lemma {:induction false} LoopFound(w: Walk, stack: seq<LoopId>, path: seq<nat>, part: Walk, around: seq<LoopId>)
    requires ComesTo(w, stack, path, part, around) && part.Enter?
    ensures part.pre in LoopsIn(w)
    decreases |path|
  {
    if path != [] {
      match w
      case Enter(pre, inside, after) =>
        if path[0] == 0 {
          LoopFound(inside, stack + [pre], path[1..], part, around);
        } else {
          LoopFound(after, stack, path[1..], part, around);
        }
      case Block(_, succs) =>
        LoopFound(succs[path[0]], stack, path[1..], part, around);
        OneOfAll(succs, stack);
    }
  }

  /** The forest is the nesting of the walk, and a definition is met before its uses: with it, its loops. */
  predicate Agrees(f: Forest, w: Walk, stack: seq<LoopId>, known: set<LoopId>) {
    match w
    case Block(uses, succs) =>
      && (forall u :: u in uses && u.def.Some? ==> u.def.value in known)
      && (forall i :: 0 <= i < |succs| ==> Agrees(f, succs[i], stack, known))
    case Enter(pre, inside, after) =>
      && pre in f.depth && f.Parent(pre) == Top(stack)
      && Agrees(f, inside, stack + [pre], known + {pre}) && Agrees(f, after, stack, known + {pre} + LoopsIn(inside))
  }

  /** Which values are to be given out of which loops, because of uses at `sites`. */
  ghost function Outs(f: Forest, sites: set<Site>): set<(LoopId, Val)>
    requires f.Valid()
  {
    set s, l | s in sites && l in LeftBy(f, s) :: (l, s.use.val)
  }

  ghost function Ins(f: Forest, sites: set<Site>): set<(LoopId, Val)>
    requires f.Valid()
  {
    set s, l | s in sites && l in EnteredBy(f, s) :: (l, s.use.val)
  }

  /** `m'` holds what `m` does and `more`, and without a duplicate if `m` is without. */
  ghost predicate Extended(m: map<LoopId, seq<Val>>, m': map<LoopId, seq<Val>>, more: set<(LoopId, Val)>) {
    && (forall l, v :: v in Get(m', l) <==> v in Get(m, l) || (l, v) in more)
    && (forall l :: NoDup(Get(m, l)) ==> NoDup(Get(m', l)))
  }

  lemma ExtendedThen(m: map<LoopId, seq<Val>>, m1: map<LoopId, seq<Val>>, m2: map<LoopId, seq<Val>>,
                     a: set<(LoopId, Val)>, b: set<(LoopId, Val)>)
    requires Extended(m, m1, a) && Extended(m1, m2, b)
    ensures Extended(m, m2, a + b)
  {
    hide Get, NoDup;
  }

  lemma AddedExtends(m: map<LoopId, seq<Val>>, m': map<LoopId, seq<Val>>, ls: set<LoopId>, v: Val)
    requires AddedAt(m, m', ls, v)
    ensures Extended(m, m', set l | l in ls :: (l, v))
  {
    forall l ensures Get(m', l) == if l in ls then Added(Get(m, l), v) else Get(m, l) {
    }
    hide Get;
  }

  datatype Lists = Lists(ins: map<LoopId, seq<Val>>, outs: map<LoopId, seq<Val>>)

  /** The lists once the uses at `sites` have been dealt with too. */
  ghost predicate Gained(f: Forest, was: Lists, now: Lists, sites: set<Site>)
    requires f.Valid()
  {
    Extended(was.outs, now.outs, Outs(f, sites)) && Extended(was.ins, now.ins, Ins(f, sites))
  }

  lemma NothingGained(f: Forest, was: Lists)
    requires f.Valid()
    ensures Gained(f, was, was, {})
  {
  }

  lemma GainedThen(f: Forest, was: Lists, mid: Lists, now: Lists, a: set<Site>, b: set<Site>)
    requires f.Valid() && Gained(f, was, mid, a) && Gained(f, mid, now, b)
    ensures Gained(f, was, now, a + b)
  {
    hide Extended, Outs, Ins;
    PairsOfUnion(f, a, b);
    ExtendedThen(was.outs, mid.outs, now.outs, Outs(f, a), Outs(f, b));
    ExtendedThen(was.ins, mid.ins, now.ins, Ins(f, a), Ins(f, b));
  }

  lemma AddedGains(f: Forest, was: Lists, now: Lists, s: Site)
    requires f.Valid() && AddedAt(was.outs, now.outs, LeftBy(f, s), s.use.val)
      && AddedAt(was.ins, now.ins, EnteredBy(f, s), s.use.val)
    ensures Gained(f, was, now, {s})
  {
    hide Extended, Outs, Ins, AddedAt, LeftBy, EnteredBy;
    AddedExtends(was.outs, now.outs, LeftBy(f, s), s.use.val);
    AddedExtends(was.ins, now.ins, EnteredBy(f, s), s.use.val);
    PairsOfOne(f, s);
  }

  /** What is due to a union of sites. */
  lemma PairsOfUnion(f: Forest, a: set<Site>, b: set<Site>)
    requires f.Valid()
    ensures Outs(f, a + b) == Outs(f, a) + Outs(f, b) && Ins(f, a + b) == Ins(f, a) + Ins(f, b)
  {
    hide LeftBy, EnteredBy;
  }

  lemma PairsOfOne(f: Forest, s: Site)
    requires f.Valid()
    ensures Outs(f, {s}) == (set l | l in LeftBy(f, s) :: (l, s.use.val))
    ensures Ins(f, {s}) == (set l | l in EnteredBy(f, s) :: (l, s.use.val))
  {
    hide LeftBy, EnteredBy;
  }

  ghost predicate Closed(f: Forest, known: set<LoopId>) {
    f.Valid() && forall l :: l in known ==> l in f.depth && (l in f.parent ==> f.parent[l] in known)
  }

  /** The parents found so far are right, and those of the loops in `known` have been found. */
  ghost predicate Knows(f: Forest, known: set<LoopId>, outer: map<LoopId, LoopId>) {
    && Closed(f, known)
    && (forall l :: l in outer ==> l in f.parent && outer[l] == f.parent[l])
    && (forall l :: l in known && l in f.parent ==> l in outer)
  }

  lemma KnowsBoth(f: Forest, k: set<LoopId>, k': set<LoopId>, was: map<LoopId, LoopId>, outer: map<LoopId, LoopId>)
    requires Knows(f, k, was) && Knows(f, k', outer) && was.Keys <= outer.Keys
    ensures Knows(f, k, outer) && Knows(f, k + k', outer)
  {
  }

  class LoopContext {
    var passIn: map<LoopId, seq<Val>>
    var passOut: map<LoopId, seq<Val>>
    var outer: map<LoopId, LoopId>

    constructor ()
      ensures passIn == map[] && passOut == map[] && outer == map[]
    {
      passIn, passOut, outer := map[], map[], map[];
    }

    method UpdateParent(pre: LoopId, out: Option<LoopId>)
      modifies this`outer
      ensures outer == if out.Some? then old(outer)[pre := out.value] else old(outer)
    {
      if out.Some? {
        outer := outer[pre := out.value];
      }
    }

    method AddPassIn(l: LoopId, v: Val)
      modifies this`passIn
      ensures AddedAt(old(passIn), passIn, {l}, v)
    {
      if v !in Get(passIn, l) {
        passIn := passIn[l := Get(passIn, l) + [v]];
      }
    }

    method AddPassOut(l: LoopId, v: Val)
      modifies this`passOut
      ensures AddedAt(old(passOut), passOut, {l}, v)
    {
      if v !in Get(passOut, l) {
        passOut := passOut[l := Get(passOut, l) + [v]];
      }
    }

    /** `recursive_update_pass`: from the definition outwards up to the first loop that is also around the use,
        then from the use outwards up to that loop. */
    method RecursiveUpdatePass(ghost f: Forest, ghost known: set<LoopId>, def: Option<LoopId>, stack: seq<LoopId>,
                               val: Val)
      requires f.Valid() && Knows(f, known, outer) && IsStack(f, stack) && (def.Some? ==> def.value in known)
      modifies this`passIn, this`passOut
      ensures AddedAt(old(passOut), passOut, LeftBy(f, Site(Use(def, val), stack)), val)
      ensures AddedAt(old(passIn), passIn, EnteredBy(f, Site(Use(def, val), stack)), val)
    {
      ghost var done;
      var common;
      common, done := PassOutwards(f, known, def, stack, val);
      Leaving(f, def, stack, common, done);
      PassInwards(f, def, stack, common, done, val);
    }

    method PassOutwards(ghost f: Forest, ghost known: set<LoopId>, def: Option<LoopId>, stack: seq<LoopId>, val: Val)
      returns (loop: Option<LoopId>, ghost done: seq<LoopId>)
      requires Knows(f, known, outer) && (def.Some? ==> def.value in known)
      modifies this`passOut
      ensures f.Chain(def) == done + f.Chain(loop) && (forall l :: l in done ==> l !in stack)
      ensures loop.Some? ==> loop.value in stack
      ensures AddedAt(old(passOut), passOut, Elements(done), val)
    {
      hide AddedAt;
      loop := def;
      done := [];
      NothingAdded(passOut, val);
      assert Elements([]) == {};
      while loop.Some? && loop.value !in stack
        invariant loop.Some? ==> loop.value in known
        invariant f.Chain(def) == done + f.Chain(loop)
        invariant forall l :: l in done ==> l !in stack
        invariant AddedAt(old(passOut), passOut, Elements(done), val)
        decreases |f.Chain(loop)|
      {
        assert f.Chain(loop) == [loop.value] + f.Chain(f.Parent(loop.value));
        ghost var before := passOut;
        AddPassOut(loop.value, val);
        AddedThen(old(passOut), before, passOut, Elements(done), loop.value, val);
        assert Elements(done + [loop.value]) == Elements(done) + {loop.value};
        done := done + [loop.value];
        loop := if loop.value in outer then Some(outer[loop.value]) else None;
      }
    }

    method PassInwards(ghost f: Forest, ghost def: Option<LoopId>, stack: seq<LoopId>, common: Option<LoopId>,
                       ghost done: seq<LoopId>, val: Val)
      requires f.Valid() && IsStack(f, stack) && f.Chain(def) == done + f.Chain(common)
      requires (forall l :: l in done ==> l !in stack) && (common.Some? ==> common.value in stack)
      modifies this`passIn
      ensures AddedAt(old(passIn), passIn, EnteredBy(f, Site(Use(def, val), stack)), val)
    {
      hide IsStack, AddedAt;
      var i := |stack|;
      NothingAdded(passIn, val);
      while i > 0 && Some(stack[i - 1]) != common
        invariant 0 <= i <= |stack|
        invariant common.Some? ==> common.value in stack[..i]
        invariant Elements(stack[|stack|..]) == {} && AddedAt(old(passIn), passIn, Elements(stack[i..]), val)
      {
        assert stack[i - 1..] == [stack[i - 1]] + stack[i..];
        assert stack[..i] == stack[..i - 1] + [stack[i - 1]];
        ghost var before := passIn;
        AddPassIn(stack[i - 1], val);
        AddedThen(old(passIn), before, passIn, Elements(stack[i..]), stack[i - 1], val);
        assert Elements(stack[i - 1..]) == Elements(stack[i..]) + {stack[i - 1]};
        i := i - 1;
      }
      Entering(f, def, stack, common, done, i);
    }

    function State(): Lists
      reads this
    {
      Lists(passIn, passOut)
    }

    /** The walk.  `stack` are the loops around `w`. */
    method PassAnalysis(ghost f: Forest, ghost known: set<LoopId>, w: Walk, stack: seq<LoopId>)
      requires f.Valid() && Knows(f, known, outer) && IsStack(f, stack) && Elements(stack) <= known
        && Agrees(f, w, stack, known)
      modifies this
      ensures Knows(f, known + LoopsIn(w), outer)
      ensures old(outer).Keys <= outer.Keys
      ensures Gained(f, old(State()), State(), SitesIn(w, stack))
      decreases w
    {
      hide Gained, SitesHere, Outs, Ins, IsStack, Knows;
      ghost var was := State();
      match w
      case Enter(pre, inside, after) =>
        EnterLoop(f, known, pre, stack);
        PassAnalysis(f, known + {pre}, inside, stack + [pre]);
        ghost var mid := State();
        PassAnalysis(f, known + {pre} + LoopsIn(inside), after, stack);
        GainedThen(f, was, mid, State(), SitesIn(inside, stack + [pre]), SitesIn(after, stack));
        assert known + {pre} + LoopsIn(inside) + LoopsIn(after) == known + LoopsIn(w);
      case Block(uses, succs) =>
        PassHere(f, known, uses, stack);
        assert succs[..0] == [] && known + LoopsInAll([]) == known
          && SitesHere(uses, stack) + SitesInAll([], stack) == SitesHere(uses, stack);
        for i := 0 to |succs|
          invariant Knows(f, known, outer) && Knows(f, known + LoopsInAll(succs[..i]), outer)
          invariant old(outer).Keys <= outer.Keys
          invariant Gained(f, was, State(), SitesHere(uses, stack) + SitesInAll(succs[..i], stack))
        {
          ghost var mid := State();
          ghost var outer' := outer;
          PassAnalysis(f, known, succs[i], stack);
          KnowsBoth(f, known + LoopsInAll(succs[..i]), known + LoopsIn(succs[i]), outer', outer);
          KnowsBoth(f, known, known + LoopsIn(succs[i]), outer', outer);
          assert known + LoopsInAll(succs[..i]) + (known + LoopsIn(succs[i])) ==
            known + (LoopsInAll(succs[..i]) + LoopsIn(succs[i]));
          assert succs[..i + 1][..i] == succs[..i];
          GainedThen(f, was, mid, State(), SitesHere(uses, stack) + SitesInAll(succs[..i], stack),
            SitesIn(succs[i], stack));
          assert SitesHere(uses, stack) + SitesInAll(succs[..i], stack) + SitesIn(succs[i], stack)
              == SitesHere(uses, stack) + SitesInAll(succs[..i + 1], stack);
        }
        assert succs[..|succs|] == succs;
    }

    method EnterLoop(ghost f: Forest, ghost known: set<LoopId>, pre: LoopId, stack: seq<LoopId>)
      requires f.Valid() && Knows(f, known, outer) && IsStack(f, stack) && Elements(stack) <= known && pre in f.depth
        && f.Parent(pre) == Top(stack)
      modifies this`outer
      ensures old(outer).Keys <= outer.Keys
      ensures Knows(f, known + {pre}, outer) && IsStack(f, stack + [pre])
    {
      UpdateParent(pre, Top(stack));
      assert (stack + [pre])[..|stack|] == stack;
      assert stack != [] ==> stack[|stack| - 1] in Elements(stack);
    }

    method PassHere(ghost f: Forest, ghost known: set<LoopId>, uses: seq<Use>, stack: seq<LoopId>)
      requires f.Valid() && Knows(f, known, outer) && IsStack(f, stack)
      requires forall u :: u in uses && u.def.Some? ==> u.def.value in known
      modifies this`passIn, this`passOut
      ensures Gained(f, old(State()), State(), SitesHere(uses, stack))
    {
      hide Gained, Outs, Ins, Knows, IsStack;
      ghost var was := State();
      NothingGained(f, was);
      assert SitesHere(uses[..0], stack) == {};
      for i := 0 to |uses|
        invariant Knows(f, known, outer) && Gained(f, was, State(), SitesHere(uses[..i], stack))
      {
        ghost var mid := State();
        RecursiveUpdatePass(f, known, uses[i].def, stack, uses[i].val);
        AddedGains(f, mid, State(), Site(uses[i], stack));
        GainedThen(f, was, mid, State(), SitesHere(uses[..i], stack), {Site(uses[i], stack)});
        assert SitesHere(uses[..i + 1], stack) == SitesHere(uses[..i], stack) + {Site(uses[i], stack)};
      }
      assert uses[..|uses|] == uses;
    }
  }

  /** Nothing beyond the first common loop is left. */
  lemma Leaving(f: Forest, def: Option<LoopId>, stack: seq<LoopId>, common: Option<LoopId>, done: seq<LoopId>)
    requires f.Valid() && IsStack(f, stack) && f.Chain(def) == done + f.Chain(common)
    requires common.Some? ==> common.value in stack
    requires forall l :: l in done ==> l !in stack
    ensures Elements(done) == set l | l in f.Chain(def) && l !in stack
  {
    if common.Some? {
      StackIsChain(f, stack);
      f.ChainTransitive(Top(stack), common.value);
    }
    forall l ensures l in done <==> l in f.Chain(def) && l !in stack {
    }
  }

  lemma Entering(f: Forest, def: Option<LoopId>, stack: seq<LoopId>, common: Option<LoopId>, done: seq<LoopId>, i: nat)
    requires f.Valid() && IsStack(f, stack) && f.Chain(def) == done + f.Chain(common)
    requires forall l :: l in done ==> l !in stack
    requires i <= |stack| && (if i == 0 then common.None? else common == Some(stack[i - 1]))
    ensures Elements(stack[i..]) == set l | l in stack && l !in f.Chain(def)
  {
    StackPrefix(f, stack, i);
    StackIsChain(f, stack[..i]);
    StackDistinct(f, stack, i);
    assert Top(stack[..i]) == common;
    assert stack == stack[..i] + stack[i..];
    forall l ensures l in stack[i..] <==> l in stack && l !in f.Chain(def) {
    }
  }

  lemma {:induction false} StackPrefix(f: Forest, stack: seq<LoopId>, i: nat)
    requires f.Valid() && IsStack(f, stack) && i <= |stack|
    ensures IsStack(f, stack[..i])
  {
    if i < |stack| {
      StackPrefix(f, stack[..|stack| - 1], i);
      assert stack[..|stack| - 1][..i] == stack[..i];
    } else {
      assert stack[..i] == stack;
    }
  }

  lemma {:induction false} StackDistinct(f: Forest, stack: seq<LoopId>, i: nat)
    requires f.Valid() && IsStack(f, stack) && i <= |stack|
    ensures forall l :: l in stack[..i] ==> l !in stack[i..]
  {
    if i < |stack| {
      var last := stack[|stack| - 1];
      var rest := stack[..|stack| - 1];
      StackDistinct(f, rest, i);
      assert rest[..i] == stack[..i] && stack[i..] == rest[i..] + [last];
      StackIsChain(f, rest);
      f.ChainDepth(last);
      assert rest == rest[..i] + rest[i..];
    }
  }

  // ---------- every operand can be carried from its definition to its use

  /** The walk over a whole function. */
  method Analyse(ghost f: Forest, w: Walk) returns (context: LoopContext)
    requires f.Valid() && Agrees(f, w, [], {})
    ensures fresh(context)
    ensures forall l, v :: v in Get(context.passOut, l) <==>
      exists s :: IsSite(w, [], s) && s.use.val == v && l in LeftBy(f, s)
    ensures forall l, v :: v in Get(context.passIn, l) <==> exists s ::
      IsSite(w, [], s) && s.use.val == v && l in EnteredBy(f, s)
    ensures forall l :: NoDup(Get(context.passOut, l)) && NoDup(Get(context.passIn, l))
    ensures forall s :: IsSite(w, [], s) ==> InScope(f, context.State(), s)
  {
    context := new LoopContext();
    context.PassAnalysis(f, {}, w, []);
    hide Gained, InScope, LeftBy, EnteredBy, Get, NoDup, IsSite, SitesIn;
    forall s ensures s in SitesIn(w, []) <==> IsSite(w, [], s) {
      SitesIff(w, [], s);
    }
    ListedExactly(f, context.State(), SitesIn(w, []));
    forall s | s in SitesIn(w, []) ensures InScope(f, context.State(), s) {
      SiteStacks(f, w, [], {}, s);
      OperandInScope(f, context.State(), SitesIn(w, []), s);
    }
  }

  /** A value moves one loop outwards if that loop gives it out, and one loop inwards if that loop takes it in. */
  ghost predicate Carries(f: Forest, lists: Lists, v: Val, here: Option<LoopId>, there: Option<LoopId>) {
    || (here.Some? && there == f.Parent(here.value) && v in Get(lists.outs, here.value))
    || (there.Some? && here == f.Parent(there.value) && v in Get(lists.ins, there.value))
  }

  ghost predicate IsRoute(f: Forest, lists: Lists, v: Val, route: seq<Option<LoopId>>) {
    route != [] && forall i :: 0 < i < |route| ==> Carries(f, lists, v, route[i - 1], route[i])
  }

  ghost predicate InScope(f: Forest, lists: Lists, s: Site) {
    exists route :: IsRoute(f, lists, s.use.val, route) && route[0] == s.use.def && route[|route| - 1] == Top(s.stack)
  }

  ghost function Outwards(f: Forest, from: Option<LoopId>, stack: seq<LoopId>): (route: seq<Option<LoopId>>)
    requires f.Valid()
    ensures route != [] && route[0] == from
    decreases |f.Chain(from)|
  {
    if from.None? || from.value in stack then [from]
    else
      assert f.Chain(from) == [from.value] + f.Chain(f.Parent(from.value));
      [from] + Outwards(f, f.Parent(from.value), stack)
  }

  ghost function Inwards(f: Forest, def: Option<LoopId>, stack: seq<LoopId>): (route: seq<Option<LoopId>>)
    requires f.Valid()
    ensures route != [] && route[|route| - 1] == Top(stack)
  {
    if stack == [] || stack[|stack| - 1] in f.Chain(def) then [Top(stack)]
    else Inwards(f, def, stack[..|stack| - 1]) + [Top(stack)]
  }

  lemma {:induction false} OutwardsCarries(f: Forest, lists: Lists, v: Val, from: Option<LoopId>, stack: seq<LoopId>)
    requires f.Valid() && forall l :: l in f.Chain(from) && l !in stack ==> v in Get(lists.outs, l)
    ensures IsRoute(f, lists, v, Outwards(f, from, stack))
    ensures var last := Outwards(f, from, stack)[|Outwards(f, from, stack)| - 1];
      && (last.Some? ==> last.value in stack && last.value in f.Chain(from))
      && (forall l :: l in f.Chain(from) && l in stack ==> l in f.Chain(last))
    decreases |f.Chain(from)|
  {
    if from.Some? && from.value !in stack {
      var next := f.Parent(from.value);
      assert f.Chain(from) == [from.value] + f.Chain(next);
      OutwardsCarries(f, lists, v, next, stack);
      var rest := Outwards(f, next, stack);
      assert Outwards(f, from, stack) == [from] + rest;
      forall i | 0 < i < |[from] + rest| ensures Carries(f, lists, v, ([from] + rest)[i - 1], ([from] + rest)[i]) {
        if i > 1 {
          assert Carries(f, lists, v, rest[i - 2], rest[i - 1]);
        }
      }
    }
  }

  lemma {:induction false} InwardsCarries(f: Forest, lists: Lists, v: Val, def: Option<LoopId>, stack: seq<LoopId>)
    requires f.Valid() && IsStack(f, stack) && forall l :: l in stack && l !in f.Chain(def) ==> v in Get(lists.ins, l)
    ensures IsRoute(f, lists, v, Inwards(f, def, stack))
    ensures var first := Inwards(f, def, stack)[0];
      && (first.Some? ==> first.value in stack && first.value in f.Chain(def))
      && (forall l :: l in stack && l in f.Chain(def) ==> l in f.Chain(first))
  {
    StackIsChain(f, stack);
    if stack != [] && stack[|stack| - 1] !in f.Chain(def) {
      var outer := stack[..|stack| - 1];
      assert stack == outer + [stack[|stack| - 1]];
      InwardsCarries(f, lists, v, def, outer);
      var rest := Inwards(f, def, outer);
      forall i | 0 < i < |rest + [Top(stack)]| ensures Carries(f, lists, v, (rest + [Top(stack)])[i - 1],
        (rest + [Top(stack)])[i]) {
        if i < |rest| {
          assert Carries(f, lists, v, rest[i - 1], rest[i]);
        }
      }
    }
  }

  lemma {:induction false} SameLoop(f: Forest, a: Option<LoopId>, b: Option<LoopId>)
    requires f.Valid() && (a.Some? ==> a.value in f.depth && a.value in f.Chain(b))
      && (b.Some? ==> b.value in f.depth && b.value in f.Chain(a))
    ensures a == b
  {
    if a.Some? && b.Some? {
      f.ChainDepth(a.value);
      f.ChainDepth(b.value);
    }
  }

  /** With the lists that the uses at `sites` have led to, the operand of each of them can be brought to its use. */
  lemma OperandInScope(f: Forest, lists: Lists, sites: set<Site>, s: Site)
    requires f.Valid() && Gained(f, Lists(map[], map[]), lists, sites) && s in sites && IsStack(f, s.stack)
    ensures InScope(f, lists, s)
  {
    hide IsRoute, Outwards, Inwards, Gained, IsStack, Get;
    var v, up, down := s.use.val, Outwards(f, s.use.def, s.stack), Inwards(f, s.use.def, s.stack);
    ListedExactly(f, lists, sites);
    OutwardsCarries(f, lists, v, s.use.def, s.stack);
    InwardsCarries(f, lists, v, s.use.def, s.stack);
    StackKnown(f, s.stack);
    SameLoop(f, up[|up| - 1], down[0]);
    JoinRoutes(f, lists, v, up, down);
  }

  lemma StackKnown(f: Forest, stack: seq<LoopId>)
    requires f.Valid() && IsStack(f, stack)
    ensures forall l :: l in stack ==> l in f.depth
  {
  }

  lemma JoinRoutes(f: Forest, lists: Lists, v: Val, up: seq<Option<LoopId>>, down: seq<Option<LoopId>>)
    requires IsRoute(f, lists, v, up) && IsRoute(f, lists, v, down) && up[|up| - 1] == down[0]
    ensures IsRoute(f, lists, v, up + down[1..])
    ensures var route := up + down[1..]; route[0] == up[0] && route[|route| - 1] == down[|down| - 1]
  {
    hide Carries;
    var route := up + down[1..];
    forall i | 0 < i < |route| ensures Carries(f, lists, v, route[i - 1], route[i]) {
      if i < |up| {
        assert Carries(f, lists, v, up[i - 1], up[i]);
      } else {
        assert Carries(f, lists, v, down[i - |up|], down[i - |up| + 1]);
      }
    }
  }

  /** The lists hold what the uses call for and nothing else. */
  lemma ListedExactly(f: Forest, lists: Lists, sites: set<Site>)
    requires f.Valid() && Gained(f, Lists(map[], map[]), lists, sites)
    ensures forall l, v :: v in Get(lists.outs, l) <==> exists s :: s in sites && s.use.val == v && l in LeftBy(f, s)
    ensures forall l, v :: v in Get(lists.ins, l) <==> exists s :: s in sites && s.use.val == v && l in EnteredBy(f, s)
    ensures forall l :: NoDup(Get(lists.outs, l)) && NoDup(Get(lists.ins, l))
  {
    hide LeftBy, EnteredBy;
    forall l, v ensures v in Get(lists.outs, l) <==> (l, v) in Outs(f, sites) {
    }
    forall l, v ensures v in Get(lists.ins, l) <==> (l, v) in Ins(f, sites) {
    }
  }

  lemma {:induction false} SiteStacks(f: Forest, w: Walk, stack: seq<LoopId>, known: set<LoopId>, s: Site)
    requires f.Valid() && IsStack(f, stack) && Agrees(f, w, stack, known) && s in SitesIn(w, stack)
    ensures IsStack(f, s.stack)
  {
    match w
    case Enter(pre, inside, after) =>
      assert (stack + [pre])[..|stack|] == stack;
      if s in SitesIn(inside, stack + [pre]) {
        SiteStacks(f, inside, stack + [pre], known + {pre}, s);
      } else {
        SiteStacks(f, after, stack, known + {pre} + LoopsIn(inside), s);
      }
    case Block(uses, succs) =>
      if s !in SitesHere(uses, stack) {
        var i := SiteAmong(succs, stack, s);
        SiteStacks(f, succs[i], stack, known, s);
      }
  }

  lemma {:induction false} SiteAmong(ws: seq<Walk>, stack: seq<LoopId>, s: Site) returns (i: nat)
    requires s in SitesInAll(ws, stack)
    ensures i < |ws| && s in SitesIn(ws[i], stack)
  {
    i := |ws| - 1;
    if s !in SitesIn(ws[i], stack) {
      i := SiteAmong(ws[..|ws| - 1], stack, s);
    }
  }
}
