/** Walks in a call graph, and breaking its cycles. */
module CallGraph {
  import opened Prelude

  type Func = string

  /** Calls to functions that are not in the graph are passed over. */
  type Graph = map<Func, seq<Func>>

  ghost predicate IsWalk(g: Graph, w: seq<Func>) {
    && w != [] && (forall i :: 0 <= i < |w| ==> w[i] in g)
    && forall i :: 0 < i < |w| ==> w[i] in g[w[i - 1]]
  }

  /** A walk without repetition whose last function calls one of its functions. */
  ghost predicate IsLasso(g: Graph, w: seq<Func>) {
    IsWalk(g, w) && NoDup(w) && exists k :: 0 <= k < |w| && w[k] in g[w[|w| - 1]]
  }

  // ---------- all lassos

  /** What the search from `x`, called along `stamp`, is to find. */
  ghost predicate Wanted(g: Graph, stamp: seq<Func>, x: Func, c: seq<Func>) {
    IsLasso(g, c) && if x in stamp then c == stamp else stamp + [x] <= c
  }

  lemma WantedNext(g: Graph, stamp: seq<Func>, x: Func, c: seq<Func>)
    requires x in g && x !in stamp && Wanted(g, stamp, x, c)
    ensures exists j :: 0 <= j < |g[x]| && g[x][j] in g && Wanted(g, stamp + [x], g[x][j], c)
  {
    var next := stamp + [x];
    if c == next {
      var k :| 0 <= k < |c| && c[k] in g[c[|c| - 1]];
      var j :| 0 <= j < |g[x]| && g[x][j] == c[k];
      assert c[k] in c;
      assert Wanted(g, next, g[x][j], c);
    } else {
      var n := |next|;
      assert c[n - 1] == next[n - 1] == x && c[n] in g[c[n - 1]];
      var j :| 0 <= j < |g[x]| && g[x][j] == c[n];
      assert c[..n + 1] == next + [c[n]];
      forall i | 0 <= i < n ensures next[i] != c[n] {
        assert c[i] == next[i];
      }
      assert Wanted(g, next, g[x][j], c);
    }
  }

  lemma NothingWanted(g: Graph, stamp: seq<Func>, x: Func)
    requires x in g && x !in stamp && g[x] == []
    ensures forall c :: !Wanted(g, stamp, x, c)
  {
    forall c ensures !Wanted(g, stamp, x, c) {
      if Wanted(g, stamp, x, c) {
        WantedNext(g, stamp, x, c);
      }
    }
  }

  /** `dfs`: every walk without repetition is followed to its end. */
  method Dfs(g: Graph, x: Func, stamp: seq<Func>, cycles0: seq<seq<Func>>) returns (cycle: bool, cycles: seq<seq<Func>>)
    requires NoDup(stamp) && IsWalk(g, stamp + [x])
    ensures cycles0 <= cycles && (cycle <==> |cycles| > |cycles0|)
    ensures forall k :: |cycles0| <= k < |cycles| ==> Wanted(g, stamp, x, cycles[k])
    ensures forall c :: Wanted(g, stamp, x, c) ==> c in cycles
    decreases |g| + 1 - |stamp|
  {
    StampFits(g, stamp, x);
    if x in stamp {
      assert IsLasso(g, stamp) by {
        LassoHere(g, stamp, x);
      }
      return true, cycles0 + [stamp];
    }
    var next := stamp + [x];
    assert NoDup(next);
    cycle, cycles := false, cycles0;
    if |g[x]| == 0 {
      NothingWanted(g, stamp, x);
      return;
    }
    for i := 0 to |g[x]|
      invariant cycles0 <= cycles && (cycle <==> |cycles| > |cycles0|)
      invariant forall k :: |cycles0| <= k < |cycles| ==> Wanted(g, stamp, x, cycles[k])
      invariant forall j, c :: 0 <= j < i && g[x][j] in g && Wanted(g, next, g[x][j], c) ==> c in cycles
    {
      var suc := g[x][i];
      if suc !in g {
        continue;
      }
      WalkExtends(g, next, suc);
      var before := cycles;
      var found, more := Dfs(g, suc, next, cycles);
      Longer(g, stamp, x, suc, cycles0, before, more);
      cycle, cycles := cycle || found, more;
    }
    forall c | Wanted(g, stamp, x, c) ensures c in cycles {
      WantedNext(g, stamp, x, c);
    }
  }

  lemma StampFits(g: Graph, stamp: seq<Func>, x: Func)
    requires NoDup(stamp) && IsWalk(g, stamp + [x])
    ensures x in g && |stamp| <= |g| && (x !in stamp ==> |stamp| < |g|)
  {
    var w := stamp + [x];
    assert w[|stamp|] == x;
    forall y | y in w ensures y in g.Keys {
    }
    NoDupLength(stamp, g.Keys);
    if x !in stamp {
      NoDupLength(w, g.Keys);
    }
  }

  lemma LassoHere(g: Graph, stamp: seq<Func>, x: Func)
    requires NoDup(stamp) && IsWalk(g, stamp + [x]) && x in stamp
    ensures IsLasso(g, stamp)
  {
    var w := stamp + [x];
    var k :| 0 <= k < |stamp| && stamp[k] == x;
    forall i | 0 <= i < |stamp| ensures stamp[i] == w[i] {
    }
    assert w[|stamp|] == x && w[|stamp|] in g[w[|stamp| - 1]];
    assert stamp[k] in g[stamp[|stamp| - 1]];
  }

  lemma WalkExtends(g: Graph, w: seq<Func>, y: Func)
    requires IsWalk(g, w) && y in g && y in g[w[|w| - 1]]
    ensures IsWalk(g, w + [y])
  {
  }

  lemma Longer(g: Graph, stamp: seq<Func>, x: Func, suc: Func, first: seq<seq<Func>>, before: seq<seq<Func>>,
               after: seq<seq<Func>>)
    requires first <= before <= after && x !in stamp
    requires forall k :: |first| <= k < |before| ==> Wanted(g, stamp, x, before[k])
    requires forall k :: |before| <= k < |after| ==> Wanted(g, stamp + [x], suc, after[k])
    ensures first <= after && forall k :: |first| <= k < |after| ==> Wanted(g, stamp, x, after[k])
    ensures forall c :: c in before ==> c in after
  {
    hide IsLasso;
    forall k | |first| <= k < |before| ensures Wanted(g, stamp, x, after[k]) {
      assert after[k] == before[k];
    }
  }

  /** A lasso from one of the tops. */
  ghost predicate LassoFrom(g: Graph, top: seq<Func>, c: seq<Func>) {
    IsLasso(g, c) && c[0] in top
  }

  /** The last function of such a lasso. */
  ghost predicate EndsLasso(g: Graph, top: seq<Func>, f: Func) {
    exists c :: LassoFrom(g, top, c) && c[|c| - 1] == f
  }

  /** All lassos from the functions in `source`, and nothing else. */
  method FindCycle(g: Graph, source: seq<Func>) returns (cycle: bool, cycles: seq<seq<Func>>)
    requires forall f :: f in source ==> f in g
    ensures cycle <==> cycles != []
    ensures forall c :: c in cycles <==> LassoFrom(g, source, c)
  {
    cycle, cycles := false, [];
    for i := 0 to |source|
      invariant cycle <==> cycles != []
      invariant forall k :: 0 <= k < |cycles| ==> LassoFrom(g, source[..i], cycles[k])
      invariant forall c :: LassoFrom(g, source[..i], c) ==> c in cycles
    {
      var before := cycles;
      var found, more := Dfs(g, source[i], [], cycles);
      assert source[..i + 1] == source[..i] + [source[i]];
      FromNext(g, source[..i], source[i]);
      forall k | 0 <= k < |more| ensures LassoFrom(g, source[..i + 1], more[k]) {
        if k < |before| {
          assert more[k] == before[k];
        }
      }
      cycle, cycles := cycle || found, more;
    }
    assert source[..|source|] == source;
  }

  lemma FromNext(g: Graph, source: seq<Func>, x: Func)
    ensures forall c :: LassoFrom(g, source + [x], c) <==> LassoFrom(g, source, c) || Wanted(g, [], x, c)
  {
    hide IsWalk, NoDup;
    forall c ensures LassoFrom(g, source + [x], c) <==> LassoFrom(g, source, c) || Wanted(g, [], x, c) {
      assert [] + [x] == [x];
    }
  }

  /** `break_cycle`: the last function that calls anything, with its distance from the end. */
  method BreakCycle(g: Graph, c: seq<Func>) returns (distance: nat, f: Func)
    requires c != [] && forall f :: f in c ==> f in g
    ensures distance < |c| && f == c[|c| - 1 - distance] && (g[f] != [] || f == c[0])
    ensures forall k :: |c| - distance <= k < |c| ==> g[c[k]] == []
  {
    for i := |c| downto 0
      invariant forall k :: i <= k < |c| ==> g[c[k]] == []
    {
      assert c[i] in c;
      if |g[c[i]]| != 0 {
        return |c| - 1 - i, c[i];
      }
    }
    return |c| - 1, c[0];
  }

  /** For a lasso this is the very last. */
  lemma LassoLast(g: Graph, c: seq<Func>)
    requires IsLasso(g, c)
    ensures c != [] && (forall f :: f in c ==> f in g) && g[c[|c| - 1]] != []
  {
  }

  // ---------- reachable functions

  ghost predicate Route(g: Graph, source: seq<Func>, sink: seq<Func>, w: seq<Func>) {
    IsWalk(g, w) && w[0] in source && forall i :: 0 <= i < |w| - 1 ==> w[i] !in sink
  }

  /** Called along functions that are not among the sinks. */
  ghost predicate Reachable(g: Graph, source: seq<Func>, sink: seq<Func>, f: Func) {
    exists w :: Route(g, source, sink, w) && w[|w| - 1] == f
  }

  lemma ReachableSource(g: Graph, source: seq<Func>, sink: seq<Func>, f: Func)
    requires f in source && f in g
    ensures Reachable(g, source, sink, f)
  {
    assert Route(g, source, sink, [f]);
  }

  lemma ReachableNext(g: Graph, source: seq<Func>, sink: seq<Func>, f: Func, s: Func)
    requires Reachable(g, source, sink, f) && f !in sink && s in g && s in g[f]
    ensures Reachable(g, source, sink, s)
  {
    var w :| Route(g, source, sink, w) && w[|w| - 1] == f;
    WalkExtends(g, w, s);
    assert Route(g, source, sink, w + [s]);
  }

  /** `r` has the sources, and with a function that is neither sink nor in `open` all it calls. */
  ghost predicate ClosedBut(g: Graph, source: seq<Func>, sink: seq<Func>, r: seq<Func>, open: seq<Func>) {
    && (forall f :: f in source ==> f in r)
    && (forall f, s :: f in r && f !in open && f !in sink && f in g && s in g[f] && s in g ==> s in r)
  }

  lemma {:induction false} ClosedHasAll(g: Graph, source: seq<Func>, sink: seq<Func>, r: seq<Func>, w: seq<Func>)
    requires ClosedBut(g, source, sink, r, []) && Route(g, source, sink, w)
    ensures w[|w| - 1] in r
  {
    if |w| > 1 {
      var v := w[..|w| - 1];
      ClosedHasAll(g, source, sink, r, v);
      assert v[|v| - 1] == w[|w| - 2] && w[|w| - 1] in g[w[|w| - 2]];
    }
  }

  method ComputeReachable(g: Graph, source: seq<Func>, sink: seq<Func>) returns (reachable: seq<Func>)
    requires forall f :: f in source ==> f in g
    ensures forall f :: f in reachable <==> Reachable(g, source, sink, f)
  {
    hide Reachable;
    reachable := source;
    var queue := source;
    forall f | f in source ensures Reachable(g, source, sink, f) {
      ReachableSource(g, source, sink, f);
    }
    while queue != []
      invariant ClosedBut(g, source, sink, reachable, queue)
      invariant forall f :: f in queue ==> f in reachable
      invariant forall f :: f in reachable ==> f in g && Reachable(g, source, sink, f)
      decreases |g.Keys - Set(reachable)|, |queue|
    {
      var f := queue[0];
      var rest := queue[1..];
      assert queue == [f] + rest && f in queue;
      if f in sink {
        queue := rest;
        continue;
      }
      reachable, queue := AddCalls(g, source, sink, f, reachable, rest);
    }
    forall f | Reachable(g, source, sink, f) ensures f in reachable {
      AllReached(g, source, sink, reachable, f);
    }
  }

  lemma AllReached(g: Graph, source: seq<Func>, sink: seq<Func>, r: seq<Func>, f: Func)
    requires ClosedBut(g, source, sink, r, []) && Reachable(g, source, sink, f)
    ensures f in r
  {
    var w :| Route(g, source, sink, w) && w[|w| - 1] == f;
    ClosedHasAll(g, source, sink, r, w);
  }

  function Set(s: seq<Func>): set<Func> {
    set f | f in s
  }

  /** Enters and queues what `f` calls, unless entered before. */
  method AddCalls(g: Graph, ghost source: seq<Func>, ghost sink: seq<Func>, f: Func, reachable0: seq<Func>,
                  queue0: seq<Func>)
    returns (reachable: seq<Func>, queue: seq<Func>)
    requires f in g && f in reachable0 && f !in sink && ClosedBut(g, source, sink, reachable0, [f] + queue0)
    requires forall h :: h in queue0 ==> h in reachable0
    requires forall h :: h in reachable0 ==> h in g && Reachable(g, source, sink, h)
    ensures ClosedBut(g, source, sink, reachable, queue)
    ensures forall h :: h in queue ==> h in reachable
    ensures forall h :: h in reachable ==> h in g && Reachable(g, source, sink, h)
    ensures (reachable == reachable0 && queue == queue0) || |g.Keys - Set(reachable)| < |g.Keys - Set(reachable0)|
  {
    hide Reachable;
    reachable, queue := reachable0, queue0;
    for i := 0 to |g[f]|
      invariant forall h :: h in queue ==> h in reachable
      invariant forall h :: h in queue0 ==> h in queue
      invariant forall h :: h in reachable0 ==> h in reachable
      invariant forall h :: h in reachable ==>
        h in g && Reachable(g, source, sink, h) && (h in reachable0 || h in queue)
      invariant forall j :: 0 <= j < i && g[f][j] in g ==> g[f][j] in reachable
      invariant (reachable == reachable0 && queue == queue0) || |g.Keys - Set(reachable)| < |g.Keys - Set(reachable0)|
    {
      var suc := g[f][i];
      if suc !in g {
        continue;
      }
      if suc !in reachable {
        ReachableNext(g, source, sink, f, suc);
        FewerLeft(g.Keys, reachable, suc);
        queue := queue + [suc];
        reachable := reachable + [suc];
      }
    }
    forall h, s | h in reachable && h !in queue && h !in sink && h in g && s in g[h] && s in g ensures s in reachable {
      if h == f {
        var j :| 0 <= j < |g[f]| && g[f][j] == s;
      }
    }
  }

  lemma FewerLeft(all: set<Func>, r: seq<Func>, s: Func)
    requires s in all && s !in r
    ensures |all - Set(r + [s])| < |all - Set(r)|
  {
    assert all - Set(r + [s]) == (all - Set(r)) - {s};
  }

  // ---------- once the cycles are broken

  /** The last functions of all lassos from the tops are among the bottoms. */
  ghost predicate CyclesBroken(g: Graph, top: seq<Func>, bottom: seq<Func>) {
    forall c :: LassoFrom(g, top, c) ==> c[|c| - 1] in bottom
  }

  /** Then no walk from the tops through functions that are not bottoms comes to a function twice. */
  lemma {:induction false} NoCycleLeft(g: Graph, top: seq<Func>, bottom: seq<Func>, w: seq<Func>)
    requires CyclesBroken(g, top, bottom) && IsWalk(g, w) && w[0] in top && forall f :: f in w ==> f !in bottom
    ensures NoDup(w)
  {
    if |w| > 1 {
      var v, x := w[..|w| - 1], w[|w| - 1];
      assert w == v + [x];
      NoCycleLeft(g, top, bottom, v);
      assert v[|v| - 1] in w;
      if x in v {
        LassoHere(g, v, x);
      }
    }
  }
}
