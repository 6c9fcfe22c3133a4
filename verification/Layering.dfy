/** Layers for the functions of a call graph: the bottom functions lie in layer 0, callers above what they call. */
module Layering {
  import opened Prelude
  import opened CallGraph

  /** The functions that are spread over the layers: reachable, and not at the bottom. */
  function Active(reachable: seq<Func>, bottom: seq<Func>): set<Func> {
    set f | f in reachable && f !in bottom
  }

  function Callers(g: Graph, active: set<Func>, s: Func): set<Func> {
    set f | f in active && f in g && s in g[f]
  }

  /** What the steps are computed from. */
  ghost predicate Ready(g: Graph, top: seq<Func>, bottom: seq<Func>, reachable: seq<Func>) {
    && (forall f :: f in g ==> NoDup(g[f]))
    && NoDup(top) && (forall t :: t in top ==> t in g)
    && (forall f :: f in reachable <==> Reachable(g, top, bottom, f))
    && (forall f, t :: f in Active(reachable, bottom) && f in g && t in top ==> t !in g[f])
    && CyclesBroken(g, top, bottom)
  }

  function Count(pres: map<Func, int>, s: Func): int {
    if s in pres then pres[s] else 0
  }

  // ---------- counting callers

  ghost predicate Counted(g: Graph, callers: set<Func>, pres: map<Func, int>) {
    forall s :: s in g ==> Count(pres, s) == |Callers(g, callers, s)|
  }

  method CountCallers(g: Graph, bottom: seq<Func>, reachable: seq<Func>) returns (pres: map<Func, int>)
    requires forall f :: f in g ==> NoDup(g[f])
    ensures Counted(g, Active(reachable, bottom), pres)
  {
    hide Counted, Active, NoDup;
    ghost var active := Active(reachable, bottom);
    pres := map[];
    CountedNone(g);
    var left := g.Keys;
    assert active * (g.Keys - left) == {};
    while left != {}
      invariant left <= g.Keys && Counted(g, active * (g.Keys - left), pres)
      decreases |left|
    {
      var f :| f in left;
      OneMoreDone(active, g.Keys, left, f);
      if f in reachable && f !in bottom {
        ActiveIs(reachable, bottom, f);
        var before := pres;
        pres := CountCalls(g, f, pres);
        CountedMore(g, active * (g.Keys - left), f, before, pres);
      } else {
        NotActive(reachable, bottom, f);
      }
      left := left - {f};
    }
    CountedAll(g, active, pres);
    assert g.Keys - {} == g.Keys;
  }

  lemma CountedNone(g: Graph)
    ensures Counted(g, {}, map[])
  {
    forall s ensures Callers(g, {}, s) == {} {
    }
  }

  lemma CountedMore(g: Graph, a: set<Func>, f: Func, before: map<Func, int>, after: map<Func, int>)
    requires f in g && f !in a && Counted(g, a, before)
    requires forall s :: s in g ==> Count(after, s) == Count(before, s) + if s in g[f] then 1 else 0
    ensures Counted(g, a + {f}, after)
  {
    hide Callers, Count;
    forall s | s in g ensures Count(after, s) == |Callers(g, a + {f}, s)| {
      OneMoreCaller(g, a, f, s);
    }
  }

  lemma CountedAll(g: Graph, active: set<Func>, pres: map<Func, int>)
    ensures Counted(g, active * g.Keys, pres) ==> Counted(g, active, pres)
  {
    forall s ensures Callers(g, active * g.Keys, s) == Callers(g, active, s) {
    }
  }

  lemma OneMoreCaller(g: Graph, a: set<Func>, f: Func, s: Func)
    requires f in g && f !in a
    ensures |Callers(g, a + {f}, s)| == |Callers(g, a, s)| + if s in g[f] then 1 else 0
  {
    assert Callers(g, a + {f}, s) == Callers(g, a, s) + if s in g[f] then {f} else {};
  }

  lemma OneMoreDone(active: set<Func>, all: set<Func>, left: set<Func>, f: Func)
    requires f in left && left <= all
    ensures active * (all - (left - {f})) == active * (all - left) + if f in active then {f} else {}
    ensures f !in active ==> active * (all - (left - {f})) == active * (all - left)
  {
  }

  lemma NotActive(reachable: seq<Func>, bottom: seq<Func>, f: Func)
    requires f !in reachable || f in bottom
    ensures f !in Active(reachable, bottom)
  {
  }

  method CountCalls(g: Graph, f: Func, pres0: map<Func, int>) returns (pres: map<Func, int>)
    requires f in g && NoDup(g[f])
    ensures forall s :: s in g ==> Count(pres, s) == Count(pres0, s) + if s in g[f] then 1 else 0
  {
    pres := pres0;
    for i := 0 to |g[f]|
      invariant forall s :: s in g ==> Count(pres, s) == Count(pres0, s) + if s in g[f][..i] then 1 else 0
    {
      var suc := g[f][i];
      assert g[f][..i + 1] == g[f][..i] + [suc];
      if suc !in g {
        continue;
      }
      pres := pres[suc := Count(pres, suc) + 1];
    }
    assert g[f][..|g[f]|] == g[f];
  }

  // ---------- the queue

  /** `order` is everything that has been queued, `i` how much of it has been taken out. */
  ghost predicate Queued(g: Graph, top: seq<Func>, active: set<Func>, order: seq<Func>, i: nat, pres: map<Func, int>) {
    && NoDup(order) && top <= order && i <= |order| && (forall f :: f in order ==> f in g)
    && (forall s :: s in g ==> Count(pres, s) == |Callers(g, active, s) - Set(order[..i])|)
    && (forall s :: s in g && s !in top ==>
       (s in order <==> Callers(g, active, s) != {} && Callers(g, active, s) <= Set(order[..i])))
  }

  /** The snapshot of the queue before each function was taken out; no function in it waits for a later caller. */
  ghost predicate Snapshots(g: Graph, top: seq<Func>, active: set<Func>, order: seq<Func>, ends: seq<nat>,
                            steps: seq<seq<Func>>, i: nat) {
    && |ends| == |steps| == i <= |order|
    && (forall k :: 0 <= k < i ==> k < ends[k] <= |order| && steps[k] == order[k..ends[k]])
    && (forall k, b :: 0 <= k < i && 0 <= b < ends[k] && order[b] !in top ==>
       Callers(g, active, order[b]) <= Set(order[..k]))
    && (i > 0 ==> ends[0] == |top|)
  }

  lemma StartQueued(g: Graph, top: seq<Func>, active: set<Func>, pres: map<Func, int>)
    requires NoDup(top) && forall t :: t in top ==> t in g
    requires Counted(g, active, pres)
    ensures Queued(g, top, active, top, 0, pres)
  {
    assert Set(top[..0]) == {};
    forall s ensures Callers(g, active, s) - {} == Callers(g, active, s) {
    }
  }

  /** Taking out the calls of one function. */
  method TakeCalls(g: Graph, f: Func, ghost order0: seq<Func>, queue0: seq<Func>, pres0: map<Func, int>)
    returns (ghost order: seq<Func>, queue: seq<Func>, pres: map<Func, int>)
    requires f in g && NoDup(g[f]) && NoDup(order0)
    requires forall s :: s in g[f] && s in g ==> Count(pres0, s) > 0 && s !in order0
    ensures order0 <= order && queue == queue0 + order[|order0|..] && NoDup(order)
    ensures forall s :: s in g ==> Count(pres, s) == Count(pres0, s) - if s in g[f] then 1 else 0
    ensures forall s :: s in order <==> s in order0 || (s in g[f] && s in g && Count(pres, s) == 0)
  {
    order, queue, pres := order0, queue0, pres0;
    for i := 0 to |g[f]|
      invariant order0 <= order && queue == queue0 + order[|order0|..] && NoDup(order)
      invariant forall s :: s in g ==> Count(pres, s) == Count(pres0, s) - if s in g[f][..i] then 1 else 0
      invariant forall s :: s in order <==> s in order0 || (s in g[f][..i] && s in g && Count(pres, s) == 0)
    {
      var suc := g[f][i];
      assert g[f][..i + 1] == g[f][..i] + [suc];
      assert suc !in g[f][..i];
      if suc !in g {
        continue;
      }
      pres := pres[suc := pres[suc] - 1];
      if pres[suc] == 0 {
        queue := queue + [suc];
        order := order + [suc];
      }
    }
    assert g[f][..|g[f]|] == g[f];
  }

  lemma NotEarlier(order: seq<Func>, i: nat)
    requires NoDup(order) && i < |order|
    ensures order[i] !in Set(order[..i]) && Set(order[..i + 1]) == Set(order[..i]) + {order[i]}
  {
    forall k | 0 <= k < i ensures order[..i][k] != order[i] {
    }
    assert order[..i + 1] == order[..i] + [order[i]];
  }

  lemma NotYetQueued(g: Graph, top: seq<Func>, active: set<Func>, order: seq<Func>, i: nat, pres: map<Func, int>,
                     s: Func)
    requires Queued(g, top, active, order, i, pres) && i < |order| && order[i] in active && order[i] in g
    requires s in g[order[i]] && s in g && s !in top
    ensures Count(pres, s) > 0 && s !in order
  {
    var f := order[i];
    assert f in Callers(g, active, s);
    NotEarlier(order, i);
    assert f in Callers(g, active, s) - Set(order[..i]);
  }

  lemma TakenActive(g: Graph, top: seq<Func>, active: set<Func>, order0: seq<Func>, i: nat, pres0: map<Func, int>,
                    order: seq<Func>, pres: map<Func, int>)
    requires Queued(g, top, active, order0, i, pres0) && i < |order0| && order0[i] in active && order0[i] in g
    requires forall s :: s in g[order0[i]] && s in g ==> s !in top
    requires order0 <= order && NoDup(order)
    requires forall s :: s in g ==> Count(pres, s) == Count(pres0, s) - if s in g[order0[i]] then 1 else 0
    requires forall s :: s in order <==> s in order0 || (s in g[order0[i]] && s in g && Count(pres, s) == 0)
    ensures Queued(g, top, active, order, i + 1, pres)
  {
    hide Callers, Set;
    var f := order0[i];
    assert order[..i] == order0[..i] && order[i] == f;
    NotEarlier(order, i);
    forall s | s in g
      ensures Count(pres, s) == |Callers(g, active, s) - Set(order[..i + 1])|
      ensures s !in top ==>
        (s in order <==> Callers(g, active, s) != {} && Callers(g, active, s) <= Set(order[..i + 1]))
    {
      OneDone(Callers(g, active, s), Set(order[..i]), f);
      CallersHas(g, active, s, f);
      if s in g[f] {
        NotYetQueued(g, top, active, order0, i, pres0, s);
      }
    }
  }

  lemma CallersHas(g: Graph, active: set<Func>, s: Func, f: Func)
    requires f in active && f in g
    ensures f in Callers(g, active, s) <==> s in g[f]
  {
  }

  lemma OneDone(c: set<Func>, done: set<Func>, f: Func)
    requires f !in done
    ensures |c - (done + {f})| == |c - done| - if f in c then 1 else 0
    ensures c <= done + {f} <==> |c - (done + {f})| == 0
    ensures f !in c ==> (c <= done + {f} <==> c <= done)
  {
    assert c - (done + {f}) == (c - done) - {f};
    assert c <= done + {f} <==> c - (done + {f}) == {};
  }

  lemma TakenBottom(g: Graph, top: seq<Func>, active: set<Func>, order: seq<Func>, i: nat, pres: map<Func, int>)
    requires Queued(g, top, active, order, i, pres) && i < |order| && order[i] !in active
    ensures Queued(g, top, active, order, i + 1, pres)
  {
    hide Set, Callers;
    var f := order[i];
    NotEarlier(order, i);
    forall s | s in g
      ensures Count(pres, s) == |Callers(g, active, s) - Set(order[..i + 1])|
      ensures Callers(g, active, s) <= Set(order[..i + 1]) <==> Callers(g, active, s) <= Set(order[..i])
    {
      CallersAreActive(g, active, s);
      OneDone(Callers(g, active, s), Set(order[..i]), f);
    }
  }

  lemma CallersAreActive(g: Graph, active: set<Func>, s: Func)
    ensures Callers(g, active, s) <= active
  {
  }

  lemma SnapshotTaken(g: Graph, top: seq<Func>, active: set<Func>, order: seq<Func>, ends: seq<nat>,
                      steps: seq<seq<Func>>, i: nat, pres: map<Func, int>)
    requires Snapshots(g, top, active, order, ends, steps, i) && Queued(g, top, active, order, i, pres) && i < |order|
    requires i == 0 ==> order == top
    ensures Snapshots(g, top, active, order, ends + [|order|], steps + [order[i..]], i + 1)
  {
    hide Callers, Set, Queued;
    var ends', steps' := ends + [|order|], steps + [order[i..]];
    forall k | 0 <= k < i + 1 ensures k < ends'[k] <= |order| && steps'[k] == order[k..ends'[k]] {
      if k < i {
        assert ends'[k] == ends[k] && steps'[k] == steps[k];
      }
    }
    forall k, b | 0 <= k < i + 1 && 0 <= b < ends'[k] && order[b] !in top
      ensures Callers(g, active, order[b]) <= Set(order[..k]) {
      if k < i {
        assert ends'[k] == ends[k];
      } else {
        CallersAreOut(g, top, active, order, i, pres, order[b]);
      }
    }
  }

  lemma CallersAreOut(g: Graph, top: seq<Func>, active: set<Func>, order: seq<Func>, i: nat, pres: map<Func, int>,
                      f: Func)
    requires Queued(g, top, active, order, i, pres) && f in order && f !in top
    ensures Callers(g, active, f) <= Set(order[..i])
  {
    hide Callers, Set, NoDup;
  }

  lemma SnapshotsLonger(g: Graph, top: seq<Func>, active: set<Func>, order: seq<Func>, longer: seq<Func>,
                        ends: seq<nat>, steps: seq<seq<Func>>, i: nat)
    requires Snapshots(g, top, active, order, ends, steps, i) && order <= longer
    ensures Snapshots(g, top, active, longer, ends, steps, i)
  {
    forall k | 0 <= k < i ensures longer[k..ends[k]] == order[k..ends[k]] && longer[..k] == order[..k] {
    }
  }

  /** The search after `i` functions have been taken out. */
  ghost predicate Search(g: Graph, top: seq<Func>, bottom: seq<Func>, reachable: seq<Func>, order: seq<Func>,
                         ends: seq<nat>, steps: seq<seq<Func>>, queue: seq<Func>, i: nat, pres: map<Func, int>) {
    && Queued(g, top, Active(reachable, bottom), order, i, pres)
       && Snapshots(g, top, Active(reachable, bottom), order, ends, steps, i)
    && i <= |order| && queue == order[i..] && (i == 0 ==> order == top) && forall f :: f in order ==> f in reachable
  }

  /** `get_topological_steps`: all reachable functions come into the queue, each once, none before all of its callers
      have been taken out. */
  method GetTopologicalSteps(g: Graph, top: seq<Func>, bottom: seq<Func>, reachable: seq<Func>)
    returns (steps: seq<seq<Func>>, ghost order: seq<Func>, ghost ends: seq<nat>)
    requires Ready(g, top, bottom, reachable)
    ensures NoDup(order) && top <= order && forall f :: f in order <==> f in reachable
    ensures |steps| == |order| + if bottom == [] then 0 else 1
    ensures Snapshots(g, top, Active(reachable, bottom), order, ends, steps[..|order|], |order|)
    ensures bottom != [] ==> steps[|order|] == bottom
  {
    hide Ready, Queued, Snapshots, Active, NoDup, Counted, Search;
    ReadyParts(g, top, bottom, reachable);
    var pres := CountCallers(g, bottom, reachable);
    var queue := top;
    steps, order, ends := [], top, [];
    ghost var i := 0;
    StartSearch(g, top, bottom, reachable, pres);
    while queue != []
      invariant Search(g, top, bottom, reachable, order, ends, steps, queue, i, pres)
      invariant i <= |g| && (queue == [] <==> i == |order|)
      decreases |g| - i
    {
      steps, order, ends, queue, pres := TakeOne(g, top, bottom, reachable, order, ends, steps, queue, i, pres);
      i := i + 1;
    }
    SearchEnds(g, top, bottom, reachable, order, ends, steps, queue, i, pres);
    assert steps[..|order|] == steps;
    if |bottom| != 0 {
      assert (steps + [bottom])[..|order|] == steps;
      steps := steps + [bottom];
    }
  }

  method TakeOne(g: Graph, ghost top: seq<Func>, bottom: seq<Func>, ghost reachable: seq<Func>,
                 ghost order0: seq<Func>, ghost ends0: seq<nat>, steps0: seq<seq<Func>>, queue0: seq<Func>,
                 ghost i: nat, pres0: map<Func, int>)
    returns (steps: seq<seq<Func>>, ghost order: seq<Func>, ghost ends: seq<nat>, queue: seq<Func>,
      pres: map<Func, int>)
    requires Ready(g, top, bottom, reachable) && Search(g, top, bottom, reachable, order0, ends0, steps0, queue0, i,
      pres0) && queue0 != []
    ensures Search(g, top, bottom, reachable, order, ends, steps, queue, i + 1, pres)
    ensures i + 1 <= |order| <= |g| && (queue == [] <==> i + 1 == |order|)
  {
    hide Ready, Queued, Snapshots, Active, NoDup;
    ghost var active := Active(reachable, bottom);
    QueuedParts(g, top, active, order0, i, pres0);
    SnapshotTaken(g, top, active, order0, ends0, steps0, i, pres0);
    steps, ends := steps0 + [queue0], ends0 + [|order0|];
    order, pres := order0, pres0;
    var f := queue0[0];
    queue := queue0[1..];
    assert f == order0[i] && f in order0;
    ActiveIs(reachable, bottom, f);
    if f in bottom {
      TakenBottom(g, top, active, order, i, pres);
    } else {
      CallsReady(g, top, bottom, reachable, order, i, pres);
      ReadyParts(g, top, bottom, reachable);
      order, queue, pres := TakeCalls(g, f, order, queue, pres);
      TakenActive(g, top, active, order0, i, pres0, order, pres);
      SnapshotsLonger(g, top, active, order0, order, ends, steps, i + 1);
      QueuedReachable(g, top, bottom, reachable, f);
      assert order0[i + 1..] + order[|order0|..] == order[i + 1..];
    }
    QueuedParts(g, top, active, order, i + 1, pres);
  }

  lemma StartSearch(g: Graph, top: seq<Func>, bottom: seq<Func>, reachable: seq<Func>, pres: map<Func, int>)
    requires Ready(g, top, bottom, reachable) && Counted(g, Active(reachable, bottom), pres)
    ensures Search(g, top, bottom, reachable, top, [], [], top, 0, pres)
  {
    ReadyParts(g, top, bottom, reachable);
    StartQueued(g, top, Active(reachable, bottom), pres);
    StartSnapshots(g, top, Active(reachable, bottom));
  }

  lemma SearchEnds(g: Graph, top: seq<Func>, bottom: seq<Func>, reachable: seq<Func>, order: seq<Func>,
                   ends: seq<nat>, steps: seq<seq<Func>>, queue: seq<Func>, i: nat, pres: map<Func, int>)
    requires Ready(g, top, bottom, reachable) && Search(g, top, bottom, reachable, order, ends, steps, queue, i, pres)
      && queue == []
    ensures NoDup(order) && top <= order && (forall f :: f in order <==> f in reachable) && i == |order| == |steps|
    ensures Snapshots(g, top, Active(reachable, bottom), order, ends, steps, |order|)
  {
    hide Ready, Queued;
    QueuedParts(g, top, Active(reachable, bottom), order, i, pres);
    AllQueued(g, top, bottom, reachable, order, pres);
  }

  lemma StartSnapshots(g: Graph, top: seq<Func>, active: set<Func>)
    ensures Snapshots(g, top, active, top, [], [], 0)
  {
  }

  lemma ReadyParts(g: Graph, top: seq<Func>, bottom: seq<Func>, reachable: seq<Func>)
    requires Ready(g, top, bottom, reachable)
    ensures (forall f :: f in g ==> NoDup(g[f])) && NoDup(top) && (forall t :: t in top ==> t in g && t in reachable)
  {
    forall t | t in top ensures t in reachable {
      ReachableSource(g, top, bottom, t);
    }
  }

  lemma QueuedParts(g: Graph, top: seq<Func>, active: set<Func>, order: seq<Func>, i: nat, pres: map<Func, int>)
    requires Queued(g, top, active, order, i, pres)
    ensures NoDup(order) && top <= order && |order| <= |g| && forall f :: f in order ==> f in g
  {
    NoDupLength(order, g.Keys);
  }

  lemma ActiveIs(reachable: seq<Func>, bottom: seq<Func>, f: Func)
    requires f in reachable
    ensures f in Active(reachable, bottom) <==> f !in bottom
  {
  }

  lemma CallsReady(g: Graph, top: seq<Func>, bottom: seq<Func>, reachable: seq<Func>, order: seq<Func>, i: nat,
                   pres: map<Func, int>)
    requires Ready(g, top, bottom, reachable) && Queued(g, top, Active(reachable, bottom), order, i, pres)
    requires i < |order| && order[i] in reachable && order[i] !in bottom && order[i] in g
    ensures forall s :: s in g[order[i]] && s in g ==> Count(pres, s) > 0 && s !in order && s !in top
  {
    forall s | s in g[order[i]] && s in g ensures Count(pres, s) > 0 && s !in order && s !in top {
      assert order[i] in Active(reachable, bottom);
      NotYetQueued(g, top, Active(reachable, bottom), order, i, pres, s);
    }
  }

  lemma QueuedReachable(g: Graph, top: seq<Func>, bottom: seq<Func>, reachable: seq<Func>, f: Func)
    requires Ready(g, top, bottom, reachable) && f in reachable && f !in bottom && f in g
    ensures forall s :: s in g[f] && s in g ==> s in reachable
  {
    forall s | s in g[f] && s in g ensures s in reachable {
      ReachableNext(g, top, bottom, f, s);
    }
  }

  // ---------- everything is queued

  /** A function that never gets into the queue has an active caller that does not either. */
  lemma MissingCaller(g: Graph, top: seq<Func>, bottom: seq<Func>, reachable: seq<Func>, order: seq<Func>,
                      pres: map<Func, int>, f: Func) returns (c: Func)
    requires Ready(g, top, bottom, reachable) && Queued(g, top, Active(reachable, bottom), order, |order|, pres)
    requires f in reachable && f !in order
    ensures c in Active(reachable, bottom) && c !in order && c in g && f in g && f in g[c]
  {
    hide Ready, Queued, Active;
    var p := Predecessor(g, top, bottom, reachable, order, pres, f);
    CallersOf(g, Active(reachable, bottom), f, p);
    c := Waiting(g, top, Active(reachable, bottom), order, pres, f);
  }

  lemma CallersOf(g: Graph, active: set<Func>, s: Func, p: Func)
    requires p in active && p in g && s in g[p]
    ensures p in Callers(g, active, s)
  {
  }

  lemma Predecessor(g: Graph, top: seq<Func>, bottom: seq<Func>, reachable: seq<Func>, order: seq<Func>,
                    pres: map<Func, int>, f: Func) returns (p: Func)
    requires Ready(g, top, bottom, reachable) && Queued(g, top, Active(reachable, bottom), order, |order|, pres)
    requires f in reachable && f !in order
    ensures p in Active(reachable, bottom) && p in g && f in g && f in g[p]
  {
    QueuedParts(g, top, Active(reachable, bottom), order, |order|, pres);
    assert f !in top && Reachable(g, top, bottom, f);
    hide Queued, Ready, NoDup, Reachable;
    p := CalledFrom(g, top, bottom, f);
    ReadyReachable(g, top, bottom, reachable, p);
  }

  lemma ReadyReachable(g: Graph, top: seq<Func>, bottom: seq<Func>, reachable: seq<Func>, f: Func)
    requires Ready(g, top, bottom, reachable) && Reachable(g, top, bottom, f) && f !in bottom
    ensures f in Active(reachable, bottom)
  {
    hide Reachable, CyclesBroken;
  }

  lemma CalledFrom(g: Graph, top: seq<Func>, bottom: seq<Func>, f: Func) returns (p: Func)
    requires Reachable(g, top, bottom, f) && f !in top
    ensures Reachable(g, top, bottom, p) && p !in bottom && p in g && f in g && f in g[p]
  {
    var w :| Route(g, top, bottom, w) && w[|w| - 1] == f;
    var n := |w|;
    p := w[n - 2];
    var v := w[..n - 1];
    assert v[|v| - 1] == p && Route(g, top, bottom, v);
  }

  lemma Waiting(g: Graph, top: seq<Func>, active: set<Func>, order: seq<Func>, pres: map<Func, int>, f: Func)
    returns (c: Func)
    requires Queued(g, top, active, order, |order|, pres) && f in g && f !in order && Callers(g, active, f) != {}
    ensures c in active && c in g && f in g[c] && c !in order
  {
    assert f !in top;
    assert order[..|order|] == order;
    c :| c in Callers(g, active, f) && c !in Set(order);
  }

  /** From there, as long a walk as one likes. */
  lemma {:induction false} MissingWalk(g: Graph, top: seq<Func>, bottom: seq<Func>, reachable: seq<Func>,
                                       order: seq<Func>, pres: map<Func, int>, f: Func, n: nat) returns (w: seq<Func>)
    requires Ready(g, top, bottom, reachable) && Queued(g, top, Active(reachable, bottom), order, |order|, pres)
    requires f in reachable && f !in order
    ensures |w| == n + 1 && IsWalk(g, w) && w[0] in Active(reachable, bottom) && w[0] !in order
    ensures forall x :: x in w ==> x in Active(reachable, bottom)
  {
    hide Ready, Queued, Active;
    if n == 0 {
      var c := MissingCaller(g, top, bottom, reachable, order, pres, f);
      w := [c];
    } else {
      var v := MissingWalk(g, top, bottom, reachable, order, pres, f, n - 1);
      ActiveReachable(reachable, bottom);
      var d := MissingCaller(g, top, bottom, reachable, order, pres, v[0]);
      w := [d] + v;
      JoinWalks(g, [d, v[0]], v);
      assert [d, v[0]] + v[1..] == w;
    }
  }

  lemma ActiveReachable(reachable: seq<Func>, bottom: seq<Func>)
    ensures forall f :: f in Active(reachable, bottom) ==> f in reachable && f !in bottom
  {
  }

  /** A walk through active functions does not come to a function twice. */
  lemma ActiveWalkNoDup(g: Graph, top: seq<Func>, bottom: seq<Func>, reachable: seq<Func>, w: seq<Func>)
    requires Ready(g, top, bottom, reachable) && IsWalk(g, w) && forall x :: x in w ==> x in Active(reachable, bottom)
    ensures NoDup(w)
  {
    ActiveReachable(reachable, bottom);
    assert w[0] in w && CyclesBroken(g, top, bottom) && Reachable(g, top, bottom, w[0]);
    hide Ready, Active, CyclesBroken;
    var v :| Route(g, top, bottom, v) && v[|v| - 1] == w[0];
    RouteThenWalk(g, top, bottom, v, w);
    hide NoDup, IsWalk, Route;
    NoCycleLeft(g, top, bottom, v + w[1..]);
    TailNoDup(v, w);
  }

  lemma TailNoDup(v: seq<Func>, w: seq<Func>)
    requires v != [] && w != [] && v[|v| - 1] == w[0] && NoDup(v + w[1..])
    ensures NoDup(w)
  {
    var all, m := v + w[1..], |v| - 1;
    forall i, j | 0 <= i < j < |w| ensures w[i] != w[j] {
      assert all[m + i] == w[i] && all[m + j] == w[j];
    }
  }

  lemma RouteThenWalk(g: Graph, top: seq<Func>, bottom: seq<Func>, v: seq<Func>, w: seq<Func>)
    requires Route(g, top, bottom, v) && IsWalk(g, w) && v[|v| - 1] == w[0] && forall x :: x in w ==> x !in bottom
    ensures IsWalk(g, v + w[1..]) && (v + w[1..])[0] in top && forall x :: x in v + w[1..] ==> x !in bottom
  {
    JoinWalks(g, v, w);
    assert w[0] in w;
    forall x | x in v ensures x !in bottom {
      var i :| 0 <= i < |v| && v[i] == x;
    }
    assert forall x :: x in w[1..] ==> x in w;
  }

  lemma JoinWalks(g: Graph, v: seq<Func>, w: seq<Func>)
    requires IsWalk(g, v) && IsWalk(g, w) && v[|v| - 1] == w[0]
    ensures IsWalk(g, v + w[1..])
  {
    var all := v + w[1..];
    var m := |v| - 1;
    forall i | m <= i < |all| ensures all[i] == w[i - m] {
    }
    forall i | 0 < i < |all| ensures all[i] in g[all[i - 1]] {
      if i <= m {
        assert all[i] == v[i] && all[i - 1] == v[i - 1];
      } else {
        assert all[i - 1] == w[i - 1 - m];
      }
    }
  }

  lemma AllQueued(g: Graph, top: seq<Func>, bottom: seq<Func>, reachable: seq<Func>, order: seq<Func>,
                  pres: map<Func, int>)
    requires Ready(g, top, bottom, reachable) && Queued(g, top, Active(reachable, bottom), order, |order|, pres)
    ensures forall f :: f in reachable ==> f in order
  {
    hide Ready, Queued;
    forall f | f in reachable ensures f in order {
      if f !in order {
        var n := |Active(reachable, bottom)|;
        var w := MissingWalk(g, top, bottom, reachable, order, pres, f, n);
        ActiveWalkNoDup(g, top, bottom, reachable, w);
        NoDupLength(w, Active(reachable, bottom));
      }
    }
  }

  // ---------- numbering the layers

  function NumberOf(top: seq<Func>, bottom: seq<Func>, c: int, f: Func): int {
    if f in bottom then 0 else if f in top then -1 else -c
  }

  /** The functions of a snapshot are numbered while `c` counts the layers from the top. */
  method NumberStep(top: seq<Func>, bottom: seq<Func>, step: seq<Func>, c: int, layerMap0: map<Func, int>)
    returns (layerMap: map<Func, int>, inLayer: bool)
    ensures inLayer <==> exists f :: f in step && f !in bottom
    ensures forall f :: f in layerMap <==> f in layerMap0 || f in step
    ensures forall f :: f in layerMap ==>
      layerMap[f] == (if f in step then NumberOf(top, bottom, c, f) else layerMap0[f])
  {
    layerMap, inLayer := layerMap0, false;
    for i := 0 to |step|
      invariant inLayer <==> exists k :: 0 <= k < i && step[k] !in bottom
      invariant forall f :: f in layerMap <==> f in layerMap0 || f in step[..i]
      invariant forall f :: f in layerMap ==>
        layerMap[f] == (if f in step[..i] then NumberOf(top, bottom, c, f) else layerMap0[f])
    {
      var q := step[i];
      assert step[..i + 1] == step[..i] + [q];
      if q in bottom {
        layerMap := layerMap[q := 0];
      } else if q in top {
        inLayer := true;
        layerMap := layerMap[q := -1];
      } else {
        inLayer := true;
        layerMap := layerMap[q := -c];
      }
    }
    assert step[..|step|] == step;
  }

  /** In the queue, everything before position `b` has been in a snapshot taken no later than that of position `a`. */
  predicate Later(ends: seq<nat>, a: nat, b: nat) {
    forall k :: 0 <= k <= a && k < |ends| ==> ends[k] <= b
  }

  /** The numbers given so far, to the first `x` functions that have been queued. */
  ghost predicate NumberedTo(bottom: seq<Func>, order: seq<Func>, ends: seq<nat>, x: nat, c: int,
                             layerMap: map<Func, int>)
    requires x <= |order|
  {
    && (forall f :: f in layerMap <==> f in order[..x])
    && (forall f :: f in layerMap ==> if f in bottom then layerMap[f] == 0 else -c < layerMap[f] < 0)
    && (forall a, b :: 0 <= a < x && 0 <= b < x && order[a] !in bottom && order[b] !in bottom && Later(ends, a, b) ==>
          layerMap[order[a]] > layerMap[order[b]])
  }

  ghost predicate HasNumber(layerMap: map<Func, int>, n: int) {
    exists f :: f in layerMap && layerMap[f] == n
  }

  /** Every number from -1 down to the last one given is that of some function, and the tops have the first. */
  ghost predicate NoGap(top: seq<Func>, bottom: seq<Func>, c: int, layerMap: map<Func, int>) {
    && (forall k :: -c < k < 0 ==> HasNumber(layerMap, k))
    && forall f :: f in layerMap && f in top && f !in bottom ==> layerMap[f] == -1
  }

  lemma NoGapMore(top: seq<Func>, bottom: seq<Func>, step: seq<Func>, c: int, layerMap0: map<Func, int>,
                  layerMap: map<Func, int>)
    requires c > 0 && NoGap(top, bottom, c, layerMap0)
    requires forall f :: f in layerMap <==> f in layerMap0 || f in step
    requires forall f :: f in layerMap ==>
      layerMap[f] == (if f in step then NumberOf(top, bottom, c, f) else layerMap0[f])
    requires forall f :: f in layerMap0 && f in step ==> layerMap0[f] == 0
    requires forall f :: f in step && f in top && f !in bottom ==> c == 1
    ensures NoGap(top, bottom, if exists f :: f in step && f !in bottom then c + 1 else c, layerMap)
  {
    forall k | -c < k < 0 ensures HasNumber(layerMap, k) {
      assert HasNumber(layerMap0, k);
      var f :| f in layerMap0 && layerMap0[f] == k;
      assert layerMap[f] == k;
    }
    if f :| f in step && f !in bottom {
      assert layerMap[f] == -c;
      assert HasNumber(layerMap, -c);
    }
  }

  /** A snapshot holds no function that has been numbered before, unless it is the one of the bottoms, and no top but
      if it is the first. */
  lemma StepIsNew(top: seq<Func>, bottom: seq<Func>, order: seq<Func>, ends: seq<nat>, steps: seq<seq<Func>>, x: nat,
                  c: int, numbers: map<Func, int>)
    requires Steps(top, order, ends, steps) && x < |steps| && (x >= |order| ==> steps[x] == bottom)
    requires x <= |order| ==> NumberedTo(bottom, order, ends, x, c, numbers) && (x > 0 ==> |top| <= x)
    requires x > |order| ==> Finished(bottom, order, ends, c, numbers)
    ensures forall f :: f in numbers && f in steps[x] ==> numbers[f] == 0
    ensures forall f :: f in steps[x] && f in top && f !in bottom ==> x == 0
  {
    if x < |order| {
      StepPlaces(order, ends, steps, x);
      forall f | f in steps[x] ensures f !in numbers && (f in top ==> x == 0) {
        var j :| 0 <= j < |steps[x]| && steps[x][j] == f;
        if f in numbers {
          var i := PlaceOf(order, x, f);
        }
        if f in top {
          SamePlace(top, order, x + j);
        }
      }
    }
  }

  lemma NoGapNext(top: seq<Func>, bottom: seq<Func>, order: seq<Func>, ends: seq<nat>, steps: seq<seq<Func>>, x: nat,
                  c: int, layerMap0: map<Func, int>, layerMap: map<Func, int>)
    requires Steps(top, order, ends, steps) && x < |steps| && (x >= |order| ==> steps[x] == bottom)
    requires x <= |order| ==> NumberedTo(bottom, order, ends, x, c, layerMap0) && (x > 0 ==> |top| <= x)
    requires x > |order| ==> Finished(bottom, order, ends, c, layerMap0)
    requires c > 0 && (x == 0 ==> c == 1) && NoGap(top, bottom, c, layerMap0)
    requires forall f :: f in layerMap <==> f in layerMap0 || f in steps[x]
    requires forall f :: f in layerMap ==>
      layerMap[f] == (if f in steps[x] then NumberOf(top, bottom, c, f) else layerMap0[f])
    ensures NoGap(top, bottom, if exists f :: f in steps[x] && f !in bottom then c + 1 else c, layerMap)
  {
    hide Steps, NumberedTo, Finished, NoGap;
    StepIsNew(top, bottom, order, ends, steps, x, c, layerMap0);
    NoGapMore(top, bottom, steps[x], c, layerMap0, layerMap);
  }

  /** Snapshots of a queue into which `top` has come first. */
  ghost predicate Steps(top: seq<Func>, order: seq<Func>, ends: seq<nat>, steps: seq<seq<Func>>) {
    && NoDup(order) && top <= order && |ends| == |order| <= |steps|
    && (forall k :: 0 <= k < |order| ==> k < ends[k] <= |order| && steps[k] == order[k..ends[k]])
    && (order != [] ==> ends[0] == |top|)
  }

  lemma NumberedMore(top: seq<Func>, bottom: seq<Func>, order: seq<Func>, ends: seq<nat>, steps: seq<seq<Func>>,
                     x: nat, c: int, layerMap0: map<Func, int>, layerMap: map<Func, int>)
    requires Steps(top, order, ends, steps) && x < |order| && c > 0 && (x == 0 ==> c == 1) && (x > 0 ==> |top| <= x)
    requires NumberedTo(bottom, order, ends, x, c, layerMap0)
    requires forall f :: f in layerMap <==> f in layerMap0 || f in steps[x]
    requires forall f :: f in layerMap ==>
      layerMap[f] == (if f in steps[x] then NumberOf(top, bottom, c, f) else layerMap0[f])
    ensures NumberedTo(bottom, order, ends, ends[x], c + 1, layerMap)
    ensures (forall f :: f in steps[x] ==> f in bottom) ==> NumberedTo(bottom, order, ends, ends[x], c, layerMap)
  {
    var y := ends[x];
    StepPlaces(order, ends, steps, x);
    forall i | x <= i < y && order[i] !in bottom ensures layerMap[order[i]] == -c {
      if order[i] in top {
        SamePlace(top, order, i);
      }
    }
    var all := forall f :: f in steps[x] ==> f in bottom;
    forall f | f in layerMap && f !in bottom ensures -(c + 1) < layerMap[f] < 0 && (all ==> -c < layerMap[f]) {
      assert f in order[..y];
      var i := PlaceOf(order, y, f);
      if i < x {
        assert order[..x][i] == f;
      }
    }
    forall a, b | 0 <= a < y && 0 <= b < y && order[a] !in bottom && order[b] !in bottom && Later(ends, a, b)
      ensures layerMap[order[a]] > layerMap[order[b]]
    {
      assert ends[a] <= b && a < ends[a];
      if x <= b {
        LaterFrom(ends, x, a, b);
        assert order[..x][a] == order[a];
      }
    }
  }

  lemma LaterFrom(ends: seq<nat>, x: nat, a: nat, b: nat)
    requires Later(ends, a, b) && x < |ends|
    ensures x <= a ==> ends[x] <= b
  {
  }

  lemma PlaceOf(order: seq<Func>, y: nat, f: Func) returns (i: nat)
    requires y <= |order| && f in order[..y]
    ensures i < y && order[i] == f
  {
    i :| 0 <= i < y && order[..y][i] == f;
  }

  lemma SamePlace(top: seq<Func>, order: seq<Func>, i: nat)
    requires NoDup(order) && top <= order && i < |order| && order[i] in top
    ensures i < |top|
  {
    var k :| 0 <= k < |top| && top[k] == order[i];
    assert order[k] == top[k];
  }

  lemma StepPlaces(order: seq<Func>, ends: seq<nat>, steps: seq<seq<Func>>, x: nat)
    requires NoDup(order) && x < |order| && |order| == |ends| && x < |steps| && x < ends[x] <= |order|
      && steps[x] == order[x..ends[x]]
    ensures order[..ends[x]] == order[..x] + steps[x]
    ensures forall i :: 0 <= i < ends[x] ==> order[i] in order[..ends[x]] && (order[i] in steps[x] <==> x <= i)
  {
    forall i | 0 <= i < ends[x] ensures order[i] in order[..ends[x]] && (order[i] in steps[x] <==> x <= i) {
      assert order[..ends[x]][i] == order[i];
      if x <= i {
        assert steps[x][i - x] == order[i];
      }
    }
  }

  /** Every function stands once in the layer its number says, and in no other. */
  ghost predicate Placed(layer: seq<seq<Func>>, layerMap: map<Func, int>) {
    && (forall f :: f in layerMap ==> 0 <= layerMap[f] < |layer|)
    && (forall l :: 0 <= l < |layer| ==> NoDup(layer[l]))
    && forall l, f :: 0 <= l < |layer| ==> (f in layer[l] <==> f in layerMap && layerMap[f] == l)
  }

  /** The functions that are not in `left` have been given their layer, counted from the top. */
  ghost predicate Moved(now: map<Func, int>, was: map<Func, int>, left: set<Func>, c: int) {
    && (forall f :: f in now <==> f in was)
    && forall f :: f in now ==> now[f] == if f !in left && was[f] < 0 then was[f] + c else was[f]
  }

  /** And they stand in it, once. */
  ghost predicate Spread(layer: seq<seq<Func>>, now: map<Func, int>, left: set<Func>) {
    && (forall l :: 0 <= l < |layer| ==> NoDup(layer[l]))
    && forall l, f :: 0 <= l < |layer| ==> (f in layer[l] <==> f in now && f !in left && now[f] == l)
  }

  lemma NothingSpread(layer: seq<seq<Func>>, c: int, was: map<Func, int>)
    requires forall l :: 0 <= l < |layer| ==> layer[l] == []
    ensures Moved(was, was, was.Keys, c) && Spread(layer, was, was.Keys)
  {
  }

  lemma MovedAt(now: map<Func, int>, was: map<Func, int>, left: set<Func>, c: int, t: Func)
    requires Moved(now, was, left, c) && t in left && t in was
    ensures t in now && now[t] == was[t]
    ensures Moved(if now[t] < 0 then now[t := now[t] + c] else now, was, left - {t}, c)
  {
  }

  lemma SpreadMore(layer: seq<seq<Func>>, was: map<Func, int>, now: map<Func, int>, left: set<Func>, t: Func)
    requires Spread(layer, was, left) && t in left && t in was && now == was[t := if t in now then now[t] else 0]
      && t in now
    requires 0 <= now[t] < |layer|
    ensures Spread(layer[now[t] := layer[now[t]] + [t]], now, left - {t})
  {
    var layer' := layer[now[t] := layer[now[t]] + [t]];
    forall l, f | 0 <= l < |layer'| ensures f in layer'[l] <==> f in now && f !in left - {t} && now[f] == l {
      assert f in layer[l] <==> f in was && f !in left && was[f] == l;
    }
  }

  lemma AllSpread(layer: seq<seq<Func>>, now: map<Func, int>, was: map<Func, int>, c: int)
    requires Moved(now, was, {}, c) && Spread(layer, now, {}) && |layer| == c
    requires forall f :: f in was ==> -c <= was[f] <= 0 && (was[f] == 0 ==> c > 0)
    ensures Placed(layer, now) && (forall f :: f in now <==> f in was)
    ensures forall f :: f in now ==> now[f] == if was[f] < 0 then was[f] + c else 0
  {
  }

  /** Counting from the bottom instead of from the top. */
  method Place(c: int, layerMap0: map<Func, int>) returns (layer: seq<seq<Func>>, layerMap: map<Func, int>)
    requires c >= 0 && forall f :: f in layerMap0 ==> -c <= layerMap0[f] <= 0 && (layerMap0[f] == 0 ==> c > 0)
    ensures |layer| == c && Placed(layer, layerMap)
    ensures forall f :: f in layerMap <==> f in layerMap0
    ensures forall f :: f in layerMap ==> layerMap[f] == if layerMap0[f] < 0 then layerMap0[f] + c else 0
  {
    hide Spread, Moved;
    layer := seq(c, _ => []);
    layerMap := layerMap0;
    var left := layerMap0.Keys;
    NothingSpread(layer, c, layerMap0);
    while left != {}
      invariant |layer| == c && left <= layerMap0.Keys
      invariant Moved(layerMap, layerMap0, left, c) && Spread(layer, layerMap, left)
      decreases |left|
    {
      var t :| t in left;
      MovedAt(layerMap, layerMap0, left, c, t);
      ghost var was := layerMap;
      if layerMap[t] < 0 {
        layerMap := layerMap[t := layerMap[t] + c];
      }
      SpreadMore(layer, was, layerMap, left, t);
      layer := layer[layerMap[t] := layer[layerMap[t]] + [t]];
      left := left - {t};
    }
    AllSpread(layer, layerMap, layerMap0, c);
  }

  /** The invariant of the numbering, `x` functions of the queue having been numbered. */
  ghost predicate Numbering(top: seq<Func>, bottom: seq<Func>, order: seq<Func>, ends: seq<nat>, x: nat, c: int,
                            numbers: map<Func, int>) {
    && c > 0 && (x == 0 ==> c == 1) && NoGap(top, bottom, c, numbers)
    && (x <= |order| ==> NumberedTo(bottom, order, ends, x, c, numbers) && (x > 0 ==> |top| <= x))
    && (x > |order| ==> Finished(bottom, order, ends, c, numbers))
  }

  lemma NumberingGoesOn(top: seq<Func>, bottom: seq<Func>, order: seq<Func>, ends: seq<nat>, steps: seq<seq<Func>>,
                        x: nat, c: int, numbers: map<Func, int>, more: map<Func, int>)
    requires Steps(top, order, ends, steps) && |steps| == |order| + (if bottom == [] then 0 else 1)
      && (bottom != [] ==> steps[|order|] == bottom)
    requires x < |steps| && Numbering(top, bottom, order, ends, x, c, numbers)
    requires forall f :: f in more <==> f in numbers || f in steps[x]
    requires forall f :: f in more ==>
      more[f] == (if f in steps[x] then NumberOf(top, bottom, c, f) else numbers[f])
    ensures |steps[x]| > 0 && x + |steps[x]| <= |steps| + |bottom|
    ensures Numbering(top, bottom, order, ends, x + |steps[x]|,
      if exists f :: f in steps[x] && f !in bottom then c + 1 else c, more)
  {
    hide Steps, NumberedTo, Finished, NumberOf, NoGap;
    StepsPart(top, order, ends, steps, x);
    NoGapNext(top, bottom, order, ends, steps, x, c, numbers, more);
    if x < |order| {
      NumberedMore(top, bottom, order, ends, steps, x, c, numbers, more);
    } else {
      NumberedBottom(top, bottom, order, ends, c, numbers, more);
    }
  }

  lemma NumberingEnds(top: seq<Func>, bottom: seq<Func>, order: seq<Func>, ends: seq<nat>, steps: seq<seq<Func>>,
                      x: nat, c: int, numbers: map<Func, int>)
    requires |steps| == |order| + (if bottom == [] then 0 else 1) <= x <= |steps| + |bottom|
    requires Numbering(top, bottom, order, ends, x, c, numbers)
    ensures Finished(bottom, order, ends, c, numbers) && NoGap(top, bottom, c, numbers) && c > 0
  {
    hide NumberedTo, Finished, NoGap;
    if bottom == [] {
      NumberedNoBottom(order, ends, c, numbers);
    }
  }

  /** `compute_layers`.  From one generation to the next the snapshots in between are jumped over. */
  method ComputeLayers(top: seq<Func>, bottom: seq<Func>, steps: seq<seq<Func>>, ghost order: seq<Func>,
                       ghost ends: seq<nat>)
    returns (layer: seq<seq<Func>>, layerMap: map<Func, int>)
    requires Steps(top, order, ends, steps) && |steps| == |order| + (if bottom == [] then 0 else 1)
      && (bottom != [] ==> steps[|order|] == bottom)
    ensures Placed(layer, layerMap) && forall f :: f in layerMap <==> f in order || f in bottom
    ensures forall f :: f in layerMap && f in bottom ==> layerMap[f] == 0
    ensures forall f :: f in layerMap && f !in bottom && bottom != [] ==> layerMap[f] > 0
    ensures forall f :: f in layerMap && f in top && f !in bottom ==> layerMap[f] == |layer| - 1
    ensures forall l :: 0 <= l < |layer| ==> layer[l] != []
    ensures forall a, b ::
      0 <= a < |order| && 0 <= b < |order| && order[a] !in bottom && order[b] !in bottom && Later(ends, a, b) ==>
      layerMap[order[a]] > layerMap[order[b]]
  {
    hide Later, Placed, Steps, NumberedTo, Finished, NumberOf, NoGap, Numbering;
    var x := 0;
    var numbers: map<Func, int> := map[];
    var c := 1;
    NumberedNone(top, bottom, order, ends);
    while x < |steps|
      invariant x <= |steps| + |bottom| && Numbering(top, bottom, order, ends, x, c, numbers)
      decreases |steps| - x
    {
      var more, inLayer := NumberStep(top, bottom, steps[x], c, numbers);
      NumberingGoesOn(top, bottom, order, ends, steps, x, c, numbers, more);
      if inLayer {
        c := c + 1;
      }
      numbers := more;
      x := x + |steps[x]|;
    }
    NumberingEnds(top, bottom, order, ends, steps, x, c, numbers);
    Ordered(bottom, order, ends, c, numbers);
    ghost var last := c;
    if bottom == [] {
      c := c - 1;
    }
    layer, layerMap := Place(c, numbers);
    AllFilled(top, bottom, last, numbers, layer, layerMap);
  }

  lemma AllFilled(top: seq<Func>, bottom: seq<Func>, c: int, numbers: map<Func, int>, layer: seq<seq<Func>>,
                  layerMap: map<Func, int>)
    requires NoGap(top, bottom, c, numbers) && Placed(layer, layerMap) && c > 0
    requires |layer| == (if bottom == [] then c - 1 else c) && forall f :: f in layerMap <==> f in numbers
    requires forall f :: f in bottom ==> f in numbers && numbers[f] == 0
    requires forall f :: f in layerMap ==> layerMap[f] == if numbers[f] < 0 then numbers[f] + |layer| else 0
    ensures forall f :: f in layerMap && f in top && f !in bottom ==> layerMap[f] == |layer| - 1
    ensures forall l :: 0 <= l < |layer| ==> layer[l] != []
  {
    forall l | 0 <= l < |layer| ensures layer[l] != [] {
      if l == 0 && bottom != [] {
        assert bottom[0] in bottom;
        assert bottom[0] in layer[0];
      } else {
        assert HasNumber(numbers, l - |layer|);
        var f :| f in numbers && numbers[f] == l - |layer|;
        assert f in layer[l];
      }
    }
  }

  lemma NumberedNone(top: seq<Func>, bottom: seq<Func>, order: seq<Func>, ends: seq<nat>)
    ensures Numbering(top, bottom, order, ends, 0, 1, map[])
  {
  }

  /** All queued functions and all bottoms are numbered. */
  ghost predicate Finished(bottom: seq<Func>, order: seq<Func>, ends: seq<nat>, c: int, layerMap: map<Func, int>) {
    && (forall f :: f in layerMap <==> f in order || f in bottom)
    && (forall f :: f in layerMap ==> if f in bottom then layerMap[f] == 0 else -c < layerMap[f] < 0)
    && (forall a, b ::
       0 <= a < |order| && 0 <= b < |order| && order[a] !in bottom && order[b] !in bottom && Later(ends, a, b) ==>
          layerMap[order[a]] > layerMap[order[b]])
  }

  lemma StepsPart(top: seq<Func>, order: seq<Func>, ends: seq<nat>, steps: seq<seq<Func>>, x: nat)
    requires Steps(top, order, ends, steps)
    ensures x < |order| ==> x < ends[x] <= |order| && steps[x] == order[x..ends[x]] && |steps[x]| == ends[x] - x
    ensures x == 0 && order != [] ==> ends[0] == |top|
  {
  }

  lemma NumberedBottom(top: seq<Func>, bottom: seq<Func>, order: seq<Func>, ends: seq<nat>, c: int,
                       layerMap0: map<Func, int>, layerMap: map<Func, int>)
    requires NumberedTo(bottom, order, ends, |order|, c, layerMap0)
    requires forall f :: f in layerMap <==> f in layerMap0 || f in bottom
    requires forall f :: f in layerMap ==>
      layerMap[f] == (if f in bottom then NumberOf(top, bottom, c, f) else layerMap0[f])
    ensures Finished(bottom, order, ends, c, layerMap)
  {
    assert order[..|order|] == order;
  }

  lemma NumberedNoBottom(order: seq<Func>, ends: seq<nat>, c: int, layerMap: map<Func, int>)
    requires NumberedTo([], order, ends, |order|, c, layerMap)
    ensures Finished([], order, ends, c, layerMap)
  {
    assert order[..|order|] == order;
  }

  /** Adding the same to all negative numbers keeps their order, and keeps them off the bottom. */
  lemma Ordered(bottom: seq<Func>, order: seq<Func>, ends: seq<nat>, c: int, numbers: map<Func, int>)
    requires Finished(bottom, order, ends, c, numbers) && c > 0
    ensures forall f :: f in numbers <==> f in order || f in bottom
    ensures forall f :: f in numbers ==> (if f in bottom then numbers[f] == 0 else -c < numbers[f] < 0)
    ensures forall a, b ::
      0 <= a < |order| && 0 <= b < |order| && order[a] !in bottom && order[b] !in bottom && Later(ends, a, b) ==>
      numbers[order[a]] > numbers[order[b]]
  {
    hide Later;
  }

  // ---------- the whole computation

  lemma SnapshotSteps(g: Graph, top: seq<Func>, active: set<Func>, order: seq<Func>, ends: seq<nat>,
                      steps: seq<seq<Func>>)
    requires |order| <= |steps| && NoDup(order) && top <= order
      && Snapshots(g, top, active, order, ends, steps[..|order|], |order|)
    ensures Steps(top, order, ends, steps)
  {
    hide Callers;
    forall k | 0 <= k < |order| ensures steps[..|order|][k] == steps[k] {
    }
  }

  /** What a function calls is queued after the snapshots in which the function itself was waiting. */
  lemma CalleeIsLater(g: Graph, top: seq<Func>, active: set<Func>, order: seq<Func>, ends: seq<nat>,
                      steps: seq<seq<Func>>, a: nat, b: nat)
    requires NoDup(order) && Snapshots(g, top, active, order, ends, steps, |order|) && a < |order| && b < |order|
    requires order[a] in active && order[a] in g && order[b] in g[order[a]] && order[b] !in top
    ensures Later(ends, a, b)
  {
    forall k | 0 <= k <= a && k < |ends| ensures ends[k] <= b {
      if b < ends[k] {
        CallerIsTaken(g, top, active, order, ends, steps, a, b, k);
      }
    }
  }

  lemma CallerIsTaken(g: Graph, top: seq<Func>, active: set<Func>, order: seq<Func>, ends: seq<nat>,
                      steps: seq<seq<Func>>, a: nat, b: nat, k: nat)
    requires NoDup(order) && Snapshots(g, top, active, order, ends, steps, |order|) && a < |order| && b < |order|
      && k < |ends| && b < ends[k]
    requires order[a] in active && order[a] in g && order[b] in g[order[a]] && order[b] !in top
    ensures a < k
  {
    assert order[a] in Callers(g, active, order[b]);
    assert order[a] in order[..k];
    var j := PlaceOf(order, k, order[a]);
  }

  datatype Config = Config(
    top: seq<Func>,
    bottom: seq<Func>,
    reachable: seq<Func>,
    layer: seq<seq<Func>>,
    layerMap: map<Func, int>)

  /** Strictly above everything it calls, bottoms aside. */
  ghost predicate CallersAbove(g: Graph, bottom: seq<Func>, reachable: seq<Func>, layerMap: map<Func, int>) {
    forall f, s :: f in reachable && f !in bottom && f in g && s in g[f] && s in g && s !in bottom ==>
      f in layerMap && s in layerMap && layerMap[f] > layerMap[s]
  }

  /** No top is called by a function that is reachable from the tops and stays above the bottom: one that is not
      given as bottom and will not be put there for ending a cycle. */
  ghost predicate NoTopBelow(g: Graph, top: seq<Func>, bottom: seq<Func>) {
    forall f, t :: f in g && t in top && Reachable(g, top, bottom, f) && f !in bottom && !EndsLasso(g, top, f) ==>
      t !in g[f]
  }

  /** `compute_config`: some functions on cycles are added to the bottom; then every reachable function has one
      layer, and lies above what it calls unless one of the two is at the bottom. */
  method ComputeConfig(g: Graph, top: seq<Func>, bottom: seq<Func>) returns (config: Config)
    requires (forall f :: f in g ==> NoDup(g[f])) && NoDup(top) && forall t :: t in top ==> t in g
    requires NoTopBelow(g, top, bottom)
    ensures config.top == top && bottom <= config.bottom && CyclesBroken(g, top, config.bottom)
    ensures forall f :: f in config.bottom ==> f in bottom || EndsLasso(g, top, f)
    ensures forall f :: f in config.reachable <==> Reachable(g, top, config.bottom, f)
    ensures Placed(config.layer, config.layerMap) && forall f :: f in config.layerMap <==>
      f in config.reachable || f in config.bottom
    ensures forall f :: f in config.bottom ==> config.layerMap[f] == 0
    ensures forall f :: f in top && f !in config.bottom ==>
      f in config.layerMap && config.layerMap[f] == |config.layer| - 1
    ensures (forall l :: 0 <= l < |config.layer| ==> config.layer[l] != []) && (NoDup(bottom) ==> NoDup(config.bottom))
    ensures CallersAbove(g, config.bottom, config.reachable, config.layerMap)
  {
    hide EndsLasso, CyclesBroken, Reachable, Ready, Snapshots, Steps, Placed, CallersAbove, Active, NoDup;
    var all := BreakCycles(g, top, bottom);
    var reachable := ComputeReachable(g, top, all);
    MakeReady(g, top, bottom, all, reachable);
    var steps, order, ends := GetTopologicalSteps(g, top, all, reachable);
    SnapshotSteps(g, top, Active(reachable, all), order, ends, steps);
    var layer, layerMap := ComputeLayers(top, all, steps, order, ends);
    LayersAbove(g, top, all, reachable, order, ends, steps[..|order|], layerMap);
    config := Config(top, all, reachable, layer, layerMap);
  }

  /** Adds the last functions of all lassos. */
  method BreakCycles(g: Graph, top: seq<Func>, bottom: seq<Func>) returns (all: seq<Func>)
    requires forall t :: t in top ==> t in g
    ensures bottom <= all && CyclesBroken(g, top, all) && (NoDup(bottom) ==> NoDup(all))
    ensures forall f :: f in all ==> f in bottom || EndsLasso(g, top, f)
  {
    hide IsLasso;
    var cycle, cycles := FindCycle(g, top);
    all := bottom;
    for i := 0 to |cycles|
      invariant bottom <= all && (NoDup(bottom) ==> NoDup(all))
      invariant forall k :: 0 <= k < i ==> cycles[k] != [] && cycles[k][|cycles[k]| - 1] in all
      invariant forall f :: f in all ==> f in bottom || EndsLasso(g, top, f)
    {
      assert LassoFrom(g, top, cycles[i]) by {
        assert cycles[i] in cycles;
      }
      LassoLast(g, cycles[i]);
      var distance, f := BreakCycle(g, cycles[i]);
      assert distance == 0 && EndsLasso(g, top, f);
      if f !in all {
        all := all + [f];
      }
    }
    forall c | LassoFrom(g, top, c) ensures c[|c| - 1] in all {
      var k :| 0 <= k < |cycles| && cycles[k] == c;
    }
  }

  lemma MakeReady(g: Graph, top: seq<Func>, bottom: seq<Func>, all: seq<Func>, reachable: seq<Func>)
    requires (forall f :: f in g ==> NoDup(g[f])) && NoDup(top) && forall t :: t in top ==> t in g
    requires NoTopBelow(g, top, bottom)
    requires bottom <= all && CyclesBroken(g, top, all) && forall f :: f in reachable <==> Reachable(g, top, all, f)
    ensures Ready(g, top, all, reachable)
  {
    hide CyclesBroken, Reachable, EndsLasso, NoDup;
    forall f | f in bottom ensures f in all {
      var k :| 0 <= k < |bottom| && bottom[k] == f;
      assert all[k] == f;
    }
    forall f, t | f in Active(reachable, all) && f in g && t in top ensures t !in g[f] {
      MoreSinks(g, top, bottom, all, f);
      if EndsLasso(g, top, f) {
        LassoEndIsBottom(g, top, all, f);
      }
    }
  }

  /** With more sinks, fewer functions are reachable. */
  lemma MoreSinks(g: Graph, top: seq<Func>, bottom: seq<Func>, all: seq<Func>, f: Func)
    requires Reachable(g, top, all, f) && forall x :: x in bottom ==> x in all
    ensures Reachable(g, top, bottom, f)
  {
    var w :| Route(g, top, all, w) && w[|w| - 1] == f;
    assert Route(g, top, bottom, w);
  }

  lemma LassoEndIsBottom(g: Graph, top: seq<Func>, all: seq<Func>, f: Func)
    requires CyclesBroken(g, top, all) && EndsLasso(g, top, f)
    ensures f in all
  {
    hide LassoFrom;
  }

  lemma LayersAbove(g: Graph, top: seq<Func>, bottom: seq<Func>, reachable: seq<Func>, order: seq<Func>,
                    ends: seq<nat>, steps: seq<seq<Func>>, layerMap: map<Func, int>)
    requires Ready(g, top, bottom, reachable) && NoDup(order) && (forall f :: f in order <==> f in reachable)
    requires Snapshots(g, top, Active(reachable, bottom), order, ends, steps, |order|)
    requires forall f :: f in layerMap <==> f in order || f in bottom
    requires forall a, b ::
      0 <= a < |order| && 0 <= b < |order| && order[a] !in bottom && order[b] !in bottom && Later(ends, a, b) ==>
      layerMap[order[a]] > layerMap[order[b]]
    ensures CallersAbove(g, bottom, reachable, layerMap)
  {
    hide Snapshots, Later, Ready, NoDup;
    forall f, s | f in reachable && f !in bottom && f in g && s in g[f] && s in g && s !in bottom
      ensures f in layerMap && s in layerMap && layerMap[f] > layerMap[s]
    {
      QueuedReachable(g, top, bottom, reachable, f);
      NoTopCalled(g, top, bottom, reachable, f, s);
      assert f in order && s in order;
      var a :| 0 <= a < |order| && order[a] == f;
      var b :| 0 <= b < |order| && order[b] == s;
      CalleeIsLater(g, top, Active(reachable, bottom), order, ends, steps, a, b);
    }
  }

  lemma NoTopCalled(g: Graph, top: seq<Func>, bottom: seq<Func>, reachable: seq<Func>, f: Func, s: Func)
    requires Ready(g, top, bottom, reachable) && f in reachable && f !in bottom && f in g && s in g[f]
    ensures s !in top && f in Active(reachable, bottom)
  {
  }
}
