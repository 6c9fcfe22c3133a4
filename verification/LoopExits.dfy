/** All ways out of a loop led through one new block, its postheader.

    The postheader's phi node says by which exit the loop has been left, and a chain of comparisons leads on to
    where that exit went before.  Blocks made earlier, for the loops around, are blocks like all others here. */
module LoopExits {
  import opened Prelude

  type Block = int

  /** A branch is decided by an oracle, a test by the phi node of the block `of`. */
  datatype Term = Branch(succs: seq<Block>) | Test(of: Block, value: int, hit: Block, miss: Block)

  /** `phis[b][p]` is the value of the phi node of `b` when it is entered from `p`. */
  datatype Cfg = Cfg(terms: map<Block, Term>, phis: map<Block, map<Block, int>>)

  function PhiAt(g: Cfg, b: Block, from: Block): int {
    if b in g.phis && from in g.phis[b] then g.phis[b][from] else 0
  }

  function TermAt(g: Cfg, b: Block): Term {
    if b in g.terms then g.terms[b] else Branch([])
  }

  type Phis = map<Block, int>   // the current values of the phi nodes

  function ValueOf(phis: Phis, b: Block): int {
    if b in phis then phis[b] else 0
  }

  // ---------- runs, as they are seen without the blocks in `hidden`

  datatype Landing = At(block: Block, phis: Phis) | Lost

  /** Where control is seen next, having come to `b`. */
  function LandAt(g: Cfg, hidden: set<Block>, b: Block, phis: Phis, fuel: nat): Landing
    decreases fuel
  {
    if b !in hidden then At(b, phis)
    else if fuel == 0 then Lost
    else match TermAt(g, b)
      case Branch(succs) =>
        if |succs| != 1 then Lost else LandAt(g, hidden, succs[0], Enter(g, b, succs[0], phis), fuel - 1)
      case Test(of, value, hit, miss) =>
        var to := if ValueOf(phis, of) == value then hit else miss;
        LandAt(g, hidden, to, Enter(g, b, to, phis), fuel - 1)
  }

  /** The phi nodes after the edge from `from` to `to`. */
  function Enter(g: Cfg, from: Block, to: Block, phis: Phis): Phis {
    phis[to := PhiAt(g, to, from)]
  }

  /** What is seen: a block and the value of its phi node. */
  datatype Seen = Seen(block: Block, phi: int)

  type Oracle = seq<Seen> -> nat

  /** The next `n` blocks seen after `past`, which ends with `b`. */
  function Trace(g: Cfg, hidden: set<Block>, oracle: Oracle, past: seq<Seen>, b: Block, phis: Phis, fuel: nat,
                 n: nat): seq<Seen>
    decreases n, 0
  {
    if n == 0 then []
    else match TermAt(g, b)
      case Branch(succs) =>
        if |succs| == 0 then []
        else
          var to := succs[oracle(past) % |succs|];
          Onward(g, hidden, oracle, past, LandAt(g, hidden, to, Enter(g, b, to, phis), fuel), fuel, n - 1)
      case Test(of, value, hit, miss) =>
        var to := if ValueOf(phis, of) == value then hit else miss;
        Onward(g, hidden, oracle, past, LandAt(g, hidden, to, Enter(g, b, to, phis), fuel), fuel, n - 1)
  }

  function Onward(g: Cfg, hidden: set<Block>, oracle: Oracle, past: seq<Seen>, l: Landing, fuel: nat, n: nat): seq<Seen>
    decreases n, 1
  {
    match l
    case Lost => []
    case At(b, phis) =>
      var seen := Seen(b, ValueOf(phis, b));
      [seen] + Trace(g, hidden, oracle, past + [seen], b, phis, fuel, n)
  }

  /** Hidden blocks lead to others in at most `fuel` steps. */
  ghost predicate NeverLost(g: Cfg, hidden: set<Block>, fuel: nat, next: Block) {
    forall b, phis :: b < next ==> LandAt(g, hidden, b, phis, fuel).At?
  }

  // ---------- the new blocks

  /** Exit `i` leaves `block` by its successor number `way`, to `target`. */
  datatype Exit = Exit(block: Block, way: nat, target: Block)

  /** The `size` new blocks from `p` on: block `p + i - 1` sends exit `i` on, the last block exit 0. */
  function Sender(p: Block, size: nat, i: nat): Block
    requires i < size
  {
    if i == 0 then p + size - 1 else p + i - 1
  }

  ghost predicate AreExits(g: Cfg, hidden: set<Block>, inside: set<Block>, exits: seq<Exit>) {
    && (forall i :: 0 <= i < |exits| ==> IsExit(g, hidden, inside, exits[i]))
    && (forall i, j :: 0 <= i < j < |exits| ==> exits[i].block != exits[j].block)
  }

  /** The one way from a block of the loop to the outside. */
  ghost predicate IsExit(g: Cfg, hidden: set<Block>, inside: set<Block>, e: Exit) {
    && e.block in inside && e.block !in hidden && e.target !in inside
    && TermAt(g, e.block).Branch? && e.way < |TermAt(g, e.block).succs| && TermAt(g, e.block).succs[e.way] == e.target
    && forall k :: 0 <= k < |TermAt(g, e.block).succs| && k != e.way ==> TermAt(g, e.block).succs[k] in inside
  }

  /** All blocks have numbers below `next`. */
  ghost predicate Below(g: Cfg, hidden: set<Block>, next: Block) {
    && (forall b :: b in g.terms ==> b < next && match g.terms[b]
          case Branch(succs) => forall k :: 0 <= k < |succs| ==> succs[k] < next
          case Test(of, _, hit, miss) => of < next && hit < next && miss < next)
    && (forall b :: b in g.phis ==> b < next && forall p :: p in g.phis[b] ==> p < next)
    && (forall b :: b in hidden ==> b < next)
  }

  ghost predicate IsExitBlock(exits: seq<Exit>, b: Block) {
    exists i :: 0 <= i < |exits| && exits[i].block == b
  }

  predicate Redirected(g: Cfg, h: Cfg, e: Exit, p: Block) {
    && TermAt(g, e.block).Branch? && e.way < |TermAt(g, e.block).succs|
    && TermAt(h, e.block) == Branch(TermAt(g, e.block).succs[e.way := p])
  }

  /** `h` is `g` with the exits led through the new blocks from `p` on. */
  ghost predicate Normalised(g: Cfg, h: Cfg, exits: seq<Exit>, p: Block) {
    var n := |exits|;
    && n > 0
    && (forall i :: 0 <= i < n ==> Redirected(g, h, exits[i], p))
    && (forall b :: b < p && !IsExitBlock(exits, b) ==> TermAt(h, b) == TermAt(g, b))
    && (forall i :: 0 <= i < n ==> PhiAt(h, p, exits[i].block) == i)
    && (forall i :: 1 <= i < n ==> TermAt(h, p + i - 1) == Test(p, i, exits[i].target, p + i))
    && TermAt(h, p + n - 1) == Branch([exits[0].target])
    && (forall i :: 0 <= i < n ==>
       PhiAt(h, exits[i].target, Sender(p, n, i)) == PhiAt(g, exits[i].target, exits[i].block))
    && (forall b, q :: b < p && q < p && !IsExitTo(exits, q, b) ==> PhiAt(h, b, q) == PhiAt(g, b, q))
  }

  ghost predicate IsExitTo(exits: seq<Exit>, from: Block, to: Block) {
    exists i :: 0 <= i < |exits| && exits[i].block == from && exits[i].target == to
  }

  function NewBlocks(p: Block, size: nat): (r: set<Block>)
    ensures forall b :: b in r <==> p <= b < p + size
  {
    if size == 0 then {} else NewBlocks(p, size - 1) + {p + size - 1}
  }

  /** The same values for all blocks that are not new. */
  ghost predicate SamePhis(a: Phis, b: Phis, p: Block) {
    forall x :: x < p ==> ValueOf(a, x) == ValueOf(b, x)
  }

  ghost predicate SameLanding(a: Landing, b: Landing, p: Block) {
    match a
    case Lost => b.Lost?
    case At(x, phis) => b.At? && b.block == x && x < p && SamePhis(phis, b.phis, p)
  }

  // ---------- the chain leads where the exit led

  /** What stays the same for a block that is not new and not an exit. */
  lemma OldBlock(g: Cfg, h: Cfg, hidden: set<Block>, inside: set<Block>, exits: seq<Exit>, p: Block, b: Block)
    requires Normalised(g, h, exits, p) && AreExits(g, hidden, inside, exits) && Below(g, hidden, p) && b < p
      && !IsExitBlock(exits, b)
    ensures TermAt(h, b) == TermAt(g, b) && forall to :: to < p ==> PhiAt(h, to, b) == PhiAt(g, to, b)
    ensures match TermAt(g, b)
      case Branch(succs) => forall k :: 0 <= k < |succs| ==> succs[k] < p
      case Test(of, _, hit, miss) => of < p && hit < p && miss < p
  {
    forall to | to < p ensures PhiAt(h, to, b) == PhiAt(g, to, b) {
      assert !IsExitTo(exits, b, to);
    }
  }

  lemma LandOn(g: Cfg, hidden: set<Block>, b: Block, to: Block, phis: Phis, fuel: nat)
    requires b in hidden && fuel > 0
    requires match TermAt(g, b)
      case Branch(succs) => succs == [to]
      case Test(of, value, hit, miss) => to == if ValueOf(phis, of) == value then hit else miss
    ensures LandAt(g, hidden, b, phis, fuel) == LandAt(g, hidden, to, Enter(g, b, to, phis), fuel - 1)
  {
    hide Enter, ValueOf;
  }

  lemma ChainTest(g: Cfg, h: Cfg, exits: seq<Exit>, p: Block, k: nat)
    requires Normalised(g, h, exits, p) && 1 <= k < |exits|
    ensures TermAt(h, p + k - 1) == Test(p, k, exits[k].target, p + k)
  {
  }

  lemma ChainLast(g: Cfg, h: Cfg, exits: seq<Exit>, p: Block)
    requires Normalised(g, h, exits, p)
    ensures exits != [] && TermAt(h, p + |exits| - 1) == Branch([exits[0].target])
  {
  }

  lemma EnterOther(g: Cfg, from: Block, to: Block, y: Phis, x: Block)
    requires to != x
    ensures ValueOf(Enter(g, from, to, y), x) == ValueOf(y, x)
  {
  }

  lemma EnterNew(g: Cfg, from: Block, to: Block, x: Phis, y: Phis, p: Block)
    requires SamePhis(x, y, p) && to >= p
    ensures SamePhis(x, Enter(g, from, to, y), p) && ValueOf(Enter(g, from, to, y), to) == PhiAt(g, to, from)
  {
    var y' := Enter(g, from, to, y);
    forall z | z < p ensures ValueOf(x, z) == ValueOf(y', z) {
      assert ValueOf(y', z) == ValueOf(y, z);
    }
  }

  lemma HiddenIsNoExit(g: Cfg, hidden: set<Block>, inside: set<Block>, exits: seq<Exit>, b: Block)
    requires AreExits(g, hidden, inside, exits) && b in hidden
    ensures !IsExitBlock(exits, b)
  {
  }

  lemma EnterSame(g: Cfg, h: Cfg, from: Block, from': Block, to: Block, a: Phis, b: Phis, p: Block)
    requires SamePhis(a, b, p) && PhiAt(g, to, from) == PhiAt(h, to, from')
    ensures SamePhis(Enter(g, from, to, a), Enter(h, from', to, b), p)
  {
    var a', b' := Enter(g, from, to, a), Enter(h, from', to, b);
    forall x | x < p ensures ValueOf(a', x) == ValueOf(b', x) {
      assert ValueOf(a, x) == ValueOf(b, x);
    }
  }

  /** From a block that is not new, both graphs come to the same block. */
  lemma {:induction false} LandSame(g: Cfg, h: Cfg, hidden: set<Block>, inside: set<Block>, exits: seq<Exit>,
                                    p: Block, b: Block, x: Phis, y: Phis, fuel: nat, more: nat)
    requires Normalised(g, h, exits, p) && AreExits(g, hidden, inside, exits) && Below(g, hidden, p) && b < p
    requires SamePhis(x, y, p) && LandAt(g, hidden, b, x, fuel).At? && more >= fuel
    ensures SameLanding(LandAt(g, hidden, b, x, fuel), LandAt(h, hidden + NewBlocks(p, |exits|), b, y, more), p)
    decreases fuel
  {
    hide Normalised, AreExits, Below;
    assert b !in NewBlocks(p, |exits|);
    if b in hidden {
      HiddenIsNoExit(g, hidden, inside, exits, b);
      OldBlock(g, h, hidden, inside, exits, p, b);
      var to := match TermAt(g, b)
        case Branch(succs) => succs[0]
        case Test(of, value, hit, miss) => if ValueOf(x, of) == value then hit else miss;
      EnterSame(g, h, b, b, to, x, y, p);
      LandSame(g, h, hidden, inside, exits, p, to, Enter(g, b, to, x), Enter(h, b, to, y), fuel - 1, more - 1);
    }
  }

  /** Along the chain from its block number `k`, with the postheader's phi node naming exit `i`. */
  lemma {:induction false} ChainLeads(g: Cfg, h: Cfg, hidden: set<Block>, inside: set<Block>, exits: seq<Exit>,
                                      p: Block, i: nat, k: nat, x: Phis, y: Phis, fuel: nat, more: nat)
    requires Normalised(g, h, exits, p) && AreExits(g, hidden, inside, exits) && Below(g, hidden, p)
    requires i < |exits| && 1 <= k && (if i == 0 then k <= |exits| else k <= i)
    requires ValueOf(y, p) == i && SamePhis(x, y, p) && exits[i].target < p
    requires LandAt(g, hidden, exits[i].target, Enter(g, exits[i].block, exits[i].target, x), fuel).At?
      && more >= fuel + |exits| - k + 1
    ensures SameLanding(LandAt(g, hidden, exits[i].target, Enter(g, exits[i].block, exits[i].target, x), fuel),
                        LandAt(h, hidden + NewBlocks(p, |exits|), p + k - 1, y, more), p)
    decreases |exits| - k
  {
    hide Normalised, AreExits, Below, LandAt, Enter, SamePhis, SameLanding, ValueOf;
    var n, b, to := |exits|, p + k - 1, exits[i].target;
    var all := hidden + NewBlocks(p, n);
    assert b in all;
    if i == k || k == n {
      LastOfChain(g, h, exits, p, i, k);
      EnterSame(g, h, exits[i].block, b, to, x, y, p);
      LandOn(h, all, b, to, y, more);
      LandSame(g, h, hidden, inside, exits, p, to, Enter(g, exits[i].block, to, x), Enter(h, b, to, y), fuel, more - 1);
    } else {
      ChainTest(g, h, exits, p, k);
      var y' := Enter(h, b, p + k, y);
      EnterNew(h, b, p + k, x, y, p);
      EnterOther(h, b, p + k, y, p);
      LandOn(h, all, b, p + k, y, more);
      ChainLeads(g, h, hidden, inside, exits, p, i, k + 1, x, y', fuel, more - 1);
    }
  }

  lemma LastOfChain(g: Cfg, h: Cfg, exits: seq<Exit>, p: Block, i: nat, k: nat)
    requires Normalised(g, h, exits, p) && i < |exits| && 1 <= k <= |exits| && (i == k || (k == |exits| && i == 0))
    ensures var b, to := p + k - 1, exits[i].target;
      && b == Sender(p, |exits|, i) && PhiAt(h, to, b) == PhiAt(g, to, exits[i].block)
      && (TermAt(h, b) == Branch([to]) || (i == k && TermAt(h, b) == Test(p, i, to, p + k)))
  {
  }

  lemma NotLostAt(g: Cfg, hidden: set<Block>, fuel: nat, next: Block, b: Block, phis: Phis)
    requires NeverLost(g, hidden, fuel, next) && b < next
    ensures LandAt(g, hidden, b, phis, fuel).At? && SamePhis(phis, phis, next)
  {
  }

  /** The chain ends whatever the phi node says. */
  lemma {:induction false} ChainEnds(g: Cfg, h: Cfg, hidden: set<Block>, inside: set<Block>, exits: seq<Exit>,
                                     p: Block, k: nat, y: Phis, fuel: nat, more: nat)
    requires Normalised(g, h, exits, p) && AreExits(g, hidden, inside, exits) && Below(g, hidden, p)
      && NeverLost(g, hidden, fuel, p)
    requires 1 <= k <= |exits| && (forall i :: 0 <= i < |exits| ==> exits[i].target < p)
      && more >= fuel + |exits| - k + 1
    ensures LandAt(h, hidden + NewBlocks(p, |exits|), p + k - 1, y, more).At?
    decreases |exits| - k
  {
    hide Normalised, AreExits, Below, LandAt, Enter, SamePhis, ValueOf, NeverLost;
    var n, b := |exits|, p + k - 1;
    var all := hidden + NewBlocks(p, n);
    assert b in all;
    if k == n {
      ChainLast(g, h, exits, p);
      var y' := Enter(h, b, exits[0].target, y);
      LandOn(h, all, b, exits[0].target, y, more);
      NotLostAt(g, hidden, fuel, p, exits[0].target, y');
      LandSame(g, h, hidden, inside, exits, p, exits[0].target, y', y', fuel, more - 1);
    } else {
      ChainTest(g, h, exits, p, k);
      if ValueOf(y, p) == k {
        var y' := Enter(h, b, exits[k].target, y);
        LandOn(h, all, b, exits[k].target, y, more);
        NotLostAt(g, hidden, fuel, p, exits[k].target, y');
        LandSame(g, h, hidden, inside, exits, p, exits[k].target, y', y', fuel, more - 1);
      } else {
        LandOn(h, all, b, p + k, y, more);
        ChainEnds(g, h, hidden, inside, exits, p, k + 1, Enter(h, b, p + k, y), fuel, more - 1);
      }
    }
  }

  lemma StillNeverLost(g: Cfg, h: Cfg, hidden: set<Block>, inside: set<Block>, exits: seq<Exit>, p: Block, fuel: nat)
    requires Normalised(g, h, exits, p) && AreExits(g, hidden, inside, exits) && Below(g, hidden, p)
      && NeverLost(g, hidden, fuel, p) && exits != []
    ensures NeverLost(h, hidden + NewBlocks(p, |exits|), fuel + |exits|, p + |exits|)
  {
    TargetsBelow(g, hidden, inside, exits, p);
    hide Normalised, AreExits, Below, LandAt;
    var all, more := hidden + NewBlocks(p, |exits|), fuel + |exits|;
    forall b: Block, phis: Phis | b < p + |exits| ensures LandAt(h, all, b, phis, more).At? {
      if b < p {
        LandSame(g, h, hidden, inside, exits, p, b, phis, phis, fuel, more);
      } else {
        ChainEnds(g, h, hidden, inside, exits, p, b - p + 1, phis, fuel, more);
      }
    }
  }

  lemma TargetsBelow(g: Cfg, hidden: set<Block>, inside: set<Block>, exits: seq<Exit>, p: Block)
    requires AreExits(g, hidden, inside, exits) && Below(g, hidden, p)
    ensures forall i :: 0 <= i < |exits| ==> exits[i].target < p && exits[i].block < p
  {
    forall i | 0 <= i < |exits| ensures exits[i].target < p && exits[i].block < p {
      assert IsExit(g, hidden, inside, exits[i]);
    }
  }

  // ---------- runs stay the same

  /** Every run, whatever the branches decide, sees the same blocks with the same values of their phi nodes. */
  lemma {:induction false} SameTrace(g: Cfg, h: Cfg, hidden: set<Block>, inside: set<Block>, exits: seq<Exit>,
                                     p: Block, fuel: nat, oracle: Oracle, past: seq<Seen>, b: Block, x: Phis, y: Phis,
                                     n: nat)
    requires Normalised(g, h, exits, p) && AreExits(g, hidden, inside, exits) && Below(g, hidden, p)
      && NeverLost(g, hidden, fuel, p)
    requires b < p && b !in hidden && SamePhis(x, y, p)
    ensures Trace(h, hidden + NewBlocks(p, |exits|), oracle, past, b, y, fuel + |exits|, n) ==
      Trace(g, hidden, oracle, past, b, x, fuel, n)
    decreases n
  {
    if n > 0 {
      hide Trace, Onward, Normalised, AreExits, Below, NeverLost, LandAt;
      var all := hidden + NewBlocks(p, |exits|);
      var l, l' := First(g, hidden, oracle, past, b, x, fuel), First(h, all, oracle, past, b, y, fuel + |exits|);
      if IsExitBlock(exits, b) {
        ExitFirst(g, h, hidden, inside, exits, p, fuel, oracle, past, b, x, y);
      } else {
        OtherFirst(g, h, hidden, inside, exits, p, fuel, oracle, past, b, x, y);
      }
      TraceFirst(g, hidden, oracle, past, b, x, fuel, n);
      TraceFirst(h, all, oracle, past, b, y, fuel + |exits|, n);
      if l.At? {
        LandsSeen(g, hidden, oracle, past, b, x, fuel);
        var seen := Seen(l.block, ValueOf(l.phis, l.block));
        SameTrace(g, h, hidden, inside, exits, p, fuel, oracle, past + [seen], l.block, l.phis, l'.phis, n - 1);
      }
    }
  }

  /** The first landing of a run; `Lost` where it stops. */
  function First(g: Cfg, hidden: set<Block>, oracle: Oracle, past: seq<Seen>, b: Block, phis: Phis,
                 fuel: nat): Landing {
    match TermAt(g, b)
    case Branch(succs) =>
      if |succs| == 0 then Lost
      else
        var to := succs[oracle(past) % |succs|];
        LandAt(g, hidden, to, Enter(g, b, to, phis), fuel)
    case Test(of, value, hit, miss) =>
      var to := if ValueOf(phis, of) == value then hit else miss;
      LandAt(g, hidden, to, Enter(g, b, to, phis), fuel)
  }

  lemma TraceFirst(g: Cfg, hidden: set<Block>, oracle: Oracle, past: seq<Seen>, b: Block, phis: Phis, fuel: nat, n: nat)
    requires n > 0
    ensures var l := First(g, hidden, oracle, past, b, phis, fuel);
      Trace(g, hidden, oracle, past, b, phis, fuel, n) ==
        if l.Lost? then []
        else [Seen(l.block, ValueOf(l.phis, l.block))]
             + Trace(g, hidden, oracle, past + [Seen(l.block, ValueOf(l.phis, l.block))], l.block, l.phis, fuel, n - 1)
  {
    hide LandAt;
  }

  lemma {:induction false} LandVisible(g: Cfg, hidden: set<Block>, b: Block, phis: Phis, fuel: nat)
    ensures LandAt(g, hidden, b, phis, fuel).At? ==> LandAt(g, hidden, b, phis, fuel).block !in hidden
    decreases fuel
  {
    if b in hidden && fuel > 0 {
      match TermAt(g, b)
      case Branch(succs) =>
        if |succs| == 1 {
          LandVisible(g, hidden, succs[0], Enter(g, b, succs[0], phis), fuel - 1);
        }
      case Test(of, value, hit, miss) =>
        var to := if ValueOf(phis, of) == value then hit else miss;
        LandVisible(g, hidden, to, Enter(g, b, to, phis), fuel - 1);
    }
  }

  lemma LandsSeen(g: Cfg, hidden: set<Block>, oracle: Oracle, past: seq<Seen>, b: Block, phis: Phis, fuel: nat)
    ensures var l := First(g, hidden, oracle, past, b, phis, fuel); l.At? ==> l.block !in hidden
  {
    hide LandAt;
    match TermAt(g, b)
    case Branch(succs) =>
      if |succs| != 0 {
        var to := succs[oracle(past) % |succs|];
        LandVisible(g, hidden, to, Enter(g, b, to, phis), fuel);
      }
    case Test(of, value, hit, miss) =>
      var to := if ValueOf(phis, of) == value then hit else miss;
      LandVisible(g, hidden, to, Enter(g, b, to, phis), fuel);
  }

  lemma OtherFirst(g: Cfg, h: Cfg, hidden: set<Block>, inside: set<Block>, exits: seq<Exit>, p: Block, fuel: nat,
                   oracle: Oracle, past: seq<Seen>, b: Block, x: Phis, y: Phis)
    requires Normalised(g, h, exits, p) && AreExits(g, hidden, inside, exits) && Below(g, hidden, p)
      && NeverLost(g, hidden, fuel, p)
    requires b < p && !IsExitBlock(exits, b) && SamePhis(x, y, p)
    ensures SameLanding(First(g, hidden, oracle, past, b, x, fuel),
                        First(h, hidden + NewBlocks(p, |exits|), oracle, past, b, y, fuel + |exits|), p)
  {
    hide Normalised, AreExits, Below, LandAt;
    OldBlock(g, h, hidden, inside, exits, p, b);
    if TermAt(g, b) != Branch([]) {
      var to := match TermAt(g, b)
        case Branch(succs) => succs[oracle(past) % |succs|]
        case Test(of, value, hit, miss) => if ValueOf(x, of) == value then hit else miss;
      EnterSame(g, h, b, b, to, x, y, p);
      LandSame(g, h, hidden, inside, exits, p, to, Enter(g, b, to, x), Enter(h, b, to, y), fuel, fuel + |exits|);
    }
  }

  lemma ExitFirst(g: Cfg, h: Cfg, hidden: set<Block>, inside: set<Block>, exits: seq<Exit>, p: Block, fuel: nat,
                  oracle: Oracle, past: seq<Seen>, b: Block, x: Phis, y: Phis)
    requires Normalised(g, h, exits, p) && AreExits(g, hidden, inside, exits) && Below(g, hidden, p)
      && NeverLost(g, hidden, fuel, p)
    requires b < p && IsExitBlock(exits, b) && SamePhis(x, y, p)
    ensures SameLanding(First(g, hidden, oracle, past, b, x, fuel),
                        First(h, hidden + NewBlocks(p, |exits|), oracle, past, b, y, fuel + |exits|), p)
  {
    hide First, Normalised, AreExits, Below, LandAt, Enter, SamePhis, SameLanding, ValueOf, NeverLost, IsExitBlock;
    TargetsBelow(g, hidden, inside, exits, p);
    var i := ExitNumber(exits, b);
    ExitBlock(g, h, hidden, inside, exits, p, i);
    var succs := TermAt(g, b).succs;
    var k := oracle(past) % |succs|;
    FirstBranch(g, hidden, oracle, past, b, x, fuel);
    FirstBranch(h, hidden + NewBlocks(p, |exits|), oracle, past, b, y, fuel + |exits|);
    NotLostAt(g, hidden, fuel, p, succs[k], Enter(g, b, succs[k], x));
    if k == exits[i].way {
      var y' := Enter(h, b, p, y);
      EnterNew(h, b, p, x, y, p);
      ChainLeads(g, h, hidden, inside, exits, p, i, 1, x, y', fuel, fuel + |exits|);
    } else {
      EnterSame(g, h, b, b, succs[k], x, y, p);
      LandSame(g, h, hidden, inside, exits, p, succs[k], Enter(g, b, succs[k], x), Enter(h, b, succs[k], y), fuel,
        fuel + |exits|);
    }
  }

  lemma ExitNumber(exits: seq<Exit>, b: Block) returns (i: nat)
    requires IsExitBlock(exits, b)
    ensures i < |exits| && exits[i].block == b
  {
    i :| i < |exits| && exits[i].block == b;
  }

  lemma FirstBranch(g: Cfg, hidden: set<Block>, oracle: Oracle, past: seq<Seen>, b: Block, phis: Phis, fuel: nat)
    requires TermAt(g, b).Branch? && TermAt(g, b).succs != []
    ensures var succs := TermAt(g, b).succs;
      var to := succs[oracle(past) % |succs|];
      First(g, hidden, oracle, past, b, phis, fuel) == LandAt(g, hidden, to, Enter(g, b, to, phis), fuel)
  {
    hide LandAt, Enter;
  }

  lemma ExitBlock(g: Cfg, h: Cfg, hidden: set<Block>, inside: set<Block>, exits: seq<Exit>, p: Block, i: nat)
    requires Normalised(g, h, exits, p) && AreExits(g, hidden, inside, exits) && Below(g, hidden, p) && i < |exits|
    ensures var e := exits[i];
      && TermAt(g, e.block).Branch? && e.way < |TermAt(g, e.block).succs| && TermAt(g, e.block).succs[e.way] == e.target
      && TermAt(h, e.block) == Branch(TermAt(g, e.block).succs[e.way := p]) && PhiAt(h, p, e.block) == i
      && forall k :: 0 <= k < |TermAt(g, e.block).succs| && k != e.way ==>
           TermAt(g, e.block).succs[k] < p && PhiAt(h, TermAt(g, e.block).succs[k], e.block) ==
             PhiAt(g, TermAt(g, e.block).succs[k], e.block)
  {
    var e := exits[i];
    assert IsExit(g, hidden, inside, e);
    forall k | 0 <= k < |TermAt(g, e.block).succs| && k != e.way
      ensures TermAt(g, e.block).succs[k] < p && PhiAt(h, TermAt(g, e.block).succs[k], e.block) ==
        PhiAt(g, TermAt(g, e.block).succs[k], e.block)
    {
      var t := TermAt(g, e.block).succs[k];
      assert t in inside;
      assert !IsExitTo(exits, e.block, t) by {
        forall j | 0 <= j < |exits| ensures exits[j].target != t {
          assert IsExit(g, hidden, inside, exits[j]);
        }
      }
    }
  }

  // ---------- making the new blocks

  function WithTerm(g: Cfg, b: Block, t: Term): Cfg {
    g.(terms := g.terms[b := t])
  }

  function WithPhi(g: Cfg, b: Block, from: Block, value: int): Cfg {
    g.(phis := g.phis[b := (if b in g.phis then g.phis[b] else map[])[from := value]])
  }

  /** `replacePhiUsesWith`: what has come to `b` from `from` now comes from `to`. */
  function RenamePhi(g: Cfg, b: Block, from: Block, to: Block): Cfg {
    if b in g.phis && from in g.phis[b] then g.(phis := g.phis[b := (g.phis[b] - {from})[to := g.phis[b][from]]]) else g
  }

  /** No phi node of the target notes a value for the block of the exit itself. */
  predicate Gone(g: Cfg, e: Exit) {
    e.target in g.phis ==> e.block !in g.phis[e.target]
  }

  lemma RenameGone(g: Cfg, b: Block, from: Block, to: Block)
    requires from != to
    ensures forall e: Exit :: e.block != to && (Gone(g, e) || (e.target == b && e.block == from)) ==>
      Gone(RenamePhi(g, b, from, to), e)
  {
  }

  lemma WithTermGone(g: Cfg, b: Block, t: Term)
    ensures forall e: Exit :: Gone(WithTerm(g, b, t), e) == Gone(g, e)
  {
  }

  /** From a block of the loop there is one way out. */
  ghost predicate LeavesOnce(g: Cfg, inside: set<Block>, b: Block) {
    exists e: Exit :: e.block == b && IsExit(g, {}, inside, e)
  }

  class FlowGraph {
    var g: Cfg
    var next: Block

    constructor (g: Cfg, next: Block)
      ensures this.g == g && this.next == next
    {
      this.g, this.next := g, next;
    }

    /** Finds the way out of block `b`, which is exit number `id`, and leads it to `p`. */
    method RedirectExit(inside: set<Block>, b: Block, id: nat, p: Block, ghost top: Block) returns (e: Exit)
      requires b in inside && LeavesOnce(g, inside, b) && Below(g, {}, top) && b < top && p < top
      modifies this`g
      ensures e.block == b && IsExit(old(g), {}, inside, e)
      ensures g == WithPhi(WithTerm(old(g), b, Branch(TermAt(old(g), b).succs[e.way := p])), p, b, id)
      ensures Below(g, {}, top) && next == old(next)
    {
      var succs := TermAt(g, b).succs;
      var way := 0;
      while way < |succs| && succs[way] in inside
        invariant way <= |succs| && forall k :: 0 <= k < way ==> succs[k] in inside
      {
        way := way + 1;
      }
      e := Exit(b, way, succs[way]);
      BelowWithTerm(g, b, Branch(succs[way := p]), top);
      BelowWithPhi(WithTerm(g, b, Branch(succs[way := p])), p, b, id, top);
      g := WithPhi(WithTerm(g, b, Branch(succs[way := p])), p, b, id);
    }

    /** Redirects all exits to `p`. */
    method RedirectExits(inside: set<Block>, blocks: seq<Block>, p: Block, ghost top: Block) returns (exits: seq<Exit>)
      requires Below(g, {}, top) && p < top && NoDup(blocks) && forall i :: 0 <= i < |blocks| ==>
        blocks[i] in inside && blocks[i] < p && LeavesOnce(g, inside, blocks[i])
      modifies this`g
      ensures ExitsRedirected(old(g), g, inside, blocks, exits, p, |blocks|) && Below(g, {}, top)
    {
      hide Below, ExitsRedirected, NoDup, LeavesOnce, WithTerm, WithPhi;
      exits := [];
      NoneRedirected(g, inside, blocks, p);
      for n := 0 to |blocks|
        invariant Below(g, {}, top) && ExitsRedirected(old(g), g, inside, blocks, exits, p, n)
      {
        NextStillLeaves(old(g), g, inside, blocks, exits, p, n);
        ghost var before := g;
        var e := RedirectExit(inside, blocks[n], n, p, top);
        OneRedirected(old(g), before, inside, blocks, exits, p, n, e);
        exits := exits + [e];
      }
    }

    /** The comparisons from `p` on.  `g0` is the graph before its exits were redirected. */
    method BuildChain(exits: seq<Exit>, p: Block, ghost g0: Cfg)
      requires exits != [] && next == p + 1 && (forall i :: 0 <= i < |exits| ==>
        exits[i].target < p && exits[i].block < p)
      requires forall i, j :: 0 <= i < j < |exits| ==> exits[i].block != exits[j].block
      requires Below(g0, {}, p) && (forall b, q :: b != p ==> PhiAt(g, b, q) == PhiAt(g0, b, q))
        && Below(g, {}, p + |exits|)
      modifies this
      ensures next == p + |exits| && Below(g, {}, next)
      ensures forall b :: b < p ==> TermAt(g, b) == TermAt(old(g), b)
      ensures forall i :: 1 <= i < |exits| ==> TermAt(g, p + i - 1) == Test(p, i, exits[i].target, p + i)
      ensures TermAt(g, p + |exits| - 1) == Branch([exits[0].target])
      ensures forall i :: 0 <= i < |exits| ==>
        PhiAt(g, exits[i].target, Sender(p, |exits|, i)) == PhiAt(g0, exits[i].target, exits[i].block)
      ensures forall b, q :: b < p && q < p && !IsExitTo(exits, q, b) ==> PhiAt(g, b, q) == PhiAt(g0, b, q)
      ensures forall q :: PhiAt(g, p, q) == PhiAt(old(g), p, q)
      ensures forall i :: 0 <= i < |exits| ==> Gone(g, exits[i])
    {
      hide Moved, Below, PhiAt, RenamePhi, Gone;
      ghost var top := p + |exits|;
      var at := p;
      NoneMoved(g0, g, exits, p);
      for i := 1 to |exits|
        invariant at == p + i - 1 && next == p + i && Below(g, {}, top)
        invariant forall b :: b < p ==> TermAt(g, b) == TermAt(old(g), b)
        invariant forall k :: 1 <= k < i ==> TermAt(g, p + k - 1) == Test(p, k, exits[k].target, p + k)
        invariant Moved(g0, g, exits, p, i)
        invariant forall q :: PhiAt(g, p, q) == PhiAt(old(g), p, q)
        invariant forall k :: 1 <= k < i ==> Gone(g, exits[k])
      {
        var shadow := next;
        next := next + 1;
        OneMoved(g0, g, exits, p, i);
        BelowRename(g, exits[i].target, exits[i].block, at, top);
        ghost var renamed := RenamePhi(g, exits[i].target, exits[i].block, at);
        RenameGone(g, exits[i].target, exits[i].block, at);
        WithTermGone(renamed, at, Test(p, i, exits[i].target, shadow));
        BelowWithTerm(renamed, at, Test(p, i, exits[i].target, shadow), top);
        g := RenamePhi(g, exits[i].target, exits[i].block, at);
        WithTermPhis(g, at, Test(p, i, exits[i].target, shadow));
        MovedSame(g0, g, WithTerm(g, at, Test(p, i, exits[i].target, shadow)), exits, p, i + 1);
        g := WithTerm(g, at, Test(p, i, exits[i].target, shadow));
        at := shadow;
      }
      LastMoved(g0, g, exits, p);
      BelowRename(g, exits[0].target, exits[0].block, at, top);
      RenameGone(g, exits[0].target, exits[0].block, at);
      g := RenamePhi(g, exits[0].target, exits[0].block, at);
      WithTermGone(g, at, Branch([exits[0].target]));
      WithTermPhis(g, at, Branch([exits[0].target]));
      BelowWithTerm(g, at, Branch([exits[0].target]), top);
      g := WithTerm(g, at, Branch([exits[0].target]));
    }

    /** One loop: its exits redirected, and the blocks that send them on. */
    method NormaliseLoop(inside: set<Block>, blocks: seq<Block>, ghost hidden: set<Block>)
      returns (ghost exits: seq<Exit>)
      requires Below(g, hidden, next) && blocks != [] && NoDup(blocks)
      requires forall i :: 0 <= i < |blocks| ==>
        blocks[i] in inside && blocks[i] !in hidden && LeavesOnce(g, inside, blocks[i])
      modifies this
      ensures |exits| == |blocks| && forall i :: 0 <= i < |blocks| ==> exits[i].block == blocks[i]
      ensures AreExits(old(g), hidden, inside, exits) && Normalised(old(g), g, exits, old(next))
        && next == old(next) + |blocks|
      ensures Below(g, hidden + NewBlocks(old(next), |blocks|), next)
      ensures forall i :: 0 <= i < |exits| ==> Gone(g, exits[i])
    {
      ghost var g0 := g;
      var p := next;
      BelowMore(g, hidden, p, p + |blocks|);
      next := next + 1;
      var es := RedirectExits(inside, blocks, p, p + |blocks|);
      exits := es;
      ExitsAre(g0, hidden, inside, blocks, exits);
      TargetsBelow(g0, hidden, inside, exits, p);
      ghost var redirected := g;
      BuildChain(es, p, g0);
      AllNormalised(g0, redirected, g, blocks, exits, p);
      assert Below(g, hidden + NewBlocks(p, |blocks|), next) by {
        BelowHidden(g, hidden, p, |blocks|);
      }
    }
  }

  /** The first `n` exits are redirected. */
  ghost predicate ExitsRedirected(g0: Cfg, g: Cfg, inside: set<Block>, blocks: seq<Block>, exits: seq<Exit>, p: Block,
                                  n: nat)
    requires n <= |blocks|
  {
    && |exits| == n
    && (forall i :: 0 <= i < n ==> exits[i].block == blocks[i] && IsExit(g0, {}, inside, exits[i]))
    && (forall i :: 0 <= i < n ==> Redirected(g0, g, exits[i], p) && PhiAt(g, p, blocks[i]) == i)
    && (forall b :: b !in blocks[..n] ==> TermAt(g, b) == TermAt(g0, b))
    && (forall b, q :: b != p ==> PhiAt(g, b, q) == PhiAt(g0, b, q))
  }

  lemma NoneRedirected(g: Cfg, inside: set<Block>, blocks: seq<Block>, p: Block)
    ensures ExitsRedirected(g, g, inside, blocks, [], p, 0)
  {
  }

  lemma NextStillLeaves(g0: Cfg, g: Cfg, inside: set<Block>, blocks: seq<Block>, exits: seq<Exit>, p: Block, n: nat)
    requires n < |blocks| && NoDup(blocks) && ExitsRedirected(g0, g, inside, blocks, exits, p, n)
      && LeavesOnce(g0, inside, blocks[n])
    ensures LeavesOnce(g, inside, blocks[n]) && TermAt(g, blocks[n]) == TermAt(g0, blocks[n])
  {
    assert blocks[n] !in blocks[..n];
    SameTermLeaves(g0, g, inside, blocks[n]);
  }

  lemma OneRedirected(g0: Cfg, g: Cfg, inside: set<Block>, blocks: seq<Block>, exits: seq<Exit>, p: Block, n: nat,
                      e: Exit)
    requires n < |blocks| && NoDup(blocks) && ExitsRedirected(g0, g, inside, blocks, exits, p, n)
      && LeavesOnce(g0, inside, blocks[n])
    requires e.block == blocks[n] && IsExit(g, {}, inside, e)
    ensures var h := WithPhi(WithTerm(g, blocks[n], Branch(TermAt(g, blocks[n]).succs[e.way := p])), p, blocks[n], n);
      ExitsRedirected(g0, h, inside, blocks, exits + [e], p, n + 1)
  {
    NextStillLeaves(g0, g, inside, blocks, exits, p, n);
    var h := WithPhi(WithTerm(g, blocks[n], Branch(TermAt(g, blocks[n]).succs[e.way := p])), p, blocks[n], n);
    assert IsExit(g0, {}, inside, e);
    assert blocks[..n + 1] == blocks[..n] + [blocks[n]];
    forall i | 0 <= i < n ensures Redirected(g0, h, exits[i], p) && PhiAt(h, p, blocks[i]) == i {
      assert Redirected(g0, g, exits[i], p) && blocks[i] != blocks[n];
    }
  }

  ghost predicate Among(exits: seq<Exit>, lo: nat, hi: nat, from: Block, to: Block)
    requires hi <= |exits|
  {
    exists k :: lo <= k < hi && exits[k].block == from && exits[k].target == to
  }

  /** The phi nodes of the old blocks, the entries of exits 1 to `i - 1` having been renamed. */
  ghost predicate Moved(g0: Cfg, g: Cfg, exits: seq<Exit>, p: Block, i: nat)
    requires 1 <= i <= |exits|
  {
    && (forall k :: 1 <= k < i ==> PhiAt(g, exits[k].target, p + k - 1) == PhiAt(g0, exits[k].target, exits[k].block))
    && (forall b, q :: b < p && q < p && !Among(exits, 1, i, q, b) ==> PhiAt(g, b, q) == PhiAt(g0, b, q))
    && (forall b, q :: b < p && q >= p + i - 1 ==> PhiAt(g, b, q) == 0)
  }

  lemma NoneMoved(g0: Cfg, g: Cfg, exits: seq<Exit>, p: Block)
    requires exits != [] && Below(g0, {}, p) && forall b, q :: b != p ==> PhiAt(g, b, q) == PhiAt(g0, b, q)
    ensures Moved(g0, g, exits, p, 1)
  {
  }

  lemma RenamePhiAt(g: Cfg, b: Block, from: Block, to: Block)
    requires from != to && PhiAt(g, b, to) == 0
    ensures PhiAt(RenamePhi(g, b, from, to), b, to) == PhiAt(g, b, from)
    ensures forall x, q :: x != b || (q != from && q != to) ==> PhiAt(RenamePhi(g, b, from, to), x, q) == PhiAt(g, x, q)
    ensures RenamePhi(g, b, from, to).terms == g.terms
  {
  }

  lemma OneMoved(g0: Cfg, g: Cfg, exits: seq<Exit>, p: Block, i: nat)
    requires 1 <= i < |exits| && Moved(g0, g, exits, p, i) && (forall k :: 0 <= k < |exits| ==>
      exits[k].target < p && exits[k].block < p)
    requires forall j, k :: 0 <= j < k < |exits| ==> exits[j].block != exits[k].block
    ensures var h := RenamePhi(g, exits[i].target, exits[i].block, p + i - 1);
      Moved(g0, h, exits, p, i + 1) && h.terms == g.terms && forall q :: PhiAt(h, p, q) == PhiAt(g, p, q)
  {
    hide PhiAt, RenamePhi;
    var e, at := exits[i], p + i - 1;
    var h := RenamePhi(g, e.target, e.block, at);
    RenamePhiAt(g, e.target, e.block, at);
    assert !Among(exits, 1, i, e.block, e.target);
    forall b, q | b < p && q < p && !Among(exits, 1, i + 1, q, b) ensures PhiAt(h, b, q) == PhiAt(g0, b, q) {
      assert !(q == e.block && b == e.target);
      assert !Among(exits, 1, i, q, b);
    }
  }

  lemma LastMoved(g0: Cfg, g: Cfg, exits: seq<Exit>, p: Block)
    requires exits != [] && Moved(g0, g, exits, p, |exits|) && (forall k :: 0 <= k < |exits| ==>
      exits[k].target < p && exits[k].block < p)
    requires forall j, k :: 0 <= j < k < |exits| ==> exits[j].block != exits[k].block
    ensures var h := RenamePhi(g, exits[0].target, exits[0].block, p + |exits| - 1);
      && (forall i :: 0 <= i < |exits| ==>
         PhiAt(h, exits[i].target, Sender(p, |exits|, i)) == PhiAt(g0, exits[i].target, exits[i].block))
      && (forall b, q :: b < p && q < p && !IsExitTo(exits, q, b) ==> PhiAt(h, b, q) == PhiAt(g0, b, q))
      && (forall q :: PhiAt(h, p, q) == PhiAt(g, p, q)) && h.terms == g.terms
  {
    hide PhiAt, RenamePhi;
    var e, n := exits[0], |exits|;
    var h := RenamePhi(g, e.target, e.block, p + n - 1);
    RenamePhiAt(g, e.target, e.block, p + n - 1);
    assert !Among(exits, 1, n, e.block, e.target);
    forall b, q | b < p && q < p && !IsExitTo(exits, q, b) ensures PhiAt(h, b, q) == PhiAt(g0, b, q) {
      assert exits[0].block == e.block;
      assert !(q == e.block && b == e.target) && !Among(exits, 1, n, q, b);
    }
  }

  lemma WithTermPhis(g: Cfg, b: Block, t: Term)
    ensures forall x, q :: PhiAt(WithTerm(g, b, t), x, q) == PhiAt(g, x, q)
  {
  }

  lemma MovedSame(g0: Cfg, g: Cfg, h: Cfg, exits: seq<Exit>, p: Block, i: nat)
    requires 1 <= i <= |exits| && Moved(g0, g, exits, p, i) && forall x, q :: PhiAt(h, x, q) == PhiAt(g, x, q)
    ensures Moved(g0, h, exits, p, i)
  {
    hide PhiAt, Among;
  }

  predicate TermBelow(t: Term, next: Block) {
    match t
    case Branch(succs) => forall k :: 0 <= k < |succs| ==> succs[k] < next
    case Test(of, _, hit, miss) => of < next && hit < next && miss < next
  }

  lemma BelowWithTerm(g: Cfg, b: Block, t: Term, next: Block)
    requires Below(g, {}, next) && b < next && TermBelow(t, next)
    ensures Below(WithTerm(g, b, t), {}, next)
  {
  }

  lemma BelowWithPhi(g: Cfg, b: Block, from: Block, value: int, next: Block)
    requires Below(g, {}, next) && b < next && from < next
    ensures Below(WithPhi(g, b, from, value), {}, next)
  {
  }

  lemma BelowRename(g: Cfg, b: Block, from: Block, to: Block, next: Block)
    requires Below(g, {}, next) && to < next
    ensures Below(RenamePhi(g, b, from, to), {}, next)
  {
  }

  lemma BelowMore(g: Cfg, hidden: set<Block>, next: Block, more: Block)
    requires Below(g, hidden, next) && next <= more
    ensures Below(g, {}, next) && Below(g, {}, more)
  {
  }

  lemma BelowHidden(g: Cfg, hidden: set<Block>, p: Block, n: nat)
    requires Below(g, {}, p + n) && forall b :: b in hidden ==> b < p
    ensures Below(g, hidden + NewBlocks(p, n), p + n)
  {
  }

  lemma ExitsAre(g: Cfg, hidden: set<Block>, inside: set<Block>, blocks: seq<Block>, exits: seq<Exit>)
    requires NoDup(blocks) && |exits| == |blocks| && forall i :: 0 <= i < |blocks| ==>
      exits[i].block == blocks[i] && IsExit(g, {}, inside, exits[i])
    requires forall i :: 0 <= i < |blocks| ==> blocks[i] !in hidden
    ensures AreExits(g, hidden, inside, exits)
  {
    forall i | 0 <= i < |exits| ensures IsExit(g, hidden, inside, exits[i]) {
    }
  }

  lemma AllNormalised(g0: Cfg, g1: Cfg, g2: Cfg, blocks: seq<Block>, exits: seq<Exit>, p: Block)
    requires |exits| == |blocks| > 0 && (forall i :: 0 <= i < |blocks| ==> exits[i].block == blocks[i] && blocks[i] < p)
    requires forall i :: 0 <= i < |blocks| ==> Redirected(g0, g1, exits[i], p) && PhiAt(g1, p, blocks[i]) == i
    requires forall b :: b !in blocks ==> TermAt(g1, b) == TermAt(g0, b)
    requires forall b :: b < p ==> TermAt(g2, b) == TermAt(g1, b)
    requires forall i :: 1 <= i < |exits| ==> TermAt(g2, p + i - 1) == Test(p, i, exits[i].target, p + i)
    requires TermAt(g2, p + |exits| - 1) == Branch([exits[0].target])
    requires forall i :: 0 <= i < |exits| ==>
      PhiAt(g2, exits[i].target, Sender(p, |exits|, i)) == PhiAt(g0, exits[i].target, exits[i].block)
    requires forall b, q :: b < p && q < p && !IsExitTo(exits, q, b) ==> PhiAt(g2, b, q) == PhiAt(g0, b, q)
    requires forall q :: PhiAt(g2, p, q) == PhiAt(g1, p, q)
    ensures Normalised(g0, g2, exits, p)
  {
    hide TermAt, PhiAt;
    forall b | b in blocks ensures IsExitBlock(exits, b) {
      var i :| 0 <= i < |blocks| && blocks[i] == b;
      assert exits[i].block == b;
    }
  }

  lemma SameTermLeaves(g: Cfg, h: Cfg, inside: set<Block>, b: Block)
    requires LeavesOnce(g, inside, b) && TermAt(h, b) == TermAt(g, b)
    ensures LeavesOnce(h, inside, b) && forall e: Exit :: e.block == b && IsExit(h, {}, inside, e) ==>
      IsExit(g, {}, inside, e)
  {
    var e: Exit :| e.block == b && IsExit(g, {}, inside, e);
    assert IsExit(h, {}, inside, e);
  }

  // ---------- all loops

  /** The blocks of a loop, and those of them that leave it. */
  datatype Loop = Loop(inside: set<Block>, exits: seq<Block>)

  ghost predicate LoopLeaves(g: Cfg, hidden: set<Block>, l: Loop, next: Block) {
    && l.exits != [] && NoDup(l.exits) && (forall b :: b in l.inside ==> b < next && b !in hidden)
    && forall i :: 0 <= i < |l.exits| ==> l.exits[i] in l.inside && LeavesOnce(g, l.inside, l.exits[i])
  }

  /** Outer loops come first. */
  ghost predicate OuterFirst(loops: seq<Loop>) {
    forall i, j :: 0 <= i < j < |loops| ==> loops[j].inside <= loops[i].inside || loops[j].inside !! loops[i].inside
  }

  lemma StillLeaves(g: Cfg, h: Cfg, hidden: set<Block>, outer: Loop, exits: seq<Exit>, l: Loop, p: Block, first: Block)
    requires Normalised(g, h, exits, p) && AreExits(g, hidden, outer.inside, exits) && LoopLeaves(g, hidden, l, first)
      && first <= p
    requires l.inside <= outer.inside || l.inside !! outer.inside
    ensures LoopLeaves(h, hidden + NewBlocks(p, |exits|), l, first)
  {
    hide NewBlocks, PhiAt;
    forall i | 0 <= i < |l.exits| ensures LeavesOnce(h, l.inside, l.exits[i]) {
      ExitStillLeaves(g, h, hidden, outer.inside, exits, l.inside, p, first, l.exits[i]);
    }
  }

  lemma ExitStillLeaves(g: Cfg, h: Cfg, hidden: set<Block>, outer: set<Block>, exits: seq<Exit>, inside: set<Block>,
                        p: Block, first: Block, b: Block)
    requires Normalised(g, h, exits, p) && AreExits(g, hidden, outer, exits) && first <= p
      && (forall x :: x in inside ==> x < first)
    requires (inside <= outer || inside !! outer) && b in inside && LeavesOnce(g, inside, b)
    ensures LeavesOnce(h, inside, b)
  {
    var e: Exit :| e.block == b && IsExit(g, {}, inside, e);
    if IsExitBlock(exits, b) {
      var i := ExitNumber(exits, b);
      assert IsExit(g, hidden, outer, exits[i]) && exits[i].way == e.way && Redirected(g, h, exits[i], p);
      var f := Exit(b, e.way, p);
      assert IsExit(h, {}, inside, f);
    } else {
      SameTermLeaves(g, h, inside, b);
    }
  }

  /** Every run sees the same. */
  ghost predicate SameRuns(g: Cfg, h: Cfg, hidden: set<Block>, fuel: nat, next: Block) {
    forall oracle, past, b, phis, n :: b < next ==>
      Trace(h, hidden, oracle, past, b, phis, fuel, n) == Trace(g, {}, oracle, past, b, phis, 0, n)
  }

  lemma RunsStaySame(g0: Cfg, g: Cfg, h: Cfg, hidden: set<Block>, inside: set<Block>, exits: seq<Exit>, p: Block,
                     fuel: nat, first: Block)
    requires Normalised(g, h, exits, p) && AreExits(g, hidden, inside, exits) && Below(g, hidden, p)
      && NeverLost(g, hidden, fuel, p)
    requires SameRuns(g0, g, hidden, fuel, first) && first <= p && forall b :: b in hidden ==> b >= first
    ensures SameRuns(g0, h, hidden + NewBlocks(p, |exits|), fuel + |exits|, first)
  {
    hide Normalised, AreExits, Below, NeverLost, Trace;
    var all, more := hidden + NewBlocks(p, |exits|), fuel + |exits|;
    forall oracle: Oracle, past: seq<Seen>, b: Block, phis: Phis, n: nat | b < first
      ensures Trace(h, all, oracle, past, b, phis, more, n) == Trace(g0, {}, oracle, past, b, phis, 0, n)
    {
      assert b !in hidden;
      SameTrace(g, h, hidden, inside, exits, p, fuel, oracle, past, b, phis, phis, n);
    }
  }

  /** The exiting blocks of the loop do not lead outside any more, but to new blocks only. */
  ghost predicate Funnelled(g: Cfg, l: Loop, first: Block) {
    forall i :: 0 <= i < |l.exits| ==> LeavesByNew(g, l.inside, first, l.exits[i])
  }

  ghost predicate LeavesByNew(g: Cfg, inside: set<Block>, first: Block, b: Block) {
    && b < first && TermAt(g, b).Branch?
    && forall k :: 0 <= k < |TermAt(g, b).succs| ==> TermAt(g, b).succs[k] in inside || TermAt(g, b).succs[k] >= first
  }

  lemma NowFunnelled(g: Cfg, h: Cfg, hidden: set<Block>, l: Loop, exits: seq<Exit>, p: Block, first: Block)
    requires LoopLeaves(g, hidden, l, first) && first <= p && Normalised(g, h, exits, p)
      && AreExits(g, hidden, l.inside, exits)
    requires |exits| == |l.exits| && forall i :: 0 <= i < |exits| ==> exits[i].block == l.exits[i]
    ensures Funnelled(h, l, first)
  {
    hide LeavesOnce, PhiAt;
    forall i | 0 <= i < |l.exits| ensures LeavesByNew(h, l.inside, first, l.exits[i]) {
      assert IsExit(g, hidden, l.inside, exits[i]) && Redirected(g, h, exits[i], p);
    }
  }

  lemma StillFunnelled(g: Cfg, h: Cfg, exits: seq<Exit>, l: Loop, p: Block, first: Block)
    requires Funnelled(g, l, first) && first <= p && Normalised(g, h, exits, p)
    ensures Funnelled(h, l, first)
  {
    hide PhiAt;
    forall i | 0 <= i < |l.exits| ensures LeavesByNew(h, l.inside, first, l.exits[i]) {
      assert LeavesByNew(g, l.inside, first, l.exits[i]);
      if IsExitBlock(exits, l.exits[i]) {
        var k := ExitNumber(exits, l.exits[i]);
        assert Redirected(g, h, exits[k], p);
      }
    }
  }

  /** Loop by loop, outer loops first: all exits lead through new blocks, and whatever the branches decide, every run
      sees the same blocks as before, the new ones left out, and the same values in their phi nodes. */
  method NormaliseAll(f: FlowGraph, loops: seq<Loop>) returns (ghost hidden: set<Block>, ghost fuel: nat)
    requires Below(f.g, {}, f.next) && OuterFirst(loops) && forall i :: 0 <= i < |loops| ==>
      LoopLeaves(f.g, {}, loops[i], f.next)
    modifies f
    ensures SameRuns(old(f.g), f.g, hidden, fuel, old(f.next)) && forall b :: b in hidden ==> old(f.next) <= b < f.next
    ensures forall i :: 0 <= i < |loops| ==> Funnelled(f.g, loops[i], old(f.next))
  {
    hide Below, LoopLeaves, SameRuns, NeverLost, Normalised, AreExits, Funnelled;
    ghost var first := f.next;
    hidden, fuel := {}, 0;
    StartSame(f.g, first);
    for i := 0 to |loops|
      invariant first <= f.next && Below(f.g, hidden, f.next) && NeverLost(f.g, hidden, fuel, f.next)
      invariant forall b :: b in hidden ==> first <= b < f.next
      invariant SameRuns(old(f.g), f.g, hidden, fuel, first)
      invariant forall k :: i <= k < |loops| ==> LoopLeaves(f.g, hidden, loops[k], first)
      invariant forall k :: 0 <= k < i ==> Funnelled(f.g, loops[k], first)
    {
      ghost var g, p := f.g, f.next;
      LeavingParts(g, hidden, loops[i], first);
      ghost var exits := f.NormaliseLoop(loops[i].inside, loops[i].exits, hidden);
      forall k | i + 1 <= k < |loops| ensures LoopLeaves(f.g, hidden + NewBlocks(p, |exits|), loops[k], first) {
        StillLeaves(g, f.g, hidden, loops[i], exits, loops[k], p, first);
      }
      NowFunnelled(g, f.g, hidden, loops[i], exits, p, first);
      forall k | 0 <= k < i ensures Funnelled(f.g, loops[k], first) {
        StillFunnelled(g, f.g, exits, loops[k], p, first);
      }
      RunsStaySame(old(f.g), g, f.g, hidden, loops[i].inside, exits, p, fuel, first);
      StillNeverLost(g, f.g, hidden, loops[i].inside, exits, p, fuel);
      hidden, fuel := hidden + NewBlocks(p, |exits|), fuel + |exits|;
    }
  }

  lemma StartSame(g: Cfg, next: Block)
    ensures SameRuns(g, g, {}, 0, next) && NeverLost(g, {}, 0, next)
  {
  }

  lemma LeavingParts(g: Cfg, hidden: set<Block>, l: Loop, next: Block)
    requires LoopLeaves(g, hidden, l, next)
    ensures l.exits != [] && NoDup(l.exits)
    ensures forall i :: 0 <= i < |l.exits| ==>
      l.exits[i] in l.inside && l.exits[i] !in hidden && LeavesOnce(g, l.inside, l.exits[i])
  {
    hide LeavesOnce;
  }
}
