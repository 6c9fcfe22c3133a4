/** Lists in which every register that is read has a value when it is read. */
module NeverStuck {
  import opened Prelude
  import opened SpoqIR
  import opened LoopLowering

  /** What a loop has always set when it is left, by whichever way. */
  ghost function SureResults(ld: LoopDef): set<Reg> {
    (set r | r in ld.passOut && forall e :: e in ld.undef ==> r !in ld.undef[e]) + (set r | r in Dsts(ld.postPhis))
  }

  /** Only registers in `known` are read, and after a loop only those of its registers that it has set whichever way
      it has been left. */
  ghost predicate Sure(p: Program, l: seq<Inst>, known: set<Reg>, cur: Option<Block>)
    requires cur.Some? ==> cur.value in p
  {
    if l == [] then true
    else match l[0]
      case Pure(dst, _, args) => ReadsIn(args, known) && Sure(p, l[1..], known + {dst}, cur)
      case Effect(None, _, args) => ReadsIn(args, known) && Sure(p, l[1..], known, cur)
      case Effect(Some(dst), _, args) => ReadsIn(args, known) && Sure(p, l[1..], known + {dst}, cur)
      case Return(None) => true
      case Return(Some(o)) => ReadsIn([o], known)
      case Unreachable => true
      case If(cond, thn, els) => ReadsIn([cond], known) && Sure(p, thn, known, cur) && Sure(p, els, known, cur)
      case Loop(pre) =>
        && pre in p
        && (forall r :: r in p[pre].passIn ==> r in known)
        && ReadsIn(Incoming(p[pre].headerPhis, pre), known)
        && p[pre].regs !! known
        && Sure(p, l[1..], known + SureResults(p[pre]), cur)
      case Continue(latch) => cur.Some? && ReadsIn(Incoming(p[cur.value].headerPhis, latch), known)
      case Break(exiting) =>
        && cur.Some? && ReadsIn(Incoming(p[cur.value].postPhis, exiting), known)
        && forall r :: r in p[cur.value].passOut && r !in UndefAt(p[cur.value], exiting) ==> r in known
  }

  ghost predicate LoopsSure(p: Program) {
    forall pre :: pre in p ==> Sure(p, p[pre].body, Bodies(p[pre]), Some(pre))
  }

  /** The loop can be gone round, or left with what it passes out. */
  ghost predicate Fit(p: Program, cur: Option<Block>, stays: bool, o: Outcome)
    requires cur.Some? ==> cur.value in p
  {
    match o
    case Stuck => false
    case Returned(_, _) => !stays
    case Continued(latch, env, _) => cur.Some? && Transfer(p[cur.value].headerPhis, latch, env).Some?
    case Broke(exiting, env, _) => cur.Some? && CanLeave(p[cur.value], exiting, env)
    case _ => true
  }

  ghost predicate CanLeave(ld: LoopDef, exiting: Block, env: Regs) {
    Leave(ld, exiting, env).Some? && forall r :: r in ld.passOut && r !in UndefAt(ld, exiting) ==> r in env
  }

  lemma AllRead(os: seq<Operand>, known: set<Reg>, env: Regs)
    requires ReadsIn(os, known) && known <= env.Keys
    ensures ReadAll(os, env).Some?
  {
  }

  /** A list in which only known registers are read is never stuck, however its loops are left. */
  lemma {:induction false} SureRuns(m: Machine, p: Program, fuel: nat, l: seq<Inst>, cur: Option<Block>,
                                    known: set<Reg>, env: Regs, st: RData)
    requires LoopsShaped(p) && LoopsFramed(p) && LoopsSure(p)
    requires cur.Some? ==> cur.value in p
    requires Sure(p, l, known, cur) && known <= env.Keys
    ensures Fit(p, cur, StaysInLoop(l), Exec(m, p, fuel, l, env, st))
    decreases fuel, 1, l, 1
  {
    hide LoopsShaped, LoopsFramed, LoopsSure, RunLoop, Leave, Transfer;
    if l != [] {
      match l[0]
      case Pure(dst, op, args) =>
        AllRead(args, known, env);
        SureRuns(m, p, fuel, l[1..], cur, known + {dst}, env[dst := m.pure(op, ReadAll(args, env).value)], st);
      case Effect(result, op, args) =>
        AllRead(args, known, env);
        var r := m.effect(op, ReadAll(args, env).value, st);
        if r.Some? {
          if result.Some? {
            SureRuns(m, p, fuel, l[1..], cur, known + {result.value}, env[result.value := r.value.0], r.value.1);
          } else {
            SureRuns(m, p, fuel, l[1..], cur, known, env, r.value.1);
          }
        }
      case Return(val) =>
        if val.Some? {
          AllRead([val.value], known, env);
          assert [val.value][0] == val.value;
        }
      case If(cond, thn, els) =>
        AllRead([cond], known, env);
        assert [cond][0] == cond;
        SureRuns(m, p, fuel, thn, cur, known, env, st);
        SureRuns(m, p, fuel, els, cur, known, env, st);
      case Loop(_) => SureAfterLoop(m, p, fuel, l, cur, known, env, st);
      case Continue(latch) => CanTransfer(p[cur.value], latch, known, env);
      case Break(exiting) => LeaveReads(p[cur.value], exiting, known, env);
      case _ =>
    }
  }

  lemma CanTransfer(ld: LoopDef, from: Block, known: set<Reg>, env: Regs)
    requires ReadsIn(Incoming(ld.headerPhis, from), known) && known <= env.Keys
    ensures Transfer(ld.headerPhis, from, env).Some?
    ensures env.Keys + (set r | r in Dsts(ld.headerPhis)) == Transfer(ld.headerPhis, from, env).value.Keys
  {
    AllRead(Incoming(ld.headerPhis, from), known, env);
  }

  lemma LeaveReads(ld: LoopDef, exiting: Block, known: set<Reg>, env: Regs)
    requires ReadsIn(Incoming(ld.postPhis, exiting), known) && known <= env.Keys
    requires forall r :: r in ld.passOut && r !in UndefAt(ld, exiting) ==> r in known
    ensures CanLeave(ld, exiting, env)
  {
    AllRead(Incoming(ld.postPhis, exiting), known, env);
  }

  /** After a loop that is left, all that it has surely set has a value. */
  lemma LeftWith(ld: LoopDef, exiting: Block, known: set<Reg>, before: Regs, env: Regs)
    requires CanLeave(ld, exiting, env) && WellShaped(ld) && SameOutside(before, env, ld.regs) && known <= before.Keys
      && ld.regs !! known
    ensures known + SureResults(ld) <= Leave(ld, exiting, env).value.Keys
  {
    var after := Leave(ld, exiting, env).value;
    forall r | r in known + SureResults(ld) ensures r in after {
      if r in known {
        assert r !in ld.regs && r in env && r !in UndefAt(ld, exiting);
      }
    }
  }

  lemma {:induction false} SureAfterLoop(m: Machine, p: Program, fuel: nat, l: seq<Inst>, cur: Option<Block>,
                                         known: set<Reg>, env: Regs, st: RData)
    requires LoopsShaped(p) && LoopsFramed(p) && LoopsSure(p)
    requires cur.Some? ==> cur.value in p
    requires l != [] && l[0].Loop? && Sure(p, l, known, cur) && known <= env.Keys
    ensures Fit(p, cur, StaysInLoop(l), Exec(m, p, fuel, l, env, st))
    decreases fuel, 1, l, 0
  {
    hide LoopsFramed, LoopsSure, RunLoop, Exec, Leave, Transfer, WellShaped, CanLeave, SameOutside, SureResults;
    var pre := l[0].preheader;
    ExecLoop(m, p, fuel, l, env, st);
    CanTransfer(p[pre], pre, known, env);
    var start := Transfer(p[pre].headerPhis, pre, env).value;
    LoopSureRuns(m, p, fuel, pre, start, st);
    LoopOutside(m, p, fuel, pre, env, st);
    var r := RunLoop(m, p, fuel, pre, start, st);
    if r.Broke? {
      LeftWith(p[pre], r.exiting, known, env, r.env);
      CanLeaveIs(p[pre], r.exiting, r.env);
      SureRuns(m, p, fuel, l[1..], cur, known + SureResults(p[pre]), Leave(p[pre], r.exiting, r.env).value, r.st);
    }
  }

  lemma CanLeaveIs(ld: LoopDef, exiting: Block, env: Regs)
    requires CanLeave(ld, exiting, env)
    ensures Leave(ld, exiting, env).Some?
  {
  }

  lemma {:induction false} LoopSureRuns(m: Machine, p: Program, fuel: nat, pre: Block, env: Regs, st: RData)
    requires LoopsShaped(p) && LoopsFramed(p) && LoopsSure(p) && pre in p && Bodies(p[pre]) <= env.Keys
    ensures var r := RunLoop(m, p, fuel, pre, env, st);
      !r.Stuck? && !r.Returned? && !r.Continued? && (r.Broke? ==> CanLeave(p[pre], r.exiting, r.env))
    decreases fuel, 0
  {
    hide Exec, Leave, Transfer, WellShaped, CanLeave, SameOutside, SetsOnly, Sure, StaysInLoop;
    if fuel > 0 {
      SureRuns(m, p, fuel - 1, p[pre].body, Some(pre), Bodies(p[pre]), env, st);
      var o := Exec(m, p, fuel - 1, p[pre].body, env, st);
      if o.Continued? {
        ExecFrame(m, p, fuel - 1, p[pre].body, env, st, p[pre].regs);
        BodyAgain(p[pre], o.latch, env, o.env);
        LoopSureRuns(m, p, fuel - 1, pre, Transfer(p[pre].headerPhis, o.latch, o.env).value, o.st);
      }
    }
  }

  lemma BodyAgain(ld: LoopDef, latch: Block, before: Regs, env: Regs)
    requires WellShaped(ld) && Bodies(ld) <= before.Keys && SameOutside(before, env, ld.regs)
    requires Transfer(ld.headerPhis, latch, env).Some?
    ensures Bodies(ld) <= Transfer(ld.headerPhis, latch, env).value.Keys
  {
    forall r | r in ld.passIn ensures r in env {
      assert r in Bodies(ld);
    }
  }

  /** A program whose loops forget nothing is as sure as it is scoped. */
  lemma {:induction false} ScopedIsSure(p: Program, l: seq<Inst>, scope: set<Reg>, cur: Option<Block>)
    requires forall pre :: pre in p ==> p[pre].undef == map[]
    requires cur.Some? ==> cur.value in p
    requires Scoped(p, l, scope, cur)
    ensures Sure(p, l, scope, cur)
  {
    if l != [] {
      match l[0]
      case Pure(dst, _, _) => ScopedIsSure(p, l[1..], scope + {dst}, cur);
      case Effect(None, _, _) => ScopedIsSure(p, l[1..], scope, cur);
      case Effect(Some(dst), _, _) => ScopedIsSure(p, l[1..], scope + {dst}, cur);
      case If(_, thn, els) =>
        ScopedIsSure(p, thn, scope, cur);
        ScopedIsSure(p, els, scope, cur);
      case Loop(pre) =>
        assert SureResults(p[pre]) == Results(p[pre]);
        ScopedIsSure(p, l[1..], scope + Results(p[pre]), cur);
      case _ =>
    }
  }
}
