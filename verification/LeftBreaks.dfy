/** The run the term makes and the direct run: where they part, and when they come to the same all the same. */
module LeftBreaks {
  import opened Prelude
  import opened FlagEncoding

  // ---------- loops within loops

  /** A run enters a loop within a loop with a `break` in it. */
  predicate Meets(m: Model, l: seq<Stmt>, inLoop: bool, env: Env, st: RData)
    decreases l, 0
  {
    l != [] &&
      match l[0]
      case Assign(x, e) => Meets(m, l[1..], inLoop, env[x := Ev(m, e, env)], st)
      case Call(x, op, args) =>
        var r := m.call(op, EvAll(m, args, env), st);
        r.Some? && Meets(m, l[1..], inLoop, env[x := r.value.0], r.value.1)
      case Branch(cond, thn, els, _, _) =>
        var b := if Ev(m, cond, env) != 0 then thn else els;
        var r := Run(m, b, env, st);
        Meets(m, b, inLoop, env, st) || (r.Fell? && Meets(m, l[1..], inLoop, r.env, r.st))
      case While(id, body, _, input, _) =>
        var n := m.rank(id, GetAll(env, input));
        n >= 0 && (
          var r := LoopEnd(Rounds(m, body, n, env, st));
          || IsInnerLoop(l[0], inLoop) || MeetsWithin(m, body, n, env, st)
          || (r.Fell? && Meets(m, l[1..], inLoop, r.env, r.st)))
      case _ => false
  }

  /** One of the first `n` rounds does. */
  predicate MeetsWithin(m: Model, body: seq<Stmt>, n: nat, env: Env, st: RData)
    decreases body, n + 1
  {
    n > 0 && (MeetsWithin(m, body, n - 1, env, st) ||
              (var p := Rounds(m, body, n - 1, env, st); p.Running? && Meets(m, body, true, p.env, p.st)))
  }

  lemma {:induction false} MeetsHasBreak(m: Model, l: seq<Stmt>, env: Env, st: RData)
    requires Meets(m, l, true, env, st)
    ensures HasBreak(l)
    decreases l, 0
  {
    hide Run, Rounds;
    match l[0]
    case Assign(x, e) => MeetsHasBreak(m, l[1..], env[x := Ev(m, e, env)], st);
    case Call(x, op, args) =>
      var r := m.call(op, EvAll(m, args, env), st);
      MeetsHasBreak(m, l[1..], env[x := r.value.0], r.value.1);
    case Branch(cond, thn, els, _, _) =>
      var b := if Ev(m, cond, env) != 0 then thn else els;
      var r := Run(m, b, env, st);
      if Meets(m, b, true, env, st) {
        MeetsHasBreak(m, b, env, st);
      } else {
        MeetsHasBreak(m, l[1..], r.env, r.st);
      }
    case While(id, body, _, input, _) =>
      var n := m.rank(id, GetAll(env, input));
      var r := LoopEnd(Rounds(m, body, n, env, st));
      if MeetsWithin(m, body, n, env, st) {
        WithinHasBreak(m, body, n, env, st);
      } else if !HasBreak(body) {
        MeetsHasBreak(m, l[1..], r.env, r.st);
      }
  }

  lemma {:induction false} WithinHasBreak(m: Model, body: seq<Stmt>, n: nat, env: Env, st: RData)
    requires MeetsWithin(m, body, n, env, st)
    ensures HasBreak(body)
    decreases body, n + 1
  {
    if MeetsWithin(m, body, n - 1, env, st) {
      WithinHasBreak(m, body, n - 1, env, st);
    } else {
      var p := Rounds(m, body, n - 1, env, st);
      MeetsHasBreak(m, body, p.env, p.st);
    }
  }

  lemma MeetsBranch(m: Model, l: seq<Stmt>, inLoop: bool, env: Env, st: RData)
    requires l != [] && l[0].Branch?
    ensures var b := if Ev(m, l[0].cond, env) != 0 then l[0].thn else l[0].els;
      var r := Run(m, b, env, st);
      Meets(m, l, inLoop, env, st) <==>
        Meets(m, b, inLoop, env, st) || (r.Fell? && Meets(m, l[1..], inLoop, r.env, r.st))
  {
    hide Run;
  }

  lemma MeetsLoop(m: Model, l: seq<Stmt>, inLoop: bool, env: Env, st: RData)
    requires l != [] && l[0].While?
    ensures var n := m.rank(l[0].id, GetAll(env, l[0].input));
      n < 0 ==> !Meets(m, l, inLoop, env, st)
    ensures var n := m.rank(l[0].id, GetAll(env, l[0].input));
      n >= 0 ==>
        var r := LoopEnd(Rounds(m, l[0].body, n, env, st));
        Meets(m, l, inLoop, env, st) <==>
          IsInnerLoop(l[0], inLoop) || MeetsWithin(m, l[0].body, n, env, st)
            || (r.Fell? && Meets(m, l[1..], inLoop, r.env, r.st))
  {
    hide Rounds, MeetsWithin, LoopEnd;
  }

  lemma BranchRun(m: Model, l: seq<Stmt>, env: Env, st: RData)
    requires l != [] && l[0].Branch?
    ensures var r := Run(m, if Ev(m, l[0].cond, env) != 0 then l[0].thn else l[0].els, env, st);
      Run(m, l, env, st) == if r.Fell? then Run(m, l[1..], r.env, r.st) else r
  {
  }

  lemma WhileRun(m: Model, l: seq<Stmt>, env: Env, st: RData)
    requires l != [] && l[0].While?
    ensures var n := m.rank(l[0].id, GetAll(env, l[0].input));
      Run(m, l, env, st) ==
        if n < 0 then Undef
        else
          var r := LoopEnd(Rounds(m, l[0].body, n, env, st));
          if r.Fell? then Run(m, l[1..], r.env, r.st) else r
  {
    hide Rounds, LoopEnd;
  }

  // ---------- as long as no inner loop is met

  /** As long as no loop within a loop with a `break` in it is met, both runs are the same. */
  lemma {:induction false} NotMetSame(m: Model, l: seq<Stmt>, inLoop: bool, env: Env, st: RData)
    requires !Meets(m, l, inLoop, env, st)
    ensures TermRun(m, l, inLoop, false, env, st) == Run(m, l, env, st)
    decreases l, 0
  {
    if l != [] {
      match l[0]
      case Assign(x, e) => NotMetSame(m, l[1..], inLoop, env[x := Ev(m, e, env)], st);
      case Call(x, op, args) =>
        var r := m.call(op, EvAll(m, args, env), st);
        if r.Some? {
          NotMetSame(m, l[1..], inLoop, env[x := r.value.0], r.value.1);
        }
      case Branch(cond, thn, els, _, _) => NotMetBranch(m, l, inLoop, env, st);
      case While(id, body, _, input, _) => NotMetLoop(m, l, inLoop, env, st);
      case _ =>
    }
  }

  lemma {:induction false} NotMetBranch(m: Model, l: seq<Stmt>, inLoop: bool, env: Env, st: RData)
    requires l != [] && l[0].Branch? && !Meets(m, l, inLoop, env, st)
    ensures TermRun(m, l, inLoop, false, env, st) == Run(m, l, env, st)
    decreases l, 0, 0
  {
    hide TermRun, Run, Meets;
    var b := if Ev(m, l[0].cond, env) != 0 then l[0].thn else l[0].els;
    MeetsBranch(m, l, inLoop, env, st);
    BranchRun(m, l, env, st);
    TermBranchRun(m, l, inLoop, false, env, st);
    NotMetSame(m, b, inLoop, env, st);
    var r := Run(m, b, env, st);
    if r.Fell? {
      NotMetSame(m, l[1..], inLoop, r.env, r.st);
    }
  }

  lemma {:induction false} NotMetLoop(m: Model, l: seq<Stmt>, inLoop: bool, env: Env, st: RData)
    requires l != [] && l[0].While? && !Meets(m, l, inLoop, env, st)
    ensures TermRun(m, l, inLoop, false, env, st) == Run(m, l, env, st)
    decreases l, 0, 0
  {
    hide TermRun, Run, Meets, MeetsWithin, Rounds, TermRounds;
    var w := l[0];
    MeetsLoop(m, l, inLoop, env, st);
    WhileRun(m, l, env, st);
    TermWhileRun(m, l, inLoop, false, env, st);
    var n := m.rank(w.id, GetAll(env, w.input));
    if n >= 0 {
      NotMetWithin(m, w.body, n, env, st);
      var r := LoopEnd(Rounds(m, w.body, n, env, st));
      if r.Fell? {
        NotMetSame(m, l[1..], inLoop, r.env, r.st);
      }
    }
  }

  lemma {:induction false} NotMetWithin(m: Model, body: seq<Stmt>, n: nat, env: Env, st: RData)
    requires !MeetsWithin(m, body, n, env, st)
    ensures TermRounds(m, body, n, env, st) == Rounds(m, body, n, env, st)
    decreases body, n + 1
  {
    hide TermRun, Run, Meets;
    if n > 0 {
      NotMetWithin(m, body, n - 1, env, st);
      var p := Rounds(m, body, n - 1, env, st);
      if p.Running? {
        NotMetSame(m, body, true, p.env, p.st);
      }
    }
  }

  /** No loop within a loop has a `break` in it. */
  predicate NoInnerLoop(l: seq<Stmt>, inLoop: bool) {
    l != [] ==>
      && NoInnerLoop(l[1..], inLoop)
      && match l[0]
        case Branch(_, thn, els, _, _) => NoInnerLoop(thn, inLoop) && NoInnerLoop(els, inLoop)
        case While(_, body, _, _, _) => !IsInnerLoop(l[0], inLoop) && NoInnerLoop(body, true)
        case _ => true
  }

  lemma {:induction false} NeverMeets(m: Model, l: seq<Stmt>, inLoop: bool, env: Env, st: RData)
    requires NoInnerLoop(l, inLoop)
    ensures !Meets(m, l, inLoop, env, st)
    decreases l, 0
  {
    hide Run, Rounds;
    if l != [] {
      match l[0]
      case Assign(x, e) => NeverMeets(m, l[1..], inLoop, env[x := Ev(m, e, env)], st);
      case Call(x, op, args) =>
        var r := m.call(op, EvAll(m, args, env), st);
        if r.Some? {
          NeverMeets(m, l[1..], inLoop, env[x := r.value.0], r.value.1);
        }
      case Branch(cond, thn, els, _, _) =>
        var b := if Ev(m, cond, env) != 0 then thn else els;
        NeverMeets(m, b, inLoop, env, st);
        var r := Run(m, b, env, st);
        if r.Fell? {
          NeverMeets(m, l[1..], inLoop, r.env, r.st);
        }
      case While(id, body, _, input, _) =>
        var n := m.rank(id, GetAll(env, input));
        if n >= 0 {
          NeverMeetsWithin(m, body, n, env, st);
          var r := LoopEnd(Rounds(m, body, n, env, st));
          if r.Fell? {
            NeverMeets(m, l[1..], inLoop, r.env, r.st);
          }
        }
      case _ =>
    }
  }

  lemma {:induction false} NeverMeetsWithin(m: Model, body: seq<Stmt>, n: nat, env: Env, st: RData)
    requires NoInnerLoop(body, true)
    ensures !MeetsWithin(m, body, n, env, st)
    decreases body, n + 1
  {
    if n > 0 {
      NeverMeetsWithin(m, body, n - 1, env, st);
      var p := Rounds(m, body, n - 1, env, st);
      if p.Running? {
        NeverMeets(m, body, true, p.env, p.st);
      }
    }
  }

  /** A whole function whose run meets no such loop: it returns what the code returns, and has no result if the code is
      undefined. */
  lemma {:induction false} FunctionRuns(m: Model, body: seq<Stmt>, isVoid: bool, args: Env, st: RData)
    requires var needs := Needs({}, {}, {}, if isVoid then {} else {RETVAL});
      Covered(body, false, false, needs) && FlagsClear(args, false)
    requires !Meets(m, body, false, args, st)
    ensures Gives(Eval(m, Translate(body, Outs(isVoid), false), args, st), Run(m, body, args, st), isVoid)
  {
    hide TermRun, Run, Eval, Translate, Covered, Meets;
    NotMetSame(m, body, false, args, st);
    FunctionCorrect(m, body, isVoid, args, st);
  }

  /** The function is undefined or returns; one without a value may come to its end as well. */
  predicate HasOutcome(how: Ending, isVoid: bool) {
    how.Undef? || how.Returned? || (isVoid && how.Fell?)
  }

  predicate SameOutcome(how: Ending, direct: Ending, isVoid: bool)
    requires HasOutcome(how, isVoid) && HasOutcome(direct, isVoid)
  {
    && how.Undef? == direct.Undef?
    && (!how.Undef? ==> how.st == direct.st && (isVoid || Get(how.env, RETVAL) == Get(direct.env, RETVAL)))
  }

  /** Any function: the term gives the result of the direct run if and only if the run it makes has the same outcome. */
  lemma {:induction false} FunctionRightIff(m: Model, body: seq<Stmt>, isVoid: bool, args: Env, st: RData)
    requires var needs := Needs({}, {}, {}, if isVoid then {} else {RETVAL});
      Covered(body, false, false, needs) && FlagsClear(args, false)
    requires HasOutcome(TermRun(m, body, false, false, args, st), isVoid) && HasOutcome(Run(m, body, args, st), isVoid)
    ensures Gives(Eval(m, Translate(body, Outs(isVoid), false), args, st), Run(m, body, args, st), isVoid) <==>
      SameOutcome(TermRun(m, body, false, false, args, st), Run(m, body, args, st), isVoid)
  {
    hide TermRun, Run, Eval, Translate, Covered;
    FunctionCorrect(m, body, isVoid, args, st);
  }

  // ---------- the break flag, once set

  /** The break flag, once set in a list within a loop, is handed on by every statement of the list. */
  predicate KeepsBreak(l: seq<Stmt>, outs: seq<Name>) {
    BREAK in outs && (l == [] || (KeepsBreak(l[1..], outs) &&
      match l[0]
      case Assign(x, _) => !IsFlag(x)
      case Call(x, _, _) => !IsFlag(x)
      case Branch(_, thn, els, output, needInit) =>
        && (RETURN in output ==> RETURN in outs) && NoDup(output)
        && (HasBreak(thn) || HasBreak(els) ==> BREAK in output)
        && (BREAK in output ==> BREAK !in needInit && KeepsBreak(thn, output) && KeepsBreak(els, output))
      case While(_, _, loopArgs, _, output) => (RETURN in output ==> RETURN in outs) && (BREAK in loopArgs ==>
        BREAK in output)
      case _ => true))
  }

  /** The tuple tells the loop around to stop. */
  ghost predicate Stops(r: Result, outs: seq<Name>) {
    r.Result? ==> |r.vals| == |outs| && FlagIsSet(outs, r.vals)
  }

  lemma TupleStops(m: Model, outs: seq<Name>, t: Env, st: RData)
    requires (BREAK in outs && Get(t, BREAK) != 0) || (RETURN in outs && Get(t, RETURN) != 0)
    ensures Stops(Eval(m, TupleT(outs), t, st), outs)
  {
    var vals, flag := GetAll(t, outs), if BREAK in outs && Get(t, BREAK) != 0 then BREAK else RETURN;
    var i :| 0 <= i < |outs| && outs[i] == flag;
    assert vals[i] != 0;
  }

  /** After an inner loop has ended with `break`, what remains of the round sets a flag for the outer loop or
      has no result. */
  lemma {:induction false} BreakSticks(m: Model, l: seq<Stmt>, outs: seq<Name>, t: Env, st: RData)
    requires KeepsBreak(l, outs) && Get(t, BREAK) != 0
    ensures Stops(Eval(m, Translate(l, outs, true), t, st), outs)
    decreases l
  {
    hide BindAll, Stops, GoesRoundForever;
    if l == [] {
      TupleStops(m, outs, t, st);
    } else {
      match l[0]
      case Assign(x, e) => BreakSticks(m, l[1..], outs, t[x := Ev(m, e, t)], st);
      case Call(x, op, args) =>
        var r := m.call(op, EvAll(m, args, t), st);
        if r.Some? {
          BreakSticks(m, l[1..], outs, t[x := r.value.0], r.value.1);
        } else {
          NoResultStops(outs);
        }
      case Branch(_, _, _, _, _) => BreakSticksBranch(m, l, outs, t, st);
      case While(_, _, _, _, _) => LoopSticks(m, l, outs, t, st);
      case BreakStmt => BreakSticks(m, l[1..], outs, t[BREAK := 1], st);
      case ContinueStmt => BreakSticks(m, l[1..], outs, t[CONTINUE := 1], st);
      case ReturnStmt(None) => BreakSticks(m, l[1..], outs, t[RETURN := 1], st);
      case ReturnStmt(Some(e)) =>
        var t' := t[RETURN := 1][RETVAL := Ev(m, e, t[RETURN := 1])];
        assert Eval(m, LetT(RETVAL, e, Translate(l[1..], outs, true)), t[RETURN := 1], st) ==
          Eval(m, Translate(l[1..], outs, true), t', st);
        BreakSticks(m, l[1..], outs, t', st);
    }
  }

  lemma NoResultStops(outs: seq<Name>)
    ensures Stops(NoResult, outs)
  {
  }

  lemma {:induction false} BreakSticksBranch(m: Model, l: seq<Stmt>, outs: seq<Name>, t: Env, st: RData)
    requires KeepsBreak(l, outs) && Get(t, BREAK) != 0 && l != [] && l[0].Branch?
    ensures Stops(Eval(m, Translate(l, outs, true), t, st), outs)
    decreases l, 0
  {
    hide BindAll, Stops, Eval, Translate;
    var s, rest := l[0], Translate(l[1..], outs, true);
    var t0 := BindAll(t, s.needInit, Zeros(|s.needInit|));
    GetBound(t, s.needInit, Zeros(|s.needInit|), BREAK);
    BranchTerm(m, l, outs, true, t, st);
    var b := if Ev(m, s.cond, t0) != 0 then s.thn else s.els;
    var r := Eval(m, Translate(b, s.output, true), t0, st);
    NoResultStops(outs);
    if r.Result? && |r.vals| == |s.output| {
      var t2 := BindAll(t, s.output, r.vals);
      AfterBranchEval(m, s.output, outs, true, rest, t2, r.st);
      if BREAK in s.output {
        BreakSticks(m, b, s.output, t0, st);
        BranchStops(m, l, outs, t, st, r);
      } else {
        GetBound(t, s.output, r.vals, BREAK);
        if RETURN in s.output && Get(t2, RETURN) != 0 {
          TupleStops(m, outs, t2, r.st);
        } else {
          if CONTINUE in s.output && Get(t2, CONTINUE) != 0 {
            TupleStops(m, outs, t2, r.st);
          }
          BreakSticks(m, l[1..], outs, t2, r.st);
        }
      }
    }
  }

  /** The tuple has been built from an environment, so all values for one name are the same. */
  lemma StopsSets(t: Env, output: seq<Name>, r: Result)
    requires Stops(r, output) && r.Result? && |r.vals| == |output| && NoDup(output)
    ensures var t2 := BindAll(t, output, r.vals);
      (BREAK in output && Get(t2, BREAK) != 0) || (RETURN in output && Get(t2, RETURN) != 0)
  {
    var i :| 0 <= i < |output| && (output[i] == BREAK || output[i] == RETURN) && r.vals[i] != 0;
    GetBound(t, output, r.vals, output[i]);
    assert LastIndex(output, output[i]) == i;
  }

  /** Past a loop with its check for the break flag, the flag is set. */
  lemma {:induction false} LoopSticks(m: Model, l: seq<Stmt>, outs: seq<Name>, t: Env, st: RData)
    requires l != [] && l[0].While? && KeepsBreak(l, outs) && (Get(t, BREAK) != 0 || BREAK in l[0].output)
    ensures Stops(Eval(m, Translate(l, outs, true), t, st), outs)
    decreases l, 0
  {
    hide BindAll, Stops, Eval, Translate, Step, Fix, LoopInit, AfterLoop, GoesRoundForever;
    var w := l[0];
    WhileTerm(m, l, outs, true, t, st);
    NoResultStops(outs);
    var n := m.rank(w.id, GetAll(t, w.input));
    if n >= 0 && !GoesRoundForever(w.body) {
      var r := Fix(m, w.loopArgs, Step(w.loopArgs, Translate(w.body, w.loopArgs, true)), n,
        EvAll(m, LoopInit(w.loopArgs, w.input), t), st);
      if r.Result? && |r.vals| == |w.loopArgs| {
        var t2 := BindAll(t, w.loopArgs, r.vals);
        AfterLoopEval(m, w.output, outs, Translate(l[1..], outs, true), t2, r.st);
        GetBound(t, w.loopArgs, r.vals, BREAK);
        if RETURN in w.output && Get(t2, RETURN) != 0 {
          TupleStops(m, outs, t2, r.st);
        } else if BREAK !in w.output || Get(t2, BREAK) != 0 {
          BreakSticks(m, l[1..], outs, t2, r.st);
        }
      }
    }
  }

  /** A branch that says to stop is the last of its round. */
  lemma BranchStops(m: Model, l: seq<Stmt>, outs: seq<Name>, t: Env, st: RData, r: Result)
    requires l != [] && l[0].Branch? && KeepsBreak(l, outs) && BREAK in l[0].output && Stops(r, l[0].output)
    requires Eval(m, Translate(l, outs, true), t, st) ==
      if r.NoResult? || |r.vals| != |l[0].output| then NoResult
      else Eval(m, AfterBranch(l[0].output, outs, true, Translate(l[1..], outs, true)),
        BindAll(t, l[0].output, r.vals), r.st)
    ensures Stops(Eval(m, Translate(l, outs, true), t, st), outs)
  {
    hide BindAll, Stops, Eval, Translate;
    var output := l[0].output;
    NoResultStops(outs);
    if r.Result? && |r.vals| == |output| {
      var t2 := BindAll(t, output, r.vals);
      AfterBranchEval(m, output, outs, true, Translate(l[1..], outs, true), t2, r.st);
      StopsSets(t, output, r);
      TupleStops(m, outs, t2, r.st);
    }
  }

  // ---------- the round in which an inner loop is met

  /** A round in which an inner loop has been met says to stop, whatever comes after it. */
  lemma {:induction false} MetStops(m: Model, l: seq<Stmt>, outs: seq<Name>, needs: Needs, d: Env, t: Env, st: RData)
    requires Covered(l, true, false, needs) && KeepsBreak(l, outs) && NeedsFlagFree(needs)
    requires Agree(Live(l, true, false, needs), d, t) && FlagsAre(t, true, false, Shown(l, outs))
    requires Meets(m, l, true, d, st)
    ensures Stops(Eval(m, Translate(l, outs, true), t, st), outs)
    decreases l, 1
  {
    hide BindAll, Stops, GoesRoundForever, Run, Rounds;
    match l[0]
    case Assign(_, _) => SetStops(m, l, outs, needs, d, t, st);
    case Call(_, _, _) => SetStops(m, l, outs, needs, d, t, st);
    case Branch(_, _, _, _, _) => MetBranch(m, l, outs, needs, d, t, st);
    case While(_, _, _, _, _) =>
      MeetsInner(m, l, d, st);
      LoopSticks(m, l, outs, t, st);
  }

  lemma {:induction false} SetStops(m: Model, l: seq<Stmt>, outs: seq<Name>, needs: Needs, d: Env, t: Env, st: RData)
    requires Covered(l, true, false, needs) && KeepsBreak(l, outs) && NeedsFlagFree(needs)
    requires Agree(Live(l, true, false, needs), d, t) && FlagsAre(t, true, false, Shown(l, outs))
    requires Meets(m, l, true, d, st) && (l[0].Assign? || l[0].Call?)
    ensures Stops(Eval(m, Translate(l, outs, true), t, st), outs)
    decreases l, 0
  {
    hide Stops, FlagsAre, NeedsFlagFree, Shown;
    var x, live, after := l[0].x, Live(l, true, false, needs), Live(l[1..], true, false, needs);
    assert LiveAfter(l, true, false, needs) == after;
    if l[0].Assign? {
      EvAgree(m, l[0].e, d, t);
      var v := Ev(m, l[0].e, d);
      AgreeSet(after, live, d, t, x, v);
      FlagsKept(t, true, false, l, outs, x, v);
      MetStops(m, l[1..], outs, needs, d[x := v], t[x := v], st);
    } else {
      EvAllAgree(m, l[0].args, d, t);
      var r := m.call(l[0].op, EvAll(m, l[0].args, d), st);
      AgreeSet(after, live, d, t, x, r.value.0);
      FlagsKept(t, true, false, l, outs, x, r.value.0);
      MetStops(m, l[1..], outs, needs, d[x := r.value.0], t[x := r.value.0], r.value.1);
    }
  }

  lemma {:induction false} MetBranch(m: Model, l: seq<Stmt>, outs: seq<Name>, needs: Needs, d: Env, t: Env, st: RData)
    requires Covered(l, true, false, needs) && KeepsBreak(l, outs) && NeedsFlagFree(needs)
    requires Agree(Live(l, true, false, needs), d, t) && FlagsAre(t, true, false, Shown(l, outs))
    requires Meets(m, l, true, d, st) && l != [] && l[0].Branch?
    ensures Stops(Eval(m, Translate(l, outs, true), t, st), outs)
    decreases l, 0
  {
    hide TermRun, Run, Eval, BindAll, Right, Translate, FlagsAre, Shown, Agree, Stops, Meets;
    var s, sub := l[0], BranchNeeds(l[0], false, LiveAfter(l, true, false, needs), needs);
    var t0 := BindAll(t, s.needInit, Zeros(|s.needInit|));
    LiveFlagFree(l, true, false, needs);
    BranchTerm(m, l, outs, true, t, st);
    var b := if Ev(m, s.cond, d) != 0 then s.thn else s.els;
    BranchStarts(l, b, outs, true, false, needs, d, t);
    EvAgree(m, s.cond, d, t0);
    MeetsBranch(m, l, true, d, st);
    var r := Eval(m, Translate(b, s.output, true), t0, st);
    if Meets(m, b, true, d, st) {
      MeetsHasBreak(m, b, d, st);
      MetStops(m, b, s.output, sub, d, t0, st);
      BranchStops(m, l, outs, t, st, r);
    } else {
      NotMetSame(m, b, true, d, st);
      TranslateCorrect(m, b, s.output, true, false, sub, d, t0, st);
      var how := TermRun(m, b, true, false, d, st);
      RightShape(r, s.output, how, true, sub);
      BranchFell(m, l, b, outs, true, false, needs, d, t, st, r.vals);
      var t2 := BindAll(t, s.output, r.vals);
      AfterBranchGoesOn(m, s.output, outs, true, Translate(l[1..], outs, true), t2, how.st);
      MetStops(m, l[1..], outs, needs, how.env, t2, how.st);
    }
  }

  /** A loop in a list within a loop at which something is met is itself met. */
  lemma {:induction false} MeetsInner(m: Model, l: seq<Stmt>, env: Env, st: RData)
    requires l != [] && l[0].While? && Meets(m, l, true, env, st)
    ensures IsInnerLoop(l[0], true) && m.rank(l[0].id, GetAll(env, l[0].input)) >= 0
  {
    hide Run, Meets, Rounds, MeetsWithin, TermRounds;
    MeetsLoop(m, l, true, env, st);
    var n := m.rank(l[0].id, GetAll(env, l[0].input));
    if !HasBreak(l[0].body) {
      if MeetsWithin(m, l[0].body, n, env, st) {
        WithinHasBreak(m, l[0].body, n, env, st);
      } else {
        NotMetWithin(m, l[0].body, n, env, st);
        TermRoundsExit(m, l[0].body, n, env, st);
      }
    }
  }

  /** Once the tuple says to stop, all larger fuel gives the same. */
  lemma {:induction false} FixStopped(m: Model, params: seq<Name>, body: Term, k: nat, n: nat, args: seq<int>,
                                      st: RData)
    requires NoDup(params) && k <= n && Stops(Fix(m, params, Step(params, body), k, args, st), params)
    ensures Fix(m, params, Step(params, body), n, args, st) == Fix(m, params, Step(params, body), k, args, st)
    decreases n
  {
    hide Fix, Eval, Step;
    var r := Fix(m, params, Step(params, body), k, args, st);
    if r.Result? {
      FixIsStationary(m, params, body, k, n, args, st, r.vals, r.st);
    } else if k < n {
      FixStopped(m, params, body, k, n - 1, args, st);
      FixNext(m, params, Step(params, body), n, args, st);
    }
  }

  /** A loop within the loop is met in round `k` for the first time. */
  predicate FirstMeets(m: Model, body: seq<Stmt>, k: nat, d: Env, st: RData) {
    k > 0 && MeetsWithin(m, body, k, d, st) && !MeetsWithin(m, body, k - 1, d, st)
  }

  /** The term stops after exactly `n` rounds: from then on, and no earlier, it gives the same for all fuel. */
  ghost predicate TermTakes(m: Model, body: seq<Stmt>, loopArgs: seq<Name>, n: nat, args: seq<int>, st: RData) {
    var step := Step(loopArgs, Translate(body, loopArgs, true));
    && (forall j: nat :: j < n ==> !Stops(Fix(m, loopArgs, step, j, args, st), loopArgs))
    && (forall j: nat :: j >= n ==> Stops(Fix(m, loopArgs, step, j, args, st), loopArgs)
                                    && Fix(m, loopArgs, step, j, args, st) == Fix(m, loopArgs, step, n, args, st))
  }

  /** The run leaves the loop after exactly `n` rounds. */
  predicate RunTakes(m: Model, body: seq<Stmt>, n: nat, d: Env, st: RData) {
    n > 0 && Rounds(m, body, n - 1, d, st).Running? && Rounds(m, body, n, d, st).Ended?
  }

  lemma {:induction false} StillRunningBefore(m: Model, body: seq<Stmt>, j: nat, n: nat, d: Env, st: RData)
    requires j <= n && Rounds(m, body, n, d, st).Running?
    ensures Rounds(m, body, j, d, st).Running?
  {
    hide Run;
    if j < n {
      StillRunningBefore(m, body, j, n - 1, d, st);
    }
  }

  lemma {:induction false} NotMetBefore(m: Model, body: seq<Stmt>, j: nat, n: nat, d: Env, st: RData)
    requires j <= n && !MeetsWithin(m, body, n, d, st)
    ensures !MeetsWithin(m, body, j, d, st)
  {
    hide Meets, Rounds;
    if j < n {
      NotMetBefore(m, body, j, n - 1, d, st);
    }
  }

  lemma RunningGoesOn(r: Result, loopArgs: seq<Name>, p: Progress, needs: Needs)
    requires NoDup(loopArgs) && p.Running? && FixState(r, loopArgs, p, needs)
    ensures !Stops(r, loopArgs)
  {
    hide BindAll;
    forall i | 0 <= i < |loopArgs| && (loopArgs[i] == BREAK || loopArgs[i] == RETURN) ensures r.vals[i] == 0 {
      GetBound(map[], loopArgs, r.vals, loopArgs[i]);
      LastOfDistinct(loopArgs, i);
    }
  }

  /** Up to the round in which an inner loop is first met the term is where the run is; that round is its last one. */
  lemma {:induction false} InnerLoopStops(m: Model, body: seq<Stmt>, loopArgs: seq<Name>, needs: Needs, k: nat,
                                          args: seq<int>, d: Env, st: RData)
    requires LoopOk(body, loopArgs, needs) && KeepsBreak(body, loopArgs)
    requires |args| == |loopArgs| && FixState(Result(args, st), loopArgs, Running(d, st), needs)
    requires FirstMeets(m, body, k, d, st)
    ensures Rounds(m, body, k - 1, d, st).Running? && TermTakes(m, body, loopArgs, k, args, st)
  {
    hide Fix, Step, FixState, Stops, Meets, Run, TermRun, Translate, LoopOk, KeepsBreak, TermRounds, MeetsWithin;
    var code := Translate(body, loopArgs, true);
    var step := Step(loopArgs, code);
    assert NoDup(loopArgs) by {
      LoopOkParts(body, loopArgs, needs);
    }
    MetIsRunning(m, body, k, d, st);
    var p, r := Rounds(m, body, k - 1, d, st), Fix(m, loopArgs, step, k - 1, args, st);
    NotMetWithin(m, body, k - 1, d, st);
    FixCorrect(m, body, loopArgs, needs, k - 1, args, d, st);
    MetRound(m, body, loopArgs, needs, r, p.env, p.st);
    FixNext(m, loopArgs, step, k, args, st);
    forall j: nat | j < k ensures !Stops(Fix(m, loopArgs, step, j, args, st), loopArgs) {
      NotMetBefore(m, body, j, k - 1, d, st);
      NotMetWithin(m, body, j, d, st);
      StillRunningBefore(m, body, j, k - 1, d, st);
      FixCorrect(m, body, loopArgs, needs, j, args, d, st);
      RunningGoesOn(Fix(m, loopArgs, step, j, args, st), loopArgs, Rounds(m, body, j, d, st), needs);
    }
    forall j: nat | j >= k ensures Fix(m, loopArgs, step, j, args, st) == Fix(m, loopArgs, step, k, args, st) {
      FixStopped(m, loopArgs, code, k, j, args, st);
    }
  }

  lemma MetIsRunning(m: Model, body: seq<Stmt>, k: nat, d: Env, st: RData)
    requires FirstMeets(m, body, k, d, st)
    ensures k > 0 && !MeetsWithin(m, body, k - 1, d, st) && Rounds(m, body, k - 1, d, st).Running?
    ensures var p := Rounds(m, body, k - 1, d, st); Meets(m, body, true, p.env, p.st)
  {
    hide Meets, Rounds;
  }

  lemma {:induction false} MetRound(m: Model, body: seq<Stmt>, loopArgs: seq<Name>, needs: Needs, r: Result, d: Env,
                                    st: RData)
    requires LoopOk(body, loopArgs, needs) && KeepsBreak(body, loopArgs)
    requires FixState(r, loopArgs, Running(d, st), needs) && Meets(m, body, true, d, st)
    ensures r.Result? && |r.vals| == |loopArgs|
    ensures Stops(Eval(m, Step(loopArgs, Translate(body, loopArgs, true)), BindAll(map[], loopArgs, r.vals), r.st),
      loopArgs)
  {
    hide Eval, BindAll, Translate, Step, Meets, Stops, KeepsBreak;
    var t := BindAll(map[], loopArgs, r.vals);
    StepEval(m, loopArgs, Translate(body, loopArgs, true), t, st);
    MetStops(m, body, loopArgs, needs, d, t, st);
  }

  lemma LoopOkParts(body: seq<Stmt>, loopArgs: seq<Name>, needs: Needs)
    requires LoopOk(body, loopArgs, needs)
    ensures NoDup(loopArgs)
  {
  }

  /** Term and run take the same number of rounds if and only if the run leaves the loop in the very round in which
      it first enters a loop within it. */
  lemma {:induction false} SameRoundsIff(m: Model, body: seq<Stmt>, loopArgs: seq<Name>, needs: Needs, k: nat,
                                         args: seq<int>, d: Env, st: RData)
    requires LoopOk(body, loopArgs, needs) && KeepsBreak(body, loopArgs)
    requires |args| == |loopArgs| && FixState(Result(args, st), loopArgs, Running(d, st), needs)
    requires FirstMeets(m, body, k, d, st)
    ensures (exists n: nat :: TermTakes(m, body, loopArgs, n, args, st) && RunTakes(m, body, n, d, st)) <==>
      Rounds(m, body, k, d, st).Ended?
  {
    hide LoopOk, KeepsBreak, FixState, FirstMeets, Stops, Rounds, Fix, Step, Translate;
    InnerLoopStops(m, body, loopArgs, needs, k, args, d, st);
    if n: nat :| TermTakes(m, body, loopArgs, n, args, st) && RunTakes(m, body, n, d, st) {
      TakesOnce(m, body, loopArgs, n, k, args, st);
    }
    if Rounds(m, body, k, d, st).Ended? {
      FirstIsPositive(m, body, k, d, st);
      assert RunTakes(m, body, k, d, st);
    }
  }

  lemma FirstIsPositive(m: Model, body: seq<Stmt>, k: nat, d: Env, st: RData)
    requires FirstMeets(m, body, k, d, st)
    ensures k > 0
  {
  }

  lemma TakesOnce(m: Model, body: seq<Stmt>, loopArgs: seq<Name>, j: nat, k: nat, args: seq<int>, st: RData)
    requires TermTakes(m, body, loopArgs, j, args, st) && TermTakes(m, body, loopArgs, k, args, st)
    ensures j == k
  {
    hide Stops, Fix, Step, Translate;
    var step := Step(loopArgs, Translate(body, loopArgs, true));
    assert j < k ==> Stops(Fix(m, loopArgs, step, j, args, st), loopArgs);
    assert k < j ==> Stops(Fix(m, loopArgs, step, k, args, st), loopArgs);
  }

  // ---------- the code that is passed over

  /** Where the run the term makes breaks for a pending break only, and the code that the direct run goes on with. */
  datatype Cut = Cut(rest: seq<Stmt>, env: Env, st: RData)

  function CutAt(m: Model, l: seq<Stmt>, inLoop: bool, pending: bool, env: Env, st: RData): Option<Cut> {
    if l == [] then if pending then Some(Cut([], env, st)) else None
    else match l[0]
      case Assign(x, e) => CutAt(m, l[1..], inLoop, pending, env[x := Ev(m, e, env)], st)
      case Call(x, op, args) =>
        var r := m.call(op, EvAll(m, args, env), st);
        if r.None? then None else CutAt(m, l[1..], inLoop, pending, env[x := r.value.0], r.value.1)
      case Branch(cond, thn, els, _, _) =>
        var b, hands := if Ev(m, cond, env) != 0 then thn else els, pending && Hands(l[0]);
        var c, r := CutAt(m, b, inLoop, hands, env, st), TermRun(m, b, inLoop, hands, env, st);
        if c.Some? then Some(Cut(c.value.rest + l[1..], c.value.env, c.value.st))
        else if r.Fell? then CutAt(m, l[1..], inLoop, pending, r.env, r.st)
        else if pending && r.Continued? then Some(Cut([ContinueStmt], r.env, r.st))
        else None
      case While(id, body, _, input, _) =>
        var n, inner := m.rank(id, GetAll(env, input)), IsInnerLoop(l[0], inLoop);
        if n < 0 then None
        else
          var r := TermLoopEnd(TermRounds(m, body, n, env, st), inner);
          if r.Fell? then CutAt(m, l[1..], inLoop, pending || inner, r.env, r.st) else None
      case ContinueStmt => if pending then Some(Cut([ContinueStmt], env, st)) else None
      case _ => None
  }

  /** The loops that are come to before that point take the same rounds in both runs, and no inner one runs out of
      fuel. */
  predicate InStep(m: Model, l: seq<Stmt>, inLoop: bool, pending: bool, env: Env, st: RData) {
    l != [] ==>
      match l[0]
      case Assign(x, e) => InStep(m, l[1..], inLoop, pending, env[x := Ev(m, e, env)], st)
      case Call(x, op, args) =>
        var r := m.call(op, EvAll(m, args, env), st);
        r.Some? ==> InStep(m, l[1..], inLoop, pending, env[x := r.value.0], r.value.1)
      case Branch(cond, thn, els, _, _) =>
        var b, hands := if Ev(m, cond, env) != 0 then thn else els, pending && Hands(l[0]);
        var r := TermRun(m, b, inLoop, hands, env, st);
        && InStep(m, b, inLoop, hands, env, st)
        && (CutAt(m, b, inLoop, hands, env, st).None? && r.Fell? ==> InStep(m, l[1..], inLoop, pending, r.env, r.st))
      case While(id, body, _, input, _) =>
        var n, inner := m.rank(id, GetAll(env, input)), IsInnerLoop(l[0], inLoop);
        n >= 0 ==>
          var p := TermRounds(m, body, n, env, st);
          var r := TermLoopEnd(p, inner);
          && p == Rounds(m, body, n, env, st) && (inner ==> p.Ended?)
          && (r.Fell? ==> InStep(m, l[1..], inLoop, pending || inner, r.env, r.st))
      case _ => true
  }

  lemma {:induction false} RunAppend(m: Model, a: seq<Stmt>, b: seq<Stmt>, env: Env, st: RData)
    ensures var r := Run(m, a, env, st);
      Run(m, a + b, env, st) == if r.Fell? then Run(m, b, r.env, r.st) else r
  {
    hide Rounds;
    if a == [] {
      assert a + b == b;
    } else {
      assert (a + b)[1..] == a[1..] + b && (a + b)[0] == a[0];
      match a[0]
      case Assign(x, e) => RunAppend(m, a[1..], b, env[x := Ev(m, e, env)], st);
      case Call(x, op, args) =>
        var r := m.call(op, EvAll(m, args, env), st);
        if r.Some? {
          RunAppend(m, a[1..], b, env[x := r.value.0], r.value.1);
        }
      case Branch(cond, thn, els, _, _) =>
        var r := Run(m, if Ev(m, cond, env) != 0 then thn else els, env, st);
        if r.Fell? {
          RunAppend(m, a[1..], b, r.env, r.st);
        }
      case While(id, body, _, input, _) =>
        var n := m.rank(id, GetAll(env, input));
        if n >= 0 {
          RoundsEnd(m, body, n, env, st);
          var r := LoopEnd(Rounds(m, body, n, env, st));
          if r.Fell? {
            RunAppend(m, a[1..], b, r.env, r.st);
          }
        }
      case _ =>
    }
  }

  lemma {:induction false} RoundsEnd(m: Model, body: seq<Stmt>, n: nat, env: Env, st: RData)
    ensures var p := Rounds(m, body, n, env, st); p.Ended? ==> !p.how.Fell? && !p.how.Continued?
  {
    hide Run;
    if n > 0 {
      RoundsEnd(m, body, n - 1, env, st);
    }
  }

  /** What the two runs of a list have to do with each other. */
  predicate CutShort(m: Model, c: Option<Cut>, how: Ending, direct: Ending) {
    match c
    case None => direct == how
    case Some(cut) => how == Broke(cut.env, cut.st) && direct == Run(m, cut.rest, cut.env, cut.st)
  }

  /** Up to the point where the term leaves for a pending break both runs are the same; from there the direct run goes
      on with the code that the term passes over. */
  lemma {:induction false} RunIsCutShort(m: Model, l: seq<Stmt>, inLoop: bool, pending: bool, env: Env, st: RData)
    requires InStep(m, l, inLoop, pending, env, st)
    ensures CutShort(m, CutAt(m, l, inLoop, pending, env, st), TermRun(m, l, inLoop, pending, env, st),
      Run(m, l, env, st))
    decreases l, 1
  {
    hide CutShort;
    if l == [] {
      EmptyCut(m, inLoop, pending, env, st);
    } else {
      match l[0]
      case Assign(x, e) => RunIsCutShort(m, l[1..], inLoop, pending, env[x := Ev(m, e, env)], st);
      case Call(x, op, args) =>
        var r := m.call(op, EvAll(m, args, env), st);
        if r.Some? {
          RunIsCutShort(m, l[1..], inLoop, pending, env[x := r.value.0], r.value.1);
        } else {
          NotCut(m, Undef);
        }
      case Branch(_, _, _, _, _) => BranchIsCutShort(m, l, inLoop, pending, env, st);
      case While(_, _, _, _, _) => LoopIsCutShort(m, l, inLoop, pending, env, st);
      case _ => LeafIsCutShort(m, l, inLoop, pending, env, st);
    }
  }

  lemma EmptyCut(m: Model, inLoop: bool, pending: bool, env: Env, st: RData)
    ensures CutShort(m, CutAt(m, [], inLoop, pending, env, st), TermRun(m, [], inLoop, pending, env, st),
      Run(m, [], env, st))
  {
  }

  lemma NotCut(m: Model, how: Ending)
    ensures CutShort(m, None, how, how)
  {
  }

  lemma LeafIsCutShort(m: Model, l: seq<Stmt>, inLoop: bool, pending: bool, env: Env, st: RData)
    requires l != [] && (l[0].BreakStmt? || l[0].ContinueStmt? || l[0].ReturnStmt?)
    ensures CutShort(m, CutAt(m, l, inLoop, pending, env, st), TermRun(m, l, inLoop, pending, env, st),
      Run(m, l, env, st))
  {
    assert Run(m, [ContinueStmt], env, st) == Continued(env, st);
  }

  lemma CutBranch(m: Model, l: seq<Stmt>, inLoop: bool, pending: bool, env: Env, st: RData)
    requires l != [] && l[0].Branch?
    ensures var b, hands := if Ev(m, l[0].cond, env) != 0 then l[0].thn else l[0].els, pending && Hands(l[0]);
      var c, r := CutAt(m, b, inLoop, hands, env, st), TermRun(m, b, inLoop, hands, env, st);
      && (CutAt(m, l, inLoop, pending, env, st) ==
            if c.Some? then Some(Cut(c.value.rest + l[1..], c.value.env, c.value.st))
            else if r.Fell? then CutAt(m, l[1..], inLoop, pending, r.env, r.st)
            else if pending && r.Continued? then Some(Cut([ContinueStmt], r.env, r.st))
            else None)
      && (InStep(m, l, inLoop, pending, env, st) ==>
            && InStep(m, b, inLoop, hands, env, st)
            && (c.None? && r.Fell? ==> InStep(m, l[1..], inLoop, pending, r.env, r.st)))
  {
    hide TermRun;
  }

  lemma {:induction false} BranchIsCutShort(m: Model, l: seq<Stmt>, inLoop: bool, pending: bool, env: Env, st: RData)
    requires InStep(m, l, inLoop, pending, env, st) && l != [] && l[0].Branch?
    ensures CutShort(m, CutAt(m, l, inLoop, pending, env, st), TermRun(m, l, inLoop, pending, env, st),
      Run(m, l, env, st))
    decreases l, 0
  {
    hide Run, TermRun, CutAt, InStep;
    var b, hands := if Ev(m, l[0].cond, env) != 0 then l[0].thn else l[0].els, pending && Hands(l[0]);
    BranchRun(m, l, env, st);
    TermBranchRun(m, l, inLoop, pending, env, st);
    CutBranch(m, l, inLoop, pending, env, st);
    RunIsCutShort(m, b, inLoop, hands, env, st);
    var c, r := CutAt(m, b, inLoop, hands, env, st), TermRun(m, b, inLoop, hands, env, st);
    if c.Some? {
      RunAppend(m, c.value.rest, l[1..], c.value.env, c.value.st);
    } else if r.Fell? {
      RunIsCutShort(m, l[1..], inLoop, pending, r.env, r.st);
    } else if pending && r.Continued? {
      assert Run(m, [ContinueStmt], r.env, r.st) == r by {
        ContinueRun(m, r.env, r.st);
      }
    }
  }

  lemma ContinueRun(m: Model, env: Env, st: RData)
    ensures Run(m, [ContinueStmt], env, st) == Continued(env, st)
  {
  }

  lemma {:induction false} LoopIsCutShort(m: Model, l: seq<Stmt>, inLoop: bool, pending: bool, env: Env, st: RData)
    requires InStep(m, l, inLoop, pending, env, st) && l != [] && l[0].While?
    ensures CutShort(m, CutAt(m, l, inLoop, pending, env, st), TermRun(m, l, inLoop, pending, env, st),
      Run(m, l, env, st))
    decreases l, 0
  {
    hide Rounds, TermRounds, CutShort;
    var n, inner := m.rank(l[0].id, GetAll(env, l[0].input)), IsInnerLoop(l[0], inLoop);
    if n >= 0 {
      var r := TermLoopEnd(TermRounds(m, l[0].body, n, env, st), inner);
      if r.Fell? {
        TermRoundsExit(m, l[0].body, n, env, st);
        RunIsCutShort(m, l[1..], inLoop, pending || inner, r.env, r.st);
      } else {
        NotCut(m, r);
      }
    } else {
      NotCut(m, Undef);
    }
  }

  /** So a list in step ends the same way in both runs if and only if nothing is passed over, or what is passed over
      breaks as well and changes nothing. */
  lemma {:induction false} SameEndIff(m: Model, l: seq<Stmt>, inLoop: bool, pending: bool, env: Env, st: RData)
    requires InStep(m, l, inLoop, pending, env, st)
    ensures var c := CutAt(m, l, inLoop, pending, env, st);
      TermRun(m, l, inLoop, pending, env, st) == Run(m, l, env, st) <==>
        c.Some? ==> Run(m, c.value.rest, c.value.env, c.value.st) == Broke(c.value.env, c.value.st)
  {
    hide InStep, Run, TermRun, CutAt;
    RunIsCutShort(m, l, inLoop, pending, env, st);
  }

  // ---------- the whole loop

  /** The direct run from the point where the term leaves the loop: the code passed over, and then at most `n`
      rounds. */
  function GoOn(m: Model, body: seq<Stmt>, c: Cut, n: nat): Progress {
    match Run(m, c.rest, c.env, c.st)
    case Fell(env, st) => Rounds(m, body, n, env, st)
    case Continued(env, st) => Rounds(m, body, n, env, st)
    case how => Ended(how)
  }

  lemma {:induction false} RoundsSplit(m: Model, body: seq<Stmt>, k: nat, j: nat, env: Env, st: RData)
    ensures Rounds(m, body, k + j, env, st) ==
      match Rounds(m, body, k, env, st)
      case Running(env', st') => Rounds(m, body, j, env', st')
      case Ended(how) => Ended(how)
  {
    hide Run;
    if j > 0 {
      RoundsSplit(m, body, k, j - 1, env, st);
    }
  }

  lemma {:induction false} TermRoundsStay(m: Model, body: seq<Stmt>, k: nat, n: nat, env: Env, st: RData)
    requires k <= n && TermRounds(m, body, k, env, st).Ended?
    ensures TermRounds(m, body, n, env, st) == TermRounds(m, body, k, env, st)
  {
    hide TermRun;
    if k < n {
      TermRoundsStay(m, body, k, n - 1, env, st);
    }
  }

  /** The round in which an inner loop is first met, as the direct run comes to it: where it is cut short. */
  function RoundCut(m: Model, body: seq<Stmt>, k: nat, d: Env, st: RData): Option<Cut>
    requires k > 0 && Rounds(m, body, k - 1, d, st).Running?
  {
    var p := Rounds(m, body, k - 1, d, st);
    CutAt(m, body, true, false, p.env, p.st)
  }

  /** That round is in step, as far as the term goes. */
  ghost predicate RoundInStep(m: Model, body: seq<Stmt>, k: nat, d: Env, st: RData) {
    FirstMeets(m, body, k, d, st) && var p := Rounds(m, body, k - 1, d, st);
    p.Running? && InStep(m, body, true, false, p.env, p.st)
  }

  /** The rounds of both runs. */
  lemma {:induction false} RoundsAreCutShort(m: Model, body: seq<Stmt>, k: nat, n: nat, d: Env, st: RData)
    requires RoundInStep(m, body, k, d, st) && k <= n
    ensures k > 0 && Rounds(m, body, k - 1, d, st).Running?
    ensures match RoundCut(m, body, k, d, st)
      case None => TermRounds(m, body, n, d, st) == Rounds(m, body, n, d, st)
      case Some(c) =>
        && TermRounds(m, body, n, d, st) == Ended(Broke(c.env, c.st))
        && Rounds(m, body, n, d, st) == GoOn(m, body, c, n - k) && HasBreak(body)
  {
    hide Run, TermRun, InStep, CutAt, Meets, MeetsWithin;
    MetIsRunning(m, body, k, d, st);
    var p := Rounds(m, body, k - 1, d, st);
    NotMetWithin(m, body, k - 1, d, st);
    MeetsHasBreak(m, body, p.env, p.st);
    RunIsCutShort(m, body, true, false, p.env, p.st);
    RoundsSplit(m, body, k, n - k, d, st);
    var c := CutAt(m, body, true, false, p.env, p.st);
    if c.Some? {
      TermRoundsStay(m, body, k, n, d, st);
    } else {
      MetEnds(m, body, p.env, p.st);
      TermRoundsStay(m, body, k, n, d, st);
    }
  }

  /** A round in which an inner loop is met is the last one of the term, or both are stuck in a loop without a break. */
  lemma {:induction false} MetEnds(m: Model, l: seq<Stmt>, env: Env, st: RData)
    requires Meets(m, l, true, env, st)
    ensures var how := TermRun(m, l, true, false, env, st); !how.Fell? && !how.Continued?
    decreases l, 0
  {
    hide Run, Rounds, TermRounds;
    match l[0]
    case Assign(x, e) => MetEnds(m, l[1..], env[x := Ev(m, e, env)], st);
    case Call(x, op, args) =>
      var r := m.call(op, EvAll(m, args, env), st);
      MetEnds(m, l[1..], env[x := r.value.0], r.value.1);
    case Branch(_, _, _, _, _) =>
      var b := if Ev(m, l[0].cond, env) != 0 then l[0].thn else l[0].els;
      TermBranchRun(m, l, true, false, env, st);
      if Meets(m, b, true, env, st) {
        MetEnds(m, b, env, st);
      } else {
        NotMetSame(m, b, true, env, st);
        var r := Run(m, b, env, st);
        MetEnds(m, l[1..], r.env, r.st);
      }
    case While(id, body, _, input, _) =>
      MeetsInner(m, l, env, st);
      TermWhileRun(m, l, true, false, env, st);
      var n := m.rank(id, GetAll(env, input));
      TermRoundsExit(m, body, n, env, st);
      var r := TermLoopEnd(TermRounds(m, body, n, env, st), true);
      if r.Fell? {
        PendingEnds(m, l[1..], true, r.env, r.st);
      }
  }

  /** Loops stand in each other no more than two deep, as far as there are `break`s in them. */
  predicate TwoDeep(l: seq<Stmt>) {
    l != [] ==>
      && TwoDeep(l[1..])
      && match l[0]
        case Branch(_, thn, els, _, _) => TwoDeep(thn) && TwoDeep(els)
        case While(_, body, _, _, _) => NoInnerLoop(body, true)
        case _ => true
  }

  /** In such a body a run that does not run out of fuel is in step with the term, up to where that leaves. */
  lemma {:induction false} TwoDeepInStep(m: Model, l: seq<Stmt>, inLoop: bool, pending: bool, env: Env, st: RData)
    requires TwoDeep(l) && !Run(m, l, env, st).OutOfFuel?
    ensures InStep(m, l, inLoop, pending, env, st)
    decreases l, 1
  {
    hide Rounds, TermRounds;
    if l != [] {
      match l[0]
      case Assign(x, e) => TwoDeepInStep(m, l[1..], inLoop, pending, env[x := Ev(m, e, env)], st);
      case Call(x, op, args) =>
        var r := m.call(op, EvAll(m, args, env), st);
        if r.Some? {
          TwoDeepInStep(m, l[1..], inLoop, pending, env[x := r.value.0], r.value.1);
        }
      case Branch(_, _, _, _, _) => TwoDeepBranch(m, l, inLoop, pending, env, st);
      case While(id, body, _, input, _) => TwoDeepLoop(m, l, inLoop, pending, env, st);
      case _ =>
    }
  }

  lemma {:induction false} TwoDeepBranch(m: Model, l: seq<Stmt>, inLoop: bool, pending: bool, env: Env, st: RData)
    requires TwoDeep(l) && !Run(m, l, env, st).OutOfFuel? && l != [] && l[0].Branch?
    ensures InStep(m, l, inLoop, pending, env, st)
    decreases l, 0
  {
    hide Run, TermRun;
    var b, hands := if Ev(m, l[0].cond, env) != 0 then l[0].thn else l[0].els, pending && Hands(l[0]);
    BranchRun(m, l, env, st);
    TwoDeepInStep(m, b, inLoop, hands, env, st);
    RunIsCutShort(m, b, inLoop, hands, env, st);
    var r := TermRun(m, b, inLoop, hands, env, st);
    if CutAt(m, b, inLoop, hands, env, st).None? && r.Fell? {
      TwoDeepInStep(m, l[1..], inLoop, pending, r.env, r.st);
    }
  }

  lemma {:induction false} TwoDeepLoop(m: Model, l: seq<Stmt>, inLoop: bool, pending: bool, env: Env, st: RData)
    requires TwoDeep(l) && !Run(m, l, env, st).OutOfFuel? && l != [] && l[0].While?
    ensures InStep(m, l, inLoop, pending, env, st)
    decreases l, 0
  {
    hide Run, Rounds, TermRounds;
    WhileRun(m, l, env, st);
    var n := m.rank(l[0].id, GetAll(env, l[0].input));
    if n >= 0 {
      NeverMeetsWithin(m, l[0].body, n, env, st);
      NotMetWithin(m, l[0].body, n, env, st);
      var r := TermLoopEnd(TermRounds(m, l[0].body, n, env, st), IsInnerLoop(l[0], inLoop));
      if r.Fell? {
        TwoDeepInStep(m, l[1..], inLoop, PendingAfter(l[0], inLoop, pending), r.env, r.st);
      }
    }
  }

  /** So the round in which an inner loop is first met is in step, if the direct run ends it. */
  lemma {:induction false} TwoDeepRound(m: Model, body: seq<Stmt>, k: nat, d: Env, st: RData)
    requires TwoDeep(body) && FirstMeets(m, body, k, d, st) && Rounds(m, body, k, d, st) != Ended(OutOfFuel)
    ensures RoundInStep(m, body, k, d, st)
  {
    hide Run, InStep, Meets, MeetsWithin;
    MetIsRunning(m, body, k, d, st);
    var p := Rounds(m, body, k - 1, d, st);
    TwoDeepInStep(m, body, true, false, p.env, p.st);
  }

  lemma EndedEarlier(m: Model, body: seq<Stmt>, k: nat, n: nat, env: Env, st: RData)
    requires k <= n && Rounds(m, body, n, env, st) != Ended(OutOfFuel)
    ensures Rounds(m, body, k, env, st) != Ended(OutOfFuel)
  {
    hide Rounds;
    RoundsSplit(m, body, k, n - k, env, st);
  }

  /** Two loops have got to the same, as far as anybody asks. */
  predicate Alike(p: Progress, q: Progress, needs: Needs) {
    match (p, q)
    case (Running(d, st), Running(d', st')) => st == st' && Agree(needs.fall, d, d')
    case (Ended(Broke(d, st)), Ended(Broke(d', st'))) => st == st' && Agree(needs.brk, d, d')
    case (Ended(Returned(d, st)), Ended(Returned(d', st'))) => st == st' && Agree(needs.ret, d, d')
    case (Ended(Undef), Ended(Undef)) => true
    case _ => false
  }

  /** Exactly when a loop gives the result of the direct run, for all that have a result and every fuel: when the run
      the term makes has got to the same. */
  lemma {:induction false} LoopAlikeIff(m: Model, body: seq<Stmt>, loopArgs: seq<Name>, needs: Needs, n: nat,
                                        args: seq<int>, d: Env, st: RData)
    requires LoopOk(body, loopArgs, needs) && |args| == |loopArgs|
    requires FixState(Result(args, st), loopArgs, Running(d, st), needs)
    requires Rounds(m, body, n, d, st) != Ended(OutOfFuel) && TermRounds(m, body, n, d, st) != Ended(OutOfFuel)
    ensures FixState(Fix(m, loopArgs, Step(loopArgs, Translate(body, loopArgs, true)), n, args, st), loopArgs,
        Rounds(m, body, n, d, st), needs) <==>
      Alike(TermRounds(m, body, n, d, st), Rounds(m, body, n, d, st), needs)
  {
    hide Fix, Step, FixState, Run, TermRun, Translate, LoopOk, TermRounds, Rounds, Alike, MeetsWithin;
    FixCorrect(m, body, loopArgs, needs, n, args, d, st);
    RoundsEnd(m, body, n, d, st);
    TermRoundsExit(m, body, n, d, st);
    var r := Fix(m, loopArgs, Step(loopArgs, Translate(body, loopArgs, true)), n, args, st);
    if HasBreak(body) {
      BreakIsArg(body, loopArgs, needs);
      AlikeIff(r, loopArgs, TermRounds(m, body, n, d, st), Rounds(m, body, n, d, st), needs);
    } else {
      if MeetsWithin(m, body, n, d, st) {
        WithinHasBreak(m, body, n, d, st);
      }
      NotMetWithin(m, body, n, d, st);
      AlikeSelf(Rounds(m, body, n, d, st), needs);
    }
  }

  lemma AlikeSelf(p: Progress, needs: Needs)
    requires p != Ended(OutOfFuel) && (p.Ended? ==> !p.how.Fell? && !p.how.Continued?)
    ensures Alike(p, p, needs)
  {
  }

  /** For the round in which an inner loop is first met: nothing is passed over; or what is passed over, and the rounds
      after it, leave the loop by a break with the same state and the same values for what is read later. */
  lemma {:induction false} LoopRightIff(m: Model, body: seq<Stmt>, loopArgs: seq<Name>, needs: Needs, k: nat, n: nat,
                                        args: seq<int>, d: Env, st: RData)
    requires LoopOk(body, loopArgs, needs) && |args| == |loopArgs|
    requires FixState(Result(args, st), loopArgs, Running(d, st), needs)
    requires RoundInStep(m, body, k, d, st) && k <= n && Rounds(m, body, n, d, st) != Ended(OutOfFuel)
    ensures k > 0 && Rounds(m, body, k - 1, d, st).Running?
    ensures var c := RoundCut(m, body, k, d, st);
      FixState(Fix(m, loopArgs, Step(loopArgs, Translate(body, loopArgs, true)), n, args, st), loopArgs,
        Rounds(m, body, n, d, st), needs) <==>
      (c.Some? ==> Alike(Ended(Broke(c.value.env, c.value.st)), GoOn(m, body, c.value, n - k), needs))
  {
    hide Fix, Step, FixState, Run, TermRun, Translate, LoopOk, TermRounds, Rounds, RoundCut, GoOn, RoundInStep, Alike;
    RoundsAreCutShort(m, body, k, n, d, st);
    LoopAlikeIff(m, body, loopArgs, needs, n, args, d, st);
    RoundsEnd(m, body, n, d, st);
    if RoundCut(m, body, k, d, st).None? {
      AlikeSelf(Rounds(m, body, n, d, st), needs);
    }
  }

  lemma BreakIsArg(body: seq<Stmt>, loopArgs: seq<Name>, needs: Needs)
    requires LoopOk(body, loopArgs, needs) && HasBreak(body)
    ensures BREAK in loopArgs && NeedsFlagFree(needs)
  {
    hide Covered;
  }

  lemma AlikeIff(r: Result, loopArgs: seq<Name>, p: Progress, q: Progress, needs: Needs)
    requires FixState(r, loopArgs, p, needs) && BREAK in loopArgs && NeedsFlagFree(needs)
    requires p != Ended(OutOfFuel) && (p.Ended? ==> !p.how.Fell? && !p.how.Continued?)
    requires q != Ended(OutOfFuel) && (q.Ended? ==> !q.how.Fell? && !q.how.Continued?)
    ensures FixState(r, loopArgs, q, needs) <==> Alike(p, q, needs)
  {
    hide BindAll, Reflects, FlagsClear;
    if FixState(r, loopArgs, q, needs) && r.Result? {
      StateShows(r, loopArgs, p, needs);
      StateShows(r, loopArgs, q, needs);
    }
    if Alike(p, q, needs) && p.Ended? && !p.how.Undef? {
      ReflectsAlike(BindAll(map[], loopArgs, r.vals), p, q, needs);
    }
  }

  lemma ReflectsAlike(t: Env, p: Progress, q: Progress, needs: Needs)
    requires Alike(p, q, needs) && p.Ended? && !p.how.Undef? && Reflects(t, p.how, true, needs, true)
    ensures Reflects(t, q.how, true, needs, true)
  {
    forall x ensures RightAt(x, Get(t, x), q.how, true, needs) {
      assert RightAt(x, Get(t, x), p.how, true, needs);
    }
  }

  /** What the tuple of a loop tells: the flags say how far it has got, and the names asked for then have their
      values. */
  lemma StateShows(r: Result, loopArgs: seq<Name>, p: Progress, needs: Needs)
    requires FixState(r, loopArgs, p, needs) && BREAK in loopArgs && NeedsFlagFree(needs) && r.Result?
    requires p != Ended(OutOfFuel) && (p.Ended? ==> !p.how.Fell? && !p.how.Continued?)
    ensures |r.vals| == |loopArgs| && (p.Ended? ==> p.how.Broke? || p.how.Returned?)
    ensures var t := BindAll(map[], loopArgs, r.vals);
      && (Get(t, RETURN) != 0 <==> p.Ended? && p.how.Returned?)
      && (Get(t, RETURN) == 0 ==> (Get(t, BREAK) != 0 <==> p.Ended?))
      && match p
        case Running(d, st) => r.st == st && Agree(needs.fall, d, t)
        case Ended(how) => r.st == how.st && Agree(Needed(needs, how), how.env, t)
  {
    hide BindAll;
    var t := BindAll(map[], loopArgs, r.vals);
    if p.Ended? {
      assert RightAt(RETURN, Get(t, RETURN), p.how, true, needs) && RightAt(BREAK, Get(t, BREAK), p.how, true, needs);
      forall x | x in Needed(needs, p.how) ensures Get(p.how.env, x) == Get(t, x) {
        assert RightAt(x, Get(t, x), p.how, true, needs);
      }
    }
  }

  // An inner loop that breaks at once, in a loop that sets x to 1 in its first round and to 2 in its second.

  const INNER := While(1, [BreakStmt], [BREAK], [], [BREAK])
  const OUTER_BODY := [INNER, Branch(Var("x"), [Assign("x", Const(2)), BreakStmt], [Assign("x", Const(1))],
    [BREAK, "x"], [])]
  const OUTER := While(0, OUTER_BODY, [BREAK, "x"], ["x"], ["x"])

  lemma InnerRun(m: Model, env: Env, st: RData)
    requires m.rank(1, []) == 1
    ensures Run(m, OUTER_BODY, env, st) == if Get(env, "x") != 0 then Broke(env["x" := 2], st)
      else Fell(env["x" := 1], st)
  {
    assert Run(m, [BreakStmt], env, st) == Broke(env, st);
    assert Rounds(m, [BreakStmt], 0, env, st) == Running(env, st);
    assert Rounds(m, [BreakStmt], 1, env, st) == Ended(Broke(env, st));
    WhileRun(m, OUTER_BODY, env, st);
    var rest := OUTER_BODY[1..];
    assert GetAll(env, []) == [];
    assert Run(m, [Assign("x", Const(1))], env, st) == Fell(env["x" := 1], st);
    assert Run(m, [Assign("x", Const(2)), BreakStmt], env, st) == Broke(env["x" := 2], st) by {
      assert [Assign("x", Const(2)), BreakStmt][1..] == [BreakStmt];
    }
    BranchRun(m, rest, env, st);
    assert rest[1..] == [];
  }

  lemma OuterRun(m: Model, st: RData)
    requires m.rank(1, []) == 1 && m.rank(0, [0]) == 2
    ensures Run(m, [OUTER], map["x" := 0], st) == Fell(map["x" := 2], st)
  {
    var env: Env := map["x" := 0];
    hide Run;
    InnerRun(m, env, st);
    InnerRun(m, env["x" := 1], st);
    assert Rounds(m, OUTER_BODY, 0, env, st) == Running(env, st);
    assert Rounds(m, OUTER_BODY, 1, env, st) == Running(env["x" := 1], st);
    assert Rounds(m, OUTER_BODY, 2, env, st) == Ended(Broke(map["x" := 2], st));
    assert GetAll(env, ["x"]) == [0] && [OUTER][1..] == [];
    assert env["x" := 1]["x" := 2] == map["x" := 2];
    WhileRun(m, [OUTER], env, st);
    RunEmpty(m, map["x" := 2], st);
  }

  lemma RunEmpty(m: Model, env: Env, st: RData)
    ensures Run(m, [], env, st) == Fell(env, st)
  {
  }

  lemma InnerTerm(m: Model, st: RData)
    ensures Fix(m, [BREAK], Step([BREAK], Translate([BreakStmt], [BREAK], true)), 1, [0], st) == Result([1], st)
  {
    var code := Translate([BreakStmt], [BREAK], true);
    FixStart(m, [BREAK], Step([BREAK], code), [0], st);
    FixNext(m, [BREAK], Step([BREAK], code), 1, [0], st);
    var t := BindAll(map[], [BREAK], [0]);
    GetBound(map[], [BREAK], [0], BREAK);
    StepEval(m, [BREAK], code, t, st);
    assert Translate([BreakStmt][1..], [BREAK], true) == TupleT([BREAK]);
    assert code == LetT(BREAK, Const(1), TupleT([BREAK]));
    assert GetAll(t[BREAK := 1], [BREAK]) == [1];
  }

  /** The first round of the outer loop: x is 1, and the flag of the inner loop is still set. */
  lemma OuterRoundTerm(m: Model, t: Env, st: RData)
    requires m.rank(1, []) == 1 && Get(t, "x") == 0 && Get(t, RETURN) == 0 && Get(t, CONTINUE) == 0
    ensures Eval(m, Translate(OUTER_BODY, [BREAK, "x"], true), t, st) == Result([1, 1], st)
  {
    var outs := [BREAK, "x"];
    var rest := OUTER_BODY[1..];
    hide Eval, Fix, Step, Translate;
    WhileTerm(m, OUTER_BODY, outs, true, t, st);
    InnerTerm(m, st);
    assert GetAll(t, []) == [] && EvAll(m, LoopInit([BREAK], []), t) == [0];
    var t1 := BindAll(t, [BREAK], [1]);
    GetBound(t, [BREAK], [1], BREAK);
    AfterLoopEval(m, [BREAK], outs, Translate(rest, outs, true), t1, st);
    OuterBranchTerm(m, t1, st);
  }

  lemma OuterBranchTerm(m: Model, t: Env, st: RData)
    requires Get(t, "x") == 0 && Get(t, BREAK) == 1 && Get(t, RETURN) == 0 && Get(t, CONTINUE) == 0
    ensures Eval(m, Translate(OUTER_BODY[1..], [BREAK, "x"], true), t, st) == Result([1, 1], st)
  {
    var outs := [BREAK, "x"];
    var rest := OUTER_BODY[1..];
    OuterBranchValue(m, t, st);
    hide Eval, Translate;
    BranchTerm(m, rest, outs, true, t, st);
    assert BindAll(t, [], Zeros(0)) == t;
    var t2 := BindAll(t, outs, [1, 1]);
    GetBound(t, outs, [1, 1], BREAK);
    GetBound(t, outs, [1, 1], "x");
    AfterBranchEval(m, outs, outs, true, Translate(rest[1..], outs, true), t2, st);
    EvalTuple(m, outs, t2, st);
    assert GetAll(t2, outs) == [1, 1];
  }

  lemma OuterBranchValue(m: Model, t: Env, st: RData)
    requires Get(t, "x") == 0 && Get(t, BREAK) == 1
    ensures var s := OUTER_BODY[1..][0];
      s.Branch? && s.output == [BREAK, "x"] && s.needInit == [] &&
      Eval(m, Translate(if Ev(m, s.cond, t) != 0 then s.thn else s.els, [BREAK, "x"], true), t, st) ==
        Result([1, 1], st)
  {
    var outs := [BREAK, "x"];
    assert Translate([Assign("x", Const(1))], outs, true) == LetT("x", Const(1), TupleT(outs));
    assert GetAll(t["x" := 1], outs) == [1, 1];
  }

  lemma OuterFix(m: Model, st: RData)
    requires m.rank(1, []) == 1
    ensures Fix(m, [BREAK, "x"], Step([BREAK, "x"], Translate(OUTER_BODY, [BREAK, "x"], true)), 2, [0, 0], st) ==
      Result([1, 1], st)
  {
    var outs := [BREAK, "x"];
    var code := Translate(OUTER_BODY, outs, true);
    hide Eval, Fix, Step, Translate, BindAll, Stops, NoDup;
    FixStart(m, outs, Step(outs, code), [0, 0], st);
    FixNext(m, outs, Step(outs, code), 1, [0, 0], st);
    var t0 := BindAll(map[], outs, [0, 0]);
    forall x ensures Get(t0, x) == 0 {
      GetBound(map[], outs, [0, 0], x);
    }
    StepEval(m, outs, code, t0, st);
    OuterRoundTerm(m, t0, st);
    OuterStops(st);
    FixStopped(m, outs, code, 1, 2, [0, 0], st);
  }

  lemma OuterStops(st: RData)
    ensures Stops(Result([1, 1], st), [BREAK, "x"]) && NoDup([BREAK, "x"])
  {
    assert [BREAK, "x"][0] == BREAK && |BREAK| != |"x"|;
  }

  lemma OuterInit(m: Model, t: Env)
    requires Get(t, "x") == 0
    ensures GetAll(t, ["x"]) == [0] && EvAll(m, LoopInit([BREAK, "x"], ["x"]), t) == [0, 0]
    ensures !GoesRoundForever(OUTER_BODY)
  {
  }

  /** The counterexample: the code ends with x = 2, its translation with x = 1. */
  lemma NestedBreakGoesWrong(m: Model, st: RData)
    requires m.rank(1, []) == 1 && m.rank(0, [0]) == 2
    ensures Run(m, [OUTER], map["x" := 0], st) == Fell(map["x" := 2], st)
    ensures Eval(m, Translate([OUTER], ["x"], false), map["x" := 0], st) == Result([1], st)
  {
    OuterRun(m, st);
    OuterFix(m, st);
    var t, outs := map["x" := 0], [BREAK, "x"];
    OuterInit(m, t);
    hide Eval, Fix, Step, Run, BindAll, LoopInit, EvAll, AfterLoop;
    WhileTerm(m, [OUTER], ["x"], false, t, st);
    var t2 := BindAll(t, outs, [1, 1]);
    GetBound(t, outs, [1, 1], "x");
    AfterLoopEval(m, ["x"], ["x"], Translate([], ["x"], false), t2, st);
    EvalTuple(m, ["x"], t2, st);
    assert GetAll(t2, ["x"]) == [1];
  }
}

