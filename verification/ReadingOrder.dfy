/** For which code the lists of names noted by going through the text once are right: exactly for code where whatever
    a run may still read after an `if` or a loop is found in the text as read before it is set again. */
module ReadingOrder {
  import opened Prelude
  import opened FlagEncoding
  import opened InputOutput
  import opened LeftBreaks

  // ---------- the code and what its runs may read

  predicate Plain(x: Name) {
    !IsFlag(x) && x != RETVAL
  }

  predicate AllPlain(xs: set<Name>) {
    forall x :: x in xs ==> Plain(x)
  }

  /** Early exits come last in their lists, `break` and `continue` stand in loops, all `return`s are of one kind, and
      no variable has the name of a flag. */
  predicate Shaped(l: seq<Stmt>, inLoop: bool, isVoid: bool) {
    l != [] ==>
      && Shaped(l[1..], inLoop, isVoid)
      && match l[0]
        case Assign(x, e) => Plain(x) && AllPlain(Vars(e))
        case Call(x, _, args) => Plain(x) && AllPlain(VarsAll(args))
        case Branch(cond, thn, els, _, _) =>
          AllPlain(Vars(cond)) && Shaped(thn, inLoop, isVoid) && Shaped(els, inLoop, isVoid)
        case While(_, body, _, _, _) => Shaped(body, true, isVoid)
        case ReturnStmt(None) => |l| == 1 && isVoid
        case ReturnStmt(Some(e)) => |l| == 1 && !isVoid && AllPlain(Vars(e))
        case _ => |l| == 1 && inLoop
  }

  /** Only a `return` needs the returned value. */
  predicate PlainNeeds(needs: Needs, isVoid: bool) {
    AllPlain(needs.fall + needs.brk + needs.cont) && needs.ret <= if isVoid then {} else {RETVAL}
  }

  /** What may be read in a run before it is set; all that the text of a loop reads first is read when it is entered,
      as its rank is computed from it. */
  function MayRead(l: seq<Stmt>, inLoop: bool, pending: bool, needs: Needs): set<Name>
    decreases l, 0
  {
    if l == [] then needs.fall
    else
      var live := ReadAfter(l, inLoop, pending, needs);
      match l[0]
      case Assign(x, e) => live - {x} + Vars(e)
      case Call(x, _, args) => live - {x} + VarsAll(args)
      case Branch(cond, thn, els, _, _) =>
        var sub, hands := BranchNeeds(l[0], pending, live, needs), pending && Hands(l[0]);
        Vars(cond) + MayRead(thn, inLoop, hands, sub) + MayRead(els, inLoop, hands, sub)
      case While(_, body, _, _, _) => Reads(body) + (live - Assigned(body))
      case BreakStmt => needs.brk
      case ContinueStmt => needs.cont
      case ReturnStmt(None) => needs.ret
      case ReturnStmt(Some(e)) => needs.ret - {RETVAL} + Vars(e)
  }

  /** What may be read after the first statement. */
  function ReadAfter(l: seq<Stmt>, inLoop: bool, pending: bool, needs: Needs): set<Name>
    requires l != []
    decreases l[1..], 1
  {
    if GoesOn(l[0], inLoop, pending)
    then MayRead(l[1..], inLoop, PendingAfter(l[0], inLoop, pending), NeedsAfter(l[0], inLoop, needs))
    else {}
  }

  /** What a loop carries along: what its text reads first, and what it sets and the text after it reads. */
  function ArgNames(body: seq<Stmt>, afterReads: set<Name>): set<Name> {
    Reads(body) + Writes(body) * (afterReads + {BREAK, RETVAL, RETURN})
  }

  function RoundNeeds(body: seq<Stmt>, args: set<Name>, live: set<Name>, needs: Needs): Needs {
    Needs(Reads(body), live * args, Reads(body), needs.ret * args)
  }

  /** The text tells what runs read: what an `if` or a loop sets and a run may read after it is read in the text after
      it, unless all that it sets is handed on anyway; what a loop within a loop with a `break` in it sets and is read
      after it is read first in its own text; and what a round may read is read first in the text of the loop.  `after`
      is what the text after the list reads. */
  predicate Told(l: seq<Stmt>, after: set<Name>, inLoop: bool, pending: bool, needs: Needs) {
    l != [] ==>
      var live, more := ReadAfter(l, inLoop, pending, needs), AfterReads(l[1..], after);
      && (GoesOn(l[0], inLoop, pending) ==>
            Told(l[1..], after, inLoop, PendingAfter(l[0], inLoop, pending), NeedsAfter(l[0], inLoop, needs)))
      && match l[0]
        case Branch(_, thn, els, _, _) =>
          var sub, hands := BranchNeeds(l[0], pending, live, needs), pending && Hands(l[0]);
          && (LeavesRound(WritesOf(l[0]), inLoop) || (Assigned(thn) + Assigned(els)) * live <= more)
          && Told(thn, more, inLoop, hands, sub) && Told(els, more, inLoop, hands, sub)
        case While(_, body, _, _, _) =>
          var args := ArgNames(body, LoopReads(l[0], more, inLoop));
          var round := RoundNeeds(body, args, live, needs);
          && Assigned(body) * live <= args && MayRead(body, true, false, round) <= Reads(body)
          && Told(body, args, true, false, round)
        case _ => true
  }

  /** Every loop within a loop finds set what its text reads first; `known` is what the text before the list sets. */
  predicate Ready(l: seq<Stmt>, known: set<Name>, after: set<Name>, inLoop: bool) {
    l != [] ==>
      var more := AfterReads(l[1..], after);
      && Ready(l[1..], known + WritesOf(l[0]), after, inLoop)
      && match l[0]
        case Branch(_, thn, els, _, _) => Ready(thn, known, more, inLoop) && Ready(els, known, more, inLoop)
        case While(_, body, _, _, _) =>
          var args := ArgNames(body, LoopReads(l[0], more, inLoop));
          (inLoop ==> Reads(body) <= known) && Ready(body, args, args, true)
        case _ => true
  }

  // ---------- facts about the text

  lemma {:induction false} ShapedNames(l: seq<Stmt>, inLoop: bool, isVoid: bool)
    requires Shaped(l, inLoop, isVoid)
    ensures FlagFree(Assigned(l)) && AllPlain(Reads(l)) && (forall x :: x in Assigned(l) ==> Plain(x) || x == RETVAL)
  {
    if l != [] {
      ShapedNames(l[1..], inLoop, isVoid);
      match l[0]
      case Branch(_, thn, els, _, _) =>
        ShapedNames(thn, inLoop, isVoid);
        ShapedNames(els, inLoop, isVoid);
      case While(_, body, _, _, _) =>
        ShapedNames(body, true, isVoid);
      case _ =>
    }
  }

  lemma {:induction false} MayReadPlain(l: seq<Stmt>, inLoop: bool, pending: bool, isVoid: bool, needs: Needs)
    requires Shaped(l, inLoop, isVoid) && PlainNeeds(needs, isVoid)
    ensures AllPlain(MayRead(l, inLoop, pending, needs)) && (l != [] ==> AllPlain(ReadAfter(l, inLoop, pending, needs)))
  {
    if l != [] {
      if GoesOn(l[0], inLoop, pending) {
        MayReadPlain(l[1..], inLoop, PendingAfter(l[0], inLoop, pending), isVoid, NeedsAfter(l[0], inLoop, needs));
      }
      var sub, hands := BranchNeeds(l[0], pending, ReadAfter(l, inLoop, pending, needs), needs), pending && Hands(l[0]);
      match l[0]
      case Branch(_, thn, els, _, _) =>
        MayReadPlain(thn, inLoop, hands, isVoid, sub);
        MayReadPlain(els, inLoop, hands, isVoid, sub);
      case While(_, body, _, _, _) =>
        ShapedNames(body, true, isVoid);
      case _ =>
    }
  }

  lemma {:induction false} ExitsOutside(l: seq<Stmt>, isVoid: bool)
    requires Shaped(l, false, isVoid)
    ensures Exits(l) <= {RETURN}
  {
    if l != [] {
      ExitsOutside(l[1..], isVoid);
      if l[0].Branch? {
        ExitsOutside(l[0].thn, isVoid);
        ExitsOutside(l[0].els, isVoid);
      }
    }
  }

  lemma {:induction false} ReturnsSet(l: seq<Stmt>, inLoop: bool, isVoid: bool)
    requires Shaped(l, inLoop, isVoid)
    ensures !isVoid && RETURN in Exits(l) ==> RETVAL in Assigned(l)
  {
    if l != [] {
      ReturnsSet(l[1..], inLoop, isVoid);
      match l[0]
      case Branch(_, thn, els, _, _) =>
        ReturnsSet(thn, inLoop, isVoid);
        ReturnsSet(els, inLoop, isVoid);
      case While(_, body, _, _, _) =>
        ReturnsSet(body, true, isVoid);
      case _ =>
    }
  }

  lemma {:induction false} BreakIsSet(l: seq<Stmt>, inLoop: bool, isVoid: bool)
    requires Shaped(l, inLoop, isVoid)
    ensures HasBreak(l) <==> BREAK in Writes(l)
  {
    if l != [] {
      BreakIsSet(l[1..], inLoop, isVoid);
      match l[0]
      case Branch(_, thn, els, _, _) =>
        BreakIsSet(thn, inLoop, isVoid);
        BreakIsSet(els, inLoop, isVoid);
      case While(_, body, _, _, _) =>
        BreakIsSet(body, true, isVoid);
      case _ =>
    }
  }

  lemma {:induction false} PendingNeverFalls(l: seq<Stmt>, inLoop: bool)
    ensures !Falls(l, inLoop, true)
  {
    if l != [] {
      PendingNeverFalls(l[1..], inLoop);
    }
  }

  /** What the end of a list may need and is come to is read by the list, unless it sets it. */
  lemma {:induction false} FallsThrough(l: seq<Stmt>, inLoop: bool, pending: bool, needs: Needs, x: Name)
    requires Falls(l, inLoop, pending) && x in needs.fall && x !in Assigned(l)
    ensures x in MayRead(l, inLoop, pending, needs)
    decreases l, 1
  {
    if l != [] {
      PendingNeverFalls(l, inLoop);
      PendingNeverFalls(l[1..], inLoop);
      FallsThrough(l[1..], inLoop, pending, needs, x);
      if l[0].Branch? {
        BranchFalls(l, inLoop, pending, needs, x);
      }
    }
  }

  /** What is read after an `if` that falls through is read by one of its branches, unless that sets it. */
  lemma {:induction false} BranchFalls(l: seq<Stmt>, inLoop: bool, pending: bool, needs: Needs, x: Name)
    requires l != [] && l[0].Branch? && GoesOn(l[0], inLoop, pending) && x in ReadAfter(l, inLoop, pending, needs)
    requires x !in Assigned(l[0].thn) + Assigned(l[0].els)
    ensures x in MayRead(l, inLoop, pending, needs)
    decreases l, 0
  {
    var sub := BranchNeeds(l[0], pending, ReadAfter(l, inLoop, pending, needs), needs);
    if Falls(l[0].thn, inLoop, false) {
      FallsThrough(l[0].thn, inLoop, false, sub, x);
    } else {
      FallsThrough(l[0].els, inLoop, false, sub, x);
    }
  }

  /** Of what may be read after a statement, all that it does not set is read before it. */
  lemma KnownNext(l: seq<Stmt>, inLoop: bool, pending: bool, needs: Needs)
    requires l != []
    ensures ReadAfter(l, inLoop, pending, needs) <= MayRead(l, inLoop, pending, needs) + WritesOf(l[0])
  {
    WritesAre([l[0]]);
    assert [l[0]][1..] == [];
    forall x | x in ReadAfter(l, inLoop, pending, needs) && x !in WritesOf(l[0])
      ensures x in MayRead(l, inLoop, pending, needs)
    {
      if l[0].Branch? {
        BranchFalls(l, inLoop, pending, needs, x);
      }
    }
  }

  // ---------- one statement

  lemma HandedOnIff(outs: set<Name>, sets: set<Name>, live: set<Name>, returned: set<Name>, more: set<Name>)
    requires AllPlain(live) && sets <= outs && returned <= {RETVAL}
    ensures sets * (live + returned) <= outs * more + outs * {RETVAL, RETURN} <==> sets * live <= more
  {
    if sets * (live + returned) <= outs * more + outs * {RETVAL, RETURN} {
      forall x | x in sets * live ensures x in more {
        assert x in sets * (live + returned) && Plain(x);
      }
    }
  }

  lemma BranchSets(s: Stmt, inLoop: bool, isVoid: bool)
    requires s.Branch? && Shaped(s.thn, inLoop, isVoid) && Shaped(s.els, inLoop, isVoid)
    ensures var exits := Exits(s.thn) + Exits(s.els);
      && Assigned(s.thn) + Assigned(s.els) <= WritesOf(s) && exits <= WritesOf(s) * {BREAK, CONTINUE, RETURN}
      && (!inLoop ==> exits <= {RETURN})
  {
    WritesAre(s.thn);
    WritesAre(s.els);
    if !inLoop {
      ExitsOutside(s.thn, isVoid);
      ExitsOutside(s.els, isVoid);
    }
  }

  /** An `if` hands on what it sets and is read later if and only if the text tells that it is read. */
  lemma BranchOutputsIff(s: Stmt, list: Listing, more: set<Name>, inLoop: bool, pending: bool, isVoid: bool,
                         needs: Needs, live: set<Name>)
    requires Lists(list) && s.Branch? && Shaped(s.thn, inLoop, isVoid) && Shaped(s.els, inLoop, isVoid)
    requires AllPlain(live) && PlainNeeds(needs, isVoid)
    ensures var sets, exits := Assigned(s.thn) + Assigned(s.els), Exits(s.thn) + Exits(s.els);
      var output := Names(Outputs(list, WritesOf(s), more, inLoop));
      exits <= output && sets * (live + NeededFor(s, inLoop, needs)) <= output <==>
        LeavesRound(WritesOf(s), inLoop) || sets * live <= more
  {
    var sets, exits, outs := Assigned(s.thn) + Assigned(s.els), Exits(s.thn) + Exits(s.els), WritesOf(s);
    BranchSets(s, inLoop, isVoid);
    OutputsAre(list, outs, more, inLoop);
    BranchBreaks(s, inLoop, isVoid);
    hide Shaped, Exits, Assigned, Writes, Outputs, AllPlain, WritesOf, Hands;
    var returned := NeededFor(s, inLoop, needs);
    if !LeavesRound(outs, inLoop) {
      assert exits <= {RETURN};
      HandedOnIff(outs, sets, live, returned, more);
    }
  }

  lemma BranchBreaks(s: Stmt, inLoop: bool, isVoid: bool)
    requires s.Branch? && Shaped(s.thn, inLoop, isVoid) && Shaped(s.els, inLoop, isVoid)
    ensures Hands(s) <==> BREAK in WritesOf(s)
  {
    BreakIsSet(s.thn, inLoop, isVoid);
    BreakIsSet(s.els, inLoop, isVoid);
  }

  /** Within a loop with a `break` in it the flag is known from the start. */
  predicate BreakKnown(l: seq<Stmt>, known: set<Name>, inLoop: bool) {
    inLoop && BREAK in Writes(l) ==> BREAK in known
  }

  /** The break flag is handed on by an `if` in a loop exactly if there is a `break` in it. */
  lemma BranchFlags(s: Stmt, list: Listing, known: set<Name>, more: set<Name>, isVoid: bool)
    requires Lists(list) && s.Branch? && Shaped(s.thn, true, isVoid) && Shaped(s.els, true, isVoid)
    requires BREAK in WritesOf(s) ==> BREAK in known
    ensures var output := Outputs(list, WritesOf(s), more, true);
      BREAK !in Without(output, known) && (BREAK in output <==> Hands(s))
  {
    BranchBreaks(s, true, isVoid);
    OutputsAre(list, WritesOf(s), more, true);
    var output := Outputs(list, WritesOf(s), more, true);
    hide Shaped, WritesOf, Hands, Outputs;
    InNames(output, BREAK);
    InNames(Without(output, known), BREAK);
  }

  /** The lists of the code after the first statement cover what is read there. */
  predicate RestCovered(r: seq<Stmt>, inLoop: bool, pending: bool, needs: Needs)
    requires r != []
  {
    GoesOn(r[0], inLoop, pending) ==>
      Covered(r[1..], inLoop, PendingAfter(r[0], inLoop, pending), NeedsAfter(r[0], inLoop, needs))
  }

  /** When an annotated `if` is covered. */
  lemma BranchCoveredIff(l: seq<Stmt>, r: seq<Stmt>, list: Listing, known: set<Name>, after: set<Name>, inLoop: bool,
                         pending: bool, isVoid: bool, needs: Needs)
    requires Lists(list) && Shaped(l, inLoop, isVoid) && l != [] && l[0].Branch? && PlainNeeds(needs, isVoid)
    requires r == Annotate(l, list, known, after, inLoop) && AllPlain(LiveAfter(r, inLoop, pending, needs))
    requires BreakKnown(l, known, inLoop)
    ensures r[0].Branch? && r[0].cond == l[0].cond && GoesOn(r[0], inLoop, pending) == GoesOn(l[0], inLoop, pending)
    ensures var live, more, s := LiveAfter(r, inLoop, pending, needs), AfterReads(l[1..], after), l[0];
      var sub, hands := BranchNeeds(s, pending, live, needs), pending && Hands(s);
      var inits := Names(Outputs(list, WritesOf(s), more, inLoop)) - known;
      && r[0].thn == Annotate(s.thn, list, known, more, inLoop)
         && r[0].els == Annotate(s.els, list, known, more, inLoop)
      && Hands(r[0]) == Hands(s)
      && (Covered(r, inLoop, pending, needs) <==>
            && RestCovered(r, inLoop, pending, needs) && Covered(r[0].thn, inLoop, hands, sub)
               && Covered(r[0].els, inLoop, hands, sub)
            && (LeavesRound(WritesOf(s), inLoop) || (Assigned(s.thn) + Assigned(s.els)) * live <= more)
            && inits !! Vars(s.cond) + Live(r[0].thn, inLoop, hands, sub) + Live(r[0].els, inLoop, hands, sub))
  {
    var live, more, s := LiveAfter(r, inLoop, pending, needs), AfterReads(l[1..], after), l[0];
    AnnotateFirst(l, list, known, after, inLoop);
    OneKeeps(s, list, known, more, inLoop);
    AnnotateKeeps(l, list, known, after, inLoop);
    ShapedNames(l, inLoop, isVoid);
    BranchOutputsIff(s, list, more, inLoop, pending, isVoid, needs, live);
    if inLoop {
      BranchFlags(s, list, known, more, isVoid);
    }
    SameNeeds(r[0], s, inLoop, needs);
    hide Annotate, Live, LiveAfter, Exits, Assigned, NeededFor, Outputs, Without, Names, WritesOf, Vars, GoesOn, Hands;
  }

  lemma SameNeeds(r: Stmt, s: Stmt, inLoop: bool, needs: Needs)
    requires SameStmt(r, s) && s.Branch?
    ensures NeededFor(r, inLoop, needs) == NeededFor(s, inLoop, needs)
  {
  }

  /** What is noted for a loop that finds set what its text reads first. */
  lemma LoopNoted(s: Stmt, list: Listing, known: set<Name>, more: set<Name>, inLoop: bool, isVoid: bool)
    requires Lists(list) && s.While? && Shaped(s.body, true, isVoid) && CONTINUE !in more
    ensures var w, args := AnnotateOne(s, list, known, more, inLoop), ArgNames(s.body, LoopReads(s, more, inLoop));
      && w.While? && w.body == Annotate(s.body, list, args, args, true)
      && NoDup(w.loopArgs) && Names(w.loopArgs) == args && Names(w.input) == known * Reads(s.body) && CONTINUE !in args
      && (RETURN in Writes(s.body) ==> RETURN in w.output) && (LeavesRound(WritesOf(s), inLoop) ==>
         Names(w.output) == WritesOf(s))
  {
    ArgsAre(list, s.body, LoopReads(s, more, inLoop));
    OutputsAre(list, WritesOf(s), more, inLoop);
    ShapedNames(s.body, true, isVoid);
    hide LoopArgs, Annotate, Outputs, Reads, Writes, Shaped, NoDup;
    var w := AnnotateOne(s, list, known, more, inLoop);
    assert Names(w.input) == known * Reads(s.body);
    assert RETURN in Names(w.output) ==> RETURN in w.output;
  }

  /** The lists noted within a loop hand its flag on. */
  lemma {:induction false} AnnotateKeepsBreak(l: seq<Stmt>, list: Listing, known: set<Name>, after: set<Name>,
                                              isVoid: bool, outs: seq<Name>)
    requires Lists(list) && Shaped(l, true, isVoid)
    requires BREAK in known && BREAK in outs && (RETURN in Writes(l) ==> RETURN in outs)
    ensures KeepsBreak(Annotate(l, list, known, after, true), outs)
  {
    if l != [] {
      var r, more := Annotate(l, list, known, after, true), AfterReads(l[1..], after);
      AnnotateFirst(l, list, known, after, true);
      AnnotateKeepsBreak(l[1..], list, known + WritesOf(l[0]), after, isVoid, outs);
      match l[0]
      case Branch(_, thn, els, _, _) =>
        var output := Outputs(list, WritesOf(l[0]), more, true);
        FlagsHandedOn(l[0], list, known, more, isVoid);
        AnnotateKeeps(thn, list, known, more, true);
        AnnotateKeeps(els, list, known, more, true);
        if BREAK in output {
          AnnotateKeepsBreak(thn, list, known, more, isVoid, output);
          AnnotateKeepsBreak(els, list, known, more, isVoid, output);
        }
        hide Annotate, Outputs;
        assert r[0].thn == Annotate(thn, list, known, more, true) && r[0].els == Annotate(els, list, known, more, true);
      case While(_, body, _, _, _) =>
        LoopHandsOn(l[0], list, known, more, isVoid);
      case _ =>
    }
  }

  lemma FlagsHandedOn(s: Stmt, list: Listing, known: set<Name>, more: set<Name>, isVoid: bool)
    requires Lists(list) && s.Branch? && Shaped(s.thn, true, isVoid) && Shaped(s.els, true, isVoid) && BREAK in known
    ensures var output := Outputs(list, WritesOf(s), more, true);
      && NoDup(output) && BREAK !in Without(output, known) && (HasBreak(s.thn) || HasBreak(s.els) ==> BREAK in output)
      && (RETURN in output <==> RETURN in WritesOf(s))
  {
    BreakIsSet(s.thn, true, isVoid);
    BreakIsSet(s.els, true, isVoid);
    OutputsAre(list, WritesOf(s), more, true);
    var output := Outputs(list, WritesOf(s), more, true);
    hide Shaped, Writes, HasBreak;
    assert forall x :: x in output <==> x in Names(output);
    assert forall x :: x in Without(output, known) <==> x in Names(Without(output, known));
  }

  lemma LoopHandsOn(s: Stmt, list: Listing, known: set<Name>, more: set<Name>, isVoid: bool)
    requires Lists(list) && s.While? && Shaped(s.body, true, isVoid)
    ensures var w := AnnotateOne(s, list, known, more, true);
      w.While? && (RETURN in w.output <==> RETURN in WritesOf(s)) && (BREAK in w.loopArgs ==> BREAK in w.output)
  {
    ArgsAre(list, s.body, LoopReads(s, more, true));
    OutputsAre(list, WritesOf(s), more, true);
    ShapedNames(s.body, true, isVoid);
    hide LoopArgs, Annotate, Outputs, Reads, Writes, Shaped, NoDup;
    var w := AnnotateOne(s, list, known, more, true);
    assert forall x :: x in w.output <==> x in Names(w.output);
    assert forall x :: x in w.loopArgs <==> x in Names(w.loopArgs);
  }

  /** What holds of the lists of such a loop, whatever is read after it. */
  ghost predicate WellNoted(w: Stmt, body: seq<Stmt>, args: set<Name>, inLoop: bool) {
    && w.While? && SameCode(w.body, body) && (IsInnerLoop(w, inLoop) ==> BREAK in w.output)
    && NoDup(w.loopArgs) && Names(w.loopArgs) == args && Names(w.input) == Reads(body) && CONTINUE !in args
    && Reads(body) <= args && args <= Reads(body) + Writes(body) && (BREAK in args <==> HasBreak(body))
    && (RETURN in Exits(body) ==> RETURN in args && RETURN in w.output) && (RETVAL in Assigned(body) ==> RETVAL in args)
  }

  lemma LoopWellNoted(s: Stmt, list: Listing, known: set<Name>, more: set<Name>, inLoop: bool, isVoid: bool)
    requires Lists(list) && s.While? && Shaped(s.body, true, isVoid) && CONTINUE !in more && Reads(s.body) <= known
    ensures WellNoted(AnnotateOne(s, list, known, more, inLoop), s.body, ArgNames(s.body, LoopReads(s, more, inLoop)),
      inLoop)
  {
    hide SameCode, Outputs, LoopArgs, Annotate, AnnotateOne, Shaped, NoDup, Reads, Writes, Exits, Assigned, HasBreak;
    hide ReadsOf, GoesOn, Names, LoopReads;
    var w, args := AnnotateOne(s, list, known, more, inLoop), ArgNames(s.body, LoopReads(s, more, inLoop));
    OneKeeps(s, list, known, more, inLoop);
    LoopNoted(s, list, known, more, inLoop, isVoid);
    BreakIsSet(s.body, true, isVoid);
    ShapedNames(s.body, true, isVoid);
    SameBreak(w.body, s.body);
    FlagsAreArgs(s.body, LoopReads(s, more, inLoop));
    InNames(w.output, BREAK);
  }

  lemma InNames(xs: seq<Name>, x: Name)
    ensures x in xs <==> x in Names(xs)
  {
  }

  lemma FlagsAreArgs(body: seq<Stmt>, afterReads: set<Name>)
    ensures var args := ArgNames(body, afterReads);
      && Reads(body) <= args <= Reads(body) + Writes(body) && Exits(body) <= Writes(body)
      && (forall x :: x in {BREAK, RETVAL, RETURN} && x in Writes(body) ==> x in args)
      && (RETVAL in Assigned(body) ==> RETVAL in args)
  {
    WritesAre(body);
    hide Writes, Reads, Exits, Assigned;
  }

  lemma SameBreak(r: seq<Stmt>, l: seq<Stmt>)
    requires SameCode(r, l)
    ensures HasBreak(r) == HasBreak(l) && Exits(r) == Exits(l) && Assigned(r) == Assigned(l)
  {
  }

  lemma LoopLive(w: Stmt, r: seq<Stmt>, body: seq<Stmt>, args: set<Name>, inLoop: bool, pending: bool, isVoid: bool,
                 needs: Needs)
    requires r != [] && r[0] == w && WellNoted(w, body, args, inLoop) && Shaped(body, true, isVoid)
      && PlainNeeds(needs, isVoid)
    requires AllPlain(LiveAfter(r, inLoop, pending, needs)) && Assigned(body) * LiveAfter(r, inLoop, pending,
      needs) <= args
    ensures Live(r, inLoop, pending, needs) == Reads(body) + (LiveAfter(r, inLoop, pending, needs) - Assigned(body))
  {
    var live := LiveAfter(r, inLoop, pending, needs);
    SameBreak(w.body, body);
    ReturnsSet(body, true, isVoid);
    WritesAre(body);
    hide Names, Assigned, Exits, Reads, Shaped, NoDup, SameCode, Writes, LiveAfter, HasBreak;
    var ret := if RETURN in Exits(body) then needs.ret else {};
    assert Live(r, inLoop, pending, needs) == Reads(body) + (live + ret - args);
    assert ret <= args;
    forall x | x in live && x in args && x !in Assigned(body) ensures x in Reads(body) {
      assert Plain(x);
    }
  }

  lemma LoopIsCoveredIff(w: Stmt, r: seq<Stmt>, body: seq<Stmt>, args: set<Name>, inLoop: bool, pending: bool,
                         isVoid: bool, needs: Needs)
    requires r != [] && r[0] == w && WellNoted(w, body, args, inLoop) && Shaped(body, true, isVoid)
      && PlainNeeds(needs, isVoid)
    requires FlagFree(Assigned(r))
    ensures var live := LiveAfter(r, inLoop, pending, needs);
      var round := RoundNeeds(body, args, live, needs);
      Covered(r, inLoop, pending, needs) <==>
        && RestCovered(r, inLoop, pending, needs)
        && Covered(w.body, true, false, round) && Live(w.body, true, false, round) <= Reads(body)
        && Assigned(body) * live <= args
  {
    var live := LiveAfter(r, inLoop, pending, needs);
    SameBreak(w.body, body);
    ShapedNames(body, true, isVoid);
    hide Assigned, Exits, Reads, Shaped, NoDup, SameCode, Writes, LiveAfter, HasBreak, GoesOn, Live;
    assert BodyNeeds(w, live, needs) == RoundNeeds(body, args, live, needs);
    assert Assigned(body) * (live + needs.ret) <= args <==> Assigned(body) * live <= args;
    assert FlagFree(Names(w.input));
    assert forall x :: x in w.loopArgs <==> x in args by {
      assert forall x :: x in w.loopArgs <==> x in Names(w.loopArgs);
    }
  }

  /** When an annotated loop is covered, if it finds set what its text reads first. */
  lemma LoopCoveredIff(l: seq<Stmt>, r: seq<Stmt>, list: Listing, known: set<Name>, after: set<Name>, inLoop: bool,
                       pending: bool, isVoid: bool, needs: Needs)
    requires Lists(list) && Shaped(l, inLoop, isVoid) && l != [] && l[0].While? && PlainNeeds(needs, isVoid)
    requires r == Annotate(l, list, known, after, inLoop) && AllPlain(LiveAfter(r, inLoop, pending, needs))
    requires CONTINUE !in after && Reads(l[0].body) <= known
    ensures r[0].While?
    ensures var live, more, body := LiveAfter(r, inLoop, pending, needs), AfterReads(l[1..], after), l[0].body;
      var args := ArgNames(body, LoopReads(l[0], more, inLoop));
      var round := RoundNeeds(body, args, live, needs);
      && r[0].body == Annotate(body, list, args, args, true)
      && (Assigned(body) * live <= args ==> Live(r, inLoop, pending, needs) == Reads(body) + (live - Assigned(body)))
      && (Covered(r, inLoop, pending, needs) <==>
            && RestCovered(r, inLoop, pending, needs)
            && Covered(r[0].body, true, false, round) && Live(r[0].body, true, false, round) <= Reads(body)
            && Assigned(body) * live <= args)
  {
    hide SameCode, Annotate, AnnotateOne, Live, LiveAfter, Reads, Writes, Assigned, GoesOn, WellNoted, Covered,
      RestCovered;
    var live, more, body := LiveAfter(r, inLoop, pending, needs), AfterReads(l[1..], after), l[0].body;
    var args := ArgNames(body, LoopReads(l[0], more, inLoop));
    ShapedNames(l, inLoop, isVoid);
    ShapedNames(l[1..], inLoop, isVoid);
    AnnotateFirst(l, list, known, after, inLoop);
    AnnotateKeeps(l, list, known, after, inLoop);
    SameBreak(r, l);
    LoopNoted(l[0], list, known, more, inLoop, isVoid);
    LoopWellNoted(l[0], list, known, more, inLoop, isVoid);
    LoopIsCoveredIff(r[0], r, body, args, inLoop, pending, isVoid, needs);
    if Assigned(body) * live <= args {
      LoopLive(r[0], r, body, args, inLoop, pending, isVoid, needs);
    }
  }

  // ---------- the lists are right exactly for code that the text tells about

  /** A list where it stands. */
  ghost predicate Placed(l: seq<Stmt>, list: Listing, known: set<Name>, after: set<Name>, inLoop: bool, isVoid: bool,
                         needs: Needs) {
    && Lists(list) && Shaped(l, inLoop, isVoid) && PlainNeeds(needs, isVoid) && CONTINUE !in after
    && BreakKnown(l, known, inLoop)
  }

  lemma PlacedNext(l: seq<Stmt>, list: Listing, known: set<Name>, after: set<Name>, inLoop: bool, pending: bool,
                   isVoid: bool, needs: Needs)
    requires Placed(l, list, known, after, inLoop, isVoid, needs) && l != []
    ensures Placed(l[1..], list, known + WritesOf(l[0]), after, inLoop, isVoid, NeedsAfter(l[0], inLoop, needs))
    ensures AllPlain(ReadAfter(l, inLoop, pending, needs))
    ensures var more, sub := AfterReads(l[1..], after), BranchNeeds(l[0], pending,
      ReadAfter(l, inLoop, pending, needs), needs);
      l[0].Branch? ==>
        && Placed(l[0].thn, list, known, more, inLoop, isVoid, sub)
        && Placed(l[0].els, list, known, more, inLoop, isVoid, sub)
    ensures var more := AfterReads(l[1..], after);
      l[0].While? ==>
        var body := l[0].body;
        var args := ArgNames(body, LoopReads(l[0], more, inLoop));
        Placed(body, list, args, args, true, isVoid, RoundNeeds(body, args, ReadAfter(l, inLoop, pending, needs),
          needs))
  {
    hide Reads, Writes, ReadsOf, MayRead;
    assert Writes(l) == WritesOf(l[0]) + Writes(l[1..]) by {
      WritesSplit(l);
    }
    ShapedNames(l[1..], inLoop, isVoid);
    MayReadPlain(l, inLoop, pending, isVoid, needs);
    if l[0].While? {
      ShapedNames(l[0].body, true, isVoid);
    }
  }

  lemma WritesSplit(l: seq<Stmt>)
    requires l != []
    ensures Writes(l) == WritesOf(l[0]) + Writes(l[1..])
  {
  }

  /** Told by the text, the lists cover what is read later, and what is live is what may be read. */
  lemma {:induction false} ToldCovers(l: seq<Stmt>, list: Listing, known: set<Name>, after: set<Name>, inLoop: bool,
                                      pending: bool, isVoid: bool, needs: Needs)
    requires Placed(l, list, known, after, inLoop, isVoid, needs)
    requires Told(l, after, inLoop, pending, needs) && MayRead(l, inLoop, pending, needs) <= known
    ensures var r := Annotate(l, list, known, after, inLoop);
      Covered(r, inLoop, pending, needs) && Live(r, inLoop, pending, needs) == MayRead(l, inLoop, pending, needs)
    decreases l, 1
  {
    if l != [] {
      hide Placed;
      PlacedNext(l, list, known, after, inLoop, pending, isVoid, needs);
      KnownNext(l, inLoop, pending, needs);
      if GoesOn(l[0], inLoop, pending) {
        ToldCovers(l[1..], list, known + WritesOf(l[0]), after, inLoop, PendingAfter(l[0], inLoop, pending), isVoid,
          NeedsAfter(l[0], inLoop, needs));
      }
      SameLiveAfter(l, list, known, after, inLoop, pending, needs);
      if l[0].Branch? {
        ToldCoversBranch(l, list, known, after, inLoop, pending, isVoid, needs);
      } else if l[0].While? {
        ToldCoversLoop(l, list, known, after, inLoop, pending, isVoid, needs);
      } else {
        LeafCoveredIff(l, list, known, after, inLoop, pending, isVoid, needs);
      }
    }
  }

  /** What is live after the first statement, and what is covered after it. */
  lemma SameLiveAfter(l: seq<Stmt>, list: Listing, known: set<Name>, after: set<Name>, inLoop: bool, pending: bool,
                      needs: Needs)
    requires l != []
    requires var r := Annotate(l, list, known, after, inLoop);
      var pending', needs' := PendingAfter(l[0], inLoop, pending), NeedsAfter(l[0], inLoop, needs);
      GoesOn(l[0], inLoop, pending) ==>
        Live(r[1..], inLoop, pending', needs') == MayRead(l[1..], inLoop, pending', needs')
    ensures var r := Annotate(l, list, known, after, inLoop);
      && LiveAfter(r, inLoop, pending, needs) == ReadAfter(l, inLoop, pending, needs)
      && (RestCovered(r, inLoop, pending, needs) <==>
            (GoesOn(l[0], inLoop, pending) ==>
               Covered(Annotate(l[1..], list, known + WritesOf(l[0]), after, inLoop), inLoop,
                 PendingAfter(l[0], inLoop, pending), NeedsAfter(l[0], inLoop, needs))))
  {
    hide Live, MayRead, GoesOn, AnnotateOne, Covered;
    AnnotateFirst(l, list, known, after, inLoop);
    OneKeeps(l[0], list, known, AfterReads(l[1..], after), inLoop);
  }

  lemma LeafCoveredIff(l: seq<Stmt>, list: Listing, known: set<Name>, after: set<Name>, inLoop: bool, pending: bool,
                       isVoid: bool, needs: Needs)
    requires Shaped(l, inLoop, isVoid) && l != [] && !l[0].Branch? && !l[0].While?
    requires LiveAfter(Annotate(l, list, known, after, inLoop), inLoop, pending, needs) ==
      ReadAfter(l, inLoop, pending, needs)
    ensures var r := Annotate(l, list, known, after, inLoop);
      && (Covered(r, inLoop, pending, needs) <==> RestCovered(r, inLoop, pending, needs))
      && Live(r, inLoop, pending, needs) == MayRead(l, inLoop, pending, needs)
  {
    AnnotateFirst(l, list, known, after, inLoop);
    AnnotateKeeps(l, list, known, after, inLoop);
    ShapedNames(l, inLoop, isVoid);
    hide Annotate, LiveAfter, ReadAfter;
  }

  lemma LiveBranch(r: seq<Stmt>, inLoop: bool, pending: bool, needs: Needs)
    requires r != [] && r[0].Branch?
    ensures var hands := pending && Hands(r[0]);
      var sub := BranchNeeds(r[0], pending, LiveAfter(r, inLoop, pending, needs), needs);
      Live(r, inLoop, pending, needs) ==
        Vars(r[0].cond) + Live(r[0].thn, inLoop, hands, sub) + Live(r[0].els, inLoop, hands, sub)
  {
  }

  lemma ReadBranch(l: seq<Stmt>, inLoop: bool, pending: bool, needs: Needs)
    requires l != [] && l[0].Branch?
    ensures var hands := pending && Hands(l[0]);
      var sub := BranchNeeds(l[0], pending, ReadAfter(l, inLoop, pending, needs), needs);
      MayRead(l, inLoop, pending, needs) ==
        Vars(l[0].cond) + MayRead(l[0].thn, inLoop, hands, sub) + MayRead(l[0].els, inLoop, hands, sub)
  {
  }

  lemma {:induction false} ToldCoversBranch(l: seq<Stmt>, list: Listing, known: set<Name>, after: set<Name>,
                                            inLoop: bool, pending: bool, isVoid: bool, needs: Needs)
    requires Placed(l, list, known, after, inLoop, isVoid, needs) && l != [] && l[0].Branch?
    requires Told(l, after, inLoop, pending, needs) && MayRead(l, inLoop, pending, needs) <= known
    requires var r := Annotate(l, list, known, after, inLoop);
      && LiveAfter(r, inLoop, pending, needs) == ReadAfter(l, inLoop, pending, needs)
      && AllPlain(ReadAfter(l, inLoop, pending, needs)) && RestCovered(r, inLoop, pending, needs)
    ensures var r := Annotate(l, list, known, after, inLoop);
      Covered(r, inLoop, pending, needs) && Live(r, inLoop, pending, needs) == MayRead(l, inLoop, pending, needs)
    decreases l, 0
  {
    hide Annotate, Covered, Live, LiveAfter, MayRead, ReadAfter, GoesOn, Outputs, Assigned, Names, Reads, Writes,
      WritesOf, Vars, RestCovered, Hands;
    PlacedNext(l, list, known, after, inLoop, pending, isVoid, needs);
    var r, more, s := Annotate(l, list, known, after, inLoop), AfterReads(l[1..], after), l[0];
    var sub, hands := BranchNeeds(s, pending, ReadAfter(l, inLoop, pending, needs), needs), pending && Hands(s);
    ReadBranch(l, inLoop, pending, needs);
    ToldCovers(s.thn, list, known, more, inLoop, hands, isVoid, sub);
    ToldCovers(s.els, list, known, more, inLoop, hands, isVoid, sub);
    BranchCoveredIff(l, r, list, known, after, inLoop, pending, isVoid, needs);
    LiveBranch(r, inLoop, pending, needs);
  }

  lemma {:induction false} ToldCoversLoop(l: seq<Stmt>, list: Listing, known: set<Name>, after: set<Name>,
                                          inLoop: bool, pending: bool, isVoid: bool, needs: Needs)
    requires Placed(l, list, known, after, inLoop, isVoid, needs) && l != [] && l[0].While?
    requires Told(l, after, inLoop, pending, needs) && MayRead(l, inLoop, pending, needs) <= known
    requires var r := Annotate(l, list, known, after, inLoop);
      && LiveAfter(r, inLoop, pending, needs) == ReadAfter(l, inLoop, pending, needs)
      && AllPlain(ReadAfter(l, inLoop, pending, needs)) && RestCovered(r, inLoop, pending, needs)
    ensures var r := Annotate(l, list, known, after, inLoop);
      Covered(r, inLoop, pending, needs) && Live(r, inLoop, pending, needs) == MayRead(l, inLoop, pending, needs)
    decreases l, 0
  {
    hide Annotate, Covered, Live, LiveAfter, MayRead, ReadAfter, GoesOn, Assigned, Reads, Writes, WritesOf, RestCovered;
    PlacedNext(l, list, known, after, inLoop, pending, isVoid, needs);
    var r, more, body := Annotate(l, list, known, after, inLoop), AfterReads(l[1..], after), l[0].body;
    ReadLoop(l, inLoop, pending, needs);
    var args := ArgNames(body, LoopReads(l[0], more, inLoop));
    ToldCovers(body, list, args, args, true, false, isVoid,
      RoundNeeds(body, args, ReadAfter(l, inLoop, pending, needs), needs));
    LoopCoveredIff(l, r, list, known, after, inLoop, pending, isVoid, needs);
  }

  lemma ReadLoop(l: seq<Stmt>, inLoop: bool, pending: bool, needs: Needs)
    requires l != [] && l[0].While?
    ensures MayRead(l, inLoop, pending, needs) ==
      Reads(l[0].body) + (ReadAfter(l, inLoop, pending, needs) - Assigned(l[0].body))
  {
  }

  /** The other way round: lists that cover what is read later show that the text tells it. */
  lemma {:induction false} CoversIsTold(l: seq<Stmt>, list: Listing, known: set<Name>, after: set<Name>, inLoop: bool,
                                        pending: bool, isVoid: bool, needs: Needs)
    requires Placed(l, list, known, after, inLoop, isVoid, needs)
    requires Ready(l, known, after, inLoop) && (!inLoop ==> MayRead(l, inLoop, pending, needs) <= known)
    requires Covered(Annotate(l, list, known, after, inLoop), inLoop, pending, needs)
    ensures Told(l, after, inLoop, pending, needs)
    ensures Live(Annotate(l, list, known, after, inLoop), inLoop, pending, needs) == MayRead(l, inLoop, pending, needs)
    decreases l, 1
  {
    if l != [] {
      hide Placed;
      var r := Annotate(l, list, known, after, inLoop);
      PlacedNext(l, list, known, after, inLoop, pending, isVoid, needs);
      AnnotateFirst(l, list, known, after, inLoop);
      OneKeeps(l[0], list, known, AfterReads(l[1..], after), inLoop);
      KnownNext(l, inLoop, pending, needs);
      if GoesOn(l[0], inLoop, pending) {
        CoversIsTold(l[1..], list, known + WritesOf(l[0]), after, inLoop, PendingAfter(l[0], inLoop, pending), isVoid,
          NeedsAfter(l[0], inLoop, needs));
      }
      SameLiveAfter(l, list, known, after, inLoop, pending, needs);
      if l[0].Branch? {
        CoversIsToldBranch(l, list, known, after, inLoop, pending, isVoid, needs);
      } else if l[0].While? {
        CoversIsToldLoop(l, list, known, after, inLoop, pending, isVoid, needs);
      } else {
        LeafCoveredIff(l, list, known, after, inLoop, pending, isVoid, needs);
      }
    }
  }

  /** The text tells what the code after the first statement reads. */
  predicate RestTold(l: seq<Stmt>, after: set<Name>, inLoop: bool, pending: bool, needs: Needs)
    requires l != []
  {
    GoesOn(l[0], inLoop, pending) ==>
      Told(l[1..], after, inLoop, PendingAfter(l[0], inLoop, pending), NeedsAfter(l[0], inLoop, needs))
  }

  lemma {:induction false} CoversIsToldBranch(l: seq<Stmt>, list: Listing, known: set<Name>, after: set<Name>,
                                              inLoop: bool, pending: bool, isVoid: bool, needs: Needs)
    requires Placed(l, list, known, after, inLoop, isVoid, needs) && l != [] && l[0].Branch?
    requires Ready(l, known, after, inLoop) && (!inLoop ==> MayRead(l, inLoop, pending, needs) <= known)
    requires var r := Annotate(l, list, known, after, inLoop);
      && Covered(r, inLoop, pending, needs) && RestTold(l, after, inLoop, pending, needs)
      && LiveAfter(r, inLoop, pending, needs) == ReadAfter(l, inLoop, pending, needs)
      && AllPlain(ReadAfter(l, inLoop, pending, needs))
    ensures Told(l, after, inLoop, pending, needs)
    ensures Live(Annotate(l, list, known, after, inLoop), inLoop, pending, needs) == MayRead(l, inLoop, pending, needs)
    decreases l, 0
  {
    hide Annotate, Covered, Live, LiveAfter, MayRead, ReadAfter, GoesOn, Outputs, Assigned, Names, Reads, Writes,
      WritesOf, Vars, RestCovered, Hands;
    PlacedNext(l, list, known, after, inLoop, pending, isVoid, needs);
    var r, more, s := Annotate(l, list, known, after, inLoop), AfterReads(l[1..], after), l[0];
    var sub, hands := BranchNeeds(s, pending, ReadAfter(l, inLoop, pending, needs), needs), pending && Hands(s);
    ReadBranch(l, inLoop, pending, needs);
    BranchCoveredIff(l, r, list, known, after, inLoop, pending, isVoid, needs);
    CoversIsTold(s.thn, list, known, more, inLoop, hands, isVoid, sub);
    CoversIsTold(s.els, list, known, more, inLoop, hands, isVoid, sub);
    LiveBranch(r, inLoop, pending, needs);
  }

  lemma {:induction false} CoversIsToldLoop(l: seq<Stmt>, list: Listing, known: set<Name>, after: set<Name>,
                                            inLoop: bool, pending: bool, isVoid: bool, needs: Needs)
    requires Placed(l, list, known, after, inLoop, isVoid, needs) && l != [] && l[0].While?
    requires Ready(l, known, after, inLoop) && (!inLoop ==> MayRead(l, inLoop, pending, needs) <= known)
    requires var r := Annotate(l, list, known, after, inLoop);
      && Covered(r, inLoop, pending, needs) && RestTold(l, after, inLoop, pending, needs)
      && LiveAfter(r, inLoop, pending, needs) == ReadAfter(l, inLoop, pending, needs)
      && AllPlain(ReadAfter(l, inLoop, pending, needs))
    ensures Told(l, after, inLoop, pending, needs)
    ensures Live(Annotate(l, list, known, after, inLoop), inLoop, pending, needs) == MayRead(l, inLoop, pending, needs)
    decreases l, 0
  {
    hide Annotate, Covered, Live, LiveAfter, MayRead, ReadAfter, GoesOn, Assigned, Reads, Writes, WritesOf, RestCovered;
    PlacedNext(l, list, known, after, inLoop, pending, isVoid, needs);
    var r, more, body := Annotate(l, list, known, after, inLoop), AfterReads(l[1..], after), l[0].body;
    ReadLoop(l, inLoop, pending, needs);
    var args := ArgNames(body, LoopReads(l[0], more, inLoop));
    LoopCoveredIff(l, r, list, known, after, inLoop, pending, isVoid, needs);
    CoversIsTold(body, list, args, args, true, false, isVoid,
      RoundNeeds(body, args, ReadAfter(l, inLoop, pending, needs), needs));
  }

  /** For code in which nothing is read that has not been set: the lists noted cover what is read later if and only
      if the text tells what is read. */
  lemma {:induction false} AnnotateCoversIff(l: seq<Stmt>, list: Listing, known: set<Name>, after: set<Name>,
                                             inLoop: bool, pending: bool, isVoid: bool, needs: Needs)
    requires Placed(l, list, known, after, inLoop, isVoid, needs)
    requires Ready(l, known, after, inLoop) && MayRead(l, inLoop, pending, needs) <= known
    ensures Covered(Annotate(l, list, known, after, inLoop), inLoop, pending, needs) <==>
      Told(l, after, inLoop, pending, needs)
  {
    hide Placed, Annotate, Covered, Told, Ready, MayRead;
    if Told(l, after, inLoop, pending, needs) {
      ToldCovers(l, list, known, after, inLoop, pending, isVoid, needs);
    }
    if Covered(Annotate(l, list, known, after, inLoop), inLoop, pending, needs) {
      CoversIsTold(l, list, known, after, inLoop, pending, isVoid, needs);
    }
  }

  // ---------- a test that looks at the text only

  /** A name set in an `if` or a loop and set again later is read before that; what a loop sets is read first in its
      text if a round may read it first, or if the loop may leave the round it stands in and the text after it reads
      it. */
  predicate Tidy(l: seq<Stmt>, after: set<Name>, inLoop: bool, pending: bool, needs: Needs) {
    l != [] ==>
      var live, more := ReadAfter(l, inLoop, pending, needs), AfterReads(l[1..], after);
      && Tidy(l[1..], after, inLoop, PendingAfter(l[0], inLoop, pending), NeedsAfter(l[0], inLoop, needs))
      && match l[0]
        case Branch(_, thn, els, _, _) =>
          var sub, hands := BranchNeeds(l[0], pending, live, needs), pending && Hands(l[0]);
          && (Assigned(thn) + Assigned(els)) * Assigned(l[1..]) - {RETVAL} <= Reads(l[1..])
          && Tidy(thn, more, inLoop, hands, sub) && Tidy(els, more, inLoop, hands, sub)
        case While(_, body, _, _, _) =>
          var args := ArgNames(body, LoopReads(l[0], more, inLoop));
          var round := RoundNeeds(body, args, live, needs);
          && Assigned(body) * Assigned(l[1..]) - {RETVAL} <= Reads(l[1..])
          && (LeavesRound(WritesOf(l[0]), inLoop) ==> Assigned(body) * more - {RETVAL} <= Reads(body))
          && Assigned(body) * MayRead(body, true, false, round) <= Reads(body) && Tidy(body, args, true, false, round)
        case _ => true
  }

  /** A name that may be read and is not set is read in the text, or needed afterwards. */
  lemma {:induction false} LiveIsRead(l: seq<Stmt>, inLoop: bool, pending: bool, isVoid: bool, needs: Needs, x: Name)
    requires Shaped(l, inLoop, isVoid) && needs.ret <= {RETVAL} && Plain(x)
    requires x in MayRead(l, inLoop, pending, needs) && x !in Assigned(l)
    ensures x in Reads(l) + needs.fall + needs.brk + needs.cont
  {
    if l != [] {
      WritesAre(l);
      WritesAre([l[0]]);
      assert [l[0]][1..] == [];
      var pending', needs' := PendingAfter(l[0], inLoop, pending), NeedsAfter(l[0], inLoop, needs);
      if GoesOn(l[0], inLoop, pending) && x in MayRead(l[1..], inLoop, pending', needs') {
        LiveIsRead(l[1..], inLoop, pending', isVoid, needs', x);
      }
      if l[0].Branch? {
        var sub, hands := BranchNeeds(l[0], pending, ReadAfter(l, inLoop, pending, needs), needs), pending
          && Hands(l[0]);
        WritesAre(l[0].thn);
        if x in MayRead(l[0].thn, inLoop, hands, sub) {
          LiveIsRead(l[0].thn, inLoop, hands, isVoid, sub, x);
        } else if x in MayRead(l[0].els, inLoop, hands, sub) {
          LiveIsRead(l[0].els, inLoop, hands, isVoid, sub, x);
        }
      }
    }
  }

  /** What is needed after a list that sets it is read in the text after it. */
  predicate Handed(names: set<Name>, needs: Needs, after: set<Name>) {
    names * (needs.fall + needs.brk + needs.cont) <= after
  }

  /** What a compound statement sets and a run reads later is read in the text of the rest or after it. */
  lemma {:induction false} Carried(l: seq<Stmt>, names: set<Name>, after: set<Name>, inLoop: bool, pending: bool,
                                   isVoid: bool, needs: Needs)
    requires l != [] && Shaped(l[1..], inLoop, isVoid) && PlainNeeds(needs, isVoid)
    requires Handed(names, needs, after) && names * Assigned(l[1..]) - {RETVAL} <= Reads(l[1..])
    ensures names * (ReadAfter(l, inLoop, pending, needs) + needs.fall + needs.brk + needs.cont) <=
      AfterReads(l[1..], after)
  {
    var rest, pending', needs' := l[1..], PendingAfter(l[0], inLoop, pending), NeedsAfter(l[0], inLoop, needs);
    WritesAre(rest);
    MayReadPlain(rest, inLoop, pending', isVoid, needs');
    hide MayRead, Reads, Writes, Assigned, Shaped, GoesOn;
    forall x | x in names * (ReadAfter(l, inLoop, pending, needs) + needs.fall + needs.brk + needs.cont)
      ensures x in AfterReads(rest, after) {
      assert Plain(x);
      if x !in Assigned(rest) && x in ReadAfter(l, inLoop, pending, needs) {
        LiveIsRead(rest, inLoop, pending', isVoid, needs', x);
      }
    }
  }

  lemma {:induction false} TidyIsTold(l: seq<Stmt>, after: set<Name>, inLoop: bool, pending: bool, isVoid: bool,
                                      needs: Needs)
    requires Shaped(l, inLoop, isVoid) && PlainNeeds(needs, isVoid) && Tidy(l, after, inLoop, pending, needs)
    requires Handed(Assigned(l), needs, after)
    ensures Told(l, after, inLoop, pending, needs)
    decreases l, 1
  {
    if l != [] {
      var pending', needs' := PendingAfter(l[0], inLoop, pending), NeedsAfter(l[0], inLoop, needs);
      TidyIsTold(l[1..], after, inLoop, pending', isVoid, needs');
      match l[0]
      case Branch(_, thn, els, _, _) =>
        var more, live := AfterReads(l[1..], after), ReadAfter(l, inLoop, pending, needs);
        var sub, hands := BranchNeeds(l[0], pending, live, needs), pending && Hands(l[0]);
        MayReadPlain(l, inLoop, pending, isVoid, needs);
        Carried(l, Assigned(thn) + Assigned(els), after, inLoop, pending, isVoid, needs);
        hide MayRead, Reads, Writes, WritesOf, GoesOn, Hands;
        TidyIsTold(thn, more, inLoop, hands, isVoid, sub);
        TidyIsTold(els, more, inLoop, hands, isVoid, sub);
      case While(_, _, _, _, _) => TidyLoop(l, after, inLoop, pending, isVoid, needs);
      case _ =>
    }
  }

  lemma {:induction false} TidyLoop(l: seq<Stmt>, after: set<Name>, inLoop: bool, pending: bool, isVoid: bool,
                                    needs: Needs)
    requires Shaped(l, inLoop, isVoid) && PlainNeeds(needs, isVoid) && Tidy(l, after, inLoop, pending, needs)
    requires Handed(Assigned(l), needs, after) && l != [] && l[0].While? && RestTold(l, after, inLoop, pending, needs)
    ensures Told(l, after, inLoop, pending, needs)
    decreases l, 0
  {
    var more, live, body := AfterReads(l[1..], after), ReadAfter(l, inLoop, pending, needs), l[0].body;
    var args := ArgNames(body, LoopReads(l[0], more, inLoop));
    var round := RoundNeeds(body, args, live, needs);
    MayReadPlain(l, inLoop, pending, isVoid, needs);
    WritesAre(body);
    assert Handed(Assigned(body), needs, after);
    Carried(l, Assigned(body), after, inLoop, pending, isVoid, needs);
    RoundReads(body, args, LoopReads(l[0], more, inLoop), isVoid, live, needs);
    hide MayRead, Reads, Assigned, Shaped, ReadAfter, GoesOn, AfterReads, Writes;
    TidyIsTold(body, args, true, false, isVoid, round);
    assert Assigned(body) * live <= args;
  }

  /** What no round sets is read first in the text of the loop, if a round may read it. */
  lemma {:induction false} RoundReads(body: seq<Stmt>, args: set<Name>, afterReads: set<Name>, isVoid: bool,
                                      live: set<Name>, needs: Needs)
    requires Shaped(body, true, isVoid) && PlainNeeds(needs, isVoid) && AllPlain(live)
      && args == ArgNames(body, afterReads)
    ensures PlainNeeds(RoundNeeds(body, args, live, needs), isVoid)
    ensures MayRead(body, true, false, RoundNeeds(body, args, live, needs)) <= Reads(body) + Assigned(body)
  {
    var round := RoundNeeds(body, args, live, needs);
    ShapedNames(body, true, isVoid);
    WritesAre(body);
    MayReadPlain(body, true, false, isVoid, round);
    hide MayRead, Reads, Writes, Assigned, Shaped;
    forall x | x in MayRead(body, true, false, round) ensures x in Reads(body) + Assigned(body) {
      assert Plain(x);
      if x !in Assigned(body) {
        LiveIsRead(body, true, false, isVoid, round, x);
      }
    }
  }

  // ---------- whole functions

  lemma {:induction false} AnnotateNoInnerLoop(l: seq<Stmt>, list: Listing, known: set<Name>, after: set<Name>,
                                               here: bool, inLoop: bool)
    requires NoInnerLoop(l, inLoop)
    ensures NoInnerLoop(Annotate(l, list, known, after, here), inLoop)
  {
    if l != [] {
      var more := AfterReads(l[1..], after);
      AnnotateFirst(l, list, known, after, here);
      AnnotateNoInnerLoop(l[1..], list, known + WritesOf(l[0]), after, here, inLoop);
      OneKeeps(l[0], list, known, more, here);
      match l[0]
      case Branch(_, thn, els, _, _) =>
        AnnotateNoInnerLoop(thn, list, known, more, here, inLoop);
        AnnotateNoInnerLoop(els, list, known, more, here, inLoop);
      case While(_, body, _, _, _) =>
        var args := LoopArgs(list, body, LoopReads(l[0], more, here));
        AnnotateNoInnerLoop(body, list, Names(args), Names(args), true, true);
      case _ =>
    }
  }

  /** Annotating keeps how deep loops with `break`s stand in each other. */
  lemma {:induction false} AnnotateTwoDeep(l: seq<Stmt>, list: Listing, known: set<Name>, after: set<Name>,
                                           inLoop: bool)
    requires TwoDeep(l)
    ensures TwoDeep(Annotate(l, list, known, after, inLoop))
  {
    if l != [] {
      var more := AfterReads(l[1..], after);
      AnnotateFirst(l, list, known, after, inLoop);
      AnnotateTwoDeep(l[1..], list, known + WritesOf(l[0]), after, inLoop);
      match l[0]
      case Branch(_, thn, els, _, _) =>
        AnnotateTwoDeep(thn, list, known, more, inLoop);
        AnnotateTwoDeep(els, list, known, more, inLoop);
      case While(_, body, _, _, _) =>
        var args := LoopArgs(list, body, LoopReads(l[0], more, inLoop));
        AnnotateNoInnerLoop(body, list, Names(args), Names(args), true, true);
      case _ =>
    }
  }

  /** `ir_to_spec` for code of which the text tells what runs read: analysed and translated, it returns what the run
      that the term makes returns. */
  lemma {:induction false} AnalysedFunctionCorrect(m: Model, list: Listing, body: seq<Stmt>, params: set<Name>,
                                                   isVoid: bool, args: Env, st: RData)
    requires Lists(list) && Shaped(body, false, isVoid) && FlagsClear(args, false)
    requires var needs := Needs({}, {}, {}, if isVoid then {} else {RETVAL});
      Told(body, {}, false, false, needs) && MayRead(body, false, false, needs) <= params
    ensures var noted := Annotate(body, list, params, {}, false);
      && Covered(noted, false, false, Needs({}, {}, {}, if isVoid then {} else {RETVAL}))
      && Gives(Eval(m, Translate(noted, Outs(isVoid), false), args, st), TermRun(m, noted, false, false, args, st),
         isVoid)
  {
    hide Translate, Eval, TermRun, Annotate, Covered, Told, MayRead, Shaped;
    var needs := Needs({}, {}, {}, if isVoid then {} else {RETVAL});
    ToldCovers(body, list, params, {}, false, false, isVoid, needs);
    FunctionCorrect(m, Annotate(body, list, params, {}, false), isVoid, args, st);
  }

  /** So it returns what it returns when run, as long as no loop within a loop with a `break` in it is met. */
  lemma {:induction false} AnalysedFunctionRuns(m: Model, list: Listing, body: seq<Stmt>, params: set<Name>,
                                                isVoid: bool, args: Env, st: RData)
    requires Lists(list) && Shaped(body, false, isVoid) && FlagsClear(args, false)
    requires var needs := Needs({}, {}, {}, if isVoid then {} else {RETVAL});
      Told(body, {}, false, false, needs) && MayRead(body, false, false, needs) <= params
    requires !Meets(m, Annotate(body, list, params, {}, false), false, args, st)
    ensures var noted := Annotate(body, list, params, {}, false);
      Gives(Eval(m, Translate(noted, Outs(isVoid), false), args, st), Run(m, noted, args, st), isVoid)
  {
    hide Translate, Eval, Run, TermRun, Annotate, Covered, Told, MayRead, Meets, Shaped;
    AnalysedFunctionCorrect(m, list, body, params, isVoid, args, st);
    NotMetSame(m, Annotate(body, list, params, {}, false), false, args, st);
  }

  /** And if one is met, it returns that if and only if the run that the term makes has the same outcome. */
  lemma {:induction false} AnalysedFunctionRightIff(m: Model, list: Listing, body: seq<Stmt>, params: set<Name>,
                                                    isVoid: bool, args: Env, st: RData)
    requires Lists(list) && Shaped(body, false, isVoid) && FlagsClear(args, false)
    requires var needs := Needs({}, {}, {}, if isVoid then {} else {RETVAL});
      Told(body, {}, false, false, needs) && MayRead(body, false, false, needs) <= params
    requires var noted := Annotate(body, list, params, {}, false);
      HasOutcome(TermRun(m, noted, false, false, args, st), isVoid) && HasOutcome(Run(m, noted, args, st), isVoid)
    ensures var noted := Annotate(body, list, params, {}, false);
      Gives(Eval(m, Translate(noted, Outs(isVoid), false), args, st), Run(m, noted, args, st), isVoid) <==>
        SameOutcome(TermRun(m, noted, false, false, args, st), Run(m, noted, args, st), isVoid)
  {
    hide Translate, Eval, Run, TermRun, Annotate, Covered, Told, MayRead, Shaped;
    AnalysedFunctionCorrect(m, list, body, params, isVoid, args, st);
    FunctionRightIff(m, Annotate(body, list, params, {}, false), isVoid, args, st);
  }

  /** An analysed loop that is still running when its fuel is used up, wherever it stands: if its only statement sets
      nothing but the `continue` flag, or it is a loop within a loop with a `break` in it, there is no result; else the
      code after it runs on from where the rounds have got to. */
  lemma {:induction false} AnalysedStillRunning(m: Model, l: seq<Stmt>, list: Listing, known: set<Name>,
                                                after: set<Name>, inLoop: bool, pending: bool, isVoid: bool,
                                                needs: Needs, outs: seq<Name>, d: Env, t: Env, st: RData)
    requires Placed(l, list, known, after, inLoop, isVoid, needs) && l != [] && l[0].While?
    requires Told(l, after, inLoop, pending, needs) && MayRead(l, inLoop, pending, needs) <= known
    requires Agree(MayRead(l, inLoop, pending, needs), d, t) && (!inLoop ==> BREAK !in after)
    requires FlagsAre(t, inLoop, pending, Shown(Annotate(l, list, known, after, inLoop), outs))
    requires var w := AnnotateOne(l[0], list, known, AfterReads(l[1..], after), inLoop);
      var n := m.rank(w.id, GetAll(t, w.input)); n >= 0 && TermRounds(m, w.body, n, d, st).Running?
    ensures var noted := Annotate(l, list, known, after, inLoop);
      var w, r := noted[0], Eval(m, Translate(noted, outs, inLoop), t, st);
      && w == AnnotateOne(l[0], list, known, AfterReads(l[1..], after), inLoop)
      && var p := TermRounds(m, w.body, m.rank(w.id, GetAll(t, w.input)), d, st);
         if (|l[0].body| == 1 && WritesOf(l[0].body[0]) == {CONTINUE}) || IsInnerLoop(l[0], inLoop) then r == NoResult
         else exists t2 ::
           && FlagsAre(t2, inLoop, pending, Shown(noted[1..], outs))
           && r == Eval(m, Translate(noted[1..], outs, inLoop), t2, p.st)
           && Agree(Reads(l[0].body), p.env, t2)
  {
    hide Placed, Translate, Eval, Annotate, AnnotateOne, Told, MayRead, Live, LiveAfter, Covered, TermRounds, Shown,
      FlagsAre, Reads, Writes, Outputs, LoopArgs;
    var s, more, noted := l[0], AfterReads(l[1..], after), Annotate(l, list, known, after, inLoop);
    PlacedNeeds(l, list, known, after, inLoop, isVoid, needs);
    AnnotateFirst(l, list, known, after, inLoop);
    OneKeeps(s, list, known, more, inLoop);
    ToldCovers(l, list, known, after, inLoop, pending, isVoid, needs);
    var w := noted[0];
    StillRunning(m, noted, outs, inLoop, pending, needs, d, t, st);
    var args := Names(LoopArgs(list, s.body, LoopReads(s, more, inLoop)));
    ShapedNames(s.body, true, isVoid);
    OnlyContinuesIff(s.body, list, args, args);
    ForeverIff(w.body);
    NotedBreak(l, list, known, after, inLoop, isVoid);
    ReadLoop(l, inLoop, pending, needs);
    LoopIs(s, list, known, more, inLoop);
    assert Names(w.input) == Reads(s.body) by {
      assert Reads(s.body) <= known;
      assert known * Reads(s.body) == Reads(s.body);
    }
  }

  /** The break flag is among what an analysed loop hands on exactly if it stands in a loop and has a `break` in it. */
  lemma NotedBreak(l: seq<Stmt>, list: Listing, known: set<Name>, after: set<Name>, inLoop: bool, isVoid: bool)
    requires Lists(list) && Shaped(l, inLoop, isVoid) && l != [] && l[0].While? && (!inLoop ==> BREAK !in after)
    ensures var w := AnnotateOne(l[0], list, known, AfterReads(l[1..], after), inLoop);
      && w.While? && (BREAK in w.output <==> IsInnerLoop(l[0], inLoop))
      && (BREAK in w.output ==> BREAK in w.loopArgs)
  {
    var s, more := l[0], AfterReads(l[1..], after);
    BreakIsSet(s.body, true, isVoid);
    ShapedNames(l[1..], inLoop, isVoid);
    OutputsAre(list, WritesOf(s), more, inLoop);
    ArgsAre(list, s.body, LoopReads(s, more, inLoop));
    LoopIs(s, list, known, more, inLoop);
    hide Outputs, LoopArgs, Annotate, AnnotateOne, Reads, Writes, HasBreak;
    InNames(Outputs(list, WritesOf(s), more, inLoop), BREAK);
    InNames(LoopArgs(list, s.body, LoopReads(s, more, inLoop)), BREAK);
  }

  /** The loop that stands first, analysed, and what its recursive definition starts from. */
  ghost predicate Noted(w: Stmt, r: seq<Stmt>, m: Model, needs: Needs, d: Env, t: Env, st: RData) {
    && r != [] && r[0] == w && w.While?
    && var inner, args := BodyNeeds(w, LiveAfter(r, false, false, needs), needs),
       EvAll(m, LoopInit(w.loopArgs, w.input), t);
       LoopOk(w.body, w.loopArgs, inner) && FixState(Result(args, st), w.loopArgs, Running(d, st), inner)
  }

  lemma {:induction false} LoopIsNoted(m: Model, l: seq<Stmt>, list: Listing, known: set<Name>, after: set<Name>,
                                       isVoid: bool, needs: Needs, d: Env, t: Env, st: RData)
    requires Placed(l, list, known, after, false, isVoid, needs) && l != [] && l[0].While?
    requires Told(l, after, false, false, needs) && MayRead(l, false, false, needs) <= known
    requires Agree(MayRead(l, false, false, needs), d, t)
    ensures var r := Annotate(l, list, known, after, false);
      Noted(AnnotateOne(l[0], list, known, AfterReads(l[1..], after), false), r, m, needs, d, t, st)
  {
    hide Placed, Translate, Annotate, AnnotateOne, Told, MayRead, Live, FixState, LoopOk, LiveAfter, Covered, Fix,
      LoopInit,
      TermRounds;
    var r := Annotate(l, list, known, after, false);
    AnnotateFirst(l, list, known, after, false);
    ToldCovers(l, list, known, after, false, false, isVoid, needs);
    OneKeeps(l[0], list, known, AfterReads(l[1..], after), false);
    assert NeedsFlagFree(needs) by {
      PlacedNeeds(l, list, known, after, false, isVoid, needs);
    }
    LoopFix(m, r, false, false, needs, d, t, st, 0);
  }

  lemma PlacedNeeds(l: seq<Stmt>, list: Listing, known: set<Name>, after: set<Name>, inLoop: bool, isVoid: bool,
                    needs: Needs)
    requires Placed(l, list, known, after, inLoop, isVoid, needs)
    ensures NeedsFlagFree(needs) && Lists(list) && Shaped(l, inLoop, isVoid) && CONTINUE !in after
  {
  }

  /** A loop that is run out of any other, analysed: from the round in which it first enters a loop within it that
      has a `break`, wherever that stands, the term gives the same for all fuel.  So term and run take the same number
      of rounds if and only if the run leaves the outer loop in that very round. */
  lemma {:induction false} OuterLoopSameRounds(m: Model, l: seq<Stmt>, list: Listing, known: set<Name>,
                                               after: set<Name>, isVoid: bool, needs: Needs, k: nat, d: Env, t: Env,
                                               st: RData)
    requires Placed(l, list, known, after, false, isVoid, needs) && l != [] && l[0].While?
    requires Told(l, after, false, false, needs) && MayRead(l, false, false, needs) <= known
    requires Agree(MayRead(l, false, false, needs), d, t)
    requires FirstMeets(m, AnnotateOne(l[0], list, known, AfterReads(l[1..], after), false).body, k, d, st)
    ensures var w := AnnotateOne(l[0], list, known, AfterReads(l[1..], after), false);
      var args := EvAll(m, LoopInit(w.loopArgs, w.input), t);
      && TermTakes(m, w.body, w.loopArgs, k, args, st)
      && ((exists n: nat :: TermTakes(m, w.body, w.loopArgs, n, args, st) && RunTakes(m, w.body, n, d, st)) <==>
            Rounds(m, w.body, k, d, st).Ended?)
  {
    hide Placed, Translate, Annotate, AnnotateOne, Told, MayRead, FixState, FirstMeets, TermTakes, RunTakes, LoopOk,
      Rounds,
      LiveAfter, KeepsBreak;
    LoopIsNoted(m, l, list, known, after, isVoid, needs, d, t, st);
    var more, r := AfterReads(l[1..], after), Annotate(l, list, known, after, false);
    var w := AnnotateOne(l[0], list, known, more, false);
    var inner, args := BodyNeeds(w, LiveAfter(r, false, false, needs), needs),
      EvAll(m, LoopInit(w.loopArgs, w.input), t);
    FirstIsMet(m, w.body, k, d, st);
    NotedKeepsBreak(l, list, known, after, isVoid, needs);
    InnerLoopStops(m, w.body, w.loopArgs, inner, k, args, d, st);
    SameRoundsIff(m, w.body, w.loopArgs, inner, k, args, d, st);
  }

  lemma FirstIsMet(m: Model, body: seq<Stmt>, k: nat, d: Env, st: RData)
    requires FirstMeets(m, body, k, d, st)
    ensures HasBreak(body)
  {
    WithinHasBreak(m, body, k, d, st);
  }

  /** The lists of an outer loop with a `break` in it hand the flag on. */
  lemma NotedKeepsBreak(l: seq<Stmt>, list: Listing, known: set<Name>, after: set<Name>, isVoid: bool, needs: Needs)
    requires Placed(l, list, known, after, false, isVoid, needs) && l != [] && l[0].While?
    requires HasBreak(AnnotateOne(l[0], list, known, AfterReads(l[1..], after), false).body)
    ensures var w := AnnotateOne(l[0], list, known, AfterReads(l[1..], after), false);
      KeepsBreak(w.body, w.loopArgs)
  {
    hide Placed, Annotate, Writes, Reads, LoopArgs, KeepsBreak, Outputs;
    PlacedNeeds(l, list, known, after, false, isVoid, needs);
    var s, more := l[0], AfterReads(l[1..], after);
    var w, args := AnnotateOne(s, list, known, more, false), ArgNames(s.body, LoopReads(s, more, false));
    OneKeeps(s, list, known, more, false);
    SameBreak(w.body, s.body);
    BreakIsSet(s.body, true, isVoid);
    ArgsAre(list, s.body, LoopReads(s, more, false));
    assert w.body == Annotate(s.body, list, args, args, true);
    InNames(w.loopArgs, BREAK);
    InNames(w.loopArgs, RETURN);
    AnnotateKeepsBreak(s.body, list, args, args, isVoid, w.loopArgs);
  }

  /** And exactly when it gives the values of the direct run, if `break`s stand no more than two loops deep: nothing of
      the round in which an inner loop is first met is passed over; or what is passed over, and the rounds after it,
      leave the loop by a break with the same state and the same values for what is read later. */
  lemma {:induction false} OuterLoopRightIff(m: Model, l: seq<Stmt>, list: Listing, known: set<Name>,
                                             after: set<Name>, isVoid: bool, needs: Needs, k: nat, n: nat, d: Env,
                                             t: Env, st: RData)
    requires Placed(l, list, known, after, false, isVoid, needs) && l != [] && l[0].While? && TwoDeep(l[0].body)
    requires Told(l, after, false, false, needs) && MayRead(l, false, false, needs) <= known
    requires Agree(MayRead(l, false, false, needs), d, t)
    requires var w := AnnotateOne(l[0], list, known, AfterReads(l[1..], after), false);
      FirstMeets(m, w.body, k, d, st) && k <= n && Rounds(m, w.body, n, d, st) != Ended(OutOfFuel)
    ensures var r, w := Annotate(l, list, known, after, false),
      AnnotateOne(l[0], list, known, AfterReads(l[1..], after), false);
      var inner, args := BodyNeeds(w, LiveAfter(r, false, false, needs), needs),
        EvAll(m, LoopInit(w.loopArgs, w.input), t);
      && k > 0 && Rounds(m, w.body, k - 1, d, st).Running?
      && var c := RoundCut(m, w.body, k, d, st);
         FixState(Fix(m, w.loopArgs, Step(w.loopArgs, Translate(w.body, w.loopArgs, true)), n, args, st), w.loopArgs,
           Rounds(m, w.body, n, d, st), inner) <==>
         (c.Some? ==> Alike(Ended(Broke(c.value.env, c.value.st)), GoOn(m, w.body, c.value, n - k), inner))
  {
    hide Placed, Translate, Annotate, Told, MayRead, FixState, FirstMeets, LoopOk, Rounds, LiveAfter, RoundCut, GoOn,
      Alike, RoundInStep, Fix, Step, TwoDeep, Outputs, LoopArgs;
    LoopIsNoted(m, l, list, known, after, isVoid, needs, d, t, st);
    var s, more, r := l[0], AfterReads(l[1..], after), Annotate(l, list, known, after, false);
    var w := AnnotateOne(s, list, known, more, false);
    var inner, args := BodyNeeds(w, LiveAfter(r, false, false, needs), needs),
      EvAll(m, LoopInit(w.loopArgs, w.input), t);
    var known' := Names(LoopArgs(list, s.body, LoopReads(s, more, false)));
    AnnotateTwoDeep(s.body, list, known', known', true);
    EndedEarlier(m, w.body, k, n, d, st);
    TwoDeepRound(m, w.body, k, d, st);
    LoopRightIff(m, w.body, w.loopArgs, inner, k, n, args, d, st);
  }
}
