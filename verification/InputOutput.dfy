/** What statements read and set, found by going through the text once, and from it the lists of names that the
    translation with flags carries along.

    The text is not what is run: a name set in one branch counts as set for all that follows.  Module ReadingOrder
    says for which code the lists are right all the same, module WrongLists what happens for other code. */
module InputOutput {
  import opened Prelude
  import opened FlagEncoding

  /** The elements of a set in the order in which they are gone through. */
  type Listing = set<Name> -> seq<Name>

  ghost predicate Lists(list: Listing) {
    forall s :: NoDup(list(s)) && forall x :: x in list(s) <==> x in s
  }

  // ---------- what is read and set

  /** All that is set anywhere in the text, flags included. */
  function Writes(l: seq<Stmt>): set<Name> {
    if l == [] then {} else WritesOf(l[0]) + Writes(l[1..])
  }

  function WritesOf(s: Stmt): set<Name> {
    match s
    case Assign(x, _) => {x}
    case Call(x, _, _) => {x}
    case Branch(_, thn, els, _, _) => Writes(thn) + Writes(els)
    case While(_, body, _, _, _) => Writes(body)
    case BreakStmt => {BREAK}
    case ContinueStmt => {CONTINUE}
    case ReturnStmt(None) => {RETURN}
    case ReturnStmt(Some(_)) => {RETVAL, RETURN}
  }

  /** All that is read before it is set, going through the text. */
  function Reads(l: seq<Stmt>): set<Name> {
    if l == [] then {} else ReadsOf(l[0]) + (Reads(l[1..]) - WritesOf(l[0]))
  }

  function ReadsOf(s: Stmt): set<Name> {
    match s
    case Assign(_, e) => Vars(e)
    case Call(_, _, args) => VarsAll(args)
    case Branch(cond, thn, els, _, _) => Vars(cond) + Reads(thn) + (Reads(els) - Writes(thn))
    case While(_, body, _, _, _) => Reads(body)
    case ReturnStmt(Some(e)) => Vars(e)
    case _ => {}
  }

  // ---------- the order of the text

  /** What a text says of names, from its beginning to its end. */
  datatype Mention = Used(xs: set<Name>) | Given(x: Name)

  function Mentions(l: seq<Stmt>): seq<Mention> {
    if l == [] then [] else MentionsOf(l[0]) + Mentions(l[1..])
  }

  function MentionsOf(s: Stmt): seq<Mention> {
    match s
    case Assign(x, e) => [Used(Vars(e)), Given(x)]
    case Call(x, _, args) => [Used(VarsAll(args)), Given(x)]
    case Branch(cond, thn, els, _, _) => [Used(Vars(cond))] + Mentions(thn) + Mentions(els)
    case While(_, body, _, _, _) => Mentions(body)
    case BreakStmt => [Given(BREAK)]
    case ContinueStmt => [Given(CONTINUE)]
    case ReturnStmt(None) => [Given(RETURN)]
    case ReturnStmt(Some(e)) => [Used(Vars(e)), Given(RETVAL), Given(RETURN)]
  }

  ghost predicate IsGiven(text: seq<Mention>, x: Name) {
    exists i :: 0 <= i < |text| && text[i] == Given(x)
  }

  predicate UsesAt(text: seq<Mention>, i: nat, x: Name)
    requires i < |text|
  {
    text[i].Used? && x in text[i].xs
  }

  ghost predicate IsUsedFirst(text: seq<Mention>, x: Name) {
    exists i :: 0 <= i < |text| && UsesAt(text, i, x) && !IsGiven(text[..i], x)
  }

  lemma GivenIn(a: seq<Mention>, b: seq<Mention>, x: Name)
    ensures IsGiven(a + b, x) <==> IsGiven(a, x) || IsGiven(b, x)
  {
    if i :| 0 <= i < |a| && a[i] == Given(x) {
      assert (a + b)[i] == Given(x);
    }
    if i :| 0 <= i < |b| && b[i] == Given(x) {
      assert (a + b)[|a| + i] == Given(x);
    }
  }

  lemma UsedFirstIn(a: seq<Mention>, b: seq<Mention>, x: Name)
    ensures IsUsedFirst(a + b, x) <==> IsUsedFirst(a, x) || (!IsGiven(a, x) && IsUsedFirst(b, x))
  {
    hide IsGiven;
    var text := a + b;
    if i :| 0 <= i < |a| && UsesAt(a, i, x) && !IsGiven(a[..i], x) {
      assert text[..i] == a[..i] && UsesAt(text, i, x);
    }
    if i :| 0 <= i < |b| && !IsGiven(a, x) && UsesAt(b, i, x) && !IsGiven(b[..i], x) {
      assert text[..|a| + i] == a + b[..i] && UsesAt(text, |a| + i, x);
      GivenIn(a, b[..i], x);
    }
    if i :| 0 <= i < |text| && UsesAt(text, i, x) && !IsGiven(text[..i], x) {
      if i < |a| {
        assert text[..i] == a[..i] && UsesAt(a, i, x);
      } else {
        assert text[..i] == a + b[..i - |a|] && UsesAt(b, i - |a|, x);
        GivenIn(a, b[..i - |a|], x);
      }
    }
  }

  lemma OneMention(m: Mention, x: Name)
    ensures IsGiven([m], x) <==> m == Given(x)
    ensures IsUsedFirst([m], x) <==> m.Used? && x in m.xs
  {
    assert [m][..0] == [] && [m][0] == m;
    if m.Used? && x in m.xs {
      assert UsesAt([m], 0, x);
    }
  }

  /** What counts as set is set somewhere in the text, what counts as read is read there before it is set. */
  lemma {:induction false} ReadFirstIff(l: seq<Stmt>, x: Name)
    ensures x in Writes(l) <==> IsGiven(Mentions(l), x)
    ensures x in Reads(l) <==> IsUsedFirst(Mentions(l), x)
  {
    if l != [] {
      OneReadFirst(l[0], x);
      ReadFirstIff(l[1..], x);
      hide IsGiven, IsUsedFirst, WritesOf, ReadsOf;
      GivenIn(MentionsOf(l[0]), Mentions(l[1..]), x);
      UsedFirstIn(MentionsOf(l[0]), Mentions(l[1..]), x);
    }
  }

  lemma {:induction false} OneReadFirst(s: Stmt, x: Name)
    ensures x in WritesOf(s) <==> IsGiven(MentionsOf(s), x)
    ensures x in ReadsOf(s) <==> IsUsedFirst(MentionsOf(s), x)
  {
    hide IsGiven, IsUsedFirst;
    match s
    case Branch(cond, thn, els, _, _) =>
      ReadFirstIff(thn, x);
      ReadFirstIff(els, x);
      AfterUse(Vars(cond), Mentions(thn) + Mentions(els), x);
      assert MentionsOf(s) == [Used(Vars(cond))] + (Mentions(thn) + Mentions(els));
      GivenIn(Mentions(thn), Mentions(els), x);
      UsedFirstIn(Mentions(thn), Mentions(els), x);
    case While(_, body, _, _, _) => ReadFirstIff(body, x);
    case Assign(y, e) => UseAndGive(Vars(e), y, x);
    case Call(y, _, args) => UseAndGive(VarsAll(args), y, x);
    case ReturnStmt(Some(e)) =>
      AfterUse(Vars(e), [Given(RETVAL), Given(RETURN)], x);
      assert MentionsOf(s) == [Used(Vars(e))] + [Given(RETVAL), Given(RETURN)];
      assert [Given(RETVAL), Given(RETURN)] == [Given(RETVAL)] + [Given(RETURN)];
      GivenIn([Given(RETVAL)], [Given(RETURN)], x);
      UsedFirstIn([Given(RETVAL)], [Given(RETURN)], x);
      OneMention(Given(RETVAL), x);
      OneMention(Given(RETURN), x);
    case ReturnStmt(None) => OneMention(Given(RETURN), x);
    case BreakStmt => OneMention(Given(BREAK), x);
    case ContinueStmt => OneMention(Given(CONTINUE), x);
  }

  lemma AfterUse(xs: set<Name>, rest: seq<Mention>, x: Name)
    ensures IsGiven([Used(xs)] + rest, x) <==> IsGiven(rest, x)
    ensures IsUsedFirst([Used(xs)] + rest, x) <==> x in xs || IsUsedFirst(rest, x)
  {
    hide IsGiven, IsUsedFirst;
    OneMention(Used(xs), x);
    GivenIn([Used(xs)], rest, x);
    UsedFirstIn([Used(xs)], rest, x);
  }

  lemma UseAndGive(xs: set<Name>, y: Name, x: Name)
    ensures IsGiven([Used(xs), Given(y)], x) <==> x == y
    ensures IsUsedFirst([Used(xs), Given(y)], x) <==> x in xs
  {
    hide IsGiven, IsUsedFirst;
    AfterUse(xs, [Given(y)], x);
    OneMention(Given(y), x);
    assert [Used(xs), Given(y)] == [Used(xs)] + [Given(y)];
  }

  // ---------- the lists

  function WithFront(xs: seq<Name>, x: Name, wanted: bool): (r: seq<Name>)
    ensures Names(r) == Names(xs) + if wanted then {x} else {}
    ensures NoDup(xs) ==> NoDup(r)
  {
    var r := if wanted && x !in xs then [x] + xs else xs;
    assert wanted && x !in xs ==> r[0] == x && r[1..] == xs && forall y :: y in r <==> y == x || y in xs;
    r
  }

  predicate LeavesRound(outs: set<Name>, inLoop: bool) {
    inLoop && (BREAK in outs || CONTINUE in outs)
  }

  /** The names a statement hands on; `afterReads` is what the text after it reads. */
  function Outputs(list: Listing, outs: set<Name>, afterReads: set<Name>, inLoop: bool): seq<Name> {
    var found := list(if LeavesRound(outs, inLoop) then outs else outs * afterReads);
    WithFront(WithFront(found, RETVAL, RETVAL in outs), RETURN, RETURN in outs)
  }

  function LoopArgs(list: Listing, body: seq<Stmt>, afterReads: set<Name>): seq<Name> {
    var outs := Writes(body);
    var args := list(Reads(body) + outs * afterReads);
    WithFront(WithFront(WithFront(args, BREAK, BREAK in outs), RETVAL, RETVAL in outs), RETURN, RETURN in outs)
  }

  /** `set_difference`. */
  function Without(xs: seq<Name>, known: set<Name>): (r: seq<Name>)
    ensures Names(r) == Names(xs) - known
  {
    if xs == [] then []
    else
      var rest := Without(xs[1..], known);
      assert Names(xs) == {xs[0]} + Names(xs[1..]) by {
        assert xs == [xs[0]] + xs[1..];
      }
      if xs[0] in known then rest
      else
        assert Names([xs[0]] + rest) == {xs[0]} + Names(rest) by {
          assert forall x :: x in [xs[0]] + rest <==> x == xs[0] || x in rest;
        }
        [xs[0]] + rest
  }

  /** What the code after a loop reads, as far as it is asked for: nothing, if the loop leaves the round it is in. */
  function LoopReads(s: Stmt, afterReads: set<Name>, inLoop: bool): set<Name> {
    if LeavesRound(WritesOf(s), inLoop) then {} else afterReads
  }

  /** `_analyze_input_output` for one statement; `before` is what has been set before it. */
  function AnnotateOne(s: Stmt, list: Listing, before: set<Name>, afterReads: set<Name>, inLoop: bool): Stmt {
    var output := Outputs(list, WritesOf(s), afterReads, inLoop);
    match s
    case Branch(cond, thn, els, _, _) =>
      var thn' := Annotate(thn, list, before, afterReads, inLoop);
      var els' := Annotate(els, list, before, afterReads, inLoop);
      Branch(cond, thn', els', output, Without(output, before))
    case While(id, body, _, _, _) =>
      var args := LoopArgs(list, body, LoopReads(s, afterReads, inLoop));
      While(id, Annotate(body, list, Names(args), Names(args), true), args, list(before * Reads(body)), output)
    case _ => s
  }

  function Annotate(l: seq<Stmt>, list: Listing, before: set<Name>, after: set<Name>, inLoop: bool): (r: seq<Stmt>)
    ensures |r| == |l|
  {
    if l == [] then []
    else
      var first := AnnotateOne(l[0], list, before, AfterReads(l[1..], after), inLoop);
      [first] + Annotate(l[1..], list, before + WritesOf(l[0]), after, inLoop)
  }

  function AfterReads(rest: seq<Stmt>, after: set<Name>): set<Name> {
    Reads(rest) + (after - Writes(rest))
  }

  // ---------- what annotating keeps

  lemma AnnotateFirst(l: seq<Stmt>, list: Listing, before: set<Name>, after: set<Name>, inLoop: bool)
    requires l != []
    ensures var r := Annotate(l, list, before, after, inLoop);
      && r[0] == AnnotateOne(l[0], list, before, AfterReads(l[1..], after), inLoop)
      && r[1..] == Annotate(l[1..], list, before + WritesOf(l[0]), after, inLoop)
  {
    hide AnnotateOne, AfterReads;
  }

  /** The same code, but for what is noted. */
  predicate SameCode(r: seq<Stmt>, l: seq<Stmt>) {
    && Assigned(r) == Assigned(l) && Exits(r) == Exits(l) && Writes(r) == Writes(l) && Reads(r) == Reads(l)
    && HasBreak(r) == HasBreak(l) && forall inLoop, pending :: Falls(r, inLoop, pending) == Falls(l, inLoop, pending)
  }

  predicate SameStmt(r: Stmt, s: Stmt) {
    && WritesOf(r) == WritesOf(s) && ReadsOf(r) == ReadsOf(s)
    && (forall inLoop, pending :: GoesOn(r, inLoop, pending) == GoesOn(s, inLoop, pending))
    && Hands(r) == Hands(s) && (forall inLoop :: IsInnerLoop(r, inLoop) == IsInnerLoop(s, inLoop))
    && match s
      case Branch(cond, thn, els, _, _) => r.Branch? && r.cond == cond && SameCode(r.thn, thn) && SameCode(r.els, els)
      case While(_, body, _, _, _) => r.While? && SameCode(r.body, body)
      case _ => r == s
  }

  lemma {:induction false} AnnotateKeeps(l: seq<Stmt>, list: Listing, before: set<Name>, after: set<Name>, inLoop: bool)
    ensures SameCode(Annotate(l, list, before, after, inLoop), l)
  {
    if l != [] {
      hide SameStmt, SameCode, AnnotateOne;
      AnnotateFirst(l, list, before, after, inLoop);
      AnnotateKeeps(l[1..], list, before + WritesOf(l[0]), after, inLoop);
      OneKeeps(l[0], list, before, AfterReads(l[1..], after), inLoop);
      SameOnTop(Annotate(l, list, before, after, inLoop), l);
    }
  }

  lemma SameOnTop(r: seq<Stmt>, l: seq<Stmt>)
    requires r != [] && l != [] && SameStmt(r[0], l[0]) && SameCode(r[1..], l[1..])
    ensures SameCode(r, l)
  {
    hide GoesOn, WritesOf, ReadsOf;
    forall inLoop, pending ensures Falls(r, inLoop, pending) == Falls(l, inLoop, pending) {
      var next := PendingAfter(r[0], inLoop, pending);
      assert GoesOn(r[0], inLoop, pending) == GoesOn(l[0], inLoop, pending)
        && IsInnerLoop(r[0], inLoop) == IsInnerLoop(l[0], inLoop);
      assert Falls(r[1..], inLoop, next) == Falls(l[1..], inLoop, next);
    }
    assert r[0].BreakStmt? == l[0].BreakStmt?;
  }

  lemma {:induction false} OneKeeps(s: Stmt, list: Listing, before: set<Name>, afterReads: set<Name>, inLoop: bool)
    ensures SameStmt(AnnotateOne(s, list, before, afterReads, inLoop), s)
  {
    hide Annotate, Outputs, LoopArgs, Falls;
    match s
    case Branch(_, thn, els, _, _) =>
      AnnotateKeeps(thn, list, before, afterReads, inLoop);
      AnnotateKeeps(els, list, before, afterReads, inLoop);
      var r := AnnotateOne(s, list, before, afterReads, inLoop);
      forall here, pending ensures GoesOn(r, here, pending) == GoesOn(s, here, pending) {
        assert Falls(r.thn, here, false) == Falls(thn, here, false)
          && Falls(r.els, here, false) == Falls(els, here, false);
      }
    case While(_, body, _, _, _) =>
      var args := LoopArgs(list, body, LoopReads(s, afterReads, inLoop));
      AnnotateKeeps(body, list, Names(args), Names(args), true);
    case _ =>
  }

  /** Annotating forgets what was noted before: the second pass over a loop undoes the first. */
  lemma {:induction false} AnnotateForgets(l: seq<Stmt>, list: Listing, b1: set<Name>, a1: set<Name>, in1: bool,
                                           b2: set<Name>, a2: set<Name>, in2: bool)
    ensures Annotate(Annotate(l, list, b1, a1, in1), list, b2, a2, in2) == Annotate(l, list, b2, a2, in2)
  {
    if l != [] {
      var r := Annotate(l, list, b1, a1, in1);
      AnnotateFirst(l, list, b1, a1, in1);
      AnnotateFirst(l, list, b2, a2, in2);
      AnnotateFirst(r, list, b2, a2, in2);
      AnnotateKeeps(l[1..], list, b1 + WritesOf(l[0]), a1, in1);
      OneKeeps(l[0], list, b1, AfterReads(l[1..], a1), in1);
      OneForgets(l[0], list, b1, AfterReads(l[1..], a1), in1, b2, AfterReads(l[1..], a2), in2);
      AnnotateForgets(l[1..], list, b1 + WritesOf(l[0]), a1, in1, b2 + WritesOf(l[0]), a2, in2);
      hide AnnotateOne, Annotate, WritesOf, Writes, Reads;
      assert r == [r[0]] + r[1..];
      assert AfterReads(r[1..], a2) == AfterReads(l[1..], a2);
      var x, y := Annotate(r, list, b2, a2, in2), Annotate(l, list, b2, a2, in2);
      assert x == [x[0]] + x[1..] && y == [y[0]] + y[1..];
    }
  }

  lemma {:induction false} OneForgets(s: Stmt, list: Listing, b1: set<Name>, a1: set<Name>, in1: bool, b2: set<Name>,
                                      a2: set<Name>, in2: bool)
    ensures AnnotateOne(AnnotateOne(s, list, b1, a1, in1), list, b2, a2, in2) == AnnotateOne(s, list, b2, a2, in2)
  {
    OneKeeps(s, list, b1, a1, in1);
    match s
    case Branch(_, thn, els, _, _) =>
      AnnotateForgets(thn, list, b1, a1, in1, b2, a2, in2);
      AnnotateForgets(els, list, b1, a1, in1, b2, a2, in2);
    case While(_, body, _, _, _) =>
      var args1 := LoopArgs(list, body, LoopReads(s, a1, in1));
      var args2 := LoopArgs(list, body, LoopReads(s, a2, in2));
      AnnotateKeeps(body, list, Names(args1), Names(args1), true);
      AnnotateForgets(body, list, Names(args1), Names(args1), true, Names(args2), Names(args2), true);
    case _ =>
  }

  // ---------- the lists cover what is read later

  lemma {:induction false} WritesAre(l: seq<Stmt>)
    ensures Assigned(l) <= Writes(l) && Exits(l) <= Writes(l) && Exits(l) <= {BREAK, CONTINUE, RETURN}
    ensures forall x :: x in Writes(l) && !IsFlag(x) ==> x in Assigned(l)
  {
    if l != [] {
      WritesAre(l[1..]);
      match l[0]
      case Branch(_, thn, els, _, _) =>
        WritesAre(thn);
        WritesAre(els);
      case While(_, body, _, _, _) =>
        WritesAre(body);
      case _ =>
    }
  }

  lemma OutputsAre(list: Listing, outs: set<Name>, afterReads: set<Name>, inLoop: bool)
    requires Lists(list)
    ensures Names(Outputs(list, outs, afterReads, inLoop)) ==
      (if LeavesRound(outs, inLoop) then outs else outs * afterReads) + outs * {RETVAL, RETURN}
  {
    var found := list(if LeavesRound(outs, inLoop) then outs else outs * afterReads);
    assert Names(found) == if LeavesRound(outs, inLoop) then outs else outs * afterReads;
  }

  lemma ArgsAre(list: Listing, body: seq<Stmt>, afterReads: set<Name>)
    requires Lists(list)
    ensures var args := LoopArgs(list, body, afterReads);
      NoDup(args) && Names(args) == Reads(body) + Writes(body) * (afterReads + {BREAK, RETVAL, RETURN})
  {
    hide NoDup;
    var outs := Writes(body);
    var args := list(Reads(body) + outs * afterReads);
    assert Names(args) == Reads(body) + outs * afterReads;
  }

  /** The flag of a loop that stands in no other is not noted for the code after it, which therefore does not ask
      whether the loop has ended. */
  lemma NoQuestionAfterLoop(s: Stmt, list: Listing, known: set<Name>, afterReads: set<Name>, outs: seq<Name>,
                            rest: Term)
    requires Lists(list) && s.While? && BREAK !in afterReads
    ensures var output := AnnotateOne(s, list, known, afterReads, false).output;
      BREAK !in output && AfterLoop(output, outs, rest) == if RETURN in output then IfT(Var(RETURN), TupleT(outs),
        rest) else rest
  {
    OutputsAre(list, WritesOf(s), afterReads, false);
    var output := Outputs(list, WritesOf(s), afterReads, false);
    assert BREAK in output ==> BREAK in Names(output);
  }

  /** Whether a body, analysed, is taken for one that only goes round can be read off its text. */
  lemma OnlyContinuesIff(body: seq<Stmt>, list: Listing, known: set<Name>, after: set<Name>)
    requires Lists(list) && FlagFree(Assigned(body))
    ensures GoesRoundForever(Annotate(body, list, known, after, true)) <==>
      |body| == 1 && WritesOf(body[0]) == {CONTINUE}
  {
    var r := Annotate(body, list, known, after, true);
    ForeverIff(r);
    if |body| == 1 {
      AnnotateFirst(body, list, known, after, true);
      var more := AfterReads(body[1..], after);
      OutputsAre(list, WritesOf(body[0]), more, true);
      var output := Outputs(list, WritesOf(body[0]), more, true);
      OutputsDistinct(list, WritesOf(body[0]), more, true);
      OnlyName(output, CONTINUE);
      InWrites(list, body[0], more);
      assert RETURN != CONTINUE && BREAK != CONTINUE && |RETVAL| != |CONTINUE|;
      hide Outputs, Annotate, Writes, Reads, Names;
      match body[0]
      case ReturnStmt(_) => assert RETURN in WritesOf(body[0]);
      case _ =>
    }
  }

  /** An `if` or a loop within a loop hands on nothing but `continue` exactly if it sets nothing else. */
  lemma InWrites(list: Listing, s: Stmt, more: set<Name>)
    requires Lists(list)
    ensures Names(Outputs(list, WritesOf(s), more, true)) == {CONTINUE} <==> WritesOf(s) == {CONTINUE}
  {
    OutputsAre(list, WritesOf(s), more, true);
    hide Outputs, WritesOf;
    assert RETURN != CONTINUE && |RETVAL| != |CONTINUE|;
  }

  lemma OutputsDistinct(list: Listing, outs: set<Name>, afterReads: set<Name>, inLoop: bool)
    requires Lists(list)
    ensures NoDup(Outputs(list, outs, afterReads, inLoop))
  {
  }

  lemma OnlyName(xs: seq<Name>, x: Name)
    requires NoDup(xs)
    ensures xs == [x] <==> Names(xs) == {x}
  {
    if Names(xs) == {x} {
      assert x in Names(xs);
      forall i | 0 <= i < |xs| ensures xs[i] == x {
        assert xs[i] in Names(xs);
      }
      NoDupLength(xs, {x});
    }
  }

  /** A loop whose one statement sets nothing but the `continue` flag: analysed and translated it has no result, for
      every rank, every machine and whatever the code after it. */
  lemma NeverEnds(m: Model, s: Stmt, rest: seq<Stmt>, list: Listing, known: set<Name>, more: set<Name>,
                  outs: seq<Name>, here: bool, inLoop: bool, t: Env, st: RData)
    requires Lists(list) && s.While? && FlagFree(Assigned(s.body)) && |s.body| == 1
    requires WritesOf(s.body[0]) == {CONTINUE}
    ensures Eval(m, Translate([AnnotateOne(s, list, known, more, here)] + rest, outs, inLoop), t, st) == NoResult
  {
    var w, args := AnnotateOne(s, list, known, more, here), Names(LoopArgs(list, s.body, LoopReads(s, more, here)));
    OnlyContinuesIff(s.body, list, args, args);
    assert w.body == Annotate(s.body, list, args, args, true);
    hide Eval, Translate, Fix, AnnotateOne;
    assert ([w] + rest)[0] == w;
    WhileTerm(m, [w] + rest, outs, inLoop, t, st);
  }

  lemma LeavesKept(list: Listing)
    ensures forall s: Stmt, known, more, inLoop :: !s.Branch? && !s.While? ==>
      AnnotateOne(s, list, known, more, inLoop) == s
    ensures forall known, after, inLoop :: Annotate([], list, known, after, inLoop) == []
  {
  }

  // ---------- going through the text

  /** `get_input_output` for a value. */
  method ScanVars(vars: seq<Name>, input0: set<Name>, output: set<Name>) returns (input: set<Name>)
    ensures input == input0 + (Names(vars) - output)
  {
    input := input0;
    for i := 0 to |vars|
      invariant input == input0 + (Names(vars[..i]) - output)
    {
      assert vars[..i + 1] == vars[..i] + [vars[i]];
      if vars[i] !in output {
        input := input + {vars[i]};
      }
    }
    assert vars[..|vars|] == vars;
  }

  /** `get_input_output`: what is read and set is added to what has been read and set before. */
  method ScanOne(s: Stmt, list: Listing, input0: set<Name>, output0: set<Name>)
    returns (input: set<Name>, output: set<Name>)
    requires Lists(list)
    ensures input == input0 + (ReadsOf(s) - output0) && output == output0 + WritesOf(s)
    decreases s
  {
    input, output := input0, output0;
    match s
    case Assign(x, e) =>
      input := ScanVars(list(Vars(e)), input, output);
      output := output + {x};
    case Call(x, _, args) =>
      input := ScanVars(list(VarsAll(args)), input, output);
      output := output + {x};
    case Branch(cond, thn, els, _, _) =>
      input := ScanVars(list(Vars(cond)), input, output);
      input, output := ScanAll(thn, list, input, output);
      input, output := ScanAll(els, list, input, output);
    case While(_, body, _, _, _) => input, output := ScanAll(body, list, input, output);
    case BreakStmt => output := output + {BREAK};
    case ContinueStmt => output := output + {CONTINUE};
    case ReturnStmt(val) =>
      if val.Some? {
        input := ScanVars(list(Vars(val.value)), input, output);
        output := output + {RETVAL};
      }
      output := output + {RETURN};
  }

  method ScanAll(l: seq<Stmt>, list: Listing, input0: set<Name>, output0: set<Name>)
    returns (input: set<Name>, output: set<Name>)
    requires Lists(list)
    ensures input == input0 + (Reads(l) - output0) && output == output0 + Writes(l)
    decreases l
  {
    input, output := input0, output0;
    for i := 0 to |l|
      invariant input == input0 + (Reads(l[..i]) - output0) && output == output0 + Writes(l[..i])
    {
      input, output := ScanOne(l[i], list, input, output);
      ReadsNext(l, i);
    }
    assert l[..|l|] == l;
  }

  lemma ReadsNext(l: seq<Stmt>, i: nat)
    requires i < |l|
    ensures Reads(l[..i + 1]) == Reads(l[..i]) + (ReadsOf(l[i]) - Writes(l[..i]))
      && Writes(l[..i + 1]) == Writes(l[..i]) + WritesOf(l[i])
  {
    hide ReadsOf, WritesOf;
    assert l[..i + 1] == l[..i] + [l[i]];
    ReadsConcat(l[..i], [l[i]]);
    assert [l[i]][1..] == [];
    assert Reads([l[i]]) == ReadsOf(l[i]) && Writes([l[i]]) == WritesOf(l[i]);
  }

  lemma {:induction false} ReadsConcat(a: seq<Stmt>, b: seq<Stmt>)
    ensures Reads(a + b) == Reads(a) + (Reads(b) - Writes(a)) && Writes(a + b) == Writes(a) + Writes(b)
  {
    hide ReadsOf, WritesOf;
    if a == [] {
      assert a + b == b;
    } else {
      assert (a + b)[1..] == a[1..] + b;
      ReadsConcat(a[1..], b);
    }
  }

  /** What stands before or after a list: statements, names that have been set, names that will be read. */
  datatype Around = Insts(l: seq<Stmt>) | Sets(xs: seq<Name>) | Uses(xs: seq<Name>)

  function SetIn(around: seq<Around>): set<Name> {
    if around == [] then {}
    else
      SetIn(around[..|around| - 1]) + match around[|around| - 1]
        case Insts(l) => Writes(l)
        case Sets(xs) => Names(xs)
        case Uses(_) => {}
  }

  function ReadIn(around: seq<Around>): set<Name> {
    if around == [] then {}
    else match around[0]
      case Insts(l) => AfterReads(l, ReadIn(around[1..]))
      case Sets(xs) => ReadIn(around[1..]) - Names(xs)
      case Uses(xs) => Names(xs) + ReadIn(around[1..])
  }

  method ScanAround(around: seq<Around>, list: Listing, input0: set<Name>, output0: set<Name>)
    returns (input: set<Name>, output: set<Name>)
    requires Lists(list)
    ensures input == input0 + (ReadIn(around) - output0) && output == output0 + SetIn(around)
  {
    input, output := input0, output0;
    for i := 0 to |around|
      invariant input + (ReadIn(around[i..]) - output) == input0 + (ReadIn(around) - output0)
      invariant output == output0 + SetIn(around[..i])
    {
      assert around[..i + 1][..i] == around[..i] && around[i..][1..] == around[i + 1..];
      match around[i] {
        case Insts(l) => input, output := ScanAll(l, list, input, output);
        case Sets(xs) => output := output + Names(xs);
        case Uses(xs) => input := ScanVars(xs, input, output);
      }
    }
    assert around[..|around|] == around;
  }

  lemma SetInMore(around: seq<Around>, a: Around)
    ensures SetIn(around + [a]) == SetIn(around) + match a
      case Insts(l) => Writes(l)
      case Sets(xs) => Names(xs)
      case Uses(_) => {}
  {
    assert (around + [a])[..|around|] == around;
  }

  lemma ReadInMore(l: seq<Stmt>, around: seq<Around>)
    ensures ReadIn([Insts(l)] + around) == AfterReads(l, ReadIn(around))
  {
    assert ([Insts(l)] + around)[1..] == around;
  }

  /** How deep statements are nested and how many there are. */
  function Size(l: seq<Stmt>): nat {
    if l == [] then 0
    else
      1 + Size(l[1..]) + match l[0]
        case Branch(_, thn, els, _, _) => Size(thn) + Size(els)
        case While(_, body, _, _, _) => Size(body)
        case _ => 0
  }

  lemma {:induction false} AnnotateSize(l: seq<Stmt>, list: Listing, before: set<Name>, after: set<Name>, inLoop: bool)
    ensures Size(Annotate(l, list, before, after, inLoop)) == Size(l)
  {
    if l != [] {
      AnnotateFirst(l, list, before, after, inLoop);
      AnnotateSize(l[1..], list, before + WritesOf(l[0]), after, inLoop);
      var more := AfterReads(l[1..], after);
      match l[0]
      case Branch(_, thn, els, _, _) =>
        AnnotateSize(thn, list, before, more, inLoop);
        AnnotateSize(els, list, before, more, inLoop);
      case While(_, body, _, _, _) =>
        var args := LoopArgs(list, body, LoopReads(l[0], more, inLoop));
        AnnotateSize(body, list, Names(args), Names(args), true);
      case _ =>
    }
  }

  lemma {:induction false} AnnotateAt(l: seq<Stmt>, list: Listing, before: set<Name>, after: set<Name>, inLoop: bool,
                                      i: nat)
    requires i < |l|
    ensures Annotate(l, list, before, after, inLoop)[i] == AnnotateOne(l[i], list, before + Writes(l[..i]),
      AfterReads(l[i + 1..], after), inLoop)
    decreases i
  {
    hide AnnotateOne, AfterReads, WritesOf;
    AnnotateFirst(l, list, before, after, inLoop);
    if i > 0 {
      AnnotateAt(l[1..], list, before + WritesOf(l[0]), after, inLoop, i - 1);
      assert l[1..][..i - 1] == l[..i][1..] && l[1..][i..] == l[i + 1..];
      assert Writes(l[..i]) == WritesOf(l[0]) + Writes(l[1..][..i - 1]);
      assert before + WritesOf(l[0]) + Writes(l[1..][..i - 1]) == before + Writes(l[..i]);
    } else {
      assert before + Writes(l[..0]) == before;
    }
  }

  /** After `rest`, and then whatever reads `after`, a name is read before it is set. */
  ghost predicate IsReadLater(rest: seq<Stmt>, after: set<Name>, x: Name) {
    IsUsedFirst(Mentions(rest), x) || (x in after && !IsGiven(Mentions(rest), x))
  }

  /** The statement may leave the round of a loop it is in. */
  ghost predicate MayLeave(s: Stmt, inLoop: bool) {
    inLoop && (IsGiven(MentionsOf(s), BREAK) || IsGiven(MentionsOf(s), CONTINUE))
  }

  /** The lists of an `if` in a list, told by the text before, in and behind it: handed on is what it sets and what is
      read later, or all it sets if it may leave the round, and the return flags; to be initialised is what of this has
      not been set before. */
  lemma IfNotedAt(l: seq<Stmt>, list: Listing, before: set<Name>, after: set<Name>, inLoop: bool, i: nat, x: Name)
    requires Lists(list) && i < |l| && l[i].Branch?
    ensures var s, r := l[i], Annotate(l, list, before, after, inLoop)[i];
      && r.Branch?
      && (x in r.output <==>
            IsGiven(MentionsOf(s), x)
              && (IsReadLater(l[i + 1..], after, x) || MayLeave(s, inLoop) || x in {RETVAL, RETURN}))
      && (x in r.needInit <==> x in r.output && x !in before && !IsGiven(Mentions(l[..i]), x))
  {
    var s, known, more := l[i], before + Writes(l[..i]), AfterReads(l[i + 1..], after);
    OutputsTold(l, list, after, inLoop, i, x);
    AnnotateAt(l, list, before, after, inLoop, i);
    ReadFirstIff(l[..i], x);
    hide IsUsedFirst, IsGiven, Outputs, Annotate, Mentions, MentionsOf, Reads, Writes, WritesOf, IsReadLater, MayLeave,
      AfterReads;
    var r := AnnotateOne(s, list, known, more, inLoop);
    assert r.output == Outputs(list, WritesOf(s), more, inLoop) && r.needInit == Without(r.output, known);
    assert Names(r.needInit) == Names(r.output) - known;
    assert x in r.needInit <==> x in Names(r.needInit);
  }

  lemma OutputsTold(l: seq<Stmt>, list: Listing, after: set<Name>, inLoop: bool, i: nat, x: Name)
    requires Lists(list) && i < |l|
    ensures x in Outputs(list, WritesOf(l[i]), AfterReads(l[i + 1..], after), inLoop) <==>
      IsGiven(MentionsOf(l[i]), x)
        && (IsReadLater(l[i + 1..], after, x) || MayLeave(l[i], inLoop) || x in {RETVAL, RETURN})
    ensures x in AfterReads(l[i + 1..], after) <==> IsReadLater(l[i + 1..], after, x)
    ensures LeavesRound(WritesOf(l[i]), inLoop) <==> MayLeave(l[i], inLoop)
  {
    ReadFirstIff(l[i + 1..], x);
    OneReadFirst(l[i], x);
    OneReadFirst(l[i], BREAK);
    OneReadFirst(l[i], CONTINUE);
    hide IsUsedFirst, IsGiven, Outputs, Mentions, MentionsOf, Reads, Writes, WritesOf, ReadsOf;
    OutputsAre(list, WritesOf(l[i]), AfterReads(l[i + 1..], after), inLoop);
  }

  /** And those of a loop, which hands on the same: its arguments are what is read in it, what it sets and is read
      later unless it may leave the round, and the flags it sets; its inputs are what is read in it and set before. */
  lemma LoopNotedAt(l: seq<Stmt>, list: Listing, before: set<Name>, after: set<Name>, inLoop: bool, i: nat, x: Name)
    requires Lists(list) && i < |l| && l[i].While?
    ensures var s, r := l[i], Annotate(l, list, before, after, inLoop)[i];
      var inside, given := IsUsedFirst(Mentions(s.body), x), IsGiven(Mentions(s.body), x);
      && r.While?
      && (x in r.output <==>
            given && (IsReadLater(l[i + 1..], after, x) || MayLeave(s, inLoop) || x in {RETVAL, RETURN}))
      && (x in r.loopArgs <==>
            inside || (given && ((IsReadLater(l[i + 1..], after, x) && !MayLeave(s, inLoop))
              || x in {BREAK, RETVAL, RETURN})))
      && (x in r.input <==> inside && (x in before || IsGiven(Mentions(l[..i]), x)))
  {
    var s, known, more := l[i], before + Writes(l[..i]), AfterReads(l[i + 1..], after);
    OutputsTold(l, list, after, inLoop, i, x);
    AnnotateAt(l, list, before, after, inLoop, i);
    ReadFirstIff(l[..i], x);
    ReadFirstIff(s.body, x);
    ArgsAre(list, s.body, LoopReads(s, more, inLoop));
    assert MentionsOf(s) == Mentions(s.body) && WritesOf(s) == Writes(s.body);
    hide IsUsedFirst, IsGiven, Outputs, LoopArgs, Annotate, Mentions, MentionsOf, Reads, Writes, WritesOf, IsReadLater,
      MayLeave, AfterReads, LeavesRound, NoDup;
    var r := AnnotateOne(s, list, known, more, inLoop);
    assert r.output == Outputs(list, WritesOf(s), more, inLoop) && r.input == list(known * Reads(s.body))
      && r.loopArgs == LoopArgs(list, s.body, LoopReads(s, more, inLoop));
  }

  lemma SizeAt(l: seq<Stmt>, i: nat)
    requires i < |l|
    ensures l[i].Branch? ==> Size(l[i].thn) < Size(l) && Size(l[i].els) < Size(l)
    ensures l[i].While? ==> Size(l[i].body) < Size(l)
    decreases i
  {
    if i > 0 {
      SizeAt(l[1..], i - 1);
    }
  }

  /** `_analyze_input_output`: every statement gets its lists; a loop is gone through twice. */
  method Analyse(l: seq<Stmt>, list: Listing, before: seq<Around>, after: seq<Around>, inLoop: bool)
    returns (r: seq<Stmt>)
    requires Lists(list)
    ensures r == Annotate(l, list, SetIn(before), ReadIn(after), inLoop)
    decreases Size(l), 1
  {
    hide Annotate, AnnotateOne, SetIn, ReadIn, Size;
    r := [];
    for i := 0 to |l|
      invariant |r| == i && forall k :: 0 <= k < i ==>
        r[k] == Annotate(l, list, SetIn(before), ReadIn(after), inLoop)[k]
    {
      var s := AnalyseOne(l, i, list, before, after, inLoop);
      AnnotateAt(l, list, SetIn(before), ReadIn(after), inLoop, i);
      r := r + [s];
    }
  }

  method AnalyseOne(l: seq<Stmt>, i: nat, list: Listing, before: seq<Around>, after: seq<Around>, inLoop: bool)
    returns (r: Stmt)
    requires Lists(list) && i < |l|
    ensures r == AnnotateOne(l[i], list, SetIn(before) + Writes(l[..i]), AfterReads(l[i + 1..], ReadIn(after)), inLoop)
    decreases Size(l), 0
  {
    hide Annotate, AnnotateOne, Outputs, Without, LoopArgs, SetIn, ReadIn, Size, Writes, Reads, WritesOf, ReadsOf,
      AfterReads;
    ghost var known, more := SetIn(before) + Writes(l[..i]), AfterReads(l[i + 1..], ReadIn(after));
    var newBefore, newAfter := before + [Insts(l[..i])], [Insts(l[i + 1..])] + after;
    SetInMore(before, Insts(l[..i]));
    ReadInMore(l[i + 1..], after);
    SizeAt(l, i);
    var beforeInput, beforeOutput := ScanAround(newBefore, list, {}, {});
    var input, output := ScanOne(l[i], list, {}, {});
    var afterInput, afterOutput := {}, {};
    if !(inLoop && (BREAK in output || CONTINUE in output)) {
      afterInput, afterOutput := ScanAround(newAfter, list, {}, {});
      assert afterInput == more;
    }
    assert SetIn(newBefore) == known && ReadIn(newAfter) == more;
    assert beforeOutput == known && output == WritesOf(l[i]) && input == ReadsOf(l[i]);
    assert afterInput == if LeavesRound(output, inLoop) then {} else more;
    var outputs := Outputs(list, output, afterInput, inLoop);
    OutputsSame(list, output, more, inLoop);
    match l[i]
    case Branch(cond, thn, els, _, _) =>
      var thn' := Analyse(thn, list, newBefore, newAfter, inLoop);
      var els' := Analyse(els, list, newBefore, newAfter, inLoop);
      BranchIs(l[i], list, known, more, inLoop);
      r := Branch(cond, thn', els', outputs, Without(outputs, beforeOutput));
    case While(id, body, _, _, _) =>
      var body', args := AnalyseLoop(body, list, newBefore, newAfter, afterInput);
      LoopIs(l[i], list, known, more, inLoop);
      r := While(id, body', args, list(beforeOutput * input), outputs);
    case _ =>
      LeavesKept(list);
      r := l[i];
  }

  lemma BranchIs(s: Stmt, list: Listing, known: set<Name>, afterReads: set<Name>, inLoop: bool)
    requires s.Branch?
    ensures var output := Outputs(list, WritesOf(s), afterReads, inLoop);
      AnnotateOne(s, list, known, afterReads, inLoop) ==
        Branch(s.cond, Annotate(s.thn, list, known, afterReads, inLoop),
          Annotate(s.els, list, known, afterReads, inLoop), output, Without(output, known))
  {
    hide Annotate, Outputs, Without, WritesOf;
  }

  lemma LoopIs(s: Stmt, list: Listing, known: set<Name>, afterReads: set<Name>, inLoop: bool)
    requires s.While?
    ensures var args := LoopArgs(list, s.body, LoopReads(s, afterReads, inLoop));
      AnnotateOne(s, list, known, afterReads, inLoop) ==
        While(s.id, Annotate(s.body, list, Names(args), Names(args), true), args, list(known * ReadsOf(s)),
          Outputs(list, WritesOf(s), afterReads, inLoop))
  {
    hide Annotate, Outputs, LoopArgs;
  }

  /** A loop is gone through once where it stands and once more between its own arguments. */
  method AnalyseLoop(body: seq<Stmt>, list: Listing, before: seq<Around>, after: seq<Around>, afterInput: set<Name>)
    returns (r: seq<Stmt>, args: seq<Name>)
    requires Lists(list)
    ensures args == LoopArgs(list, body, afterInput) && r == Annotate(body, list, Names(args), Names(args), true)
    decreases Size(body), 2
  {
    hide Annotate, SetIn, ReadIn, Size, Writes, Reads, LoopArgs;
    var once := Analyse(body, list, before, after, true);
    var bodyInput, bodyOutput := ScanAll(body, list, {}, {});
    assert bodyInput == Reads(body) && bodyOutput == Writes(body);
    args := ArgsOf(list, body, bodyInput, bodyOutput, afterInput);
    AnnotateSize(body, list, SetIn(before), ReadIn(after), true);
    SetInMore([], Sets(args));
    UsesOnly(args);
    assert SetIn([Sets(args)]) == Names(args);
    r := Analyse(once, list, [Sets(args)], [Uses(args)], true);
    AnnotateForgets(body, list, SetIn(before), ReadIn(after), true, Names(args), Names(args), true);
  }

  lemma OutputsSame(list: Listing, outs: set<Name>, afterReads: set<Name>, inLoop: bool)
    ensures Outputs(list, outs, if LeavesRound(outs, inLoop) then {} else afterReads, inLoop) ==
      Outputs(list, outs, afterReads, inLoop)
  {
  }

  lemma UsesOnly(args: seq<Name>)
    ensures ReadIn([Uses(args)]) == Names(args) && SetIn([]) == {} && [] + [Sets(args)] == [Sets(args)]
  {
  }

  method ArgsOf(list: Listing, ghost body: seq<Stmt>, input: set<Name>, output: set<Name>, afterInput: set<Name>)
    returns (args: seq<Name>)
    requires input == Reads(body) && output == Writes(body)
    ensures args == LoopArgs(list, body, afterInput)
  {
    args := list(input + output * afterInput);
    if BREAK in output && BREAK !in args {
      args := [BREAK] + args;
    }
    if RETVAL in output && RETVAL !in args {
      args := [RETVAL] + args;
    }
    if RETURN in output && RETURN !in args {
      args := [RETURN] + args;
    }
  }

  /** A function is analysed with its parameters as the names set before it. */
  method AnalyseFunction(body: seq<Stmt>, list: Listing, params: seq<Name>) returns (noted: seq<Stmt>)
    requires Lists(list)
    ensures noted == Annotate(body, list, Names(params), {}, false)
  {
    SetInMore([], Sets(params));
    UsesOnly(params);
    assert ReadIn([]) == {} && SetIn([Sets(params)]) == Names(params);
    noted := Analyse(body, list, [Sets(params)], [], false);
  }
}
