/** Bit operations on a packed word rewritten as operations on the fields of the record it stands for.

    A record is packed by adding up its fields, each moved to its place; a rich field is a number that stands in
    its place already.  Masks, flags and results are constants from the code unless said otherwise. */
module MaskAbstraction {
  import opened Bits
  import opened Prelude

  datatype Field = Field(name: string, lo: nat, hi: nat, rich: bool)

  type Record = map<string, nat>

  function ElemZ(rec: Record, f: Field): nat {
    if f.name in rec then rec[f.name] else 0
  }

  /** Fields with their own names and their own bits. */
  ghost predicate Layout(fields: seq<Field>) {
    && (forall k :: 0 <= k < |fields| ==> fields[k].lo <= fields[k].hi)
    && (forall j, k :: 0 <= j < k < |fields| ==> Apart(fields[j], fields[k]))
  }

  predicate Apart(f: Field, g: Field) {
    f.name != g.name && (f.hi < g.lo || g.hi < f.lo)
  }

  predicate Within(f: Field, i: nat) {
    f.lo <= i <= f.hi
  }

  ghost predicate Fits(f: Field, v: nat) {
    if f.rich then forall i: nat :: Bit(v, i) ==> Within(f, i) else f.lo <= f.hi && v < Pow2(f.hi + 1 - f.lo)
  }

  ghost predicate InRange(fields: seq<Field>, rec: Record) {
    forall k :: 0 <= k < |fields| ==> Fits(fields[k], ElemZ(rec, fields[k]))
  }

  function Contribution(f: Field, rec: Record): nat {
    if f.rich then ElemZ(rec, f) else ElemZ(rec, f) * Pow2(f.lo)
  }

  /** The packed word. */
  function Pack(fields: seq<Field>, rec: Record): nat {
    if fields == [] then 0 else Pack(fields[..|fields| - 1], rec) + Contribution(fields[|fields| - 1], rec)
  }

  function Flag(f: Field): nat {
    if f.lo <= f.hi then Ones(f.lo, f.hi) else 0
  }

  predicate Covered(mask: nat, f: Field) {
    BitAnd(mask, Flag(f)) == Flag(f)
  }

  predicate Untouched(mask: nat, f: Field) {
    BitAnd(mask, Flag(f)) == 0
  }

  /** Every field fully or not at all. */
  predicate WholeFields(fields: seq<Field>, mask: nat) {
    forall k :: 0 <= k < |fields| ==> Covered(mask, fields[k]) || Untouched(mask, fields[k])
  }

  function CoveredFields(fields: seq<Field>, mask: nat): (r: seq<Field>) {
    if fields == [] then []
    else
      var last := fields[|fields| - 1];
      CoveredFields(fields[..|fields| - 1], mask) + if Covered(mask, last) then [last] else []
  }

  // ---------- bits of words and fields

  lemma FlagBit(f: Field, i: nat)
    requires f.lo <= f.hi
    ensures Bit(Flag(f), i) <==> Within(f, i)
  {
    OnesBit(f.lo, f.hi, i);
  }

  lemma CoveredBits(mask: nat, f: Field)
    requires f.lo <= f.hi
    ensures Covered(mask, f) <==> forall i: nat :: Within(f, i) ==> Bit(mask, i)
  {
    forall i: nat ensures Bit(BitAnd(mask, Flag(f)), i) <==> Bit(mask, i) && Within(f, i) {
      BitAndBit(mask, Flag(f), i);
      FlagBit(f, i);
    }
    if Covered(mask, f) {
      forall i: nat | Within(f, i) ensures Bit(mask, i) {
        FlagBit(f, i);
      }
    }
    if forall i: nat :: Within(f, i) ==> Bit(mask, i) {
      forall i: nat ensures Bit(BitAnd(mask, Flag(f)), i) == Bit(Flag(f), i) {
        FlagBit(f, i);
      }
      SameBits(BitAnd(mask, Flag(f)), Flag(f));
    }
  }

  lemma UntouchedBits(mask: nat, f: Field)
    requires f.lo <= f.hi
    ensures Untouched(mask, f) <==> forall i: nat :: Within(f, i) ==> !Bit(mask, i)
  {
    forall i: nat ensures Bit(BitAnd(mask, Flag(f)), i) <==> Bit(mask, i) && Within(f, i) {
      BitAndBit(mask, Flag(f), i);
      FlagBit(f, i);
    }
    if Untouched(mask, f) {
      forall i: nat | Within(f, i) ensures !Bit(mask, i) {
        BitZero(i);
      }
    }
    if forall i: nat :: Within(f, i) ==> !Bit(mask, i) {
      forall i: nat ensures Bit(BitAnd(mask, Flag(f)), i) == Bit(0, i) {
        BitZero(i);
      }
      SameBits(BitAnd(mask, Flag(f)), 0);
    }
  }

  lemma ContributionBit(f: Field, rec: Record, i: nat)
    requires Fits(f, ElemZ(rec, f)) && Bit(Contribution(f, rec), i)
    ensures Within(f, i)
  {
    if !f.rich {
      ShiftLeftBit(ElemZ(rec, f), f.lo, i);
      BitsBelow(ElemZ(rec, f), f.hi + 1 - f.lo, i - f.lo);
    }
  }

  /** The bits of a packed word are those of its fields. */
  lemma {:induction false} PackBit(fields: seq<Field>, rec: Record, i: nat)
    requires Layout(fields) && InRange(fields, rec)
    ensures forall k :: 0 <= k < |fields| && Within(fields[k], i) ==>
      Bit(Pack(fields, rec), i) == Bit(Contribution(fields[k], rec), i)
    ensures Bit(Pack(fields, rec), i) ==> exists k :: 0 <= k < |fields| && Within(fields[k], i)
    decreases |fields|
  {
    BitZero(i);
    if fields != [] {
      var n := |fields| - 1;
      var front, last := fields[..n], fields[n];
      var a, b := Pack(front, rec), Contribution(last, rec);
      forall j: nat ensures !(Bit(a, j) && Bit(b, j)) {
        PackBit(front, rec, j);
        if Bit(b, j) {
          ContributionBit(last, rec, j);
        }
      }
      AddDisjoint(a, b, i);
      PackBit(front, rec, i);
      if Bit(b, i) {
        ContributionBit(last, rec, i);
      }
      forall k | 0 <= k < n ensures fields[k] == front[k] && !(Within(fields[k], i) && Within(last, i)) {
        assert Apart(fields[k], last);
      }
    }
  }

  /** Numbers with the same bits inside the fields, and none outside, are the same. */
  ghost predicate NoBitsOutside(fields: seq<Field>, a: nat) {
    forall i: nat :: Bit(a, i) ==> exists k :: 0 <= k < |fields| && Within(fields[k], i)
  }

  /** Some of the fields before the last one, and perhaps that one. */
  lemma LayoutFront(fields: seq<Field>, some: seq<Field>)
    requires Layout(fields) && fields != []
    ensures Layout(fields[..|fields| - 1])
    ensures Layout(some) && (forall f :: f in some ==> f in fields[..|fields| - 1]) ==>
      Layout(some + [fields[|fields| - 1]])
  {
    var n := |fields| - 1;
    assert forall j, k :: 0 <= j < k < n ==> fields[..n][j] == fields[j] && fields[..n][k] == fields[k];
    if forall f :: f in some ==> f in fields[..n] {
      forall j | 0 <= j < |some| ensures Apart(some[j], fields[n]) {
        assert some[j] in fields[..n];
        var k :| 0 <= k < n && fields[..n][k] == some[j];
        assert Apart(fields[k], fields[n]);
      }
    }
  }

  lemma {:induction false} CoveredFieldsAre(fields: seq<Field>, mask: nat)
    ensures forall f :: f in CoveredFields(fields, mask) <==> f in fields && Covered(mask, f)
    ensures Layout(fields) ==> Layout(CoveredFields(fields, mask))
    decreases |fields|
  {
    if fields != [] {
      var n := |fields| - 1;
      var front, last := fields[..n], fields[n];
      assert fields == front + [last];
      CoveredFieldsAre(front, mask);
      if Layout(fields) {
        LayoutFront(fields, CoveredFields(front, mask));
      }
      hide Layout;
    }
  }

  /** Masking whole fields leaves those fields. */
  lemma MaskedPack(fields: seq<Field>, rec: Record, mask: nat)
    requires Layout(fields) && InRange(fields, rec) && WholeFields(fields, mask)
    ensures BitAnd(Pack(fields, rec), mask) == Pack(CoveredFields(fields, mask), rec)
  {
    var cs := CoveredFields(fields, mask);
    CoveredFieldsAre(fields, mask);
    forall k | 0 <= k < |cs| ensures Fits(cs[k], ElemZ(rec, cs[k])) {
      assert cs[k] in fields;
      var j :| 0 <= j < |fields| && fields[j] == cs[k];
    }
    var a, b := BitAnd(Pack(fields, rec), mask), Pack(cs, rec);
    forall i: nat ensures Bit(a, i) == Bit(b, i) {
      MaskedBit(fields, cs, rec, mask, i);
    }
    SameBits(a, b);
  }

  lemma MaskedBit(fields: seq<Field>, cs: seq<Field>, rec: Record, mask: nat, i: nat)
    requires Layout(fields) && InRange(fields, rec) && WholeFields(fields, mask)
    requires Layout(cs) && InRange(cs, rec) && forall f :: f in cs <==> f in fields && Covered(mask, f)
    ensures Bit(BitAnd(Pack(fields, rec), mask), i) == Bit(Pack(cs, rec), i)
  {
    hide Layout, InRange, Covered, Untouched, Contribution, Pack;
    BitAndBit(Pack(fields, rec), mask, i);
    PackBit(fields, rec, i);
    PackBit(cs, rec, i);
    if k :| 0 <= k < |fields| && Within(fields[k], i) {
      LayoutOrder(fields, k);
      CoveredBits(mask, fields[k]);
      UntouchedBits(mask, fields[k]);
      if Bit(mask, i) {
        assert fields[k] in cs;
        var j :| 0 <= j < |cs| && cs[j] == fields[k];
      } else if Bit(Pack(cs, rec), i) {
        var j :| 0 <= j < |cs| && Within(cs[j], i);
        assert cs[j] in cs;
        CoveredIsWithin(cs[j], mask, i, fields);
      }
    } else {
      forall j | 0 <= j < |cs| ensures !Within(cs[j], i) {
        assert cs[j] in cs;
        var k :| 0 <= k < |fields| && fields[k] == cs[j];
      }
    }
  }

  lemma LayoutOrder(fields: seq<Field>, k: nat)
    requires Layout(fields) && k < |fields|
    ensures fields[k].lo <= fields[k].hi
  {
  }

  lemma CoveredIsWithin(f: Field, mask: nat, i: nat, fields: seq<Field>)
    requires Layout(fields) && f in fields && Covered(mask, f) && Within(f, i)
    ensures Bit(mask, i)
  {
    CoveredBits(mask, f);
  }

  // ---------- `&`

  /** The terms that are generated: `Elem` is a field as a number, `Result` the right-hand side of a comparison. */
  datatype Arith =
    | Elem(f: Field)
    | Const(n: nat)
    | Result
    | Add(a: Arith, b: Arith)
    | Mult(a: Arith, n: nat)
    | Mod(a: Arith, n: nat)
    | Div(a: Arith, n: nat)

  function EvalA(e: Arith, rec: Record, result: nat): nat {
    match e
    case Elem(f) => ElemZ(rec, f)
    case Const(n) => n
    case Result => result
    case Add(a, b) => EvalA(a, rec, result) + EvalA(b, rec, result)
    case Mult(a, n) => EvalA(a, rec, result) * n
    case Mod(a, n) => if n == 0 then EvalA(a, rec, result) else EvalA(a, rec, result) % n
    case Div(a, n) => if n == 0 then 0 else QuotientIsNat(EvalA(a, rec, result), n)
  }

  function QuotientIsNat(a: nat, n: nat): nat
    requires n > 0
  {
    a / n
  }

  function Part(f: Field): Arith {
    if f.lo > 0 && !f.rich then Mult(Elem(f), Pow2(f.lo)) else Elem(f)
  }

  function Parts(fields: seq<Field>): (r: seq<Arith>)
    ensures |r| == |fields|
  {
    seq(|fields|, k requires 0 <= k < |fields| => Part(fields[k]))
  }

  /** The number of ones among the 32 low bits. */
  function PopCount(n: nat): nat {
    if n == 0 then 0 else PopCount(n / 2) + n % 2
  }

  /** The ones at the low end, fewer than 33 and fewer than the field at 0 is wide, less one. */
  ghost predicate LowBits(fields: seq<Field>, mask: nat) {
    exists j, k :: 0 <= j < |fields| && fields[j].lo == 0 && 0 < k < fields[j].hi && k <= 32 && mask == Pow2(k) - 1
  }

  lemma {:induction false} PopCountOnes(k: nat)
    ensures PopCount(Pow2(k) - 1) == k
  {
    if k > 0 {
      assert Pow2(k) - 1 == 2 * (Pow2(k - 1) - 1) + 1;
      PopCountOnes(k - 1);
    }
  }

  /** Adds up, from the first on. */
  method AddAll(components: seq<Arith>, ghost covered: seq<Field>) returns (e: Arith)
    requires components != [] && components == Parts(covered)
    ensures forall rec, result :: EvalA(e, rec, result) == Pack(covered, rec)
  {
    e := components[0];
    PartIs(covered[0]);
    assert covered[..1] == [covered[0]] && forall rec: Record ::
      Pack([covered[0]], rec) == Pack([], rec) + Contribution(covered[0], rec);
    for i := 1 to |components|
      invariant forall rec, result :: EvalA(e, rec, result) == Pack(covered[..i], rec)
    {
      PartIs(covered[i]);
      assert covered[..i + 1][..i] == covered[..i];
      e := Add(e, components[i]);
    }
    assert covered[..|covered|] == covered;
  }

  lemma PartIs(f: Field)
    ensures forall rec, result :: EvalA(Part(f), rec, result) == Contribution(f, rec)
  {
    if f.lo == 0 {
      assert Pow2(0) == 1;
    }
  }

  /** The abstraction of `packed & mask`, where there is one.  It is exact. */
  method ComputeAndMask(fields: seq<Field>, mask: nat) returns (r: Option<Arith>)
    requires Layout(fields)
    ensures r.Some? ==> forall rec, result :: InRange(fields, rec) ==>
      EvalA(r.value, rec, result) == BitAnd(Pack(fields, rec), mask)
    ensures r.Some? <==> (WholeFields(fields, mask) && CoveredFields(fields, mask) != []) || LowBits(fields, mask)
  {
    hide *;
    var components: seq<Arith> := [];
    NoParts(fields, mask);
    for i := 0 to |fields|
      invariant components == Parts(CoveredFields(fields[..i], mask))
      invariant WholeFields(fields[..i], mask)
    {
      var f := fields[i];
      MoreParts(fields, i, mask);
      if BitAnd(mask, Flag(f)) == Flag(f) {
        components := components + [if f.lo > 0 && !f.rich then Mult(Elem(f), Pow2(f.lo)) else Elem(f)];
      } else if BitAnd(mask, Flag(f)) == 0 {
        continue;
      } else {
        r := PartialMask(fields, i, mask);
        return;
      }
    }
    assert fields[..|fields|] == fields;
    PartsEmpty(CoveredFields(fields, mask));
    if components == [] {
      OnlyWhole(fields, mask);
      return None;
    }
    var e := AddAll(components, CoveredFields(fields, mask));
    forall rec, result | InRange(fields, rec) ensures EvalA(e, rec, result) == BitAnd(Pack(fields, rec), mask) {
      MaskedPack(fields, rec, mask);
    }
    r := Some(e);
  }

  lemma {:induction false} PopCountBound(x: nat, n: nat)
    requires x < Pow2(n)
    ensures PopCount(x) <= n
    decreases n
  {
    if n > 0 && x > 0 {
      PopCountBound(x / 2, n - 1);
    }
  }

  lemma Pow2Monotone(k: nat, n: nat)
    requires k <= n
    ensures Pow2(k) <= Pow2(n)
  {
    if k < n {
      Pow2Monotone(k, n - 1);
    }
  }

  lemma OnlyWhole(fields: seq<Field>, mask: nat)
    requires Layout(fields) && WholeFields(fields, mask)
    ensures !LowBits(fields, mask)
  {
    hide Covered, Untouched;
    if j, k :| 0 <= j < |fields| && fields[j].lo == 0 && 0 < k < fields[j].hi && k <= 32 && mask == Pow2(k) - 1 {
      assert Within(fields[j], 0) && Within(fields[j], k);
      LowOnesBit(k, 0);
      LowOnesBit(k, k);
      CoveredBits(mask, fields[j]);
      UntouchedBits(mask, fields[j]);
    }
  }

  lemma LowBitsHere(fields: seq<Field>, i: nat, mask: nat, ones: nat)
    requires Layout(fields) && i < |fields| && fields[i].lo == 0 && !Untouched(mask, fields[i])
    requires ones == PopCount(mask % Pow2(32)) && ones < fields[i].hi && Pow2(ones) - 1 == mask
    ensures LowBits(fields, mask)
  {
    PopCountBound(mask % Pow2(32), 32);
    assert Pow2(0) - 1 == 0;
  }

  lemma LowMask(fields: seq<Field>, i: nat, rec: Record, result: nat, ones: nat)
    requires Layout(fields) && InRange(fields, rec) && i < |fields| && fields[i].lo == 0 && ones < fields[i].hi
    ensures EvalA(Mod(Elem(fields[i]), Pow2(ones)), rec, result) == BitAnd(Pack(fields, rec), Pow2(ones) - 1)
  {
    var f := fields[i];
    var a, b := ElemZ(rec, f) % Pow2(ones), BitAnd(Pack(fields, rec), Pow2(ones) - 1);
    assert Contribution(f, rec) == ElemZ(rec, f) by {
      assert Pow2(0) == 1;
    }
    forall j: nat ensures Bit(a, j) == Bit(b, j) {
      ModBit(ElemZ(rec, f), ones, j);
      BitAndBit(Pack(fields, rec), Pow2(ones) - 1, j);
      LowOnesBit(ones, j);
      PackBit(fields, rec, j);
    }
    SameBits(a, b);
  }

  lemma NotLowBits(fields: seq<Field>, i: nat, mask: nat)
    requires Layout(fields) && i < |fields| && fields[i].lo == 0
    requires var ones := PopCount(mask % Pow2(32)); !(ones < fields[i].hi && Pow2(ones) - 1 == mask)
    ensures !LowBits(fields, mask)
  {
    if j, k :| 0 <= j < |fields| && fields[j].lo == 0 && 0 < k < fields[j].hi && k <= 32 && mask == Pow2(k) - 1 {
      assert (j < i ==> Apart(fields[j], fields[i])) && (i < j ==> Apart(fields[i], fields[j]));
      Pow2Monotone(k, 32);
      ModSmall(mask, Pow2(32));
      PopCountOnes(k);
    }
  }

  lemma NotLowBitsAbove(fields: seq<Field>, i: nat, mask: nat)
    requires Layout(fields) && i < |fields| && fields[i].lo > 0 && !Untouched(mask, fields[i])
    ensures !LowBits(fields, mask)
  {
    hide Untouched;
    if j, k :| 0 <= j < |fields| && fields[j].lo == 0 && 0 < k < fields[j].hi && k <= 32 && mask == Pow2(k) - 1 {
      assert fields[j].hi < fields[i].lo by {
        if j < i {
          assert Apart(fields[j], fields[i]);
        } else if i < j {
          assert Apart(fields[i], fields[j]);
        }
      }
      UntouchedBits(mask, fields[i]);
      var b: nat :| Within(fields[i], b) && Bit(mask, b);
      LowOnesBit(k, b);
    }
  }

  lemma NoParts(fields: seq<Field>, mask: nat)
    ensures Parts(CoveredFields(fields[..0], mask)) == [] && WholeFields(fields[..0], mask)
  {
  }

  lemma PartsEmpty(fs: seq<Field>)
    ensures Parts(fs) == [] <==> fs == []
  {
  }

  lemma MoreParts(fields: seq<Field>, i: nat, mask: nat)
    requires i < |fields|
    ensures var f, front := fields[i], fields[..i];
      && Parts(CoveredFields(fields[..i + 1], mask)) == Parts(CoveredFields(front, mask))
         + (if Covered(mask, f) then [Part(f)] else [])
      && (WholeFields(fields[..i + 1], mask) <==> WholeFields(front, mask) && (Covered(mask, f) || Untouched(mask, f)))
      && (Covered(mask, f) <==> BitAnd(mask, Flag(f)) == Flag(f))
         && (Untouched(mask, f) <==> BitAnd(mask, Flag(f)) == 0)
      && Part(f) == (if f.lo > 0 && !f.rich then Mult(Elem(f), Pow2(f.lo)) else Elem(f))
  {
    hide BitAnd, Flag;
    assert fields[..i + 1] == fields[..i] + [fields[i]] && fields[..i + 1][..i] == fields[..i];
  }

  /** The field at `i` is cut through by the mask. */
  method PartialMask(fields: seq<Field>, i: nat, mask: nat) returns (r: Option<Arith>)
    requires Layout(fields) && i < |fields| && !Covered(mask, fields[i]) && !Untouched(mask, fields[i])
    ensures r.Some? ==> forall rec, result :: InRange(fields, rec) ==>
      EvalA(r.value, rec, result) == BitAnd(Pack(fields, rec), mask)
    ensures !WholeFields(fields, mask) && (r.Some? <==> LowBits(fields, mask))
  {
    hide Layout, InRange, Covered, Untouched, BitAnd, Pack, EvalA, PopCount, ElemZ;
    var f := fields[i];
    if f.lo == 0 {
      var ones := PopCount(mask % Pow2(32));
      if ones < f.hi && Pow2(ones) - 1 == mask {
        LowBitsHere(fields, i, mask, ones);
        forall rec, result | InRange(fields, rec) ensures EvalA(Mod(Elem(f), Pow2(ones)), rec, result) ==
          BitAnd(Pack(fields, rec), mask) {
          LowMask(fields, i, rec, result, ones);
        }
        return Some(Mod(Elem(f), Pow2(ones)));
      }
      // The complement of a mask is negative and never a row of ones.
      NotLowBits(fields, i, mask);
      return None;
    } else {
      NotLowBitsAbove(fields, i, mask);
      return None;
    }
  }

  // ---------- `(packed & mask) = result`

  datatype Cond = Eq(a: Arith, b: Arith) | Both(p: Cond, q: Cond)

  function EvalC(c: Cond, rec: Record, result: nat): bool {
    match c
    case Eq(a, b) => EvalA(a, rec, result) == EvalA(b, rec, result)
    case Both(p, q) => EvalC(p, rec, result) && EvalC(q, rec, result)
  }

  /** What a covered field is compared with; `r` is the result when it is a constant. */
  function Expected(f: Field, r: Option<nat>): Arith {
    match r
    case Some(n) => Const(if f.rich then BitAnd(n, Flag(f)) else ShiftRight(BitAnd(n, Flag(f)), f.lo))
    case None => if f.rich then Mod(Result, Pow2(f.hi + 1)) else Mod(Div(Result, Pow2(f.lo)), Pow2(Width(f)))
  }

  function Width(f: Field): nat {
    if f.lo <= f.hi then f.hi + 1 - f.lo else 0
  }

  predicate Meets(f: Field, r: Option<nat>, rec: Record, result: nat) {
    ElemZ(rec, f) == EvalA(Expected(f, r), rec, result)
  }

  predicate AllMeet(fields: seq<Field>, mask: nat, r: Option<nat>, rec: Record, result: nat) {
    forall k :: 0 <= k < |fields| && Covered(mask, fields[k]) ==> Meets(fields[k], r, rec, result)
  }

  /** The abstraction compares each field the mask covers; a field it cuts through is passed over. */
  method ComputeAndMaskEq(fields: seq<Field>, mask: nat, r: Option<nat>) returns (c: Option<Cond>)
    ensures c.None? <==> forall k :: 0 <= k < |fields| ==> !Covered(mask, fields[k])
    ensures c.Some? ==> forall rec, result :: EvalC(c.value, rec, result) <==> AllMeet(fields, mask, r, rec, result)
  {
    hide EvalA, Covered, Expected;
    var components: seq<Cond> := [];
    for i := 0 to |fields|
      invariant forall rec, result :: AllHold(components, rec, result) <==> AllMeet(fields[..i], mask, r, rec, result)
      invariant components == [] <==> forall k :: 0 <= k < i ==> !Covered(mask, fields[k])
    {
      var f := fields[i];
      assert fields[..i + 1] == fields[..i] + [f];
      CoveredIs(mask, f);
      if BitAnd(mask, Flag(f)) == Flag(f) {
        var more := Eq(Elem(f), Expected(f, r));
        ElemIs(f);
        AllHoldMore(components, more);
        components := components + [more];
      }
    }
    assert fields[..|fields|] == fields;
    if components == [] {
      return None;
    }
    var e := BothAll(components);
    c := Some(e);
  }

  lemma CoveredIs(mask: nat, f: Field)
    ensures Covered(mask, f) <==> BitAnd(mask, Flag(f)) == Flag(f)
  {
  }

  lemma ElemIs(f: Field)
    ensures forall rec, result :: EvalA(Elem(f), rec, result) == ElemZ(rec, f)
  {
  }

  predicate AllHold(cs: seq<Cond>, rec: Record, result: nat) {
    forall k :: 0 <= k < |cs| ==> EvalC(cs[k], rec, result)
  }

  lemma AllHoldMore(cs: seq<Cond>, c: Cond)
    ensures forall rec, result :: AllHold(cs + [c], rec, result) <==> AllHold(cs, rec, result) && EvalC(c, rec, result)
  {
    hide EvalC;
    forall rec, result ensures AllHold(cs + [c], rec, result) <==> AllHold(cs, rec, result) && EvalC(c, rec, result) {
      assert (cs + [c])[|cs|] == c;
      assert forall k :: 0 <= k < |cs| ==> (cs + [c])[k] == cs[k];
    }
  }

  method BothAll(components: seq<Cond>) returns (c: Cond)
    requires components != []
    ensures forall rec, result :: EvalC(c, rec, result) <==> AllHold(components, rec, result)
  {
    c := components[0];
    for i := 1 to |components|
      invariant forall rec, result :: EvalC(c, rec, result) <==> AllHold(components[..i], rec, result)
    {
      AllHoldMore(components[..i], components[i]);
      assert components[..i] + [components[i]] == components[..i + 1];
      c := Both(c, components[i]);
    }
    assert components[..|components|] == components;
  }

  /** The record whose fields are cut out of `n`. */
  function Unpack(fields: seq<Field>, n: nat): Record {
    if fields == [] then map[]
    else
      var f := fields[|fields| - 1];
      Unpack(fields[..|fields| - 1], n)[f.name := CutOut(f, n)]
  }

  function CutOut(f: Field, n: nat): nat {
    if f.rich then BitAnd(n, Flag(f)) else ShiftRight(BitAnd(n, Flag(f)), f.lo)
  }

  lemma CutOutFits(f: Field, n: nat)
    requires f.lo <= f.hi
    ensures Fits(f, CutOut(f, n))
    ensures (if f.rich then CutOut(f, n) else CutOut(f, n) * Pow2(f.lo)) == BitAnd(n, Flag(f))
  {
    var v, w := CutOut(f, n), BitAnd(n, Flag(f));
    forall i: nat ensures Bit(w, i) <==> Bit(n, i) && Within(f, i) {
      BitAndBit(n, Flag(f), i);
      FlagBit(f, i);
    }
    if !f.rich {
      forall i: nat | Bit(v, i) ensures i < f.hi + 1 - f.lo {
        ShiftRightBit(w, f.lo, i);
      }
      BelowFromBits(v, f.hi + 1 - f.lo);
      forall i: nat ensures Bit(v * Pow2(f.lo), i) == Bit(w, i) {
        ShiftLeftBit(v, f.lo, i);
        if i >= f.lo {
          ShiftRightBit(w, f.lo, i - f.lo);
        }
      }
      SameBits(v * Pow2(f.lo), w);
    }
  }

  lemma {:induction false} UnpackElem(fields: seq<Field>, n: nat)
    requires Layout(fields)
    ensures forall k :: 0 <= k < |fields| ==> ElemZ(Unpack(fields, n), fields[k]) == CutOut(fields[k], n)
    decreases |fields|
  {
    hide CutOut;
    if fields != [] {
      var m := |fields| - 1;
      var front := fields[..m];
      UnpackElem(front, n);
      forall k | 0 <= k < m ensures front[k] == fields[k] && Apart(fields[k], fields[m]) {
      }
    }
  }

  lemma Cancel(a: nat, b: nat, p: nat)
    requires p > 0 && a * p == b * p
    ensures a == b
  {
    Multiple(a - b, p);
    assert (a - b) * p == a * p - b * p;
  }

  /** The bit of a field of `rec`, against that of `n`. */
  lemma MeetsIsBits(f: Field, n: nat, rec: Record)
    requires f.lo <= f.hi && Fits(f, ElemZ(rec, f))
    ensures ElemZ(rec, f) == CutOut(f, n) <==> forall i: nat :: Within(f, i) ==>
      Bit(Contribution(f, rec), i) == Bit(n, i)
  {
    hide Fits, CutOut, Contribution;
    CutOutFits(f, n);
    var c, w := Contribution(f, rec), BitAnd(n, Flag(f));
    forall i: nat ensures Bit(w, i) <==> Bit(n, i) && Within(f, i) {
      BitAndBit(n, Flag(f), i);
      FlagBit(f, i);
    }
    if forall i: nat :: Within(f, i) ==> Bit(c, i) == Bit(n, i) {
      forall i: nat ensures Bit(c, i) == Bit(w, i) {
        if Bit(c, i) {
          ContributionBit(f, rec, i);
        }
      }
      SameBits(c, w);
      ContributionTells(f, rec, n);
    }
    if ElemZ(rec, f) == CutOut(f, n) {
      ContributionIs(f, rec, n);
    }
  }

  lemma ContributionTells(f: Field, rec: Record, n: nat)
    requires f.lo <= f.hi && Contribution(f, rec) == BitAnd(n, Flag(f))
    ensures ElemZ(rec, f) == CutOut(f, n)
  {
    CutOutFits(f, n);
    if !f.rich {
      Cancel(ElemZ(rec, f), CutOut(f, n), Pow2(f.lo));
    }
  }

  lemma ContributionIs(f: Field, rec: Record, n: nat)
    requires f.lo <= f.hi && ElemZ(rec, f) == CutOut(f, n)
    ensures Contribution(f, rec) == BitAnd(n, Flag(f))
  {
    CutOutFits(f, n);
  }

  /** Every covered field holds its part of `n`. */
  predicate AllCut(fields: seq<Field>, mask: nat, n: nat, rec: Record) {
    forall k :: 0 <= k < |fields| && Covered(mask, fields[k]) ==> ElemZ(rec, fields[k]) == CutOut(fields[k], n)
  }

  /** With whole fields, and no bit of the result outside them, comparing field by field is comparing. */
  lemma FieldsCompare(fields: seq<Field>, mask: nat, n: nat, rec: Record)
    requires Layout(fields) && InRange(fields, rec) && WholeFields(fields, mask)
      && NoBitsOutside(CoveredFields(fields, mask), n)
    ensures AllCut(fields, mask, n, rec) <==> BitAnd(Pack(fields, rec), mask) == n
  {
    hide CutOut, Covered, Untouched, Contribution, Pack, InRange, Fits;
    CoveredFieldsAre(fields, mask);
    forall k | 0 <= k < |fields| && Covered(mask, fields[k])
      ensures ElemZ(rec, fields[k]) == CutOut(fields[k], n) <==>
        forall i: nat :: Within(fields[k], i) ==> Bit(BitAnd(Pack(fields, rec), mask), i) == Bit(n, i)
    {
      FieldFits(fields, rec, k);
      MeetsIsBits(fields[k], n, rec);
      forall i: nat | Within(fields[k], i) ensures Bit(BitAnd(Pack(fields, rec), mask), i) ==
        Bit(Contribution(fields[k], rec), i) {
        BitAndBit(Pack(fields, rec), mask, i);
        CoveredBits(mask, fields[k]);
        PackBit(fields, rec, i);
      }
    }
    if AllCut(fields, mask, n, rec) {
      forall i: nat ensures Bit(BitAnd(Pack(fields, rec), mask), i) == Bit(n, i) {
        if k :| 0 <= k < |fields| && Within(fields[k], i) && Covered(mask, fields[k]) {
        } else {
          OutsideCovered(fields, mask, n, rec, i);
        }
      }
      SameBits(BitAnd(Pack(fields, rec), mask), n);
    }
  }

  lemma FieldFits(fields: seq<Field>, rec: Record, k: nat)
    requires Layout(fields) && InRange(fields, rec) && k < |fields|
    ensures fields[k].lo <= fields[k].hi && Fits(fields[k], ElemZ(rec, fields[k]))
  {
  }

  lemma OutsideCovered(fields: seq<Field>, mask: nat, n: nat, rec: Record, i: nat)
    requires Layout(fields) && InRange(fields, rec) && WholeFields(fields, mask)
    requires forall k :: 0 <= k < |fields| && Covered(mask, fields[k]) ==> !Within(fields[k], i)
    ensures !Bit(BitAnd(Pack(fields, rec), mask), i)
    ensures NoBitsOutside(CoveredFields(fields, mask), n) ==> !Bit(n, i)
  {
    hide Covered, Untouched, Pack, InRange;
    CoveredFieldsAre(fields, mask);
    BitAndBit(Pack(fields, rec), mask, i);
    PackBit(fields, rec, i);
    if k :| 0 <= k < |fields| && Within(fields[k], i) {
      LayoutOrder(fields, k);
      UntouchedBits(mask, fields[k]);
    }
    var cs := CoveredFields(fields, mask);
    forall j | 0 <= j < |cs| ensures !Within(cs[j], i) {
      assert cs[j] in cs;
      var k :| 0 <= k < |fields| && fields[k] == cs[j];
    }
  }

  ghost predicate ExactFor(fields: seq<Field>, mask: nat, r: Option<nat>, result: nat) {
    forall rec :: InRange(fields, rec) ==>
      (AllMeet(fields, mask, r, rec, result) <==> BitAnd(Pack(fields, rec), mask) == result)
  }

  /** For a constant result the rewriting is exact, for all records, if and only if the mask takes every field
      fully or not at all and the result has no bit outside the fields it takes. */
  lemma MaskEqExactIff(fields: seq<Field>, mask: nat, n: nat)
    requires Layout(fields)
    ensures ExactFor(fields, mask, Some(n), n) <==>
      WholeFields(fields, mask) && NoBitsOutside(CoveredFields(fields, mask), n)
  {
    hide Layout, Covered, Untouched, Pack, InRange, CutOut, Unpack;
    forall rec ensures AllMeet(fields, mask, Some(n), rec, n) <==> AllCut(fields, mask, n, rec) {
      MeetsCut(fields, mask, n, rec);
    }
    if !WholeFields(fields, mask) {
      var k :| 0 <= k < |fields| && !Covered(mask, fields[k]) && !Untouched(mask, fields[k]);
      var rec := CutThrough(fields, mask, n, k);
    } else if NoBitsOutside(CoveredFields(fields, mask), n) {
      forall rec | InRange(fields, rec) ensures AllCut(fields, mask, n, rec) <==> BitAnd(Pack(fields, rec), mask) == n {
        FieldsCompare(fields, mask, n, rec);
      }
    } else {
      BitLost(fields, mask, n);
    }
  }

  lemma MeetsCut(fields: seq<Field>, mask: nat, n: nat, rec: Record)
    ensures AllMeet(fields, mask, Some(n), rec, n) <==> AllCut(fields, mask, n, rec)
  {
    hide Covered, BitAnd, ShiftRight, Flag;
    forall k | 0 <= k < |fields| ensures Meets(fields[k], Some(n), rec, n) <==>
      ElemZ(rec, fields[k]) == CutOut(fields[k], n) {
    }
  }

  /** Two values for a field that is cut through: the comparison holds for both, the masked word is not the same. */
  lemma CutThrough(fields: seq<Field>, mask: nat, n: nat, k: nat) returns (rec: Record)
    requires Layout(fields) && k < |fields| && !Covered(mask, fields[k]) && !Untouched(mask, fields[k])
    ensures InRange(fields, rec) && AllCut(fields, mask, n, rec) && BitAnd(Pack(fields, rec), mask) != n
  {
    var f := fields[k];
    var full := if f.rich then Flag(f) else Pow2(f.hi + 1 - f.lo) - 1;
    UnpackElem(fields, n);
    var a, b := Unpack(fields, n)[f.name := 0], Unpack(fields, n)[f.name := full];
    hide Covered, Untouched, Pack, Unpack, Fits, CutOut;
    UnpackWith(fields, n, k, 0);
    UnpackWith(fields, n, k, full);
    ZeroFits(f);
    FullFits(f);
    UntouchedBits(mask, f);
    var i: nat :| Within(f, i) && Bit(mask, i);
    FlagBit(f, i);
    FullBit(f, b, i);
    ZeroBit(f, a, i);
    PackBit(fields, a, i);
    PackBit(fields, b, i);
    BitAndBit(Pack(fields, a), mask, i);
    BitAndBit(Pack(fields, b), mask, i);
    rec := if BitAnd(Pack(fields, a), mask) != n then a else b;
  }

  lemma ZeroFits(f: Field)
    requires f.lo <= f.hi
    ensures Fits(f, 0)
  {
    forall i: nat ensures !Bit(0, i) {
      BitZero(i);
    }
  }

  lemma FullFits(f: Field)
    requires f.lo <= f.hi
    ensures Fits(f, if f.rich then Flag(f) else Pow2(f.hi + 1 - f.lo) - 1)
  {
    forall i: nat ensures Bit(Flag(f), i) <==> Within(f, i) {
      FlagBit(f, i);
    }
  }

  lemma FullBit(f: Field, rec: Record, i: nat)
    requires f.lo <= f.hi && Within(f, i) && ElemZ(rec, f) == if f.rich then Flag(f) else Pow2(f.hi + 1 - f.lo) - 1
    ensures Bit(Contribution(f, rec), i)
  {
    FlagBit(f, i);
    ShiftLeftBit(ElemZ(rec, f), f.lo, i);
    LowOnesBit(f.hi + 1 - f.lo, i - f.lo);
  }

  lemma ZeroBit(f: Field, rec: Record, i: nat)
    requires ElemZ(rec, f) == 0
    ensures !Bit(Contribution(f, rec), i)
  {
    assert 0 * Pow2(f.lo) == 0;
    BitZero(i);
  }

  lemma UnpackWith(fields: seq<Field>, n: nat, k: nat, v: nat)
    requires Layout(fields) && k < |fields|
    ensures var rec := Unpack(fields, n)[fields[k].name := v];
      && ElemZ(rec, fields[k]) == v
      && (Fits(fields[k], v) ==> InRange(fields, rec))
      && forall j :: 0 <= j < |fields| && j != k ==> ElemZ(rec, fields[j]) == CutOut(fields[j], n)
  {
    hide Unpack, CutOut, Fits;
    UnpackElem(fields, n);
    forall j | 0 <= j < |fields| && j != k ensures fields[j].name != fields[k].name {
      assert (j < k ==> Apart(fields[j], fields[k])) && (k < j ==> Apart(fields[k], fields[j]));
    }
    forall j | 0 <= j < |fields| ensures Fits(fields[j], CutOut(fields[j], n)) {
      CutOutFits(fields[j], n);
    }
  }

  lemma UnpackFits(fields: seq<Field>, n: nat)
    requires Layout(fields)
    ensures InRange(fields, Unpack(fields, n)) && forall k :: 0 <= k < |fields| ==>
      ElemZ(Unpack(fields, n), fields[k]) == CutOut(fields[k], n)
  {
    hide Unpack, CutOut, Fits;
    UnpackElem(fields, n);
    forall j | 0 <= j < |fields| ensures Fits(fields[j], CutOut(fields[j], n)) {
      CutOutFits(fields[j], n);
    }
  }

  lemma BitLost(fields: seq<Field>, mask: nat, n: nat)
    requires Layout(fields) && WholeFields(fields, mask) && !NoBitsOutside(CoveredFields(fields, mask), n)
    ensures var rec := Unpack(fields, n);
      InRange(fields, rec) && AllCut(fields, mask, n, rec) && BitAnd(Pack(fields, rec), mask) != n
  {
    hide Covered, Untouched, Pack, Unpack, InRange, CutOut;
    UnpackFits(fields, n);
    CoveredFieldsAre(fields, mask);
    var cs := CoveredFields(fields, mask);
    var i: nat :| Bit(n, i) && forall j :: 0 <= j < |cs| ==> !Within(cs[j], i);
    forall k | 0 <= k < |fields| && Covered(mask, fields[k]) ensures !Within(fields[k], i) {
      assert fields[k] in cs;
    }
    OutsideCovered(fields, mask, n, Unpack(fields, n), i);
  }

  /** For a symbolic result within whole fields, the rewriting is exact if and only if the result has no bit below
      any rich field that is covered: for such a field the term keeps everything up to the field's last bit. */
  lemma MaskEqSymbolicIff(fields: seq<Field>, mask: nat, result: nat)
    requires Layout(fields) && WholeFields(fields, mask) && NoBitsOutside(CoveredFields(fields, mask), result)
    ensures ExactFor(fields, mask, None, result) <==>
      forall k :: 0 <= k < |fields| && Covered(mask, fields[k]) && fields[k].rich ==> result % Pow2(fields[k].lo) == 0
  {
    hide Covered, Untouched, Pack, InRange, CutOut, Unpack, Expected, WholeFields;
    forall k | 0 <= k < |fields|
      ensures forall rec :: EvalA(Expected(fields[k], None), rec, result) == CutOut(fields[k], result) <==>
                              (fields[k].rich ==> result % Pow2(fields[k].lo) == 0)
    {
      LayoutOrder(fields, k);
      ExpectedIsCut(fields[k], result);
    }
    if forall k :: 0 <= k < |fields| && Covered(mask, fields[k]) && fields[k].rich ==>
      result % Pow2(fields[k].lo) == 0 {
      forall rec | InRange(fields, rec) ensures AllMeet(fields, mask, None, rec, result) <==>
        BitAnd(Pack(fields, rec), mask) == result {
        FieldsCompare(fields, mask, result, rec);
      }
    } else {
      var rec := Unpack(fields, result);
      UnpackFits(fields, result);
      FieldsCompare(fields, mask, result, rec);
    }
  }

  lemma ExpectedIsCut(f: Field, result: nat)
    requires f.lo <= f.hi
    ensures forall rec :: EvalA(Expected(f, None), rec, result) == CutOut(f, result) <==>
      (f.rich ==> result % Pow2(f.lo) == 0)
  {
    var cut := CutOut(f, result);
    if f.rich {
      RichExpected(f, result);
    } else {
      PlainExpected(f, result);
    }
  }

  lemma PlainExpected(f: Field, result: nat)
    requires f.lo <= f.hi && !f.rich
    ensures forall rec :: EvalA(Expected(f, None), rec, result) == CutOut(f, result)
  {
    var a, b := ShiftRight(result, f.lo) % Pow2(Width(f)), ShiftRight(BitAnd(result, Flag(f)), f.lo);
    ShiftIsDiv(result, f.lo);
    forall i: nat ensures Bit(a, i) == Bit(b, i) {
      ModBit(ShiftRight(result, f.lo), Width(f), i);
      ShiftRightBit(result, f.lo, i);
      ShiftRightBit(BitAnd(result, Flag(f)), f.lo, i);
      BitAndBit(result, Flag(f), i + f.lo);
      FlagBit(f, i + f.lo);
    }
    SameBits(a, b);
    forall rec ensures EvalA(Expected(f, None), rec, result) == a {
      assert EvalA(Div(Result, Pow2(f.lo)), rec, result) == result / Pow2(f.lo);
    }
  }

  lemma RichExpected(f: Field, result: nat)
    requires f.lo <= f.hi && f.rich
    ensures forall rec :: EvalA(Expected(f, None), rec, result) == CutOut(f, result) <==> result % Pow2(f.lo) == 0
  {
    var a, b, low := result % Pow2(f.hi + 1), BitAnd(result, Flag(f)), result % Pow2(f.lo);
    forall i: nat ensures (Bit(a, i) <==> i <= f.hi && Bit(result, i))
      && (Bit(b, i) <==> Within(f, i) && Bit(result, i))
      && (Bit(low, i) <==> i < f.lo && Bit(result, i)) && !Bit(0, i)
    {
      ModBit(result, f.hi + 1, i);
      ModBit(result, f.lo, i);
      BitAndBit(result, Flag(f), i);
      FlagBit(f, i);
      BitZero(i);
    }
    if low == 0 {
      forall i: nat ensures Bit(a, i) == Bit(b, i) {
        assert Bit(low, i) <==> i < f.lo && Bit(result, i);
      }
      SameBits(a, b);
    }
    if a == b {
      forall i: nat ensures Bit(low, i) == Bit(0, i) {
        assert Bit(a, i) == Bit(b, i);
      }
      SameBits(low, 0);
    }
  }

  // ---------- `|`

  datatype RecTerm = Whole | SetField(rec: RecTerm, f: Field, n: nat)

  function EvalR(t: RecTerm, rec: Record): Record {
    match t
    case Whole => rec
    case SetField(r, f, n) => EvalR(r, rec)[f.name := n]
  }

  /** A field the flag touches now holds the flag's bits. */
  predicate Overwritten(f: Field, flag: nat, rec: Record, rec': Record) {
    ElemZ(rec', f) == if Untouched(flag, f) then ElemZ(rec, f) else ShiftRight(BitAnd(flag, Flag(f)), f.lo)
  }

  /** The abstraction of `packed | flag` overwrites every field that `flag` touches. */
  method ComputeOr(fields: seq<Field>, flag: nat) returns (r: Option<RecTerm>)
    requires Layout(fields)
    ensures r.None? <==> forall k :: 0 <= k < |fields| ==> Untouched(flag, fields[k])
    ensures r.Some? ==> forall rec, k :: 0 <= k < |fields| ==> Overwritten(fields[k], flag, rec, EvalR(r.value, rec))
  {
    hide Flag, BitAnd, ShiftRight;
    var expr := Whole;
    var modified := false;
    for i := 0 to |fields|
      invariant !modified <==> forall k :: 0 <= k < i ==> Untouched(flag, fields[k])
      invariant forall rec, k :: 0 <= k < i ==> Overwritten(fields[k], flag, rec, EvalR(expr, rec))
      invariant forall rec, k :: i <= k < |fields| ==> ElemZ(EvalR(expr, rec), fields[k]) == ElemZ(rec, fields[k])
    {
      var f := fields[i];
      if BitAnd(flag, Flag(f)) != 0 {
        forall k | 0 <= k < |fields| && k != i ensures fields[k].name != f.name {
          assert (k < i ==> Apart(fields[k], f)) && (i < k ==> Apart(f, fields[k]));
        }
        var next := SetField(expr, f, ShiftRight(BitAnd(flag, Flag(f)), f.lo));
        forall rec: Record, k | 0 <= k < |fields| && k != i ensures ElemZ(EvalR(next, rec), fields[k]) ==
          ElemZ(EvalR(expr, rec), fields[k]) {
        }
        expr := next;
        modified := true;
      }
    }
    r := if modified then Some(expr) else None;
  }

  /** As long as no rich field is touched: overwriting is or-ing if and only if the flag stays inside the fields
      and every field it touches had no other bit set. */
  lemma OrExactIff(fields: seq<Field>, flag: nat, rec: Record, rec': Record)
    requires Layout(fields) && InRange(fields, rec)
    requires forall k :: 0 <= k < |fields| && fields[k].rich ==> Untouched(flag, fields[k])
    requires forall k :: 0 <= k < |fields| ==> Overwritten(fields[k], flag, rec, rec')
    ensures Pack(fields, rec') == BitOr(Pack(fields, rec), flag) <==>
      NoBitsOutside(fields, flag) &&
      forall k :: 0 <= k < |fields| && !Untouched(flag, fields[k]) ==>
        BitAnd(Contribution(fields[k], rec), flag) == Contribution(fields[k], rec)
  {
    hide Untouched, Pack, Fits, Contribution, Flag;
    var a, b := Pack(fields, rec'), BitOr(Pack(fields, rec), flag);
    forall k | 0 <= k < |fields| ensures Fits(fields[k], ElemZ(rec', fields[k]))
      && forall i: nat :: Within(fields[k], i) ==>
           Bit(Contribution(fields[k], rec'), i) == if Untouched(flag, fields[k])
             then Bit(Contribution(fields[k], rec), i) else Bit(flag, i)
    {
      FieldFits(fields, rec, k);
      OrField(fields[k], flag, rec, rec');
    }
    forall i: nat ensures BitOfOr(fields, flag, rec, rec', i) {
      PackBit(fields, rec, i);
      PackBit(fields, rec', i);
      BitOrBit(Pack(fields, rec), flag, i);
      forall k | 0 <= k < |fields| && Within(fields[k], i) && Untouched(flag, fields[k]) ensures !Bit(flag, i) {
        UntouchedBits(flag, fields[k]);
      }
    }
    if NoBitsOutside(fields, flag) &&
       forall k :: 0 <= k < |fields| && !Untouched(flag, fields[k]) ==>
         BitAnd(Contribution(fields[k], rec), flag) == Contribution(fields[k], rec)
    {
      forall i: nat ensures Bit(a, i) == Bit(b, i) {
        assert BitOfOr(fields, flag, rec, rec', i);
        if k :| 0 <= k < |fields| && Within(fields[k], i) && !Untouched(flag, fields[k]) {
          BitAndBit(Contribution(fields[k], rec), flag, i);
        }
      }
      SameBits(a, b);
    }
    if a == b {
      forall i: nat | Bit(flag, i) ensures exists k :: 0 <= k < |fields| && Within(fields[k], i) {
        assert BitOfOr(fields, flag, rec, rec', i);
      }
      forall k | 0 <= k < |fields| && !Untouched(flag, fields[k])
        ensures BitAnd(Contribution(fields[k], rec), flag) == Contribution(fields[k], rec) {
        var c := Contribution(fields[k], rec);
        forall i: nat ensures Bit(BitAnd(c, flag), i) == Bit(c, i) {
          assert BitOfOr(fields, flag, rec, rec', i);
          BitAndBit(c, flag, i);
          if Bit(c, i) {
            ContributionBit(fields[k], rec, i);
          }
        }
        SameBits(BitAnd(c, flag), c);
      }
    }
  }

  /** What is known of bit `i` before and after. */
  ghost predicate BitOfOr(fields: seq<Field>, flag: nat, rec: Record, rec': Record, i: nat) {
    && (forall k :: 0 <= k < |fields| && Within(fields[k], i) ==>
          && Bit(Pack(fields, rec'), i) == (if Untouched(flag, fields[k]) then Bit(Contribution(fields[k], rec), i)
             else Bit(flag, i))
          && Bit(BitOr(Pack(fields, rec), flag), i) == (Bit(Contribution(fields[k], rec), i) || Bit(flag, i))
          && (Untouched(flag, fields[k]) ==> !Bit(flag, i)))
    && ((forall k :: 0 <= k < |fields| ==> !Within(fields[k], i)) ==>
       !Bit(Pack(fields, rec'), i) && Bit(BitOr(Pack(fields, rec), flag), i) == Bit(flag, i))
  }

  lemma OrField(f: Field, flag: nat, rec: Record, rec': Record)
    requires f.lo <= f.hi && Fits(f, ElemZ(rec, f)) && (f.rich ==> Untouched(flag, f))
    requires Overwritten(f, flag, rec, rec')
    ensures Fits(f, ElemZ(rec', f))
    ensures forall i: nat :: Within(f, i) ==>
      Bit(Contribution(f, rec'), i) == if Untouched(flag, f) then Bit(Contribution(f, rec), i) else Bit(flag, i)
  {
    if !Untouched(flag, f) {
      CutOutFits(f, flag);
      forall i: nat | Within(f, i) ensures Bit(Contribution(f, rec'), i) == Bit(flag, i) {
        BitAndBit(flag, Flag(f), i);
        FlagBit(f, i);
      }
    }
  }

  /** `compute_upgrade_or`: from a rich value, the record that has it as its field `j`, and the flag's bits
      elsewhere. */
  method ComputeUpgradeOr(fields: seq<Field>, j: nat, raw: nat, flag: nat) returns (rec: Record)
    requires Layout(fields) && j < |fields| && forall k :: 0 <= k < |fields| ==> (fields[k].rich <==> k == j)
    ensures forall k :: 0 <= k < |fields| ==> ElemZ(rec, fields[k]) == if k == j then raw else CutOut(fields[k], flag)
  {
    hide CutOut;
    rec := map[];
    for i := 0 to |fields|
      invariant forall k :: 0 <= k < i ==> ElemZ(rec, fields[k]) == if k == j then raw else CutOut(fields[k], flag)
    {
      var f := fields[i];
      forall k | 0 <= k < i ensures fields[k].name != f.name {
        assert Apart(fields[k], f);
      }
      rec := rec[f.name := if f.name == fields[j].name then raw else CutOut(f, flag)];
      assert (i < j ==> Apart(f, fields[j])) && (j < i ==> Apart(fields[j], f));
    }
  }

  /** This is or-ing if and only if the flag stays inside the fields and sets no bit in the rich field that the
      rich value does not have. */
  lemma UpgradeExactIff(fields: seq<Field>, j: nat, raw: nat, flag: nat, rec: Record)
    requires Layout(fields) && j < |fields| && (forall k :: 0 <= k < |fields| ==> (fields[k].rich <==> k == j))
      && Fits(fields[j], raw)
    requires forall k :: 0 <= k < |fields| ==> ElemZ(rec, fields[k]) == if k == j then raw else CutOut(fields[k], flag)
    ensures Pack(fields, rec) == BitOr(raw, flag) <==>
      NoBitsOutside(fields, flag) && forall i: nat :: Within(fields[j], i) && Bit(flag, i) ==> Bit(raw, i)
  {
    hide Pack, Fits, Flag, CutOut;
    var a, b := Pack(fields, rec), BitOr(raw, flag);
    forall k | 0 <= k < |fields|
      ensures Fits(fields[k], ElemZ(rec, fields[k]))
      ensures forall i: nat :: Within(fields[k], i) ==>
        Bit(Contribution(fields[k], rec), i) == if k == j then Bit(raw, i) else Bit(flag, i)
    {
      LayoutOrder(fields, k);
      if k != j {
        UpgradeField(fields[k], flag, rec);
      }
    }
    forall i: nat
      ensures forall k :: 0 <= k < |fields| && Within(fields[k], i) ==>
        Bit(a, i) == if k == j then Bit(raw, i) else Bit(flag, i)
      ensures Bit(a, i) ==> exists k :: 0 <= k < |fields| && Within(fields[k], i)
      ensures Bit(b, i) == (Bit(raw, i) || Bit(flag, i)) && (Bit(raw, i) ==> Within(fields[j], i))
    {
      PackBit(fields, rec, i);
      BitOrBit(raw, flag, i);
      if Bit(raw, i) {
        RichWithin(fields[j], raw, i);
      }
    }
    if NoBitsOutside(fields, flag) && forall i: nat :: Within(fields[j], i) && Bit(flag, i) ==> Bit(raw, i) {
      forall i: nat ensures Bit(a, i) == Bit(b, i) {
        if k :| 0 <= k < |fields| && Within(fields[k], i) {
          assert (k < j ==> Apart(fields[k], fields[j])) && (j < k ==> Apart(fields[j], fields[k]));
        }
      }
      SameBits(a, b);
    }
    if a == b {
      forall i: nat | Bit(flag, i) ensures exists k :: 0 <= k < |fields| && Within(fields[k], i) {
        assert Bit(b, i) && Bit(a, i);
      }
      forall i: nat | Within(fields[j], i) && Bit(flag, i) ensures Bit(raw, i) {
        assert Bit(b, i) && Bit(a, i);
      }
    }
  }

  lemma RichWithin(f: Field, raw: nat, i: nat)
    requires f.rich && Fits(f, raw) && Bit(raw, i)
    ensures Within(f, i)
  {
  }

  lemma UpgradeField(f: Field, flag: nat, rec: Record)
    requires f.lo <= f.hi && !f.rich && ElemZ(rec, f) == CutOut(f, flag)
    ensures Fits(f, ElemZ(rec, f)) && forall i: nat :: Within(f, i) ==> Bit(Contribution(f, rec), i) == Bit(flag, i)
  {
    CutOutFits(f, flag);
    forall i: nat | Within(f, i) ensures Bit(Contribution(f, rec), i) == Bit(flag, i) {
      BitAndBit(flag, Flag(f), i);
      FlagBit(f, i);
    }
  }
}
