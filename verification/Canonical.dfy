/** The canonical form of a query: the numbers of its variables, `$x…` and `?x…`, replaced by the order in which
    they first occur. */
module Canonical {
  import opened Prelude

  // ---------- decimal numbers

  function Dec(n: nat): (s: string)
    ensures s != []
  {
    if n < 10 then [DIGITS[n]] else Dec(n / 10) + [DIGITS[n % 10]]
  }

  const DIGITS := "0123456789"

  predicate IsDigit(c: char) {
    '0' <= c <= '9'
  }

  predicate AllDigits(s: string) {
    forall i :: 0 <= i < |s| ==> IsDigit(s[i])
  }

  function DigitValue(c: char): nat
    requires IsDigit(c)
  {
    c as int - '0' as int
  }

  function Number(s: string): nat
    requires AllDigits(s)
  {
    if s == [] then 0 else 10 * Number(s[..|s| - 1]) + DigitValue(s[|s| - 1])
  }

  lemma {:induction false} DecIsNumber(n: nat)
    ensures AllDigits(Dec(n)) && Number(Dec(n)) == n
  {
    DigitOf(n % 10);
    if n < 10 {
      DigitOf(n);
      assert Number([]) == 0 && [DIGITS[n]][..0] == [];
    } else {
      DecIsNumber(n / 10);
      var s := Dec(n);
      assert s[..|s| - 1] == Dec(n / 10) && s[|s| - 1] == DIGITS[n % 10];
    }
  }

  lemma DigitOf(d: nat)
    requires d < 10
    ensures IsDigit(DIGITS[d]) && DigitValue(DIGITS[d]) == d
  {
  }

  lemma DecInjective(a: nat, b: nat)
    requires Dec(a) == Dec(b)
    ensures a == b
  {
    DecIsNumber(a);
    DecIsNumber(b);
  }

  // ---------- pieces of a query

  datatype Piece = Lit(c: char) | Tok(sigil: char, id: string)

  predicate IsSigil(c: char) {
    c == '$' || c == '?'
  }

  /** How many digits `s` starts with. */
  function DigitPrefix(s: string): (n: nat)
    ensures n <= |s| && AllDigits(s[..n]) && (n < |s| ==> !IsDigit(s[n]))
  {
    if s == [] || !IsDigit(s[0]) then 0
    else
      var n := 1 + DigitPrefix(s[1..]);
      assert s[..n] == [s[0]] + s[1..][..n - 1];
      n
  }

  /** Left to right, a variable as long as possible. */
  function Lex(s: string): seq<Piece>
    decreases |s|
  {
    if s == [] then []
    else if |s| >= 2 && IsSigil(s[0]) && s[1] == 'x' then
      var n := DigitPrefix(s[2..]);
      [Tok(s[0], s[2..2 + n])] + Lex(s[2 + n..])
    else [Lit(s[0])] + Lex(s[1..])
  }

  function Show(p: Piece): string {
    match p
    case Lit(c) => [c]
    case Tok(sigil, id) => [sigil, 'x'] + id
  }

  function Print(ps: seq<Piece>): string {
    if ps == [] then [] else Show(ps[0]) + Print(ps[1..])
  }

  /** Pieces that are read back as they are. */
  predicate Separated(ps: seq<Piece>) {
    ps != [] ==>
      && Separated(ps[1..])
      && match ps[0]
         case Lit(c) => !(IsSigil(c) && |ps| > 1 && ps[1] == Lit('x'))
         case Tok(sigil, id) => IsSigil(sigil) && AllDigits(id) && !(|ps| > 1 && ps[1].Lit? && IsDigit(ps[1].c))
  }

  /** The statement starts with a variable. */
  predicate IsToken(s: string) {
    |s| >= 2 && IsSigil(s[0]) && s[1] == 'x'
  }

  lemma LexStep(s: string)
    requires s != []
    ensures IsToken(s) ==> var n := DigitPrefix(s[2..]); Lex(s) == [Tok(s[0], s[2..2 + n])] + Lex(s[2 + n..])
    ensures !IsToken(s) ==> Lex(s) == [Lit(s[0])] + Lex(s[1..])
  {
    hide DigitPrefix;
  }

  lemma PrintCons(p: Piece, ps: seq<Piece>)
    ensures Print([p] + ps) == Show(p) + Print(ps)
    ensures Show(p) == match p
      case Lit(c) => [c]
      case Tok(sigil, id) => [sigil, 'x'] + id
  {
    assert ([p] + ps)[1..] == ps;
  }

  lemma {:induction false} PrintLex(s: string)
    ensures Print(Lex(s)) == s
    decreases |s|
  {
    if s != [] {
      LexStep(s);
      hide Lex, DigitPrefix, Print, Show, IsToken;
      if IsToken(s) {
        var n := DigitPrefix(s[2..]);
        PrintLex(s[2 + n..]);
        PrintCons(Tok(s[0], s[2..2 + n]), Lex(s[2 + n..]));
        TokenParts(s, n);
      } else {
        PrintLex(s[1..]);
        PrintCons(Lit(s[0]), Lex(s[1..]));
        assert s == [s[0]] + s[1..];
      }
    }
  }

  lemma TokenParts(s: string, n: nat)
    requires IsToken(s) && 2 + n <= |s|
    ensures s == [s[0], 'x'] + s[2..2 + n] + s[2 + n..]
  {
  }

  lemma {:induction false} LexSeparated(s: string)
    ensures Separated(Lex(s))
    decreases |s|
  {
    if s != [] {
      if |s| >= 2 && IsSigil(s[0]) && s[1] == 'x' {
        var n := DigitPrefix(s[2..]);
        LexSeparated(s[2 + n..]);
        assert s[2..2 + n] == s[2..][..n];
        LexFirst(s[2 + n..]);
        assert n < |s[2..]| ==> s[2 + n..][0] == s[2..][n];
      } else {
        LexSeparated(s[1..]);
        LexFirst(s[1..]);
      }
    }
  }

  lemma LexFirst(s: string)
    ensures Lex(s) == [] <==> s == []
    ensures s != [] ==> var p := Lex(s)[0]; (p.Lit? ==> p.c == s[0]) && (p.Tok? ==> p.sigil == s[0] && IsSigil(s[0]))
  {
  }

  lemma LexLit(c: char, rest: string)
    requires !(IsSigil(c) && rest != [] && rest[0] == 'x')
    ensures Lex([c] + rest) == [Lit(c)] + Lex(rest)
  {
    assert ([c] + rest)[1..] == rest && ([c] + rest)[0] == c;
    assert rest != [] ==> ([c] + rest)[1] == rest[0];
  }

  lemma LexTok(sigil: char, id: string, rest: string)
    requires IsSigil(sigil) && AllDigits(id) && (rest != [] ==> !IsDigit(rest[0]))
    ensures Lex([sigil, 'x'] + id + rest) == [Tok(sigil, id)] + Lex(rest)
  {
    var s := [sigil, 'x'] + id + rest;
    assert s[0] == sigil && s[1] == 'x' && s[2..] == id + rest;
    PrefixOfDigits(id, rest);
    assert s[2..2 + |id|] == id && s[2 + |id|..] == rest;
  }

  lemma PrintFirst(ps: seq<Piece>)
    ensures Print(ps) == [] <==> ps == []
    ensures ps != [] ==> Print(ps)[0] == match ps[0] case Lit(c) => c case Tok(sigil, _) => sigil
  {
  }

  /** What a piece asks of the text behind it. */
  predicate Fits(p: Piece, rest: string) {
    match p
    case Lit(c) => !(IsSigil(c) && rest != [] && rest[0] == 'x')
    case Tok(sigil, id) => IsSigil(sigil) && AllDigits(id) && (rest != [] ==> !IsDigit(rest[0]))
  }

  lemma SeparatedFirst(ps: seq<Piece>)
    requires ps != [] && Separated(ps)
    ensures Separated(ps[1..]) && Fits(ps[0], Print(ps[1..]))
  {
    PrintFirst(ps[1..]);
    hide Print, AllDigits;
    assert |ps| > 1 ==> ps[1..][0] == ps[1];
  }

  lemma LexPiece(p: Piece, rest: string)
    requires Fits(p, rest)
    ensures Lex(Show(p) + rest) == [p] + Lex(rest)
  {
    hide Lex, AllDigits, IsSigil, IsDigit;
    match p
    case Lit(c) => LexLit(c, rest);
    case Tok(sigil, id) => LexTok(sigil, id, rest);
  }

  lemma PrintStep(ps: seq<Piece>)
    requires ps != []
    ensures Print(ps) == Show(ps[0]) + Print(ps[1..])
  {
  }

  lemma {:induction false} LexPrint(ps: seq<Piece>)
    requires Separated(ps)
    ensures Lex(Print(ps)) == ps
  {
    hide Lex, Print, Show, Separated, Fits;
    if ps != [] {
      SeparatedFirst(ps);
      PrintStep(ps);
      LexPiece(ps[0], Print(ps[1..]));
      LexPrint(ps[1..]);
      HeadThenTail(ps);
    } else {
      NoneLexed();
    }
  }

  lemma NoneLexed()
    ensures Lex(Print([])) == []
  {
  }

  lemma {:induction false} PrefixOfDigits(id: string, rest: string)
    requires AllDigits(id) && (rest != [] ==> !IsDigit(rest[0]))
    ensures DigitPrefix(id + rest) == |id|
  {
    if id == [] {
      assert id + rest == rest;
    } else {
      PrefixOfDigits(id[1..], rest);
      assert (id + rest)[1..] == id[1..] + rest;
    }
  }

  /** The digits that `s` starts with. */
  function Leading(s: string): string {
    if s == [] || !('0' <= s[0] <= '9') then [] else [s[0]] + Leading(s[1..])
  }

  /** The variables of a statement, looked for at every place of it: `$x` or `?x` with all digits that follow. */
  function Variables(s: string): seq<Piece> {
    if s == [] then []
    else
      var here := |s| >= 2 && s[0] in {'$', '?'} && s[1] == 'x';
      (if here then [Tok(s[0], Leading(s[2..]))] else []) + Variables(s[1..])
  }

  function Toks(ps: seq<Piece>): seq<Piece> {
    if ps == [] then [] else (if ps[0].Tok? then [ps[0]] else []) + Toks(ps[1..])
  }

  lemma {:induction false} LeadingIs(s: string)
    ensures Leading(s) == s[..DigitPrefix(s)]
  {
    if s != [] && IsDigit(s[0]) {
      LeadingIs(s[1..]);
      assert s[..DigitPrefix(s)] == [s[0]] + s[1..][..DigitPrefix(s[1..])];
    }
  }

  lemma {:induction false} NoneInDigits(id: string, rest: string)
    requires AllDigits(id)
    ensures Variables(id + rest) == Variables(rest)
  {
    if id == [] {
      assert id + rest == rest;
    } else {
      NoneInDigits(id[1..], rest);
      assert (id + rest)[1..] == id[1..] + rest && IsDigit((id + rest)[0]);
    }
  }

  lemma VariablesStep(s: string)
    requires s != []
    ensures Variables(s) == (if IsToken(s) then [Tok(s[0], Leading(s[2..]))] else []) + Variables(s[1..])
  {
    hide Leading;
  }

  lemma VariablesAfter(s: string)
    requires IsToken(s)
    ensures var n := DigitPrefix(s[2..]);
      Variables(s) == [Tok(s[0], s[2..2 + n])] + Variables(s[2 + n..])
  {
    hide DigitPrefix, Leading, Variables, AllDigits;
    var n := DigitPrefix(s[2..]);
    LeadingIs(s[2..]);
    SplitBehind(s, n);
    NoneInDigits(s[2..2 + n], s[2 + n..]);
    VariablesStep(s);
    BehindSigil(s);
  }

  lemma SplitBehind(s: string, n: nat)
    requires 2 + n <= |s|
    ensures s[2..] == s[2..2 + n] + s[2 + n..] && s[2..][..n] == s[2..2 + n]
  {
  }

  lemma BehindSigil(s: string)
    requires IsToken(s)
    ensures Variables(s[1..]) == Variables(s[2..])
  {
    hide Variables;
    VariablesStep(s[1..]);
    assert s[1..][1..] == s[2..] && s[1..][0] == 'x';
  }

  lemma ToksStep(p: Piece, ps: seq<Piece>)
    ensures Toks([p] + ps) == (if p.Tok? then [p] else []) + Toks(ps)
  {
    assert ([p] + ps)[1..] == ps;
  }

  /** No variable is missed and none is found elsewhere; as no piece is lost (PrintLex) nothing else changes place. */
  lemma {:induction false} LexFindsVariables(s: string)
    ensures Toks(Lex(s)) == Variables(s)
    decreases |s|
  {
    if s != [] {
      LexStep(s);
      hide Lex, Toks, DigitPrefix;
      if IsToken(s) {
        hide Variables;
        var n := DigitPrefix(s[2..]);
        VariablesAfter(s);
        LexFindsVariables(s[2 + n..]);
        ToksStep(Tok(s[0], s[2..2 + n]), Lex(s[2 + n..]));
      } else {
        LexFindsVariables(s[1..]);
        ToksStep(Lit(s[0]), Lex(s[1..]));
      }
    }
  }

  // ---------- renumbering

  /** `ids` are the variables seen so far, in the order in which they have come. */
  function Renumber(ps: seq<Piece>, ids: seq<string>): seq<Piece> {
    if ps == [] then []
    else match ps[0]
      case Lit(_) => [ps[0]] + Renumber(ps[1..], ids)
      case Tok(sigil, id) =>
        var ids' := Seen(ids, id);
        [Tok(sigil, Dec(LastIndex(ids', id) + 1))] + Renumber(ps[1..], ids')
  }

  function Seen(ids: seq<string>, id: string): (r: seq<string>)
    ensures id in r
  {
    if id in ids then ids else ids + [id]
  }

  function Strip(s: string): string {
    if s == [] then [] else (if s[0] == '\n' then [] else [s[0]]) + Strip(s[1..])
  }

  /** `parse`. */
  function Canon(statement: string): string {
    Print(Renumber(Lex(Strip(statement)), []))
  }

  function Ids(ps: seq<Piece>): seq<string> {
    if ps == [] then [] else (if ps[0].Tok? then [ps[0].id] else []) + Ids(ps[1..])
  }

  /** The same pieces but for the numbers. */
  predicate SameShape(ps: seq<Piece>, qs: seq<Piece>) {
    && |ps| == |qs|
    && forall i :: 0 <= i < |ps| ==>
       (ps[i].Lit? ==> qs[i] == ps[i]) && (ps[i].Tok? ==> qs[i].Tok? && qs[i].sigil == ps[i].sigil)
  }

  /** Both sequences repeat themselves in the same places. */
  predicate SamePattern(a: seq<string>, b: seq<string>) {
    |a| == |b| && forall i, j :: 0 <= i < |a| && 0 <= j < |a| ==> (a[i] == a[j] <==> b[i] == b[j])
  }

  lemma {:induction false} RenumberSame(ps: seq<Piece>, qs: seq<Piece>, a: seq<string>, b: seq<string>)
    requires NoDup(a) && NoDup(b) && |a| == |b|
    ensures Renumber(ps, a) == Renumber(qs, b) <==> SameShape(ps, qs) && SamePattern(a + Ids(ps), b + Ids(qs))
    decreases |ps|
  {
    if ps == [] || qs == [] {
      RenumberLength(ps, a);
      RenumberLength(qs, b);
      if ps == [] && qs == [] {
        assert a + Ids(ps) == a && b + Ids(qs) == b;
      }
    } else {
      RenumberStep(ps, a);
      RenumberStep(qs, b);
      ShapeStep(ps, qs);
      if ps[0].Lit? || qs[0].Lit? {
        RenumberSame(ps[1..], qs[1..], a, b);
        if ps[0] == qs[0] {
          assert Ids(ps) == Ids(ps[1..]) && Ids(qs) == Ids(qs[1..]);
        }
      } else {
        TokSame(ps, qs, a, b);
      }
    }
  }

  lemma {:induction false} RenumberLength(ps: seq<Piece>, ids: seq<string>)
    ensures |Renumber(ps, ids)| == |ps|
  {
    if ps != [] {
      RenumberLength(ps[1..], if ps[0].Tok? then Seen(ids, ps[0].id) else ids);
    }
  }

  lemma RenumberFirst(ps: seq<Piece>, ids: seq<string>)
    requires ps != []
    ensures ps[0].Lit? ==> Renumber(ps, ids) == [ps[0]] + Renumber(ps[1..], ids)
    ensures ps[0].Tok? ==> var ids' := Seen(ids, ps[0].id);
      Renumber(ps, ids) == [Tok(ps[0].sigil, Dec(LastIndex(ids', ps[0].id) + 1))] + Renumber(ps[1..], ids')
  {
    hide Seen, LastIndex, Dec;
  }

  lemma RenumberStep(ps: seq<Piece>, ids: seq<string>)
    requires ps != []
    ensures Renumber(ps, ids) != []
    ensures ps[0].Lit? ==> Renumber(ps, ids)[0] == ps[0] && Renumber(ps, ids)[1..] == Renumber(ps[1..], ids)
    ensures ps[0].Tok? ==> var ids' := Seen(ids, ps[0].id);
      Renumber(ps, ids)[0] == Tok(ps[0].sigil, Dec(LastIndex(ids', ps[0].id) + 1))
        && Renumber(ps, ids)[1..] == Renumber(ps[1..], ids')
  {
    RenumberFirst(ps, ids);
    hide Renumber, Seen, LastIndex, Dec;
    var rest := if ps[0].Lit? then Renumber(ps[1..], ids) else Renumber(ps[1..], Seen(ids, ps[0].id));
    assert Renumber(ps, ids) == [Renumber(ps, ids)[0]] + rest;
  }

  lemma ShapeStep(ps: seq<Piece>, qs: seq<Piece>)
    requires ps != [] && qs != []
    ensures SameShape(ps, qs) <==>
      SameShape(ps[1..], qs[1..]) && (ps[0].Lit? ==> qs[0] == ps[0])
        && (ps[0].Tok? ==> qs[0].Tok? && qs[0].sigil == ps[0].sigil)
  {
    assert ps == [ps[0]] + ps[1..] && qs == [qs[0]] + qs[1..];
  }

  lemma {:induction false} TokSame(ps: seq<Piece>, qs: seq<Piece>, a: seq<string>, b: seq<string>)
    requires NoDup(a) && NoDup(b) && |a| == |b| && ps != [] && qs != [] && ps[0].Tok? && qs[0].Tok?
    ensures Renumber(ps, a) == Renumber(qs, b) <==> SameShape(ps, qs) && SamePattern(a + Ids(ps), b + Ids(qs))
    decreases |ps|, 0
  {
    hide Renumber, SameShape, SamePattern, Dec, Ids, Seen, LastIndex, NoDup;
    var x, y := ps[0].id, qs[0].id;
    var a', b' := Seen(a, x), Seen(b, y);
    SeenNoDup(a, x);
    SeenNoDup(b, y);
    RenumberStep(ps, a);
    RenumberStep(qs, b);
    ShapeStep(ps, qs);
    IdsStep(ps);
    IdsStep(qs);
    HeadAndTail(Renumber(ps, a), Renumber(qs, b));
    var k, l := LastIndex(a', x), LastIndex(b', y);
    if k == l {
      SeenAlike(a, b, x, y);
      RenumberSame(ps[1..], qs[1..], a', b');
      PatternKept(a, b, x, y, Ids(ps[1..]), Ids(qs[1..]));
    } else {
      if Dec(k + 1) == Dec(l + 1) {
        DecInjective(k + 1, l + 1);
      }
      PatternBroken(a, b, x, y, Ids(ps[1..]), Ids(qs[1..]));
    }
  }

  lemma HeadAndTail(ps: seq<Piece>, qs: seq<Piece>)
    requires ps != [] && qs != []
    ensures ps == qs <==> ps[0] == qs[0] && ps[1..] == qs[1..]
  {
    assert ps == [ps[0]] + ps[1..] && qs == [qs[0]] + qs[1..];
  }

  lemma IdsStep(ps: seq<Piece>)
    ensures Ids(ps) == if ps == [] then [] else (if ps[0].Tok? then [ps[0].id] else []) + Ids(ps[1..])
  {
  }

  lemma SeenNoDup(a: seq<string>, x: string)
    requires NoDup(a)
    ensures NoDup(Seen(a, x))
  {
  }

  lemma SeenAlike(a: seq<string>, b: seq<string>, x: string, y: string)
    requires |a| == |b| && LastIndex(Seen(a, x), x) == LastIndex(Seen(b, y), y)
    ensures (x in a <==> y in b) && |Seen(a, x)| == |Seen(b, y)|
  {
    assert x !in a ==> LastIndex(Seen(a, x), x) == |a|;
    assert y !in b ==> LastIndex(Seen(b, y), y) == |b|;
  }

  lemma SeenAt(a: seq<string>, x: string)
    requires x in a
    ensures Seen(a, x) == a && LastIndex(Seen(a, x), x) < |a| && a[LastIndex(Seen(a, x), x)] == x
  {
  }

  lemma Regroup(a: seq<string>, x: string, p: seq<string>)
    requires x !in a
    ensures a + ([x] + p) == Seen(a, x) + p
  {
  }

  /** What stands at the same place in both does not count. */
  lemma PatternKept(a: seq<string>, b: seq<string>, x: string, y: string, p: seq<string>, q: seq<string>)
    requires |a| == |b| && LastIndex(Seen(a, x), x) == LastIndex(Seen(b, y), y) && (x in a <==> y in b)
    ensures SamePattern(a + ([x] + p), b + ([y] + q)) <==> SamePattern(Seen(a, x) + p, Seen(b, y) + q)
  {
    hide SamePattern, NoDup, LastIndex;
    var k := LastIndex(Seen(a, x), x);
    if x in a {
      SeenAt(a, x);
      SeenAt(b, y);
      PatternRepeat(a, b, p, q, k);
    } else {
      Regroup(a, x, p);
      Regroup(b, y, q);
    }
  }

  lemma PatternRepeat(a: seq<string>, b: seq<string>, p: seq<string>, q: seq<string>, k: nat)
    requires |a| == |b| && k < |a|
    ensures SamePattern(a + ([a[k]] + p), b + ([b[k]] + q)) <==> SamePattern(a + p, b + q)
  {
    var s, t, s', t', n := a + ([a[k]] + p), b + ([b[k]] + q), a + p, b + q, |a|;
    if |p| == |q| {
      hide SamePattern;
      forall i | 0 <= i < |s'| ensures s'[i] == s[Skip(n, i)] && t'[i] == t[Skip(n, i)] {
      }
      forall i | 0 <= i < |s| ensures s[i] == s'[Back(n, k, i)] && t[i] == t'[Back(n, k, i)] {
      }
      PatternVia(s, t, s', t', i => Skip(n, i));
      PatternVia(s', t', s, t, i => Back(n, k, i));
    }
  }

  function Skip(n: nat, i: int): int {
    if i < n then i else i + 1
  }

  function Back(n: nat, k: nat, i: int): int {
    if i < n then i else if i == n then k else i - 1
  }

  /** Picking the same places of both keeps the pattern. */
  lemma PatternVia(s: seq<string>, t: seq<string>, s': seq<string>, t': seq<string>, f: int -> int)
    requires |s| == |t| && |s'| == |t'|
    requires forall i :: 0 <= i < |s'| ==> 0 <= f(i) < |s| && s'[i] == s[f(i)] && t'[i] == t[f(i)]
    ensures SamePattern(s, t) ==> SamePattern(s', t')
  {
  }

  lemma PatternBroken(a: seq<string>, b: seq<string>, x: string, y: string, p: seq<string>, q: seq<string>)
    requires NoDup(a) && NoDup(b) && |a| == |b| && LastIndex(Seen(a, x), x) != LastIndex(Seen(b, y), y)
    ensures !SamePattern(a + ([x] + p), b + ([y] + q))
  {
    var k, l := LastIndex(Seen(a, x), x), LastIndex(Seen(b, y), y);
    var s, t, n := a + ([x] + p), b + ([y] + q), |a|;
    assert s[n] == x && t[n] == y;
    if k < n {
      assert s[k] == s[n];
      assert t[k] != t[n];
    } else {
      assert t[l] == t[n];
      assert s[l] != s[n];
    }
  }

  // ---------- the canonical form decides equality up to renaming

  predicate Injective(f: map<string, string>) {
    forall x, y :: x in f && y in f && f[x] == f[y] ==> x == y
  }

  function Rename(f: map<string, string>, p: Piece): Piece {
    if p.Tok? && p.id in f then Tok(p.sigil, f[p.id]) else p
  }

  /** Some injective renaming of the variables' numbers, whatever their sigils, makes `qs` out of `ps`. */
  ghost predicate Renamed(ps: seq<Piece>, qs: seq<Piece>) {
    |ps| == |qs| && exists f :: Injective(f) && RenamedBy(f, ps, qs)
  }

  predicate RenamedBy(f: map<string, string>, ps: seq<Piece>, qs: seq<Piece>) {
    |ps| == |qs| && (forall x :: x in Ids(ps) ==> x in f) && forall i :: 0 <= i < |ps| ==> qs[i] == Rename(f, ps[i])
  }

  lemma {:induction false} IdsRenamed(f: map<string, string>, ps: seq<Piece>, qs: seq<Piece>)
    requires RenamedBy(f, ps, qs)
    ensures |Ids(ps)| == |Ids(qs)| && forall i :: 0 <= i < |Ids(ps)| ==> Ids(ps)[i] in f && Ids(qs)[i] == f[Ids(ps)[i]]
  {
    hide Ids;
    if ps != [] {
      IdsStep(ps);
      IdsStep(qs);
      assert forall i :: 0 <= i < |ps| - 1 ==> ps[1..][i] == ps[i + 1] && qs[1..][i] == qs[i + 1];
      assert qs[0] == Rename(f, ps[0]);
      IdsRenamed(f, ps[1..], qs[1..]);
    } else {
      IdsStep(ps);
      IdsStep(qs);
    }
  }

  predicate Pairs(f: map<string, string>, a: seq<string>, b: seq<string>) {
    |a| == |b| && forall i :: 0 <= i < |a| ==> a[i] in f && f[a[i]] == b[i]
  }

  lemma PairsBehind(f: map<string, string>, x: string, y: string, a: seq<string>, b: seq<string>)
    requires Pairs(f, [x] + a, [y] + b)
    ensures Pairs(f, a, b) && x in f && f[x] == y
  {
    var xs, ys := [x] + a, [y] + b;
    assert xs[0] == x && ys[0] == y;
    forall i | 0 <= i < |a| ensures a[i] in f && f[a[i]] == b[i] {
      assert xs[i + 1] == a[i] && ys[i + 1] == b[i];
    }
  }

  lemma {:induction false} RenamedFromIds(f: map<string, string>, ps: seq<Piece>, qs: seq<Piece>)
    requires SameShape(ps, qs) && Pairs(f, Ids(ps), Ids(qs))
    ensures RenamedBy(f, ps, qs)
  {
    if ps != [] {
      ShapeStep(ps, qs);
      IdsStep(ps);
      IdsStep(qs);
      hide Ids, RenamedBy, SameShape, Pairs;
      if ps[0].Tok? {
        PairsBehind(f, ps[0].id, qs[0].id, Ids(ps[1..]), Ids(qs[1..]));
      } else {
        assert Ids(ps) == Ids(ps[1..]) && Ids(qs) == Ids(qs[1..]);
      }
      RenamedFromIds(f, ps[1..], qs[1..]);
      RenamedStep(f, ps, qs);
    }
  }

  lemma RenamedStep(f: map<string, string>, ps: seq<Piece>, qs: seq<Piece>)
    requires ps != [] && qs != [] && RenamedBy(f, ps[1..], qs[1..]) && qs[0] == Rename(f, ps[0])
    requires ps[0].Tok? ==> ps[0].id in f
    ensures RenamedBy(f, ps, qs)
  {
    hide Ids, Rename;
    IdsStep(ps);
    forall i | 0 <= i < |ps| ensures qs[i] == Rename(f, ps[i]) {
      assert i > 0 ==> ps[1..][i - 1] == ps[i] && qs[1..][i - 1] == qs[i];
    }
  }

  /** The renaming that the two sequences show. */
  function Pairing(a: seq<string>, b: seq<string>): map<string, string>
    requires |a| == |b|
  {
    map x | x in a :: b[LastIndex(a, x)]
  }

  lemma PatternIsRenaming(ps: seq<Piece>, qs: seq<Piece>)
    ensures SameShape(ps, qs) && SamePattern(Ids(ps), Ids(qs)) <==> Renamed(ps, qs)
  {
    if SameShape(ps, qs) && SamePattern(Ids(ps), Ids(qs)) {
      var a, b := Ids(ps), Ids(qs);
      var f := Pairing(a, b);
      PairingOk(a, b);
      RenamedFromIds(f, ps, qs);
    }
    if Renamed(ps, qs) {
      var f :| Injective(f) && RenamedBy(f, ps, qs);
      IdsRenamed(f, ps, qs);
      ShapeOf(f, ps, qs);
    }
  }

  lemma PairingOk(a: seq<string>, b: seq<string>)
    requires SamePattern(a, b)
    ensures Injective(Pairing(a, b)) && forall i :: 0 <= i < |a| ==>
      a[i] in Pairing(a, b) && Pairing(a, b)[a[i]] == b[i]
  {
  }

  lemma ShapeOf(f: map<string, string>, ps: seq<Piece>, qs: seq<Piece>)
    requires RenamedBy(f, ps, qs)
    ensures SameShape(ps, qs)
  {
    hide Ids;
  }

  lemma {:induction false} RenumberSeparated(ps: seq<Piece>, ids: seq<string>)
    requires Separated(ps)
    ensures Separated(Renumber(ps, ids))
  {
    if ps != [] {
      RenumberStep(ps, ids);
      var ids' := if ps[0].Tok? then Seen(ids, ps[0].id) else ids;
      RenumberSeparated(ps[1..], ids');
      RenumberLength(ps, ids);
      var rs := Renumber(ps, ids);
      assert rs[1..] == Renumber(ps[1..], ids');
      if |ps| > 1 {
        RenumberStep(ps[1..], ids');
        assert rs[1] == Renumber(ps[1..], ids')[0] && ps[1] == ps[1..][0];
      }
      if ps[0].Tok? {
        DecIsNumber(LastIndex(ids', ps[0].id) + 1);
      }
    }
  }

  /** Equal canonical forms mean equal statements up to line breaks and a renaming of the variables, and only that. */
  lemma CanonDecides(s: string, t: string)
    ensures Canon(s) == Canon(t) <==> Renamed(Lex(Strip(s)), Lex(Strip(t)))
  {
    var ps, qs := Lex(Strip(s)), Lex(Strip(t));
    hide Renumber, Renamed, SamePattern, SameShape, Lex, Strip, Print;
    LexSeparated(Strip(s));
    LexSeparated(Strip(t));
    RenumberSeparated(ps, []);
    RenumberSeparated(qs, []);
    LexPrint(Renumber(ps, []));
    LexPrint(Renumber(qs, []));
    RenumberSame(ps, qs, [], []);
    assert [] + Ids(ps) == Ids(ps) && [] + Ids(qs) == Ids(qs);
    PatternIsRenaming(ps, qs);
  }

  /** The same shape, and the same repetitions after `ids` on the one side and the numbers for them on the other. */
  predicate IsRenumbered(ps: seq<Piece>, rs: seq<Piece>, ids: seq<string>) {
    SameShape(ps, rs) && |Ids(rs)| == |Ids(ps)| && SamePattern(ids + Ids(ps), Numbers(|ids|) + Ids(rs))
  }

  lemma {:induction false} RenumberIsRenaming(ps: seq<Piece>, ids: seq<string>)
    requires NoDup(ids)
    ensures IsRenumbered(ps, Renumber(ps, ids), ids)
  {
    var rs := Renumber(ps, ids);
    if ps == [] {
      NumbersPattern(ids);
      assert ids + Ids(ps) == ids && Numbers(|ids|) + Ids(rs) == Numbers(|ids|);
    } else {
      hide Renumber, SameShape, SamePattern, Dec, Seen, LastIndex, NoDup, Ids, Numbers;
      RenumberStep(ps, ids);
      if ps[0].Lit? {
        RenumberIsRenaming(ps[1..], ids);
        IdsStep(ps);
        IdsStep(rs);
        ShapeStep(ps, rs);
        assert Ids(ps) == Ids(ps[1..]) && Ids(rs) == Ids(rs[1..]);
      } else {
        hide IsRenumbered;
        SeenSame(ids, ps[0].id);
        RenumberIsRenaming(ps[1..], Seen(ids, ps[0].id));
        TokIsRenumbered(ps, rs, ids);
      }
    }
  }

  lemma TokIsRenumbered(ps: seq<Piece>, rs: seq<Piece>, ids: seq<string>)
    requires NoDup(ids) && ps != [] && rs != [] && ps[0].Tok?
    requires rs[0] == Tok(ps[0].sigil, Dec(LastIndex(Seen(ids, ps[0].id), ps[0].id) + 1))
    requires IsRenumbered(ps[1..], rs[1..], Seen(ids, ps[0].id))
    ensures IsRenumbered(ps, rs, ids)
  {
    hide Renumber, SameShape, SamePattern, Dec, Seen, LastIndex, NoDup, Ids, Numbers;
    var x := ps[0].id;
    var k := LastIndex(Seen(ids, x), x);
    IdsStep(ps);
    IdsStep(rs);
    ShapeStep(ps, rs);
    NumbersSeen(ids, x);
    SeenAlike(ids, Numbers(|ids|), x, Dec(k + 1));
    PatternKept(ids, Numbers(|ids|), x, Dec(k + 1), Ids(ps[1..]), Ids(rs[1..]));
  }

  /** The numbers from 1 on. */
  function Numbers(n: nat): (r: seq<string>)
    ensures |r| == n && forall i :: 0 <= i < n ==> r[i] == Dec(i + 1)
  {
    seq(n, i requires 0 <= i => Dec(i + 1))
  }

  lemma NumbersPattern(ids: seq<string>)
    requires NoDup(ids)
    ensures NoDup(Numbers(|ids|)) && SamePattern(ids, Numbers(|ids|))
  {
    hide Dec;
    forall i, j | 0 <= i < |ids| && 0 <= j < |ids| && Numbers(|ids|)[i] == Numbers(|ids|)[j] ensures i == j {
      DecInjective(i + 1, j + 1);
    }
  }

  lemma NumbersSeen(ids: seq<string>, x: string)
    requires NoDup(ids)
    ensures var ids' := Seen(ids, x);
      var k := LastIndex(ids', x);
      && NoDup(ids') && NoDup(Numbers(|ids|)) && Seen(Numbers(|ids|), Dec(k + 1)) == Numbers(|ids'|)
      && LastIndex(Seen(Numbers(|ids|), Dec(k + 1)), Dec(k + 1)) == k
  {
    hide Dec;
    var ids' := Seen(ids, x);
    var k, ns := LastIndex(ids', x), Numbers(|ids|);
    NumbersPattern(ids);
    NumbersPattern(ids');
    if x in ids {
      assert ns[k] == Dec(k + 1);
    } else if Dec(k + 1) in ns {
      var j :| 0 <= j < |ns| && ns[j] == Dec(k + 1);
      DecInjective(j + 1, k + 1);
    } else {
      assert Numbers(|ids'|) == ns + [Dec(k + 1)];
    }
    assert Numbers(|ids'|)[k] == Dec(k + 1);
  }

  lemma {:induction false} StripNone(s: string)
    requires '\n' !in s
    ensures Strip(s) == s
  {
    if s != [] {
      StripNone(s[1..]);
    }
  }

  lemma {:induction false} StripLeavesNone(s: string)
    ensures '\n' !in Strip(s)
  {
    if s != [] {
      StripLeavesNone(s[1..]);
    }
  }

  lemma {:induction false} PrintHas(ps: seq<Piece>, c: char)
    requires c in Print(ps)
    ensures exists i :: 0 <= i < |ps| && c in Show(ps[i])
  {
    if c in Show(ps[0]) {
    } else {
      PrintHas(ps[1..], c);
      var i :| 0 <= i < |ps[1..]| && c in Show(ps[1..][i]);
      assert ps[i + 1] == ps[1..][i];
    }
  }

  lemma {:induction false} PrintShows(ps: seq<Piece>, i: nat, c: char)
    requires i < |ps| && c in Show(ps[i])
    ensures c in Print(ps)
  {
    hide Print, Show;
    assert ps == [ps[0]] + ps[1..];
    PrintCons(ps[0], ps[1..]);
    if i > 0 {
      PrintShows(ps[1..], i - 1, c);
    }
  }

  /** Renumbering brings in no character but digits. */
  lemma CanonHasNoNew(s: string, c: char)
    requires c in Canon(s) && !IsDigit(c)
    ensures c in Strip(s)
  {
    var ps := Lex(Strip(s));
    PrintHas(Renumber(ps, []), c);
    var i :| 0 <= i < |Renumber(ps, [])| && c in Show(Renumber(ps, [])[i]);
    RenumberAt(ps, [], i);
    PrintShows(ps, i, c);
    PrintLex(Strip(s));
  }

  lemma {:induction false} RenumberAt(ps: seq<Piece>, ids: seq<string>, i: nat)
    requires i < |Renumber(ps, ids)|
    ensures i < |ps|
    ensures var r := Renumber(ps, ids)[i]; (ps[i].Lit? ==> r == ps[i]) && (ps[i].Tok? ==>
      r.Tok? && r.sigil == ps[i].sigil && AllDigits(r.id))
  {
    RenumberLength(ps, ids);
    RenumberStep(ps, ids);
    var ids' := if ps[0].Tok? then Seen(ids, ps[0].id) else ids;
    if i > 0 {
      RenumberAt(ps[1..], ids', i - 1);
      assert Renumber(ps, ids)[i] == Renumber(ps[1..], ids')[i - 1];
    } else if ps[0].Tok? {
      DecIsNumber(LastIndex(ids', ps[0].id) + 1);
    }
  }

  lemma RenumberIdempotent(ps: seq<Piece>)
    ensures Renumber(Renumber(ps, []), []) == Renumber(ps, [])
  {
    var rs := Renumber(ps, []);
    hide Renumber, SamePattern, SameShape, Ids;
    RenumberIsRenaming(ps, []);
    RenumberSame(ps, rs, [], []);
    assert [] + Ids(ps) == Ids(ps) && [] + Ids(rs) == Ids(rs) && Numbers(0) + Ids(rs) == Ids(rs);
  }

  lemma CanonHasNoBreak(s: string)
    ensures '\n' !in Canon(s)
  {
    StripLeavesNone(s);
    if '\n' in Canon(s) {
      CanonHasNoNew(s, '\n');
    }
  }

  /** Canonical forms are their own canonical forms. */
  lemma CanonIdempotent(s: string)
    ensures Canon(Canon(s)) == Canon(s)
  {
    var ps := Lex(Strip(s));
    CanonHasNoBreak(s);
    StripNone(Canon(s));
    hide Renumber, Lex, Strip, Print;
    LexSeparated(Strip(s));
    RenumberSeparated(ps, []);
    LexPrint(Renumber(ps, []));
    RenumberIdempotent(ps);
  }

  /** Line breaks, and nothing else, are taken out. */
  lemma {:induction false} StripJoins(line: string, rest: string)
    requires '\n' !in line
    ensures Strip(line + "\n" + rest) == line + Strip(rest)
  {
    var s := line + "\n" + rest;
    if line == [] {
      assert s[1..] == rest;
    } else {
      assert s[1..] == line[1..] + "\n" + rest;
      StripJoins(line[1..], rest);
    }
  }

  function Elements(ids: seq<string>): (r: set<string>)
    ensures forall x :: x in r <==> x in ids
  {
    set x | x in ids
  }

  lemma {:induction false} DistinctCount(ids: seq<string>)
    requires NoDup(ids)
    ensures |Elements(ids)| == |ids|
  {
    if ids == [] {
      assert Elements(ids) == {};
    } else {
      var n := |ids| - 1;
      DistinctCount(ids[..n]);
      assert Elements(ids) == Elements(ids[..n]) + {ids[n]};
    }
  }

  /** In the new pieces a variable that comes for the first time has the next number. */
  lemma {:induction false} FirstIsNext(ps: seq<Piece>, ids: seq<string>, i: nat)
    requires NoDup(ids) && i < |Ids(ps)| && Ids(ps)[i] !in ids + Ids(ps)[..i]
    ensures i < |Ids(Renumber(ps, ids))|
    ensures Ids(Renumber(ps, ids))[i] == Dec(|Elements(ids + Ids(ps)[..i])| + 1)
  {
    var rs := Renumber(ps, ids);
    hide Renumber, Dec, Seen, LastIndex, NoDup, Ids;
    IdsStep(ps);
    RenumberFirst(ps, ids);
    IdsStep(rs);
    if ps[0].Lit? {
      assert Ids(ps) == Ids(ps[1..]) && Ids(rs) == Ids(rs[1..]);
      FirstIsNext(ps[1..], ids, i);
    } else if i == 0 {
      SeenNew(ids, ps[0].id);
      DistinctCount(ids);
      assert ids + Ids(ps)[..0] == ids;
    } else {
      NextIsNext(ps, ids, i);
      FirstIsNext(ps[1..], Seen(ids, ps[0].id), i - 1);
      assert Ids(rs)[i] == Ids(rs[1..])[i - 1];
    }
  }

  lemma NextIsNext(ps: seq<Piece>, ids: seq<string>, i: nat)
    requires NoDup(ids) && ps != [] && ps[0].Tok? && 0 < i < |Ids(ps)| && Ids(ps)[i] !in ids + Ids(ps)[..i]
    ensures var next, before := Seen(ids, ps[0].id), Ids(ps[1..])[..i - 1];
      && NoDup(next) && i - 1 < |Ids(ps[1..])| && Ids(ps[1..])[i - 1] == Ids(ps)[i] && Ids(ps)[i] !in next + before
      && Elements(next + before) == Elements(ids + Ids(ps)[..i])
  {
    hide Seen, NoDup, Ids;
    IdsStep(ps);
    SeenSame(ids, ps[0].id);
    assert Ids(ps)[..i] == [ps[0].id] + Ids(ps[1..])[..i - 1];
  }

  lemma SeenNew(ids: seq<string>, x: string)
    requires x !in ids
    ensures LastIndex(Seen(ids, x), x) == |ids|
  {
  }

  lemma SeenSame(ids: seq<string>, x: string)
    requires NoDup(ids)
    ensures NoDup(Seen(ids, x)) && forall y :: y in Seen(ids, x) <==> y in ids || y == x
  {
  }

  /** The canonical form: the statement without its line breaks, in which the variables keep their places and their
      first characters, repeat themselves where they did, and are numbered from 1 on as they first come. */
  lemma CanonNumbers(s: string)
    ensures var ps, rs := Lex(Strip(s)), Lex(Canon(s));
      && SameShape(ps, rs) && |Ids(rs)| == |Ids(ps)| && SamePattern(Ids(ps), Ids(rs))
      && forall i :: 0 <= i < |Ids(ps)| && Ids(ps)[i] !in Ids(ps)[..i] ==>
        Ids(rs)[i] == Dec(|Elements(Ids(ps)[..i])| + 1)
  {
    var ps := Lex(Strip(s));
    var rs := Renumber(ps, []);
    hide Renumber, Lex, Strip, Print, Dec, Ids, SameShape, SamePattern, Elements;
    LexSeparated(Strip(s));
    RenumberSeparated(ps, []);
    LexPrint(rs);
    RenumberIsRenaming(ps, []);
    assert [] + Ids(ps) == Ids(ps) && Numbers(0) + Ids(rs) == Ids(rs);
    forall i | 0 <= i < |Ids(ps)| && Ids(ps)[i] !in Ids(ps)[..i]
      ensures Ids(rs)[i] == Dec(|Elements(Ids(ps)[..i])| + 1)
    {
      assert [] + Ids(ps)[..i] == Ids(ps)[..i];
      FirstIsNext(ps, [], i);
    }
  }

  // ---------- the replacement loop

  lemma HeadThenTail(ps: seq<Piece>)
    requires ps != []
    ensures ps == [ps[0]] + ps[1..]
  {
  }

  lemma OneMorePiece(done: seq<Piece>, p: Piece, rest: seq<Piece>)
    ensures done + ([p] + rest) == done + [p] + rest
  {
  }

  /** `seen` and `counter` stand for the variables met so far. */
  predicate Numbered(seen: map<string, nat>, counter: nat, ids: seq<string>) {
    && counter == |ids| + 1 && NoDup(ids)
    && (forall x :: x in seen ==> x in ids)
    && (forall k :: 0 <= k < |ids| ==> ids[k] in seen && seen[ids[k]] == k + 1)
  }

  method NumberOf(seen0: map<string, nat>, counter0: nat, ghost ids: seq<string>, id: string)
    returns (seen: map<string, nat>, counter: nat)
    requires Numbered(seen0, counter0, ids)
    ensures Numbered(seen, counter, Seen(ids, id)) && id in seen && seen[id] == LastIndex(Seen(ids, id), id) + 1
  {
    seen, counter := seen0, counter0;
    if id !in seen {
      seen := seen[id := counter];
      counter := counter + 1;
    }
  }

  /** Every match is replaced as it is met; `seen` holds the number given to each variable. */
  method RenumberAll(ps: seq<Piece>) returns (rs: seq<Piece>)
    ensures rs == Renumber(ps, [])
  {
    rs := [];
    var seen: map<string, nat> := map[];
    var counter: nat := 1;
    ghost var ids: seq<string> := [];
    assert ps[0..] == ps && [] + Renumber(ps, ids) == Renumber(ps, ids);
    for i := 0 to |ps|
      invariant Numbered(seen, counter, ids)
      invariant Renumber(ps, []) == rs + Renumber(ps[i..], ids)
    {
      hide Renumber, Numbered, Seen, LastIndex, Dec;
      RenumberStep(ps[i..], ids);
      HeadThenTail(Renumber(ps[i..], ids));
      assert ps[i..][0] == ps[i] && ps[i..][1..] == ps[i + 1..];
      OneMorePiece(rs, Renumber(ps[i..], ids)[0], Renumber(ps[i..], ids)[1..]);
      match ps[i]
      case Lit(_) => rs := rs + [ps[i]];
      case Tok(sigil, id) =>
        seen, counter := NumberOf(seen, counter, ids, id);
        ids := Seen(ids, id);
        rs := rs + [Tok(sigil, Dec(seen[id]))];
    }
    assert ps[|ps|..] == [] && rs + [] == rs;
  }

  method Parse(statement: string) returns (canon: string)
    ensures canon == Canon(statement)
  {
    var rs := RenumberAll(Lex(Strip(statement)));
    canon := Print(rs);
  }
}
