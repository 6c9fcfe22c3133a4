/** The cache of solver results that survives in a file.

    A file is one line of records `{{statement}{result}}`. */
module QueryCache {
  import opened Prelude
  import opened Canonical

  datatype Entry = Entry(statement: string, result: int)

  const INT_MIN := -0x8000_0000
  const INT_MAX := 0x7fff_ffff

  predicate IsInt(n: int) {
    INT_MIN <= n <= INT_MAX
  }

  // ---------- numbers in records

  /** `std::to_string`. */
  function ShowInt(n: int): string {
    if n < 0 then ['-'] + Dec(-n) else Dec(n)
  }

  predicate IsSpace(c: char) {
    c == ' ' || c == '\t' || c == '\n' || c == '\U{0B}' || c == '\U{0C}' || c == '\r'
  }

  /** `std::stoi`: no value where it throws. */
  function ReadInt(s: string): Option<int> {
    if s != [] && IsSpace(s[0]) then ReadInt(s[1..])
    else
      var minus := s != [] && s[0] == '-';
      var t := if s != [] && (s[0] == '-' || s[0] == '+') then s[1..] else s;
      var digits := t[..DigitPrefix(t)];
      if digits == [] then None
      else
        var v: int := Number(digits);
        var n: int := if minus then 0 - v else v;
        if IsInt(n) then Some(n) else None
  }

  /** Space, at most one sign, digits as far as they go: that is the number, if 32 bits hold it, whatever follows. */
  lemma {:induction false} ReadNumber(pad: string, sign: string, digits: string, rest: string)
    requires forall c :: c in pad ==> c in " \t\n\U{0B}\U{0C}\r"
    requires sign in {"", "+", "-"} && digits != [] && AllDigits(digits) && (rest != [] ==> !IsDigit(rest[0]))
    ensures var n: int := if sign == "-" then 0 - Number(digits) else Number(digits);
      ReadInt(pad + (sign + (digits + rest))) == if -0x8000_0000 <= n < 0x8000_0000 then Some(n) else None
  {
    hide DigitPrefix, Number;
    var s := sign + (digits + rest);
    if pad == [] {
      hide ReadInt;
      assert pad + s == s;
      ReadSigned(sign, digits, rest);
    } else {
      assert (pad + s)[0] == pad[0] && pad[0] in pad && (pad + s)[1..] == pad[1..] + s;
      ReadNumber(pad[1..], sign, digits, rest);
    }
  }

  lemma ReadSigned(sign: string, digits: string, rest: string)
    requires sign in {"", "+", "-"} && digits != [] && AllDigits(digits) && (rest != [] ==> !IsDigit(rest[0]))
    ensures var n: int := if sign == "-" then 0 - Number(digits) else Number(digits);
      ReadInt(sign + (digits + rest)) == if -0x8000_0000 <= n < 0x8000_0000 then Some(n) else None
  {
    hide DigitPrefix, Number;
    var s, t := sign + (digits + rest), digits + rest;
    assert IsDigit(digits[0]) && t[0] == digits[0];
    PrefixOfDigits(digits, rest);
    assert t[..|digits|] == digits;
    if sign == "" {
      assert s == t;
    } else {
      assert s[0] == sign[0] && s[1..] == t;
    }
  }

  /** Without a digit there is no number. */
  lemma {:induction false} ReadNothing(s: string)
    requires forall c :: c in s ==> !IsDigit(c)
    ensures ReadInt(s) == None
  {
    if s != [] && IsSpace(s[0]) {
      ReadNothing(s[1..]);
    }
  }

  /** A number that has been printed is read again if 32 bits hold it, and else reading throws. */
  lemma ReadShow(n: int)
    ensures ReadInt(ShowInt(n)) == if -0x8000_0000 <= n < 0x8000_0000 then Some(n) else None
  {
    hide Dec, Number, ReadInt, AllDigits;
    var v, sign := if n < 0 then -n else n, if n < 0 then "-" else "";
    DecIsNumber(v);
    ReadNumber("", sign, Dec(v), "");
    assert ShowInt(n) == "" + (sign + (Dec(v) + ""));
  }

  // ---------- records

  function Record(e: Entry): string {
    "{{" + e.statement + "}{" + ShowInt(e.result) + "}}"
  }

  function Records(es: seq<Entry>): string {
    if es == [] then [] else Record(es[0]) + Records(es[1..])
  }

  /** The first `c` from position `i` on. */
  function FirstFrom(s: string, c: char, i: nat): (r: Option<nat>)
    requires i <= |s|
    ensures r.Some? ==> i <= r.value < |s| && s[r.value] == c && forall k :: i <= k < r.value ==> s[k] != c
    ensures r.None? ==> forall k :: i <= k < |s| ==> s[k] != c
    decreases |s| - i
  {
    if i == |s| then None else if s[i] == c then Some(i) else FirstFrom(s, c, i + 1)
  }

  /** `next` is where the closing brace of the record stands.  A record without a number leaves the result unset. */
  datatype Parsed = Ok(statement: string, result: Option<int>, next: nat) | Fail | Throws | Hangs

  /** `parseNextString` at an opening brace: up to the first closing brace. */
  function NextString(s: string, i: nat): Option<nat>
    requires i < |s|
  {
    FirstFrom(s, '}', i + 1)
  }

  /** The loop of `parseFromTheFirstLiteralRecord`.  Other opening braces than the two expected leave the pointer
      where it is: the loop does not end. */
  function Scan(s: string, i: nat, degree: nat, strings: nat, statement: string, result: Option<int>): (r: Parsed)
    requires i <= |s| && degree > 0
    ensures r.Ok? ==> i <= r.next < |s|
    decreases |s| - i
  {
    if i == |s| then Fail
    else if s[i] == '}' then
      if degree == 1 then Ok(statement, result, i) else Scan(s, i + 1, degree - 1, strings, statement, result)
    else if s[i] == '{' then
      if degree == 1 && strings < 2 then
        match NextString(s, i)
        case None => Fail
        case Some(k) =>
          if strings == 0 then Scan(s, k, 2, 1, s[i + 1..k], result)
          else if ReadInt(s[i + 1..k]).None? then Throws
          else Scan(s, k, 2, 2, statement, ReadInt(s[i + 1..k]))
      else Hangs
    else Scan(s, i + 1, degree, strings, statement, result)
  }

  function ParseRecord(s: string, i: nat): (r: Parsed)
    requires i <= |s|
    ensures r.Ok? ==> i <= r.next < |s|
  {
    match FirstFrom(s, '{', i)
    case None => Fail
    case Some(k) => Scan(s, k + 1, 1, 0, "", None)
  }

  datatype Item = Item(statement: string, result: Option<int>)

  datatype Loaded = Items(items: seq<Item>) | Thrown | Hanging

  /** The records from position `i` on. */
  function ParseAll(s: string, i: nat): Loaded
    requires i <= |s|
    decreases |s| - i
  {
    match ParseRecord(s, i)
    case Fail => Items([])
    case Throws => Thrown
    case Hangs => Hanging
    case Ok(statement, result, next) =>
      match ParseAll(s, next + 1)
      case Items(items) => Items([Item(statement, result)] + items)
      case other => other
  }

  /** `getline`, and then a C string: up to the first line break or zero character. */
  function FirstLine(file: string): string {
    if file == [] || file[0] == '\n' || file[0] == '\0' then [] else [file[0]] + FirstLine(file[1..])
  }

  function AsItems(es: seq<Entry>): (r: seq<Item>)
    ensures |r| == |es|
  {
    seq(|es|, i requires 0 <= i < |es| => Item(es[i].statement, Some(es[i].result)))
  }

  /** `parseNextString`, with its pointer. */
  method ParseNextString(s: string, i: nat) returns (end: Option<nat>)
    requires i < |s|
    ensures end == NextString(s, i)
  {
    var ptr := i + 1;
    while ptr < |s|
      invariant i < ptr <= |s| && NextString(s, i) == FirstFrom(s, '}', ptr)
    {
      if s[ptr] == '}' {
        return Some(ptr);
      }
      ptr := ptr + 1;
    }
    return None;
  }

  method ParseFromTheFirstLiteralRecord(s: string, i: nat) returns (p: Parsed)
    requires i <= |s|
    ensures p == ParseRecord(s, i)
  {
    hide ReadInt;
    var ptr := i;
    while ptr < |s| && s[ptr] != '{'
      invariant i <= ptr <= |s| && FirstFrom(s, '{', i) == FirstFrom(s, '{', ptr)
    {
      ptr := ptr + 1;
    }
    if ptr == |s| {
      return Fail;
    }
    ptr := ptr + 1;
    var degree, strings := 1, 0;
    var statement, result: Option<int> := "", None;
    while ptr < |s|
      invariant ptr <= |s| && 1 <= degree <= 2 && 0 <= strings <= 2
      invariant ParseRecord(s, i) == Scan(s, ptr, degree, strings, statement, result)
      decreases |s| - ptr
    {
      if s[ptr] == '}' {
        if degree == 1 {
          return Ok(statement, result, ptr);
        }
        degree := degree - 1;
        ptr := ptr + 1;
      } else if s[ptr] == '{' {
        if degree != 1 || strings == 2 {
          return Hangs;
        }
        var end := ParseNextString(s, ptr);
        if end.None? {
          return Fail;
        }
        if strings == 0 {
          statement := s[ptr + 1..end.value];
        } else {
          result := ReadInt(s[ptr + 1..end.value]);
          if result.None? {
            return Throws;
          }
        }
        degree, strings, ptr := 2, strings + 1, end.value;
      } else {
        ptr := ptr + 1;
      }
    }
    return Fail;
  }

  // ---------- the parser undoes the printer

  lemma ShowIntPlain(n: int)
    ensures forall c :: c in ShowInt(n) ==> IsDigit(c) || c == '-'
  {
    DecIsNumber(if n < 0 then -n else n);
  }

  lemma FirstIs(s: string, c: char, i: nat, k: nat)
    requires i <= k < |s| && s[k] == c && forall j :: i <= j < k ==> s[j] != c
    ensures FirstFrom(s, c, i) == Some(k)
  {
  }

  /** Inside a longer text, a record of a statement without closing brace is read back, number and all. */
  lemma RecordParses(before: string, e: Entry, after: string)
    requires '}' !in e.statement && IsInt(e.result)
    ensures var s := before + Record(e) + after;
      ParseRecord(s, |before|) == Ok(e.statement, Some(e.result), |before| + |Record(e)| - 1)
  {
    hide ParseRecord, ReadInt, ShowInt, Record;
    var r, m, n := Record(e), |e.statement|, ShowInt(e.result);
    RecordChars(e);
    InText(before, r, after, 2, 2 + m);
    InText(before, r, after, 4 + m, 4 + m + |n|);
    ShowIntPlain(e.result);
    ReadShow(e.result);
    ParseAt(before + r + after, |before|, e.statement, n, e.result);
  }

  lemma InText(before: string, r: string, after: string, i: nat, j: nat)
    requires i <= j <= |r|
    ensures |before + r + after| >= |before| + |r|
    ensures forall k :: 0 <= k < |r| ==> (before + r + after)[|before| + k] == r[k]
    ensures (before + r + after)[|before| + i..|before| + j] == r[i..j]
  {
  }

  lemma ParseAt(s: string, a: nat, statement: string, n: string, result: int)
    requires var b := a + 2 + |statement|;
      var c := b + 2 + |n|;
      && c + 1 < |s| && s[a] == '{' && s[a + 1] == '{' && s[b] == '}' && s[b + 1] == '{' && s[c] == '}'
         && s[c + 1] == '}'
      && s[a + 2..b] == statement && s[b + 2..c] == n
    requires '}' !in statement && '}' !in n && ReadInt(n) == Some(result)
    ensures ParseRecord(s, a) == Ok(statement, Some(result), a + |statement| + |n| + 5)
  {
    var b := a + 2 + |statement|;
    var c := b + 2 + |n|;
    hide ParseRecord, ReadInt;
    forall k | a + 2 <= k < b ensures s[k] != '}' {
      assert s[k] == statement[k - a - 2];
    }
    forall k | b + 2 <= k < c ensures s[k] != '}' {
      assert s[k] == n[k - b - 2];
    }
    FirstIs(s, '{', a, a);
    FirstIs(s, '}', a + 2, b);
    FirstIs(s, '}', b + 2, c);
    ParseThere(s, a, b, c, result);
  }

  lemma ParseThere(s: string, a: nat, b: nat, c: nat, result: int)
    requires a + 1 < b && b + 1 < c && c + 1 < |s| && s[a + 1] == '{' && s[b] == '}' && s[b + 1] == '{' && s[c] == '}'
      && s[c + 1] == '}'
    requires FirstFrom(s, '{', a) == Some(a) && NextString(s, a + 1) == Some(b) && NextString(s, b + 1) == Some(c)
    requires ReadInt(s[b + 2..c]) == Some(result)
    ensures ParseRecord(s, a) == Ok(s[a + 2..b], Some(result), c + 1)
  {
    hide Scan, ReadInt, NextString, FirstFrom;
    var statement := s[a + 2..b];
    ScanOpen(s, a + 1, 0, "", None);
    ScanClose(s, b, 2, 1, statement, None);
    ScanOpen(s, b + 1, 1, statement, None);
    ScanClose(s, c, 2, 2, statement, Some(result));
    ScanClose(s, c + 1, 1, 2, statement, Some(result));
  }

  lemma RecordChars(e: Entry)
    ensures var r, m, n := Record(e), |e.statement|, |ShowInt(e.result)|;
      && |r| == m + n + 6 && r[0] == '{' && r[1] == '{' && r[2 + m] == '}' && r[3 + m] == '{' && r[4 + m + n] == '}'
         && r[5 + m + n] == '}'
      && r[2..2 + m] == e.statement && r[4 + m..4 + m + n] == ShowInt(e.result)
  {
    hide ShowInt;
  }

  lemma ScanOpen(s: string, i: nat, strings: nat, statement: string, result: Option<int>)
    requires i < |s| && s[i] == '{' && strings < 2 && NextString(s, i).Some?
    ensures var k := NextString(s, i).value;
      Scan(s, i, 1, strings, statement, result) ==
        if strings == 0 then Scan(s, k, 2, 1, s[i + 1..k], result)
        else if ReadInt(s[i + 1..k]).None? then Throws
        else Scan(s, k, 2, 2, statement, ReadInt(s[i + 1..k]))
  {
    hide ReadInt, NextString;
  }

  lemma ScanClose(s: string, i: nat, degree: nat, strings: nat, statement: string, result: Option<int>)
    requires i < |s| && s[i] == '}' && degree > 0
    ensures Scan(s, i, degree, strings, statement, result) ==
      if degree == 1 then Ok(statement, result, i) else Scan(s, i + 1, degree - 1, strings, statement, result)
  {
  }

  predicate NoClose(es: seq<Entry>) {
    forall i :: 0 <= i < |es| ==> '}' !in es[i].statement
  }

  predicate AllInts(es: seq<Entry>) {
    forall i :: 0 <= i < |es| ==> IsInt(es[i].result)
  }

  lemma {:induction false} RecordsParse(before: string, es: seq<Entry>)
    requires NoClose(es) && AllInts(es)
    ensures ParseAll(before + Records(es), |before|) == Items(AsItems(es))
    decreases es
  {
    hide ParseRecord, Record;
    var s := before + Records(es);
    if es == [] {
      ParseEnd(s);
      assert s == before;
    } else {
      var e := es[0];
      RecordParses(before, e, Records(es[1..]));
      assert s == before + Record(e) + Records(es[1..]);
      RecordsParse(before + Record(e), es[1..]);
      assert before + Record(e) + Records(es[1..]) == (before + Record(e)) + Records(es[1..]);
      assert AsItems(es) == [Item(e.statement, Some(e.result))] + AsItems(es[1..]);
    }
  }

  lemma ParseEnd(s: string)
    ensures ParseRecord(s, |s|) == Fail
  {
  }

  /** No statement with a closing brace is ever read. */
  lemma {:induction false} ScanReadsNoClose(s: string, i: nat, degree: nat, strings: nat, statement: string,
                                            result: Option<int>)
    requires i <= |s| && degree > 0 && '}' !in statement
    ensures var r := Scan(s, i, degree, strings, statement, result); r.Ok? ==> '}' !in r.statement
    decreases |s| - i
  {
    hide ReadInt;
    if i < |s| {
      if s[i] == '}' {
        if degree > 1 {
          ScanReadsNoClose(s, i + 1, degree - 1, strings, statement, result);
        }
      } else if s[i] == '{' {
        if degree == 1 && strings < 2 && NextString(s, i).Some? {
          var k := NextString(s, i).value;
          if strings == 0 {
            ScanReadsNoClose(s, k, 2, 1, s[i + 1..k], result);
          } else {
            ScanReadsNoClose(s, k, 2, 2, statement, ReadInt(s[i + 1..k]));
          }
        }
      } else {
        ScanReadsNoClose(s, i + 1, degree, strings, statement, result);
      }
    }
  }

  lemma {:induction false} LoadedHasNoClose(s: string, i: nat)
    requires i <= |s|
    ensures ParseAll(s, i).Items? ==> forall k :: 0 <= k < |ParseAll(s, i).items| ==>
      '}' !in ParseAll(s, i).items[k].statement
    decreases |s| - i
  {
    hide Scan;
    var p := ParseRecord(s, i);
    if p.Ok? {
      var k := FirstFrom(s, '{', i).value;
      ScanReadsNoClose(s, k + 1, 1, 0, "", None);
      LoadedHasNoClose(s, p.next + 1);
    }
  }

  /** Reading back what has been written gives the entries if and only if no statement has a closing brace. */
  lemma ReloadIff(es: seq<Entry>)
    requires AllInts(es)
    ensures ParseAll(Records(es), 0) == Items(AsItems(es)) <==> NoClose(es)
  {
    if NoClose(es) {
      RecordsParse([], es);
      assert [] + Records(es) == Records(es);
    } else {
      LoadedHasNoClose(Records(es), 0);
      var i :| 0 <= i < |es| && '}' in es[i].statement;
      assert AsItems(es)[i].statement == es[i].statement;
    }
  }

  predicate OneLine(s: string) {
    '\n' !in s && '\0' !in s
  }

  lemma {:induction false} FirstLineAll(s: string)
    requires OneLine(s)
    ensures FirstLine(s) == s
  {
    if s != [] {
      FirstLineAll(s[1..]);
    }
  }

  /** What stands behind a line break or a zero character is not read. */
  lemma {:induction false} FirstLineEnds(line: string, end: char, rest: string)
    requires (forall c :: c in line ==> c != '\n' && c != '\0') && (end == '\n' || end == '\0')
    ensures FirstLine(line + ([end] + rest)) == line
  {
    var file := line + ([end] + rest);
    if line == [] {
      assert file[0] == end;
    } else {
      assert line[0] in line && forall c :: c in line[1..] ==> c in line;
      assert file[0] == line[0] && file[1..] == line[1..] + ([end] + rest);
      FirstLineEnds(line[1..], end, rest);
    }
  }

  lemma TogetherOneLine(a: string, b: string)
    requires OneLine(a) && OneLine(b)
    ensures OneLine(a + b)
  {
  }

  lemma RecordOneLine(e: Entry)
    requires OneLine(e.statement)
    ensures OneLine(Record(e))
  {
    hide ShowInt;
    ShowIntPlain(e.result);
    TogetherOneLine("{{", e.statement);
    TogetherOneLine("{{" + e.statement, "}{");
    TogetherOneLine("{{" + e.statement + "}{", ShowInt(e.result));
    TogetherOneLine("{{" + e.statement + "}{" + ShowInt(e.result), "}}");
  }

  lemma {:induction false} RecordsOneLine(es: seq<Entry>)
    requires forall i :: 0 <= i < |es| ==> OneLine(es[i].statement)
    ensures OneLine(Records(es))
  {
    if es != [] {
      hide OneLine, Record;
      assert forall i :: 0 <= i < |es| - 1 ==> es[1..][i] == es[i + 1];
      RecordsOneLine(es[1..]);
      RecordOneLine(es[0]);
      TogetherOneLine(Record(es[0]), Records(es[1..]));
    } else {
      assert Records(es) == [];
    }
  }

  lemma {:induction false} RecordsAppend(es: seq<Entry>, e: Entry)
    ensures Records(es + [e]) == Records(es) + Record(e)
  {
    hide Record;
    if es == [] {
      assert [e][1..] == [] && [] + [e] == [e];
    } else {
      RecordsAppend(es[1..], e);
      assert (es + [e])[1..] == es[1..] + [e];
    }
  }

  // ---------- the cache

  /** The first result for the statement. */
  function FirstResult(items: seq<Item>, statement: string): Option<Option<int>> {
    if items == [] then None
    else if items[0].statement == statement then Some(items[0].result)
    else FirstResult(items[1..], statement)
  }

  function Bucket(items: seq<Item>, hash: string -> nat, h: nat): seq<Item> {
    if items == [] then []
    else
      var last := items[|items| - 1];
      Bucket(items[..|items| - 1], hash, h) + if hash(last.statement) % 128 == h then [last] else []
  }

  /** A bucket holds the entries whose statements have its hash. */
  lemma {:induction false} BucketHas(items: seq<Item>, hash: string -> nat, h: nat, item: Item)
    ensures item in Bucket(items, hash, h) <==> item in items && hash(item.statement) % 128 == h
  {
    if items != [] {
      var front, last := items[..|items| - 1], items[|items| - 1];
      BucketHas(front, hash, h, item);
      assert items == front + [last];
    }
  }

  lemma {:induction false} FirstResultAppend(items: seq<Item>, item: Item, statement: string)
    ensures FirstResult(items + [item], statement) ==
      if FirstResult(items, statement).Some? then FirstResult(items, statement)
      else if item.statement == statement then Some(item.result)
      else None
  {
    if items == [] {
      assert [item][1..] == [] && [] + [item] == [item];
    } else {
      FirstResultAppend(items[1..], item, statement);
      assert (items + [item])[1..] == items[1..] + [item];
    }
  }

  /** Looking in the right bucket is looking everywhere. */
  lemma {:induction false} BucketIsEnough(items: seq<Item>, hash: string -> nat, statement: string)
    ensures FirstResult(Bucket(items, hash, hash(statement) % 128), statement) == FirstResult(items, statement)
  {
    if items != [] {
      var front, last := items[..|items| - 1], items[|items| - 1];
      BucketIsEnough(front, hash, statement);
      var bucket := Bucket(front, hash, hash(statement) % 128);
      assert items == front + [last] && bucket + [] == bucket;
      FirstResultAppend(front, last, statement);
      FirstResultAppend(Bucket(front, hash, hash(statement) % 128), last, statement);
    }
  }

  ghost predicate InBuckets(cacheMap: map<nat, seq<Item>>, items: seq<Item>, hash: string -> nat) {
    && (forall h :: h in cacheMap ==> cacheMap[h] == Bucket(items, hash, h))
    && (forall h :: h !in cacheMap ==> Bucket(items, hash, h) == [])
  }

  class SMTHashMapCache {
    const hash: string -> nat
    var cacheMap: map<nat, seq<Item>>
    var loaded: bool
    var file: Option<string>
    var lastHit: Option<Item>
    var countQuery: nat
    var countHit: nat
    ghost var log: seq<Item>   // everything that has been loaded or put, in this order

    /** The entries stand in their buckets in the order they have come. */
    ghost predicate Valid()
      reads this
    {
      InBuckets(cacheMap, log, hash)
    }

    /** The file holds the records of everything that has been loaded or put. */
    ghost predicate Persisted()
      reads this
    {
      Written(file, log)
    }

    /** If the records cannot be read, the program stops here: `loaded` stays false although there is a file. */
    constructor (hash: string -> nat, file: Option<string>)
      ensures Valid() && this.hash == hash && this.file == file && countQuery == 0 && countHit == 0
      ensures loaded <==> file.Some? && ParseAll(FirstLine(file.value), 0).Items?
      ensures loaded ==> Items(log) == ParseAll(FirstLine(file.value), 0)
      ensures !loaded ==> log == []
    {
      this.hash := hash;
      cacheMap := map[];
      loaded := false;
      this.file := file;
      lastHit := None;
      countQuery, countHit := 0, 0;
      log := [];
      new;
      var _ := LoadFromFile();
    }

    method Push(item: Item)
      requires Valid()
      modifies this`cacheMap, this`log
      ensures Valid() && log == old(log) + [item]
    {
      var h := hash(item.statement) % 128;
      assert (log + [item])[..|log|] == log;
      cacheMap := cacheMap[h := (if h in cacheMap then cacheMap[h] else []) + [item]];
      log := log + [item];
    }

    /** Adds the records of the file to what is there: -1 if that has been done before, 0 without a file, else 1.  There
        is no answer if the records cannot be read; the program has stopped then, and what is left does not matter. */
    method LoadFromFile() returns (code: Option<int>)
      requires Valid()
      modifies this
      ensures Valid() && file == old(file) && countQuery == old(countQuery) && countHit == old(countHit)
        && lastHit == old(lastHit)
      ensures code == if old(loaded) then Some(-1) else if file.None? then Some(0)
        else if ParseAll(FirstLine(file.value), 0).Items? then Some(1) else None
      ensures loaded <==> old(loaded) || code == Some(1)
      ensures code == Some(1) ==> log == old(log) + ParseAll(FirstLine(file.value), 0).items
      ensures code != Some(1) ==> log == old(log)
    {
      hide InBuckets, FirstLine;
      if loaded {
        return Some(-1);
      }
      if file.None? {
        return Some(0);
      }
      var content := FirstLine(file.value);
      var ptr := 0;
      var before := cacheMap;
      ghost var all, done := ParseAll(content, 0), [];
      assert all.Items? ==> all.items == [] + all.items;
      assert log == log + [];
      while true
        invariant ptr <= |content| && Valid() && !loaded && file == old(file) && lastHit == old(lastHit)
        invariant countQuery == old(countQuery) && countHit == old(countHit) && log == old(log) + done
        invariant all.Items? <==> ParseAll(content, ptr).Items?
        invariant all.Items? ==> all.items == done + ParseAll(content, ptr).items
        decreases |content| - ptr
      {
        hide Scan;
        var p := ParseFromTheFirstLiteralRecord(content, ptr);
        match p
        case Fail =>
          assert done + [] == done;
          loaded := true;
          return Some(1);
        case Ok(statement, result, next) =>
          ghost var was := done;
          Push(Item(statement, result));
          done := done + [Item(statement, result)];
          assert old(log) + was + [Item(statement, result)] == old(log) + done;
          ptr := next + 1;
          if all.Items? {
            OneMore(was, Item(statement, result), ParseAll(content, ptr).items);
          }
        case _ =>
          cacheMap := before;
          log := old(log);
          return None;
      }
    }

    /** The result of the first put of the statement's canonical form, or -1. */
    method Lookup(statement: string) returns (result: Option<int>, canon: string)
      requires Valid()
      modifies this`countQuery, this`countHit, this`lastHit
      ensures canon == Canon(statement)
      ensures result == match FirstResult(log, canon) case None => Some(-1) case Some(r) => r
      ensures countQuery == old(countQuery) + 1
      ensures countHit == old(countHit) + if FirstResult(log, canon).Some? then 1 else 0
    {
      countQuery := countQuery + 1;
      canon := Parse(statement);
      var h := hash(canon) % 128;
      var entries := if h in cacheMap then cacheMap[h] else [];
      BucketIsEnough(log, hash, canon);
      assert entries[0..] == entries;
      for i := 0 to |entries|
        invariant FirstResult(entries, canon) == FirstResult(entries[i..], canon)
        invariant countHit == old(countHit)
      {
        if entries[i].statement == canon {
          lastHit := Some(entries[i]);
          countHit := countHit + 1;
          return entries[i].result, canon;
        }
        assert entries[i..][1..] == entries[i + 1..];
      }
      return Some(-1), canon;
    }

    /** Always adds an entry, and always writes it. */
    method Put(statement: string, result: int) returns (canon: string)
      requires Valid() && IsInt(result)
      modifies this
      ensures old(Persisted()) ==> Persisted()
      ensures Valid() && canon == Canon(statement) && log == old(log) + [Item(canon, Some(result))]
      ensures file == Some((if old(file).Some? then old(file).value else "") + Record(Entry(canon, result)))
      ensures lastHit == Some(Item(canon, Some(result))) && countQuery == old(countQuery) && countHit == old(countHit)
        && loaded == old(loaded)
      ensures old(Reloadable(log)) && '}' !in statement && '\0' !in statement ==> Reloadable(log)
    {
      hide Canon, Record, OneLine, Bucket;
      canon := Parse(statement);
      if '}' !in statement && '\0' !in statement {
        CanonIsReloadable(statement);
      }
      Push(Item(canon, Some(result)));
      lastHit := Some(Item(canon, Some(result)));
      file := Some((if file.Some? then file.value else "") + Record(Entry(canon, result)));
      if old(Persisted()) {
        WrittenMore(old(file), old(log), Entry(canon, result));
      }
    }
  }

  ghost predicate Written(file: Option<string>, log: seq<Item>) {
    exists es :: AllInts(es) && log == AsItems(es) && (file == Some(Records(es)) || (file.None? && es == []))
  }

  lemma WrittenMore(file: Option<string>, log: seq<Item>, e: Entry)
    requires Written(file, log) && IsInt(e.result)
    ensures Written(Some((if file.Some? then file.value else "") + Record(e)),
      log + [Item(e.statement, Some(e.result))])
  {
    hide Record;
    var es: seq<Entry> :| AllInts(es) && log == AsItems(es) && (file == Some(Records(es)) || (file.None? && es == []));
    RecordsAppend(es, e);
    assert AsItems(es + [e]) == AsItems(es) + [Item(e.statement, Some(e.result))];
    assert AllInts(es + [e]);
  }

  /** A file can be reloaded if its statements hold no closing brace, line break or zero character. */
  predicate Reloadable(log: seq<Item>) {
    forall i :: 0 <= i < |log| ==> OneLine(log[i].statement) && '}' !in log[i].statement
  }

  /** Braces and zero characters are not made by canonicalising, and line breaks are left out. */
  lemma CanonIsReloadable(statement: string)
    requires '}' !in statement && '\0' !in statement
    ensures OneLine(Canon(statement)) && '}' !in Canon(statement)
  {
    CanonHasNoBreak(statement);
    forall c | c in Canon(statement) && !IsDigit(c) ensures c in statement {
      CanonHasNoNew(statement, c);
      StripIsPart(statement, c);
    }
  }

  lemma {:induction false} StripIsPart(s: string, c: char)
    requires c in Strip(s)
    ensures c in s
  {
    if s != [] && c in Strip(s[1..]) {
      StripIsPart(s[1..], c);
    }
  }

  lemma ReloadGivesLog(file: Option<string>, log: seq<Item>)
    requires Written(file, log) && file.Some? && Reloadable(log)
    ensures ParseAll(FirstLine(file.value), 0) == Items(log)
  {
    hide ParseAll;
    var es: seq<Entry> :| AllInts(es) && log == AsItems(es) && file == Some(Records(es));
    forall i | 0 <= i < |es| ensures OneLine(es[i].statement) && '}' !in es[i].statement {
      assert log[i].statement == es[i].statement;
    }
    RecordsOneLine(es);
    FirstLineAll(Records(es));
    ReloadIff(es);
  }

  /** A new cache on the file of an old one, with any hash function: every query is answered as before. */
  method Reopen(cache: SMTHashMapCache, hash: string -> nat) returns (again: SMTHashMapCache)
    requires cache.Valid() && cache.Persisted() && cache.file.Some? && Reloadable(cache.log)
    ensures fresh(again) && again.Valid() && again.Persisted() && again.loaded && again.log == cache.log
      && again.file == cache.file
    ensures forall statement :: FirstResult(again.log, Canon(statement)) == FirstResult(cache.log, Canon(statement))
  {
    ReloadGivesLog(cache.file, cache.log);
    again := new SMTHashMapCache(hash, cache.file);
  }

  /** A statement with a closing brace is always forgotten: even where the rest of the file can be read, a new
      cache has no answer for it. */
  lemma BracesAreForgotten(file: string, statement: string)
    requires '}' in statement && ParseAll(FirstLine(file), 0).Items?
    ensures FirstResult(ParseAll(FirstLine(file), 0).items, statement) == None
  {
    LoadedHasNoClose(FirstLine(file), 0);
    NotAmong(ParseAll(FirstLine(file), 0).items, statement);
  }

  lemma {:induction false} NotAmong(items: seq<Item>, statement: string)
    requires forall k :: 0 <= k < |items| ==> items[k].statement != statement
    ensures FirstResult(items, statement) == None
  {
    if items != [] {
      assert items[0].statement != statement;
      assert forall k :: 0 <= k < |items| - 1 ==> items[1..][k] == items[k + 1];
      NotAmong(items[1..], statement);
    }
  }

  lemma OneMore(log: seq<Item>, item: Item, rest: seq<Item>)
    ensures log + ([item] + rest) == (log + [item]) + rest
  {
  }
}
