/**
  The flat "|"-separated lists that describe the reservation stations and the write-back ports:
  the generator that prints them and the state machine that parses them back.
 */
module DispatchMap {
  import opened Prelude

  datatype FuncType = NoType | ALU | MUL | DIV | BRU | CSR | LDU | STU | FPU

  function StringToFuncType(s: string): FuncType {
    if s == "ALU" then ALU
    else if s == "MUL" then MUL
    else if s == "DIV" then DIV
    else if s == "BRU" then BRU
    else if s == "CSR" then CSR
    else if s == "LDU" then LDU
    else if s == "STU" then STU
    else if s == "FPU" then FPU
    else NoType
  }

  // The source has no string for any other type.
  function FuncTypeToString(t: FuncType): Option<string> {
    match t
    case ALU => Some("ALU")
    case MUL => Some("MUL")
    case DIV => Some("DIV")
    case BRU => Some("BRU")
    case CSR => Some("CSR")
    case LDU => Some("LDU")
    case STU => Some("STU")
    case FPU => Some("FPU")
    case NoType => None
  }

  // A type has a string exactly when reading it back gives the type, and no string is the separator.
  lemma {:induction false} TypeRoundTrip(t: FuncType)
    ensures FuncTypeToString(t).Some? <==> t != NoType
    ensures t != NoType ==>
              StringToFuncType(FuncTypeToString(t).value) == t && FuncTypeToString(t).value != "|"
  {
    assert "ALU"[0] == 'A' && "MUL"[0] == 'M' && "DIV"[0] == 'D' && "BRU"[0] == 'B';
    assert "CSR"[0] == 'C' && "LDU"[0] == 'L' && "STU"[0] == 'S' && "FPU"[0] == 'F';
  }

  // No other string reads as that type: anything unknown reads as no type.
  lemma {:induction false} TypeReads(s: string, t: FuncType)
    requires t != NoType
    ensures StringToFuncType(s) == t <==> FuncTypeToString(t) == Some(s)
  {
    TypeRoundTrip(StringToFuncType(s));
  }

  /* ---------- decimal numbers ---------- */

  function DigitOf(n: nat): char
    requires n < 10
  {
    '0' + n as char
  }

  predicate IsDigit(c: char) {
    '0' <= c <= '9'
  }

  function ValueOf(c: char): nat
    requires IsDigit(c)
  {
    (c - '0') as nat
  }

  function Decimal(n: nat): (s: string)
    ensures s != []
  {
    if n < 10 then [DigitOf(n)] else Decimal(n / 10) + [DigitOf(n % 10)]
  }

  // The digits of `s` from position `i` on, up to the first character that is not one.
  function Digits(s: string, i: nat, acc: nat): nat
    requires i <= |s|
    decreases |s| - i
  {
    if i == |s| || !IsDigit(s[i]) then acc else Digits(s, i + 1, acc * 10 + ValueOf(s[i]))
  }

  function SkipSpace(s: string, i: nat): (k: nat)
    requires i <= |s|
    ensures i <= k <= |s|
    decreases |s| - i
  {
    if i < |s| && (s[i] == ' ' || 9 <= s[i] as int <= 13) then SkipSpace(s, i + 1) else i
  }

  // The C library's atoi: blanks, an optional sign, then digits.
  function Atoi(s: string): int {
    var k := SkipSpace(s, 0);
    if k < |s| && s[k] == '-' then -(Digits(s, k + 1, 0) as int)
    else if k < |s| && s[k] == '+' then Digits(s, k + 1, 0)
    else Digits(s, k, 0)
  }

  predicate AllDigits(s: string) {
    forall i | 0 <= i < |s| :: IsDigit(s[i])
  }

  lemma {:induction false} DecimalIsDigits(n: nat)
    ensures AllDigits(Decimal(n))
  {
    if n >= 10 {
      DecimalIsDigits(n / 10);
    }
  }

  lemma {:induction false} DigitsSnoc(s: string, c: char, i: nat, acc: nat)
    requires AllDigits(s) && IsDigit(c) && i <= |s|
    ensures Digits(s + [c], i, acc) == Digits(s, i, acc) * 10 + ValueOf(c)
    decreases |s| - i
  {
    var t := s + [c];
    if i < |s| {
      assert t[i] == s[i] && IsDigit(s[i]);
      DigitsSnoc(s, c, i + 1, acc * 10 + ValueOf(s[i]));
    } else {
      assert t[i] == c;
      assert Digits(t, i + 1, acc * 10 + ValueOf(c)) == acc * 10 + ValueOf(c);
    }
  }

  lemma {:induction false} DecimalDigits(n: nat)
    ensures Digits(Decimal(n), 0, 0) == n
  {
    if n < 10 {
      assert Digits([DigitOf(n)], 1, n) == n;
    } else {
      DecimalDigits(n / 10);
      DecimalIsDigits(n / 10);
      DigitsSnoc(Decimal(n / 10), DigitOf(n % 10), 0, 0);
    }
  }

  lemma {:induction false} AtoiOfDecimal(n: nat)
    ensures Atoi(Decimal(n)) == n && Decimal(n) != "|"
  {
    DecimalIsDigits(n);
    DecimalDigits(n);
    assert IsDigit(Decimal(n)[0]);
    assert "|"[0] == '|';
  }

  predicate IsBlank(c: char) {
    c == ' ' || 9 <= c as int <= 13
  }

  lemma {:induction false} BlanksSkipped(s: string, i: nat, k: nat)
    requires i <= k <= |s| && (k == |s| || !IsBlank(s[k])) && forall j | i <= j < k :: IsBlank(s[j])
    ensures SkipSpace(s, i) == k
    decreases k - i
  {
    if i < k {
      BlanksSkipped(s, i + 1, k);
    }
  }

  // Reading digits at position `i` of a longer string, up to what follows them.
  lemma {:induction false} DigitsWithin(s: string, d: string, i: nat, j: nat, acc: nat)
    requires AllDigits(d) && j <= |d| && i + |d| <= |s| && (i + |d| == |s| || !IsDigit(s[i + |d|]))
    requires forall k | 0 <= k < |d| :: s[i + k] == d[k]
    ensures Digits(s, i + j, acc) == Digits(d, j, acc)
    decreases |d| - j
  {
    if j < |d| {
      assert s[i + j] == d[j] && IsDigit(d[j]);
      DigitsWithin(s, d, i, j + 1, acc * 10 + ValueOf(d[j]));
    }
  }

  // What atoi makes of any string: blanks are skipped, a sign is obeyed, and reading stops at the first
  // character that is no digit.
  lemma {:induction false} AtoiReads(blanks: string, sign: string, n: nat, rest: string, s: string)
    requires s == blanks + sign + Decimal(n) + rest && sign in {"", "+", "-"}
    requires (forall j | 0 <= j < |blanks| :: IsBlank(blanks[j])) && (rest == "" || !IsDigit(rest[0]))
    ensures Atoi(s) == if sign == "-" then -(n as int) else n as int
  {
    var b, i, d := |blanks|, |blanks| + |sign|, Decimal(n);
    DecimalIsDigits(n);
    DecimalDigits(n);
    assert IsDigit(d[0]);
    assert forall k | 0 <= k < |d| :: s[i + k] == d[k];
    assert i + |d| < |s| ==> s[i + |d|] == rest[0];
    assert forall j | 0 <= j < b :: s[j] == blanks[j];
    assert sign != "" ==> s[b] == sign[0];
    BlanksSkipped(s, 0, b);
    DigitsWithin(s, d, i, 0, 0);
  }

  // A string that does not start with a number after the blanks and the sign reads as 0.
  lemma {:induction false} AtoiOfNoNumber(s: string)
    requires var k := SkipSpace(s, 0);
             var i := if k < |s| && (s[k] == '-' || s[k] == '+') then k + 1 else k;
             i == |s| || !IsDigit(s[i])
    ensures Atoi(s) == 0
  {
  }

  const U32: nat := 0x1_0000_0000
  const INT_MAX: nat := 0x7FFF_FFFF

  // An int stored in a 32-bit unsigned width.
  function ToWidth(x: int): (w: nat)
    ensures w < U32 && (x - w) % U32 == 0
  {
    if 0 <= x < U32 then x else x % U32
  }

  /* ---------- the dispatch map ---------- */

  datatype Stage = Name | Width | FuType

  datatype Parser = Parser(stage: Stage, types: set<FuncType>, name: string, width: nat,
                           following: map<string, set<FuncType>>, widths: map<string, nat>)

  function Start(): Parser {
    Parser(Name, {}, "", 0, map[], map[])
  }

  function OnSeparator(p: Parser): Parser {
    match p.stage
    case Name => p.(stage := Width)
    case Width => p.(stage := FuType)
    case FuType =>
      Parser(Name, {}, p.name, p.width, p.following[p.name := p.types], p.widths[p.name := p.width])
  }

  function OnWord(p: Parser, w: string): Parser {
    match p.stage
    case Name => p.(name := w)
    case Width => p.(width := ToWidth(Atoi(w)))
    case FuType => p.(types := p.types + {StringToFuncType(w)})
  }

  function OnToken(p: Parser, w: string): Parser {
    if w == "|" then OnSeparator(p) else OnWord(p, w)
  }

  // The parser after the first `n` tokens.
  function Parsed(p: Parser, toks: seq<string>, n: nat): Parser
    requires n <= |toks|
  {
    if n == 0 then p else OnToken(Parsed(p, toks, n - 1), toks[n - 1])
  }

  method ParseDispatchMap(toks: seq<string>) returns (following: map<string, set<FuncType>>, widths: map<string, nat>)
    ensures following == Parsed(Start(), toks, |toks|).following
    ensures widths == Parsed(Start(), toks, |toks|).widths
  {
    var stage, types, name, width := Name, {}, "", 0;
    following, widths := map[], map[];
    for i := 0 to |toks|
      invariant Parser(stage, types, name, width, following, widths) == Parsed(Start(), toks, i)
    {
      var info := toks[i];
      if info == "|" {
        if stage == Name {
          stage := Width;
        } else if stage == Width {
          stage := FuType;
        } else {
          following := following[name := types];
          widths := widths[name := width];
          types := {};
          stage := Name;
        }
      } else {
        if stage == Name {
          name := info;
        } else if stage == Width {
          width := ToWidth(Atoi(info));
        } else {
          types := types + {StringToFuncType(info)};
        }
      }
    }
  }

  datatype Station = Station(name: string, width: nat, types: seq<FuncType>)

  // A width the parser's int can hold and types that have names.
  predicate Printable(s: Station) {
    s.width <= INT_MAX && forall i | 0 <= i < |s.types| :: s.types[i] != NoType
  }

  predicate AllPrintable(ss: seq<Station>) {
    forall i | 0 <= i < |ss| :: Printable(ss[i])
  }

  // The generator gives every station these types.
  const EVERY := [ALU, BRU, CSR, MUL, DIV, FPU, LDU, STU]

  function TypeWords(types: seq<FuncType>, n: nat): (ws: seq<string>)
    requires n <= |types| && forall i | 0 <= i < |types| :: types[i] != NoType
    ensures |ws| == n
  {
    if n == 0 then []
    else
      TypeRoundTrip(types[n - 1]);
      TypeWords(types, n - 1) + [FuncTypeToString(types[n - 1]).value]
  }

  function PrintStation(s: Station): seq<string>
    requires Printable(s)
  {
    [s.name, "|", Decimal(s.width), "|"] + TypeWords(s.types, |s.types|) + ["|"]
  }

  function PrintAll(ss: seq<Station>, n: nat): seq<string>
    requires n <= |ss| && AllPrintable(ss)
  {
    if n == 0 then [] else PrintAll(ss, n - 1) + PrintStation(ss[n - 1])
  }

  function Stations(names: seq<string>, issueWidths: seq<nat>): (ss: seq<Station>)
    requires |names| == |issueWidths| && forall i | 0 <= i < |issueWidths| :: issueWidths[i] <= INT_MAX
    ensures |ss| == |names| && AllPrintable(ss)
    ensures forall i | 0 <= i < |ss| :: ss[i] == Station(names[i], issueWidths[i], EVERY)
  {
    seq(|names|, i requires 0 <= i < |names| => Station(names[i], issueWidths[i], EVERY))
  }

  // The loop of the generator: one station after the other, each with every type.
  method GenDispatchMap(names: seq<string>, issueWidths: seq<nat>) returns (toks: seq<string>)
    requires |names| == |issueWidths| && forall i | 0 <= i < |issueWidths| :: issueWidths[i] <= INT_MAX
    ensures toks == PrintAll(Stations(names, issueWidths), |names|)
  {
    toks := [];
    for i := 0 to |names|
      invariant toks == PrintAll(Stations(names, issueWidths), i)
    {
      EveryWords();
      var types := ["ALU", "BRU", "CSR", "MUL", "DIV", "FPU", "LDU", "STU"];
      var words := [names[i], "|", Decimal(issueWidths[i]), "|"] + types + ["|"];
      assert words == PrintStation(Stations(names, issueWidths)[i]);
      toks := toks + words;
    }
  }

  lemma {:induction false} EveryWords()
    ensures TypeWords(EVERY, |EVERY|) == ["ALU", "BRU", "CSR", "MUL", "DIV", "FPU", "LDU", "STU"]
  {
    assert TypeWords(EVERY, 2) == ["ALU", "BRU"];
    assert TypeWords(EVERY, 4) == ["ALU", "BRU", "CSR", "MUL"];
    assert TypeWords(EVERY, 6) == ["ALU", "BRU", "CSR", "MUL", "DIV", "FPU"];
  }

  function TypeSet(types: seq<FuncType>, n: nat): set<FuncType>
    requires n <= |types|
  {
    if n == 0 then {} else TypeSet(types, n - 1) + {types[n - 1]}
  }

  lemma {:induction false} TypeSetIs(types: seq<FuncType>, n: nat)
    requires n <= |types|
    ensures TypeSet(types, n) == set i | 0 <= i < n :: types[i]
  {
    if n > 0 {
      TypeSetIs(types, n - 1);
    }
  }

  lemma {:induction false} ParsedSplit(p: Parser, a: seq<string>, b: seq<string>, n: nat)
    requires n <= |b|
    ensures Parsed(p, a + b, |a| + n) == Parsed(Parsed(p, a, |a|), b, n)
  {
    if n > 0 {
      ParsedSplit(p, a, b, n - 1);
      assert (a + b)[|a| + n - 1] == b[n - 1];
    } else {
      ParsedPrefix(p, a, b, |a|);
    }
  }

  lemma {:induction false} ParsedPrefix(p: Parser, a: seq<string>, b: seq<string>, n: nat)
    requires n <= |a|
    ensures Parsed(p, a + b, n) == Parsed(p, a, n)
  {
    if n > 0 {
      ParsedPrefix(p, a, b, n - 1);
      assert (a + b)[n - 1] == a[n - 1];
    }
  }

  lemma {:induction false} ParsedTypes(p: Parser, types: seq<FuncType>, n: nat)
    requires p.stage == FuType && n <= |types| && forall i | 0 <= i < |types| :: types[i] != NoType
    ensures Parsed(p, TypeWords(types, |types|), n) == p.(types := p.types + TypeSet(types, n))
  {
    if n > 0 {
      ParsedTypes(p, types, n - 1);
      WordAt(types, |types|, n - 1);
      TypeRoundTrip(types[n - 1]);
    } else {
      assert p.types + {} == p.types;
    }
  }

  lemma {:induction false} WordAt(types: seq<FuncType>, n: nat, i: nat)
    requires i < n <= |types| && forall i | 0 <= i < |types| :: types[i] != NoType
    ensures Some(TypeWords(types, n)[i]) == FuncTypeToString(types[i])
  {
    TypeRoundTrip(types[n - 1]);
    if i < n - 1 {
      WordAt(types, n - 1, i);
    }
  }

  // One printed station, read from the start of an entry, adds exactly itself.
  lemma {:induction false} ParsedStation(p: Parser, s: Station)
    requires p.stage == Name && p.types == {} && Printable(s) && s.name != "|"
    ensures var p' := Parsed(p, PrintStation(s), |PrintStation(s)|);
            && p'.stage == Name && p'.types == {}
            && p'.following == p.following[s.name := TypeSet(s.types, |s.types|)]
            && p'.widths == p.widths[s.name := s.width]
  {
    var head, ws := [s.name, "|", Decimal(s.width), "|"], TypeWords(s.types, |s.types|);
    var p1 := Parsed(p, head, 4);
    ParsedHead(p, s);
    ParsedTypes(p1, s.types, |s.types|);
    ParsedSplit(p, head, ws, |ws|);
    ParsedSplit(p, head + ws, ["|"], 1);
    assert Parsed(p, head + ws, |head + ws|) == p1.(types := p1.types + TypeSet(s.types, |s.types|));
    assert p1.types + TypeSet(s.types, |s.types|) == TypeSet(s.types, |s.types|);
    assert Parsed(Parsed(p, head + ws, |head + ws|), ["|"], 1)
        == OnSeparator(Parsed(Parsed(p, head + ws, |head + ws|), ["|"], 0));
  }

  lemma {:induction false} ParsedHead(p: Parser, s: Station)
    requires p.stage == Name && Printable(s) && s.name != "|"
    ensures Parsed(p, [s.name, "|", Decimal(s.width), "|"], 4) == p.(stage := FuType, name := s.name, width := s.width)
  {
    var head := [s.name, "|", Decimal(s.width), "|"];
    AtoiOfDecimal(s.width);
    assert Parsed(p, head, 1) == p.(name := s.name);
    assert Parsed(p, head, 2) == p.(stage := Width, name := s.name);
    assert Parsed(p, head, 3) == p.(stage := Width, name := s.name, width := s.width);
  }

  // What the maps should be: each station under its name, a later one replacing an earlier one.
  function Following(ss: seq<Station>, n: nat): map<string, set<FuncType>>
    requires n <= |ss|
  {
    if n == 0 then map[] else Following(ss, n - 1)[ss[n - 1].name := TypeSet(ss[n - 1].types, |ss[n - 1].types|)]
  }

  function Widths(ss: seq<Station>, n: nat): map<string, nat>
    requires n <= |ss|
  {
    if n == 0 then map[] else Widths(ss, n - 1)[ss[n - 1].name := ss[n - 1].width]
  }

  predicate Named(ss: seq<Station>) {
    forall i | 0 <= i < |ss| :: ss[i].name != "|"
  }

  // Parsing what was printed gives back every station.
  lemma {:induction false} ParsedAll(ss: seq<Station>, n: nat)
    requires n <= |ss| && AllPrintable(ss) && Named(ss)
    ensures var p := Parsed(Start(), PrintAll(ss, n), |PrintAll(ss, n)|);
            p.stage == Name && p.types == {} && p.following == Following(ss, n) && p.widths == Widths(ss, n)
  {
    if n > 0 {
      ParsedAll(ss, n - 1);
      ParsedNext(PrintAll(ss, n - 1), ss[n - 1], PrintAll(ss, n));
    }
  }

  lemma {:induction false} ParsedNext(before: seq<string>, s: Station, toks: seq<string>)
    requires Printable(s) && s.name != "|" && toks == before + PrintStation(s)
    requires Parsed(Start(), before, |before|).stage == Name && Parsed(Start(), before, |before|).types == {}
    ensures var p := Parsed(Start(), before, |before|);
            var p' := Parsed(Start(), toks, |toks|);
            && p'.stage == Name && p'.types == {}
            && p'.following == p.following[s.name := TypeSet(s.types, |s.types|)]
            && p'.widths == p.widths[s.name := s.width]
  {
    ParsedSplit(Start(), before, PrintStation(s), |PrintStation(s)|);
    ParsedStation(Parsed(Start(), before, |before|), s);
  }

  function TypesOf(s: Station): set<FuncType> {
    set t | t in s.types
  }

  // The station is found in the maps with its own width and its own set of types.
  predicate Recovered(s: Station, following: map<string, set<FuncType>>, widths: map<string, nat>) {
    && s.name in following && following[s.name] == TypesOf(s)
    && s.name in widths && widths[s.name] == s.width
  }

  predicate Same(a: Station, b: Station) {
    a.name == b.name ==> TypesOf(a) == TypesOf(b) && a.width == b.width
  }

  // No two stations of one name differ; in particular, names all distinct will do.
  predicate Consistent(ss: seq<Station>) {
    forall i, j | 0 <= i < j < |ss| :: Same(ss[i], ss[j])
  }

  lemma {:induction false} LastWins(ss: seq<Station>, n: nat, i: nat)
    requires i < n <= |ss| && Consistent(ss)
    ensures Recovered(ss[i], Following(ss, n), Widths(ss, n))
  {
    TypeSetIs(ss[n - 1].types, |ss[n - 1].types|);
    if i < n - 1 {
      LastWins(ss, n - 1, i);
      assert Same(ss[i], ss[n - 1]);
    }
  }

  lemma {:induction false} NoSeparatorKey(p: Parser, toks: seq<string>, n: nat)
    requires n <= |toks| && p.name != "|" && "|" !in p.following
    ensures Parsed(p, toks, n).name != "|" && "|" !in Parsed(p, toks, n).following
  {
    if n > 0 {
      NoSeparatorKey(p, toks, n - 1);
    }
  }

  // Main result: parsing a printed list recovers every station, width and set of types, exactly
  // when no station is named like the separator and no two of one name differ.
  lemma {:induction false} DispatchRoundTripIff(ss: seq<Station>)
    requires AllPrintable(ss)
    ensures var p := Parsed(Start(), PrintAll(ss, |ss|), |PrintAll(ss, |ss|)|);
            (forall i | 0 <= i < |ss| :: Recovered(ss[i], p.following, p.widths)) <==> Named(ss) && Consistent(ss)
  {
    var toks := PrintAll(ss, |ss|);
    var p := Parsed(Start(), toks, |toks|);
    NoSeparatorKey(Start(), toks, |toks|);
    if Named(ss) && Consistent(ss) {
      ParsedAll(ss, |ss|);
      forall i | 0 <= i < |ss| ensures Recovered(ss[i], p.following, p.widths) {
        LastWins(ss, |ss|, i);
      }
    }
  }

  function Names(ss: seq<Station>, n: nat): (names: set<string>)
    requires n <= |ss|
    ensures forall name :: name in names <==> exists i :: 0 <= i < n && ss[i].name == name
  {
    if n == 0 then {} else Names(ss, n - 1) + {ss[n - 1].name}
  }

  lemma {:induction false} KeysAreNames(ss: seq<Station>, n: nat)
    requires n <= |ss|
    ensures Following(ss, n).Keys == Widths(ss, n).Keys == Names(ss, n)
  {
    if n > 0 {
      KeysAreNames(ss, n - 1);
    }
  }

  // Nothing else appears in the parsed maps: their keys are exactly the names that were printed.
  lemma {:induction false} NothingExtra(ss: seq<Station>)
    requires AllPrintable(ss) && Named(ss)
    ensures var p := Parsed(Start(), PrintAll(ss, |ss|), |PrintAll(ss, |ss|)|);
            p.following.Keys == p.widths.Keys == Names(ss, |ss|)
  {
    ParsedAll(ss, |ss|);
    KeysAreNames(ss, |ss|);
  }

  /* ---------- the write-back map ---------- */

  datatype PortParser = PortParser(inWidth: bool, name: string, width: nat, ports: map<string, nat>)

  function PortStart(): PortParser {
    PortParser(false, "", 0, map[])
  }

  function OnPortToken(p: PortParser, w: string): PortParser {
    if w == "|" then
      if !p.inWidth then p.(inWidth := true) else p.(inWidth := false, ports := p.ports[p.name := p.width])
    else if !p.inWidth then p.(name := w)
    else p.(width := ToWidth(Atoi(w)))
  }

  function PortsParsed(toks: seq<string>, n: nat): PortParser
    requires n <= |toks|
  {
    if n == 0 then PortStart() else OnPortToken(PortsParsed(toks, n - 1), toks[n - 1])
  }

  method ParseWriteBackMap(toks: seq<string>) returns (ports: map<string, nat>)
    ensures ports == PortsParsed(toks, |toks|).ports
  {
    var inWidth, name, width := false, "", 0;
    ports := map[];
    for i := 0 to |toks|
      invariant PortParser(inWidth, name, width, ports) == PortsParsed(toks, i)
    {
      var info := toks[i];
      if info == "|" {
        if !inWidth {
          inWidth := true;
        } else {
          ports := ports[name := width];
          inWidth := false;
        }
      } else {
        if !inWidth {
          name := info;
        } else {
          width := ToWidth(Atoi(info));
        }
      }
    }
  }

  datatype Port = Port(name: string, width: nat)

  predicate PortsPrintable(ps: seq<Port>) {
    forall i | 0 <= i < |ps| :: ps[i].width <= INT_MAX
  }

  function PrintPorts(ps: seq<Port>, n: nat): (toks: seq<string>)
    requires n <= |ps|
    ensures |toks| == 4 * n
  {
    if n == 0 then [] else PrintPorts(ps, n - 1) + [ps[n - 1].name, "|", Decimal(ps[n - 1].width), "|"]
  }

  method GenWriteBackMap(ps: seq<Port>) returns (toks: seq<string>)
    ensures toks == PrintPorts(ps, |ps|)
  {
    toks := [];
    for i := 0 to |ps|
      invariant toks == PrintPorts(ps, i)
    {
      toks := toks + [ps[i].name, "|", Decimal(ps[i].width), "|"];
    }
  }

  function Ports(ps: seq<Port>, n: nat): map<string, nat>
    requires n <= |ps|
  {
    if n == 0 then map[] else Ports(ps, n - 1)[ps[n - 1].name := ps[n - 1].width]
  }

  lemma {:induction false} PortsPrefix(a: seq<string>, toks: seq<string>, n: nat)
    requires n <= |a| <= |toks| && forall i | 0 <= i < |a| :: toks[i] == a[i]
    ensures PortsParsed(toks, n) == PortsParsed(a, n)
  {
    if n > 0 {
      PortsPrefix(a, toks, n - 1);
    }
  }

  lemma {:induction false} PortsNext(toks: seq<string>, n: nat, p: Port)
    requires n + 4 <= |toks| && toks[n] == p.name && toks[n + 1] == "|" && toks[n + 2] == Decimal(p.width)
    requires toks[n + 3] == "|"
    requires p.width <= INT_MAX && p.name != "|" && !PortsParsed(toks, n).inWidth
    ensures !PortsParsed(toks, n + 4).inWidth
    ensures PortsParsed(toks, n + 4).ports == PortsParsed(toks, n).ports[p.name := p.width]
  {
    var q := PortsParsed(toks, n);
    AtoiOfDecimal(p.width);
    assert PortsParsed(toks, n + 1) == q.(name := p.name);
    assert PortsParsed(toks, n + 2) == q.(name := p.name, inWidth := true);
    assert PortsParsed(toks, n + 3) == q.(name := p.name, inWidth := true, width := p.width);
  }

  lemma {:induction false} PortsParsedAll(ps: seq<Port>, n: nat)
    requires n <= |ps| && PortsPrintable(ps) && forall i | 0 <= i < |ps| :: ps[i].name != "|"
    ensures var q := PortsParsed(PrintPorts(ps, n), 4 * n);
            !q.inWidth && q.ports == Ports(ps, n)
  {
    if n > 0 {
      var a, toks := PrintPorts(ps, n - 1), PrintPorts(ps, n);
      PortsParsedAll(ps, n - 1);
      PortsPrefix(a, toks, |a|);
      PortsNext(toks, |a|, ps[n - 1]);
    }
  }

  lemma {:induction false} NoSeparatorPort(toks: seq<string>, n: nat)
    requires n <= |toks|
    ensures PortsParsed(toks, n).name != "|" && "|" !in PortsParsed(toks, n).ports
  {
    if n > 0 {
      NoSeparatorPort(toks, n - 1);
    }
  }

  predicate PortRecovered(p: Port, ports: map<string, nat>) {
    p.name in ports && ports[p.name] == p.width
  }

  predicate PortsConsistent(ps: seq<Port>) {
    && (forall i | 0 <= i < |ps| :: ps[i].name != "|")
    && (forall i, j | 0 <= i < j < |ps| && ps[i].name == ps[j].name :: ps[i].width == ps[j].width)
  }

  lemma {:induction false} LastPortWins(ps: seq<Port>, n: nat, i: nat)
    requires i < n <= |ps| && PortsConsistent(ps)
    ensures PortRecovered(ps[i], Ports(ps, n))
  {
    if i < n - 1 {
      LastPortWins(ps, n - 1, i);
    }
  }

  // Main result: the same for the write-back map.
  lemma {:induction false} WriteBackRoundTripIff(ps: seq<Port>)
    requires PortsPrintable(ps)
    ensures var q := PortsParsed(PrintPorts(ps, |ps|), 4 * |ps|);
            (forall i | 0 <= i < |ps| :: PortRecovered(ps[i], q.ports)) <==> PortsConsistent(ps)
  {
    var q := PortsParsed(PrintPorts(ps, |ps|), 4 * |ps|);
    NoSeparatorPort(PrintPorts(ps, |ps|), 4 * |ps|);
    if PortsConsistent(ps) {
      PortsParsedAll(ps, |ps|);
      forall i | 0 <= i < |ps| ensures PortRecovered(ps[i], q.ports) {
        LastPortWins(ps, |ps|, i);
      }
    } else if forall i | 0 <= i < |ps| :: PortRecovered(ps[i], q.ports) {
      assert forall i | 0 <= i < |ps| :: PortRecovered(ps[i], q.ports) && ps[i].name != "|";
    }
  }
}
