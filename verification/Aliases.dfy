/** The alias file (crates/client): printing, parsing, and setting and removing names. */
module Aliases {
  import opened Common
  import opened Bytes

  type Id = b: seq<byte> | |b| == 32 witness seq(32, _ => 0)

  type Names = map<Id, string>

  // ---- Hexadecimal ---------------------------------------------------------------

  const HexDigits: string := "0123456789abcdef"

  function HexEncode(b: seq<byte>): (s: string)
    ensures |s| == 2 * |b|
    ensures forall i :: 0 <= i < |s| ==> s[i] in HexDigits
  {
    if b == [] then "" else [HexDigits[b[0] / 16], HexDigits[b[0] % 16]] + HexEncode(b[1..])
  }

  function HexValue(c: char): Option<int> {
    if '0' <= c <= '9' then Some(c as int - '0' as int)
    else if 'a' <= c <= 'f' then Some(c as int - 'a' as int + 10)
    else if 'A' <= c <= 'F' then Some(c as int - 'A' as int + 10)
    else None
  }

  function HexDecode(s: string): Option<seq<byte>> {
    if s == "" then Some([])
    else if |s| == 1 then None
    else match (HexValue(s[0]), HexValue(s[1]), HexDecode(s[2..]))
         case (Some(hi), Some(lo), Some(rest)) => Some([hi * 16 + lo] + rest)
         case _ => None
  }

  lemma {:induction false} HexDigitValue(n: nat)
    requires n < 16
    ensures HexValue(HexDigits[n]) == Some(n)
  {
  }

  lemma {:induction false} HexPair(hi: nat, lo: nat, s: string, rest: seq<byte>)
    requires hi < 16 && lo < 16 && HexDecode(s) == Some(rest)
    ensures HexDecode([HexDigits[hi], HexDigits[lo]] + s) == Some([hi * 16 + lo] + rest)
  {
    HexDigitValue(hi);
    HexDigitValue(lo);
    assert ([HexDigits[hi], HexDigits[lo]] + s)[2..] == s;
  }

  lemma {:induction false} HexRoundTrip(b: seq<byte>)
    ensures HexDecode(HexEncode(b)) == Some(b)
    decreases |b|
  {
    if b != [] {
      var head, tail := b[0], b[1..];
      HexRoundTrip(tail);
      HexByte(head, HexEncode(tail), tail);
      assert b == [head] + tail;
    }
  }

  lemma {:induction false} HexByte(head: byte, s: string, rest: seq<byte>)
    requires HexDecode(s) == Some(rest)
    ensures HexDecode([HexDigits[head / 16], HexDigits[head % 16]] + s) == Some([head] + rest)
  {
    HexPair(head / 16, head % 16, s, rest);
  }

  /** Upper-case hexadecimal letters made lower-case. */
  function LowerHex(s: string): (r: string)
    ensures |r| == |s|
  {
    seq(|s|, i requires 0 <= i < |s| => if 'A' <= s[i] <= 'F' then (s[i] as int + 32) as char else s[i])
  }

  lemma {:induction false} DigitExactly(c: char, n: nat)
    requires n < 16
    ensures HexValue(c) == Some(n) <==> LowerHex([c])[0] == HexDigits[n]
  {
  }

  /** A string decodes to these bytes exactly when, letters made lower-case, it is their encoding; nothing else decodes. */
  lemma {:induction false} HexDecodesExactly(s: string, b: seq<byte>)
    ensures HexDecode(s) == Some(b) <==> LowerHex(s) == HexEncode(b)
    decreases |s|
  {
    if |s| >= 2 && b != [] {
      HexDecodesExactly(s[2..], b[1..]);
      assert LowerHex(s)[2..] == LowerHex(s[2..]);
      DigitExactly(s[0], b[0] / 16);
      DigitExactly(s[1], b[0] % 16);
      DecodesPair(s, b);
      EncodesPair(s, b);
    } else if |s| == 1 {
      assert |HexEncode(b)| % 2 == 0;
    }
  }

  lemma {:induction false} DecodesPair(s: string, b: seq<byte>)
    requires |s| >= 2 && b != []
    ensures HexDecode(s) == Some(b) <==>
            HexValue(s[0]) == Some(b[0] / 16) && HexValue(s[1]) == Some(b[0] % 16) && HexDecode(s[2..]) == Some(b[1..])
  {
    assert b == [b[0]] + b[1..];
    if HexValue(s[0]).Some? && HexValue(s[1]).Some? && HexDecode(s[2..]).Some? {
      var hi, lo, rest := HexValue(s[0]).value, HexValue(s[1]).value, HexDecode(s[2..]).value;
      assert ([hi * 16 + lo] + rest)[0] == hi * 16 + lo && ([hi * 16 + lo] + rest)[1..] == rest;
    }
  }

  lemma {:induction false} EncodesPair(s: string, b: seq<byte>)
    requires |s| >= 2 && b != []
    ensures LowerHex(s) == HexEncode(b) <==>
            LowerHex(s)[0] == HexDigits[b[0] / 16] && LowerHex(s)[1] == HexDigits[b[0] % 16] && LowerHex(s)[2..] == HexEncode(b[1..])
  {
    var l, e := LowerHex(s), HexEncode(b);
    assert e[2..] == HexEncode(b[1..]);
    assert l == [l[0], l[1]] + l[2..];
  }

  // ---- Lines ------------------------------------------------------------------------

  /** Position of the first `c`, or the length. */
  function IndexOf(s: string, c: char): (i: nat)
    ensures i <= |s|
    ensures i < |s| ==> s[i] == c
    ensures c !in s[..i]
  {
    if s == "" then 0 else if s[0] == c then 0 else
    var i := IndexOf(s[1..], c);
    assert s[..i + 1] == [s[0]] + s[1..][..i];
    i + 1
  }

  lemma {:induction false} IndexOfFirst(a: string, c: char, b: string)
    requires c !in a
    ensures IndexOf(a + [c] + b, c) == |a|
    decreases |a|
  {
    if a == "" {
      assert a + [c] + b == [c] + b;
    } else {
      assert (a + [c] + b)[1..] == a[1..] + [c] + b;
      IndexOfFirst(a[1..], c, b);
    }
  }

  function StripCr(s: string): string {
    if s != "" && s[|s| - 1] == '\r' then s[..|s| - 1] else s
  }

  /** Rust's `lines`: split at line feeds, dropping one carriage return before each. */
  function Lines(s: string): seq<string>
    decreases |s|
  {
    if s == "" then [] else
    var i := IndexOf(s, '\n');
    if i == |s| then [s] else [StripCr(s[..i])] + Lines(s[i + 1..])
  }

  // ---- Parsing ------------------------------------------------------------------------

  datatype Named = Named(id: Id, name: string)

  function ParseLine(line: string): Option<Named> {
    var t := IndexOf(line, '\t');
    if t == |line| then None else
    match HexDecode(line[..t])
    case None => None
    case Some(bytes) => if |bytes| == 32 then Some(Named(bytes, line[t + 1..])) else None
  }

  /** A line names an id exactly when it is a 32-byte hexadecimal id, in either case, then a tab, then the name. */
  lemma {:induction false} ParsesExactly(line: string, id: Id, name: string)
    ensures ParseLine(line) == Some(Named(id, name)) <==>
            exists hex: string :: line == hex + "\t" + name && LowerHex(hex) == HexEncode(id)
  {
    if ParseLine(line) == Some(Named(id, name)) {
      var t := IndexOf(line, '\t');
      HexDecodesExactly(line[..t], id);
      assert line == line[..t] + "\t" + name;
    }
    if hex: string :| line == hex + "\t" + name && LowerHex(hex) == HexEncode(id) {
      HexDecodesExactly(hex, id);
      LowerHasNoTab(hex, id);
      assert line == hex + ['\t'] + name;
      IndexOfFirst(hex, '\t', name);
      assert line[..|hex|] == hex && line[|hex| + 1..] == name;
    }
  }

  lemma {:induction false} LowerHasNoTab(hex: string, b: seq<byte>)
    requires LowerHex(hex) == HexEncode(b)
    ensures '\t' !in hex
  {
    forall i | 0 <= i < |hex| ensures hex[i] != '\t' {
      assert LowerHex(hex)[i] in HexDigits;
    }
  }

  /** Text after the last line feed is a line of its own, carriage return and all; an empty rest is none. */
  lemma {:induction false} LastLine(s: string)
    requires '\n' !in s
    ensures Lines(s) == if s == "" then [] else [s]
  {
    assert IndexOf(s, '\n') == |s|;
  }

  function Record(m: Names, line: string): Names {
    match ParseLine(line)
    case Some(n) => m[n.id := n.name]
    case None => m
  }

  function LoadFrom(m: Names, lines: seq<string>): Names
    decreases |lines|
  {
    if lines == [] then m else LoadFrom(Record(m, lines[0]), lines[1..])
  }

  /** The names in a file; a missing file holds none. */
  function Load(content: Option<string>): Names {
    match content
    case None => map[]
    case Some(s) => LoadFrom(map[], Lines(s))
  }

  // ---- Printing -----------------------------------------------------------------------

  function Line(id: Id, name: string): string {
    HexEncode(id) + "\t" + name
  }

  function Print(order: seq<Id>, m: Names): string
    requires forall i :: 0 <= i < |order| ==> order[i] in m
  {
    if order == [] then "" else Line(order[0], m[order[0]]) + "\n" + Print(order[1..], m)
  }

  /** Some order in which the map yields its keys. */
  ghost predicate Lists(order: seq<Id>, m: Names) {
    && (forall i :: 0 <= i < |order| ==> order[i] in m)
    && (forall id :: id in m ==> id in order)
  }

  /** Names the file format can carry. */
  predicate CleanName(name: string) {
    '\n' !in name && StripCr(name) == name
  }

  ghost predicate Clean(m: Names) {
    forall id :: id in m ==> CleanName(m[id])
  }

  ghost predicate NoLineFeeds(m: Names) {
    forall id :: id in m ==> '\n' !in m[id]
  }

  lemma {:induction false} HexHasNoSeparators(b: seq<byte>)
    ensures '\n' !in HexEncode(b) && '\t' !in HexEncode(b)
  {
  }

  /** A printed line comes back as itself, but for a carriage return at its end. */
  lemma {:induction false} LineRoundTrip(id: Id, name: string, rest: string)
    requires '\n' !in name
    ensures Lines(Line(id, name) + "\n" + rest) == [StripCr(Line(id, name))] + Lines(rest)
    ensures ParseLine(StripCr(Line(id, name))) == Some(Named(id, StripCr(name)))
  {
    HexHasNoSeparators(id);
    var line := Line(id, name);
    var all := line + ['\n'] + rest;
    assert line + "\n" + rest == all;
    IndexOfFirst(line, '\n', rest);
    assert all[..|line|] == line && all[|line| + 1..] == rest;
    ParseLineRoundTrip(id, StripCr(name));
    assert StripCr(line) == Line(id, StripCr(name)) by {
      if name != "" {
        assert line[|line| - 1] == name[|name| - 1];
        assert line[..|line| - 1] == HexEncode(id) + "\t" + name[..|name| - 1];
      } else {
        assert line[|line| - 1] == '\t';
      }
    }
  }

  lemma {:induction false} ParseLineRoundTrip(id: Id, name: string)
    ensures ParseLine(Line(id, name)) == Some(Named(id, name))
  {
    HexHasNoSeparators(id);
    var hex := HexEncode(id);
    var line := hex + ['\t'] + name;
    assert Line(id, name) == line;
    IndexOfFirst(hex, '\t', name);
    assert line[..|hex|] == hex && line[|hex| + 1..] == name;
    HexRoundTrip(id);
  }

  function Stripped(order: seq<Id>, m: Names): Names
    requires forall i :: 0 <= i < |order| ==> order[i] in m
  {
    map id | id in order :: StripCr(m[id])
  }

  lemma {:induction false} FirstLineLoads(acc: Names, id: Id, name: string, rest: string)
    requires '\n' !in name
    ensures LoadFrom(acc, Lines(Line(id, name) + "\n" + rest)) == LoadFrom(acc[id := StripCr(name)], Lines(rest))
  {
    LineRoundTrip(id, name, rest);
    var line, lines := StripCr(Line(id, name)), Lines(rest);
    assert ([line] + lines)[1..] == lines;
  }

  lemma {:induction false} PrintedLoads(acc: Names, order: seq<Id>, m: Names)
    requires NoLineFeeds(m) && forall i :: 0 <= i < |order| ==> order[i] in m
    ensures LoadFrom(acc, Lines(Print(order, m))) == acc + Stripped(order, m)
    decreases |order|
  {
    if order == [] {
      assert Lines("") == [];
    } else {
      var id, rest := order[0], order[1..];
      FirstLineLoads(acc, id, m[id], Print(rest, m));
      PrintedLoads(acc[id := StripCr(m[id])], rest, m);
      StrippedCons(acc, id, rest, m);
      assert order == [id] + rest;
    }
  }

  lemma {:induction false} StrippedCons(acc: Names, id: Id, rest: seq<Id>, m: Names)
    requires id in m && forall i :: 0 <= i < |rest| ==> rest[i] in m
    ensures forall i :: 0 <= i < |[id] + rest| ==> ([id] + rest)[i] in m
    ensures acc[id := StripCr(m[id])] + Stripped(rest, m) == acc + Stripped([id] + rest, m)
  {
    assert forall x :: x in [id] + rest <==> x == id || x in rest;
  }

  // ---- What loading can produce ------------------------------------------------------------

  lemma {:induction false} LinesHaveNoFeeds(s: string)
    ensures forall i :: 0 <= i < |Lines(s)| ==> '\n' !in Lines(s)[i]
    decreases |s|
  {
    if s != "" {
      var i := IndexOf(s, '\n');
      if i < |s| {
        LinesHaveNoFeeds(s[i + 1..]);
      } else {
        assert s[..i] == s;
      }
    }
  }

  lemma {:induction false} LoadedHasNoFeeds(m: Names, lines: seq<string>)
    requires NoLineFeeds(m) && forall i :: 0 <= i < |lines| ==> '\n' !in lines[i]
    ensures NoLineFeeds(LoadFrom(m, lines))
    decreases |lines|
  {
    if lines != [] {
      LoadedHasNoFeeds(Record(m, lines[0]), lines[1..]);
    }
  }

  /** Without line feeds, what comes back is every name less one closing carriage return. */
  lemma {:induction false} LoadsStripped(order: seq<Id>, m: Names)
    requires Lists(order, m) && NoLineFeeds(m)
    ensures Load(Some(Print(order, m))) == map id | id in m :: StripCr(m[id])
  {
    PrintedLoads(map[], order, m);
    assert Stripped(order, m) == map id | id in m :: StripCr(m[id]);
  }

  lemma {:induction false} LoadedNeverHasFeeds(content: string)
    ensures NoLineFeeds(Load(Some(content)))
  {
    LinesHaveNoFeeds(content);
    LoadedHasNoFeeds(map[], Lines(content));
  }

  /** Printing in any order and loading gives the map back exactly when every name is clean. */
  lemma {:induction false} RoundTripIffClean(order: seq<Id>, m: Names)
    requires Lists(order, m)
    ensures Load(Some(Print(order, m))) == m <==> Clean(m)
  {
    if NoLineFeeds(m) {
      LoadsStripped(order, m);
      StrippedIffClean(m, Load(Some(Print(order, m))));
    } else {
      LoadedNeverHasFeeds(Print(order, m));
      var id :| id in m && '\n' in m[id];
      assert !CleanName(m[id]);
    }
  }

  lemma {:induction false} StrippedIffClean(m: Names, loaded: Names)
    requires NoLineFeeds(m) && loaded == map id | id in m :: StripCr(m[id])
    ensures loaded == m <==> Clean(m)
  {
    if Clean(m) {
      forall id | id in m ensures loaded[id] == m[id] {
        assert CleanName(m[id]);
      }
      assert loaded == m;
    } else {
      var id :| id in m && !CleanName(m[id]);
      assert loaded[id] != m[id];
    }
  }

  // ---- Setting and removing ------------------------------------------------------------------

  /** Unicode White_Space, as `trim` uses it. */
  predicate IsWhitespace(c: char) {
    var n := c as int;
    || 0x9 <= n <= 0xD || n == 0x20 || n == 0x85 || n == 0xA0 || n == 0x1680 || 0x2000 <= n <= 0x200A
    || n == 0x2028 || n == 0x2029 || n == 0x202F || n == 0x205F || n == 0x3000
  }

  function TrimStart(s: string): string {
    if s != "" && IsWhitespace(s[0]) then TrimStart(s[1..]) else s
  }

  function TrimEnd(s: string): (t: string)
    ensures t != "" ==> !IsWhitespace(t[|t| - 1])
  {
    if s != "" && IsWhitespace(s[|s| - 1]) then TrimEnd(s[..|s| - 1]) else s
  }

  function Trim(s: string): (t: string)
    ensures StripCr(t) == t
  {
    TrimEnd(TrimStart(s))
  }

  predicate AllWhitespace(s: string) {
    forall i :: 0 <= i < |s| ==> IsWhitespace(s[i])
  }

  lemma {:induction false} TrimStartCuts(s: string) returns (cut: nat)
    ensures cut <= |s| && TrimStart(s) == s[cut..] && AllWhitespace(s[..cut])
    ensures cut < |s| ==> !IsWhitespace(s[cut])
    decreases |s|
  {
    if s != "" && IsWhitespace(s[0]) {
      var rest := TrimStartCuts(s[1..]);
      cut := rest + 1;
      forall i | 0 <= i < cut ensures IsWhitespace(s[..cut][i]) {
        if i > 0 {
          assert s[..cut][i] == s[1..][..rest][i - 1];
        }
      }
    } else {
      cut := 0;
    }
  }

  lemma {:induction false} TrimEndCuts(s: string) returns (kept: nat)
    ensures kept <= |s| && TrimEnd(s) == s[..kept] && AllWhitespace(s[kept..])
    decreases |s|
  {
    if s != "" && IsWhitespace(s[|s| - 1]) {
      var pre := s[..|s| - 1];
      kept := TrimEndCuts(pre);
      forall i | 0 <= i < |s| - kept ensures IsWhitespace(s[kept..][i]) {
        if i < |pre| - kept {
          assert s[kept..][i] == pre[kept..][i];
        }
      }
    } else {
      kept := |s|;
    }
  }

  /** Trimming takes the white space off both ends and nothing else: what is left neither begins nor ends with any. */
  lemma {:induction false} TrimExactly(s: string) returns (before: string, after: string)
    ensures s == before + Trim(s) + after && AllWhitespace(before) && AllWhitespace(after)
    ensures Trim(s) != "" ==> !IsWhitespace(Trim(s)[0]) && !IsWhitespace(Trim(s)[|Trim(s)| - 1])
  {
    var cut := TrimStartCuts(s);
    var start := TrimStart(s);
    var kept := TrimEndCuts(start);
    before, after := s[..cut], start[kept..];
    assert s == before + start && start == start[..kept] + after;
  }

  predicate AliasOk(name: string) {
    1 <= |Trim(name)| <= 32
  }

  datatype Op = Set(id: Id, name: string) | Unset(id: Id)

  /** What the caller means by an operation. */
  function Meant(m: Names, op: Op): Names {
    match op
    case Set(id, name) => if AliasOk(name) then m[id := Trim(name)] else m
    case Unset(id) => m - {id}
  }

  predicate Rewrites(content: Option<string>, op: Op) {
    match op
    case Set(_, name) => AliasOk(name)
    case Unset(id) => id in Load(content)
  }

  ghost predicate PrintedSomehow(content: Option<string>, m: Names) {
    exists order :: Lists(order, m) && content == Some(Print(order, m))
  }

  /** One operation on the file: unchanged when nothing is to be written, else rewritten in some order. */
  ghost predicate Stepped(content: Option<string>, op: Op, content': Option<string>) {
    if Rewrites(content, op)
    then PrintedSomehow(content', Meant(Load(content), op))
    else content' == content
  }

  /** Names other than the one an operation is about. */
  ghost predicate OthersKeepTheirEnds(m: Names, op: Op) {
    forall id :: id in m && id != op.id ==> StripCr(m[id]) == m[id]
  }

  /** The operation would write a line feed into the file. */
  predicate WritesFeed(op: Op) {
    op.Set? && AliasOk(op.name) && '\n' in Trim(op.name)
  }

  lemma {:induction false} LoadHasNoFeeds(content: Option<string>)
    ensures NoLineFeeds(Load(content))
  {
    if content.Some? {
      LoadedNeverHasFeeds(content.value);
    }
  }

  /**
    An operation that writes does what it means exactly when it writes no line feed
    and no other name in the file ends in a carriage return; one that does not
    write always does.
   */
  lemma {:induction false} StepIsMeant(content: Option<string>, op: Op, content': Option<string>)
    requires Stepped(content, op, content')
    ensures Load(content') == Meant(Load(content), op) <==>
            !Rewrites(content, op) || (!WritesFeed(op) && OthersKeepTheirEnds(Load(content), op))
  {
    var m := Load(content);
    if Rewrites(content, op) {
      LoadHasNoFeeds(content);
      PrintedIffClean(content', Meant(m, op));
      WhenMeantIsClean(m, op);
    }
  }

  lemma {:induction false} PrintedIffClean(content: Option<string>, m: Names)
    requires PrintedSomehow(content, m)
    ensures Load(content) == m <==> Clean(m)
  {
    var order :| Lists(order, m) && content == Some(Print(order, m));
    RoundTripIffClean(order, m);
  }

  lemma {:induction false} WhenMeantIsClean(m: Names, op: Op)
    requires NoLineFeeds(m) && (op.Set? ==> AliasOk(op.name))
    ensures Clean(Meant(m, op)) <==> !WritesFeed(op) && OthersKeepTheirEnds(m, op)
  {
    var meant := Meant(m, op);
    assert op.Set? ==> meant[op.id] == Trim(op.name);
    if Clean(meant) {
      forall id | id in m && id != op.id ensures StripCr(m[id]) == m[id] {
        assert CleanName(meant[id]);
      }
      assert op.Set? ==> CleanName(meant[op.id]);
    }
  }

  /** On a file whose names are clean only a line feed in the new name can go wrong, and cleanness is kept. */
  lemma {:induction false} CleanStepIsMeant(content: Option<string>, op: Op, content': Option<string>)
    requires Clean(Load(content)) && Stepped(content, op, content')
    ensures Load(content') == Meant(Load(content), op) <==> !WritesFeed(op)
    ensures Load(content') == Meant(Load(content), op) ==> Clean(Load(content'))
  {
    StepIsMeant(content, op, content');
    LoadHasNoFeeds(content);
    assert OthersKeepTheirEnds(Load(content), op) by {
      forall id | id in Load(content) && id != op.id ensures StripCr(Load(content)[id]) == Load(content)[id] {
        assert CleanName(Load(content)[id]);
      }
    }
    if op.Set? ==> AliasOk(op.name) {
      WhenMeantIsClean(Load(content), op);
    }
  }

  /** From any file, an operation that writes no line feed leaves every name meant, less a closing carriage return. */
  lemma {:induction false} StepLeaves(content: Option<string>, op: Op, content': Option<string>)
    requires Stepped(content, op, content') && Rewrites(content, op) && !WritesFeed(op)
    ensures Load(content').Keys == Meant(Load(content), op).Keys
    ensures forall id :: id in Load(content') ==> Load(content')[id] == StripCr(Meant(Load(content), op)[id])
  {
    LoadHasNoFeeds(content);
    var loaded := PrintedLoadsStripped(content', Meant(Load(content), op));
  }

  /** From any file, a removed id is gone afterwards and no other is. */
  lemma {:induction false} RemovedIsGone(content: Option<string>, id: Id, content': Option<string>)
    requires Stepped(content, Unset(id), content')
    ensures Load(content').Keys == Load(content).Keys - {id}
  {
    if id in Load(content) {
      StepLeaves(content, Unset(id), content');
    }
  }

  /** From any file, a name of 1 to 32 characters without a line feed is what its id has afterwards, less the white space around it, and no id is lost; a refused one changes nothing. */
  lemma {:induction false} NameIsGiven(content: Option<string>, id: Id, name: string, content': Option<string>)
    requires Stepped(content, Set(id, name), content')
    ensures 1 <= |Trim(name)| <= 32 && '\n' !in Trim(name) ==>
              id in Load(content') && Load(content')[id] == Trim(name) && Load(content').Keys == Load(content).Keys + {id}
    ensures !(1 <= |Trim(name)| <= 32) ==> content' == content
  {
    if AliasOk(name) && '\n' !in Trim(name) {
      StepLeaves(content, Set(id, name), content');
    }
  }

  // ---- What a line feed does ---------------------------------------------------------------

  /** A line without a tab says nothing. */
  lemma {:induction false} IdleLine(acc: Names, line: string, rest: string)
    requires '\n' !in line && '\t' !in StripCr(line)
    ensures LoadFrom(acc, Lines(line + "\n" + rest)) == LoadFrom(acc, Lines(rest))
  {
    var all := line + ['\n'] + rest;
    assert line + "\n" + rest == all;
    IndexOfFirst(line, '\n', rest);
    assert all[..|line|] == line && all[|line| + 1..] == rest;
    var lines := Lines(rest);
    assert ([StripCr(line)] + lines)[1..] == lines;
    assert ParseLine(StripCr(line)) == None;
  }

  /** A name broken in two: the first part is the name that loads, the second is an idle line of its own. */
  lemma {:induction false} BrokenLineLoads(acc: Names, id: Id, first: string, second: string, rest: string)
    requires '\n' !in first && '\n' !in second && '\t' !in StripCr(second)
    ensures LoadFrom(acc, Lines(Line(id, first + "\n" + second) + "\n" + rest)) ==
            LoadFrom(acc[id := StripCr(first)], Lines(rest))
  {
    BrokenLine(id, first, second, rest);
    FirstLineLoads(acc, id, first, second + "\n" + rest);
    IdleLine(acc[id := StripCr(first)], second, rest);
  }

  lemma {:induction false} BrokenLine(id: Id, first: string, second: string, rest: string)
    ensures Line(id, first + "\n" + second) + "\n" + rest == Line(id, first) + "\n" + (second + "\n" + rest)
  {
    var hex := HexEncode(id);
    assert hex + "\t" + (first + "\n" + second) == hex + "\t" + first + "\n" + second;
  }

  lemma {:induction false} EmptyLoads(acc: Names)
    ensures LoadFrom(acc, Lines("")) == acc
  {
  }

  lemma {:induction false} BrokenPrintLoads(acc: Names, order: seq<Id>, id: Id, m: Names, first: string, second: string)
    requires '\n' !in first && '\n' !in second && '\t' !in StripCr(second)
    requires id in m && m[id] == first + "\n" + second
    requires forall i :: 0 <= i < |order| ==> order[i] == id
    ensures LoadFrom(acc, Lines(Print(order, m))) == if order == [] then acc else acc[id := StripCr(first)]
    decreases |order|
  {
    if order == [] {
      EmptyLoads(acc);
    } else {
      var acc', text := acc[id := StripCr(first)], Print(order[1..], m);
      BrokenPrintLoads(acc', order[1..], id, m, first, second);
      assert LoadFrom(acc', Lines(text)) == acc';
      BrokenLineLoads(acc, id, first, second, text);
    }
  }

  /** Setting a name broken by a line feed, from no file, keeps only what stands before it, less one carriage return. */
  lemma {:induction false} LineFeedCutsName(id: Id, first: string, second: string, content': Option<string>)
    requires '\n' !in first && '\n' !in second && '\t' !in StripCr(second)
    requires AliasOk(first + "\n" + second) && Trim(first + "\n" + second) == first + "\n" + second
    requires Stepped(None, Set(id, first + "\n" + second), content')
    ensures Load(content') == map[id := StripCr(first)]
  {
    var name := first + "\n" + second;
    var m := map[id := name];
    assert Meant(Load(None), Set(id, name)) == m;
    var order :| Lists(order, m) && content' == Some(Print(order, m));
    assert id in order;
    BrokenPrintLoads(map[], order, id, m, first, second);
  }

  lemma {:induction false} TrimKeeps(name: string)
    requires name != "" && !IsWhitespace(name[0]) && !IsWhitespace(name[|name| - 1])
    ensures Trim(name) == name
  {
  }

  lemma {:induction false} StripsOne(name: string)
    ensures StripCr(name + "\r") == name
  {
  }

  /** It does go wrong: "a", line feed, "b" is accepted and loads as "a". */
  lemma {:induction false} LineFeedIsLost(id: Id, content': Option<string>)
    requires Stepped(None, Set(id, "a\nb"), content')
    ensures Load(content') == map[id := "a"] != Meant(Load(None), Set(id, "a\nb"))
  {
    TrimKeeps("a\nb");
    assert "a" + "\n" + "b" == "a\nb";
    LineFeedCutsName(id, "a", "b", content');
    assert Meant(Load(None), Set(id, "a\nb"))[id] == "a\nb";
    assert |"a"| != |"a\nb"|;
  }

  /** And it can go wrong later, without any line feed: the next operation, on another name, strips a carriage return. */
  lemma {:induction false} CarriageReturnIsLost(id: Id, other: Id, content': Option<string>, content'': Option<string>)
    requires id != other
    requires Stepped(None, Set(id, "a\r\r\nb"), content') && Stepped(content', Set(other, "x"), content'')
    ensures Load(content') == map[id := "a\r"]
    ensures Load(content'') == map[id := "a", other := "x"] != Meant(Load(content'), Set(other, "x"))
  {
    TrimKeeps("a\r\r\nb");
    TrimKeeps("x");
    assert "a\r\r" + "\n" + "b" == "a\r\r\nb";
    LineFeedCutsName(id, "a\r\r", "b", content');
    StripsOne("a\r");
    assert "a\r" + "\r" == "a\r\r";
    assert Meant(Load(content'), Set(other, "x")) == map[id := "a\r", other := "x"];
    PairLoads(id, "a\r", other, "x", content'');
    StripsOne("a");
    assert "a" + "\r" == "a\r";
    assert Load(content'')[id] == "a" && |"a"| != |"a\r"|;
  }

  lemma {:induction false} PairLoads(id: Id, name: string, other: Id, name': string, content: Option<string>)
    requires id != other && '\n' !in name && '\n' !in name'
    requires PrintedSomehow(content, map[id := name, other := name'])
    ensures Load(content) == map[id := StripCr(name), other := StripCr(name')]
  {
    var m := map[id := name, other := name'];
    var loaded := PrintedLoadsStripped(content, m);
    assert loaded.Keys == {id, other};
    StrippedPair(id, name, other, name', loaded);
  }

  lemma {:induction false} PrintedLoadsStripped(content: Option<string>, m: Names) returns (loaded: Names)
    requires NoLineFeeds(m) && PrintedSomehow(content, m)
    ensures loaded == Load(content) && loaded.Keys == m.Keys
    ensures forall id :: id in m ==> loaded[id] == StripCr(m[id])
  {
    var order :| Lists(order, m) && content == Some(Print(order, m));
    LoadsStripped(order, m);
    loaded := Load(content);
  }

  lemma {:induction false} StrippedPair(id: Id, name: string, other: Id, name': string, loaded: Names)
    requires id != other && loaded.Keys == {id, other}
    requires loaded[id] == StripCr(name) && loaded[other] == StripCr(name')
    ensures loaded == map[id := StripCr(name), other := StripCr(name')]
  {
  }

  // ---- Whole runs ----------------------------------------------------------------------------

  ghost predicate IsRun(contents: seq<Option<string>>, ops: seq<Op>) {
    && |contents| == |ops| + 1 && contents[0] == None
    && forall k :: 0 <= k < |ops| ==> Stepped(contents[k], ops[k], contents[k + 1])
  }

  function MeantAll(ops: seq<Op>): Names {
    if ops == [] then map[] else Meant(MeantAll(ops[..|ops| - 1]), ops[|ops| - 1])
  }

  lemma {:induction false} TracksWithoutFeeds(contents: seq<Option<string>>, ops: seq<Op>, n: nat)
    requires IsRun(contents, ops) && n <= |ops|
    requires forall k :: 0 <= k < |ops| ==> !WritesFeed(ops[k])
    ensures Load(contents[n]) == MeantAll(ops[..n]) && Clean(MeantAll(ops[..n]))
    decreases n
  {
    if n > 0 {
      TracksWithoutFeeds(contents, ops, n - 1);
      assert ops[..n][..n - 1] == ops[..n - 1];
      assert Stepped(contents[n - 1], ops[n - 1], contents[n]);
      CleanStepIsMeant(contents[n - 1], ops[n - 1], contents[n]);
    }
  }

  ghost predicate TracksThroughout(contents: seq<Option<string>>, ops: seq<Op>)
    requires |contents| == |ops| + 1
  {
    forall n :: 0 <= n <= |ops| ==> Load(contents[n]) == MeantAll(ops[..n])
  }

  /**
    Any sequence of sets and removes, from no file, loads throughout as the same
    updates on an abstract map exactly when no accepted name holds a line feed.
   */
  lemma {:induction false} FileTracksMap(contents: seq<Option<string>>, ops: seq<Op>)
    requires IsRun(contents, ops)
    ensures TracksThroughout(contents, ops) <==> forall k :: 0 <= k < |ops| ==> !WritesFeed(ops[k])
  {
    if forall k :: 0 <= k < |ops| ==> !WritesFeed(ops[k]) {
      forall n | 0 <= n <= |ops| ensures Load(contents[n]) == MeantAll(ops[..n]) {
        TracksWithoutFeeds(contents, ops, n);
      }
    } else {
      var k :| 0 <= k < |ops| && WritesFeed(ops[k]);
      LoadHasNoFeeds(contents[k + 1]);
      assert ops[..k + 1][..k] == ops[..k];
      assert '\n' in MeantAll(ops[..k + 1])[ops[k].id];
      assert Load(contents[k + 1]) != MeantAll(ops[..k + 1]);
    }
  }

  // ---- The file as an object -------------------------------------------------------------------

  class AliasFile {
    var content: Option<string>

    constructor ()
      ensures content == None
    {
      content := None;
    }

    method LoadAliases() returns (m: Names)
      ensures m == Load(content)
    {
      m := map[];
      if content.Some? {
        var lines := Lines(content.value);
        for n := 0 to |lines|
          invariant LoadFrom(map[], lines) == LoadFrom(m, lines[n..])
        {
          assert lines[n..][0] == lines[n] && lines[n..][1..] == lines[n + 1..];
          var line := lines[n];
          var t := IndexOf(line, '\t');
          if t < |line| {
            var bytes := HexDecode(line[..t]);
            if bytes.Some? && |bytes.value| == 32 {
              m := m[bytes.value := line[t + 1..]];
            }
          }
        }
        assert lines[|lines|..] == [];
      }
    }

    method Write(m: Names)
      modifies this
      ensures PrintedSomehow(content, m)
    {
      var out := "";
      ghost var order: seq<Id> := [];
      var todo := m.Keys;
      while todo != {}
        invariant todo <= m.Keys
        invariant forall i :: 0 <= i < |order| ==> order[i] in m
        invariant forall id :: id in m ==> id in todo || id in order
        invariant out == Print(order, m)
        decreases todo
      {
        var k :| k in todo;
        PrintAppend(order, k, m);
        ghost var before := out;
        out := out + HexEncode(k);
        out := out + "\t";
        out := out + m[k];
        out := out + "\n";
        assert out == before + (Line(k, m[k]) + "\n");
        order := order + [k];
        todo := todo - {k};
      }
      content := Some(out);
      assert Lists(order, m);
    }

    method SetAlias(id: Id, name: string) returns (ok: bool)
      modifies this
      ensures ok <==> 1 <= |Trim(name)| <= 32
      ensures Stepped(old(content), Set(id, name), content)
    {
      var trimmed := Trim(name);
      if trimmed == "" || |trimmed| > 32 {
        return false;
      }
      var m := LoadAliases();
      Write(m[id := trimmed]);
      ok := true;
    }

    method RemoveAlias(id: Id)
      modifies this
      ensures Stepped(old(content), Unset(id), content)
    {
      var m := LoadAliases();
      if id !in m {
        return;
      }
      Write(m - {id});
    }
  }

  lemma {:induction false} PrintAppend(order: seq<Id>, id: Id, m: Names)
    requires id in m && forall i :: 0 <= i < |order| ==> order[i] in m
    ensures forall i :: 0 <= i < |order + [id]| ==> (order + [id])[i] in m
    ensures Print(order + [id], m) == Print(order, m) + (Line(id, m[id]) + "\n")
    decreases |order|
  {
    var last := Line(id, m[id]) + "\n";
    if order == [] {
      assert order + [id] == [id];
      assert last + "" == last && "" + last == last;
    } else {
      var rest := order[1..];
      assert (order + [id])[1..] == rest + [id];
      PrintAppend(rest, id, m);
      var head := Line(order[0], m[order[0]]) + "\n";
      Associative(head, Print(rest, m), last);
    }
  }

  lemma {:induction false} Associative(a: string, b: string, c: string)
    ensures a + (b + c) == a + b + c
  {
  }
}
