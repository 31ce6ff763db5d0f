/** Day 8: the length of string literals in code, in memory, and after
    re-encoding. */
module Day8 {
  import opened Common

  /** The flags and the running count of `Entry::memory`. */
  datatype Scan = Scan(memory: nat, escape: bool, inHex: bool, inString: bool, hexRemaining: int)

  const START: Scan := Scan(0, false, false, false, 0)

  predicate IsHexDigit(c: char) {
    '0' <= c <= '9' || 'a' <= c <= 'f' || 'A' <= c <= 'F'
  }

  /** One character of `Entry::memory`: the match arms in order. `None` is
      the `unreachable!` panic: a character outside the quotes, or an
      unknown escape. `hex_remaining` is an `i32` that only counts down
      from 2 while a hex escape is open, so it cannot overflow. */
  function Step(st: Scan, c: char): Option<Scan> {
    if c == '"' && !st.inString then Some(st.(inString := true))
    else if c == '"' && st.escape then Some(st.(escape := false, memory := st.memory + 1))
    else if c == '"' && st.inString then Some(st.(inString := false))
    else if !st.inString then None
    else if c == '\\' && st.escape then Some(st.(escape := false, memory := st.memory + 1))
    else if c == '\\' then Some(st.(escape := true))
    else if c == 'x' && st.escape then Some(st.(inHex := true, hexRemaining := 2))
    else if IsHexDigit(c) && st.escape && st.inHex && st.hexRemaining > 1 then
      Some(st.(hexRemaining := st.hexRemaining - 1))
    else if IsHexDigit(c) && st.escape && st.inHex then
      Some(st.(hexRemaining := st.hexRemaining - 1, escape := false, inHex := false, memory := st.memory + 1))
    else if st.escape then None
    else Some(st.(memory := st.memory + 1))
  }

  /** The scan of `s` from `st`, or `None` if it panics. */
  function Run(st: Scan, s: string): Option<Scan>
    decreases |s|
  {
    if s == [] then Some(st)
    else match Step(st, s[0]) {
      case None => None
      case Some(next) => Run(next, s[1..])
    }
  }

  /** Scanning a concatenation scans the parts one after the other. */
  lemma {:induction false} RunAppend(st: Scan, a: string, b: string)
    ensures Run(st, a + b) == match Run(st, a) { case None => None case Some(mid) => Run(mid, b) }
    decreases |a|
  {
    if a == [] {
      assert a + b == b;
    } else {
      assert (a + b)[0] == a[0] && (a + b)[1..] == a[1..] + b;
      match Step(st, a[0]) {
        case None =>
        case Some(next) => RunAppend(next, a[1..], b);
      }
    }
  }

  /** Each character adds at most one to the count. */
  lemma {:induction false} RunCountsAtMostOnePerChar(st: Scan, s: string)
    requires Run(st, s).Some?
    ensures Run(st, s).value.memory <= st.memory + |s|
    decreases |s|
  {
    if s != [] {
      RunCountsAtMostOnePerChar(Step(st, s[0]).value, s[1..]);
    }
  }

  /** The number of characters the literal `s` holds in memory, if `s` can
      be scanned. */
  function MemoryOf(s: string): Option<nat> {
    match Run(START, s) {
      case None => None
      case Some(st) => Some(st.memory)
    }
  }

  /** `Entry::memory`: the character loop over the four flags. The source
      reaches `unreachable!` on any input that is not a literal, so it must
      scan without a panic. */
  method Memory(s: string) returns (memory: nat)
    requires MemoryOf(s).Some?
    ensures Some(memory) == MemoryOf(s)
  {
    memory := 0;
    var escape, inHex, inString := false, false, false;
    var hexRemaining: int := 0;
    var i := 0;
    while i < |s|
      invariant 0 <= i <= |s|
      invariant Run(START, s) == Run(Scan(memory, escape, inHex, inString, hexRemaining), s[i..])
    {
      assert s[i..][0] == s[i] && s[i..][1..] == s[i + 1..];
      var c := s[i];
      if c == '"' && !inString {
        inString := true;
      } else if c == '"' && escape {
        escape := false;
        memory := memory + 1;
      } else if c == '"' && inString {
        inString := false;
      } else if !inString {
        assert false;
      } else if c == '\\' && escape {
        escape := false;
        memory := memory + 1;
      } else if c == '\\' {
        escape := true;
      } else if c == 'x' && escape {
        inHex := true;
        hexRemaining := 2;
      } else if IsHexDigit(c) && escape && inHex && hexRemaining > 1 {
        hexRemaining := hexRemaining - 1;
      } else if IsHexDigit(c) && escape && inHex {
        hexRemaining := hexRemaining - 1;
        escape := false;
        inHex := false;
        memory := memory + 1;
      } else if escape {
        assert false;
      } else {
        memory := memory + 1;
      }
      i := i + 1;
    }
  }

  /** One unit of a well-formed literal's body. */
  datatype Piece = Plain(c: char) | EscapedBackslash | EscapedQuote | EscapedHex(hi: char, lo: char)

  predicate ValidPiece(p: Piece) {
    match p
    case Plain(c) => c != '"' && c != '\\'
    case EscapedHex(hi, lo) => IsHexDigit(hi) && IsHexDigit(lo)
    case _ => true
  }

  /** The source text of one piece. */
  function Render(p: Piece): string {
    match p
    case Plain(c) => [c]
    case EscapedBackslash => "\\\\"
    case EscapedQuote => "\\\""
    case EscapedHex(hi, lo) => "\\x" + [hi, lo]
  }

  function RenderAll(pieces: seq<Piece>): string {
    if pieces == [] then [] else Render(pieces[0]) + RenderAll(pieces[1..])
  }

  /** A quoted literal whose body is `pieces`. */
  function Literal(pieces: seq<Piece>): string {
    "\"" + RenderAll(pieces) + "\""
  }

  /** The state between two pieces of a literal's body. */
  function Inside(memory: nat): Scan {
    Scan(memory, false, false, true, 0)
  }

  /** A valid piece counts once. */
  lemma RunPiece(memory: nat, p: Piece)
    requires ValidPiece(p)
    ensures Run(Inside(memory), Render(p)) == Some(Inside(memory + 1))
  {
    match p {
      case Plain(c) =>
      case EscapedBackslash =>
        var s := Render(p);
        assert s[0] == '\\' && s[1..][0] == '\\' && s[1..][1..] == [];
        var escaped := Scan(memory, true, false, true, 0);
        assert Step(Inside(memory), '\\') == Some(escaped);
        assert Step(escaped, '\\') == Some(Inside(memory + 1));
        assert Run(escaped, s[1..]) == Some(Inside(memory + 1));
      case EscapedQuote =>
        var s := Render(p);
        assert s[0] == '\\' && s[1..][0] == '"' && s[1..][1..] == [];
        var escaped := Scan(memory, true, false, true, 0);
        assert Step(Inside(memory), '\\') == Some(escaped);
        assert Step(escaped, '"') == Some(Inside(memory + 1));
        assert Run(escaped, s[1..]) == Some(Inside(memory + 1));
      case EscapedHex(hi, lo) =>
        var s := Render(p);
        assert s[0] == '\\' && s[1..][0] == 'x' && s[1..][1..][0] == hi && s[1..][1..][1..] == [lo];
        var escaped := Scan(memory, true, false, true, 0);
        var hex2 := Scan(memory, true, true, true, 2);
        var hex1 := Scan(memory, true, true, true, 1);
        assert Step(Inside(memory), '\\') == Some(escaped);
        assert Step(escaped, 'x') == Some(hex2);
        assert Step(hex2, hi) == Some(hex1);
        assert Step(hex1, lo) == Some(Inside(memory + 1));
        assert Run(hex1, [lo]) == Some(Inside(memory + 1));
        assert Run(hex2, s[1..][1..]) == Some(Inside(memory + 1));
        assert Run(escaped, s[1..]) == Some(Inside(memory + 1));
    }
  }

  lemma {:induction false} RunPieces(memory: nat, pieces: seq<Piece>)
    requires forall i :: 0 <= i < |pieces| ==> ValidPiece(pieces[i])
    ensures Run(Inside(memory), RenderAll(pieces)) == Some(Inside(memory + |pieces|))
    decreases |pieces|
  {
    if pieces != [] {
      RunAppend(Inside(memory), Render(pieces[0]), RenderAll(pieces[1..]));
      RunPiece(memory, pieces[0]);
      RunPieces(memory + 1, pieces[1..]);
    }
  }

  /** Every well-formed literal can be scanned, and its memory length is the
      number of pieces in its body: escapes and plain characters count one,
      the enclosing quotes nothing. */
  lemma LiteralMemory(pieces: seq<Piece>)
    requires forall i :: 0 <= i < |pieces| ==> ValidPiece(pieces[i])
    ensures MemoryOf(Literal(pieces)) == Some(|pieces|)
  {
    var body := RenderAll(pieces);
    assert Literal(pieces) == "\"" + (body + "\"");
    RunAppend(START, "\"", body + "\"");
    RunAppend(Inside(0), body, "\"");
    RunPieces(0, pieces);
  }

  lemma {:induction false} RenderAllLength(pieces: seq<Piece>)
    ensures |RenderAll(pieces)| >= |pieces|
  {
    if pieces != [] {
      RenderAllLength(pieces[1..]);
    }
  }

  /** A literal holds fewer characters in memory than in code. */
  lemma MemoryBelowCode(pieces: seq<Piece>)
    requires forall i :: 0 <= i < |pieces| ==> ValidPiece(pieces[i])
    ensures MemoryOf(Literal(pieces)).Some?
    ensures MemoryOf(Literal(pieces)).value + 2 <= |Literal(pieces)| <= Utf8Length(Literal(pieces))
  {
    LiteralMemory(pieces);
    RenderAllLength(pieces);
  }

  /** One character of `Entry::encode`. */
  function EncodeChar(c: char): string {
    if c == '"' then "\\\"" else if c == '\\' then "\\\\" else [c]
  }

  function EncodeBody(s: string): string {
    if s == [] then [] else EncodeChar(s[0]) + EncodeBody(s[1..])
  }

  /** `Entry::encode`: quotes and backslashes are escaped and the result is
      quoted. */
  function Encode(s: string): string {
    "\"" + EncodeBody(s) + "\""
  }

  /** The pieces that `encode` writes for `s`. */
  function EncodePieces(s: string): (pieces: seq<Piece>)
    ensures |pieces| == |s|
    ensures forall i :: 0 <= i < |pieces| ==> ValidPiece(pieces[i])
  {
    if s == [] then []
    else
      var p := if s[0] == '"' then EscapedQuote else if s[0] == '\\' then EscapedBackslash else Plain(s[0]);
      [p] + EncodePieces(s[1..])
  }

  lemma {:induction false} EncodeBodyIsRender(s: string)
    ensures EncodeBody(s) == RenderAll(EncodePieces(s))
  {
    if s != [] {
      EncodeBodyIsRender(s[1..]);
      assert EncodePieces(s)[1..] == EncodePieces(s[1..]);
    }
  }

  /** Encoding then scanning gives back the length of the original string:
      `encode` always produces a well-formed literal holding `s`. */
  lemma EncodeMemory(s: string)
    ensures MemoryOf(Encode(s)) == Some(|s|)
  {
    EncodeBodyIsRender(s);
    LiteralMemory(EncodePieces(s));
  }

  /** The encoding adds the two quotes and one backslash per quote or
      backslash of `s`. */
  lemma {:induction false} EncodeLength(s: string)
    ensures |Encode(s)| == |s| + 2 + Count(s, '"') + Count(s, '\\')
    ensures Encode(s)[0] == '"' && Encode(s)[|Encode(s)| - 1] == '"'
  {
    EncodeBodyLength(s);
  }

  lemma {:induction false} EncodeBodyLength(s: string)
    ensures |EncodeBody(s)| == |s| + Count(s, '"') + Count(s, '\\')
  {
    if s != [] {
      EncodeBodyLength(s[1..]);
    }
  }

  lemma KnownEncodings()
    ensures Encode("\"\"") == "\"\\\"\\\"\""
    ensures Encode("\"abc\"") == "\"\\\"abc\\\"\""
  {
  }

  /** Encoding is character by character. */
  lemma {:induction false} EncodeBodyAppend(a: string, b: string)
    ensures EncodeBody(a + b) == EncodeBody(a) + EncodeBody(b)
  {
    if a == [] {
      assert a + b == b;
    } else {
      assert (a + b)[0] == a[0] && (a + b)[1..] == a[1..] + b;
      EncodeBodyAppend(a[1..], b);
    }
  }

  lemma KnownEncodingHex()
    ensures Encode("\"\\x27\"") == "\"\\\"\\\\x27\\\"\""
  {
  }

  /** Encoding a literal whose body holds an escaped quote between two
      copies of `t`, a text `encode` leaves alone. */
  lemma {:induction false} EncodeEscapedQuote(t: string)
    requires EncodeBody(t) == t
    ensures Encode(['"'] + t + ['\\'] + ['"'] + t + ['"'])
      == ['"'] + (['\\', '"'] + t + ['\\', '\\'] + ['\\', '"'] + t + ['\\', '"']) + ['"']
  {
    var q, bs := ['"'], ['\\'];
    assert EncodeBody(q) == ['\\', '"'] && EncodeBody(bs) == ['\\', '\\'];
    EncodeBodyAppend(q, t);
    EncodeBodyAppend(q + t, bs);
    EncodeBodyAppend(q + t + bs, q);
    EncodeBodyAppend(q + t + bs + q, t);
    EncodeBodyAppend(q + t + bs + q + t, q);
  }

  lemma KnownEncodingEscapedQuote()
    ensures Encode("\"aaa\\\"aaa\"") == "\"\\\"aaa\\\\\\\"aaa\\\"\""
  {
    var t := "aaa";
    assert EncodeBody(t) == t;
    EncodeEscapedQuote(t);
    var input := ['"'] + t + ['\\'] + ['"'] + t + ['"'];
    assert input == "\"aaa\\\"aaa\"";
    var output := ['"'] + (['\\', '"'] + t + ['\\', '\\'] + ['\\', '"'] + t + ['\\', '"']) + ['"'];
    assert output == "\"\\\"aaa\\\\\\\"aaa\\\"\"";
  }

  lemma KnownMemory()
    ensures MemoryOf("\"\"") == Some(0)
    ensures MemoryOf("\"abc\"") == Some(3)
    ensures MemoryOf("\"\\x27\"") == Some(1)
  {
    assert "\"\"" == Literal([]);
    assert "\"abc\"" == Literal([Plain('a'), Plain('b'), Plain('c')]);
    assert "\"\\x27\"" == Literal([EscapedHex('2', '7')]);
    LiteralMemory([]);
    LiteralMemory([Plain('a'), Plain('b'), Plain('c')]);
    LiteralMemory([EscapedHex('2', '7')]);
  }

  lemma KnownMemoryEscapedQuote()
    ensures MemoryOf("\"aaa\\\"aaa\"") == Some(7)
  {
    var a := Plain('a');
    var q := [a, a, a, EscapedQuote, a, a, a];
    assert RenderAll(q[6..]) == "a";
    assert RenderAll(q[5..]) == "aa" by { assert q[5..][1..] == q[6..]; }
    assert RenderAll(q[4..]) == "aaa" by { assert q[4..][1..] == q[5..]; }
    assert RenderAll(q[3..]) == "\\\"aaa" by { assert q[3..][1..] == q[4..]; }
    assert RenderAll(q[2..]) == "a\\\"aaa" by { assert q[2..][1..] == q[3..]; }
    assert RenderAll(q[1..]) == "aa\\\"aaa" by { assert q[1..][1..] == q[2..]; }
    assert RenderAll(q) == "aaa\\\"aaa";
    assert "\"aaa\\\"aaa\"" == Literal([a, a, a, EscapedQuote, a, a, a]);
    LiteralMemory([a, a, a, EscapedQuote, a, a, a]);
  }

  /** The code lengths of the parsing examples, in bytes. */
  lemma KnownCodeLengths()
    ensures Utf8Length("\"\"") == 2
    ensures Utf8Length("\"abc\"") == 5
    ensures Utf8Length("\"\\x27\"") == 6
  {
    AsciiLength("\"abc\"");
    AsciiLength("\"\\x27\"");
  }

  lemma KnownCodeLengthEscapedQuote()
    ensures Utf8Length("\"aaa\\\"aaa\"") == 10
  {
    assert IsAscii("\"aaa\\\"aaa\"");
    AsciiLength("\"aaa\\\"aaa\"");
  }

  /** One parsed line. */
  datatype Entry = Entry(code: nat, memory: nat, input: string)

  /** An entry as `Entry::from_str` builds it. */
  predicate ValidEntry(e: Entry) {
    e.code == Utf8Length(e.input) && MemoryOf(e.input) == Some(e.memory)
  }

  /** `Entry::from_str`: the code length counts UTF-8 bytes. */
  method ParseEntry(s: string) returns (e: Entry)
    requires MemoryOf(s).Some?
    ensures ValidEntry(e) && e.input == s
  {
    var memory := Memory(s);
    e := Entry(Utf8Length(s), memory, s);
  }

  function SumCode(entries: seq<Entry>): nat {
    if entries == [] then 0 else SumCode(entries[..|entries| - 1]) + entries[|entries| - 1].code
  }

  function SumMemory(entries: seq<Entry>): nat {
    if entries == [] then 0 else SumMemory(entries[..|entries| - 1]) + entries[|entries| - 1].memory
  }

  /** The encoded lengths, counted in characters as `chars().count()` does. */
  function SumEncoded(entries: seq<Entry>): nat {
    if entries == [] then 0 else SumEncoded(entries[..|entries| - 1]) + |Encode(entries[|entries| - 1].input)|
  }

  /** For parsed entries the first answer is never negative. */
  lemma {:induction false} MemoryBelowCodeTotal(entries: seq<Entry>)
    requires forall i :: 0 <= i < |entries| ==> ValidEntry(entries[i])
    ensures SumMemory(entries) <= SumCode(entries)
  {
    if entries != [] {
      var init := entries[..|entries| - 1];
      assert forall i :: 0 <= i < |init| ==> init[i] == entries[i];
      MemoryBelowCodeTotal(init);
      var e := entries[|entries| - 1];
      assert ValidEntry(e);
      RunCountsAtMostOnePerChar(START, e.input);
    }
  }

  class Solution {
    var entries: seq<Entry>
    var answerPart1: Option<int>
    var answerPart2: Option<int>

    constructor ()
      ensures entries == [] && answerPart1 == None && answerPart2 == None
    {
      entries := [];
      answerPart1 := None;
      answerPart2 := None;
    }

    /** `Solution::add_entry`. */
    method AddEntry(entry: Entry)
      modifies this
      ensures entries == old(entries) + [entry]
      ensures answerPart1 == old(answerPart1) && answerPart2 == old(answerPart2)
    {
      entries := entries + [entry];
    }

    /** `analyse_part1`: total code length minus total memory length. */
    method AnalysePart1() returns (answer: Option<int>)
      ensures answer == Some(SumCode(entries) - SumMemory(entries))
    {
      var codeLen, memLen := 0, 0;
      var i := 0;
      while i < |entries|
        invariant 0 <= i <= |entries|
        invariant codeLen == SumCode(entries[..i]) && memLen == SumMemory(entries[..i])
      {
        assert entries[..i + 1][..i] == entries[..i];
        codeLen := codeLen + entries[i].code;
        memLen := memLen + entries[i].memory;
        i := i + 1;
      }
      assert entries[..i] == entries;
      answer := Some(codeLen - memLen);
    }

    /** `analyse_part2`: total encoded length minus total code length. */
    method AnalysePart2() returns (answer: Option<int>)
      ensures answer == Some(SumEncoded(entries) - SumCode(entries))
    {
      var codeLen, encodedLen := 0, 0;
      var i := 0;
      while i < |entries|
        invariant 0 <= i <= |entries|
        invariant codeLen == SumCode(entries[..i]) && encodedLen == SumEncoded(entries[..i])
      {
        assert entries[..i + 1][..i] == entries[..i];
        codeLen := codeLen + entries[i].code;
        encodedLen := encodedLen + |Encode(entries[i].input)|;
        i := i + 1;
      }
      assert entries[..i] == entries;
      answer := Some(encodedLen - codeLen);
    }

    /** `analyse`: stores both answers. */
    method Analyse()
      modifies this
      ensures entries == old(entries)
      ensures answerPart1 == Some(SumCode(entries) - SumMemory(entries))
      ensures answerPart2 == Some(SumEncoded(entries) - SumCode(entries))
    {
      answerPart1 := AnalysePart1();
      answerPart2 := AnalysePart2();
    }
  }
}
