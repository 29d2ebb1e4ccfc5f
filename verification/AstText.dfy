/**
 String literals printed back as source. What is printed between the quotes reads back, by the rules of
 the language, as the string, and the literal ends where the printer ends it.
 */
module AstText {

  type Byte = b: int | 0 <= b < 256

  const BACKSLASH: Byte := 92
  const SINGLE: Byte := 39
  const DOUBLE: Byte := 34
  const BACKTICK: Byte := 96
  const DOLLAR: Byte := 36
  const SPACE: Byte := 32
  const ZERO: Byte := 48

  /** A string read from a literal, and the text behind its closing quote. */
  datatype Lexed = Bad | Lexed(value: seq<Byte>, rest: seq<Byte>)

  function Prepend(bytes: seq<Byte>, l: Lexed): Lexed {
    match l
    case Bad => Bad
    case Lexed(v, rest) => Lexed(bytes + v, rest)
  }

  // ---- single quotes ----

  function EscapeSingle(c: Byte): seq<Byte> {
    if c == SINGLE || c == BACKSLASH then [BACKSLASH, c] else [c]
  }

  function Single(s: seq<Byte>): seq<Byte> {
    if s == [] then [] else EscapeSingle(s[0]) + Single(s[1..])
  }

  /** A single-quoted literal from behind its opening quote: only \' and \\ are escapes. */
  function LexSingle(t: seq<Byte>): Lexed {
    if t == [] then Bad
    else if t[0] == SINGLE then Lexed([], t[1..])
    else if t[0] == BACKSLASH && |t| > 1 && (t[1] == SINGLE || t[1] == BACKSLASH) then Prepend([t[1]], LexSingle(t[2..]))
    else Prepend([t[0]], LexSingle(t[1..]))
  }

  lemma {:induction false} SingleRoundTrip(s: seq<Byte>, rest: seq<Byte>)
    ensures LexSingle(Single(s) + [SINGLE] + rest) == Lexed(s, rest)
    decreases |s|
  {
    var t := Single(s) + [SINGLE] + rest;
    if s == [] {
      assert t[1..] == rest;
    } else {
      var more := Single(s[1..]) + [SINGLE] + rest;
      assert t == EscapeSingle(s[0]) + more;
      SingleRoundTrip(s[1..], rest);
      assert t[|EscapeSingle(s[0])|..] == more;
      assert [s[0]] + s[1..] == s;
    }
  }

  // ---- double quotes and backticks ----

  function EscapeControl(c: Byte): seq<Byte>
    requires c < SPACE
  {
    if c == 10 then [BACKSLASH, 110]        // \n
    else if c == 13 then [BACKSLASH, 114]   // \r
    else if c == 9 then [BACKSLASH, 116]    // \t
    else if c == 12 then [BACKSLASH, 102]   // \f
    else if c == 11 then [BACKSLASH, 118]   // \v
    else if c == 27 then [BACKSLASH, 101]   // \e
    else [BACKSLASH, ZERO, ZERO + c / 8, ZERO + c % 8]
  }

  function EscapeQuoted(quote: Byte, c: Byte): seq<Byte> {
    if c < SPACE then EscapeControl(c)
    else if c == quote || c == DOLLAR || c == BACKSLASH then [BACKSLASH, c]
    else [c]
  }

  function Quoted(quote: Byte, s: seq<Byte>): seq<Byte> {
    if s == [] then [] else EscapeQuoted(quote, s[0]) + Quoted(quote, s[1..])
  }

  predicate Octal(b: Byte) { ZERO <= b < ZERO + 8 }

  /** How many octal digits, at most n, the text starts with. */
  function Digits(t: seq<Byte>, n: nat): (d: nat)
    ensures d <= n && d <= |t| && forall i :: 0 <= i < d ==> Octal(t[i])
  {
    if n == 0 || t == [] || !Octal(t[0]) then 0 else 1 + Digits(t[1..], n - 1)
  }

  function OctalValue(t: seq<Byte>, v: nat): nat
    requires forall i :: 0 <= i < |t| ==> Octal(t[i])
    decreases |t|
  {
    if t == [] then v else assert Octal(t[0]); OctalValue(t[1..], v * 8 + (t[0] - ZERO))
  }

  /** What \c stands for, if it is one of the named escapes. */
  function Named(quote: Byte, c: Byte): seq<Byte> {
    if c == 110 then [10] else if c == 114 then [13] else if c == 116 then [9]
    else if c == 102 then [12] else if c == 118 then [11] else if c == 101 then [27]
    else if c == BACKSLASH || c == DOLLAR || c == quote then [c] else []
  }

  /**
     A double-quoted or backtick literal from behind its opening quote: named escapes, octal escapes of up
     to three digits reduced to a byte, any other backslash stands for itself. A bare $ would start an interpolation.
   */
  function LexQuoted(quote: Byte, t: seq<Byte>): Lexed
    decreases |t|
  {
    if t == [] || t[0] == DOLLAR then Bad
    else if t[0] == quote then Lexed([], t[1..])
    else if t[0] != BACKSLASH || |t| == 1 then Prepend([t[0]], LexQuoted(quote, t[1..]))
    else if Named(quote, t[1]) != [] then Prepend(Named(quote, t[1]), LexQuoted(quote, t[2..]))
    else
      var d := Digits(t[1..], 3);
      if d > 0 then Prepend([OctalValue(t[1..1 + d], 0) % 256], LexQuoted(quote, t[1 + d..]))
      else Prepend([BACKSLASH], LexQuoted(quote, t[1..]))
  }

  lemma LexPlain(quote: Byte, c: Byte, more: seq<Byte>)
    requires c != DOLLAR && c != quote && c != BACKSLASH
    ensures LexQuoted(quote, [c] + more) == Prepend([c], LexQuoted(quote, more))
  {
    assert ([c] + more)[1..] == more;
  }

  lemma LexNamed(quote: Byte, c: Byte, more: seq<Byte>)
    requires quote != BACKSLASH && Named(quote, c) != []
    ensures LexQuoted(quote, [BACKSLASH, c] + more) == Prepend(Named(quote, c), LexQuoted(quote, more))
  {
    hide Named, Digits, OctalValue;
    assert ([BACKSLASH, c] + more)[2..] == more;
  }

  lemma LexOctal(quote: Byte, a: Byte, b: Byte, c: Byte, more: seq<Byte>)
    requires quote != BACKSLASH && Octal(a) && Octal(b) && Octal(c) && Named(quote, a) == []
    ensures LexQuoted(quote, [BACKSLASH, a, b, c] + more)
            == Prepend([(((a - ZERO) * 8 + (b - ZERO)) * 8 + (c - ZERO)) % 256], LexQuoted(quote, more))
  {
    hide Named, Digits, OctalValue, LexQuoted;
    var t := [BACKSLASH, a, b, c] + more;
    ThreeDigits(t[1..]);
    assert t[1..4] == t[1..][..3] && t[4..] == more;
    LexDigits(quote, t);
  }

  lemma LexDigits(quote: Byte, t: seq<Byte>)
    requires quote != BACKSLASH && |t| >= 4 && t[0] == BACKSLASH && Named(quote, t[1]) == [] && Digits(t[1..], 3) == 3
    ensures LexQuoted(quote, t) == Prepend([OctalValue(t[1..4], 0) % 256], LexQuoted(quote, t[4..]))
  {
    hide Named, OctalValue, Digits;
  }

  /** One escaped byte reads back as the byte. */
  lemma QuotedStep(quote: Byte, c: Byte, more: seq<Byte>)
    requires quote == DOUBLE || quote == BACKTICK
    ensures LexQuoted(quote, EscapeQuoted(quote, c) + more) == Prepend([c], LexQuoted(quote, more))
  {
    hide LexQuoted, Digits, OctalValue;
    if |EscapeQuoted(quote, c)| == 4 {
      LexOctal(quote, ZERO, ZERO + c / 8, ZERO + c % 8, more);
    } else if |EscapeQuoted(quote, c)| == 2 {
      LexNamed(quote, EscapeQuoted(quote, c)[1], more);
    } else {
      LexPlain(quote, c, more);
    }
  }

  lemma ThreeDigits(t: seq<Byte>)
    requires |t| >= 3 && Octal(t[0]) && Octal(t[1]) && Octal(t[2])
    ensures Digits(t, 3) == 3
    ensures OctalValue(t[..3], 0) == ((t[0] - ZERO) * 8 + (t[1] - ZERO)) * 8 + (t[2] - ZERO)
  {
    assert t[1..][0] == t[1] && t[1..][1..][0] == t[2];
    assert Digits(t[1..][1..], 1) == 1;
    assert Digits(t[1..], 2) == 2;
    var d := t[..3];
    assert d[1..][0] == t[1] && d[1..][1..][0] == t[2] && d[1..][1..][1..] == [];
    var v := t[0] - ZERO;
    assert OctalValue(d[1..][1..], v * 8 + (t[1] - ZERO)) == (v * 8 + (t[1] - ZERO)) * 8 + (t[2] - ZERO);
  }

  lemma {:induction false} QuotedRoundTrip(quote: Byte, s: seq<Byte>, rest: seq<Byte>)
    requires quote == DOUBLE || quote == BACKTICK
    ensures LexQuoted(quote, Quoted(quote, s) + [quote] + rest) == Lexed(s, rest)
    decreases |s|
  {
    hide EscapeQuoted;
    var t := Quoted(quote, s) + [quote] + rest;
    if s == [] {
      assert t[1..] == rest;
    } else {
      hide LexQuoted;
      var more := Quoted(quote, s[1..]) + [quote] + rest;
      assert t == EscapeQuoted(quote, s[0]) + more;
      QuotedStep(quote, s[0], more);
      QuotedRoundTrip(quote, s[1..], rest);
      assert [s[0]] + s[1..] == s;
    }
  }

  // ---- which bytes are escaped, and how long the escapes are ----

  /** Only the quote and the backslash get a backslash. */
  lemma SingleForm(c: Byte)
    ensures Single([c]) == [c] <==> c != 39 && c != 92
    ensures c == 39 || c == 92 ==> Single([c]) == [92, c]
  {
    assert [c][1..] == [];
  }

  /** Six control characters have names of two bytes, the others take four; of the rest only three bytes are escaped. */
  lemma QuotedForm(quote: Byte, c: Byte)
    requires quote == DOUBLE || quote == BACKTICK
    ensures Quoted(quote, [10]) == [92, 110] && Quoted(quote, [13]) == [92, 114] && Quoted(quote, [9]) == [92, 116]
    ensures Quoted(quote, [12]) == [92, 102] && Quoted(quote, [11]) == [92, 118] && Quoted(quote, [27]) == [92, 101]
    ensures c < 32 && c !in [9, 10, 11, 12, 13, 27] ==> |Quoted(quote, [c])| == 4
    ensures c == quote || c == 36 || c == 92 ==> Quoted(quote, [c]) == [92, c]
    ensures c >= 32 && c != quote && c != 36 && c != 92 ==> Quoted(quote, [c]) == [c]
  {
    assert forall b: Byte :: [b][1..] == [];
    assert Quoted(quote, []) == [];
    assert forall b: Byte :: Quoted(quote, [b]) == EscapeQuoted(quote, b);
  }

  // ---- the printer's buffer ----

  class Text {
    var bytes: seq<Byte>

    constructor ()
      ensures bytes == []
    {
      bytes := [];
    }

    method AppendByte(c: Byte)
      modifies this
      ensures bytes == old(bytes) + [c]
    {
      bytes := bytes + [c];
    }

    /** The contents of a single-quoted literal. */
    method ExportStr(s: seq<Byte>)
      modifies this
      ensures bytes == old(bytes) + Single(s)
    {
      assert s[0..] == s;
      for i := 0 to |s|
        invariant bytes + Single(s[i..]) == old(bytes) + Single(s)
      {
        ghost var before := bytes;
        var c := s[i];
        if c == SINGLE || c == BACKSLASH {
          AppendByte(BACKSLASH);
          AppendByte(c);
        } else {
          AppendByte(c);
        }
        assert s[i..][1..] == s[i + 1..];
        assert bytes + Single(s[i + 1..]) == before + Single(s[i..]);
      }
    }

    /** The contents of a literal in double quotes or backticks. */
    method ExportQstr(quote: Byte, s: seq<Byte>)
      modifies this
      ensures bytes == old(bytes) + Quoted(quote, s)
    {
      hide EscapeControl, EscapeQuoted;
      assert s[0..] == s;
      for i := 0 to |s|
        invariant bytes + Quoted(quote, s[i..]) == old(bytes) + Quoted(quote, s)
      {
        ghost var before := bytes;
        AppendQuoted(quote, s[i]);
        assert s[i..][1..] == s[i + 1..];
        assert bytes + Quoted(quote, s[i + 1..]) == before + Quoted(quote, s[i..]);
      }
    }

    method AppendQuoted(quote: Byte, c: Byte)
      modifies this
      ensures bytes == old(bytes) + EscapeQuoted(quote, c)
    {
      if c < SPACE {
        AppendByte(BACKSLASH);
        match c {
          case 10 => AppendByte(110);
          case 13 => AppendByte(114);
          case 9 => AppendByte(116);
          case 12 => AppendByte(102);
          case 11 => AppendByte(118);
          case 27 => AppendByte(101);
          case _ =>
            AppendByte(ZERO);
            AppendByte(ZERO + c / 8);
            AppendByte(ZERO + c % 8);
        }
      } else {
        if c == quote || c == DOLLAR || c == BACKSLASH {
          AppendByte(BACKSLASH);
        }
        AppendByte(c);
      }
    }
  }
}
