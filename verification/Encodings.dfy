/** The three encodings that a source file is tried in, as Python decodes them, and its lines. */
module Encodings {
  import opened Collections

  type Byte = x: int | 0 <= x < 256

  type Bytes = seq<Byte>

  type Lines = seq<string>

  // ---------------------------------------------------------------- utf-8

  predicate Continues(b: Bytes, i: nat) { i < |b| && 0x80 <= b[i] < 0xC0 }

  /** The six bits of a continuation byte. */
  function Bits(b: Bytes, i: nat): int
    requires Continues(b, i)
  {
    b[i] as int - 0x80
  }

  predicate IsScalar(x: int) { 0 <= x < 0xD800 || 0xE000 <= x < 0x110000 }

  datatype Step = Step(code: int, size: nat)

  /** The code point that `b` starts with, in its shortest form; None for a sequence that is no utf-8. */
  function FirstCodePoint(b: Bytes): (r: Option<Step>)
    requires b != []
    ensures r.Some? ==> IsScalar(r.value.code) && 0 < r.value.size <= |b|
  {
    var x: int := b[0];
    if x < 0x80 then Some(Step(x, 1))
    else if 0xC2 <= x < 0xE0 && Continues(b, 1) then Some(Step((x - 0xC0) * 64 + Bits(b, 1), 2))
    else if 0xE0 <= x < 0xF0 && Continues(b, 1) && Continues(b, 2) then
      var code := (x - 0xE0) * 4096 + Bits(b, 1) * 64 + Bits(b, 2);
      if code >= 0x800 && IsScalar(code) then Some(Step(code, 3)) else None
    else if 0xF0 <= x < 0xF5 && Continues(b, 1) && Continues(b, 2) && Continues(b, 3) then
      var code := (x - 0xF0) * 262144 + Bits(b, 1) * 4096 + Bits(b, 2) * 64 + Bits(b, 3);
      if code >= 0x10000 && IsScalar(code) then Some(Step(code, 4)) else None
    else None
  }

  function Utf8(b: Bytes): Option<string>
    decreases |b|
  {
    if b == [] then Some([])
    else
      match FirstCodePoint(b)
      case None => None
      case Some(Step(code, size)) =>
        match Utf8(b[size..])
        case None => None
        case Some(rest) => Some([code as char] + rest)
  }

  // ---------------------------------------------------------------- cp1252 and latin1

  /** The bytes from 0x80 to 0x9F; 0 stands for the five that have no character. */
  const CP1252: seq<nat> := [
    0x20AC, 0, 0x201A, 0x0192, 0x201E, 0x2026, 0x2020, 0x2021, 0x02C6, 0x2030, 0x0160, 0x2039, 0x0152, 0, 0x017D, 0,
    0, 0x2018, 0x2019, 0x201C, 0x201D, 0x2022, 0x2013, 0x2014, 0x02DC, 0x2122, 0x0161, 0x203A, 0x0153, 0, 0x017E, 0x0178]

  function Cp1252Code(x: Byte): (r: nat)
    ensures IsScalar(r)
  {
    if 0x80 <= x < 0xA0 then CP1252[x - 0x80] else x
  }

  function Cp1252(b: Bytes): Option<string> {
    if b == [] then Some([])
    else if 0x80 <= b[0] < 0xA0 && Cp1252Code(b[0]) == 0 then None
    else match Cp1252(b[1..]) case None => None case Some(rest) => Some([Cp1252Code(b[0]) as char] + rest)
  }

  function Latin1(b: Bytes): string {
    if b == [] then [] else [b[0] as char] + Latin1(b[1..])
  }

  // ---------------------------------------------------------------- lines

  /** Universal newlines. */
  function Translated(s: string): string {
    if s == [] then []
    else if s[0] == '\r' then ['\n'] + Translated(if |s| > 1 && s[1] == '\n' then s[2..] else s[1..])
    else [s[0]] + Translated(s[1..])
  }

  /** Each line with its end. */
  function Split(s: string): Lines {
    if s == [] then []
    else if s[0] == '\n' then ["\n"] + Split(s[1..])
    else
      var rest := Split(s[1..]);
      if rest == [] then [[s[0]]] else [[s[0]] + rest[0]] + rest[1..]
  }

  /** `readlines`. */
  function ReadLines(s: string): Lines { Split(Translated(s)) }

  // ---------------------------------------------------------------- two short contents

  /** A byte that is no utf-8, and the utf-8 of an e with an acute accent. */
  const BYTE_FF: Bytes := [0xFF]
  const E_ACUTE: Bytes := [0xC3, 0xA9]

  lemma {:induction false} OneByte(x: Byte)
    ensures x >= 0xA0 ==> Cp1252([x]) == Some([x as char])
  {
    var b: Bytes := [x];
    assert b[1..] == [] && Cp1252(b[1..]) == Some([]);
    assert x >= 0xA0 ==> Cp1252Code(b[0]) == x && [x as char] + [] == [x as char];
  }

  lemma {:induction false} DecodingsOfFF()
    ensures Utf8(BYTE_FF) == None && Cp1252(BYTE_FF) == Some([0xFF as char])
  {
    OneByte(0xFF);
    assert FirstCodePoint(BYTE_FF) == None;
  }

  lemma {:induction false} DecodingsOfAcute()
    ensures Utf8(E_ACUTE) == Some([0xE9 as char]) && Cp1252(E_ACUTE) == Some([0xC3 as char, 0xA9 as char])
  {
    OneByte(0xA9);
    var b: Bytes := E_ACUTE;
    assert b[1..] == [0xA9] && b[2..] == [];
    assert FirstCodePoint(b) == Some(Step(0xE9, 2));
    assert Utf8(b[2..]) == Some([]);
    assert Utf8(b) == Some([0xE9 as char] + []) && [0xE9 as char] + [] == [0xE9 as char];
    assert [0xC3 as char] + [0xA9 as char] == [0xC3 as char, 0xA9 as char];
  }

  lemma {:induction false} OneLine(s: string)
    requires 1 <= |s| <= 2 && forall i | 0 <= i < |s| :: s[i] != '\n' && s[i] != '\r'
    ensures ReadLines(s) == [s]
  {
    assert Translated([]) == [] && Split([]) == [];
    if |s| == 1 {
      assert s[1..] == [] && s == [s[0]];
    } else {
      assert s[1..][1..] == [] && s[1..] == [s[1]] && s == [s[0], s[1]];
      assert Translated(s[1..]) == s[1..] && Translated(s) == s;
      assert Split(s[1..]) == [s[1..]];
    }
  }
}
