/** The escaper for bytea fields (dump_ser_chimera.c): bytes outside the plain printable range become two
    backslashes and three octal digits. */
module Escape {
  import opened Records

  const BACKSLASH: byte := 92
  const QUOTE: byte := 39
  const DIGIT0: byte := 48

  predicate Special(b: byte) {
    b <= 31 || b >= 127 || b == BACKSLASH || b == QUOTE
  }

  function Octal(b: byte): (s: seq<byte>)
    ensures |s| == 3
  {
    [DIGIT0 + b / 64, DIGIT0 + b / 8 % 8, DIGIT0 + b % 8]
  }

  function EscapeByte(b: byte): seq<byte> {
    if Special(b) then [BACKSLASH, BACKSLASH] + Octal(b) else [b]
  }

  ghost function Escaped(data: seq<byte>): seq<byte> {
    if data == [] then [] else Escaped(data[..|data| - 1]) + EscapeByte(data[|data| - 1])
  }

  /** calc_escaped_string_size: the length of the escaped form. */
  method CalcEscapedSize(data: seq<byte>) returns (size: nat)
    ensures size == |Escaped(data)|
  {
    size := |data|;
    var i: nat := 0;
    while i < |data|
      invariant i <= |data| && size == |data| - i + |Escaped(data[..i])|
    {
      assert data[..i + 1][..i] == data[..i];
      if Special(data[i]) { size := size + 4; }
      i := i + 1;
    }
    assert data[..i] == data;
  }

  /** The loop body of write_escaped_string. */
  method WriteByte(buffer: array<byte>, o0: nat, b: byte) returns (o: nat)
    requires o0 + |EscapeByte(b)| <= buffer.Length
    modifies buffer
    ensures o == o0 + |EscapeByte(b)|
    ensures buffer[..o] == old(buffer[..o0]) + EscapeByte(b)
    ensures buffer[o..] == old(buffer[o..])
  {
    hide Octal;
    o := o0;
    if Special(b) {
      var octal := Octal(b);
      buffer[o], buffer[o + 1] := BACKSLASH, BACKSLASH;
      buffer[o + 2], buffer[o + 3], buffer[o + 4] := octal[0], octal[1], octal[2];
      o := o + 5;
    } else {
      buffer[o] := b;
      o := o + 1;
    }
  }

  /** write_escaped_string: the escaped form at the start of the buffer, which it fills up to the pre-computed length. */
  method WriteEscaped(buffer: array<byte>, data: seq<byte>)
    requires |Escaped(data)| <= buffer.Length
    modifies buffer
    ensures buffer[..|Escaped(data)|] == Escaped(data)
    ensures buffer[|Escaped(data)|..] == old(buffer[|Escaped(data)|..])
  {
    hide EscapeByte;
    var i: nat, o: nat := 0, 0;
    while i < |data|
      invariant i <= |data| && o == |Escaped(data[..i])| <= buffer.Length
      invariant buffer[..o] == Escaped(data[..i])
      invariant forall k :: o <= k < buffer.Length ==> buffer[k] == old(buffer[k])
    {
      EscapedStep(data, i);
      EscapedFits(data, i + 1);
      ghost var rest := buffer[o + |EscapeByte(data[i])|..];
      o := WriteByte(buffer, o, data[i]);
      assert forall k :: o <= k < buffer.Length ==> buffer[k] == buffer[o..][k - o] == rest[k - o];
      i := i + 1;
    }
    assert data[..i] == data;
  }

  lemma EscapedStep(data: seq<byte>, i: nat)
    requires i < |data|
    ensures Escaped(data[..i + 1]) == Escaped(data[..i]) + EscapeByte(data[i])
  {
    assert data[..i + 1][..i] == data[..i];
  }

  lemma {:induction false} EscapedFits(data: seq<byte>, i: nat)
    requires i <= |data|
    ensures |Escaped(data[..i])| <= |Escaped(data)|
    decreases |data| - i
  {
    if i == |data| {
      assert data[..i] == data;
    } else {
      EscapedStep(data, i);
      EscapedFits(data, i + 1);
    }
  }

  /** The buffer to_escaped_string keeps between calls, grown when it is too short. */
  class Escaper {
    var buffer: array<byte>

    constructor ()
      ensures buffer.Length == 0 && fresh(buffer)
    {
      buffer := new byte[0];
    }

    /** to_escaped_string: the escaped form and a final zero byte. */
    method ToEscaped(data: seq<byte>)
      modifies this, buffer
      ensures buffer == old(buffer) || fresh(buffer)
      ensures buffer.Length == Max(old(buffer.Length), |Escaped(data)| + 1)
      ensures buffer[..|Escaped(data)| + 1] == Escaped(data) + [0]
    {
      var n := CalcEscapedSize(data);
      if buffer.Length < n + 1 {
        buffer := new byte[n + 1];
      }
      WriteEscaped(buffer, data);
      buffer[n] := 0;
    }
  }

  // ----- what the escaped form promises -----

  /** The length: one byte for a plain byte, five for a special one. */
  lemma {:induction false} EscapedLength(data: seq<byte>)
    ensures |Escaped(data)| == |data| + 4 * |set i | 0 <= i < |data| && Special(data[i])|
  {
    if data != [] {
      var l := |data| - 1;
      EscapedLength(data[..l]);
      var s0, s1 := set i | 0 <= i < l && Special(data[..l][i]), set i | 0 <= i < |data| && Special(data[i]);
      assert s1 == s0 + if Special(data[l]) then {l} else {};
      assert l !in s0;
    }
  }

  ghost predicate Printable(s: seq<byte>) {
    forall i :: 0 <= i < |s| ==> 32 <= s[i] <= 126 && s[i] != QUOTE
  }

  /** Only printable bytes, and no single quote. */
  lemma {:induction false} EscapedPrintable(data: seq<byte>)
    ensures Printable(Escaped(data))
  {
    if data != [] {
      EscapedPrintable(data[..|data| - 1]);
      assert Printable(EscapeByte(data[|data| - 1]));
    }
  }

  /** Reading an escaped form from its start: a backslash announces the digits of one byte. */
  function Unescaped(s: seq<byte>): seq<byte> {
    if s == [] then []
    else if s[0] == BACKSLASH && |s| >= 5 then [Digits(s[2], s[3], s[4])] + Unescaped(s[5..])
    else [s[0]] + Unescaped(s[1..])
  }

  function Digits(a: byte, b: byte, c: byte): byte {
    ((64 * (a as int - 48) + 8 * (b as int - 48) + (c as int - 48)) % 256) as byte
  }

  lemma DigitsOctal(b: byte)
    ensures Digits(Octal(b)[0], Octal(b)[1], Octal(b)[2]) == b
  {
    var x := b as int;
    assert x == 64 * (x / 64) + 8 * (x / 8 % 8) + x % 8;
    assert (b / 64) as int == x / 64 && (b / 8 % 8) as int == x / 8 % 8 && (b % 8) as int == x % 8;
  }

  /** A printable byte other than the backslash (92) and the single quote (39) stays as it is; any other becomes two
      backslashes and its octal digits. */
  lemma EscapedByte(b: byte)
    ensures 32 <= b <= 126 && b != 92 && b != 39 ==> EscapeByte(b) == [b]
    ensures b < 32 || b > 126 || b == 92 || b == 39 ==>
              var s := EscapeByte(b);
              && |s| == 5 && s[0] == 92 && s[1] == 92
              && (forall i :: 2 <= i < 5 ==> 48 <= s[i] <= 55)
              && 64 * (s[2] as int - 48) + 8 * (s[3] as int - 48) + (s[4] as int - 48) == b as int
  {
    if Special(b) { DigitsOctal(b); }
  }

  lemma UnescapeByte(b: byte, rest: seq<byte>)
    ensures Unescaped(EscapeByte(b) + rest) == [b] + Unescaped(rest)
  {
    hide Digits, Octal;
    var s := EscapeByte(b) + rest;
    if Special(b) {
      assert s[0] == BACKSLASH && s[2] == Octal(b)[0] && s[3] == Octal(b)[1] && s[4] == Octal(b)[2];
      DigitsOctal(b);
      assert s[5..] == rest;
    } else {
      assert s[1..] == rest;
    }
  }

  /** The escaped form from the front. */
  lemma {:induction false} EscapedFront(data: seq<byte>)
    requires data != []
    ensures Escaped(data) == EscapeByte(data[0]) + Escaped(data[1..])
  {
    hide EscapeByte;
    var l := |data| - 1;
    if l == 0 {
      assert data[..0] == [] && data[1..] == [];
    } else {
      EscapedFront(data[..l]);
      assert data[..l][1..] == data[1..][..l - 1];
      assert data[1..][l - 1] == data[l];
    }
  }

  /** The escaped form decodes to the input; so no two inputs have the same escaped form. */
  lemma {:induction false} RoundTrip(data: seq<byte>)
    ensures Unescaped(Escaped(data)) == data
  {
    if data != [] {
      EscapedFront(data);
      UnescapeByte(data[0], Escaped(data[1..]));
      RoundTrip(data[1..]);
    }
  }
}
