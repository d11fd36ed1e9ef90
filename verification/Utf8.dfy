/** UTF-8 (section 3 of RFC 3629), as far as scanning a `str` by bytes needs it. */
module Utf8 {
  import opened Values

  type byte = b: int | 0 <= b < 0x100

  /** The one- to four-byte form of a character. */
  function EncodeChar(c: char): (bs: seq<byte>)
    ensures 1 <= |bs| <= 4
  {
    var n := c as int;
    if n < 0x80 then [n]
    else if n < 0x800 then [0xC0 + n / 0x40, 0x80 + n % 0x40]
    else if n < 0x10000 then [0xE0 + n / 0x1000, 0x80 + n / 0x40 % 0x40, 0x80 + n % 0x40]
    else [0xF0 + n / 0x40000, 0x80 + n / 0x1000 % 0x40, 0x80 + n / 0x40 % 0x40, 0x80 + n % 0x40]
  }

  function Encode(s: string): (bs: seq<byte>)
  {
    if s == [] then [] else EncodeChar(s[0]) + Encode(s[1..])
  }

  /** The byte index of the `k`th character. */
  function Offset(s: string, k: nat): (n: nat)
    requires k <= |s|
  {
    |Encode(s[..k])|
  }

  predicate IsContinuation(b: byte)
  {
    0x80 <= b < 0xC0
  }

  /** `str::is_char_boundary`, which decides whether `str::get` answers. */
  predicate IsBoundary(bs: seq<byte>, i: nat)
  {
    i == |bs| || (i < |bs| && !IsContinuation(bs[i]))
  }

  /** How many bytes a leading byte announces. */
  function Width(b: byte): (n: nat)
  {
    if b < 0x80 then 1 else if b < 0xE0 then 2 else if b < 0xF0 then 3 else 4
  }

  function Two(a: int, b: int): (n: int)
  {
    (a - 0xC0) * 0x40 + (b - 0x80)
  }

  function Three(a: int, b: int, c: int): (n: int)
  {
    (a - 0xE0) * 0x1000 + (b - 0x80) * 0x40 + (c - 0x80)
  }

  function Four(a: int, b: int, c: int, d: int): (n: int)
  {
    (a - 0xF0) * 0x40000 + (b - 0x80) * 0x1000 + (c - 0x80) * 0x40 + (d - 0x80)
  }

  predicate IsScalar(n: int)
  {
    0 <= n < 0xD800 || 0xE000 <= n < 0x11_0000
  }

  /** `chars().next()` at `i`: decode one character, or nothing where no character is spelled. */
  function DecodeAt(bs: seq<byte>, i: nat): (r: Option<char>)
  {
    if i >= |bs| || i + Width(bs[i]) > |bs| then None
    else
      var w := Width(bs[i]);
      var n: int :=
        if w == 1 then bs[i]
        else if w == 2 then Two(bs[i], bs[i + 1])
        else if w == 3 then Three(bs[i], bs[i + 1], bs[i + 2])
        else Four(bs[i], bs[i + 1], bs[i + 2], bs[i + 3]);
      if IsScalar(n) then Some(n as char) else None
  }

  lemma {:induction false} EncodeAppend(s: string, t: string)
    ensures Encode(s + t) == Encode(s) + Encode(t)
  {
    if s == [] {
      assert s + t == t;
    } else {
      assert (s + t)[1..] == s[1..] + t;
      EncodeAppend(s[1..], t);
    }
  }

  /** The bytes of the `k`th character sit at its offset, and the next character's offset follows. */
  lemma CharAtOffset(s: string, k: nat)
    requires k < |s|
    ensures Offset(s, k + 1) == Offset(s, k) + |EncodeChar(s[k])| <= |Encode(s)|
    ensures Encode(s)[Offset(s, k)..Offset(s, k + 1)] == EncodeChar(s[k])
  {
    assert s[..k + 1] == s[..k] + [s[k]];
    EncodeAppend(s[..k], [s[k]]);
    assert Encode([s[k]]) == EncodeChar(s[k]) + Encode([]);
    assert s == s[..k + 1] + s[k + 1..];
    EncodeAppend(s[..k + 1], s[k + 1..]);
  }

  lemma OffsetEnd(s: string)
    ensures Offset(s, |s|) == |Encode(s)|
  {
    assert s[..|s|] == s;
  }

  /** Decoding at a character's offset reads back that character and its width. */
  lemma {:induction false} DecodeAtOffset(s: string, k: nat)
    requires k < |s|
    ensures Offset(s, k) < |Encode(s)|
    ensures DecodeAt(Encode(s), Offset(s, k)) == Some(s[k])
    ensures |EncodeChar(s[k])| == Offset(s, k + 1) - Offset(s, k)
    ensures IsBoundary(Encode(s), Offset(s, k))
    ensures s[k] as int < 0x80 ==> Encode(s)[Offset(s, k)] == s[k] as int && Offset(s, k + 1) == Offset(s, k) + 1
    ensures s[k] as int >= 0x80 ==> Encode(s)[Offset(s, k)] >= 0x80
  {
    CharAtOffset(s, k);
    var bs, i := Encode(s), Offset(s, k);
    var code := EncodeChar(s[k]);
    assert code[0] == bs[i];
    CodePoint(s[k]);
    assert Width(bs[i]) == |code|;
    assert |code| >= 2 ==> code[1] == bs[i + 1];
    assert |code| >= 3 ==> code[2] == bs[i + 2];
    assert |code| >= 4 ==> code[3] == bs[i + 3];
  }

  lemma Digits64(n: nat)
    ensures n == n / 0x40 * 0x40 + n % 0x40
    ensures n / 0x40 == n / 0x1000 * 0x40 + n / 0x40 % 0x40
    ensures n / 0x1000 == n / 0x40000 * 0x40 + n / 0x1000 % 0x40
  {
    assert n / 0x1000 == n / 0x40 / 0x40;
    assert n / 0x40000 == n / 0x1000 / 0x40;
  }

  lemma CodePoint(c: char)
    ensures var bs := EncodeChar(c);
      && |bs| == Width(bs[0]) && !IsContinuation(bs[0])
      && DecodeAt(bs, 0) == Some(c)
      && (forall j :: 1 <= j < |bs| ==> IsContinuation(bs[j]))
  {
    Digits64(c as int);
  }

  /** A byte below 0x80 occurs only as a whole character, so every such byte sits at an offset. */
  lemma {:induction false} AsciiByteIsChar(s: string, i: nat) returns (k: nat)
    requires i < |Encode(s)| && !IsContinuation(Encode(s)[i])
    ensures k < |s| && i == Offset(s, k)
  {
    var code := EncodeChar(s[0]);
    CodePoint(s[0]);
    if i < |code| {
      assert Encode(s)[i] == code[i];
      k := 0;
      assert s[..0] == [];
    } else {
      assert Encode(s)[i] == Encode(s[1..])[i - |code|];
      var j := AsciiByteIsChar(s[1..], i - |code|);
      k := j + 1;
      assert s[..k] == [s[0]] + s[1..][..j];
      EncodeAppend([s[0]], s[1..][..j]);
      assert Encode([s[0]]) == code + Encode([]);
    }
  }
}
