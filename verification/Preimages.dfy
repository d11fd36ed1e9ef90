/** The bytes hashed for a list of model instructions, and why equal bytes mean equal lists. */
module Preimages {
  import opened Values
  import opened Utf8

  datatype Role = System | Developer

  /** UTF-8 text as held in memory, whose length a 64-bit word can state. */
  type Bytes = t: seq<byte> | |t| < 0x8000_0000_0000_0000

  datatype Instruction = Instruction(role: Role, text: Bytes)

  const TAG: seq<byte> := [112, 112, 101, 46, 108, 108, 109, 46, 105, 110, 115, 116, 114, 117, 99, 116, 105, 111,
                           110, 115, 46, 118, 49, 0]

  function Power(width: nat): (r: nat)
    ensures r >= 1
  {
    if width == 0 then 1 else 256 * Power(width - 1)
  }

  /** `n` in `width` big-endian bytes. */
  function BigEndian(n: nat, width: nat): (r: seq<byte>)
    ensures |r| == width
    decreases width
  {
    if width == 0 then [] else BigEndian(n / 256, width - 1) + [(n % 256) as byte]
  }

  function Value(bs: seq<byte>): (n: nat)
  {
    if bs == [] then 0 else 256 * Value(bs[..|bs| - 1]) + bs[|bs| - 1] as nat
  }

  lemma {:induction false} BigEndianValue(n: nat, width: nat)
    requires n < Power(width)
    ensures Value(BigEndian(n, width)) == n
    decreases width
  {
    if width > 0 {
      var bs := BigEndian(n, width);
      assert bs[..|bs| - 1] == BigEndian(n / 256, width - 1);
      BigEndianValue(n / 256, width - 1);
    }
  }

  lemma EightBytes(n: nat)
    requires n < 0x8000_0000_0000_0000
    ensures n < Power(8)
  {
    assert Power(2) == 0x1_0000;
    assert Power(4) == 256 * (256 * Power(2));
    assert Power(6) == 256 * (256 * Power(4));
    assert Power(8) == 256 * (256 * Power(6));
  }

  function RoleByte(role: Role): (b: byte)
  {
    if role.System? then 0 else 1
  }

  /** A role byte, the length in eight bytes, the text. */
  function Frame(i: Instruction): (r: seq<byte>)
  {
    [RoleByte(i.role)] + BigEndian(|i.text|, 8) + i.text
  }

  function Frames(xs: seq<Instruction>): (r: seq<byte>)
  {
    if xs == [] then [] else Frame(xs[0]) + Frames(xs[1..])
  }

  /** The count is capped at the largest 32-bit word. */
  function Count(n: nat): (r: seq<byte>)
  {
    BigEndian(if n < 0x1_0000_0000 then n else 0xFFFF_FFFF, 4)
  }

  function Preimage(xs: seq<Instruction>): (r: seq<byte>)
  {
    TAG + Count(|xs|) + Frames(xs)
  }

  // ---- Feeding the hasher

  class Hasher {
    var fed: seq<byte>

    constructor ()
      ensures fed == []
    {
      fed := [];
    }

    method Update(bs: seq<byte>)
      modifies this
      ensures fed == old(fed) + bs
    {
      fed := fed + bs;
    }
  }

  lemma {:induction false} FramesSnoc(xs: seq<Instruction>, x: Instruction)
    ensures Frames(xs + [x]) == Frames(xs) + Frame(x)
  {
    if xs == [] {
      assert xs + [x] == [x];
    } else {
      assert (xs + [x])[1..] == xs[1..] + [x];
      FramesSnoc(xs[1..], x);
    }
  }

  lemma Regroup(a: seq<byte>, b: seq<byte>, c: seq<byte>, d: seq<byte>)
    ensures a + b + c + d == a + (b + c + d)
    ensures [] + b == b
  {
  }

  lemma Grouped(a: seq<byte>, b: seq<byte>, c: seq<byte>)
    ensures a + b + c == a + (b + c)
  {
  }

  lemma FramesUpTo(xs: seq<Instruction>, i: nat, head: seq<byte>)
    requires i < |xs|
    ensures head + Frames(xs[..i]) + Frame(xs[i]) == head + Frames(xs[..i + 1])
  {
    assert xs[..i + 1] == xs[..i] + [xs[i]];
    FramesSnoc(xs[..i], xs[i]);
    Grouped(head, Frames(xs[..i]), Frame(xs[i]));
  }

  method FeedFrames(xs: seq<Instruction>, h: Hasher)
    modifies h
    ensures h.fed == old(h.fed) + Frames(xs)
  {
    ghost var head := h.fed;
    for i := 0 to |xs|
      invariant h.fed == head + Frames(xs[..i])
    {
      FramesUpTo(xs, i, head);
      FeedFrame(xs[i], h);
    }
    assert xs[..|xs|] == xs;
  }

  /** What `instruction_digest` hands to the hash, update by update. */
  method Feed(xs: seq<Instruction>, h: Hasher)
    requires h.fed == []
    modifies h
    ensures h.fed == Preimage(xs)
  {
    h.Update(TAG);
    Regroup([], TAG, [], []);
    var count := Count(|xs|);
    h.Update(count);
    FeedFrames(xs, h);
  }

  /** One turn of the loop. */
  method FeedFrame(x: Instruction, h: Hasher)
    modifies h
    ensures h.fed == old(h.fed) + Frame(x)
  {
    ghost var before, length: seq<byte> := h.fed, BigEndian(|x.text|, 8);
    h.Update([RoleByte(x.role)]);
    h.Update(BigEndian(|x.text|, 8));
    h.Update(x.text);
    Regroup(before, [RoleByte(x.role)], length, x.text);
  }

  // ---- Reading it back

  /** The frames of a byte string, read to its end. */
  function Parse(bs: seq<byte>): (r: Option<seq<Instruction>>)
    decreases |bs|
  {
    if bs == [] then Some([])
    else if |bs| < 9 || bs[0] > 1 then None
    else
      var n := Value(bs[1..9]);
      if 9 + n > |bs| || n >= 0x8000_0000_0000_0000 then None
      else
        match Parse(bs[9 + n..])
        case None => None
        case Some(rest) => Some([Instruction(if bs[0] == 0 then System else Developer, bs[9..9 + n])] + rest)
  }

  function Decode(bs: seq<byte>): (r: Option<seq<Instruction>>)
  {
    if TAG <= bs && |bs| >= |TAG| + 4 then Parse(bs[|TAG| + 4..]) else None
  }

  lemma FrameLayout(x: Instruction, rest: seq<byte>, bs: seq<byte>)
    requires bs == Frame(x) + rest
    ensures |bs| >= 9 + |x.text| && bs[0] == RoleByte(x.role) && bs[1..9] == BigEndian(|x.text|, 8)
    ensures bs[9..9 + |x.text|] == x.text && bs[9 + |x.text|..] == rest
  {
  }

  lemma ParseStep(x: Instruction, rest: seq<byte>, bs: seq<byte>, length: seq<byte>)
    requires bs == Frame(x) + rest && Parse(rest).Some? && length == BigEndian(|x.text|, 8)
    ensures Parse(bs) == Some([x] + Parse(rest).value)
  {
    var n := |x.text|;
    FrameLayout(x, rest, bs);
    assert Value(bs[1..9]) == n by {
      EightBytes(n);
      BigEndianValue(n, 8);
    }
  }

  lemma {:induction false} ParseFrames(xs: seq<Instruction>)
    ensures Parse(Frames(xs)) == Some(xs)
    decreases |xs|
  {
    if xs != [] {
      ParseFrames(xs[1..]);
      ParseStep(xs[0], Frames(xs[1..]), Frames(xs), BigEndian(|xs[0].text|, 8));
      assert [xs[0]] + xs[1..] == xs;
    }
  }

  /** The framing has a left inverse. */
  lemma {:induction false} PreimageDecodes(xs: seq<Instruction>)
    ensures Decode(Preimage(xs)) == Some(xs)
  {
    var bs := Preimage(xs);
    assert bs[|TAG| + 4..] == Frames(xs);
    ParseFrames(xs);
  }

  /** The header tells how many instructions follow, as far as four bytes can. */
  lemma {:induction false} CountShown(xs: seq<Instruction>)
    ensures TAG <= Preimage(xs)
    ensures Value(Preimage(xs)[|TAG|..|TAG| + 4]) == if |xs| < 0x1_0000_0000 then |xs| else 0xFFFF_FFFF
  {
    assert Preimage(xs)[|TAG|..|TAG| + 4] == Count(|xs|);
    assert Power(2) == 0x1_0000;
    assert Power(4) == 256 * (256 * Power(2));
    BigEndianValue(if |xs| < 0x1_0000_0000 then |xs| else 0xFFFF_FFFF, 4);
  }

  /** Equal preimages come from lists equal in roles, order, boundaries and bytes. */
  lemma {:induction false} PreimageInjective(xs: seq<Instruction>, ys: seq<Instruction>)
    requires Preimage(xs) == Preimage(ys)
    ensures xs == ys
  {
    PreimageDecodes(xs);
    PreimageDecodes(ys);
  }
}
