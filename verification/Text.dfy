/** String helpers the policy front end takes from the Rust standard library. */
module Text {
  import opened Values

  /** `char::is_whitespace`: the Unicode `White_Space` property. */
  predicate IsWhitespace(c: char)
  {
    || '\U{0009}' <= c <= '\U{000D}'
    || c in {' ', '\U{0085}', '\U{00A0}', '\U{1680}', '\U{2028}', '\U{2029}', '\U{202F}', '\U{205F}', '\U{3000}'}
    || '\U{2000}' <= c <= '\U{200A}'
  }

  function TrimStart(s: string): (r: string)
    ensures |r| <= |s|
  {
    if s != [] && IsWhitespace(s[0]) then TrimStart(s[1..]) else s
  }

  function TrimEnd(s: string): (r: string)
  {
    if s != [] && IsWhitespace(s[|s| - 1]) then TrimEnd(s[..|s| - 1]) else s
  }

  /** `str::trim`. */
  function Trim(s: string): (r: string)
  {
    TrimEnd(TrimStart(s))
  }

  /** A string with no white space at either end. */
  predicate Trimmed(s: string)
  {
    s != [] ==> !IsWhitespace(s[0]) && !IsWhitespace(s[|s| - 1])
  }

  lemma {:induction false} TrimEndShape(s: string)
    ensures TrimEnd(s) <= s
    ensures TrimEnd(s) != [] ==> !IsWhitespace(TrimEnd(s)[|TrimEnd(s)| - 1])
    ensures AllWhitespace(s[|TrimEnd(s)|..])
  {
    if s != [] && IsWhitespace(s[|s| - 1]) {
      TrimEndShape(s[..|s| - 1]);
    }
  }

  lemma {:induction false} TrimStartShape(s: string)
    ensures |TrimStart(s)| <= |s| && TrimStart(s) == s[|s| - |TrimStart(s)|..]
    ensures TrimStart(s) != [] ==> !IsWhitespace(TrimStart(s)[0])
    ensures AllWhitespace(s[..|s| - |TrimStart(s)|])
  {
    if s != [] && IsWhitespace(s[0]) {
      TrimStartShape(s[1..]);
      var n := |s| - |TrimStart(s)|;
      assert s[..n] == [s[0]] + s[1..][..n - 1];
    }
  }

  predicate AllWhitespace(s: string)
  {
    forall i :: 0 <= i < |s| ==> IsWhitespace(s[i])
  }

  lemma EndPart(s: string) returns (after: string)
    ensures AllWhitespace(after) && s == TrimEnd(s) + after
  {
    TrimEndShape(s);
    after := s[|TrimEnd(s)|..];
  }

  lemma Grouped(a: string, b: string, c: string)
    ensures a + (b + c) == a + b + c
  {
  }

  /** A text is its trimmed form with white space around it. */
  lemma TrimParts(s: string) returns (before: string, after: string)
    ensures AllWhitespace(before) && AllWhitespace(after) && s == before + Trim(s) + after
  {
    TrimStartShape(s);
    var rest := TrimStart(s);
    before := s[..|s| - |rest|];
    after := EndPart(rest);
    Grouped(before, TrimEnd(rest), after);
  }

  /** The trimmed text stands where the white space before it ends. */
  lemma TrimAt(s: string)
    ensures var lead := |s| - |TrimStart(s)|;
      && 0 <= lead && lead + |Trim(s)| <= |s| && AllWhitespace(s[..lead])
      && forall k :: 0 <= k < |Trim(s)| ==> Trim(s)[k] == s[lead + k]
  {
    TrimStartShape(s);
    var after := EndPart(TrimStart(s));
  }

  /** Nothing is left of a text exactly when it is all white space. */
  lemma BlankExactly(s: string)
    ensures Trim(s) == [] <==> AllWhitespace(s)
  {
    var before, after := TrimParts(s);
    if Trim(s) == [] {
      assert s == before + after;
    } else {
      TrimIsTrimmed(s);
      assert s[|before|] == Trim(s)[0];
    }
  }

  lemma {:induction false} TrimSkipsLead(before: string, s: string)
    requires AllWhitespace(before)
    ensures Trim(before + s) == Trim(s)
    decreases |before|
  {
    if before == [] {
      assert before + s == s;
    } else {
      assert (before + s)[1..] == before[1..] + s;
      TrimSkipsLead(before[1..], s);
    }
  }

  lemma {:induction false} TrimStartSkips(before: string, s: string)
    requires AllWhitespace(before) && (s != [] ==> !IsWhitespace(s[0]))
    ensures TrimStart(before + s) == s
    decreases |before|
  {
    if before == [] {
      assert before + s == s;
    } else {
      assert (before + s)[1..] == before[1..] + s;
      TrimStartSkips(before[1..], s);
    }
  }

  lemma {:induction false} TrimEndSkips(s: string, after: string)
    requires AllWhitespace(after) && (s != [] ==> !IsWhitespace(s[|s| - 1]))
    ensures TrimEnd(s + after) == s
    decreases |after|
  {
    if after == [] {
      assert s + after == s;
    } else {
      assert (s + after)[..|s + after| - 1] == s + after[..|after| - 1];
      TrimEndSkips(s, after[..|after| - 1]);
    }
  }

  /** Trimming removes exactly the white space around a trimmed text. */
  lemma TrimSurrounded(before: string, s: string, after: string)
    requires AllWhitespace(before) && AllWhitespace(after) && Trimmed(s) && s != []
    ensures TrimStart(before + s + after) == s + after && Trim(before + s + after) == s
  {
    assert before + s + after == before + (s + after);
    TrimStartSkips(before, s + after);
    TrimEndSkips(s, after);
  }

  /** Trimming leaves no white space at the ends, and a trimmed string alone. */
  lemma TrimIsTrimmed(s: string)
    ensures Trimmed(Trim(s))
    ensures Trimmed(s) ==> Trim(s) == s
  {
    TrimStartShape(s);
    TrimEndShape(TrimStart(s));
  }

  /** `u8::is_ascii_whitespace`, which the predicate lexer skips. */
  predicate IsAsciiSpace(c: char)
  {
    c in {' ', '\t', '\n', '\r', '\U{000C}'}
  }

  predicate IsDigit(c: char)
  {
    '0' <= c <= '9'
  }

  predicate IsAsciiAlpha(c: char)
  {
    'a' <= c <= 'z' || 'A' <= c <= 'Z'
  }

  predicate AllDigits(s: string)
  {
    forall i :: 0 <= i < |s| ==> IsDigit(s[i])
  }

  /** The value of a run of decimal digits. */
  function DigitsValue(s: string): (n: nat)
    requires AllDigits(s)
  {
    if s == [] then 0 else 10 * DigitsValue(s[..|s| - 1]) + (s[|s| - 1] as int - '0' as int)
  }

  /** `str::parse::<i64>`: an optional sign, then digits, within range. */
  function ParseI64(s: string): (r: Option<i64>)
  {
    var negative := s != [] && s[0] == '-';
    var digits := if s != [] && s[0] in {'-', '+'} then s[1..] else s;
    if digits == [] || !AllDigits(digits) then None
    else
      var n: int := if negative then 0 - DigitsValue(digits) else DigitsValue(digits);
      if -0x8000_0000_0000_0000 <= n < 0x8000_0000_0000_0000 then Some(n) else None
  }

  function NatText(n: nat): (s: string)
    ensures s != [] && AllDigits(s)
  {
    if n < 10 then [('0' as int + n) as char] else NatText(n / 10) + [('0' as int + n % 10) as char]
  }

  /** `i64::to_string`. */
  function IntText(n: int): (s: string)
  {
    if n < 0 then "-" + NatText(-n) else NatText(n)
  }

  lemma {:induction false} NatTextValue(n: nat)
    ensures DigitsValue(NatText(n)) == n
  {
    if n >= 10 {
      NatTextValue(n / 10);
      var s := NatText(n);
      assert s[..|s| - 1] == NatText(n / 10);
    } else {
      assert NatText(n)[..0] == [];
    }
  }

  predicate AllZeros(s: string)
  {
    forall i :: 0 <= i < |s| ==> s[i] == '0'
  }

  /** An optional sign, zeros, and the magnitude in decimal. */
  predicate SpellsWith(s: string, n: int, sign: string, zeros: string)
  {
    && sign in {"", "+", "-"} && AllZeros(zeros) && (sign == "-" ==> n <= 0) && (n < 0 ==> sign == "-")
    && s == sign + (zeros + NatText(if n < 0 then 0 - n else n))
  }

  /** An integer is read from exactly its spellings. */
  lemma {:induction false} IntegersExactly(s: string, n: i64)
    ensures ParseI64(s) == Some(n) <==> exists sign, zeros :: SpellsWith(s, n, sign, zeros)
  {
    if ParseI64(s) == Some(n) {
      var sign, zeros := ReadIsSpelled(s, n);
    }
    if exists sign, zeros :: SpellsWith(s, n, sign, zeros) {
      var sign, zeros :| SpellsWith(s, n, sign, zeros);
      SpelledReads(s, n, sign, zeros);
    }
  }

  lemma ReadIsSpelled(s: string, n: i64) returns (sign: string, zeros: string)
    requires ParseI64(s) == Some(n)
    ensures SpellsWith(s, n, sign, zeros)
  {
    sign := if s[0] == '-' then "-" else if s[0] == '+' then "+" else "";
    var digits := if sign == "" then s else s[1..];
    assert s == sign + digits && DigitsValue(digits) == if n < 0 then 0 - n else n;
    zeros := DigitsSpell(digits);
  }

  lemma SpelledReads(s: string, n: i64, sign: string, zeros: string)
    requires SpellsWith(s, n, sign, zeros)
    ensures ParseI64(s) == Some(n)
  {
    var m: nat := if n < 0 then 0 - n else n;
    PaddedValue(zeros, m);
    SignedReads(s, sign, zeros + NatText(m), m, n);
  }

  lemma SignedReads(s: string, sign: string, digits: string, m: nat, n: i64)
    requires sign in {"", "+", "-"} && digits != [] && AllDigits(digits) && s == sign + digits
    requires m == DigitsValue(digits) && n == if sign == "-" then 0 - m else m
    ensures ParseI64(s) == Some(n)
  {
    assert IsDigit(digits[0]);
    if sign == "" {
      assert s == digits;
    } else {
      assert s[0] == sign[0] && s[1..] == digits;
    }
  }

  lemma {:induction false} PaddedValue(zeros: string, m: nat)
    requires AllZeros(zeros)
    ensures AllDigits(zeros + NatText(m)) && DigitsValue(zeros + NatText(m)) == m
    decreases m + |zeros|
  {
    var s := zeros + NatText(m);
    if m >= 10 {
      assert s[..|s| - 1] == zeros + NatText(m / 10);
      PaddedValue(zeros, m / 10);
    } else {
      assert s[..|s| - 1] == zeros;
      ZerosValue(zeros);
    }
  }

  lemma {:induction false} ZerosValue(zeros: string)
    requires AllZeros(zeros)
    ensures AllDigits(zeros) && DigitsValue(zeros) == 0
  {
    if zeros != [] {
      ZerosValue(zeros[..|zeros| - 1]);
    }
  }

  lemma {:induction false} DigitsSpell(digits: string) returns (zeros: string)
    requires digits != [] && AllDigits(digits)
    ensures AllZeros(zeros) && digits == zeros + NatText(DigitsValue(digits))
  {
    var init, c := digits[..|digits| - 1], digits[|digits| - 1];
    assert digits == init + [c];
    if init == [] {
      return "";
    }
    zeros := DigitsSpell(init);
    var v := DigitsValue(init);
    if v == 0 {
      zeros := zeros + "0";
    } else {
      assert NatText(10 * v + (c as int - '0' as int)) == NatText(v) + [c];
    }
  }

  /** Printing an integer and parsing it back is the identity. */
  lemma IntTextRoundTrip(n: i64)
    ensures ParseI64(IntText(n)) == Some(n)
  {
    assert IntText(n) == (if n < 0 then "-" else "") + ("" + NatText(if n < 0 then 0 - n else n));
    assert SpellsWith(IntText(n), n, if n < 0 then "-" else "", "");
    IntegersExactly(IntText(n), n);
  }

  function AsciiLower(s: string): (r: string)
  {
    seq(|s|, i requires 0 <= i < |s| =>
      if 'A' <= s[i] <= 'Z' then (s[i] as int + 32) as char else s[i])
  }

  predicate StartsWith(s: string, prefix: string)
  {
    |prefix| <= |s| && s[..|prefix|] == prefix
  }

  /** The first index at or after `i` holding `c`. */
  function IndexOf(s: string, c: char, i: nat): (r: Option<nat>)
    requires i <= |s|
    ensures r.Some? ==> i <= r.value < |s| && s[r.value] == c
    decreases |s| - i
  {
    if i == |s| then None else if s[i] == c then Some(i) else IndexOf(s, c, i + 1)
  }
}
