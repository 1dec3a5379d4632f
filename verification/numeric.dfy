/**
 * The number conversions behind the integer accessors: C's `atol`, which
 * reads the leading decimal prefix of a text, and the reader's own `itoa`,
 * which writes a C `int` in a base from 2 to 36 into a caller's buffer.
 */
module Numeric {

  /** The range of a 32-bit C `int`. */
  const IntMin: int := -0x8000_0000
  const IntMax: int := 0x7fff_ffff

  predicate IsInt(x: int)
  {
    IntMin <= x <= IntMax
  }

  function Abs(x: int): nat
  {
    if x < 0 then -x else x
  }

  // ---------------------------------------------------------------------------
  // atol
  // ---------------------------------------------------------------------------

  /** isspace in the C locale: space, and tab through carriage return. */
  predicate IsSpace(c: char)
  {
    c == ' ' || '\t' <= c <= '\r'
  }

  predicate IsDigit(c: char)
  {
    '0' <= c <= '9'
  }

  function DigitValue(c: char): (d: nat)
    requires IsDigit(c)
    ensures d < 10
  {
    c as int - '0' as int
  }

  /** The first position from i on that is not white space. */
  function SpaceEnd(s: string, i: nat): (j: nat)
    requires i <= |s|
    ensures i <= j <= |s|
    ensures forall k | i <= k < j :: IsSpace(s[k])
    ensures j == |s| || !IsSpace(s[j])
    decreases |s| - i
  {
    if i < |s| && IsSpace(s[i]) then SpaceEnd(s, i + 1) else i
  }

  /** The first position from i on that is not a decimal digit. */
  function DigitEnd(s: string, i: nat): (j: nat)
    requires i <= |s|
    ensures i <= j <= |s|
    ensures forall k | i <= k < j :: IsDigit(s[k])
    ensures j == |s| || !IsDigit(s[j])
    decreases |s| - i
  {
    if i < |s| && IsDigit(s[i]) then DigitEnd(s, i + 1) else i
  }

  /** The value of a run of decimal digits, most significant first. */
  function DecimalValue(ds: string): nat
    requires forall k | 0 <= k < |ds| :: IsDigit(ds[k])
  {
    if ds == [] then 0 else DecimalValue(ds[..|ds| - 1]) * 10 + DigitValue(ds[|ds| - 1])
  }

  /**
   * atol: leading white space, an optional sign, then the longest run of
   * decimal digits; no digits read as 0.
   */
  function Atol(s: string): (n: int)
    ensures n < 0 ==> SpaceEnd(s, 0) < |s| && s[SpaceEnd(s, 0)] == '-'
  {
    var i := SpaceEnd(s, 0);
    var signed := i < |s| && (s[i] == '-' || s[i] == '+');
    var j := if signed then i + 1 else i;
    var m: int := DecimalValue(s[j..DigitEnd(s, j)]);
    if signed && s[i] == '-' then -m else m
  }

  /** White space in front of a non-space is skipped entirely. */
  lemma SpaceEndAt(s: string, n: nat)
    requires n <= |s| && (n == |s| || !IsSpace(s[n]))
    requires forall k | 0 <= k < n :: IsSpace(s[k])
    ensures SpaceEnd(s, 0) == n
  {
  }

  /** A digit run in front of a non-digit ends where the run does. */
  lemma DigitEndAfter(u: string, ds: string, rest: string)
    requires forall k | 0 <= k < |ds| :: IsDigit(ds[k])
    requires rest == [] || !IsDigit(rest[0])
    ensures DigitEnd(u + ds + rest, |u|) == |u| + |ds|
    ensures (u + ds + rest)[|u|..|u| + |ds|] == ds
  {
    var s := u + ds + rest;
    assert forall k | |u| <= k < |u| + |ds| :: s[k] == ds[k - |u|];
    if rest != [] {
      assert s[|u| + |ds|] == rest[0];
    }
  }

  /** Atol with the end of the white space and of the digit run located. */
  lemma AtolFrom(s: string, i: nat, j: nat, e: nat)
    requires i < |s| && SpaceEnd(s, 0) == i
    requires j == if s[i] == '-' || s[i] == '+' then i + 1 else i
    requires j <= e <= |s| && DigitEnd(s, j) == e
    ensures var m: int := DecimalValue(s[j..e]); Atol(s) == if s[i] == '-' then -m else m
  {
  }

  /** The sign character, if any, is what atol finds after the white space. */
  lemma SignLayout(ws: string, sign: string, ds: string, rest: string)
    requires forall k | 0 <= k < |ws| :: IsSpace(ws[k])
    requires |sign| <= 1 && forall k | 0 <= k < |sign| :: sign[k] == '-' || sign[k] == '+'
    requires 0 < |ds| && IsDigit(ds[0])
    ensures var s, i := ws + sign + ds + rest, |ws|;
      i < |s| && SpaceEnd(s, 0) == i &&
      (s[i] == '-' || s[i] == '+' <==> sign != []) && (s[i] == '-' <==> sign == ['-'])
  {
    var s, i := ws + sign + ds + rest, |ws|;
    assert s[i] == if sign == [] then ds[0] else sign[0];
    assert forall k | 0 <= k < i :: s[k] == ws[k];
    SpaceEndAt(s, i);
  }

  /**
   * atol reads white space, an optional sign and a digit run, up to the first
   * non-digit: what follows does not matter.
   */
  lemma AtolStopsAtNonDigit(ws: string, sign: string, ds: string, rest: string)
    requires forall k | 0 <= k < |ws| :: IsSpace(ws[k])
    requires |sign| <= 1 && forall k | 0 <= k < |sign| :: sign[k] == '-' || sign[k] == '+'
    requires forall k | 0 <= k < |ds| :: IsDigit(ds[k])
    requires 0 < |ds| && (rest == [] || !IsDigit(rest[0]))
    ensures var m: int := DecimalValue(ds);
      Atol(ws + sign + ds + rest) == if sign == ['-'] then -m else m
  {
    var s := ws + sign + ds + rest;
    var i, j := |ws|, |ws| + |sign|;
    SignLayout(ws, sign, ds, rest);
    DigitEndAfter(ws + sign, ds, rest);
    AtolFrom(s, i, j, j + |ds|);
  }

  /** A text that does not go on (after white space and a sign) with a digit reads as 0. */
  lemma AtolWithoutDigits(s: string)
    requires var i := SpaceEnd(s, 0);
      var j := if i < |s| && (s[i] == '-' || s[i] == '+') then i + 1 else i;
      j == |s| || !IsDigit(s[j])
    ensures Atol(s) == 0
  {
    var i := SpaceEnd(s, 0);
    var j := if i < |s| && (s[i] == '-' || s[i] == '+') then i + 1 else i;
    assert DigitEnd(s, j) == j;
    assert s[j..j] == [];
  }

  // ---------------------------------------------------------------------------
  // itoa
  // ---------------------------------------------------------------------------

  /** The glyph of digit d: '0'..'9', then 'a'..'z'. */
  function Glyph(d: nat): (c: char)
    requires d < 36
    ensures IsDigit(c) <==> d < 10
    ensures d < 10 ==> DigitValue(c) == d
    ensures c == '0' <==> d == 0
    ensures c != '-'
  {
    if d < 10 then ('0' as int + d) as char else ('a' as int + (d - 10)) as char
  }

  /** The digit glyphs of every base up to 36, lower case. */
  const Alphabet: string := seq(36, d requires 0 <= d < 36 => Glyph(d))

  function Reverse<T>(s: seq<T>): (r: seq<T>)
    ensures |r| == |s|
  {
    seq(|s|, i requires 0 <= i < |s| => s[|s| - 1 - i])
  }

  /**
   * The lookup string of itoa: the alphabet backwards without its '0', then
   * the alphabet, so that position 35 + r holds the glyph of |r| for a C
   * remainder r of either sign.
   */
  const DigitTable: string := Reverse(Alphabet[1..]) + Alphabet

  /** C's `/` on int: the quotient truncated toward zero. */
  function CDiv(a: int, b: int): (q: int)
    requires b > 0
    ensures Abs(q) == Abs(a) / b
    ensures q == 0 || (q < 0 <==> a < 0)
    ensures Abs(a - q * b) == Abs(a) % b
    ensures a - q * b == 0 || (a - q * b < 0 <==> a < 0)
  {
    if a >= 0 then a / b else -((-a) / b)
  }

  /** The digits of n in base b, most significant first; 0 is "0". */
  function Digits(n: nat, b: nat): (r: string)
    requires 2 <= b <= 36
    ensures 0 < |r|
    ensures r[0] != '0' || n == 0
    ensures forall k | 0 <= k < |r| :: r[k] != '-'
    ensures b <= 10 ==> forall k | 0 <= k < |r| :: IsDigit(r[k])
    decreases n
  {
    if n < b then [Glyph(n)]
    else
      DivBounds(n, b);
      Digits(n / b, b) + [Glyph(n % b)]
  }

  /** Dividing a number of at least two digits leaves a smaller, non-zero quotient. */
  lemma DivBounds(n: nat, b: nat)
    requires 2 <= b <= n
    ensures 0 < n / b < n && n % b < b
  {
  }

  lemma ModSmall(m: nat, b: nat)
    requires m < b
    ensures m % b == m
  {
  }

  /** One step of the digit recursion: the lowest digit comes last. */
  lemma DigitsStep(m: nat, b: nat)
    requires 2 <= b <= 36
    ensures Digits(m, b) == (if m < b then [] else Digits(m / b, b)) + [Glyph(m % b)]
  {
    if m < b {
      ModSmall(m, b);
      assert Digits(m, b) == [Glyph(m)];
    } else {
      DivBounds(m, b);
      assert Digits(m, b) == Digits(m / b, b) + [Glyph(m % b)];
    }
  }

  /**
   * The text itoa leaves in the buffer, before its NUL: nothing for a base
   * outside 2..36; otherwise a '-' for a negative value, then the digits of
   * its magnitude.
   */
  function ItoaText(value: int, base: int): (r: string)
    ensures r == [] <==> base < 2 || base > 36
    ensures r != [] ==> (r[0] == '-' <==> value < 0)
  {
    if base < 2 || base > 36 then ""
    else (if value < 0 then "-" else "") + Digits(Abs(value), base)
  }

  /** Position 35 + r of the lookup string is the glyph of |r|. */
  lemma DigitTableMirror(r: int)
    requires -36 < r < 36
    ensures DigitTable[35 + r] == Glyph(Abs(r))
  {
    if r < 0 {
      assert DigitTable[35 + r] == Reverse(Alphabet[1..])[35 + r] == Alphabet[1..][-r - 1];
    } else {
      assert DigitTable[35 + r] == Alphabet[r];
    }
  }

  /** The glyphs are the characters '0'..'9' and 'a'..'z', in order. */
  lemma AlphabetText()
    ensures Alphabet == "0123456789abcdefghijklmnopqrstuvwxyz"
  {
  }

  /** The lookup string is the literal of the source: the alphabet backwards down to '1', then the alphabet. */
  lemma DigitTableText()
    ensures DigitTable == "zyxwvutsrqponmlkjihgfedcba987654321" + "0123456789abcdefghijklmnopqrstuvwxyz"
  {
    AlphabetText();
    BackHalfText();
  }

  /** The first half of the lookup string, as text. */
  lemma BackHalfText()
    ensures Reverse(Alphabet[1..]) == "zyxwvutsrqponmlkjihgfedcba987654321"
  {
    assert Reverse(Alphabet[1..]) == seq(35, i requires 0 <= i < 35 => Glyph(35 - i));
  }

  lemma ReverseSnoc<T>(s: seq<T>, x: T)
    ensures Reverse(s + [x]) == [x] + Reverse(s)
  {
  }

  /**
   * itoa: writes ItoaText(value, base) and a NUL at the start of `result`,
   * and leaves the rest of the buffer alone.
   */
  method Itoa(value: int, result: array<char>, base: int)
    requires IsInt(value)
    requires |ItoaText(value, base)| < result.Length
    modifies result
    ensures result[..|ItoaText(value, base)|] == ItoaText(value, base)
    ensures result[|ItoaText(value, base)|] == '\0'
    ensures result[|ItoaText(value, base)| + 1..] == old(result[|ItoaText(value, base)| + 1..])
  {
    ghost var text := ItoaText(value, base);
    if base < 2 || base > 36 {
      result[0] := '\0';
      return;
    }
    var ptr := FillBackwards(value, result, base);
    ghost var filled := result[..];
    assert filled[ptr + 1..] == old(result[ptr + 1..]);
    result[ptr] := '\0';
    ghost var ended := result[..];
    assert ended[..ptr] == filled[..ptr] && ended[ptr + 1..] == filled[ptr + 1..];
    ReversePrefix(result, ptr);
    assert result[..ptr] == Reverse(filled[..ptr]) == text;
    assert result[ptr..] == ended[ptr..];
    assert result[ptr + 1..] == ended[ptr + 1..];
  }

  /**
   * The first half of itoa: the do-while that writes the digits from the
   * lowest up, then the '-' of a negative value. The text comes out backwards.
   */
  method FillBackwards(value: int, result: array<char>, base: int) returns (ptr: nat)
    requires IsInt(value) && 2 <= base <= 36
    requires |ItoaText(value, base)| < result.Length
    modifies result
    ensures ptr == |ItoaText(value, base)|
    ensures Reverse(result[..ptr]) == ItoaText(value, base)
    ensures result[ptr..] == old(result[ptr..])
  {
    ghost var n := Abs(value);
    ghost var len := |ItoaText(value, base)|;
    ghost var tail := old(result[len..]);
    var v := value;
    var tmp := value;
    ptr := 0;
    var more := true;
    // at least one digit is written: 0 gives "0"
    while more
      invariant ptr <= |Digits(n, base)|
      invariant result[len..] == tail
      invariant (tmp < 0) == (value < 0)
      invariant more ==> v == 0 || (v < 0) == (value < 0)
      invariant more ==> Digits(n, base) == Digits(Abs(v), base) + Reverse(result[..ptr])
      invariant !more ==> Digits(n, base) == Reverse(result[..ptr])
      decreases if more then 1 else 0, Abs(v)
    {
      ghost var written := result[..ptr];
      tmp := v;
      v := CDiv(v, base);
      var digit := DigitTable[35 + (tmp - v * base)];
      assert digit == Glyph(Abs(tmp) % base) by {
        DigitTableMirror(tmp - v * base);
      }
      result[ptr] := digit;
      assert result[..ptr + 1] == written + [digit];
      FillStep(n, Abs(tmp), base, Abs(v), Abs(tmp - v * base), written);
      DivShrinks(Abs(tmp), base);
      ptr := ptr + 1;
      more := v != 0;
    }
    ghost var digitsBack := result[..ptr];
    if tmp < 0 {
      result[ptr] := '-';
      ptr := ptr + 1;
      assert result[..ptr] == digitsBack + ['-'];
      ReverseSnoc(digitsBack, '-');
    }
  }

  /** The two-pointer swap loop of itoa: reverses a[0 .. len - 1] in place. */
  method ReversePrefix(a: array<char>, len: nat)
    requires len <= a.Length
    modifies a
    ensures a[..len] == Reverse(old(a[..len]))
    ensures a[len..] == old(a[len..])
  {
    ghost var back := a[..len];
    if len == 0 {
      return;
    }
    var hi := len - 1;
    var lo := 0;
    while lo < hi
      invariant 0 <= lo && lo + hi == len - 1 && hi < len
      invariant forall i | 0 <= i < lo :: a[i] == back[len - 1 - i]
      invariant forall i | hi < i < len :: a[i] == back[len - 1 - i]
      invariant forall i | lo <= i <= hi :: a[i] == back[i]
      invariant a[len..] == old(a[len..])
    {
      a[lo], a[hi] := a[hi], a[lo];
      hi := hi - 1;
      lo := lo + 1;
    }
  }

  /** A positive number divided by a base of at least 2 gets smaller. */
  lemma DivShrinks(m: nat, b: nat)
    requires 2 <= b
    ensures m / b <= m && (m > 0 ==> m / b < m)
  {
  }

  /**
   * One round of itoa's digit loop: the glyph of the lowest digit d of m
   * moves from the digits still to write to the end of those already
   * written (which are stored backwards); q, the quotient, is what is left.
   */
  lemma FillStep(n: nat, m: nat, b: nat, q: nat, d: nat, written: string)
    requires 2 <= b <= 36 && q == m / b && d == m % b
    requires Digits(n, b) == Digits(m, b) + Reverse(written)
    ensures d < b
    ensures q != 0 ==> Digits(n, b) == Digits(q, b) + Reverse(written + [Glyph(d)])
    ensures q == 0 ==> Digits(n, b) == Reverse(written + [Glyph(d)])
  {
    var g := Glyph(m % b);
    DigitsStep(m, b);
    ReverseSnoc(written, g);
    QuotientZero(m, b);
    if m < b {
      assert Digits(m, b) == [g];
      assert Digits(n, b) == [g] + Reverse(written);
    } else {
      assert Digits(m, b) == Digits(q, b) + [g];
      assert Digits(n, b) == Digits(q, b) + ([g] + Reverse(written));
    }
  }

  /** The quotient by a base vanishes exactly for a single digit. */
  lemma QuotientZero(m: nat, b: nat)
    requires 2 <= b
    ensures m / b == 0 <==> m < b
  {
    if m >= b {
      DivBounds(m, b);
    }
  }

  // ---------------------------------------------------------------------------
  // Properties
  // ---------------------------------------------------------------------------

  /** The base-10 digits of n read back as n. */
  lemma {:induction false} DecimalDigitsValue(n: nat)
    ensures DecimalValue(Digits(n, 10)) == n
    decreases n
  {
    var ds := Digits(n, 10);
    if n >= 10 {
      DecimalDigitsValue(n / 10);
      assert ds[..|ds| - 1] == Digits(n / 10, 10);
    }
  }

  /** atol reads back what itoa wrote in base 10. */
  lemma AtolItoaRoundTrip(value: int)
    ensures Atol(ItoaText(value, 10)) == value
  {
    var ds := Digits(Abs(value), 10);
    DecimalDigitsValue(Abs(value));
    var sign := if value < 0 then ['-'] else [];
    assert ItoaText(value, 10) == [] + sign + ds + [];
    AtolStopsAtNonDigit([], sign, ds, []);
  }

  /** Zero is written as "0", in every valid base. */
  lemma ItoaZero(base: int)
    requires 2 <= base <= 36
    ensures ItoaText(0, base) == "0"
  {
  }

  /** A negative value is its magnitude's text behind a '-'. */
  lemma ItoaNegative(value: int, base: int)
    requires 2 <= base <= 36 && value < 0
    ensures ItoaText(value, base) == "-" + ItoaText(-value, base)
  {
  }
}
