/** number_to_string of the worker: the counts in the DETAILS line. */
module Decimal {
  import opened CStrings

  const DIGITS: string := "0123456789"

  predicate IsDigit(c: char) { '0' <= c <= '9' }

  predicate AllDigits(s: string) { forall k :: 0 <= k < |s| ==> IsDigit(s[k]) }

  /** The decimal numeral of n. */
  function Numeral(n: nat): (s: string)
    ensures s != "" && AllDigits(s)
  {
    if n < 10 then [DIGITS[n]] else Numeral(n / 10) + [DIGITS[n % 10]]
  }

  /** What a string of digits denotes, read from the left. */
  function ValueOf(s: string): nat {
    if s == "" then 0
    else 10 * ValueOf(s[..|s| - 1]) + (if IsDigit(s[|s| - 1]) then s[|s| - 1] as int - '0' as int else 0)
  }

  /** The numeral denotes n and is the shortest to do so. */
  lemma {:induction false} NumeralValue(n: nat)
    ensures ValueOf(Numeral(n)) == n
    ensures n > 0 ==> Numeral(n)[0] != '0'
  {
    var s := Numeral(n);
    if n >= 10 {
      NumeralValue(n / 10);
      assert s[..|s| - 1] == Numeral(n / 10);
    } else {
      assert s[..|s| - 1] == "";
    }
  }

  lemma NumeralInjective(m: nat, n: nat)
    requires Numeral(m) == Numeral(n)
    ensures m == n
  {
    NumeralValue(m);
    NumeralValue(n);
  }

  function Pow10(e: nat): nat { if e == 0 then 1 else 10 * Pow10(e - 1) }

  /** A number below 10^e has at most e digits, so a 32-bit int has at most ten. */
  lemma {:induction false} NumeralLength(n: nat, e: nat)
    requires 0 < e && n < Pow10(e)
    ensures |Numeral(n)| <= e
    decreases e
  {
    if n >= 10 {
      assert Pow10(1) == 10;
      NumeralLength(n / 10, e - 1);
    }
  }

  lemma IntFitsBuffer(n: nat)
    requires n < 0x8000_0000
    ensures |Numeral(n)| <= 10 < 32
  {
    assert Pow10(5) == 100000;
    assert Pow10(10) == 10000000000;
    NumeralLength(n, 10);
  }

  /** What the routine leaves in the buffer: nothing at all for a negative number. */
  function Text(n: int): string { if n < 0 then "" else Numeral(n) }

  function Reversed(s: string): (r: string)
    ensures |r| == |s|
    ensures forall k :: 0 <= k < |s| ==> r[k] == s[|s| - 1 - k]
  {
    if s == "" then "" else Reversed(s[1..]) + [s[0]]
  }

  /** The first loop: the digits come out last first. */
  method DigitsBackwards(buffer: array<char>, n: nat) returns (i: nat)
    requires 0 < n && |Numeral(n)| < buffer.Length
    modifies buffer
    ensures i == |Numeral(n)| && buffer[..i] == Reversed(Numeral(n))
  {
    var m := n;
    i := 0;
    while m > 0
      invariant 0 <= m && (m > 0 ==> i + |Numeral(m)| == |Numeral(n)|)
      invariant m > 0 ==> Reversed(Numeral(n)) == buffer[..i] + Reversed(Numeral(m))
      invariant m == 0 ==> i == |Numeral(n)| && Reversed(Numeral(n)) == buffer[..i]
    {
      ghost var digits := buffer[..i];
      ReversedNumeral(m);
      buffer[i] := DIGITS[m % 10];
      i := i + 1;
      assert buffer[..i] == digits + [DIGITS[m % 10]];
      m := m / 10;
    }
  }

  lemma ReversedAppend(s: string, c: char)
    ensures Reversed(s + [c]) == [c] + Reversed(s)
  {
    var r := Reversed(s + [c]);
    assert forall k :: 1 <= k <= |s| ==> r[k] == (s + [c])[|s| - k] == s[|s| - k];
  }

  lemma ReversedNumeral(m: nat)
    ensures Reversed(Numeral(m)) == [DIGITS[m % 10]] + (if m < 10 then "" else Reversed(Numeral(m / 10)))
  {
    if m >= 10 {
      ReversedAppend(Numeral(m / 10), DIGITS[m % 10]);
    }
  }

  /** The second loop: the first n characters reversed by swapping from both ends. */
  method ReverseInPlace(buffer: array<char>, n: nat)
    requires n <= buffer.Length
    modifies buffer
    ensures buffer[..n] == Reversed(old(buffer[..n]))
    ensures buffer[n..] == old(buffer[n..])
  {
    var i, j := n - 1, 0;
    while j < i
      invariant 0 <= j && i + j == n - 1 && i >= j - 1
      invariant forall k :: 0 <= k < j || i < k < n ==> buffer[k] == old(buffer[n - 1 - k])
      invariant forall k :: j <= k <= i || n <= k < buffer.Length ==> buffer[k] == old(buffer[k])
    {
      buffer[i], buffer[j] := buffer[j], buffer[i];
      i := i - 1;
      j := j + 1;
    }
  }

  /** The whole routine: afterwards the buffer reads as the numeral of n. */
  method NumberToString(buffer: array<char>, n: int)
    requires |Text(n)| < buffer.Length
    modifies buffer
    ensures Terminated(buffer[..], 0) && CString(buffer[..], 0) == Text(n)
  {
    TextNulFree(n);
    if n == 0 {
      buffer[0] := '0';
      buffer[1] := NUL;
    } else if n < 0 {
      buffer[0] := NUL;
    } else {
      var i := DigitsBackwards(buffer, n);
      buffer[i] := NUL;
      assert buffer[..i] == Reversed(Numeral(n));
      ReverseInPlace(buffer, i);
      assert buffer[i] == NUL by { assert buffer[i..][0] == NUL; }
      assert Reversed(Reversed(Numeral(n))) == Numeral(n);
    }
    CStringIs(buffer[..], 0, Text(n));
  }

  lemma TextNulFree(n: int)
    ensures NulFree(Text(n))
  {
    if n >= 0 {
      var s := Numeral(n);
      forall k | 0 <= k < |s| ensures s[k] != NUL { assert IsDigit(s[k]); }
    }
  }

  /** Length of the digit run a text starts with. */
  function DigitRun(s: string): nat {
    if s == "" || !IsDigit(s[0]) then 0 else 1 + DigitRun(s[1..])
  }

  lemma {:induction false} DigitRunIs(a: string, x: string)
    requires AllDigits(a) && (x != "" ==> !IsDigit(x[0]))
    ensures DigitRun(a + x) == |a|
  {
    if a == "" {
      assert a + x == x;
    } else {
      assert (a + x)[1..] == a[1..] + x;
      assert IsDigit(a[0]);
      DigitRunIs(a[1..], x);
    }
  }

  /** A digit run followed by a non-digit is determined by the text the two make up. */
  lemma SameDigits(a: string, x: string, b: string, y: string)
    requires AllDigits(a) && AllDigits(b)
    requires (x != "" ==> !IsDigit(x[0])) && (y != "" ==> !IsDigit(y[0]))
    requires a + x == b + y
    ensures a == b && x == y
  {
    DigitRunIs(a, x);
    DigitRunIs(b, y);
    assert (a + x)[..|a|] == a && (b + y)[..|b|] == b;
    assert (a + x)[|a|..] == x && (b + y)[|b|..] == y;
  }
}
