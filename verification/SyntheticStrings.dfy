/** The strings of the synthetic table generator: integers in base 62, padded with spaces, in their order. */
module SyntheticStrings {
  import opened Basics
  import Lex

  const LENGTH: nat := 10
  const PREFIX: nat := 4

  /** The digits and letters in ASCII order. */
  const CHARS: string := "0123456789" + "ABCDEFGHIJKLMNOPQRSTUVWXYZ" + "abcdefghijklmnopqrstuvwxyz"

  function Power62(n: nat): (p: nat)
    ensures p > 0
  {
    if n == 0 then 1 else 62 * Power62(n - 1)
  }

  function Digit(d: nat): (c: char)
    requires d < 62
    ensures c > ' '
  {
    if d < 10 then '0' + d as char else if d < 36 then 'A' + (d - 10) as char else 'a' + (d - 36) as char
  }

  lemma DigitOfChars(d: nat)
    requires d < 62
    ensures Digit(d) == CHARS[d]
  {
    var digits, upper, lower := "0123456789", "ABCDEFGHIJKLMNOPQRSTUVWXYZ", "abcdefghijklmnopqrstuvwxyz";
    assert CHARS == digits + upper + lower;
    if d < 10 {
      assert CHARS[d] == digits[d];
    } else if d < 36 {
      assert CHARS[d] == upper[d - 10];
    } else {
      assert CHARS[d] == lower[d - 36];
    }
  }

  lemma DigitsOrdered(d: nat, e: nat)
    requires d < 62 && e < 62
    ensures d < e <==> Digit(d) < Digit(e)
  {
  }

  /** The number of digits of a positive number: one more than its logarithm to base 62. */
  function DigitCount(n: nat): (count: nat)
    ensures n > 0 ==> count > 0
  {
    if n == 0 then 0 else 1 + DigitCount(n / 62)
  }

  lemma {:induction false} DigitCountIsLogarithm(n: nat)
    requires n > 0
    ensures Power62(DigitCount(n) - 1) <= n < Power62(DigitCount(n))
  {
    if n >= 62 {
      DigitCountIsLogarithm(n / 62);
    }
  }

  lemma {:induction false} DigitCountAtMost(n: nat, width: nat)
    requires n < Power62(width)
    ensures DigitCount(n) <= width
  {
    if n > 0 {
      DigitCountAtMost(n / 62, width - 1);
    }
  }

  function Spaces(n: nat): string {
    seq(n, i => ' ')
  }

  function LastChar(n: nat): char {
    if n == 0 then ' ' else Digit(n % 62)
  }

  /** The last `width` characters of the string for `n`. */
  function Padded(n: nat, width: nat): (s: string)
    ensures |s| == width
  {
    if width == 0 then [] else Padded(n / 62, width - 1) + [LastChar(n)]
  }

  lemma {:induction false} PaddedZero(width: nat)
    ensures Padded(0, width) == Spaces(width)
  {
    if width != 0 {
      PaddedZero(width - 1);
    }
  }

  /** What the loop has still to write, in front of what it has written. */
  lemma {:induction false} PaddedSplit(n: nat, width: nat, tail: string)
    requires width > 0
    ensures Padded(n, width) + tail == Padded(n / 62, width - 1) + ([LastChar(n)] + tail)
  {
  }

  /** generate_value for strings; none for numbers that fail the assertions. */
  method GenerateValue(input: int) returns (value: Option<string>)
    ensures value == if 0 <= input < Power62(LENGTH - PREFIX) then Some(Padded(input, LENGTH)) else None
  {
    if input < 0 || input >= Power62(LENGTH - PREFIX) {
      return None;
    }
    var result := Spaces(LENGTH);
    PaddedZero(LENGTH);
    if input == 0 {
      return Some(result);
    }
    var resultCharCount := DigitCount(input);
    DigitCountAtMost(input, LENGTH - PREFIX);
    var remainder: nat := input;
    for i := 0 to resultCharCount
      invariant DigitCount(remainder) == resultCharCount - i && |result| == LENGTH
      invariant result[..LENGTH - i] == Spaces(LENGTH - i)
      invariant Padded(remainder, LENGTH - i) + result[LENGTH - i..] == Padded(input, LENGTH)
    {
      DigitOfChars(remainder % 62);
      PaddedSplit(remainder, LENGTH - i, result[LENGTH - i..]);
      ghost var before := result;
      result := result[LENGTH - 1 - i := CHARS[remainder % 62]];
      assert result[LENGTH - (i + 1)..] == [LastChar(remainder)] + before[LENGTH - i..];
      assert result[..LENGTH - (i + 1)] == before[..LENGTH - i][..LENGTH - (i + 1)];
      remainder := remainder / 62;
    }
    PaddedZero(LENGTH - resultCharCount);
    assert result == result[..LENGTH - resultCharCount] + result[LENGTH - resultCharCount..];
    return Some(result);
  }

  // ---------------------------------------------------------------- order

  function Codes(s: string): (codes: seq<int>)
    ensures |codes| == |s| && forall i :: 0 <= i < |s| ==> codes[i] == s[i] as int
  {
    seq(|s|, i requires 0 <= i < |s| => s[i] as int)
  }

  /** The order of strings. */
  predicate Before(s: string, t: string) {
    Lex.Less(Codes(s), Codes(t))
  }

  lemma {:induction false} CompareLast(s: seq<int>, t: seq<int>, x: int, y: int)
    requires |s| == |t|
    ensures Lex.Compare(s + [x], t + [y]) ==
      if Lex.Compare(s, t) != 0 then Lex.Compare(s, t) else Lex.Compare([x], [y])
  {
    if s != [] {
      CompareLast(s[1..], t[1..], x, y);
      assert (s + [x])[1..] == s[1..] + [x] && (t + [y])[1..] == t[1..] + [y];
    } else {
      assert s + [x] == [x] && t + [y] == [y];
    }
  }

  lemma LastCharsOrdered(a: nat, b: nat)
    requires a < b && a / 62 == b / 62
    ensures LastChar(a) < LastChar(b)
  {
    if a > 0 {
      DigitsOrdered(a % 62, b % 62);
    }
  }

  /** Smaller numbers have smaller strings. */
  lemma {:induction false} PaddedAscends(a: nat, b: nat, width: nat)
    requires a < b < Power62(width)
    ensures Before(Padded(a, width), Padded(b, width))
  {
    var s, t := Padded(a / 62, width - 1), Padded(b / 62, width - 1);
    assert Codes(Padded(a, width)) == Codes(s) + [LastChar(a) as int];
    assert Codes(Padded(b, width)) == Codes(t) + [LastChar(b) as int];
    CompareLast(Codes(s), Codes(t), LastChar(a) as int, LastChar(b) as int);
    if a / 62 < b / 62 {
      PaddedAscends(a / 62, b / 62, width - 1);
    } else {
      Lex.CompareEqual(Codes(s), Codes(t));
      LastCharsOrdered(a, b);
    }
  }

  /** The strings have the order of the numbers, and different numbers have different strings. */
  lemma OrderPreserved(a: nat, b: nat)
    requires a < Power62(LENGTH - PREFIX) && b < Power62(LENGTH - PREFIX)
    ensures a < b <==> Before(Padded(a, LENGTH), Padded(b, LENGTH))
    ensures a == b <==> Padded(a, LENGTH) == Padded(b, LENGTH)
  {
    Power62Grows(LENGTH - PREFIX, LENGTH);
    var s, t := Codes(Padded(a, LENGTH)), Codes(Padded(b, LENGTH));
    Lex.CompareReverse(s, t);
    Lex.CompareEqual(s, s);
    if a < b {
      PaddedAscends(a, b, LENGTH);
    } else if b < a {
      PaddedAscends(b, a, LENGTH);
    }
  }

  lemma {:induction false} Power62Grows(a: nat, b: nat)
    requires a <= b
    ensures Power62(a) <= Power62(b)
  {
    if a < b {
      Power62Grows(a, b - 1);
    }
  }

  // ---------------------------------------------------------------- reading a string back

  function DigitValue(c: char): nat {
    if '0' <= c <= '9' then (c - '0') as nat
    else if 'A' <= c <= 'Z' then 10 + (c - 'A') as nat
    else if 'a' <= c <= 'z' then 36 + (c - 'a') as nat
    else 0
  }

  /** The number of a string of digits behind spaces. */
  function ReadValue(s: string): nat {
    if |s| == 0 || s[|s| - 1] == ' ' then 0 else 62 * ReadValue(s[..|s| - 1]) + DigitValue(s[|s| - 1])
  }

  lemma DigitRead(d: nat)
    requires d < 62
    ensures DigitValue(Digit(d)) == d
  {
  }

  /** Reading a generated string back gives the number, and the string starts with spaces. */
  lemma {:induction false} ReadsBack(n: nat, width: nat)
    requires n < Power62(width)
    ensures ReadValue(Padded(n, width)) == n
  {
    if width != 0 && n != 0 {
      DigitRead(n % 62);
      ReadsBack(n / 62, width - 1);
      assert Padded(n, width)[..width - 1] == Padded(n / 62, width - 1);
    }
  }

  /** Numbers below 62^`width` leave the characters before the last `width` blank. */
  lemma {:induction false} LeadingSpaces(n: nat, width: nat, blank: nat)
    requires n < Power62(width)
    ensures Padded(n, blank + width)[..blank] == Spaces(blank)
  {
    if width == 0 {
      PaddedZero(blank);
      assert Padded(n, blank + width)[..blank] == Padded(0, blank);
    } else {
      LeadingSpaces(n / 62, width - 1, blank);
    }
  }

  /** Every generated string starts with four spaces and reads back as its number. */
  lemma GeneratedReadsBack(n: nat)
    requires n < Power62(LENGTH - PREFIX)
    ensures Padded(n, LENGTH)[..PREFIX] == Spaces(PREFIX) && ReadValue(Padded(n, LENGTH)) == n
  {
    LeadingSpaces(n, LENGTH - PREFIX, PREFIX);
    Power62Grows(LENGTH - PREFIX, LENGTH);
    ReadsBack(n, LENGTH);
  }
}
