/** Decimal text of integers, as std::to_string writes it. */
module Text {

  function DigitChar(d: nat): (c: char)
    requires d < 10
    ensures '0' <= c <= '9'
    ensures c as int - '0' as int == d
  {
    ('0' as int + d) as char
  }

  predicate IsDigit(c: char) { '0' <= c <= '9' }

  /** Decimal digits of a natural number, most significant first, no leading zeros. */
  function NatToString(n: nat): (s: string)
    ensures |s| >= 1
    ensures forall k :: 0 <= k < |s| ==> IsDigit(s[k])
    decreases n
  {
    if n < 10 then [DigitChar(n)] else NatToString(n / 10) + [DigitChar(n % 10)]
  }

  /** std::to_string on an int: a minus sign for negative values, then the digits. */
  function IntToString(i: int): (s: string)
    ensures |s| >= 1
    ensures i >= 0 ==> forall k :: 0 <= k < |s| ==> IsDigit(s[k])
    ensures i < 0 ==> s[0] == '-' && forall k :: 1 <= k < |s| ==> IsDigit(s[k])
  {
    if i < 0 then "-" + NatToString(-i) else NatToString(i)
  }

  /** The text of a number never holds a blank or a line break. */
  lemma {:induction false} IntToStringNoSeparators(i: int)
    ensures ' ' !in IntToString(i) && '\n' !in IntToString(i)
  {
    var s := IntToString(i);
    forall k | 0 <= k < |s| ensures s[k] != ' ' && s[k] != '\n' {
    }
  }

  /** Width of the decimal text of a natural number, by magnitude. */
  lemma {:induction false} NatToStringWidth(n: nat)
    ensures |NatToString(n)| == 1 <==> n < 10
    ensures |NatToString(n)| == 2 <==> 10 <= n < 100
    ensures |NatToString(n)| == 3 <==> 100 <= n < 1000
    decreases n
  {
    if n >= 10 {
      NatToStringWidth(n / 10);
    }
  }

  /** The text of an integer has two or three characters exactly for -99..-1 and 10..999. */
  lemma {:induction false} IntToStringTwoOrThree(i: int)
    ensures (|IntToString(i)| == 2 || |IntToString(i)| == 3)
            <==> (-99 <= i <= -1 || 10 <= i <= 999)
  {
    if i < 0 {
      NatToStringWidth(-i);
    } else {
      NatToStringWidth(i);
    }
  }

  /** Distinct natural numbers have distinct decimal texts. */
  lemma {:induction false} NatToStringInjective(n: nat, m: nat)
    ensures NatToString(n) == NatToString(m) ==> n == m
    decreases n
  {
    if NatToString(n) == NatToString(m) {
      NatToStringWidth(n);
      NatToStringWidth(m);
      var s := NatToString(n);
      if n < 10 {
        assert m < 10 && s[0] == DigitChar(n) == DigitChar(m);
      } else {
        assert m >= 10;
        assert s[|s| - 1] == DigitChar(n % 10) == DigitChar(m % 10);
        assert s[..|s| - 1] == NatToString(n / 10) == NatToString(m / 10);
        NatToStringInjective(n / 10, m / 10);
        assert n == 10 * (n / 10) + n % 10;
        assert m == 10 * (m / 10) + m % 10;
      }
    }
  }

  /** std::to_string is injective: the text determines the integer. */
  lemma {:induction false} IntToStringInjective(i: int, j: int)
    ensures IntToString(i) == IntToString(j) ==> i == j
  {
    if IntToString(i) == IntToString(j) {
      if i < 0 && j < 0 {
        assert IntToString(i)[1..] == NatToString(-i);
        assert IntToString(j)[1..] == NatToString(-j);
        NatToStringInjective(-i, -j);
      } else if i >= 0 && j >= 0 {
        NatToStringInjective(i, j);
      }
    }
  }

  /** Regrouping a concatenation of three sequences. */
  lemma {:induction false} ConcatAssoc<T>(x: seq<T>, y: seq<T>, z: seq<T>)
    ensures x + y + z == x + (y + z)
  {
  }

  lemma {:induction false} ConcatEmpty<T>(x: seq<T>)
    ensures x + [] == x
  {
  }

  /** Indexing into a concatenation of two sequences. */
  lemma {:induction false} ConcatIndex<T>(a: seq<T>, b: seq<T>, j: int)
    requires 0 <= j < |a| + |b|
    ensures (a + b)[j] == if j < |a| then a[j] else b[j - |a|]
  {
  }

  /** The concatenation f(0) + f(1) + ... + f(n-1). */
  function ConcatUpTo<T>(f: nat -> seq<T>, n: nat): seq<T>
  {
    if n == 0 then [] else ConcatUpTo(f, n - 1) + f(n - 1)
  }

  /** Element j of f(0) + ... + f(n-1) is element i of a single part f(u), u < n. */
  lemma {:induction false} ConcatUpToOrigin<T>(f: nat -> seq<T>, n: nat, j: int) returns (u: nat, i: nat)
    requires 0 <= j < |ConcatUpTo(f, n)|
    ensures u < n && i < |f(u)| && ConcatUpTo(f, n)[j] == f(u)[i]
  {
    var prev := ConcatUpTo(f, n - 1);
    assert ConcatUpTo(f, n) == prev + f(n - 1);
    if j < |prev| {
      u, i := ConcatUpToOrigin(f, n - 1, j);
    } else {
      u, i := n - 1, j - |prev|;
    }
  }
}
