/** Small vocabulary shared by the models: an optional value, the strict order on strings by which the reconciler sorts
    source paths, decimal numbers, and strings made of two parts. */
module Basics {

  datatype Option<+T> = None | Some(value: T)

  /** Strict lexicographic order, the `<` of JavaScript strings. */
  predicate Less(a: string, b: string)
  {
    if b == [] then false
    else if a == [] then true
    else a[0] < b[0] || (a[0] == b[0] && Less(a[1..], b[1..]))
  }

  lemma {:induction false} LessIsTransitive(a: string, b: string, c: string)
    requires Less(a, b) && Less(b, c)
    ensures Less(a, c)
  {
    if a != [] && a[0] == b[0] && b[0] == c[0] {
      LessIsTransitive(a[1..], b[1..], c[1..]);
    }
  }

  lemma {:induction false} LessIsStrict(a: string, b: string)
    requires Less(a, b)
    ensures a != b && !Less(b, a)
  {
    if a != [] && a[0] == b[0] {
      LessIsStrict(a[1..], b[1..]);
    }
  }

  lemma {:induction false} LessIsTotal(a: string, b: string)
    ensures a == b || Less(a, b) || Less(b, a)
  {
    if a != [] && b != [] && a[0] == b[0] {
      LessIsTotal(a[1..], b[1..]);
      assert a == [a[0]] + a[1..] && b == [b[0]] + b[1..];
    }
  }

  /** Loop bookkeeping: element `i` moves from the part still to do to the part done. */
  lemma Advance<T>(done: seq<T>, s: seq<T>, i: nat)
    requires i < |s|
    ensures s[..i + 1] == s[..i] + [s[i]]
    ensures done + s[i..] == done + [s[i]] + s[i + 1..]
  {
  }

  // -------------------------------------------------------------------- decimal numbers

  predicate IsDigit(c: char)
  {
    '0' <= c <= '9'
  }

  function DigitValue(c: char): (r: nat)
    requires IsDigit(c)
  {
    c as int - '0' as int
  }

  function Value(digits: string): (r: nat)
    requires forall i | 0 <= i < |digits| :: IsDigit(digits[i])
  {
    if digits == [] then 0 else Value(digits[..|digits| - 1]) * 10 + DigitValue(digits[|digits| - 1])
  }

  function Digit(n: nat): (r: char)
    requires n < 10
    ensures IsDigit(r) && r as int == n + '0' as int
  {
    (n + '0' as int) as char
  }

  function Decimal(n: nat): (r: string)
    ensures r != [] && forall i | 0 <= i < |r| :: IsDigit(r[i])
  {
    if n < 10 then [Digit(n)] else Decimal(n / 10) + [Digit(n % 10)]
  }

  lemma {:induction false} ValueOfDecimal(n: nat)
    ensures Value(Decimal(n)) == n
  {
    if n < 10 {
      assert Decimal(n)[..0] == [];
    } else {
      ValueOfDecimal(n / 10);
      assert Decimal(n)[..|Decimal(n)| - 1] == Decimal(n / 10);
    }
  }

  lemma DecimalIsInjective(m: nat, n: nat)
    requires Decimal(m) == Decimal(n)
    ensures m == n
  {
    ValueOfDecimal(m);
    ValueOfDecimal(n);
  }

  // -------------------------------------------------------- two parts around a separator

  lemma SeparatorInsideLonger(c: string, i: string, d: string, j: string, separator: char)
    requires |c| < |d| && c + [separator] + i == d + [separator] + j
    ensures separator in d
  {
    assert (c + [separator] + i)[|c|] == separator;
    assert (d + [separator] + j)[|c|] == d[|c|];
  }

  lemma SameLengthParts(c: string, i: string, d: string, j: string, separator: char)
    requires |c| == |d| && c + [separator] + i == d + [separator] + j
    ensures c == d && i == j
  {
    var k := c + [separator] + i;
    assert c == k[..|c|] && d == (d + [separator] + j)[..|d|];
    assert i == k[|c| + 1..] && j == (d + [separator] + j)[|d| + 1..];
  }

  /** First parts without the separator make the whole unambiguous. */
  lemma PartsAreUnambiguous(c: string, i: string, d: string, j: string, separator: char)
    requires separator !in c && separator !in d && c + [separator] + i == d + [separator] + j
    ensures c == d && i == j
  {
    if |c| < |d| {
      SeparatorInsideLonger(c, i, d, j, separator);
    } else if |d| < |c| {
      SeparatorInsideLonger(d, j, c, i, separator);
    } else {
      SameLengthParts(c, i, d, j, separator);
    }
  }
}
