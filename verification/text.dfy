/** Strings as Python treats them in this program: code-point order (`<` on `str`),
    decimal rendering of integers (`str(n)`) and `sep.join(parts)`. */
module Text {

  /** Python's `a < b` on `str`: lexicographic by code point, a proper prefix is smaller. */
  predicate Less(a: string, b: string)
  {
    if |a| == 0 then |b| > 0
    else if |b| == 0 then false
    else if a[0] != b[0] then a[0] < b[0]
    else Less(a[1..], b[1..])
  }

  lemma {:induction false} LessIrreflexive(a: string)
    ensures !Less(a, a)
  {
    if |a| > 0 { LessIrreflexive(a[1..]); }
  }

  lemma {:induction false} LessAsymmetric(a: string, b: string)
    requires Less(a, b)
    ensures !Less(b, a)
  {
    if |a| > 0 && |b| > 0 && a[0] == b[0] { LessAsymmetric(a[1..], b[1..]); }
  }

  lemma {:induction false} LessTransitive(a: string, b: string, c: string)
    requires Less(a, b) && Less(b, c)
    ensures Less(a, c)
  {
    if |a| > 0 && |b| > 0 && |c| > 0 && a[0] == b[0] && b[0] == c[0] {
      LessTransitive(a[1..], b[1..], c[1..]);
    }
  }

  lemma {:induction false} LessTotal(a: string, b: string)
    requires a != b
    ensures Less(a, b) || Less(b, a)
  {
    if |a| > 0 && |b| > 0 && a[0] == b[0] {
      assert a == [a[0]] + a[1..] && b == [b[0]] + b[1..];
      LessTotal(a[1..], b[1..]);
    }
  }

  function DigitChar(d: nat): (c: char)
    requires d < 10
    ensures '0' <= c <= '9' && c as int - '0' as int == d
  {
    ('0' as int + d) as char
  }

  /** Every character of `s` is a decimal digit. */
  predicate IsDecimal(s: string)
  {
    forall i :: 0 <= i < |s| ==> '0' <= s[i] <= '9'
  }

  /** The number a string of decimal digits denotes, read most significant digit first. */
  function DigitsValue(s: string): nat
    requires IsDecimal(s)
    decreases |s|
  {
    if s == [] then 0 else DigitsValue(s[..|s| - 1]) * 10 + (s[|s| - 1] as int - '0' as int)
  }

  /** `str(n)` for a non-negative integer: its decimal digits, no leading zeros. */
  function NatToString(n: nat): (s: string)
    ensures |s| > 0 && IsDecimal(s)
    decreases n
  {
    if n < 10 then [DigitChar(n)] else NatToString(n / 10) + [DigitChar(n % 10)]
  }

  /** `NatToString(n)` denotes `n` and has no leading zero. */
  lemma {:induction false} NatToStringValue(n: nat)
    ensures DigitsValue(NatToString(n)) == n
    ensures (NatToString(n)[0] == '0') == (n == 0)
    decreases n
  {
    if n >= 10 {
      var t := NatToString(n / 10);
      NatToStringValue(n / 10);
      assert (t + [DigitChar(n % 10)])[..|t|] == t;
    }
  }

  /** `str(i)` for any integer: a leading `-` for negative values. */
  function IntToString(i: int): (s: string)
    ensures |s| > 0
    ensures (i < 0) == (s[0] == '-')
  {
    if i < 0 then "-" + NatToString(-i) else NatToString(i)
  }

  /** `IntToString(i)` is the digits of `i` with no leading zero, after a `-` exactly when
      `i` is negative. */
  lemma IntToStringValue(i: int)
    ensures var s := IntToString(i);
      i >= 0 ==> IsDecimal(s) && DigitsValue(s) == i && (s[0] == '0') == (i == 0)
    ensures var s := IntToString(i);
      i < 0 ==> |s| > 1 && IsDecimal(s[1..]) && DigitsValue(s[1..]) == -i && s[1] != '0'
  {
    if i < 0 {
      NatToStringValue(-i);
      assert IntToString(i)[1..] == NatToString(-i);
    } else {
      NatToStringValue(i);
    }
  }

  /** The total length of the parts. */
  function TotalLength(parts: seq<string>): nat
  {
    if parts == [] then 0 else |parts[0]| + TotalLength(parts[1..])
  }

  /** `sep.join(parts)`. */
  function Join(parts: seq<string>, sep: string): (s: string)
    ensures |parts| == 0 ==> s == ""
    ensures |parts| == 1 ==> s == parts[0]
  {
    if |parts| == 0 then ""
    else if |parts| == 1 then parts[0]
    else parts[0] + sep + Join(parts[1..], sep)
  }

  /** A join starts with the first part and holds every part and one separator between
      each two. */
  lemma {:induction false} JoinShape(parts: seq<string>, sep: string)
    requires |parts| > 0
    ensures parts[0] <= Join(parts, sep)
    ensures |Join(parts, sep)| == TotalLength(parts) + (|parts| - 1) * |sep|
    decreases |parts|
  {
    if |parts| > 1 {
      JoinShape(parts[1..], sep);
      assert (|parts| - 2) * |sep| + |sep| == (|parts| - 1) * |sep|;
    }
  }

  /** True when `c` occurs nowhere in `s`. */
  predicate Avoids(s: string, c: char)
  {
    forall i :: 0 <= i < |s| ==> s[i] != c
  }

  /** Joining with a separator that contains a character `mark` is injective on parts
      that avoid `mark`: the joined text determines the parts. */
  lemma {:induction false} JoinInjective(xs: seq<string>, ys: seq<string>, sep: string, mark: char)
    requires mark in sep
    requires forall i :: 0 <= i < |xs| ==> Avoids(xs[i], mark)
    requires forall i :: 0 <= i < |ys| ==> Avoids(ys[i], mark)
    requires |xs| > 0 && |ys| > 0
    requires Join(xs, sep) == Join(ys, sep)
    ensures xs == ys
    decreases |xs|
  {
    var k := FirstIndex(sep, mark);
    var j := Join(xs, sep);
    if |xs| == 1 && |ys| == 1 {
    } else if |xs| == 1 {
      MarkAfterFirst(ys, sep, mark, k);
      assert false;
    } else if |ys| == 1 {
      MarkAfterFirst(xs, sep, mark, k);
      assert false;
    } else {
      // the first `mark` of the joined text sits k characters after the first part
      if |xs[0]| < |ys[0]| {
        MarkFree(ys, sep, mark, k, |xs[0]| + k);
        assert false;
      } else if |ys[0]| < |xs[0]| {
        MarkFree(xs, sep, mark, k, |ys[0]| + k);
        assert false;
      } else {
        assert xs[0] == j[..|xs[0]|] == ys[0];
        var rest := |xs[0]| + |sep|;
        assert Join(xs[1..], sep) == j[rest..] == Join(ys[1..], sep);
        JoinInjective(xs[1..], ys[1..], sep, mark);
        assert xs == [xs[0]] + xs[1..] && ys == [ys[0]] + ys[1..];
      }
    }
  }

  /** The position of the first `c` in `s`. */
  function FirstIndex(s: string, c: char): (k: nat)
    requires c in s
    ensures k < |s| && s[k] == c
    ensures forall i :: 0 <= i < k ==> s[i] != c
  {
    if s[0] == c then 0 else FirstIndex(s[1..], c) + 1
  }

  /** With two parts or more, the joined text holds `mark` right after the first part. */
  lemma MarkAfterFirst(xs: seq<string>, sep: string, mark: char, k: nat)
    requires |xs| >= 2
    requires k < |sep| && sep[k] == mark
    ensures |xs[0]| + k < |Join(xs, sep)| && Join(xs, sep)[|xs[0]| + k] == mark
    ensures !Avoids(Join(xs, sep), mark)
  {
  }

  /** Before the first part's end plus the separator's first `mark`, the joined text has no `mark`. */
  lemma MarkFree(xs: seq<string>, sep: string, mark: char, k: nat, p: nat)
    requires |xs| >= 2 && Avoids(xs[0], mark)
    requires k < |sep| && forall i :: 0 <= i < k ==> sep[i] != mark
    requires p < |xs[0]| + k
    ensures Join(xs, sep)[p] != mark
  {
  }
}
