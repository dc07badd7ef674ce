/** String helpers standing in for the Rust standard library calls the crate
    relies on: `[String]::join`, and the unpadded decimal rendering that
    `format!("{}", n)` gives an unsigned integer. `DecimalValue` is the
    inverse of the decimal rendering; `Split` undoes `Join` for one or more
    tokens that do not contain the separator. Both are used only to state
    round trips. */
module Strings {

  /** `m.join(sep)`: the tokens of `m` with `sep` between neighbours. */
  function Join(m: seq<string>, sep: string): string
  {
    if |m| == 0 then ""
    else if |m| == 1 then m[0]
    else m[0] + sep + Join(m[1..], sep)
  }

  lemma JoinFive(a: string, b: string, c: string, d: string, e: string, sep: string)
    ensures Join([a, b, c, d, e], sep) == a + sep + b + sep + c + sep + d + sep + e
  {
    var m := [a, b, c, d, e];
    assert m[1..] == [b, c, d, e] && m[1..][1..] == [c, d, e];
    assert m[1..][1..][1..] == [d, e] && m[1..][1..][1..][1..] == [e];
    assert Join([d, e], sep) == d + sep + e;
    assert Join([c, d, e], sep) == c + sep + (d + sep + e);
    assert Join([b, c, d, e], sep) == b + sep + (c + sep + (d + sep + e));
    assert Join(m, sep) == a + sep + (b + sep + (c + sep + (d + sep + e)));
  }

  /** The pieces of `s` between occurrences of `sep` (always at least one). */
  function Split(s: string, sep: char): (parts: seq<string>)
    ensures |parts| >= 1
    decreases |s|
  {
    if s == [] then [""]
    else
      var rest := Split(s[1..], sep);
      if s[0] == sep then [""] + rest
      else [[s[0]] + rest[0]] + rest[1..]
  }

  /** `parts.join("")`. */
  function Concat(parts: seq<string>): string
  {
    if parts == [] then "" else Concat(parts[..|parts| - 1]) + parts[|parts| - 1]
  }

  lemma ConcatOne(parts: seq<string>, a: string)
    ensures Concat(parts + [a]) == Concat(parts) + a
  {
    assert (parts + [a])[..|parts|] == parts;
  }

  lemma ConcatPair(parts: seq<string>, a: string, b: string)
    ensures Concat(parts + [a] + [b]) == Concat(parts) + a + b
  {
    ConcatOne(parts, a);
    ConcatOne(parts + [a], b);
  }

  predicate IsDecimalDigit(c: char)
  {
    '0' <= c <= '9'
  }

  function DigitChar(d: nat): (c: char)
    requires d < 10
    ensures IsDecimalDigit(c)
  {
    ('0' as int + d) as char
  }

  /** `format!("{}", n)`: most significant digit first, no leading zeros. */
  function NatToDecimal(n: nat): (s: string)
    ensures 1 <= |s|
    ensures forall i :: 0 <= i < |s| ==> IsDecimalDigit(s[i])
    ensures |s| > 1 ==> s[0] != '0'
    ensures |s| == 1 <==> n < 10
  {
    if n < 10 then [DigitChar(n)] else NatToDecimal(n / 10) + [DigitChar(n % 10)]
  }

  /** Reads a string of decimal digits back as a number. */
  function DecimalValue(s: string): nat
  {
    if s == [] then 0
    else
      var c := s[|s| - 1];
      DecimalValue(s[..|s| - 1]) * 10 + (if IsDecimalDigit(c) then c as int - '0' as int else 0)
  }

  lemma {:induction false} DecimalRoundTrip(n: nat)
    ensures DecimalValue(NatToDecimal(n)) == n
  {
    if n >= 10 {
      DecimalRoundTrip(n / 10);
      var s := NatToDecimal(n);
      assert s[..|s| - 1] == NatToDecimal(n / 10);
    }
  }

  /** A byte needs at most three decimal digits. */
  lemma ByteDecimalLength(n: nat)
    requires n <= 255
    ensures |NatToDecimal(n)| <= 3
  {
    if n >= 10 {
      assert |NatToDecimal(n / 10)| <= 2 by {
        if n / 10 >= 10 { assert n / 100 < 10; assert NatToDecimal(n / 10) == NatToDecimal(n / 100) + [DigitChar(n / 10 % 10)]; }
      }
    }
  }

  lemma {:induction false} SplitWithoutSeparator(t: string, sep: char)
    requires sep !in t
    ensures Split(t, sep) == [t]
    decreases |t|
  {
    if t != [] {
      SplitWithoutSeparator(t[1..], sep);
      assert [t[0]] + t[1..] == t;
    }
  }

  lemma {:induction false} SplitAtSeparator(t: string, sep: char, u: string)
    requires sep !in t
    ensures Split(t + [sep] + u, sep) == [t] + Split(u, sep)
    decreases |t|
  {
    var s := t + [sep] + u;
    if t == [] {
      assert s[1..] == u;
    } else {
      assert s[1..] == t[1..] + [sep] + u;
      SplitAtSeparator(t[1..], sep, u);
      assert [t[0]] + t[1..] == t;
    }
  }

  /** Splitting a join at its separator gives back the tokens, provided
      there is at least one token and no token contains the separator. */
  lemma {:induction false} SplitJoin(m: seq<string>, sep: char)
    requires |m| >= 1
    requires forall i :: 0 <= i < |m| ==> sep !in m[i]
    ensures Split(Join(m, [sep]), sep) == m
  {
    if |m| == 1 {
      SplitWithoutSeparator(m[0], sep);
    } else {
      SplitJoin(m[1..], sep);
      SplitAtSeparator(m[0], sep, Join(m[1..], [sep]));
      assert [m[0]] + m[1..] == m;
    }
  }
}
