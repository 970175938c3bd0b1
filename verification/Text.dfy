/** Decimal numerals, splitting and prefixes of byte strings (one char a byte). */
module Text {
  import opened Wrappers

  predicate IsDigit(c: char) {
    '0' <= c <= '9'
  }

  predicate StartsWith(s: string, prefix: string) {
    |prefix| <= |s| && s[..|prefix|] == prefix
  }

  predicate Contains(s: string, c: char) {
    exists i :: 0 <= i < |s| && s[i] == c
  }

  /** The numeral %d prints for a non-negative number. */
  function Decimal(n: nat): (s: string)
    ensures |s| > 0 && forall i :: 0 <= i < |s| ==> IsDigit(s[i])
  {
    var last := ['0' + (n % 10) as char];
    if n < 10 then last else Decimal(n / 10) + last
  }

  /** %d of any integer. */
  function SignedDecimal(n: int): string {
    if n < 0 then "-" + Decimal(-n) else Decimal(n)
  }

  function DigitsValue(s: string): nat
    requires forall i :: 0 <= i < |s| ==> IsDigit(s[i])
  {
    if s == [] then 0
    else
      assert IsDigit(s[|s| - 1]);
      DigitsValue(s[..|s| - 1]) * 10 + (s[|s| - 1] as int - '0' as int)
  }

  /** The longest prefix made of digits. */
  function DigitPrefix(s: string): (d: string)
    ensures |d| <= |s| && d == s[..|d|]
    ensures forall i :: 0 <= i < |d| ==> IsDigit(d[i])
    ensures |d| < |s| ==> !IsDigit(s[|d|])
  {
    if s == [] || !IsDigit(s[0]) then [] else [s[0]] + DigitPrefix(s[1..])
  }

  /** %d into an unsigned variable of the given range: at least one digit and no
      overflow; the rest of the input is left for the next verb. */
  function ScanUint(s: string, limit: nat): Option<(nat, string)> {
    var d := DigitPrefix(s);
    if d == [] || DigitsValue(d) >= limit then None else Some((DigitsValue(d), s[|d|..]))
  }

  /** A literal of a scan format. */
  function ScanLiteral(s: string, literal: string): Option<string> {
    if StartsWith(s, literal) then Some(s[|literal|..]) else None
  }

  lemma {:induction false} DecimalValue(n: nat)
    ensures DigitsValue(Decimal(n)) == n
  {
    var s := Decimal(n);
    if n >= 10 {
      DecimalValue(n / 10);
      assert s[..|s| - 1] == Decimal(n / 10);
    }
  }

  function Magnitude(n: int): nat {
    if n < 0 then -n else n
  }

  lemma SignedDecimalInjective(m: int, n: int)
    requires SignedDecimal(m) == SignedDecimal(n)
    ensures m == n
  {
    var d, e := Decimal(Magnitude(m)), Decimal(Magnitude(n));
    DecimalValue(Magnitude(m));
    DecimalValue(Magnitude(n));
    assert IsDigit(d[0]) && IsDigit(e[0]);
    assert SignedDecimal(m)[0] == '-' <==> m < 0;
    assert SignedDecimal(n)[0] == '-' <==> n < 0;
    if m < 0 {
      assert d == SignedDecimal(m)[1..] && e == SignedDecimal(n)[1..];
    }
  }

  lemma {:induction false} DigitPrefixStops(d: string, rest: string)
    requires forall i :: 0 <= i < |d| ==> IsDigit(d[i])
    requires rest != [] ==> !IsDigit(rest[0])
    ensures DigitPrefix(d + rest) == d
  {
    if d == [] {
      assert d + rest == rest;
    } else {
      assert (d + rest)[1..] == d[1..] + rest;
      DigitPrefixStops(d[1..], rest);
    }
  }

  /** Scanning undoes printing, whatever non-digit follows. */
  lemma ScanDecimal(n: nat, limit: nat, rest: string)
    requires n < limit && (rest != [] ==> !IsDigit(rest[0]))
    ensures ScanUint(Decimal(n) + rest, limit) == Some((n, rest))
  {
    DigitPrefixStops(Decimal(n), rest);
    DecimalValue(n);
  }

  /** strings.Split with a one-byte separator. */
  function Split(s: string, sep: char): (parts: seq<string>)
    ensures |parts| >= 1
  {
    if s == [] then [[]]
    else
      var parts := Split(s[1..], sep);
      if s[0] == sep then [[]] + parts else [[s[0]] + parts[0]] + parts[1..]
  }

  /** Parts with the separator between them. */
  function Join(parts: seq<string>, sep: char): string
    requires |parts| >= 1
  {
    if |parts| == 1 then parts[0] else parts[0] + [sep] + Join(parts[1..], sep)
  }

  /** A part without the separator, then the separator, is split off whole. */
  lemma {:induction false} SplitFirst(part: string, sep: char, rest: string)
    requires !Contains(part, sep)
    ensures Split(part + [sep] + rest, sep) == [part] + Split(rest, sep)
  {
    var s := part + [sep] + rest;
    if part == [] {
      assert s[1..] == rest;
    } else {
      assert s[1..] == part[1..] + [sep] + rest;
      assert !Contains(part[1..], sep) by {
        assert forall i :: 0 <= i < |part| - 1 ==> part[1..][i] == part[i + 1];
      }
      SplitFirst(part[1..], sep, rest);
      assert s[0] == part[0] && part[0] != sep;
      assert [part[0]] + part[1..] == part;
    }
  }

  lemma {:induction false} SplitLast(part: string, sep: char)
    requires !Contains(part, sep)
    ensures Split(part, sep) == [part]
  {
    if part != [] {
      assert !Contains(part[1..], sep) by {
        assert forall i :: 0 <= i < |part| - 1 ==> part[1..][i] == part[i + 1];
      }
      SplitLast(part[1..], sep);
      assert part[0] != sep;
      assert [part[0]] + part[1..] == part;
    }
  }

  /** Splitting undoes joining, for parts without the separator. */
  lemma {:induction false} SplitJoin(parts: seq<string>, sep: char)
    requires |parts| >= 1
    requires forall i :: 0 <= i < |parts| ==> !Contains(parts[i], sep)
    ensures Split(Join(parts, sep), sep) == parts
  {
    if |parts| == 1 {
      SplitLast(parts[0], sep);
    } else {
      SplitJoin(parts[1..], sep);
      SplitFirst(parts[0], sep, Join(parts[1..], sep));
      assert parts == [parts[0]] + parts[1..];
    }
  }
}
