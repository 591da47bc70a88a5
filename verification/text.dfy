/** The JavaScript string operations the handlers depend on:
    `String.prototype.split` with a one-character separator, and the
    string form of a non-negative integer in a given base (a template
    literal of a number is its decimal form; an ObjectId prints as hex). */
module Text {

  /** The pieces of `s` between occurrences of `sep`, as `s.split(sep)`
      returns them: never empty, and no piece contains the separator. */
  function Split(s: string, sep: char): (parts: seq<string>)
    ensures |parts| >= 1
    ensures forall i :: 0 <= i < |parts| ==> sep !in parts[i]
    decreases |s|
  {
    if |s| == 0 then [""]
    else
      var rest := Split(s[1..], sep);
      if s[0] == sep then [""] + rest
      else [[s[0]] + rest[0]] + rest[1..]
  }

  /** `parts.join(sep)`. */
  function Join(parts: seq<string>, sep: char): string
    requires |parts| >= 1
  {
    if |parts| == 1 then parts[0] else parts[0] + [sep] + Join(parts[1..], sep)
  }

  /** Splitting loses nothing: joining the pieces back gives the input. */
  lemma {:induction false} JoinSplit(s: string, sep: char)
    ensures Join(Split(s, sep), sep) == s
    decreases |s|
  {
    if |s| > 0 {
      var rest := Split(s[1..], sep);
      JoinSplit(s[1..], sep);
      if s[0] == sep {
        assert ([""] + rest)[1..] == rest;
      } else {
        var parts := [[s[0]] + rest[0]] + rest[1..];
        if |rest| == 1 {
          assert parts == [[s[0]] + rest[0]];
        } else {
          assert parts[1..] == rest[1..];
          assert Join(rest, sep) == rest[0] + [sep] + Join(rest[1..], sep);
        }
      }
    }
  }

  /** The input is a single piece exactly when it holds no separator. */
  lemma {:induction false} SplitSingle(s: string, sep: char)
    ensures (|Split(s, sep)| == 1) == (sep !in s)
    ensures sep !in s ==> Split(s, sep) == [s]
    decreases |s|
  {
    if |s| > 0 {
      SplitSingle(s[1..], sep);
      assert s == [s[0]] + s[1..];
    }
  }

  /** A leading piece without the separator comes out first, and the rest
      of the input is split on its own. */
  lemma {:induction false} SplitAfterFirst(a: string, sep: char, b: string)
    requires sep !in a
    ensures Split(a + [sep] + b, sep) == [a] + Split(b, sep)
    decreases |a|
  {
    if |a| == 0 {
      assert a + [sep] + b == [sep] + b;
      assert ([sep] + b)[1..] == b;
    } else {
      var s := a + [sep] + b;
      assert s[1..] == a[1..] + [sep] + b;
      SplitAfterFirst(a[1..], sep, b);
      assert [a[0]] + a[1..] == a;
    }
  }

  /** The character that stands for digit `d` (0-9, then a-f). */
  function Digit(d: nat): char
    requires d < 16
  {
    if d < 10 then ('0' as int + d) as char else ('a' as int + d - 10) as char
  }

  /** The value of a digit character; inverse of `Digit`. */
  function DigitValue(c: char): nat
  {
    if '0' <= c <= '9' then c as int - '0' as int
    else if 'a' <= c <= 'f' then c as int - 'a' as int + 10
    else 0
  }

  /** `n.toString(base)` for a non-negative integer, in the two bases the
      handlers print in (10 and 16): no leading zeros. */
  function NatToString(n: nat, base: nat): (s: string)
    requires base == 10 || base == 16
    ensures |s| >= 1
    decreases n
  {
    if n < base then [Digit(n)] else NatToString(n / base, base) + [Digit(n % base)]
  }

  /** Reads a string of digits in `base` back into a number. */
  function StringToNat(s: string, base: nat): nat
    decreases |s|
  {
    if |s| == 0 then 0 else StringToNat(s[..|s| - 1], base) * base + DigitValue(s[|s| - 1])
  }

  /** Appending a digit multiplies the value read so far by the base. */
  lemma StringToNatSnoc(p: string, c: char, base: nat)
    ensures StringToNat(p + [c], base) == StringToNat(p, base) * base + DigitValue(c)
  {
    assert (p + [c])[..|p + [c]| - 1] == p;
  }

  /** Printing a number and reading it back gives the number. */
  lemma {:induction false} NatToStringRoundTrip(n: nat, base: nat)
    requires base == 10 || base == 16
    ensures StringToNat(NatToString(n, base), base) == n
    decreases n
  {
    if n < base {
      assert DigitValue(Digit(n)) == n;
    } else {
      var q, r := n / base, n % base;
      NatToStringRoundTrip(q, base);
      assert DigitValue(Digit(r)) == r;
      StringToNatSnoc(NatToString(q, base), Digit(r), base);
    }
  }

  /** Distinct numbers print differently. */
  lemma NatToStringInjective(a: nat, b: nat, base: nat)
    requires base == 10 || base == 16
    requires NatToString(a, base) == NatToString(b, base)
    ensures a == b
  {
    NatToStringRoundTrip(a, base);
    NatToStringRoundTrip(b, base);
  }
}
