/**
 * The JavaScript string built-ins the handlers rely on: `startsWith`,
 * `split`, `String(n)` for an integer and `Number(s)` for a digit string.
 */
module Text {
  import opened Common

  /** `s.startsWith(prefix)`. */
  predicate StartsWith(s: string, prefix: string)
  {
    |prefix| <= |s| && s[..|prefix|] == prefix
  }

  /** `s` starts with `prefix` exactly when it is `prefix` followed by something. */
  lemma StartsWithConcat(s: string, prefix: string)
    ensures StartsWith(s, prefix) <==> exists rest :: s == prefix + rest
  {
    if StartsWith(s, prefix) {
      assert s == prefix + s[|prefix|..];
    }
  }

  /** `s.split(sep)` for a one-character separator: the fields between separators, empty ones included. */
  function Split(s: string, sep: char): (fields: seq<string>)
    ensures |fields| >= 1
    ensures |fields| == 1 <==> sep !in s
    ensures forall i :: 0 <= i < |fields| ==> sep !in fields[i]
    decreases |s|
  {
    if s == [] then [[]]
    else
      var rest := Split(s[1..], sep);
      assert sep in s <==> s[0] == sep || sep in s[1..];
      if s[0] == sep then [[]] + rest
      else [[s[0]] + rest[0]] + rest[1..]
  }

  /** `fields.join(sep)`. */
  function Join(fields: seq<string>, sep: char): string
    requires |fields| >= 1
  {
    if |fields| == 1 then fields[0] else fields[0] + [sep] + Join(fields[1..], sep)
  }

  /** Joining the fields of a split with the same separator gives back the string. */
  lemma {:induction false} JoinSplit(s: string, sep: char)
    ensures Join(Split(s, sep), sep) == s
    decreases |s|
  {
    if s != [] {
      var rest := Split(s[1..], sep);
      JoinSplit(s[1..], sep);
      if s[0] == sep {
        assert Split(s, sep)[1..] == rest;
      } else if |rest| > 1 {
        assert Split(s, sep)[1..] == rest[1..];
      }
    }
  }

  /** A separator-free field followed by the separator is split off as the first field. */
  lemma {:induction false} SplitAfterField(field: string, sep: char, tail: string)
    requires sep !in field
    ensures Split(field + [sep] + tail, sep) == [field] + Split(tail, sep)
    decreases |field|
  {
    var s := field + [sep] + tail;
    if field == [] {
      assert s[1..] == tail;
    } else {
      assert s[1..] == field[1..] + [sep] + tail;
      SplitAfterField(field[1..], sep, tail);
      assert [s[0]] + field[1..] == field;
    }
  }

  predicate IsDigit(c: char)
  {
    '0' <= c <= '9'
  }

  predicate AllDigits(s: string)
  {
    forall i :: 0 <= i < |s| ==> IsDigit(s[i])
  }

  function DigitChar(d: nat): char
    requires d < 10
  {
    ('0' as int + d) as char
  }

  /** The decimal digits of a natural number, without leading zeros. */
  function Digits(n: nat): (s: string)
    ensures |s| >= 1 && AllDigits(s)
    ensures n > 0 ==> s[0] != '0'
  {
    if n < 10 then [DigitChar(n)] else Digits(n / 10) + [DigitChar(n % 10)]
  }

  /** `String(n)` for an integer: its decimal digits, after a minus sign when negative. */
  function Decimal(n: int): (s: string)
    ensures |s| >= 1
    ensures s[0] == '-' <==> n < 0
    ensures n >= 0 ==> AllDigits(s)
    ensures n < 0 ==> AllDigits(s[1..])
  {
    if n < 0 then "-" + Digits(-n) else Digits(n)
  }

  /** The value of a string of decimal digits (leading zeros allowed; the empty string is 0). */
  function DigitsValue(s: string): nat
    requires AllDigits(s)
  {
    if s == [] then 0 else DigitsValue(s[..|s| - 1]) * 10 + (s[|s| - 1] as int - '0' as int)
  }

  /** `Number(s)` for the strings this model parses: a (possibly empty) digit string. */
  function NumberValue(s: string): (r: Option<nat>)
    ensures r.Some? <==> AllDigits(s)
    ensures r.Some? ==> r.value == DigitsValue(s)
    ensures s == "" ==> r == Some(0)
  {
    if AllDigits(s) then Some(DigitsValue(s)) else None
  }

  /** Reading back the digits of `n` gives `n`. */
  lemma {:induction false} DigitsValueOfDigits(n: nat)
    ensures DigitsValue(Digits(n)) == n
  {
    if n >= 10 {
      var s := Digits(n);
      assert s[..|s| - 1] == Digits(n / 10);
      DigitsValueOfDigits(n / 10);
    }
  }

  /** Different integers render differently. */
  lemma DecimalInjective(a: int, b: int)
    requires Decimal(a) == Decimal(b)
    ensures a == b
  {
    if a < 0 {
      assert Decimal(a)[1..] == Digits(-a) && Decimal(b)[1..] == Digits(-b);
      DigitsValueOfDigits(-a);
      DigitsValueOfDigits(-b);
    } else {
      DigitsValueOfDigits(a);
      DigitsValueOfDigits(b);
    }
  }

  /** A string that starts with `p + x` continues, after `p`, with `x`. */
  lemma StartsWithRest(s: string, p: string, x: string)
    requires StartsWith(s, p + x)
    ensures StartsWith(s, p) && StartsWith(s[|p|..], x)
  {
    assert s[..|p|] == (p + x)[..|p|];
    assert s[|p|..][..|x|] == s[..|p + x|][|p|..];
  }

  /** What `StartsWith(s, field + [sep])` says position by position. */
  lemma TerminatedPrefixAt(s: string, field: string, sep: char)
    requires StartsWith(s, field + [sep])
    ensures |field| < |s| && s[|field|] == sep
    ensures forall i :: 0 <= i < |field| ==> s[i] == field[i]
  {
    assert s[|field|] == (field + [sep])[|field|];
    forall i | 0 <= i < |field| ensures s[i] == field[i] {
      assert s[i] == (field + [sep])[i];
    }
  }

  /** Of two separator-free strings, at most one can stand, followed by the separator, at the start of `s`. */
  lemma TerminatedPrefixUnique(s: string, a: string, b: string, sep: char)
    requires sep !in a && sep !in b
    requires StartsWith(s, a + [sep]) && StartsWith(s, b + [sep])
    ensures a == b
  {
    TerminatedPrefixAt(s, a, sep);
    TerminatedPrefixAt(s, b, sep);
    assert |a| == |b|;
  }
}
