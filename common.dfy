/** Shared vocabulary of the model: an optional value, digit-only integer
    parsing and rendering, and the handful of Python string operations the
    integration relies on (`split`, `in`, `lower`, `replace(' ', '_')`). */
module Common {

  datatype Option<+T> = None | Some(value: T) {
    function GetOr(default: T): T {
      match this
      case Some(v) => v
      case None => default
    }
  }

  // ---------------------------------------------------------------------
  // Digits

  predicate IsDigit(c: char) { '0' <= c <= '9' }

  predicate AllDigits(s: string) { forall i :: 0 <= i < |s| ==> IsDigit(s[i]) }

  function DigitValue(c: char): nat requires IsDigit(c) { (c as int - '0' as int) as nat }

  function DigitChar(d: nat): (c: char)
    requires d < 10
    ensures IsDigit(c) && DigitValue(c) == d
  {
    ('0' as int + d) as char
  }

  /** Value of a non-empty digit string, most significant digit first. */
  function DigitsValue(s: string): nat
    requires AllDigits(s)
    decreases |s|
  {
    if |s| == 0 then 0 else DigitsValue(s[..|s| - 1]) * 10 + DigitValue(s[|s| - 1])
  }

  /** Plain decimal digits: the empty string and any other character are
      a parse failure. This is narrower than Python's `int(s)`, which also
      takes surrounding blanks and a sign; text the integration reads with
      `int()` goes through `ParseInt(Strip(s))` instead. */
  function ParseNat(s: string): (r: Option<nat>)
    ensures r.Some? <==> (|s| > 0 && AllDigits(s))
  {
    if |s| > 0 && AllDigits(s) then Some(DigitsValue(s)) else None
  }

  /** `int(s)` for text already stripped of blanks: an optional sign and
      plain decimal digits (Python's digit-group underscores are not
      accepted here). */
  function ParseInt(s: string): (r: Option<int>)
    ensures r.Some? ==> |s| > 0
    ensures AllDigits(s) && |s| > 0 ==> r.Some? && r.value >= 0
  {
    if |s| > 0 && (s[0] == '-' || s[0] == '+') then
      match ParseNat(s[1..])
      case None => None
      case Some(n) => Some(if s[0] == '-' then 0 - n else n as int)
    else
      match ParseNat(s)
      case None => None
      case Some(n) => Some(n)
  }

  /** `str(n)` for any integer. */
  function IntToString(n: int): string {
    if n < 0 then "-" + NatToString(-n) else NatToString(n)
  }

  /** Decimal rendering of a natural number, as `str(n)` renders it. */
  function NatToString(n: nat): (s: string)
    ensures |s| > 0 && AllDigits(s)
    decreases n
  {
    if n < 10 then [DigitChar(n)] else NatToString(n / 10) + [DigitChar(n % 10)]
  }

  lemma {:induction false} NatToStringRoundTrip(n: nat)
    ensures ParseNat(NatToString(n)) == Some(n)
    ensures DigitsValue(NatToString(n)) == n
    decreases n
  {
    var s := NatToString(n);
    if n < 10 {
      assert s[..|s| - 1] == [];
      assert DigitsValue(s) == DigitValue(s[0]);
    } else {
      NatToStringRoundTrip(n / 10);
      assert s[..|s| - 1] == NatToString(n / 10);
    }
  }

  /** `f"{n:02d}"`: at least two digits, zero-padded on the left. */
  function Pad2(n: nat): (s: string)
    ensures |s| >= 2 && AllDigits(s)
    ensures n < 100 ==> |s| == 2
  {
    if n < 10 then ['0', DigitChar(n)]
    else
      assert NatToString(n) == NatToString(n / 10) + [DigitChar(n % 10)];
      NatToString(n)
  }

  lemma Pad2RoundTrip(n: nat)
    ensures ParseNat(Pad2(n)) == Some(n)
  {
    if n < 10 {
      var s := Pad2(n);
      assert s[..1] == ['0'];
      assert DigitsValue(s[..1]) == 0 by { assert s[..1][..0] == []; }
    } else {
      NatToStringRoundTrip(n);
    }
  }

  // ---------------------------------------------------------------------
  // Strings

  /** `s.split(sep)` for a non-empty separator: scans left to right and
      cuts at every non-overlapping occurrence. */
  function Split(s: string, sep: string): (parts: seq<string>)
    requires |sep| > 0
    ensures |parts| >= 1
    decreases |s|
  {
    if |s| < |sep| then [s]
    else if s[..|sep|] == sep then [""] + Split(s[|sep|..], sep)
    else
      var rest := Split(s[1..], sep);
      [[s[0]] + rest[0]] + rest[1..]
  }

  /** No occurrence of `sep` can start inside `a`, even one running on
      into a following `sep`: either its first character is absent from
      `a`, or its second character is absent and differs from the first. */
  predicate NoStartIn(a: string, sep: string) {
    |sep| > 0 && (sep[0] !in a || (|sep| >= 2 && sep[1] !in a && sep[0] != sep[1]))
  }

  /** Splitting text whose leading field cannot hold the start of a
      separator peels that field off. */
  lemma {:induction false} SplitAfter(a: string, sep: string, rest: string)
    requires NoStartIn(a, sep)
    ensures Split(a + sep + rest, sep) == [a] + Split(rest, sep)
    decreases |a|
  {
    var s := a + sep + rest;
    if |a| == 0 {
      assert s[..|sep|] == sep;
      assert s[|sep|..] == rest;
    } else {
      assert a[0] in a && s[0] == a[0];
      assert s[..|sep|] != sep by {
        if sep[0] in a {
          if |a| >= 2 {
            assert a[1] in a;
            assert s[..|sep|][1] == a[1];
          } else {
            assert s[..|sep|][1] == sep[0];
          }
        }
      }
      assert s[1..] == a[1..] + sep + rest;
      assert forall x :: x in a[1..] ==> x in a;
      SplitAfter(a[1..], sep, rest);
      assert [s[0]] + a[1..] == a;
    }
  }

  /** The first field of `a + t` begins with all of `a` when the
      separator cannot start inside `a`. */
  lemma {:induction false} SplitFirstPrefix(a: string, t: string, sep: string)
    requires |sep| > 0 && sep[0] !in a
    ensures Split(a + t, sep)[0] == a + Split(t, sep)[0]
    decreases |a|
  {
    if |a| == 0 {
      assert a + t == t;
    } else if |a + t| < |sep| {
      assert Split(t, sep) == [t];
    } else {
      var s := a + t;
      assert s[..|sep|] != sep by {
        assert a[0] in a;
        assert s[..|sep|][0] == a[0];
      }
      var rest := Split(s[1..], sep);
      assert Split(s, sep)[0] == [s[0]] + rest[0];
      assert s[1..] == a[1..] + t;
      assert forall x :: x in a[1..] ==> x in a;
      SplitFirstPrefix(a[1..], t, sep);
      assert [a[0]] + a[1..] == a;
    }
  }

  /** A string in which the separator cannot start splits into itself alone. */
  lemma {:induction false} SplitNoSeparator(a: string, sep: string)
    requires |sep| > 0 && sep[0] !in a
    ensures Split(a, sep) == [a]
    decreases |a|
  {
    if |a| >= |sep| {
      assert a[0] in a;
      assert a[..|sep|] != sep by { assert a[..|sep|][0] == a[0]; }
      SplitNoSeparator(a[1..], sep);
      assert [a[0]] + a[1..] == a;
    }
  }

  /** Python's `sub in s`. */
  predicate Contains(s: string, sub: string)
    decreases |s|
  {
    if |s| < |sub| then false else s[..|sub|] == sub || Contains(s[1..], sub)
  }

  lemma {:induction false} ContainsAt(s: string, sub: string, i: nat)
    requires i + |sub| <= |s| && s[i..i + |sub|] == sub
    ensures Contains(s, sub)
    decreases i
  {
    if i > 0 {
      assert s[1..][i - 1..i - 1 + |sub|] == sub;
      ContainsAt(s[1..], sub, i - 1);
    }
  }

  /** A text lacking one of the characters of `sub` does not contain it. */
  lemma {:induction false} MissingCharNotContained(s: string, sub: string, c: char)
    requires c in sub && c !in s
    ensures !Contains(s, sub)
    decreases |s|
  {
    if |s| >= |sub| {
      assert s[..|sub|] != sub by {
        var k :| 0 <= k < |sub| && sub[k] == c;
        assert s[..|sub|][k] == s[k];
      }
      assert forall x :: x in s[1..] ==> x in s;
      MissingCharNotContained(s[1..], sub, c);
    }
  }

  /** The blanks `str.strip()` removes (the ASCII ones). */
  predicate IsSpace(c: char) {
    c == ' ' || c == '\t' || c == '\n' || c == '\r' || c == '\U{000B}' || c == '\U{000C}'
  }

  function StripLeft(s: string): (r: string)
    ensures |r| <= |s|
    ensures |r| > 0 ==> !IsSpace(r[0])
    decreases |s|
  {
    if |s| > 0 && IsSpace(s[0]) then StripLeft(s[1..]) else s
  }

  function StripRight(s: string): (r: string)
    ensures |r| <= |s|
    ensures |r| > 0 ==> r[0] == s[0] && !IsSpace(r[|r| - 1])
    decreases |s|
  {
    if |s| > 0 && IsSpace(s[|s| - 1]) then StripRight(s[..|s| - 1]) else s
  }

  /** `s.strip()`: the text without leading and trailing blanks. */
  function Strip(s: string): (r: string)
    ensures |r| <= |s|
    ensures |r| > 0 ==> !IsSpace(r[0]) && !IsSpace(r[|r| - 1])
  {
    StripRight(StripLeft(s))
  }

  /** Text with no blank at either end is left as it is. */
  lemma StripTrimmed(s: string)
    requires |s| > 0 ==> !IsSpace(s[0]) && !IsSpace(s[|s| - 1])
    ensures Strip(s) == s
  {
  }

  /** A non-empty run of digits has no blank to strip and reads as its
      value. */
  lemma DigitsParse(s: string)
    requires |s| > 0 && AllDigits(s)
    ensures Strip(s) == s
    ensures ParseInt(s) == Some(DigitsValue(s))
  {
    assert IsDigit(s[0]) && IsDigit(s[|s| - 1]);
    StripTrimmed(s);
  }

  /** A minus sign before a run of digits reads as the negated value. */
  lemma NegativeDigitsParse(v: string)
    requires |v| > 0 && AllDigits(v)
    ensures ParseInt(Strip("-" + v)) == Some(-(DigitsValue(v) as int))
  {
    var w := "-" + v;
    assert Strip(w) == w by {
      assert IsDigit(w[|w| - 1]);
      StripTrimmed(w);
    }
    assert ParseNat(w[1..]) == Some(DigitsValue(v)) by {
      assert w[1..] == v;
      DigitsParse(v);
    }
    MinusParse(w, DigitsValue(v));
  }

  /** A leading minus before what `ParseNat` reads negates it. */
  lemma MinusParse(w: string, n: nat)
    requires |w| > 0 && w[0] == '-' && ParseNat(w[1..]) == Some(n)
    ensures ParseInt(w) == Some(-(n as int))
  {
  }

  /** A zero-padded field reads back, through `int()`, as its number. */
  lemma Pad2Parses(n: nat)
    ensures ParseInt(Strip(Pad2(n))) == Some(n)
  {
    Pad2RoundTrip(n);
    DigitsParse(Pad2(n));
  }

  /** A decimal rendering has no blank to strip and reads back as its
      number. */
  lemma NatToStringParses(n: nat)
    ensures Strip(NatToString(n)) == NatToString(n)
    ensures ParseInt(NatToString(n)) == Some(n)
  {
    NatToStringRoundTrip(n);
    DigitsParse(NatToString(n));
  }

  /** `str.lower()` over ASCII letters; other characters are kept. */
  function LowerChar(c: char): char {
    if 'A' <= c <= 'Z' then (c as int + 32) as char else c
  }

  function Lower(s: string): (r: string)
    ensures |r| == |s|
    ensures forall i :: 0 <= i < |s| ==> r[i] == LowerChar(s[i])
  {
    seq(|s|, i requires 0 <= i < |s| => LowerChar(s[i]))
  }

  /** `s.replace(' ', '_')`. */
  function ReplaceSpaces(s: string): (r: string)
    ensures |r| == |s|
    ensures forall i :: 0 <= i < |s| ==> r[i] == (if s[i] == ' ' then '_' else s[i])
  {
    seq(|s|, i requires 0 <= i < |s| => if s[i] == ' ' then '_' else s[i])
  }
}
