/**
 * The few Python string operations the bot relies on, written out over `seq<char>`:
 * `str(n)` for an int, `int(s)`, `s.split(sep)` and `"".join`.
 */
module PyStr {
  import opened Wrappers

  predicate IsDigit(c: char) { '0' <= c <= '9' }

  predicate IsDigits(s: string) { forall i :: 0 <= i < |s| ==> IsDigit(s[i]) }

  function DigitChar(d: nat): (c: char)
    requires d < 10
    ensures IsDigit(c) && c as int - '0' as int == d
  {
    ('0' as int + d) as char
  }

  /**
   * Python's `str(n)` (and the `{n}` of an f-string) for an int: a minus sign
   * for a negative number, then the decimal digits, most significant first.
   */
  function IntToString(n: int): (s: string)
    ensures |s| > 0
    ensures n >= 0 ==> IsDigits(s)
    ensures n < 0 <==> s[0] == '-'
    decreases if n < 0 then 1 - n else n
  {
    if n < 0 then
      var t := IntToString(-n);
      assert ("-" + t)[1..] == t;
      "-" + t
    else if n < 10 then [DigitChar(n)]
    else IntToString(n / 10) + [DigitChar(n % 10)]
  }

  /**
   * `str(n)` holds no character other than digits and a leading minus sign, so
   * it never contains the separators the callback data and URLs use.
   */
  lemma IntToStringWithout(n: int, c: char)
    requires !IsDigit(c) && c != '-'
    ensures c !in IntToString(n)
  {
    var s := IntToString(n);
    if n < 0 {
      assert s == "-" + IntToString(-n);
    }
  }

  /** `str(n)` never contains the separator the callback data uses. */
  lemma IntToStringNoUnderscore(n: int)
    ensures '_' !in IntToString(n)
  {
    IntToStringWithout(n, '_');
  }

  /** The value of a string of decimal digits, leading zeros allowed. */
  function DigitsValue(s: string): nat
    requires IsDigits(s)
  {
    if s == [] then 0 else DigitsValue(s[..|s| - 1]) * 10 + (s[|s| - 1] as int - '0' as int)
  }

  /**
   * Python's `int(s)` on an optional minus sign followed by ASCII digits.
   * `None` is the `ValueError` that `int` raises on anything else.
   */
  function ParseInt(s: string): (r: Option<int>)
    ensures r.Some? <==> |s| > 0 && (IsDigits(s) || (|s| > 1 && s[0] == '-' && IsDigits(s[1..])))
    ensures r.Some? && r.value < 0 ==> s[0] == '-'
    ensures IsDigits(s) && s != [] ==> r == Some(DigitsValue(s))
    ensures |s| > 1 && s[0] == '-' && IsDigits(s[1..]) ==> r == Some(-(DigitsValue(s[1..]) as int))
  {
    if |s| > 1 && s[0] == '-' && IsDigits(s[1..]) then Some(-(DigitsValue(s[1..]) as int))
    else if |s| > 0 && IsDigits(s) then Some(DigitsValue(s))
    else None
  }

  lemma {:induction false} NatRoundTrip(n: nat)
    ensures DigitsValue(IntToString(n)) == n
  {
    if n >= 10 {
      var s := IntToString(n);
      assert s[..|s| - 1] == IntToString(n / 10);
      NatRoundTrip(n / 10);
    }
  }

  /** `int(str(n)) == n` for every int. */
  lemma IntRoundTrip(n: int)
    ensures ParseInt(IntToString(n)) == Some(n)
  {
    var s := IntToString(n);
    if n < 0 {
      var t := IntToString(-n);
      assert s[0] == '-' && s[1..] == t;
      NatRoundTrip(-n);
      assert ParseInt(s) == Some(-(DigitsValue(t) as int));
    } else {
      NatRoundTrip(n);
      assert IsDigit(s[0]);
      assert ParseInt(s) == Some(DigitsValue(s));
    }
  }

  /** Distinct ints print differently, so `str(user.id)` keys never collide. */
  lemma IntToStringInjective(a: int, b: int)
    requires a != b
    ensures IntToString(a) != IntToString(b)
  {
    IntRoundTrip(a);
    IntRoundTrip(b);
  }

  /**
   * Python's `s.split(sep)` for a one-character separator: the maximal
   * separator-free pieces, in order; an empty string gives `[""]`.
   */
  function Split(s: string, sep: char): (parts: seq<string>)
    ensures |parts| >= 1
    ensures forall k :: 0 <= k < |parts| ==> sep !in parts[k]
  {
    if s == [] then [""]
    else
      var rest := Split(s[1..], sep);
      if s[0] == sep then [""] + rest
      else [[s[0]] + rest[0]] + rest[1..]
  }

  /** Python's `sep.join(parts)`: the partner of `Split`. */
  function Join(parts: seq<string>, sep: char): string
    requires |parts| >= 1
  {
    if |parts| == 1 then parts[0] else parts[0] + [sep] + Join(parts[1..], sep)
  }

  /** Splitting loses nothing: joining the pieces gives back the string. */
  lemma {:induction false} JoinSplit(s: string, sep: char)
    ensures Join(Split(s, sep), sep) == s
  {
    if s != [] {
      JoinSplit(s[1..], sep);
      var rest := Split(s[1..], sep);
      if s[0] == sep {
        assert ([""] + rest)[1..] == rest;
      } else {
        var parts := [[s[0]] + rest[0]] + rest[1..];
        if |rest| > 1 {
          assert parts[1..] == rest[1..];
        }
      }
    }
  }

  /**
   * The second piece of a split starts right after the first separator and
   * runs up to the next separator or the end of the string.
   */
  lemma SplitSecond(s: string, sep: char)
    requires |Split(s, sep)| >= 2
    ensures var parts := Split(s, sep); var i := |parts[0]|;
      && i < |s| && s[i] == sep && s[..i] == parts[0]
      && i + 1 + |parts[1]| <= |s| && s[i + 1..i + 1 + |parts[1]|] == parts[1]
      && (i + 1 + |parts[1]| == |s| || s[i + 1 + |parts[1]|] == sep)
  {
    var parts := Split(s, sep);
    JoinSplit(s, sep);
    var tail := Join(parts[1..], sep);
    assert s == parts[0] + [sep] + tail;
    if |parts| > 2 {
      assert parts[1..][1..] == parts[2..];
      assert tail == parts[1] + [sep] + Join(parts[2..], sep);
    }
  }

  /** A string without the separator is one piece. */
  lemma {:induction false} SplitNoSep(s: string, sep: char)
    requires sep !in s
    ensures Split(s, sep) == [s]
  {
    if s != [] {
      assert s[0] != sep;
      SplitNoSep(s[1..], sep);
      assert [s[0]] + s[1..] == s;
    }
  }

  /** A separator-free prefix followed by the separator is exactly the first piece. */
  lemma {:induction false} SplitAfter(a: string, sep: char, b: string)
    requires sep !in a
    ensures Split(a + [sep] + b, sep) == [a] + Split(b, sep)
  {
    if a == [] {
      assert a + [sep] + b == [sep] + b;
      assert ([sep] + b)[1..] == b;
    } else {
      assert (a + [sep] + b)[1..] == a[1..] + [sep] + b;
      SplitAfter(a[1..], sep, b);
      assert [a[0]] + a[1..] == a;
    }
  }

  /** `"".join(ss)`: the strings one after another. */
  function Concat(ss: seq<string>): (r: string)
    ensures |ss| == 1 ==> r == ss[0]
  {
    if ss == [] then "" else Concat(ss[..|ss| - 1]) + ss[|ss| - 1]
  }

  lemma {:induction false} ConcatAppend(a: seq<string>, b: seq<string>)
    ensures Concat(a + b) == Concat(a) + Concat(b)
    decreases |b|
  {
    if b == [] {
      assert a + b == a;
    } else {
      assert (a + b)[..|a + b| - 1] == a + b[..|b| - 1];
      ConcatAppend(a, b[..|b| - 1]);
    }
  }

  /** One more string at the end of a slice adds it at the end of the concatenation. */
  lemma ConcatExtend(ss: seq<string>, a: nat, b: nat)
    requires a <= b < |ss|
    ensures Concat(ss[a..b + 1]) == Concat(ss[a..b]) + ss[b]
  {
    assert ss[a..b + 1][..b - a] == ss[a..b];
  }

  /** The same after a fixed header, as a loop that starts from the header and appends builds it. */
  lemma HeadedConcatExtend(head: string, ss: seq<string>, b: nat)
    requires b < |ss|
    ensures head + Concat(ss[0..b + 1]) == head + Concat(ss[0..b]) + ss[b]
  {
    ConcatExtend(ss, 0, b);
    assert head + (Concat(ss[0..b]) + ss[b]) == (head + Concat(ss[0..b])) + ss[b];
  }
}
