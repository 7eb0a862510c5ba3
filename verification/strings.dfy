/** The small part of Python 2's byte-string behaviour that the sections
    extension relies on: `lower`, `strip`, `split(' ')`, `' '.join`,
    `str(int)` and `int(str)`. Only ASCII characters are given a meaning. */
module Strings {

  datatype Option<T> = None | Some(value: T)

  /** Python 2's whitespace bytes: space, tab, LF, VT, FF, CR. Unicode strings
      also count U+001C-U+001F and other code points; those are not modelled. */
  predicate IsSpace(c: char) {
    c == ' ' || 9 <= c as int <= 13
  }

  predicate IsDigit(c: char) {
    '0' <= c <= '9'
  }

  predicate AllDigits(s: string) {
    forall i :: 0 <= i < |s| ==> IsDigit(s[i])
  }

  /* ---------------------------------------------------------------- lower */

  function LowerChar(c: char): char {
    if 'A' <= c <= 'Z' then (c as int + 32) as char else c
  }

  /** `s.lower()` restricted to ASCII letters. */
  function Lower(s: string): (r: string)
    ensures |r| == |s|
    ensures forall i :: 0 <= i < |s| ==> r[i] == LowerChar(s[i])
    ensures forall i :: 0 <= i < |r| ==> !('A' <= r[i] <= 'Z')
  {
    seq(|s|, i requires 0 <= i < |s| => LowerChar(s[i]))
  }

  lemma LowerIdempotent(s: string)
    ensures Lower(Lower(s)) == Lower(s)
  {
  }

  /* ---------------------------------------------------------------- strip */

  /** Drops leading whitespace: the result is a suffix of `s` that is empty
      or starts with a non-space character. */
  function StripLeft(s: string): (r: string)
    ensures |r| <= |s| && r == s[|s| - |r|..]
    ensures |r| > 0 ==> !IsSpace(r[0])
  {
    if |s| > 0 && IsSpace(s[0]) then StripLeft(s[1..]) else s
  }

  /** Only whitespace is dropped on the left. */
  lemma {:induction false} StripLeftSpaces(s: string)
    ensures forall i :: 0 <= i < |s| - |StripLeft(s)| ==> IsSpace(s[i])
  {
    if |s| > 0 && IsSpace(s[0]) {
      StripLeftSpaces(s[1..]);
      forall i | 0 <= i < |s| - |StripLeft(s)|
        ensures IsSpace(s[i])
      {
        if i > 0 {
          assert s[i] == s[1..][i - 1];
        }
      }
    }
  }

  /** Drops trailing whitespace: the result is a prefix of `s` that is empty
      or ends with a non-space character. */
  function StripRight(s: string): (r: string)
    ensures |r| <= |s| && r == s[..|r|]
    ensures |r| > 0 ==> !IsSpace(r[|r| - 1])
  {
    if |s| > 0 && IsSpace(s[|s| - 1]) then StripRight(s[..|s| - 1]) else s
  }

  /** Only whitespace is dropped on the right. */
  lemma {:induction false} StripRightSpaces(s: string)
    ensures forall i :: |StripRight(s)| <= i < |s| ==> IsSpace(s[i])
  {
    if |s| > 0 && IsSpace(s[|s| - 1]) {
      StripRightSpaces(s[..|s| - 1]);
      forall i | |StripRight(s)| <= i < |s|
        ensures IsSpace(s[i])
      {
        if i < |s| - 1 {
          assert s[i] == s[..|s| - 1][i];
        }
      }
    }
  }

  /** How many whitespace characters open `s`. */
  function LeadingSpaces(s: string): (n: nat)
    ensures n <= |s|
  {
    |s| - |StripLeft(s)|
  }

  /** `s.strip()`: no longer than `s`, with no whitespace at either end. */
  function Strip(s: string): (r: string)
    ensures |r| <= |s|
    ensures |r| > 0 ==> !IsSpace(r[0]) && !IsSpace(r[|r| - 1])
  {
    StripRight(StripLeft(s))
  }

  /** `strip` keeps the infix of `s` after its leading whitespace and removes
      nothing but whitespace, from both ends. */
  lemma StripSpaces(s: string)
    ensures var i := LeadingSpaces(s);
            && i + |Strip(s)| <= |s| && Strip(s) == s[i..i + |Strip(s)|]
            && (forall k :: 0 <= k < i ==> IsSpace(s[k]))
            && (forall k :: i + |Strip(s)| <= k < |s| ==> IsSpace(s[k]))
  {
    var l := StripLeft(s);
    var r := StripRight(l);
    var i := |s| - |l|;
    assert Strip(s) == r && LeadingSpaces(s) == i;
    StripLeftSpaces(s);
    StripRightSpaces(l);
    Infix(s, l, r, i);
    SpacesShift(s, l, i, |r|);
  }

  /** Whitespace at the end of the suffix `l` of `s` is whitespace of `s`. */
  lemma SpacesShift(s: string, l: string, i: nat, j: nat)
    requires i <= |s| && l == s[i..]
    requires forall k :: j <= k < |l| ==> IsSpace(l[k])
    ensures forall k :: i + j <= k < |s| ==> IsSpace(s[k])
  {
    forall k | i + j <= k < |s|
      ensures IsSpace(s[k])
    {
      assert s[k] == l[k - i];
    }
  }

  /** A prefix of the suffix of `s` from `i` is the infix of `s` from `i`. */
  lemma Infix(s: string, l: string, r: string, i: nat)
    requires i <= |s| && l == s[i..] && |r| <= |l| && r == l[..|r|]
    ensures i + |r| <= |s| && r == s[i..i + |r|]
    ensures forall k :: i <= k < |s| ==> s[k] == l[k - i]
  {
  }

  /** A string with no whitespace at its ends is left unchanged by `strip`. */
  lemma StripUnchanged(s: string)
    requires |s| > 0 ==> !IsSpace(s[0]) && !IsSpace(s[|s| - 1])
    ensures Strip(s) == s
  {
  }

  /* ------------------------------------------------------ split and join */

  /** `s.split(' ')`: cuts at every single space, keeping empty pieces, so
      the result is never empty (`''.split(' ') == ['']`). */
  function Split(s: string): (r: seq<string>)
    ensures |r| >= 1
  {
    if |s| == 0 then [""]
    else
      var rest := Split(s[1..]);
      if s[0] == ' ' then [""] + rest
      else [[s[0]] + rest[0]] + rest[1..]
  }

  /** No piece of a split contains the separator. */
  lemma {:induction false} SplitNoSpace(s: string)
    ensures forall k :: 0 <= k < |Split(s)| ==> ' ' !in Split(s)[k]
  {
    if |s| > 0 {
      SplitNoSpace(s[1..]);
    }
  }

  /** `' '.join(ts)`. */
  function Join(ts: seq<string>): string
  {
    if |ts| == 0 then ""
    else if |ts| == 1 then ts[0]
    else ts[0] + " " + Join(ts[1..])
  }

  /** Joining the pieces of a split gives back the original string. */
  lemma {:induction false} JoinSplit(s: string)
    ensures Join(Split(s)) == s
  {
    if |s| > 0 {
      JoinSplit(s[1..]);
      var rest := Split(s[1..]);
      if s[0] == ' ' {
        assert s == [' '] + s[1..];
      } else {
        if |rest| == 1 {
          assert Split(s) == [[s[0]] + rest[0]];
        } else {
          assert Split(s)[1..] == rest[1..];
          assert s == [s[0]] + s[1..];
        }
      }
    }
  }

  /** Splitting a string that starts with a space-free word `t`. */
  lemma {:induction false} SplitWord(t: string, rest: string)
    requires ' ' !in t
    ensures Split(t + rest) == [t + Split(rest)[0]] + Split(rest)[1..]
  {
    if |t| > 0 {
      SplitWord(t[1..], rest);
      assert t[0] in t;
      assert (t + rest)[1..] == t[1..] + rest;
      var tail := Split(t[1..] + rest);
      assert tail[0] == t[1..] + Split(rest)[0];
      assert tail[1..] == Split(rest)[1..];
      assert [t[0]] + tail[0] == t + Split(rest)[0];
    } else {
      assert t + rest == rest;
      assert t + Split(rest)[0] == Split(rest)[0];
    }
  }

  /** A leading space starts a new, empty piece. */
  lemma SplitSpaceFirst(t: string)
    ensures Split(" " + t) == [""] + Split(t)
  {
    assert (" " + t)[1..] == t;
  }

  /** Splitting a join of space-free words gives back the words. */
  lemma {:induction false} SplitJoin(ts: seq<string>)
    requires |ts| >= 1
    requires forall k :: 0 <= k < |ts| ==> ' ' !in ts[k]
    ensures Split(Join(ts)) == ts
  {
    if |ts| == 1 {
      SplitWord(ts[0], "");
      assert ts[0] + "" == ts[0];
    } else {
      SplitJoin(ts[1..]);
      var u := Join(ts[1..]);
      assert Split(" " + u) == [""] + Split(u) by {
        assert (" " + u)[1..] == u;
      }
      SplitWord(ts[0], " " + u);
      assert ts[0] + " " + u == ts[0] + (" " + u);
      assert ts[0] + "" == ts[0];
    }
  }

  /* ---------------------------------------------------- integers as text */

  function DigitChar(d: nat): char
    requires d < 10
  {
    ('0' as int + d) as char
  }

  function DigitVal(c: char): nat
    requires IsDigit(c)
  {
    c as int - '0' as int
  }

  /** `str(n)` for a non-negative integer: decimal digits, no leading zero. */
  function NatToString(n: nat): (r: string)
    ensures |r| > 0
  {
    if n < 10 then [DigitChar(n)] else NatToString(n / 10) + [DigitChar(n % 10)]
  }

  lemma {:induction false} NatToStringDigits(n: nat)
    ensures var r := NatToString(n); AllDigits(r) && (|r| > 1 ==> r[0] != '0')
  {
    if n >= 10 {
      NatToStringDigits(n / 10);
      var r := NatToString(n);
      var p := NatToString(n / 10);
      assert r == p + [DigitChar(n % 10)];
      assert forall i :: 0 <= i < |p| ==> r[i] == p[i];
    }
  }

  /** `str(n)` / `'%d' % n` for any integer. */
  function IntToString(n: int): (r: string)
    ensures |r| > 0
  {
    if n < 0 then "-" + NatToString(-n) else NatToString(n)
  }

  /** `str(n)` is a minus sign or digits, so it has no whitespace. */
  lemma IntToStringChars(n: int)
    ensures var r := IntToString(n);
            && !IsSpace(r[0]) && !IsSpace(r[|r| - 1])
            && forall k :: 0 <= k < |r| ==> r[k] == '-' || IsDigit(r[k])
  {
    var r := IntToString(n);
    if n < 0 {
      var d := NatToString(-n);
      NatToStringDigits(-n);
      assert r == "-" + d;
      assert forall k :: 1 <= k < |r| ==> r[k] == d[k - 1];
    } else {
      NatToStringDigits(n);
    }
  }

  /** The value of a string of decimal digits (leading zeros allowed). */
  function ParseNat(s: string): nat
    requires AllDigits(s)
  {
    if |s| == 0 then 0 else ParseNat(s[..|s| - 1]) * 10 + DigitVal(s[|s| - 1])
  }

  /** `int(s)` in base 10: surrounding whitespace is ignored, one optional
      sign, then at least one digit; anything else raises ValueError, which
      is `None` here. */
  function ParseInt(s: string): Option<int>
  {
    var t := Strip(s);
    if |t| > 0 && (t[0] == '-' || t[0] == '+') then
      if |t| > 1 && AllDigits(t[1..]) then
        var v: int := ParseNat(t[1..]);
        Some(if t[0] == '-' then -v else v)
      else None
    else if |t| > 0 && AllDigits(t) then Some(ParseNat(t))
    else None
  }

  /** A string that starts with neither whitespace, a sign nor a digit is
      not a number. */
  lemma ParseIntRejects(s: string)
    requires |s| > 0 && !IsSpace(s[0]) && !IsSpace(s[|s| - 1])
    requires s[0] != '-' && s[0] != '+' && !IsDigit(s[0])
    ensures ParseInt(s) == None
  {
    var t := Strip(s);
    assert t == s by { StripUnchanged(s); }
    assert !IsDigit(t[0]);
    assert !(|t| > 0 && (t[0] == '-' || t[0] == '+'));
    assert !(|t| > 0 && AllDigits(t));
  }

  lemma {:induction false} ParseNatToString(n: nat)
    ensures AllDigits(NatToString(n)) && ParseNat(NatToString(n)) == n
  {
    NatToStringDigits(n);
    if n >= 10 {
      ParseNatToString(n / 10);
      var s := NatToString(n);
      assert s[..|s| - 1] == NatToString(n / 10);
    }
  }

  /** `int(str(n)) == n`. */
  lemma ParseIntToString(n: int)
    ensures ParseInt(IntToString(n)) == Some(n)
  {
    if n < 0 {
      ParseNegative(n, IntToString(n), NatToString(-n));
    } else {
      ParseNonNegative(n, IntToString(n));
    }
  }

  lemma ParseNegative(n: int, s: string, digits: string)
    requires n < 0 && s == IntToString(n) && digits == NatToString(-n)
    ensures ParseInt(s) == Some(n)
  {
    IntToStringChars(n);
    StripUnchanged(s);
    assert s == "-" + digits;
    assert s[1..] == digits;
    ParseNatToString(-n);
    ParseMinus(s);
  }

  /** A stripped minus sign followed by digits parses as the negated number. */
  lemma ParseMinus(t: string)
    requires |t| > 1 && t[0] == '-' && AllDigits(t[1..])
    ensures ParseInt(t) == Some(-(ParseNat(t[1..]) as int))
  {
    var digits := t[1..];
    assert t[|t| - 1] == digits[|digits| - 1];
    StripUnchanged(t);
  }

  lemma ParseNonNegative(n: int, s: string)
    requires n >= 0 && s == IntToString(n)
    ensures ParseInt(s) == Some(n)
  {
    IntToStringChars(n);
    StripUnchanged(s);
    assert s == NatToString(n);
    ParseNatToString(n);
  }

  /** Distinct integers print differently. */
  lemma IntToStringInjective(m: int, n: int)
    requires IntToString(m) == IntToString(n)
    ensures m == n
  {
    ParseIntToString(m);
    ParseIntToString(n);
  }
}
