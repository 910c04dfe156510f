/**
 * Python's `str(n)` for integers, `int(s)` for base-10 text and
 * `s.split(c)`, with the round trips between them.
 */
module Numerals {
  import opened Text

  predicate IsDigit(c: char)
  {
    '0' <= c <= '9'
  }

  function DigitValue(c: char): nat
    requires IsDigit(c)
  {
    c as int - '0' as int
  }

  function DigitChar(d: nat): (c: char)
    requires d < 10
    ensures IsDigit(c) && DigitValue(c) == d
  {
    ('0' as int + d) as char
  }

  function NatToString(n: nat): (s: string)
    decreases n
  {
    if n < 10 then [DigitChar(n)] else NatToString(n / 10) + [DigitChar(n % 10)]
  }

  /** `str(n)`: decimal digits, a leading `-` for negative numbers. */
  function IntToString(n: int): string
  {
    if n < 0 then "-" + NatToString(-n) else NatToString(n)
  }

  // ---------------------------------------------------------------------
  // int(s)

  /**
   * The ASCII characters `str.strip()` and `int()` treat as whitespace:
   * space, tab, line feed, vertical tab, form feed, carriage return and
   * the four separators U+001C..U+001F.
   */
  predicate IsSpace(c: char)
  {
    || c == ' ' || c == '\t' || c == '\n' || c == '\U{000B}' || c == '\U{000C}' || c == '\r'
    || '\U{001C}' <= c <= '\U{001F}'
  }

  function StripLeft(s: string): string
    decreases |s|
  {
    if |s| > 0 && IsSpace(s[0]) then StripLeft(s[1..]) else s
  }

  function StripRight(s: string): string
    decreases |s|
  {
    if |s| > 0 && IsSpace(s[|s| - 1]) then StripRight(s[..|s| - 1]) else s
  }

  function Strip(s: string): string
  {
    StripRight(StripLeft(s))
  }

  /**
   * The digit part `int()` accepts: decimal digits, where a single `_`
   * may stand between two digits.
   */
  predicate DigitRun(d: string)
  {
    && |d| > 0
    && IsDigit(d[0]) && IsDigit(d[|d| - 1])
    && (forall i :: 0 <= i < |d| ==> IsDigit(d[i]) || d[i] == '_')
    && (forall i, j :: 0 <= i < |d| && 0 <= j < |d| && j == i + 1 ==> IsDigit(d[i]) || IsDigit(d[j]))
  }

  /** The number a digit run denotes (underscores carry no value). */
  function RunValue(d: string): nat
    decreases |d|
  {
    if |d| == 0 then 0
    else if IsDigit(d[|d| - 1]) then RunValue(d[..|d| - 1]) * 10 + DigitValue(d[|d| - 1])
    else RunValue(d[..|d| - 1])
  }

  /**
   * `int(s)`: surrounding whitespace is ignored, one optional sign, then a
   * digit run. `None` is the `ValueError` Python raises.
   */
  function ParseInt(s: string): Option<int>
  {
    var t := Strip(s);
    if |t| > 0 && (t[0] == '-' || t[0] == '+') then
      var v: int := RunValue(t[1..]);
      if DigitRun(t[1..]) then Some(if t[0] == '-' then -v else v)
      else None
    else if DigitRun(t) then Some(RunValue(t))
    else None
  }

  // ---------------------------------------------------------------------
  // s.split(c)

  /** `s.split(c)` with an explicit one-character separator. */
  function Split(s: string, c: char): (parts: seq<string>)
    ensures |parts| > 0
    decreases |s|
  {
    if |s| == 0 then [""]
    else
      var rest := Split(s[1..], c);
      if s[0] == c then [""] + rest else [[s[0]] + rest[0]] + rest[1..]
  }

  // ---------------------------------------------------------------------
  // Facts

  lemma {:induction false} NatToStringDigits(n: nat)
    ensures |NatToString(n)| > 0
    ensures forall i :: 0 <= i < |NatToString(n)| ==> IsDigit(NatToString(n)[i])
    decreases n
  {
    if n >= 10 {
      NatToStringDigits(n / 10);
    }
  }

  lemma {:induction false} NatToStringValue(n: nat)
    ensures RunValue(NatToString(n)) == n
    decreases n
  {
    var s := NatToString(n);
    if n >= 10 {
      NatToStringValue(n / 10);
      assert s[..|s| - 1] == NatToString(n / 10);
    }
  }

  /** `str(n)` uses only digits and a leading minus sign. */
  lemma IntToStringChars(n: int)
    ensures forall c :: c in IntToString(n) ==> IsDigit(c) || c == '-'
    ensures |IntToString(n)| > 0
  {
    NatToStringDigits(if n < 0 then -n else n);
  }

  lemma NoSpaceStrip(s: string)
    requires forall i :: 0 <= i < |s| ==> !IsSpace(s[i])
    ensures Strip(s) == s
  {
  }

  lemma AllDigitsRun(d: string)
    requires |d| > 0 && forall i :: 0 <= i < |d| ==> IsDigit(d[i])
    ensures DigitRun(d)
  {
  }

  lemma DigitsStrip(d: string)
    requires forall i :: 0 <= i < |d| ==> IsDigit(d[i])
    ensures Strip(d) == d
  {
    NoSpaceStrip(d);
  }

  lemma ParseUnsigned(t: string)
    requires Strip(t) == t && DigitRun(t)
    ensures ParseInt(t) == Some(RunValue(t) as int)
  {
    assert IsDigit(t[0]);
  }

  lemma ParseMinus(t: string)
    requires Strip(t) == t && |t| > 0 && t[0] == '-' && DigitRun(t[1..])
    ensures ParseInt(t) == Some(-(RunValue(t[1..]) as int))
  {
  }

  lemma ParseNatString(m: nat)
    ensures ParseInt(NatToString(m)) == Some(m as int)
  {
    var s := NatToString(m);
    NatToStringDigits(m);
    NatToStringValue(m);
    AllDigitsRun(s);
    DigitsStrip(s);
    ParseUnsigned(s);
  }

  lemma ParseNegString(m: nat)
    ensures ParseInt("-" + NatToString(m)) == Some(-(m as int))
  {
    var d := NatToString(m);
    var s := "-" + d;
    NatToStringDigits(m);
    NatToStringValue(m);
    AllDigitsRun(d);
    assert s[1..] == d;
    assert forall i :: 0 <= i < |s| ==> !IsSpace(s[i]) by {
      forall i | 0 <= i < |s| ensures !IsSpace(s[i]) {
        if i > 0 {
          assert s[i] == d[i - 1];
        }
      }
    }
    NoSpaceStrip(s);
    ParseMinus(s);
  }

  /** Round trip: `int(str(n)) == n`. */
  lemma ParseIntToString(n: int)
    ensures ParseInt(IntToString(n)) == Some(n)
  {
    if n < 0 {
      assert IntToString(n) == "-" + NatToString(-n);
      ParseNegString(-n);
    } else {
      assert IntToString(n) == NatToString(n);
      ParseNatString(n);
    }
  }

  lemma {:induction false} SplitJoin(s: string, c: char)
    ensures JoinWith(Split(s, c), [c]) == s
    ensures forall k :: 0 <= k < |Split(s, c)| ==> c !in Split(s, c)[k]
    decreases |s|
  {
    if |s| > 0 {
      var rest := Split(s[1..], c);
      SplitJoin(s[1..], c);
      if s[0] == c {
        JoinCons("", rest, [c]);
      } else if |rest| == 1 {
        assert forall k :: 0 <= k < |Split(s, c)| ==> c !in Split(s, c)[k] by {
          assert Split(s, c) == [[s[0]] + rest[0]];
        }
      } else {
        JoinCons(rest[0], rest[1..], [c]);
        assert rest == [rest[0]] + rest[1..];
        JoinCons([s[0]] + rest[0], rest[1..], [c]);
        assert forall k :: 0 <= k < |Split(s, c)| ==> c !in Split(s, c)[k] by {
          assert Split(s, c) == [[s[0]] + rest[0]] + rest[1..];
          forall k | 1 <= k < |Split(s, c)| ensures c !in Split(s, c)[k] {
            assert Split(s, c)[k] == rest[k];
          }
        }
      }
    }
  }

  /** Round trip: splitting a join of separator-free pieces gives the pieces back. */
  lemma {:induction false} JoinSplit(parts: seq<string>, c: char)
    requires |parts| > 0
    requires forall k :: 0 <= k < |parts| ==> c !in parts[k]
    ensures Split(JoinWith(parts, [c]), c) == parts
    decreases |parts|, |parts[0]|
  {
    var s := JoinWith(parts, [c]);
    if |parts| == 1 {
      SplitNoSep(parts[0], c);
    } else if |parts[0]| == 0 {
      JoinCons(parts[0], parts[1..], [c]);
      assert s == [c] + JoinWith(parts[1..], [c]);
      assert s[1..] == JoinWith(parts[1..], [c]);
      JoinSplit(parts[1..], c);
      assert parts == [""] + parts[1..];
    } else {
      var p0 := parts[0];
      var shorter := [p0[1..]] + parts[1..];
      JoinCons(p0, parts[1..], [c]);
      JoinCons(p0[1..], parts[1..], [c]);
      assert s == [p0[0]] + JoinWith(shorter, [c]);
      assert s[1..] == JoinWith(shorter, [c]);
      assert p0[0] in p0;
      assert forall k :: 0 <= k < |shorter| ==> c !in shorter[k] by {
        forall k | 0 <= k < |shorter| ensures c !in shorter[k] {
          if k == 0 {
            assert forall x :: x in p0[1..] ==> x in p0;
          } else {
            assert shorter[k] == parts[k];
          }
        }
      }
      JoinSplit(shorter, c);
      assert [p0[0]] + p0[1..] == p0;
      assert parts == [p0] + parts[1..];
    }
  }

  lemma {:induction false} SplitNoSep(s: string, c: char)
    requires c !in s
    ensures Split(s, c) == [s]
    decreases |s|
  {
    if |s| > 0 {
      assert forall x :: x in s[1..] ==> x in s;
      SplitNoSep(s[1..], c);
      assert s[0] in s;
      assert [s[0]] + s[1..] == s;
    }
  }
}
