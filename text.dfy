/**
 * The few operations of Python's `str` that the report parser and the
 * report cells rely on: `startswith`, `in`, `split`, `partition`, `strip`,
 * `rstrip`, `int()` and `str()` of an integer, and `join`.
 */
module Text {
  import opened Wrappers

  /** `s.startswith(prefix)`. */
  predicate StartsWith(s: string, prefix: string) {
    |prefix| <= |s| && s[..|prefix|] == prefix
  }

  /** `part in s`: `part` occurs somewhere in `s`. */
  predicate Contains(s: string, part: string)
    decreases |s|
  {
    StartsWith(s, part) || (|s| > 0 && Contains(s[1..], part))
  }

  /** A part placed inside a string is found by `in`. */
  lemma {:induction false} ContainsInside(a: string, part: string, b: string)
    ensures Contains(a + part + b, part)
    decreases |a|
  {
    if a == [] {
      assert (a + part + b)[..|part|] == part;
    } else {
      ContainsInside(a[1..], part, b);
      assert (a + part + b)[1..] == a[1..] + part + b;
    }
  }

  /**
   * `s.split(sep)` with an explicit one-character separator: every
   * occurrence cuts, so consecutive separators give empty fields.
   */
  function Split(s: string, sep: char): (fields: seq<string>)
    ensures |fields| >= 1
    decreases |s|
  {
    if s == [] then [""]
    else
      assert s == [s[0]] + s[1..];
      var rest := Split(s[1..], sep);
      if s[0] == sep then [""] + rest
      else [[s[0]] + rest[0]] + rest[1..]
  }

  /** One field more than there are separators. */
  lemma {:induction false} SplitCount(s: string, sep: char)
    ensures |Split(s, sep)| == multiset(s)[sep] + 1
    decreases |s|
  {
    if s != [] {
      SplitCount(s[1..], sep);
      assert s == [s[0]] + s[1..];
    }
  }

  /** `sep.join(parts)`. */
  function Join(parts: seq<string>, sep: string): string
    decreases |parts|
  {
    if parts == [] then ""
    else if |parts| == 1 then parts[0]
    else parts[0] + sep + Join(parts[1..], sep)
  }

  /** Splitting loses nothing: joining the fields back gives the string. */
  lemma {:induction false} JoinSplit(s: string, sep: char)
    ensures Join(Split(s, sep), [sep]) == s
    decreases |s|
  {
    if s != [] {
      var rest := Split(s[1..], sep);
      JoinSplit(s[1..], sep);
      if s[0] == sep {
        assert ([""] + rest)[1..] == rest;
      } else if |rest| > 1 {
        assert ([[s[0]] + rest[0]] + rest[1..])[1..] == rest[1..];
      }
    }
  }

  /** A string without the separator is a single field. */
  lemma {:induction false} SplitWithout(s: string, sep: char)
    requires sep !in s
    ensures Split(s, sep) == [s]
    decreases |s|
  {
    if s != [] {
      SplitWithout(s[1..], sep);
      assert [s[0]] + s[1..] == s;
    }
  }

  /** The first occurrence of the separator ends the first field. */
  lemma {:induction false} SplitAt(a: string, sep: char, b: string)
    requires sep !in a
    ensures Split(a + [sep] + b, sep) == [a] + Split(b, sep)
    decreases |a|
  {
    if a != [] {
      SplitAt(a[1..], sep, b);
      assert (a + [sep] + b)[1..] == a[1..] + [sep] + b;
      assert [a[0]] + a[1..] == a;
    } else {
      assert (a + [sep] + b)[1..] == b;
    }
  }

  /**
   * `s.partition(sep)[2]`: what follows the first occurrence of `sep`,
   * or the empty string when `sep` does not occur.
   */
  function After(s: string, sep: string): string
    decreases |s|
  {
    if StartsWith(s, sep) then s[|sep|..]
    else if s == [] then ""
    else After(s[1..], sep)
  }

  /**
   * `partition` returns the empty string when `sep` is missing, and
   * otherwise a suffix that `sep` immediately precedes.
   */
  lemma {:induction false} AfterSpec(s: string, sep: string)
    ensures |After(s, sep)| <= |s|
    ensures !Contains(s, sep) ==> After(s, sep) == ""
    ensures Contains(s, sep) ==>
      |After(s, sep)| + |sep| <= |s| && s == s[..|s| - |After(s, sep)| - |sep|] + sep + After(s, sep)
    decreases |s|
  {
    var r := After(s, sep);
    if StartsWith(s, sep) {
      assert r == s[|sep|..];
      assert s == s[..|sep|] + r;
    } else if s == [] {
      assert !Contains(s, sep);
    } else {
      var t := s[1..];
      assert After(t, sep) == r;
      assert Contains(s, sep) == Contains(t, sep);
      AfterSpec(t, sep);
      if Contains(t, sep) {
        ShiftSplit(s, sep, r);
      }
    }
  }

  /** A split of `s[1..]` around `sep` extends to a split of `s`. */
  lemma ShiftSplit(s: string, sep: string, r: string)
    requires s != [] && |r| + |sep| <= |s| - 1
    requires s[1..] == s[1..][..|s| - 1 - |r| - |sep|] + sep + r
    ensures s == s[..|s| - |r| - |sep|] + sep + r
  {
    var t := s[1..];
    var a := t[..|t| - |r| - |sep|];
    assert s == [s[0]] + t;
    assert s[..|s| - |r| - |sep|] == [s[0]] + a;
  }

  /**
   * When `sep` does not occur before the one placed after `a` (not even
   * overlapping it), `partition` returns what follows that one.
   */
  lemma {:induction false} AfterFirst(a: string, sep: string, b: string)
    requires sep != [] && !Contains(a + sep[..|sep| - 1], sep)
    ensures After(a + sep + b, sep) == b
    decreases |a|
  {
    var s := a + sep + b;
    if a == [] {
      assert s == sep + b && s[..|sep|] == sep;
    } else {
      var x := a + sep[..|sep| - 1];
      assert x[..|sep|] == s[..|sep|];
      assert !StartsWith(s, sep);
      assert s[1..] == a[1..] + sep + b;
      assert x[1..] == a[1..] + sep[..|sep| - 1];
      AfterFirst(a[1..], sep, b);
    }
  }

  /** `s.rstrip(chars)`: drops trailing characters that are in `chars`. */
  function RStrip(s: string, chars: set<char>): string
    decreases |s|
  {
    if s != [] && s[|s| - 1] in chars then RStrip(s[..|s| - 1], chars) else s
  }

  /** `rstrip` keeps a prefix, ends on a kept character, and drops only `chars`. */
  lemma {:induction false} RStripSpec(s: string, chars: set<char>)
    ensures var r := RStrip(s, chars);
      && |r| <= |s| && r == s[..|r|]
      && (r == [] || r[|r| - 1] !in chars)
      && forall i :: |r| <= i < |s| ==> s[i] in chars
    decreases |s|
  {
    if s != [] && s[|s| - 1] in chars {
      RStripSpec(s[..|s| - 1], chars);
    }
  }

  /** `s.lstrip(chars)`: drops leading characters that are in `chars`. */
  function LStrip(s: string, chars: set<char>): string
    decreases |s|
  {
    if s != [] && s[0] in chars then LStrip(s[1..], chars) else s
  }

  /** `lstrip` keeps a suffix, starts on a kept character, and drops only `chars`. */
  lemma {:induction false} LStripSpec(s: string, chars: set<char>)
    ensures var r := LStrip(s, chars);
      && |r| <= |s| && r == s[|s| - |r|..]
      && (r == [] || r[0] !in chars)
      && forall i :: 0 <= i < |s| - |r| ==> s[i] in chars
    decreases |s|
  {
    if s != [] && s[0] in chars {
      LStripSpec(s[1..], chars);
      var r := LStrip(s[1..], chars);
      assert s[1..][|s[1..]| - |r|..] == s[|s| - |r|..];
    }
  }

  /** `s.strip(chars)`. */
  function Strip(s: string, chars: set<char>): string {
    RStrip(LStrip(s, chars), chars)
  }

  /** Stripping a tail made only of stripped characters leaves the head. */
  lemma {:induction false} RStripTail(head: string, tail: string, chars: set<char>)
    requires head == [] || head[|head| - 1] !in chars
    requires forall c :: c in tail ==> c in chars
    ensures RStrip(head + tail, chars) == head
    decreases |tail|
  {
    var s := head + tail;
    if tail == [] {
      assert s == head;
    } else {
      var front := tail[..|tail| - 1];
      assert s[|s| - 1] == tail[|tail| - 1];
      assert s[..|s| - 1] == head + front;
      RStripTail(head, front, chars);
    }
  }

  /**
   * The ASCII characters Python's `int()` ignores around its digits: the
   * six whitespace characters and the separators `\x1c` to `\x1f`.
   */
  const Whitespace: set<char> := {' ', '\t', '\n', '\r', '\U{0B}', '\U{0C}', '\U{1C}', '\U{1D}', '\U{1E}', '\U{1F}'}

  predicate IsDigit(c: char) {
    '0' <= c <= '9'
  }

  predicate AllDigits(s: string) {
    forall i :: 0 <= i < |s| ==> IsDigit(s[i])
  }

  /** The value of a string of decimal digits. */
  function DigitsValue(s: string): nat
    requires AllDigits(s)
    decreases |s|
  {
    if s == [] then 0 else DigitsValue(s[..|s| - 1]) * 10 + (s[|s| - 1] as int - '0' as int)
  }

  /** A non-empty run of decimal digits, read as a number. */
  function ParseNat(s: string): Option<nat> {
    if s != [] && AllDigits(s) then Some(DigitsValue(s)) else None
  }

  /** Python's `int(s)`: optional surrounding whitespace, optional sign, decimal digits. */
  function ParseInt(s: string): Option<int> {
    var t := Strip(s, Whitespace);
    if t != [] && (t[0] == '-' || t[0] == '+') then
      match ParseNat(t[1..])
      case None => None
      case Some(n) => Some(if t[0] == '-' then -(n as int) else n as int)
    else
      match ParseNat(t)
      case None => None
      case Some(n) => Some(n)
  }

  /** `str(n)` for a natural number. */
  function NatToString(n: nat): (s: string)
    ensures s != [] && AllDigits(s)
  {
    if n < 10 then [('0' as int + n) as char]
    else NatToString(n / 10) + [('0' as int + n % 10) as char]
  }

  /** `str(i)` for an integer. */
  function IntToString(i: int): string {
    if i < 0 then "-" + NatToString(-i) else NatToString(i)
  }

  /** Reading back what `str` wrote gives the number. */
  lemma {:induction false} NatToStringRoundTrip(n: nat)
    ensures ParseNat(NatToString(n)) == Some(n)
  {
    var s := NatToString(n);
    if n >= 10 {
      NatToStringRoundTrip(n / 10);
      assert s[..|s| - 1] == NatToString(n / 10);
      assert DigitsValue(s) == (n / 10) * 10 + n % 10;
    } else {
      assert s[..|s| - 1] == [];
      assert DigitsValue(s) == n;
    }
  }

  /** A string that neither starts nor ends with a stripped character is kept whole. */
  lemma StripKeeps(s: string, chars: set<char>)
    requires s != [] && s[0] !in chars && s[|s| - 1] !in chars
    ensures Strip(s, chars) == s
  {
  }

  /** `int(str(i)) == i`. */
  lemma IntToStringRoundTrip(i: int)
    ensures ParseInt(IntToString(i)) == Some(i)
  {
    var s := IntToString(i);
    var d := NatToString(if i < 0 then -i else i);
    NatToStringRoundTrip(if i < 0 then -i else i);
    assert IsDigit(d[0]) && IsDigit(d[|d| - 1]);
    assert s[|s| - 1] == d[|d| - 1];
    StripKeeps(s, Whitespace);
    if i < 0 {
      assert s[1..] == d;
    }
  }

  /** `str(n)` has at most two characters exactly when `n < 100`. */
  lemma {:induction false} NatToStringShort(n: nat)
    ensures |NatToString(n)| == 1 <==> n < 10
    ensures |NatToString(n)| <= 2 <==> n < 100
  {
    if n >= 10 {
      NatToStringShort(n / 10);
    }
  }
}
