/** The pieces of Python's `str` that the fault injectors rely on:
    the substring test `t in s`, `s.replace(target, replacement)`, `s.count(pat)`,
    `str(n)` of an integer and `int(s)` of a decimal string. */
module Text {
  import opened Wrappers

  /** `s.startswith(p)` */
  predicate StartsWith(s: string, p: string) {
    |p| <= |s| && s[..|p|] == p
  }

  /** `t in s`: Python's `in` on two strings is a substring test. */
  predicate Contains(s: string, t: string)
    decreases |s|
  {
    StartsWith(s, t) || (|s| > 0 && Contains(s[1..], t))
  }

  /** `s.replace(target, replacement)`: every occurrence, scanning left to right, without overlaps. */
  function ReplaceAll(s: string, target: string, replacement: string): string
    requires |target| > 0
    decreases |s|
  {
    if |s| < |target| then s
    else if s[..|target|] == target then replacement + ReplaceAll(s[|target|..], target, replacement)
    else [s[0]] + ReplaceAll(s[1..], target, replacement)
  }

  /** `s.count(pat)`: the occurrences that `ReplaceAll` would replace. */
  function CountOf(s: string, pat: string): nat
    requires |pat| > 0
    decreases |s|
  {
    if |s| < |pat| then 0
    else if s[..|pat|] == pat then 1 + CountOf(s[|pat|..], pat)
    else CountOf(s[1..], pat)
  }

  /** The number of positions of `s` that hold `c`. */
  function CharCount(s: string, c: char): nat
    decreases |s|
  {
    if s == [] then 0 else (if s[0] == c then 1 else 0) + CharCount(s[1..], c)
  }

  // ---------------------------------------------------------------------------
  // Substring tests

  lemma {:induction false} ContainsInAppend(a: string, b: string, t: string)
    requires Contains(a, t) || Contains(b, t)
    ensures Contains(a + b, t)
    decreases |a|
  {
    if StartsWith(a, t) {
      assert (a + b)[..|t|] == a[..|t|];
    } else if |a| > 0 && Contains(a[1..], t) {
      ContainsInAppend(a[1..], b, t);
      assert (a + b)[1..] == a[1..] + b;
    } else if a != [] {
      ContainsInAppend(a[1..], b, t);
      assert (a + b)[1..] == a[1..] + b;
    } else {
      assert a + b == b;
    }
  }

  /** A string contains each of its own pieces. */
  lemma ContainsPiece(a: string, t: string, b: string)
    ensures Contains(a + t + b, t)
  {
    assert StartsWith(t + b, t);
    ContainsInAppend(a, t + b, t);
    assert a + t + b == a + (t + b);
  }

  lemma {:induction false} ContainsCharIff(s: string, c: char)
    ensures Contains(s, [c]) <==> c in s
    decreases |s|
  {
    if s != [] {
      ContainsCharIff(s[1..], c);
      assert s == [s[0]] + s[1..];
    }
  }

  lemma {:induction false} CharCountAppend(a: string, b: string, c: char)
    ensures CharCount(a + b, c) == CharCount(a, c) + CharCount(b, c)
    decreases |a|
  {
    if a != [] {
      assert (a + b)[1..] == a[1..] + b;
      CharCountAppend(a[1..], b, c);
    } else {
      assert a + b == b;
    }
  }

  lemma {:induction false} CharCountZero(s: string, c: char)
    ensures CharCount(s, c) == 0 <==> c !in s
    decreases |s|
  {
    if s != [] {
      CharCountZero(s[1..], c);
      assert s == [s[0]] + s[1..];
    }
  }

  // ---------------------------------------------------------------------------
  // Replacing and counting

  /** Replacing a string that does not occur changes nothing. */
  lemma {:induction false} ReplaceAbsent(s: string, target: string, replacement: string)
    requires |target| > 0 && !Contains(s, target)
    ensures ReplaceAll(s, target, replacement) == s
    decreases |s|
  {
    if |s| >= |target| {
      assert !StartsWith(s, target);
      ReplaceAbsent(s[1..], target, replacement);
      assert s == [s[0]] + s[1..];
    }
  }

  /** A prefix that does not hold the first character of `target` cannot start
      an occurrence, so replacing leaves it alone. */
  lemma {:induction false} ReplaceAfterPrefix(a: string, s: string, target: string, replacement: string)
    requires |target| > 0 && target[0] !in a
    ensures ReplaceAll(a + s, target, replacement) == a + ReplaceAll(s, target, replacement)
    decreases |a|
  {
    if a != [] {
      var whole := a + s;
      assert whole[0] == a[0] != target[0];
      assert whole[1..] == a[1..] + s;
      ReplaceAfterPrefix(a[1..], s, target, replacement);
      if |whole| < |target| {
        assert |s| < |target|;
      } else {
        assert whole[..|target|] != target;
      }
    } else {
      assert a + s == s;
    }
  }

  /** A character that occurs once is replaced where it stood. */
  lemma ReplaceSingleChar(a: string, c: char, b: string, replacement: string)
    requires c !in a && c !in b
    ensures ReplaceAll(a + [c] + b, [c], replacement) == a + replacement + b
  {
    var tail := [c] + b;
    assert a + [c] + b == a + tail;
    ReplaceAfterPrefix(a, tail, [c], replacement);
    assert tail[..1] == [c] && tail[1..] == b;
    ReplaceAfterPrefix(b, [], [c], replacement);
    assert b + [] == b;
  }

  /** The same for counting: no occurrence starts inside such a prefix. */
  lemma {:induction false} CountAfterPrefix(a: string, s: string, pat: string)
    requires |pat| > 0 && pat[0] !in a
    ensures CountOf(a + s, pat) == CountOf(s, pat)
    decreases |a|
  {
    if a != [] {
      var whole := a + s;
      assert whole[0] == a[0] != pat[0];
      assert whole[1..] == a[1..] + s;
      CountAfterPrefix(a[1..], s, pat);
      if |whole| < |pat| {
        assert |s| < |pat|;
      } else {
        assert whole[..|pat|] != pat;
      }
    } else {
      assert a + s == s;
    }
  }

  /** `count` is zero exactly when the pattern does not occur. */
  lemma {:induction false} CountZeroIffAbsent(s: string, pat: string)
    requires |pat| > 0
    ensures CountOf(s, pat) == 0 <==> !Contains(s, pat)
    decreases |s|
  {
    if |s| < |pat| {
      ShorterDoesNotContain(s, pat);
    } else if s[..|pat|] != pat {
      assert !StartsWith(s, pat);
      CountZeroIffAbsent(s[1..], pat);
    } else {
      assert StartsWith(s, pat);
    }
  }

  lemma {:induction false} ShorterDoesNotContain(s: string, t: string)
    requires |s| < |t|
    ensures !Contains(s, t)
    decreases |s|
  {
    if s != [] {
      ShorterDoesNotContain(s[1..], t);
    }
  }

  /** Replacing a character by a text that does not hold it leaves none of it. */
  lemma {:induction false} ReplaceCharRemovesIt(s: string, c: char, t: string)
    requires c !in t
    ensures c !in ReplaceAll(s, [c], t)
    decreases |s|
  {
    if |s| >= 1 {
      ReplaceCharRemovesIt(s[1..], c, t);
      if s[..1] == [c] {
        assert s[1..] == s[|[c]|..];
      } else {
        assert [s[0]] + ReplaceAll(s[1..], [c], t) == ReplaceAll(s, [c], t);
        assert s[0] != c;
      }
    }
  }

  /** Replacing `c` by a text that starts with `c` and holds no other `c`
      keeps the number of `c`s. */
  lemma {:induction false} ReplaceCharKeepsCount(s: string, c: char, rest: string)
    requires c !in rest
    ensures CharCount(ReplaceAll(s, [c], [c] + rest), c) == CharCount(s, c)
    decreases |s|
  {
    var t := [c] + rest;
    if |s| >= 1 {
      ReplaceCharKeepsCount(s[1..], c, rest);
      CharCountZero(rest, c);
      if s[..1] == [c] {
        assert s[0] == c;
        assert s[1..] == s[|[c]|..];
        CharCountAppend(t, ReplaceAll(s[1..], [c], t), c);
        CharCountAppend([c], rest, c);
      } else {
        assert s[0] != c;
        CharCountAppend([s[0]], ReplaceAll(s[1..], [c], t), c);
      }
    }
  }

  /** After replacing `c` by `[c] + rest` (no other `c` in `rest`), every `c`
      in the result is followed by `rest`. */
  lemma {:induction false} ReplaceCharFollowedBy(s: string, c: char, rest: string, i: nat)
    requires c !in rest
    requires i < |ReplaceAll(s, [c], [c] + rest)| && ReplaceAll(s, [c], [c] + rest)[i] == c
    ensures i + 1 + |rest| <= |ReplaceAll(s, [c], [c] + rest)|
    ensures ReplaceAll(s, [c], [c] + rest)[i + 1..i + 1 + |rest|] == rest
    decreases |s|
  {
    var t := [c] + rest;
    var r := ReplaceAll(s, [c], t);
    if |s| >= 1 {
      var tail := ReplaceAll(s[1..], [c], t);
      var head := if s[..1] == [c] then t else [s[0]];
      assert s[1..] == s[|[c]|..];
      assert r == head + tail;
      assert s[..1] == [c] <==> s[0] == c;
      assert forall k :: 1 <= k < |t| ==> t[k] == rest[k - 1];
      if i < |head| {
        assert i == 0 && head == t;
        assert r[1..1 + |rest|] == rest;
      } else {
        assert tail[i - |head|] == c;
        ReplaceCharFollowedBy(s[1..], c, rest, i - |head|);
        assert r[i + 1..i + 1 + |rest|] == tail[i - |head| + 1..i - |head| + 1 + |rest|];
      }
    }
  }

  // ---------------------------------------------------------------------------
  // Decimal text of integers: `str(n)` and `int(s)`

  function DigitChar(d: nat): char
    requires d < 10
  {
    "0123456789"[d]
  }

  predicate IsDigit(ch: char) {
    '0' <= ch <= '9'
  }

  predicate AllDigits(s: string) {
    |s| > 0 && forall i :: 0 <= i < |s| ==> IsDigit(s[i])
  }

  /** The value of a string of decimal digits, most significant first. */
  function DigitsValue(s: string): nat
    decreases |s|
  {
    if s == [] then 0
    else 10 * DigitsValue(s[..|s| - 1]) + if IsDigit(s[|s| - 1]) then (s[|s| - 1] as int - '0' as int) else 0
  }

  /** `str(n)` for a natural number. */
  function NatToString(n: nat): string
    decreases n
  {
    if n < 10 then [DigitChar(n)] else NatToString(n / 10) + [DigitChar(n % 10)]
  }

  /** `str(n)` for an integer: a minus sign, then the digits of its magnitude. */
  function IntToString(n: int): string {
    if n < 0 then "-" + NatToString(-n) else NatToString(n)
  }

  /** `int(s)` for a decimal string: an optional sign and at least one digit.
      None where Python raises ValueError. */
  function ParseInt(s: string): Option<int> {
    if |s| > 0 && (s[0] == '-' || s[0] == '+') then
      if AllDigits(s[1..]) then
        var magnitude: int := DigitsValue(s[1..]);
        Some(if s[0] == '-' then -magnitude else magnitude)
      else None
    else if AllDigits(s) then Some(DigitsValue(s))
    else None
  }

  lemma {:induction false} NatToStringDigits(n: nat)
    ensures AllDigits(NatToString(n))
    ensures DigitsValue(NatToString(n)) == n
    decreases n
  {
    var s := NatToString(n);
    if n < 10 {
      assert s[..|s| - 1] == [];
    } else {
      NatToStringDigits(n / 10);
      assert s[..|s| - 1] == NatToString(n / 10);
      assert s[|s| - 1] == DigitChar(n % 10);
    }
  }

  /** `int(str(n)) == n`: an integer survives being written out and read back. */
  lemma ParseIntOfIntToString(n: int)
    ensures ParseInt(IntToString(n)) == Some(n)
  {
    if n < 0 {
      NatToStringDigits(-n);
      assert IntToString(n)[1..] == NatToString(-n);
    } else {
      NatToStringDigits(n);
      assert IsDigit(NatToString(n)[0]);
    }
  }

  /** `str` never produces the same text for two different integers. */
  lemma IntToStringInjective(m: int, n: int)
    requires IntToString(m) == IntToString(n)
    ensures m == n
  {
    ParseIntOfIntToString(m);
    ParseIntOfIntToString(n);
  }
}
