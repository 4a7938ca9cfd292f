/** String operations the pages rely on, modelled on the JavaScript built-ins
    they call: decimal rendering of numbers (`String(n)`, template literals),
    `parseInt(s, 10)` on a digit prefix, `padStart(2, '0')`, `startsWith`,
    `includes`, `toLowerCase` and `split(':')`, plus a lexicographic order that
    stands in for `localeCompare`. */
module Text {
  import opened Wrappers

  predicate IsDigit(c: char) { '0' <= c <= '9' }

  function DigitChar(d: nat): (c: char)
    requires d < 10
    ensures IsDigit(c) && c as int - '0' as int == d
  {
    ('0' as int + d) as char
  }

  predicate AllDigits(s: string) { forall i :: 0 <= i < |s| ==> IsDigit(s[i]) }

  /** The value of a string of decimal digits. */
  function DigitsValue(s: string): nat
    requires AllDigits(s)
  {
    if s == [] then 0 else 10 * DigitsValue(s[..|s| - 1]) + (s[|s| - 1] as int - '0' as int)
  }

  /** Decimal rendering of a natural number, as `String(n)` gives it: no leading zeros. */
  function NatToString(n: nat): (s: string)
    ensures 1 <= |s| && AllDigits(s)
    ensures |s| == 1 <==> n < 10
    ensures s[0] == '0' ==> n == 0
  {
    if n < 10 then [DigitChar(n)] else NatToString(n / 10) + [DigitChar(n % 10)]
  }

  /** `String(n)` for an integer: a minus sign before the digits of a negative number. */
  function IntToString(n: int): (s: string)
    ensures 1 <= |s|
    ensures s[0] == '-' <==> n < 0
  {
    if n < 0 then "-" + NatToString(-n) else NatToString(n)
  }

  lemma {:induction false} NatToStringValue(n: nat)
    ensures DigitsValue(NatToString(n)) == n
  {
    if n >= 10 {
      NatToStringValue(n / 10);
      var s := NatToString(n);
      assert s[..|s| - 1] == NatToString(n / 10);
    }
  }

  /** Reads back what `IntToString` writes: an optional minus sign and digits. */
  function IntOfString(s: string): int
  {
    if s != [] && s[0] == '-' && AllDigits(s[1..]) then 0 - DigitsValue(s[1..])
    else if AllDigits(s) then DigitsValue(s)
    else 0
  }

  lemma IntToStringRoundTrip(n: int)
    ensures IntOfString(IntToString(n)) == n
  {
    if n < 0 {
      NegativeRoundTrip(-n);
    } else {
      NatRoundTrip(n);
    }
  }

  lemma NatRoundTrip(n: nat)
    ensures IntOfString(NatToString(n)) == n
  {
    var s := NatToString(n);
    assert IsDigit(s[0]);
    NatToStringValue(n);
  }

  lemma NegativeRoundTrip(n: nat)
    ensures IntOfString("-" + NatToString(n)) == 0 - n
  {
    var s := "-" + NatToString(n);
    assert s[1..] == NatToString(n);
    NatToStringValue(n);
  }

  /** `String` is injective on integers, so a record is found by the text of its id. */
  lemma IntToStringInjective(a: int, b: int)
    requires IntToString(a) == IntToString(b)
    ensures a == b
  {
    IntToStringRoundTrip(a);
    IntToStringRoundTrip(b);
  }

  /** The longest prefix of `s` made of digits: what `parseInt` reads. */
  function DigitPrefix(s: string): (p: string)
    ensures |p| <= |s| && p == s[..|p|] && AllDigits(p)
    ensures |p| < |s| ==> !IsDigit(s[|p|])
  {
    if s == [] || !IsDigit(s[0]) then [] else [s[0]] + DigitPrefix(s[1..])
  }

  /** `parseInt(s, 10)` for a string without leading blanks or sign: `None` stands for NaN. */
  function ParseIntPrefix(s: string): (r: Option<nat>)
    ensures r.None? <==> (s == [] || !IsDigit(s[0]))
  {
    var p := DigitPrefix(s);
    if p == [] then None else Some(DigitsValue(p))
  }

  lemma ParseNatToString(n: nat, rest: string)
    requires rest == [] || !IsDigit(rest[0])
    ensures ParseIntPrefix(NatToString(n) + rest) == Some(n)
  {
    DigitPrefixOfDigits(NatToString(n), rest);
    NatToStringValue(n);
  }

  lemma {:induction false} DigitPrefixOfDigits(d: string, rest: string)
    requires AllDigits(d)
    requires rest == [] || !IsDigit(rest[0])
    ensures DigitPrefix(d + rest) == d
  {
    if d != [] {
      assert (d + rest)[1..] == d[1..] + rest;
      DigitPrefixOfDigits(d[1..], rest);
    } else {
      assert d + rest == rest;
    }
  }

  /** `s.padStart(2, '0')`. */
  function PadStart2(s: string): (r: string)
    ensures |s| >= 2 ==> r == s
    ensures |s| < 2 ==> |r| == 2 && r[2 - |s|..] == s && forall i :: 0 <= i < 2 - |s| ==> r[i] == '0'
  {
    if |s| >= 2 then s else if |s| == 1 then "0" + s else "00"
  }

  /** The two-digit rendering of an hour below 100. */
  lemma Pad2Digits(h: nat)
    requires h < 100
    ensures PadStart2(NatToString(h)) == [DigitChar(h / 10), DigitChar(h % 10)]
  {
    if h >= 10 {
      assert NatToString(h / 10) == [DigitChar(h / 10)];
    }
  }

  predicate StartsWith(s: string, prefix: string) { |prefix| <= |s| && s[..|prefix|] == prefix }

  /** `s.includes(p)`: `p` occurs somewhere in `s`. */
  predicate Contains(s: string, p: string)
    decreases |s|
  {
    StartsWith(s, p) || (s != [] && Contains(s[1..], p))
  }

  /** `p` occurs in `s` starting at index `i`. */
  predicate OccursAt(s: string, p: string, i: int)
  {
    0 <= i <= |s| - |p| && s[i..i + |p|] == p
  }

  /** The recursive `Contains` agrees with the positional definition of a substring. */
  lemma {:induction false} ContainsAt(s: string, p: string)
    ensures Contains(s, p) <==> exists i :: OccursAt(s, p, i)
    decreases |s|
  {
    if s != [] {
      ContainsAt(s[1..], p);
      if exists i :: OccursAt(s, p, i) {
        var i :| OccursAt(s, p, i);
        if i > 0 {
          assert OccursAt(s[1..], p, i - 1);
        }
      }
      if Contains(s[1..], p) {
        var i :| OccursAt(s[1..], p, i);
        assert OccursAt(s, p, i + 1);
      }
      if StartsWith(s, p) {
        assert OccursAt(s, p, 0);
      }
    } else {
      if StartsWith(s, p) {
        assert OccursAt(s, p, 0);
      }
    }
  }

  /** Every string includes the empty string, so an empty search keeps everything. */
  lemma ContainsEmpty(s: string)
    ensures Contains(s, "")
  {
  }

  function LowerChar(c: char): char
  {
    if 'A' <= c <= 'Z' then (c as int - 'A' as int + 'a' as int) as char else c
  }

  /** `toLowerCase` on the ASCII letters. */
  function ToLower(s: string): (r: string)
    ensures |r| == |s| && forall i :: 0 <= i < |s| ==> r[i] == LowerChar(s[i])
  {
    if s == [] then [] else [LowerChar(s[0])] + ToLower(s[1..])
  }

  /** `s.split(':')[0]`: the text before the first colon. */
  function BeforeColon(s: string): (r: string)
    ensures |r| <= |s| && r == s[..|r|] && ':' !in r
    ensures |r| < |s| ==> s[|r|] == ':'
  {
    if s == [] || s[0] == ':' then [] else [s[0]] + BeforeColon(s[1..])
  }

  /** `s.split(':')[1]`: the text between the first and the second colon, if there is a first. */
  function SecondPiece(s: string): (r: Option<string>)
    ensures r.None? <==> ':' !in s
  {
    var h := BeforeColon(s);
    assert |h| == |s| <==> ':' !in s by {
      if |h| < |s| { assert s[|h|] == ':'; }
    }
    if |h| == |s| then None else Some(BeforeColon(s[|h| + 1..]))
  }

  lemma SplitOfJoin(h: string, m: string)
    requires ':' !in h && ':' !in m
    ensures BeforeColon(h + ":" + m) == h
    ensures SecondPiece(h + ":" + m) == Some(m)
  {
    var s := h + ":" + m;
    JoinBeforeColon(h, m);
    assert s[|h| + 1..] == m;
    NoColonBeforeColon(m);
  }

  lemma JoinBeforeColon(h: string, m: string)
    requires ':' !in h
    ensures BeforeColon(h + ":" + m) == h
  {
    assert h + ":" + m == h + (":" + m);
    BeforeColonOf(h, ":" + m);
  }

  /** Text without a colon is its own first piece. */
  lemma NoColonBeforeColon(m: string)
    requires ':' !in m
    ensures BeforeColon(m) == m
  {
    BeforeColonOf(m, "");
    assert m + "" == m;
  }

  lemma {:induction false} BeforeColonOf(h: string, rest: string)
    requires ':' !in h
    requires rest == [] || rest[0] == ':'
    ensures BeforeColon(h + rest) == h
  {
    if h == [] {
      assert h + rest == rest;
    } else {
      assert (h + rest)[1..] == h[1..] + rest;
      BeforeColonOf(h[1..], rest);
    }
  }

  /** Lexicographic order on character codes, standing in for `localeCompare`. */
  predicate LexLe(a: string, b: string)
  {
    a == [] || (b != [] && (a[0] < b[0] || (a[0] == b[0] && LexLe(a[1..], b[1..]))))
  }

  predicate LexLt(a: string, b: string) { LexLe(a, b) && a != b }

  lemma {:induction false} LexLeTotal(a: string, b: string)
    ensures LexLe(a, b) || LexLe(b, a)
  {
    if a != [] && b != [] && a[0] == b[0] {
      LexLeTotal(a[1..], b[1..]);
    }
  }

  lemma {:induction false} LexLeTrans(a: string, b: string, c: string)
    requires LexLe(a, b) && LexLe(b, c)
    ensures LexLe(a, c)
  {
    if a != [] && b != [] && c != [] && a[0] == b[0] && b[0] == c[0] {
      LexLeTrans(a[1..], b[1..], c[1..]);
    }
  }

  lemma {:induction false} LexLeAntisym(a: string, b: string)
    requires LexLe(a, b) && LexLe(b, a)
    ensures a == b
  {
    if a != [] && b != [] {
      LexLeAntisym(a[1..], b[1..]);
      assert a == [a[0]] + a[1..] && b == [b[0]] + b[1..];
    }
  }
}
