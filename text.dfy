/**
 * String helpers that stand for the JavaScript built-ins the application
 * relies on: `String.prototype.includes`, `toLowerCase`, `trim`,
 * `Array.prototype.join` and the decimal rendering of an integer inside a
 * template literal.
 */
module Text {

  /** The characters `String.prototype.trim` strips: white space and line terminators. */
  predicate IsSpace(c: char) {
    c in {' ', '\t', '\n', '\r', '\U{000B}', '\U{000C}', '\U{00A0}', '\U{1680}',
          '\U{2000}', '\U{2001}', '\U{2002}', '\U{2003}', '\U{2004}', '\U{2005}',
          '\U{2006}', '\U{2007}', '\U{2008}', '\U{2009}', '\U{200A}', '\U{2028}',
          '\U{2029}', '\U{202F}', '\U{205F}', '\U{3000}', '\U{FEFF}'}
  }

  /** ASCII case mapping of `toLowerCase`. */
  function LowerChar(c: char): (r: char)
    ensures 'A' <= c <= 'Z' ==> r as int == c as int + 32
    ensures !('A' <= c <= 'Z') ==> r == c
    ensures !('A' <= r <= 'Z')
  {
    if 'A' <= c <= 'Z' then (c as int + 32) as char else c
  }

  function Lower(s: string): (r: string)
    ensures |r| == |s|
    ensures forall i :: 0 <= i < |s| ==> r[i] == LowerChar(s[i])
  {
    seq(|s|, i requires 0 <= i < |s| => LowerChar(s[i]))
  }

  lemma LowerAppend(s: string, t: string)
    ensures Lower(s + t) == Lower(s) + Lower(t)
  {
  }

  /** `s.includes(t)`: `t` occurs in `s` as a contiguous block. */
  function Contains(s: string, t: string): bool
    decreases |s|
  {
    |t| <= |s| && (s[..|t|] == t || Contains(s[1..], t))
  }

  /** `t` occurs in `s` starting at offset `i`. */
  predicate OccursAt(s: string, t: string, i: int) {
    0 <= i && i + |t| <= |s| && s[i..i + |t|] == t
  }

  lemma {:induction false} ContainsIff(s: string, t: string)
    ensures Contains(s, t) <==> exists i :: OccursAt(s, t, i)
  {
    if |t| <= |s| && s[..|t|] != t {
      ContainsIff(s[1..], t);
      if Contains(s[1..], t) {
        var i :| OccursAt(s[1..], t, i);
        assert OccursAt(s, t, i + 1);
      }
      if exists i :: OccursAt(s, t, i) {
        var i :| OccursAt(s, t, i);
        assert i != 0;
        assert OccursAt(s[1..], t, i - 1);
      }
    } else if |t| <= |s| {
      assert OccursAt(s, t, 0);
    }
  }

  /** Occurrence at a known offset is enough to establish `Contains`. */
  lemma ContainsAt(s: string, t: string, i: int)
    requires OccursAt(s, t, i)
    ensures Contains(s, t)
  {
    ContainsIff(s, t);
  }

  /** The middle part of a concatenation occurs right after the first part. */
  lemma OccursInMiddle(a: string, b: string, c: string)
    ensures OccursAt(a + b + c, b, |a|) && (a + b + c)[..|a|] == a
  {
    assert (a + b + c)[|a|..|a| + |b|] == b;
  }

  /** The first part of a concatenation occurs at its start. */
  lemma OccursAtStart(a: string, b: string)
    ensures OccursAt(a + b, a, 0)
  {
    assert (a + b)[..|a|] == a;
  }

  /** The second part of a concatenation occurs right after the first. */
  lemma OccursAtEnd(a: string, b: string)
    ensures OccursAt(a + b, b, |a|)
  {
    assert (a + b)[|a|..|a| + |b|] == b;
  }

  /** An occurrence inside an occurrence is an occurrence, at the summed offset. */
  lemma OccursWithin(s: string, t: string, k: string, a: int, i: int)
    requires OccursAt(s, t, a) && OccursAt(t, k, i)
    ensures OccursAt(s, k, a + i)
  {
    assert forall m :: 0 <= m < |k| ==> s[a + i + m] == t[i + m] == k[m];
    assert s[a + i..a + i + |k|] == k;
  }

  /** What a block of `s` contains, `s` contains. */
  lemma ContainsWithin(s: string, t: string, k: string, a: int)
    requires OccursAt(s, t, a) && Contains(t, k)
    ensures Contains(s, k)
  {
    ContainsIff(t, k);
    var i :| OccursAt(t, k, i);
    OccursWithin(s, t, k, a, i);
    ContainsAt(s, k, a + i);
  }

  /** Lower-casing keeps occurrences where they are. */
  lemma LowerOccurs(s: string, t: string, i: int)
    requires OccursAt(s, t, i)
    ensures OccursAt(Lower(s), Lower(t), i)
  {
    assert forall j :: 0 <= j < |t| ==> Lower(s)[i + j] == LowerChar(s[i + j]) == LowerChar(t[j]);
    assert Lower(s)[i..i + |t|] == Lower(t);
  }

  function TrimStart(s: string): (r: string)
    ensures |r| <= |s| && r == s[|s| - |r|..]
    ensures r == [] || !IsSpace(r[0])
    ensures forall i :: 0 <= i < |s| - |r| ==> IsSpace(s[i])
  {
    if s != [] && IsSpace(s[0]) then TrimStart(s[1..]) else s
  }

  function TrimEnd(s: string): (r: string)
    ensures |r| <= |s| && r == s[..|r|]
    ensures r == [] || !IsSpace(r[|r| - 1])
    ensures forall i :: |r| <= i < |s| ==> IsSpace(s[i])
  {
    if s != [] && IsSpace(s[|s| - 1]) then TrimEnd(s[..|s| - 1]) else s
  }

  /** `s.trim()`. */
  function Trim(s: string): string {
    TrimEnd(TrimStart(s))
  }

  /** `!s.trim()`: the string is empty or white space only. */
  predicate IsBlank(s: string) {
    Trim(s) == []
  }

  lemma BlankIff(s: string)
    ensures IsBlank(s) <==> forall i :: 0 <= i < |s| ==> IsSpace(s[i])
  {
    var a := TrimStart(s);
  }

  /** The trimmed string neither starts nor ends with white space and is a block of the input. */
  lemma TrimShape(s: string)
    ensures Trim(s) == [] || (!IsSpace(Trim(s)[0]) && !IsSpace(Trim(s)[|Trim(s)| - 1]))
    ensures exists i :: OccursAt(s, Trim(s), i)
  {
    var a := TrimStart(s);
    var r := TrimEnd(a);
    assert Trim(s) == r;
    if r != [] {
      assert r[0] == a[0];
    }
    var k := |s| - |a|;
    assert r == a[..|r|] && a == s[k..];
    assert s[k..k + |r|] == r by {
      assert s[k..][..|r|] == s[k..k + |r|];
    }
    assert OccursAt(s, r, k);
  }

  /** Characters each stripped from one side or the other: trimming twice changes nothing. */
  lemma TrimIdempotent(s: string)
    ensures Trim(Trim(s)) == Trim(s)
  {
    TrimShape(s);
  }

  /** `xs.join(sep)`. */
  function Join(xs: seq<string>, sep: string): (r: string)
    ensures xs == [] ==> r == []
    ensures |xs| == 1 ==> r == xs[0]
  {
    if xs == [] then []
    else if |xs| == 1 then xs[0]
    else xs[0] + sep + Join(xs[1..], sep)
  }

  function DigitChar(d: nat): char
    requires d < 10
  {
    "0123456789"[d]
  }

  /** Decimal rendering of a natural number, most significant digit first. */
  function NatToString(n: nat): (r: string)
    ensures |r| >= 1
    ensures forall i :: 0 <= i < |r| ==> '0' <= r[i] <= '9'
    ensures n > 0 ==> r[0] != '0'
  {
    if n < 10 then [DigitChar(n)] else NatToString(n / 10) + [DigitChar(n % 10)]
  }

  /** ``${n}`` for an integer number. */
  function IntToString(n: int): string {
    if n < 0 then "-" + NatToString(-n) else NatToString(n)
  }

  function DigitsValue(s: string): int {
    if s == [] then 0 else 10 * DigitsValue(s[..|s| - 1]) + (s[|s| - 1] as int - '0' as int)
  }

  /** The decimal rendering reads back as the number it renders. */
  lemma {:induction false} NatToStringValue(n: nat)
    ensures DigitsValue(NatToString(n)) == n
  {
    if n < 10 {
      DigitCharValue(n);
    } else {
      var q, d := n / 10, n % 10;
      NatToStringValue(q);
      DigitCharValue(d);
      var s := NatToString(n);
      assert s == NatToString(q) + [DigitChar(d)];
      assert s[..|s| - 1] == NatToString(q) && s[|s| - 1] == DigitChar(d);
      assert DigitsValue(s) == 10 * q + d;
    }
  }

  lemma DigitCharValue(d: nat)
    requires d < 10
    ensures DigitChar(d) as int - '0' as int == d
  {
  }

  /** ``${n} unit`` with an "s" unless `n` is 1. */
  function Counted(n: int, unit: string): string {
    IntToString(n) + " " + unit + (if n == 1 then "" else "s")
  }

  /** The unit is plural exactly when the count is not 1. */
  lemma CountedPlural(n: int, unit: string)
    ensures var s := Counted(n, unit);
      s[|s| - 1] == 's' <==> n != 1 || (unit != [] && unit[|unit| - 1] == 's')
  {
  }

  /** The leading number of a label reads back as the count it stands for. */
  lemma CountedNumber(n: nat, unit: string)
    ensures var digits := NatToString(n);
      Counted(n, unit)[..|digits|] == digits && DigitsValue(digits) == n
  {
    NatToStringValue(n);
  }

  /** ``${n} unit`` spelled out, with its digits reading back as `n`. */
  lemma CountedShape(n: nat, unit: string)
    ensures Counted(n, unit) == NatToString(n) + " " + unit + (if n == 1 then "" else "s")
    ensures DigitsValue(NatToString(n)) == n
  {
    CountedNumber(n, unit);
  }
}
