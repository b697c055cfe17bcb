/** The C library string routines the tool relies on (strsep, strrchr,
    strtoul, strtoimax and printf's integer conversions), over Dafny strings.
    A C string is modelled by its characters without the terminating NUL. */
module Libc {

  datatype Option<+T> = None | Some(value: T)

  const ULONG_MAX: nat := 0xFFFF_FFFF_FFFF_FFFF
  const INTMAX_MAX: int := 0x7FFF_FFFF_FFFF_FFFF
  const INTMAX_MIN: int := -0x8000_0000_0000_0000

  // ---------------------------------------------------------------------
  // strchr / strrchr / strsep

  /** Position of the first `c` in `s` (strchr). */
  function IndexOf(s: string, c: char): (r: Option<nat>)
    ensures r.Some? ==> r.value < |s| && s[r.value] == c && c !in s[..r.value]
    ensures r.None? ==> c !in s
  {
    if |s| == 0 then None
    else if s[0] == c then Some(0)
    else match IndexOf(s[1..], c)
      case None => None
      case Some(i) => assert s[1..][..i] == s[1..i + 1]; Some(i + 1)
  }

  /** Position of the last `c` in `s` (strrchr). */
  function LastIndexOf(s: string, c: char): (r: Option<nat>)
    ensures r.Some? ==> r.value < |s| && s[r.value] == c && c !in s[r.value + 1..]
    ensures r.None? ==> c !in s
  {
    if |s| == 0 then None
    else if s[|s| - 1] == c then Some(|s| - 1)
    else
      var r := LastIndexOf(s[..|s| - 1], c);
      assert forall i :: r.Some? && r.value + 1 <= i < |s| - 1 ==> s[..|s| - 1][i] == s[i];
      r
  }

  /** The tokens that repeated strsep(&s, {c}) hands out until it returns NULL:
      the pieces of `s` between occurrences of `c`. There is always one. */
  function SplitOn(s: string, c: char): (r: seq<string>)
    ensures |r| >= 1
    decreases |s|
  {
    match IndexOf(s, c)
    case None => [s]
    case Some(i) => [s[..i]] + SplitOn(s[i + 1..], c)
  }

  /** printf("%s") of a key that may be NULL. */
  function PrintfStr(o: Option<string>): (r: string)
    ensures o.Some? ==> r == o.value
    ensures o.None? ==> r == "(null)"
  {
    if o.None? then "(null)" else o.value
  }

  /** Gluing tokens back together with the separator. */
  function Join(ts: seq<string>, c: char): string
    requires |ts| >= 1
  {
    if |ts| == 1 then ts[0] else ts[0] + [c] + Join(ts[1..], c)
  }

  /** No token strsep hands out holds the separator. */
  lemma {:induction false} SplitOnTokens(s: string, c: char)
    ensures forall k :: 0 <= k < |SplitOn(s, c)| ==> c !in SplitOn(s, c)[k]
    decreases |s|
  {
    match IndexOf(s, c)
    case None =>
    case Some(i) =>
      var rest := SplitOn(s[i + 1..], c);
      SplitOnTokens(s[i + 1..], c);
      var r := SplitOn(s, c);
      assert r == [s[..i]] + rest;
      forall k | 0 <= k < |r|
        ensures c !in r[k]
      {
        if k > 0 {
          assert r[k] == rest[k - 1];
        }
      }
  }

  /** Gluing the tokens back together with the separator gives the original
      string. */
  lemma {:induction false} SplitOnJoin(s: string, c: char)
    ensures Join(SplitOn(s, c), c) == s
    decreases |s|
  {
    match IndexOf(s, c)
    case None =>
    case Some(i) =>
      var rest := SplitOn(s[i + 1..], c);
      SplitOnJoin(s[i + 1..], c);
      var r := [s[..i]] + rest;
      assert SplitOn(s, c) == r;
      assert r[0] == s[..i] && r[1..] == rest;
      assert Join(r, c) == s[..i] + [c] + Join(rest, c);
      assert s == s[..i] + [c] + s[i + 1..];
  }

  /** strsep's first token is the text up to the first delimiter: a prefix
      of the string without the delimiter, followed by the delimiter when
      there is one, and the whole string when there is none. */
  lemma SplitOnHead(s: string, c: char)
    ensures SplitOn(s, c)[0] <= s
    ensures c !in SplitOn(s, c)[0]
    ensures c in s ==> |SplitOn(s, c)[0]| < |s| && s[|SplitOn(s, c)[0]|] == c
    ensures c !in s ==> SplitOn(s, c) == [s]
  {
    match IndexOf(s, c)
    case None =>
    case Some(i) =>
      assert SplitOn(s, c)[0] == s[..i];
  }

  /** A character other than the delimiter in front of the string joins the
      first token. */
  lemma SplitOnCons(x: char, s: string, c: char)
    requires x != c
    ensures SplitOn([x] + s, c) == [[x] + SplitOn(s, c)[0]] + SplitOn(s, c)[1..]
  {
    var t := [x] + s;
    assert t[1..] == s;
    match IndexOf(s, c)
    case None =>
    case Some(i) =>
      assert IndexOf(t, c) == Some(i + 1);
      assert t[..i + 1] == [x] + s[..i];
      assert t[i + 2..] == s[i + 1..];
  }

  /** A string without the separator is a single token. */
  lemma SplitOnSingle(s: string, c: char)
    requires c !in s
    ensures SplitOn(s, c) == [s]
  {
  }

  // ---------------------------------------------------------------------
  // printf's %u, %i and %jd

  function DigitChar(d: nat): char
    requires d < 10
  {
    ['0', '1', '2', '3', '4', '5', '6', '7', '8', '9'][d]
  }

  predicate IsDigit(ch: char) { '0' <= ch <= '9' }

  /** Decimal text of a natural number, without leading zeros. */
  function NatToString(n: nat): (r: string)
    ensures |r| >= 1
    ensures forall i :: 0 <= i < |r| ==> IsDigit(r[i])
    ensures n > 0 <==> r[0] != '0'
  {
    if n < 10 then [DigitChar(n)] else NatToString(n / 10) + [DigitChar(n % 10)]
  }

  /** Decimal text of an integer, with a leading '-' when negative. */
  function IntToString(i: int): string
  {
    if i < 0 then "-" + NatToString(-i) else NatToString(i)
  }

  // ---------------------------------------------------------------------
  // strtoul / strtoimax

  /** isspace in the C locale. */
  predicate IsSpace(ch: char)
  {
    ch == ' ' || ch == '\t' || ch == '\n' || ch == '\r' || ch == '\U{0B}' || ch == '\U{0C}'
  }

  /** The value of a digit character in bases up to 36, or 36 when it is none. */
  function DigitValue(ch: char): (d: nat)
    ensures d <= 36
    ensures IsDigit(ch) <==> d < 10
  {
    if '0' <= ch <= '9' then (ch as int - '0' as int)
    else if 'a' <= ch <= 'z' then (ch as int - 'a' as int) + 10
    else if 'A' <= ch <= 'Z' then (ch as int - 'A' as int) + 10
    else 36
  }

  function SkipSpace(s: string): (r: string)
    ensures |r| <= |s| && r == s[|s| - |r|..]
    ensures |r| > 0 ==> !IsSpace(r[0])
  {
    if |s| > 0 && IsSpace(s[0]) then SkipSpace(s[1..]) else s
  }

  /** The value of the longest prefix of `s` made of digits below `base`,
      accumulated onto `acc`. */
  function DigitsValue(s: string, base: nat, acc: nat): nat
    requires 2 <= base <= 36
  {
    if |s| == 0 || DigitValue(s[0]) >= base then acc
    else DigitsValue(s[1..], base, acc * base + DigitValue(s[0]))
  }

  /** The base strtoul and strtoimax use for `s` (after the sign) and the
      digits they read in it: base 0 picks 16 after "0x" followed by a hex
      digit, 8 after a leading '0', and 10 otherwise. */
  function BaseAndDigits(s: string, base: nat): (r: (nat, string))
    requires base == 0 || 2 <= base <= 36
    ensures 2 <= r.0 <= 36
  {
    var hex := |s| >= 3 && s[0] == '0' && (s[1] == 'x' || s[1] == 'X') && DigitValue(s[2]) < 16;
    if base == 0 then
      if hex then (16, s[2..]) else if |s| > 0 && s[0] == '0' then (8, s) else (10, s)
    else if base == 16 && hex then (16, s[2..])
    else (base, s)
  }

  /** Whether `s` (after leading space) starts with '-', and the rest after the sign. */
  function Sign(s: string): (bool, string)
  {
    var t := SkipSpace(s);
    if |t| > 0 && (t[0] == '+' || t[0] == '-') then (t[0] == '-', t[1..]) else (false, t)
  }

  /** strtoul(s, NULL, base): an out-of-range value gives ULONG_MAX, and a
      leading '-' negates modulo 2^64. */
  function Strtoul(s: string, base: nat): (r: nat)
    requires base == 0 || 2 <= base <= 36
    ensures r <= ULONG_MAX
  {
    var (neg, t) := Sign(s);
    var (b, digits) := BaseAndDigits(t, base);
    var v := DigitsValue(digits, b, 0);
    if v > ULONG_MAX then ULONG_MAX
    else if neg && v > 0 then ULONG_MAX + 1 - v
    else v
  }

  /** strtoimax(s, NULL, base): the value clamped to the intmax_t range. */
  function Strtoimax(s: string, base: nat): (r: int)
    requires base == 0 || 2 <= base <= 36
    ensures INTMAX_MIN <= r <= INTMAX_MAX
  {
    var (neg, t) := Sign(s);
    var (b, digits) := BaseAndDigits(t, base);
    var v: int := DigitsValue(digits, b, 0);
    if neg then (if v > -INTMAX_MIN then INTMAX_MIN else -v)
    else (if v > INTMAX_MAX then INTMAX_MAX else v)
  }

  /** Text that does not start with a digit, a sign or white space reads as 0. */
  lemma {:induction false} StrtoulNonNumeric(s: string, base: nat)
    requires base == 10
    requires |s| == 0 || (!IsDigit(s[0]) && !IsSpace(s[0]) && s[0] != '+' && s[0] != '-')
    ensures Strtoul(s, base) == 0
  {
    assert SkipSpace(s) == s;
    assert Sign(s) == (false, s);
    assert BaseAndDigits(s, base) == (10, s);
  }

  /** Reading one more digit after `s` continues from the value of `s`. */
  lemma {:induction false} DigitsValueAppend(s: string, d: char, base: nat, acc: nat)
    requires 2 <= base <= 36
    requires forall i :: 0 <= i < |s| ==> DigitValue(s[i]) < base
    ensures DigitsValue(s + [d], base, acc) == DigitsValue([d], base, DigitsValue(s, base, acc))
    decreases |s|
  {
    if |s| == 0 {
      assert s + [d] == [d];
    } else {
      var acc' := acc * base + DigitValue(s[0]);
      assert DigitValue(s[0]) < base;
      assert (s + [d])[0] == s[0] && (s + [d])[1..] == s[1..] + [d];
      assert DigitsValue(s + [d], base, acc) == DigitsValue(s[1..] + [d], base, acc');
      assert DigitsValue(s, base, acc) == DigitsValue(s[1..], base, acc');
      forall i | 0 <= i < |s[1..]|
        ensures DigitValue(s[1..][i]) < base
      {
        assert s[1..][i] == s[i + 1];
      }
      DigitsValueAppend(s[1..], d, base, acc');
    }
  }

  /** Reading the decimal text of a number gives the number back. */
  lemma {:induction false} DigitsValueOfNat(n: nat)
    ensures DigitsValue(NatToString(n), 10, 0) == n
  {
    if n < 10 {
      assert NatToString(n) == [DigitChar(n)];
      assert DigitValue(DigitChar(n)) == n;
      assert NatToString(n)[1..] == [];
    } else {
      var p := NatToString(n / 10);
      var d := DigitChar(n % 10);
      DigitsValueOfNat(n / 10);
      assert DigitValue(d) == n % 10;
      assert NatToString(n) == p + [d];
      DigitsValueAppend(p, d, 10, 0);
      assert [d][1..] == [];
      assert DigitsValue([d], 10, n / 10) == (n / 10) * 10 + n % 10;
    }
  }

  /** strtoul reads back the decimal text printf wrote: the round trip the
      array-index labels of the tool rely on. */
  lemma StrtoulNatToString(n: nat)
    requires n <= ULONG_MAX
    ensures Strtoul(NatToString(n), 10) == n
  {
    var s := NatToString(n);
    assert SkipSpace(s) == s;
    assert Sign(s) == (false, s);
    assert BaseAndDigits(s, 10) == (10, s);
    DigitsValueOfNat(n);
  }

  /** With base 0 a leading zero switches to octal: "010" reads as 8 where
      base 10 reads 10. */
  lemma StrtoulOctalPrefix()
    ensures Strtoul("010", 0) == 8
    ensures Strtoul("010", 10) == 10
  {
    StrtoulOctal();
    StrtoulDecimal();
  }

  lemma StrtoulOctal()
    ensures Strtoul("010", 0) == 8
  {
    var s := "010";
    assert SkipSpace(s) == s;
    assert Sign(s) == (false, s);
    assert BaseAndDigits(s, 0) == (8, s);
    assert DigitsValue(s, 8, 0) == DigitsValue(s[1..], 8, 0);
    assert DigitsValue(s[1..], 8, 0) == DigitsValue(s[2..], 8, 1);
    assert DigitsValue(s[2..], 8, 1) == DigitsValue(s[3..], 8, 8);
  }

  lemma StrtoulDecimal()
    ensures Strtoul("010", 10) == 10
  {
    var s := "010";
    assert SkipSpace(s) == s;
    assert Sign(s) == (false, s);
    assert BaseAndDigits(s, 10) == (10, s);
    assert DigitsValue(s, 10, 0) == DigitsValue(s[1..], 10, 0);
    assert DigitsValue(s[1..], 10, 0) == DigitsValue(s[2..], 10, 1);
    assert DigitsValue(s[2..], 10, 1) == DigitsValue(s[3..], 10, 10);
  }
}
