/**
 * The string helpers the synchronisation engine leans on, stated as Go's
 * standard library behaves for them: `strings.Split`, `strings.Join`,
 * `strconv.Atoi` and `strconv.Itoa` (which is also what `%v` and `%d` print
 * for an `int`). Strings are sequences of characters; every separator used
 * by the engine is ASCII, so splitting on characters finds the same places
 * as Go's splitting on UTF-8 bytes.
 */
module Text {

  datatype Option<T> = None | Some(value: T)

  const MaxInt64: int := 0x7FFF_FFFF_FFFF_FFFF
  const MinInt64: int := -0x8000_0000_0000_0000
  const MaxUint64: int := 0xFFFF_FFFF_FFFF_FFFF

  predicate InInt64(n: int) { MinInt64 <= n <= MaxInt64 }

  // ---------------------------------------------------------------------------
  // Searching and splitting
  // ---------------------------------------------------------------------------

  /** `sep` occurs in `s` starting at position `p`. */
  predicate OccursAt(s: string, sep: string, p: int) {
    0 <= p && p + |sep| <= |s| && s[p..p + |sep|] == sep
  }

  /** `sep` occurs somewhere in `s`. */
  ghost predicate Contains(s: string, sep: string) {
    exists p :: OccursAt(s, sep, p)
  }

  /** The first position at or after `from` at which `sep` occurs in `s`. */
  function IndexFrom(s: string, sep: string, from: nat): (r: Option<nat>)
    requires |sep| > 0
    ensures r.Some? ==> from <= r.value && OccursAt(s, sep, r.value)
    ensures r.Some? ==> forall p :: from <= p < r.value ==> !OccursAt(s, sep, p)
    ensures r.None? ==> forall p :: from <= p ==> !OccursAt(s, sep, p)
    decreases |s| - from
  {
    if from + |sep| > |s| then None
    else if s[from..from + |sep|] == sep then Some(from)
    else IndexFrom(s, sep, from + 1)
  }

  /** The first position at which `sep` occurs in `s` (Go's `strings.Index`). */
  function IndexOf(s: string, sep: string): (r: Option<nat>)
    requires |sep| > 0
    ensures r.Some? ==> OccursAt(s, sep, r.value)
    ensures r.Some? ==> forall p :: 0 <= p < r.value ==> !OccursAt(s, sep, p)
    ensures r.None? <==> !Contains(s, sep)
  {
    var r := IndexFrom(s, sep, 0);
    if r.Some? then assert OccursAt(s, sep, r.value); r else r
  }

  /** Concatenation of `parts` with `sep` between neighbours (Go's `strings.Join`). */
  function Join(parts: seq<string>, sep: string): string {
    if |parts| == 0 then ""
    else if |parts| == 1 then parts[0]
    else parts[0] + sep + Join(parts[1..], sep)
  }

  /** Two parts joined. */
  lemma JoinTwo(a: string, b: string, sep: string)
    ensures Join([a, b], sep) == a + sep + b
  {
    assert [a, b][1..] == [b];
  }

  /**
   * Go's `strings.Split` for a non-empty separator: the pieces between the
   * occurrences of `sep`, found left to right. There is always at least one
   * piece, no piece contains `sep`, and joining the pieces back gives `s`.
   */
  function Split(s: string, sep: string): (r: seq<string>)
    requires |sep| > 0
    ensures |r| >= 1
    ensures Join(r, sep) == s
    ensures forall k :: 0 <= k < |r| ==> !Contains(r[k], sep)
    decreases |s|
  {
    match IndexOf(s, sep)
    case None => [s]
    case Some(i) =>
      var head, tail := s[..i], s[i + |sep|..];
      var rest := Split(tail, sep);
      assert s == head + sep + tail by {
        assert s[i..i + |sep|] == sep;
        assert s == s[..i] + s[i..i + |sep|] + s[i + |sep|..];
      }
      assert !Contains(head, sep) by {
        forall p | OccursAt(head, sep, p) ensures false {
          assert s[p..p + |sep|] == head[p..p + |sep|];
          assert OccursAt(s, sep, p);
        }
      }
      [head] + rest
  }

  /** The text before the first `sep`, or all of `s` when there is none (`strings.Split(s, sep)[0]`). */
  function Before(s: string, sep: string): (r: string)
    requires |sep| > 0
    ensures !Contains(r, sep)
    ensures r == s || (r + sep <= s)
  {
    var parts := Split(s, sep);
    match IndexOf(s, sep)
    case None => s
    case Some(i) =>
      assert s[..i] + sep == s[..i + |sep|] by { assert s[i..i + |sep|] == sep; }
      parts[0]
  }

  /**
   * `a` followed by `sep` has no occurrence of `sep` starting inside `a`: the
   * first occurrence is the appended one. A piece of a split that is not the
   * last one always has this property.
   */
  ghost predicate Separable(a: string, sep: string) {
    forall p :: 0 <= p < |a| ==> !OccursAt(a + sep, sep, p)
  }

  /** With a one-character separator, a piece is separable exactly when it does not contain the separator. */
  lemma SeparableSingle(a: string, sep: string)
    requires |sep| == 1
    ensures Separable(a, sep) <==> !Contains(a, sep)
  {
    if Separable(a, sep) {
      forall p | OccursAt(a, sep, p) ensures false {
        assert (a + sep)[p..p + 1] == a[p..p + 1];
        assert OccursAt(a + sep, sep, p);
      }
    }
    if !Contains(a, sep) {
      forall p | 0 <= p < |a| ensures !OccursAt(a + sep, sep, p) {
        assert (a + sep)[p..p + 1] == a[p..p + 1];
        assert !OccursAt(a, sep, p);
      }
    }
  }

  /** A separable piece has no occurrence of the separator in it. */
  lemma SeparableHasNoSep(a: string, sep: string)
    requires |sep| > 0 && Separable(a, sep)
    ensures !Contains(a, sep)
  {
    forall p | OccursAt(a, sep, p) ensures false {
      assert (a + sep)[p..p + |sep|] == a[p..p + |sep|];
      assert OccursAt(a + sep, sep, p);
    }
  }

  /** In `a + sep + b` with `a` separable, the first `sep` is the one right after `a`. */
  lemma FirstOccurrence(a: string, sep: string, b: string)
    requires |sep| > 0 && Separable(a, sep)
    ensures IndexOf(a + sep + b, sep) == Some(|a|)
  {
    var s := a + sep + b;
    assert s[|a|..|a| + |sep|] == sep;
    assert OccursAt(s, sep, |a|);
    var r := IndexOf(s, sep);
    assert r.Some?;
    if r.value < |a| {
      assert s[r.value..r.value + |sep|] == (a + sep)[r.value..r.value + |sep|];
      assert OccursAt(a + sep, sep, r.value);
    }
  }

  /** Splitting the join of separable pieces gives the pieces back. */
  lemma {:induction false} SplitJoin(parts: seq<string>, sep: string)
    requires |sep| > 0 && |parts| >= 1
    requires forall k :: 0 <= k < |parts| ==> Separable(parts[k], sep)
    ensures Split(Join(parts, sep), sep) == parts
    decreases |parts|
  {
    SeparableHasNoSep(parts[0], sep);
    if |parts| > 1 {
      var a, t := parts[0], Join(parts[1..], sep);
      FirstOccurrence(a, sep, t);
      var s := a + sep + t;
      assert s[..|a|] == a && s[|a| + |sep|..] == t;
      SplitJoin(parts[1..], sep);
      assert Split(s, sep) == [a] + parts[1..];
    }
  }

  /** The text before the first `sep` of `a + sep + b`, for separable `a`, is `a`. */
  lemma BeforeJoined(a: string, sep: string, b: string)
    requires |sep| > 0 && Separable(a, sep)
    ensures Before(a + sep + b, sep) == a
  {
    FirstOccurrence(a, sep, b);
    assert (a + sep + b)[..|a|] == a;
  }

  /** A text without `sep` is its own part before `sep`. */
  lemma BeforeWhole(s: string, sep: string)
    requires |sep| > 0 && !Contains(s, sep)
    ensures Before(s, sep) == s
  {
  }

  // ---------------------------------------------------------------------------
  // Decimal integers
  // ---------------------------------------------------------------------------

  predicate IsDigit(c: char) { '0' <= c <= '9' }

  predicate AllDigits(d: string) { forall i :: 0 <= i < |d| ==> IsDigit(d[i]) }

  function DigitValue(c: char): nat requires IsDigit(c) { c as int - '0' as int }

  /** The value of a string of decimal digits, most significant first. */
  function DigitsValue(d: string): nat
    requires AllDigits(d)
  {
    if |d| == 0 then 0 else DigitsValue(d[..|d| - 1]) * 10 + DigitValue(d[|d| - 1])
  }

  /** The longest prefix of `s` made of decimal digits. */
  function DigitPrefix(s: string): (r: string)
    ensures AllDigits(r) && r <= s
    ensures r == s || !IsDigit(s[|r|])
  {
    if |s| == 0 || !IsDigit(s[0]) then "" else [s[0]] + DigitPrefix(s[1..])
  }

  /** What `strconv.Atoi` gives back: the value (meaningful even on error) and whether there was no error. */
  datatype AtoiResult = AtoiResult(value: int, ok: bool)

  function Clamp(negative: bool): int { if negative then MinInt64 else MaxInt64 }

  /**
   * Go's `strconv.Atoi` on a 64-bit platform: an optional `+` or `-`, then one
   * or more decimal digits. A syntax error gives 0; a value outside the int64
   * range gives the nearest bound, also with an error. Digits that overflow
   * 64 bits before a bad character is reached report the range error, as
   * `strconv.ParseUint` stops at the overflow.
   */
  function Atoi(s: string): (r: AtoiResult)
    ensures r.ok ==> InInt64(r.value)
    ensures !r.ok ==> r.value in {0, MinInt64, MaxInt64}
    ensures !r.ok && r.value != 0 ==> (r.value == MinInt64 <==> |s| > 0 && s[0] == '-')
  {
    var negative := |s| > 0 && s[0] == '-';
    var rest := if |s| > 0 && (s[0] == '-' || s[0] == '+') then s[1..] else s;
    var prefix := DigitPrefix(rest);
    if DigitsValue(prefix) > MaxUint64 then AtoiResult(Clamp(negative), false)
    else if |rest| == 0 || prefix != rest then AtoiResult(0, false)
    else
      var v: int := DigitsValue(rest);
      var n := if negative then -v else v;
      if InInt64(n) then AtoiResult(n, true) else AtoiResult(Clamp(negative), false)
  }

  function DigitChar(d: nat): (c: char)
    requires d < 10
    ensures IsDigit(c) && DigitValue(c) == d
  {
    ('0' as int + d) as char
  }

  /** The decimal digits of `n`, with no leading zero. */
  function NatToString(n: nat): (r: string)
    ensures |r| >= 1 && AllDigits(r) && DigitsValue(r) == n
    ensures IsDigit(r[0])
  {
    if n < 10 then [DigitChar(n)]
    else
      var r := NatToString(n / 10) + [DigitChar(n % 10)];
      assert r[..|r| - 1] == NatToString(n / 10);
      r
  }

  /** Go's `strconv.Itoa` / `%v` / `%d` of an `int`. */
  function Itoa(n: int): string {
    if n < 0 then "-" + NatToString(-n) else NatToString(n)
  }

  /** A string of digits contains no `-`. */
  lemma DigitsHaveNoDash(d: string)
    requires AllDigits(d)
    ensures !Contains(d, "-")
  {
    forall p | 0 <= p < |d| ensures !OccursAt(d, "-", p) {
      assert d[p..p + 1][0] == d[p];
    }
  }

  lemma DigitPrefixOfDigits(d: string)
    requires AllDigits(d)
    ensures DigitPrefix(d) == d
  {
    if |d| > 0 { DigitPrefixOfDigits(d[1..]); }
  }

  /** Every int64 survives `strconv.Itoa` followed by `strconv.Atoi`. */
  lemma {:induction false} AtoiItoa(n: int)
    requires InInt64(n)
    ensures Atoi(Itoa(n)) == AtoiResult(n, true)
  {
    var s := Itoa(n);
    if n < 0 {
      var d := NatToString(-n);
      assert s[1..] == d;
      DigitPrefixOfDigits(d);
    } else {
      DigitPrefixOfDigits(s);
    }
  }

  /** `Itoa` never produces two different texts for two different numbers. */
  lemma ItoaInjective(m: int, n: int)
    requires InInt64(m) && InInt64(n) && Itoa(m) == Itoa(n)
    ensures m == n
  {
    AtoiItoa(m);
    AtoiItoa(n);
  }
}
