/**
 * The few string primitives of Go's `strings` and `strconv` packages (and of
 * JavaScript's `split` and `includes`) that the model relies on: substring
 * search, first-occurrence replacement, splitting on a separator, and decimal
 * formatting and parsing of integers.
 */
module GoStrings {
  import opened Wrappers

  /** `sub` occurs in `s` starting at position `i`. */
  predicate OccursAt(s: string, sub: string, i: nat)
  {
    i + |sub| <= |s| && s[i..i + |sub|] == sub
  }

  /** Position of the first occurrence of `sub` in `s` at or after `from` (Go's `strings.Index`). */
  function IndexFrom(s: string, sub: string, from: nat): (r: Option<nat>)
    ensures r.Some? ==> from <= r.value && OccursAt(s, sub, r.value)
    ensures r.Some? ==> forall j :: from <= j < r.value ==> !OccursAt(s, sub, j)
    ensures r.None? ==> forall j :: from <= j ==> !OccursAt(s, sub, j)
    decreases |s| - from
  {
    if from + |sub| > |s| then None
    else if s[from..from + |sub|] == sub then Some(from)
    else IndexFrom(s, sub, from + 1)
  }

  function Index(s: string, sub: string): Option<nat>
  {
    IndexFrom(s, sub, 0)
  }

  /** Go's `strings.Contains` and JavaScript's `includes`. */
  predicate Contains(s: string, sub: string)
  {
    Index(s, sub).Some?
  }

  lemma ContainsIff(s: string, sub: string)
    ensures Contains(s, sub) <==> exists i :: OccursAt(s, sub, i)
  {
    if Contains(s, sub) {
      assert OccursAt(s, sub, Index(s, sub).value);
    }
  }

  /** Go's `strings.Replace(s, old, new, 1)`: only the first occurrence is replaced. */
  function ReplaceFirst(s: string, pat: string, rep: string): (r: string)
    ensures Index(s, pat).None? ==> r == s
    ensures Index(s, pat).Some? ==>
      var i := Index(s, pat).value;
      r == s[..i] + rep + s[i + |pat|..]
  {
    match Index(s, pat)
    case None => s
    case Some(i) => s[..i] + rep + s[i + |pat|..]
  }

  /** Position of the first `c` in `s`. */
  function CharIndex(s: string, c: char): (r: nat)
    requires c in s
    ensures r < |s| && s[r] == c && c !in s[..r]
  {
    if s[0] == c then 0 else 1 + CharIndex(s[1..], c)
  }

  /**
   * Go's `strings.Split(s, sep)` and JavaScript's `s.split(sep)` for a
   * one-character separator: the pieces between separators, always at least one.
   */
  function Split(s: string, sep: char): (parts: seq<string>)
    ensures |parts| >= 1
    ensures forall k :: 0 <= k < |parts| ==> sep !in parts[k]
    ensures sep !in s ==> parts == [s]
    ensures sep in s ==> parts[0] == s[..CharIndex(s, sep)]
    decreases |s|
  {
    if sep !in s then [s]
    else
      var i := CharIndex(s, sep);
      [s[..i]] + Split(s[i + 1..], sep)
  }

  /** The pieces glued back together with the separator between them. */
  function Join(parts: seq<string>, sep: char): string
  {
    if |parts| == 0 then ""
    else if |parts| == 1 then parts[0]
    else parts[0] + [sep] + Join(parts[1..], sep)
  }

  /** Splitting loses nothing: joining the pieces gives the string back. */
  lemma {:induction false} JoinSplit(s: string, sep: char)
    ensures Join(Split(s, sep), sep) == s
    decreases |s|
  {
    if sep in s {
      var i := CharIndex(s, sep);
      var rest := Split(s[i + 1..], sep);
      JoinSplit(s[i + 1..], sep);
      assert Split(s, sep) == [s[..i]] + rest;
      JoinCons(s[..i], rest, sep);
      SliceAround(s, i);
    }
  }

  lemma JoinCons(first: string, rest: seq<string>, sep: char)
    requires |rest| >= 1
    ensures Join([first] + rest, sep) == first + [sep] + Join(rest, sep)
  {
    assert ([first] + rest)[1..] == rest;
  }

  lemma SliceAround(s: string, i: nat)
    requires i < |s|
    ensures s == s[..i] + [s[i]] + s[i + 1..]
  {
  }

  /** The second piece of a split, when there is one, is the text between the first and second separator. */
  lemma SplitSecond(s: string, sep: char)
    requires sep in s
    ensures |Split(s, sep)| >= 2
    ensures var i := CharIndex(s, sep);
      var t := s[i + 1..];
      Split(s, sep)[1] == if sep in t then t[..CharIndex(t, sep)] else t
  {
  }

  // ---- decimal numbers -------------------------------------------------

  function DigitChar(d: nat): char
    requires d < 10
  {
    "0123456789"[d]
  }

  predicate IsDigit(c: char)
  {
    '0' <= c <= '9'
  }

  function DigitValue(c: char): nat
    requires IsDigit(c)
  {
    (c as int - '0' as int) as nat
  }

  /** The decimal digits of `n`, most significant first, without leading zeros. */
  function NatToDecimal(n: nat): (r: string)
    ensures |r| >= 1 && forall k :: 0 <= k < |r| ==> IsDigit(r[k])
    ensures |r| > 1 ==> r[0] != '0'
  {
    if n < 10 then [DigitChar(n)] else NatToDecimal(n / 10) + [DigitChar(n % 10)]
  }

  /** Go's `fmt.Sprintf("%d", n)` and `strconv.Itoa(n)`. */
  function IntToDecimal(n: int): string
  {
    if n < 0 then "-" + NatToDecimal(-n) else NatToDecimal(n)
  }

  /** The value of a string of decimal digits. */
  function DigitsValue(s: string): nat
    requires forall k :: 0 <= k < |s| ==> IsDigit(s[k])
  {
    if |s| == 0 then 0 else 10 * DigitsValue(s[..|s| - 1]) + DigitValue(s[|s| - 1])
  }

  lemma {:induction false} DigitsValueOfDecimal(n: nat)
    ensures DigitsValue(NatToDecimal(n)) == n
  {
    if n >= 10 {
      var r := NatToDecimal(n);
      DigitsValueOfDecimal(n / 10);
      assert r[..|r| - 1] == NatToDecimal(n / 10);
      assert DigitValue(r[|r| - 1]) == n % 10;
    }
  }

  const MinInt64: int := -0x8000_0000_0000_0000
  const MaxInt64: int := 0x7fff_ffff_ffff_ffff

  predicate AllDigits(s: string)
  {
    |s| >= 1 && forall k :: 0 <= k < |s| ==> IsDigit(s[k])
  }

  /**
   * Go's `strconv.Atoi` on a 64-bit platform: an optional sign followed by
   * at least one decimal digit, whose value fits in 64 bits.
   */
  function Atoi(s: string): (r: Option<int>)
    ensures r.Some? ==> MinInt64 <= r.value <= MaxInt64
  {
    var neg := |s| > 0 && s[0] == '-';
    var body := if |s| > 0 && (s[0] == '-' || s[0] == '+') then s[1..] else s;
    if !AllDigits(body) then None
    else
      var mag: int := DigitsValue(body);
      var v := if neg then -mag else mag;
      if MinInt64 <= v <= MaxInt64 then Some(v) else None
  }

  /** Formatting an in-range integer and parsing it back gives the integer. */
  lemma AtoiOfDecimal(n: int)
    requires MinInt64 <= n <= MaxInt64
    ensures Atoi(IntToDecimal(n)) == Some(n)
  {
    if n < 0 {
      AtoiOfNegative(n);
    } else {
      AtoiOfDigits(n);
    }
  }

  lemma AtoiOfNegative(n: int)
    requires MinInt64 <= n < 0
    ensures Atoi(IntToDecimal(n)) == Some(n)
  {
    var m: nat := -n;
    var d := NatToDecimal(m);
    DigitsValueOfDecimal(m);
    SignedDigits(d);
    assert IntToDecimal(n) == ['-'] + d;
  }

  /** A minus sign prefixed to digits is the first character, and the digits follow it. */
  lemma SignedDigits(d: string)
    requires AllDigits(d)
    ensures var s := ['-'] + d; |s| > 0 && s[0] == '-' && s[1..] == d
  {
    var s := ['-'] + d;
    assert s[1..] == d;
  }

  lemma AtoiOfDigits(n: nat)
    requires n <= MaxInt64
    ensures Atoi(IntToDecimal(n)) == Some(n)
  {
    var d := NatToDecimal(n);
    assert IntToDecimal(n) == d;
    assert IsDigit(d[0]) && AllDigits(d);
    DigitsValueOfDecimal(n);
  }
}
