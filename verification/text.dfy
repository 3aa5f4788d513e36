/**
 * The parts of Rust's `str`, `char` and `u32` that the scraper relies on:
 * `split`, `trim`, `replace`, `u32::from_str` and the `{}` / `{:0>2}`
 * formatting of `format!`. Strings are sequences of Unicode scalar values,
 * as Rust's `chars()` sees them.
 */
module Text {
  import opened Wrappers

  // ---------------------------------------------------------------------
  // Whitespace and trimming
  // ---------------------------------------------------------------------

  /** `char::is_whitespace`: the characters with the Unicode White_Space property. */
  predicate IsWhitespace(c: char) {
    var n := c as int;
    (9 <= n <= 13) || n == 0x20 || n == 0x85 || n == 0xA0 || n == 0x1680
    || (0x2000 <= n <= 0x200A) || n == 0x2028 || n == 0x2029 || n == 0x202F
    || n == 0x205F || n == 0x3000
  }

  predicate AllWhitespace(s: string) {
    forall i :: 0 <= i < |s| ==> IsWhitespace(s[i])
  }

  /** True of a string that `Trim` leaves alone: no whitespace at either end. */
  predicate IsTrimmed(s: string) {
    s == [] || (!IsWhitespace(s[0]) && !IsWhitespace(s[|s| - 1]))
  }

  /** The first position at or after `i` that does not hold whitespace (or the end). */
  function SkipWhitespace(s: string, i: nat): (j: nat)
    requires i <= |s|
    ensures i <= j <= |s|
    ensures forall k :: i <= k < j ==> IsWhitespace(s[k])
    ensures j < |s| ==> !IsWhitespace(s[j])
    decreases |s| - i
  {
    if i < |s| && IsWhitespace(s[i]) then SkipWhitespace(s, i + 1) else i
  }

  /** The position just after the last non-whitespace character before `j` (or 0). */
  function SkipWhitespaceBack(s: string, j: nat): (i: nat)
    requires j <= |s|
    ensures i <= j
    ensures forall k :: i <= k < j ==> IsWhitespace(s[k])
    ensures 0 < i ==> !IsWhitespace(s[i - 1])
  {
    if 0 < j && IsWhitespace(s[j - 1]) then SkipWhitespaceBack(s, j - 1) else j
  }

  /**
   * `str::trim`: the slice of `s` between its leading and its trailing
   * whitespace, empty when `s` holds only whitespace.
   */
  function Trim(s: string): (r: string)
    ensures IsTrimmed(r)
  {
    var a, b := SkipWhitespace(s, 0), SkipWhitespaceBack(s, |s|);
    if a < b then s[a..b] else []
  }

  /**
   * The trim of `s` is a slice of `s` with only whitespace on either side
   * of it, and it starts and ends with a character that is not whitespace.
   */
  lemma TrimSlice(s: string)
    ensures var k, r := SkipWhitespace(s, 0), Trim(s);
      k + |r| <= |s| && r == s[k..k + |r|]
      && AllWhitespace(s[..k]) && AllWhitespace(s[k + |r|..])
  {
  }

  /** `Trim` of every element, as `.map(|x| x.trim())`. */
  function TrimEach(parts: seq<string>): seq<string> {
    seq(|parts|, i requires 0 <= i < |parts| => Trim(parts[i]))
  }

  /** Trimming removes exactly the whitespace put around a trimmed string. */
  lemma TrimAround(w1: string, x: string, w2: string)
    requires AllWhitespace(w1) && AllWhitespace(w2) && IsTrimmed(x)
    ensures Trim(w1 + x + w2) == x
  {
    var s := w1 + x + w2;
    var a, b := SkipWhitespace(s, 0), SkipWhitespaceBack(s, |s|);
    assert forall k :: 0 <= k < |w1| ==> s[k] == w1[k];
    assert forall k :: 0 <= k < |w2| ==> s[|w1| + |x| + k] == w2[k];
    if x == [] {
      assert a == |s|;
    } else {
      assert s[|w1|] == x[0] && s[|w1| + |x| - 1] == x[|x| - 1];
      assert a == |w1|;
      assert b == |w1| + |x|;
      assert s[a..b] == x;
    }
  }

  /** A trimmed string is its own trim; in particular `Trim` is idempotent. */
  lemma TrimTrimmed(s: string)
    requires IsTrimmed(s)
    ensures Trim(s) == s
  {
    TrimAround([], s, []);
    assert [] + s + [] == s;
  }

  /** A space after a trimmed string is trimmed away. */
  lemma TrimSpaceAfter(x: string)
    requires IsTrimmed(x)
    ensures Trim(x + " ") == x
  {
    assert [] + x + " " == x + " ";
    TrimAround([], x, " ");
  }

  /** A space before a trimmed string is trimmed away. */
  lemma TrimSpaceBefore(x: string)
    requires IsTrimmed(x)
    ensures Trim(" " + x) == x
  {
    assert " " + x + [] == " " + x;
    TrimAround(" ", x, []);
  }

  // ---------------------------------------------------------------------
  // Searching, splitting, joining, replacing
  // ---------------------------------------------------------------------

  /** `pat` matches `s` at position `i`. */
  predicate Occurs(s: string, pat: string, i: nat) {
    i + |pat| <= |s| && s[i..i + |pat|] == pat
  }

  ghost predicate Contains(s: string, pat: string) {
    exists i: nat :: Occurs(s, pat, i)
  }

  /** The first position at or after `i` where `pat` matches `s`, if any. */
  function IndexFrom(s: string, pat: string, i: nat): (r: Option<nat>)
    requires |pat| > 0 && i <= |s|
    ensures r.Some? ==> i <= r.value && Occurs(s, pat, r.value)
    ensures r.Some? ==> forall j: nat :: i <= j < r.value ==> !Occurs(s, pat, j)
    ensures r.None? ==> forall j: nat :: i <= j ==> !Occurs(s, pat, j)
    decreases |s| - i
  {
    if i + |pat| > |s| then None
    else if Occurs(s, pat, i) then Some(i)
    else IndexFrom(s, pat, i + 1)
  }

  /** The pieces of `parts` with `sep` between consecutive ones. */
  function Join(parts: seq<string>, sep: string): string
    decreases |parts|
  {
    if |parts| == 0 then []
    else if |parts| == 1 then parts[0]
    else parts[0] + sep + Join(parts[1..], sep)
  }

  lemma MatchInPrefix(s: string, pat: string, n: nat, j: nat)
    requires n <= |s| && Occurs(s[..n], pat, j)
    ensures Occurs(s, pat, j) && j + |pat| <= n
  {
    assert s[..n][j..j + |pat|] == s[j..j + |pat|];
  }

  /**
   * `str::split` with a non-empty pattern: the pieces of `s` between the
   * matches of `sep`, which are found left to right without overlapping.
   * There is always at least one piece.
   */
  function Split(s: string, sep: string): (r: seq<string>)
    requires |sep| > 0
    ensures |r| >= 1
    decreases |s|
  {
    match IndexFrom(s, sep, 0)
    case None => [s]
    case Some(i) => [s[..i]] + Split(s[i + |sep|..], sep)
  }

  /** Joining a first piece in front of at least one other. */
  lemma JoinCons(first: string, rest: seq<string>, sep: string)
    requires |rest| >= 1
    ensures Join([first] + rest, sep) == first + sep + Join(rest, sep)
  {
    assert ([first] + rest)[1..] == rest;
  }

  /** Joining the pieces with the separator gives the string back. */
  lemma {:induction false} SplitJoinsBack(s: string, sep: string)
    requires |sep| > 0
    ensures Join(Split(s, sep), sep) == s
    decreases |s|
  {
    match IndexFrom(s, sep, 0)
    case None =>
    case Some(i) =>
      var rest := s[i + |sep|..];
      var pieces := Split(rest, sep);
      SplitJoinsBack(rest, sep);
      assert Split(s, sep) == [s[..i]] + pieces;
      JoinCons(s[..i], pieces, sep);
      assert s == s[..i] + sep + rest by { assert s[i..i + |sep|] == sep; }
  }

  /** No piece contains the separator. */
  lemma {:induction false} SplitPiecesFree(s: string, sep: string)
    requires |sep| > 0
    ensures forall k :: 0 <= k < |Split(s, sep)| ==> !Contains(Split(s, sep)[k], sep)
    decreases |s|
  {
    match IndexFrom(s, sep, 0)
    case None =>
    case Some(i) =>
      var rest := s[i + |sep|..];
      SplitPiecesFree(rest, sep);
      assert !Contains(s[..i], sep) by {
        forall j: nat | Occurs(s[..i], sep, j) ensures false {
          MatchInPrefix(s, sep, i, j);
        }
      }
      var r := Split(s, sep);
      assert forall k :: 1 <= k < |r| ==> r[k] == Split(rest, sep)[k - 1];
  }

  /** A string with no match of `sep` is a single piece. */
  lemma SplitNoMatch(s: string, sep: string)
    requires |sep| > 0
    ensures !Contains(s, sep) ==> Split(s, sep) == [s]
  {
  }

  /** A string is cut in two or more pieces exactly when it contains the separator. */
  lemma SplitPieces(s: string, sep: string)
    requires |sep| > 0
    ensures Contains(s, sep) <==> |Split(s, sep)| >= 2
  {
    var r := Split(s, sep);
    if |r| == 1 {
      SplitJoinsBack(s, sep);
      SplitPiecesFree(s, sep);
      assert Join(r, sep) == r[0];
    }
  }

  /** A one-character pattern occurs wherever its character does. */
  lemma CharContained(s: string, c: char)
    requires c in s
    ensures Contains(s, [c])
  {
    var i :| 0 <= i < |s| && s[i] == c;
    assert Occurs(s, [c], i);
  }

  /** A string without the first character of `sep` cannot contain `sep`. */
  lemma NoMatchWithoutFirstChar(s: string, sep: string)
    requires |sep| > 0 && sep[0] !in s
    ensures !Contains(s, sep)
  {
    forall j: nat ensures !Occurs(s, sep, j) {
      if j + |sep| <= |s| {
        assert s[j..j + |sep|][0] == s[j];
      }
    }
  }

  /** A leading separator splits off an empty first piece. */
  lemma SplitLeadingSep(sep: string, x: string)
    requires |sep| > 0
    ensures Split(sep + x, sep) == [[]] + Split(x, sep)
  {
    var s := sep + x;
    assert Occurs(s, sep, 0) by { assert s[0..|sep|] == sep; }
    assert IndexFrom(s, sep, 0) == Some(0);
    assert s[|sep|..] == x;
  }

  /** The first piece ends at the first separator when `a` cannot start one. */
  lemma SplitHead(a: string, sep: string, b: string)
    requires |sep| > 0 && sep[0] !in a
    ensures Split(a + sep + b, sep) == [a] + Split(b, sep)
  {
    var s := a + sep + b;
    assert Occurs(s, sep, |a|) by { assert s[|a|..|a| + |sep|] == sep; }
    forall j: nat | j < |a| ensures !Occurs(s, sep, j) {
      if j + |sep| <= |s| {
        assert s[j..j + |sep|][0] == s[j] == a[j];
      }
    }
    assert IndexFrom(s, sep, 0) == Some(|a|);
    assert s[..|a|] == a;
    assert s[|a| + |sep|..] == b;
  }

  /** Two pieces around the one separator. */
  lemma SplitPair(a: string, sep: string, b: string)
    requires |sep| > 0 && sep[0] !in a && sep[0] !in b
    ensures Split(a + sep + b, sep) == [a, b]
  {
    SplitHead(a, sep, b);
    NoMatchWithoutFirstChar(b, sep);
    SplitNoMatch(b, sep);
  }

  /** The first two pieces end at the first two separators when neither can start one. */
  lemma SplitTwoHeads(a: string, sep: string, b: string, rest: string)
    requires |sep| > 0 && sep[0] !in a && sep[0] !in b
    ensures Split(a + sep + b + sep + rest, sep) == [a, b] + Split(rest, sep)
  {
    assert a + sep + b + sep + rest == a + sep + (b + sep + rest);
    SplitHead(a, sep, b + sep + rest);
    SplitHead(b, sep, rest);
  }

  /**
   * Splitting undoes joining, when the separator's first character is in
   * none of the pieces.
   */
  lemma {:induction false} SplitJoin(parts: seq<string>, sep: string)
    requires |parts| >= 1 && |sep| > 0
    requires forall k :: 0 <= k < |parts| ==> sep[0] !in parts[k]
    ensures Split(Join(parts, sep), sep) == parts
    decreases |parts|
  {
    if |parts| == 1 {
      NoMatchWithoutFirstChar(parts[0], sep);
      SplitNoMatch(parts[0], sep);
    } else {
      SplitHead(parts[0], sep, Join(parts[1..], sep));
      SplitJoin(parts[1..], sep);
      assert [parts[0]] + parts[1..] == parts;
    }
  }

  /**
   * `str::replace`: every match of `from`, found as `Split` finds them,
   * replaced by `to`. A string with no match is returned unchanged.
   */
  function Replace(s: string, from: string, to: string): (r: string)
    requires |from| > 0
    ensures !Contains(s, from) ==> r == s
  {
    SplitNoMatch(s, from);
    Join(Split(s, from), to)
  }

  /**
   * `s` is made of pieces free of `from`, joined by `from`; the replacement
   * is the same pieces joined by `to`.
   */
  lemma ReplacePieces(s: string, from: string, to: string)
    requires |from| > 0
    ensures var pieces := Split(s, from);
      && Join(pieces, from) == s
      && (forall k :: 0 <= k < |pieces| ==> !Contains(pieces[k], from))
      && Replace(s, from, to) == Join(pieces, to)
  {
    SplitJoinsBack(s, from);
    SplitPiecesFree(s, from);
  }

  /** Removing a pattern that leads the string, and occurs nowhere else, leaves the rest. */
  lemma RemoveLeading(pat: string, x: string)
    requires |pat| > 0 && !Contains(x, pat)
    ensures Replace(pat + x, pat, []) == x
  {
    SplitLeadingSep(pat, x);
    SplitNoMatch(x, pat);
    assert Split(pat + x, pat) == [[], x];
    assert Join([[], x], []) == [] + [] + Join([x], []);
  }

  // ---------------------------------------------------------------------
  // Decimal numbers
  // ---------------------------------------------------------------------

  const U32_MAX: nat := 0xFFFF_FFFF

  /** Rust's `u32`. */
  type u32 = n: nat | n <= U32_MAX

  predicate IsDigit(c: char) {
    '0' <= c <= '9'
  }

  predicate AllDigits(s: string) {
    forall i :: 0 <= i < |s| ==> IsDigit(s[i])
  }

  /** A character that is not a digit does not occur among digits. */
  lemma NonDigitAbsent(s: string, c: char)
    requires AllDigits(s) && !IsDigit(c)
    ensures c !in s
  {
  }

  function DigitChar(d: nat): (c: char)
    requires d < 10
    ensures IsDigit(c) && c as int - '0' as int == d
  {
    (d + '0' as int) as char
  }

  /** The number an ASCII digit string denotes in base ten. */
  function DecimalValue(ds: string): nat
    requires AllDigits(ds)
    decreases |ds|
  {
    if ds == [] then 0
    else 10 * DecimalValue(ds[..|ds| - 1]) + (ds[|ds| - 1] as int - '0' as int)
  }

  /**
   * `n` written in base ten by `format!("{}", n)`: digits only, no leading
   * zero, and denoting `n`.
   */
  function NatToDecimal(n: nat): (r: string)
    ensures |r| >= 1 && AllDigits(r) && DecimalValue(r) == n
    ensures r[0] == '0' ==> r == "0"
    decreases n
  {
    if n < 10 then [DigitChar(n)]
    else
      var r := NatToDecimal(n / 10) + [DigitChar(n % 10)];
      assert r[..|r| - 1] == NatToDecimal(n / 10);
      r
  }

  /**
   * `u32::from_str`: an optional leading '+', then one or more ASCII digits
   * whose value fits in 32 bits; anything else is an error.
   */
  function ParseU32(s: string): Option<u32> {
    var digits := if |s| > 0 && s[0] == '+' then s[1..] else s;
    if |digits| > 0 && AllDigits(digits) && DecimalValue(digits) <= U32_MAX
    then Some(DecimalValue(digits))
    else None
  }

  /** Parsing reads back what formatting wrote. */
  lemma ParseU32OfDecimal(n: u32)
    ensures ParseU32(NatToDecimal(n)) == Some(n)
  {
    var r := NatToDecimal(n);
    assert IsDigit(r[0]);
  }

  /** `format!("{:0>w}", s)`: `s` right-aligned in a field of `width` characters, filled on the left with `fill`. */
  function PadLeft(s: string, fill: char, width: nat): (r: string)
    ensures |r| == if |s| < width then width else |s|
    ensures r[|r| - |s|..] == s
    ensures forall i :: 0 <= i < |r| - |s| ==> r[i] == fill
  {
    if |s| < width then seq(width - |s|, _ => fill) + s else s
  }

  /** A string of zeros denotes zero. */
  lemma {:induction false} ZerosValue(z: string)
    requires forall i :: 0 <= i < |z| ==> z[i] == '0'
    ensures AllDigits(z) && DecimalValue(z) == 0
    decreases |z|
  {
    if z != [] {
      ZerosValue(z[..|z| - 1]);
    }
  }

  /** Leading zeros do not change the number a digit string denotes. */
  lemma {:induction false} LeadingZeros(z: string, s: string)
    requires forall i :: 0 <= i < |z| ==> z[i] == '0'
    requires AllDigits(s)
    ensures AllDigits(z + s) && DecimalValue(z + s) == DecimalValue(s)
    decreases |s|
  {
    ZerosValue(z);
    if s == [] {
      assert z + s == z;
    } else {
      assert (z + s)[..|z + s| - 1] == z + s[..|s| - 1];
      LeadingZeros(z, s[..|s| - 1]);
    }
  }

  /** Padding a digit string with '0' keeps it a digit string denoting the same number. */
  lemma PadLeftDecimal(s: string, width: nat)
    requires AllDigits(s)
    ensures AllDigits(PadLeft(s, '0', width)) && DecimalValue(PadLeft(s, '0', width)) == DecimalValue(s)
  {
    if |s| < width {
      LeadingZeros(seq(width - |s|, _ => '0'), s);
    }
  }
}
