/** The JavaScript string and number built-ins the dashboard relies on:
    `toLowerCase`, `trim`, `includes`, `length` and `slice` (which count
    UTF-16 code units), the formatting of an integer inside a template
    literal, and `parseInt(s, 10)`.

    Case mapping is ASCII-only, and "whitespace" is a fixed set of code points
    (the ASCII blanks, no-break space, the byte-order mark and the two Unicode
    line separators); the full Unicode tables are not modelled. */
module Text {
  import opened Wrappers

  // ---------------------------------------------------------------------
  // Lower-casing

  /** `toLowerCase` on one character (ASCII letters only). */
  function LowerChar(c: char): (r: char)
    ensures !('A' <= r <= 'Z')
    ensures 'A' <= c <= 'Z' ==> r as int == c as int + 32
    ensures !('A' <= c <= 'Z') ==> r == c
  {
    if 'A' <= c <= 'Z' then (c as int + 32) as char else c
  }

  /** `String.prototype.toLowerCase`, character by character. */
  function Lower(s: string): (r: string)
    ensures |r| == |s|
    ensures forall i | 0 <= i < |s| :: !('A' <= r[i] <= 'Z') && (IsSpace(r[i]) <==> IsSpace(s[i]))
  {
    seq(|s|, i requires 0 <= i < |s| => LowerChar(s[i]))
  }

  /** Lower-casing twice is lower-casing once, and a lower-cased string
      holds no upper-case letter. */
  lemma {:induction false} LowerIdempotent(s: string)
    ensures Lower(Lower(s)) == Lower(s)
    ensures forall i | 0 <= i < |Lower(s)| :: !('A' <= Lower(s)[i] <= 'Z')
  {
  }

  lemma {:induction false} LowerAppend(a: string, b: string)
    ensures Lower(a + b) == Lower(a) + Lower(b)
  {
  }

  // ---------------------------------------------------------------------
  // Whitespace and trimming

  /** The whitespace characters that `trim` and `parseInt` skip. */
  predicate IsSpace(c: char) {
    || c == ' ' || c == '\t' || c == '\n' || c == '\r' || c == '\U{000B}' || c == '\U{000C}'
    || c == '\U{00A0}' || c == '\U{FEFF}' || c == '\U{2028}' || c == '\U{2029}'
  }

  predicate AllSpace(s: string) {
    forall i | 0 <= i < |s| :: IsSpace(s[i])
  }

  /** `trimStart`: the suffix of `s` left after its leading whitespace. */
  function TrimStart(s: string): (r: string)
    ensures |r| <= |s| && r == s[|s| - |r|..]
    ensures r == [] || !IsSpace(r[0])
  {
    if s != [] && IsSpace(s[0]) then TrimStart(s[1..]) else s
  }

  /** `trimEnd`: the prefix of `s` left after its trailing whitespace. */
  function TrimEnd(s: string): (r: string)
    ensures |r| <= |s| && r == s[..|r|]
    ensures r == [] || !IsSpace(r[|r| - 1])
  {
    if s != [] && IsSpace(s[|s| - 1]) then TrimEnd(s[..|s| - 1]) else s
  }

  /** What `trimStart` drops is whitespace. */
  lemma {:induction false} TrimStartDropsSpace(s: string)
    ensures AllSpace(s[..|s| - |TrimStart(s)|])
  {
    if s != [] && IsSpace(s[0]) {
      TrimStartDropsSpace(s[1..]);
      var k := |s| - |TrimStart(s)|;
      assert s[..k] == [s[0]] + s[1..][..k - 1];
    }
  }

  /** What `trimEnd` drops is whitespace. */
  lemma {:induction false} TrimEndDropsSpace(s: string)
    ensures AllSpace(s[|TrimEnd(s)|..])
  {
    if s != [] && IsSpace(s[|s| - 1]) {
      var p := s[..|s| - 1];
      TrimEndDropsSpace(p);
      var k := |TrimEnd(s)|;
      assert s[k..] == p[k..] + [s[|s| - 1]];
    }
  }

  /** `String.prototype.trim`: `s` without its surrounding whitespace. What
      is left neither begins nor ends with whitespace; `TrimIsSlice` shows
      that it is a contiguous piece of `s`. */
  function Trim(s: string): (r: string)
    ensures r == [] || (!IsSpace(r[0]) && !IsSpace(r[|r| - 1]))
  {
    TrimEnd(TrimStart(s))
  }

  /** The trimmed text is a slice of `s` with only whitespace around it. */
  lemma {:induction false} TrimIsSlice(s: string)
    ensures exists i, j | 0 <= i <= j <= |s| :: Trim(s) == s[i..j] && AllSpace(s[..i]) && AllSpace(s[j..])
  {
    var t := TrimStart(s);
    var r := TrimEnd(t);
    TrimStartDropsSpace(s);
    TrimEndDropsSpace(t);
    SuffixPrefix(s, t, r);
    var i := |s| - |t|;
    assert Trim(s) == s[i..i + |r|];
  }

  /** A prefix `r` of a suffix `t` of `s` is a slice of `s`. */
  lemma {:induction false} SuffixPrefix(s: string, t: string, r: string)
    requires |t| <= |s| && t == s[|s| - |t|..]
    requires |r| <= |t| && r == t[..|r|]
    ensures var i := |s| - |t|;
            s[i + |r|..] == t[|r|..] && s[i..i + |r|] == r
  {
  }

  /** A string trims to nothing exactly when it is all whitespace. */
  lemma {:induction false} TrimEmptyIffBlank(s: string)
    ensures Trim(s) == [] <==> AllSpace(s)
  {
    var t := TrimStart(s);
    if Trim(s) == [] {
      TrimStartDropsSpace(s);
      TrimEndDropsSpace(t);
      assert t[0..] == t;
      assert s == s[..|s| - |t|] + t;
      AllSpaceAppend(s[..|s| - |t|], t);
    } else if AllSpace(s) {
      TrimStartOfBlank(s);
    }
  }

  lemma {:induction false} TrimStartSkipsSpace(w: string, s: string)
    requires AllSpace(w)
    ensures TrimStart(w + s) == TrimStart(s)
  {
    if w != [] {
      assert (w + s)[1..] == w[1..] + s;
      TrimStartSkipsSpace(w[1..], s);
    } else {
      assert w + s == s;
    }
  }

  lemma {:induction false} TrimEndSkipsSpace(s: string, w: string)
    requires AllSpace(w)
    ensures TrimEnd(s + w) == TrimEnd(s)
  {
    if w != [] {
      assert (s + w)[..|s + w| - 1] == s + w[..|w| - 1];
      TrimEndSkipsSpace(s, w[..|w| - 1]);
    } else {
      assert s + w == s;
    }
  }

  lemma {:induction false} TrimStartKeepsTail(s: string, w: string)
    requires TrimStart(s) != []
    ensures TrimStart(s + w) == TrimStart(s) + w
  {
    if IsSpace(s[0]) {
      assert (s + w)[1..] == s[1..] + w;
      TrimStartKeepsTail(s[1..], w);
    }
  }

  lemma {:induction false} TrimStartOfBlank(s: string)
    requires AllSpace(s)
    ensures TrimStart(s) == []
  {
    if s != [] {
      assert AllSpace(s[1..]);
      TrimStartOfBlank(s[1..]);
    }
  }

  lemma {:induction false} BlankOfTrimStart(s: string)
    requires TrimStart(s) == []
    ensures AllSpace(s)
  {
    TrimStartDropsSpace(s);
    assert s[..|s|] == s;
  }

  lemma {:induction false} AllSpaceAppend(a: string, b: string)
    requires AllSpace(a) && AllSpace(b)
    ensures AllSpace(a + b)
  {
    forall i | 0 <= i < |a + b|
      ensures IsSpace((a + b)[i])
    {
      if i < |a| {
        assert (a + b)[i] == a[i];
      } else {
        assert (a + b)[i] == b[i - |a|];
      }
    }
  }

  lemma {:induction false} TrimUnfold(s: string)
    ensures Trim(s) == TrimEnd(TrimStart(s))
  {
  }

  lemma {:induction false} TrimStartSkipsPrefix(w1: string, s: string, w2: string)
    requires AllSpace(w1)
    ensures TrimStart(w1 + s + w2) == TrimStart(s + w2)
  {
    assert w1 + s + w2 == w1 + (s + w2);
    TrimStartSkipsSpace(w1, s + w2);
  }

  lemma {:induction false} TrimStartOfBlankPadded(s: string, w2: string)
    requires AllSpace(w2) && TrimStart(s) == []
    ensures TrimStart(s + w2) == []
  {
    BlankOfTrimStart(s);
    AllSpaceAppend(s, w2);
    TrimStartOfBlank(s + w2);
  }

  lemma {:induction false} TrimOfPadded(s: string, w2: string)
    requires AllSpace(w2) && TrimStart(s) != []
    ensures TrimEnd(TrimStart(s + w2)) == TrimEnd(TrimStart(s))
  {
    TrimStartKeepsTail(s, w2);
    TrimEndSkipsSpace(TrimStart(s), w2);
  }

  /** Whitespace around a string does not survive `trim`. */
  lemma {:induction false} TrimIgnoresPadding(w1: string, s: string, w2: string)
    requires AllSpace(w1) && AllSpace(w2)
    ensures Trim(w1 + s + w2) == Trim(s)
  {
    TrimStartSkipsPrefix(w1, s, w2);
    TrimUnfold(w1 + s + w2);
    TrimUnfold(s);
    if TrimStart(s) == [] {
      TrimStartOfBlankPadded(s, w2);
    } else {
      TrimOfPadded(s, w2);
    }
  }

  /** Lower-casing neither makes nor removes whitespace. */
  lemma {:induction false} LowerCharKeepsSpace(c: char)
    ensures IsSpace(LowerChar(c)) <==> IsSpace(c)
  {
  }

  lemma {:induction false} TrimStartLower(s: string)
    ensures TrimStart(Lower(s)) == Lower(TrimStart(s))
  {
    if s != [] {
      LowerCharKeepsSpace(s[0]);
      if IsSpace(s[0]) {
        assert Lower(s)[1..] == Lower(s[1..]);
        TrimStartLower(s[1..]);
      }
    }
  }

  lemma {:induction false} TrimEndLower(s: string)
    ensures TrimEnd(Lower(s)) == Lower(TrimEnd(s))
  {
    if s != [] {
      LowerCharKeepsSpace(s[|s| - 1]);
      if IsSpace(s[|s| - 1]) {
        assert Lower(s)[..|s| - 1] == Lower(s[..|s| - 1]);
        TrimEndLower(s[..|s| - 1]);
      }
    }
  }

  /** Trimming and lower-casing commute: no whitespace character is a letter. */
  lemma {:induction false} TrimLowerCommute(s: string)
    ensures Trim(Lower(s)) == Lower(Trim(s))
  {
    TrimStartLower(s);
    TrimEndLower(TrimStart(s));
  }

  // ---------------------------------------------------------------------
  // Substring search

  /** `q` occurs in `s` starting at index `i`. */
  predicate OccursAt(s: string, q: string, i: int) {
    0 <= i <= |s| - |q| && s[i..i + |q|] == q
  }

  /** `s.includes(q)`: `q` occurs in `s` at some position. */
  predicate Contains(s: string, q: string): (b: bool)
    ensures b ==> |q| <= |s|
  {
    exists i | 0 <= i <= |s| :: OccursAt(s, q, i)
  }

  /** `p` is a prefix of `s`. */
  predicate IsPrefix(p: string, s: string) {
    |p| <= |s| && s[..|p|] == p
  }

  /** A string that occurs in a prefix of `s` occurs in `s`. */
  lemma {:induction false} ContainsInPrefix(p: string, s: string, q: string)
    requires IsPrefix(p, s) && Contains(p, q)
    ensures Contains(s, q)
  {
    var i :| 0 <= i <= |p| && OccursAt(p, q, i);
    assert s[i..i + |q|] == q;
    assert OccursAt(s, q, i);
  }

  /** A string that occurs in the middle part of a concatenation occurs in
      the whole. */
  lemma {:induction false} ContainsInMiddle(a: string, b: string, c: string, q: string)
    requires Contains(b, q)
    ensures Contains(a + b + c, q)
  {
    var i :| 0 <= i <= |b| && OccursAt(b, q, i);
    var s := a + b + c;
    forall k | 0 <= k < |q|
      ensures s[|a| + i + k] == q[k]
    {
      assert b[i..i + |q|][k] == b[i + k];
    }
    assert s[|a| + i..|a| + i + |q|] == q;
    assert OccursAt(s, q, |a| + i);
  }

  /** The empty string occurs in every string. */
  lemma {:induction false} ContainsEmpty(s: string)
    ensures Contains(s, [])
  {
    assert OccursAt(s, [], 0);
  }

  /** No two consecutive characters of `s` lower-case to `x` then `y`. */
  predicate LacksLowerPair(s: string, x: char, y: char) {
    forall i | 0 <= i < |s| - 1 :: !(LowerChar(s[i]) == x && LowerChar(s[i + 1]) == y)
  }

  /** If the lower-cased `s` never shows the pair `x y`, no query holding
      that pair occurs in it. */
  lemma {:induction false} PairRulesOut(s: string, q: string, k: nat, x: char, y: char)
    requires k + 1 < |q| && q[k] == x && q[k + 1] == y
    requires LacksLowerPair(s, x, y)
    ensures !Contains(Lower(s), q)
  {
    forall i | 0 <= i <= |Lower(s)| - |q|
      ensures !OccursAt(Lower(s), q, i)
    {
      assert Lower(s)[i..i + |q|][k] == Lower(s)[i + k];
      assert Lower(s)[i..i + |q|][k + 1] == Lower(s)[i + k + 1];
    }
  }

  lemma {:induction false} LacksLowerPairAppend(a: string, b: string, x: char, y: char)
    requires LacksLowerPair(a, x, y) && LacksLowerPair(b, x, y)
    requires a == [] || b == [] || !(LowerChar(a[|a| - 1]) == x && LowerChar(b[0]) == y)
    ensures LacksLowerPair(a + b, x, y)
  {
    forall i | 0 <= i < |a + b| - 1
      ensures !(LowerChar((a + b)[i]) == x && LowerChar((a + b)[i + 1]) == y)
    {
      if i + 1 < |a| {
        assert (a + b)[i] == a[i] && (a + b)[i + 1] == a[i + 1];
      } else if i >= |a| {
        assert (a + b)[i] == b[i - |a|] && (a + b)[i + 1] == b[i + 1 - |a|];
      }
    }
  }

  // ---------------------------------------------------------------------
  // UTF-16 code units

  /** One UTF-16 code unit: what a JavaScript string's `length` and `slice`
      count. */
  type CodeUnit = u: int | 0 <= u < 0x1_0000

  /** A character beyond the Basic Multilingual Plane, which UTF-16 writes as
      a surrogate pair. */
  predicate IsAstral(c: char) {
    c as int >= 0x1_0000
  }

  predicate IsHighSurrogate(u: CodeUnit) {
    0xD800 <= u < 0xDC00
  }

  /** The code units of one character: the character itself, or a high then
      a low surrogate. */
  function CharUnits(c: char): (u: seq<CodeUnit>)
    ensures |u| == if IsAstral(c) then 2 else 1
    ensures !IsAstral(c) ==> u[0] == c as int
    ensures IsAstral(c) ==> IsHighSurrogate(u[0]) && 0xDC00 <= u[1] < 0xE000
  {
    if IsAstral(c) then
      var v := c as int - 0x1_0000;
      [0xD800 + v / 0x400, 0xDC00 + v % 0x400]
    else [c as int]
  }

  /** How many characters of `s` lie beyond the Basic Multilingual Plane. */
  function AstralCount(s: string): (n: nat)
    ensures n <= |s|
  {
    if s == [] then 0 else (if IsAstral(s[0]) then 1 else 0) + AstralCount(s[1..])
  }

  /** The UTF-16 form of `s`, as JavaScript stores it: one code unit per
      character, two for each character beyond the Basic Multilingual Plane. */
  function Utf16(s: string): (u: seq<CodeUnit>)
    ensures |u| == |s| + AstralCount(s)
  {
    if s == [] then [] else CharUnits(s[0]) + Utf16(s[1..])
  }

  lemma {:induction false} Utf16Append(a: string, b: string)
    ensures Utf16(a + b) == Utf16(a) + Utf16(b)
    decreases |a|
  {
    if a != [] {
      assert (a + b)[0] == a[0];
      assert (a + b)[1..] == a[1..] + b;
      Utf16Append(a[1..], b);
    } else {
      assert a + b == b;
    }
  }

  /** Text within the Basic Multilingual Plane has one code unit per
      character, equal to the character. */
  lemma {:induction false} Utf16OfPlainText(s: string)
    requires forall i | 0 <= i < |s| :: !IsAstral(s[i])
    ensures |Utf16(s)| == |s|
    ensures forall i | 0 <= i < |s| :: Utf16(s)[i] == s[i] as int
    decreases |s|
  {
    if s != [] {
      Utf16OfPlainText(s[1..]);
      assert forall i | 0 <= i < |s| - 1 :: Utf16(s)[i + 1] == Utf16(s[1..])[i];
    }
  }

  /** Text made only of characters beyond the Basic Multilingual Plane has
      two code units per character. */
  lemma {:induction false} Utf16OfAstralText(s: string)
    requires forall i | 0 <= i < |s| :: IsAstral(s[i])
    ensures |Utf16(s)| == 2 * |s|
    decreases |s|
  {
    if s != [] {
      Utf16OfAstralText(s[1..]);
    }
  }

  // ---------------------------------------------------------------------
  // Decimal numerals

  predicate IsDigit(c: char) {
    '0' <= c <= '9'
  }

  function DigitChar(d: nat): (c: char)
    requires d < 10
    ensures IsDigit(c)
  {
    ('0' as int + d) as char
  }

  function DigitValue(c: char): (d: nat)
    requires IsDigit(c)
    ensures d < 10 && DigitChar(d) == c
  {
    c as int - '0' as int
  }

  /** The decimal numeral of `n`, as `${n}` shows a non-negative integer. */
  function NatToString(n: nat): (s: string)
    ensures |s| > 0 && forall i | 0 <= i < |s| :: IsDigit(s[i])
  {
    if n < 10 then [DigitChar(n)] else NatToString(n / 10) + [DigitChar(n % 10)]
  }

  /** `${n}` for any integer: a minus sign before the numeral of `-n`. */
  function IntToString(n: int): (s: string)
    ensures |s| > 0 && (s[0] == '-' <==> n < 0)
  {
    if n < 0 then "-" + NatToString(-n) else NatToString(n)
  }

  /** The value of a string of decimal digits, most significant first. */
  function DigitsValue(s: string): (n: nat)
    requires forall i | 0 <= i < |s| :: IsDigit(s[i])
  {
    if s == [] then 0 else DigitsValue(s[..|s| - 1]) * 10 + DigitValue(s[|s| - 1])
  }

  /** Reading back a numeral gives the number it was written from. */
  lemma {:induction false} DigitsValueOfNatToString(n: nat)
    ensures DigitsValue(NatToString(n)) == n
  {
    if n >= 10 {
      var s := NatToString(n);
      assert s[..|s| - 1] == NatToString(n / 10);
      DigitsValueOfNatToString(n / 10);
    }
  }

  /** The longest prefix of `s` made of decimal digits. */
  function LeadingDigits(s: string): (d: string)
    ensures IsPrefix(d, s)
    ensures forall i | 0 <= i < |d| :: IsDigit(s[i])
    ensures |d| == |s| || !IsDigit(s[|d|])
  {
    if s != [] && IsDigit(s[0]) then [s[0]] + LeadingDigits(s[1..]) else []
  }

  lemma {:induction false} LeadingDigitsOfNumeral(d: string, rest: string)
    requires forall i | 0 <= i < |d| :: IsDigit(d[i])
    requires rest == [] || !IsDigit(rest[0])
    ensures LeadingDigits(d + rest) == d
  {
    if d == [] {
      assert d + rest == rest;
    } else {
      assert (d + rest)[1..] == d[1..] + rest;
      LeadingDigitsOfNumeral(d[1..], rest);
    }
  }

  /** `parseInt(s, 10)`: skip leading whitespace, read an optional sign, then
      the longest run of decimal digits; `None` stands for `NaN` (no digit).
      `-0` is read as 0, which behaves the same wherever the result is used. */
  function ParseInt(s: string): (r: Option<int>)
    ensures r.None? <==> LeadingDigits(SignStripped(TrimStart(s))) == []
  {
    var t := TrimStart(s);
    var negative := t != [] && t[0] == '-';
    var digits := LeadingDigits(SignStripped(t));
    if digits == [] then None
    else if negative then Some(0 - DigitsValue(digits) as int)
    else Some(DigitsValue(digits))
  }

  /** `t` without one leading `+` or `-`. */
  function SignStripped(t: string): (r: string)
    ensures r == t || (t != [] && (t[0] == '+' || t[0] == '-') && r == t[1..])
  {
    if t != [] && (t[0] == '+' || t[0] == '-') then t[1..] else t
  }

  /** `parseInt` of a string that starts with a sign or a digit: no
      whitespace is skipped. */
  lemma {:induction false} ParseIntNoSpace(t: string)
    requires t != [] && (t[0] == '-' || IsDigit(t[0]))
    ensures ParseInt(t) ==
              var digits := LeadingDigits(SignStripped(t));
              if digits == [] then None
              else if t[0] == '-' then Some(0 - DigitsValue(digits) as int)
              else Some(DigitsValue(digits))
  {
    assert !IsSpace(t[0]);
    assert TrimStart(t) == t;
  }

  /** The digits read after the sign of a written integer are its numeral. */
  lemma {:induction false} SignedNumeralDigits(n: int, rest: string)
    requires rest == [] || !IsDigit(rest[0])
    ensures var m: nat := if n < 0 then -n else n;
            LeadingDigits(SignStripped(IntToString(n) + rest)) == NatToString(m)
  {
    var m: nat := if n < 0 then -n else n;
    var d := NatToString(m);
    var s := IntToString(n) + rest;
    if n < 0 {
      assert s == "-" + (d + rest);
      assert SignStripped(s) == d + rest;
    } else {
      assert s == d + rest;
      assert SignStripped(s) == d + rest;
    }
    LeadingDigitsOfNumeral(d, rest);
  }

  /** `parseInt` reads back every integer that a template literal writes,
      whatever non-digit text follows it (so `"250abc"` reads as 250). */
  lemma {:induction false} ParseIntOfIntToString(n: int, rest: string)
    requires rest == [] || !IsDigit(rest[0])
    ensures ParseInt(IntToString(n) + rest) == Some(n)
  {
    var m: nat := if n < 0 then -n else n;
    DigitsValueOfNatToString(m);
    SignedNumeralDigits(n, rest);
    var s := IntToString(n) + rest;
    assert s[0] == IntToString(n)[0];
    ParseIntNoSpace(s);
  }
}
