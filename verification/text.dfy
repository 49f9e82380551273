/** String helpers with Python's meaning: `in` on strings (substring test),
    `lower()`, `startswith`, `rstrip`, `strip`, `split`, `join`, `replace`,
    `str(int)` and `int(str)`. Letters and digits are the ASCII ones;
    whitespace is the full set `str.isspace()` accepts. */
module Text {
  import opened Wrappers

  // ---------------------------------------------------------------------
  // Character classes

  predicate IsUpper(c: char) { 'A' <= c <= 'Z' }

  predicate IsLowerLetter(c: char) { 'a' <= c <= 'z' }

  predicate IsLetter(c: char) { IsUpper(c) || IsLowerLetter(c) }

  predicate IsDigit(c: char) { '0' <= c <= '9' }

  /** Characters the regular-expression class `\w` matches. */
  predicate IsWordChar(c: char) { IsLetter(c) || IsDigit(c) || c == '_' }

  /** The characters `str.isspace()` accepts: what `str.strip()` removes and
      what `\s` matches in a pattern over text. */
  predicate IsSpace(c: char) {
    c == ' ' || '\t' <= c <= '\r' || '\U{1C}' <= c <= '\U{1F}' || c == '\U{85}' || c == '\U{A0}'
    || c == '\U{1680}' || '\U{2000}' <= c <= '\U{200A}' || c == '\U{2028}' || c == '\U{2029}'
    || c == '\U{202F}' || c == '\U{205F}' || c == '\U{3000}'
  }

  function LowerChar(c: char): char {
    if IsUpper(c) then (c as int - 'A' as int + 'a' as int) as char else c
  }

  /** `s.lower()`, ASCII letters only. */
  function Lower(s: string): (r: string)
    ensures |r| == |s|
    ensures forall i :: 0 <= i < |s| ==> r[i] == LowerChar(s[i])
  {
    if |s| == 0 then "" else [LowerChar(s[0])] + Lower(s[1..])
  }

  lemma LowerIdempotent(s: string)
    ensures Lower(Lower(s)) == Lower(s)
  {
    assert forall i :: 0 <= i < |s| ==> LowerChar(LowerChar(s[i])) == LowerChar(s[i]);
  }

  lemma LowerConcat(a: string, b: string)
    ensures Lower(a + b) == Lower(a) + Lower(b)
  {
  }

  // ---------------------------------------------------------------------
  // Substring search

  /** `sub in s` for two strings. */
  predicate Contains(s: string, sub: string) {
    exists i | 0 <= i <= |s| - |sub| :: OccursAt(s, sub, i)
  }

  /** `sub` occurs in `s` starting at index `i`. */
  predicate OccursAt(s: string, sub: string, i: int) {
    0 <= i <= |s| - |sub| && s[i..i + |sub|] == sub
  }

  /** `sub` occurs in `s` once both are lower-cased: the case-insensitive test
      the classifier uses. */
  predicate ContainsIgnoringCase(s: string, sub: string) {
    Contains(Lower(s), Lower(sub))
  }

  /** Some word of `words` is contained in `text`, ignoring case. */
  predicate MentionsAny(text: string, words: seq<string>) {
    exists w | w in words :: ContainsIgnoringCase(text, w)
  }

  lemma EmptyIsContained(s: string)
    ensures Contains(s, "")
  {
    assert OccursAt(s, "", 0);
  }

  /** A text contains, whatever the case, each of its own parts. */
  lemma ContainsPartIgnoringCase(a: string, b: string, d: string)
    ensures ContainsIgnoringCase(a + b + d, b)
  {
    LowerConcat(a + b, d);
    LowerConcat(a, b);
    var s := Lower(a) + Lower(b) + Lower(d);
    assert s[|a|..|a| + |b|] == Lower(b);
    assert OccursAt(s, Lower(b), |a|);
  }

  predicate StartsWith(s: string, prefix: string) {
    |prefix| <= |s| && s[..|prefix|] == prefix
  }

  predicate EndsWith(s: string, suffix: string) {
    |suffix| <= |s| && s[|s| - |suffix|..] == suffix
  }

  /** The first index of `c` in `s`. */
  function IndexOf(s: string, c: char): (i: nat)
    requires c in s
    ensures i < |s| && s[i] == c && c !in s[..i]
  {
    if s[0] == c then 0 else 1 + IndexOf(s[1..], c)
  }

  // ---------------------------------------------------------------------
  // Stripping

  /** `s.rstrip(c)`: drops every trailing `c`. */
  function RStrip(s: string, c: char): (r: string)
    ensures |r| <= |s| && r == s[..|r|]
    ensures |r| == 0 || r[|r| - 1] != c
    ensures forall i :: |r| <= i < |s| ==> s[i] == c
  {
    if |s| > 0 && s[|s| - 1] == c then RStrip(s[..|s| - 1], c) else s
  }

  lemma {:induction false} RStripIdempotent(s: string, c: char)
    ensures RStrip(RStrip(s, c), c) == RStrip(s, c)
  {
    var r := RStrip(s, c);
    assert !(|r| > 0 && r[|r| - 1] == c);
  }

  function LStripSpace(s: string): (r: string)
    ensures |r| <= |s| && r == s[|s| - |r|..]
    ensures |r| == 0 || !IsSpace(r[0])
    ensures forall i :: 0 <= i < |s| - |r| ==> IsSpace(s[i])
  {
    if |s| > 0 && IsSpace(s[0]) then LStripSpace(s[1..]) else s
  }

  function RStripSpace(s: string): (r: string)
    ensures |r| <= |s| && r == s[..|r|]
    ensures |r| == 0 || !IsSpace(r[|r| - 1])
    ensures forall i :: |r| <= i < |s| ==> IsSpace(s[i])
  {
    if |s| > 0 && IsSpace(s[|s| - 1]) then RStripSpace(s[..|s| - 1]) else s
  }

  /** `s.strip()`. */
  function Strip(s: string): (r: string)
    ensures |r| <= |s|
    ensures |r| == 0 || (!IsSpace(r[0]) && !IsSpace(r[|r| - 1]))
  {
    RStripSpace(LStripSpace(s))
  }

  predicate AllSpace(s: string) {
    forall i | 0 <= i < |s| :: IsSpace(s[i])
  }

  /** `s.strip()` is empty exactly when `s` is whitespace only. */
  lemma StripEmptyIff(s: string)
    ensures Strip(s) == "" <==> AllSpace(s)
  {
    var l := LStripSpace(s);
    if AllSpace(s) {
      LStripAllSpace(s);
    }
    if Strip(s) == "" {
      assert AllSpace(l);
      assert |l| == 0;
    }
  }

  lemma LStripAllSpace(s: string)
    requires AllSpace(s)
    ensures LStripSpace(s) == ""
  {
  }

  // ---------------------------------------------------------------------
  // Split and join

  /** `sep.join(parts)`. */
  function Join(parts: seq<string>, sep: string): string {
    if |parts| == 0 then ""
    else if |parts| == 1 then parts[0]
    else parts[0] + sep + Join(parts[1..], sep)
  }

  /** `s.split(c)`: Python keeps empty pieces, so `"".split(",") == [""]`. */
  function Split(s: string, c: char): (r: seq<string>)
    ensures |r| >= 1
    ensures forall i :: 0 <= i < |r| ==> c !in r[i]
    ensures Join(r, [c]) == s
    decreases |s|
  {
    if c !in s then [s]
    else
      var i := IndexOf(s, c);
      var rest := Split(s[i + 1..], c);
      assert s == s[..i] + [c] + s[i + 1..];
      [s[..i]] + rest
  }

  /** Joining pieces that do not contain the separator and splitting again
      gives the pieces back: `split` and `join` are inverse. */
  lemma {:induction false} SplitJoin(parts: seq<string>, c: char)
    requires |parts| >= 1
    requires forall i :: 0 <= i < |parts| ==> c !in parts[i]
    ensures Split(Join(parts, [c]), c) == parts
  {
    if |parts| == 1 {
    } else {
      var s := Join(parts, [c]);
      var tail := Join(parts[1..], [c]);
      assert s == parts[0] + [c] + tail;
      assert s[|parts[0]|] == c;
      assert s[..|parts[0]|] == parts[0];
      assert IndexOf(s, c) == |parts[0]|;
      assert s[|parts[0]| + 1..] == tail;
      SplitJoin(parts[1..], c);
    }
  }

  function Count(s: string, c: char): nat {
    if |s| == 0 then 0 else (if s[0] == c then 1 else 0) + Count(s[1..], c)
  }

  lemma CountSplit(s: string, a: string, c: char)
    ensures Count(s + a, c) == Count(s, c) + Count(a, c)
  {
    if |s| > 0 {
      assert (s + a)[0] == s[0];
      assert (s + a)[1..] == s[1..] + a;
      CountSplit(s[1..], a, c);
    } else {
      assert s + a == a;
    }
  }

  /** `s.split(c)` has one piece more than `s` has separators. */
  lemma {:induction false} SplitLength(s: string, c: char)
    ensures |Split(s, c)| == Count(s, c) + 1
    decreases |s|
  {
    if c !in s {
      CountAbsent(s, c);
    } else {
      var i := IndexOf(s, c);
      SplitLength(s[i + 1..], c);
      assert s == s[..i] + ([c] + s[i + 1..]);
      CountSplit(s[..i], [c] + s[i + 1..], c);
      CountAbsent(s[..i], c);
      assert ([c] + s[i + 1..])[1..] == s[i + 1..];
    }
  }

  lemma CountAbsent(s: string, c: char)
    requires c !in s
    ensures Count(s, c) == 0
  {
    if |s| > 0 {
      assert c !in s[1..];
      CountAbsent(s[1..], c);
    }
  }

  /** `s.replace(c, t)` for a one-character pattern. */
  function ReplaceChar(s: string, c: char, t: string): (r: string)
    ensures c !in t ==> c !in r
  {
    if |s| == 0 then ""
    else (if s[0] == c then t else [s[0]]) + ReplaceChar(s[1..], c, t)
  }

  function Repeat(c: char, n: nat): (r: string)
    ensures |r| == n
    ensures forall i :: 0 <= i < n ==> r[i] == c
  {
    if n == 0 then "" else [c] + Repeat(c, n - 1)
  }

  // ---------------------------------------------------------------------
  // Integers and their decimal text

  function DigitChar(d: nat): char
    requires d < 10
  {
    ('0' as int + d) as char
  }

  function DigitValue(c: char): nat
    requires IsDigit(c)
  {
    c as int - '0' as int
  }

  predicate AllDigits(s: string) {
    forall i | 0 <= i < |s| :: IsDigit(s[i])
  }

  /** `str(n)` for `n >= 0`. */
  function NatToString(n: nat): (r: string)
    ensures |r| >= 1 && AllDigits(r)
    ensures r[0] == '0' ==> n == 0
  {
    if n < 10 then [DigitChar(n)] else NatToString(n / 10) + [DigitChar(n % 10)]
  }

  /** `str(i)`. */
  function IntToString(i: int): (r: string)
    ensures |r| >= 1
  {
    if i < 0 then "-" + NatToString(-i) else NatToString(i)
  }

  /** The value of a run of decimal digits. */
  function ParseDigits(s: string): nat
    requires AllDigits(s)
  {
    if |s| == 0 then 0 else 10 * ParseDigits(s[..|s| - 1]) + DigitValue(s[|s| - 1])
  }

  lemma {:induction false} ParseNatToString(n: nat)
    ensures ParseDigits(NatToString(n)) == n
  {
    if n >= 10 {
      var s := NatToString(n);
      assert s[..|s| - 1] == NatToString(n / 10);
      ParseNatToString(n / 10);
    }
  }

  /** `int(s)` for base-10 text: surrounding whitespace is ignored, an optional
      sign is allowed, single underscores may separate digits, and anything
      else is an error. Only the ASCII digits are digits here. */
  function ParseInt(s: string): (r: Result<int>)
    ensures r.Ok? ==> |Strip(s)| >= 1
  {
    match ParseSigned(Strip(s))
    case Some(v) => Ok(v)
    case None => Err("invalid literal for int() with base 10: " + s)
  }

  /** Digit text as `int()` reads it: digits and underscores, beginning and
      ending with a digit, with never two underscores side by side. */
  predicate IsDigitText(t: string) {
    && |t| >= 1 && IsDigit(t[0]) && IsDigit(t[|t| - 1])
    && (forall i | 0 <= i < |t| :: IsDigit(t[i]) || t[i] == '_')
    && (forall i | 0 <= i < |t| - 1 :: IsDigit(t[i]) || IsDigit(t[i + 1]))
  }

  /** The digits of a digit text with its separators removed. */
  function DropUnderscores(t: string): (r: string)
    ensures (forall i | 0 <= i < |t| :: IsDigit(t[i]) || t[i] == '_') ==> AllDigits(r)
    ensures AllDigits(t) ==> r == t
    ensures |r| <= |t|
  {
    if |t| == 0 then ""
    else
      assert forall i | 0 <= i < |t| - 1 :: t[1..][i] == t[i + 1];
      (if t[0] == '_' then "" else [t[0]]) + DropUnderscores(t[1..])
  }

  /** An optionally signed digit text. */
  function ParseSigned(t: string): (r: Option<int>)
    ensures r.Some? ==> |t| >= 1
    ensures r.Some? ==> IsDigitText(t) || (t[0] in "+-" && IsDigitText(t[1..]))
  {
    if |t| >= 2 && (t[0] == '-' || t[0] == '+') && IsDigitText(t[1..]) then
      var magnitude: int := ParseDigits(DropUnderscores(t[1..]));
      Some(if t[0] == '-' then -magnitude else magnitude)
    else if IsDigitText(t) then Some(ParseDigits(DropUnderscores(t)))
    else None
  }

  /** Underscores between digits are separators. */
  lemma UnderscoreSeparators()
    ensures ParseInt("1_000") == Ok(1000)
  {
    var t := "1_000";
    assert !IsSpace(t[0]) && !IsSpace(t[|t| - 1]);
    LStripSpaceNoSpace(t);
    RStripSpaceNoSpace(t);
    ThousandText();
    ThousandSeparator();
    ThousandDigits();
  }

  lemma ThousandText()
    ensures IsDigitText("1_000")
  {
    var t := "1_000";
    assert forall i | 0 <= i < |t| :: IsDigit(t[i]) || t[i] == '_';
  }

  lemma ThousandSeparator()
    ensures DropUnderscores("1_000") == "1000"
  {
    var t := "1_000";
    assert t[1..] == "_000" && "_000"[1..] == "000";
  }

  lemma ThousandDigits()
    ensures ParseDigits("1000") == 1000
  {
    var d := "1000";
    assert DigitValue('0') == 0 && DigitValue('1') == 1;
    assert d[..1][..0] == "";
    assert ParseDigits(d[..1]) == 1;
    assert d[..2][..1] == d[..1];
    assert ParseDigits(d[..2]) == 10;
    assert d[..3][..2] == d[..2];
    assert ParseDigits(d[..3]) == 100;
    assert d[..|d| - 1] == d[..3];
  }

  /** A doubled underscore, or one at either end, makes the text invalid. */
  lemma MisplacedUnderscores()
    ensures ParseInt("1__0").Err? && ParseInt("_1").Err? && ParseInt("1_").Err?
  {
    LStripSpaceNoSpace("1__0");
    RStripSpaceNoSpace("1__0");
    LStripSpaceNoSpace("_1");
    RStripSpaceNoSpace("_1");
    LStripSpaceNoSpace("1_");
    RStripSpaceNoSpace("1_");
    assert !IsDigitText("1__0") by { assert !IsDigit("1__0"[1]) && !IsDigit("1__0"[2]); }
  }

  lemma LStripSpaceNoSpace(s: string)
    requires |s| == 0 || !IsSpace(s[0])
    ensures LStripSpace(s) == s
  {
  }

  lemma RStripSpaceNoSpace(s: string)
    requires |s| == 0 || !IsSpace(s[|s| - 1])
    ensures RStripSpace(s) == s
  {
  }

  /** `int(str(i)) == i`: the decimal text of an integer parses back to it. */
  lemma ParseIntToString(i: int)
    ensures ParseInt(IntToString(i)) == Ok(i)
  {
    StripOfIntText(i);
    ParseSignedToString(i);
  }

  lemma ParseSignedToString(i: int)
    ensures ParseSigned(IntToString(i)) == Some(i)
  {
    if i < 0 {
      NegativeTextParses(-i);
      assert IntToString(i) == "-" + NatToString(-i);
    } else {
      NatTextIsDigitText(i);
      var d := NatToString(i);
      assert IsDigit(d[0]);
      assert ParseSigned(d) == Some(ParseDigits(DropUnderscores(d)));
    }
  }

  lemma NegativeTextParses(n: nat)
    requires n > 0
    ensures ParseSigned("-" + NatToString(n)) == Some(-(n as int))
  {
    var d := NatToString(n);
    var t := "-" + d;
    NatTextIsDigitText(n);
    assert t[1..] == d && t[0] == '-';
    assert |t| >= 2;
  }

  /** The decimal text of a natural number is digit text that reads back as
      the number. */
  lemma NatTextIsDigitText(n: nat)
    ensures IsDigitText(NatToString(n))
    ensures ParseDigits(DropUnderscores(NatToString(n))) == n
  {
    var d := NatToString(n);
    assert AllDigits(d);
    assert DropUnderscores(d) == d;
    ParseNatToString(n);
  }

  lemma StripOfIntText(i: int)
    ensures Strip(IntToString(i)) == IntToString(i)
  {
    var s := IntToString(i);
    var d := NatToString(if i < 0 then -i else i);
    assert IsDigit(d[|d| - 1]);
    assert s[|s| - 1] == d[|d| - 1];
    LStripSpaceNoSpace(s);
    RStripSpaceNoSpace(s);
  }
}
