/**
 * The java.lang.String, Character and Integer behaviour the backend relies on,
 * stated over Dafny strings (sequences of char). Java strings are UTF-16; the
 * model treats every char as one code unit and never meets surrogate pairs.
 */
module JavaStrings {
  import opened Wrappers

  const INT_MIN: int := -0x8000_0000
  const INT_MAX: int := 0x7FFF_FFFF

  predicate IsInt32(x: int) {
    INT_MIN <= x <= INT_MAX
  }

  /** Java's `int` arithmetic: the result of an addition or subtraction kept modulo 2^32. */
  function Wrap32(x: int): (r: int)
    ensures IsInt32(r)
    ensures (x - r) % 0x1_0000_0000 == 0
    ensures IsInt32(x) ==> r == x
  {
    (x + 0x8000_0000) % 0x1_0000_0000 - 0x8000_0000
  }

  // ---------------------------------------------------------------------------
  // Character classes
  // ---------------------------------------------------------------------------

  /** Character.isWhitespace: the space, line and paragraph separators except the
    * non-breaking ones, plus the ASCII controls TAB..CR and FS..US. */
  predicate IsWhitespace(c: char) {
    c == ' ' || ('\t' <= c <= '\r') || ('\U{1C}' <= c <= '\U{1F}')
    || c == '\U{1680}' || ('\U{2000}' <= c <= '\U{2006}') || ('\U{2008}' <= c <= '\U{200A}')
    || c == '\U{2028}' || c == '\U{2029}' || c == '\U{205F}' || c == '\U{3000}'
  }

  /** StringUtils.isBlank / hasText negated: null, empty or whitespace only. */
  predicate Blank(s: string) {
    forall i :: 0 <= i < |s| ==> IsWhitespace(s[i])
  }

  predicate BlankOpt(s: Option<string>) {
    s.None? || Blank(s.value)
  }

  predicate HasText(s: Option<string>) {
    !BlankOpt(s)
  }

  /** How string concatenation renders a reference that may be null. */
  function Concatenated(s: Option<string>): string {
    if s.None? then "null" else s.value
  }

  predicate NullOrEmpty(s: Option<string>) {
    s.None? || s.value == ""
  }

  /** The characters String.trim removes: every code point up to and including the space. */
  predicate IsTrimmable(c: char) {
    c <= ' '
  }

  // ---------------------------------------------------------------------------
  // trim
  // ---------------------------------------------------------------------------

  function TrimStart(s: string): (r: string)
    ensures |r| <= |s| && r == s[|s| - |r|..]
    ensures |r| > 0 ==> !IsTrimmable(r[0])
    ensures forall i :: 0 <= i < |s| - |r| ==> IsTrimmable(s[i])
  {
    if |s| > 0 && IsTrimmable(s[0]) then TrimStart(s[1..]) else s
  }

  function TrimEnd(s: string): (r: string)
    ensures |r| <= |s| && r == s[..|r|]
    ensures |r| > 0 ==> !IsTrimmable(r[|r| - 1])
    ensures forall i :: |r| <= i < |s| ==> IsTrimmable(s[i])
  {
    if |s| > 0 && IsTrimmable(s[|s| - 1]) then TrimEnd(s[..|s| - 1]) else s
  }

  /** How many leading chars String.trim drops. */
  function TrimOffset(s: string): (k: nat)
    ensures k <= |s|
  {
    |s| - |TrimStart(s)|
  }

  /** String.trim: the infix that neither starts nor ends with a trimmable char, with only
    * trimmable chars around it. */
  function Trim(s: string): (r: string)
    ensures TrimOffset(s) + |r| <= |s| && r == s[TrimOffset(s)..TrimOffset(s) + |r|]
    ensures |r| > 0 ==> !IsTrimmable(r[0]) && !IsTrimmable(r[|r| - 1])
    ensures forall i :: 0 <= i < TrimOffset(s) ==> IsTrimmable(s[i])
    ensures forall i :: TrimOffset(s) + |r| <= i < |s| ==> IsTrimmable(s[i])
    ensures r == "" <==> forall i :: 0 <= i < |s| ==> IsTrimmable(s[i])
  {
    var a := TrimStart(s);
    var b := TrimEnd(a);
    TrimmedInfix(s, a, b);
    b
  }

  /**
   * The facts behind Trim's contract, from what TrimStart and TrimEnd promise:
   * `a` is a suffix of `s` after a trimmable run, `b` a prefix of `a` before one.
   */
  lemma TrimmedInfix(s: string, a: string, b: string)
    requires |a| <= |s| && a == s[|s| - |a|..]
    requires |a| > 0 ==> !IsTrimmable(a[0])
    requires forall i :: 0 <= i < |s| - |a| ==> IsTrimmable(s[i])
    requires |b| <= |a| && b == a[..|b|]
    requires |b| > 0 ==> !IsTrimmable(b[|b| - 1])
    requires forall i :: |b| <= i < |a| ==> IsTrimmable(a[i])
    ensures |s| - |a| + |b| <= |s| && b == s[|s| - |a|..|s| - |a| + |b|]
    ensures |b| > 0 ==> !IsTrimmable(b[0]) && !IsTrimmable(b[|b| - 1])
    ensures forall i :: |s| - |a| + |b| <= i < |s| ==> IsTrimmable(s[i])
    ensures b == "" <==> forall i :: 0 <= i < |s| ==> IsTrimmable(s[i])
  {
    var k := |s| - |a|;
    assert s[k..][..|b|] == s[k..k + |b|];
    forall i | k + |b| <= i < |s|
      ensures IsTrimmable(s[i])
    {
      assert s[i] == a[i - k];
    }
    if b != "" {
      assert b[0] == a[0] == s[k];
    }
  }

  /** Neither end is trimmable: exactly the strings String.trim leaves as they are (TrimmedIff). */
  predicate Trimmed(s: string) {
    |s| > 0 ==> !IsTrimmable(s[0]) && !IsTrimmable(s[|s| - 1])
  }

  lemma TrimOfTrimmed(s: string)
    requires |s| > 0 ==> !IsTrimmable(s[0]) && !IsTrimmable(s[|s| - 1])
    ensures Trim(s) == s
  {
  }

  lemma TrimmedIff(s: string)
    ensures Trim(s) == s <==> Trimmed(s)
  {
  }

  /** One space on either side of an already trimmed text is what trim removes. */
  lemma TrimPadded(s: string)
    requires |s| > 0 && !IsTrimmable(s[0]) && !IsTrimmable(s[|s| - 1])
    ensures Trim(" " + s + " ") == s
  {
    var padded := " " + s + " ";
    assert padded[1..] == s + " ";
    assert TrimStart(s + " ") == s + " " by {
      assert (s + " ")[0] == s[0];
    }
    assert TrimStart(padded) == s + " ";
    assert (s + " ")[..|s|] == s;
    assert TrimEnd(s + " ") == TrimEnd(s);
    TrimOfTrimmed(s);
  }

  // ---------------------------------------------------------------------------
  // Case conversion (ASCII letters only)
  // ---------------------------------------------------------------------------

  function LowerChar(c: char): char {
    if 'A' <= c <= 'Z' then (c as int + 32) as char else c
  }

  function UpperChar(c: char): char {
    if 'a' <= c <= 'z' then (c as int - 32) as char else c
  }

  function Lower(s: string): (r: string)
    ensures |r| == |s|
    ensures forall i :: 0 <= i < |s| ==> r[i] == LowerChar(s[i])
  {
    if s == "" then "" else [LowerChar(s[0])] + Lower(s[1..])
  }

  function Upper(s: string): (r: string)
    ensures |r| == |s|
    ensures forall i :: 0 <= i < |s| ==> r[i] == UpperChar(s[i])
  {
    if s == "" then "" else [UpperChar(s[0])] + Upper(s[1..])
  }

  /** A text without upper-case ASCII letters is its own lower case. */
  lemma LowerKeeps(s: string)
    requires forall i :: 0 <= i < |s| ==> !('A' <= s[i] <= 'Z')
    ensures Lower(s) == s
  {
  }

  /** String.equalsIgnoreCase, restricted to ASCII folding. */
  predicate EqualsIgnoreCase(a: string, b: string) {
    Lower(a) == Lower(b)
  }

  // ---------------------------------------------------------------------------
  // Searching
  // ---------------------------------------------------------------------------

  predicate StartsWith(s: string, p: string) {
    p <= s
  }

  predicate Contains(s: string, t: string)
    decreases |s|
  {
    t <= s || (|s| > 0 && Contains(s[1..], t))
  }

  /** A text contains any infix of itself. */
  lemma {:induction false} ContainsInfix(a: string, t: string, b: string)
    ensures Contains(a + t + b, t)
  {
    if a == [] {
      assert a + t + b == t + b;
      assert t <= t + b;
    } else {
      assert (a + t + b)[1..] == a[1..] + t + b;
      ContainsInfix(a[1..], t, b);
    }
  }

  /** Upper-casing works char by char, so it distributes over concatenation. */
  lemma UpperConcat(a: string, b: string)
    ensures Upper(a + b) == Upper(a) + Upper(b)
  {
  }

  /** String.indexOf(char): the first position of c, or -1. */
  function IndexOf(s: string, c: char): (r: int)
    ensures -1 <= r < |s|
    ensures r == -1 <==> c !in s
    ensures r >= 0 ==> s[r] == c && c !in s[..r]
  {
    if s == "" then -1
    else if s[0] == c then 0
    else
      var k := IndexOf(s[1..], c);
      if k == -1 then
        assert s == [s[0]] + s[1..];
        -1
      else
        assert s[..k + 1] == [s[0]] + s[1..][..k];
        k + 1
  }

  /** String.lastIndexOf(char): the last position of c, or -1. */
  function LastIndexOf(s: string, c: char): (r: int)
    ensures -1 <= r < |s|
    ensures r == -1 <==> c !in s
    ensures r >= 0 ==> s[r] == c && c !in s[r + 1..]
  {
    if s == "" then -1
    else if s[|s| - 1] == c then |s| - 1
    else
      var init := s[..|s| - 1];
      var k := LastIndexOf(init, c);
      if k == -1 then
        assert s == init + [s[|s| - 1]];
        -1
      else
        assert s[k + 1..] == init[k + 1..] + [s[|s| - 1]];
        k
  }

  /** Text after the last occurrence does not move it. */
  lemma {:induction false} LastIndexAfter(p: string, b: string, c: char)
    requires c !in b
    ensures LastIndexOf(p + b, c) == LastIndexOf(p, c)
  {
    if b == "" {
      assert p + b == p;
    } else {
      var init := b[..|b| - 1];
      assert (p + b)[..|p + b| - 1] == p + init;
      LastIndexAfter(p, init, c);
    }
  }

  /** Text free of the char in front shifts the first occurrence by its length. */
  lemma {:induction false} IndexAfterPrefix(a: string, b: string, c: char)
    requires c !in a && c in b
    ensures IndexOf(a + b, c) == |a| + IndexOf(b, c)
  {
    if a != "" {
      assert (a + b)[1..] == a[1..] + b;
      IndexAfterPrefix(a[1..], b, c);
    } else {
      assert a + b == b;
    }
  }

  // ---------------------------------------------------------------------------
  // replace(CharSequence, CharSequence): one left-to-right pass, no rescanning
  // ---------------------------------------------------------------------------

  function Replace(s: string, target: string, replacement: string): string
    requires |target| > 0
    decreases |s|
  {
    if target <= s then replacement + Replace(s[|target|..], target, replacement)
    else if s == "" then ""
    else [s[0]] + Replace(s[1..], target, replacement)
  }

  lemma ReplaceAbsent(s: string, target: string, replacement: string)
    requires |target| > 0 && target[0] !in s
    ensures Replace(s, target, replacement) == s
  {
    if s != "" {
      assert s[0] != target[0];
      ReplaceAbsent(s[1..], target, replacement);
    }
  }

  lemma ReplacePrefix(target: string, replacement: string, s: string)
    requires |target| > 0
    ensures Replace(target + s, target, replacement) == replacement + Replace(s, target, replacement)
  {
    assert (target + s)[|target|..] == s;
  }

  /** With a one-char target the replacement works char by char, so it distributes over concatenation. */
  lemma {:induction false} ReplaceCharConcat(a: string, b: string, c: char, replacement: string)
    ensures Replace(a + b, [c], replacement) == Replace(a, [c], replacement) + Replace(b, [c], replacement)
  {
    if a == "" {
      assert a + b == b;
    } else {
      assert (a + b)[1..] == a[1..] + b;
      ReplaceCharConcat(a[1..], b, c, replacement);
    }
  }

  lemma ReplaceCharSingle(x: char, c: char, replacement: string)
    ensures Replace([x], [c], replacement) == if x == c then replacement else [x]
  {
    assert [x][1..] == "";
    assert Replace("", [c], replacement) == "";
    if x == c {
      assert [c] <= [x];
    } else {
      assert [x][..1] == [x] && [c][0] != [x][0];
    }
  }

  /** After replacing c by a text free of c, no c remains; and a char d absent from s and from the replacement stays absent. */
  lemma {:induction false} ReplaceCharRemoves(s: string, c: char, replacement: string, d: char)
    requires c !in replacement
    requires d !in s && d !in replacement
    ensures c !in Replace(s, [c], replacement)
    ensures d !in Replace(s, [c], replacement)
  {
    if s != "" {
      assert s == [s[0]] + s[1..];
      ReplaceCharConcat([s[0]], s[1..], c, replacement);
      ReplaceCharSingle(s[0], c, replacement);
      ReplaceCharRemoves(s[1..], c, replacement, d);
    }
  }

  // ---------------------------------------------------------------------------
  // split(regex) with limit 0, for a one-char separator, and join
  // ---------------------------------------------------------------------------

  function Join(parts: seq<string>, sep: string): (r: string)
  {
    if |parts| == 0 then ""
    else if |parts| == 1 then parts[0]
    else parts[0] + sep + Join(parts[1..], sep)
  }

  /** Every piece between separators, empty ones included: n separators give n + 1 pieces. */
  function RawSplit(s: string, c: char): (r: seq<string>)
    ensures |r| >= 1
    ensures forall i :: 0 <= i < |r| ==> c !in r[i]
    ensures Join(r, [c]) == s
  {
    if s == "" then [""]
    else
      var rest := RawSplit(s[1..], c);
      if s[0] == c then
        assert s == [c] + s[1..];
        [""] + rest
      else
        var r := [[s[0]] + rest[0]] + rest[1..];
        assert r[1..] == rest[1..];
        assert s == [s[0]] + s[1..];
        r
  }

  function DropTrailingEmpty(parts: seq<string>): (r: seq<string>)
    ensures r <= parts
    ensures |r| > 0 ==> r[|r| - 1] != ""
    ensures forall i :: |r| <= i < |parts| ==> parts[i] == ""
  {
    if |parts| > 0 && parts[|parts| - 1] == "" then DropTrailingEmpty(parts[..|parts| - 1]) else parts
  }

  /** String.split with limit 0: no separator gives the input itself (so "" gives [""]);
    * otherwise all pieces with the trailing empty ones removed. */
  function Split(s: string, c: char): (r: seq<string>)
    ensures c !in s ==> r == [s]
    ensures c in s ==> r <= RawSplit(s, c)
    ensures forall i :: 0 <= i < |r| ==> c !in r[i]
  {
    if c !in s then [s] else DropTrailingEmpty(RawSplit(s, c))
  }

  lemma {:induction false} RawSplitNoSep(s: string, c: char)
    requires c !in s
    ensures RawSplit(s, c) == [s]
  {
    if s != "" {
      RawSplitNoSep(s[1..], c);
    }
  }

  /** Splitting a join of separator-free pieces gives the pieces back. */
  lemma {:induction false} RawSplitJoin(parts: seq<string>, c: char)
    requires |parts| >= 1
    requires forall i :: 0 <= i < |parts| ==> c !in parts[i]
    ensures RawSplit(Join(parts, [c]), c) == parts
  {
    if |parts| == 1 {
      RawSplitNoSep(parts[0], c);
    } else {
      RawSplitJoin(parts[1..], c);
      RawSplitPrefix(parts[0], Join(parts[1..], [c]), c);
    }
  }

  lemma {:induction false} RawSplitPrefix(p: string, s: string, c: char)
    requires c !in p
    ensures RawSplit(p + [c] + s, c) == [p] + RawSplit(s, c)
  {
    if p == "" {
      assert p + [c] + s == [c] + s;
      assert ([c] + s)[1..] == s;
    } else {
      assert (p + [c] + s)[1..] == p[1..] + [c] + s;
      RawSplitPrefix(p[1..], s, c);
      assert [p[0]] + p[1..] == p;
    }
  }

  /** Splitting a join of separator-free pieces whose last piece is non-empty gives the pieces back. */
  lemma SplitJoin(parts: seq<string>, c: char)
    requires |parts| >= 1 && parts[|parts| - 1] != ""
    requires forall i :: 0 <= i < |parts| ==> c !in parts[i]
    ensures Split(Join(parts, [c]), c) == parts
  {
    var s := Join(parts, [c]);
    RawSplitJoin(parts, c);
    if |parts| == 1 {
      RawSplitNoSep(parts[0], c);
    } else {
      assert s == parts[0] + [c] + Join(parts[1..], [c]);
      assert s[|parts[0]|] == c;
    }
  }

  // ---------------------------------------------------------------------------
  // Decimal numbers
  // ---------------------------------------------------------------------------

  predicate IsDigit(c: char) {
    '0' <= c <= '9'
  }

  /** Concatenation regrouped, as a fact the solver can use by name. */
  lemma ConcatAssoc(x: string, y: string, z: string)
    ensures x + (y + z) == (x + y) + z
  {
  }

  /** Every character is an ASCII digit. */
  predicate AllDigits(ds: string) {
    forall i :: 0 <= i < |ds| ==> IsDigit(ds[i])
  }

  function DigitValue(c: char): nat
    requires IsDigit(c)
  {
    c as int - '0' as int
  }

  function DigitChar(d: nat): (c: char)
    requires d < 10
    ensures IsDigit(c) && DigitValue(c) == d
  {
    ('0' as int + d) as char
  }

  /** The value of a run of decimal digits, most significant first. */
  function DigitsValue(ds: string): nat
    requires AllDigits(ds)
  {
    if ds == "" then 0 else DigitsValue(ds[..|ds| - 1]) * 10 + DigitValue(ds[|ds| - 1])
  }

  /** Long.toString / Integer.toString of a non-negative number. */
  function NatToString(n: nat): (r: string)
    ensures |r| > 0
    ensures AllDigits(r)
  {
    if n < 10 then [DigitChar(n)] else NatToString(n / 10) + [DigitChar(n % 10)]
  }

  function IntToString(i: int): string {
    if i < 0 then "-" + NatToString(-i) else NatToString(i)
  }

  lemma {:induction false} NatToStringValue(n: nat)
    ensures DigitsValue(NatToString(n)) == n
  {
    var r := NatToString(n);
    if n >= 10 {
      NatToStringValue(n / 10);
      assert r[..|r| - 1] == NatToString(n / 10);
    }
  }

  /** Distinct numbers have distinct decimal renderings. */
  lemma IntToStringInjective(a: int, b: int)
    requires IntToString(a) == IntToString(b)
    ensures a == b
  {
    var sa := IntToString(a);
    if a < 0 {
      assert sa[0] == '-' && !IsDigit(sa[0]);
      assert b < 0;
      assert sa[1..] == NatToString(-a) && sa[1..] == NatToString(-b);
      NatToStringValue(-a);
      NatToStringValue(-b);
    } else {
      assert IsDigit(sa[0]);
      assert b >= 0;
      NatToStringValue(a);
      NatToStringValue(b);
    }
  }

  function NumberFormatMessage(s: string): string {
    "For input string: \"" + s + "\""
  }

  /**
   * Integer.parseInt(s, 10) restricted to ASCII digits: an optional sign, at
   * least one digit '0'..'9', and a value that fits in 32 bits. Java's
   * Character.digit also accepts other Unicode decimal digits; those are
   * rejected here.
   */
  function ParseInt(s: Option<string>): (r: Result<int, string>)
    ensures r.Success? ==> IsInt32(r.value)
    ensures s.None? || s.value == "" ==> r.Failure?
  {
    if s.None? then Failure("Cannot parse null string: null")
    else
      var t := s.value;
      var negative := |t| > 0 && t[0] == '-';
      var signed := |t| > 0 && (t[0] == '-' || t[0] == '+');
      var digits := if signed then t[1..] else t;
      if digits == "" || !AllDigits(digits) then
        Failure(NumberFormatMessage(t))
      else
        var magnitude: int := DigitsValue(digits);
        var v := if negative then -magnitude else magnitude;
        if IsInt32(v) then Success(v) else Failure(NumberFormatMessage(t))
  }

  /** The decimal rendering of every 32-bit int parses back to the same int. */
  lemma ParseIntToString(i: int)
    requires IsInt32(i)
    ensures ParseInt(Some(IntToString(i))) == Success(i)
  {
    if i < 0 {
      NatToStringValue(-i);
      assert ("-" + NatToString(-i))[1..] == NatToString(-i);
    } else {
      NatToStringValue(i);
    }
  }
}
