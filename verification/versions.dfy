/**
 * The two dotted-version comparators: AgentRegistryImpl's (major, minor,
 * patch, a missing part reading as 0, later parts ignored) and
 * PythonRuntimeDetector's (every component, the shorter side padded with 0).
 * Both return the first differing component's `int` difference, which Java
 * computes modulo 2^32; `wrap` selects that arithmetic, and the model's
 * callers use the exact difference.
 */
module VersionCompare {
  import opened Wrappers
  import opened JavaStrings

  const VERSION_NULL: string := "版本号不能为空"
  const NULL_POINTER: string := "NullPointerException"

  /** The difference of two components, kept modulo 2^32 when `wrap` is set. */
  function Difference(a: int, b: int, wrap: bool): (d: int)
    ensures !wrap ==> d == a - b
    ensures IsInt32(a - b) ==> d == a - b
  {
    if wrap then Wrap32(a - b) else a - b
  }

  function Sign(x: int): int {
    if x > 0 then 1 else if x < 0 then -1 else 0
  }

  function OutOfBounds(index: nat, length: nat): string {
    "Index " + NatToString(index) + " out of bounds for length " + NatToString(length)
  }

  /** The i-th component, or 0 when the version has fewer parts. */
  function Part(parts: seq<string>, i: nat): (r: Result<int, string>)
    ensures i >= |parts| ==> r == Success(0)
    ensures i < |parts| ==> r == ParseInt(Some(parts[i]))
  {
    if i < |parts| then ParseInt(Some(parts[i])) else Success(0)
  }

  // ---------------------------------------------------------------------------
  // AgentRegistryImpl.compareVersion
  // ---------------------------------------------------------------------------

  /**
   * Components are parsed only as far as they are compared: major of each side
   * first, then minor, then patch.
   */
  function RegistryCompareParts(p1: seq<string>, p2: seq<string>, wrap: bool): (r: Result<int, string>)
    ensures |p1| == 0 ==> r == Failure(OutOfBounds(0, 0))
  {
    if |p1| == 0 then Failure(OutOfBounds(0, 0))
    else
      var major1 :- ParseInt(Some(p1[0]));
      if |p2| == 0 then Failure(OutOfBounds(0, 0))
      else
        var major2 :- ParseInt(Some(p2[0]));
        if major1 != major2 then Success(Difference(major1, major2, wrap))
        else
          var minor1 :- Part(p1, 1);
          var minor2 :- Part(p2, 1);
          if minor1 != minor2 then Success(Difference(minor1, minor2, wrap))
          else
            var patch1 :- Part(p1, 2);
            var patch2 :- Part(p2, 2);
            Success(Difference(patch1, patch2, wrap))
  }

  function RegistryCompare(v1: Option<string>, v2: Option<string>, wrap: bool): (r: Result<int, string>)
    ensures v1.None? || v2.None? ==> r == Failure(VERSION_NULL)
  {
    if v1.None? || v2.None? then Failure(VERSION_NULL)
    else RegistryCompareParts(Split(v1.value, '.'), Split(v2.value, '.'), wrap)
  }

  /** The three components of a version whose first three parts (those present) all parse. */
  function Triple(parts: seq<string>): Option<seq<int>> {
    if |parts| > 0 && Part(parts, 0).Success? && Part(parts, 1).Success? && Part(parts, 2).Success? then
      Some([Part(parts, 0).value, Part(parts, 1).value, Part(parts, 2).value])
    else None
  }

  /** Lexicographic order of two triples, as -1, 0 or 1. */
  function LexSign(a: seq<int>, b: seq<int>): int
    requires |a| == 3 && |b| == 3
  {
    if a[0] != b[0] then Sign(a[0] - b[0])
    else if a[1] != b[1] then Sign(a[1] - b[1])
    else Sign(a[2] - b[2])
  }

  /** With exact differences, the comparison orders versions lexicographically by (major, minor, patch). */
  lemma RegistryIsLexicographic(p1: seq<string>, p2: seq<string>)
    requires Triple(p1).Some? && Triple(p2).Some?
    ensures RegistryCompareParts(p1, p2, false).Success?
    ensures Sign(RegistryCompareParts(p1, p2, false).value) == LexSign(Triple(p1).value, Triple(p2).value)
  {
  }

  /** Parts after the third never take part. */
  lemma RegistryIgnoresExtraParts(p1: seq<string>, extra: seq<string>, p2: seq<string>, wrap: bool)
    requires |p1| >= 3
    ensures RegistryCompareParts(p1 + extra, p2, wrap) == RegistryCompareParts(p1, p2, wrap)
  {
    assert (p1 + extra)[0] == p1[0];
    assert Part(p1 + extra, 1) == Part(p1, 1) && Part(p1 + extra, 2) == Part(p1, 2);
  }

  /** A missing minor or patch reads as 0: "1.0" and "1.0.0" compare equal, and so do "1" and "1.0". */
  lemma MissingPartsAreZero(major: string, wrap: bool)
    requires ParseInt(Some(major)).Success?
    ensures RegistryCompareParts([major, "0"], [major, "0", "0"], wrap) == Success(0)
    ensures RegistryCompareParts([major], [major, "0"], wrap) == Success(0)
  {
    assert ParseInt(Some("0")) == Success(0) by {
      assert DigitsValue("0") == DigitsValue("") * 10 + DigitValue('0');
    }
  }

  lemma RegistryPartsAntisymmetric(p1: seq<string>, p2: seq<string>)
    ensures RegistryCompareParts(p1, p2, false).Success? <==> RegistryCompareParts(p2, p1, false).Success?
    ensures RegistryCompareParts(p1, p2, false).Success? ==>
      RegistryCompareParts(p2, p1, false).value == -RegistryCompareParts(p1, p2, false).value
  {
    if |p1| > 0 && |p2| > 0 && ParseInt(Some(p1[0])).Success? && ParseInt(Some(p2[0])).Success? {
      var a, b := ParseInt(Some(p1[0])).value, ParseInt(Some(p2[0])).value;
      if a == b && Part(p1, 1).Success? && Part(p2, 1).Success? {
        if Part(p1, 1).value == Part(p2, 1).value {
          assert RegistryCompareParts(p1, p2, false) ==
            if Part(p1, 2).Success? && Part(p2, 2).Success? then Success(Part(p1, 2).value - Part(p2, 2).value)
            else if Part(p1, 2).Failure? then Failure(Part(p1, 2).error) else Failure(Part(p2, 2).error);
        }
      }
    }
  }

  /** With exact differences, swapping the arguments negates the result, errors included. */
  lemma RegistryAntisymmetric(v1: Option<string>, v2: Option<string>)
    ensures RegistryCompare(v1, v2, false).Success? <==> RegistryCompare(v2, v1, false).Success?
    ensures RegistryCompare(v1, v2, false).Success? ==>
      RegistryCompare(v2, v1, false).value == -RegistryCompare(v1, v2, false).value
  {
    if v1.Some? && v2.Some? {
      RegistryPartsAntisymmetric(Split(v1.value, '.'), Split(v2.value, '.'));
    }
  }

  lemma DigitsValueSnoc(ds: string, c: char)
    requires AllDigits(ds)
    requires IsDigit(c)
    ensures AllDigits(ds + [c])
    ensures DigitsValue(ds + [c]) == DigitsValue(ds) * 10 + DigitValue(c)
  {
    assert (ds + [c])[..|ds|] == ds;
  }

  lemma DigitsOfLow()
    ensures AllDigits("21474") && DigitsValue("21474") == 21474
  {
    var s0: string := [];
    DigitsValueSnoc(s0, '2');
    var s1 := s0 + ['2'];
    DigitsValueSnoc(s1, '1');
    var s2 := s1 + ['1'];
    DigitsValueSnoc(s2, '4');
    var s3 := s2 + ['4'];
    DigitsValueSnoc(s3, '7');
    var s4 := s3 + ['7'];
    DigitsValueSnoc(s4, '4');
    var s5 := s4 + ['4'];
    assert s5 == "21474";
  }

  lemma DigitsOfIntMin()
    ensures AllDigits("2147483648") && DigitsValue("2147483648") == 2147483648
  {
    var s5: string := "21474";
    DigitsOfLow();
    DigitsValueSnoc(s5, '8');
    var s6 := s5 + ['8'];
    DigitsValueSnoc(s6, '3');
    var s7 := s6 + ['3'];
    DigitsValueSnoc(s7, '6');
    var s8 := s7 + ['6'];
    DigitsValueSnoc(s8, '4');
    var s9 := s8 + ['4'];
    DigitsValueSnoc(s9, '8');
    var s10 := s9 + ['8'];
    assert s10 == "2147483648";
  }

  /** Decimal renderings of the two values used below. */
  lemma ParseExtremes()
    ensures ParseInt(Some("0")) == Success(0)
    ensures ParseInt(Some("-2147483648")) == Success(INT_MIN)
  {
    var zero: string := [];
    DigitsValueSnoc(zero, '0');
    assert zero + ['0'] == "0";
    ParseUnsigned("0");
    DigitsOfIntMin();
    assert "-2147483648" == "-" + "2147483648";
    ParseNegative("2147483648");
  }

  /** Digits without a sign parse to their value when it fits. */
  lemma ParseUnsigned(digits: string)
    requires digits != "" && AllDigits(digits)
    requires IsInt32(DigitsValue(digits))
    ensures ParseInt(Some(digits)) == Success(DigitsValue(digits))
  {
    assert IsDigit(digits[0]);
  }

  /** A minus sign and digits parse to the negated value when it fits. */
  lemma ParseNegative(digits: string)
    requires digits != "" && AllDigits(digits)
    requires IsInt32(0 - DigitsValue(digits))
    ensures ParseInt(Some("-" + digits)) == Success(0 - DigitsValue(digits))
  {
    var t := "-" + digits;
    assert t[0] == '-' && t[1..] == digits && AllDigits(t[1..]);
  }

  /**
   * As written, a difference that leaves the int range wraps: "0" against
   * "-2147483648" reports the first as smaller, and so does the swapped call,
   * so neither the order nor the antisymmetry holds there.
   */
  lemma RegistryWrapCounterexample()
    ensures RegistryCompare(Some("0"), Some("-2147483648"), true) == Success(INT_MIN)
    ensures RegistryCompare(Some("-2147483648"), Some("0"), true) == Success(INT_MIN)
    ensures RegistryCompare(Some("0"), Some("-2147483648"), false) == Success(-INT_MIN)
  {
    ParseExtremes();
    assert Split("0", '.') == ["0"];
    assert Split("-2147483648", '.') == ["-2147483648"];
  }

  /** For components that are all non-negative, the wrapped difference is the exact one. */
  lemma RegistryWrapHarmlessWhenNonNegative(p1: seq<string>, p2: seq<string>)
    requires Triple(p1).Some? && Triple(p2).Some?
    requires forall i :: 0 <= i < 3 ==> Triple(p1).value[i] >= 0 && Triple(p2).value[i] >= 0
    ensures RegistryCompareParts(p1, p2, true) == RegistryCompareParts(p1, p2, false)
  {
    var t1, t2 := Triple(p1).value, Triple(p2).value;
    assert t1[0] >= 0 && t1[1] >= 0 && t1[2] >= 0 && t2[0] >= 0 && t2[1] >= 0 && t2[2] >= 0;
    assert IsInt32(t1[0] - t2[0]) && IsInt32(t1[1] - t2[1]) && IsInt32(t1[2] - t2[2]);
    assert t1[0] == ParseInt(Some(p1[0])).value && t2[0] == ParseInt(Some(p2[0])).value;
  }

  /** What syncAgentToDatabase does with one agent found in code. */
  datatype SyncAction = CreateConfig | UpdateConfig | KeepConfig

  /**
   * No stored configuration: create it. Otherwise the stored one is replaced
   * only when the code's version is strictly newer; a comparison error propagates.
   */
  function SyncDecision(stored: Option<Option<string>>, codeVersion: Option<string>): (r: Result<SyncAction, string>)
    ensures stored.None? <==> r == Success(CreateConfig)
    ensures stored.Some? ==> (r == Success(UpdateConfig) <==>
      RegistryCompare(codeVersion, stored.value, false).Success? && RegistryCompare(codeVersion, stored.value, false).value > 0)
  {
    if stored.None? then Success(CreateConfig)
    else
      var c :- RegistryCompare(codeVersion, stored.value, false);
      Success(if c > 0 then UpdateConfig else KeepConfig)
  }

  /** A configuration written from the code's version is never rewritten by the same code version. */
  lemma SyncIsIdempotent(version: Option<string>)
    requires RegistryCompare(version, version, false).Success?
    ensures SyncDecision(Some(version), version) == Success(KeepConfig)
  {
    RegistryAntisymmetric(version, version);
  }

  /** The two arithmetics fail alike, and the wrapped result is the exact one taken modulo 2^32. */
  lemma RegistryWrapAgrees(p1: seq<string>, p2: seq<string>)
    ensures RegistryCompareParts(p1, p2, true).Success? <==> RegistryCompareParts(p1, p2, false).Success?
    ensures RegistryCompareParts(p1, p2, false).Failure? ==> RegistryCompareParts(p1, p2, true) == RegistryCompareParts(p1, p2, false)
    ensures RegistryCompareParts(p1, p2, false).Success? ==>
      RegistryCompareParts(p1, p2, true).value == Wrap32(RegistryCompareParts(p1, p2, false).value)
  {
  }

  /** syncAgentToDatabase as written: the comparison's difference wraps to 32 bits. */
  function SyncDecisionAsWritten(stored: Option<Option<string>>, codeVersion: Option<string>): (r: Result<SyncAction, string>)
    ensures stored.None? <==> r == Success(CreateConfig)
    ensures stored.Some? ==> (r == Success(UpdateConfig) <==>
      RegistryCompare(codeVersion, stored.value, true).Success? && RegistryCompare(codeVersion, stored.value, true).value > 0)
  {
    if stored.None? then Success(CreateConfig)
    else
      var c :- RegistryCompare(codeVersion, stored.value, true);
      Success(if c > 0 then UpdateConfig else KeepConfig)
  }

  /**
   * The decision as written agrees with the corrected one whenever the exact
   * difference of the first differing component fits in an int, in particular
   * whenever every component is non-negative; the errors always agree.
   */
  lemma SyncAsWrittenAgrees(stored: Option<Option<string>>, codeVersion: Option<string>)
    ensures SyncDecisionAsWritten(stored, codeVersion).Failure? <==> SyncDecision(stored, codeVersion).Failure?
    ensures (stored.Some? && RegistryCompare(codeVersion, stored.value, false).Success?
             ==> IsInt32(RegistryCompare(codeVersion, stored.value, false).value))
      ==> SyncDecisionAsWritten(stored, codeVersion) == SyncDecision(stored, codeVersion)
  {
    if stored.Some? && codeVersion.Some? && stored.value.Some? {
      RegistryWrapAgrees(Split(codeVersion.value, '.'), Split(stored.value.value, '.'));
    }
  }

  /** Where they differ: code "0" over a stored "-2147483648" is skipped as written, updated when corrected. */
  lemma SyncAsWrittenSkipsUpdate()
    ensures SyncDecisionAsWritten(Some(Some("-2147483648")), Some("0")) == Success(KeepConfig)
    ensures SyncDecision(Some(Some("-2147483648")), Some("0")) == Success(UpdateConfig)
  {
    RegistryWrapCounterexample();
  }

  // ---------------------------------------------------------------------------
  // PythonRuntimeDetector.compareVersion and checkVersionRequirement
  // ---------------------------------------------------------------------------

  /** The loop from index i on; components are parsed only up to the first difference. */
  function PythonCompareFrom(p1: seq<string>, p2: seq<string>, i: nat, wrap: bool): (r: Result<int, string>)
    decreases |p1| + |p2| - i
  {
    if i >= |p1| && i >= |p2| then Success(0)
    else
      var n1 :- Part(p1, i);
      var n2 :- Part(p2, i);
      if n1 != n2 then Success(Difference(n1, n2, wrap)) else PythonCompareFrom(p1, p2, i + 1, wrap)
  }

  /** A null version fails on split, before any component is read. */
  function PythonCompare(v1: Option<string>, v2: Option<string>, wrap: bool): (r: Result<int, string>)
    ensures v1.None? || v2.None? ==> r == Failure(NULL_POINTER)
  {
    if v1.None? || v2.None? then Failure(NULL_POINTER)
    else PythonCompareFrom(Split(v1.value, '.'), Split(v2.value, '.'), 0, wrap)
  }

  /** Every part parses. */
  predicate AllParse(parts: seq<string>) {
    forall i :: 0 <= i < |parts| ==> ParseInt(Some(parts[i])).Success?
  }

  /** Component i, zero past the end; defined only when every part parses. */
  function Component(parts: seq<string>, i: nat): int
    requires AllParse(parts)
  {
    Part(parts, i).value
  }

  /**
   * With exact differences, the result is 0 exactly when the zero-padded
   * components all agree, and otherwise has the sign of the first
   * difference, all earlier components being equal.
   */
  lemma {:induction false} PythonIsPaddedLexicographic(p1: seq<string>, p2: seq<string>, i: nat)
    requires AllParse(p1) && AllParse(p2)
    ensures PythonCompareFrom(p1, p2, i, false).Success?
    ensures var r := PythonCompareFrom(p1, p2, i, false).value;
      && (r == 0 <==> forall k :: i <= k < |p1| + |p2| ==> Component(p1, k) == Component(p2, k))
      && (r != 0 ==> exists k :: i <= k && r == Component(p1, k) - Component(p2, k)
                       && forall j :: i <= j < k ==> Component(p1, j) == Component(p2, j))
    decreases |p1| + |p2| - i
  {
    if i >= |p1| && i >= |p2| {
      forall k | i <= k < |p1| + |p2|
        ensures Component(p1, k) == Component(p2, k)
      {
      }
    } else if Component(p1, i) != Component(p2, i) {
    } else {
      PythonIsPaddedLexicographic(p1, p2, i + 1);
      var r := PythonCompareFrom(p1, p2, i, false).value;
      if r != 0 {
        var k :| i + 1 <= k && r == Component(p1, k) - Component(p2, k)
          && forall j :: i + 1 <= j < k ==> Component(p1, j) == Component(p2, j);
        assert forall j :: i <= j < k ==> Component(p1, j) == Component(p2, j);
      }
    }
  }

  /** Trailing zero components change nothing: "3.10" and "3.10.0" compare equal. */
  lemma PythonZeroPadding(p: seq<string>)
    requires AllParse(p)
    ensures AllParse(p + ["0"])
    ensures PythonCompareFrom(p, p + ["0"], 0, false) == Success(0)
  {
    ParseExtremes();
    var q := p + ["0"];
    assert forall k :: 0 <= k < |p| ==> q[k] == p[k];
    PythonIsPaddedLexicographic(p, q, 0);
    forall k | 0 <= k < |p| + |q|
      ensures Component(p, k) == Component(q, k)
    {
    }
  }

  /** With exact differences, swapping the arguments negates the result, errors included. */
  lemma {:induction false} PythonAntisymmetric(p1: seq<string>, p2: seq<string>, i: nat)
    ensures PythonCompareFrom(p1, p2, i, false).Success? <==> PythonCompareFrom(p2, p1, i, false).Success?
    ensures PythonCompareFrom(p1, p2, i, false).Success? ==>
      PythonCompareFrom(p2, p1, i, false).value == -PythonCompareFrom(p1, p2, i, false).value
    decreases |p1| + |p2| - i
  {
    if !(i >= |p1| && i >= |p2|) && Part(p1, i).Success? && Part(p2, i).Success? && Part(p1, i) == Part(p2, i) {
      PythonAntisymmetric(p1, p2, i + 1);
    }
  }

  /** checkVersionRequirement: met iff the comparison is non-negative; any exception means not met. */
  predicate MeetsRequirement(actual: Option<string>, required: Option<string>)
    ensures actual.None? || required.None? ==> !MeetsRequirement(actual, required)
  {
    PythonCompare(actual, required, false).Success? && PythonCompare(actual, required, false).value >= 0
  }

  /** Every well-formed version meets itself as a requirement; a null one meets nothing. */
  lemma RequirementReflexive(v: string, other: Option<string>)
    requires AllParse(Split(v, '.'))
    ensures MeetsRequirement(Some(v), Some(v))
    ensures !MeetsRequirement(None, other) && !MeetsRequirement(other, None)
  {
    PythonIsPaddedLexicographic(Split(v, '.'), Split(v, '.'), 0);
  }

  /** The loop fails alike in both arithmetics, and the wrapped result is the exact one modulo 2^32. */
  lemma {:induction false} PythonWrapAgrees(p1: seq<string>, p2: seq<string>, i: nat)
    ensures PythonCompareFrom(p1, p2, i, true).Success? <==> PythonCompareFrom(p1, p2, i, false).Success?
    ensures PythonCompareFrom(p1, p2, i, false).Failure? ==> PythonCompareFrom(p1, p2, i, true) == PythonCompareFrom(p1, p2, i, false)
    ensures PythonCompareFrom(p1, p2, i, false).Success? ==>
      PythonCompareFrom(p1, p2, i, true).value == Wrap32(PythonCompareFrom(p1, p2, i, false).value)
    decreases |p1| + |p2| - i
  {
    if !(i >= |p1| && i >= |p2|) && Part(p1, i).Success? && Part(p2, i).Success? && Part(p1, i) == Part(p2, i) {
      PythonWrapAgrees(p1, p2, i + 1);
    }
  }

  /** checkVersionRequirement as written, with the wrapping comparison. */
  predicate MeetsRequirementAsWritten(actual: Option<string>, required: Option<string>)
    ensures actual.None? || required.None? ==> !MeetsRequirementAsWritten(actual, required)
  {
    PythonCompare(actual, required, true).Success? && PythonCompare(actual, required, true).value >= 0
  }

  /** The check as written agrees with the corrected one whenever the exact difference fits in an int. */
  lemma RequirementAsWrittenAgrees(actual: Option<string>, required: Option<string>)
    requires PythonCompare(actual, required, false).Success? ==> IsInt32(PythonCompare(actual, required, false).value)
    ensures MeetsRequirementAsWritten(actual, required) <==> MeetsRequirement(actual, required)
  {
    if actual.Some? && required.Some? {
      PythonWrapAgrees(Split(actual.value, '.'), Split(required.value, '.'), 0);
    }
  }

  /** Where they differ: "0" is refused against a required "-2147483648" as written, accepted when corrected. */
  lemma RequirementAsWrittenRefuses()
    ensures !MeetsRequirementAsWritten(Some("0"), Some("-2147483648"))
    ensures MeetsRequirement(Some("0"), Some("-2147483648"))
  {
    PythonWrapCounterexample();
  }

  /** The same wrap-around as the registry's: "0" is reported below "-2147483648". */
  lemma PythonWrapCounterexample()
    ensures PythonCompare(Some("0"), Some("-2147483648"), true) == Success(INT_MIN)
    ensures PythonCompare(Some("0"), Some("-2147483648"), false) == Success(-INT_MIN)
  {
    ParseExtremes();
    assert Split("0", '.') == ["0"];
    assert Split("-2147483648", '.') == ["-2147483648"];
  }
}
