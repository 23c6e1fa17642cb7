/**
 * Firmware version handling (firmware.c): parsing an iBoot version string
 * into five numeric components, the half-open range test over such
 * components, and recognising the ADT's "firmware-version" string against
 * the table of known versions.
 */
module Firmware {
  import opened Wrappers

  /** IBOOT_VER_COMP and OS_VER_COMP. */
  const IBOOT_VER_COMP: nat := 5
  const OS_VER_COMP: nat := 4
  /** The range of a u32. */
  const U32_RANGE: nat := 0x1_0000_0000

  // ---------------------------------------------------------------------------
  // Digit runs

  predicate IsDigit(c: char)
  {
    '0' <= c <= '9'
  }

  /** The number of leading decimal digits of `t`. */
  function DigitCount(t: seq<char>): (n: nat)
    ensures n <= |t|
    ensures forall j | 0 <= j < n :: IsDigit(t[j])
    ensures n == |t| || !IsDigit(t[n])
  {
    if |t| == 0 || !IsDigit(t[0]) then 0 else 1 + DigitCount(t[1..])
  }

  /**
   * The maximal runs of decimal digits in `t`, in order: every other
   * character only separates them.
   */
  function Runs(t: seq<char>): (rs: seq<seq<char>>)
    decreases |t|
  {
    if |t| == 0 then []
    else if !IsDigit(t[0]) then Runs(t[1..])
    else
      var n := DigitCount(t);
      [t[..n]] + Runs(t[n..])
  }

  /** Every run is a non-empty string of digits. */
  lemma {:induction false} RunsAreDigits(t: seq<char>)
    ensures forall r | r in Runs(t) :: |r| > 0 && forall j | 0 <= j < |r| :: IsDigit(r[j])
    decreases |t|
  {
    if |t| > 0 {
      if !IsDigit(t[0]) {
        RunsAreDigits(t[1..]);
      } else {
        RunsAreDigits(t[DigitCount(t)..]);
      }
    }
  }

  /** A string without digits has no runs. */
  lemma {:induction false} NoDigitsNoRuns(t: seq<char>)
    requires forall j | 0 <= j < |t| :: !IsDigit(t[j])
    ensures Runs(t) == []
    decreases |t|
  {
    if |t| > 0 {
      NoDigitsNoRuns(t[1..]);
    }
  }

  function DigitValue(c: char): nat
    requires IsDigit(c)
  {
    c as int - '0' as int
  }

  /** The decimal value of a string of digits, most significant first. */
  function DecimalValue(ds: seq<char>): nat
    requires forall j | 0 <= j < |ds| :: IsDigit(ds[j])
  {
    if |ds| == 0 then 0 else 10 * DecimalValue(ds[..|ds| - 1]) + DigitValue(ds[|ds| - 1])
  }

  /** atol on a string that starts with a digit run, stored into a u32: the run's value modulo 2^32. */
  function Atol(t: seq<char>): (v: nat)
    ensures v < U32_RANGE
  {
    DecimalValue(t[..DigitCount(t)]) % U32_RANGE
  }

  /** The five components firmware_parse_version stores for runs `rs`: the first five run values, then zeros. */
  function Components(rs: seq<seq<char>>): (out: seq<nat>)
    ensures |out| == IBOOT_VER_COMP
    ensures forall k | 0 <= k < IBOOT_VER_COMP :: out[k] == if k < |rs| then Atol(rs[k]) else 0
  {
    seq(5, k requires 0 <= k < 5 => if k < |rs| then Atol(rs[k]) else 0)
  }

  /** Runs after the first five do not reach the output. */
  lemma ComponentsIgnoreLater(rs: seq<seq<char>>, more: seq<seq<char>>)
    requires |rs| >= IBOOT_VER_COMP
    ensures Components(rs + more) == Components(rs)
  {
    assert forall k | 0 <= k < 5 :: (rs + more)[k] == rs[k];
  }

  /** When the loop ends, the runs seen so far decide every component. */
  lemma ComponentsOfPrefix(rs: seq<seq<char>>, done: seq<seq<char>>, rest: seq<seq<char>>)
    requires rs == done + rest && |done| <= IBOOT_VER_COMP && (|done| < IBOOT_VER_COMP ==> rest == [])
    ensures Components(rs) == Components(done)
  {
    if |done| < IBOOT_VER_COMP {
      assert rs == done;
    } else {
      ComponentsIgnoreLater(done, rest);
    }
  }

  lemma RunsAppend(done: seq<seq<char>>, r: seq<char>, rest: seq<seq<char>>)
    ensures done + ([r] + rest) == (done + [r]) + rest
  {
  }

  /** One more run fills the next component. */
  lemma ComponentsAppend(done: seq<seq<char>>, r: seq<char>)
    requires |done| < IBOOT_VER_COMP
    ensures Components(done + [r]) == Components(done)[|done| := Atol(r)]
  {
  }

  /** Skipping one separator does not change the runs still ahead. */
  lemma RunsSkip(s: seq<char>, p: nat)
    requires p < |s| && !IsDigit(s[p])
    ensures Runs(s[p..]) == Runs(s[p + 1..])
  {
    assert s[p..][1..] == s[p + 1..];
  }

  /** At a digit the next run is the digit run there. */
  lemma RunsTake(s: seq<char>, q: nat)
    requires q < |s| && IsDigit(s[q])
    ensures q + DigitCount(s[q..]) <= |s|
    ensures Runs(s[q..]) == [s[q..q + DigitCount(s[q..])]] + Runs(s[q + DigitCount(s[q..])..])
  {
    var n := DigitCount(s[q..]);
    assert s[q..][..n] == s[q..q + n];
    assert s[q..][n..] == s[q + n..];
  }

  lemma {:induction false} DigitCountAll(r: seq<char>)
    requires forall j | 0 <= j < |r| :: IsDigit(r[j])
    ensures DigitCount(r) == |r|
  {
    if |r| > 0 {
      DigitCountAll(r[1..]);
    }
  }

  /** atol at `q` reads exactly the run that starts there. */
  lemma AtolOfRun(s: seq<char>, q: nat, p: nat)
    requires q <= |s| && p == q + DigitCount(s[q..])
    ensures p <= |s| && Atol(s[q..]) == Atol(s[q..p])
  {
    assert s[q..][..DigitCount(s[q..])] == s[q..p];
    DigitCountAll(s[q..p]);
    assert s[q..p][..DigitCount(s[q..p])] == s[q..p];
  }

  lemma DigitCountStep(s: seq<char>, p: nat)
    requires p < |s| && IsDigit(s[p])
    ensures DigitCount(s[p..]) == 1 + DigitCount(s[p + 1..])
  {
    assert s[p..][1..] == s[p + 1..];
  }

  /** The separator-skipping loop of firmware_parse_version: advance to the next digit or the end. */
  method SkipSeparators(s: seq<char>, p0: nat) returns (p: nat)
    requires p0 <= |s|
    ensures p0 <= p <= |s| && (p == |s| || IsDigit(s[p]))
    ensures Runs(s[p0..]) == Runs(s[p..])
  {
    p := p0;
    while p < |s| && !IsDigit(s[p])
      invariant p0 <= p <= |s| && Runs(s[p0..]) == Runs(s[p..])
    {
      RunsSkip(s, p);
      p := p + 1;
    }
  }

  /** The digit-skipping loop of firmware_parse_version: advance past the run at `q`. */
  method SkipDigits(s: seq<char>, q: nat) returns (p: nat)
    requires q <= |s|
    ensures p == q + DigitCount(s[q..]) && p <= |s|
  {
    p := q;
    while p < |s| && IsDigit(s[p])
      invariant q <= p <= |s| && DigitCount(s[q..]) == (p - q) + DigitCount(s[p..])
    {
      DigitCountStep(s, p);
      p := p + 1;
    }
  }

  /**
   * firmware_parse_version on the characters of a C string (those before
   * its NUL): zero the five components, then store the value of each digit
   * run in turn, at most five of them.
   */
  method ParseVersion(s: seq<char>, out: array<nat>)
    requires '\0' !in s
    requires out.Length == IBOOT_VER_COMP
    modifies out
    ensures out[..] == Components(Runs(s))
  {
    forall k | 0 <= k < 5 {
      out[k] := 0;
    }
    var p: nat := 0;
    var i: nat := 0;
    ghost var done: seq<seq<char>> := [];
    assert out[..] == Components(done);
    while i < 5
      invariant i <= 5 && |done| == i && p <= |s|
      invariant Runs(s) == done + Runs(s[p..])
      invariant out[..] == Components(done)
    {
      p := SkipSeparators(s, p);
      if p == |s| {
        assert Runs(s[p..]) == [];
        break;
      }
      RunsTake(s, p);
      out[i] := Atol(s[p..]);
      var q := p;
      p := SkipDigits(s, q);
      AtolOfRun(s, q, p);
      ComponentsAppend(done, s[q..p]);
      RunsAppend(done, s[q..p], Runs(s[p..]));
      done := done + [s[q..p]];
      i := i + 1;
    }
    ComponentsOfPrefix(Runs(s), done, Runs(s[p..]));
  }

  // ---------------------------------------------------------------------------
  // Version ranges

  /** The first index from `i` on where `a` and `b` differ, or `|a|` when they agree from `i` on. */
  function FirstDiff(a: seq<nat>, b: seq<nat>, i: nat): (k: nat)
    requires |a| == |b| && i <= |a|
    ensures i <= k <= |a|
    ensures k < |a| ==> a[k] != b[k]
    ensures forall j | i <= j < k :: a[j] == b[j]
    decreases |a| - i
  {
    if i == |a| then i else if a[i] != b[i] then i else FirstDiff(a, b, i + 1)
  }

  /** Lexicographic order: `a` is below `b` from index `i` on. */
  predicate LexLtFrom(a: seq<nat>, b: seq<nat>, i: nat)
    requires |a| == |b| && i <= |a|
    decreases |a| - i
  {
    i < |a| && (a[i] < b[i] || (a[i] == b[i] && LexLtFrom(a, b, i + 1)))
  }

  predicate LexLt(a: seq<nat>, b: seq<nat>)
    requires |a| == |b|
  {
    LexLtFrom(a, b, 0)
  }

  predicate LexLe(a: seq<nat>, b: seq<nat>)
    requires |a| == |b|
  {
    a == b || LexLt(a, b)
  }

  /** `a < b` exactly when they first differ at an index where `a` is smaller. */
  lemma {:induction false} LexLtIsFirstDiff(a: seq<nat>, b: seq<nat>, i: nat)
    requires |a| == |b| && i <= |a|
    ensures LexLtFrom(a, b, i) <==> FirstDiff(a, b, i) < |a| && a[FirstDiff(a, b, i)] < b[FirstDiff(a, b, i)]
    decreases |a| - i
  {
    if i < |a| && a[i] == b[i] {
      LexLtIsFirstDiff(a, b, i + 1);
    }
  }

  /** Two sequences agree everywhere exactly when they have no first difference. */
  lemma FirstDiffEqual(a: seq<nat>, b: seq<nat>)
    requires |a| == |b|
    ensures FirstDiff(a, b, 0) == |a| <==> a == b
  {
    if FirstDiff(a, b, 0) == |a| {
      assert forall j | 0 <= j < |a| :: a[j] == b[j];
    }
  }

  lemma FirstDiffSymmetric(a: seq<nat>, b: seq<nat>, i: nat)
    requires |a| == |b| && i <= |a|
    ensures FirstDiff(a, b, i) == FirstDiff(b, a, i)
    decreases |a| - i
  {
    if i < |a| && a[i] == b[i] {
      FirstDiffSymmetric(a, b, i + 1);
    }
  }

  /** The order is total: `a < b` exactly when not `b <= a`. */
  lemma LexLtTotal(a: seq<nat>, b: seq<nat>)
    requires |a| == |b|
    ensures LexLt(a, b) <==> !LexLe(b, a)
  {
    LexLtIsFirstDiff(a, b, 0);
    LexLtIsFirstDiff(b, a, 0);
    FirstDiffSymmetric(a, b, 0);
    FirstDiffEqual(b, a);
  }

  /**
   * firmware_iboot_in_range as written: each loop stops at the first
   * differing component, and when there is none the comparison after it
   * reads component 5 of five-element arrays. None stands for that read.
   */
  function InRangeAsWritten(lo: seq<nat>, hi: seq<nat>, v: seq<nat>): Option<bool>
    requires |lo| == IBOOT_VER_COMP && |hi| == IBOOT_VER_COMP && |v| == IBOOT_VER_COMP
  {
    var i := FirstDiff(v, lo, 0);
    if i == 5 then None
    else if v[i] < lo[i] then Some(false)
    else
      var j := FirstDiff(v, hi, 0);
      if j == 5 then None else Some(v[j] < hi[j])
  }

  /** A version equal to the lower bound makes the code read past the arrays. */
  lemma InRangeOverreadsAtLow(lo: seq<nat>, hi: seq<nat>)
    requires |lo| == IBOOT_VER_COMP && |hi| == IBOOT_VER_COMP
    ensures InRangeAsWritten(lo, hi, lo) == None
  {
    FirstDiffEqual(lo, lo);
  }

  /** A version at or above `lo` and equal to `hi` makes the code read past the arrays too. */
  lemma InRangeOverreadsAtHigh(lo: seq<nat>, hi: seq<nat>)
    requires |lo| == IBOOT_VER_COMP && |hi| == IBOOT_VER_COMP && LexLt(lo, hi)
    ensures InRangeAsWritten(lo, hi, hi) == None
  {
    FirstDiffEqual(hi, lo);
    FirstDiffEqual(hi, hi);
    LexLtTotal(hi, lo);
    LexLtIsFirstDiff(hi, lo, 0);
  }

  /** Wherever the code stays inside the arrays, its answer is the half-open range test. */
  lemma InRangeAsWrittenAgrees(lo: seq<nat>, hi: seq<nat>, v: seq<nat>)
    requires |lo| == IBOOT_VER_COMP && |hi| == IBOOT_VER_COMP && |v| == IBOOT_VER_COMP
    requires InRangeAsWritten(lo, hi, v) != None
    ensures InRangeAsWritten(lo, hi, v) == Some(LexLe(lo, v) && LexLt(v, hi))
  {
    LexLtTotal(v, lo);
    LexLtIsFirstDiff(v, lo, 0);
    LexLtIsFirstDiff(v, hi, 0);
  }

  /**
   * firmware_iboot_in_range with the loops' exit index checked before it
   * is used: true exactly when `lo <= v < hi` in lexicographic order.
   */
  method IbootInRange(lo: seq<nat>, hi: seq<nat>, v: seq<nat>) returns (r: bool)
    requires |lo| == IBOOT_VER_COMP && |hi| == IBOOT_VER_COMP && |v| == IBOOT_VER_COMP
    ensures r <==> LexLe(lo, v) && LexLt(v, hi)
  {
    var i: nat := 0;
    while i < 5 && v[i] == lo[i]
      invariant i <= 5 && FirstDiff(v, lo, i) == FirstDiff(v, lo, 0)
    {
      i := i + 1;
    }
    LexLtTotal(v, lo);
    LexLtIsFirstDiff(v, lo, 0);
    if i < 5 && v[i] < lo[i] {
      return false;
    }
    i := 0;
    while i < 5 && v[i] == hi[i]
      invariant i <= 5 && FirstDiff(v, hi, i) == FirstDiff(v, hi, 0)
    {
      i := i + 1;
    }
    LexLtIsFirstDiff(v, hi, 0);
    r := i < 5 && v[i] < hi[i];
  }

  // ---------------------------------------------------------------------------
  // Known versions

  /** enum fw_version: only V_UNKNOWN in this build, so NUM_FW_VERSIONS is 1. */
  const V_UNKNOWN: nat := 0
  const NUM_FW_VERSIONS: nat := 1

  /** struct fw_version_info; a NULL string is the empty string. */
  datatype FwVersionInfo = FwVersionInfo(version: nat, name: string, num: seq<nat>, numLength: nat, iboot: string)

  /** fw_versions, indexed by enum fw_version. */
  const FW_VERSIONS: seq<FwVersionInfo> := [FwVersionInfo(V_UNKNOWN, "unknown", [0, 0, 0, 0], 1, "unknown")]

  /** A zero-initialised struct fw_version_info. */
  const ZERO_INFO: FwVersionInfo := FwVersionInfo(V_UNKNOWN, "", [0, 0, 0, 0], 0, "")

  /** The first table entry from `i` on whose iboot string is `ver`, or `|FW_VERSIONS|`. */
  function MatchFrom(ver: string, i: nat): (k: nat)
    requires i <= |FW_VERSIONS|
    ensures i <= k <= |FW_VERSIONS|
    ensures k < |FW_VERSIONS| ==> FW_VERSIONS[k].iboot == ver
    ensures forall j | i <= j < k :: FW_VERSIONS[j].iboot != ver
    decreases |FW_VERSIONS| - i
  {
    if i == |FW_VERSIONS| then i else if FW_VERSIONS[i].iboot == ver then i else MatchFrom(ver, i + 1)
  }

  /** The characters of a C string held in `s`: those before its first NUL. */
  function CString(s: seq<char>): (r: seq<char>)
    ensures r <= s && '\0' !in r
    ensures |r| < |s| ==> s[|r|] == '\0'
  {
    if |s| == 0 || s[0] == '\0' then [] else [s[0]] + CString(s[1..])
  }

  /**
   * detect_firmware: the first table entry whose iboot string equals
   * `ver`, else the V_UNKNOWN entry with `ver` as its iboot string. Either
   * way the result's iboot string is `ver`.
   */
  method Detect(ver: string) returns (info: FwVersionInfo)
    ensures MatchFrom(ver, 0) < |FW_VERSIONS| ==> info == FW_VERSIONS[MatchFrom(ver, 0)]
    ensures MatchFrom(ver, 0) == |FW_VERSIONS| ==> info == FW_VERSIONS[V_UNKNOWN].(iboot := ver)
    ensures info.iboot == ver && info.version == V_UNKNOWN
  {
    var i := 0;
    while i < |FW_VERSIONS|
      invariant i <= |FW_VERSIONS| && MatchFrom(ver, i) == MatchFrom(ver, 0)
    {
      if FW_VERSIONS[i].iboot == ver {
        return FW_VERSIONS[i];
      }
      i := i + 1;
    }
    info := FW_VERSIONS[V_UNKNOWN].(iboot := ver);
  }

  /** The os_firmware and system_firmware globals. */
  class State {
    var os: FwVersionInfo
    var system: FwVersionInfo

    constructor ()
      ensures os == ZERO_INFO && system == ZERO_INFO
    {
      os := ZERO_INFO;
      system := ZERO_INFO;
    }

    /**
     * firmware_init, with the ADT lookups as parameters: whether /chosen
     * exists and its "firmware-version" property. The property is accepted
     * only when it is present, non-empty and NUL-terminated; then both
     * globals are set from its string and the result is 0, else -1 and
     * nothing changes.
     */
    method Init(chosen: bool, prop: Option<seq<char>>) returns (r: int)
      modifies this
      ensures var ok := chosen && prop != None && |prop.value| > 0 && prop.value[|prop.value| - 1] == '\0';
              (!ok ==> r == -1 && os == old(os) && system == old(system)) &&
              (ok ==> r == 0 && os == system && os.iboot == CString(prop.value) && os.version == V_UNKNOWN)
    {
      if !chosen {
        return -1;
      }
      if prop != None && |prop.value| > 0 && prop.value[|prop.value| - 1] == '\0' {
        var ver := CString(prop.value);
        os := Detect(ver);
        system := Detect(ver);
      } else {
        return -1;
      }
      return 0;
    }
  }
}
