/** Blocking upgrades of old platforms (pkg/operator/operator.go, checkForDeprecation) and the
    semantic versions it reads (github.com/blang/semver, version 3.5.1). */
module Deprecation {
  import opened Options
  import opened Text
  import opened ClusterInfoModel

  /** `pre` are the pre-release identifiers. */
  datatype Version = Version(major: nat, minor: nat, patch: nat, pre: seq<string>)

  const MIN_VERSION := "6.7.3"
  const MINIMUM := Version(6, 7, 3, [])
  const HARDWARE_PREFIX := "vmx-"
  const MIN_HARDWARE := 15

  // ---------------------------------------------------------------- semver.Parse and ParseTolerant

  function ParseNumber(s: string): Option<nat> {
    if s == "" || !AllDigits(s) || (|s| > 1 && s[0] == '0') then None
    else
      var v := ValueOf(s, 10);
      if v.Some? && v.value < TWO_64 then v else None
  }

  predicate AlphaNumeric(s: string) {
    forall c :: c in s ==> IsDigit(c) || 'a' <= c <= 'z' || 'A' <= c <= 'Z' || c == '-'
  }

  predicate PreReleaseOk(id: string) {
    id != "" && AlphaNumeric(id) && (AllDigits(id) ==> ParseNumber(id).Some?)
  }

  predicate BuildOk(id: string) {
    id != "" && AlphaNumeric(id)
  }

  /** The position of the first `c`, the length if there is none. */
  function IndexOf(s: string, c: char): (k: nat)
    ensures k <= |s|
    ensures k < |s| ==> s[k] == c
    ensures c !in s[..k]
  {
    if s == "" || s[0] == c then 0
    else
      var k := IndexOf(s[1..], c) + 1;
      assert s[..k] == [s[0]] + s[1..][..k - 1];
      k
  }

  /** The patch number with its optional pre-release and build parts. */
  function ParsePatch(s: string): Option<(nat, seq<string>)> {
    var plus := IndexOf(s, '+');
    var build := if plus < |s| then Split(s[plus + 1..], '.') else [];
    var rest := s[..plus];
    var minus := IndexOf(rest, '-');
    var pre := if minus < |rest| then Split(rest[minus + 1..], '.') else [];
    var patch := ParseNumber(rest[..minus]);
    if patch.None? then None
    else if (exists id :: id in pre && !PreReleaseOk(id)) || (exists id :: id in build && !BuildOk(id)) then None
    else Some((patch.value, pre))
  }

  /** strings.SplitN(s, ".", 3). */
  function SplitInThree(s: string): (parts: seq<string>)
    ensures 1 <= |parts| <= 3
  {
    var parts := Split(s, '.');
    if |parts| <= 3 then parts else [parts[0], parts[1], Join(parts[2..], '.')]
  }

  function ParseParts(parts: seq<string>): Option<Version>
    requires |parts| == 3
  {
    var major, minor, patch := ParseNumber(parts[0]), ParseNumber(parts[1]), ParsePatch(parts[2]);
    if major.None? || minor.None? || patch.None? then None
    else Some(Version(major.value, minor.value, patch.value.0, patch.value.1))
  }

  function Parse(s: string): Option<Version> {
    var parts := SplitInThree(s);
    if |parts| != 3 then None else ParseParts(parts)
  }

  /** Spaces and a "v" are dropped, and missing minor and patch numbers are zero. Version 3 of the library,
      the one that is imported, keeps leading zeros, which its version 4 drops. */
  function ParseTolerant(s: string): Option<Version> {
    var trimmed := TrimSpace(s);
    PadAndParse(if trimmed != "" && trimmed[0] == 'v' then trimmed[1..] else trimmed)
  }

  function PadAndParse(t: string): Option<Version> {
    var parts := SplitInThree(t);
    if |parts| < 3 && ('+' in parts[|parts| - 1] || '-' in parts[|parts| - 1]) then None
    else Parse(Join(if |parts| == 1 then parts + ["0", "0"] else if |parts| == 2 then parts + ["0"] else parts, '.'))
  }

  /** Version.Compare with a version that is not a pre-release. */
  function CompareToRelease(v: Version, o: Version): int
    requires o.pre == []
  {
    if v.major != o.major then (if v.major > o.major then 1 else -1)
    else if v.minor != o.minor then (if v.minor > o.minor then 1 else -1)
    else if v.patch != o.patch then (if v.patch > o.patch then 1 else -1)
    else if v.pre == [] then 0
    else -1
  }

  /** Precedence of Semantic Versioning 2.0.0, section 11, below a release: the numbers decide from
      left to right, and with equal numbers a pre-release comes first. */
  predicate Precedes(v: Version, o: Version)
    requires o.pre == []
  {
    || v.major < o.major
    || (v.major == o.major && v.minor < o.minor)
    || (v.major == o.major && v.minor == o.minor && v.patch < o.patch)
    || (v.major == o.major && v.minor == o.minor && v.patch == o.patch && v.pre != [])
  }

  /** The first three components. */
  function ParseForSemver(version: string): string {
    var parts := Split(version, '.');
    if |parts| > 3 then Join(parts[..3], '.') else version
  }

  /** isMinimumVersion with its only minimum; `failed` tells that an error was returned. */
  function IsMinimumVersion(currentVersion: string): (r: (bool, bool))
    ensures var (hasMinimum, failed) := r; failed ==> hasMinimum
  {
    var current := ParseTolerant(ParseForSemver(currentVersion));
    if current.None? then (true, true) else (CompareToRelease(current.value, MINIMUM) >= 0, false)
  }

  lemma MinimumParses()
    ensures Parse(MIN_VERSION) == Some(MINIMUM)
  {
    assert MIN_VERSION == Join(["6", "7", "3"], '.') by {
      assert Join(["7", "3"], '.') == "7.3" by { assert ["7", "3"][1..] == ["3"]; }
      assert ["6", "7", "3"][1..] == ["7", "3"];
    }
    assert Decimal(6) == "6" && Decimal(7) == "7" && Decimal(3) == "3";
    DecimalParses(6);
    DecimalParses(7);
    DecimalParses(3);
    ParseThree(["6", "7", "3"]);
  }

  // ---------------------------------------------------------------- what blocks upgrades

  /** The version parses and precedes 6.7.3. */
  predicate TooOld(apiVersion: string) {
    var v := ParseTolerant(ParseForSemver(apiVersion));
    v.Some? && Precedes(v.value, MINIMUM)
  }

  lemma BelowMinimumExactlyWhenTooOld(apiVersion: string)
    ensures !IsMinimumVersion(apiVersion).0 <==> TooOld(apiVersion)
  {
  }

  /** strings.Trim with the characters of "vmx-" as cutset, then the number. */
  function ParseHardware(hwVersion: string): Option<int> {
    ParseInt0(Trim(hwVersion, InPrefix))
  }

  predicate InPrefix(c: char) {
    c in HARDWARE_PREFIX
  }

  predicate OldHardware(hwVersion: string) {
    var n := ParseHardware(hwVersion);
    n.Some? && n.value < MIN_HARDWARE
  }

  function ApiVersionOf(c: Info, vcenter: string): string {
    if vcenter in c.vcApi then c.vcApi[vcenter] else ""
  }

  datatype Reason = OldHost(host: string) | OldVM(hwVersion: string) | OldVCenter(vcenter: string)

  ghost predicate IsReason(c: Info, r: Reason) {
    match r
    case OldHost(h) => h in c.esxi && TooOld(c.esxi[h].apiVersion)
    case OldVM(k) => k in c.hw && OldHardware(k)
    case OldVCenter(v) => v in c.vcenters && TooOld(ApiVersionOf(c, v))
  }

  ghost predicate Deprecated(c: Info) {
    exists r: Reason :: IsReason(c, r)
  }

  ghost predicate NoOldHost(c: Info) { forall h :: !IsReason(c, OldHost(h)) }

  ghost predicate NoOldHardware(c: Info) { forall k :: !IsReason(c, OldVM(k)) }

  ghost predicate NoOldVCenter(c: Info) { forall v :: !IsReason(c, OldVCenter(v)) }

  lemma NoReasonLeft(c: Info)
    requires NoOldHost(c) && NoOldHardware(c) && NoOldVCenter(c)
    ensures !Deprecated(c)
  {
    forall r: Reason ensures !IsReason(c, r) {
      match r
      case OldHost(h) => assert !IsReason(c, OldHost(h));
      case OldVM(k) => assert !IsReason(c, OldVM(k));
      case OldVCenter(v) => assert !IsReason(c, OldVCenter(v));
    }
  }

  lemma SomeReason(c: Info, r: Reason)
    requires IsReason(c, r)
    ensures Deprecated(c)
  {
  }

  method FindOldHost(c: Info) returns (reason: Option<Reason>)
    ensures reason.Some? ==> IsReason(c, reason.value)
    ensures reason.None? ==> NoOldHost(c)
  {
    var hosts := c.esxi.Keys;
    while hosts != {}
      invariant hosts <= c.esxi.Keys
      invariant forall h :: IsReason(c, OldHost(h)) ==> h in hosts
      decreases |hosts|
    {
      var h :| h in hosts;
      hosts := hosts - {h};
      var (hasMinimum, failed) := IsMinimumVersion(c.esxi[h].apiVersion);
      BelowMinimumExactlyWhenTooOld(c.esxi[h].apiVersion);
      if failed { continue; }
      if !hasMinimum { return Some(OldHost(h)); }
    }
    return None;
  }

  method FindOldHardware(c: Info) returns (reason: Option<Reason>)
    ensures reason.Some? ==> IsReason(c, reason.value)
    ensures reason.None? ==> NoOldHardware(c)
  {
    var versions := c.hw.Keys;
    while versions != {}
      invariant versions <= c.hw.Keys
      invariant forall k :: IsReason(c, OldVM(k)) ==> k in versions
      decreases |versions|
    {
      var k :| k in versions;
      versions := versions - {k};
      var n := ParseHardware(k);
      if n.None? { continue; }
      if n.value < MIN_HARDWARE { return Some(OldVM(k)); }
    }
    return None;
  }

  method FindOldVCenter(c: Info) returns (reason: Option<Reason>)
    ensures reason.Some? ==> IsReason(c, reason.value)
    ensures reason.None? ==> NoOldVCenter(c)
  {
    ghost var seen: set<string> := {};
    for j := 0 to |c.vcenters|
      invariant seen == set m | 0 <= m < j :: c.vcenters[m]
      invariant forall v :: v in seen ==> !IsReason(c, OldVCenter(v))
    {
      var v := c.vcenters[j];
      var (hasMinimum, _) := IsMinimumVersion(ApiVersionOf(c, v));
      BelowMinimumExactlyWhenTooOld(ApiVersionOf(c, v));
      if !hasMinimum { return Some(OldVCenter(v)); }
      seen := seen + {v};
    }
    return None;
  }

  /** Both maps are ranged over in an arbitrary order; the answer does not depend on it. */
  method CheckForDeprecation(c: Info) returns (blocked: bool, reason: Option<Reason>)
    ensures blocked <==> Deprecated(c)
    ensures blocked ==> reason.Some? && IsReason(c, reason.value)
  {
    reason := FindOldHost(c);
    if reason.None? { reason := FindOldHardware(c); }
    if reason.None? { reason := FindOldVCenter(c); }
    blocked := reason.Some?;
    if blocked { SomeReason(c, reason.value); } else { NoReasonLeft(c); }
  }

  lemma ReasonSurvives(c: Info, op: InfoOp, r: Reason)
    requires IsReason(c, r)
    requires op.SetHost? ==> op.host !in c.esxi
    requires op.SetVCenter? ==> op.host !in c.vcenters
    ensures IsReason(Apply(c, op), r)
  {
  }

  /** A report that does not replace an earlier one never unblocks upgrades. */
  lemma NewReportsNeverUnblock(c: Info, op: InfoOp)
    requires Deprecated(c)
    requires op.SetHost? ==> op.host !in c.esxi
    requires op.SetVCenter? ==> op.host !in c.vcenters
    ensures Deprecated(Apply(c, op))
  {
    var r: Reason :| IsReason(c, r);
    ReasonSurvives(c, op, r);
  }

  // ---------------------------------------------------------------- what was reported

  lemma NothingIsTooOld()
    ensures !TooOld("")
  {
    SplitWithout("", '.');
    assert ParseForSemver("") == "" && TrimSpace("") == "";
    assert Join(["", "0", "0"], '.') == ".0.0" by {
      assert ["", "0", "0"][1..] == ["0", "0"] && ["0", "0"][1..] == ["0"];
    }
    assert ParseNumber("").None?;
    SplitJoin(["", "0", "0"], '.');
  }

  function TooOldVersions(): string -> bool {
    (v: string) => TooOld(v)
  }

  lemma DeprecatedMeans(c: Info)
    requires forall v :: v in c.vcenters ==> v in c.vcApi
    ensures Deprecated(c) <==>
      || HoldsHost(c, TooOldVersions())
      || (exists key :: key in c.hw && OldHardware(key))
      || HoldsVCenter(c, TooOldVersions())
  {
    if Deprecated(c) {
      var r: Reason :| IsReason(c, r);
      match r
      case OldHost(h) => assert TooOldVersions()(c.esxi[h].apiVersion);
      case OldVM(key) => assert key in c.hw && OldHardware(key);
      case OldVCenter(v) => assert TooOldVersions()(c.vcApi[v]);
    }
    if h :| h in c.esxi && TooOldVersions()(c.esxi[h].apiVersion) { SomeReason(c, OldHost(h)); }
    if key :| key in c.hw && OldHardware(key) { SomeReason(c, OldVM(key)); }
    if v :| v in c.vcenters && v in c.vcApi && TooOldVersions()(c.vcApi[v]) { SomeReason(c, OldVCenter(v)); }
  }

  /** Upgrades are blocked after some reports exactly when the API version that was last reported for some host is too
      old, or some reported hardware version, or the API version that was last reported for some vCenter. */
  lemma DeprecatedExactlyWhen(ops: seq<InfoOp>)
    ensures Deprecated(After(ops)) <==>
      || LastHostReportIs(ops, TooOldVersions())
      || (exists key :: SetHardware(key) in ops && OldHardware(key))
      || LastVCenterReportIs(ops, TooOldVersions())
  {
    NothingIsTooOld();
    VCentersListedOnce(ops);
    assert forall v :: v in After(ops).vcApi <==> v in After(ops).vcApi.Keys;
    DeprecatedMeans(After(ops));
    HoldsWhatWasReported(ops, TooOldVersions());
    forall key ensures key in After(ops).hw <==> SetHardware(key) in ops { HardwareWasReported(ops, key); }
  }

  // ---------------------------------------------------------------- dotted numeric versions

  predicate Fit(ns: seq<nat>) {
    forall k :: 0 <= k < |ns| ==> ns[k] < TWO_64
  }

  function Decimals(ns: seq<nat>): (ds: seq<string>)
    ensures |ds| == |ns| && forall k :: 0 <= k < |ns| ==> ds[k] == Decimal(ns[k])
  {
    seq(|ns|, k requires 0 <= k < |ns| => Decimal(ns[k]))
  }

  function Dotted(ns: seq<nat>): string {
    Join(Decimals(ns), '.')
  }

  function Component(ns: seq<nat>, k: nat): nat {
    if k < |ns| then ns[k] else 0
  }

  /** Digits with dots between them. */
  predicate AreDigits(ds: seq<string>) {
    ds != [] && forall d :: d in ds ==> d != "" && AllDigits(d)
  }

  lemma DigitsHaveNoDots(ds: seq<string>)
    requires AreDigits(ds)
    ensures forall d :: d in ds ==> '.' !in d
  {
    assert !IsDigit('.');
  }

  lemma DecimalParses(n: nat)
    requires n < TWO_64
    ensures ParseNumber(Decimal(n)) == Some(n)
  {
    ValueOfDecimal(n);
  }

  /** Digits alone are a patch number exactly when they are a number. */
  lemma DigitPatch(d: string)
    requires AllDigits(d)
    ensures ParsePatch(d) == if ParseNumber(d).Some? then Some((ParseNumber(d).value, [])) else None
  {
    assert !IsDigit('+') && !IsDigit('-') && '+' !in d && '-' !in d;
    assert IndexOf(d, '+') == |d| && d[..|d|] == d && IndexOf(d, '-') == |d|;
  }

  lemma {:induction false} JoinEnds(parts: seq<string>, sep: char)
    requires parts != [] && forall k :: 0 <= k < |parts| ==> parts[k] != ""
    ensures Join(parts, sep) != "" && Join(parts, sep)[0] == parts[0][0]
    ensures var j, last := Join(parts, sep), parts[|parts| - 1]; j[|j| - 1] == last[|last| - 1]
  {
    if |parts| > 1 {
      JoinEnds(parts[1..], sep);
      EndsOf(parts[0], sep, Join(parts[1..], sep));
    }
  }

  lemma EndsOf(first: string, sep: char, rest: string)
    requires first != "" && rest != ""
    ensures var j := first + [sep] + rest; j != "" && j[0] == first[0] && j[|j| - 1] == rest[|rest| - 1]
  {
  }

  /** A dotted version has nothing to trim. */
  lemma DottedIsTrimmed(ds: seq<string>)
    requires AreDigits(ds)
    ensures var s := Join(ds, '.'); TrimSpace(s) == s && s != "" && s[0] != 'v'
  {
    var first, last := ds[0], ds[|ds| - 1];
    assert forall k :: 0 <= k < |ds| ==> ds[k] in ds;
    JoinEnds(ds, '.');
    assert first in ds && last in ds && first[0] in first && last[|last| - 1] in last;
    TrimmedStays(Join(ds, '.'), IsSpace);
  }

  /** The first three components are numbers: no leading zeros, and less than two to the 64th. */
  predicate Readable(ds: seq<string>) {
    forall k :: 0 <= k < 3 && k < |ds| ==> ParseNumber(ds[k]).Some?
  }

  function NumberAt(ds: seq<string>, k: nat): nat
    requires Readable(ds) && k < 3
  {
    if k < |ds| then ParseNumber(ds[k]).value else 0
  }

  function Numbers(ds: seq<string>): Version
    requires Readable(ds)
  {
    Version(NumberAt(ds, 0), NumberAt(ds, 1), NumberAt(ds, 2), [])
  }

  lemma ParseThree(ds: seq<string>)
    requires AreDigits(ds) && |ds| == 3
    ensures Parse(Join(ds, '.')) == if Readable(ds) then Some(Numbers(ds)) else None
  {
    DigitsHaveNoDots(ds);
    SplitJoin(ds, '.');
    assert SplitInThree(Join(ds, '.')) == ds;
    assert ds[2] in ds;
    DigitPatch(ds[2]);
    PartsRead(ds);
  }

  lemma PartsRead(ds: seq<string>)
    requires |ds| == 3
    requires ParsePatch(ds[2]) == if ParseNumber(ds[2]).Some? then Some((ParseNumber(ds[2]).value, [])) else None
    ensures ParseParts(ds) == if Readable(ds) then Some(Numbers(ds)) else None
  {
    var first, second, third := ParseNumber(ds[0]), ParseNumber(ds[1]), ParseNumber(ds[2]);
    assert Readable(ds) <==> first.Some? && second.Some? && third.Some?;
  }

  function PadToThree(ds: seq<string>): seq<string>
    requires 1 <= |ds| <= 3
  {
    if |ds| == 1 then ds + ["0", "0"] else if |ds| == 2 then ds + ["0"] else ds
  }

  lemma PaddingIsReadable(ds: seq<string>)
    requires AreDigits(ds) && |ds| <= 3
    ensures AreDigits(PadToThree(ds)) && |PadToThree(ds)| == 3
    ensures Readable(PadToThree(ds)) <==> Readable(ds)
    ensures Readable(ds) ==> Numbers(PadToThree(ds)) == Numbers(ds)
  {
    assert Decimal(0) == "0";
    DecimalParses(0);
    var padded := PadToThree(ds);
    assert forall k :: 0 <= k < |ds| ==> padded[k] == ds[k];
    if Readable(padded) {
      forall k | 0 <= k < |ds| ensures ParseNumber(ds[k]).Some? { assert padded[k] == ds[k]; }
    }
  }

  lemma ParseUpToThree(ds: seq<string>)
    requires AreDigits(ds) && |ds| <= 3
    ensures ParseTolerant(Join(ds, '.')) == if Readable(ds) then Some(Numbers(ds)) else None
  {
    DottedIsTrimmed(ds);
    DigitsHaveNoDots(ds);
    SplitJoin(ds, '.');
    var last := ds[|ds| - 1];
    assert last in ds && !IsDigit('+') && !IsDigit('-') && '+' !in last && '-' !in last;
    PaddingIsReadable(ds);
    ParseThree(PadToThree(ds));
  }

  /** Lexicographic order on the first three components, missing ones being zero. */
  predicate BelowMinimum(ns: seq<nat>) {
    || Component(ns, 0) < 6
    || (Component(ns, 0) == 6 && Component(ns, 1) < 7)
    || (Component(ns, 0) == 6 && Component(ns, 1) == 7 && Component(ns, 2) < 3)
  }

  /** On dotted digits of any length, leading zeros and large numbers included, the gate is the order of
      the first three components; where one of them is no number, the version is not too old. */
  lemma DottedDigitsAreCompared(ds: seq<string>)
    requires AreDigits(ds)
    ensures TooOld(Join(ds, '.')) <==> Readable(ds) && Precedes(Numbers(ds), MINIMUM)
  {
    DigitsHaveNoDots(ds);
    SplitJoin(ds, '.');
    var three := if |ds| > 3 then ds[..3] else ds;
    assert ParseForSemver(Join(ds, '.')) == Join(three, '.');
    assert Readable(three) <==> Readable(ds);
    ParseUpToThree(three);
  }

  /** The library reads no number with a leading zero, so such a version never blocks. */
  lemma LeadingZeroNeverBlocks(ds: seq<string>, k: nat)
    requires AreDigits(ds) && k < 3 && k < |ds| && |ds[k]| > 1 && ds[k][0] == '0'
    ensures !TooOld(Join(ds, '.'))
    ensures |ds| <= 3 ==> ParseTolerant(Join(ds, '.')) == None
  {
    assert ParseNumber(ds[k]).None?;
    DottedDigitsAreCompared(ds);
    if |ds| <= 3 { ParseUpToThree(ds); }
  }

  /** On dotted decimals of any length the gate is the order of the first three components. */
  lemma DottedVersionsAreCompared(ns: seq<nat>)
    requires ns != [] && Fit(ns)
    ensures TooOld(Dotted(ns)) <==> BelowMinimum(ns)
  {
    var ds := Decimals(ns);
    assert AreDigits(ds);
    forall k | 0 <= k < |ns| ensures ParseNumber(ds[k]) == Some(ns[k]) { DecimalParses(ns[k]); }
    DottedDigitsAreCompared(ds);
  }

  // ---------------------------------------------------------------- decorated versions

  /** A number that does not fit 64 bits is not read, so its version never blocks. */
  lemma LargeNumbersAreNotRead(n: nat)
    ensures ParseNumber(Decimal(n)) == if n < 0x1_0000_0000_0000_0000 then Some(n) else None
  {
    ValueOfDecimal(n);
  }

  lemma DottedEnds(ds: seq<string>)
    requires AreDigits(ds)
    ensures var s := Join(ds, '.'); s != "" && IsDigit(s[0]) && IsDigit(s[|s| - 1])
  {
    assert forall k :: 0 <= k < |ds| ==> ds[k] in ds;
    JoinEnds(ds, '.');
    var first, last := ds[0], ds[|ds| - 1];
    assert first[0] in first && last[|last| - 1] in last;
  }

  lemma DigitsAreNoSpaces(c: char)
    requires IsDigit(c)
    ensures !IsSpace(c) && c != 'v'
  {
  }

  /** White space around a version and a "v" in front of it do not matter. */
  lemma DecorationIsDropped(pre: string, ds: seq<string>, post: string)
    requires (forall c :: c in pre ==> IsSpace(c)) && (forall c :: c in post ==> IsSpace(c)) && AreDigits(ds)
    ensures var s := Join(ds, '.');
      ParseTolerant(pre + s + post) == ParseTolerant(pre + ("v" + s) + post) == ParseTolerant(s)
  {
    var s := Join(ds, '.');
    DottedEnds(ds);
    DigitsAreNoSpaces(s[0]);
    DigitsAreNoSpaces(s[|s| - 1]);
    TrimAround(pre, s, post, IsSpace);
    assert ("v" + s)[0] == 'v' && !IsSpace('v') && ("v" + s)[|s|] == s[|s| - 1];
    TrimAround(pre, "v" + s, post, IsSpace);
    TrimmedStays(s, IsSpace);
    assert ("v" + s)[1..] == s;
  }

  /** A pre-release identifier: letters, digits and hyphens, the first one a letter. */
  predicate IsPreRelease(id: string) {
    id != "" && ('a' <= id[0] <= 'z' || 'A' <= id[0] <= 'Z') && AlphaNumeric(id)
  }

  predicate IsPlain(c: char) {
    IsDigit(c) || 'a' <= c <= 'z' || 'A' <= c <= 'Z' || c == '-'
  }

  lemma PlainCharacters(c: char)
    requires IsPlain(c)
    ensures c != '.' && c != '+' && !IsSpace(c)
  {
  }

  lemma PlainIdentifier(id: string)
    requires IsPreRelease(id)
    ensures '.' !in id && '+' !in id && !IsSpace(id[|id| - 1]) && !AllDigits(id)
  {
    forall c | c in id ensures c != '.' && c != '+' && !IsSpace(c) { PlainCharacters(c); }
    assert id[0] in id && !IsDigit(id[0]) && id[|id| - 1] in id;
  }

  lemma {:induction false} IndexOfFirst(d: string, c: char, rest: string)
    requires c !in d
    ensures IndexOf(d + [c] + rest, c) == |d|
  {
    var s := d + [c] + rest;
    if d != "" {
      assert s[0] == d[0] && d[0] in d && s[1..] == d[1..] + [c] + rest;
      IndexOfFirst(d[1..], c, rest);
    }
  }

  lemma {:induction false} IndexOfNone(s: string, c: char)
    requires c !in s
    ensures IndexOf(s, c) == |s|
  {
    if s != "" {
      assert s[0] in s;
      IndexOfNone(s[1..], c);
    }
  }

  lemma PatchWithPreRelease(d: string, id: string)
    requires AllDigits(d) && IsPreRelease(id)
    ensures ParsePatch(d + "-" + id) == if ParseNumber(d).Some? then Some((ParseNumber(d).value, [id])) else None
  {
    var s := d + "-" + id;
    PlainIdentifier(id);
    assert !IsDigit('+') && !IsDigit('-') && '+' !in s && '-' !in d;
    IndexOfNone(s, '+');
    IndexOfFirst(d, '-', id);
    SplitWithout(id, '.');
    assert s[..|s|] == s && s[|d| + 1..] == id && s[..|d|] == d;
  }

  lemma PatchWithBuild(d: string, id: string)
    requires AllDigits(d) && IsPreRelease(id)
    ensures ParsePatch(d + "+" + id) == if ParseNumber(d).Some? then Some((ParseNumber(d).value, [])) else None
  {
    var s := d + "+" + id;
    PlainIdentifier(id);
    assert !IsDigit('+') && !IsDigit('-') && '+' !in d && '-' !in d;
    IndexOfFirst(d, '+', id);
    IndexOfNone(d, '-');
    SplitWithout(id, '.');
    assert s[|d| + 1..] == id && s[..|d|] == d && d[..|d|] == d;
  }

  /** Three components whose last one is a decorated number. */
  lemma DecoratedParses(ds: seq<string>, patch: string, pre: seq<string>)
    requires AreDigits(ds) && |ds| == 3 && Readable(ds) && patch != "" && '.' !in patch && !IsSpace(patch[|patch| - 1])
    requires ParsePatch(patch) == Some((NumberAt(ds, 2), pre))
    ensures var s := Join([ds[0], ds[1], patch], '.');
      && ParseForSemver(s) == s
      && ParseTolerant(s) == Some(Version(NumberAt(ds, 0), NumberAt(ds, 1), NumberAt(ds, 2), pre))
  {
    var parts := [ds[0], ds[1], patch];
    var s := Join(parts, '.');
    assert ds[0] in ds && ds[1] in ds && !IsDigit('.') && ds[0][0] in ds[0];
    SplitJoin(parts, '.');
    JoinEnds(parts, '.');
    DigitsAreNoSpaces(s[0]);
    TrimmedStays(s, IsSpace);
    assert SplitInThree(s) == parts;
    assert ParseParts(parts) == Some(Version(NumberAt(ds, 0), NumberAt(ds, 1), NumberAt(ds, 2), pre));
  }

  lemma DecoratedIsTooOld(ds: seq<string>, patch: string, pre: seq<string>)
    requires AreDigits(ds) && |ds| == 3 && Readable(ds) && patch != "" && '.' !in patch && !IsSpace(patch[|patch| - 1])
    requires ParsePatch(patch) == Some((NumberAt(ds, 2), pre))
    ensures var ns := [NumberAt(ds, 0), NumberAt(ds, 1), NumberAt(ds, 2)];
      TooOld(Join([ds[0], ds[1], patch], '.')) <==> BelowMinimum(ns) || (ns == [6, 7, 3] && pre != [])
  {
    DecoratedParses(ds, patch, pre);
  }

  /** With equal numbers a pre-release comes before the release, and build metadata does not count: with an identifier
      appended a version is too old up to 6.7.3 itself, with metadata below it. */
  lemma DecoratedVersionsAreCompared(ds: seq<string>, id: string)
    requires AreDigits(ds) && |ds| == 3 && Readable(ds) && IsPreRelease(id)
    ensures var ns := [NumberAt(ds, 0), NumberAt(ds, 1), NumberAt(ds, 2)];
      && (TooOld(Join([ds[0], ds[1], ds[2] + "-" + id], '.')) <==> BelowMinimum(ns) || ns == [6, 7, 3])
      && (TooOld(Join([ds[0], ds[1], ds[2] + "+" + id], '.')) <==> BelowMinimum(ns))
  {
    assert ds[2] in ds && !IsDigit('.');
    PlainIdentifier(id);
    PatchWithPreRelease(ds[2], id);
    PatchWithBuild(ds[2], id);
    DecoratedIsTooOld(ds, ds[2] + "-" + id, [id]);
    DecoratedIsTooOld(ds, ds[2] + "+" + id, []);
  }

  // ---------------------------------------------------------------- hardware versions

  /** Reading back the hardware version n gives n. */
  lemma HardwareRoundTrip(n: nat)
    requires n < TWO_63
    ensures ParseHardware(HARDWARE_PREFIX + Decimal(n)) == Some(n)
    ensures OldHardware("vmx-" + Decimal(n)) <==> n < 15
  {
    var d := Decimal(n);
    assert d[0] in d && d[|d| - 1] in d;
    TrimPrefixOfCut(HARDWARE_PREFIX, d, InPrefix);
    ParseIntOfDecimal(n);
  }
}
