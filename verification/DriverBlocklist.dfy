/** Finding the blocklist entry that decides about a graphics feature. */
module DriverBlocklists {
  import opened BasicTypes
  import opened DriverVersions
  import opened DriverVersionTexts

  // Feature statuses and features of nsIGfxInfo.
  const STATUS_UNKNOWN := 2
  const BLOCKED_DRIVER_VERSION := 3
  const BLOCKED_DEVICE := 4
  const DIRECT2D := 1

  const ALL_FEATURES := 0
  const ALL_DRIVER_VERSIONS := UINT64_RANGE - 1
  const NO_RULE_ID := "FEATURE_FAILURE_DL_BLACKLIST_NO_ID"
  const NV310M_RULE_ID := "FEATURE_FAILURE_D2D_NV310M_BLOCK"
  const NV310M_DEVICE := "0x0A70"

  datatype OperatingSystem = Unknown | AnyWindows | AnyMac | Version(name: string)

  datatype Platform = Windows | Mac | X11

  datatype Comparison =
    | LessThan
    | BuildIdLessThan
    | LessThanOrEqual
    | BuildIdLessThanOrEqual
    | GreaterThan
    | GreaterThanOrEqual
    | Equal
    | NotEqual
    | BetweenExclusive
    | BetweenInclusive
    | BetweenInclusiveStart
    | Ignored

  /** An entry of the blocklist. Without a list of devices it is about all of them. */
  datatype Rule = Rule(
    os: OperatingSystem, osVersion: uint32,
    adapterVendor: string, driverVendor: string, devices: Option<seq<string>>,
    feature: int, status: int,
    op: Comparison, driverVersion: uint64, driverVersionMax: uint64,
    suggestedVersion: Option<string>, ruleId: string,
    model: string, hardware: string, product: string, manufacturer: string,
    gpu2: bool)

  datatype Adapter = Adapter(vendor: string, device: string, driverVendor: string, driverVersion: string)

  /** The machine. An adapter is missing if any of its data could not be got. How names
      are compared regardless of case, and the names of the wildcards, come with it. */
  datatype Machine = Machine(
    platform: Platform, os: OperatingSystem, osVersion: uint32,
    first: Option<Adapter>, second: Option<Adapter>,
    model: string, hardware: string, product: string, manufacturer: string,
    sameName: (string, string) -> bool,
    allVendors: string, allDriverVendors: string, nvidia: string)
  {
    function GPU(second': bool): Option<Adapter> { if second' then second else first }
    predicate ComparesVersions() { platform.Windows? || platform.X11? }
  }

  // ----- When an entry applies -----

  predicate MatchingOperatingSystems(platform: Platform, blocked: OperatingSystem, system: OperatingSystem) {
    match blocked
    case Unknown => false
    case AnyWindows => platform.Windows? || system == blocked
    case AnyMac => platform.Mac? || system == blocked
    case Version(_) => system == blocked
  }

  /** The version test itself, on packed versions. */
  predicate Holds(op: Comparison, v: nat, version: uint64, max: uint64) {
    match op
    case LessThan => v < version
    case BuildIdLessThan => v % FIELD_RANGE < version
    case LessThanOrEqual => v <= version
    case BuildIdLessThanOrEqual => v % FIELD_RANGE <= version
    case GreaterThan => v > version
    case GreaterThanOrEqual => v >= version
    case Equal => v == version
    case NotEqual => v != version
    case BetweenExclusive => version < v < max
    case BetweenInclusive => version <= v <= max
    case BetweenInclusiveStart => version <= v < max
    case Ignored => true
  }

  /** How the comparisons go together. All but those of build numbers come down to
      LessThan, which LessThanRulePassesOlderExactly says the meaning of. */
  lemma ComparisonsGoTogether(v: uint64, version: uint64, max: uint64)
    ensures Holds(Equal, v, version, max) <==> !Holds(LessThan, v, version, max) && !Holds(LessThan, version, v, max)
    ensures Holds(NotEqual, v, version, max) <==> !Holds(Equal, v, version, max)
    ensures Holds(LessThanOrEqual, v, version, max) <==> Holds(LessThan, v, version, max) || v == version
    ensures Holds(GreaterThan, v, version, max) <==> Holds(LessThan, version, v, max)
    ensures Holds(GreaterThanOrEqual, v, version, max) <==> !Holds(LessThan, v, version, max)
    ensures Holds(BetweenExclusive, v, version, max) <==>
      Holds(LessThan, version, v, max) && Holds(LessThan, v, max, max)
    ensures Holds(BetweenInclusive, v, version, max) <==>
      Holds(GreaterThanOrEqual, v, version, max) && Holds(LessThanOrEqual, v, max, max)
    ensures Holds(BetweenInclusiveStart, v, version, max) <==>
      Holds(GreaterThanOrEqual, v, version, max) && Holds(LessThan, v, max, max)
    ensures Holds(BuildIdLessThan, v, version, max) <==> Holds(LessThan, Field(v, 0), version, max)
    ensures Holds(BuildIdLessThanOrEqual, v, version, max) <==> Holds(LessThanOrEqual, Field(v, 0), version, max)
    ensures Holds(Ignored, v, version, max)
  {
    FieldsAreDigits(v);
  }

  predicate PassesVersion(r: Rule, m: Machine, driverVersion: string) {
    !m.ComparesVersions() || Holds(r.op, Numeric(driverVersion), r.driverVersion, r.driverVersionMax)
    || r.driverVersion == ALL_DRIVER_VERSIONS
  }

  predicate NamesDevice(r: Rule, m: Machine, device: string) {
    r.devices.Some? && r.devices.value != [] ==>
      exists j :: 0 <= j < |r.devices.value| && m.sameName(r.devices.value[j], device)
  }

  predicate NamesVendors(r: Rule, m: Machine, a: Adapter) {
    && (m.sameName(r.adapterVendor, a.vendor) || m.sameName(r.adapterVendor, m.allVendors))
    && (m.sameName(r.driverVendor, a.driverVendor) || m.sameName(r.driverVendor, m.allDriverVendors))
  }

  predicate NamesProduct(r: Rule, m: Machine) {
    && (r.hardware == "" || r.hardware == m.hardware)
    && (r.model == "" || r.model == m.model)
    && (r.product == "" || r.product == m.product)
    && (r.manufacturer == "" || r.manufacturer == m.manufacturer)
  }

  /** Everything that an entry asks for. */
  predicate Applies(r: Rule, m: Machine, feature: int) {
    && m.GPU(r.gpu2).Some?
    && MatchingOperatingSystems(m.platform, r.os, m.os)
    && (r.osVersion == 0 || r.osVersion == m.osVersion)
    && NamesVendors(r, m, m.GPU(r.gpu2).value)
    && NamesDevice(r, m, m.GPU(r.gpu2).value.device)
    && NamesProduct(r, m)
    && PassesVersion(r, m, m.GPU(r.gpu2).value.driverVersion)
    && (r.feature == ALL_FEATURES || r.feature == feature)
  }

  /** The entry at i applies, and none before it. */
  ghost predicate Decides(rules: seq<Rule>, m: Machine, feature: int, i: nat) {
    i < |rules| && Applies(rules[i], m, feature) && forall j :: 0 <= j < i ==> !Applies(rules[j], m, feature)
  }

  predicate IsNV310MSecond(m: Machine) {
    m.second.Some? && m.sameName(m.nvidia, m.second.value.vendor) && m.sameName(NV310M_DEVICE, m.second.value.device)
  }

  datatype Verdict = Verdict(status: int, failureId: Option<string>, suggested: string)

  /** The Windows special case for one particular second adapter. */
  function WithSpecialCase(v: Verdict, m: Machine, feature: int): Verdict {
    if m.platform.Windows? && v.status == STATUS_UNKNOWN && feature == DIRECT2D && IsNV310MSecond(m) then
      v.(status := BLOCKED_DEVICE, failureId := Some(NV310M_RULE_ID))
    else v
  }

  /** The version that is suggested on Windows for a driver that is too old. */
  function Suggestion(r: Rule, m: Machine): string {
    if !m.platform.Windows? || r.status != BLOCKED_DRIVER_VERSION then ""
    else if r.suggestedVersion.Some? then r.suggestedVersion.value
    else if r.op == LessThan && r.driverVersion != ALL_DRIVER_VERSIONS then Suggested(r.driverVersion)
    else ""
  }

  /** The failure that the entry reports. */
  function FailureId(r: Rule): string {
    if r.ruleId != "" then r.ruleId else NO_RULE_ID
  }

  // ----- What an entry is about -----

  /** The wildcard for operating systems, where there is one. */
  predicate IsWildcard(os: OperatingSystem, platform: Platform) {
    (os.AnyWindows? && platform.Windows?) || (os.AnyMac? && platform.Mac?)
  }

  /** The entry names nothing but wildcards. */
  predicate NamesNothing(r: Rule, m: Machine) {
    && (IsWildcard(r.os, m.platform) || (r.os == m.os && m.os.Version?)) && r.osVersion == 0
    && r.adapterVendor == m.allVendors && r.driverVendor == m.allDriverVendors
    && (r.devices.None? || r.devices == Some([]))
    && r.model == "" && r.hardware == "" && r.product == "" && r.manufacturer == ""
    && r.feature == ALL_FEATURES
    && (r.driverVersion == ALL_DRIVER_VERSIONS || r.op.Ignored? || m.platform.Mac?)
  }

  /** Wildcards are names like any other to the comparison. */
  predicate KnowsWildcards(m: Machine) {
    m.sameName(m.allVendors, m.allVendors) && m.sameName(m.allDriverVendors, m.allDriverVendors)
  }

  lemma NamesNothingApplies(r: Rule, m: Machine, feature: int)
    requires NamesNothing(r, m) && KnowsWildcards(m)
    ensures Applies(r, m, feature) <==> m.GPU(r.gpu2).Some?
  {
  }

  /** What an entry names, one thing at a time, narrows it down to the machines, or the
      feature, that it names, and changes nothing else. */
  lemma TextsNarrow(r: Rule, m: Machine, feature: int, name: string)
    requires name != ""
    ensures r.model == "" ==> (Applies(r.(model := name), m, feature) <==> Applies(r, m, feature) && m.model == name)
    ensures r.hardware == "" ==>
      (Applies(r.(hardware := name), m, feature) <==> Applies(r, m, feature) && m.hardware == name)
    ensures r.product == "" ==>
      (Applies(r.(product := name), m, feature) <==> Applies(r, m, feature) && m.product == name)
    ensures r.manufacturer == "" ==>
      (Applies(r.(manufacturer := name), m, feature) <==> Applies(r, m, feature) && m.manufacturer == name)
  {
  }

  lemma NumbersNarrow(r: Rule, m: Machine, feature: int, version: uint32, f: int)
    requires version != 0 && f != ALL_FEATURES
    ensures r.osVersion == 0 ==>
      (Applies(r.(osVersion := version), m, feature) <==> Applies(r, m, feature) && m.osVersion == version)
    ensures r.feature == ALL_FEATURES ==>
      (Applies(r.(feature := f), m, feature) <==> Applies(r, m, feature) && feature == f)
  {
  }

  lemma SystemNarrows(r: Rule, m: Machine, feature: int, os: OperatingSystem)
    requires IsWildcard(r.os, m.platform)
    ensures !os.Unknown? && !IsWildcard(os, m.platform) ==>
      (Applies(r.(os := os), m, feature) <==> Applies(r, m, feature) && m.os == os)
    ensures !Applies(r.(os := Unknown), m, feature)
  {
  }

  lemma AdapterNarrows(r: Rule, m: Machine, feature: int, name: string, devices: seq<string>)
    requires m.GPU(r.gpu2).Some? && KnowsWildcards(m)
    ensures var a := m.GPU(r.gpu2).value;
      && (r.adapterVendor == m.allVendors ==>
            (Applies(r.(adapterVendor := name), m, feature) <==>
             Applies(r, m, feature) && (m.sameName(name, a.vendor) || m.sameName(name, m.allVendors))))
      && (r.driverVendor == m.allDriverVendors ==>
            (Applies(r.(driverVendor := name), m, feature) <==>
             Applies(r, m, feature) && (m.sameName(name, a.driverVendor) || m.sameName(name, m.allDriverVendors))))
      && (r.devices.None? ==>
            (Applies(r.(devices := Some(devices)), m, feature) <==>
             Applies(r, m, feature)
             && (devices == [] || exists j :: 0 <= j < |devices| && m.sameName(devices[j], a.device))))
  {
  }

  /** An entry about the second adapter is one about the first with the two exchanged. */
  lemma AdaptersAreAlike(r: Rule, m: Machine, feature: int)
    ensures Applies(r.(gpu2 := !r.gpu2), m.(first := m.second, second := m.first), feature) <==> Applies(r, m, feature)
    ensures m.first.None? && !r.gpu2 ==> !Applies(r, m, feature)
  {
  }

  /** The version matters exactly where versions are compared and the entry has one. */
  lemma VersionMattersExactly(r: Rule, m: Machine, text: string)
    ensures m.platform.Mac? || r.driverVersion == ALL_DRIVER_VERSIONS ==> PassesVersion(r, m, text)
    ensures !m.platform.Mac? && r.driverVersion != ALL_DRIVER_VERSIONS ==>
      (PassesVersion(r, m, text) <==> Holds(r.op, Numeric(text), r.driverVersion, r.driverVersionMax))
  {
  }

  /** So a version narrows an entry down like everything else that it names. */
  lemma VersionNarrows(r: Rule, m: Machine, feature: int, op: Comparison, version: uint64, max: uint64)
    requires r.driverVersion == ALL_DRIVER_VERSIONS && m.GPU(r.gpu2).Some?
    ensures var named := r.(op := op, driverVersion := version, driverVersionMax := max);
      Applies(named, m, feature) <==>
        Applies(r, m, feature) && PassesVersion(named, m, m.GPU(r.gpu2).value.driverVersion)
  {
    VersionMattersExactly(r, m, m.GPU(r.gpu2).value.driverVersion);
  }

  /** On Windows, Direct2D is never left undecided with an NVIDIA 310M as the second
      adapter; nothing else changes a verdict. */
  lemma SpecialCaseExactly(v: Verdict, m: Machine, feature: int)
    ensures var r := WithSpecialCase(v, m, feature);
      && (r == v || (r.status == 4 && r.failureId == Some("FEATURE_FAILURE_D2D_NV310M_BLOCK") && v.status == 2
                     && r.suggested == v.suggested))
      && (r.status == 2 <==>
            v.status == 2 && !(m.platform.Windows? && feature == 1 && m.second.Some?
                               && m.sameName(m.nvidia, m.second.value.vendor)
                               && m.sameName("0x0A70", m.second.value.device)))
  {
  }

  /** The version that an entry for older drivers suggests by itself is not blocked by it. */
  lemma SuggestionIsNotBlocked(r: Rule, m: Machine, a: nat, b: nat, c: nat, d: nat)
    requires a <= 9999 && b <= 9999 && c <= 9999 && d <= 9999
    requires m.platform.Windows? && r.status == 3 && r.suggestedVersion.None?
    requires r.op == LessThan && r.driverVersion == Built(a, b, c, d)
    ensures !PassesVersion(r, m, Suggestion(r, m))
  {
    SuggestionRoundTrips(a, b, c, d);
    BuiltIsNoWildcard(a, b, c, d);
  }

  /** What an entry says for itself comes first; without it there is a suggestion on
      Windows only, and only from an entry for older drivers. */
  lemma SuggestionComesFromEntry(r: Rule, m: Machine)
    ensures m.platform.Windows? && r.status == 3 && r.suggestedVersion.Some? ==>
      Suggestion(r, m) == r.suggestedVersion.value
    ensures Suggestion(r, m) != "" ==> m.platform.Windows? && r.status == 3
    ensures Suggestion(r, m) != "" && r.suggestedVersion.None? ==>
      r.op == LessThan && r.driverVersion != ALL_DRIVER_VERSIONS
    ensures FailureId(r) != "" && (r.ruleId != "" ==> FailureId(r) == r.ruleId)
  {
  }

  // ----- The search -----

  method FindDevice(devices: seq<string>, m: Machine, device: string) returns (found: bool)
    ensures found <==> exists j :: 0 <= j < |devices| && m.sameName(devices[j], device)
  {
    for j := 0 to |devices|
      invariant forall k :: 0 <= k < j ==> !m.sameName(devices[k], device)
    {
      if m.sameName(devices[j], device) {
        return true;
      }
    }
    found := false;
  }

  /** The version that was read for an adapter, if there is the adapter. */
  predicate IsVersionOf(v: nat, a: Option<Adapter>) {
    a.Some? ==> v == Numeric(a.value.driverVersion)
  }

  method NumericVersion(a: Option<Adapter>) returns (v: nat)
    ensures IsVersionOf(v, a)
  {
    v := 0;
    if a.Some? {
      var _, numeric := ParseDriverVersion(a.value.driverVersion);
      v := numeric;
    }
  }

  /** Whether the loop goes on after the tests that need no version. */
  method IsAbout(r: Rule, m: Machine) returns (about: bool)
    ensures about <==>
      && m.GPU(r.gpu2).Some?
      && MatchingOperatingSystems(m.platform, r.os, m.os)
      && (r.osVersion == 0 || r.osVersion == m.osVersion)
      && NamesVendors(r, m, m.GPU(r.gpu2).value)
      && NamesDevice(r, m, m.GPU(r.gpu2).value.device)
      && NamesProduct(r, m)
  {
    var gpu := m.GPU(r.gpu2);
    if gpu.None? { return false; }
    if !MatchingOperatingSystems(m.platform, r.os, m.os) { return false; }
    if r.osVersion != 0 && r.osVersion != m.osVersion { return false; }
    if !NamesVendors(r, m, gpu.value) { return false; }
    if r.devices.Some? && r.devices.value != [] {
      var deviceMatches := FindDevice(r.devices.value, m, gpu.value.device);
      if !deviceMatches { return false; }
    }
    about := NamesProduct(r, m);
  }

  method RuleApplies(r: Rule, m: Machine, feature: int, driverVersion: nat) returns (applies: bool)
    requires IsVersionOf(driverVersion, m.GPU(r.gpu2))
    ensures applies <==> Applies(r, m, feature)
  {
    var about := IsAbout(r, m);
    if !about {
      return false;
    }
    var passes := !m.ComparesVersions() || Holds(r.op, driverVersion, r.driverVersion, r.driverVersionMax);
    if passes || r.driverVersion == ALL_DRIVER_VERSIONS {
      return r.feature == ALL_FEATURES || r.feature == feature;
    }
    return false;
  }

  /** The index of the first entry that applies, or the number of entries. */
  method FindRule(rules: seq<Rule>, m: Machine, feature: int) returns (i: nat)
    ensures i <= |rules|
    ensures i < |rules| ==> Decides(rules, m, feature, i)
    ensures i == |rules| ==> forall j :: 0 <= j < |rules| ==> !Applies(rules[j], m, feature)
  {
    var version0 := NumericVersion(m.first);
    var version1 := NumericVersion(m.second);
    i := 0;
    while i < |rules|
      invariant i <= |rules|
      invariant forall j :: 0 <= j < i ==> !Applies(rules[j], m, feature)
    {
      var applies := RuleApplies(rules[i], m, feature, if rules[i].gpu2 then version1 else version0);
      if applies {
        return;
      }
      i := i + 1;
    }
  }

  /** The first entry that applies decides; without one the status stays unknown. With
      no data about either adapter the status is 0, which is none of the statuses. */
  method FindBlocklistedDeviceInList(rules: seq<Rule>, m: Machine, feature: int) returns (v: Verdict)
    ensures m.first.None? && m.second.None? ==> v == Verdict(0, None, "")
    ensures (m.first.Some? || m.second.Some?) && (forall i :: 0 <= i < |rules| ==> !Applies(rules[i], m, feature)) ==>
      v == WithSpecialCase(Verdict(STATUS_UNKNOWN, None, ""), m, feature)
    ensures forall i: nat :: Decides(rules, m, feature, i) && (m.first.Some? || m.second.Some?) ==>
      v == WithSpecialCase(Verdict(rules[i].status, Some(FailureId(rules[i])), Suggestion(rules[i], m)), m, feature)
  {
    v := Verdict(STATUS_UNKNOWN, None, "");
    if m.first.None? && m.second.None? {
      return v.(status := 0);
    }
    var i := FindRule(rules, m, feature);
    if i < |rules| {
      v := v.(status := rules[i].status, failureId := Some(FailureId(rules[i])));
    }
    assert i < |rules| ==> forall k: nat :: Decides(rules, m, feature, k) ==> k == i;
    if m.platform.Windows? {
      v := WithSpecialCase(v, m, feature);
      if v.status == BLOCKED_DRIVER_VERSION {
        v := v.(suggested := Suggestion(rules[i], m));
      }
    }
  }

  // ----- What an entry for old drivers means -----

  lemma {:induction false} SomeRuleDecides(rules: seq<Rule>, m: Machine, feature: int, i: nat)
    requires i < |rules| && Applies(rules[i], m, feature)
    ensures exists k: nat :: k <= i && Decides(rules, m, feature, k)
    decreases i
  {
    if j :| 0 <= j < i && Applies(rules[j], m, feature) {
      SomeRuleDecides(rules, m, feature, j);
    } else {
      assert Decides(rules, m, feature, i);
    }
  }

  lemma ComponentsAreVersion(a: nat, b: nat, c: nat, d: nat)
    requires a <= 9999 && b <= 9999 && c <= 9999 && d <= 9999
    ensures IsVersion(Fields(CString(Dotted(a, b, c, d))))
  {
    FieldsOfDotted(a, b, c, d);
    PrintedIsRead(a);
    PrintedIsRead(b);
    PrintedIsRead(c);
    PrintedIsRead(d);
  }

  /** An entry for drivers before a.b.c.d. */
  predicate IsBefore(r: Rule, a: uint32, b: uint32, c: uint32, d: uint32) {
    r.op == LessThan && r.driverVersion == Built(a, b, c, d)
  }

  /** The numbers that are read, 0 for text that cannot be parsed, compare one after
      another with the fields of an entry's version. */
  predicate ReadsBefore(text: string, v: uint64) {
    var r := if Parse(text).Some? then Read(Fields(CString(text))) else Reading(0, 0, 0, 0);
    var a, b, c, d := Field(v, 3), Field(v, 2), Field(v, 1), Field(v, 0);
    r.a < a || (r.a == a && (r.b < b || (r.b == b && (r.c < c || (r.c == c && r.d < d)))))
  }

  /** An entry for older drivers, unless it is the wildcard, passes exactly the text that
      reads as something before its fields, whatever the text is. The fields are the
      padded components if these have 16 bits. If they have at most four digits, the
      versions made of digits that pass are exactly those that precede a.b.c.d as
      decimals. */
  lemma LessThanRulePassesOlderExactly(r: Rule, m: Machine, a: uint32, b: uint32, c: uint32, d: uint32, text: string)
    ensures m.ComparesVersions() && r.op == LessThan && r.driverVersion != ALL_DRIVER_VERSIONS ==>
      (PassesVersion(r, m, text) <==> ReadsBefore(text, r.driverVersion))
    ensures IsField(a) && IsField(b) && IsField(c) && IsField(d) && IsBefore(r, a, b, c, d) ==>
      && Field(r.driverVersion, 3) == a && Field(r.driverVersion, 2) == PadNumber(b)
      && Field(r.driverVersion, 1) == PadNumber(c) && Field(r.driverVersion, 0) == PadNumber(d)
    ensures AreShort(a, b, c, d) ==>
      IsVersion(Fields(CString(Dotted(a, b, c, d)))) && Built(a, b, c, d) < ALL_DRIVER_VERSIONS
    ensures AreShort(a, b, c, d) && IsVersion(Fields(CString(text))) ==>
      (m.ComparesVersions() && IsBefore(r, a, b, c, d) ==>
         (PassesVersion(r, m, text) <==> Precedes(Fields(CString(text)), Fields(CString(Dotted(a, b, c, d))))))
  {
    NumericIsBefore(text, r.driverVersion);
    if IsField(a) && IsField(b) && IsField(c) && IsField(d) && IsBefore(r, a, b, c, d) {
      FieldsAreComponents(a, b, c, d);
    }
    if AreShort(a, b, c, d) {
      ComponentsAreVersion(a, b, c, d);
      BuiltIsNoWildcard(a, b, c, d);
      if IsVersion(Fields(CString(text))) {
        ParseAgreesWithBuiltExactly(a, b, c, d);
        ParsedOrderIsDecimalOrder(text, Dotted(a, b, c, d));
      }
    }
  }

  lemma NumericIsBefore(text: string, v: uint64)
    ensures Numeric(text) < v <==> ReadsBefore(text, v)
  {
    FieldsOfNumber(v);
    var r := if Parse(text).Some? then Read(Fields(CString(text))) else Reading(0, 0, 0, 0);
    if Parse(text).Some? { PackIsPositional(r.a, r.b, r.c, r.d); }
    PackedOrder(r.a, r.b, r.c, r.d, Field(v, 3), Field(v, 2), Field(v, 1), Field(v, 0));
  }

  lemma FieldsAreComponents(a: uint32, b: uint32, c: uint32, d: uint32)
    requires IsField(a) && IsField(b) && IsField(c) && IsField(d)
    ensures var v := Built(a, b, c, d);
      && v < UINT64_RANGE
      && Field(v, 3) == a && Field(v, 2) == PadNumber(b) && Field(v, 1) == PadNumber(c) && Field(v, 0) == PadNumber(d)
  {
    BuiltIsPositional(a, b, c, d);
    var v := Built(a, b, c, d);
    FieldsOfNumber(v);
    PackedOrder(
      Field(v, 3), Field(v, 2), Field(v, 1), Field(v, 0), a, PadNumber(b), PadNumber(c), PadNumber(d));
  }

  lemma BuiltIsNoWildcard(a: nat, b: nat, c: nat, d: nat)
    requires AreShort(a, b, c, d)
    ensures Built(a, b, c, d) < ALL_DRIVER_VERSIONS
  {
    BuiltIsPositional(a, b, c, d);
    PackedOrder(a, PadNumber(b), PadNumber(c), PadNumber(d), 0xFFFF, 0xFFFF, 0xFFFF, 0xFFFF);
  }
}
