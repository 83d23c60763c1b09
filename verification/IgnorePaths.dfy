/** The ignore paths that the two resource types admit (internal/driftdetection/driftdetection.go:183-302;
    apis/cluster/dnsview/v1alpha1/dnsview_types.go:73-137, 207-395;
    apis/cluster/dtclbdn/v1alpha1/dtclbdn_types.go:38-84). */
module IgnorePaths {
  import opened Wrappers
  import opened Text
  import opened DriftPaths
  import opened DriftConfig

  // ---- one struct -----------------------------------------------------------------------------------

  /** Of the names a struct resolves, which are allowlisted and which denote structs. */
  ghost predicate Resolves(t: Type, eligible: set<string>, structs: set<string>) {
    && Deref(t).Struct?
    && var fields := Deref(t).fields;
       && (forall n :: n in eligible + structs ==> Lookup(fields, n).Some?)
       && (forall n :: Lookup(fields, n).Some? && n in ELIGIBLE ==> n in eligible)
       && (forall n :: Lookup(fields, n).Some? ==> (Deref(Lookup(fields, n).value).Struct? <==> n in structs))
  }

  function Below(t: Type, name: string): Type
    requires Deref(t).Struct? && Lookup(Deref(t).fields, name).Some?
  {
    Lookup(Deref(t).fields, name).value
  }

  /** One step of an allowlisted path. */
  lemma FirstStep(t: Type, eligible: set<string>, structs: set<string>, segs: seq<string>)
    requires Resolves(t, eligible, structs) && segs != [] && segs[|segs| - 1] in ELIGIBLE
    requires TypeAt(t, segs).Some?
    ensures |segs| == 1 ==> segs[0] in eligible
    ensures |segs| > 1 ==>
              && segs[0] in structs && TypeAt(Below(t, segs[0]), segs[1..]).Some?
              && segs[1..] != [] && segs[1..][|segs[1..]| - 1] in ELIGIBLE && segs == [segs[0]] + segs[1..]
  {
    var next := Lookup(Deref(t).fields, segs[0]);
    assert next.Some? && TypeAt(next.value, segs[1..]).Some?;
    if |segs| > 1 {
      assert segs[1..] != [];
      assert Deref(next.value).Struct?;
    }
  }

  lemma OneSegment(t: Type, eligible: set<string>, structs: set<string>, name: string)
    requires Resolves(t, eligible, structs) && name in eligible + structs
    ensures TypeAt(t, [name]) == Some(Below(t, name))
  {
    assert [name][1..] == [];
  }

  lemma TwoSegments(t: Type, name: string, more: seq<string>)
    requires Deref(t).Struct? && Lookup(Deref(t).fields, name).Some?
    ensures TypeAt(t, [name] + more) == TypeAt(Below(t, name), more)
  {
    assert ([name] + more)[1..] == more;
  }

  ghost predicate Flat(fields: seq<Field>) {
    && (forall i :: 0 <= i < |fields| ==> !IsEmbedded(fields[i]) && fields[i].jsonName != "-")
    && (forall i, j :: 0 <= i < j < |fields| ==> fields[i].jsonName != fields[j].jsonName)
  }

  lemma {:induction false} FlatLookup(fields: seq<Field>, name: string)
    requires Flat(fields)
    ensures Promoted(fields, name) == None
    ensures Lookup(fields, name).Some? <==> exists i :: 0 <= i < |fields| && fields[i].jsonName == name
    ensures forall i :: 0 <= i < |fields| && fields[i].jsonName == name ==> Lookup(fields, name) == Some(fields[i].typ)
  {
    if fields != [] {
      assert forall i :: 0 < i < |fields| ==> fields[i] == fields[1..][i - 1];
      FlatLookup(fields[1..], name);
    }
  }

  lemma FlatResolves(fields: seq<Field>, eligible: set<string>, structs: set<string>)
    requires Flat(fields)
    requires forall n :: n in eligible + structs ==> exists i :: 0 <= i < |fields| && fields[i].jsonName == n
    requires forall i :: 0 <= i < |fields| ==>
               && (fields[i].jsonName in ELIGIBLE ==> fields[i].jsonName in eligible)
               && (Deref(fields[i].typ).Struct? <==> fields[i].jsonName in structs)
    ensures Resolves(Struct(fields), eligible, structs)
  {
    forall n
      ensures n in eligible + structs ==> Lookup(fields, n).Some?
      ensures Lookup(fields, n).Some? && n in ELIGIBLE ==> n in eligible
      ensures Lookup(fields, n).Some? ==> (Deref(Lookup(fields, n).value).Struct? <==> n in structs)
    {
      FlatLookup(fields, n);
    }
  }

  lemma PointerResolves(t: Type, eligible: set<string>, structs: set<string>)
    requires Resolves(t, eligible, structs)
    ensures Resolves(Pointer(t), eligible, structs)
  {
    assert Deref(Pointer(t)) == Deref(t);
  }

  // ---- below forProvider ------------------------------------------------------------------------------

  lemma {:induction false} TypeAtJoins(t: Type, a: seq<string>, b: seq<string>)
    requires TypeAt(t, a).Some?
    ensures TypeAt(t, a + b) == TypeAt(TypeAt(t, a).value, b)
    decreases |a|
  {
    if a == [] {
      assert a + b == b;
    } else {
      assert (a + b)[1..] == a[1..] + b;
      TypeAtJoins(Lookup(Deref(t).fields, a[0]).value, a[1..], b);
    }
  }

  lemma BelowParameters(mg: Type, segs: seq<string>)
    requires TypeAt(mg, ["spec"] + ["forProvider"]).Some? && segs != [] && segs[0] == "forProvider"
    ensures TypeAt(mg, ["spec"] + segs) == TypeAt(TypeAt(mg, ["spec"] + ["forProvider"]).value, segs[1..])
  {
    var head, rest := ["spec"] + ["forProvider"], segs[1..];
    assert segs == ["forProvider"] + rest && ["spec"] + segs == head + rest;
    TypeAtJoins(mg, head, rest);
  }

  // ---- DNSView ------------------------------------------------------------------------------------------

  datatype IgnorePath = CommentPath | DisablePath | ExtAttrsPath | ScheduleDisablePath

  function Segments(path: IgnorePath): seq<string> {
    ["forProvider"] +
    match path
    case CommentPath => ["comment"]
    case DisablePath => ["disable"]
    case ExtAttrsPath => ["extAttrs"]
    case ScheduleDisablePath => ["scavengingSettings", "scavengingSchedule", "disable"]
  }

  /** DNSViewParameters: lists are no structs, and the only struct-valued fields are the rate limit and the
      scavenging settings with their schedule. */
  ghost predicate IsViewParameters(t: Type) {
    && Resolves(t, {"comment", "disable", "extAttrs"}, {"responseRateLimiting", "scavengingSettings"})
    && Resolves(Below(t, "responseRateLimiting"), {}, {})
    && Resolves(Below(t, "scavengingSettings"), {}, {"scavengingSchedule"})
    && Resolves(Below(Below(t, "scavengingSettings"), "scavengingSchedule"), {"disable"}, {})
  }

  lemma SettingsPaths(t: Type, segs: seq<string>)
    requires Resolves(t, {}, {"scavengingSchedule"}) && Resolves(Below(t, "scavengingSchedule"), {"disable"}, {})
    requires segs != [] && segs[|segs| - 1] in ELIGIBLE && TypeAt(t, segs).Some?
    ensures segs == ["scavengingSchedule"] + ["disable"]
  {
    FirstStep(t, {}, {"scavengingSchedule"}, segs);
    FirstStep(Below(t, "scavengingSchedule"), {"disable"}, {}, segs[1..]);
    assert segs[1..] == ["disable"];
  }

  /** The allowlisted paths that resolve below the parameters. */
  lemma ParameterPaths(t: Type, segs: seq<string>) returns (path: IgnorePath)
    requires IsViewParameters(t) && segs != [] && segs[|segs| - 1] in ELIGIBLE && TypeAt(t, segs).Some?
    ensures ["forProvider"] + segs == Segments(path)
  {
    FirstStep(t, {"comment", "disable", "extAttrs"}, {"responseRateLimiting", "scavengingSettings"}, segs);
    if |segs| == 1 {
      assert segs == [segs[0]];
      path := if segs[0] == "comment" then CommentPath else if segs[0] == "disable" then DisablePath else ExtAttrsPath;
    } else if segs[0] == "responseRateLimiting" {
      FirstStep(Below(t, "responseRateLimiting"), {}, {}, segs[1..]);
      assert false;
    } else {
      SettingsPaths(Below(t, "scavengingSettings"), segs[1..]);
      path := ScheduleDisablePath;
    }
  }

  lemma ScheduleLeafResolves(t: Type, b: string, c: string)
    requires Resolves(t, {}, {b}) && Resolves(Below(t, b), {c}, {})
    ensures TypeAt(t, [b] + [c]).Some?
  {
    OneSegment(Below(t, b), {c}, {}, c);
    TwoSegments(t, b, [c]);
  }

  lemma LeafPathResolves(t: Type)
    requires IsViewParameters(t)
    ensures TypeAt(t, ["scavengingSettings"] + (["scavengingSchedule"] + ["disable"])).Some?
  {
    ScheduleLeafResolves(Below(t, "scavengingSettings"), "scavengingSchedule", "disable");
    TwoSegments(t, "scavengingSettings", ["scavengingSchedule"] + ["disable"]);
  }

  lemma TopPathResolves(t: Type, name: string)
    requires IsViewParameters(t) && name in {"comment", "disable", "extAttrs"}
    ensures TypeAt(t, [name]).Some?
  {
    OneSegment(t, {"comment", "disable", "extAttrs"}, {"responseRateLimiting", "scavengingSettings"}, name);
  }

  lemma PathResolves(t: Type, path: IgnorePath)
    requires IsViewParameters(t)
    ensures TypeAt(t, Segments(path)[1..]).Some?
  {
    match path
    case CommentPath => TopPathResolves(t, "comment"); assert Segments(path)[1..] == ["comment"];
    case DisablePath => TopPathResolves(t, "disable"); assert Segments(path)[1..] == ["disable"];
    case ExtAttrsPath => TopPathResolves(t, "extAttrs"); assert Segments(path)[1..] == ["extAttrs"];
    case ScheduleDisablePath =>
      LeafPathResolves(t);
      assert Segments(path)[1..] == ["scavengingSettings"] + (["scavengingSchedule"] + ["disable"]);
  }

  lemma PathShape(path: IgnorePath)
    ensures Segments(path) == ["forProvider"] + Segments(path)[1..]
    ensures Segments(path)[|Segments(path)| - 1] in ELIGIBLE
  {
  }

  ghost predicate IsView(mg: Type) {
    var params := TypeAt(mg, ["spec"] + ["forProvider"]);
    params.Some? && IsViewParameters(params.value)
  }

  lemma ResolvesToPath(mg: Type, segs: seq<string>) returns (path: IgnorePath)
    requires IsView(mg) && |segs| > 1 && segs[0] == "forProvider"
    requires segs[|segs| - 1] in ELIGIBLE && TypeAt(mg, ["spec"] + segs).Some?
    ensures segs == Segments(path)
  {
    BelowParameters(mg, segs);
    path := ParameterPaths(TypeAt(mg, ["spec"] + ["forProvider"]).value, segs[1..]);
    assert segs == ["forProvider"] + segs[1..];
  }

  lemma PathIsEligible(mg: Type, path: IgnorePath)
    requires IsView(mg)
    ensures Segments(path)[|Segments(path)| - 1] in ELIGIBLE && TypeAt(mg, ["spec"] + Segments(path)).Some?
  {
    PathShape(path);
    PathResolves(TypeAt(mg, ["spec"] + ["forProvider"]).value, path);
    BelowParameters(mg, Segments(path));
  }

  /** The ignore paths that a DNSView accepts are exactly these four. */
  lemma AcceptedViewPaths(mg: Type, s: string, p: string)
    requires IsView(mg) && Normalized(s) == Ok(p)
    ensures Accept(mg, s) == Ok(p) <==> exists path: IgnorePath :: Split(p, '.') == Segments(path)
  {
    AcceptedShape(s, p);
    if Accept(mg, s) == Ok(p) {
      var path := ResolvesToPath(mg, Split(p, '.'));
    }
    forall path: IgnorePath | Split(p, '.') == Segments(path)
      ensures Judge(mg, p) == None
    {
      PathIsEligible(mg, path);
    }
  }

  const SCHEDULE_TYPE := Struct([Field("disable", false, Leaf)])
  const SETTINGS_TYPE := Struct([Field("scavengingSchedule", false, Pointer(SCHEDULE_TYPE))])
  const RATE_LIMIT_TYPE := Struct([])

  /** The parameters without the leaves that are not allowlisted. */
  const PARAMETERS_TYPE :=
    Struct([Field("comment", false, Pointer(Leaf)), Field("disable", false, Pointer(Leaf)),
            Field("extAttrs", false, Leaf),
            Field("responseRateLimiting", false, Pointer(RATE_LIMIT_TYPE)),
            Field("scavengingSettings", false, Pointer(SETTINGS_TYPE))])

  lemma ViewTypeExists()
    ensures IsViewParameters(PARAMETERS_TYPE)
  {
    var fields := PARAMETERS_TYPE.fields;
    assert fields[0].jsonName == "comment" && fields[1].jsonName == "disable" && fields[2].jsonName == "extAttrs";
    assert fields[3].jsonName == "responseRateLimiting" && fields[4].jsonName == "scavengingSettings";
    FlatResolves(fields, {"comment", "disable", "extAttrs"}, {"responseRateLimiting", "scavengingSettings"});
    FlatLookup(fields, "responseRateLimiting");
    FlatLookup(fields, "scavengingSettings");
    FlatResolves([], {}, {});
    PointerResolves(RATE_LIMIT_TYPE, {}, {});
    SettingsTypeResolves();
  }

  lemma SettingsTypeResolves()
    ensures Resolves(Pointer(SETTINGS_TYPE), {}, {"scavengingSchedule"})
    ensures Resolves(Below(Pointer(SETTINGS_TYPE), "scavengingSchedule"), {"disable"}, {})
  {
    assert SETTINGS_TYPE.fields[0].jsonName == "scavengingSchedule" && SCHEDULE_TYPE.fields[0].jsonName == "disable";
    FlatResolves(SETTINGS_TYPE.fields, {}, {"scavengingSchedule"});
    PointerResolves(SETTINGS_TYPE, {}, {"scavengingSchedule"});
    FlatLookup(SETTINGS_TYPE.fields, "scavengingSchedule");
    FlatResolves(SCHEDULE_TYPE.fields, {"disable"}, {});
    PointerResolves(SCHEDULE_TYPE, {"disable"}, {});
  }

  // ---- DTCLBDN ------------------------------------------------------------------------------------------

  /** DTCLBDNParameters: the only struct-valued field is the selector of auth zones with its policy. */
  ghost predicate IsLbdnParameters(t: Type) {
    && Resolves(t, {"comment", "disable", "extAttrs", "ttl", "useTtl"}, {"authZonesSelector"})
    && Resolves(Below(t, "authZonesSelector"), {}, {"policy"})
    && Resolves(Below(Below(t, "authZonesSelector"), "policy"), {}, {})
  }

  lemma NothingBelowSelector(t: Type, segs: seq<string>)
    requires Resolves(t, {}, {"policy"}) && Resolves(Below(t, "policy"), {}, {})
    requires segs != [] && segs[|segs| - 1] in ELIGIBLE
    ensures TypeAt(t, segs).None?
  {
    if TypeAt(t, segs).Some? {
      FirstStep(t, {}, {"policy"}, segs);
      FirstStep(Below(t, "policy"), {}, {}, segs[1..]);
      assert false;
    }
  }

  predicate IsLbdnName(name: string) {
    name in {"comment", "disable", "extAttrs", "ttl", "useTtl"}
  }

  lemma LbdnNamesAreEligible(name: string)
    ensures IsLbdnName(name) ==> name in ELIGIBLE
  {
  }

  lemma LbdnParameterPaths(t: Type, segs: seq<string>)
    requires IsLbdnParameters(t) && segs != [] && segs[|segs| - 1] in ELIGIBLE && TypeAt(t, segs).Some?
    ensures |segs| == 1 && IsLbdnName(segs[0])
  {
    FirstStep(t, {"comment", "disable", "extAttrs", "ttl", "useTtl"}, {"authZonesSelector"}, segs);
    if |segs| > 1 {
      NothingBelowSelector(Below(t, "authZonesSelector"), segs[1..]);
    }
  }

  lemma LbdnNamesResolve(t: Type, name: string)
    requires IsLbdnParameters(t) && IsLbdnName(name)
    ensures TypeAt(t, [name]).Some?
  {
    OneSegment(t, {"comment", "disable", "extAttrs", "ttl", "useTtl"}, {"authZonesSelector"}, name);
  }

  lemma LbdnPathsBelow(t: Type, segs: seq<string>)
    requires IsLbdnParameters(t) && segs != []
    ensures segs[|segs| - 1] in ELIGIBLE && TypeAt(t, segs).Some? <==> |segs| == 1 && IsLbdnName(segs[0])
  {
    if segs[|segs| - 1] in ELIGIBLE && TypeAt(t, segs).Some? {
      LbdnParameterPaths(t, segs);
    }
    if |segs| == 1 && IsLbdnName(segs[0]) {
      assert segs == [segs[0]];
      LbdnNamesResolve(t, segs[0]);
      LbdnNamesAreEligible(segs[0]);
    }
  }

  lemma LbdnPathExactly(mg: Type, segs: seq<string>)
    requires TypeAt(mg, ["spec"] + ["forProvider"]).Some?
    requires IsLbdnParameters(TypeAt(mg, ["spec"] + ["forProvider"]).value)
    requires |segs| >= 2 && segs[0] == "forProvider"
    ensures segs[|segs| - 1] in ELIGIBLE && TypeAt(mg, ["spec"] + segs).Some? <==> |segs| == 2 && IsLbdnName(segs[1])
  {
    var rest := segs[1..];
    assert rest[|rest| - 1] == segs[|segs| - 1] && rest[0] == segs[1];
    BelowParameters(mg, segs);
    LbdnPathsBelow(TypeAt(mg, ["spec"] + ["forProvider"]).value, rest);
  }

  /** The ignore paths that a DTCLBDN accepts are exactly these five. */
  lemma AcceptedLbdnPaths(mg: Type, s: string, p: string)
    requires TypeAt(mg, ["spec"] + ["forProvider"]).Some?
    requires IsLbdnParameters(TypeAt(mg, ["spec"] + ["forProvider"]).value)
    requires Normalized(s) == Ok(p)
    ensures Accept(mg, s) == Ok(p) <==>
            |Split(p, '.')| == 2 && Split(p, '.')[0] == "forProvider" && IsLbdnName(Split(p, '.')[1])
  {
    AcceptedShape(s, p);
    AcceptedBySegments(mg, s, p);
    LbdnPathExactly(mg, Split(p, '.'));
  }

  const POLICY_TYPE := Struct([])
  const SELECTOR_TYPE := Struct([Field("policy", false, Pointer(POLICY_TYPE))])

  /** The parameters without the leaves that are not allowlisted. */
  const LBDN_PARAMETERS_TYPE :=
    Struct([Field("authZonesSelector", false, Pointer(SELECTOR_TYPE)), Field("ttl", false, Pointer(Leaf)),
            Field("useTtl", false, Pointer(Leaf)), Field("comment", false, Pointer(Leaf)),
            Field("disable", false, Pointer(Leaf)), Field("extAttrs", false, Leaf)])

  lemma LbdnTypeExists()
    ensures IsLbdnParameters(LBDN_PARAMETERS_TYPE)
  {
    var fields := LBDN_PARAMETERS_TYPE.fields;
    assert fields[0].jsonName == "authZonesSelector" && fields[1].jsonName == "ttl" && fields[2].jsonName == "useTtl";
    assert fields[3].jsonName == "comment" && fields[4].jsonName == "disable" && fields[5].jsonName == "extAttrs";
    FlatResolves(fields, {"comment", "disable", "extAttrs", "ttl", "useTtl"}, {"authZonesSelector"});
    FlatLookup(fields, "authZonesSelector");
    assert SELECTOR_TYPE.fields[0].jsonName == "policy";
    FlatResolves(SELECTOR_TYPE.fields, {}, {"policy"});
    PointerResolves(SELECTOR_TYPE, {}, {"policy"});
    FlatLookup(SELECTOR_TYPE.fields, "policy");
    FlatResolves([], {}, {});
    PointerResolves(POLICY_TYPE, {}, {});
  }
}
