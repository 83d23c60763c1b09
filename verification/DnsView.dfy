/** The DNSView tables: its fields, their kinds and gates, and the order of the comparator and late-init
    tables (internal/controller/dnsview/controller.go:1113-1192, 1372-1656, 1686-1922). */
module DnsView {
  import opened Wrappers
  import opened FieldTables
  import opened FieldConvergence

  datatype Field =
    | Name | Comment | NetworkView | Disable | BlacklistAction | BlacklistLogQuery | BlacklistRedirectAddresses
    | BlacklistRedirectTTL | BlacklistRulesets | UseBlacklist | EnableBlacklist | RootNameServerType
    | UseRootNameServer | DdnsForceCreationTimestampUpdate | UseDdnsForceCreationTimestampUpdate
    | DdnsPrincipalGroup | DdnsPrincipalTracking | UseDdnsPrincipalSecurity | DdnsRestrictPatterns
    | DdnsRestrictPatternsList | UseDdnsPatternsRestriction | DdnsRestrictProtected | UseDdnsRestrictProtected
    | DdnsRestrictSecure | DdnsRestrictStatic | UseDdnsRestrictStatic | Dns64Enabled | Dns64Groups | UseDns64
    | DnssecEnabled | DnssecExpiredSignaturesEnabled | DnssecNegativeTrustAnchors | DnssecValidationEnabled
    | UseDnssec | EnableFixedRrsetOrderFqdns | UseFixedRrsetOrderFqdns | EnableMatchRecursiveOnly | FilterAaaa
    | UseFilterAaaa | ForwardOnly | Forwarders | UseForwarders | LameTTL | UseLameTTL | MaxCacheTTL
    | UseMaxCacheTTL | MaxNcacheTTL | UseMaxNcacheTTL | NotifyDelay | NxdomainLogQuery | NxdomainRedirect
    | NxdomainRedirectAddresses | NxdomainRedirectAddressesV6 | NxdomainRedirectTTL | NxdomainRulesets
    | UseNxdomainRedirect | Recursion | UseRecursion | UseResponseRateLimiting | RpzDropIPRuleEnabled
    | RpzDropIPRuleMinPrefixLengthIPv4 | RpzDropIPRuleMinPrefixLengthIPv6 | UseRpzDropIPRule
    | RpzQnameWaitRecurse | UseRpzQnameWaitRecurse | UseScavengingSettings | UseSortlist | ExtAttrs
    | CustomRootNameServers | DnssecTrustedKeys | FixedRrsetOrderFqdns | FilterAaaaList | MatchClients
    | MatchDestinations | ResponseRateLimiting | ScavengingSettings | Sortlist

  function KindOf(f: Field): Kind {
    match f
    case Name | Comment | NetworkView => PtrStr
    case DdnsPrincipalGroup => PtrStr
    case BlacklistAction | RootNameServerType | FilterAaaa => PlainStr
    case BlacklistRedirectAddresses | BlacklistRulesets | DdnsRestrictPatternsList => StrList
    case Dns64Groups | DnssecNegativeTrustAnchors | Forwarders => StrList
    case NxdomainRedirectAddresses | NxdomainRedirectAddressesV6 | NxdomainRulesets => StrList
    case BlacklistRedirectTTL | LameTTL | MaxCacheTTL => PtrNum
    case MaxNcacheTTL | NotifyDelay | NxdomainRedirectTTL => PtrNum
    case RpzDropIPRuleMinPrefixLengthIPv4 | RpzDropIPRuleMinPrefixLengthIPv6 => PtrNum
    case ExtAttrs => AttrMap
    case CustomRootNameServers => Servers
    case DnssecTrustedKeys => TrustedKeys
    case FixedRrsetOrderFqdns => Rrsets
    case FilterAaaaList | MatchClients | MatchDestinations => Acls
    case ResponseRateLimiting => RatePtr
    case ScavengingSettings => ScavengingPtr
    case Sortlist => SortList
    case _ => PtrBool
  }

  predicate IsUpdateUseFlag(f: Field) {
    f == UseBlacklist || f == UseRootNameServer || f == UseDdnsForceCreationTimestampUpdate ||
    f == UseDdnsPrincipalSecurity || f == UseDdnsPatternsRestriction || f == UseDdnsRestrictProtected ||
    f == UseDdnsRestrictStatic || f == UseDns64
  }

  predicate IsResolverUseFlag(f: Field) {
    f == UseDnssec || f == UseFixedRrsetOrderFqdns || f == UseFilterAaaa || f == UseForwarders ||
    f == UseLameTTL || f == UseMaxCacheTTL || f == UseMaxNcacheTTL
  }

  predicate IsPolicyUseFlag(f: Field) {
    f == UseNxdomainRedirect || f == UseRecursion || f == UseResponseRateLimiting ||
    f == UseRpzDropIPRule || f == UseRpzQnameWaitRecurse || f == UseScavengingSettings ||
    f == UseSortlist
  }

  predicate IsUseFlag(f: Field) {
    IsUpdateUseFlag(f) || IsResolverUseFlag(f) || IsPolicyUseFlag(f)
  }

  /** The use flag a field depends on, if any; the flags themselves have none. */
  function GateOf(f: Field): (g: Option<Field>)
    ensures g.Some? ==> IsUseFlag(g.value)
  {
    if IsUseFlag(f) then None else GateEntry(f)
  }

  function GateEntry(f: Field): (g: Option<Field>)
    ensures g.Some? ==> IsUseFlag(g.value)
  {
    if UpdateGate(f).Some? then UpdateGate(f)
    else if ResolverGate(f).Some? then ResolverGate(f)
    else PolicyGate(f)
  }

  function UpdateGate(f: Field): (g: Option<Field>)
    ensures g.Some? ==> IsUpdateUseFlag(g.value)
  {
    match f
    case BlacklistAction | BlacklistLogQuery | BlacklistRedirectAddresses => Some(UseBlacklist)
    case BlacklistRedirectTTL | BlacklistRulesets | EnableBlacklist => Some(UseBlacklist)
    case RootNameServerType | CustomRootNameServers => Some(UseRootNameServer)
    case DdnsForceCreationTimestampUpdate => Some(UseDdnsForceCreationTimestampUpdate)
    case DdnsPrincipalGroup | DdnsPrincipalTracking | DdnsRestrictSecure => Some(UseDdnsPrincipalSecurity)
    case DdnsRestrictPatterns | DdnsRestrictPatternsList => Some(UseDdnsPatternsRestriction)
    case DdnsRestrictProtected => Some(UseDdnsRestrictProtected)
    case DdnsRestrictStatic => Some(UseDdnsRestrictStatic)
    case Dns64Enabled | Dns64Groups => Some(UseDns64)
    case _ => None
  }

  function ResolverGate(f: Field): (g: Option<Field>)
    ensures g.Some? ==> IsResolverUseFlag(g.value)
  {
    match f
    case DnssecEnabled | DnssecExpiredSignaturesEnabled | DnssecValidationEnabled => Some(UseDnssec)
    case DnssecTrustedKeys => Some(UseDnssec)
    case EnableFixedRrsetOrderFqdns | FixedRrsetOrderFqdns => Some(UseFixedRrsetOrderFqdns)
    case FilterAaaa | FilterAaaaList => Some(UseFilterAaaa)
    case ForwardOnly | Forwarders => Some(UseForwarders)
    case LameTTL => Some(UseLameTTL)
    case MaxCacheTTL => Some(UseMaxCacheTTL)
    case MaxNcacheTTL => Some(UseMaxNcacheTTL)
    case _ => None
  }

  function PolicyGate(f: Field): (g: Option<Field>)
    ensures g.Some? ==> IsPolicyUseFlag(g.value)
  {
    match f
    case NxdomainLogQuery | NxdomainRedirect | NxdomainRedirectAddresses => Some(UseNxdomainRedirect)
    case NxdomainRedirectAddressesV6 | NxdomainRedirectTTL | NxdomainRulesets => Some(UseNxdomainRedirect)
    case Recursion => Some(UseRecursion)
    case RpzDropIPRuleEnabled => Some(UseRpzDropIPRule)
    case RpzDropIPRuleMinPrefixLengthIPv4 | RpzDropIPRuleMinPrefixLengthIPv6 => Some(UseRpzDropIPRule)
    case RpzQnameWaitRecurse => Some(UseRpzQnameWaitRecurse)
    case ResponseRateLimiting => Some(UseResponseRateLimiting)
    case ScavengingSettings => Some(UseScavengingSettings)
    case Sortlist => Some(UseSortlist)
    case _ => None
  }

  // What each use flag switches, in the three groups of flags.

  ghost predicate IsUnderUpdate(f: Field, flag: Field) {
    match flag
    case UseBlacklist =>
      f.BlacklistAction? || f.BlacklistLogQuery? || f.BlacklistRedirectAddresses? || f.BlacklistRedirectTTL? ||
      f.BlacklistRulesets? || f.EnableBlacklist?
    case UseRootNameServer => f.RootNameServerType? || f.CustomRootNameServers?
    case UseDdnsForceCreationTimestampUpdate => f.DdnsForceCreationTimestampUpdate?
    case UseDdnsPrincipalSecurity =>
      f.DdnsPrincipalGroup? || f.DdnsPrincipalTracking? || f.DdnsRestrictSecure?
    case UseDdnsPatternsRestriction => f.DdnsRestrictPatterns? || f.DdnsRestrictPatternsList?
    case UseDdnsRestrictProtected => f.DdnsRestrictProtected?
    case UseDdnsRestrictStatic => f.DdnsRestrictStatic?
    case UseDns64 => f.Dns64Enabled? || f.Dns64Groups?
    case _ => false
  }

  ghost predicate IsUnderResolver(f: Field, flag: Field) {
    match flag
    case UseDnssec =>
      f.DnssecEnabled? || f.DnssecExpiredSignaturesEnabled? || f.DnssecValidationEnabled? || f.DnssecTrustedKeys?
    case UseFixedRrsetOrderFqdns => f.EnableFixedRrsetOrderFqdns? || f.FixedRrsetOrderFqdns?
    case UseFilterAaaa => f.FilterAaaa? || f.FilterAaaaList?
    case UseForwarders => f.ForwardOnly? || f.Forwarders?
    case UseLameTTL => f.LameTTL?
    case UseMaxCacheTTL => f.MaxCacheTTL?
    case UseMaxNcacheTTL => f.MaxNcacheTTL?
    case _ => false
  }

  ghost predicate IsUnderPolicy(f: Field, flag: Field) {
    match flag
    case UseNxdomainRedirect =>
      f.NxdomainLogQuery? || f.NxdomainRedirect? || f.NxdomainRedirectAddresses? || f.NxdomainRedirectAddressesV6? ||
      f.NxdomainRedirectTTL? || f.NxdomainRulesets?
    case UseRecursion => f.Recursion?
    case UseRpzDropIPRule =>
      f.RpzDropIPRuleEnabled? || f.RpzDropIPRuleMinPrefixLengthIPv4? || f.RpzDropIPRuleMinPrefixLengthIPv6?
    case UseRpzQnameWaitRecurse => f.RpzQnameWaitRecurse?
    case UseResponseRateLimiting => f.ResponseRateLimiting?
    case UseScavengingSettings => f.ScavengingSettings?
    case UseSortlist => f.Sortlist?
    case _ => false
  }

  ghost predicate IsUnder(f: Field, flag: Field) {
    IsUnderUpdate(f, flag) || IsUnderResolver(f, flag) || IsUnderPolicy(f, flag)
  }

  /** Name is required and has no late-init operation. */
  function DnsViewSpec(f: Field): Spec<Field> {
    Spec(KindOf(f), GateOf(f), f != Name)
  }

  // The tables in their order, in slices.

  const COMPARE_BASICS: seq<Field> := [
    Name, Comment, NetworkView, Disable, BlacklistAction, BlacklistLogQuery, BlacklistRedirectAddresses,
    BlacklistRedirectTTL, BlacklistRulesets, UseBlacklist ]

  const COMPARE_DDNS: seq<Field> := [
    EnableBlacklist, RootNameServerType, UseRootNameServer, DdnsForceCreationTimestampUpdate,
    UseDdnsForceCreationTimestampUpdate, DdnsPrincipalGroup, DdnsPrincipalTracking, UseDdnsPrincipalSecurity,
    DdnsRestrictPatterns, DdnsRestrictPatternsList ]

  const COMPARE_RESTRICTIONS: seq<Field> := [
    UseDdnsPatternsRestriction, DdnsRestrictProtected, UseDdnsRestrictProtected, DdnsRestrictSecure,
    DdnsRestrictStatic, UseDdnsRestrictStatic, Dns64Enabled, Dns64Groups, UseDns64, DnssecEnabled ]

  const COMPARE_DNSSEC: seq<Field> := [
    DnssecExpiredSignaturesEnabled, DnssecNegativeTrustAnchors, DnssecValidationEnabled, UseDnssec,
    EnableFixedRrsetOrderFqdns, UseFixedRrsetOrderFqdns, EnableMatchRecursiveOnly, FilterAaaa, UseFilterAaaa,
    ForwardOnly ]

  const COMPARE_CACHING: seq<Field> := [
    Forwarders, UseForwarders, LameTTL, UseLameTTL, MaxCacheTTL, UseMaxCacheTTL, MaxNcacheTTL, UseMaxNcacheTTL,
    NotifyDelay, NxdomainLogQuery ]

  const COMPARE_NXDOMAIN: seq<Field> := [
    NxdomainRedirect, NxdomainRedirectAddresses, NxdomainRedirectAddressesV6, NxdomainRedirectTTL,
    NxdomainRulesets, UseNxdomainRedirect, Recursion, UseRecursion, UseResponseRateLimiting,
    RpzDropIPRuleEnabled ]

  const COMPARE_RPZ: seq<Field> := [
    RpzDropIPRuleMinPrefixLengthIPv4, RpzDropIPRuleMinPrefixLengthIPv6, UseRpzDropIPRule, RpzQnameWaitRecurse,
    UseRpzQnameWaitRecurse, UseScavengingSettings, UseSortlist, ExtAttrs, CustomRootNameServers,
    DnssecTrustedKeys ]

  const COMPARE_STRUCTURES: seq<Field> := [
    FixedRrsetOrderFqdns, FilterAaaaList, MatchClients, MatchDestinations, Sortlist, ResponseRateLimiting,
    ScavengingSettings ]

  const COMPARATORS: seq<Field> :=
    COMPARE_BASICS + COMPARE_DDNS + COMPARE_RESTRICTIONS + COMPARE_DNSSEC + COMPARE_CACHING + COMPARE_NXDOMAIN +
    COMPARE_RPZ + COMPARE_STRUCTURES

  const FILL_BASICS: seq<Field> := [
    Comment, NetworkView, Disable, BlacklistAction, BlacklistLogQuery, BlacklistRedirectAddresses,
    BlacklistRedirectTTL, BlacklistRulesets, UseBlacklist, EnableBlacklist ]

  const FILL_DDNS: seq<Field> := [
    RootNameServerType, UseRootNameServer, DdnsForceCreationTimestampUpdate,
    UseDdnsForceCreationTimestampUpdate, DdnsPrincipalGroup, DdnsPrincipalTracking, UseDdnsPrincipalSecurity,
    DdnsRestrictPatterns, DdnsRestrictPatternsList, UseDdnsPatternsRestriction ]

  const FILL_RESTRICTIONS: seq<Field> := [
    DdnsRestrictProtected, UseDdnsRestrictProtected, DdnsRestrictSecure, DdnsRestrictStatic,
    UseDdnsRestrictStatic, Dns64Enabled, Dns64Groups, UseDns64, DnssecEnabled, DnssecExpiredSignaturesEnabled ]

  const FILL_DNSSEC: seq<Field> := [
    DnssecNegativeTrustAnchors, DnssecValidationEnabled, UseDnssec, EnableFixedRrsetOrderFqdns,
    UseFixedRrsetOrderFqdns, EnableMatchRecursiveOnly, FilterAaaa, UseFilterAaaa, ForwardOnly, Forwarders ]

  const FILL_CACHING: seq<Field> := [
    UseForwarders, LameTTL, UseLameTTL, MaxCacheTTL, UseMaxCacheTTL, MaxNcacheTTL, UseMaxNcacheTTL,
    NotifyDelay, NxdomainLogQuery, NxdomainRedirect ]

  const FILL_NXDOMAIN: seq<Field> := [
    NxdomainRedirectAddresses, NxdomainRedirectAddressesV6, NxdomainRedirectTTL, NxdomainRulesets,
    UseNxdomainRedirect, Recursion, UseRecursion, UseResponseRateLimiting, RpzDropIPRuleEnabled,
    RpzDropIPRuleMinPrefixLengthIPv4 ]

  const FILL_RPZ: seq<Field> := [
    RpzDropIPRuleMinPrefixLengthIPv6, UseRpzDropIPRule, RpzQnameWaitRecurse, UseRpzQnameWaitRecurse,
    UseScavengingSettings, UseSortlist, ExtAttrs, CustomRootNameServers, DnssecTrustedKeys, FixedRrsetOrderFqdns ]

  const FILL_STRUCTURES: seq<Field> := [
    FilterAaaaList, MatchClients, MatchDestinations, Sortlist, ResponseRateLimiting, ScavengingSettings ]

  const LATE_INIT_OPS: seq<Field> :=
    FILL_BASICS + FILL_DDNS + FILL_RESTRICTIONS + FILL_DNSSEC + FILL_CACHING + FILL_NXDOMAIN +
    FILL_RPZ + FILL_STRUCTURES

  lemma UpdateUseFlagKind(g: Field)
    requires IsUpdateUseFlag(g)
    ensures KindOf(g) == PtrBool && g != Name
  {
  }

  lemma ResolverUseFlagKind(g: Field)
    requires IsResolverUseFlag(g)
    ensures KindOf(g) == PtrBool && g != Name
  {
  }

  lemma PolicyUseFlagKind(g: Field)
    requires IsPolicyUseFlag(g)
    ensures KindOf(g) == PtrBool && g != Name
  {
  }

  lemma UseFlagsAreFlags(g: Field)
    requires IsUseFlag(g)
    ensures DnsViewSpec(g) == Spec(PtrBool, None, true)
  {
    if IsUpdateUseFlag(g) {
      UpdateUseFlagKind(g);
    } else if IsResolverUseFlag(g) {
      ResolverUseFlagKind(g);
    } else {
      PolicyUseFlagKind(g);
    }
  }

  lemma GatesWellFormed()
    ensures GatesAreFlags(DnsViewSpec)
  {
    forall f: Field | DnsViewSpec(f).gate.Some?
      ensures DnsViewSpec(DnsViewSpec(f).gate.value) == Spec(PtrBool, None, true)
    {
      UseFlagsAreFlags(GateOf(f).value);
    }
  }

  /** Every field has a comparator. */
  lemma ComparatorOf(f: Field)
    ensures f in COMPARATORS
  {
    match f
    case Name | Comment | NetworkView | Disable | BlacklistAction | BlacklistLogQuery |
    BlacklistRedirectAddresses | BlacklistRedirectTTL | BlacklistRulesets | UseBlacklist =>
      assert f in COMPARE_BASICS;
    case EnableBlacklist | RootNameServerType | UseRootNameServer | DdnsForceCreationTimestampUpdate |
    UseDdnsForceCreationTimestampUpdate | DdnsPrincipalGroup | DdnsPrincipalTracking |
    UseDdnsPrincipalSecurity | DdnsRestrictPatterns | DdnsRestrictPatternsList =>
      assert f in COMPARE_DDNS;
    case UseDdnsPatternsRestriction | DdnsRestrictProtected | UseDdnsRestrictProtected | DdnsRestrictSecure |
    DdnsRestrictStatic | UseDdnsRestrictStatic | Dns64Enabled | Dns64Groups | UseDns64 | DnssecEnabled =>
      assert f in COMPARE_RESTRICTIONS;
    case DnssecExpiredSignaturesEnabled | DnssecNegativeTrustAnchors | DnssecValidationEnabled | UseDnssec |
    EnableFixedRrsetOrderFqdns | UseFixedRrsetOrderFqdns | EnableMatchRecursiveOnly | FilterAaaa |
    UseFilterAaaa | ForwardOnly =>
      assert f in COMPARE_DNSSEC;
    case Forwarders | UseForwarders | LameTTL | UseLameTTL | MaxCacheTTL | UseMaxCacheTTL | MaxNcacheTTL |
    UseMaxNcacheTTL | NotifyDelay | NxdomainLogQuery =>
      assert f in COMPARE_CACHING;
    case NxdomainRedirect | NxdomainRedirectAddresses | NxdomainRedirectAddressesV6 | NxdomainRedirectTTL |
    NxdomainRulesets | UseNxdomainRedirect | Recursion | UseRecursion | UseResponseRateLimiting |
    RpzDropIPRuleEnabled =>
      assert f in COMPARE_NXDOMAIN;
    case RpzDropIPRuleMinPrefixLengthIPv4 | RpzDropIPRuleMinPrefixLengthIPv6 | UseRpzDropIPRule |
    RpzQnameWaitRecurse | UseRpzQnameWaitRecurse | UseScavengingSettings | UseSortlist | ExtAttrs |
    CustomRootNameServers | DnssecTrustedKeys =>
      assert f in COMPARE_RPZ;
    case FixedRrsetOrderFqdns | FilterAaaaList | MatchClients | MatchDestinations | Sortlist |
    ResponseRateLimiting | ScavengingSettings =>
      assert f in COMPARE_STRUCTURES;
  }

  /** Every field but Name has a late-init operation. */
  lemma LateInitOpOf(f: Field)
    requires f != Name
    ensures f in LATE_INIT_OPS
  {
    match f
    case Comment | NetworkView | Disable | BlacklistAction | BlacklistLogQuery | BlacklistRedirectAddresses |
    BlacklistRedirectTTL | BlacklistRulesets | UseBlacklist | EnableBlacklist =>
      assert f in FILL_BASICS;
    case RootNameServerType | UseRootNameServer | DdnsForceCreationTimestampUpdate |
    UseDdnsForceCreationTimestampUpdate | DdnsPrincipalGroup | DdnsPrincipalTracking |
    UseDdnsPrincipalSecurity | DdnsRestrictPatterns | DdnsRestrictPatternsList | UseDdnsPatternsRestriction =>
      assert f in FILL_DDNS;
    case DdnsRestrictProtected | UseDdnsRestrictProtected | DdnsRestrictSecure | DdnsRestrictStatic |
    UseDdnsRestrictStatic | Dns64Enabled | Dns64Groups | UseDns64 | DnssecEnabled |
    DnssecExpiredSignaturesEnabled =>
      assert f in FILL_RESTRICTIONS;
    case DnssecNegativeTrustAnchors | DnssecValidationEnabled | UseDnssec | EnableFixedRrsetOrderFqdns |
    UseFixedRrsetOrderFqdns | EnableMatchRecursiveOnly | FilterAaaa | UseFilterAaaa | ForwardOnly | Forwarders =>
      assert f in FILL_DNSSEC;
    case UseForwarders | LameTTL | UseLameTTL | MaxCacheTTL | UseMaxCacheTTL | MaxNcacheTTL | UseMaxNcacheTTL |
    NotifyDelay | NxdomainLogQuery | NxdomainRedirect =>
      assert f in FILL_CACHING;
    case NxdomainRedirectAddresses | NxdomainRedirectAddressesV6 | NxdomainRedirectTTL | NxdomainRulesets |
    UseNxdomainRedirect | Recursion | UseRecursion | UseResponseRateLimiting | RpzDropIPRuleEnabled |
    RpzDropIPRuleMinPrefixLengthIPv4 =>
      assert f in FILL_NXDOMAIN;
    case RpzDropIPRuleMinPrefixLengthIPv6 | UseRpzDropIPRule | RpzQnameWaitRecurse | UseRpzQnameWaitRecurse |
    UseScavengingSettings | UseSortlist | ExtAttrs | CustomRootNameServers | DnssecTrustedKeys |
    FixedRrsetOrderFqdns =>
      assert f in FILL_RPZ;
    case FilterAaaaList | MatchClients | MatchDestinations | Sortlist | ResponseRateLimiting |
    ScavengingSettings =>
      assert f in FILL_STRUCTURES;
  }

  lemma NameHasNoOp()
    ensures Name !in LATE_INIT_OPS
  {
    assert Name !in FILL_BASICS && Name !in FILL_DDNS && Name !in FILL_RESTRICTIONS && Name !in FILL_DNSSEC;
    assert Name !in FILL_CACHING && Name !in FILL_NXDOMAIN && Name !in FILL_RPZ && Name !in FILL_STRUCTURES;
  }

  lemma TablesComplete()
    ensures Covers(COMPARATORS) && CoversLateInit(DnsViewSpec, LATE_INIT_OPS)
  {
    forall f: Field
      ensures f in COMPARATORS
    {
      ComparatorOf(f);
    }
    NameHasNoOp();
    forall f: Field | f != Name
      ensures f in LATE_INIT_OPS
    {
      LateInitOpOf(f);
    }
  }

  /** The field half of Observe on the real tables: late-initialize, then compare the result.  Drift is
      reported exactly on Name and on what the user set under a gate that is on or absent. */
  method ObserveFields(desired: Bag<Field>, observed: Bag<Field>)
    returns (bag: Bag<Field>, changed: bool, upToDate: bool)
    requires Typed(DnsViewSpec, desired) && Typed(DnsViewSpec, observed)
    ensures Typed(DnsViewSpec, bag) && LateInitOf(DnsViewSpec, desired, observed, bag)
    ensures changed <==> bag != desired
    ensures upToDate <==>
            forall f :: Open(DnsViewSpec, f, desired, observed) && (f == Name || desired[f] !in NIL_VALUES) ==>
                          Alike(desired[f], observed[f])
  {
    GatesWellFormed();
    TablesComplete();
    bag, changed := LateInitialize(DnsViewSpec, LATE_INIT_OPS, desired, observed);
    upToDate := IsUpToDate(DnsViewSpec, COMPARATORS, bag, observed);
    VerdictInValues(DnsViewSpec, desired, observed, bag);
  }

  /** Importing a view by name: with nothing else written, the first Observe is a fixed point already. */
  lemma ImportByName(desired: Bag<Field>, observed: Bag<Field>, bag: Bag<Field>)
    requires Typed(DnsViewSpec, desired) && Typed(DnsViewSpec, observed) && Typed(DnsViewSpec, bag)
    requires LateInitOf(DnsViewSpec, desired, observed, bag)
    requires Same(desired[Name], observed[Name]) && forall f :: f != Name ==> Unset(desired[f])
    ensures UpToDate(DnsViewSpec, bag, observed)
    ensures forall f :: f != Name && Offers(observed[f]) && (GateOf(f).None? || FlagOn(observed, GateOf(f).value)) ==>
                          bag[f] == observed[f]
  {
    GatesWellFormed();
    forall f
      ensures if DnsViewSpec(f).lateInit then Unset(desired[f]) else Same(desired[f], observed[f])
    {
    }
    ImportIsFixedPoint(DnsViewSpec, desired, observed, bag);
    forall f | f != Name && Offers(observed[f]) && (GateOf(f).None? || FlagOn(observed, GateOf(f).value))
      ensures bag[f] == observed[f]
    {
      if GateOf(f).Some? {
        var g := GateOf(f).value;
        assert g != Name && Unset(desired[g]);
      }
      assert Filled(DnsViewSpec, f, desired, observed) == observed[f];
    }
  }
}
