/** The kinds and the gates of the DNSView fields read backwards: which fields are of each kind, which each use
    flag switches, and what that means while it is off (internal/controller/dnsview/controller.go:1372-1922). */
module DnsViewGates {
  import opened Wrappers
  import opened FieldTables
  import opened DnsView

  /** The kinds read backwards: the fields with pointers to strings, the three that the SDK holds by value,
      numbers, lists and structures.  Everything else is a boolean. */
  lemma ScalarKinds(f: Field)
    ensures KindOf(f) == PtrStr <==> f.Name? || f.Comment? || f.NetworkView? || f.DdnsPrincipalGroup?
    ensures KindOf(f) == PlainStr <==> f.BlacklistAction? || f.RootNameServerType? || f.FilterAaaa?
    ensures KindOf(f) == PtrNum <==>
            f.BlacklistRedirectTTL? || f.LameTTL? || f.MaxCacheTTL? || f.MaxNcacheTTL? || f.NotifyDelay? ||
            f.NxdomainRedirectTTL? || f.RpzDropIPRuleMinPrefixLengthIPv4? || f.RpzDropIPRuleMinPrefixLengthIPv6?
  {
  }

  lemma ListKinds(f: Field)
    ensures KindOf(f) == StrList <==>
            f.BlacklistRedirectAddresses? || f.BlacklistRulesets? || f.DdnsRestrictPatternsList? || f.Dns64Groups? ||
            f.DnssecNegativeTrustAnchors? || f.Forwarders? || f.NxdomainRedirectAddresses? ||
            f.NxdomainRedirectAddressesV6? || f.NxdomainRulesets?
    ensures KindOf(f) == Acls <==> f.FilterAaaaList? || f.MatchClients? || f.MatchDestinations?
  {
  }

  lemma StructureKinds(f: Field)
    ensures KindOf(f) == AttrMap <==> f.ExtAttrs?
    ensures KindOf(f) == Servers <==> f.CustomRootNameServers?
    ensures KindOf(f) == TrustedKeys <==> f.DnssecTrustedKeys?
    ensures KindOf(f) == Rrsets <==> f.FixedRrsetOrderFqdns?
  {
  }

  lemma SettingKinds(f: Field)
    ensures KindOf(f) == SortList <==> f.Sortlist?
    ensures KindOf(f) == RatePtr <==> f.ResponseRateLimiting?
    ensures KindOf(f) == ScavengingPtr <==> f.ScavengingSettings?
  {
  }

  lemma UnderBlacklist(f: Field)
    ensures UpdateGate(f) == Some(UseBlacklist) <==> IsUnderUpdate(f, UseBlacklist)
  {
  }

  lemma UnderRootNameServer(f: Field)
    ensures UpdateGate(f) == Some(UseRootNameServer) <==> IsUnderUpdate(f, UseRootNameServer)
  {
  }

  lemma UnderDdnsForceCreationTimestampUpdate(f: Field)
    ensures UpdateGate(f) == Some(UseDdnsForceCreationTimestampUpdate) <==>
            IsUnderUpdate(f, UseDdnsForceCreationTimestampUpdate)
  {
  }

  lemma UnderDdnsPrincipalSecurity(f: Field)
    ensures UpdateGate(f) == Some(UseDdnsPrincipalSecurity) <==> IsUnderUpdate(f, UseDdnsPrincipalSecurity)
  {
  }

  lemma UnderDdnsPatternsRestriction(f: Field)
    ensures UpdateGate(f) == Some(UseDdnsPatternsRestriction) <==> IsUnderUpdate(f, UseDdnsPatternsRestriction)
  {
  }

  lemma UnderDdnsRestrictProtected(f: Field)
    ensures UpdateGate(f) == Some(UseDdnsRestrictProtected) <==> IsUnderUpdate(f, UseDdnsRestrictProtected)
  {
  }

  lemma UnderDdnsRestrictStatic(f: Field)
    ensures UpdateGate(f) == Some(UseDdnsRestrictStatic) <==> IsUnderUpdate(f, UseDdnsRestrictStatic)
  {
  }

  lemma UnderDns64(f: Field)
    ensures UpdateGate(f) == Some(UseDns64) <==> IsUnderUpdate(f, UseDns64)
  {
  }

  lemma NotUnderUpdate(f: Field, flag: Field)
    requires !IsUpdateUseFlag(flag)
    ensures UpdateGate(f) != Some(flag) && !IsUnderUpdate(f, flag)
  {
  }

  lemma UpdateGatesExactly(f: Field, flag: Field)
    ensures UpdateGate(f) == Some(flag) <==> IsUnderUpdate(f, flag)
  {
    match flag
    case UseBlacklist => UnderBlacklist(f);
    case UseRootNameServer => UnderRootNameServer(f);
    case UseDdnsForceCreationTimestampUpdate => UnderDdnsForceCreationTimestampUpdate(f);
    case UseDdnsPrincipalSecurity => UnderDdnsPrincipalSecurity(f);
    case UseDdnsPatternsRestriction => UnderDdnsPatternsRestriction(f);
    case UseDdnsRestrictProtected => UnderDdnsRestrictProtected(f);
    case UseDdnsRestrictStatic => UnderDdnsRestrictStatic(f);
    case UseDns64 => UnderDns64(f);
    case _ => NotUnderUpdate(f, flag);
  }

  lemma UnderDnssec(f: Field)
    ensures ResolverGate(f) == Some(UseDnssec) <==> IsUnderResolver(f, UseDnssec)
  {
  }

  lemma UnderFixedRrsetOrderFqdns(f: Field)
    ensures ResolverGate(f) == Some(UseFixedRrsetOrderFqdns) <==> IsUnderResolver(f, UseFixedRrsetOrderFqdns)
  {
  }

  lemma UnderFilterAaaa(f: Field)
    ensures ResolverGate(f) == Some(UseFilterAaaa) <==> IsUnderResolver(f, UseFilterAaaa)
  {
  }

  lemma UnderForwarders(f: Field)
    ensures ResolverGate(f) == Some(UseForwarders) <==> IsUnderResolver(f, UseForwarders)
  {
  }

  lemma UnderLameTTL(f: Field)
    ensures ResolverGate(f) == Some(UseLameTTL) <==> IsUnderResolver(f, UseLameTTL)
  {
  }

  lemma UnderMaxCacheTTL(f: Field)
    ensures ResolverGate(f) == Some(UseMaxCacheTTL) <==> IsUnderResolver(f, UseMaxCacheTTL)
  {
  }

  lemma UnderMaxNcacheTTL(f: Field)
    ensures ResolverGate(f) == Some(UseMaxNcacheTTL) <==> IsUnderResolver(f, UseMaxNcacheTTL)
  {
  }

  lemma NotUnderResolver(f: Field, flag: Field)
    requires !IsResolverUseFlag(flag)
    ensures ResolverGate(f) != Some(flag) && !IsUnderResolver(f, flag)
  {
  }

  lemma ResolverGatesExactly(f: Field, flag: Field)
    ensures ResolverGate(f) == Some(flag) <==> IsUnderResolver(f, flag)
  {
    match flag
    case UseDnssec => UnderDnssec(f);
    case UseFixedRrsetOrderFqdns => UnderFixedRrsetOrderFqdns(f);
    case UseFilterAaaa => UnderFilterAaaa(f);
    case UseForwarders => UnderForwarders(f);
    case UseLameTTL => UnderLameTTL(f);
    case UseMaxCacheTTL => UnderMaxCacheTTL(f);
    case UseMaxNcacheTTL => UnderMaxNcacheTTL(f);
    case _ => NotUnderResolver(f, flag);
  }

  lemma RedirectedOnly(f: Field)
    requires PolicyGate(f) == Some(UseNxdomainRedirect)
    ensures IsUnderPolicy(f, UseNxdomainRedirect)
  {
  }

  lemma RedirectedAll(f: Field)
    requires IsUnderPolicy(f, UseNxdomainRedirect)
    ensures PolicyGate(f) == Some(UseNxdomainRedirect)
  {
  }

  lemma UnderNxdomainRedirect(f: Field)
    ensures PolicyGate(f) == Some(UseNxdomainRedirect) <==> IsUnderPolicy(f, UseNxdomainRedirect)
  {
    if PolicyGate(f) == Some(UseNxdomainRedirect) {
      RedirectedOnly(f);
    } else if IsUnderPolicy(f, UseNxdomainRedirect) {
      RedirectedAll(f);
    }
  }

  lemma UnderRecursion(f: Field)
    ensures PolicyGate(f) == Some(UseRecursion) <==> IsUnderPolicy(f, UseRecursion)
  {
  }

  lemma UnderRpzDropIPRule(f: Field)
    ensures PolicyGate(f) == Some(UseRpzDropIPRule) <==> IsUnderPolicy(f, UseRpzDropIPRule)
  {
  }

  lemma UnderRpzQnameWaitRecurse(f: Field)
    ensures PolicyGate(f) == Some(UseRpzQnameWaitRecurse) <==> IsUnderPolicy(f, UseRpzQnameWaitRecurse)
  {
  }

  lemma UnderResponseRateLimiting(f: Field)
    ensures PolicyGate(f) == Some(UseResponseRateLimiting) <==> IsUnderPolicy(f, UseResponseRateLimiting)
  {
  }

  lemma UnderScavengingSettings(f: Field)
    ensures PolicyGate(f) == Some(UseScavengingSettings) <==> IsUnderPolicy(f, UseScavengingSettings)
  {
  }

  lemma UnderSortlist(f: Field)
    ensures PolicyGate(f) == Some(UseSortlist) <==> IsUnderPolicy(f, UseSortlist)
  {
  }

  lemma NotUnderPolicy(f: Field, flag: Field)
    requires !IsPolicyUseFlag(flag)
    ensures PolicyGate(f) != Some(flag) && !IsUnderPolicy(f, flag)
  {
  }

  lemma PolicyGatesExactly(f: Field, flag: Field)
    ensures PolicyGate(f) == Some(flag) <==> IsUnderPolicy(f, flag)
  {
    match flag
    case UseNxdomainRedirect => UnderNxdomainRedirect(f);
    case UseRecursion => UnderRecursion(f);
    case UseRpzDropIPRule => UnderRpzDropIPRule(f);
    case UseRpzQnameWaitRecurse => UnderRpzQnameWaitRecurse(f);
    case UseResponseRateLimiting => UnderResponseRateLimiting(f);
    case UseScavengingSettings => UnderScavengingSettings(f);
    case UseSortlist => UnderSortlist(f);
    case _ => NotUnderPolicy(f, flag);
  }

  lemma OneGroup(f: Field)
    ensures UpdateGate(f).Some? ==> ResolverGate(f).None? && PolicyGate(f).None?
    ensures ResolverGate(f).Some? ==> PolicyGate(f).None?
  {
  }

  lemma EntryIsOneOf(f: Field, flag: Field)
    ensures GateEntry(f) == Some(flag) <==>
            UpdateGate(f) == Some(flag) || ResolverGate(f) == Some(flag) || PolicyGate(f) == Some(flag)
  {
    OneGroup(f);
  }

  lemma EntryExactly(f: Field, flag: Field)
    ensures GateEntry(f) == Some(flag) <==> IsUnder(f, flag)
  {
    UpdateGatesExactly(f, flag);
    ResolverGatesExactly(f, flag);
    PolicyGatesExactly(f, flag);
    EntryIsOneOf(f, flag);
  }

  /** The gate table read backwards. */
  lemma GateExactly(f: Field, flag: Field)
    ensures GateOf(f) == Some(flag) <==> !IsUseFlag(f) && IsUnder(f, flag)
  {
    EntryExactly(f, flag);
  }

  /** While a use flag is off, what the Grid holds in the fields under it changes neither the late-initialized
      parameters nor the verdict. */
  lemma OffFlagHides(flag: Field, desired: Bag<Field>, observed: Bag<Field>, other: Bag<Field>,
                     bag1: Bag<Field>, bag2: Bag<Field>)
    requires Typed(DnsViewSpec, desired) && Typed(DnsViewSpec, observed) && Typed(DnsViewSpec, other)
    requires Typed(DnsViewSpec, bag1) && Typed(DnsViewSpec, bag2)
    requires desired[flag] != VBool(Some(true))
    requires desired[flag] == VBool(None) ==> observed[flag] != VBool(Some(true))
    requires forall f :: other[f] != observed[f] ==> !IsUseFlag(f) && IsUnder(f, flag)
    requires LateInitOf(DnsViewSpec, desired, observed, bag1) && LateInitOf(DnsViewSpec, desired, other, bag2)
    ensures bag1 == bag2
    ensures UpToDate(DnsViewSpec, bag1, observed) <==> UpToDate(DnsViewSpec, bag2, other)
  {
    GatesWellFormed();
    forall f | other[f] != observed[f]
      ensures DnsViewSpec(f).gate == Some(flag)
    {
      GateExactly(f, flag);
    }
    OffFlagHidesItsFields(DnsViewSpec, flag, desired, observed, other, bag1, bag2);
  }
}
