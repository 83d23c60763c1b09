/** The nested value bags of a DNSView and their SDK forms (internal/controller/dnsview/controller.go).

    A bag field is a pointer: None is nil.  The SDK's nested structs hold plain values, so a nil pointer
    and a pointer to the zero value become the same thing on the way out and nil on the way back. */
module NestedBags {
  import opened Wrappers

  function StrOrEmpty(s: Option<string>): string { s.GetOr("") }

  function BoolOrFalse(b: Option<bool>): bool { b.GetOr(false) }

  function NumOrZero(n: Option<nat>): nat { n.GetOr(0) }

  function StrPtrOrNil(s: string): Option<string> { if s == "" then None else Some(s) }

  function BoolPtrOrNil(b: bool): Option<bool> { if b then Some(true) else None }

  function NumPtrOrNil(n: nat): Option<nat> { if n == 0 then None else Some(n) }

  /** The pointer is nil or points to something other than the zero value. */
  predicate Plain(s: Option<string>) { s != Some("") }

  predicate PlainB(b: Option<bool>) { b != Some(false) }

  predicate PlainN(n: Option<nat>) { n != Some(0) }

  /** What agreement of two leaves means: one value, or blank on both sides. */
  ghost predicate StrAlike(x: Option<string>, y: Option<string>) {
    x == y || (x in {None, Some("")} && y in {None, Some("")})
  }

  ghost predicate BoolAlike(x: Option<bool>, y: Option<bool>) {
    x == y || (x in {None, Some(false)} && y in {None, Some(false)})
  }

  ghost predicate NumAlike(x: Option<nat>, y: Option<nat>) {
    x == y || (x in {None, Some(0)} && y in {None, Some(0)})
  }

  lemma LeavesAgree(s1: Option<string>, s2: Option<string>, b1: Option<bool>, b2: Option<bool>,
                    n1: Option<nat>, n2: Option<nat>)
    ensures StrOrEmpty(s1) == StrOrEmpty(s2) <==> StrAlike(s1, s2)
    ensures BoolOrFalse(b1) == BoolOrFalse(b2) <==> BoolAlike(b1, b2)
    ensures NumOrZero(n1) == NumOrZero(n2) <==> NumAlike(n1, n2)
    ensures StrOrEmpty(s1) == "" <==> StrAlike(s1, None)
    ensures BoolOrFalse(b1) <==> b1 == Some(true)
    ensures NumOrZero(n1) == 0 <==> NumAlike(n1, None)
    ensures s1.Some? ==> StrOrEmpty(s1) == s1.value
    ensures n1.Some? ==> NumOrZero(n1) == n1.value
  {
  }

  // ---- name servers and address ACLs: compared item by item -----------------------------------

  datatype NameServer = NameServer(
    address: Option<string>, name: Option<string>, shared: Option<bool>, stealth: Option<bool>,
    tsigKey: Option<string>, tsigKeyAlg: Option<string>, tsigKeyName: Option<string>, useTsigKeyName: Option<bool>)

  datatype NameServerSdk = NameServerSdk(
    address: string, name: string, shared: bool, stealth: bool,
    tsigKey: string, tsigKeyAlg: string, tsigKeyName: string, useTsigKeyName: bool)

  function NameServerToSdk(v: NameServer): NameServerSdk {
    NameServerSdk(StrOrEmpty(v.address), StrOrEmpty(v.name), BoolOrFalse(v.shared), BoolOrFalse(v.stealth),
                  StrOrEmpty(v.tsigKey), StrOrEmpty(v.tsigKeyAlg), StrOrEmpty(v.tsigKeyName),
                  BoolOrFalse(v.useTsigKeyName))
  }

  function NameServerFromSdk(v: NameServerSdk): NameServer {
    NameServer(StrPtrOrNil(v.address), StrPtrOrNil(v.name), BoolPtrOrNil(v.shared), BoolPtrOrNil(v.stealth),
               StrPtrOrNil(v.tsigKey), StrPtrOrNil(v.tsigKeyAlg), StrPtrOrNil(v.tsigKeyName),
               BoolPtrOrNil(v.useTsigKeyName))
  }

  predicate NameServerEqual(a: NameServer, b: NameServer) {
    && StrOrEmpty(a.address) == StrOrEmpty(b.address) && StrOrEmpty(a.name) == StrOrEmpty(b.name)
    && BoolOrFalse(a.shared) == BoolOrFalse(b.shared) && BoolOrFalse(a.stealth) == BoolOrFalse(b.stealth)
    && StrOrEmpty(a.tsigKey) == StrOrEmpty(b.tsigKey) && StrOrEmpty(a.tsigKeyAlg) == StrOrEmpty(b.tsigKeyAlg)
    && BoolOrFalse(a.useTsigKeyName) == BoolOrFalse(b.useTsigKeyName)
    && (BoolOrFalse(a.useTsigKeyName) ==> StrOrEmpty(a.tsigKeyName) == StrOrEmpty(b.tsigKeyName))
  }

  datatype AddressAc = AddressAc(
    address: Option<string>, permission: Option<string>, tsigKey: Option<string>, tsigKeyAlg: Option<string>,
    tsigKeyName: Option<string>, useTsigKeyName: Option<bool>)

  datatype AddressAcSdk = AddressAcSdk(
    address: string, permission: string, tsigKey: string, tsigKeyAlg: string, tsigKeyName: string, useTsigKeyName: bool)

  function AddressAcToSdk(v: AddressAc): AddressAcSdk {
    AddressAcSdk(StrOrEmpty(v.address), StrOrEmpty(v.permission), StrOrEmpty(v.tsigKey), StrOrEmpty(v.tsigKeyAlg),
                 StrOrEmpty(v.tsigKeyName), BoolOrFalse(v.useTsigKeyName))
  }

  function AddressAcFromSdk(v: AddressAcSdk): AddressAc {
    AddressAc(StrPtrOrNil(v.address), StrPtrOrNil(v.permission), StrPtrOrNil(v.tsigKey), StrPtrOrNil(v.tsigKeyAlg),
              StrPtrOrNil(v.tsigKeyName), BoolPtrOrNil(v.useTsigKeyName))
  }

  predicate AddressAcEqual(a: AddressAc, b: AddressAc) {
    && StrOrEmpty(a.address) == StrOrEmpty(b.address) && StrOrEmpty(a.permission) == StrOrEmpty(b.permission)
    && StrOrEmpty(a.tsigKey) == StrOrEmpty(b.tsigKey) && StrOrEmpty(a.tsigKeyAlg) == StrOrEmpty(b.tsigKeyAlg)
    && BoolOrFalse(a.useTsigKeyName) == BoolOrFalse(b.useTsigKeyName)
    && (BoolOrFalse(a.useTsigKeyName) ==> StrOrEmpty(a.tsigKeyName) == StrOrEmpty(b.tsigKeyName))
  }

  /** Every leaf agrees, the TSIG key name only where both items use one. */
  ghost predicate NameServersAlike(a: seq<NameServer>, b: seq<NameServer>) {
    |a| == |b| &&
    forall i :: 0 <= i < |a| ==>
                  && StrAlike(a[i].address, b[i].address) && StrAlike(a[i].name, b[i].name)
                  && BoolAlike(a[i].shared, b[i].shared) && BoolAlike(a[i].stealth, b[i].stealth)
                  && StrAlike(a[i].tsigKey, b[i].tsigKey) && StrAlike(a[i].tsigKeyAlg, b[i].tsigKeyAlg)
                  && BoolAlike(a[i].useTsigKeyName, b[i].useTsigKeyName)
                  && (a[i].useTsigKeyName == Some(true) ==> StrAlike(a[i].tsigKeyName, b[i].tsigKeyName))
  }

  ghost predicate AddressAcsAlike(a: seq<AddressAc>, b: seq<AddressAc>) {
    |a| == |b| &&
    forall i :: 0 <= i < |a| ==>
                  && StrAlike(a[i].address, b[i].address) && StrAlike(a[i].permission, b[i].permission)
                  && StrAlike(a[i].tsigKey, b[i].tsigKey) && StrAlike(a[i].tsigKeyAlg, b[i].tsigKeyAlg)
                  && BoolAlike(a[i].useTsigKeyName, b[i].useTsigKeyName)
                  && (a[i].useTsigKeyName == Some(true) ==> StrAlike(a[i].tsigKeyName, b[i].tsigKeyName))
  }

  lemma ItemsAgree(servers1: seq<NameServer>, servers2: seq<NameServer>, acs1: seq<AddressAc>, acs2: seq<AddressAc>)
    ensures NameServersEqual(servers1, servers2) <==> NameServersAlike(servers1, servers2)
    ensures AddressAcsEqual(acs1, acs2) <==> AddressAcsAlike(acs1, acs2)
  {
  }

  predicate NameServersEqual(a: seq<NameServer>, b: seq<NameServer>) {
    |a| == |b| && forall i :: 0 <= i < |a| ==> NameServerEqual(a[i], b[i])
  }

  predicate AddressAcsEqual(a: seq<AddressAc>, b: seq<AddressAc>) {
    |a| == |b| && forall i :: 0 <= i < |a| ==> AddressAcEqual(a[i], b[i])
  }

  /** The early-exit loop of the source. */
  method CompareNameServers(a: seq<NameServer>, b: seq<NameServer>) returns (equal: bool)
    ensures equal == NameServersEqual(a, b)
    ensures equal <==> NameServersAlike(a, b)
  {
    ItemsAgree(a, b, [], []);
    if |a| == 0 && |b| == 0 {
      return true;
    }
    if |a| != |b| {
      return false;
    }
    for i := 0 to |a|
      invariant forall j :: 0 <= j < i ==> NameServerEqual(a[j], b[j])
    {
      if !NameServerEqual(a[i], b[i]) {
        return false;
      }
    }
    return true;
  }

  method CompareAddressAcs(a: seq<AddressAc>, b: seq<AddressAc>) returns (equal: bool)
    ensures equal == AddressAcsEqual(a, b)
    ensures equal <==> AddressAcsAlike(a, b)
  {
    ItemsAgree([], [], a, b);
    if |a| == 0 && |b| == 0 {
      return true;
    }
    if |a| != |b| {
      return false;
    }
    for i := 0 to |a|
      invariant forall j :: 0 <= j < i ==> AddressAcEqual(a[j], b[j])
    {
      if !AddressAcEqual(a[i], b[i]) {
        return false;
      }
    }
    return true;
  }

  // ---- bags compared by reflect.DeepEqual ---------------------------------------------------------

  datatype TrustedKey = TrustedKey(
    fqdn: Option<string>, algorithm: Option<string>, key: Option<string>,
    secureEntryPoint: Option<bool>, mustBeSecure: Option<bool>)

  datatype TrustedKeySdk = TrustedKeySdk(fqdn: string, algorithm: string, key: string, secureEntryPoint: bool,
                                         mustBeSecure: bool)

  function TrustedKeyToSdk(v: TrustedKey): TrustedKeySdk {
    TrustedKeySdk(StrOrEmpty(v.fqdn), StrOrEmpty(v.algorithm), StrOrEmpty(v.key), BoolOrFalse(v.secureEntryPoint),
                  BoolOrFalse(v.mustBeSecure))
  }

  function TrustedKeyFromSdk(v: TrustedKeySdk): TrustedKey {
    TrustedKey(StrPtrOrNil(v.fqdn), StrPtrOrNil(v.algorithm), StrPtrOrNil(v.key), BoolPtrOrNil(v.secureEntryPoint),
               BoolPtrOrNil(v.mustBeSecure))
  }

  predicate PlainTrustedKey(v: TrustedKey) {
    Plain(v.fqdn) && Plain(v.algorithm) && Plain(v.key) && PlainB(v.secureEntryPoint) && PlainB(v.mustBeSecure)
  }

  datatype FixedRrset = FixedRrset(fqdn: Option<string>, recordType: Option<string>)

  datatype FixedRrsetSdk = FixedRrsetSdk(fqdn: string, recordType: string)

  function FixedRrsetToSdk(v: FixedRrset): FixedRrsetSdk {
    FixedRrsetSdk(StrOrEmpty(v.fqdn), StrOrEmpty(v.recordType))
  }

  function FixedRrsetFromSdk(v: FixedRrsetSdk): FixedRrset {
    FixedRrset(StrPtrOrNil(v.fqdn), StrPtrOrNil(v.recordType))
  }

  predicate PlainFixedRrset(v: FixedRrset) {
    Plain(v.fqdn) && Plain(v.recordType)
  }

  /** A Go slice under DeepEqual: None is nil, which differs from an empty slice.  Match lists and
      weekdays are passed through untouched. */
  datatype SortEntry = SortEntry(address: Option<string>, matchList: Option<seq<string>>)

  datatype SortEntrySdk = SortEntrySdk(address: string, matchList: Option<seq<string>>)

  function SortEntryToSdk(v: SortEntry): SortEntrySdk {
    SortEntrySdk(StrOrEmpty(v.address), v.matchList)
  }

  function SortEntryFromSdk(v: SortEntrySdk): SortEntry {
    SortEntry(StrPtrOrNil(v.address), v.matchList)
  }

  predicate PlainSortEntry(v: SortEntry) {
    Plain(v.address)
  }

  datatype RateLimit = RateLimit(
    enableRrl: Option<bool>, logOnly: Option<bool>, responsesPerSecond: Option<nat>, window: Option<nat>,
    slip: Option<nat>)

  datatype RateLimitSdk = RateLimitSdk(enableRrl: bool, logOnly: bool, responsesPerSecond: nat, window: nat, slip: nat)

  function RateLimitToSdk(v: RateLimit): RateLimitSdk {
    RateLimitSdk(BoolOrFalse(v.enableRrl), BoolOrFalse(v.logOnly), NumOrZero(v.responsesPerSecond),
                 NumOrZero(v.window), NumOrZero(v.slip))
  }

  function RateLimitFromSdk(v: RateLimitSdk): RateLimit {
    RateLimit(BoolPtrOrNil(v.enableRrl), BoolPtrOrNil(v.logOnly), NumPtrOrNil(v.responsesPerSecond),
              NumPtrOrNil(v.window), NumPtrOrNil(v.slip))
  }

  predicate PlainRateLimit(v: RateLimit) {
    PlainB(v.enableRrl) && PlainB(v.logOnly) && PlainN(v.responsesPerSecond) && PlainN(v.window) && PlainN(v.slip)
  }

  /** Expressionop and Eaexpressionop have the same shape. */
  datatype Expression = Expression(op: Option<string>, op1: Option<string>, op1Type: Option<string>,
                                   op2: Option<string>, op2Type: Option<string>)

  datatype ExpressionSdk = ExpressionSdk(op: string, op1: string, op1Type: string, op2: string, op2Type: string)

  function ExpressionToSdk(v: Expression): ExpressionSdk {
    ExpressionSdk(StrOrEmpty(v.op), StrOrEmpty(v.op1), StrOrEmpty(v.op1Type), StrOrEmpty(v.op2), StrOrEmpty(v.op2Type))
  }

  function ExpressionFromSdk(v: ExpressionSdk): Expression {
    Expression(StrPtrOrNil(v.op), StrPtrOrNil(v.op1), StrPtrOrNil(v.op1Type), StrPtrOrNil(v.op2),
               StrPtrOrNil(v.op2Type))
  }

  predicate PlainExpression(v: Expression) {
    Plain(v.op) && Plain(v.op1) && Plain(v.op1Type) && Plain(v.op2) && Plain(v.op2Type)
  }

  /** A nil or empty list of items is sent as nil, and an empty answer is read as nil. */
  function ExpressionsToSdk(v: Option<seq<Expression>>): Option<seq<ExpressionSdk>> {
    if v.None? || v.value == [] then None else Some(MapSeq(ExpressionToSdk, v.value))
  }

  function ExpressionsFromSdk(v: Option<seq<ExpressionSdk>>): Option<seq<Expression>> {
    if v.None? || v.value == [] then None else Some(MapSeq(ExpressionFromSdk, v.value))
  }

  predicate PlainExpressions(v: Option<seq<Expression>>) {
    v.Some? ==> v.value != [] && forall i :: 0 <= i < |v.value| ==> PlainExpression(v.value[i])
  }

  datatype Schedule = Schedule(
    weekdays: Option<seq<string>>, timeZone: Option<string>, recurringTime: Option<int>, frequency: Option<string>,
    every: Option<nat>, minutesPastHour: Option<nat>, hourOfDay: Option<nat>, year: Option<nat>, month: Option<nat>,
    dayOfMonth: Option<nat>, repeat_: Option<string>, disable: Option<bool>)

  datatype ScheduleSdk = ScheduleSdk(
    weekdays: Option<seq<string>>, timeZone: string, recurringTime: Option<int>, frequency: string,
    every: nat, minutesPastHour: nat, hourOfDay: nat, year: nat, month: nat,
    dayOfMonth: nat, repeat_: string, disable: bool)

  function ScheduleToSdk(v: Schedule): ScheduleSdk {
    ScheduleSdk(v.weekdays, StrOrEmpty(v.timeZone), v.recurringTime, StrOrEmpty(v.frequency),
                NumOrZero(v.every), NumOrZero(v.minutesPastHour), NumOrZero(v.hourOfDay), NumOrZero(v.year),
                NumOrZero(v.month),
                NumOrZero(v.dayOfMonth), StrOrEmpty(v.repeat_), BoolOrFalse(v.disable))
  }

  function ScheduleFromSdk(v: ScheduleSdk): Schedule {
    Schedule(v.weekdays, StrPtrOrNil(v.timeZone), v.recurringTime, StrPtrOrNil(v.frequency),
             NumPtrOrNil(v.every), NumPtrOrNil(v.minutesPastHour), NumPtrOrNil(v.hourOfDay), NumPtrOrNil(v.year),
             NumPtrOrNil(v.month),
             NumPtrOrNil(v.dayOfMonth), StrPtrOrNil(v.repeat_), BoolPtrOrNil(v.disable))
  }

  predicate PlainSchedule(v: Schedule) {
    && Plain(v.timeZone) && Plain(v.frequency) && Plain(v.repeat_) && PlainB(v.disable)
    && PlainN(v.every) && PlainN(v.minutesPastHour) && PlainN(v.hourOfDay)
    && PlainN(v.year) && PlainN(v.month) && PlainN(v.dayOfMonth)
  }

  datatype Scavenging = Scavenging(
    scavenging: Option<bool>, recurrent: Option<bool>, autoReclamation: Option<bool>, rrLastQueried: Option<bool>,
    zoneLastQueried: Option<bool>, reclaimAssociated: Option<bool>,
    schedule: Option<Schedule>, expressions: Option<seq<Expression>>, eaExpressions: Option<seq<Expression>>)

  datatype ScavengingSdk = ScavengingSdk(
    scavenging: bool, recurrent: bool, autoReclamation: bool, rrLastQueried: bool,
    zoneLastQueried: bool, reclaimAssociated: bool,
    schedule: Option<ScheduleSdk>, expressions: Option<seq<ExpressionSdk>>, eaExpressions: Option<seq<ExpressionSdk>>)

  function ScavengingToSdk(v: Scavenging): ScavengingSdk {
    ScavengingSdk(BoolOrFalse(v.scavenging), BoolOrFalse(v.recurrent), BoolOrFalse(v.autoReclamation),
                  BoolOrFalse(v.rrLastQueried),
                  BoolOrFalse(v.zoneLastQueried), BoolOrFalse(v.reclaimAssociated),
                  if v.schedule.None? then None else Some(ScheduleToSdk(v.schedule.value)),
                  ExpressionsToSdk(v.expressions), ExpressionsToSdk(v.eaExpressions))
  }

  function ScavengingFromSdk(v: ScavengingSdk): Scavenging {
    Scavenging(BoolPtrOrNil(v.scavenging), BoolPtrOrNil(v.recurrent), BoolPtrOrNil(v.autoReclamation),
               BoolPtrOrNil(v.rrLastQueried),
               BoolPtrOrNil(v.zoneLastQueried), BoolPtrOrNil(v.reclaimAssociated),
               if v.schedule.None? then None else Some(ScheduleFromSdk(v.schedule.value)),
               ExpressionsFromSdk(v.expressions), ExpressionsFromSdk(v.eaExpressions))
  }

  predicate PlainScavenging(v: Scavenging) {
    && PlainB(v.scavenging) && PlainB(v.recurrent) && PlainB(v.autoReclamation) && PlainB(v.rrLastQueried)
    && PlainB(v.zoneLastQueried) && PlainB(v.reclaimAssociated)
    && (v.schedule.Some? ==> PlainSchedule(v.schedule.value))
    && PlainExpressions(v.expressions) && PlainExpressions(v.eaExpressions)
  }

  // ---- round trips through conversion -----------------------------------------------------------

  function ConvertedNameServers(v: seq<NameServer>): seq<NameServer> {
    MapSeq((x: NameServer) => NameServerFromSdk(NameServerToSdk(x)), v)
  }

  function ConvertedAddressAcs(v: seq<AddressAc>): seq<AddressAc> {
    MapSeq((x: AddressAc) => AddressAcFromSdk(AddressAcToSdk(x)), v)
  }

  function ConvertedTrustedKeys(v: seq<TrustedKey>): seq<TrustedKey> {
    MapSeq((x: TrustedKey) => TrustedKeyFromSdk(TrustedKeyToSdk(x)), v)
  }

  function ConvertedFixedRrsets(v: seq<FixedRrset>): seq<FixedRrset> {
    MapSeq((x: FixedRrset) => FixedRrsetFromSdk(FixedRrsetToSdk(x)), v)
  }

  function ConvertedSortEntries(v: seq<SortEntry>): seq<SortEntry> {
    MapSeq((x: SortEntry) => SortEntryFromSdk(SortEntryToSdk(x)), v)
  }

  /** Lists compared item by item always survive the trip to the SDK form and back. */
  lemma ItemwiseListsSurvive(servers: seq<NameServer>, acs: seq<AddressAc>)
    ensures NameServersEqual(servers, ConvertedNameServers(servers))
    ensures AddressAcsEqual(acs, ConvertedAddressAcs(acs))
  {
  }

  /** No leaf of an item is lost on the way, the TSIG key name under a flag that is off included: an item reads
      back as it was written exactly if it holds no explicit zero. */
  lemma ItemReadsBack(server: NameServer, ac: AddressAc)
    ensures NameServerFromSdk(NameServerToSdk(server)) == server <==>
            && Some("") !in [server.address, server.name, server.tsigKey, server.tsigKeyAlg, server.tsigKeyName]
            && Some(false) !in [server.shared, server.stealth, server.useTsigKeyName]
    ensures AddressAcFromSdk(AddressAcToSdk(ac)) == ac <==>
            && Some("") !in [ac.address, ac.permission, ac.tsigKey, ac.tsigKeyAlg, ac.tsigKeyName]
            && ac.useTsigKeyName != Some(false)
  {
    Leaves();
  }

  /** Lists compared by DeepEqual survive exactly when no item holds an explicit zero. */
  lemma DeepListsSurvive(keys: seq<TrustedKey>, rrsets: seq<FixedRrset>, entries: seq<SortEntry>)
    ensures ConvertedTrustedKeys(keys) == keys <==> forall i :: 0 <= i < |keys| ==> PlainTrustedKey(keys[i])
    ensures ConvertedFixedRrsets(rrsets) == rrsets <==> forall i :: 0 <= i < |rrsets| ==> PlainFixedRrset(rrsets[i])
    ensures ConvertedSortEntries(entries) == entries <==> forall i :: 0 <= i < |entries| ==> PlainSortEntry(entries[i])
  {
    assert forall i :: 0 <= i < |keys| ==> (ConvertedTrustedKeys(keys)[i] == keys[i] <==> PlainTrustedKey(keys[i]));
    assert forall i :: 0 <= i < |rrsets| ==>
                         (ConvertedFixedRrsets(rrsets)[i] == rrsets[i] <==> PlainFixedRrset(rrsets[i]));
    assert forall i :: 0 <= i < |entries| ==>
                         (ConvertedSortEntries(entries)[i] == entries[i] <==> PlainSortEntry(entries[i]));
  }

  lemma ExpressionsSurvive(v: Option<seq<Expression>>)
    ensures ExpressionsFromSdk(ExpressionsToSdk(v)) == v <==> PlainExpressions(v)
    ensures ExpressionsToSdk(v) == ExpressionsToSdk(None) <==> v.None? || v.value == []
  {
    if v.Some? && v.value != [] {
      var back := ExpressionsFromSdk(ExpressionsToSdk(v)).value;
      assert forall i :: 0 <= i < |back| ==> (back[i] == v.value[i] <==> PlainExpression(v.value[i]));
      if PlainExpressions(v) {
        assert back == v.value;
      }
    }
  }

  lemma Leaves()
    ensures forall s :: StrPtrOrNil(StrOrEmpty(s)) == s <==> Plain(s)
    ensures forall b :: BoolPtrOrNil(BoolOrFalse(b)) == b <==> PlainB(b)
    ensures forall n :: NumPtrOrNil(NumOrZero(n)) == n <==> PlainN(n)
  {
  }

  lemma ScheduleSurvives(v: Schedule)
    ensures ScheduleFromSdk(ScheduleToSdk(v)) == v <==> PlainSchedule(v)
  {
    Leaves();
  }

  /** Struct pointers compared by DeepEqual survive exactly when nothing in them is an explicit zero
      and no item list is empty without being nil. */
  lemma RateLimitSurvives(v: RateLimit)
    ensures RateLimitFromSdk(RateLimitToSdk(v)) == v <==> PlainRateLimit(v)
  {
    Leaves();
  }

  lemma ScavengingSurvives(v: Scavenging)
    ensures ScavengingFromSdk(ScavengingToSdk(v)) == v <==> PlainScavenging(v)
  {
    Leaves();
    ExpressionsSurvive(v.expressions);
    ExpressionsSurvive(v.eaExpressions);
    if v.schedule.Some? {
      ScheduleSurvives(v.schedule.value);
    }
  }

  // ---- what was read holds no explicit zero -----------------------------------------------------

  lemma ReadListsArePlain(keys: seq<TrustedKey>, rrsets: seq<FixedRrset>, entries: seq<SortEntry>)
    ensures forall i :: 0 <= i < |keys| ==> PlainTrustedKey(ConvertedTrustedKeys(keys)[i])
    ensures forall i :: 0 <= i < |rrsets| ==> PlainFixedRrset(ConvertedFixedRrsets(rrsets)[i])
    ensures forall i :: 0 <= i < |entries| ==> PlainSortEntry(ConvertedSortEntries(entries)[i])
  {
  }

  lemma ReadExpressionsArePlain(v: Option<seq<ExpressionSdk>>)
    ensures PlainExpressions(ExpressionsFromSdk(v))
  {
  }

  lemma ReadScavengingIsPlain(v: ScavengingSdk)
    ensures PlainScavenging(ScavengingFromSdk(v))
  {
    ReadExpressionsArePlain(v.expressions);
    ReadExpressionsArePlain(v.eaExpressions);
    if v.schedule.Some? {
      ReadScheduleIsPlain(v.schedule.value);
    }
  }

  lemma ReadScheduleIsPlain(v: ScheduleSdk)
    ensures PlainSchedule(ScheduleFromSdk(v))
  {
  }
}
