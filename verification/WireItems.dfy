/** What a Grid may answer for items it was sent.  Every leaf of the SDK's nested structs is omitted from
    the request when it is zero, and so are empty lists and nil pointers inside them (the SDK's omitempty
    tags): the Grid keeps what it is sent and answers anything where it was sent nothing. */
module WireItems {
  import opened Wrappers
  import opened NestedBags

  predicate Kept<T(==)>(zero: T, sent: Option<T>, got: Option<T>) {
    sent.GetOr(zero) != zero ==> got == sent
  }

  /** A leaf left blank is blank in the answer too. */
  predicate StaysBlank<T(==)>(zero: T, sent: Option<T>, got: Option<T>) {
    sent.GetOr(zero) == zero ==> got.GetOr(zero) == zero
  }

  predicate PtrKept<T(==)>(sent: Option<T>, got: Option<T>) {
    sent.Some? ==> got == sent
  }

  predicate PtrStaysNil<T(==)>(sent: Option<T>, got: Option<T>) {
    sent.None? ==> got.None?
  }

  predicate ListKept(sent: Option<seq<string>>, got: Option<seq<string>>) {
    sent.GetOr([]) != [] ==> got == sent
  }

  /** Nil and empty are the same request, but DeepEqual tells them apart in the answer. */
  predicate ListStaysBlank(sent: Option<seq<string>>, got: Option<seq<string>>) {
    sent.GetOr([]) == [] ==> got == sent
  }

  // ---- item by item -------------------------------------------------------------------------------

  predicate NameServerKept(v: NameServer, g: NameServer) {
    && Kept("", v.address, g.address) && Kept("", v.name, g.name) && Kept(false, v.shared, g.shared)
    && Kept(false, v.stealth, g.stealth) && Kept("", v.tsigKey, g.tsigKey) && Kept("", v.tsigKeyAlg, g.tsigKeyAlg)
    && Kept("", v.tsigKeyName, g.tsigKeyName) && Kept(false, v.useTsigKeyName, g.useTsigKeyName)
  }

  predicate NameServerBlanks(v: NameServer, g: NameServer) {
    && StaysBlank("", v.address, g.address) && StaysBlank("", v.name, g.name) && StaysBlank(false, v.shared, g.shared)
    && StaysBlank(false, v.stealth, g.stealth) && StaysBlank("", v.tsigKey, g.tsigKey)
    && StaysBlank("", v.tsigKeyAlg, g.tsigKeyAlg) && StaysBlank(false, v.useTsigKeyName, g.useTsigKeyName)
    && (BoolOrFalse(v.useTsigKeyName) ==> StaysBlank("", v.tsigKeyName, g.tsigKeyName))
  }

  predicate AddressAcKept(v: AddressAc, g: AddressAc) {
    && Kept("", v.address, g.address) && Kept("", v.permission, g.permission) && Kept("", v.tsigKey, g.tsigKey)
    && Kept("", v.tsigKeyAlg, g.tsigKeyAlg) && Kept("", v.tsigKeyName, g.tsigKeyName)
    && Kept(false, v.useTsigKeyName, g.useTsigKeyName)
  }

  predicate AddressAcBlanks(v: AddressAc, g: AddressAc) {
    && StaysBlank("", v.address, g.address) && StaysBlank("", v.permission, g.permission)
    && StaysBlank("", v.tsigKey, g.tsigKey) && StaysBlank("", v.tsigKeyAlg, g.tsigKeyAlg)
    && StaysBlank(false, v.useTsigKeyName, g.useTsigKeyName)
    && (BoolOrFalse(v.useTsigKeyName) ==> StaysBlank("", v.tsigKeyName, g.tsigKeyName))
  }

  lemma NameServerAgrees(v: NameServer, g: NameServer)
    requires NameServerKept(v, g)
    ensures NameServerEqual(v, g) <==> NameServerBlanks(v, g)
  {
  }

  lemma AddressAcAgrees(v: AddressAc, g: AddressAc)
    requires AddressAcKept(v, g)
    ensures AddressAcEqual(v, g) <==> AddressAcBlanks(v, g)
  {
  }

  // ---- compared by DeepEqual ------------------------------------------------------------------------

  predicate TrustedKeyKept(v: TrustedKey, g: TrustedKey) {
    && Kept("", v.fqdn, g.fqdn) && Kept("", v.algorithm, g.algorithm) && Kept("", v.key, g.key)
    && Kept(false, v.secureEntryPoint, g.secureEntryPoint) && Kept(false, v.mustBeSecure, g.mustBeSecure)
  }

  predicate TrustedKeyBlanks(v: TrustedKey, g: TrustedKey) {
    && StaysBlank("", v.fqdn, g.fqdn) && StaysBlank("", v.algorithm, g.algorithm) && StaysBlank("", v.key, g.key)
    && StaysBlank(false, v.secureEntryPoint, g.secureEntryPoint) && StaysBlank(false, v.mustBeSecure, g.mustBeSecure)
  }

  predicate FixedRrsetKept(v: FixedRrset, g: FixedRrset) {
    Kept("", v.fqdn, g.fqdn) && Kept("", v.recordType, g.recordType)
  }

  predicate FixedRrsetBlanks(v: FixedRrset, g: FixedRrset) {
    StaysBlank("", v.fqdn, g.fqdn) && StaysBlank("", v.recordType, g.recordType)
  }

  predicate SortEntryKept(v: SortEntry, g: SortEntry) {
    Kept("", v.address, g.address) && ListKept(v.matchList, g.matchList)
  }

  predicate SortEntryBlanks(v: SortEntry, g: SortEntry) {
    StaysBlank("", v.address, g.address) && ListStaysBlank(v.matchList, g.matchList)
  }

  predicate RateLimitKept(v: RateLimit, g: RateLimit) {
    && Kept(false, v.enableRrl, g.enableRrl) && Kept(false, v.logOnly, g.logOnly)
    && Kept(0, v.responsesPerSecond, g.responsesPerSecond) && Kept(0, v.window, g.window) && Kept(0, v.slip, g.slip)
  }

  predicate RateLimitBlanks(v: RateLimit, g: RateLimit) {
    && StaysBlank(false, v.enableRrl, g.enableRrl) && StaysBlank(false, v.logOnly, g.logOnly)
    && StaysBlank(0, v.responsesPerSecond, g.responsesPerSecond) && StaysBlank(0, v.window, g.window)
    && StaysBlank(0, v.slip, g.slip)
  }

  predicate ExpressionKept(v: Expression, g: Expression) {
    && Kept("", v.op, g.op) && Kept("", v.op1, g.op1) && Kept("", v.op1Type, g.op1Type)
    && Kept("", v.op2, g.op2) && Kept("", v.op2Type, g.op2Type)
  }

  predicate ExpressionBlanks(v: Expression, g: Expression) {
    && StaysBlank("", v.op, g.op) && StaysBlank("", v.op1, g.op1) && StaysBlank("", v.op1Type, g.op1Type)
    && StaysBlank("", v.op2, g.op2) && StaysBlank("", v.op2Type, g.op2Type)
  }

  predicate ExpressionsKept(v: Option<seq<Expression>>, g: Option<seq<Expression>>) {
    v.GetOr([]) != [] ==>
      g.Some? && |g.value| == |v.value| && forall i :: 0 <= i < |v.value| ==> ExpressionKept(v.value[i], g.value[i])
  }

  predicate ExpressionsBlanks(v: Option<seq<Expression>>, g: Option<seq<Expression>>) {
    if v.GetOr([]) == [] then g.GetOr([]) == []
    else g.Some? && |g.value| == |v.value| && forall i :: 0 <= i < |v.value| ==> ExpressionBlanks(v.value[i],
        g.value[i])
  }

  predicate ScheduleKept(v: Schedule, g: Schedule) {
    && ListKept(v.weekdays, g.weekdays) && Kept("", v.timeZone, g.timeZone) && PtrKept(v.recurringTime, g.recurringTime)
    && Kept("", v.frequency, g.frequency) && Kept(0, v.every, g.every) && Kept(0, v.minutesPastHour, g.minutesPastHour)
    && Kept(0, v.hourOfDay, g.hourOfDay) && Kept(0, v.year, g.year) && Kept(0, v.month, g.month)
    && Kept(0, v.dayOfMonth, g.dayOfMonth) && Kept("", v.repeat_, g.repeat_) && Kept(false, v.disable, g.disable)
  }

  predicate ScheduleBlanks(v: Schedule, g: Schedule) {
    && ListStaysBlank(v.weekdays, g.weekdays) && StaysBlank("", v.timeZone, g.timeZone)
    && PtrStaysNil(v.recurringTime, g.recurringTime) && StaysBlank("", v.frequency, g.frequency)
    && StaysBlank(0, v.every, g.every) && StaysBlank(0, v.minutesPastHour, g.minutesPastHour)
    && StaysBlank(0, v.hourOfDay, g.hourOfDay) && StaysBlank(0, v.year, g.year) && StaysBlank(0, v.month, g.month)
    && StaysBlank(0, v.dayOfMonth, g.dayOfMonth) && StaysBlank("", v.repeat_, g.repeat_)
    && StaysBlank(false, v.disable, g.disable)
  }

  predicate ScavengingKept(v: Scavenging, g: Scavenging) {
    && Kept(false, v.scavenging, g.scavenging) && Kept(false, v.recurrent, g.recurrent)
    && Kept(false, v.autoReclamation, g.autoReclamation) && Kept(false, v.rrLastQueried, g.rrLastQueried)
    && Kept(false, v.zoneLastQueried, g.zoneLastQueried) && Kept(false, v.reclaimAssociated, g.reclaimAssociated)
    && (v.schedule.Some? ==> g.schedule.Some? && ScheduleKept(v.schedule.value, g.schedule.value))
    && ExpressionsKept(v.expressions, g.expressions) && ExpressionsKept(v.eaExpressions, g.eaExpressions)
  }

  predicate ScavengingBlanks(v: Scavenging, g: Scavenging) {
    && StaysBlank(false, v.scavenging, g.scavenging) && StaysBlank(false, v.recurrent, g.recurrent)
    && StaysBlank(false, v.autoReclamation, g.autoReclamation) && StaysBlank(false, v.rrLastQueried, g.rrLastQueried)
    && StaysBlank(false, v.zoneLastQueried, g.zoneLastQueried)
    && StaysBlank(false, v.reclaimAssociated, g.reclaimAssociated)
    && (if v.schedule.None? then g.schedule.None?
        else g.schedule.Some? && ScheduleBlanks(v.schedule.value, g.schedule.value))
    && ExpressionsBlanks(v.expressions, g.expressions) && ExpressionsBlanks(v.eaExpressions, g.eaExpressions)
  }

  /** Of what was kept and an answer as it is read: DeepEqual holds exactly if no leaf is an explicit zero and
      every leaf left blank is blank in the answer. */
  lemma TrustedKeyAgrees(v: TrustedKey, g: TrustedKey)
    requires TrustedKeyKept(v, g) && PlainTrustedKey(g)
    ensures v == g <==> PlainTrustedKey(v) && TrustedKeyBlanks(v, g)
  {
  }

  lemma FixedRrsetAgrees(v: FixedRrset, g: FixedRrset)
    requires FixedRrsetKept(v, g) && PlainFixedRrset(g)
    ensures v == g <==> PlainFixedRrset(v) && FixedRrsetBlanks(v, g)
  {
  }

  lemma SortEntryAgrees(v: SortEntry, g: SortEntry)
    requires SortEntryKept(v, g) && PlainSortEntry(g)
    ensures v == g <==> PlainSortEntry(v) && SortEntryBlanks(v, g)
  {
  }

  lemma RateLimitAgrees(v: RateLimit, g: RateLimit)
    requires RateLimitKept(v, g) && PlainRateLimit(g)
    ensures v == g <==> PlainRateLimit(v) && RateLimitBlanks(v, g)
  {
  }

  lemma ExpressionAgrees(v: Expression, g: Expression)
    requires ExpressionKept(v, g) && PlainExpression(g)
    ensures v == g <==> PlainExpression(v) && ExpressionBlanks(v, g)
  {
  }

  lemma ExpressionsAgree(v: Option<seq<Expression>>, g: Option<seq<Expression>>)
    requires ExpressionsKept(v, g) && PlainExpressions(g)
    ensures v == g <==> PlainExpressions(v) && ExpressionsBlanks(v, g)
  {
    if v.GetOr([]) != [] {
      forall i | 0 <= i < |v.value|
        ensures v.value[i] == g.value[i] <==> PlainExpression(v.value[i]) && ExpressionBlanks(v.value[i], g.value[i])
      {
        ExpressionAgrees(v.value[i], g.value[i]);
      }
      if PlainExpressions(v) && ExpressionsBlanks(v, g) {
        assert v.value == g.value;
      }
    }
  }

  lemma ScheduleAgrees(v: Schedule, g: Schedule)
    requires ScheduleKept(v, g) && PlainSchedule(g)
    ensures v == g <==> PlainSchedule(v) && ScheduleBlanks(v, g)
  {
  }

  lemma ScavengingAgrees(v: Scavenging, g: Scavenging)
    requires ScavengingKept(v, g) && PlainScavenging(g)
    ensures v == g <==> PlainScavenging(v) && ScavengingBlanks(v, g)
  {
    ExpressionsAgree(v.expressions, g.expressions);
    ExpressionsAgree(v.eaExpressions, g.eaExpressions);
    if v.schedule.Some? {
      ScheduleAgrees(v.schedule.value, g.schedule.value);
    }
  }
}
