/** Field logic of the DTCLBDN controller (internal/controller/dtclbdn/controller.go). */
module DtcLbdn {
  import opened Wrappers
  import opened Identity
  import opened ExtAttrs
  import opened NestedBags
  import opened WireItems

  // ---- pools and auth zones ---------------------------------------------------------------------

  datatype PoolLink = PoolLink(pool: Option<string>, ratio: Option<nat>)

  datatype SdkPool = SdkPool(pool: string, ratio: nat)

  datatype SdkZone = SdkZone(ref: string)

  function PoolToSdk(p: PoolLink): SdkPool {
    SdkPool(StrOrEmpty(p.pool), NumOrZero(p.ratio))
  }

  function PoolFromSdk(p: SdkPool): PoolLink {
    PoolLink(StrPtrOrNil(p.pool), NumPtrOrNil(p.ratio))
  }

  /** The non-nil entries of a slice of pointers. */
  function Present<T>(xs: seq<Option<T>>): seq<T> {
    if xs == [] then []
    else (if xs[0].Some? then [xs[0].value] else []) + Present(xs[1..])
  }

  predicate IsNonEmpty(ref: string) { ref != "" }

  function NonEmpty(refs: seq<string>): seq<string> {
    Filter(IsNonEmpty, refs)
  }

  predicate PoolsAgree(a: seq<PoolLink>, b: seq<PoolLink>) {
    |a| == |b| && forall i :: 0 <= i < |a| ==> PoolToSdk(a[i]) == PoolToSdk(b[i])
  }

  /** A link is sent as it is written, blanks as zero values, and read back with nil for each zero value. */
  lemma PoolOnTheWire(p: PoolLink, sent: SdkPool)
    ensures p.pool.Some? ==> PoolToSdk(p).pool == p.pool.value
    ensures p.pool.None? ==> PoolToSdk(p).pool == ""
    ensures p.ratio.Some? ==> PoolToSdk(p).ratio == p.ratio.value
    ensures p.ratio.None? ==> PoolToSdk(p).ratio == 0
    ensures PoolFromSdk(sent).pool in {None, Some(sent.pool)} && PoolFromSdk(sent).pool != Some("")
    ensures PoolFromSdk(sent).ratio in {None, Some(sent.ratio)} && PoolFromSdk(sent).ratio != Some(0)
    ensures PoolFromSdk(sent).pool.None? ==> sent.pool == ""
    ensures PoolFromSdk(sent).ratio.None? ==> sent.ratio == 0
  {
  }

  /** The same links in the same order, up to blanks. */
  ghost predicate PoolsAlike(a: seq<PoolLink>, b: seq<PoolLink>) {
    |a| == |b| && forall i :: 0 <= i < |a| ==> StrAlike(a[i].pool, b[i].pool) && NumAlike(a[i].ratio, b[i].ratio)
  }

  lemma PoolsAgreeMeansAlike(a: seq<PoolLink>, b: seq<PoolLink>)
    ensures PoolsAgree(a, b) <==> PoolsAlike(a, b)
  {
    assert forall i :: 0 <= i < |a| && |a| == |b| ==>
                         (PoolToSdk(a[i]) == PoolToSdk(b[i]) <==>
                          StrAlike(a[i].pool, b[i].pool) && NumAlike(a[i].ratio, b[i].ratio));
  }

  method BuildPools(pools: seq<PoolLink>) returns (out: seq<Option<SdkPool>>)
    ensures |out| == |pools| && forall i :: 0 <= i < |out| ==> out[i] == Some(PoolToSdk(pools[i]))
  {
    out := [];
    for i := 0 to |pools|
      invariant |out| == i && forall j :: 0 <= j < i ==> out[j] == Some(PoolToSdk(pools[j]))
    {
      out := out + [Some(PoolToSdk(pools[i]))];
    }
  }

  lemma {:induction false} PresentSnoc<T>(xs: seq<Option<T>>, x: Option<T>)
    ensures Present(xs + [x]) == Present(xs) + if x.Some? then [x.value] else []
  {
    if xs == [] {
      assert Present([x][1..]) == [];
    } else {
      PresentSnoc(xs[1..], x);
      assert (xs + [x])[1..] == xs[1..] + [x];
      var first, last := if xs[0].Some? then [xs[0].value] else [], if x.Some? then [x.value] else [];
      assert first + (Present(xs[1..]) + last) == (first + Present(xs[1..])) + last;
    }
  }

  function ReadPools(pools: seq<Option<SdkPool>>): seq<PoolLink> {
    MapSeq(PoolFromSdk, Present(pools))
  }

  method PoolsFromSdk(pools: seq<Option<SdkPool>>) returns (out: seq<PoolLink>)
    ensures out == ReadPools(pools)
  {
    out := [];
    for i := 0 to |pools|
      invariant out == ReadPools(pools[..i])
    {
      PresentSnoc(pools[..i], pools[i]);
      assert pools[..i] + [pools[i]] == pools[..i + 1];
      if pools[i].Some? {
        out := out + [PoolFromSdk(pools[i].value)];
        assert out == ReadPools(pools[..i + 1]);
      }
    }
    assert pools[..|pools|] == pools;
  }

  method PoolsEqual(a: seq<PoolLink>, b: seq<PoolLink>) returns (equal: bool)
    ensures equal == PoolsAgree(a, b)
    ensures equal <==> PoolsAlike(a, b)
  {
    PoolsAgreeMeansAlike(a, b);
    if |a| != |b| {
      return false;
    }
    for i := 0 to |a|
      invariant forall j :: 0 <= j < i ==> PoolToSdk(a[j]) == PoolToSdk(b[j])
    {
      if StrOrEmpty(a[i].pool) != StrOrEmpty(b[i].pool) {
        return false;
      }
      if NumOrZero(a[i].ratio) != NumOrZero(b[i].ratio) {
        return false;
      }
    }
    return true;
  }

  function WrapZone(ref: string): Option<SdkZone> {
    Some(SdkZone(ref))
  }

  function WrapZones(refs: seq<string>): seq<Option<SdkZone>> {
    MapSeq(WrapZone, NonEmpty(refs))
  }

  lemma WrapZonesSnoc(refs: seq<string>, r: string)
    ensures WrapZones(refs + [r]) == WrapZones(refs) + if r != "" then [WrapZone(r)] else []
  {
    FilterSnoc(IsNonEmpty, refs, r);
  }

  method BuildAuthZones(refs: seq<string>) returns (out: seq<Option<SdkZone>>)
    ensures out == WrapZones(refs)
  {
    out := [];
    for i := 0 to |refs|
      invariant out == WrapZones(refs[..i])
    {
      WrapZonesSnoc(refs[..i], refs[i]);
      assert refs[..i] + [refs[i]] == refs[..i + 1];
      if refs[i] != "" {
        out := out + [Some(SdkZone(refs[i]))];
      }
    }
    assert refs[..|refs|] == refs;
  }

  function RefOf(zone: Option<SdkZone>): string {
    if zone.None? then "" else zone.value.ref
  }

  function ReadZones(zones: seq<Option<SdkZone>>): seq<string> {
    NonEmpty(MapSeq(RefOf, zones))
  }

  method AuthZonesFromSdk(zones: seq<Option<SdkZone>>) returns (out: seq<string>)
    ensures out == ReadZones(zones)
  {
    out := [];
    ghost var all := MapSeq(RefOf, zones);
    for i := 0 to |zones|
      invariant out == NonEmpty(all[..i])
    {
      FilterSnoc(IsNonEmpty, all[..i], all[i]);
      assert all[..i] + [all[i]] == all[..i + 1];
      if !(zones[i].None? || zones[i].value.ref == "") {
        out := out + [zones[i].value.ref];
      }
    }
    assert all[..|zones|] == all;
  }

  lemma {:induction false} PresentAll<T>(xs: seq<Option<T>>)
    requires forall i :: 0 <= i < |xs| ==> xs[i].Some?
    ensures |Present(xs)| == |xs| && forall i :: 0 <= i < |xs| ==> Present(xs)[i] == xs[i].value
  {
    if xs != [] {
      PresentAll(xs[1..]);
    }
  }

  lemma {:induction false} NonEmptyFixed(refs: seq<string>)
    ensures NonEmpty(NonEmpty(refs)) == NonEmpty(refs) && "" !in NonEmpty(refs)
    ensures NonEmpty(refs) == refs <==> "" !in refs
  {
    if refs != [] {
      NonEmptyFixed(refs[1..]);
      var rest := NonEmpty(refs[1..]);
      assert refs == [refs[0]] + refs[1..];
      if refs[0] != "" {
        assert NonEmpty(refs) == [refs[0]] + rest && NonEmpty(refs)[1..] == rest;
        assert NonEmpty(NonEmpty(refs)) == [refs[0]] + NonEmpty(rest);
      } else {
        assert NonEmpty(refs) == [] + rest == rest;
      }
    }
  }

  /** Every pool list survives building and reading back, up to the controller's own comparison. */
  lemma PoolsRoundTrip(pools: seq<PoolLink>, built: seq<Option<SdkPool>>)
    requires |built| == |pools| && forall i :: 0 <= i < |built| ==> built[i] == Some(PoolToSdk(pools[i]))
    ensures PoolsAgree(pools, ReadPools(built))
  {
    PresentAll(built);
  }

  /** An auth-zone list survives exactly if it holds no empty reference. */
  lemma AuthZonesRoundTrip(refs: seq<string>)
    ensures ReadZones(WrapZones(refs)) == NonEmpty(refs)
    ensures ReadZones(WrapZones(refs)) == refs <==> "" !in refs
  {
    NonEmptyFixed(refs);
    assert MapSeq(RefOf, WrapZones(refs)) == NonEmpty(refs);
  }

  // ---- desired and observed --------------------------------------------------------------------

  datatype Params = Params(
    name: Option<string>, lbMethod: Option<string>, patterns: seq<string>, pools: seq<PoolLink>,
    authZones: seq<string>, types: seq<string>, priority: Option<nat>, persistence: Option<nat>,
    topology: Option<string>, ttl: Option<nat>, useTtl: Option<bool>, comment: Option<string>,
    disable: Option<bool>, extAttrs: Attrs)

  datatype Record = Record(
    name: Option<string>, lbMethod: string, patterns: seq<string>, pools: seq<Option<SdkPool>>,
    authZones: seq<Option<SdkZone>>, types: seq<string>, priority: Option<nat>, persistence: Option<nat>,
    topology: Option<string>, ttl: Option<nat>, useTtl: Option<bool>, comment: Option<string>,
    disable: Option<bool>, ea: EA)

  /** The forProvider block of the managed resource, late-initialized in place through pointers. */
  class ForProvider {
    var name: Option<string>
    var lbMethod: Option<string>
    var patterns: seq<string>
    var pools: seq<PoolLink>
    var authZones: seq<string>
    var types: seq<string>
    var priority: Option<nat>
    var persistence: Option<nat>
    var topology: Option<string>
    var ttl: Option<nat>
    var useTtl: Option<bool>
    var comment: Option<string>
    var disable: Option<bool>
    var extAttrs: Attrs

    constructor (p: Params)
      ensures Value() == p
    {
      name, lbMethod, patterns := p.name, p.lbMethod, p.patterns;
      pools, authZones, types := p.pools, p.authZones, p.types;
      priority, persistence, topology, ttl, useTtl := p.priority, p.persistence, p.topology, p.ttl, p.useTtl;
      comment, disable, extAttrs := p.comment, p.disable, p.extAttrs;
    }

    function Value(): Params
      reads this
    {
      Params(name, lbMethod, patterns, pools, authZones, types, priority, persistence, topology, ttl, useTtl,
             comment, disable, extAttrs)
    }

    /** useTtl is back-filled first; ttl only under the resulting flag. */
    method LateInitialize(rec: Record) returns (changed: bool)
      modifies this
      ensures Value() == LateInit(old(Value()), rec)
      ensures changed <==> Value() != old(Value())
    {
      changed := LateInitPlain(rec);
      label Plain:
      var c := LateInitTtl(rec);
      changed := c || changed;
      label Ttl:
      c := LateInitExtAttrs(rec.ea);
      changed := c || changed;
    }

    method LateInitPlain(rec: Record) returns (changed: bool)
      modifies `priority, `persistence, `topology, `comment, `disable
      ensures priority == Or(old(priority), rec.priority) && persistence == Or(old(persistence), rec.persistence)
      ensures topology == OrText(old(topology), rec.topology) && comment == OrText(old(comment), rec.comment)
      ensures disable == Or(old(disable), rec.disable)
      ensures changed <==> Value() != old(Value())
    {
      var c;
      priority, changed := LateInitPtr(priority, rec.priority);
      persistence, c := LateInitPtr(persistence, rec.persistence);
      changed := c || changed;
      topology, c := LateInitString(topology, rec.topology);
      changed := c || changed;
      comment, c := LateInitString(comment, rec.comment);
      changed := c || changed;
      disable, c := LateInitPtr(disable, rec.disable);
      changed := c || changed;
    }

    method LateInitTtl(rec: Record) returns (changed: bool)
      modifies `useTtl, `ttl
      ensures useTtl == Or(old(useTtl), rec.useTtl)
      ensures ttl == if EffectiveUseTtl(old(Value()), rec) then Or(old(ttl), rec.ttl) else old(ttl)
      ensures changed <==> Value() != old(Value())
    {
      useTtl, changed := LateInitPtr(useTtl, rec.useTtl);
      if BoolOrFalse(useTtl) {
        var c;
        ttl, c := LateInitPtr(ttl, rec.ttl);
        changed := c || changed;
      }
    }

    method LateInitExtAttrs(observed: EA) returns (changed: bool)
      modifies `extAttrs
      ensures extAttrs == if old(extAttrs) == map[] then ReadOf(Stripped(observed)) else old(extAttrs)
      ensures changed <==> Value() != old(Value())
    {
      if |extAttrs| != 0 {
        return false;
      }
      var stripped := Strip(observed);
      var fromRec := ExtAttrsFromEA(stripped);
      ReadIsUnique(stripped, fromRec, ReadOf(stripped));
      if |fromRec| == 0 {
        return false;
      }
      extAttrs := fromRec;
      return true;
    }
  }

  method LateInitPtr<T(==)>(mine: Option<T>, observed: Option<T>) returns (now: Option<T>, changed: bool)
    ensures now == Or(mine, observed) && (changed <==> now != mine)
  {
    if mine.Some? || observed.None? {
      return mine, false;
    }
    return observed, true;
  }

  method LateInitString(mine: Option<string>, observed: Option<string>) returns (now: Option<string>, changed: bool)
    ensures now == OrText(mine, observed) && (changed <==> now != mine)
  {
    if mine.Some? || observed.None? || observed.value == "" {
      return mine, false;
    }
    return observed, true;
  }

  // ---- late-initialization ------------------------------------------------------------------------

  predicate EffectiveUseTtl(p: Params, rec: Record) {
    if p.useTtl.Some? then p.useTtl.value else BoolOrFalse(rec.useTtl)
  }

  function Or<T>(mine: Option<T>, theirs: Option<T>): Option<T> {
    if mine.None? then theirs else mine
  }

  function OrText(mine: Option<string>, theirs: Option<string>): Option<string> {
    if mine.None? && theirs != Some("") then theirs else mine
  }

  /** Order-free: every field from the original parameters and the record alone. */
  ghost function LateInit(p: Params, rec: Record): Params {
    p.(priority := Or(p.priority, rec.priority),
       persistence := Or(p.persistence, rec.persistence),
       topology := OrText(p.topology, rec.topology),
       useTtl := Or(p.useTtl, rec.useTtl),
       ttl := if EffectiveUseTtl(p, rec) then Or(p.ttl, rec.ttl) else p.ttl,
       comment := OrText(p.comment, rec.comment),
       disable := Or(p.disable, rec.disable),
       extAttrs := if p.extAttrs == map[] then ReadOf(Stripped(rec.ea)) else p.extAttrs)
  }

  // ---- comparison ---------------------------------------------------------------------------------

  ghost predicate ScalarsAgree(p: Params, rec: Record) {
    && StrOrEmpty(p.name) == StrOrEmpty(rec.name)
    && StrOrEmpty(p.lbMethod) == rec.lbMethod
    && NumOrZero(p.priority) == NumOrZero(rec.priority)
    && NumOrZero(p.persistence) == NumOrZero(rec.persistence)
    && StrOrEmpty(p.topology) == StrOrEmpty(rec.topology)
    && TtlAgrees(p, rec)
    && StrOrEmpty(p.comment) == StrOrEmpty(rec.comment)
    && BoolOrFalse(p.disable) == BoolOrFalse(rec.disable)
  }

  predicate TtlAgrees(p: Params, rec: Record) {
    && BoolOrFalse(p.useTtl) == BoolOrFalse(rec.useTtl)
    && (BoolOrFalse(p.useTtl) ==> NumOrZero(p.ttl) == NumOrZero(rec.ttl))
  }

  /** types is compared only if the user set it. */
  ghost predicate CollectionsAgree(p: Params, rec: Record) {
    && p.patterns == rec.patterns
    && PoolsAgree(p.pools, ReadPools(rec.pools))
    && p.authZones == ReadZones(rec.authZones)
    && (p.types != [] ==> p.types == rec.types)
    && AttrsAgree(p, rec)
  }

  ghost predicate AttrsAgree(p: Params, rec: Record) {
    p.extAttrs == ReadOf(Stripped(rec.ea))
  }

  ghost predicate UpToDate(p: Params, rec: Record) {
    ScalarsAgree(p, rec) && CollectionsAgree(p, rec)
  }

  method ScalarFieldsUpToDate(p: Params, rec: Record) returns (equal: bool)
    ensures equal <==> ScalarsAgree(p, rec)
  {
    if StrOrEmpty(p.name) != StrOrEmpty(rec.name) { return false; }
    if StrOrEmpty(p.lbMethod) != rec.lbMethod { return false; }
    if NumOrZero(p.priority) != NumOrZero(rec.priority) { return false; }
    if NumOrZero(p.persistence) != NumOrZero(rec.persistence) { return false; }
    if StrOrEmpty(p.topology) != StrOrEmpty(rec.topology) { return false; }
    if BoolOrFalse(p.useTtl) != BoolOrFalse(rec.useTtl) { return false; }
    if BoolOrFalse(p.useTtl) {
      if NumOrZero(p.ttl) != NumOrZero(rec.ttl) { return false; }
    }
    if StrOrEmpty(p.comment) != StrOrEmpty(rec.comment) { return false; }
    return BoolOrFalse(p.disable) == BoolOrFalse(rec.disable);
  }

  method CollectionFieldsUpToDate(p: Params, rec: Record) returns (equal: bool)
    ensures equal <==> CollectionsAgree(p, rec)
  {
    if p.patterns != rec.patterns { return false; }
    var pools := PoolsFromSdk(rec.pools);
    var poolsEqual := PoolsEqual(p.pools, pools);
    if !poolsEqual { return false; }
    var zones := AuthZonesFromSdk(rec.authZones);
    if p.authZones != zones { return false; }
    if |p.types| > 0 {
      if p.types != rec.types { return false; }
    }
    var stripped := Strip(rec.ea);
    var attrs := ExtAttrsFromEA(stripped);
    ReadIsUnique(stripped, attrs, ReadOf(stripped));
    equal := ExtAttrsEqual(p.extAttrs, attrs);
  }

  method IsUpToDate(p: Params, rec: Record) returns (equal: bool)
    ensures equal <==> UpToDate(p, rec)
  {
    var scalars := ScalarFieldsUpToDate(p, rec);
    if !scalars { return false; }
    equal := CollectionFieldsUpToDate(p, rec);
  }

  // ---- what late-initialization achieves --------------------------------------------------------

  /** A second run against the same record changes nothing, and nothing the user set is overwritten. */
  lemma LateInitSettles(p: Params, rec: Record)
    ensures LateInit(LateInit(p, rec), rec) == LateInit(p, rec)
    ensures var q := LateInit(p, rec);
            && (p.priority.Some? ==> q.priority == p.priority)
            && (p.persistence.Some? ==> q.persistence == p.persistence)
            && (p.topology.Some? ==> q.topology == p.topology) && (p.useTtl.Some? ==> q.useTtl == p.useTtl)
            && (p.ttl.Some? ==> q.ttl == p.ttl) && (p.comment.Some? ==> q.comment == p.comment)
            && (p.disable.Some? ==> q.disable == p.disable) && (p.extAttrs != map[] ==> q.extAttrs == p.extAttrs)
  {
  }

  /** Afterwards drift can only be reported on what the user wrote; the ttl counts only under a flag
      that is effectively on. */
  lemma UpToDateAfterLateInit(p: Params, rec: Record)
    ensures TtlAgrees(LateInit(p, rec), rec) <==>
            && (p.useTtl.Some? ==> p.useTtl.value == BoolOrFalse(rec.useTtl))
            && (EffectiveUseTtl(p, rec) && p.ttl.Some? ==> p.ttl.value == NumOrZero(rec.ttl))
    ensures UpToDate(LateInit(p, rec), rec) <==>
            && StrOrEmpty(p.name) == StrOrEmpty(rec.name) && StrOrEmpty(p.lbMethod) == rec.lbMethod
            && p.patterns == rec.patterns && PoolsAgree(p.pools, ReadPools(rec.pools))
            && p.authZones == ReadZones(rec.authZones) && (p.types != [] ==> p.types == rec.types)
            && (p.priority.Some? ==> p.priority.value == NumOrZero(rec.priority))
            && (p.persistence.Some? ==> p.persistence.value == NumOrZero(rec.persistence))
            && (p.topology.Some? ==> p.topology.value == StrOrEmpty(rec.topology))
            && (p.useTtl.Some? ==> p.useTtl.value == BoolOrFalse(rec.useTtl))
            && (EffectiveUseTtl(p, rec) && p.ttl.Some? ==> p.ttl.value == NumOrZero(rec.ttl))
            && (p.comment.Some? ==> p.comment.value == StrOrEmpty(rec.comment))
            && (p.disable.Some? ==> p.disable.value == BoolOrFalse(rec.disable))
            && (p.extAttrs != map[] ==> AttrsAgree(p, rec))
  {
  }

  // ---- one update converges -------------------------------------------------------------------------

  /** What updateDtcLbdn sends for p, stamped with uid. */
  ghost predicate Sent(p: Params, uid: Uid, rec: Record) {
    && rec.name == p.name && rec.lbMethod == StrOrEmpty(p.lbMethod) && rec.patterns == p.patterns
    && |rec.pools| == |p.pools| && (forall i :: 0 <= i < |p.pools| ==> rec.pools[i] == Some(PoolToSdk(p.pools[i])))
    && rec.authZones == WrapZones(p.authZones) && rec.types == p.types
    && rec.priority == p.priority && rec.persistence == p.persistence && rec.topology == p.topology
    && rec.ttl == p.ttl && rec.useTtl == p.useTtl && rec.comment == p.comment && rec.disable == p.disable
    && rec.ea == Stamped(Built(p.extAttrs), uid)
  }

  method BuildDtcLbdn(p: Params, uid: Uid) returns (rec: Record)
    ensures Sent(p, uid, rec)
  {
    var pools := BuildPools(p.pools);
    var zones := BuildAuthZones(p.authZones);
    var ea := BuildEA(p.extAttrs);
    assert ea == Built(p.extAttrs);
    var stamped := Stamp(ea, uid);
    rec := Record(p.name, StrOrEmpty(p.lbMethod), p.patterns, pools, zones, p.types, p.priority, p.persistence,
                  p.topology, p.ttl, p.useTtl, p.comment, p.disable, stamped);
  }

  /** A pool link's reference and ratio are omitted when they are zero. */
  predicate PoolKept(sent: SdkPool, got: SdkPool) {
    (sent.pool != "" ==> got.pool == sent.pool) && (sent.ratio != 0 ==> got.ratio == sent.ratio)
  }

  ghost predicate PoolsKept(sent: seq<Option<SdkPool>>, got: seq<Option<SdkPool>>) {
    |got| == |sent| &&
    forall i :: 0 <= i < |sent| ==>
      (got[i].Some? <==> sent[i].Some?) && (sent[i].Some? ==> PoolKept(sent[i].value, got[i].value))
  }

  /** The Grid keeps what it was sent, has any value where nothing was sent (a nil pointer, an empty list, an
      empty lb_method, a zero inside a pool link), and answers its own ttl while the flag is off. */
  ghost predicate Answered(sent: Record, rec: Record) {
    && (sent.name.Some? ==> rec.name == sent.name) && (sent.lbMethod != "" ==> rec.lbMethod == sent.lbMethod)
    && (sent.patterns != [] ==> rec.patterns == sent.patterns) && (sent.types != [] ==> rec.types == sent.types)
    && (sent.pools != [] ==> PoolsKept(sent.pools, rec.pools))
    && (sent.authZones != [] ==> rec.authZones == sent.authZones)
    && (sent.priority.Some? ==> rec.priority == sent.priority)
    && (sent.persistence.Some? ==> rec.persistence == sent.persistence)
    && (sent.topology.Some? ==> rec.topology == sent.topology)
    && (sent.useTtl.Some? ==> rec.useTtl == sent.useTtl)
    && (sent.ttl.Some? && BoolOrFalse(rec.useTtl) ==> rec.ttl == sent.ttl)
    && (sent.comment.Some? ==> rec.comment == sent.comment)
    && (sent.disable.Some? ==> rec.disable == sent.disable)
    && rec.ea == sent.ea
  }

  /** No pools where none were written, and no default where a link left its reference or ratio blank. */
  predicate PoolBlanksAgree(written: seq<PoolLink>, got: seq<PoolLink>) {
    |got| == |written| &&
    forall i :: 0 <= i < |written| ==>
      StaysBlank("", written[i].pool, got[i].pool) && StaysBlank(0, written[i].ratio, got[i].ratio)
  }

  lemma PoolsSettle(written: seq<PoolLink>, sent: seq<Option<SdkPool>>, got: seq<Option<SdkPool>>)
    requires |sent| == |written| && forall i :: 0 <= i < |sent| ==> sent[i] == Some(PoolToSdk(written[i]))
    requires sent != [] ==> PoolsKept(sent, got)
    ensures PoolsAgree(written, ReadPools(got)) <==> PoolBlanksAgree(written, ReadPools(got))
  {
    if sent != [] {
      PresentAll(got);
      var read := ReadPools(got);
      forall i | 0 <= i < |written|
        ensures PoolToSdk(written[i]) == PoolToSdk(read[i]) <==>
                StaysBlank("", written[i].pool, read[i].pool) && StaysBlank(0, written[i].ratio, read[i].ratio)
      {
        assert read[i] == PoolFromSdk(got[i].value);
        assert PoolKept(sent[i].value, got[i].value);
      }
    }
  }

  /** What the user left blank and late-initialization does not fill is blank on the Grid too. */
  ghost predicate BlanksAgree(p: Params, rec: Record) {
    && (p.name.None? ==> StrOrEmpty(rec.name) == "") && (StrOrEmpty(p.lbMethod) == "" ==> rec.lbMethod == "")
    && (p.patterns == [] ==> rec.patterns == []) && PoolBlanksAgree(p.pools, ReadPools(rec.pools))
    && (p.authZones == [] ==> ReadZones(rec.authZones) == [])
  }

  /** After one update the next Observe reports up to date, if and only if no auth-zone reference is empty,
      the user's attributes do not use the reserved key, and what the user left blank is blank on the Grid. */
  lemma OneUpdateConverges(p: Params, uid: Uid, sent: Record, rec: Record)
    requires Sent(p, uid, sent) && Answered(sent, rec)
    ensures UpToDate(LateInit(p, rec), rec) <==> "" !in p.authZones && EA_KEY !in p.extAttrs && BlanksAgree(p, rec)
  {
    UpToDateAfterLateInit(p, rec);
    PoolsSettle(p.pools, sent.pools, rec.pools);
    ZonesSettle(p.authZones, sent.authZones, rec.authZones);
    StampedAttrsRoundTrip(p.extAttrs, uid, Built(p.extAttrs), ReadOf(Stripped(rec.ea)));
  }

  lemma ZonesSettle(refs: seq<string>, sent: seq<Option<SdkZone>>, answered: seq<Option<SdkZone>>)
    requires sent == WrapZones(refs) && (sent != [] ==> answered == sent)
    ensures refs == ReadZones(answered) <==> "" !in refs && (refs == [] ==> ReadZones(answered) == [])
  {
    AuthZonesRoundTrip(refs);
    NonEmptyFixed(MapSeq(RefOf, answered));
    NonEmptyFixed(refs);
  }

  /** Leaving a list empty does not clear it: against a Grid that keeps what is not sent, drift on it is
      reported after every update. */
  lemma EmptyPoolsDoNotClear(p: Params, uid: Uid, sent: Record, rec: Record)
    requires Sent(p, uid, sent) && p.pools == [] && ReadPools(rec.pools) != []
    ensures sent.pools == [] && !UpToDate(LateInit(p, rec), rec)
  {
    UpToDateAfterLateInit(p, rec);
  }
}
