/** One update converges: a server that stores what it is sent, may do anything with what it is not
    sent, and echoes arbitrary values for everything whose use flag is off
    (internal/controller/dnsview/controller.go: buildView, fieldsFromView, updateView, isUpToDate). */
module FieldConvergence {
  import opened Wrappers
  import opened Identity
  import opened NestedBags
  import opened FieldTables
  import opened WireItems

  /** Whether a field of the bag reaches the wire: nil pointers, empty lists and empty plain strings are
      omitted; the attribute map never is, because it is always stamped. */
  predicate Sends(k: Kind, v: Val) {
    match k
    case AttrMap => true
    case PlainStr => !Unset(v) && v != VStr(Some(""))
    case _ => !Unset(v)
  }

  /** The condition a user can check: no explicit zero (nor empty non-nil expression list) in a value
      compared by DeepEqual, and no use of the reserved attribute. */
  predicate Survives(v: Val) {
    match v
    case VAttrs(m) => EA_KEY !in m
    case VKeys(xs) => forall i :: 0 <= i < |xs| ==> PlainTrustedKey(xs[i])
    case VRrsets(xs) => forall i :: 0 <= i < |xs| ==> PlainFixedRrset(xs[i])
    case VSorts(xs) => forall i :: 0 <= i < |xs| ==> PlainSortEntry(xs[i])
    case VRate(r) => r.Some? ==> PlainRateLimit(r.value)
    case VScavenging(s) => s.Some? ==> PlainScavenging(s.value)
    case _ => true
  }

  // ---- what is read -----------------------------------------------------------------------------------

  /** FromSDK after ToSDK; attributes are stripped. */
  function Converted(v: Val): Val {
    match v
    case VAttrs(m) => VAttrs(m - {EA_KEY})
    case VServers(xs) => VServers(ConvertedNameServers(xs))
    case VAcls(xs) => VAcls(ConvertedAddressAcs(xs))
    case VKeys(xs) => VKeys(ConvertedTrustedKeys(xs))
    case VRrsets(xs) => VRrsets(ConvertedFixedRrsets(xs))
    case VSorts(xs) => VSorts(ConvertedSortEntries(xs))
    case VRate(r) => VRate(if r.None? then None else Some(RateLimitFromSdk(RateLimitToSdk(r.value))))
    case VScavenging(s) => VScavenging(if s.None? then None else Some(ScavengingFromSdk(ScavengingToSdk(s.value))))
    case _ => v
  }

  /** A value as an Observe finds it: something the Grid holds, read through FromSDK. */
  ghost predicate IsRead(k: Kind, v: Val) {
    exists w :: v == Converted(w) && (k == PlainStr ==> v != VStr(Some("")))
  }

  /** Whatever was read holds no explicit zero and no reserved attribute. */
  lemma ReadSurvives(w: Val)
    ensures Survives(Converted(w))
  {
    match w
    case VKeys(xs) => ReadListsArePlain(xs, [], []);
    case VRrsets(xs) => ReadListsArePlain([], xs, []);
    case VSorts(xs) => ReadListsArePlain([], [], xs);
    case VScavenging(s) => if s.Some? { ReadScavengingIsPlain(ScavengingToSdk(s.value)); }
    case _ =>
  }

  // ---- the server -----------------------------------------------------------------------------------

  /** The answer keeps what was sent; inside items, what was left blank may be anything. */
  predicate KeptIn(sent: Val, got: Val) {
    match (sent, got)
    case (VAttrs(m), VAttrs(n)) => n == m - {EA_KEY}
    case (VServers(x), VServers(y)) => |x| == |y| && forall i :: 0 <= i < |x| ==> NameServerKept(x[i], y[i])
    case (VAcls(x), VAcls(y)) => |x| == |y| && forall i :: 0 <= i < |x| ==> AddressAcKept(x[i], y[i])
    case (VKeys(x), VKeys(y)) => |x| == |y| && forall i :: 0 <= i < |x| ==> TrustedKeyKept(x[i], y[i])
    case (VRrsets(x), VRrsets(y)) => |x| == |y| && forall i :: 0 <= i < |x| ==> FixedRrsetKept(x[i], y[i])
    case (VSorts(x), VSorts(y)) => |x| == |y| && forall i :: 0 <= i < |x| ==> SortEntryKept(x[i], y[i])
    case (VRate(x), VRate(y)) => x.Some? ==> y.Some? && RateLimitKept(x.value, y.value)
    case (VScavenging(x), VScavenging(y)) => x.Some? ==> y.Some? && ScavengingKept(x.value, y.value)
    case _ => sent == got
  }

  /** What was left blank inside items is blank in the answer. */
  predicate BlanksAgree(sent: Val, got: Val) {
    match (sent, got)
    case (VServers(x), VServers(y)) => |x| == |y| && forall i :: 0 <= i < |x| ==> NameServerBlanks(x[i], y[i])
    case (VAcls(x), VAcls(y)) => |x| == |y| && forall i :: 0 <= i < |x| ==> AddressAcBlanks(x[i], y[i])
    case (VKeys(x), VKeys(y)) => |x| == |y| && forall i :: 0 <= i < |x| ==> TrustedKeyBlanks(x[i], y[i])
    case (VRrsets(x), VRrsets(y)) => |x| == |y| && forall i :: 0 <= i < |x| ==> FixedRrsetBlanks(x[i], y[i])
    case (VSorts(x), VSorts(y)) => |x| == |y| && forall i :: 0 <= i < |x| ==> SortEntryBlanks(x[i], y[i])
    case (VRate(x), VRate(y)) => x.Some? && y.Some? ==> RateLimitBlanks(x.value, y.value)
    case (VScavenging(x), VScavenging(y)) => x.Some? && y.Some? ==> ScavengingBlanks(x.value, y.value)
    case _ => true
  }

  lemma ItemwiseAnswers(sent: Val, got: Val)
    requires (sent.VServers? && got.VServers?) || (sent.VAcls? && got.VAcls?)
    requires KeptIn(sent, got)
    ensures Same(sent, got) <==> BlanksAgree(sent, got)
  {
    if sent.VServers? {
      forall i | 0 <= i < |sent.servers|
        ensures NameServerEqual(sent.servers[i], got.servers[i]) <==> NameServerBlanks(sent.servers[i], got.servers[i])
      {
        NameServerAgrees(sent.servers[i], got.servers[i]);
      }
    } else {
      forall i | 0 <= i < |sent.acls|
        ensures AddressAcEqual(sent.acls[i], got.acls[i]) <==> AddressAcBlanks(sent.acls[i], got.acls[i])
      {
        AddressAcAgrees(sent.acls[i], got.acls[i]);
      }
    }
  }

  lemma DeepListAnswers(sent: Val, got: Val)
    requires (sent.VKeys? && got.VKeys?) || (sent.VRrsets? && got.VRrsets?) || (sent.VSorts? && got.VSorts?)
    requires KeptIn(sent, got) && Survives(got)
    ensures Same(sent, got) <==> Survives(sent) && BlanksAgree(sent, got)
  {
    if sent.VKeys? {
      KeyAnswers(sent.keys, got.keys);
    } else if sent.VRrsets? {
      RrsetAnswers(sent.rrsets, got.rrsets);
    } else {
      SortAnswers(sent.sorts, got.sorts);
    }
  }

  lemma {:induction false} KeyAnswers(x: seq<TrustedKey>, y: seq<TrustedKey>)
    requires |x| == |y| && forall i :: 0 <= i < |x| ==> TrustedKeyKept(x[i], y[i]) && PlainTrustedKey(y[i])
    ensures x == y <==> forall i :: 0 <= i < |x| ==> PlainTrustedKey(x[i]) && TrustedKeyBlanks(x[i], y[i])
  {
    forall i | 0 <= i < |x|
      ensures x[i] == y[i] <==> PlainTrustedKey(x[i]) && TrustedKeyBlanks(x[i], y[i])
    {
      TrustedKeyAgrees(x[i], y[i]);
    }
  }

  lemma {:induction false} RrsetAnswers(x: seq<FixedRrset>, y: seq<FixedRrset>)
    requires |x| == |y| && forall i :: 0 <= i < |x| ==> FixedRrsetKept(x[i], y[i]) && PlainFixedRrset(y[i])
    ensures x == y <==> forall i :: 0 <= i < |x| ==> PlainFixedRrset(x[i]) && FixedRrsetBlanks(x[i], y[i])
  {
    forall i | 0 <= i < |x|
      ensures x[i] == y[i] <==> PlainFixedRrset(x[i]) && FixedRrsetBlanks(x[i], y[i])
    {
      FixedRrsetAgrees(x[i], y[i]);
    }
  }

  lemma {:induction false} SortAnswers(x: seq<SortEntry>, y: seq<SortEntry>)
    requires |x| == |y| && forall i :: 0 <= i < |x| ==> SortEntryKept(x[i], y[i]) && PlainSortEntry(y[i])
    ensures x == y <==> forall i :: 0 <= i < |x| ==> PlainSortEntry(x[i]) && SortEntryBlanks(x[i], y[i])
  {
    forall i | 0 <= i < |x|
      ensures x[i] == y[i] <==> PlainSortEntry(x[i]) && SortEntryBlanks(x[i], y[i])
    {
      SortEntryAgrees(x[i], y[i]);
    }
  }

  /** A value that was sent compares equal to its answer if and only if it survives and what it left blank
      inside items is blank on the Grid. */
  lemma AnswerIsSame(k: Kind, sent: Val, got: Val)
    requires HasKind(sent, k) && HasKind(got, k) && KeptIn(sent, got) && Survives(got) && !Unset(sent)
    ensures Same(sent, got) <==> Survives(sent) && BlanksAgree(sent, got)
  {
    match sent
    case VServers(_) => ItemwiseAnswers(sent, got);
    case VAcls(_) => ItemwiseAnswers(sent, got);
    case VKeys(_) => DeepListAnswers(sent, got);
    case VRrsets(_) => DeepListAnswers(sent, got);
    case VSorts(_) => DeepListAnswers(sent, got);
    case VRate(r) => RateLimitAgrees(r.value, got.rate.value);
    case VScavenging(s) => ScavengingAgrees(s.value, got.scavenging.value);
    case VAttrs(m) => assert m - {EA_KEY} == m <==> EA_KEY !in m;
    case _ =>
  }

  /** A nil and an empty match list are one and the same request, and whatever the Grid answers, at most
      one of the two ever compares equal to it. */
  lemma NilAndEmptyMatchLists(xs: seq<SortEntry>, i: nat, got: Val)
    requires i < |xs| && got.VSorts?
    ensures var absent := VSorts(xs[i := xs[i].(matchList := None)]);
            var empty := VSorts(xs[i := xs[i].(matchList := Some([]))]);
            && (KeptIn(absent, got) <==> KeptIn(empty, got))
            && !(Same(absent, got) && Same(empty, got)) && !(BlanksAgree(absent, got) && BlanksAgree(empty, got))
  {
    var absent, empty := xs[i := xs[i].(matchList := None)], xs[i := xs[i].(matchList := Some([]))];
    assert absent[i] != empty[i];
    if |got.sorts| == |xs| {
      assert SortEntryKept(absent[i], got.sorts[i]) <==> SortEntryKept(empty[i], got.sorts[i]);
      assert forall j :: 0 <= j < |xs| && j != i ==> absent[j] == empty[j];
      if KeptIn(VSorts(absent), got) {
        forall j | 0 <= j < |xs|
          ensures SortEntryKept(empty[j], got.sorts[j])
        {
          assert SortEntryKept(absent[j], got.sorts[j]);
        }
      }
      if KeptIn(VSorts(empty), got) {
        forall j | 0 <= j < |xs|
          ensures SortEntryKept(absent[j], got.sorts[j])
        {
          assert SortEntryKept(empty[j], got.sorts[j]);
        }
      }
      assert SortEntryBlanks(absent[i], got.sorts[i]) ==> got.sorts[i].matchList == None;
      assert SortEntryBlanks(empty[i], got.sorts[i]) ==> got.sorts[i].matchList == Some([]);
    }
  }

  /** An item's TSIG key name is only meaningful while its own use flag is on. */
  predicate ServerEchoed(stored: NameServer, echoed: NameServer) {
    echoed == stored.(tsigKeyName := echoed.tsigKeyName) &&
    (BoolOrFalse(stored.useTsigKeyName) ==> echoed == stored)
  }

  predicate AclEchoed(stored: AddressAc, echoed: AddressAc) {
    echoed == stored.(tsigKeyName := echoed.tsigKeyName) &&
    (BoolOrFalse(stored.useTsigKeyName) ==> echoed == stored)
  }

  predicate Echoed(stored: Val, echoed: Val) {
    match (stored, echoed)
    case (VServers(x), VServers(y)) => |x| == |y| && forall i :: 0 <= i < |x| ==> ServerEchoed(x[i], y[i])
    case (VAcls(x), VAcls(y)) => |x| == |y| && forall i :: 0 <= i < |x| ==> AclEchoed(x[i], y[i])
    case _ => stored == echoed
  }

  /** What the Grid holds afterwards reads back as something it was sent, for every field that was sent. */
  ghost predicate StoresWhatIsSent<F(!new)>(sch: Schema<F>, sent: Bag<F>, stored: Bag<F>)
    requires Typed(sch, sent) && Typed(sch, stored)
  {
    forall f :: Sends(sch(f).kind, sent[f]) ==> KeptIn(sent[f], stored[f]) && IsRead(sch(f).kind, stored[f])
  }

  ghost predicate Responds<F(!new)>(sch: Schema<F>, stored: Bag<F>, observed: Bag<F>)
    requires Typed(sch, stored) && Typed(sch, observed)
  {
    forall f :: sch(f).gate.None? || FlagOn(stored, sch(f).gate.value) ==> Echoed(stored[f], observed[f])
  }

  /** Late-initialization can fill everything but fields that the user always sets. */
  ghost predicate RequiredAreSet<F(!new)>(sch: Schema<F>, desired: Bag<F>)
    requires Typed(sch, desired)
  {
    forall f :: !sch(f).lateInit ==> !Unset(desired[f])
  }

  // ---- convergence ------------------------------------------------------------------------------------

  /** The flag that gates a field is on in the next late-initialized bag exactly when the server has it on. */
  lemma FlagReachesServer<F(!new)>(sch: Schema<F>, sent: Bag<F>, stored: Bag<F>, observed: Bag<F>, f: F)
    requires GatesAreFlags(sch) && Typed(sch, sent) && Typed(sch, stored) && Typed(sch, observed)
    requires StoresWhatIsSent(sch, sent, stored) && Responds(sch, stored, observed)
    ensures sch(f).gate.Some? ==> FlagOn(stored, sch(f).gate.value) == EffectiveFlag(sent, observed, sch(f).gate.value)
  {
    if sch(f).gate.Some? {
      var g := sch(f).gate.value;
      assert Echoed(stored[g], observed[g]);
      assert Sends(sch(g).kind, sent[g]) <==> !Unset(sent[g]);
    }
  }

  lemma EchoedIsSame(stored: Val, echoed: Val)
    requires Echoed(stored, echoed)
    ensures Same(stored, echoed)
  {
  }

  /** What the Grid does with a TSIG key name under a flag that is off does not matter. */
  lemma EchoedBlanks(sent: Val, stored: Val, echoed: Val)
    requires KeptIn(sent, stored) && Echoed(stored, echoed)
    ensures BlanksAgree(sent, stored) <==> BlanksAgree(sent, echoed)
  {
    match (sent, stored, echoed)
    case (VServers(x), VServers(y), VServers(z)) =>
      forall i | 0 <= i < |x|
        ensures NameServerBlanks(x[i], y[i]) <==> NameServerBlanks(x[i], z[i])
      {
        assert ServerEchoed(y[i], z[i]) && NameServerKept(x[i], y[i]);
      }
    case (VAcls(x), VAcls(y), VAcls(z)) =>
      forall i | 0 <= i < |x|
        ensures AddressAcBlanks(x[i], y[i]) <==> AddressAcBlanks(x[i], z[i])
      {
        assert AclEchoed(y[i], z[i]) && AddressAcKept(x[i], y[i]);
      }
    case _ =>
  }

  lemma SentFieldSettles<F(!new)>(sch: Schema<F>, sent: Bag<F>, stored: Bag<F>, observed: Bag<F>, f: F)
    requires GatesAreFlags(sch) && Typed(sch, sent) && Typed(sch, stored) && Typed(sch, observed)
    requires StoresWhatIsSent(sch, sent, stored) && Responds(sch, stored, observed)
    requires GateOpen(sch, f, sent, observed) && Sends(sch(f).kind, sent[f]) && !Unset(sent[f])
    ensures Same(sent[f], observed[f]) <==> Survives(sent[f]) && BlanksAgree(sent[f], observed[f])
  {
    FlagReachesServer(sch, sent, stored, observed, f);
    var w :| stored[f] == Converted(w);
    ReadSurvives(w);
    EchoedIsSame(stored[f], observed[f]);
    EchoedBlanks(sent[f], stored[f], observed[f]);
    AnswerIsSame(sch(f).kind, sent[f], stored[f]);
    SameIsEquivalence(sent[f], stored[f], observed[f], sch(f).kind);
    SameIsEquivalence(stored[f], observed[f], stored[f], sch(f).kind);
    SameIsEquivalence(sent[f], observed[f], stored[f], sch(f).kind);
  }

  /** An empty plain string is never sent, so it agrees only with what the Grid happens to hold; any other
      value settles if it survives and the Grid leaves its blanks blank. */
  predicate Settles(k: Kind, v: Val, observed: Val) {
    if k == PlainStr && v == VStr(Some("")) then Unset(observed) || observed == VStr(Some(""))
    else Survives(v) && BlanksAgree(v, observed)
  }

  /** After the update, the next Observe (late-initialization included) finds the resource up to date if
      and only if every field the user has set, whose effective gate is on or absent, settles. */
  lemma UpdateSettlesExactly<F(!new)>(sch: Schema<F>, sent: Bag<F>, stored: Bag<F>, observed: Bag<F>, next: Bag<F>)
    requires GatesAreFlags(sch) && Typed(sch, sent) && Typed(sch, stored) && Typed(sch, observed) && Typed(sch, next)
    requires StoresWhatIsSent(sch, sent, stored) && Responds(sch, stored, observed)
    requires LateInitOf(sch, sent, observed, next)
    requires RequiredAreSet(sch, sent)
    ensures UpToDate(sch, next, observed) <==>
            forall f :: GateOpen(sch, f, sent, observed) && !Unset(sent[f]) ==>
                          Settles(sch(f).kind, sent[f], observed[f])
  {
    UpToDateAfterLateInit(sch, sent, observed, next);
    forall f | GateOpen(sch, f, sent, observed) && !Unset(sent[f])
      ensures Same(sent[f], observed[f]) <==> Settles(sch(f).kind, sent[f], observed[f])
    {
      SetFieldSettles(sch, sent, stored, observed, f);
    }
  }

  lemma SetFieldSettles<F(!new)>(sch: Schema<F>, sent: Bag<F>, stored: Bag<F>, observed: Bag<F>, f: F)
    requires GatesAreFlags(sch) && Typed(sch, sent) && Typed(sch, stored) && Typed(sch, observed)
    requires StoresWhatIsSent(sch, sent, stored) && Responds(sch, stored, observed)
    requires GateOpen(sch, f, sent, observed) && !Unset(sent[f])
    ensures Same(sent[f], observed[f]) <==> Settles(sch(f).kind, sent[f], observed[f])
  {
    if Sends(sch(f).kind, sent[f]) {
      SentFieldSettles(sch, sent, stored, observed, f);
    } else {
      UnsentAgrees(sch(f).kind, sent[f], observed[f]);
    }
  }

  lemma UnsentAgrees(k: Kind, v: Val, observed: Val)
    requires HasKind(v, k) && HasKind(observed, k) && !Sends(k, v) && !Unset(v)
    ensures Same(v, observed) <==> Settles(k, v, observed)
  {
  }

  /** A whole cycle: Observe against any earlier state, late-initialize, update, Observe again.  What the user
      wrote has to settle; of what the first Observe filled in, only the blanks have to stay blank. */
  lemma OneUpdateConverges<F(!new)>(sch: Schema<F>, spec: Bag<F>, first: Bag<F>, sent: Bag<F>, stored: Bag<F>,
                                    observed: Bag<F>, next: Bag<F>)
    requires GatesAreFlags(sch) && Typed(sch, spec) && Typed(sch, first) && Typed(sch, sent)
    requires Typed(sch, stored) && Typed(sch, observed) && Typed(sch, next)
    requires LateInitOf(sch, spec, first, sent) && forall f :: IsRead(sch(f).kind, first[f])
    requires StoresWhatIsSent(sch, sent, stored) && Responds(sch, stored, observed)
    requires LateInitOf(sch, sent, observed, next)
    requires RequiredAreSet(sch, spec)
    ensures UpToDate(sch, next, observed) <==>
            forall f :: GateOpen(sch, f, sent, observed) && !Unset(sent[f]) ==>
                          if Unset(spec[f]) then BlanksAgree(first[f], observed[f])
                          else Settles(sch(f).kind, spec[f], observed[f])
  {
    forall f | !Unset(sent[f])
      ensures Settles(sch(f).kind, sent[f], observed[f]) <==>
              if Unset(spec[f]) then BlanksAgree(first[f], observed[f]) else Settles(sch(f).kind, spec[f], observed[f])
    {
      FilledSettles(sch, spec, first, sent, observed, f);
    }
    UpdateSettlesExactly(sch, sent, stored, observed, next);
  }

  lemma FilledSettles<F(!new)>(sch: Schema<F>, spec: Bag<F>, first: Bag<F>, sent: Bag<F>, observed: Bag<F>, f: F)
    requires Typed(sch, spec) && Typed(sch, first) && Typed(sch, sent) && Typed(sch, observed) && !Unset(sent[f])
    requires LateInitOf(sch, spec, first, sent) && IsRead(sch(f).kind, first[f])
    ensures Settles(sch(f).kind, sent[f], observed[f]) <==>
            if Unset(spec[f]) then BlanksAgree(first[f], observed[f]) else Settles(sch(f).kind, spec[f], observed[f])
  {
    var w :| first[f] == Converted(w);
    ReadSurvives(w);
    assert sch(f).lateInit ==> sent[f] == Filled(sch, f, spec, first);
  }

  /** An empty plain string keeps its row different for exactly as long as the Grid holds a non-empty value
      and the gate is on. */
  lemma EmptyPlainStringSettlesExactly<F(!new)>(sch: Schema<F>, sent: Bag<F>, observed: Bag<F>, next: Bag<F>, f: F)
    requires GatesAreFlags(sch) && Typed(sch, sent) && Typed(sch, observed) && Typed(sch, next)
    requires LateInitOf(sch, sent, observed, next)
    requires sch(f).kind == PlainStr && sent[f] == VStr(Some("")) && GateOpen(sch, f, sent, observed)
    ensures !Sends(sch(f).kind, sent[f])
    ensures RowEqual(sch, f, next, observed) <==> Unset(observed[f]) || observed[f] == VStr(Some(""))
    ensures UpToDate(sch, next, observed) ==> Unset(observed[f]) || observed[f] == VStr(Some(""))
  {
    FlagAfterLateInit(sch, sent, observed, next, f);
    assert next[f] == sent[f];
    if UpToDate(sch, next, observed) {
      assert RowEqual(sch, f, next, observed);
    }
  }
}
