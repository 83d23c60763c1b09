/** The decorator on a DNSView: substitution of whole fields and of the one nested leaf among the ignore paths,
    and the decorated verdict on the real tables
    (internal/driftdetection/driftdetection.go:381-562; internal/controller/dnsview/cluster.go:101-131). */
module DriftView {
  import opened Wrappers
  import opened Identity
  import opened IgnorePaths
  import opened NestedBags
  import opened FieldTables
  import opened FieldConvergence
  import opened DriftTables
  import DnsView

  // ---- the nested leaf ----------------------------------------------------------------------------

  const BLANK_SCHEDULE := Schedule(None, None, None, None, None, None, None, None, None, None, None, None)
  const BLANK_SETTINGS := Scavenging(None, None, None, None, None, None, None, None, None)

  /** scavengingSettings.scavengingSchedule.disable, if all of it is there. */
  function LeafOf(v: Val): Option<bool> {
    if v.VScavenging? && v.scavenging.Some? && v.scavenging.value.schedule.Some?
    then v.scavenging.value.schedule.value.disable else None
  }

  /** The leaf written over; absent parents are created. */
  function WithLeaf(v: Val, d: bool): Val {
    if !v.VScavenging? then v
    else
      var settings := v.scavenging.GetOr(BLANK_SETTINGS);
      var schedule := settings.schedule.GetOr(BLANK_SCHEDULE);
      VScavenging(Some(settings.(schedule := Some(schedule.(disable := Some(d))))))
  }

  /** Writing the leaf sets it, changes nothing else, and changes nothing at all where it was so already. */
  lemma LeafIsWritten(v: Val, d: bool, e: bool)
    requires v.VScavenging?
    ensures LeafOf(WithLeaf(v, d)) == Some(d)
    ensures WithLeaf(WithLeaf(v, d), e) == WithLeaf(v, e)
    ensures LeafOf(v) == Some(d) <==> WithLeaf(v, d) == v
  {
  }

  /** A view's schedule that is not disabled reads as one without the leaf: an owner's false is never seen. */
  lemma FalseReadsAsNil(v: Val)
    requires IsRead(ScavengingPtr, v)
    ensures LeafOf(v) != Some(false)
  {
    var w :| v == Converted(w);
    ReadSurvives(w);
  }

  // ---- substitution -------------------------------------------------------------------------------

  /** The rows that an ignore path reaches, in any schema that has them. */
  datatype Names<F> = Names(comment: F, disable: F, attrs: F, settings: F)

  ghost predicate Fits<F(!new)>(sch: Schema<F>, n: Names<F>) {
    && GatesAreFlags(sch)
    && sch(n.comment) == Spec(PtrStr, None, true) && sch(n.disable) == Spec(PtrBool, None, true)
    && sch(n.attrs) == Spec(AttrMap, None, true) && sch(n.settings).kind == ScavengingPtr
    && (forall g :: sch(g).gate.Some? ==> sch(g).gate.value !in {n.comment, n.disable, n.attrs, n.settings})
  }

  /** The path is ignored, and the mirror has a value for it; attributes are never omitted from the mirror. */
  predicate HandedOver<F(==)>(n: Names<F>, ignored: set<IgnorePath>, mirror: Bag<F>, f: F) {
    && f in mirror
    && ((f == n.comment && CommentPath in ignored && !Unset(mirror[f]))
        || (f == n.disable && DisablePath in ignored && !Unset(mirror[f]))
        || (f == n.attrs && ExtAttrsPath in ignored)
        || (f == n.settings && ScheduleDisablePath in ignored && LeafOf(mirror[f]).Some?))
  }

  function Written<F(==)>(n: Names<F>, q: Bag<F>, mirror: Bag<F>, f: F): Val
    requires f in q && f in mirror
  {
    if f == n.settings && LeafOf(mirror[f]).Some? then WithLeaf(q[f], LeafOf(mirror[f]).value) else mirror[f]
  }

  /** What substitution writes, row by row. */
  ghost predicate IsOverlay<F(!new)>(n: Names<F>, ignored: set<IgnorePath>, q: Bag<F>, mirror: Bag<F>, over: Bag<F>) {
    forall f :: f in q && f in mirror && (f in over <==> HandedOver(n, ignored, mirror, f)) &&
                (f in over ==> over[f] == Written(n, q, mirror, f))
  }

  method MakeShadow<F(!new,==)>(n: Names<F>, q: Bag<F>, mirror: Bag<F>, ignored: set<IgnorePath>)
    returns (shadow: Bag<F>, over: Bag<F>)
    requires forall f :: f in q && f in mirror
    requires n.settings !in {n.comment, n.disable, n.attrs}
    ensures IsOverlay(n, ignored, q, mirror, over) && IsShadow(q, over, shadow)
  {
    over := map[];
    if CommentPath in ignored && !Unset(mirror[n.comment]) {
      over := over[n.comment := mirror[n.comment]];
    }
    if DisablePath in ignored && !Unset(mirror[n.disable]) {
      over := over[n.disable := mirror[n.disable]];
    }
    if ExtAttrsPath in ignored {
      over := over[n.attrs := mirror[n.attrs]];
    }
    if ScheduleDisablePath in ignored && LeafOf(mirror[n.settings]).Some? {
      over := over[n.settings := WithLeaf(q[n.settings], LeafOf(mirror[n.settings]).value)];
    }
    shadow := q + over;
  }

  // ---- the verdict ----------------------------------------------------------------------------------

  /** A row agrees as it is (or is closed), or is excused as a whole, or agrees once its leaf is written. */
  ghost predicate RowExcused<F(!new)>(sch: Schema<F>, n: Names<F>, q: Bag<F>, observed: Bag<F>, mirror: Bag<F>,
                                      ignored: set<IgnorePath>, f: F)
    requires Typed(sch, q) && Typed(sch, observed) && Typed(sch, mirror)
  {
    || RowEqual(sch, f, q, observed)
    || (HandedOver(n, ignored, mirror, f) && (f == n.settings ==> Same(Written(n, q, mirror, f), observed[f])))
  }

  predicate StampShows<F(==)>(n: Names<F>, mirror: Bag<F>, ignored: set<IgnorePath>) {
    ExtAttrsPath in ignored && n.attrs in mirror && mirror[n.attrs].VAttrs? && EA_KEY in mirror[n.attrs].attrs
  }

  lemma SettingsRow<F(!new)>(sch: Schema<F>, n: Names<F>, observed: Bag<F>, q: Bag<F>, mirror: Bag<F>,
                             ignored: set<IgnorePath>, over: Bag<F>)
    requires Fits(sch, n) && Typed(sch, observed) && Typed(sch, q) && Typed(sch, mirror)
    requires LateInitOf(sch, q, observed, q) && Mirrors(sch, observed, mirror)
    requires IsOverlay(n, ignored, q, mirror, over) && n.settings in over
    ensures RowAgrees(sch, q, observed, over, n.settings) <==>
            RowExcused(sch, n, q, observed, mirror, ignored, n.settings)
  {
    var f := n.settings;
    FlagAfterLateInit(sch, q, observed, q, f);
    assert HasKind(q[f], sch(f).kind) && HasKind(observed[f], sch(f).kind) && mirror[f] == observed[f];
    assert HandedOver(n, ignored, mirror, f);
    var leaf := LeafOf(mirror[f]).value;
    LeafIsWritten(q[f], leaf, leaf);
    assert !Unset(over[f]) && over[f] == WithLeaf(q[f], leaf);
  }

  lemma WholeRow<F(!new)>(sch: Schema<F>, n: Names<F>, observed: Bag<F>, q: Bag<F>, mirror: Bag<F>,
                          ignored: set<IgnorePath>, over: Bag<F>, f: F)
    requires Fits(sch, n) && Typed(sch, observed) && Typed(sch, q) && Typed(sch, mirror)
    requires Mirrors(sch, observed, mirror) && IsOverlay(n, ignored, q, mirror, over) && f in over && f != n.settings
    ensures RowAgrees(sch, q, observed, over, f) <==> !(f == n.attrs && StampShows(n, mirror, ignored))
  {
    MirroredRow(sch, observed, mirror, f);
    assert HandedOver(n, ignored, mirror, f) && over[f] == mirror[f];
    assert HasKind(mirror[f], sch(f).kind);
    assert mirror[f].VAttrs? && EA_KEY in mirror[f].attrs ==> !Unset(mirror[f]);
  }

  lemma RowVerdict<F(!new)>(sch: Schema<F>, n: Names<F>, observed: Bag<F>, q: Bag<F>, mirror: Bag<F>,
                            ignored: set<IgnorePath>, over: Bag<F>, f: F)
    requires Fits(sch, n) && Typed(sch, observed) && Typed(sch, q) && Typed(sch, mirror)
    requires LateInitOf(sch, q, observed, q) && Mirrors(sch, observed, mirror)
    requires IsOverlay(n, ignored, q, mirror, over)
    ensures RowAgrees(sch, q, observed, over, f) <==>
            !(f == n.attrs && StampShows(n, mirror, ignored)) && RowExcused(sch, n, q, observed, mirror, ignored, f)
  {
    assert f in over <==> HandedOver(n, ignored, mirror, f);
    if f == n.settings && f in over {
      SettingsRow(sch, n, observed, q, mirror, ignored, over);
      assert n.settings != n.attrs;
    } else if f in over {
      WholeRow(sch, n, observed, q, mirror, ignored, over, f);
    } else {
      assert f == n.attrs ==> ExtAttrsPath !in ignored;
    }
  }

  ghost predicate AllExcused<F(!new)>(sch: Schema<F>, n: Names<F>, q: Bag<F>, observed: Bag<F>, mirror: Bag<F>,
                                      ignored: set<IgnorePath>)
    requires Typed(sch, q) && Typed(sch, observed) && Typed(sch, mirror)
  {
    forall f :: RowExcused(sch, n, q, observed, mirror, ignored, f)
  }

  lemma RowsTogether<F(!new)>(sch: Schema<F>, n: Names<F>, observed: Bag<F>, q: Bag<F>, mirror: Bag<F>,
                              ignored: set<IgnorePath>, over: Bag<F>)
    requires Typed(sch, observed) && Typed(sch, q) && Typed(sch, mirror)
    requires forall f ::
               RowAgrees(sch, q, observed, over, f) <==>
               !(f == n.attrs && StampShows(n, mirror, ignored)) && RowExcused(sch, n, q, observed, mirror, ignored, f)
    ensures (forall f :: RowAgrees(sch, q, observed, over, f)) <==>
            !StampShows(n, mirror, ignored) && AllExcused(sch, n, q, observed, mirror, ignored)
  {
    if forall f :: RowAgrees(sch, q, observed, over, f) {
      assert RowAgrees(sch, q, observed, over, n.attrs);
      forall f
        ensures RowExcused(sch, n, q, observed, mirror, ignored, f)
      {
        assert RowAgrees(sch, q, observed, over, f);
      }
    }
  }

  lemma OverlayHasNoFlags<F(!new)>(sch: Schema<F>, n: Names<F>, ignored: set<IgnorePath>, q: Bag<F>, mirror: Bag<F>,
                                   over: Bag<F>)
    requires Fits(sch, n) && IsOverlay(n, ignored, q, mirror, over)
    ensures NoFlags(sch, over)
  {
    forall f, g | f in over
      ensures sch(g).gate != Some(f)
    {
      assert HandedOver(n, ignored, mirror, f);
    }
  }

  /** The verdict on the shadow. */
  lemma ShadowExcuses<F(!new)>(sch: Schema<F>, n: Names<F>, desired: Bag<F>, observed: Bag<F>, q: Bag<F>,
                               mirror: Bag<F>,
                               ignored: set<IgnorePath>, over: Bag<F>, shadow: Bag<F>, again: Bag<F>)
    requires Fits(sch, n) && Typed(sch, desired) && Typed(sch, observed) && Typed(sch, q) && Typed(sch, mirror)
    requires Typed(sch, shadow) && Typed(sch, again)
    requires LateInitOf(sch, desired, observed, q) && Mirrors(sch, observed, mirror)
    requires IsOverlay(n, ignored, q, mirror, over) && IsShadow(q, over, shadow)
    requires LateInitOf(sch, shadow, observed, again)
    ensures UpToDate(sch, again, observed) <==>
            !StampShows(n, mirror, ignored) && AllExcused(sch, n, q, observed, mirror, ignored)
  {
    OverlayHasNoFlags(sch, n, ignored, q, mirror, over);
    ShadowVerdict(sch, desired, observed, q, over, shadow, again);
    Settled(sch, desired, observed, q);
    forall f
      ensures RowAgrees(sch, q, observed, over, f) <==>
              !(f == n.attrs && StampShows(n, mirror, ignored)) && RowExcused(sch, n, q, observed, mirror, ignored, f)
    {
      RowVerdict(sch, n, observed, q, mirror, ignored, over, f);
    }
    RowsTogether(sch, n, observed, q, mirror, ignored, over);
  }

  lemma WholeIsExcused<F(!new)>(sch: Schema<F>, n: Names<F>, q: Bag<F>, observed: Bag<F>, mirror: Bag<F>,
                                ignored: set<IgnorePath>)
    requires Typed(sch, q) && Typed(sch, observed) && Typed(sch, mirror) && UpToDate(sch, q, observed)
    ensures AllExcused(sch, n, q, observed, mirror, ignored)
  {
    forall f
      ensures RowExcused(sch, n, q, observed, mirror, ignored, f)
    {
      assert RowEqual(sch, f, q, observed);
    }
  }

  /** The decorated verdict; an adopted object is never up to date.  Once attributes that show the identity
      attribute are ignored, nothing is excused; otherwise exactly every row has to be excused. */
  lemma DecoratedVerdict<F(!new)>(sch: Schema<F>, n: Names<F>, desired: Bag<F>, observed: Bag<F>, q: Bag<F>,
                                  mirror: Bag<F>,
                                  ignored: set<IgnorePath>, over: Bag<F>, shadow: Bag<F>, again: Bag<F>, adopted: bool)
    requires Fits(sch, n) && Typed(sch, desired) && Typed(sch, observed) && Typed(sch, q) && Typed(sch, mirror)
    requires Typed(sch, shadow) && Typed(sch, again)
    requires LateInitOf(sch, desired, observed, q) && Mirrors(sch, observed, mirror)
    requires IsOverlay(n, ignored, q, mirror, over) && IsShadow(q, over, shadow)
    requires LateInitOf(sch, shadow, observed, again)
    ensures var verdict := (UpToDate(sch, q, observed) && !adopted) || (UpToDate(sch, again, observed) && !adopted);
            if StampShows(n, mirror, ignored) then verdict <==> !adopted && UpToDate(sch, q, observed)
            else verdict <==> !adopted && AllExcused(sch, n, q, observed, mirror, ignored)
  {
    ShadowExcuses(sch, n, desired, observed, q, mirror, ignored, over, shadow, again);
    if UpToDate(sch, q, observed) {
      WholeIsExcused(sch, n, q, observed, mirror, ignored);
    }
  }

  lemma UnseenLeafRow<F(!new)>(sch: Schema<F>, n: Names<F>, observed: Bag<F>, q: Bag<F>, mirror: Bag<F>,
                               ignored: set<IgnorePath>)
    requires Fits(sch, n) && Typed(sch, observed) && Typed(sch, q) && Typed(sch, mirror)
    requires LateInitOf(sch, q, observed, q) && Mirrors(sch, observed, mirror)
    requires LeafOf(observed[n.settings]).None? && LeafOf(q[n.settings]).Some? && GateOpen(sch, n.settings, q, observed)
    ensures !HandedOver(n, ignored, mirror, n.settings)
    ensures !RowExcused(sch, n, q, observed, mirror, ignored, n.settings)
  {
    var f := n.settings;
    FlagAfterLateInit(sch, q, observed, q, f);
    assert HasKind(q[f], sch(f).kind) && HasKind(observed[f], sch(f).kind) && mirror[f] == observed[f];
    assert q[f] != observed[f];
  }

  lemma UnseenLeaf<F(!new)>(sch: Schema<F>, n: Names<F>, desired: Bag<F>, observed: Bag<F>, q: Bag<F>, mirror: Bag<F>,
                            ignored: set<IgnorePath>)
    requires Fits(sch, n) && Typed(sch, desired) && Typed(sch, observed) && Typed(sch, q) && Typed(sch, mirror)
    requires LateInitOf(sch, desired, observed, q) && Mirrors(sch, observed, mirror)
    requires LeafOf(observed[n.settings]).None? && LeafOf(q[n.settings]).Some? && GateOpen(sch, n.settings, q, observed)
    ensures !HandedOver(n, ignored, mirror, n.settings) && !AllExcused(sch, n, q, observed, mirror, ignored)
  {
    Settled(sch, desired, observed, q);
    UnseenLeafRow(sch, n, observed, q, mirror, ignored);
  }

  /** The update's request says that the schedule is disabled. */
  predicate SendsTrue(v: Val) {
    && v.VScavenging? && v.scavenging.Some?
    && var sdk := ScavengingToSdk(v.scavenging.value); sdk.schedule.Some? && sdk.schedule.value.disable
  }

  lemma UnseenLeafPayload<F(!new)>(n: Names<F>, q: Bag<F>, mirror: Bag<F>, ignored: set<IgnorePath>, over: Bag<F>,
                                   shadow: Bag<F>)
    requires IsOverlay(n, ignored, q, mirror, over) && IsShadow(q, over, shadow)
    requires !HandedOver(n, ignored, mirror, n.settings) && LeafOf(q[n.settings]) == Some(true)
    ensures shadow[n.settings] == q[n.settings]
    ensures SendsTrue(shadow[n.settings])
  {
    assert n.settings !in over;
  }

  lemma NotExcusedIsDrift<F(!new)>(sch: Schema<F>, n: Names<F>, desired: Bag<F>, observed: Bag<F>, q: Bag<F>,
                                   mirror: Bag<F>,
                                   ignored: set<IgnorePath>, over: Bag<F>, shadow: Bag<F>, again: Bag<F>, adopted: bool)
    requires Fits(sch, n) && Typed(sch, desired) && Typed(sch, observed) && Typed(sch, q) && Typed(sch, mirror)
    requires Typed(sch, shadow) && Typed(sch, again)
    requires LateInitOf(sch, desired, observed, q) && Mirrors(sch, observed, mirror)
    requires IsOverlay(n, ignored, q, mirror, over) && IsShadow(q, over, shadow)
    requires LateInitOf(sch, shadow, observed, again)
    requires !AllExcused(sch, n, q, observed, mirror, ignored)
    ensures !((UpToDate(sch, q, observed) && !adopted) || (UpToDate(sch, again, observed) && !adopted))
  {
    ShadowExcuses(sch, n, desired, observed, q, mirror, ignored, over, shadow, again);
    if UpToDate(sch, q, observed) {
      WholeIsExcused(sch, n, q, observed, mirror, ignored);
    }
  }

  /** An owner's false is never seen (it reads as nil), so while the gate is on, a spec that says true reports
      drift at every Observe, and what an update sends says true. */
  lemma OwnersFalseIsOverruled<F(!new)>(sch: Schema<F>, n: Names<F>, desired: Bag<F>, observed: Bag<F>, q: Bag<F>,
                                        mirror: Bag<F>,
                                        ignored: set<IgnorePath>, over: Bag<F>, shadow: Bag<F>, again: Bag<F>,
                                        adopted: bool)
    requires Fits(sch, n) && Typed(sch, desired) && Typed(sch, observed) && Typed(sch, q) && Typed(sch, mirror)
    requires Typed(sch, shadow) && Typed(sch, again)
    requires LateInitOf(sch, desired, observed, q) && Mirrors(sch, observed, mirror)
    requires IsOverlay(n, ignored, q, mirror, over) && IsShadow(q, over, shadow)
    requires LateInitOf(sch, shadow, observed, again)
    requires LeafOf(observed[n.settings]).None?
    requires LeafOf(q[n.settings]) == Some(true) && GateOpen(sch, n.settings, q, observed)
    ensures !((UpToDate(sch, q, observed) && !adopted) || (UpToDate(sch, again, observed) && !adopted))
    ensures shadow[n.settings] == q[n.settings]
    ensures SendsTrue(shadow[n.settings])
  {
    UnseenLeaf(sch, n, desired, observed, q, mirror, ignored);
    UnseenLeafPayload(n, q, mirror, ignored, over, shadow);
    NotExcusedIsDrift(sch, n, desired, observed, q, mirror, ignored, over, shadow, again, adopted);
  }

  /** What a decorated update sends: the owner's value for every row or leaf that was handed over, the rest of
      the settings and every other row as in the spec. */
  lemma OwnersValuesAreSentBack<F(!new)>(sch: Schema<F>, n: Names<F>, q: Bag<F>, mirror: Bag<F>,
                                         ignored: set<IgnorePath>,
                                         over: Bag<F>, shadow: Bag<F>)
    requires Fits(sch, n) && Typed(sch, q) && Typed(sch, mirror)
    requires IsOverlay(n, ignored, q, mirror, over) && IsShadow(q, over, shadow)
    ensures forall f :: !HandedOver(n, ignored, mirror, f) ==> shadow[f] == q[f]
    ensures forall f :: HandedOver(n, ignored, mirror, f) && f != n.settings ==> shadow[f] == mirror[f]
    ensures HandedOver(n, ignored, mirror, n.settings) ==>
              && LeafOf(shadow[n.settings]) == LeafOf(mirror[n.settings])
              && forall d :: WithLeaf(shadow[n.settings], d) == WithLeaf(q[n.settings], d)
  {
    assert HasKind(q[n.settings], sch(n.settings).kind);
    if HandedOver(n, ignored, mirror, n.settings) {
      var leaf := LeafOf(mirror[n.settings]).value;
      LeafIsWritten(q[n.settings], leaf, leaf);
      forall d
        ensures WithLeaf(shadow[n.settings], d) == WithLeaf(q[n.settings], d)
      {
        LeafIsWritten(q[n.settings], leaf, d);
      }
    }
  }

  // ---- the real tables ------------------------------------------------------------------------------

  const VIEW_NAMES := Names(DnsView.Comment, DnsView.Disable, DnsView.ExtAttrs, DnsView.ScavengingSettings)

  lemma CommentRow()
    ensures DnsView.KindOf(DnsView.Comment) == PtrStr && DnsView.GateEntry(DnsView.Comment) == None
  {
  }

  lemma DisableRow()
    ensures DnsView.KindOf(DnsView.Disable) == PtrBool && DnsView.GateEntry(DnsView.Disable) == None
  {
  }

  lemma ExtAttrsKind()
    ensures DnsView.KindOf(DnsView.ExtAttrs) == AttrMap
  {
  }

  lemma ExtAttrsGate()
    ensures DnsView.GateEntry(DnsView.ExtAttrs) == None
  {
    ExtAttrsGroups();
  }

  lemma ExtAttrsGroups()
    ensures DnsView.UpdateGate(DnsView.ExtAttrs).None? && DnsView.ResolverGate(DnsView.ExtAttrs).None?
    ensures DnsView.PolicyGate(DnsView.ExtAttrs).None?
  {
  }

  lemma SettingsKind()
    ensures DnsView.KindOf(DnsView.ScavengingSettings) == ScavengingPtr
  {
  }

  lemma SettingsGate()
    ensures DnsView.GateEntry(DnsView.ScavengingSettings) == Some(DnsView.UseScavengingSettings)
  {
    assert DnsView.UpdateGate(DnsView.ScavengingSettings).None?;
    assert DnsView.ResolverGate(DnsView.ScavengingSettings).None?;
  }

  lemma NoUseFlags()
    ensures !DnsView.IsUseFlag(DnsView.Comment) && !DnsView.IsUseFlag(DnsView.Disable)
    ensures !DnsView.IsUseFlag(DnsView.ExtAttrs) && !DnsView.IsUseFlag(DnsView.ScavengingSettings)
  {
  }

  lemma RowOf(f: DnsView.Field)
    requires !DnsView.IsUseFlag(f) && f != DnsView.Name
    ensures DnsView.DnsViewSpec(f) == Spec(DnsView.KindOf(f), DnsView.GateEntry(f), true)
  {
  }

  /** The tables of a DNSView have these rows, the scavenging settings under their own use flag, so the
      verdict, the owner's false and the payload are as above for every ignore list it accepts. */
  lemma ViewFits()
    ensures Fits(DnsView.DnsViewSpec, VIEW_NAMES)
    ensures DnsView.DnsViewSpec(DnsView.ScavengingSettings).gate == Some(DnsView.UseScavengingSettings)
  {
    DnsView.GatesWellFormed();
    CommentRow();
    DisableRow();
    ExtAttrsKind();
    ExtAttrsGate();
    SettingsKind();
    SettingsGate();
    NoUseFlags();
    RowOf(DnsView.Comment);
    RowOf(DnsView.Disable);
    RowOf(DnsView.ExtAttrs);
    RowOf(DnsView.ScavengingSettings);
    forall g: DnsView.Field | DnsView.DnsViewSpec(g).gate.Some?
      ensures DnsView.IsUseFlag(DnsView.DnsViewSpec(g).gate.value)
    {
      assert DnsView.DnsViewSpec(g).gate == DnsView.GateOf(g);
    }
  }

  type View = Bag<DnsView.Field>

  lemma DecoratedViewVerdict(desired: View, observed: View, q: View, mirror: View, ignored: set<IgnorePath>,
                             over: View, shadow: View, again: View, adopted: bool)
    requires Typed(DnsView.DnsViewSpec, desired) && Typed(DnsView.DnsViewSpec, observed)
    requires Typed(DnsView.DnsViewSpec, q)
    requires Typed(DnsView.DnsViewSpec, mirror) && Typed(DnsView.DnsViewSpec, shadow)
    requires Typed(DnsView.DnsViewSpec, again)
    requires LateInitOf(DnsView.DnsViewSpec, desired, observed, q) && Mirrors(DnsView.DnsViewSpec, observed, mirror)
    requires IsOverlay(VIEW_NAMES, ignored, q, mirror, over) && IsShadow(q, over, shadow)
    requires LateInitOf(DnsView.DnsViewSpec, shadow, observed, again)
    ensures var sch, n := DnsView.DnsViewSpec, VIEW_NAMES;
            var verdict := (UpToDate(sch, q, observed) && !adopted) || (UpToDate(sch, again, observed) && !adopted);
            if StampShows(n, mirror, ignored) then verdict <==> !adopted && UpToDate(sch, q, observed)
            else verdict <==> !adopted && AllExcused(sch, n, q, observed, mirror, ignored)
  {
    ViewFits();
    DecoratedVerdict(DnsView.DnsViewSpec, VIEW_NAMES, desired, observed, q, mirror, ignored, over, shadow, again,
                     adopted);
  }
}
