/** The decorator's verdict and payload for a DTCLBDN: substitution of observed values over ignored fields,
    put together with the controller's own late-initialization, comparison and update
    (internal/driftdetection/driftdetection.go:441-563; internal/controller/dtclbdn/cluster.go:88-199). */
module DriftVerdict {
  import opened Wrappers
  import opened Identity
  import opened ExtAttrs
  import opened NestedBags
  import opened DtcLbdn

  /** The fields that may be named by an ignore path. */
  datatype Ignorable = CommentField | TtlField | UseTtlField | DisableField | ExtAttrsField

  /** status.atProvider, as far as ignore paths can read it.  The attributes are not stripped. */
  datatype Mirror = Mirror(comment: Option<string>, ttl: Option<nat>, useTtl: Option<bool>, disable: Option<bool>,
                           extAttrs: Attrs)

  ghost predicate Mirrors(m: Mirror, rec: Record) {
    && m.comment == (if rec.comment == Some("") then None else rec.comment)
    && m.ttl == rec.ttl && m.useTtl == rec.useTtl && m.disable == rec.disable
    && m.extAttrs == ReadOf(rec.ea)
  }

  method ObserveFromDtcLbdn(rec: Record) returns (m: Mirror)
    ensures Mirrors(m, rec)
  {
    var comment, ttl, useTtl, disable := None, None, None, None;
    if rec.ttl.Some? {
      ttl := rec.ttl;
    }
    if rec.useTtl.Some? {
      useTtl := rec.useTtl;
    }
    if rec.comment.Some? && rec.comment.value != "" {
      comment := rec.comment;
    }
    if rec.disable.Some? {
      disable := rec.disable;
    }
    var attrs := ExtAttrsFromEA(rec.ea);
    ReadIsUnique(rec.ea, attrs, ReadOf(rec.ea));
    m := Mirror(comment, ttl, useTtl, disable, attrs);
  }

  /** The field is ignored, and the mirror has a value for it.  Its attributes are never omitted: a nil map
      shows as null, which is captured like any other value. */
  predicate HandedOver(ignored: set<Ignorable>, rec: Record, f: Ignorable) {
    f in ignored &&
    match f
    case CommentField => StrOrEmpty(rec.comment) != ""
    case TtlField => rec.ttl.Some?
    case UseTtlField => rec.useTtl.Some?
    case DisableField => rec.disable.Some?
    case ExtAttrsField => true
  }

  /** The shadow's parameters. */
  ghost function Shadow(p: Params, rec: Record, ignored: set<Ignorable>): Params {
    p.(comment := if HandedOver(ignored, rec, CommentField) then rec.comment else p.comment,
       ttl := if HandedOver(ignored, rec, TtlField) then rec.ttl else p.ttl,
       useTtl := if HandedOver(ignored, rec, UseTtlField) then rec.useTtl else p.useTtl,
       disable := if HandedOver(ignored, rec, DisableField) then rec.disable else p.disable,
       extAttrs := if HandedOver(ignored, rec, ExtAttrsField) then ReadOf(rec.ea) else p.extAttrs)
  }

  lemma HandedOverByMirror(m: Mirror, rec: Record, ignored: set<Ignorable>)
    requires Mirrors(m, rec)
    ensures HandedOver(ignored, rec, CommentField) <==> CommentField in ignored && m.comment.Some?
    ensures HandedOver(ignored, rec, TtlField) <==> TtlField in ignored && m.ttl.Some?
    ensures HandedOver(ignored, rec, UseTtlField) <==> UseTtlField in ignored && m.useTtl.Some?
    ensures HandedOver(ignored, rec, DisableField) <==> DisableField in ignored && m.disable.Some?
    ensures HandedOver(ignored, rec, ExtAttrsField) <==> ExtAttrsField in ignored
  {
  }

  method MakeShadow(p: Params, m: Mirror, ignored: set<Ignorable>, ghost rec: Record) returns (s: Params)
    requires Mirrors(m, rec)
    ensures s == Shadow(p, rec, ignored)
  {
    HandedOverByMirror(m, rec, ignored);
    var comment, ttl, useTtl, disable, extAttrs := p.comment, p.ttl, p.useTtl, p.disable, p.extAttrs;
    if CommentField in ignored && m.comment.Some? {
      comment := m.comment;
    }
    if TtlField in ignored && m.ttl.Some? {
      ttl := m.ttl;
    }
    if UseTtlField in ignored && m.useTtl.Some? {
      useTtl := m.useTtl;
    }
    if DisableField in ignored && m.disable.Some? {
      disable := m.disable;
    }
    if ExtAttrsField in ignored {
      extAttrs := m.extAttrs;
    }
    s := p.(comment := comment, ttl := ttl, useTtl := useTtl, disable := disable, extAttrs := extAttrs);
  }

  // ---- the verdict ----------------------------------------------------------------------------------

  /** Everything that was not handed over agrees.  Whether the ttl counts depends on the flag in effect. */
  ghost predicate RestAgrees(q: Params, rec: Record, ignored: set<Ignorable>) {
    && StrOrEmpty(q.name) == StrOrEmpty(rec.name) && StrOrEmpty(q.lbMethod) == rec.lbMethod
    && q.patterns == rec.patterns && PoolsAgree(q.pools, ReadPools(rec.pools))
    && q.authZones == ReadZones(rec.authZones) && (q.types != [] ==> q.types == rec.types)
    && NumOrZero(q.priority) == NumOrZero(rec.priority) && NumOrZero(q.persistence) == NumOrZero(rec.persistence)
    && StrOrEmpty(q.topology) == StrOrEmpty(rec.topology)
    && (!HandedOver(ignored, rec, UseTtlField) ==> BoolOrFalse(q.useTtl) == BoolOrFalse(rec.useTtl))
    && (!HandedOver(ignored, rec, TtlField) && BoolOrFalse(rec.useTtl) && q.ttl.Some? ==>
          q.ttl.value == NumOrZero(rec.ttl))
    && (!HandedOver(ignored, rec, CommentField) ==> StrOrEmpty(q.comment) == StrOrEmpty(rec.comment))
    && (!HandedOver(ignored, rec, DisableField) ==> BoolOrFalse(q.disable) == BoolOrFalse(rec.disable))
    && (!HandedOver(ignored, rec, ExtAttrsField) ==> AttrsAgree(q, rec))
  }

  /** The unstripped mirror still holds the identity attribute, so substituting it can never compare equal
      on an object that carries one. */
  lemma MirrorAgreesExactly(rec: Record, p: Params)
    requires p.extAttrs == ReadOf(rec.ea)
    ensures AttrsAgree(p, rec) <==> EA_KEY !in rec.ea
  {
    if EA_KEY in rec.ea {
      assert EA_KEY in p.extAttrs.Keys;
      assert EA_KEY !in ReadOf(Stripped(rec.ea)).Keys;
    } else {
      assert Stripped(rec.ea) == rec.ea;
    }
  }

  /** The answer for the shadow, which late-initializes once more before it compares. */
  lemma ShadowVerdict(p: Params, rec: Record, ignored: set<Ignorable>)
    ensures var q := LateInit(p, rec);
            UpToDate(LateInit(Shadow(q, rec, ignored), rec), rec) <==>
              RestAgrees(q, rec, ignored) && (HandedOver(ignored, rec, ExtAttrsField) ==> EA_KEY !in rec.ea)
  {
    var q := LateInit(p, rec);
    var s := Shadow(q, rec, ignored);
    UpToDateAfterLateInit(s, rec);
    if HandedOver(ignored, rec, ExtAttrsField) {
      MirrorAgreesExactly(rec, s);
      assert s.extAttrs.Keys == rec.ea.Keys;
    }
  }

  /** The decorated Observe: the wrapped verdict, and if that is drift, the verdict on the shadow.  An
      object that is up to date as a whole stays so; otherwise exactly the rest has to agree - unless the
      attributes are handed over on an object that carries the identity attribute. */
  method Observe(fp: ForProvider, rec: Record, adopted: bool, ignored: set<Ignorable>) returns (upToDate: bool)
    modifies fp
    ensures fp.Value() == LateInit(old(fp.Value()), rec)
    ensures upToDate <==> !adopted && RestAgrees(fp.Value(), rec, ignored) &&
                          (HandedOver(ignored, rec, ExtAttrsField) && EA_KEY in rec.ea ==> UpToDate(fp.Value(), rec))
  {
    ghost var p := fp.Value();
    var _ := fp.LateInitialize(rec);
    var q := fp.Value();
    var mirror := ObserveFromDtcLbdn(rec);
    var same := IsUpToDate(q, rec);
    WholeImpliesRest(q, rec, ignored);
    ShadowVerdict(p, rec, ignored);
    upToDate := same && !adopted;
    if ignored == {} || upToDate {
      assert ignored == {} ==> (RestAgrees(q, rec, ignored) <==> UpToDate(LateInit(Shadow(q, rec, ignored), rec), rec));
      if ignored == {} {
        NothingIgnored(p, rec);
      }
      return;
    }
    var s := MakeShadow(q, mirror, ignored, rec);
    var shadow := new ForProvider(s);
    var _ := shadow.LateInitialize(rec);
    var again := IsUpToDate(shadow.Value(), rec);
    upToDate := again && !adopted;
  }

  lemma WholeImpliesRest(q: Params, rec: Record, ignored: set<Ignorable>)
    ensures UpToDate(q, rec) ==> RestAgrees(q, rec, ignored)
  {
  }

  lemma NothingIgnored(p: Params, rec: Record)
    ensures RestAgrees(LateInit(p, rec), rec, {}) <==> UpToDate(LateInit(p, rec), rec)
  {
    UpToDateAfterLateInit(p, rec);
  }

  /** The record differs only on ignored fields, and still has a value for each that differs. */
  ghost predicate OwnerChanged(ignored: set<Ignorable>, rec: Record, now: Record) {
    && now == rec.(comment := now.comment, ttl := now.ttl, useTtl := now.useTtl, disable := now.disable)
    && (now.comment != rec.comment ==> HandedOver(ignored, now, CommentField))
    && (now.ttl != rec.ttl ==> HandedOver(ignored, now, TtlField))
    && (now.useTtl != rec.useTtl ==> HandedOver(ignored, now, UseTtlField))
    && (now.disable != rec.disable ==> HandedOver(ignored, now, DisableField))
  }

  /** A resource that was up to date stays so when the owners of ignored fields change them.  One case is
      left: an owner who turns useTtl on brings a ttl that is not handed over into the comparison. */
  lemma OwnerChangesAreExcused(p: Params, rec: Record, now: Record, ignored: set<Ignorable>)
    requires ExtAttrsField !in ignored && UpToDate(LateInit(p, rec), rec) && OwnerChanged(ignored, rec, now)
    ensures RestAgrees(LateInit(p, now), now, ignored) <==>
            (BoolOrFalse(now.useTtl) && p.ttl.Some? && !HandedOver(ignored, now, TtlField) ==>
               p.ttl.value == NumOrZero(now.ttl))
  {
    UpToDateAfterLateInit(p, rec);
    var q := LateInit(p, now);
    assert q.ttl.Some? && BoolOrFalse(now.useTtl) && p.ttl.None? ==> q.ttl == now.ttl;
  }

  /** For an object its own resource has stamped, putting extAttrs on the ignore list switches the whole
      list off: the verdict is the undecorated one. */
  lemma IgnoringAttributesExcusesNothing(p: Params, rec: Record, ignored: set<Ignorable>, uid: Uid)
    requires ExtAttrsField in ignored && EaValue(rec.ea, EA_KEY) == Some(uid)
    ensures var q := LateInit(p, rec);
            !UpToDate(LateInit(Shadow(q, rec, ignored), rec), rec)
  {
    ShadowVerdict(p, rec, ignored);
  }

  // ---- the payload ------------------------------------------------------------------------------------

  /** What a decorated update sends: the owner's value for every handed-over field, the resource's own for
      the rest.  Attributes go back unchanged exactly if they are all strings and carry this stamp; an object
      without any gets the stamp alone, whatever the spec says. */
  lemma OwnersValuesAreSentBack(q: Params, rec: Record, ignored: set<Ignorable>, uid: Uid, sent: Record)
    requires Sent(Shadow(q, rec, ignored), uid, sent)
    ensures sent.comment == if HandedOver(ignored, rec, CommentField) then rec.comment else q.comment
    ensures sent.ttl == if HandedOver(ignored, rec, TtlField) then rec.ttl else q.ttl
    ensures sent.useTtl == if HandedOver(ignored, rec, UseTtlField) then rec.useTtl else q.useTtl
    ensures sent.disable == if HandedOver(ignored, rec, DisableField) then rec.disable else q.disable
    ensures sent.name == q.name && sent.patterns == q.patterns && sent.types == q.types &&
            sent.priority == q.priority && sent.persistence == q.persistence && sent.topology == q.topology
    ensures !HandedOver(ignored, rec, ExtAttrsField) ==> sent.ea == Stamped(Built(q.extAttrs), uid)
    ensures HandedOver(ignored, rec, ExtAttrsField) ==> sent.ea == Stamped(Built(ReadOf(rec.ea)), uid)
    ensures HandedOver(ignored, rec, ExtAttrsField) && rec.ea == map[] ==> sent.ea == Stamped(map[], uid)
    ensures HandedOver(ignored, rec, ExtAttrsField) ==>
              (sent.ea == rec.ea <==>
               EaValue(rec.ea, EA_KEY) == Some(uid) && forall k :: k in rec.ea ==> rec.ea[k].EAString?)
  {
    if HandedOver(ignored, rec, ExtAttrsField) {
      var attrs := ReadOf(rec.ea);
      var built := Built(attrs);
      assert sent.ea == Stamped(built, uid);
      assert built.Keys == rec.ea.Keys;
      assert forall k :: k in rec.ea ==> built[k] == EAString(StringifyEAValue(rec.ea[k]));
      if sent.ea == rec.ea {
        forall k | k in rec.ea
          ensures rec.ea[k].EAString?
        {
          assert rec.ea[k] == sent.ea[k];
        }
      }
    }
  }
}
