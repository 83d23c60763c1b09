/** The decorator's verdict for a table-driven controller (internal/driftdetection/driftdetection.go:381-518).
    Substitution writes some rows of the late-initialized bag over, as a whole or in part. */
module DriftTables {
  import opened Wrappers
  import opened Identity
  import opened FieldTables

  /** status.atProvider shows what was observed, with the identity attribute still in it. */
  ghost predicate Mirrors<F(!new)>(sch: Schema<F>, observed: Bag<F>, mirror: Bag<F>)
    requires Typed(sch, observed) && Typed(sch, mirror)
  {
    forall f :: if sch(f).kind == AttrMap then observed[f].attrs == mirror[f].attrs - {EA_KEY}
                else mirror[f] == observed[f]
  }

  /** The written-over rows are no use flags. */
  ghost predicate NoFlags<F(!new)>(sch: Schema<F>, over: Bag<F>) {
    forall f, g :: f in over ==> sch(g).gate != Some(f)
  }

  ghost predicate IsShadow<F(!new)>(q: Bag<F>, over: Bag<F>, shadow: Bag<F>) {
    forall f :: f in q && f in shadow && shadow[f] == if f in over then over[f] else q[f]
  }

  /** A row that was written over counts under an open gate, unless it was written blank and is filled
      again; any other row counts as it did. */
  ghost predicate RowAgrees<F(!new)>(sch: Schema<F>, q: Bag<F>, observed: Bag<F>, over: Bag<F>, f: F)
    requires Typed(sch, q) && Typed(sch, observed)
  {
    if f in over then
      GateOpen(sch, f, q, observed) && !(sch(f).lateInit && Unset(over[f])) ==> Same(over[f], observed[f])
    else RowEqual(sch, f, q, observed)
  }

  lemma Settled<F(!new)>(sch: Schema<F>, desired: Bag<F>, observed: Bag<F>, q: Bag<F>)
    requires GatesAreFlags(sch) && Typed(sch, desired) && Typed(sch, observed) && Typed(sch, q)
    requires LateInitOf(sch, desired, observed, q)
    ensures LateInitOf(sch, q, observed, q)
  {
    forall f
      ensures q[f] == if sch(f).lateInit then Filled(sch, f, q, observed) else q[f]
    {
      FlagAfterLateInit(sch, desired, observed, q, f);
    }
  }

  /** Substitution moves no gate. */
  lemma GatesStay<F(!new)>(sch: Schema<F>, observed: Bag<F>, q: Bag<F>, over: Bag<F>, shadow: Bag<F>, f: F)
    requires NoFlags(sch, over) && IsShadow(q, over, shadow)
    ensures GateOpen(sch, f, shadow, observed) == GateOpen(sch, f, q, observed)
  {
    if sch(f).gate.Some? {
      var g := sch(f).gate.value;
      assert g !in over;
      assert shadow[g] == q[g];
    }
  }

  lemma ShadowRow<F(!new)>(sch: Schema<F>, observed: Bag<F>, q: Bag<F>, over: Bag<F>, shadow: Bag<F>, again: Bag<F>,
                           f: F)
    requires GatesAreFlags(sch) && NoFlags(sch, over)
    requires Typed(sch, observed) && Typed(sch, q) && Typed(sch, shadow) && Typed(sch, again)
    requires LateInitOf(sch, q, observed, q)
    requires IsShadow(q, over, shadow) && LateInitOf(sch, shadow, observed, again)
    ensures RowEqual(sch, f, again, observed) <==> RowAgrees(sch, q, observed, over, f)
  {
    GatesStay(sch, observed, q, over, shadow, f);
    RowAfterLateInit(sch, shadow, observed, again, f);
    RowAfterLateInit(sch, q, observed, q, f);
    assert shadow[f] == if f in over then over[f] else q[f];
  }

  /** The verdict on the shadow, row by row in terms of the undecorated bag. */
  lemma ShadowVerdict<F(!new)>(sch: Schema<F>, desired: Bag<F>, observed: Bag<F>, q: Bag<F>, over: Bag<F>,
                               shadow: Bag<F>, again: Bag<F>)
    requires GatesAreFlags(sch) && NoFlags(sch, over)
    requires Typed(sch, desired) && Typed(sch, observed) && Typed(sch, q) && Typed(sch, shadow) && Typed(sch, again)
    requires LateInitOf(sch, desired, observed, q)
    requires IsShadow(q, over, shadow) && LateInitOf(sch, shadow, observed, again)
    ensures UpToDate(sch, again, observed) <==> forall f :: RowAgrees(sch, q, observed, over, f)
  {
    Settled(sch, desired, observed, q);
    forall f
      ensures RowEqual(sch, f, again, observed) <==> RowAgrees(sch, q, observed, over, f)
    {
      ShadowRow(sch, observed, q, over, shadow, again, f);
    }
  }

  /** A row written over with its own mirror agrees, unless it is an attribute map that shows the identity
      attribute. */
  lemma MirroredRow<F(!new)>(sch: Schema<F>, observed: Bag<F>, mirror: Bag<F>, f: F)
    requires Typed(sch, observed) && Typed(sch, mirror) && Mirrors(sch, observed, mirror)
    ensures Same(mirror[f], observed[f]) <==> (mirror[f].VAttrs? ==> EA_KEY !in mirror[f].attrs)
  {
    SameIsEquivalence(observed[f], observed[f], observed[f], sch(f).kind);
    if sch(f).kind == AttrMap {
      assert EA_KEY !in observed[f].attrs;
      assert EA_KEY !in mirror[f].attrs ==> mirror[f].attrs - {EA_KEY} == mirror[f].attrs;
    }
  }
}
