/** Table-driven comparison and late-initialization of a bag of use-flag-gated fields
    (internal/controller/dnsview/controller.go).  F is the type of field names; a schema gives each
    field its kind, the use flag that gates it, and whether late-initialization may fill it. */
module FieldTables {
  import opened Wrappers
  import opened NestedBags

  datatype Kind =
    | PtrStr      // *string in the SDK
    | PlainStr    // string in the SDK: "" is never sent and reads back as nil
    | PtrBool
    | PtrNum
    | StrList
    | AttrMap
    | Servers
    | Acls
    | TrustedKeys
    | Rrsets
    | SortList
    | RatePtr
    | ScavengingPtr

  /** Top-level lists and maps are compared by length first, so nil and empty are the same value. */
  datatype Val =
    | VStr(s: Option<string>)
    | VBool(b: Option<bool>)
    | VNum(n: Option<nat>)
    | VStrs(strs: seq<string>)
    | VAttrs(attrs: map<string, string>)
    | VServers(servers: seq<NameServer>)
    | VAcls(acls: seq<AddressAc>)
    | VKeys(keys: seq<TrustedKey>)
    | VRrsets(rrsets: seq<FixedRrset>)
    | VSorts(sorts: seq<SortEntry>)
    | VRate(rate: Option<RateLimit>)
    | VScavenging(scavenging: Option<Scavenging>)

  predicate HasKind(v: Val, k: Kind) {
    match k
    case PtrStr => v.VStr?
    case PlainStr => v.VStr?
    case PtrBool => v.VBool?
    case PtrNum => v.VNum?
    case StrList => v.VStrs?
    case AttrMap => v.VAttrs?
    case Servers => v.VServers?
    case Acls => v.VAcls?
    case TrustedKeys => v.VKeys?
    case Rrsets => v.VRrsets?
    case SortList => v.VSorts?
    case RatePtr => v.VRate?
    case ScavengingPtr => v.VScavenging?
  }

  /** Nothing was set: a nil pointer, or a list or map without elements. */
  predicate Unset(v: Val) {
    match v
    case VStr(s) => s.None?
    case VBool(b) => b.None?
    case VNum(n) => n.None?
    case VStrs(xs) => xs == []
    case VAttrs(m) => m == map[]
    case VServers(xs) => xs == []
    case VAcls(xs) => xs == []
    case VKeys(xs) => xs == []
    case VRrsets(xs) => xs == []
    case VSorts(xs) => xs == []
    case VRate(r) => r.None?
    case VScavenging(s) => s.None?
  }

  /** An observed value worth back-filling: set, and not the empty string. */
  predicate Offers(v: Val) {
    !Unset(v) && v != VStr(Some(""))
  }

  /** The comparator of each kind: pointers up to the zero value, item lists item by item, the rest by
      DeepEqual. */
  predicate Same(a: Val, b: Val) {
    match (a, b)
    case (VStr(x), VStr(y)) => StrOrEmpty(x) == StrOrEmpty(y)
    case (VBool(x), VBool(y)) => BoolOrFalse(x) == BoolOrFalse(y)
    case (VNum(x), VNum(y)) => NumOrZero(x) == NumOrZero(y)
    case (VServers(x), VServers(y)) => NameServersEqual(x, y)
    case (VAcls(x), VAcls(y)) => AddressAcsEqual(x, y)
    case _ => a == b
  }

  /** What two agreeing values have in common: for pointers to scalars one value or blanks on both sides,
      for item lists every leaf of every item, for everything else the value itself. */
  ghost predicate Alike(a: Val, b: Val) {
    if a.VStr? && b.VStr? then StrAlike(a.s, b.s)
    else if a.VBool? && b.VBool? then BoolAlike(a.b, b.b)
    else if a.VNum? && b.VNum? then NumAlike(a.n, b.n)
    else if a.VServers? && b.VServers? then NameServersAlike(a.servers, b.servers)
    else if a.VAcls? && b.VAcls? then AddressAcsAlike(a.acls, b.acls)
    else a == b
  }

  lemma SameMeansAlike(a: Val, b: Val)
    ensures Same(a, b) <==> Alike(a, b)
  {
    if a.VServers? && b.VServers? {
      ItemsAgree(a.servers, b.servers, [], []);
    } else if a.VAcls? && b.VAcls? {
      ItemsAgree([], [], a.acls, b.acls);
    }
  }

  const NIL_VALUES := [VStr(None), VBool(None), VNum(None), VStrs([]), VAttrs(map[]), VServers([]), VAcls([]),
                       VKeys([]), VRrsets([]), VSorts([]), VRate(None), VScavenging(None)]

  /** Unset are exactly the nil and empty values, and besides them only the empty string is not worth filling in. */
  lemma UnsetMeansNil(v: Val)
    ensures Unset(v) <==> v in NIL_VALUES
    ensures Offers(v) <==> v !in NIL_VALUES + [VStr(Some(""))]
  {
    assert Unset(v) ==> v in NIL_VALUES by {
      match v
      case VStr(_) => assert NIL_VALUES[0] == VStr(None);
      case VBool(_) => assert NIL_VALUES[1] == VBool(None);
      case VNum(_) => assert NIL_VALUES[2] == VNum(None);
      case VStrs(_) => assert NIL_VALUES[3] == VStrs([]);
      case VAttrs(_) => assert NIL_VALUES[4] == VAttrs(map[]);
      case VServers(_) => assert NIL_VALUES[5] == VServers([]);
      case VAcls(_) => assert NIL_VALUES[6] == VAcls([]);
      case VKeys(_) => assert NIL_VALUES[7] == VKeys([]);
      case VRrsets(_) => assert NIL_VALUES[8] == VRrsets([]);
      case VSorts(_) => assert NIL_VALUES[9] == VSorts([]);
      case VRate(_) => assert NIL_VALUES[10] == VRate(None);
      case VScavenging(_) => assert NIL_VALUES[11] == VScavenging(None);
    }
  }

  datatype Spec<F> = Spec(kind: Kind, gate: Option<F>, lateInit: bool)

  type Schema<!F> = F -> Spec<F>
  type Bag<F> = map<F, Val>

  /** Every gate is an ungated boolean field that late-initialization fills. */
  ghost predicate GatesAreFlags<F(!new)>(sch: Schema<F>) {
    forall f :: sch(f).gate.Some? ==>
                  var g := sch(sch(f).gate.value);
                  g.kind == PtrBool && g.gate.None? && g.lateInit
  }

  ghost predicate Typed<F(!new)>(sch: Schema<F>, bag: Bag<F>) {
    forall f :: f in bag && HasKind(bag[f], sch(f).kind)
  }

  /** A table with one row per field in it, in any order. */
  ghost predicate Covers<F(!new)>(table: seq<F>) {
    forall f :: f in table
  }

  ghost predicate CoversLateInit<F(!new)>(sch: Schema<F>, ops: seq<F>) {
    forall f :: f in ops <==> sch(f).lateInit
  }

  predicate FlagOn<F(==)>(bag: Bag<F>, flag: F) {
    flag in bag && bag[flag] == VBool(Some(true))
  }

  /** What the flag will be once late-initialization is over, whatever has run so far. */
  predicate EffectiveFlag<F(==)>(desired: Bag<F>, observed: Bag<F>, flag: F) {
    if flag in desired && desired[flag].VBool? && desired[flag].b.Some? then desired[flag].b.value
    else FlagOn(observed, flag)
  }

  // ---- comparison ---------------------------------------------------------------------------------

  /** One row of the comparator table; only the desired side's flag is read. */
  predicate RowEqual<F(==)>(sch: Schema<F>, f: F, desired: Bag<F>, observed: Bag<F>)
    requires f in desired && f in observed
  {
    (sch(f).gate.Some? && !FlagOn(desired, sch(f).gate.value)) || Same(desired[f], observed[f])
  }

  ghost predicate UpToDate<F(!new)>(sch: Schema<F>, desired: Bag<F>, observed: Bag<F>)
    requires Typed(sch, desired) && Typed(sch, observed)
  {
    forall f :: RowEqual(sch, f, desired, observed)
  }

  /** All fields without a gate, and all whose flag is on in the desired bag, hold alike values. */
  ghost predicate AgreesWhereOn<F(!new)>(sch: Schema<F>, desired: Bag<F>, observed: Bag<F>)
    requires Typed(sch, desired) && Typed(sch, observed)
  {
    forall f :: sch(f).gate.None? || desired[sch(f).gate.value] == VBool(Some(true)) ==> Alike(desired[f], observed[f])
  }

  lemma UpToDateMeansAlike<F(!new)>(sch: Schema<F>, desired: Bag<F>, observed: Bag<F>)
    requires Typed(sch, desired) && Typed(sch, observed)
    ensures UpToDate(sch, desired, observed) <==> AgreesWhereOn(sch, desired, observed)
  {
    forall f
      ensures RowEqual(sch, f, desired, observed) <==>
              (sch(f).gate.None? || desired[sch(f).gate.value] == VBool(Some(true)) ==>
                 Alike(desired[f], observed[f]))
    {
      SameMeansAlike(desired[f], observed[f]);
    }
  }

  method IsUpToDate<F(!new,==)>(sch: Schema<F>, comparators: seq<F>, desired: Bag<F>, observed: Bag<F>)
    returns (equal: bool)
    requires Covers(comparators) && Typed(sch, desired) && Typed(sch, observed)
    ensures equal <==> UpToDate(sch, desired, observed)
    ensures equal <==> AgreesWhereOn(sch, desired, observed)
  {
    UpToDateMeansAlike(sch, desired, observed);
    for i := 0 to |comparators|
      invariant forall j :: 0 <= j < i ==> RowEqual(sch, comparators[j], desired, observed)
    {
      if !RowEqual(sch, comparators[i], desired, observed) {
        return false;
      }
    }
    assert forall f :: f in comparators ==> RowEqual(sch, f, desired, observed);
    return true;
  }

  /** Without rows for the flags themselves the comparison is not symmetric. */
  lemma FlagRowsAreNeeded<F(!new)>(sch: Schema<F>, f: F, a: Bag<F>, b: Bag<F>)
    requires GatesAreFlags(sch) && Typed(sch, a) && Typed(sch, b) && sch(f).gate.Some?
    requires FlagOn(a, sch(f).gate.value) && !FlagOn(b, sch(f).gate.value) && !Same(a[f], b[f])
    ensures !RowEqual(sch, f, a, b) && RowEqual(sch, f, b, a)
    ensures !UpToDate(sch, a, b) && !UpToDate(sch, b, a)
  {
    var g := sch(f).gate.value;
    assert Same(a[g], b[g]) <==> FlagOn(a, g) == FlagOn(b, g);
    assert !RowEqual(sch, g, b, a);
  }

  /** Each gated row reads only one side's flag, and yet the whole comparison is an equivalence. */
  lemma UpToDateIsEquivalence<F(!new)>(sch: Schema<F>, a: Bag<F>, b: Bag<F>, c: Bag<F>)
    requires GatesAreFlags(sch) && Typed(sch, a) && Typed(sch, b) && Typed(sch, c)
    ensures UpToDate(sch, a, a)
    ensures UpToDate(sch, a, b) ==> UpToDate(sch, b, a)
    ensures UpToDate(sch, a, b) && UpToDate(sch, b, c) ==> UpToDate(sch, a, c)
  {
    if UpToDate(sch, a, b) {
      forall f
        ensures RowEqual(sch, f, b, a)
      {
        assert RowEqual(sch, f, a, b);
        FlagsAgree(sch, a, b, f);
        SameIsEquivalence(a[f], b[f], b[f], sch(f).kind);
      }
      if UpToDate(sch, b, c) {
        forall f
          ensures RowEqual(sch, f, a, c)
        {
          assert RowEqual(sch, f, a, b) && RowEqual(sch, f, b, c);
          FlagsAgree(sch, a, b, f);
          SameIsEquivalence(a[f], b[f], c[f], sch(f).kind);
        }
      }
    }
  }

  lemma FlagsAgree<F(!new)>(sch: Schema<F>, a: Bag<F>, b: Bag<F>, f: F)
    requires GatesAreFlags(sch) && Typed(sch, a) && Typed(sch, b) && UpToDate(sch, a, b)
    ensures sch(f).gate.Some? ==> FlagOn(a, sch(f).gate.value) == FlagOn(b, sch(f).gate.value)
  {
    if sch(f).gate.Some? {
      assert RowEqual(sch, sch(f).gate.value, a, b);
    }
  }

  lemma SameIsEquivalence(a: Val, b: Val, c: Val, k: Kind)
    requires HasKind(a, k) && HasKind(b, k) && HasKind(c, k)
    ensures Same(a, a) && (Same(a, b) ==> Same(b, a)) && (Same(a, b) && Same(b, c) ==> Same(a, c))
  {
  }

  // ---- late-initialization ------------------------------------------------------------------------

  predicate GateOpen<F(==)>(sch: Schema<F>, f: F, desired: Bag<F>, observed: Bag<F>) {
    sch(f).gate.None? || EffectiveFlag(desired, observed, sch(f).gate.value)
  }

  /** No gate, or the flag is on: as the user set it, else as the Grid has it. */
  ghost predicate Open<F(!new)>(sch: Schema<F>, f: F, desired: Bag<F>, observed: Bag<F>)
    requires Typed(sch, desired) && Typed(sch, observed)
  {
    sch(f).gate.Some? ==>
      var flag := sch(f).gate.value;
      desired[flag] == VBool(Some(true)) || (desired[flag] == VBool(None) && observed[flag] == VBool(Some(true)))
  }

  lemma GateOpenMeansOpen<F(!new)>(sch: Schema<F>, f: F, desired: Bag<F>, observed: Bag<F>)
    requires GatesAreFlags(sch) && Typed(sch, desired) && Typed(sch, observed)
    ensures GateOpen(sch, f, desired, observed) <==> Open(sch, f, desired, observed)
  {
    if sch(f).gate.Some? {
      var flag := sch(f).gate.value;
      assert HasKind(desired[flag], sch(flag).kind);
    }
  }

  /** One late-init operation: fills the field in place and reports whether it did. */
  predicate Fills<F(==)>(sch: Schema<F>, f: F, desired: Bag<F>, observed: Bag<F>)
    requires f in desired && f in observed
  {
    GateOpen(sch, f, desired, observed) && Unset(desired[f]) && Offers(observed[f])
  }

  /** The value of a field after all operations, from the original desired bag alone. */
  function Filled<F(==)>(sch: Schema<F>, f: F, desired: Bag<F>, observed: Bag<F>): Val
    requires f in desired && f in observed
  {
    if Fills(sch, f, desired, observed) then observed[f] else desired[f]
  }

  /** The bag after running the operations of the given table. */
  ghost predicate LateInitOf<F(!new)>(sch: Schema<F>, desired: Bag<F>, observed: Bag<F>, result: Bag<F>)
    requires Typed(sch, desired) && Typed(sch, observed)
  {
    forall f :: f in result && result[f] == if sch(f).lateInit then Filled(sch, f, desired, observed) else desired[f]
  }

  /** The operations run in the order of the table, each reading the bag as the previous ones left it. */
  method LateInitialize<F(!new,==)>(sch: Schema<F>, ops: seq<F>, desired: Bag<F>, observed: Bag<F>)
    returns (bag: Bag<F>, changed: bool)
    requires GatesAreFlags(sch) && CoversLateInit(sch, ops) && Typed(sch, desired) && Typed(sch, observed)
    ensures Typed(sch, bag) && LateInitOf(sch, desired, observed, bag)
    ensures changed <==> bag != desired
    ensures forall f :: bag[f] == if sch(f).lateInit && Open(sch, f, desired, observed) && desired[f] in NIL_VALUES &&
                                     observed[f] !in NIL_VALUES + [VStr(Some(""))]
                                  then observed[f] else desired[f]
  {
    bag, changed := desired, false;
    for i := 0 to |ops|
      invariant Typed(sch, bag) && bag.Keys == desired.Keys
      invariant forall f :: bag[f] == if f in ops[..i] then Filled(sch, f, desired, observed) else desired[f]
      invariant changed <==> bag != desired
    {
      var f := ops[i];
      assert sch(f).gate.Some? ==>
               EffectiveFlag(bag, observed, sch(f).gate.value) == EffectiveFlag(desired, observed, sch(f).gate.value);
      if Fills(sch, f, bag, observed) {
        assert bag[f] == desired[f] != observed[f];
        bag := bag[f := observed[f]];
        assert bag[f] != desired[f];
        changed := true;
      }
      assert ops[..i + 1] == ops[..i] + [f];
    }
    forall f
      ensures Fills(sch, f, desired, observed) <==>
              Open(sch, f, desired, observed) && desired[f] in NIL_VALUES &&
              observed[f] !in NIL_VALUES + [VStr(Some(""))]
    {
      GateOpenMeansOpen(sch, f, desired, observed);
      UnsetMeansNil(desired[f]);
      UnsetMeansNil(observed[f]);
    }
  }

  /** LateInitOf determines the bag, so any two tables with the same rows, in any order, give the same
      bag and the same changed flag. */
  lemma OrderIndependent<F(!new)>(sch: Schema<F>, desired: Bag<F>, observed: Bag<F>, bag1: Bag<F>, bag2: Bag<F>)
    requires Typed(sch, desired) && Typed(sch, observed)
    requires LateInitOf(sch, desired, observed, bag1) && LateInitOf(sch, desired, observed, bag2)
    ensures bag1 == bag2
  {
    assert forall f :: f in bag1 <==> f in bag2;
  }

  /** What the user set is kept, and a second run against the same observation changes nothing. */
  lemma KeepsAndSettles<F(!new)>(sch: Schema<F>, desired: Bag<F>, observed: Bag<F>, bag: Bag<F>, again: Bag<F>)
    requires GatesAreFlags(sch) && Typed(sch, desired) && Typed(sch, observed) && Typed(sch, bag)
    requires LateInitOf(sch, desired, observed, bag) && LateInitOf(sch, bag, observed, again)
    ensures forall f :: !Unset(desired[f]) ==> bag[f] == desired[f]
    ensures again == bag
  {
    forall f
      ensures again[f] == bag[f]
    {
      FlagAfterLateInit(sch, desired, observed, bag, f);
    }
    assert forall f :: f in bag <==> f in again;
  }

  /** After late-initialization a gating flag is on exactly when its effective value was. */
  lemma FlagAfterLateInit<F(!new)>(sch: Schema<F>, desired: Bag<F>, observed: Bag<F>, bag: Bag<F>, f: F)
    requires GatesAreFlags(sch) && Typed(sch, desired) && Typed(sch, observed) && Typed(sch, bag)
    requires LateInitOf(sch, desired, observed, bag)
    ensures sch(f).gate.Some? ==>
              && FlagOn(bag, sch(f).gate.value) == EffectiveFlag(desired, observed, sch(f).gate.value)
              && EffectiveFlag(bag, observed, sch(f).gate.value) == EffectiveFlag(desired, observed, sch(f).gate.value)
  {
    if sch(f).gate.Some? {
      var g := sch(f).gate.value;
      assert bag[g] == Filled(sch, g, desired, observed);
    }
  }

  lemma RowAfterLateInit<F(!new)>(sch: Schema<F>, desired: Bag<F>, observed: Bag<F>, bag: Bag<F>, f: F)
    requires GatesAreFlags(sch) && Typed(sch, desired) && Typed(sch, observed) && Typed(sch, bag)
    requires LateInitOf(sch, desired, observed, bag)
    ensures RowEqual(sch, f, bag, observed) <==>
            (GateOpen(sch, f, desired, observed) && (!sch(f).lateInit || !Unset(desired[f])) ==>
               Same(desired[f], observed[f]))
  {
    FlagAfterLateInit(sch, desired, observed, bag, f);
    SameIsEquivalence(observed[f], observed[f], observed[f], sch(f).kind);
  }

  /** The verdict after late-initialization, in terms of what the user wrote: every field that is not
      late-initialized agrees, and so does every field the user set whose effective gate is on or absent. */
  lemma UpToDateAfterLateInit<F(!new)>(sch: Schema<F>, desired: Bag<F>, observed: Bag<F>, bag: Bag<F>)
    requires GatesAreFlags(sch) && Typed(sch, desired) && Typed(sch, observed) && Typed(sch, bag)
    requires LateInitOf(sch, desired, observed, bag)
    ensures UpToDate(sch, bag, observed) <==>
            forall f :: GateOpen(sch, f, desired, observed) && (!sch(f).lateInit || !Unset(desired[f])) ==>
                          Same(desired[f], observed[f])
  {
    forall f
      ensures RowEqual(sch, f, bag, observed) <==>
              (GateOpen(sch, f, desired, observed) && (!sch(f).lateInit || !Unset(desired[f])) ==>
               Same(desired[f], observed[f]))
    {
      RowAfterLateInit(sch, desired, observed, bag, f);
    }
  }

  /** The same in terms of values. */
  lemma VerdictInValues<F(!new)>(sch: Schema<F>, desired: Bag<F>, observed: Bag<F>, bag: Bag<F>)
    requires GatesAreFlags(sch) && Typed(sch, desired) && Typed(sch, observed) && Typed(sch, bag)
    requires LateInitOf(sch, desired, observed, bag)
    ensures UpToDate(sch, bag, observed) <==>
            forall f :: Open(sch, f, desired, observed) && (!sch(f).lateInit || desired[f] !in NIL_VALUES) ==>
                          Alike(desired[f], observed[f])
  {
    UpToDateAfterLateInit(sch, desired, observed, bag);
    forall f
      ensures Open(sch, f, desired, observed) <==> GateOpen(sch, f, desired, observed)
      ensures desired[f] in NIL_VALUES <==> Unset(desired[f])
      ensures Alike(desired[f], observed[f]) <==> Same(desired[f], observed[f])
    {
      GateOpenMeansOpen(sch, f, desired, observed);
      UnsetMeansNil(desired[f]);
      SameMeansAlike(desired[f], observed[f]);
    }
  }

  /** What the Grid reports for the fields under a flag that ends up off matters to nothing. */
  lemma OffFlagHidesItsFields<F(!new)>(sch: Schema<F>, flag: F, desired: Bag<F>, observed: Bag<F>, other: Bag<F>,
                                       bag1: Bag<F>, bag2: Bag<F>)
    requires GatesAreFlags(sch) && Typed(sch, desired) && Typed(sch, observed) && Typed(sch, other)
    requires Typed(sch, bag1) && Typed(sch, bag2)
    requires desired[flag] != VBool(Some(true))
    requires desired[flag] == VBool(None) ==> observed[flag] != VBool(Some(true))
    requires forall f :: other[f] != observed[f] ==> sch(f).gate == Some(flag)
    requires LateInitOf(sch, desired, observed, bag1) && LateInitOf(sch, desired, other, bag2)
    ensures bag1 == bag2
    ensures UpToDate(sch, bag1, observed) <==> UpToDate(sch, bag2, other)
  {
    forall f
      ensures Open(sch, f, desired, observed) <==> Open(sch, f, desired, other)
      ensures Open(sch, f, desired, observed) ==> other[f] == observed[f]
    {
    }
    forall f
      ensures bag1[f] == bag2[f]
    {
      GateOpenMeansOpen(sch, f, desired, observed);
      GateOpenMeansOpen(sch, f, desired, other);
    }
    assert forall f :: f in bag1 <==> f in bag2;
    VerdictInValues(sch, desired, observed, bag1);
    VerdictInValues(sch, desired, other, bag2);
  }

  /** Importing an object of which only the fields that are never late-initialized were written is a
      fixed point at once. */
  lemma ImportIsFixedPoint<F(!new)>(sch: Schema<F>, desired: Bag<F>, observed: Bag<F>, bag: Bag<F>)
    requires GatesAreFlags(sch) && Typed(sch, desired) && Typed(sch, observed) && Typed(sch, bag)
    requires LateInitOf(sch, desired, observed, bag)
    requires forall f :: if sch(f).lateInit then Unset(desired[f]) else Same(desired[f], observed[f])
    ensures UpToDate(sch, bag, observed)
  {
    UpToDateAfterLateInit(sch, desired, observed, bag);
  }
}
