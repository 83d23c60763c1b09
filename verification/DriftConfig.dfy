/** Which ignore paths a resource type admits, and ReadConfig
    (internal/driftdetection/driftdetection.go: checkEligible, typeHasField, structFieldByJSONName, ReadConfig).
    A Go type is a finite tree. */
module DriftConfig {
  import opened Wrappers
  import opened Text
  import opened DriftPaths

  const ELIGIBLE := {"comment", "extAttrs", "ttl", "useTtl", "disable"}

  /** Leaf is any kind that is neither a pointer nor a struct: strings, numbers, maps, slices. */
  datatype Type = Leaf | Pointer(elem: Type) | Struct(fields: seq<Field>)

  datatype Field = Field(jsonName: string, anonymous: bool, typ: Type)

  function Deref(t: Type): Type {
    if t.Pointer? then Deref(t.elem) else t
  }

  // ---- structFieldByJSONName ------------------------------------------------------------------

  function Direct(fields: seq<Field>, name: string): Option<Type> {
    if fields == [] then None
    else if fields[0].jsonName == name && name != "-" then Some(fields[0].typ)
    else Direct(fields[1..], name)
  }

  /** The embedded structs among the fields, in order. */
  function Promoted(fields: seq<Field>, name: string): Option<Type>
    decreases fields, 0
  {
    if fields == [] then None
    else
      var here := if fields[0].jsonName == "" && fields[0].anonymous then ThroughPointers(fields[0].typ, name)
                  else None;
      if here.Some? then here else Promoted(fields[1..], name)
  }

  function ThroughPointers(t: Type, name: string): Option<Type>
    decreases t, 0
  {
    match t
    case Leaf => None
    case Pointer(elem) => ThroughPointers(elem, name)
    case Struct(fields) => Lookup(fields, name)
  }

  /** A direct field wins over a promoted one. */
  function Lookup(fields: seq<Field>, name: string): Option<Type>
    decreases fields, 1
  {
    var direct := Direct(fields, name);
    if direct.Some? then direct else Promoted(fields, name)
  }

  predicate IsEmbedded(f: Field) {
    f.jsonName == "" && f.anonymous
  }

  function Embedded(fields: seq<Field>): seq<Field> {
    if fields == [] then []
    else (if IsEmbedded(fields[0]) then [fields[0]] else []) + Embedded(fields[1..])
  }

  lemma {:induction false} EmbeddedSnoc(fields: seq<Field>, f: Field)
    ensures Embedded(fields + [f]) == Embedded(fields) + if IsEmbedded(f) then [f] else []
  {
    if fields == [] {
      assert Embedded([f][1..]) == [];
    } else {
      EmbeddedSnoc(fields[1..], f);
      assert (fields + [f])[1..] == fields[1..] + [f];
      var first, last := if IsEmbedded(fields[0]) then [fields[0]] else [], if IsEmbedded(f) then [f] else [];
      assert first + (Embedded(fields[1..]) + last) == (first + Embedded(fields[1..])) + last;
    }
  }

  lemma {:induction false} OnlyEmbeddedPromote(fields: seq<Field>, name: string)
    ensures Promoted(fields, name) == Promoted(Embedded(fields), name)
    ensures forall f :: f in Embedded(fields) ==> f in fields && IsEmbedded(f)
  {
    if fields != [] {
      OnlyEmbeddedPromote(fields[1..], name);
      if IsEmbedded(fields[0]) {
        assert Embedded(fields)[1..] == Embedded(fields[1..]);
      } else {
        assert Embedded(fields) == Embedded(fields[1..]);
      }
    }
  }

  function Height(t: Type): nat
    decreases t, 0
  {
    match t
    case Leaf => 0
    case Pointer(elem) => 1 + Height(elem)
    case Struct(fields) => 1 + HeightOf(fields)
  }

  function HeightOf(fields: seq<Field>): (h: nat)
    ensures forall f :: f in fields ==> Height(f.typ) <= h
    decreases fields, 1
  {
    if fields == [] then 0
    else
      var rest := HeightOf(fields[1..]);
      var first := Height(fields[0].typ);
      if first < rest then rest else first
  }

  method StructFieldByJSONName(fields: seq<Field>, name: string) returns (found: Option<Type>)
    ensures found == Lookup(fields, name)
    decreases HeightOf(fields)
  {
    var embedded := [];
    for i := 0 to |fields|
      invariant Direct(fields, name) == Direct(fields[i..], name)
      invariant embedded == Embedded(fields[..i])
    {
      var f := fields[i];
      EmbeddedSnoc(fields[..i], f);
      assert fields[..i] + [f] == fields[..i + 1];
      if f.jsonName == "-" {
        continue;
      }
      if f.jsonName == name {
        return Some(f.typ);
      }
      if f.jsonName == "" && f.anonymous {
        embedded := embedded + [f];
      }
    }
    assert fields[..|fields|] == fields;
    OnlyEmbeddedPromote(fields, name);
    for i := 0 to |embedded|
      invariant Promoted(fields, name) == Promoted(embedded[i..], name)
    {
      var et := embedded[i].typ;
      while et.Pointer?
        invariant ThroughPointers(et, name) == ThroughPointers(embedded[i].typ, name)
        invariant Height(et) <= HeightOf(fields)
        decreases et
      {
        et := et.elem;
      }
      if et.Leaf? {
        continue;
      }
      var ft := StructFieldByJSONName(et.fields, name);
      if ft.Some? {
        return ft;
      }
    }
    return None;
  }

  // ---- typeHasField and checkEligible -----------------------------------------------------------

  function TypeAt(t: Type, segs: seq<string>): Option<Type>
    decreases |segs|
  {
    if segs == [] then Some(t)
    else if !Deref(t).Struct? then None
    else
      var next := Lookup(Deref(t).fields, segs[0]);
      if next.None? then None else TypeAt(next.value, segs[1..])
  }

  method TypeHasField(mg: Type, path: string) returns (has: bool)
    ensures has <==> TypeAt(mg, ["spec"] + Split(path, '.')).Some?
  {
    var t := mg;
    var segs := ["spec"] + Split(path, '.');
    for i := 0 to |segs|
      invariant TypeAt(mg, segs) == TypeAt(t, segs[i..])
    {
      while t.Pointer?
        invariant TypeAt(mg, segs) == TypeAt(t, segs[i..])
        decreases t
      {
        t := t.elem;
      }
      if !t.Struct? {
        return false;
      }
      var next := StructFieldByJSONName(t.fields, segs[i]);
      if next.None? {
        return false;
      }
      t := next.value;
    }
    return true;
  }

  function Last(path: string): string {
    Split(path, '.')[|Split(path, '.')| - 1]
  }

  function Judge(mg: Type, path: string): Option<PathError> {
    if Last(path) !in ELIGIBLE then Some(NotEligible)
    else if TypeAt(mg, ["spec"] + Split(path, '.')).None? then Some(NoSuchField)
    else None
  }

  method CheckEligible(mg: Type, path: string) returns (e: Option<PathError>)
    ensures e == Judge(mg, path)
  {
    if Last(path) !in ELIGIBLE {
      return Some(NotEligible);
    }
    var has := TypeHasField(mg, path);
    if !has {
      return Some(NoSuchField);
    }
    return None;
  }

  // ---- ReadConfig ---------------------------------------------------------------------------------

  const MODE_ENABLED := "enabled"
  const MODE_WARN := "warn"
  const MODE_DISABLED := "disabled"

  datatype Config = Config(mode: string, ignore: seq<string>)

  function Accept(mg: Type, s: string): Result<string, PathError> {
    match Normalized(s)
    case Err(e) => Err(e)
    case Ok(p) => if Judge(mg, p).Some? then Err(Judge(mg, p).value) else Ok(p)
  }

  function Acceptor(mg: Type): string -> Result<string, PathError> {
    (s: string) => Accept(mg, s)
  }

  /** All or nothing: the first error decides. */
  function Collect(results: seq<Result<string, PathError>>): Result<seq<string>, PathError> {
    if results == [] then Ok([])
    else
      match results[0]
      case Err(e) => Err(e)
      case Ok(p) => Prepend([p], Collect(results[1..]))
  }

  function Prepend(done: seq<string>, rest: Result<seq<string>, PathError>): Result<seq<string>, PathError> {
    match rest
    case Err(e) => Err(e)
    case Ok(ps) => Ok(done + ps)
  }

  function AcceptAll(mg: Type, paths: seq<string>): Result<seq<string>, PathError> {
    Collect(MapSeq(Acceptor(mg), paths))
  }

  function ConfigOf(mg: Type, mode: Option<string>, ignore: seq<string>): Result<Config, PathError> {
    match AcceptAll(mg, ignore)
    case Err(e) => Err(e)
    case Ok(ps) => Ok(Config(if mode.GetOr("") == "" then MODE_ENABLED else mode.value, ps))
  }

  method AcceptPath(mg: Type, s: string) returns (r: Result<string, PathError>)
    ensures r == Accept(mg, s)
  {
    r := NormalizePath(s);
    if r.Ok? {
      var e := CheckEligible(mg, r.value);
      if e.Some? {
        r := Err(e.value);
      }
    }
  }

  lemma CollectStep(done: seq<string>, results: seq<Result<string, PathError>>)
    requires results != []
    ensures Prepend(done, Collect(results)) ==
            match results[0]
            case Err(e) => Err(e)
            case Ok(p) => Prepend(done + [p], Collect(results[1..]))
  {
    if results[0].Ok? && Collect(results[1..]).Ok? {
      var p, ps := results[0].value, Collect(results[1..]).value;
      assert (done + [p]) + ps == done + ([p] + ps);
    }
  }

  lemma PrependNothing(rest: Result<seq<string>, PathError>)
    ensures Prepend([], rest) == rest
  {
    assert rest.Ok? ==> [] + rest.value == rest.value;
  }

  method ReadConfig(mg: Type, mode: Option<string>, ignore: seq<string>) returns (r: Result<Config, PathError>)
    ensures r == ConfigOf(mg, mode, ignore)
  {
    var resolved := MODE_ENABLED;
    if mode.Some? && mode.value != "" {
      resolved := mode.value;
    }
    var paths := [];
    ghost var results := MapSeq(Acceptor(mg), ignore);
    PrependNothing(Collect(results));
    assert results[0..] == results;
    for i := 0 to |ignore|
      invariant Collect(results) == Prepend(paths, Collect(results[i..]))
    {
      var n := AcceptPath(mg, ignore[i]);
      assert results[i] == n;
      CollectStep(paths, results[i..]);
      assert results[i..][1..] == results[i + 1..];
      if n.Err? {
        return Err(n.error);
      }
      paths := paths + [n.value];
    }
    assert paths + [] == paths;
    return Ok(Config(resolved, paths));
  }

  lemma {:induction false} CollectIsPointwise(results: seq<Result<string, PathError>>)
    ensures Collect(results).Ok? <==> forall i :: 0 <= i < |results| ==> results[i].Ok?
    ensures Collect(results).Ok? ==>
              var ps := Collect(results).value;
              |ps| == |results| && forall i :: 0 <= i < |ps| ==> results[i] == Ok(ps[i])
  {
    if results != [] {
      CollectIsPointwise(results[1..]);
      assert results == [results[0]] + results[1..];
    }
  }

  /** A normalized path is accepted if its last segment is allowlisted and the path resolves below spec. */
  lemma AcceptedBySegments(mg: Type, s: string, p: string)
    requires Normalized(s) == Ok(p)
    ensures Accept(mg, s) == Ok(p) <==>
            Split(p, '.')[|Split(p, '.')| - 1] in ELIGIBLE && TypeAt(mg, ["spec"] + Split(p, '.')).Some?
  {
  }

  /** What an accepted configuration amounts to, path by path. */
  lemma AcceptAllIsPointwise(mg: Type, paths: seq<string>)
    ensures AcceptAll(mg, paths).Ok? <==> forall i :: 0 <= i < |paths| ==> Accept(mg, paths[i]).Ok?
    ensures AcceptAll(mg, paths).Ok? ==>
              var ps := AcceptAll(mg, paths).value;
              |ps| == |paths| && forall i :: 0 <= i < |ps| ==> Accept(mg, paths[i]) == Ok(ps[i])
  {
    var results := MapSeq(Acceptor(mg), paths);
    CollectIsPointwise(results);
    assert forall i :: 0 <= i < |paths| ==> results[i] == Accept(mg, paths[i]);
  }

  /** A mode is taken as it is written, even one that does not exist; nil and empty mean enabled. */
  lemma ModeIsAsWritten(mg: Type, mode: Option<string>, ignore: seq<string>)
    requires ConfigOf(mg, mode, ignore).Ok?
    ensures mode.Some? && mode.value != "" ==> ConfigOf(mg, mode, ignore).value.mode == mode.value
    ensures mode == None || mode == Some("") ==> ConfigOf(mg, mode, ignore).value.mode == "enabled"
  {
  }

  // ---- prefix-freedom -----------------------------------------------------------------------------

  /** Somebody who knows the resource's type can check this: no allowlisted name denotes a struct. */
  predicate EligibleAreLeaves(t: Type) {
    match t
    case Leaf => true
    case Pointer(elem) => EligibleAreLeaves(elem)
    case Struct(fields) =>
      forall f :: f in fields ==> (f.jsonName in ELIGIBLE ==> !Deref(f.typ).Struct?) && EligibleAreLeaves(f.typ)
  }

  lemma {:induction false} LookupKeepsLeaves(t: Type, name: string)
    requires EligibleAreLeaves(t) && Deref(t).Struct?
    ensures EligibleAreLeaves(Deref(t))
    ensures var found := Lookup(Deref(t).fields, name);
            found.Some? ==> EligibleAreLeaves(found.value) && (name in ELIGIBLE ==> !Deref(found.value).Struct?)
    decreases t, 1
  {
    if t.Pointer? {
      LookupKeepsLeaves(t.elem, name);
    } else {
      DirectKeepsLeaves(t.fields, name);
      PromotedKeepsLeaves(t, t.fields, name);
    }
  }

  lemma {:induction false} DirectKeepsLeaves(fields: seq<Field>, name: string)
    ensures Direct(fields, name).Some? ==>
              exists f :: f in fields && f.jsonName == name && Direct(fields, name) == Some(f.typ)
  {
    if fields != [] {
      DirectKeepsLeaves(fields[1..], name);
    }
  }

  lemma {:induction false} PromotedKeepsLeaves(t: Type, fields: seq<Field>, name: string)
    requires t.Struct? && EligibleAreLeaves(t) && forall f :: f in fields ==> f in t.fields
    ensures var found := Promoted(fields, name);
            found.Some? ==> EligibleAreLeaves(found.value) && (name in ELIGIBLE ==> !Deref(found.value).Struct?)
    decreases t, 0, |fields|
  {
    if fields != [] {
      var f := fields[0];
      PromotedKeepsLeaves(t, fields[1..], name);
      ThroughIsLookup(f.typ, name);
      if Deref(f.typ).Struct? {
        assert f in t.fields;
        LookupKeepsLeaves(f.typ, name);
      }
    }
  }

  lemma {:induction false} ThroughIsLookup(t: Type, name: string)
    ensures ThroughPointers(t, name) == if Deref(t).Struct? then Lookup(Deref(t).fields, name) else None
  {
    if t.Pointer? {
      ThroughIsLookup(t.elem, name);
    }
  }

  lemma {:induction false} EligibleEndsThePath(t: Type, segs: seq<string>, more: seq<string>)
    requires EligibleAreLeaves(t) && segs != [] && segs[|segs| - 1] in ELIGIBLE
    ensures TypeAt(t, segs + more).Some? ==> more == []
    decreases |segs|
  {
    assert (segs + more)[1..] == segs[1..] + more;
    if TypeAt(t, segs + more).Some? {
      LookupKeepsLeaves(t, segs[0]);
      var next := Lookup(Deref(t).fields, segs[0]).value;
      assert (segs + more)[0] == segs[0] && TypeAt(next, segs[1..] + more).Some?;
      if |segs| == 1 {
        assert segs[1..] + more == more && !Deref(next).Struct?;
      } else {
        EligibleEndsThePath(next, segs[1..], more);
      }
    }
  }

  predicate PrefixFree(paths: seq<string>) {
    forall i, j :: 0 <= i < |paths| && 0 <= j < |paths| && Split(paths[i], '.') <= Split(paths[j], '.') ==>
                     paths[i] == paths[j]
  }

  lemma EligibleHasNothingBelow(mg: Type, a: seq<string>, b: seq<string>)
    requires EligibleAreLeaves(mg) && a != [] && a[|a| - 1] in ELIGIBLE && a <= b
    requires TypeAt(mg, ["spec"] + b).Some?
    ensures a == b
  {
    var more := b[|a|..];
    assert ["spec"] + b == (["spec"] + a) + more;
    EligibleEndsThePath(mg, ["spec"] + a, more);
  }

  lemma AcceptedPairIsPrefixFree(mg: Type, p: string, q: string)
    requires EligibleAreLeaves(mg) && Judge(mg, p) == None && Judge(mg, q) == None
    requires Split(p, '.') <= Split(q, '.')
    ensures p == q
  {
    EligibleHasNothingBelow(mg, Split(p, '.'), Split(q, '.'));
    JoinSplit(p, '.');
    JoinSplit(q, '.');
  }

  /** Of two different paths that ReadConfig accepts, neither lies below the other. */
  lemma AcceptedPathsArePrefixFree(mg: Type, mode: Option<string>, ignore: seq<string>)
    requires EligibleAreLeaves(mg) && ConfigOf(mg, mode, ignore).Ok?
    ensures PrefixFree(ConfigOf(mg, mode, ignore).value.ignore)
  {
    var ps := ConfigOf(mg, mode, ignore).value.ignore;
    AcceptAllIsPointwise(mg, ignore);
    assert forall i :: 0 <= i < |ps| ==> Accept(mg, ignore[i]) == Ok(ps[i]) && Judge(mg, ps[i]) == None;
    forall i, j | 0 <= i < |ps| && 0 <= j < |ps| && Split(ps[i], '.') <= Split(ps[j], '.')
      ensures ps[i] == ps[j]
    {
      AcceptedPairIsPrefixFree(mg, ps[i], ps[j]);
    }
  }

  function Only(name: string, t: Type): Type {
    Struct([Field(name, false, t)])
  }

  lemma OnlyStep(name: string, t: Type, more: seq<string>)
    requires name != "-"
    ensures TypeAt(Only(name, t), [name] + more) == TypeAt(t, more)
  {
    assert ([name] + more)[1..] == more;
  }

  lemma BelowForProvider(inner: Type, more: seq<string>)
    ensures TypeAt(Only("spec", Only("forProvider", inner)), ["spec"] + (["forProvider"] + more)) == TypeAt(inner, more)
  {
    OnlyStep("spec", Only("forProvider", inner), ["forProvider"] + more);
    OnlyStep("forProvider", inner, more);
  }

  lemma EligibleNames(a: string)
    requires a in ELIGIBLE
    ensures '.' !in a && a != "-"
  {
    assert a == "comment" || a == "extAttrs" || a == "ttl" || a == "useTtl" || a == "disable";
  }

  /** The condition matters: were an allowlisted field a struct holding another one, both paths would be
      accepted although one lies below the other. */
  lemma NestedEligibleFieldsOverlap(a: string, b: string, p: string, q: string)
    requires a in ELIGIBLE && b in ELIGIBLE && Split(p, '.') == ["forProvider"] + [a]
    requires Split(q, '.') == ["forProvider"] + [a, b]
    ensures var mg := Only("spec", Only("forProvider", Only(a, Only(b, Leaf))));
            Judge(mg, p) == None && Judge(mg, q) == None
    ensures !PrefixFree([p, q])
  {
    var inner := Only(a, Only(b, Leaf));
    EligibleNames(a);
    EligibleNames(b);
    BelowForProvider(inner, [a]);
    BelowForProvider(inner, [a, b]);
    OnlyStep(a, Only(b, Leaf), []);
    OnlyStep(a, Only(b, Leaf), [b]);
    OnlyStep(b, Leaf, []);
    assert [a] + [] == [a] && [b] + [] == [b] && [a] + [b] == [a, b];
    var paths := [p, q];
    assert Split(paths[0], '.') <= Split(paths[1], '.') && paths[0] != paths[1];
  }
}
