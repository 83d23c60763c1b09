/** Persisting a rotated external name by a JSON merge patch (internal/controller/externalname/externalname.go).
    The server applies patches by the algorithm in section 2 of RFC 7396. */
module MergePatch {
  import opened Wrappers
  import opened Json

  // ---- RFC 7396 -----------------------------------------------------------------------------------

  type Members = map<string, Value>

  /** An absent member merges like null. */
  function At(m: Members, key: string): Value {
    if key in m then m[key] else Null
  }

  function MembersOf(v: Value): Members {
    if v.Obj? then v.members else map[]
  }

  ghost function Merge(target: Value, patch: Value): Value
    decreases patch, 0, 1
  {
    if patch.Obj? then Obj(MergeKeys(MembersOf(target), patch, patch.members.Keys)) else patch
  }

  /** The members after processing the given keys of the patch. */
  ghost function MergeKeys(base: Members, patch: Value, keys: set<string>): (r: Members)
    requires patch.Obj? && keys <= patch.members.Keys
    ensures forall k :: k in r <==> if k in keys then patch.members[k] != Null else k in base
    ensures forall k :: k in r ==> r[k] == if k in keys then Merge(At(base, k), patch.members[k]) else base[k]
    decreases patch, 0, 0, |keys|
  {
    if keys == {} then base
    else
      var k :| k in keys;
      var rest := MergeKeys(base, patch, keys - {k});
      if patch.members[k] == Null then rest - {k} else rest[k := Merge(At(base, k), patch.members[k])]
  }

  // ---- when two patches commute -----------------------------------------------------------------

  /** Objects on both sides have to agree where they meet; anything else has to be the same. */
  ghost predicate Agree(p: Value, q: Value)
    decreases p
  {
    if p.Obj? && q.Obj? then forall k :: k in p.members && k in q.members ==> Agree(p.members[k], q.members[k])
    else p == q
  }

  /** One member after two patches. */
  lemma MemberAfterTwo(t: Value, p: Value, q: Value, k: string)
    requires p.Obj? && q.Obj?
    ensures var r := Merge(Merge(t, p), q).members;
            var before := At(MembersOf(t), k);
            && (k in p.members && k in q.members ==>
                  && (k in r <==> q.members[k] != Null)
                  && (k in r ==> r[k] == Merge(if p.members[k] == Null then Null else Merge(before, p.members[k]),
                                               q.members[k])))
            && (k in p.members && k !in q.members ==>
                  (k in r <==> p.members[k] != Null) && (k in r ==> r[k] == Merge(before, p.members[k])))
            && (k !in p.members && k in q.members ==>
                  (k in r <==> q.members[k] != Null) && (k in r ==> r[k] == Merge(before, q.members[k])))
            && (k !in p.members && k !in q.members ==>
                  (k in r <==> k in MembersOf(t)) && (k in r ==> r[k] == before))
  {
    var m := Merge(t, p);
    assert m.members == MergeKeys(MembersOf(t), p, p.members.Keys);
    assert Merge(m, q).members == MergeKeys(m.members, q, q.members.Keys);
  }

  /** For every target, two patches give the same document in either order if and only if they agree. */
  lemma {:induction false} CommuteExactly(t: Value, p: Value, q: Value)
    ensures Merge(Merge(t, p), q) == Merge(Merge(t, q), p) <==> Agree(p, q)
    decreases p
  {
    if p.Obj? && q.Obj? {
      var r1, r2 := Merge(Merge(t, p), q).members, Merge(Merge(t, q), p).members;
      forall k
        ensures (k in r1 <==> k in r2) && (k in r1 ==> r1[k] == r2[k]) <==>
                (k in p.members && k in q.members ==> Agree(p.members[k], q.members[k]))
      {
        MemberAgrees(t, p, q, k);
      }
      if Agree(p, q) {
        assert r1 == r2;
      }
    }
  }

  lemma {:induction false} MemberAgrees(t: Value, p: Value, q: Value, k: string)
    requires p.Obj? && q.Obj?
    ensures var r1, r2 := Merge(Merge(t, p), q).members, Merge(Merge(t, q), p).members;
            (k in r1 <==> k in r2) && (k in r1 ==> r1[k] == r2[k]) <==>
            (k in p.members && k in q.members ==> Agree(p.members[k], q.members[k]))
    decreases p, 0
  {
    MemberAfterTwo(t, p, q, k);
    MemberAfterTwo(t, q, p, k);
    if k in p.members && k in q.members && p.members[k] != Null && q.members[k] != Null {
      CommuteExactly(At(MembersOf(t), k), p.members[k], q.members[k]);
    }
  }

  // ---- the external-name patch ----------------------------------------------------------------------

  const EXTERNAL_NAME := "crossplane.io/external-name"

  function NamePath(): Path {
    ["metadata", "annotations", EXTERNAL_NAME]
  }

  function AnnotationMergePatch(newName: string): Value {
    Nest(NamePath(), Str(newName))
  }

  function Nest(path: Path, x: Value): Value {
    if path == [] then x else Obj(map[path[0] := Nest(path[1..], x)])
  }

  ghost function ApplyInOrder(doc: Value, patches: seq<Value>): Value
    decreases |patches|
  {
    if patches == [] then doc else Merge(ApplyInOrder(doc, patches[..|patches| - 1]), patches[|patches| - 1])
  }

  /** A patch that names one path writes that path and nothing else, where the way to it is made of
      objects. */
  lemma {:induction false} NestSets(t: Value, path: Path, x: Value)
    requires SetValue(t, path, x).Some? && !x.Obj? && x != Null
    ensures Some(Merge(t, Nest(path, x))) == SetValue(t, path, x)
    decreases |path|
  {
    if path != [] {
      var patch := Nest(path, x);
      NestSets(Child(t, path[0]), path[1..], x);
      EmptyIsNull(Nest(path[1..], x));
      NestIsNotNull(path[1..], x);
      var r := Merge(t, patch).members;
      assert r == MergeKeys(t.members, patch, patch.members.Keys);
      assert r == t.members[path[0] := Merge(At(t.members, path[0]), Nest(path[1..], x))];
    }
  }

  lemma {:induction false} NestIsNotNull(path: Path, x: Value)
    requires x != Null
    ensures Nest(path, x) != Null
  {
  }

  lemma EmptyIsNull(patch: Value)
    ensures Merge(Null, patch) == Merge(Obj(map[]), patch)
  {
  }

  /** The document is an object, and so are its metadata and its annotations if present. */
  predicate IsObjectMeta(doc: Value) {
    doc.Obj? && ("metadata" in doc.members ==>
      var meta := doc.members["metadata"];
      meta.Obj? && ("annotations" in meta.members ==> meta.members["annotations"].Obj?))
  }

  /** What another writer's patch may be: it neither writes the external name (unless the same) nor replaces
      or deletes what holds it. */
  predicate LeavesNameAlone(d: Value, newName: string) {
    IsObjectMeta(d) && GetValue(d, NamePath()) in {NotFound, Found(Str(newName))}
  }

  lemma PathSteps()
    ensures NamePath()[1..] == ["annotations", EXTERNAL_NAME] && NamePath()[1..][1..] == [EXTERNAL_NAME]
    ensures NamePath()[1..][1..][1..] == []
  {
  }

  lemma SetName(doc: Value, newName: string)
    ensures SetValue(doc, NamePath(), Str(newName)).Some? <==> IsObjectMeta(doc)
  {
    PathSteps();
    var x := Str(newName);
    if doc.Obj? {
      var meta := Child(doc, "metadata");
      if meta.Obj? {
        var ann := Child(meta, "annotations");
        assert SetValue(ann, [EXTERNAL_NAME], x).Some? <==> ann.Obj?;
        assert SetValue(meta, ["annotations", EXTERNAL_NAME], x).Some? <==> ann.Obj?;
      }
    }
  }

  /** The patch changes the external-name annotation and nothing else. */
  lemma PatchSetsOnlyTheName(doc: Value, newName: string)
    requires IsObjectMeta(doc)
    ensures var r := Merge(doc, AnnotationMergePatch(newName));
            && GetValue(r, ["metadata", "annotations", "crossplane.io/external-name"]) == Found(Str(newName))
            && (forall q: Path :: Apart(NamePath(), q) && (GetValue(doc, q).Found? || GetValue(r, q).Found?) ==>
                                    GetValue(r, q) == GetValue(doc, q))
  {
    var x := Str(newName);
    SetName(doc, newName);
    NestSets(doc, NamePath(), x);
    SetThenGet(doc, NamePath(), x);
    var r := Merge(doc, AnnotationMergePatch(newName));
    forall q: Path | Apart(NamePath(), q) && (GetValue(doc, q).Found? || GetValue(r, q).Found?)
      ensures GetValue(r, q) == GetValue(doc, q)
    {
      SetKeepsOthers(doc, NamePath(), x, q);
    }
  }

  lemma AgreeStep(key: string, below: Value, d: Value)
    ensures Agree(Obj(map[key := below]), d) <==> d.Obj? && (key in d.members ==> Agree(below, d.members[key]))
  {
    var p := Obj(map[key := below]);
    assert p.Obj? && key in p.members && p.members[key] == below;
  }

  lemma NestedThrice(newName: string)
    ensures var annotations := Obj(map[EXTERNAL_NAME := Str(newName)]);
            AnnotationMergePatch(newName) == Obj(map["metadata" := Obj(map["annotations" := annotations])])
  {
    PathSteps();
    var x := Str(newName);
    assert Nest([], x) == x;
    assert Nest([EXTERNAL_NAME], x) == Obj(map[EXTERNAL_NAME := x]) by { assert [EXTERNAL_NAME][1..] == []; }
    assert Nest(["annotations", EXTERNAL_NAME], x) == Obj(map["annotations" := Nest([EXTERNAL_NAME], x)]);
  }

  /** Reading three levels down. */
  lemma NameIn(d: Value)
    requires IsObjectMeta(d)
    ensures GetValue(d, NamePath()) ==
            var ann := Child(Child(d, "metadata"), "annotations");
            if EXTERNAL_NAME in ann.members then Found(ann.members[EXTERNAL_NAME]) else NotFound
  {
    PathSteps();
    if "metadata" in d.members {
      var meta := d.members["metadata"];
      assert GetValue(d, NamePath()) == GetValue(meta, NamePath()[1..]);
      if "annotations" in meta.members {
        assert GetValue(meta, NamePath()[1..]) == GetValue(meta.members["annotations"], NamePath()[1..][1..]);
      }
    }
  }

  lemma AgreesWithName(d: Value, newName: string)
    ensures Agree(AnnotationMergePatch(newName), d) <==> LeavesNameAlone(d, newName)
  {
    NestedThrice(newName);
    if IsObjectMeta(d) {
      NameIn(d);
    }
    var inner := Obj(map[EXTERNAL_NAME := Str(newName)]);
    AgreeStep("metadata", Obj(map["annotations" := inner]), d);
    if d.Obj? && "metadata" in d.members {
      var meta := d.members["metadata"];
      AgreeStep("annotations", inner, meta);
      if meta.Obj? && "annotations" in meta.members {
        AgreeStep(EXTERNAL_NAME, Str(newName), meta.members["annotations"]);
      }
    }
  }

  /** It commutes with another patch exactly if that patch leaves the name alone. */
  lemma NamePatchCommutes(t: Value, d: Value, newName: string)
    ensures var n := AnnotationMergePatch(newName);
            Merge(Merge(t, n), d) == Merge(Merge(t, d), n) <==> LeavesNameAlone(d, newName)
  {
    CommuteExactly(t, AnnotationMergePatch(newName), d);
    AgreesWithName(d, newName);
  }

  lemma ObjectMetaStays(doc: Value, d: Value, newName: string)
    requires IsObjectMeta(doc) && LeavesNameAlone(d, newName)
    ensures IsObjectMeta(Merge(doc, d))
  {
    var r := Merge(doc, d);
    assert r.members == MergeKeys(doc.members, d, d.members.Keys);
    if "metadata" in d.members {
      var meta, dm := At(doc.members, "metadata"), d.members["metadata"];
      assert r.members["metadata"] == Merge(meta, dm);
      assert Merge(meta, dm).members == MergeKeys(MembersOf(meta), dm, dm.members.Keys);
    }
  }

  lemma {:induction false} ObjectMetaStaysThroughout(doc: Value, patches: seq<Value>, newName: string)
    requires IsObjectMeta(doc) && forall d :: d in patches ==> LeavesNameAlone(d, newName)
    ensures IsObjectMeta(ApplyInOrder(doc, patches))
    decreases |patches|
  {
    if patches != [] {
      var front := patches[..|patches| - 1];
      ObjectMetaStaysThroughout(doc, front, newName);
      ObjectMetaStays(ApplyInOrder(doc, front), patches[|patches| - 1], newName);
    }
  }

  lemma ApplySnoc(doc: Value, patches: seq<Value>, d: Value)
    ensures ApplyInOrder(doc, patches + [d]) == Merge(ApplyInOrder(doc, patches), d)
  {
    assert (patches + [d])[..|patches|] == patches;
  }

  /** Wherever the patch lands among other writers' patches, it might as well have come last. */
  lemma {:induction false} NamePatchMightComeLast(doc: Value, before: seq<Value>, after: seq<Value>, newName: string)
    requires forall d :: d in after ==> LeavesNameAlone(d, newName)
    ensures var n := AnnotationMergePatch(newName);
            ApplyInOrder(doc, before + [n] + after) == Merge(ApplyInOrder(doc, before + after), n)
    decreases |after|
  {
    var n := AnnotationMergePatch(newName);
    if after == [] {
      assert before + [n] + after == before + [n] && before + after == before;
      ApplySnoc(doc, before, n);
    } else {
      var front, d := after[..|after| - 1], after[|after| - 1];
      NamePatchMightComeLast(doc, before, front, newName);
      assert before + [n] + after == (before + [n] + front) + [d] && before + after == (before + front) + [d];
      ApplySnoc(doc, before + [n] + front, d);
      ApplySnoc(doc, before + front, d);
      NamePatchCommutes(ApplyInOrder(doc, before + front), d, newName);
    }
  }

  /** So every interleaving ends with the new name and with everybody else's values. */
  lemma NobodysWriteIsLost(doc: Value, before: seq<Value>, after: seq<Value>, newName: string)
    requires IsObjectMeta(doc) && forall d :: d in before + after ==> LeavesNameAlone(d, newName)
    ensures var last := ApplyInOrder(doc, before + [AnnotationMergePatch(newName)] + after);
            var others := ApplyInOrder(doc, before + after);
            && GetValue(last, NamePath()) == Found(Str(newName))
            && (forall q: Path :: Apart(NamePath(), q) && (GetValue(others, q).Found? || GetValue(last, q).Found?) ==>
                                    GetValue(last, q) == GetValue(others, q))
  {
    NamePatchMightComeLast(doc, before, after, newName);
    ObjectMetaStaysThroughout(doc, before + after, newName);
    PatchSetsOnlyTheName(ApplyInOrder(doc, before + after), newName);
  }

  // ---- Refresh --------------------------------------------------------------------------------------

  /** retry.DefaultRetry: five attempts. */
  const RETRY_STEPS := 5

  datatype PatchReply = Applied | Conflict | Failed(message: string)

  /** What happens around one attempt: other writers get in first, then the server answers. */
  datatype Attempt = Attempt(others: seq<Value>, reply: PatchReply)

  class ApiServer {
    ghost var doc: Value

    constructor (doc: Value)
      ensures this.doc == doc
    {
      this.doc := doc;
    }

    method Patch(patch: Value, a: Attempt) returns (reply: PatchReply)
      modifies this
      ensures reply == a.reply
      ensures doc == var now := ApplyInOrder(old(doc), a.others); if reply.Applied? then Merge(now, patch) else now
    {
      doc := ApplyInOrder(doc, a.others);
      reply := a.reply;
      if reply.Applied? {
        doc := Merge(doc, patch);
      }
    }
  }

  class Resource {
    var externalName: string

    constructor (name: string)
      ensures externalName == name
    {
      externalName := name;
    }
  }

  function OthersUpTo(attempts: seq<Attempt>): seq<Value> {
    if attempts == [] then [] else OthersUpTo(attempts[..|attempts| - 1]) + attempts[|attempts| - 1].others
  }

  lemma {:induction false} ApplyAppend(doc: Value, p: seq<Value>, q: seq<Value>)
    ensures ApplyInOrder(doc, p + q) == ApplyInOrder(ApplyInOrder(doc, p), q)
    decreases |q|
  {
    if q == [] {
      assert p + q == p;
    } else {
      var front, d := q[..|q| - 1], q[|q| - 1];
      ApplyAppend(doc, p, front);
      assert p + q == (p + front) + [d];
      ApplySnoc(doc, p + front, d);
    }
  }

  /** Conflicts are retried, at most five attempts in all; any other failure ends the loop.  The in-memory
      name changes only if the server's copy did, and nobody else's patch is lost either way. */
  method Refresh(server: ApiServer, cr: Resource, newName: string, attempts: seq<Attempt>) returns (made: nat, ok: bool)
    requires |attempts| >= RETRY_STEPS
    modifies server, cr
    ensures 1 <= made <= RETRY_STEPS
    ensures forall i :: 0 <= i < made - 1 ==> attempts[i].reply == Conflict
    ensures made < RETRY_STEPS ==> attempts[made - 1].reply != Conflict
    ensures ok <==> attempts[made - 1].reply == Applied
    ensures cr.externalName == if ok then newName else old(cr.externalName)
    ensures server.doc == var others := ApplyInOrder(old(server.doc), OthersUpTo(attempts[..made]));
                          if ok then Merge(others, AnnotationMergePatch(newName)) else others
  {
    var patch := AnnotationMergePatch(newName);
    made := 0;
    var reply := Conflict;
    while made < RETRY_STEPS && reply == Conflict
      invariant 0 <= made <= RETRY_STEPS && (made == 0 ==> reply == Conflict)
      invariant forall i :: 0 <= i < made - 1 ==> attempts[i].reply == Conflict
      invariant made > 0 ==> reply == attempts[made - 1].reply
      invariant cr.externalName == old(cr.externalName)
      invariant server.doc == var others := ApplyInOrder(old(server.doc), OthersUpTo(attempts[..made]));
                              if reply.Applied? then Merge(others, patch) else others
      decreases RETRY_STEPS - made
    {
      var a := attempts[made];
      assert attempts[..made + 1][..made] == attempts[..made];
      ApplyAppend(old(server.doc), OthersUpTo(attempts[..made]), a.others);
      reply := server.Patch(patch, a);
      made := made + 1;
    }
    ok := reply.Applied?;
    if ok {
      cr.externalName := newName;
    }
  }
}
