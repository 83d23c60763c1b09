/** Runs of the reconcile protocol: any number of managed resources, crashes at every point where
    something may be lost, and outsiders who edit, rename, add and delete Grid objects
    (internal/clients/identity/identity.go, internal/controller/dtclbdn and dnsview).

    One reconcile is Observe followed by at most one Create or Update on an unchanged Grid.  Update
    does not resolve again, so it is only as safe as the external name Observe left behind. */
module ReconcileRuns {
  import opened Wrappers
  import opened Text
  import opened Identity

  /** The durable part of a managed resource; extName is the persisted external-name annotation. */
  datatype Resource = Resource(name: string, extName: string, deleting: bool)

  datatype World = World(grid: Grid, resources: map<Uid, Resource>)

  /** What becomes of the mutating call after Observe: it never reaches the Grid (not needed, an error
      or a crash), or it does and the Grid answers newRef, which is then persisted or lost in a crash. */
  datatype Act = Stop | Mutate(newRef: Ref, fields: Fields, attrs: EA, saved: bool)

  datatype Event =
    | Reconcile(uid: Uid, get: Reply<Obj>, search: Reply<seq<Ref>>, observeSaved: bool, act: Act)
    | Delete(uid: Uid, extName: string, get: Reply<Obj>, search: Reply<seq<Ref>>, deleted: bool)
      // outsiders
    | Edit(ref: Ref, newRef: Ref, obj: Obj)
    | Add(ref: Ref, obj: Obj)
    | Remove(ref: Ref)
    | Annotate(uid: Uid, extName: string)
    | NewResource(uid: Uid, res: Resource)
    | MarkDeleted(uid: Uid)
    | Forget(uid: Uid)

  predicate ByProvider(e: Event) {
    e.Reconcile? || e.Delete?
  }

  function ObserveRefFor(name: string, extName: string): Ref {
    if extName == name then "" else extName
  }

  function Observed(w: World, e: Event): Resolution
    requires e.Reconcile? && e.uid in w.resources
  {
    var res := w.resources[e.uid];
    Resolve(ObserveRefFor(res.name, res.extName), e.uid, e.get, e.search)
  }

  /** Create stamps a new object; Update replaces the object at the resolved reference, stamping it
      again, and the Grid may answer with a rotated reference. */
  function StepReconcile(w: World, e: Event): World
    requires e.Reconcile? && e.uid in w.resources
  {
    var res := w.resources[e.uid];
    if res.deleting then w
    else
      match Observed(w, e)
      case Refused(_) => w
      case NotThere =>
        if e.act.Stop? then w
        else World(w.grid[e.act.newRef := Obj(Stamped(e.act.attrs, e.uid), e.act.fields)],
                   if e.act.saved then w.resources[e.uid := res.(extName := e.act.newRef)] else w.resources)
      case Owned(outcome, ref) =>
        if (outcome.Rotated? || outcome.FoundByUID?) && !e.observeSaved then w
        else if e.act.Stop? then World(w.grid, w.resources[e.uid := res.(extName := ref)])
        else World((w.grid - {ref})[e.act.newRef := Obj(Stamped(e.act.attrs, e.uid), e.act.fields)],
                   w.resources[e.uid := res.(extName := if e.act.saved then e.act.newRef else ref)])
  }

  /** Delete resolves again, from whatever external name the in-memory object carries. */
  function StepDelete(w: World, e: Event): World
    requires e.Delete?
  {
    match Resolve(e.extName, e.uid, e.get, e.search)
    case Owned(outcome, ref) =>
      if outcome.Adopted? || !e.deleted then w else w.(grid := w.grid - {ref})
    case _ => w
  }

  function Step(w: World, e: Event): World
    requires (e.Reconcile? || e.Annotate? || e.MarkDeleted?) ==> e.uid in w.resources
  {
    match e
    case Reconcile(_, _, _, _, _) => StepReconcile(w, e)
    case Delete(_, _, _, _, _) => StepDelete(w, e)
    case Edit(ref, newRef, obj) => w.(grid := (w.grid - {ref})[newRef := obj])
    case Add(ref, obj) => w.(grid := w.grid[ref := obj])
    case Remove(ref) => w.(grid := w.grid - {ref})
    case Annotate(uid, extName) => w.(resources := w.resources[uid := w.resources[uid].(extName := extName)])
    case NewResource(uid, res) => w.(resources := w.resources[uid := res])
    case MarkDeleted(uid) => w.(resources := w.resources[uid := w.resources[uid].(deleting := true)])
    case Forget(uid) => w.(resources := w.resources - {uid})
  }

  /** The call that would reach the Grid, and on which reference: a PUT, a DELETE, or neither. */
  datatype Call = Nothing | Put(ref: Ref) | Post(ref: Ref) | Drop(ref: Ref)

  function CallOf(w: World, e: Event): Call
    requires e.Reconcile? ==> e.uid in w.resources
  {
    match e
    case Reconcile(uid, _, _, observeSaved, act) =>
      if w.resources[uid].deleting || act.Stop? then Nothing
      else
        (match Observed(w, e)
         case Refused(_) => Nothing
         case NotThere => Post(act.newRef)
         case Owned(outcome, ref) =>
           if (outcome.Rotated? || outcome.FoundByUID?) && !observeSaved then Nothing else Put(ref))
    case Delete(uid, extName, get, search, deleted) =>
      (match Resolve(extName, uid, get, search)
       case Owned(outcome, ref) => if outcome.Adopted? || !deleted then Nothing else Drop(ref)
       case _ => Nothing)
    case _ => Nothing
  }

  // ---- what is assumed of the Grid, of Kubernetes and of outsiders ---------------------------

  predicate UsableUid(uid: Uid) {
    uid != "" && Trimmed(uid)
  }

  /** No Grid reference is empty or the name of a resource. */
  predicate NamesAreNotRefs(w: World) {
    "" !in w.grid && forall u :: u in w.resources ==> w.resources[u].name !in w.grid
  }

  /** No unstamped object sits at a resource's cached reference while its stamped one lives elsewhere. */
  predicate NoDecoy(w: World) {
    forall u :: u in w.resources ==>
                  var ext := w.resources[u].extName;
                  ext in w.grid && StampOf(w.grid[ext]).None? ==> Carriers(w.grid, u) == {}
  }

  /** Outsiders may keep or clear a stamp, or write one that belongs to no managed resource. */
  predicate OutsiderStamp(w: World, before: Option<Uid>, after: Option<Uid>) {
    after.None? || after == before || after.value !in w.resources
  }

  /** A rotated or new reference is not in use. */
  predicate FreeFor(w: World, ref: Ref, newRef: Ref) {
    newRef == ref || newRef !in w.grid
  }

  ghost predicate LegalProvider(w: World, e: Event)
    requires ByProvider(e)
  {
    match e
    case Reconcile(uid, get, search, _, act) =>
      && UsableUid(uid) && uid in w.resources
      && Answers(w.grid, ObserveRefFor(w.resources[uid].name, w.resources[uid].extName), uid, get, search)
      && (act.Mutate? ==>
            && act.newRef != "" && (forall u :: u in w.resources ==> w.resources[u].name != act.newRef)
            && FreeFor(w, if Observed(w, e).Owned? then Observed(w, e).ref else "", act.newRef))
    case Delete(uid, extName, get, search, _) => UsableUid(uid) && Answers(w.grid, extName, uid, get, search)
  }

  ghost predicate Legal(w: World, e: Event) {
    if ByProvider(e) then LegalProvider(w, e)
    else
      && (match e
          case Edit(ref, newRef, obj) =>
            ref in w.grid && FreeFor(w, ref, newRef) && OutsiderStamp(w, StampOf(w.grid[ref]), StampOf(obj))
          case Add(ref, obj) => ref !in w.grid && OutsiderStamp(w, None, StampOf(obj))
          case Annotate(uid, _) => uid in w.resources
          case NewResource(uid, res) => UsableUid(uid) && uid !in w.resources && Carriers(w.grid, uid) == {}
          case MarkDeleted(uid) => uid in w.resources
          case _ => true)
      && NoDecoy(Step(w, e)) && NamesAreNotRefs(Step(w, e))
  }

  // ---- ownership safety -----------------------------------------------------------------------

  /** An object carrying another resource's stamp is left exactly as it is. */
  ghost predicate OthersUntouched(w: World, after: World, uid: Uid) {
    forall r :: r in w.grid && StampOf(w.grid[r]).Some? && StampOf(w.grid[r]) != Some(uid) ==>
                  r in after.grid && after.grid[r] == w.grid[r]
  }

  ghost predicate SafeCall(w: World, e: Event)
    requires ByProvider(e) && (e.Reconcile? ==> e.uid in w.resources)
  {
    match CallOf(w, e)
    case Nothing => Step(w, e).grid == w.grid
    case Put(r) => r in w.grid && (StampOf(w.grid[r]).None? || StampOf(w.grid[r]) == Some(e.uid))
    case Post(r) => r !in w.grid && Carriers(w.grid, e.uid) == {}
    case Drop(r) => r in w.grid && StampOf(w.grid[r]) == Some(e.uid)
  }

  /** One step of the provider, from any state at all: PUTs only hit unstamped or own objects, DELETEs
      only own ones, a POST happens only when nothing carries the uid, and foreign stamps survive. */
  lemma ProviderStepIsSafe(w: World, e: Event)
    requires ByProvider(e) && LegalProvider(w, e)
    ensures SafeCall(w, e) && OthersUntouched(w, Step(w, e), e.uid)
  {
    TrimSpaceTrims(e.uid);
    if e.Reconcile? {
      var res := w.resources[e.uid];
      ResolveIsSafe(w.grid, ObserveRefFor(res.name, res.extName), e.uid, e.get, e.search);
      if Observed(w, e).Owned? && !Observed(w, e).outcome.Adopted? {
        assert Observed(w, e).ref in Carriers(w.grid, e.uid);
      }
    } else {
      ResolveIsSafe(w.grid, e.extName, e.uid, e.get, e.search);
      var r := Resolve(e.extName, e.uid, e.get, e.search);
      if r.Owned? && !r.outcome.Adopted? {
        assert r.ref in Carriers(w.grid, e.uid);
      }
    }
  }

  // ---- at most one object per resource ----------------------------------------------------------

  predicate AtMostOne(w: World) {
    forall u, r1, r2 :: u in w.resources && r1 in Carriers(w.grid, u) && r2 in Carriers(w.grid, u) ==> r1 == r2
  }

  predicate Inv(w: World) {
    && (forall u :: u in w.resources ==> UsableUid(u))
    && AtMostOne(w) && NoDecoy(w) && NamesAreNotRefs(w)
  }

  lemma OutsiderStepKeepsInv(w: World, e: Event)
    requires Inv(w) && !ByProvider(e) && Legal(w, e)
    ensures Inv(Step(w, e))
  {
    var after := Step(w, e);
    forall u, r1, r2 | u in after.resources && r1 in Carriers(after.grid, u) && r2 in Carriers(after.grid, u)
      ensures r1 == r2
    {
      if e.NewResource? && e.uid == u {
        assert r1 in Carriers(w.grid, u);
      } else if e.Edit? {
        var was := (r: Ref) => if r == e.newRef then e.ref else r;
        assert was(r1) in Carriers(w.grid, u) && was(r2) in Carriers(w.grid, u);
      } else {
        assert e.Add? ==> StampOf(e.obj) != Some(u);
        assert r1 in Carriers(w.grid, u) && r2 in Carriers(w.grid, u);
      }
    }
  }

  /** Where the objects carrying each uid are after a provider step. */
  lemma CarriersAfter(w: World, e: Event, u: Uid)
    requires ByProvider(e) && LegalProvider(w, e)
    ensures u != e.uid ==> Carriers(Step(w, e).grid, u) == Carriers(w.grid, u)
    ensures u == e.uid ==>
              Carriers(Step(w, e).grid, u) ==
              match CallOf(w, e)
              case Nothing => Carriers(w.grid, u)
              case Post(r) => {r}
              case Put(r) => Carriers(w.grid, u) - {r} + {e.act.newRef}
              case Drop(r) => Carriers(w.grid, u) - {r}
  {
    ProviderStepIsSafe(w, e);
    var after := Step(w, e);
    if e.Reconcile? && e.act.Mutate? {
      StampRoundTrip(e.act.attrs, e.uid);
    }
  }

  lemma ReconcileKeepsOneCarrier(w: World, e: Event, u: Uid, r1: Ref, r2: Ref)
    requires Inv(w) && e.Reconcile? && LegalProvider(w, e) && u in w.resources
    requires r1 in Carriers(Step(w, e).grid, u) && r2 in Carriers(Step(w, e).grid, u)
    ensures r1 == r2
  {
    ProviderStepIsSafe(w, e);
    TrimSpaceTrims(e.uid);
    var res := w.resources[e.uid];
    ResolveIsSafe(w.grid, ObserveRefFor(res.name, res.extName), e.uid, e.get, e.search);
    CarriersAfter(w, e, e.uid);
    var call := CallOf(w, e);
    if call.Put? && Observed(w, e).outcome.Adopted? {
      assert Carriers(w.grid, e.uid) == {};
    }
    if call.Put? && !Observed(w, e).outcome.Adopted? {
      assert call.ref in Carriers(w.grid, e.uid);
      assert Carriers(w.grid, e.uid) == {call.ref};
    }
    CarriersAfter(w, e, u);
  }

  lemma ReconcileKeepsInv(w: World, e: Event)
    requires Inv(w) && e.Reconcile? && LegalProvider(w, e)
    ensures Inv(Step(w, e))
  {
    var after := Step(w, e);
    ProviderStepIsSafe(w, e);
    forall u, r1, r2 | u in after.resources && r1 in Carriers(after.grid, u) && r2 in Carriers(after.grid, u)
      ensures r1 == r2
    {
      ReconcileKeepsOneCarrier(w, e, u, r1, r2);
    }
    forall u | u in after.resources && after.resources[u].extName in after.grid &&
               StampOf(after.grid[after.resources[u].extName]).None?
      ensures Carriers(after.grid, u) == {}
    {
      CarriersAfter(w, e, u);
      DecoysDoNotAppear(w, e, u);
    }
  }

  /** A provider step never leaves an unstamped object at a cached reference it was not at before. */
  lemma DecoysDoNotAppear(w: World, e: Event, u: Uid)
    requires Inv(w) && e.Reconcile? && LegalProvider(w, e) && u in w.resources
    requires var after := Step(w, e);
             var ext := after.resources[u].extName;
             ext in after.grid && StampOf(after.grid[ext]).None?
    ensures Carriers(Step(w, e).grid, u) == {}
  {
    var after := Step(w, e);
    var ext := after.resources[u].extName;
    ProviderStepIsSafe(w, e);
    CarriersAfter(w, e, u);
    TrimSpaceTrims(e.uid);
    var res := w.resources[e.uid];
    ResolveIsSafe(w.grid, ObserveRefFor(res.name, res.extName), e.uid, e.get, e.search);
    if e.act.Mutate? {
      StampRoundTrip(e.act.attrs, e.uid);
    }
    assert ext in w.grid && w.grid[ext] == after.grid[ext];
    assert w.resources[u].extName == ext;
  }

  lemma DeleteKeepsInv(w: World, e: Event)
    requires Inv(w) && e.Delete? && LegalProvider(w, e)
    ensures Inv(Step(w, e))
  {
    forall u
      ensures Carriers(Step(w, e).grid, u) <= Carriers(w.grid, u)
    {
      CarriersAfter(w, e, u);
    }
  }

  // ---- runs ---------------------------------------------------------------------------------------

  ghost predicate IsRun(run: seq<World>, events: seq<Event>) {
    && |run| == |events| + 1
    && forall i :: 0 <= i < |events| ==> Legal(run[i], events[i]) && run[i + 1] == Step(run[i], events[i])
  }

  /** In every run from an invariant state (for example no resources yet), at every moment, at most one
      object carries each resource's uid; every provider call is safe and touches nobody else's object;
      and a POST leaves the new object as the only carrier. */
  lemma {:induction false} OwnershipOverRuns(run: seq<World>, events: seq<Event>, n: nat)
    requires IsRun(run, events) && Inv(run[0]) && n <= |events|
    ensures Inv(run[n])
    ensures n < |events| && ByProvider(events[n]) ==>
              && SafeCall(run[n], events[n])
              && OthersUntouched(run[n], run[n + 1], events[n].uid)
              && (CallOf(run[n], events[n]).Post? ==>
                    Carriers(run[n + 1].grid, events[n].uid) == {events[n].act.newRef})
  {
    if n > 0 {
      OwnershipOverRuns(run, events, n - 1);
      var w, e := run[n - 1], events[n - 1];
      assert Legal(w, e) && run[n] == Step(w, e);
      if e.Reconcile? {
        ReconcileKeepsInv(w, e);
      } else if e.Delete? {
        DeleteKeepsInv(w, e);
      } else {
        OutsiderStepKeepsInv(w, e);
      }
    }
    if n < |events| && ByProvider(events[n]) {
      assert Legal(run[n], events[n]) && run[n + 1] == Step(run[n], events[n]);
      ProviderStepIsSafe(run[n], events[n]);
      CarriersAfter(run[n], events[n], events[n].uid);
    }
  }

  // ---- crash recovery -----------------------------------------------------------------------------

  /** Whatever was lost in a crash, the next error-free Observe finds the object again and repairs the
      reference, if and only if the cached reference is not occupied by somebody else's object. */
  lemma RecoveryExactly(w: World, e: Event, ref: Ref)
    requires Inv(w) && e.Reconcile? && LegalProvider(w, e) && !e.get.Failed? && !e.search.Failed?
    requires !w.resources[e.uid].deleting && e.observeSaved && e.act.Stop?
    requires Carriers(w.grid, e.uid) == {ref}
    ensures var cached := w.resources[e.uid].extName;
            && (Observed(w, e).Owned? && Step(w, e).resources[e.uid].extName == ref <==>
                  cached !in w.grid || cached == ref)
            && (cached in w.grid && cached != ref ==>
                  && Observed(w, e).Refused? && Observed(w, e).error.HandleReuse?
                  && Step(w, e) == w)
  {
    TrimSpaceTrims(e.uid);
    var res := w.resources[e.uid];
    var cached := res.extName;
    var asked := ObserveRefFor(res.name, cached);
    LadderRows(w.grid, asked, e.uid, e.get, e.search);
    assert ref in Carriers(w.grid, e.uid);
    if cached in w.grid {
      assert cached != res.name && asked == cached;
      if StampOf(w.grid[cached]) == Some(e.uid) {
        assert cached in Carriers(w.grid, e.uid);
      }
    }
  }

  /** Create on a Grid where nothing carries uid and nothing is cached yet. */
  lemma FirstCreate(w: World, uid: Uid, ref: Ref, e: Event)
    requires uid in w.resources && !w.resources[uid].deleting && w.resources[uid].extName == w.resources[uid].name
    requires UsableUid(uid) && Carriers(w.grid, uid) == {}
    requires ref != "" && ref !in w.grid && forall x :: x in w.resources ==> w.resources[x].name != ref
    requires "" !in w.grid && e == Reconcile(uid, Missing, Missing, true, Mutate(ref, map[], map[], true))
    ensures Legal(w, e)
    ensures Step(w, e) == World(w.grid[ref := Obj(Stamped(map[], uid), map[])],
                                w.resources[uid := w.resources[uid].(extName := ref)])
  {
    TrimSpaceTrims(uid);
  }

  /** The rotated reference of u's only object is lost: the PUT went through, the annotation did not. */
  lemma RotateUnsaved(w: World, u: Uid, a: Ref, b: Ref, e: Event)
    requires Inv(w) && u in w.resources && !w.resources[u].deleting && w.resources[u].extName == a
    requires w.grid == map[a := Obj(Stamped(map[], u), map[])] && w.resources[u].name != a
    requires a != "" && b != "" && a != b && forall x :: x in w.resources ==> w.resources[x].name != b
    requires e == Reconcile(u, Found(w.grid[a]), Found([a]), true, Mutate(b, map[], map[], false))
    ensures Legal(w, e)
    ensures Step(w, e) == World(map[b := Obj(Stamped(map[], u), map[])], w.resources)
  {
    TrimSpaceTrims(u);
    StampRoundTrip(map[], u);
    assert Carriers(w.grid, u) == {a};
    assert w.resources == w.resources[u := w.resources[u].(extName := a)];
  }

  /** Two steps from an empty Grid: u's object is created at a, then moves to b unrecorded. */
  lemma LoseReference(w0: World, u: Uid, a: Ref, b: Ref, create: Event, rotate: Event)
    requires Inv(w0) && w0.grid == map[] && u in w0.resources && !w0.resources[u].deleting
    requires w0.resources[u].extName == w0.resources[u].name
    requires a != "" && b != "" && a != b && forall x :: x in w0.resources ==> w0.resources[x].name !in {a, b}
    requires create == Reconcile(u, Missing, Missing, true, Mutate(a, map[], map[], true))
    requires rotate == Reconcile(u, Found(Obj(Stamped(map[], u), map[])), Found([a]), true,
                                 Mutate(b, map[], map[], false))
    ensures Legal(w0, create) && Legal(Step(w0, create), rotate)
    ensures Step(Step(w0, create), rotate) ==
            World(map[b := Obj(Stamped(map[], u), map[])], w0.resources[u := w0.resources[u].(extName := a)])
    ensures Inv(Step(Step(w0, create), rotate))
  {
    FirstCreate(w0, u, a, create);
    ReconcileKeepsInv(w0, create);
    RotateUnsaved(Step(w0, create), u, a, b, rotate);
    ReconcileKeepsInv(Step(w0, create), rotate);
  }

  /** v's new object takes the reference that u's has left. */
  lemma TakeReference(w: World, u: Uid, v: Uid, a: Ref, b: Ref, take: Event)
    requires Inv(w) && u != v && v in w.resources && !w.resources[v].deleting
    requires w.resources[v].extName == w.resources[v].name
    requires w.grid == map[b := Obj(Stamped(map[], u), map[])] && a != "" && a != b
    requires forall x :: x in w.resources ==> w.resources[x].name != a
    requires take == Reconcile(v, Missing, Missing, true, Mutate(a, map[], map[], true))
    ensures Legal(w, take)
    ensures Step(w, take).grid == w.grid[a := Obj(Stamped(map[], v), map[])]
    ensures Step(w, take).resources == w.resources[v := w.resources[v].(extName := a)]
    ensures Carriers(Step(w, take).grid, u) == {b}
  {
    StampRoundTrip(map[], u);
    StampRoundTrip(map[], v);
    assert Carriers(w.grid, v) == {};
    FirstCreate(w, v, a, take);
  }

  /** v's object sits where u's resource looks for its own. */
  lemma TakenReferenceIsRefused(w: World, u: Uid, v: Uid, a: Ref, e: Event)
    requires u != v && u in w.resources && w.resources[u].extName == a && w.resources[u].name != a && a != ""
    requires a in w.grid && w.grid[a].ea == Stamped(map[], v)
    requires e.Reconcile? && e.uid == u && LegalProvider(w, e) && !e.get.Failed? && !e.search.Failed?
    ensures Observed(w, e) == Refused(HandleReuse(a, u, v)) && Step(w, e) == w
  {
    TrimSpaceTrims(u);
    StampRoundTrip(map[], v);
  }

  /** The blocked case is reachable from an empty Grid: u's rotated reference is lost in a crash, v's new
      object takes the old one, and from then on every error-free Observe of u is refused. */
  lemma LostReferenceCanBeTaken(w0: World, u: Uid, v: Uid, a: Ref, b: Ref) returns (run: seq<World>, events: seq<Event>)
    requires Inv(w0) && w0.grid == map[] && u != v && u in w0.resources && v in w0.resources
    requires forall x :: x in w0.resources ==>
                           w0.resources[x].extName == w0.resources[x].name && !w0.resources[x].deleting
    requires a != "" && b != "" && a != b && forall x :: x in w0.resources ==> w0.resources[x].name !in {a, b}
    ensures IsRun(run, events) && run[0] == w0 && |events| == 3
    ensures forall i :: 0 <= i < 3 ==> events[i].Reconcile?
    ensures Carriers(run[3].grid, u) == {b} && u in run[3].resources && run[3].resources[u].extName == a
    ensures forall e: Event ::
              e.Reconcile? && e.uid == u && LegalProvider(run[3], e) && !e.get.Failed? && !e.search.Failed? ==>
                Observed(run[3], e) == Refused(HandleReuse(a, u, v)) && Step(run[3], e) == run[3]
  {
    var uObj := Obj(Stamped(map[], u), map[]);
    var create := Reconcile(u, Missing, Missing, true, Mutate(a, map[], map[], true));
    var rotate := Reconcile(u, Found(uObj), Found([a]), true, Mutate(b, map[], map[], false));
    LoseReference(w0, u, a, b, create, rotate);
    var w1, w2 := Step(w0, create), Step(Step(w0, create), rotate);
    var take := Reconcile(v, Missing, Missing, true, Mutate(a, map[], map[], true));
    TakeReference(w2, u, v, a, b, take);
    var w3 := Step(w2, take);
    run := [w0, w1, w2, w3];
    events := [create, rotate, take];
    forall e: Event | e.Reconcile? && e.uid == u && LegalProvider(w3, e) && !e.get.Failed? && !e.search.Failed?
      ensures Observed(w3, e) == Refused(HandleReuse(a, u, v)) && Step(w3, e) == w3
    {
      TakenReferenceIsRefused(w3, u, v, a, e);
    }
  }

  /** Why NoDecoy is assumed: an unstamped object at the cached reference is adopted without a search,
      so the update that stamps it leaves one carrier exactly when nothing carried the uid before. */
  lemma AdoptionDoesNotSearch(w: World, e: Event)
    requires e.Reconcile? && LegalProvider(w, e) && e.act.Mutate? && !w.resources[e.uid].deleting
    requires Observed(w, e).Owned? && Observed(w, e).outcome.Adopted?
    ensures Carriers(Step(w, e).grid, e.uid) == Carriers(w.grid, e.uid) + {e.act.newRef}
    ensures |Carriers(Step(w, e).grid, e.uid)| == 1 <==> Carriers(w.grid, e.uid) == {}
  {
    CarriersAfter(w, e, e.uid);
    TrimSpaceTrims(e.uid);
    var res := w.resources[e.uid];
    ResolveIsSafe(w.grid, ObserveRefFor(res.name, res.extName), e.uid, e.get, e.search);
    var r := Observed(w, e).ref;
    var before, after := Carriers(w.grid, e.uid), Carriers(Step(w, e).grid, e.uid);
    assert r !in before && e.act.newRef !in before;
    assert after == before + {e.act.newRef};
    if before != {} {
      var x :| x in before;
      assert {x, e.act.newRef} <= after;
      assert |after| == |before| + 1 && |before| >= 1;
    } else {
      assert after == {e.act.newRef};
    }
  }

  // ---- the unguarded update -------------------------------------------------------------------------

  /** The Grid after a PUT that trusts the external name, as Update issues it. */
  function BlindPut(grid: Grid, uid: Uid, extName: Ref, newRef: Ref, attrs: EA, fields: Fields): Grid {
    (grid - {extName})[newRef := Obj(Stamped(attrs, uid), fields)]
  }

  /** If something may happen between Observe and Update, ownership holds exactly when the object then
      found at the external name is still unstamped or own. */
  lemma UpdateTrustsExternalName(w: World, uid: Uid, extName: Ref, newRef: Ref, attrs: EA, fields: Fields)
    requires extName in w.grid && FreeFor(w, extName, newRef)
    ensures OthersUntouched(w, w.(grid := BlindPut(w.grid, uid, extName, newRef, attrs, fields)), uid) <==>
            StampOf(w.grid[extName]).None? || StampOf(w.grid[extName]) == Some(uid)
  {
    var after := BlindPut(w.grid, uid, extName, newRef, attrs, fields);
    StampRoundTrip(attrs, uid);
    if extName in after {
      assert StampOf(after[extName]) == Some(uid);
    }
  }
}
