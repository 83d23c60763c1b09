/** The external client shared by the DTCLBDN and DNSView controllers
    (internal/controller/dtclbdn/cluster.go and controller.go, internal/controller/dnsview/cluster.go
    and controller.go), in their own imperative form, and the proof that one reconcile through it is
    one step of the run model.  Faults of every remote call are parameters. */
module Controllers {
  import opened Wrappers
  import opened Text
  import opened Identity
  import opened ReconcileRuns

  datatype CallError =
    | Wapi(error: string)
    | NotFoundError
    | Ladder(reason: IdentityError)
    | NoPrerequisite
    | EmptyUidError
    | UnverifiedOwnership
    | NotPersisted

  /** The Grid behind the connector. */
  class Connector {
    var objects: Grid

    method GetObject(ref: Ref, fault: Option<string>) returns (r: Reply<Obj>)
      ensures GetAnswers(objects, ref, r) && (r.Failed? <==> fault.Some?)
    {
      if fault.Some? {
        return Failed(fault.value);
      }
      r := if ref in objects then Found(objects[ref]) else Missing;
    }

    method SearchByUid(uid: Uid, fault: Option<string>) returns (r: Reply<seq<Ref>>)
      ensures SearchAnswers(objects, uid, r) && (r.Failed? <==> fault.Some?)
    {
      if fault.Some? {
        return Failed(fault.value);
      }
      var refs: seq<Ref> := [];
      var todo := Carriers(objects, uid);
      while todo != {}
        invariant todo <= Carriers(objects, uid)
        invariant forall i, j :: 0 <= i < j < |refs| ==> refs[i] != refs[j]
        invariant forall x :: x in refs <==> x in Carriers(objects, uid) && x !in todo
      {
        var x :| x in todo;
        refs := refs + [x];
        todo := todo - {x};
      }
      r := if |refs| == 0 then Missing else Found(refs);
    }

    method CreateObject(o: Obj, newRef: Ref, fault: Option<string>) returns (r: Result<Ref, CallError>)
      requires newRef !in objects
      modifies this
      ensures r == if fault.Some? then Err(Wapi(fault.value)) else Ok(newRef)
      ensures objects == if fault.Some? then old(objects) else old(objects)[newRef := o]
    {
      if fault.Some? {
        return Err(Wapi(fault.value));
      }
      objects := objects[newRef := o];
      return Ok(newRef);
    }

    /** The object moves to newRef when the fields its reference is rendered from change. */
    method UpdateObject(o: Obj, ref: Ref, newRef: Ref, fault: Option<string>) returns (r: Result<Ref, CallError>)
      requires newRef == ref || newRef !in objects
      modifies this
      ensures r == if fault.Some? then Err(Wapi(fault.value))
                   else if ref !in old(objects) then Err(NotFoundError)
                   else Ok(newRef)
      ensures objects == if r.Ok? then (old(objects) - {ref})[newRef := o] else old(objects)
    {
      if fault.Some? {
        return Err(Wapi(fault.value));
      }
      if ref !in objects {
        return Err(NotFoundError);
      }
      objects := (objects - {ref})[newRef := o];
      return Ok(newRef);
    }

    method DeleteObject(ref: Ref, fault: Option<string>) returns (r: Result<(), CallError>)
      modifies this
      ensures r == if fault.Some? then Err(Wapi(fault.value))
                   else if ref !in old(objects) then Err(NotFoundError)
                   else Ok(())
      ensures objects == if r.Ok? then old(objects) - {ref} else old(objects)
    {
      if fault.Some? {
        return Err(Wapi(fault.value));
      }
      if ref !in objects {
        return Err(NotFoundError);
      }
      objects := objects - {ref};
      return Ok(());
    }
  }

  /** What the API server holds. */
  class ApiServer {
    var resources: map<Uid, Resource>
  }

  /** The managed resource in memory during one reconcile. */
  class Managed {
    const uid: Uid
    const name: string
    const deleting: bool
    var extName: string

    constructor (uid: Uid, res: Resource)
      ensures this.uid == uid && name == res.name && deleting == res.deleting && extName == res.extName
    {
      this.uid, name, deleting, extName := uid, res.name, res.deleting, res.extName;
    }
  }

  const WELL_KNOWN_VIEWS := {"default", "External", "Internal"}

  datatype Observation = Observation(exists_: bool, upToDate: bool, lateInitialized: bool)

  /** Faults and answers of the remote calls made on behalf of one client call. */
  datatype Faults = Faults(get: Option<string>, search: Option<string>, prerequisiteOk: bool, call: Option<string>,
                           refreshOk: bool)

  class External {
    const conn: Connector
    const kube: ApiServer

    constructor (conn: Connector, kube: ApiServer)
      ensures this.conn == conn && this.kube == kube
    {
      this.conn, this.kube := conn, kube;
    }

    /** fieldsEqual and fieldsFilled are the verdicts of the resource's own comparison and
        late-initialization. */
    method Observe(cr: Managed, f: Faults, fieldsEqual: bool, fieldsFilled: bool)
      returns (r: Result<Observation, CallError>, ghost get: Reply<Obj>, ghost search: Reply<seq<Ref>>)
      requires Trimmed(cr.uid)
      modifies cr`extName
      ensures Answers(conn.objects, ObserveRefFor(cr.name, old(cr.extName)), cr.uid, get, search)
      ensures match Resolve(ObserveRefFor(cr.name, old(cr.extName)), cr.uid, get, search)
              case Refused(e) => r.Err? && cr.extName == old(cr.extName)
              case NotThere => r == Ok(Observation(false, false, false)) && cr.extName == old(cr.extName)
              case Owned(outcome, ref) =>
                && cr.extName == ref
                && r == Ok(Observation(true, fieldsEqual && !outcome.Adopted?,
                                       fieldsFilled || outcome.Rotated? || outcome.FoundByUID?))
      // a call that failed is an error, whatever else would have been found
      ensures f.get.Some? && old(cr.extName) !in {"", cr.name} ==> r.Err? && cr.extName == old(cr.extName)
      ensures f.search.Some? &&
              (old(cr.extName) in {"", cr.name} || (f.get.None? && old(cr.extName) !in conn.objects)) ==>
                r.Err? && cr.extName == old(cr.extName)
    {
      TrimSpaceTrims(cr.uid);
      var ref := ObserveRefFor(cr.name, cr.extName);
      var g := conn.GetObject(ref, f.get);
      var s := conn.SearchByUid(cr.uid, f.search);
      get, search := g, s;
      var res := Resolve(ref, cr.uid, g, s);
      match res
      case Refused(e) =>
        if e.SearchFailed? && !f.prerequisiteOk {
          return Err(NoPrerequisite), get, search;
        }
        return Err(Ladder(e)), get, search;
      case NotThere =>
        return Ok(Observation(false, false, false)), get, search;
      case Owned(outcome, found) =>
        var changed := fieldsFilled;
        if outcome.Rotated? || outcome.FoundByUID? {
          cr.extName := found;
          changed := true;
        }
        return Ok(Observation(true, fieldsEqual && !outcome.Adopted?, changed)), get, search;
    }

    method Create(cr: Managed, f: Faults, attrs: EA, fields: Fields, newRef: Ref) returns (r: Result<(), CallError>)
      requires newRef !in conn.objects
      modifies conn, cr`extName
      ensures r.Ok? <==> TrimSpace(cr.uid) != "" && f.prerequisiteOk && f.call.None?
      ensures r.Ok? ==> cr.extName == newRef &&
                        conn.objects == old(conn.objects)[newRef := Obj(Stamped(attrs, cr.uid), fields)]
      ensures r.Err? ==> conn.objects == old(conn.objects) && cr.extName == old(cr.extName)
    {
      if TrimSpace(cr.uid) == "" {
        return Err(EmptyUidError);
      }
      if !f.prerequisiteOk {
        return Err(NoPrerequisite);
      }
      var ea := Stamp(attrs, cr.uid);
      var created := conn.CreateObject(Obj(ea, fields), newRef, f.call);
      if created.Err? {
        return Err(created.error);
      }
      cr.extName := created.value;
      return Ok(());
    }

    /** PUTs at the external name without resolving it again; a rotated reference is persisted at once. */
    method Update(cr: Managed, f: Faults, attrs: EA, fields: Fields, newRef: Ref) returns (r: Result<(), CallError>)
      requires newRef == cr.extName || newRef !in conn.objects
      requires newRef != "" && cr.uid in kube.resources
      modifies conn, kube, cr`extName
      ensures var put := f.prerequisiteOk && TrimSpace(cr.uid) != "" && f.call.None? &&
                         old(cr.extName) in old(conn.objects);
              && conn.objects == (if !put then old(conn.objects)
                                  else BlindPut(old(conn.objects), cr.uid, old(cr.extName), newRef, attrs, fields))
              && (r.Ok? <==> put && (newRef == old(cr.extName) || f.refreshOk))
              && cr.extName == (if r.Ok? then newRef else old(cr.extName))
              && kube.resources == (if r.Ok? && newRef != old(cr.extName)
                                    then Renamed(old(kube.resources), cr.uid, newRef)
                                    else old(kube.resources))
    {
      if !f.prerequisiteOk {
        return Err(NoPrerequisite);
      }
      if TrimSpace(cr.uid) == "" {
        return Err(EmptyUidError);
      }
      var ea := Stamp(attrs, cr.uid);
      var updated := conn.UpdateObject(Obj(ea, fields), cr.extName, newRef, f.call);
      if updated.Err? {
        return Err(updated.error);
      }
      if updated.value != "" && updated.value != cr.extName {
        if !f.refreshOk {
          return Err(NotPersisted);
        }
        kube.resources := kube.resources[cr.uid := kube.resources[cr.uid].(extName := updated.value)];
        cr.extName := updated.value;
      }
      return Ok(());
    }

    /** viewName is the observed (else desired) name of a DNSView, and None for every other kind. */
    method Delete(cr: Managed, f: Faults, viewName: Option<string>)
      returns (r: Result<(), CallError>, ghost get: Reply<Obj>, ghost search: Reply<seq<Ref>>)
      requires Trimmed(cr.uid)
      modifies conn
      ensures Answers(old(conn.objects), cr.extName, cr.uid, get, search)
      ensures viewName.Some? && viewName.value in WELL_KNOWN_VIEWS ==> r.Ok? && conn.objects == old(conn.objects)
      ensures viewName.None? || viewName.value !in WELL_KNOWN_VIEWS ==>
                match Resolve(cr.extName, cr.uid, get, search)
                case Refused(_) => r.Err? && conn.objects == old(conn.objects)
                case NotThere => r.Ok? && conn.objects == old(conn.objects)
                case Owned(Adopted, _) => r == Err(UnverifiedOwnership) && conn.objects == old(conn.objects)
                case Owned(_, ref) =>
                  && (r.Ok? <==> f.call.None?)
                  && conn.objects == if r.Ok? then old(conn.objects) - {ref} else old(conn.objects)
      // the three views the appliance provisions
      ensures viewName in {Some("default"), Some("External"), Some("Internal")} ==>
                r.Ok? && conn.objects == old(conn.objects)
      // a call that failed is an error, and nothing is deleted
      ensures (viewName.None? || viewName.value !in WELL_KNOWN_VIEWS) && f.get.Some? && cr.extName != "" ==>
                r.Err? && conn.objects == old(conn.objects)
      ensures (viewName.None? || viewName.value !in WELL_KNOWN_VIEWS) && f.search.Some? &&
              (cr.extName == "" || (f.get.None? && cr.extName !in old(conn.objects))) ==>
                r.Err? && conn.objects == old(conn.objects)
      // one step of the run model
      ensures UsableUid(cr.uid) && (viewName.None? || viewName.value !in WELL_KNOWN_VIEWS) ==>
                var e := Event.Delete(cr.uid, cr.extName, get, search, f.call.None?);
                LegalProvider(old(TheWorld()), e) && TheWorld() == Step(old(TheWorld()), e)
    {
      TrimSpaceTrims(cr.uid);
      var g := conn.GetObject(cr.extName, f.get);
      var s := conn.SearchByUid(cr.uid, f.search);
      get, search := g, s;
      if viewName.Some? && viewName.value in WELL_KNOWN_VIEWS {
        return Ok(()), get, search;
      }
      ResolveIsSafe(conn.objects, cr.extName, cr.uid, g, s);
      match Resolve(cr.extName, cr.uid, g, s)
      case Refused(e) =>
        if e.SearchFailed? && !f.prerequisiteOk {
          return Err(NoPrerequisite), get, search;
        }
        return Err(Ladder(e)), get, search;
      case NotThere => return Ok(()), get, search;
      case Owned(outcome, ref) =>
        if outcome.Adopted? {
          return Err(UnverifiedOwnership), get, search;
        }
        var deleted := conn.DeleteObject(ref, f.call);
        if deleted.Err? && deleted.error.NotFoundError? {
          return Ok(()), get, search;
        }
        return deleted, get, search;
    }

    ghost function TheWorld(): World
      reads conn, kube
    {
      World(conn.objects, kube.resources)
    }

    /** The resources with uid's external name replaced. */
    static ghost function Renamed(resources: map<Uid, Resource>, uid: Uid, extName: string): map<Uid, Resource>
      requires uid in resources
    {
      resources[uid := resources[uid].(extName := extName)]
    }

    /** The half of a reconcile after Observe found nothing: Create, then persist the new name. */
    method CreateAbsent(cr: Managed, call: Faults, nameOk: bool, attrs: EA, fields: Fields, newRef: Ref)
      returns (act: Act)
      requires cr.uid in kube.resources && UsableUid(cr.uid) && newRef !in conn.objects
      modifies conn, kube, cr`extName
      ensures act == if call.prerequisiteOk && call.call.None? then Mutate(newRef, fields, attrs, nameOk) else Stop
      ensures TheWorld() == if act.Stop? then old(TheWorld())
                            else World(old(conn.objects)[newRef := Obj(Stamped(attrs, cr.uid), fields)],
                                       if nameOk then Renamed(old(kube.resources), cr.uid, newRef)
                                       else old(kube.resources))
    {
      TrimSpaceTrims(cr.uid);
      var created := Create(cr, call, attrs, fields, newRef);
      if created.Err? {
        return Stop;
      }
      if nameOk {
        kube.resources := kube.resources[cr.uid := kube.resources[cr.uid].(extName := cr.extName)];
      }
      return Mutate(newRef, fields, attrs, nameOk);
    }

    /** The half after Observe found the object: persist what Observe changed, then Update if needed. */
    method UpdatePresent(cr: Managed, o: Observation, persistOk: bool, call: Faults, attrs: EA, fields: Fields,
                         newRef: Ref)
      returns (act: Act)
      requires cr.uid in kube.resources && UsableUid(cr.uid) && cr.extName in conn.objects
      requires newRef == cr.extName || newRef !in conn.objects
      requires newRef != "" && (!o.lateInitialized ==> kube.resources[cr.uid].extName == cr.extName)
      modifies conn, kube, cr`extName
      ensures var stopped := (o.lateInitialized && !persistOk) || o.upToDate || !call.prerequisiteOk || call.call.Some?;
              && (stopped <==> act.Stop?)
              && (act.Mutate? ==> act.newRef == newRef && act.fields == fields && act.attrs == attrs)
      ensures TheWorld() == if o.lateInitialized && !persistOk then old(TheWorld())
                            else if act.Stop? then World(old(conn.objects),
                                                         Renamed(old(kube.resources), cr.uid, old(cr.extName)))
                            else World(BlindPut(old(conn.objects), cr.uid, old(cr.extName), newRef, attrs, fields),
                                       Renamed(old(kube.resources), cr.uid,
                                               if act.saved then newRef else old(cr.extName)))
    {
      TrimSpaceTrims(cr.uid);
      ghost var ref := cr.extName;
      if o.lateInitialized {
        if !persistOk {
          return Stop;
        }
        kube.resources := kube.resources[cr.uid := kube.resources[cr.uid].(extName := cr.extName)];
      }
      assert kube.resources == old(kube.resources)[cr.uid := old(kube.resources)[cr.uid].(extName := ref)];
      if o.upToDate {
        return Stop;
      }
      var updated := Update(cr, call, attrs, fields, newRef);
      if !call.prerequisiteOk || call.call.Some? {
        return Stop;
      }
      return Mutate(newRef, fields, attrs, updated.Ok?);
    }

    /** One reconcile of a live resource in the runtime's order: Observe, then one of the halves above.
        It is one step of the run model. */
    method Reconcile(uid: Uid, observe: Faults, persistOk: bool, call: Faults, createdNameOk: bool,
                     fieldsEqual: bool, fieldsFilled: bool, attrs: EA, fields: Fields, newRef: Ref, rotates: bool)
      returns (ghost e: Event)
      requires uid in kube.resources && !kube.resources[uid].deleting && UsableUid(uid) && NamesAreNotRefs(TheWorld())
      requires newRef != "" && newRef !in conn.objects
      requires forall u :: u in kube.resources ==> kube.resources[u].name != newRef
      modifies conn, kube
      ensures e.Reconcile? && e.uid == uid && LegalProvider(old(TheWorld()), e)
      ensures TheWorld() == Step(old(TheWorld()), e)
    {
      ghost var before := TheWorld();
      TrimSpaceTrims(uid);
      var cr := new Managed(uid, kube.resources[uid]);
      var observed, get, search := Observe(cr, observe, fieldsEqual, fieldsFilled);
      ResolveIsSafe(before.grid, ObserveRefFor(cr.name, before.resources[uid].extName), uid, get, search);
      e := Event.Reconcile(uid, get, search, persistOk, Stop);
      if observed.Err? {
        return;
      }
      var act;
      if observed.value.exists_ {
        var answer := if rotates then newRef else cr.extName;
        act := UpdatePresent(cr, observed.value, persistOk, call, attrs, fields, answer);
      } else {
        act := CreateAbsent(cr, call, createdNameOk, attrs, fields, newRef);
      }
      e := Event.Reconcile(uid, get, search, persistOk, act);
    }
  }
}
