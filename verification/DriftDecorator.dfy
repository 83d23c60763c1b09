/** The drift-detection decorator around an external client (internal/driftdetection/driftdetection.go:
    snapshot, apply, external.Observe, external.Update, external.Disconnect).  A managed resource is its
    projection to JSON; what the wrapped client does to the object it is given is a parameter. */
module DriftDecorator {
  import opened Wrappers
  import opened Text
  import opened DriftPaths
  import opened DriftConfig
  import opened Json

  /** values: what was reported, by ignored path; unobserved: the ignored paths not reported. */
  datatype Observation = Observation(values: map<string, Value>, unobserved: seq<string>)

  /** forProvider.x is mirrored at status.atProvider.x. */
  function AtPath(path: string): Path {
    ["status", "atProvider"] + Split(path, '.')[1..]
  }

  function SpecPath(path: string): Path {
    ["spec"] + Split(path, '.')
  }

  // ---- snapshot -----------------------------------------------------------------------------------

  /** What the document reports for a path: its segments but for the first, below status.atProvider. */
  ghost function Reported(doc: Value, path: string): Lookup {
    GetValue(doc, ["status", "atProvider"] + Split(path, '.')[1..])
  }

  ghost predicate ObservedIn(doc: Value, paths: seq<string>, o: Observation) {
    && (forall p :: p in o.values <==> p in paths && Reported(doc, p).Found?)
    && (forall p :: p in o.values ==> Reported(doc, p) == Found(o.values[p]))
    && (forall p :: p in o.unobserved <==> p in paths && Reported(doc, p).NotFound?)
  }

  method Snapshot(doc: Value, paths: seq<string>) returns (r: Option<Observation>)
    ensures r.Some? <==> forall p :: p in paths ==> Reported(doc, p) != NotAnObject
    ensures r.Some? ==> ObservedIn(doc, paths, r.value)
  {
    var o := Observation(map[], []);
    for i := 0 to |paths|
      invariant ObservedIn(doc, paths[..i], o)
      invariant forall p :: p in paths[..i] ==> Reported(doc, p) != NotAnObject
    {
      var p := paths[i];
      assert paths[..i] + [p] == paths[..i + 1];
      assert GetValue(doc, AtPath(p)) == Reported(doc, p);
      match GetValue(doc, AtPath(p))
      case NotFound => o := o.(unobserved := o.unobserved + [p]);
      case NotAnObject => return None;
      case Found(v) => o := o.(values := o.values[p := v]);
    }
    assert paths[..|paths|] == paths;
    return Some(o);
  }

  // ---- apply ----------------------------------------------------------------------------------------

  predicate ApartPaths(paths: set<string>) {
    forall p, q :: p in paths && q in paths && p != q ==> Apart(SpecPath(p), SpecPath(q))
  }

  /** No two of the paths lie one below the other. */
  ghost predicate ApartList(paths: seq<string>) {
    forall p, q :: p in paths && q in paths && p != q ==> Apart(SpecPath(p), SpecPath(q))
  }

  lemma PrefixFreeIsApart(paths: seq<string>)
    requires PrefixFree(paths)
    ensures ApartList(paths)
  {
    forall p, q | p in paths && q in paths && p != q
      ensures Apart(SpecPath(p), SpecPath(q))
    {
      var i :| 0 <= i < |paths| && paths[i] == p;
      var j :| 0 <= j < |paths| && paths[j] == q;
      assert !(Split(paths[i], '.') <= Split(paths[j], '.')) && !(Split(paths[j], '.') <= Split(paths[i], '.'));
      assert SpecPath(p)[1..] == Split(p, '.') && SpecPath(q)[1..] == Split(q, '.');
    }
  }

  ghost function SomeKey(values: map<string, Value>): (k: string)
    requires values != map[]
    ensures k in values
  {
    var k :| k in values;
    k
  }

  lemma Smaller(values: map<string, Value>, k: string)
    requires k in values
    ensures |values - {k}| < |values|
  {
    assert values == (values - {k})[k := values[k]];
  }

  /** Every value written over its path, in some order. */
  ghost function Substituted(doc: Value, values: map<string, Value>): Option<Value>
    decreases |values|
  {
    if values == map[] then Some(doc)
    else
      var k := SomeKey(values);
      Smaller(values, k);
      AndSet(Substituted(doc, values - {k}), SpecPath(k), values[k])
  }

  lemma WritesCommute(v: Option<Value>, p: Path, x: Value, q: Path, y: Value)
    requires Apart(p, q)
    ensures AndSet(AndSet(v, p, x), q, y) == AndSet(AndSet(v, q, y), p, x)
  {
    if v.Some? {
      SetCommutes(v.value, p, x, q, y);
    }
  }

  /** Any of the paths could have been written last: the order does not matter. */
  lemma {:induction false} AnyPathLast(doc: Value, values: map<string, Value>, k: string)
    requires ApartPaths(values.Keys) && k in values
    ensures Substituted(doc, values) == AndSet(Substituted(doc, values - {k}), SpecPath(k), values[k])
    decreases |values|
  {
    var k0 := SomeKey(values);
    if k != k0 {
      Smaller(values, k0);
      Smaller(values, k);
      AnyPathLast(doc, values - {k0}, k);
      AnyPathLast(doc, values - {k}, k0);
      assert values - {k0} - {k} == values - {k} - {k0};
      WritesCommute(Substituted(doc, values - {k} - {k0}), SpecPath(k), values[k], SpecPath(k0), values[k0]);
    }
  }

  lemma {:induction false} FailureStays(doc: Value, values: map<string, Value>, todo: set<string>)
    requires ApartPaths(values.Keys) && todo <= values.Keys && Substituted(doc, values - todo).None?
    ensures Substituted(doc, values).None?
    decreases |values|
  {
    if todo == {} {
      assert values - todo == values;
    } else {
      var k :| k in todo;
      AnyPathLast(doc, values, k);
      Smaller(values, k);
      assert values - {k} - (todo - {k}) == values - todo;
      FailureStays(doc, values - {k}, todo - {k});
    }
  }

  /** The loop runs over the map in an arbitrary order. */
  method Apply(doc: Value, o: Option<Observation>) returns (shadow: Option<Value>)
    requires o.Some? ==> ApartPaths(o.value.values.Keys)
    ensures shadow == Substituted(doc, if o.None? then map[] else o.value.values)
  {
    if o.None? || |o.value.values| == 0 {
      return Some(doc);
    }
    var values := o.value.values;
    var p := doc;
    var todo := values.Keys;
    assert values - todo == map[];
    while todo != {}
      invariant todo <= values.Keys
      invariant Substituted(doc, values - todo) == Some(p)
    {
      var k :| k in todo;
      var rest := values - (todo - {k});
      assert rest - {k} == values - todo;
      AnyPathLast(doc, rest, k);
      var written := SetValue(p, SpecPath(k), values[k]);
      if written.None? {
        FailureStays(doc, values, todo - {k});
        return None;
      }
      p := written.value;
      todo := todo - {k};
    }
    assert values - todo == values;
    return Some(p);
  }

  /** What substitution means: every captured path carries its captured value, and whatever is neither
      above nor below a captured path reads as before. */
  lemma {:induction false} SubstitutedReads(doc: Value, values: map<string, Value>, r: Value)
    requires ApartPaths(values.Keys) && Substituted(doc, values) == Some(r)
    ensures forall k :: k in values ==> GetValue(r, SpecPath(k)) == Found(values[k])
    ensures forall q: Path :: (forall k :: k in values ==> Apart(SpecPath(k), q)) ==>
                                (GetValue(doc, q).Found? || GetValue(r, q).Found? ==>
                                   GetValue(r, q) == GetValue(doc, q))
    decreases |values|
  {
    forall k | k in values
      ensures GetValue(r, SpecPath(k)) == Found(values[k])
    {
      AnyPathLast(doc, values, k);
      SetThenGet(Substituted(doc, values - {k}).value, SpecPath(k), values[k]);
    }
    if values != map[] {
      var k := SomeKey(values);
      Smaller(values, k);
      AnyPathLast(doc, values, k);
      var before := Substituted(doc, values - {k}).value;
      SubstitutedReads(doc, values - {k}, before);
      forall q: Path | (forall k :: k in values ==> Apart(SpecPath(k), q)) &&
                       (GetValue(doc, q).Found? || GetValue(r, q).Found?)
        ensures GetValue(r, q) == GetValue(doc, q)
      {
        SetKeepsOthers(before, SpecPath(k), values[k], q);
      }
    }
  }

  // ---- the trace --------------------------------------------------------------------------------

  /** Captured: Observe read the ignored paths of doc.  Written: the wrapped client's Update ran on payload for
      an object whose document was doc. */
  datatype Event =
    | Captured(doc: Value, ignore: seq<string>, observation: Observation)
    | Dropped
    | Written(config: Config, doc: Value, payload: Value)

  ghost function LatestCapture(log: seq<Event>): Option<Observation>
    decreases |log|
  {
    if log == [] then None
    else
      match log[|log| - 1]
      case Captured(_, _, o) => Some(o)
      case Dropped => None
      case Written(_, _, _) => LatestCapture(log[..|log| - 1])
  }

  predicate Substitutes(c: Config) {
    c.mode == MODE_ENABLED && c.ignore != []
  }

  /** A write is justified by the capture before it, or the configuration asks for no substitution. */
  ghost predicate Justified(before: seq<Event>, w: Event)
    requires w.Written?
  {
    if Substitutes(w.config) then
      LatestCapture(before).Some? && Substituted(w.doc, LatestCapture(before).value.values) == Some(w.payload)
    else w.payload == w.doc
  }

  ghost predicate FailClosed(log: seq<Event>) {
    forall i :: 0 <= i < |log| && log[i].Written? ==> Justified(log[..i], log[i])
  }

  /** The capture at j is the last thing that happened but for writes. */
  ghost predicate CapturedAt(log: seq<Event>, j: nat, o: Observation) {
    j < |log| && log[j].Captured? && log[j].observation == o && forall k :: j < k < |log| ==> log[k].Written?
  }

  lemma {:induction false} CaptureBefore(log: seq<Event>) returns (j: nat)
    requires LatestCapture(log).Some?
    ensures CapturedAt(log, j, LatestCapture(log).value)
    decreases |log|
  {
    var front := log[..|log| - 1];
    if log[|log| - 1].Written? {
      j := CaptureBefore(front);
    } else {
      j := |log| - 1;
    }
  }

  /** The captures hold what their documents reported, under paths that lie apart. */
  ghost predicate SoundCaptures(log: seq<Event>) {
    forall j :: 0 <= j < |log| && log[j].Captured? ==>
                  ObservedIn(log[j].doc, log[j].ignore, log[j].observation) && ApartList(log[j].ignore)
  }

  /** The owners' values by place.  Where the captured document held a value under status.atProvider for an
      ignored path below forProvider, the payload holds that very value under spec.forProvider.  Every other
      ignored path, and whatever is neither above nor below a path with a value, is the object's own. */
  ghost predicate OwnersDecide(seen: Value, ignore: seq<string>, own: Value, payload: Value) {
    && (forall p, rest: Path :: p in ignore && Split(p, '.') == ["forProvider"] + rest ==>
          var reported := GetValue(seen, ["status", "atProvider"] + rest);
          var at := ["spec", "forProvider"] + rest;
          if reported.Found? then GetValue(payload, at) == reported else SameAt(own, payload, at))
    && (forall at: Path :: (forall p :: p in ignore && Reported(seen, p).Found? ==> Apart(["spec"] + Split(p, '.'), at))
                             ==> SameAt(own, payload, at))
  }

  ghost predicate SameAt(a: Value, b: Value, at: Path) {
    GetValue(a, at).Found? || GetValue(b, at).Found? ==> GetValue(a, at) == GetValue(b, at)
  }

  lemma PathsOf(path: string, rest: Path)
    requires Split(path, '.') == ["forProvider"] + rest
    ensures ["status", "atProvider"] + Split(path, '.')[1..] == ["status", "atProvider"] + rest
    ensures SpecPath(path) == ["spec", "forProvider"] + rest
  {
    assert Split(path, '.')[1..] == rest;
    assert ["spec"] + (["forProvider"] + rest) == ["spec", "forProvider"] + rest;
  }

  lemma CapturedPathCarries(seen: Value, ignore: seq<string>, o: Observation, own: Value, payload: Value, p: string)
    requires ObservedIn(seen, ignore, o) && ApartList(ignore) && Substituted(own, o.values) == Some(payload)
    requires p in ignore
    ensures if Reported(seen, p).Found? then GetValue(payload, SpecPath(p)) == Reported(seen, p)
            else SameAt(own, payload, SpecPath(p))
  {
    assert ApartPaths(o.values.Keys);
    SubstitutedReads(own, o.values, payload);
    if p !in o.values {
      assert forall k :: k in o.values ==> Apart(SpecPath(k), SpecPath(p));
    }
  }

  lemma IgnoredPathCarries(seen: Value, ignore: seq<string>, o: Observation, own: Value, payload: Value,
                           p: string, rest: Path)
    requires ObservedIn(seen, ignore, o) && ApartList(ignore) && Substituted(own, o.values) == Some(payload)
    requires p in ignore && Split(p, '.') == ["forProvider"] + rest
    ensures var reported := GetValue(seen, ["status", "atProvider"] + rest);
            var at := ["spec", "forProvider"] + rest;
            if reported.Found? then GetValue(payload, at) == reported else SameAt(own, payload, at)
  {
    CapturedPathCarries(seen, ignore, o, own, payload, p);
    PathsOf(p, rest);
  }

  lemma OtherPathStays(seen: Value, ignore: seq<string>, o: Observation, own: Value, payload: Value, at: Path)
    requires ObservedIn(seen, ignore, o) && ApartList(ignore) && Substituted(own, o.values) == Some(payload)
    requires forall p :: p in ignore && Reported(seen, p).Found? ==> Apart(["spec"] + Split(p, '.'), at)
    ensures SameAt(own, payload, at)
  {
    assert ApartPaths(o.values.Keys);
    SubstitutedReads(own, o.values, payload);
    assert forall k :: k in o.values ==> Apart(SpecPath(k), at);
  }

  lemma SubstitutionCarries(seen: Value, ignore: seq<string>, o: Observation, own: Value, payload: Value)
    requires ObservedIn(seen, ignore, o) && ApartList(ignore) && Substituted(own, o.values) == Some(payload)
    ensures OwnersDecide(seen, ignore, own, payload)
  {
    forall p, rest: Path | p in ignore && Split(p, '.') == ["forProvider"] + rest
      ensures var reported := GetValue(seen, ["status", "atProvider"] + rest);
              var at := ["spec", "forProvider"] + rest;
              if reported.Found? then GetValue(payload, at) == reported else SameAt(own, payload, at)
    {
      IgnoredPathCarries(seen, ignore, o, own, payload, p, rest);
    }
    forall at: Path | forall p :: p in ignore && Reported(seen, p).Found? ==> Apart(["spec"] + Split(p, '.'), at)
      ensures SameAt(own, payload, at)
    {
      OtherPathStays(seen, ignore, o, own, payload, at);
    }
  }

  /** What a trace says about each substituting write: since the capture it used there was no Disconnect and
      no other capture, and the owners' values of that capture are in its payload. */
  lemma WritesCarryTheOwnersValues(log: seq<Event>, i: nat) returns (j: nat)
    requires FailClosed(log) && SoundCaptures(log)
    requires i < |log| && log[i].Written? && Substitutes(log[i].config)
    ensures j < i && log[j].Captured? && forall k :: j < k < i ==> log[k].Written?
    ensures OwnersDecide(log[j].doc, log[j].ignore, log[i].doc, log[i].payload)
  {
    var before := log[..i];
    j := CaptureBefore(before);
    assert log[j] == before[j];
    assert forall k :: j < k < i ==> log[k] == before[k];
    SubstitutionCarries(log[j].doc, log[j].ignore, log[j].observation, log[i].doc, log[i].payload);
  }

  // ---- the decorator ------------------------------------------------------------------------------

  datatype DriftError =
    | BadConfig(reason: PathError)
    | NoObservation
    | SnapshotFailed
    | ApplyFailed
    | Inner(message: string)

  datatype ExternalObservation = ExternalObservation(present: bool, upToDate: bool, lateInitialized: bool)

  type Annotations = map<string, string>

  /** A call of the wrapped client: its result, and the object as the call left it. */
  datatype Call<+R> = Call(result: Result<R, string>, doc: Value, annotations: Annotations)

  class Managed {
    const typ: Type
    const mode: Option<string>
    const ignore: seq<string>
    var doc: Value
    var annotations: Annotations

    constructor (typ: Type, mode: Option<string>, ignore: seq<string>, doc: Value, annotations: Annotations)
      ensures this.typ == typ && this.mode == mode && this.ignore == ignore
      ensures this.doc == doc && this.annotations == annotations
    {
      this.typ, this.mode, this.ignore, this.doc, this.annotations := typ, mode, ignore, doc, annotations;
    }

    function Cfg(): Result<Config, PathError> {
      ConfigOf(typ, mode, ignore)
    }
  }

  /** Whether the verdict of the wrapped client is put to the test on a shadow. */
  predicate Asks(c: Config, upToDate: bool) {
    c.mode != MODE_WARN && c.mode != MODE_DISABLED && c.ignore != [] && !upToDate
  }

  /** Observe and Update disagree on what an unrecognised mode means: exactly under such a mode is drift
      on ignored paths excused by Observe while Update would write the spec value over the owner's. */
  lemma UnrecognisedModeIsHalfEnabled(c: Config)
    ensures Asks(c, false) && !Substitutes(c) <==> c.ignore != [] && c.mode !in {"enabled", "warn", "disabled"}
  {
  }

  class External {
    var obs: Option<Observation>
    ghost var log: seq<Event>

    ghost predicate Valid()
      reads this
    {
      obs == LatestCapture(log) && FailClosed(log) && SoundCaptures(log)
    }

    constructor ()
      ensures Valid() && log == []
    {
      obs, log := None, [];
    }

    ghost method Log(e: Event)
      modifies `log
      ensures log == old(log) + [e]
    {
      log := log + [e];
    }

    method Observe(mg: Managed, inner: Call<ExternalObservation>, onShadow: Call<ExternalObservation>)
      returns (r: Result<ExternalObservation, DriftError>, shadow: Option<Value>)
      requires Valid() && EligibleAreLeaves(mg.typ)
      modifies this, mg
      ensures Valid()
      // a bad configuration stops everything
      ensures mg.Cfg().Err? ==> r == Err(BadConfig(mg.Cfg().error)) && log == old(log) && mg.doc == old(mg.doc) &&
                                mg.annotations == old(mg.annotations) && shadow.None?
      // otherwise the object is as the wrapped client left it, whatever the shadow went through
      ensures mg.Cfg().Ok? ==> mg.doc == inner.doc && mg.annotations == inner.annotations
      // an error or an absent object passes through and keeps an earlier capture
      ensures mg.Cfg().Ok? && inner.result.Err? ==>
                r == Err(Inner(inner.result.error)) && log == old(log) && shadow.None?
      ensures mg.Cfg().Ok? && inner.result.Ok? && !inner.result.value.present ==>
                r == Ok(inner.result.value) && log == old(log) && shadow.None?
      ensures mg.Cfg().Ok? && inner.result.Ok? && inner.result.value.present ==>
                VerdictOn(mg.Cfg().value, inner, onShadow, old(log), log, r, shadow)
    {
      shadow := None;
      var cfg := ReadConfig(mg.typ, mg.mode, mg.ignore);
      if cfg.Err? {
        return Err(BadConfig(cfg.error)), None;
      }
      mg.doc, mg.annotations := inner.doc, inner.annotations;
      if inner.result.Err? {
        return Err(Inner(inner.result.error)), None;
      }
      var seen := inner.result.value;
      if !seen.present {
        return Ok(seen), None;
      }
      var captured := Snapshot(mg.doc, cfg.value.ignore);
      if captured.None? {
        return Err(SnapshotFailed), None;
      }
      AcceptedPathsArePrefixFree(mg.typ, mg.mode, mg.ignore);
      PrefixFreeIsApart(cfg.value.ignore);
      obs := captured;
      ghost var capture := Captured(mg.doc, cfg.value.ignore, captured.value);
      Log(capture);
      LogKeepsJustified(old(log), capture);
      r, shadow := Reinterpret(cfg.value, mg.doc, captured.value, seen, onShadow);
      if shadow.Some? {
        SubstitutionCarries(mg.doc, cfg.value.ignore, captured.value, mg.doc, shadow.value);
      }
    }

    /** The verdict by mode; drift is put to the test on the shadow. */
    static method Reinterpret(c: Config, doc: Value, o: Observation, seen: ExternalObservation,
                              onShadow: Call<ExternalObservation>)
      returns (r: Result<ExternalObservation, DriftError>, shadow: Option<Value>)
      requires ApartPaths(o.values.Keys)
      ensures Reinterpreted(c, doc, o, seen, onShadow, r, shadow)
    {
      if c.mode == MODE_DISABLED || c.mode == MODE_WARN {
        return Ok(seen.(upToDate := true)), None;
      }
      if |c.ignore| == 0 || seen.upToDate {
        return Ok(seen), None;
      }
      shadow := Apply(doc, Some(o));
      if shadow.None? {
        return Err(ApplyFailed), None;
      }
      if onShadow.result.Err? {
        return Err(Inner(onShadow.result.error)), shadow;
      }
      r := Ok(seen.(upToDate := onShadow.result.value.upToDate));
    }

    method Update(mg: Managed, inner: Call<()>) returns (r: Result<(), DriftError>)
      requires Valid()
      modifies this`log, mg
      ensures Valid() && obs == old(obs)
      ensures mg.Cfg().Err? ==> r == Err(BadConfig(mg.Cfg().error)) && log == old(log)
      // fail closed
      ensures mg.Cfg().Ok? && Substitutes(mg.Cfg().value) && obs.None? ==> r == Err(NoObservation) && log == old(log)
      ensures mg.Cfg().Ok? && Substitutes(mg.Cfg().value) &&
              obs.Some? && Substituted(old(mg.doc), obs.value.values).None? ==>
                r == Err(ApplyFailed) && log == old(log)
      // the wrapped client runs in all other cases
      ensures log == old(log) <==> mg.Cfg().Err? || (Substitutes(mg.Cfg().value) &&
                                                     (obs.None? || Substituted(old(mg.doc), obs.value.values).None?))
      ensures log == old(log) ==> r.Err? && mg.doc == old(mg.doc) && mg.annotations == old(mg.annotations)
      ensures log != old(log) ==>
                && mg.Cfg().Ok? && |log| == |old(log)| + 1 && log[..|old(log)|] == old(log)
                && log[|old(log)|].Written? && log[|old(log)|].config == mg.Cfg().value
                && log[|old(log)|].doc == old(mg.doc)
                && mg.annotations == inner.annotations
                && r == (if inner.result.Ok? then Ok(()) else Err(Inner(inner.result.error)))
                && mg.doc == if Substitutes(mg.Cfg().value) then old(mg.doc) else inner.doc
    {
      var cfg := ReadConfig(mg.typ, mg.mode, mg.ignore);
      if cfg.Err? {
        return Err(BadConfig(cfg.error));
      }
      ghost var written;
      if cfg.value.mode != MODE_ENABLED || |cfg.value.ignore| == 0 {
        written := Written(cfg.value, mg.doc, mg.doc);
        mg.doc := inner.doc;
      } else {
        if obs.None? {
          return Err(NoObservation);
        }
        ghost var j := CaptureBefore(log);
        assert log[j].Captured? && ApartPaths(obs.value.values.Keys);
        var shadow := Apply(mg.doc, obs);
        if shadow.None? {
          return Err(ApplyFailed);
        }
        written := Written(cfg.value, mg.doc, shadow.value);
      }
      LogKeepsJustified(log, written);
      Log(written);
      mg.annotations := inner.annotations;
      r := if inner.result.Ok? then Ok(()) else Err(Inner(inner.result.error));
    }

    method Disconnect()
      requires Valid()
      modifies this
      ensures Valid() && obs.None? && log == old(log) + [Dropped]
    {
      obs := None;
      LogKeepsJustified(log, Dropped);
      Log(Dropped);
    }
  }

  lemma LogKeepsJustified(log: seq<Event>, e: Event)
    requires FailClosed(log) && SoundCaptures(log) && (e.Written? ==> Justified(log, e))
    requires e.Captured? ==> SoundCaptures([e])
    ensures FailClosed(log + [e]) && SoundCaptures(log + [e])
    ensures LatestCapture(log + [e]) == match e
                                        case Captured(_, _, o) => Some(o)
                                        case Dropped => None
                                        case Written(_, _, _) => LatestCapture(log)
  {
    var after := log + [e];
    assert after[..|log|] == log;
    assert e.Captured? ==> [e][0] == e;
    forall i | 0 <= i < |after| && after[i].Written?
      ensures Justified(after[..i], after[i])
    {
      assert after[..i] == log[..i];
    }
  }

  /** The verdict on an existing object: what is captured, when the shadow is asked, and what is
      answered. */
  ghost predicate VerdictOn(c: Config, inner: Call<ExternalObservation>, onShadow: Call<ExternalObservation>,
                         before: seq<Event>, after: seq<Event>, r: Result<ExternalObservation, DriftError>,
                         shadow: Option<Value>)
    requires inner.result.Ok?
  {
    var seen := inner.result.value;
    if r == Err(SnapshotFailed) then
      after == before && shadow.None? && exists p :: p in c.ignore && Reported(inner.doc, p) == NotAnObject
    else
      && |after| == |before| + 1 && after[..|before|] == before
      && after[|before|].Captured?
      && var o := after[|before|].observation;
      && after[|before|] == Captured(inner.doc, c.ignore, o)
      && (forall p :: p in c.ignore ==> Reported(inner.doc, p) != NotAnObject)
      && (shadow.Some? ==> OwnersDecide(inner.doc, c.ignore, inner.doc, shadow.value))
      && Reinterpreted(c, inner.doc, o, seen, onShadow, r, shadow)
  }

  ghost predicate Reinterpreted(c: Config, doc: Value, o: Observation, seen: ExternalObservation,
                                onShadow: Call<ExternalObservation>,
                                r: Result<ExternalObservation, DriftError>, shadow: Option<Value>) {
    && (if Asks(c, seen.upToDate) then shadow == Substituted(doc, o.values) else shadow.None?)
    && (r == Err(ApplyFailed) <==> Asks(c, seen.upToDate) && shadow.None?)
    && (shadow.Some? && onShadow.result.Err? ==> r == Err(Inner(onShadow.result.error)))
    && (r.Err? <==> Asks(c, seen.upToDate) && (shadow.None? || onShadow.result.Err?))
    && (r.Ok? ==>
          r.value == seen.(upToDate := c.mode == MODE_WARN || c.mode == MODE_DISABLED || seen.upToDate ||
                                       (shadow.Some? && onShadow.result.Ok? && onShadow.result.value.upToDate)))
  }
}
