/** Every interleaving of Ensure calls (internal/clients/identity/probe.go:168-276): any number of
    threads, on any number of Probers, for any number of endpoints and Grids, under a monotone clock,
    with definitions created and removed from outside at any moment.  One step is one critical section
    or one remote call. */
module ProberRuns {
  import opened Wrappers
  import opened Probing

  /** One cache row and one lock belong to an endpoint of one Prober. */
  datatype Key = Key(prober: nat, endpoint: string)

  datatype Pc =
    | Entering                                   // before the first lookup
    | Waiting                                    // missed; before lock.Lock()
    | Holding                                    // has the lock; before the second lookup
    | Starting                                   // missed again; before the existence check is sent
    | Checking(probe: nat)                       // the check is under way; before its answer
    | Creating(probe: nat)                       // absent; before the create call
    | Storing(probe: nat)                        // verdict known; before store
    | Releasing(result: Result)                  // before the deferred unlock
    | Done(result: Result)

  /** What Ensure returns, which probe produced it, and when it was read from the cache, if it was. */
  datatype Result = Result(verdict: Verdict, probe: nat, cachedAt: Option<int>)

  datatype Thread = Thread(key: Key, pc: Pc)

  /** defined: whether the definition existed on the probed Grid when the verdict was reached. */
  datatype Decision = Decision(verdict: Verdict, defined: bool)

  datatype ProbeRecord = ProbeRecord(key: Key, startedAt: int, decision: Option<Decision>, storedAt: Option<int>)

  datatype Row = Row(entry: Entry, origin: nat)

  datatype State = State(
    now: int, threads: map<nat, Thread>, cache: map<Key, Row>, holder: map<Key, nat>,
    probes: seq<ProbeRecord>, defined: set<nat>)

  datatype Action =
    | Tick(to: int)
    | Outside(defined: set<nat>)                 // administrators and other software
    | Call(t: nat, key: Key)
    | FirstLookup(t: nat)
    | Acquire(t: nat)
    | SecondLookup(t: nat)
    | Begin(t: nat)
    | Check(t: nat, exists_: ExistsReply)
    | Create(t: nat, create: CreateReply)
    | Store(t: nat)
    | Unlock(t: nat)

  function RowEntry(s: State, k: Key): Option<Entry> {
    if k in s.cache then Some(s.cache[k].entry) else None
  }

  predicate At(s: State, t: nat, pc: Pc) {
    t in s.threads && s.threads[t].pc == pc
  }

  /** gridOf: the Grid an endpoint reaches.  A reply tells the truth about that Grid at that moment. */
  predicate Enabled(gridOf: string -> nat, s: State, a: Action) {
    match a
    case Tick(to) => to >= s.now
    case Outside(_) => true
    case Call(t, _) => t !in s.threads
    case FirstLookup(t) => At(s, t, Entering)
    case Acquire(t) => At(s, t, Waiting) && s.threads[t].key !in s.holder
    case SecondLookup(t) => At(s, t, Holding)
    case Begin(t) => At(s, t, Starting)
    case Check(t, e) =>
      t in s.threads && s.threads[t].pc.Checking? && s.threads[t].pc.probe < |s.probes| &&
      var there := gridOf(s.threads[t].key.endpoint) in s.defined;
      (e.Present? ==> there) && (e.NotDefined? ==> !there)
    case Create(t, c) =>
      t in s.threads && s.threads[t].pc.Creating? && s.threads[t].pc.probe < |s.probes| &&
      var there := gridOf(s.threads[t].key.endpoint) in s.defined;
      (c.Created? ==> !there) && (c.AlreadyExists? ==> there)
    case Store(t) =>
      t in s.threads && s.threads[t].pc.Storing? && s.threads[t].pc.probe < |s.probes| &&
      s.probes[s.threads[t].pc.probe].decision.Some?
    case Unlock(t) => t in s.threads && s.threads[t].pc.Releasing?
  }

  function Goto(s: State, t: nat, pc: Pc): State
    requires t in s.threads
  {
    s.(threads := s.threads[t := s.threads[t].(pc := pc)])
  }

  function Decide(s: State, i: nat, d: Decision): State
    requires i < |s.probes|
  {
    s.(probes := s.probes[i := s.probes[i].(decision := Some(d))])
  }

  function Step(gridOf: string -> nat, s: State, a: Action): State
    requires Enabled(gridOf, s, a)
  {
    match a
    case Tick(to) => s.(now := to)
    case Outside(d) => s.(defined := d)
    case Call(t, key) => s.(threads := s.threads[t := Thread(key, Entering)])
    case FirstLookup(t) =>
      var k := s.threads[t].key;
      var hit := CachedVerdict(RowEntry(s, k), s.now);
      Goto(s, t, if hit.Some? then Done(Result(hit.value, s.cache[k].origin, Some(s.now))) else Waiting)
    case Acquire(t) => Goto(s.(holder := s.holder[s.threads[t].key := t]), t, Holding)
    case SecondLookup(t) =>
      var k := s.threads[t].key;
      var hit := CachedVerdict(RowEntry(s, k), s.now);
      Goto(s, t, if hit.Some? then Releasing(Result(hit.value, s.cache[k].origin, Some(s.now))) else Starting)
    case Begin(t) =>
      Goto(s.(probes := s.probes + [ProbeRecord(s.threads[t].key, s.now, None, None)]), t, Checking(|s.probes|))
    case Check(t, e) =>
      var g, i := gridOf(s.threads[t].key.endpoint), s.threads[t].pc.probe;
      if e.NotDefined? then Goto(s, t, Creating(i))
      else Goto(Decide(s, i, Decision(ProbeVerdict(e, Forbidden), g in s.defined)), t, Storing(i))
    case Create(t, c) =>
      var g := gridOf(s.threads[t].key.endpoint);
      var after := s.(defined := if c.Created? then s.defined + {g} else s.defined);
      Goto(Decide(after, s.threads[t].pc.probe, Decision(ProbeVerdict(NotDefined, c), g in after.defined)), t,
           Storing(s.threads[t].pc.probe))
    case Store(t) =>
      var k, i := s.threads[t].key, s.threads[t].pc.probe;
      var v := s.probes[i].decision.value.verdict;
      Goto(s.(cache := s.cache[k := Row(Entry(v, s.now + DEFAULT_PROBE_TTL), i)],
              probes := s.probes[i := s.probes[i].(storedAt := Some(s.now))]),
           t, Releasing(Result(v, i, None)))
    case Unlock(t) => Goto(s.(holder := s.holder - {s.threads[t].key}), t, Done(s.threads[t].pc.result))
  }

  // ---- the invariant ----------------------------------------------------------------------------

  predicate InCriticalSection(pc: Pc) {
    !pc.Entering? && !pc.Waiting? && !pc.Done?
  }

  /** The lock is held by exactly the thread that is between Lock and Unlock. */
  predicate LockDiscipline(s: State) {
    && (forall t :: t in s.threads && InCriticalSection(s.threads[t].pc) ==>
                      s.threads[t].key in s.holder && s.holder[s.threads[t].key] == t)
    && (forall k :: k in s.holder ==>
                      && s.holder[k] in s.threads && s.threads[s.holder[k]].key == k
                      && InCriticalSection(s.threads[s.holder[k]].pc))
  }

  /** The probe a thread is working on. */
  predicate WorksOn(pc: Pc, i: nat) {
    (pc.Checking? || pc.Creating? || pc.Storing?) && pc.probe == i
  }

  predicate ThreadOk(s: State, t: nat)
    requires t in s.threads
  {
    var k, pc := s.threads[t].key, s.threads[t].pc;
    && (pc.Starting? ==> CachedVerdict(RowEntry(s, k), s.now).None?)
    && (pc.Checking? || pc.Creating? || pc.Storing? ==>
          && pc.probe < |s.probes| && s.probes[pc.probe].key == k
          && s.probes[pc.probe].storedAt.None? && (pc.Storing? <==> s.probes[pc.probe].decision.Some?))
    && (pc.Releasing? || pc.Done? ==> ResultOk(s, k, pc.result))
  }

  /** A result was produced by a probe of the same endpoint; if it came from the cache, that probe's
      verdict had been stored less than the TTL before. */
  predicate ResultOk(s: State, k: Key, r: Result) {
    && r.probe < |s.probes| && s.probes[r.probe].key == k
    && s.probes[r.probe].decision.Some? && s.probes[r.probe].decision.value.verdict == r.verdict
    && s.probes[r.probe].storedAt.Some?
    && var storedAt := s.probes[r.probe].storedAt.value;
       (r.cachedAt.Some? ==> storedAt <= r.cachedAt.value < storedAt + DEFAULT_PROBE_TTL)
  }

  predicate RowOk(s: State, k: Key)
    requires k in s.cache
  {
    var row := s.cache[k];
    && row.origin < |s.probes| && s.probes[row.origin].key == k
    && s.probes[row.origin].decision.Some? && s.probes[row.origin].decision.value.verdict == row.entry.verdict
    && s.probes[row.origin].storedAt.Some?
    && row.entry.expiresAt == s.probes[row.origin].storedAt.value + DEFAULT_PROBE_TTL
    && s.probes[row.origin].storedAt.value <= s.now
  }

  predicate ProbeOk(s: State, i: nat)
    requires i < |s.probes|
  {
    var p := s.probes[i];
    && p.startedAt <= s.now
    && (p.decision.Some? && p.decision.value.verdict.Usable? ==> p.decision.value.defined)
    && (p.storedAt.None? ==>
          p.key in s.holder && s.holder[p.key] in s.threads && WorksOn(s.threads[s.holder[p.key]].pc, i))
    && (p.storedAt.Some? ==> p.key in s.cache && s.cache[p.key].entry.expiresAt >= p.startedAt + DEFAULT_PROBE_TTL)
  }

  /** Successive probes of one endpoint start at least the TTL apart. */
  predicate Spaced(s: State) {
    forall i, j :: 0 <= i < j < |s.probes| && s.probes[i].key == s.probes[j].key ==>
                     s.probes[j].startedAt >= s.probes[i].startedAt + DEFAULT_PROBE_TTL
  }

  predicate Inv(s: State) {
    && LockDiscipline(s) && Spaced(s)
    && (forall t :: t in s.threads ==> ThreadOk(s, t))
    && (forall k :: k in s.cache ==> RowOk(s, k))
    && (forall i :: 0 <= i < |s.probes| ==> ProbeOk(s, i))
  }

  /** Inside the critical section, and outside it but for Lock and Unlock, nobody touches the locks. */
  lemma LocksWhileUntouched(gridOf: string -> nat, s: State, a: Action)
    requires Inv(s) && Enabled(gridOf, s, a) && (a.SecondLookup? || a.Begin? || a.Check? || a.Create? || a.Store?)
    ensures LockDiscipline(Step(gridOf, s, a))
  {
    LocksFramed(s, Step(gridOf, s, a));
  }

  lemma LocksFramed(s: State, after: State)
    requires LockDiscipline(s) && after.holder == s.holder && after.threads.Keys == s.threads.Keys
    requires forall t :: t in s.threads ==>
                           && after.threads[t].key == s.threads[t].key
                           && InCriticalSection(after.threads[t].pc) == InCriticalSection(s.threads[t].pc)
    ensures LockDiscipline(after)
  {
  }

  lemma LocksAfterHandover(gridOf: string -> nat, s: State, a: Action)
    requires Inv(s) && Enabled(gridOf, s, a) && (a.Acquire? || a.Unlock?)
    ensures LockDiscipline(Step(gridOf, s, a))
  {
  }

  lemma StepKeepsLocks(gridOf: string -> nat, s: State, a: Action)
    requires Inv(s) && Enabled(gridOf, s, a)
    ensures LockDiscipline(Step(gridOf, s, a))
  {
    if a.SecondLookup? || a.Begin? || a.Check? || a.Create? || a.Store? {
      LocksWhileUntouched(gridOf, s, a);
    } else if a.Acquire? || a.Unlock? {
      LocksAfterHandover(gridOf, s, a);
    }
  }

  lemma StepKeepsSpacing(gridOf: string -> nat, s: State, a: Action)
    requires Inv(s) && Enabled(gridOf, s, a)
    ensures Spaced(Step(gridOf, s, a))
  {
    if a.Begin? {
      var after, k := Step(gridOf, s, a), s.threads[a.t].key;
      forall i | 0 <= i < |s.probes| && s.probes[i].key == k
        ensures s.now >= s.probes[i].startedAt + DEFAULT_PROBE_TTL
      {
        assert ProbeOk(s, i) && ThreadOk(s, a.t);
      }
    }
  }

  /** Probe records are only ever completed, so what a thread relies on stays true. */
  predicate Completes(p: ProbeRecord, q: ProbeRecord) {
    && q.key == p.key && q.startedAt == p.startedAt
    && (p.decision.Some? ==> q.decision == p.decision)
    && (p.storedAt.Some? ==> q.storedAt == p.storedAt)
  }

  lemma RecordsComplete(gridOf: string -> nat, s: State, a: Action)
    requires Inv(s) && Enabled(gridOf, s, a)
    ensures var after := Step(gridOf, s, a);
            && |s.probes| <= |after.probes|
            && forall i :: 0 <= i < |s.probes| ==> Completes(s.probes[i], after.probes[i])
  {
    if a.Check? || a.Create? || a.Store? {
      assert ThreadOk(s, a.t);
    }
  }

  /** The moving thread. */
  lemma MoverOk(gridOf: string -> nat, s: State, a: Action)
    requires Inv(s) && Enabled(gridOf, s, a) && !a.Tick? && !a.Outside?
    ensures ThreadOk(Step(gridOf, s, a), a.t)
  {
    if !a.Call? {
      assert ThreadOk(s, a.t);
      if s.threads[a.t].key in s.cache {
        assert RowOk(s, s.threads[a.t].key);
      }
    }
  }

  /** Every other thread: only the lock holder writes its endpoint's row and its own probe record. */
  lemma BystanderOk(gridOf: string -> nat, s: State, a: Action, t: nat)
    requires Inv(s) && Enabled(gridOf, s, a) && t in s.threads && (a.Tick? || a.Outside? || a.t != t)
    ensures ThreadOk(Step(gridOf, s, a), t)
  {
    assert ThreadOk(s, t);
    assert Step(gridOf, s, a).threads[t] == s.threads[t];
    if a.Check? || a.Create? || a.Store? {
      BystanderOfWriter(gridOf, s, a, t);
    } else {
      ThreadFramed(s, Step(gridOf, s, a), t);
    }
  }

  lemma ThreadFramed(s: State, after: State, t: nat)
    requires t in s.threads && t in after.threads && after.threads[t] == s.threads[t] && ThreadOk(s, t)
    requires after.cache == s.cache && s.probes <= after.probes && s.now <= after.now
    ensures ThreadOk(after, t)
  {
  }

  lemma BystanderOfWriter(gridOf: string -> nat, s: State, a: Action, t: nat)
    requires Inv(s) && Enabled(gridOf, s, a) && t in s.threads && (a.Check? || a.Create? || a.Store?) && a.t != t
    ensures ThreadOk(Step(gridOf, s, a), t)
  {
    RecordsComplete(gridOf, s, a);
    assert ThreadOk(s, t) && ThreadOk(s, a.t);
    if InCriticalSection(s.threads[t].pc) {
      assert s.threads[a.t].key != s.threads[t].key;
    }
    ThreadFramedByRecords(s, Step(gridOf, s, a), t);
  }

  lemma ThreadFramedByRecords(s: State, after: State, t: nat)
    requires t in s.threads && t in after.threads && after.threads[t] == s.threads[t] && ThreadOk(s, t)
    requires s.now == after.now && |s.probes| <= |after.probes|
    requires forall i :: 0 <= i < |s.probes| ==> Completes(s.probes[i], after.probes[i])
    requires var k, pc := s.threads[t].key, s.threads[t].pc;
             && (pc.Starting? ==> RowEntry(after, k) == RowEntry(s, k))
             && (forall i :: 0 <= i < |s.probes| && WorksOn(pc, i) ==> after.probes[i] == s.probes[i])
    ensures ThreadOk(after, t)
  {
    var pc := s.threads[t].pc;
    if pc.Checking? || pc.Creating? || pc.Storing? {
      assert WorksOn(pc, pc.probe);
    }
  }

  lemma StepKeepsThreads(gridOf: string -> nat, s: State, a: Action)
    requires Inv(s) && Enabled(gridOf, s, a)
    ensures var after := Step(gridOf, s, a); forall t :: t in after.threads ==> ThreadOk(after, t)
  {
    forall t | t in Step(gridOf, s, a).threads
      ensures ThreadOk(Step(gridOf, s, a), t)
    {
      if a.Tick? || a.Outside? || a.t != t {
        BystanderOk(gridOf, s, a, t);
      } else {
        MoverOk(gridOf, s, a);
      }
    }
  }

  lemma StepKeepsRows(gridOf: string -> nat, s: State, a: Action)
    requires Inv(s) && Enabled(gridOf, s, a)
    ensures var after := Step(gridOf, s, a); forall k :: k in after.cache ==> RowOk(after, k)
  {
    var after := Step(gridOf, s, a);
    forall k | k in after.cache
      ensures RowOk(after, k)
    {
      if a.Check? || a.Create? || a.Store? {
        assert ThreadOk(s, a.t);
      }
      if k in s.cache {
        assert RowOk(s, k);
      }
    }
  }

  lemma ProbeStaysOk(gridOf: string -> nat, s: State, a: Action, i: nat)
    requires Inv(s) && Enabled(gridOf, s, a) && i < |s.probes| && !a.Store?
    ensures i < |Step(gridOf, s, a).probes| && ProbeOk(Step(gridOf, s, a), i)
  {
    assert ProbeOk(s, i);
    if a.Check? || a.Create? {
      assert ThreadOk(s, a.t);
    }
    if a.Begin? {
      assert s.threads[a.t].key in s.holder;
    }
  }

  lemma ProbeStaysOkOnStore(gridOf: string -> nat, s: State, a: Action, i: nat)
    requires Inv(s) && Enabled(gridOf, s, a) && i < |s.probes| && a.Store?
    ensures i < |Step(gridOf, s, a).probes| && ProbeOk(Step(gridOf, s, a), i)
  {
    assert ProbeOk(s, i) && ThreadOk(s, a.t);
    if s.probes[i].key in s.cache {
      assert RowOk(s, s.probes[i].key);
    }
  }

  lemma StepKeepsProbes(gridOf: string -> nat, s: State, a: Action)
    requires Inv(s) && Enabled(gridOf, s, a)
    ensures var after := Step(gridOf, s, a); forall i :: 0 <= i < |after.probes| ==> ProbeOk(after, i)
  {
    var after := Step(gridOf, s, a);
    forall i | 0 <= i < |after.probes|
      ensures ProbeOk(after, i)
    {
      if i < |s.probes| {
        if a.Store? {
          ProbeStaysOkOnStore(gridOf, s, a, i);
        } else {
          ProbeStaysOk(gridOf, s, a, i);
        }
      }
    }
  }

  // ---- runs ---------------------------------------------------------------------------------------

  ghost predicate IsRun(gridOf: string -> nat, run: seq<State>, actions: seq<Action>) {
    && |run| == |actions| + 1
    && forall n :: 0 <= n < |actions| ==>
                     Enabled(gridOf, run[n], actions[n]) && run[n + 1] == Step(gridOf, run[n], actions[n])
  }

  predicate Initial(s: State) {
    s.threads == map[] && s.cache == map[] && s.holder == map[] && s.probes == []
  }

  predicate InFlight(s: State, t: nat, k: Key) {
    && t in s.threads && s.threads[t].key == k
    && var pc := s.threads[t].pc; pc.Starting? || pc.Checking? || pc.Creating? || pc.Storing?
  }

  lemma {:induction false} InvOverRuns(gridOf: string -> nat, run: seq<State>, actions: seq<Action>, n: nat)
    requires IsRun(gridOf, run, actions) && Initial(run[0]) && n <= |actions|
    ensures Inv(run[n])
  {
    if n > 0 {
      InvOverRuns(gridOf, run, actions, n - 1);
      var s, a := run[n - 1], actions[n - 1];
      assert Enabled(gridOf, s, a) && run[n] == Step(gridOf, s, a);
      StepKeepsLocks(gridOf, s, a);
      StepKeepsSpacing(gridOf, s, a);
      StepKeepsThreads(gridOf, s, a);
      StepKeepsRows(gridOf, s, a);
      StepKeepsProbes(gridOf, s, a);
    }
  }

  /** At every moment of every interleaving: at most one probe per endpoint of a Prober is in flight;
      its probes start at least the TTL apart; and every verdict handed out came from a probe of that
      endpoint, was less than the TTL old if it came from the cache, and, if positive, means that the
      definition existed on the Grid when that probe decided, whoever created it. */
  lemma EveryInterleaving(gridOf: string -> nat, run: seq<State>, actions: seq<Action>, n: nat)
    requires IsRun(gridOf, run, actions) && Initial(run[0]) && n <= |actions|
    ensures forall t1, t2, k :: InFlight(run[n], t1, k) && InFlight(run[n], t2, k) ==> t1 == t2
    ensures Spaced(run[n])
    ensures forall t :: t in run[n].threads && run[n].threads[t].pc.Done? ==>
                  && ResultOk(run[n], run[n].threads[t].key, run[n].threads[t].pc.result)
                  && (run[n].threads[t].pc.result.verdict.Usable? ==>
                        run[n].probes[run[n].threads[t].pc.result.probe].decision.value.defined)
  {
    InvOverRuns(gridOf, run, actions, n);
    var s := run[n];
    forall t | t in s.threads && s.threads[t].pc.Done?
      ensures ResultOk(s, s.threads[t].key, s.threads[t].pc.result)
      ensures s.threads[t].pc.result.verdict.Usable? ==> s.probes[s.threads[t].pc.result.probe].decision.value.defined
    {
      assert ThreadOk(s, t);
      assert ProbeOk(s, s.threads[t].pc.result.probe);
    }
  }

  /** What one answer decides: nothing yet for a missing definition, and otherwise a verdict that says what the
      answer said; a positive one is true at that moment. */
  ghost predicate Decides(gridOf: string -> nat, s: State, a: Action, i: nat, d: Decision)
    requires a.Check? || a.Create?
  {
    && a.t in s.threads && WorksOn(s.threads[a.t].pc, i)
    && var there := gridOf(s.threads[a.t].key.endpoint) in s.defined;
       match a
       case Check(_, Present) => there && d == Decision(Usable, true)
       case Check(_, CheckFailed(e)) => d == Decision(Transient(e), there)
       case Check(_, NotDefined) => false
       case Create(_, Created) => !there && d == Decision(Usable, true)
       case Create(_, AlreadyExists) => there && d == Decision(Usable, true)
       case Create(_, Forbidden) => d == Decision(Prerequisite, there)
       case Create(_, CreateFailed(e)) => d == Decision(Transient(e), there)
  }

  /** An answered existence check decides positively at once if and only if the definition exists, and goes
      on to create it if and only if it does not. */
  lemma AnsweredCheck(gridOf: string -> nat, s: State, a: Action)
    requires Inv(s) && Enabled(gridOf, s, a) && a.Check? && !a.exists_.CheckFailed?
    ensures var after, there := Step(gridOf, s, a), gridOf(s.threads[a.t].key.endpoint) in s.defined;
            var i := s.threads[a.t].pc.probe;
            && i < |after.probes| && after.threads[a.t].key == s.threads[a.t].key
            && (after.probes[i].decision == Some(Decision(Usable, true)) <==> there)
            && (after.threads[a.t].pc == Creating(i) && after.probes[i].decision.None? <==> !there)
  {
    assert ThreadOk(s, a.t);
  }

  lemma DecisionStep(gridOf: string -> nat, s: State, a: Action, i: nat)
    requires Inv(s) && Enabled(gridOf, s, a) && i < |Step(gridOf, s, a).probes|
    requires Step(gridOf, s, a).probes[i].decision.Some?
    ensures || (i < |s.probes| && s.probes[i].decision == Step(gridOf, s, a).probes[i].decision)
            || ((a.Check? || a.Create?) && Decides(gridOf, s, a, i, Step(gridOf, s, a).probes[i].decision.value))
  {
    if a.Check? || a.Create? || a.Store? {
      assert ThreadOk(s, a.t);
    }
  }

  /** Every verdict of every run goes back to an answer and says what that answer said. */
  lemma {:induction false} VerdictsComeFromAnswers(gridOf: string -> nat, run: seq<State>, actions: seq<Action>,
                                                   n: nat, i: nat)
    returns (m: nat)
    requires IsRun(gridOf, run, actions) && Initial(run[0]) && n <= |actions|
    requires i < |run[n].probes| && run[n].probes[i].decision.Some?
    ensures m < n && (actions[m].Check? || actions[m].Create?)
    ensures Decides(gridOf, run[m], actions[m], i, run[n].probes[i].decision.value)
  {
    var s, a := run[n - 1], actions[n - 1];
    assert Enabled(gridOf, s, a) && run[n] == Step(gridOf, s, a);
    InvOverRuns(gridOf, run, actions, n - 1);
    DecisionStep(gridOf, s, a, i);
    if (a.Check? || a.Create?) && Decides(gridOf, s, a, i, run[n].probes[i].decision.value) {
      m := n - 1;
    } else {
      m := VerdictsComeFromAnswers(gridOf, run, actions, n - 1, i);
    }
  }

  /** No reachable state is stuck: while some call has not returned, some thread can move. */
  lemma NoDeadlock(gridOf: string -> nat, s: State, t: nat) returns (a: Action)
    requires Inv(s) && t in s.threads && !s.threads[t].pc.Done?
    ensures Enabled(gridOf, s, a) && !a.Tick? && !a.Outside? && !a.Call?
  {
    var mover := if s.threads[t].pc.Waiting? && s.threads[t].key in s.holder then s.holder[s.threads[t].key] else t;
    assert ThreadOk(s, mover);
    match s.threads[mover].pc
    case Entering => a := FirstLookup(mover);
    case Waiting => a := Acquire(mover);
    case Holding => a := SecondLookup(mover);
    case Starting => a := Begin(mover);
    case Checking(_) => a := Check(mover, CheckFailed(""));
    case Creating(_) => a := Create(mover, Forbidden);
    case Storing(_) => a := Store(mover);
    case Releasing(_) => a := Unlock(mover);
  }
}
