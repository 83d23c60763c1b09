/** Read-your-writes over a lagging replica: runs of the convergence gate
    (internal/clients/convergence/gate.go) for any number of resources and zones, with true,
    unbounded SOA serials of which the protocol only sees the value modulo 2^32. */
module ReadYourWrites {
  import opened Wrappers
  import opened ConvergenceGate

  const EPOCH := 0x1_0000_0000

  function Observed(serial: nat): uint32 {
    serial % EPOCH
  }

  // ---- the comparison ---------------------------------------------------------------------

  /** For serials less than 2^32 apart the plain comparison answers the true question if and only
      if both lie in the same 2^32 epoch; across a wrap it is always wrong. */
  lemma ComparisonSound(candidate: nat, watermark: nat)
    requires -EPOCH < candidate - watermark < EPOCH
    ensures (Observed(candidate) >= Observed(watermark) <==> candidate >= watermark) <==>
            candidate / EPOCH == watermark / EPOCH
  {
    assert candidate == EPOCH * (candidate / EPOCH) + Observed(candidate);
    assert watermark == EPOCH * (watermark / EPOCH) + Observed(watermark);
  }

  lemma SameEpochComparison(candidate: nat, watermark: nat)
    requires candidate / EPOCH == watermark / EPOCH
    ensures Observed(candidate) >= Observed(watermark) <==> candidate >= watermark
  {
    assert candidate == EPOCH * (candidate / EPOCH) + Observed(candidate);
    assert watermark == EPOCH * (watermark / EPOCH) + Observed(watermark);
    ComparisonSound(candidate, watermark);
  }

  /** The serial ordering of section 3.2 of RFC 1982, with SERIAL_BITS = 32. */
  predicate SerialLess(a: uint32, b: uint32) {
    (a < b && b - a < 0x8000_0000) || (a > b && a - b > 0x8000_0000)
  }

  /** Two serials are comparable in that ordering unless they differ by exactly 2^31. */
  predicate SerialComparable(a: uint32, b: uint32) {
    a - b != 0x8000_0000 && b - a != 0x8000_0000
  }

  /** Where the standard orders two serials, the gate's ">=" agrees with it exactly when they
      differ by less than 2^31; and the standard's order is itself total and antisymmetric there. */
  lemma AgreesWithSerialArithmetic(member: uint32, pending: uint32)
    requires SerialComparable(member, pending)
    ensures (member >= pending <==> (member == pending || SerialLess(pending, member))) <==>
            -0x8000_0000 < member - pending < 0x8000_0000
    ensures member == pending || (SerialLess(member, pending) != SerialLess(pending, member))
  {
  }

  // ---- runs ---------------------------------------------------------------------------------

  /** True serials of one zone, on the primary and on the candidate. */
  datatype Serials = Serials(primary: nat, candidate: nat)

  /** One resource: its zone, its annotations, the true serial behind its watermark, and the true
      serial its own last write produced (0 before any write). */
  datatype Res = Res(zone: string, annotations: map<string, Annotation>, mark: nat, lastWrite: nat)

  datatype State = State(zones: map<string, Serials>, resources: map<string, Res>)

  datatype Event =
    | Advance(zone: string, to: nat)                    // anyone's write on the primary
    | Replicate(zone: string, to: nat)                  // the candidate receives updates
    | Write(res: string, mine: nat, seen: nat, now: int) // own write, then RecordWrite reads "seen"
    | Annotate(res: string, key: string, text: string)  // anyone writes a text that is no watermark
    | Evaluation(res: string, s: Situation)

  ghost predicate WellFormed(st: State) {
    forall r :: r in st.resources ==> st.resources[r].zone in st.zones
  }

  /** Serials only grow, a write raises the primary's serial, RecordWrite may read it after further
      writes, nobody else empties the watermark, and an Evaluate sees the resource's own annotations and the
      candidate's own serial. */
  ghost predicate Legal(st: State, e: Event) {
    match e
    case Advance(z, to) => z in st.zones && to >= st.zones[z].primary
    case Replicate(z, to) => z in st.zones && st.zones[z].candidate <= to <= st.zones[z].primary
    case Write(r, mine, seen, _) =>
      r in st.resources && st.resources[r].zone in st.zones && st.zones[st.resources[r].zone].primary < mine <= seen
    case Annotate(r, key, text) => r in st.resources && (key == PENDING_KEY ==> text != "")
    case Evaluation(r, s) =>
      && r in st.resources && st.resources[r].zone in st.zones
      && s.pending == GetPendingSerial(st.resources[r].annotations)
      && (s.Asks() && s.reply.Members? && MemberFor(s.reply.members, s.hostname).Some? ==>
            var cand := st.zones[st.resources[r].zone].candidate;
            && MemberFor(s.reply.members, s.hostname).value.serial == Observed(cand)
            && cand / EPOCH == st.resources[r].mark / EPOCH)
  }

  function Step(st: State, e: Event): State
    requires Legal(st, e)
  {
    match e
    case Advance(z, to) => st.(zones := st.zones[z := st.zones[z].(primary := to)])
    case Replicate(z, to) => st.(zones := st.zones[z := st.zones[z].(candidate := to)])
    case Write(r, mine, seen, now) =>
      var x := st.resources[r];
      var annotations := x.annotations[PENDING_KEY := Watermark(Pending(x.zone, Observed(seen), now))];
      State(st.zones[x.zone := st.zones[x.zone].(primary := seen)],
            st.resources[r := Res(x.zone, annotations, seen, mine)])
    case Annotate(r, key, text) => WithAnnotations(st, r, st.resources[r].annotations[key := Text(text)])
    case Evaluation(r, s) =>
      if s.Drops() then WithAnnotations(st, r, st.resources[r].annotations - {PENDING_KEY}) else st
  }

  function WithAnnotations(st: State, r: string, annotations: map<string, Annotation>): State
    requires r in st.resources
  {
    st.(resources := st.resources[r := st.resources[r].(annotations := annotations)])
  }

  ghost predicate IsRun(run: seq<State>, events: seq<Event>) {
    && |run| == |events| + 1
    && (forall i :: 0 <= i < |events| ==> Legal(run[i], events[i]) && run[i + 1] == Step(run[i], events[i]))
  }

  /** No resource has written yet. */
  ghost predicate Initial(st: State) {
    WellFormed(st) &&
    forall r :: r in st.resources ==> st.resources[r].lastWrite == 0 && Unmarked(st.resources[r].annotations)
  }

  predicate GivesUp(e: Event, r: string) {
    e.Evaluation? && e.res == r && Decide(e.s).reason == ConvergenceTimeout && Decide(e.s).warning
  }

  /** Since r's last write before position n, an Evaluate of r gave up with a warning. */
  ghost predicate WarnedSinceWrite(events: seq<Event>, n: nat, r: string)
    requires n <= |events|
  {
    exists j :: 0 <= j < n && GivesUp(events[j], r) &&
                forall k :: j < k < n ==> !(events[k].Write? && events[k].res == r)
  }

  ghost predicate Good(st: State, r: string, warned: bool)
    requires r in st.resources && st.resources[r].zone in st.zones
  {
    var x := st.resources[r];
    var candidate := st.zones[x.zone].candidate;
    && (forall p :: Marked(x.annotations, p) ==> p.serial == Observed(x.mark) && x.mark >= x.lastWrite)
    && (Unmarked(x.annotations) ==> candidate >= x.lastWrite || warned)
  }

  /** The invariant: a resource without a watermark has been reached by the candidate, unless a
      timeout warning was emitted since its last write. */
  lemma {:induction false} WatermarkInvariant(run: seq<State>, events: seq<Event>, n: nat)
    requires IsRun(run, events) && Initial(run[0]) && n <= |events|
    ensures WellFormed(run[n]) && run[n].resources.Keys == run[0].resources.Keys
    ensures forall r :: r in run[n].resources ==> Good(run[n], r, WarnedSinceWrite(events, n, r))
  {
    if n > 0 {
      WatermarkInvariant(run, events, n - 1);
      var st, e := run[n - 1], events[n - 1];
      assert Legal(st, e) && run[n] == Step(st, e);
      StepKeepsShape(st, e);
      forall r | r in run[n].resources
        ensures Good(run[n], r, WarnedSinceWrite(events, n, r))
      {
        GoodStep(st, e, r, events, n);
      }
    }
  }

  lemma StepKeepsShape(st: State, e: Event)
    requires WellFormed(st) && Legal(st, e)
    ensures WellFormed(Step(st, e)) && Step(st, e).resources.Keys == st.resources.Keys
  {
  }

  lemma GoodStep(st: State, e: Event, r: string, events: seq<Event>, n: nat)
    requires WellFormed(st) && Legal(st, e) && r in st.resources
    requires 0 < n <= |events| && events[n - 1] == e
    requires Good(st, r, WarnedSinceWrite(events, n - 1, r))
    ensures r in Step(st, e).resources && Step(st, e).resources[r].zone in Step(st, e).zones
    ensures Good(Step(st, e), r, WarnedSinceWrite(events, n, r))
  {
    if WarnedSinceWrite(events, n - 1, r) && !(e.Write? && e.res == r) {
      var j :| 0 <= j < n - 1 && GivesUp(events[j], r) &&
               forall k :: j < k < n - 1 ==> !(events[k].Write? && events[k].res == r);
      assert forall k :: j < k < n ==> !(events[k].Write? && events[k].res == r);
      assert WarnedSinceWrite(events, n, r);
    }
    if e.Evaluation? && e.res == r && e.s.Drops() {
      if Decide(e.s).reason == ConvergenceTimeout {
        assert GivesUp(events[n - 1], r);
        assert WarnedSinceWrite(events, n, r);
      } else {
        ReadsOfTheMap(st.resources[r].annotations, e.s.pending.pending);
        SameEpochComparison(st.zones[st.resources[r].zone].candidate, st.resources[r].mark);
      }
    }
  }

  /** The guarantee: a read routed to the candidate sees the resource's own last write, unless the
      gate gave up on that write with a warning. */
  lemma NeverStale(run: seq<State>, events: seq<Event>, n: nat)
    requires IsRun(run, events) && Initial(run[0]) && n < |events|
    requires events[n].Evaluation? && Decide(events[n].s).useCandidate
    ensures var x := run[n].resources[events[n].res];
            x.zone in run[n].zones &&
            (run[n].zones[x.zone].candidate >= x.lastWrite || WarnedSinceWrite(events, n, events[n].res))
  {
    WatermarkInvariant(run, events, n);
    var r, s := events[n].res, events[n].s;
    assert Legal(run[n], events[n]);
    assert Good(run[n], r, WarnedSinceWrite(events, n, r));
    if s.pending.Present? {
      ReadsOfTheMap(run[n].resources[r].annotations, s.pending.pending);
      SameEpochComparison(run[n].zones[run[n].resources[r].zone].candidate, run[n].resources[r].mark);
    }
  }

  /** A watermark that has become unreadable keeps the resource's reads on the primary, with a warning unless
      they are pinned there anyway, and without reporting to the breaker or touching the annotation, until
      the resource's own next write. */
  lemma {:induction false} UnreadablePinsUntilWrite(run: seq<State>, events: seq<Event>, n: nat, m: nat, r: string)
    requires IsRun(run, events) && n <= m < |run|
    requires r in run[n].resources && Unreadable(run[n].resources[r].annotations)
    requires forall k :: n <= k < m ==> !(events[k].Write? && events[k].res == r)
    ensures r in run[m].resources && Unreadable(run[m].resources[r].annotations)
    ensures m < |events| && events[m].Evaluation? && events[m].res == r ==>
              var s := events[m].s;
              && !Decide(s).useCandidate && !s.Drops() && Reports(s, s.now) == []
              && (Decide(s).warning <==> s.mode != MODE_PRIMARY_ONLY && s.hasCandidate)
              && run[m].resources == Step(run[m], events[m]).resources
    decreases m
  {
    if n < m {
      UnreadablePinsUntilWrite(run, events, n, m - 1, r);
      assert Legal(run[m - 1], events[m - 1]) && run[m] == Step(run[m - 1], events[m - 1]);
    }
    if m < |events| {
      assert Legal(run[m], events[m]);
    }
  }

  /** The other direction: once the candidate has the watermark's serial (same epoch), the next
      Evaluate that gets an answer from it in time routes to it and drops the watermark. */
  lemma CaughtUpMeansRouted(st: State, r: string, s: Situation)
    requires Legal(st, Evaluation(r, s)) && s.Asks()
    requires s.reply.Members? && MemberFor(s.reply.members, s.hostname).Some?
    requires forall p :: Marked(st.resources[r].annotations, p) ==> p.serial == Observed(st.resources[r].mark)
    ensures Decide(s).useCandidate <==> st.zones[st.resources[r].zone].candidate >= st.resources[r].mark
    ensures Decide(s).useCandidate <==> Unmarked(Step(st, Evaluation(r, s)).resources[r].annotations)
  {
    ReadsOfTheMap(st.resources[r].annotations, s.pending.pending);
    SameEpochComparison(st.zones[st.resources[r].zone].candidate, st.resources[r].mark);
  }

  /** After a timeout the very next Evaluate reads from the candidate again, without any new write. */
  lemma TimeoutResumesAtNextEvaluate(st: State, r: string, s: Situation, next: Situation)
    requires Legal(st, Evaluation(r, s)) && Decide(s).reason == ConvergenceTimeout
    requires next.mode == s.mode && next.hasCandidate && !next.breakerOpen
    requires Legal(Step(st, Evaluation(r, s)), Evaluation(r, next))
    ensures Decide(next) == RouteDecision(true, CandidateReady, false)
  {
  }

  /** Why the guarantee needs the evaluated zone to be the written one: the member serial is read for
      the caller's zone, so a watermark of one zone is confirmed and dropped by another zone's serial,
      however far the candidate is behind in the written zone. */
  lemma OtherZoneDropsWatermark(pending: Pending, otherZone: Serials, hostname: string, now: int)
    requires Observed(otherZone.candidate) >= pending.serial && now <= pending.since
    ensures var reply := Members([MemberSerial(hostname, Observed(otherZone.candidate))]);
            var s := Situation(MODE_SOA_SERIAL, true, false, Present(pending), now, 0, hostname, reply);
            Decide(s).useCandidate && s.Drops()
  {
    var members := [MemberSerial(hostname, Observed(otherZone.candidate))];
    assert MemberFor(members, hostname) == Some(members[0]);
  }
}
