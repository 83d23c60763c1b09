/** The SOA-serial convergence gate (internal/clients/convergence/gate.go, annotation.go). */
module ConvergenceGate {
  import opened Wrappers
  import opened CircuitBreakers

  type uint32 = n: nat | n < 0x1_0000_0000

  // ---- annotation.go -------------------------------------------------------------------

  const PENDING_KEY := "infobloxnios.crossplane.io/pending-zone-serial"

  datatype Pending = Pending(zone: string, serial: uint32, since: int)

  /** An annotation value: the encoding of a watermark, or text that does not decode to one. */
  datatype Annotation = Watermark(pending: Pending) | Text(text: string)

  datatype PendingRead = Absent | Corrupt | Present(pending: Pending)

  function ZoneKey(fqdn: string, view: string): string {
    fqdn + "/" + view
  }

  class ManagedObject {
    var annotations: map<string, Annotation>
  }

  function GetPendingSerial(annotations: map<string, Annotation>): PendingRead {
    if PENDING_KEY !in annotations then Absent
    else
      match annotations[PENDING_KEY]
      case Watermark(p) => Present(p)
      case Text(t) => if t == "" then Absent else Corrupt
  }

  /** No watermark: the key is missing or its text is empty. */
  predicate Unmarked(annotations: map<string, Annotation>) {
    PENDING_KEY in annotations ==> annotations[PENDING_KEY] == Text("")
  }

  /** A text under the key that is neither empty nor the encoding of a watermark. */
  predicate Unreadable(annotations: map<string, Annotation>) {
    PENDING_KEY in annotations && annotations[PENDING_KEY].Text? && annotations[PENDING_KEY].text != ""
  }

  predicate Marked(annotations: map<string, Annotation>, p: Pending) {
    PENDING_KEY in annotations && annotations[PENDING_KEY] == Watermark(p)
  }

  /** How each annotation map reads. */
  lemma ReadsOfTheMap(annotations: map<string, Annotation>, p: Pending)
    ensures GetPendingSerial(annotations) == Absent <==> Unmarked(annotations)
    ensures GetPendingSerial(annotations) == Corrupt <==> Unreadable(annotations)
    ensures GetPendingSerial(annotations) == Present(p) <==> Marked(annotations, p)
  {
  }

  method SetPendingSerial(obj: ManagedObject, fqdn: string, view: string, serial: uint32, now: int)
    modifies obj
    ensures Marked(obj.annotations, Pending(fqdn + "/" + view, serial, now))
    ensures "infobloxnios.crossplane.io/pending-zone-serial" in obj.annotations
    ensures obj.annotations - {PENDING_KEY} == old(obj.annotations) - {PENDING_KEY}
  {
    obj.annotations := obj.annotations[PENDING_KEY := Watermark(Pending(ZoneKey(fqdn, view), serial, now))];
  }

  method ClearPendingSerial(obj: ManagedObject)
    modifies obj
    ensures obj.annotations == old(obj.annotations) - {PENDING_KEY}
  {
    if PENDING_KEY !in obj.annotations {
      return;
    }
    obj.annotations := obj.annotations - {PENDING_KEY};
  }

  // ---- gate.go -------------------------------------------------------------------------

  const MODE_SOA_SERIAL := "soaSerial"
  const MODE_PRIMARY_ONLY := "primaryOnly"
  const DEFAULT_TIMEOUT := 60_000_000_000 // nanoseconds

  datatype Reason = CandidateReady | WaitingForReplication | ConvergenceTimeout | CandidateDegraded | PrimaryOnly

  /** The human-readable message of a decision is not modelled. */
  datatype RouteDecision = RouteDecision(useCandidate: bool, reason: Reason, warning: bool)

  datatype MemberSerial = MemberSerial(gridPrimary: string, serial: uint32)

  /** What asking the candidate for member_soa_serials yields. */
  datatype MembersReply = Unreachable | Members(members: seq<MemberSerial>)

  /** What asking the primary for soa_serial_number yields. */
  datatype SerialReply = ReadFailed | NoSerial | ZoneSerial(serial: uint32)

  function EffectiveMode(configuredMode: string, isIPAM: bool): (string, bool) {
    if !isIPAM then (configuredMode, false)
    else (MODE_PRIMARY_ONLY, configuredMode == MODE_SOA_SERIAL)
  }

  predicate TimedOut(p: Pending, now: int, timeout: int) {
    now - p.since > if timeout <= 0 then DEFAULT_TIMEOUT else timeout
  }

  /** The first entry of the candidate's own host, if any. */
  function MemberFor(members: seq<MemberSerial>, hostname: string): Option<MemberSerial> {
    if members == [] then None
    else if members[0].gridPrimary == hostname then Some(members[0])
    else MemberFor(members[1..], hostname)
  }

  predicate CaughtUp(p: Pending, members: seq<MemberSerial>, hostname: string) {
    var m := MemberFor(members, hostname);
    m.Some? && m.value.serial >= p.serial
  }

  /** The candidate's answer holds an entry of its own host, and the first such has reached the serial. */
  ghost predicate Confirms(reply: MembersReply, hostname: string, serial: uint32) {
    reply.Members? &&
    exists i :: 0 <= i < |reply.members| &&
                reply.members[i].gridPrimary == hostname && reply.members[i].serial >= serial &&
                forall j :: 0 <= j < i ==> reply.members[j].gridPrimary != hostname
  }

  lemma CaughtUpConfirms(p: Pending, reply: MembersReply, hostname: string)
    requires reply.Members?
    ensures CaughtUp(p, reply.members, hostname) <==> Confirms(reply, hostname, p.serial)
  {
    MemberForIsFirst(reply.members, hostname);
  }

  /** Everything Evaluate looks at. */
  datatype Situation = Situation(
    mode: string, hasCandidate: bool, breakerOpen: bool, pending: PendingRead,
    now: int, timeout: int, hostname: string, reply: MembersReply)
  {
    /** The candidate is actually asked for its serials. */
    predicate Asks() {
      mode != MODE_PRIMARY_ONLY && hasCandidate && !breakerOpen && pending.Present? &&
      !TimedOut(pending.pending, now, timeout)
    }

    /** The watermark is dropped: either confirmed or given up on. */
    predicate Drops() {
      Decide(this).reason == ConvergenceTimeout || (Decide(this).useCandidate && pending.Present?)
    }
  }

  function Decide(s: Situation): RouteDecision {
    if s.mode == MODE_PRIMARY_ONLY || !s.hasCandidate then RouteDecision(false, PrimaryOnly, false)
    else if s.breakerOpen then RouteDecision(false, CandidateDegraded, true)
    else
      match s.pending
      case Corrupt => RouteDecision(false, WaitingForReplication, true)
      case Absent => RouteDecision(true, CandidateReady, false)
      case Present(p) =>
        if TimedOut(p, s.now, s.timeout) then RouteDecision(false, ConvergenceTimeout, true)
        else if s.reply.Unreachable? then RouteDecision(false, CandidateDegraded, true)
        else if s.reply.members == [] then RouteDecision(false, PrimaryOnly, true)
        else if CaughtUp(p, s.reply.members, s.hostname) then RouteDecision(true, CandidateReady, false)
        else RouteDecision(false, WaitingForReplication, false)
  }

  /** What one Evaluate records on the shared breaker after the initial query. */
  function Reports(s: Situation, at: int): seq<Call> {
    if !s.Asks() then []
    else if s.reply.Unreachable? then [Failure(at)]
    else if s.reply.members == [] then []
    else [Success]
  }

  class Gate {
    const hasPrimary: bool
    const hasCandidate: bool
    const hostname: string
    const breaker: CircuitBreaker?

    constructor (hasPrimary: bool, hasCandidate: bool, hostname: string, breaker: CircuitBreaker?)
      ensures this.hasPrimary == hasPrimary && this.hasCandidate == hasCandidate
      ensures this.hostname == hostname && this.breaker == breaker
    {
      this.hasPrimary, this.hasCandidate, this.hostname, this.breaker := hasPrimary, hasCandidate, hostname, breaker;
    }

    /** The breaker's answer and log, with "no breaker" read as never open. */
    ghost function History(): seq<Call>
      reads this, breaker
    {
      if breaker == null then [] else breaker.history
    }

    ghost predicate OpenAt(t: int)
      reads this, breaker
      requires breaker != null ==> breaker.Valid()
    {
      breaker != null && Suppressed(breaker.history, breaker.threshold, breaker.backoff, t)
    }

    method RecordWrite(obj: ManagedObject, fqdn: string, view: string, reply: SerialReply, now: int) returns (ok: bool)
      modifies obj
      ensures ok == !(hasPrimary && reply.ReadFailed?)
      ensures hasPrimary && reply.ZoneSerial? ==>
                Marked(obj.annotations, Pending(fqdn + "/" + view, reply.serial, now))
      ensures !(hasPrimary && reply.ZoneSerial?) ==> obj.annotations == old(obj.annotations)
      ensures obj.annotations - {PENDING_KEY} == old(obj.annotations) - {PENDING_KEY}
    {
      if !hasPrimary {
        return true;
      }
      match reply
      case ReadFailed => return false;
      case NoSerial => return true;
      case ZoneSerial(serial) =>
        SetPendingSerial(obj, fqdn, view, serial, now);
        return true;
    }

    /** t0, t1 and t2 are the clock readings of the breaker query, the timeout check and the
        breaker report, in that order. */
    method Evaluate(obj: ManagedObject, mode: string, timeout: int, reply: MembersReply, t0: int, t1: int, t2: int)
      returns (d: RouteDecision)
      requires breaker != null ==> breaker.Valid() && NotAfter(breaker.history, t0)
      modifies obj, breaker
      ensures breaker != null ==> breaker.Valid()
      ensures var s := Situation(mode, hasCandidate, old(OpenAt(t0)), GetPendingSerial(old(obj.annotations)), t1,
                                 timeout, hostname, reply);
              && d == Decide(s)
              && obj.annotations == (if s.Drops() then old(obj.annotations) - {PENDING_KEY} else old(obj.annotations))
              && (breaker != null ==>
                    History() == old(History()) +
                                 (if mode != MODE_PRIMARY_ONLY && hasCandidate then [Query(t0)] else []) +
                                 Reports(s, t2))
      // the same in terms of the annotations
      ensures mode != MODE_PRIMARY_ONLY && hasCandidate && !old(OpenAt(t0)) && Unreadable(old(obj.annotations)) ==>
                && d == RouteDecision(false, WaitingForReplication, true)
                && obj.annotations == old(obj.annotations)
                && (breaker != null ==> History() == old(History()) + [Query(t0)])
      ensures mode != MODE_PRIMARY_ONLY && hasCandidate && !old(OpenAt(t0)) && Unmarked(old(obj.annotations)) ==>
                && d == RouteDecision(true, CandidateReady, false)
                && obj.annotations == old(obj.annotations)
                && (breaker != null ==> History() == old(History()) + [Query(t0)])
      ensures d.useCandidate && !Unmarked(old(obj.annotations)) ==>
                && (exists p :: Marked(old(obj.annotations), p) && Confirms(reply, hostname, p.serial))
                && obj.annotations == old(obj.annotations) - {PENDING_KEY}
      ensures d.reason == ConvergenceTimeout <==>
                && mode != MODE_PRIMARY_ONLY && hasCandidate && !old(OpenAt(t0))
                && exists p :: Marked(old(obj.annotations), p) &&
                               t1 - p.since > if timeout > 0 then timeout else 60_000_000_000
    {
      ghost var read := GetPendingSerial(obj.annotations);
      if read.Present? {
        ReadsOfTheMap(obj.annotations, read.pending);
        if reply.Members? {
          CaughtUpConfirms(read.pending, reply, hostname);
        }
      }
      var structural := EvaluateStructural(mode, t0);
      if structural.Some? {
        return structural.value;
      }
      var pending, decision := EvaluatePending(obj);
      if decision.Some? {
        return decision.value;
      }
      var timedOut := EvaluateTimeout(obj, pending.pending, timeout, t1);
      if timedOut.Some? {
        return timedOut.value;
      }
      d := EvaluateCandidateSerial(obj, pending.pending, reply, t2);
    }

    method EvaluateStructural(mode: string, now: int) returns (d: Option<RouteDecision>)
      requires breaker != null ==> breaker.Valid() && NotAfter(breaker.history, now)
      modifies breaker
      ensures breaker != null ==> breaker.Valid()
      ensures d.Some? <==> mode == MODE_PRIMARY_ONLY || !hasCandidate || old(OpenAt(now))
      ensures d.Some? ==>
                d.value == if mode == MODE_PRIMARY_ONLY || !hasCandidate then RouteDecision(false, PrimaryOnly, false)
                                     else RouteDecision(false, CandidateDegraded, true)
      ensures breaker != null ==>
                History() == old(History()) + if mode != MODE_PRIMARY_ONLY && hasCandidate then [Query(now)] else []
    {
      if mode == MODE_PRIMARY_ONLY {
        return Some(RouteDecision(false, PrimaryOnly, false));
      }
      if !hasCandidate {
        return Some(RouteDecision(false, PrimaryOnly, false));
      }
      if breaker != null {
        var open := breaker.IsOpen(now);
        if open {
          return Some(RouteDecision(false, CandidateDegraded, true));
        }
      }
      return None;
    }

    method EvaluatePending(obj: ManagedObject) returns (pending: PendingRead, d: Option<RouteDecision>)
      ensures pending == GetPendingSerial(obj.annotations)
      ensures d.None? <==> pending.Present?
      ensures d.Some? ==>
                && (d.value.useCandidate <==> pending.Absent?) && (d.value.warning <==> pending.Corrupt?)
                && d.value.reason == if d.value.useCandidate then CandidateReady else WaitingForReplication
    {
      pending := GetPendingSerial(obj.annotations);
      d := match pending
        case Corrupt => Some(RouteDecision(false, WaitingForReplication, true))
        case Absent => Some(RouteDecision(true, CandidateReady, false))
        case Present(_) => None;
    }

    method EvaluateTimeout(obj: ManagedObject, pending: Pending, timeout: int, now: int)
      returns (d: Option<RouteDecision>)
      modifies obj
      ensures d.Some? <==> TimedOut(pending, now, timeout)
      ensures d.Some? ==> d.value == RouteDecision(false, ConvergenceTimeout, true)
      ensures obj.annotations == if d.Some? then old(obj.annotations) - {PENDING_KEY} else old(obj.annotations)
    {
      var limit := if timeout <= 0 then DEFAULT_TIMEOUT else timeout;
      if now - pending.since > limit {
        ClearPendingSerial(obj);
        return Some(RouteDecision(false, ConvergenceTimeout, true));
      }
      return None;
    }

    method EvaluateCandidateSerial(obj: ManagedObject, pending: Pending, reply: MembersReply, now: int)
      returns (d: RouteDecision)
      requires breaker != null ==> breaker.Valid()
      modifies obj, breaker
      ensures breaker != null ==> breaker.Valid()
      ensures d == if reply.Unreachable? then RouteDecision(false, CandidateDegraded, true)
                   else if reply.members == [] then RouteDecision(false, PrimaryOnly, true)
                   else if CaughtUp(pending, reply.members, hostname) then RouteDecision(true, CandidateReady, false)
                   else RouteDecision(false, WaitingForReplication, false)
      ensures obj.annotations == if d.useCandidate then old(obj.annotations) - {PENDING_KEY} else old(obj.annotations)
      ensures breaker != null ==>
                History() == old(History()) + (if reply.Unreachable? then [Failure(now)]
                                               else if reply.members == [] then [] else [Success])
    {
      if reply.Unreachable? {
        if breaker != null {
          var _ := breaker.RecordFailure(now);
        }
        return RouteDecision(false, CandidateDegraded, true);
      }
      var members := reply.members;
      if |members| == 0 {
        return RouteDecision(false, PrimaryOnly, true);
      }
      assert members[0..] == members;
      for i := 0 to |members|
        invariant MemberFor(members, hostname) == MemberFor(members[i..], hostname)
      {
        if members[i].gridPrimary == hostname {
          d := DecideFromMemberSerial(obj, pending, members[i]);
          return;
        }
        assert members[i..][1..] == members[i + 1..];
      }
      if breaker != null {
        breaker.RecordSuccess();
      }
      return RouteDecision(false, WaitingForReplication, false);
    }

    method DecideFromMemberSerial(obj: ManagedObject, pending: Pending, m: MemberSerial) returns (d: RouteDecision)
      requires breaker != null ==> breaker.Valid()
      modifies obj, breaker
      ensures breaker != null ==> breaker.Valid() && History() == old(History()) + [Success]
      ensures d == if m.serial >= pending.serial then RouteDecision(true, CandidateReady, false)
                   else RouteDecision(false, WaitingForReplication, false)
      ensures obj.annotations == if d.useCandidate then old(obj.annotations) - {PENDING_KEY} else old(obj.annotations)
    {
      if m.serial >= pending.serial {
        ClearPendingSerial(obj);
        if breaker != null {
          breaker.RecordSuccess();
        }
        return RouteDecision(true, CandidateReady, false);
      }
      if breaker != null {
        breaker.RecordSuccess();
      }
      return RouteDecision(false, WaitingForReplication, false);
    }
  }

  // ---- what the decisions promise -------------------------------------------------------

  /** A decision that keeps reads on the primary is silent only where that is expected: the
      resource is pinned to the primary, or its write is simply still on its way. */
  lemma SilentFallbacks(s: Situation)
    ensures !Decide(s).useCandidate && !Decide(s).warning <==>
              || s.mode == MODE_PRIMARY_ONLY
              || !s.hasCandidate
              || (s.Asks() && s.reply.Members? && s.reply.members != [] &&
                  !CaughtUp(s.pending.pending, s.reply.members, s.hostname))
    ensures Decide(s).useCandidate <==> Decide(s).reason == CandidateReady
    ensures Decide(s).useCandidate ==> !Decide(s).warning
  {
  }

  /** An IPAM object is never read from the candidate, whatever its configuration says, and its caller is
      told exactly if that overrules soaSerial. Any other object has the mode it was configured with. */
  lemma IpamStaysOnPrimary(s: Situation, configured: string)
    requires s.mode == EffectiveMode(configured, true).0
    ensures Decide(s) == RouteDecision(false, PrimaryOnly, false) && Reports(s, s.now) == [] && !s.Drops()
    ensures EffectiveMode(configured, true) == ("primaryOnly", configured == "soaSerial")
    ensures EffectiveMode(configured, false) == (configured, false)
  {
  }

  /** MemberFor is the first entry for the host. */
  lemma {:induction false} MemberForIsFirst(members: seq<MemberSerial>, hostname: string)
    ensures MemberFor(members, hostname).None? <==>
            forall i :: 0 <= i < |members| ==> members[i].gridPrimary != hostname
    ensures MemberFor(members, hostname).Some? ==>
              exists i :: 0 <= i < |members| && members[i] == MemberFor(members, hostname).value &&
                          members[i].gridPrimary == hostname &&
                          forall j :: 0 <= j < i ==> members[j].gridPrimary != hostname
  {
    if members != [] && members[0].gridPrimary != hostname {
      MemberForIsFirst(members[1..], hostname);
      if MemberFor(members, hostname).Some? {
        var rest := members[1..];
        var i :| 0 <= i < |rest| && rest[i] == MemberFor(rest, hostname).value && rest[i].gridPrimary == hostname &&
                 forall j :: 0 <= j < i ==> rest[j].gridPrimary != hostname;
        assert members[i + 1] == rest[i];
        assert forall j :: 0 < j < i + 1 ==> members[j] == rest[j - 1];
      } else {
        assert forall i :: 0 < i < |members| ==> members[i] == members[1..][i - 1];
      }
    }
  }
}
