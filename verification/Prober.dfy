/** The identity-attribute prerequisite prober (internal/clients/identity/probe.go). */
module Probing {
  import opened Wrappers
  import opened Text

  const DEFAULT_PROBE_TTL := 300_000_000_000 // nanoseconds

  /** A nil error, a PrerequisiteError, or any other (wrapped) error.  All three are cached alike. */
  datatype Verdict = Usable | Prerequisite | Transient(error: string)

  datatype Entry = Entry(verdict: Verdict, expiresAt: int)

  datatype ExistsReply = Present | NotDefined | CheckFailed(error: string)
  datatype CreateReply = Created | AlreadyExists | Forbidden | CreateFailed(error: string)

  /** What one probe concludes from the check and, if the definition is absent, the create. */
  function ProbeVerdict(exists_: ExistsReply, create: CreateReply): Verdict {
    match exists_
    case CheckFailed(e) => Transient(e)
    case Present => Usable
    case NotDefined =>
      match create
      case Created => Usable
      case AlreadyExists => Usable
      case Forbidden => Prerequisite
      case CreateFailed(e) => Transient(e)
  }

  function CachedVerdict(e: Option<Entry>, now: int): Option<Verdict> {
    if e.None? || now >= e.value.expiresAt then None else Some(e.value.verdict)
  }

  function EntryOf(cache: map<string, Entry>, endpoint: string): Option<Entry> {
    if endpoint in cache then Some(cache[endpoint]) else None
  }

  // ---- the object ---------------------------------------------------------------------------

  class Mutex {
    constructor () {}
  }

  class Prober {
    const ttl: int
    var cache: map<string, Entry>
    var keyLocks: map<string, Mutex>

    constructor ()
      ensures ttl == 300_000_000_000 && cache == map[] && keyLocks == map[] && LocksDistinct()
    {
      ttl, cache, keyLocks := DEFAULT_PROBE_TTL, map[], map[];
    }

    /** Different endpoints never share a mutex. */
    ghost predicate LocksDistinct()
      reads this
    {
      forall a, b :: a in keyLocks && b in keyLocks && keyLocks[a] == keyLocks[b] ==> a == b
    }

    method Lookup(endpoint: string, now: int) returns (verdict: Option<Verdict>)
      ensures verdict == CachedVerdict(EntryOf(cache, endpoint), now)
    {
      if endpoint !in cache {
        return None;
      }
      var entry := cache[endpoint];
      if now >= entry.expiresAt {
        return None;
      }
      return Some(entry.verdict);
    }

    method Store(endpoint: string, verdict: Verdict, now: int)
      modifies this`cache
      ensures cache == old(cache)[endpoint := Entry(verdict, now + ttl)]
    {
      cache := cache[endpoint := Entry(verdict, now + ttl)];
    }

    method LockFor(endpoint: string) returns (l: Mutex)
      requires LocksDistinct()
      modifies this`keyLocks
      ensures LocksDistinct() && endpoint in keyLocks && l == keyLocks[endpoint]
      ensures old(keyLocks).Keys <= keyLocks.Keys && forall k :: k in old(keyLocks) ==> keyLocks[k] == old(keyLocks[k])
    {
      if endpoint !in keyLocks {
        var fresh_ := new Mutex();
        assert forall k :: k in keyLocks ==> keyLocks[k] != fresh_;
        keyLocks := keyLocks[endpoint := fresh_];
      }
      l := keyLocks[endpoint];
    }

    /** An uncontended call: now1 and now2 are the clock at the two lookups, now3 at the store. */
    method Ensure(rawEndpoint: string, exists_: ExistsReply, create: CreateReply, now1: int, now2: int, now3: int)
      returns (verdict: Option<Verdict>)
      requires LocksDistinct() && now1 <= now2 <= now3
      modifies this
      ensures LocksDistinct()
      ensures var endpoint := TrimSpace(rawEndpoint);
              var hit := CachedVerdict(EntryOf(old(cache), endpoint), now1);
              var late := CachedVerdict(EntryOf(old(cache), endpoint), now2);
              && (verdict.None? <==> endpoint == "")
              && (endpoint == "" || hit.Some? || late.Some? ==> cache == old(cache))
              && (endpoint != "" && hit.Some? ==> verdict == hit)
              && (endpoint != "" && hit.None? ==>
                    && verdict.Some?
                    && (verdict.value.Usable? <==>
                        exists_.Present? || (exists_.NotDefined? && (create.Created? || create.AlreadyExists?)))
                    && (verdict.value.Prerequisite? <==> exists_.NotDefined? && create.Forbidden?)
                    && (exists_.CheckFailed? ==> verdict.value == Transient(exists_.error))
                    && (exists_.NotDefined? && create.CreateFailed? ==> verdict.value == Transient(create.error))
                    && forall t ::
                         CachedVerdict(EntryOf(cache, endpoint), t) == if t < now3 + ttl then verdict else None)
    {
      var endpoint := TrimSpace(rawEndpoint);
      if endpoint == "" {
        return None;
      }
      verdict := Lookup(endpoint, now1);
      if verdict.Some? {
        return;
      }
      var _ := LockFor(endpoint);
      verdict := Lookup(endpoint, now2);
      if verdict.Some? {
        return;
      }
      var v := ProbeVerdict(exists_, create);
      Store(endpoint, v, now3);
      return Some(v);
    }
  }
}
