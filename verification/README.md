# Verification of provider-infoblox-nios

A Dafny model of the parts of the Infoblox NIOS provider whose correctness is not visible from reading one
function. A WAPI reference changes when fields of the object change, a read may go to a lagging replica, the
Grid answers values nobody set, and fields may belong to somebody else. The model follows the Go code branch by
branch and proves what these mechanisms guarantee over every input, every run and every interleaving.

| File | What it models | Main results |
|---|---|---|
| `Identity.dfy`, `ReconcileRuns.dfy`, `Controllers.dfy` | the identity ladder, the reconcile steps of any number of managed resources with crashes and outside edits, and the imperative external client | ownership over all runs, at most one object per uid, the exact condition of crash recovery; one reconcile of the client is one step of the run model |
| `Prober.dfy`, `ProberRuns.dfy` | the prerequisite cache and every interleaving of its callers | one probe in flight per endpoint, probes spaced by the TTL, verdicts fresh and truthful, no deadlock |
| `CircuitBreaker.dfy`, `ConvergenceGate.dfy`, `ReadYourWrites.dfy` | the candidate-read breaker, the SOA-serial gate, and its runs over true unbounded serials | the breaker is a pure function of its history; a candidate read is never stale without a warning |
| `NestedBags.dfy`, `WireItems.dfy`, `ExtAttrs.dfy`, `FieldTables.dfy`, `FieldConvergence.dfy`, `DnsView.dfy`, `DnsViewGates.dfy` | the DNSView fields as a schema of 77 rows, comparison, late-initialization, conversions | late-initialization is order independent and settles; comparison is an equivalence; when one update converges, exactly |
| `DtcLbdn.dfy` | the DTCLBDN fields with their loops | the sequenced late-initialization equals the order-free one; round trips; when one update converges, exactly |
| `DriftPaths.dfy`, `DriftConfig.dfy`, `IgnorePaths.dfy`, `DriftDecorator.dfy`, `DriftVerdict.dfy`, `DriftTables.dfy`, `DriftView.dfy` | ignore paths, eligibility, the decorator and its composition with both controllers | path normalization is RFC 6901 decoding; accepted paths are prefix free, so map order does not matter; updates fail closed; the exact verdict |
| `Json.dfy`, `MergePatch.dfy` | JSON documents, RFC 7396 patches and the external-name refresh | two patches commute if and only if they agree; every interleaving ends with everybody's values |
| `Text.dfy`, `Wrappers.dfy` | string and option helpers | `Split` undoes `Join` exactly without separators in the parts |

`dafny verify dfyconfig.toml` checks the whole project.

## Where the code differs from its documentation

The model follows the code in each case.

- The breaker stays half-open: after the window every `IsOpen` is false until the next failure, not just one
  (comment at `internal/clients/dualclient/circuitbreaker.go:89-92`). `RecordFailure` returns true on every failure at or
  above the threshold.
- After a convergence timeout, candidate routing resumes at the next `Evaluate`, not at the next write (comment at
  `internal/clients/convergence/gate.go:214-217`): `TimeoutResumesAtNextEvaluate`.
- `Resolve` trims the uid and `Stamp` does not, so an object is recognised by its own stamp exactly if the uid has no
  surrounding whitespace: `OwnStampRecognised`.
- A lost rotated reference is found again exactly if nobody's object sits at the cached reference. Otherwise Observe
  is refused as handle reuse, and that state is reachable: `RecoveryExactly`, `LostReferenceCanBeTaken`.
- The status mirror keeps the identity attribute, so putting `extAttrs` on the ignore list of a stamped object
  excuses no drift at all, not even on the other ignored fields (`IgnoringAttributesExcusesNothing`,
  `DriftView.DecoratedVerdict`), although the package documentation says that drift confined to ignored paths never triggers
  an update. An attribute that is not a string is also sent back as text (`OwnersValuesAreSentBack`).
- An owner who turns an ignored `useTtl` on brings a `ttl` that is not ignored into the comparison:
  `OwnerChangesAreExcused`.
- Under an unrecognised mode Observe excuses ignored paths while Update writes the spec values. The CRD's enum keeps
  such modes out: `UnrecognisedModeIsHalfEnabled`.
- An empty list is omitted from a request like a nil one, and so is every zero inside an item. Where the Grid defaults
  such a blank, drift is reported after every update: a DTCLBDN list left empty is not cleared (`EmptyPoolsDoNotClear`),
  nor is a default undone inside an item (`PoolsSettle`, `AnswerIsSame`), and of a nil and an empty match list at most
  one can settle (`NilAndEmptyMatchLists`).
- A DNSView also accepts the ignore path of its scavenging schedule's `disable` (`AcceptedViewPaths`). An owner's `true`
  is handed over, but an owner's `false` reads as nil and is never captured, so a `true` in the spec is reported as drift
  and written back for ever (`OwnersFalseIsOverruled`), although the package documentation says that ignored paths are
  neither compared nor written from spec.
- The mirror shows absent attributes as null, which is captured. With `extAttrs` ignored, the seed in the spec is
  therefore overwritten by nothing on an adopted object without attributes (`OwnersValuesAreSentBack`), although the
  package documentation lets the seed of an unreported path stand.
- An existing capture survives an Observe that errs or finds no object; only Disconnect drops it.

## Model

| member | source | states |
|---|---|---|
| `Identity.Stamp` | internal/clients/identity/identity.go:343-350 | whatever order the map is copied in, the result is the caller's map with the identity attribute set |
| `Identity.Strip` | internal/clients/identity/identity.go:357-369 | the result is the map without the identity attribute, for the empty map too |
| `Identity.AttributeReads` | internal/clients/identity/identity.go:326-335 | an attribute reads as the text it holds and in no other case |
| `Identity.StampRoundTrip` | internal/clients/identity/identity.go:326-369 | the stamp is read back; stripping a stamped map restores the caller's map if and only if it did not use the reserved key |
| `Identity.LadderRows` | internal/clients/identity/identity.go:171-267 | every row of the ladder in terms of the Grid's contents when the GET is answered: empty uid, object at the reference (three cases), no, one or many carriers |
| `Identity.FailuresStopTheLadder` | internal/clients/identity/identity.go:194-267 | a failed GET of a reference is refused with that failure, whatever the search would say; a failed search is refused after a miss and without a reference |
| `Identity.ResolveIsSafe` | internal/clients/identity/identity.go:171-267 | for any answers, errors included: adopted objects are unstamped, resolved ones carry the uid, rotated ones are the only carrier, and not found means that nothing carries the uid |
| `Identity.OwnStampRecognised` | internal/clients/identity/identity.go:171-267 | an object stamped by its own resource resolves if and only if the uid has no surrounding whitespace; otherwise it is refused as handle reuse |
| `ReconcileRuns.ProviderStepIsSafe` | internal/controller/dtclbdn/controller.go:664-833 | from any state, a PUT hits an unstamped or own object, a DELETE an own one, a POST happens only if nothing carries the uid, and objects with foreign stamps are left as they are |
| `ReconcileRuns.CarriersAfter` | internal/controller/dtclbdn/controller.go:645-677 | where the carriers of every uid are after each kind of call |
| `ReconcileRuns.OutsiderStepKeepsInv` | internal/clients/identity/identity.go:194-230 | edits, renames, additions, removals and new resources keep the invariant under the stated assumptions |
| `ReconcileRuns.ReconcileKeepsInv` | internal/controller/dtclbdn/cluster.go:88-203 | a reconcile, with a crash at any point, keeps at most one carrier per uid |
| `ReconcileRuns.DeleteKeepsInv` | internal/controller/dtclbdn/controller.go:805-833 | so does a delete |
| `ReconcileRuns.OwnershipOverRuns` | internal/controller/dtclbdn/cluster.go:88-215 | in every run: at most one object per uid at every moment, every provider call safe, foreign stamps untouched, and a POST leaves exactly one carrier |
| `ReconcileRuns.RecoveryExactly` | internal/clients/identity/identity.go:194-230 | the next error-free Observe repairs a lost reference if and only if the cached one is free or right; otherwise it is refused and changes nothing |
| `ReconcileRuns.LostReferenceCanBeTaken` | internal/clients/identity/identity.go:257-261 | a three-step run from an empty Grid after which every error-free Observe is refused |
| `ReconcileRuns.AdoptionDoesNotSearch` | internal/clients/identity/identity.go:249-261 | the update after an adoption leaves one carrier if and only if there was none before |
| `ReconcileRuns.UpdateTrustsExternalName` | internal/controller/dtclbdn/cluster.go:177-203 | an update that trusts the external name respects ownership if and only if the object found there is unstamped or own |
| `Controllers.External.Observe` | internal/controller/dtclbdn/controller.go:769-799 | the ladder decides the outcome; a failed GET of a known reference, or a failed search, is an error that leaves the name alone; on success the external name is the object's current reference; adoption is never up to date, a refreshed reference counts as late-initialization |
| `Controllers.External.Create` | internal/controller/dtclbdn/cluster.go:152-170 | succeeds exactly with a usable uid, the prerequisite and the call; then one stamped object is added and named, otherwise nothing changes |
| `Controllers.External.Update` | internal/controller/dtclbdn/cluster.go:177-203 | the whole state after a PUT at the external name and the persisting of a rotated reference, for every combination of faults |
| `Controllers.External.Delete` | internal/controller/dnsview/cluster.go:201-215 | well-known views are never deleted; otherwise only an object that carries the caller's uid is, adoption is refused, a failed GET or search deletes nothing, and the call is one legal step of the run model |
| `Controllers.External.CreateAbsent` | internal/controller/dtclbdn/cluster.go:152-170 | the half of a reconcile after nothing was found, with the new name saved or lost |
| `Controllers.External.UpdatePresent` | internal/controller/dnsview/cluster.go:165-192 | the half after the object was found, with the repaired and the rotated name saved or lost |
| `Controllers.External.Reconcile` | internal/controller/dtclbdn/cluster.go:88-203 | for all faults and answers, one reconcile through the client is one legal step of the run model |
| `Probing.Prober.constructor` | internal/clients/identity/probe.go:136-143 | an empty cache, no locks, the five-minute TTL |
| `Probing.Prober.Lookup` | internal/clients/identity/probe.go:239-251 | a verdict is served exactly while it has not expired |
| `Probing.Prober.Store` | internal/clients/identity/probe.go:257-262 | one row changes, expiring a TTL later |
| `Probing.Prober.LockFor` | internal/clients/identity/probe.go:266-276 | an endpoint keeps its mutex for ever and shares it with no other |
| `Probing.Prober.Ensure` | internal/clients/identity/probe.go:168-195 | an uncontended call: an empty endpoint is an error, a fresh row is served; otherwise the answer is nil exactly if the definition was there or the create found or made it, the prerequisite error exactly if the create was forbidden, and the failure of the check or of the create otherwise; it is served to everybody until its TTL has passed |
| `ProberRuns.StepKeepsLocks` | internal/clients/identity/probe.go:174-195 | in every step the lock of an endpoint is held by exactly the thread inside its critical section |
| `ProberRuns.StepKeepsSpacing` | internal/clients/identity/probe.go:187-195 | the second lookup keeps probes of one endpoint a TTL apart |
| `ProberRuns.RecordsComplete` | internal/clients/identity/probe.go:200-262 | what a probe has decided and stored never changes |
| `ProberRuns.InvOverRuns` | internal/clients/identity/probe.go:168-276 | the invariant of locks, threads, rows and probes holds at every moment of every interleaving |
| `ProberRuns.EveryInterleaving` | internal/clients/identity/probe.go:168-276 | at most one probe in flight per endpoint, probes a TTL apart, and every verdict came from a probe of that endpoint, younger than the TTL if cached; a nil verdict means that the definition existed when that probe decided, whoever created it |
| `ProberRuns.AnsweredCheck` | internal/clients/identity/probe.go:200-232 | in any state, a check that is answered decides nil at once if the definition exists, and goes on to the create otherwise |
| `ProberRuns.VerdictsComeFromAnswers` | internal/clients/identity/probe.go:200-232 | in every interleaving, a recorded verdict is the one its own check or create called for: nil if the definition existed when that was answered, the prerequisite error if it did not and the create was forbidden |
| `ProberRuns.NoDeadlock` | internal/clients/identity/probe.go:168-195 | while a call has not returned, some thread can move |
| `CircuitBreakers.CircuitBreaker.constructor` | internal/clients/dualclient/circuitbreaker.go:41-49 | non-positive settings fall back to five failures and sixty seconds |
| `CircuitBreakers.CircuitBreaker.RecordSuccess` | internal/clients/dualclient/circuitbreaker.go:54-59 | the state again means the history, now ending in a success |
| `CircuitBreakers.CircuitBreaker.RecordFailure` | internal/clients/dualclient/circuitbreaker.go:64-73 | reports true on every failure that makes or keeps the trailing run at the threshold |
| `CircuitBreakers.CircuitBreaker.IsOpen` | internal/clients/dualclient/circuitbreaker.go:82-97 | under a monotone clock the answer is the pure function of the history: threshold reached and not later than the last failure plus backoff |
| `CircuitBreakers.CircuitBreaker.FailureCount` | internal/clients/dualclient/circuitbreaker.go:102-106 | the failures since the last success |
| `CircuitBreakers.TrailingRun` | internal/clients/dualclient/circuitbreaker.go:54-73 | the recursive count against an independent reading: cut the history after its last success, count, and find the last failure |
| `CircuitBreakers.QueriesAreInvisible` | internal/clients/dualclient/circuitbreaker.go:82-97 | removing a question from anywhere in the history changes no later answer, so the clearing write is unobservable |
| `CircuitBreakers.StaysHalfOpenUntilFailure` | internal/clients/dualclient/circuitbreaker.go:89-97 | once a read is let through, all are until the next failure |
| `CircuitBreakers.FailedTrialReopens` | internal/clients/dualclient/circuitbreaker.go:64-73 | one failed trial closes the candidate off again for exactly one backoff |
| `ConvergenceGate.SetPendingSerial` | internal/clients/convergence/annotation.go:42-56 | the watermark reads back as written and no other annotation changes |
| `ConvergenceGate.ClearPendingSerial` | internal/clients/convergence/annotation.go:81-91 | exactly the watermark is removed |
| `ConvergenceGate.ReadsOfTheMap` | internal/clients/convergence/annotation.go:61-76 | an annotation map reads as unmarked, unreadable or a watermark exactly if its key is missing or empty, holds other text, or holds that watermark |
| `ConvergenceGate.Gate.RecordWrite` | internal/clients/convergence/gate.go:132-144 | a watermark is recorded exactly if the primary answers a serial; only a failed read is an error; other annotations stay |
| `ConvergenceGate.Gate.Evaluate` | internal/clients/convergence/gate.go:151-166 | decision, annotations and the breaker's history after the whole chain, for every configuration, annotation, clock and reply; in terms of the annotation map: an unreadable text means the primary with a warning, no text means the candidate, any other candidate read has had its watermark confirmed by the first entry of the host, and giving up means more than the timeout, or sixty seconds where none is configured |
| `ConvergenceGate.Gate.EvaluateStructural` | internal/clients/convergence/gate.go:171-187 | when the first check decides, what it decides, and that it asks the breaker at most once |
| `ReadYourWrites.UnreadablePinsUntilWrite` | internal/clients/convergence/gate.go:193-212 | in every run an annotation that does not decode keeps the resource's reads on the primary, with a warning unless they are pinned there anyway, without reporting to the breaker and without changing the annotations, until the resource's own next write |
| `ConvergenceGate.Gate.EvaluateTimeout` | internal/clients/convergence/gate.go:218-232 | gives up, with a warning and without the watermark, exactly after the timeout |
| `ConvergenceGate.Gate.EvaluateCandidateSerial` | internal/clients/convergence/gate.go:236-276 | the decision from the first entry of the candidate's own host, and what the breaker is told in each case |
| `ConvergenceGate.Gate.DecideFromMemberSerial` | internal/clients/convergence/gate.go:280-296 | routes and drops the watermark exactly if the member's serial has reached it |
| `ConvergenceGate.SilentFallbacks` | internal/clients/convergence/gate.go:70-82 | reads stay on the primary without a warning exactly if the resource is pinned there or its write is still on its way; the candidate is used exactly under reason CandidateReady |
| `ConvergenceGate.IpamStaysOnPrimary` | internal/clients/convergence/gate.go:90-95 | an IPAM object stays on the primary under every configuration and touches neither breaker nor watermark; it is told so exactly if soaSerial was configured, and other objects keep their mode |
| `ConvergenceGate.MemberForIsFirst` | internal/clients/convergence/gate.go:261-276 | the loop finds the first entry of the host, or there is none |
| `ReadYourWrites.ComparisonSound` | internal/clients/convergence/gate.go:280-296 | for true serials less than 2^32 apart the uint32 comparison is right if and only if both lie in the same 2^32 epoch |
| `ReadYourWrites.AgreesWithSerialArithmetic` | internal/clients/convergence/gate.go:280-296 | where section 3.2 of RFC 1982 orders two serials, the plain comparison agrees if and only if they differ by less than 2^31 |
| `ReadYourWrites.WatermarkInvariant` | internal/clients/convergence/gate.go:132-296 | in every run, a resource without a watermark has been reached by the candidate or a timeout warning was emitted since its last write |
| `ReadYourWrites.NeverStale` | internal/clients/convergence/gate.go:151-296 | a candidate-routed read sees the resource's own last write unless the gate gave up on that write with a warning |
| `ReadYourWrites.CaughtUpMeansRouted` | internal/clients/convergence/gate.go:236-296 | an answered Evaluate routes to the candidate, and drops the watermark, if and only if the candidate has it |
| `ReadYourWrites.TimeoutResumesAtNextEvaluate` | internal/clients/convergence/gate.go:214-232 | after a timeout the very next Evaluate reads from the candidate |
| `ReadYourWrites.OtherZoneDropsWatermark` | internal/clients/convergence/gate.go:236-296 | evaluated for another zone, a watermark is confirmed by that zone's serial, so the zone must match |
| `ExtAttrs.BuildEA` | internal/controller/dtclbdn/controller.go:256-265 | the same keys with string values, in any order of copying |
| `ExtAttrs.ExtAttrsFromEA` | internal/controller/dtclbdn/controller.go:270-300 | the same keys with rendered values |
| `ExtAttrs.RenderedValues` | internal/controller/dtclbdn/controller.go:278-300 | integers render as decimals that denote them, lists so that splitting at the commas returns the items if and only if none holds a comma, booleans as the WAPI spells them, nil as nothing |
| `ExtAttrs.ExtAttrsEqual` | internal/controller/dtclbdn/controller.go:305-315 | the one-sided loop decides equality of the maps |
| `ExtAttrs.StampedAttrsRoundTrip` | internal/controller/dtclbdn/controller.go:645-677 | attributes read back after stamping and stripping equal the user's if and only if the reserved key is not among them |
| `ExtAttrs.UnstrippedShowsIdentity` | internal/controller/dtclbdn/controller.go:566-576 | the status mirror of a stamped object always shows the uid |
| `NestedBags.CompareNameServers` | internal/controller/dnsview/controller.go:518-557 | the loop decides whether the lists are as long and every leaf of every item is the same, nil counting as zero, TSIG key names only under their own flag |
| `NestedBags.CompareAddressAcs` | internal/controller/dnsview/controller.go:679-716 | the same for address ACLs |
| `NestedBags.ItemwiseListsSurvive` | internal/controller/dnsview/controller.go:465-716 | every list of name servers or ACLs survives conversion to the SDK form and back up to its comparator |
| `NestedBags.ItemReadsBack` | internal/controller/dnsview/controller.go:465-716 | no leaf of a name server or an ACL is lost in conversion, the TSIG key name under a flag that is off included: it reads back as written if and only if it holds no explicit zero |
| `NestedBags.DeepListsSurvive` | internal/controller/dnsview/controller.go:568-951 | lists compared by DeepEqual survive that conversion if and only if no item holds an explicit zero |
| `NestedBags.ExpressionsSurvive` | internal/controller/dnsview/controller.go:774-875 | an expression list survives if and only if it is nil, or not empty and free of explicit zeros; exactly nil and empty lists are not sent |
| `NestedBags.ScheduleSurvives` | internal/controller/dnsview/controller.go:969-1007 | a schedule survives conversion if and only if nothing in it is an explicit zero |
| `NestedBags.RateLimitSurvives` | internal/controller/dnsview/controller.go:886-910 | a rate limit survives if and only if nothing in it is an explicit zero |
| `NestedBags.ScavengingSurvives` | internal/controller/dnsview/controller.go:1022-1054 | scavenging settings survive conversion if and only if they, their schedule and their lists do |
| `WireItems.NameServerAgrees` | internal/controller/dnsview/controller.go:478-539 | a name server agrees with an answer that keeps what was sent if and only if every leaf left blank is blank there, the TSIG key name only under its flag |
| `WireItems.AddressAcAgrees` | internal/controller/dnsview/controller.go:636-698 | the same for an address ACL |
| `WireItems.TrustedKeyAgrees` | internal/controller/dnsview/controller.go:568-586 | a trusted key equals such an answer if and only if it holds no explicit zero and its blanks are blank there |
| `WireItems.FixedRrsetAgrees` | internal/controller/dnsview/controller.go:724-736 | the same for a fixed RRset |
| `WireItems.SortEntryAgrees` | internal/controller/dnsview/controller.go:918-924 | the same for a sort entry, whose blank match list must be answered with the very same kind of empty |
| `WireItems.RateLimitAgrees` | internal/controller/dnsview/controller.go:886-910 | the same for a rate limit |
| `WireItems.ExpressionsAgree` | internal/controller/dnsview/controller.go:774-875 | the same for an expression list |
| `WireItems.ScheduleAgrees` | internal/controller/dnsview/controller.go:969-1007 | the same for a schedule with its weekdays |
| `WireItems.ScavengingAgrees` | internal/controller/dnsview/controller.go:1022-1054 | the same for scavenging settings with their schedule and lists |
| `FieldTables.IsUpToDate` | internal/controller/dnsview/controller.go:1664-1671 | for any table with one row per field in any order, the loop decides agreement of all rows: exactly that every field without a gate, or whose flag is on in the spec, holds the same value, nil counting as zero |
| `FieldTables.SameMeansAlike` | internal/controller/dnsview/controller.go:518-716 | the comparators hold exactly of one value or two blanks for scalars, of equal leaves for item lists, and of the same value for the rest |
| `FieldTables.FlagRowsAreNeeded` | internal/controller/dnsview/controller.go:276-325 | a gated row alone is not symmetric; the rows of the flags repair it |
| `FieldTables.UpToDateIsEquivalence` | internal/controller/dnsview/controller.go:276-325 | the comparison is reflexive, symmetric and transitive although each gated row reads one side's flag |
| `FieldTables.SameIsEquivalence` | internal/controller/dnsview/controller.go:518-557 | so is every comparator, the per-item TSIG gates included |
| `FieldTables.LateInitialize` | internal/controller/dnsview/controller.go:1928-1936 | the in-place run, for any order of the operations, equals the order-free result, and reports a change exactly if there is one: a field takes the observed value exactly if it was nil or empty, its effective flag is on or absent, and there is something other than an empty string to take |
| `FieldTables.OrderIndependent` | internal/controller/dnsview/controller.go:327-422 | any two orders give the same bag |
| `FieldTables.KeepsAndSettles` | internal/controller/dnsview/controller.go:327-422 | nothing the user set is overwritten and a second run changes nothing |
| `FieldTables.FlagAfterLateInit` | internal/controller/dnsview/controller.go:333-338 | a use flag ends up on exactly if its effective value was, before, during and after |
| `FieldTables.RowAfterLateInit` | internal/controller/dnsview/controller.go:327-422 | the verdict of each row after late-initialization in terms of what the user wrote |
| `FieldTables.UpToDateAfterLateInit` | internal/controller/dnsview/controller.go:1664-1671 | up to date after late-initialization if and only if everything the user set under an open gate agrees |
| `FieldTables.VerdictInValues` | internal/controller/dnsview/controller.go:1664-1671 | the same verdict in terms of values and flags alone |
| `FieldTables.OffFlagHidesItsFields` | internal/controller/dnsview/controller.go:276-422 | what the Grid holds under a flag that ends up off changes neither the late-initialized parameters nor the verdict |
| `FieldTables.UnsetMeansNil` | internal/controller/dnsview/controller.go:327-422 | unset are exactly nil pointers and empty lists and maps, and besides them only the empty string is not filled in |
| `FieldTables.ImportIsFixedPoint` | internal/controller/dnsview/controller.go:1928-1936 | with only the required fields written, the first Observe is up to date |
| `FieldConvergence.AnswerIsSame` | internal/controller/dnsview/controller.go:1196-1359 | for every kind of field, a value that was sent compares equal to an answer that keeps it if and only if it holds no explicit zero and no reserved attribute, and what it left blank inside items is blank in the answer |
| `FieldConvergence.EchoedBlanks` | internal/controller/dnsview/controller.go:518-539 | what the Grid does with a TSIG key name under a flag that is off does not matter |
| `FieldConvergence.NilAndEmptyMatchLists` | internal/controller/dnsview/controller.go:918-924 | a nil and an empty match list are one request, and at most one of the two ever compares equal to any answer |
| `FieldConvergence.ReadSurvives` | internal/controller/dnsview/controller.go:1278-1359 | whatever an Observe read holds no explicit zero and no reserved attribute |
| `FieldConvergence.FlagReachesServer` | internal/controller/dnsview/controller.go:2064-2071 | after an update the Grid has a use flag on exactly if its effective value is on |
| `FieldConvergence.UpdateSettlesExactly` | internal/controller/dnsview/controller.go:2064-2071 | against a Grid that answers anything where a flag is off or nothing was sent, the Observe after an update is up to date if and only if every set field under an open gate settles: an empty plain string against what the Grid holds, any other value if it survives and its blanks stay blank |
| `FieldConvergence.OneUpdateConverges` | internal/controller/dnsview/controller.go:1928-2071 | a whole cycle from any earlier state of the Grid converges if and only if what the user wrote under an open gate settles and the blanks of what the first Observe filled in stay blank |
| `FieldConvergence.EmptyPlainStringSettlesExactly` | internal/controller/dnsview/controller.go:1196-1277 | an empty string in a field the SDK holds by value is never sent, and its row agrees if and only if the Grid's value is empty anyway |
| `DnsView.UseFlagsAreFlags` | internal/controller/dnsview/controller.go:1372-1656 | each of the 22 use flags is an ungated boolean row with a late-init operation |
| `DnsView.GatesWellFormed` | internal/controller/dnsview/controller.go:1372-1656 | so the real table meets the requirement of the generic results |
| `DnsView.TablesComplete` | internal/controller/dnsview/controller.go:1372-1922 | the comparator table has a row for every field, the late-init table for every field but Name |
| `DnsViewGates.GateExactly` | internal/controller/dnsview/controller.go:1372-1656 | the gate column read backwards: which fields each of the 22 use flags switches, and no others |
| `DnsViewGates.OffFlagHides` | internal/controller/dnsview/controller.go:1372-1922 | while one of them is off, exactly those fields of the Grid change neither the late-initialized parameters nor the verdict |
| `DnsViewGates.ScalarKinds` | apis/cluster/dnsview/v1alpha1/dnsview_types.go:207-395 | which fields are pointers to strings, which three the SDK holds by value, and which are numbers |
| `DnsViewGates.ListKinds` | apis/cluster/dnsview/v1alpha1/dnsview_types.go:207-395 | which fields are lists of strings and which are ACLs |
| `DnsView.ObserveFields` | internal/controller/dnsview/cluster.go:111-131 | on the real tables: the late-initialized bag, the changed flag, and a verdict that is true exactly if Name and every field the user set under an open gate hold the Grid's value, nil counting as zero |
| `DnsView.ImportByName` | internal/controller/dnsview/controller.go:1686-1936 | a view imported by name is up to date at once and takes over every observed value in effect |
| `DtcLbdn.BuildPools` | internal/controller/dtclbdn/controller.go:131-140 | one non-nil entry per link, nil becoming zero |
| `DtcLbdn.PoolOnTheWire` | internal/controller/dtclbdn/controller.go:131-166 | a link is sent as written with blanks as zeros, and read back as answered with zeros as nil |
| `DtcLbdn.PoolsFromSdk` | internal/controller/dtclbdn/controller.go:144-166 | the non-nil entries in order, zero becoming nil |
| `DtcLbdn.PoolsEqual` | internal/controller/dtclbdn/controller.go:170-183 | the loop decides whether there are as many links with the same references and ratios, nil counting as zero |
| `DtcLbdn.PoolsRoundTrip` | internal/controller/dtclbdn/controller.go:131-183 | every list of pools survives building and reading back up to that comparison |
| `DtcLbdn.BuildAuthZones` | internal/controller/dtclbdn/controller.go:190-202 | one entry per non-empty reference, in order |
| `DtcLbdn.AuthZonesFromSdk` | internal/controller/dtclbdn/controller.go:207-219 | the non-empty references of the non-nil entries, in order |
| `DtcLbdn.AuthZonesRoundTrip` | internal/controller/dtclbdn/controller.go:190-219 | a list of auth zones survives if and only if it holds no empty reference |
| `DtcLbdn.ForProvider.LateInitialize` | internal/controller/dtclbdn/controller.go:474-537 | the sequenced, in-place form equals the order-free form computed from the effective flag, and reports a change exactly if there is one |
| `DtcLbdn.ForProvider.LateInitTtl` | internal/controller/dtclbdn/controller.go:478-486 | useTtl is back-filled first, ttl exactly under the effective flag |
| `DtcLbdn.ForProvider.LateInitExtAttrs` | internal/controller/dtclbdn/controller.go:527-537 | empty attributes become the observed ones without the identity attribute |
| `DtcLbdn.LateInitSettles` | internal/controller/dtclbdn/controller.go:474-537 | a second run changes nothing and nothing the user set is overwritten |
| `DtcLbdn.ScalarFieldsUpToDate` | internal/controller/dtclbdn/controller.go:401-434 | the early exits decide agreement of the scalars, ttl only under the flag |
| `DtcLbdn.CollectionFieldsUpToDate` | internal/controller/dtclbdn/controller.go:438-461 | the same for the collections, types only if set |
| `DtcLbdn.IsUpToDate` | internal/controller/dtclbdn/controller.go:393-398 | both together |
| `DtcLbdn.UpToDateAfterLateInit` | internal/controller/dtclbdn/controller.go:401-490 | after late-initialization drift is reported exactly on what the user set; the ttl pair only on user-set values under an effective flag |
| `DtcLbdn.BuildDtcLbdn` | internal/controller/dtclbdn/controller.go:621-677 | every field sent, converted and stamped |
| `DtcLbdn.PoolsSettle` | internal/controller/dtclbdn/controller.go:131-183 | written pools agree with an answer that keeps what was sent if and only if there are as many and no link's blank reference or ratio was defaulted |
| `DtcLbdn.OneUpdateConverges` | internal/controller/dtclbdn/controller.go:664-677 | the Observe after an update is up to date if and only if no auth-zone reference is empty, the reserved attribute is not used, and what the user left blank, inside pool links too, is blank on the Grid, which may hold anything where nothing was sent |
| `DtcLbdn.EmptyPoolsDoNotClear` | internal/controller/dtclbdn/controller.go:131-134 | empty pools are not sent, so against a Grid that keeps them every Observe reports drift |
| `DriftPaths.TwoPassesAreOne` | internal/driftdetection/driftdetection.go:318-322 | the two replacement passes equal one left-to-right decoding (section 4 of RFC 6901) on every token, well-formed or not |
| `DriftPaths.TokenRoundTrip` | internal/driftdetection/driftdetection.go:318-322 | every key, written as a token, decodes to itself |
| `DriftPaths.ValidTokensAreEscapes` | internal/driftdetection/driftdetection.go:318-322 | decoding loses nothing if and only if the token is well-formed by section 3 of RFC 6901 |
| `DriftPaths.OtherOrderIsWrong` | internal/driftdetection/driftdetection.go:318-322 | with the passes swapped the token of the key `~1` would become a slash |
| `DriftPaths.NormalizePath` | internal/driftdetection/driftdetection.go:312-337 | the code's loop computes the path decoded by the RFC, with the code's four errors in order |
| `DriftPaths.AcceptedShape` | internal/driftdetection/driftdetection.go:312-337 | an accepted path is trimmed, free of indices and wildcards, and has non-empty segments below forProvider |
| `DriftPaths.AcceptedExactly` | internal/driftdetection/driftdetection.go:312-337 | a trimmed, decoded path is accepted if and only if it has at least two segments, the first forProvider, none empty, and no index or wildcard |
| `DriftPaths.NormalizeIsIdempotent` | internal/driftdetection/driftdetection.go:312-337 | normalizing an accepted path again changes nothing |
| `DriftPaths.SpellingsAgree` | internal/driftdetection/driftdetection.go:304-337 | the dotted and the JSON Pointer spelling of any keys normalize alike, and the segments are the keys if and only if no key contains a dot |
| `DriftConfig.StructFieldByJSONName` | internal/driftdetection/driftdetection.go:272-302 | the two loops find the first direct field, else the first promoted one |
| `DriftConfig.TypeHasField` | internal/driftdetection/driftdetection.go:249-266 | the loop decides whether the path resolves in the type |
| `DriftConfig.CheckEligible` | internal/driftdetection/driftdetection.go:230-240 | the allowlist is asked first, the type second |
| `DriftConfig.ReadConfig` | internal/driftdetection/driftdetection.go:183-222 | all or nothing: the first bad path decides, otherwise every path is normalized and the mode defaults to enabled |
| `DriftConfig.AcceptAllIsPointwise` | internal/driftdetection/driftdetection.go:205-219 | a list is accepted if and only if each path is, and then path by path |
| `DriftConfig.ModeIsAsWritten` | internal/driftdetection/driftdetection.go:183-204 | no mode and the empty mode mean enabled, any other is taken as written |
| `DriftConfig.EligibleEndsThePath` | internal/driftdetection/driftdetection.go:249-302 | where allowlisted fields are no structs, nothing resolves below one, through pointers and embedded structs too |
| `DriftConfig.AcceptedPathsArePrefixFree` | internal/driftdetection/driftdetection.go:156-302 | of two different accepted paths neither lies below the other |
| `DriftConfig.NestedEligibleFieldsOverlap` | internal/driftdetection/driftdetection.go:156-302 | without that condition two overlapping paths are accepted |
| `Json.SetCommutes` | internal/driftdetection/driftdetection.go:396-400 | two writes to paths neither of which lies below the other commute, failures included |
| `DriftDecorator.Snapshot` | internal/driftdetection/driftdetection.go:353-377 | exactly the paths reported below status.atProvider are captured with their values, the others listed as unobserved, and a malformed status is an error |
| `DriftDecorator.AnyPathLast` | internal/driftdetection/driftdetection.go:396-400 | any captured path could have been written last |
| `DriftDecorator.Apply` | internal/driftdetection/driftdetection.go:381-405 | the loop over the map, in whatever order, gives one and the same shadow or failure |
| `DriftDecorator.SubstitutedReads` | internal/driftdetection/driftdetection.go:381-405 | captured paths carry their captured values and all other paths read as before |
| `DriftDecorator.SubstitutionCarries` | internal/driftdetection/driftdetection.go:353-405 | for an ignored path below forProvider, the value the captured document holds at status.atProvider ends up at spec.forProvider; where it holds none, and at every unrelated path, the object's own stays |
| `DriftDecorator.External.Observe` | internal/driftdetection/driftdetection.go:441-518 | what is captured, when the shadow is asked and which, the verdict in every mode, that the shadow holds the value reported at status.atProvider in its place below spec.forProvider, and that the caller's object is as the wrapped client left it |
| `DriftDecorator.External.Reinterpret` | internal/driftdetection/driftdetection.go:466-518 | warn and disabled never report drift; otherwise drift stands unless the shadow, built from this capture, is up to date; failures surface |
| `DriftDecorator.External.Update` | internal/driftdetection/driftdetection.go:529-562 | the wrapped update runs exactly if no substitution is asked for or a capture exists and applies; the trace stays fail-closed and the caller's object changes only in its annotations |
| `DriftDecorator.External.Disconnect` | internal/driftdetection/driftdetection.go:570-575 | the capture is dropped |
| `DriftDecorator.LogKeepsJustified` | internal/driftdetection/driftdetection.go:529-575 | a trace stays fail-closed under each kind of call |
| `DriftDecorator.WritesCarryTheOwnersValues` | internal/driftdetection/driftdetection.go:529-562 | every substituting write of every trace follows a capture with no Disconnect between, holds below spec.forProvider the very values which the document of that capture reported below status.atProvider, and is the object's own elsewhere |
| `DriftDecorator.UnrecognisedModeIsHalfEnabled` | internal/driftdetection/driftdetection.go:463-537 | Observe excuses drift that Update would revert exactly under an unrecognised mode with ignore paths |
| `DriftVerdict.ObserveFromDtcLbdn` | internal/controller/dtclbdn/controller.go:566-614 | the mirror: empty comments read as unreported, attributes keep the identity attribute |
| `DriftVerdict.MakeShadow` | internal/driftdetection/driftdetection.go:381-405 | ignored fields take the mirrored value where there is one; attributes always, the null of an object without any included |
| `DriftVerdict.MirrorAgreesExactly` | internal/controller/dtclbdn/controller.go:460-576 | mirrored attributes compare equal if and only if the object carries no identity attribute |
| `DriftVerdict.ShadowVerdict` | internal/controller/dtclbdn/cluster.go:88-147 | the shadow is up to date if and only if everything not handed over agrees and no stamped attributes were handed over |
| `DriftVerdict.Observe` | internal/driftdetection/driftdetection.go:441-518 | the decorated DTCLBDN verdict, exactly, with the caller's parameters only late-initialized |
| `DriftVerdict.OwnerChangesAreExcused` | internal/driftdetection/driftdetection.go:484-518 | changes by the owners of ignored fields keep an up-to-date resource so, except exactly when a ttl that is not handed over comes into effect and differs |
| `DriftVerdict.IgnoringAttributesExcusesNothing` | internal/driftdetection/driftdetection.go:484-518 | with extAttrs ignored, the shadow of a stamped object is never up to date |
| `DriftVerdict.OwnersValuesAreSentBack` | internal/driftdetection/driftdetection.go:529-562 | what a decorated update sends, field by field; ignored attributes go back unchanged if and only if all are strings and carry this stamp, and an object without any gets the stamp alone |
| `DriftTables.ShadowVerdict` | internal/driftdetection/driftdetection.go:484-518 | for every table-driven controller, whatever rows other than use flags are written over: the shadow's verdict row by row, a written row counting under an open gate and any other as it did |
| `DriftTables.MirroredRow` | internal/driftdetection/driftdetection.go:353-405 | a row written over with its own mirror agrees, unless it is an attribute map that shows the identity attribute |
| `IgnorePaths.AcceptedViewPaths` | internal/driftdetection/driftdetection.go:205-302 | on the shape of the DNSView type, the accepted ignore paths are exactly comment, disable, extAttrs and the scavenging schedule's disable |
| `IgnorePaths.ViewTypeExists` | apis/cluster/dnsview/v1alpha1/dnsview_types.go:73-137 | a type of that shape |
| `IgnorePaths.AcceptedLbdnPaths` | internal/driftdetection/driftdetection.go:205-302 | on the shape of the DTCLBDN type, the accepted ignore paths are exactly its five allowlisted fields; nothing below the selector of auth zones is accepted |
| `IgnorePaths.LbdnTypeExists` | apis/cluster/dtclbdn/v1alpha1/dtclbdn_types.go:38-84 | a type of that shape |
| `DriftView.LeafIsWritten` | internal/driftdetection/driftdetection.go:396-403 | writing the nested leaf sets it, creates absent parents, changes nothing else, and is no change exactly if it was so already |
| `DriftView.FalseReadsAsNil` | internal/controller/dnsview/controller.go:969-987 | a schedule that is not disabled reads as one without the leaf |
| `DriftView.MakeShadow` | internal/driftdetection/driftdetection.go:381-405 | ignored fields take the mirrored value where there is one, the settings only in their leaf |
| `DriftView.DecoratedVerdict` | internal/driftdetection/driftdetection.go:463-518 | an adopted object is never up to date; with stamped attributes ignored nothing is excused; otherwise the verdict is that every row is closed, agrees, was handed over as a whole, or agrees once its leaf is written |
| `DriftView.OwnersFalseIsOverruled` | internal/driftdetection/driftdetection.go:364-377 | with the leaf ignored, the gate on and true in the spec, an owner's false reports drift at every Observe and the update sends true |
| `DriftView.OwnersValuesAreSentBack` | internal/driftdetection/driftdetection.go:529-562 | what a decorated update of a view sends: the owner's value for each row or leaf handed over, everything else as in the spec |
| `DriftView.ViewFits` | internal/controller/dnsview/controller.go:1372-1922 | the real tables have these rows, the scavenging settings under their own use flag |
| `DriftView.DecoratedViewVerdict` | internal/controller/dnsview/cluster.go:101-131 | the decorated verdict on the real tables, for every ignore list a DNSView accepts |
| `MergePatch.CommuteExactly` | internal/controller/externalname/externalname.go:94-99 | for every target, two patches applied by section 2 of RFC 7396 give the same document in either order if and only if they agree where they meet |
| `MergePatch.PatchSetsOnlyTheName` | internal/controller/externalname/externalname.go:100-109 | the patch built here sets the external-name annotation and changes no other path |
| `MergePatch.NamePatchCommutes` | internal/controller/externalname/externalname.go:41-71 | it commutes with another patch if and only if that one leaves the annotation alone |
| `MergePatch.NamePatchMightComeLast` | internal/controller/externalname/externalname.go:41-71 | wherever it lands among such patches, the result is as if it came last |
| `MergePatch.NobodysWriteIsLost` | internal/controller/externalname/externalname.go:41-92 | so every interleaving ends with the new name and with everybody else's values |
| `MergePatch.Refresh` | internal/controller/externalname/externalname.go:72-92 | conflicts are retried up to five attempts, other failures end at once; the in-memory name changes exactly with the server's, and the server's document is the others' patches plus at most this one |

## Left out

Not modelled:

- HTTP, TLS and JSON transport, the WAPI client and the vendored SDK. Remote calls answer from the modelled Grid or with a fault passed in as a parameter. Classification of errors by their text becomes a datatype of error kinds.
- Metrics, logging, Kubernetes conditions, timestamps and human-readable messages.
- Generated API types, deep copies, registration, connection setup and the reflection checks of `getRef` and `getEA`.
- The namespaced controllers, which mirror the cluster-scoped ones, and the controllers of other resource kinds.
- The `Writer` and `Reader` selections of `internal/clients/dualclient/dualclient.go`, two lines each.
- fieldpath, encoding/json and the conversion between typed objects and their projection, which are no part of the repository. Objects are JSON values, types are finite trees, and a dotted path parses if no segment is empty.
- crossplane-runtime's own decisions, such as its create-pending annotations and finalizers. One reconcile is Observe and the call that follows it, on an unchanged Grid; `UpdateTrustsExternalName` says exactly what is lost otherwise. In the decorator, both reads of one Observe see the same record.
- Nil entries in the DNSView lists of pointers, and the read-only health, cloud and default-view fields.

Assumptions that the results state as preconditions:

- Uids have no surrounding whitespace, outsiders never write the uid of a managed resource, no reference is empty or equals a resource's name, and no unstamped object sits at a cached reference while the stamped one lives elsewhere (`AdoptionDoesNotSearch` shows why).
- For the read-your-writes runs: RecordWrite finds a serial for the zone that is later evaluated, and watermark and candidate serial lie in one 2^32 epoch (`OtherZoneDropsWatermark` and `ComparisonSound` show why).
- For convergence: the Grid keeps what it is sent and does as it likes with what it is not sent. Nil pointers, empty lists and empty plain strings are not sent, and neither are zeros, empty lists and nil pointers inside items.
- For the ignore paths: no allowlisted name denotes a struct, and the parameters of the two types have the shapes `IsViewParameters` and `IsLbdnParameters` (the embedded types of crossplane-runtime are no part of the repository).
- In the read-your-writes runs nobody else empties, forges or removes the watermark; anybody may garble it and write other annotations.
- The clock is monotone.

Stated weaker than one might wish:

- CircuitBreakers.CircuitBreaker.IsOpen: does not promise a single half-open trial, because the code lets every reader through until the next failure.
- Probing.Prober.Ensure: covers the uncontended call; all interleavings are the subject of `ProberRuns.EveryInterleaving`.
- Controllers.External.Observe: takes the verdicts of the field comparison and of late-initialization as parameters; `DnsView.ObserveFields` and `DtcLbdn.IsUpToDate` prove those.
- DriftVerdict.ObserveFromDtcLbdn: mirrors the five fields that an ignore path can name; the others are copied into the status and never read back.
- MergePatch.Refresh: models the in-memory name; the client library also overwrites the rest of the in-memory object with the server's answer, which is no part of the repository.
- DriftDecorator.Snapshot: does not fix the order of unobserved paths, which only shows in a message.
- Controllers.External.Reconcile: covers live resources; a deletion is the separate call `Controllers.External.Delete`, which is proved a step of the run model itself.
