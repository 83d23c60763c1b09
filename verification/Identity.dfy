/** The UID-in-EA identity ladder (internal/clients/identity/identity.go). */
module Identity {
  import opened Wrappers
  import opened Text

  type Ref = string
  type Uid = string

  const EA_KEY := "Crossplane Internal ID"

  /** A decoded extensible-attribute value. */
  datatype EAValue = EANull | EAString(text: string) | EABool(b: bool) | EAInt(n: int) | EAList(items: seq<string>)

  type EA = map<string, EAValue>

  /** One key of an EA map; absent, null and non-string values all read as absent. */
  function EaValue(ea: EA, key: string): Option<string> {
    if key in ea && ea[key].EAString? then Some(ea[key].text) else None
  }

  function Stamped(ea: EA, uid: Uid): EA {
    ea[EA_KEY := EAString(uid)]
  }

  function Stripped(ea: EA): EA {
    ea - {EA_KEY}
  }

  /** Copies the map key by key, in any order, then sets the identity attribute. */
  method Stamp(ea: EA, uid: Uid) returns (out: EA)
    ensures out == Stamped(ea, uid)
  {
    out := map[];
    var todo := ea.Keys;
    while todo != {}
      invariant todo <= ea.Keys
      invariant out == ea - todo
    {
      var k :| k in todo;
      out := out[k := ea[k]];
      todo := todo - {k};
    }
    out := out[EA_KEY := EAString(uid)];
  }

  method Strip(ea: EA) returns (out: EA)
    ensures out == Stripped(ea)
  {
    if |ea| == 0 {
      return ea;
    }
    out := map[];
    var todo := ea.Keys;
    while todo != {}
      invariant todo <= ea.Keys
      invariant out == ea - todo - {EA_KEY}
    {
      var k :| k in todo;
      if k != EA_KEY {
        out := out[k := ea[k]];
      }
      todo := todo - {k};
    }
  }

  /** An attribute reads as the text it holds; absent, null and non-string ones do not read at all. */
  lemma AttributeReads(ea: EA, key: string, text: string)
    ensures EaValue(ea, key) == Some(text) <==> key in ea && ea[key] == EAString(text)
    ensures EaValue(ea, key) == None <==> key !in ea || !ea[key].EAString?
  {
  }

  /** The stamp is read back, and stripping it leaves exactly the caller's other attributes. */
  lemma StampRoundTrip(ea: EA, uid: Uid)
    ensures EaValue(Stamped(ea, uid), "Crossplane Internal ID") == Some(uid)
    ensures Stripped(Stamped(ea, uid)) == Stripped(ea)
    ensures Stripped(Stamped(ea, uid)) == ea <==> EA_KEY !in ea
  {
  }

  // ---- the Grid -----------------------------------------------------------------------------

  type Fields = map<string, string>

  datatype Obj = Obj(ea: EA, fields: Fields)

  /** A WAPI object is addressed by its current reference. */
  type Grid = map<Ref, Obj>

  function StampOf(o: Obj): Option<Uid> {
    EaValue(o.ea, EA_KEY)
  }

  /** The references of the objects stamped with uid. */
  function Carriers(grid: Grid, uid: Uid): set<Ref> {
    set r | r in grid && StampOf(grid[r]) == Some(uid)
  }

  /** A WAPI answer: a value, "not found", or any other error. */
  datatype Reply<+T> = Found(value: T) | Missing | Failed(error: string)

  /** What a GET of ref may answer. */
  predicate GetAnswers(grid: Grid, ref: Ref, reply: Reply<Obj>) {
    match reply
    case Found(o) => ref in grid && o == grid[ref]
    case Missing => ref !in grid
    case Failed(_) => true
  }

  /** What a search for uid may answer: the carriers once each, in any order; an empty answer may
      also be reported as not found. */
  ghost predicate SearchAnswers(grid: Grid, uid: Uid, reply: Reply<seq<Ref>>) {
    match reply
    case Found(refs) =>
      && (forall i, j :: 0 <= i < j < |refs| ==> refs[i] != refs[j])
      && (forall r :: r in refs <==> r in Carriers(grid, uid))
    case Missing => Carriers(grid, uid) == {}
    case Failed(_) => true
  }

  // ---- Resolve ------------------------------------------------------------------------------

  datatype Outcome = Resolved | Adopted | Rotated | FoundByUID

  datatype IdentityError =
    | EmptyUID
    | GetFailed(error: string)
    | HandleReuse(ref: Ref, want: Uid, got: Uid)
    | SearchFailed(error: string)
    | Ambiguous(uid: Uid, count: nat)

  /** Owned carries the outcome and the object's current reference. */
  datatype Resolution = Owned(outcome: Outcome, ref: Ref) | NotThere | Refused(error: IdentityError)

  /** None means: fall through to the search. */
  function ResolveByRef(ref: Ref, uid: Uid, get: Reply<Obj>): Option<Resolution> {
    match get
    case Missing => None
    case Failed(e) => Some(Refused(GetFailed(e)))
    case Found(o) =>
      match StampOf(o)
      case None => Some(Owned(Adopted, ref))
      case Some(got) => if got == uid then Some(Owned(Resolved, ref)) else Some(Refused(HandleReuse(ref, uid, got)))
  }

  function Resolve(ref: Ref, rawUid: Uid, get: Reply<Obj>, search: Reply<seq<Ref>>): Resolution {
    var uid := TrimSpace(rawUid);
    if uid == "" then Refused(EmptyUID)
    else
      var byRef := if ref != "" then ResolveByRef(ref, uid, get) else None;
      if byRef.Some? then byRef.value
      else
        match search
        case Failed(e) => Refused(SearchFailed(e))
        case Missing => NotThere
        case Found(refs) =>
          if |refs| == 0 then NotThere
          else if |refs| == 1 then Owned(if ref == "" then FoundByUID else Rotated, refs[0])
          else Refused(Ambiguous(uid, |refs|))
  }

  ghost predicate Answers(grid: Grid, ref: Ref, rawUid: Uid, get: Reply<Obj>, search: Reply<seq<Ref>>) {
    GetAnswers(grid, ref, get) && SearchAnswers(grid, TrimSpace(rawUid), search)
  }

  lemma {:induction false} ListingSize(refs: seq<Ref>, all: set<Ref>)
    requires forall i, j :: 0 <= i < j < |refs| ==> refs[i] != refs[j]
    requires forall r :: r in refs <==> r in all
    ensures |refs| == |all|
  {
    if refs != [] {
      var last := refs[|refs| - 1];
      var front := refs[..|refs| - 1];
      assert refs == front + [last];
      assert last !in front;
      ListingSize(front, all - {last});
    } else {
      assert all == {};
    }
  }

  /** The ladder, row by row, in terms of what is on the Grid.  The first row that applies wins. */
  lemma LadderRows(grid: Grid, ref: Ref, rawUid: Uid, get: Reply<Obj>, search: Reply<seq<Ref>>)
    requires Answers(grid, ref, rawUid, get, search) && "" !in grid
    ensures var uid := TrimSpace(rawUid);
            var r := Resolve(ref, rawUid, get, search);
            var carriers := Carriers(grid, uid);
            && (r == Refused(EmptyUID) <==> uid == "")
            && (uid != "" && ref in grid && !get.Failed? ==>
                  r == match StampOf(grid[ref])
                       case None => Owned(Adopted, ref)
                       case Some(got) =>
                         if got == uid then Owned(Resolved, ref) else Refused(HandleReuse(ref, uid, got)))
            && (uid != "" && ref !in grid && (ref == "" || !get.Failed?) && !search.Failed? ==>
                  && (r == NotThere <==> carriers == {})
                  && (forall o: Ref :: carriers == {o} ==> r == Owned(if ref == "" then FoundByUID else Rotated, o))
                  && (|carriers| > 1 ==> r == Refused(Ambiguous(uid, |carriers|))))
  {
    var uid := TrimSpace(rawUid);
    if search.Found? {
      ListingSize(search.value, Carriers(grid, uid));
      forall o: Ref | Carriers(grid, uid) == {o}
        ensures search.value == [o]
      {
        assert |search.value| == 1;
        assert search.value[0] in search.value;
      }
      if |search.value| == 0 {
        assert Carriers(grid, uid) == {};
      } else {
        assert search.value[0] in search.value;
      }
    }
  }

  /** A failed GET at the reference stops the ladder whatever the search would have found, and so does a failed
      search once the reference is gone or was never there. */
  lemma FailuresStopTheLadder(ref: Ref, rawUid: Uid, get: Reply<Obj>, search: Reply<seq<Ref>>)
    requires TrimSpace(rawUid) != ""
    ensures ref != "" && get.Failed? ==> Resolve(ref, rawUid, get, search) == Refused(GetFailed(get.error))
    ensures search.Failed? && (ref == "" || get.Missing?) ==>
              Resolve(ref, rawUid, get, search) == Refused(SearchFailed(search.error))
  {
  }

  /** What any answer entitles the caller to, errors included. */
  lemma ResolveIsSafe(grid: Grid, ref: Ref, rawUid: Uid, get: Reply<Obj>, search: Reply<seq<Ref>>)
    requires Answers(grid, ref, rawUid, get, search)
    ensures var uid := TrimSpace(rawUid);
            match Resolve(ref, rawUid, get, search)
            case Owned(Adopted, r) => r == ref && r in grid && StampOf(grid[r]).None?
            case Owned(Resolved, r) => r == ref && r in grid && StampOf(grid[r]) == Some(uid)
            case Owned(_, r) => r in grid && Carriers(grid, uid) == {r}
            case NotThere => Carriers(grid, uid) == {} && (ref != "" ==> ref !in grid)
            case Refused(_) => true
  {
    var uid := TrimSpace(rawUid);
    if search.Found? {
      ListingSize(search.value, Carriers(grid, uid));
      if |search.value| == 1 {
        assert search.value[0] in search.value;
        assert forall r :: r in Carriers(grid, uid) ==> r in search.value;
        assert Carriers(grid, uid) == {search.value[0]};
      } else if |search.value| == 0 {
        assert Carriers(grid, uid) == {};
      }
    }
  }

  /** Resolve trims the uid and Stamp does not: an object stamped by its own resource is recognised
      through its reference exactly when the uid has no surrounding whitespace. */
  lemma OwnStampRecognised(grid: Grid, ref: Ref, uid: Uid, get: Reply<Obj>, search: Reply<seq<Ref>>)
    requires Answers(grid, ref, uid, get, search) && !get.Failed? && ref != "" && TrimSpace(uid) != ""
    requires ref in grid && exists ea :: grid[ref].ea == Stamped(ea, uid)
    ensures Resolve(ref, uid, get, search) == Owned(Resolved, ref) <==> Trimmed(uid)
    ensures !Trimmed(uid) ==> Resolve(ref, uid, get, search) == Refused(HandleReuse(ref, TrimSpace(uid), uid))
  {
    var ea :| grid[ref].ea == Stamped(ea, uid);
    StampRoundTrip(ea, uid);
    TrimSpaceTrims(uid);
  }
}
