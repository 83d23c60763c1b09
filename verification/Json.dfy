/** JSON documents, and the reads and writes by path that fieldpath's Paved offers. */
module Json {
  import opened Wrappers

  datatype Value =
    | Null
    | Bool(b: bool)
    | Num(n: int)
    | Str(s: string)
    | Arr(items: seq<Value>)
    | Obj(members: map<string, Value>)

  type Path = seq<string>

  datatype Lookup = Found(value: Value) | NotFound | NotAnObject

  function GetValue(v: Value, p: Path): Lookup {
    if p == [] then Found(v)
    else if !v.Obj? then NotAnObject
    else if p[0] !in v.members then NotFound
    else GetValue(v.members[p[0]], p[1..])
  }

  function Child(v: Value, key: string): Value
    requires v.Obj?
  {
    if key in v.members then v.members[key] else Obj(map[])
  }

  /** Missing objects on the way are created; anything else on the way that is not an object is an error. */
  function SetValue(v: Value, p: Path, x: Value): Option<Value>
    decreases |p|
  {
    if p == [] then Some(x)
    else if !v.Obj? then None
    else
      var inner := SetValue(Child(v, p[0]), p[1..], x);
      if inner.None? then None else Some(Obj(v.members[p[0] := inner.value]))
  }

  predicate Apart(p: Path, q: Path) {
    !(p <= q) && !(q <= p)
  }

  lemma {:induction false} SetThenGet(v: Value, p: Path, x: Value)
    ensures SetValue(v, p, x).Some? ==> GetValue(SetValue(v, p, x).value, p) == Found(x)
    decreases |p|
  {
    if p != [] && v.Obj? {
      SetThenGet(Child(v, p[0]), p[1..], x);
    }
  }

  lemma ApartTails(p: Path, q: Path)
    requires Apart(p, q)
    ensures p != [] && q != [] && (p[0] == q[0] ==> Apart(p[1..], q[1..]))
  {
    if p[0] == q[0] {
      assert p == [p[0]] + p[1..] && q == [q[0]] + q[1..];
    }
  }

  /** A write is invisible to every read that is neither on its way nor below it. */
  lemma {:induction false} SetKeepsOthers(v: Value, p: Path, x: Value, q: Path)
    requires Apart(p, q) && SetValue(v, p, x).Some?
    ensures GetValue(v, q).Found? ==> GetValue(SetValue(v, p, x).value, q) == GetValue(v, q)
    ensures GetValue(SetValue(v, p, x).value, q).Found? ==> GetValue(v, q) == GetValue(SetValue(v, p, x).value, q)
    decreases |p|
  {
    ApartTails(p, q);
    if p[0] == q[0] {
      SetKeepsOthers(Child(v, p[0]), p[1..], x, q[1..]);
    }
  }

  function AndSet(v: Option<Value>, p: Path, x: Value): Option<Value> {
    if v.None? then None else SetValue(v.value, p, x)
  }

  lemma {:induction false} OtherKeysCommute(v: Value, p: Path, x: Value, q: Path, y: Value)
    requires v.Obj? && p != [] && q != [] && p[0] != q[0]
    ensures AndSet(SetValue(v, p, x), q, y) == AndSet(SetValue(v, q, y), p, x)
  {
    var a, b := SetValue(Child(v, p[0]), p[1..], x), SetValue(Child(v, q[0]), q[1..], y);
    if a.Some? {
      var v1 := Obj(v.members[p[0] := a.value]);
      assert SetValue(v, p, x) == Some(v1) && Child(v1, q[0]) == Child(v, q[0]);
    }
    if b.Some? {
      var v2 := Obj(v.members[q[0] := b.value]);
      assert SetValue(v, q, y) == Some(v2) && Child(v2, p[0]) == Child(v, p[0]);
    }
    if a.Some? && b.Some? {
      assert v.members[p[0] := a.value][q[0] := b.value] == v.members[q[0] := b.value][p[0] := a.value];
    }
  }

  lemma {:induction false} SameKeyTwice(v: Value, p: Path, x: Value, q: Path, y: Value)
    requires v.Obj? && p != [] && q != [] && p[0] == q[0]
    ensures AndSet(SetValue(v, p, x), q, y) ==
            match AndSet(SetValue(Child(v, p[0]), p[1..], x), q[1..], y)
            case None => None
            case Some(r) => Some(Obj(v.members[p[0] := r]))
  {
    var a := SetValue(Child(v, p[0]), p[1..], x);
    if a.Some? {
      var v1 := Obj(v.members[p[0] := a.value]);
      assert SetValue(v, p, x) == Some(v1) && Child(v1, q[0]) == a.value;
      var b := SetValue(a.value, q[1..], y);
      if b.Some? {
        assert v.members[p[0] := a.value][p[0] := b.value] == v.members[p[0] := b.value];
      }
    }
  }

  /** Two writes to paths neither of which lies below the other commute, failures included. */
  lemma {:induction false} SetCommutes(v: Value, p: Path, x: Value, q: Path, y: Value)
    requires Apart(p, q)
    ensures AndSet(SetValue(v, p, x), q, y) == AndSet(SetValue(v, q, y), p, x)
    decreases |p|
  {
    ApartTails(p, q);
    if v.Obj? {
      if p[0] == q[0] {
        SetCommutes(Child(v, p[0]), p[1..], x, q[1..], y);
        SameKeyTwice(v, p, x, q, y);
        SameKeyTwice(v, q, y, p, x);
      } else {
        OtherKeysCommute(v, p, x, q, y);
      }
    }
  }
}
