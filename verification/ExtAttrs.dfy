/** Extensible attributes between the CRD's string map and the SDK's EA map
    (buildEA, extAttrsFromEA, stringifyEAValue, extAttrsEqual of both controllers). */
module ExtAttrs {
  import opened Text
  import opened Identity

  type Attrs = map<string, string>

  function Digit(d: nat): char
    requires d < 10
  {
    "0123456789"[d]
  }

  function Digits(n: nat): string {
    (if n < 10 then "" else Digits(n / 10)) + [Digit(n % 10)]
  }

  function StringifyEAValue(v: EAValue): string {
    match v
    case EANull => ""
    case EAString(s) => s
    case EABool(b) => if b then "True" else "False"
    case EAInt(n) => if n < 0 then "-" + Digits(-n) else Digits(n)
    case EAList(items) => if items == [] then "" else Join(items, ',')
  }

  predicate AllDigits(s: string) {
    forall i :: 0 <= i < |s| ==> '0' <= s[i] <= '9'
  }

  /** The number a decimal numeral denotes. */
  function Parsed(s: string): nat
    requires AllDigits(s)
  {
    if s == "" then 0 else 10 * Parsed(s[..|s| - 1]) + (s[|s| - 1] - '0') as nat
  }

  lemma DigitValue(d: nat)
    requires d < 10
    ensures '0' <= Digit(d) <= '9' && (Digit(d) - '0') as nat == d
  {
  }

  lemma ParsedSnoc(s: string, d: nat)
    requires d < 10 && AllDigits(s)
    ensures AllDigits(s + [Digit(d)]) && Parsed(s + [Digit(d)]) == 10 * Parsed(s) + d
  {
    DigitValue(d);
    var t := s + [Digit(d)];
    assert t[..|t| - 1] == s && t[|t| - 1] == Digit(d);
  }

  /** Decimal without leading zeros: the numeral denotes the number it was rendered from. */
  lemma {:induction false} DigitsParse(n: nat)
    ensures Digits(n) != "" && AllDigits(Digits(n)) && Parsed(Digits(n)) == n
    ensures Digits(n)[0] == '0' ==> n == 0
  {
    DigitValue(n % 10);
    if n >= 10 {
      DigitsParse(n / 10);
      ParsedSnoc(Digits(n / 10), n % 10);
    } else {
      ParsedSnoc("", n);
    }
  }

  lemma AfterSign(digits: string)
    ensures ("-" + digits)[0] == '-' && ("-" + digits)[1..] == digits
  {
  }

  lemma NegativesRender(n: int)
    requires n < 0
    ensures StringifyEAValue(EAInt(n)) != "" && StringifyEAValue(EAInt(n))[0] == '-'
    ensures StringifyEAValue(EAInt(n))[1..] == Digits(-n)
  {
    AfterSign(Digits(-n));
  }

  /** How each kind of value is rendered: integers in decimal, and lists so that splitting at the commas gives
      the items back exactly if none of them holds a comma. */
  lemma RenderedValues(v: EAValue)
    ensures v.EAString? ==> StringifyEAValue(v) == v.text
    ensures v.EABool? ==> StringifyEAValue(v) == if v.b then "True" else "False"
    ensures v.EANull? || v == EAList([]) ==> StringifyEAValue(v) == ""
    ensures v.EAInt? && v.n >= 0 ==> AllDigits(StringifyEAValue(v)) && Parsed(StringifyEAValue(v)) == v.n
    ensures v.EAInt? && v.n < 0 ==>
              && StringifyEAValue(v) != "" && StringifyEAValue(v)[0] == '-' && AllDigits(StringifyEAValue(v)[1..])
              && Parsed(StringifyEAValue(v)[1..]) == -v.n
    ensures v.EAList? && v.items != [] ==>
              (Split(StringifyEAValue(v), ',') == v.items <==> forall i :: 0 <= i < |v.items| ==> ',' !in v.items[i])
  {
    match v
    case EAInt(n) =>
      if n < 0 {
        NegativesRender(n);
        DigitsParse(-n);
      } else {
        DigitsParse(n);
      }
    case EAList(items) =>
      if items != [] {
        SplitJoin(items, ',');
      }
    case _ =>
  }

  /** ea holds exactly the string values of attrs. */
  predicate IsBuilt(attrs: Attrs, ea: EA) {
    ea.Keys == attrs.Keys && forall k :: k in attrs ==> ea[k] == EAString(attrs[k])
  }

  /** attrs holds exactly the rendered values of ea. */
  predicate IsRead(ea: EA, attrs: Attrs) {
    attrs.Keys == ea.Keys && forall k :: k in ea ==> attrs[k] == StringifyEAValue(ea[k])
  }

  ghost function Built(attrs: Attrs): (ea: EA)
    ensures IsBuilt(attrs, ea)
    decreases |attrs|
  {
    if attrs == map[] then map[]
    else
      var k :| k in attrs;
      assert |attrs - {k}| < |attrs| by { assert attrs == (attrs - {k})[k := attrs[k]]; }
      Built(attrs - {k})[k := EAString(attrs[k])]
  }

  ghost function ReadOf(ea: EA): (attrs: Attrs)
    ensures IsRead(ea, attrs)
    decreases |ea|
  {
    if ea == map[] then map[]
    else
      var k :| k in ea;
      assert |ea - {k}| < |ea| by { assert ea == (ea - {k})[k := ea[k]]; }
      ReadOf(ea - {k})[k := StringifyEAValue(ea[k])]
  }

  /** IsRead and IsBuilt determine their result. */
  lemma ReadIsUnique(ea: EA, a: Attrs, b: Attrs)
    requires IsRead(ea, a) && IsRead(ea, b)
    ensures a == b
  {
  }

  method BuildEA(attrs: Attrs) returns (ea: EA)
    ensures IsBuilt(attrs, ea)
  {
    ea := map[];
    var todo := attrs.Keys;
    while todo != {}
      invariant todo <= attrs.Keys
      invariant IsBuilt(attrs - todo, ea)
    {
      var k :| k in todo;
      ea := ea[k := EAString(attrs[k])];
      todo := todo - {k};
    }
  }

  method ExtAttrsFromEA(ea: EA) returns (attrs: Attrs)
    ensures IsRead(ea, attrs)
  {
    attrs := map[];
    var todo := ea.Keys;
    while todo != {}
      invariant todo <= ea.Keys
      invariant IsRead(ea - todo, attrs)
    {
      var k :| k in todo;
      attrs := attrs[k := StringifyEAValue(ea[k])];
      todo := todo - {k};
    }
  }

  method ExtAttrsEqual(a: Attrs, b: Attrs) returns (equal: bool)
    ensures equal <==> a == b
  {
    if |a| != |b| {
      return false;
    }
    var todo := a.Keys;
    while todo != {}
      invariant todo <= a.Keys
      invariant forall k :: k in a && k !in todo ==> k in b && b[k] == a[k]
    {
      var k :| k in todo;
      if k !in b || b[k] != a[k] {
        return false;
      }
      todo := todo - {k};
    }
    SameSizeSubset(a.Keys, b.Keys);
    return true;
  }

  lemma {:induction false} SameSizeSubset(a: set<string>, b: set<string>)
    requires a <= b && |a| >= |b|
    ensures a == b
  {
    if a != {} {
      var x :| x in a;
      SameSizeSubset(a - {x}, b - {x});
    } else {
      assert |b| == 0;
    }
  }

  /** What a stamped object reads back as once the identity attribute is stripped again: the caller's
      own attributes, minus the reserved key; so the comparison settles if and only if the caller does
      not use that key. */
  lemma StampedAttrsRoundTrip(attrs: Attrs, uid: Uid, built: EA, back: Attrs)
    requires IsBuilt(attrs, built) && IsRead(Stripped(Stamped(built, uid)), back)
    ensures back == attrs - {EA_KEY}
    ensures back == attrs <==> EA_KEY !in attrs
  {
  }

  /** Without stripping, the identity attribute is always among the attributes read back. */
  lemma UnstrippedShowsIdentity(attrs: Attrs, uid: Uid, built: EA, mirror: Attrs)
    requires IsBuilt(attrs, built) && IsRead(Stamped(built, uid), mirror)
    ensures EA_KEY in mirror && mirror[EA_KEY] == uid
    ensures mirror - {EA_KEY} == attrs - {EA_KEY}
  {
  }
}
