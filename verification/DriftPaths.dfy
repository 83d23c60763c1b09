/** Ignore paths of spec.driftDetection: normalization, eligibility and ReadConfig
    (internal/driftdetection/driftdetection.go).  Paths are dotted strings; fieldpath's own grammar is
    reduced to what it rejects here: an empty segment. */
module DriftPaths {
  import opened Wrappers
  import opened Text

  // ---- reference tokens -----------------------------------------------------------------------

  /** strings.ReplaceAll of the two-character sequence ~c. */
  function ReplaceEscape(s: string, c: char, repl: char): string {
    if |s| < 2 then s
    else if s[0] == '~' && s[1] == c then [repl] + ReplaceEscape(s[2..], c, repl)
    else [s[0]] + ReplaceEscape(s[1..], c, repl)
  }

  /** The code's two passes. */
  function Unescape(part: string): string {
    ReplaceEscape(ReplaceEscape(part, '1', '/'), '0', '~')
  }

  /** Section 4 of RFC 6901, read from left to right in one pass. */
  function Decode(s: string): string {
    if |s| < 2 then s
    else if s[0] == '~' && s[1] == '1' then ['/'] + Decode(s[2..])
    else if s[0] == '~' && s[1] == '0' then ['~'] + Decode(s[2..])
    else [s[0]] + Decode(s[1..])
  }

  /** Section 3 of RFC 6901: how a key is written as a reference token. */
  function Escape(key: string): string {
    if key == "" then ""
    else (if key[0] == '~' then "~0" else if key[0] == '/' then "~1" else [key[0]]) + Escape(key[1..])
  }

  /** A well-formed token: no slash, and every tilde starts an escape. */
  predicate ValidToken(s: string) {
    if s == "" then true
    else if s[0] == '/' then false
    else if s[0] == '~' then |s| >= 2 && (s[1] == '0' || s[1] == '1') && ValidToken(s[2..])
    else ValidToken(s[1..])
  }

  lemma {:induction false} FirstPassKeepsHead(s: string)
    ensures var t := ReplaceEscape(s, '1', '/');
            && (|s| >= 2 && s[0] == '~' && s[1] != '1' && !(|s| >= 3 && s[1] == '~' && s[2] == '1') ==>
                  |t| >= 2 && t[0] == '~' && t[1] == s[1])
            && (|s| >= 3 && s[0] == '~' && s[1] == '~' && s[2] == '1' ==> |t| >= 2 && t[0] == '~' && t[1] == '/')
  {
    if |s| >= 2 && s[0] == '~' && s[1] != '1' {
      assert ReplaceEscape(s, '1', '/') == ['~'] + ReplaceEscape(s[1..], '1', '/');
      if |s| >= 3 {
        assert s[1..][0] == s[1] && s[1..][1] == s[2];
      }
    }
  }

  /** The two passes decode every token, well-formed or not, as a single left-to-right pass would. */
  lemma {:induction false} TwoPassesAreOne(s: string)
    ensures Unescape(s) == Decode(s)
  {
    if |s| >= 2 {
      if s[0] == '~' && s[1] == '1' {
        TwoPassesAreOne(s[2..]);
        var t := ReplaceEscape(s[2..], '1', '/');
        assert (['/'] + t)[1..] == t;
      } else if s[0] == '~' && s[1] == '0' {
        TwoPassesAreOne(s[2..]);
        var t := ReplaceEscape(s[2..], '1', '/');
        assert s[1..][1..] == s[2..];
        assert ReplaceEscape(s[1..], '1', '/') == ['0'] + t;
        assert ReplaceEscape(s, '1', '/') == ['~', '0'] + t;
        assert (['~', '0'] + t)[2..] == t;
      } else {
        TwoPassesAreOne(s[1..]);
        FirstPassKeepsHead(s);
        var t := ReplaceEscape(s[1..], '1', '/');
        assert ReplaceEscape(s, '1', '/') == [s[0]] + t;
        assert ([s[0]] + t)[1..] == t;
      }
    }
  }

  /** Writing a key as a token and decoding it gives the key back; and the tokens one can write are
      exactly the well-formed ones. */
  lemma {:induction false} TokenRoundTrip(key: string)
    ensures ValidToken(Escape(key)) && Unescape(Escape(key)) == key
  {
    EscapeDecodes(key);
    TwoPassesAreOne(Escape(key));
  }

  lemma {:induction false} EscapeDecodes(key: string)
    ensures ValidToken(Escape(key)) && Decode(Escape(key)) == key
  {
    if key != "" {
      EscapeDecodes(key[1..]);
      var rest := Escape(key[1..]);
      if key[0] == '~' {
        assert ("~0" + rest)[2..] == rest;
      } else if key[0] == '/' {
        assert ("~1" + rest)[2..] == rest;
      } else {
        assert ([key[0]] + rest)[1..] == rest;
        assert |rest| == 0 ==> key[1..] == "";
      }
      assert key == [key[0]] + key[1..];
    }
  }

  lemma {:induction false} ValidTokensAreEscapes(token: string)
    ensures ValidToken(token) <==> Escape(Unescape(token)) == token
  {
    TwoPassesAreOne(token);
    if ValidToken(token) {
      DecodeEscapes(token);
    } else {
      EscapeDecodes(Decode(token));
    }
  }

  lemma {:induction false} DecodeEscapes(token: string)
    requires ValidToken(token)
    ensures Escape(Decode(token)) == token
  {
    if |token| >= 2 {
      var n := if token[0] == '~' then 2 else 1;
      DecodeEscapes(token[n..]);
      assert Decode(token)[1..] == Decode(token[n..]);
      assert token == token[..n] + token[n..];
    }
  }

  /** The order of the passes matters: the other way round the token of the key ~1 becomes a slash. */
  lemma OtherOrderIsWrong()
    ensures Escape("~1") == "~01" && Unescape("~01") == "~1"
    ensures ReplaceEscape(ReplaceEscape("~01", '0', '~'), '1', '/') == "/"
  {
    TokenRoundTrip("~1");
    assert Escape("~1"[1..]) == "1" by { assert "~1"[1..] == "1" && "1"[1..] == ""; }
    assert Escape("~1") == "~0" + "1" == "~01";
    assert "~01"[2..] == "1";
    assert ReplaceEscape("~01", '0', '~') == ['~'] + "1" == "~1";
    assert "~1"[2..] == "";
    assert ReplaceEscape("~1", '1', '/') == ['/'] + "" == "/";
  }

  // ---- normalizePath --------------------------------------------------------------------------

  const PREFIX_FOR_PROVIDER := "forProvider."

  datatype PathError = EmptyPath | IndexOrWildcard | NotForProvider | Malformed | NotEligible | NoSuchField

  predicate HasIndexOrWildcard(p: string) {
    '[' in p || ']' in p || '*' in p
  }

  predicate Parses(p: string) {
    forall i :: 0 <= i < |Split(p, '.')| ==> Split(p, '.')[i] != ""
  }

  function Dotted(p: string): string {
    if p != "" && p[0] == '/' then Join(MapSeq(Decode, Split(p[1..], '/')), '.') else p
  }

  function Judged(p: string): Result<string, PathError> {
    if HasIndexOrWildcard(p) then Err(IndexOrWildcard)
    else if !(PREFIX_FOR_PROVIDER <= p) then Err(NotForProvider)
    else if !Parses(p) then Err(Malformed)
    else Ok(p)
  }

  /** What the path means, with RFC 6901's own decoding. */
  function Normalized(s: string): Result<string, PathError> {
    var p := TrimSpace(s);
    if p == "" then Err(EmptyPath) else Judged(Dotted(p))
  }

  method NormalizePath(s: string) returns (r: Result<string, PathError>)
    ensures r == Normalized(s)
  {
    var p := TrimSpace(s);
    if p == "" {
      return Err(EmptyPath);
    }
    if p[0] == '/' {
      var parts := Split(p[1..], '/');
      ghost var tokens := parts;
      for i := 0 to |parts|
        invariant |parts| == |tokens|
        invariant forall j :: 0 <= j < |parts| ==> parts[j] == if j < i then Decode(tokens[j]) else tokens[j]
      {
        TwoPassesAreOne(parts[i]);
        var part := ReplaceEscape(parts[i], '1', '/');
        parts := parts[i := ReplaceEscape(part, '0', '~')];
      }
      assert parts == MapSeq(Decode, tokens);
      p := Join(parts, '.');
    }
    if HasIndexOrWildcard(p) {
      return Err(IndexOrWildcard);
    }
    if !(PREFIX_FOR_PROVIDER <= p) {
      return Err(NotForProvider);
    }
    if !Parses(p) {
      return Err(Malformed);
    }
    return Ok(p);
  }

  lemma {:induction false} DecodeLast(token: string)
    requires token != ""
    ensures Decode(token) != ""
    ensures var d := Decode(token); d[|d| - 1] in {token[|token| - 1], '~', '/'}
  {
    if |token| >= 2 {
      var n := if token[0] == '~' && (token[1] == '0' || token[1] == '1') then 2 else 1;
      if n < |token| {
        DecodeLast(token[n..]);
        assert Decode(token)[1..] == Decode(token[n..]);
      }
    }
  }

  lemma {:induction false} JoinLast(parts: seq<string>, sep: char)
    requires |parts| > 0 && parts[|parts| - 1] != ""
    ensures var j := Join(parts, sep);
            var last := parts[|parts| - 1];
            j != "" && j[|j| - 1] == last[|last| - 1]
  {
    if |parts| > 1 {
      JoinLast(parts[1..], sep);
    }
  }

  lemma {:induction false} PrefixIsFirstSegment(p: string)
    requires PREFIX_FOR_PROVIDER <= p
    ensures Split(p, '.') == ["forProvider"] + Split(p[12..], '.')
  {
    assert p == "forProvider" + ['.'] + p[12..];
    SplitOnePart("forProvider", p[12..], '.');
  }

  lemma TrimmedEnds(p: string)
    requires p != "" && !IsSpace(p[0]) && !IsSpace(p[|p| - 1])
    ensures Trimmed(p)
  {
  }

  lemma DottedEnd(t: string)
    requires Trimmed(t) && t != "" && t[0] == '/' && "" !in Split(Dotted(t), '.')
    ensures Dotted(t) != "" && !IsSpace(Dotted(t)[|Dotted(t)| - 1])
  {
    var tokens := Split(t[1..], '/');
    JoinSplit(t[1..], '/');
    assert t == "/" + Join(tokens, '/');
    DecodedEnd(tokens, t);
  }

  lemma DecodedEnd(tokens: seq<string>, t: string)
    requires |tokens| > 0 && t == "/" + Join(tokens, '/') && !IsSpace(t[|t| - 1])
    requires "" !in Split(Join(MapSeq(Decode, tokens), '.'), '.')
    ensures var p := Join(MapSeq(Decode, tokens), '.'); p != "" && !IsSpace(p[|p| - 1])
  {
    var parts, last := MapSeq(Decode, tokens), tokens[|tokens| - 1];
    if last == "" {
      EmptyLastPart(parts, '.');
    } else {
      JoinLast(tokens, '/');
      DecodeLast(last);
      JoinLast(parts, '.');
    }
  }

  /** An accepted path is a clean dotted path below forProvider. */
  lemma AcceptedShape(s: string, p: string)
    requires Normalized(s) == Ok(p)
    ensures Trimmed(p) && !HasIndexOrWildcard(p)
    ensures var segs := Split(p, '.');
            |segs| >= 2 && segs[0] == "forProvider" && "" !in segs && Join(segs, '.') == p
  {
    var t := TrimSpace(s);
    PrefixIsFirstSegment(p);
    JoinSplit(p, '.');
    TrimSpaceTrims(s);
    if t[0] == '/' {
      DottedEnd(t);
    }
    assert p[0] == PREFIX_FOR_PROVIDER[0];
    TrimmedEnds(p);
  }

  /** Segments, the first of them forProvider, none empty, and no index or wildcard anywhere. */
  ghost predicate CleanBelowForProvider(p: string) {
    && |Split(p, '.')| >= 2 && Split(p, '.')[0] == "forProvider" && "" !in Split(p, '.')
    && forall i :: 0 <= i < |p| ==> p[i] != '[' && p[i] != ']' && p[i] != '*'
  }

  /** Exactly the clean paths are accepted, as they stand. */
  lemma AcceptedExactly(s: string)
    ensures var p := Dotted(TrimSpace(s));
            if TrimSpace(s) != "" && CleanBelowForProvider(p) then Normalized(s) == Ok(p) else Normalized(s).Err?
  {
    var p := Dotted(TrimSpace(s));
    if CleanBelowForProvider(p) {
      JoinSplit(p, '.');
      assert p == "forProvider" + ['.'] + Join(Split(p, '.')[1..], '.');
    } else if Normalized(s).Ok? {
      AcceptedShape(s, p);
    }
  }

  /** Normalizing an accepted path again changes nothing. */
  lemma NormalizeIsIdempotent(s: string, p: string)
    requires Normalized(s) == Ok(p)
    ensures Normalized(p) == Ok(p)
  {
    AcceptedShape(s, p);
    TrimSpaceTrims(p);
    assert p[0] == PREFIX_FOR_PROVIDER[0];
  }

  /** The JSON Pointer spelling of a path given by its keys. */
  function PointerSpelling(keys: seq<string>): string
    requires |keys| > 0
  {
    "/" + Join(MapSeq(Escape, keys), '/')
  }

  lemma {:induction false} EscapedKeys(keys: seq<string>)
    ensures forall i :: 0 <= i < |keys| ==> '/' !in Escape(keys[i])
    ensures MapSeq(Decode, MapSeq(Escape, keys)) == keys
  {
    forall i | 0 <= i < |keys|
      ensures '/' !in Escape(keys[i]) && Decode(Escape(keys[i])) == keys[i]
    {
      EscapeDecodes(keys[i]);
      ValidHasNoSlash(Escape(keys[i]));
    }
  }

  lemma {:induction false} ValidHasNoSlash(token: string)
    requires ValidToken(token)
    ensures '/' !in token
  {
    if token != "" {
      ValidHasNoSlash(token[if token[0] == '~' then 2 else 1..]);
    }
  }

  lemma PointerDecodes(keys: seq<string>)
    requires |keys| > 0
    ensures Dotted(PointerSpelling(keys)) == Join(keys, '.')
  {
    EscapedKeys(keys);
    SplitJoinClean(MapSeq(Escape, keys), '/');
  }

  lemma {:induction false} EscapeLast(key: string)
    requires key != ""
    ensures var e := Escape(key); e != "" && e[|e| - 1] in {key[|key| - 1], '0', '1'}
  {
    if |key| > 1 {
      EscapeLast(key[1..]);
    } else {
      assert Escape(key[1..]) == "";
    }
  }

  lemma {:induction false} JoinEnd(keys: seq<string>, sep: char)
    requires |keys| > 1 && keys[|keys| - 1] == ""
    ensures var j := Join(keys, sep); j != "" && j[|j| - 1] == sep
  {
    if |keys| > 2 {
      JoinEnd(keys[1..], sep);
    }
  }

  lemma PointerIsTrimmed(keys: seq<string>)
    requires |keys| > 1 && Trimmed(Join(keys, '.'))
    ensures Trimmed(PointerSpelling(keys))
  {
    var escaped := MapSeq(Escape, keys);
    var last := keys[|keys| - 1];
    if last == "" {
      JoinEnd(escaped, '/');
    } else {
      EscapeLast(last);
      JoinLast(keys, '.');
      JoinLast(escaped, '/');
    }
  }

  lemma TrimmedNormalizes(s: string)
    requires Trimmed(s) && s != ""
    ensures Normalized(s) == Judged(Dotted(s))
  {
    TrimSpaceTrims(s);
  }

  /** Both spellings of a path without surrounding whitespace normalize alike, whatever the keys below
      forProvider are; the segments of the result are the keys if and only if no key contains a dot. */
  lemma SpellingsAgree(keys: seq<string>)
    requires |keys| > 1 && keys[0] == "forProvider" && Trimmed(Join(keys, '.'))
    ensures Normalized(PointerSpelling(keys)) == Normalized(Join(keys, '.')) == Judged(Join(keys, '.'))
    ensures Split(Join(keys, '.'), '.') == keys <==> forall i :: 0 <= i < |keys| ==> '.' !in keys[i]
  {
    PointerDecodes(keys);
    PointerIsTrimmed(keys);
    TrimmedNormalizes(Join(keys, '.'));
    TrimmedNormalizes(PointerSpelling(keys));
    assert Join(keys, '.')[0] == keys[0][0];
    SplitJoin(keys, '.');
  }

  lemma {:induction false} EmptyLastPart(parts: seq<string>, sep: char)
    requires |parts| > 0 && parts[|parts| - 1] == ""
    ensures "" in Split(Join(parts, sep), sep)
  {
    if |parts| > 1 {
      EmptyLastPart(parts[1..], sep);
      SplitAppend(parts[0], Join(parts[1..], sep), sep);
    }
  }
}
