// JSON documents, JSON pointers (RFC 6901) and the two JSON Patch operations
// (RFC 6902) that the webhook emits.
module Json {
  import opened Basics
  import opened Text

  datatype Json =
    | Number(n: int)
    | String(s: string)
    | Array(items: seq<Json>)
    | Object(fields: map<string, Json>)

  // ---- pointers -------------------------------------------------------------

  function Escape(s: string): string {
    if s == [] then []
    else
      EscapeChar(s[0]) + Escape(s[1..])
  }

  function EscapeChar(c: char): string {
    if c == '~' then "~0" else if c == '/' then "~1" else [c]
  }

  lemma EscapeHead(s: string, i: nat, done: string)
    requires i < |s|
    ensures done + Escape(s[i..]) == done + EscapeChar(s[i]) + Escape(s[i + 1..])
  {
    assert s[i..][1..] == s[i + 1..];
    AppendAssociates(done, EscapeChar(s[i]), Escape(s[i + 1..]));
  }

  // escapeJSONPointer
  method EscapeJSONPointer(s: string) returns (result: string)
    ensures result == Escape(s)
  {
    result := "";
    for i := 0 to |s|
      invariant result + Escape(s[i..]) == Escape(s)
    {
      EscapeHead(s, i, result);
      if s[i] == '~' {
        result := result + "~0";
      } else if s[i] == '/' {
        result := result + "~1";
      } else {
        result := result + [s[i]];
      }
    }
  }

  // Replaces every "~" + c, from left to right, by d.
  function Substitute(s: string, c: char, d: char): string {
    if |s| < 2 then s
    else if s[0] == '~' && s[1] == c then [d] + Substitute(s[2..], c, d)
    else [s[0]] + Substitute(s[1..], c, d)
  }

  // Section 4 of RFC 6901: first "~1" becomes "/", then "~0" becomes "~".
  function Unescape(s: string): string {
    Substitute(Substitute(s, '1', '/'), '0', '~')
  }

  function EscapeTildes(s: string): string {
    if s == [] then []
    else (if s[0] == '~' then "~0" else [s[0]]) + EscapeTildes(s[1..])
  }

  lemma SubstituteNext(x: char, rest: string, c: char, d: char)
    requires x != '~'
    ensures Substitute([x] + rest, c, d) == [x] + Substitute(rest, c, d)
  {
    assert ([x] + rest)[1..] == rest;
  }

  lemma SubstituteTilde(x: char, rest: string, c: char, d: char)
    requires x != '~'
    ensures Substitute(['~', x] + rest, c, d) ==
            (if x == c then [d] else ['~', x]) + Substitute(rest, c, d)
  {
    var s := ['~', x] + rest;
    assert s[1..] == [x] + rest && s[2..] == rest;
    SubstituteNext(x, rest, c, d);
  }

  lemma {:induction false} SlashesBack(s: string)
    ensures Substitute(Escape(s), '1', '/') == EscapeTildes(s)
  {
    if s != [] {
      var rest := Escape(s[1..]);
      SlashesBack(s[1..]);
      if s[0] == '~' {
        SubstituteTilde('0', rest, '1', '/');
      } else if s[0] == '/' {
        SubstituteTilde('1', rest, '1', '/');
      } else {
        SubstituteNext(s[0], rest, '1', '/');
      }
    }
  }

  lemma {:induction false} TildesBack(s: string)
    ensures Substitute(EscapeTildes(s), '0', '~') == s
  {
    if s != [] {
      var rest := EscapeTildes(s[1..]);
      TildesBack(s[1..]);
      if s[0] == '~' {
        assert EscapeTildes(s)[2..] == rest;
      } else {
        assert EscapeTildes(s)[1..] == rest;
      }
    }
  }

  // Escaping is undone by the two ordered substitutions, so no two names share
  // an escaped form, and an escaped name never spans two pointer tokens.
  lemma EscapeRoundTrip(s: string)
    ensures Unescape(Escape(s)) == s
    ensures '/' !in Escape(s)
  {
    SlashesBack(s);
    TildesBack(s);
    EscapedHasNoSlash(s);
  }

  lemma {:induction false} EscapedHasNoSlash(s: string)
    ensures '/' !in Escape(s)
  {
    if s != [] {
      EscapedHasNoSlash(s[1..]);
    }
  }

  lemma EscapeInjective(a: string, b: string)
    requires Escape(a) == Escape(b)
    ensures a == b
  {
    EscapeRoundTrip(a);
    EscapeRoundTrip(b);
  }

  // The order of the two substitutions matters: in the other order they undo
  // escaping exactly on the strings without a "~1".
  lemma ReversedOrderUndoesExactly(s: string)
    ensures Substitute(Substitute(Escape(s), '0', '~'), '1', '/') == s <==> !HasTildeOne(s)
  {
    TildesFirst(s);
    SlashesLast(s);
    TildeOnesStay(s);
  }

  predicate HasTildeOne(s: string) {
    exists i :: 0 <= i < |s| - 1 && s[i] == '~' && s[i + 1] == '1'
  }

  function EscapeSlashes(s: string): string {
    if s == [] then [] else (if s[0] == '/' then "~1" else [s[0]]) + EscapeSlashes(s[1..])
  }

  lemma {:induction false} TildesFirst(s: string)
    ensures Substitute(Escape(s), '0', '~') == EscapeSlashes(s)
  {
    if s != [] {
      var rest := Escape(s[1..]);
      TildesFirst(s[1..]);
      if s[0] == '~' {
        SubstituteTilde('0', rest, '0', '~');
      } else if s[0] == '/' {
        SubstituteTilde('1', rest, '0', '~');
      } else {
        SubstituteNext(s[0], rest, '0', '~');
      }
    }
  }

  lemma {:induction false} SlashesLast(s: string)
    ensures Substitute(EscapeSlashes(s), '1', '/') == Substitute(s, '1', '/')
  {
    if s != [] {
      var rest := EscapeSlashes(s[1..]);
      SlashesLast(s[1..]);
      if s[0] == '/' {
        assert EscapeSlashes(s) == "~1" + rest && EscapeSlashes(s)[2..] == rest;
      } else {
        assert EscapeSlashes(s) == [s[0]] + rest && EscapeSlashes(s)[1..] == rest;
        if |s| > 1 && s[0] == '~' && s[1] == '1' {
          SlashesLast(s[2..]);
          assert s[1..][1..] == s[2..] && rest == ['1'] + EscapeSlashes(s[2..]);
          assert EscapeSlashes(s)[2..] == EscapeSlashes(s[2..]);
        }
      }
    }
  }

  lemma {:induction false} TildeOnesStay(s: string)
    ensures |Substitute(s, '1', '/')| <= |s|
    ensures Substitute(s, '1', '/') == s <==> !HasTildeOne(s)
  {
    if |s| >= 2 {
      if s[0] == '~' && s[1] == '1' {
        TildeOnesStay(s[2..]);
        assert HasTildeOne(s);
      } else {
        TildeOnesStay(s[1..]);
        assert Substitute(s, '1', '/')[1..] == Substitute(s[1..], '1', '/');
        if i :| 0 <= i < |s| - 1 && s[i] == '~' && s[i + 1] == '1' {
          assert s[1..][i - 1] == '~' && s[1..][i] == '1';
        }
        if i :| 0 <= i < |s[1..]| - 1 && s[1..][i] == '~' && s[1..][i + 1] == '1' {
          assert s[i + 1] == '~' && s[i + 2] == '1';
        }
      }
    }
  }

  lemma {:induction false} SubstitutePlain(s: string, c: char, d: char)
    requires '~' !in s
    ensures Substitute(s, c, d) == s
  {
    if |s| >= 2 {
      SubstitutePlain(s[1..], c, d);
    }
  }

  lemma UnescapePlain(s: string)
    requires '~' !in s
    ensures Unescape(s) == s
  {
    SubstitutePlain(s, '1', '/');
    SubstitutePlain(s, '0', '~');
  }

  // A pointer string from its already escaped segments
  function Pointer(segments: seq<string>): string {
    if segments == [] then "" else "/" + segments[0] + Pointer(segments[1..])
  }

  function SplitAll(s: string, c: char): seq<string>
    decreases |s|
  {
    match Cut(s, c)
    case None => [s]
    case Some(pair) => [pair.0] + SplitAll(pair.1, c)
  }

  function UnescapeAll(segments: seq<string>): (tokens: seq<string>)
    ensures |tokens| == |segments|
    ensures forall i :: 0 <= i < |tokens| ==> tokens[i] == Unescape(segments[i])
  {
    seq(|segments|, i requires 0 <= i < |segments| => Unescape(segments[i]))
  }

  // The reference tokens of a pointer; None for a malformed one
  function Tokens(path: string): Option<seq<string>> {
    if path == "" then Some([])
    else if path[0] != '/' then None
    else Some(UnescapeAll(SplitAll(path[1..], '/')))
  }

  lemma {:induction false} SplitPointer(segments: seq<string>)
    requires segments != []
    requires forall i :: 0 <= i < |segments| ==> '/' !in segments[i]
    ensures SplitAll(Pointer(segments)[1..], '/') == segments
  {
    var body := Pointer(segments)[1..];
    if |segments| == 1 {
      assert segments[1..] == [];
      assert Pointer(segments[1..]) == "";
      assert body == segments[0];
      CutNothing(body, '/');
    } else {
      var rest := Pointer(segments[1..]);
      assert body == segments[0] + rest;
      assert rest == ['/'] + rest[1..];
      assert body == segments[0] + ['/'] + rest[1..];
      CutAtFirst(segments[0], '/', rest[1..]);
      SplitPointer(segments[1..]);
    }
  }

  lemma {:induction false} TokensOfPointer(segments: seq<string>)
    requires forall i :: 0 <= i < |segments| ==> '/' !in segments[i]
    ensures Tokens(Pointer(segments)) == Some(UnescapeAll(segments))
  {
    if segments != [] {
      SplitPointer(segments);
    }
  }

  // ---- patches --------------------------------------------------------------

  datatype Op =
    | Add(path: string, value: Json)
    | Remove(path: string)

  datatype Edit = Insert(value: Json) | Delete

  // Section 4 of RFC 6901: an array index has no leading zero
  function Index(token: string): Option<nat> {
    if token != [] && AllDigits(token) && (|token| > 1 ==> token[0] != '0')
    then Some(DigitsValue(token)) else None
  }

  lemma IndexOfDecimal(n: nat)
    ensures Index(Decimal(n)) == Some(n)
  {
    DecimalRoundTrip(n);
  }

  // Sections 4.1 and 4.2 of RFC 6902 on a tokenised pointer; None when the
  // target, or the location it must be inside of, does not exist.
  function Change(doc: Json, tokens: seq<string>, edit: Edit): Option<Json>
    decreases |tokens|
  {
    if tokens == [] then
      (match edit case Insert(v) => Some(v) case Delete => None)
    else
      match doc
      case Object(m) =>
        var name := tokens[0];
        if |tokens| == 1 then
          match edit {
            case Insert(v) => Some(Object(m[name := v]))
            case Delete => if name in m then Some(Object(m - {name})) else None
          }
        else if name !in m then None
        else Within(m, name, Change(m[name], tokens[1..], edit))
      case Array(a) =>
        if |tokens| == 1 && tokens[0] == "-" then
          match edit {
            case Insert(v) => Some(Array(a + [v]))
            case Delete => None
          }
        else
          var at := Index(tokens[0]);
          if at.None? then None
          else if |tokens| == 1 then
            match edit {
              case Insert(v) =>
                if at.value <= |a| then Some(Array(a[..at.value] + [v] + a[at.value..])) else None
              case Delete =>
                if at.value < |a| then Some(Array(a[..at.value] + a[at.value + 1..])) else None
            }
          else if at.value < |a| then WithinItem(a, at.value, Change(a[at.value], tokens[1..], edit))
          else None
      case _ => None
  }

  function Within(m: map<string, Json>, name: string, inner: Option<Json>): Option<Json> {
    if inner.None? then None else Some(Object(m[name := inner.value]))
  }

  function WithinItem(a: seq<Json>, i: nat, inner: Option<Json>): Option<Json>
    requires i < |a|
  {
    if inner.None? then None else Some(Array(a[i := inner.value]))
  }

  function Apply(doc: Json, op: Op): Option<Json> {
    var tokens := Tokens(op.path);
    if tokens.None? then None
    else
      match op
      case Add(_, v) => Change(doc, tokens.value, Insert(v))
      case Remove(_) => Change(doc, tokens.value, Delete)
  }

  // A patch applies one operation after the other and fails with the first
  // operation that fails.
  function ApplyAll(doc: Json, ops: seq<Op>): Option<Json> {
    if ops == [] then Some(doc)
    else
      var before := ApplyAll(doc, ops[..|ops| - 1]);
      if before.None? then None else Apply(before.value, ops[|ops| - 1])
  }

  lemma {:induction false} ApplyAllConcat(doc: Json, first: seq<Op>, second: seq<Op>)
    ensures ApplyAll(doc, first + second) ==
      var mid := ApplyAll(doc, first);
      if mid.None? then None else ApplyAll(mid.value, second)
  {
    if second == [] {
      assert first + second == first;
    } else {
      var n := |second| - 1;
      var both := first + second;
      assert both[..|both| - 1] == first + second[..n];
      ApplyAllConcat(doc, first, second[..n]);
    }
  }

  lemma ChangeField(m: map<string, Json>, name: string, rest: seq<string>, edit: Edit)
    requires name in m && rest != []
    ensures Change(Object(m), [name] + rest, edit) == Within(m, name, Change(m[name], rest, edit))
  {
    assert ([name] + rest)[1..] == rest;
  }

  lemma ChangeItem(a: seq<Json>, i: nat, rest: seq<string>, edit: Edit)
    requires i < |a| && rest != []
    ensures Change(Array(a), [Decimal(i)] + rest, edit) == WithinItem(a, i, Change(a[i], rest, edit))
  {
    IndexOfDecimal(i);
    assert ([Decimal(i)] + rest)[1..] == rest;
  }
}
