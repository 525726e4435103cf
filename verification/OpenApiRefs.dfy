/** Reference checking in the OpenAPI verifier: JSON Pointer resolution (RFC 6901) and the
    worklist over the whole document. */
module OpenApiRefs {
  import opened Options
  import opened Sequences

  /** A parsed document; the keys of an object are in document order and unique. */
  datatype Json = Object(fields: seq<(string, Json)>) | Array(items: seq<Json>) | Text(text: string) | Scalar

  // ----- strings

  /** `s.replace(pattern, sub)` for a two-character pattern: leftmost, not overlapping. */
  function Replace(s: string, p: char, q: char, sub: char): string {
    if |s| >= 2 && s[0] == p && s[1] == q then [sub] + Replace(s[2..], p, q, sub)
    else if s == [] then []
    else [s[0]] + Replace(s[1..], p, q, sub)
  }

  /** `raw.replace("~1", "/").replace("~0", "~")` */
  function Unescape(raw: string): string {
    Replace(Replace(raw, '~', '1', '/'), '~', '0', '~')
  }

  /** The escaping of section 3 of RFC 6901. */
  function Escape(key: string): string {
    if key == [] then []
    else (if key[0] == '~' then "~0" else if key[0] == '/' then "~1" else [key[0]]) + Escape(key[1..])
  }

  /** `s.split("/")` */
  function Split(s: string): (parts: seq<string>)
    ensures parts != []
  {
    if s == [] then [[]]
    else if s[0] == '/' then [[]] + Split(s[1..])
    else
      var rest := Split(s[1..]);
      [[s[0]] + rest[0]] + rest[1..]
  }

  function Join(parts: seq<string>): string
    requires parts != []
  {
    if |parts| == 1 then parts[0] else parts[0] + ("/" + Join(parts[1..]))
  }

  /** The first pass only turns escaped slashes back. */
  function HalfEscape(key: string): string {
    if key == [] then []
    else (if key[0] == '~' then "~0" else [key[0]]) + HalfEscape(key[1..])
  }

  lemma {:induction false} ReplaceHit(s: string, p: char, q: char, sub: char)
    ensures Replace([p, q] + s, p, q, sub) == [sub] + Replace(s, p, q, sub)
  {
    assert ([p, q] + s)[2..] == s;
  }

  lemma {:induction false} ReplaceMiss(c: char, s: string, p: char, q: char, sub: char)
    requires c != p || s == [] || s[0] != q
    ensures Replace([c] + s, p, q, sub) == [c] + Replace(s, p, q, sub)
  {
    assert ([c] + s)[1..] == s;
  }

  lemma {:induction false} EscapedTilde(rest: string)
    ensures Replace(['~', '0'] + rest, '~', '1', '/') == ['~', '0'] + Replace(rest, '~', '1', '/')
  {
    var tail := ['0'] + rest;
    assert ['~', '0'] + rest == ['~'] + tail;
    ReplaceMiss('~', tail, '~', '1', '/');
    ReplaceMiss('0', rest, '~', '1', '/');
  }

  lemma {:induction false} FirstPass(key: string)
    ensures Replace(Escape(key), '~', '1', '/') == HalfEscape(key)
  {
    if key != [] {
      var rest := Escape(key[1..]);
      FirstPass(key[1..]);
      if key[0] == '~' {
        EscapedTilde(rest);
      } else if key[0] == '/' {
        ReplaceHit(rest, '~', '1', '/');
      } else {
        ReplaceMiss(key[0], rest, '~', '1', '/');
      }
    }
  }

  lemma {:induction false} SecondPass(key: string)
    ensures Replace(HalfEscape(key), '~', '0', '~') == key
  {
    if key != [] {
      var rest := HalfEscape(key[1..]);
      SecondPass(key[1..]);
      if key[0] == '~' {
        ReplaceHit(rest, '~', '0', '~');
      } else {
        ReplaceMiss(key[0], rest, '~', '0', '~');
      }
      assert key == [key[0]] + key[1..];
    }
  }

  /** Unescaping inverts escaping, for every key. */
  lemma {:induction false} UnescapeEscape(key: string)
    ensures Unescape(Escape(key)) == key
  {
    FirstPass(key);
    SecondPass(key);
  }

  lemma {:induction false} EscapeHasNoSlash(key: string)
    ensures '/' !in Escape(key)
  {
    if key != [] {
      EscapeHasNoSlash(key[1..]);
    }
  }

  lemma {:induction false} SplitPlain(s: string)
    requires '/' !in s
    ensures Split(s) == [s]
  {
    if s != [] {
      assert s == [s[0]] + s[1..];
      SplitPlain(s[1..]);
    }
  }

  lemma {:induction false} SplitAtSlash(s: string, t: string)
    requires '/' !in s
    ensures Split(s + ("/" + t)) == [s] + Split(t)
  {
    var whole := s + ("/" + t);
    if s == [] {
      assert whole == "/" + t && whole[1..] == t;
    } else {
      assert s == [s[0]] + s[1..];
      SplitAtSlash(s[1..], t);
      assert whole[1..] == s[1..] + ("/" + t);
    }
  }

  /** Splitting inverts joining when no part has a slash. */
  lemma {:induction false} SplitJoin(parts: seq<string>)
    requires parts != [] && forall i :: 0 <= i < |parts| ==> '/' !in parts[i]
    ensures Split(Join(parts)) == parts
  {
    if |parts| == 1 {
      SplitPlain(parts[0]);
    } else {
      SplitJoin(parts[1..]);
      SplitAtSlash(parts[0], Join(parts[1..]));
      assert parts == [parts[0]] + parts[1..];
    }
  }

  /** And joining inverts splitting, for every text; no part has a slash. */
  lemma {:induction false} JoinSplit(s: string)
    ensures Join(Split(s)) == s && forall i :: 0 <= i < |Split(s)| ==> '/' !in Split(s)[i]
  {
    if s != [] {
      JoinSplit(s[1..]);
      var rest := Split(s[1..]);
      assert s == [s[0]] + s[1..];
      if s[0] == '/' {
        assert ([[]] + rest)[1..] == rest;
      } else {
        var parts := [[s[0]] + rest[0]] + rest[1..];
        assert parts[1..] == rest[1..] && parts[0] == [s[0]] + rest[0];
      }
    }
  }

  /** Unescaping in one pass: `~0` and `~1` stand for a tilde and a slash, and everything else for itself. */
  function OnePass(raw: string): string {
    if |raw| >= 2 && raw[0] == '~' && raw[1] == '0' then "~" + OnePass(raw[2..])
    else if |raw| >= 2 && raw[0] == '~' && raw[1] == '1' then "/" + OnePass(raw[2..])
    else if raw == [] then []
    else [raw[0]] + OnePass(raw[1..])
  }

  lemma {:induction false} FirstPassHead(s: string)
    ensures var r := Replace(s, '~', '1', '/'); r != [] && r[0] == '0' ==> s != [] && s[0] == '0'
  {
  }

  /** The two passes are one, for every text: neither makes work for the other. */
  lemma {:induction false} UnescapeIsOnePass(raw: string)
    ensures Unescape(raw) == OnePass(raw)
  {
    if |raw| >= 2 && raw[0] == '~' && raw[1] == '0' {
      var rest := raw[2..];
      assert raw == ['~', '0'] + rest;
      UnescapeIsOnePass(rest);
      EscapedTilde(rest);
      ReplaceHit(Replace(rest, '~', '1', '/'), '~', '0', '~');
    } else if |raw| >= 2 && raw[0] == '~' && raw[1] == '1' {
      var rest := raw[2..];
      assert raw == ['~', '1'] + rest;
      UnescapeIsOnePass(rest);
      ReplaceHit(rest, '~', '1', '/');
      ReplaceMiss('/', Replace(rest, '~', '1', '/'), '~', '0', '~');
    } else if raw != [] {
      var rest := raw[1..];
      assert raw == [raw[0]] + rest;
      UnescapeIsOnePass(rest);
      ReplaceMiss(raw[0], rest, '~', '1', '/');
      FirstPassHead(rest);
      ReplaceMiss(raw[0], Replace(rest, '~', '1', '/'), '~', '0', '~');
    }
  }

  // ----- _resolve_pointer

  /** `current[token]` */
  function Field(fields: seq<(string, Json)>, key: string): (v: Option<Json>)
    ensures v.Some? ==> exists i :: 0 <= i < |fields| && fields[i] == (key, v.value)
    ensures v.None? ==> forall i :: 0 <= i < |fields| ==> fields[i].0 != key
  {
    if fields == [] then None
    else if fields[0].0 == key then Some(fields[0].1)
    else
      var v := Field(fields[1..], key);
      assert v.Some? ==> exists i :: 0 <= i < |fields[1..]| && fields[1..][i] == (key, v.value);
      assert forall i :: 0 <= i < |fields[1..]| ==> fields[1..][i] == fields[i+1];
      v
  }

  function Child(value: Json, key: string): Option<Json> {
    if value.Object? then Field(value.fields, key) else None
  }

  /** The value reached by following keys through nested objects. */
  function At(value: Json, keys: seq<string>): Option<Json> {
    if keys == [] then Some(value) else
      var next := Child(value, keys[0]);
      if next.None? then None else At(next.value, keys[1..])
  }

  predicate LocalRef(ref: string) {
    |ref| >= 2 && ref[0] == '#' && ref[1] == '/'
  }

  function Keys(ref: string): seq<string>
    requires LocalRef(ref)
  {
    Map(Unescape, Split(ref[2..]))
  }

  predicate Resolves(document: Json, ref: string) {
    LocalRef(ref) && At(document, Keys(ref)).Some?
  }

  method ResolvePointer(document: Json, ref: string) returns (value: Option<Json>)
    ensures value == if LocalRef(ref) then At(document, Keys(ref)) else None
  {
    if !LocalRef(ref) { return None; }
    var current, raw := document, Split(ref[2..]);
    ghost var keys := Keys(ref);
    for i := 0 to |raw|
      invariant At(document, keys) == At(current, keys[i..])
    {
      var token := Unescape(raw[i]);
      assert keys[i] == token && keys[i..][1..] == keys[i+1..];
      var next := Child(current, token);
      if next.None? { return None; }
      current := next.value;
    }
    assert keys[|raw|..] == [];
    return Some(current);
  }

  /** The pointer that names a key path. */
  function Pointer(keys: seq<string>): string
    requires keys != []
  {
    "#/" + Join(Map(Escape, keys))
  }

  /** Resolution inverts escaping: the pointer made from any non-empty key path resolves exactly
      to what the path reaches. */
  lemma {:induction false} PointerRoundTrip(document: Json, keys: seq<string>)
    requires keys != []
    ensures LocalRef(Pointer(keys)) && Keys(Pointer(keys)) == keys
    ensures At(document, Keys(Pointer(keys))) == At(document, keys)
  {
    var parts := Map(Escape, keys);
    forall i | 0 <= i < |parts| ensures '/' !in parts[i] { EscapeHasNoSlash(keys[i]); }
    assert Pointer(keys)[2..] == Join(parts);
    SplitJoin(parts);
    var back := Map(Unescape, parts);
    forall i | 0 <= i < |keys| ensures back[i] == keys[i] { UnescapeEscape(keys[i]); }
    assert back == keys;
  }

  // ----- the worklist of validate_openapi_document

  function Children(value: Json): (c: seq<Json>)
    ensures forall i :: 0 <= i < |c| ==> c[i] < value
  {
    match value
    case Object(fields) => seq(|fields|, i requires 0 <= i < |fields| => fields[i].1)
    case Array(items) => items
    case _ => []
  }

  /** The `$ref` of an object, when it is a text, resolves. */
  predicate RefHere(document: Json, value: Json) {
    value.Object? ==>
      var ref := Field(value.fields, "$ref");
      ref.Some? && ref.value.Text? ==> Resolves(document, ref.value.text)
  }

  /** `x` occurs somewhere in `value`. */
  ghost predicate Within(x: Json, value: Json) {
    x == value || exists i :: 0 <= i < |Children(value)| && Within(x, Children(value)[i])
  }

  /** Every reference anywhere in `value` resolves in the document. */
  ghost predicate AllResolve(document: Json, value: Json) {
    forall x :: Within(x, value) ==> RefHere(document, x)
  }

  ghost predicate AllResolveIn(document: Json, values: seq<Json>) {
    forall i :: 0 <= i < |values| ==> AllResolve(document, values[i])
  }

  function Size(value: Json): nat
    decreases value, 1
  {
    1 + SizeAll(Children(value), value)
  }

  function SizeAll(values: seq<Json>, bound: Json): nat
    requires forall i :: 0 <= i < |values| ==> values[i] < bound
    decreases bound, 0, |values|
  {
    if values == [] then 0 else Size(values[0]) + SizeAll(values[1..], bound)
  }

  /** The work left on the stack. */
  function Load(stack: seq<Json>): nat {
    if stack == [] then 0 else Size(stack[|stack|-1]) + Load(stack[..|stack|-1])
  }

  lemma {:induction false} LoadAppend(stack: seq<Json>, more: seq<Json>, bound: Json)
    requires forall i :: 0 <= i < |more| ==> more[i] < bound
    ensures Load(stack + more) == Load(stack) + SizeAll(more, bound)
    decreases |more|
  {
    if more == [] {
      assert stack + more == stack;
    } else {
      assert stack + more == (stack + [more[0]]) + more[1..];
      LoadAppend(stack + [more[0]], more[1..], bound);
      assert (stack + [more[0]])[..|stack|] == stack;
    }
  }

  lemma {:induction false} ResolveByChildren(document: Json, value: Json)
    ensures AllResolve(document, value) <==> RefHere(document, value) && AllResolveIn(document, Children(value))
  {
    var c := Children(value);
    if AllResolve(document, value) {
      assert Within(value, value);
      forall i, x | 0 <= i < |c| && Within(x, c[i]) ensures RefHere(document, x) { assert Within(x, value); }
    }
    if RefHere(document, value) && AllResolveIn(document, c) {
      forall x | Within(x, value) ensures RefHere(document, x) {
        if x != value {
          var i :| 0 <= i < |c| && Within(x, c[i]);
          assert AllResolve(document, c[i]);
        }
      }
    }
  }

  lemma {:induction false} StackStep(document: Json, stack: seq<Json>)
    requires stack != []
    ensures var top := stack[|stack|-1];
      AllResolveIn(document, stack) <==>
      RefHere(document, top) && AllResolveIn(document, stack[..|stack|-1] + Children(top))
  {
    var top, rest := stack[|stack|-1], stack[..|stack|-1];
    ResolveByChildren(document, top);
    var next := rest + Children(top);
    if AllResolveIn(document, stack) {
      forall i | 0 <= i < |next| ensures AllResolve(document, next[i]) {
        if i < |rest| { assert next[i] == stack[i]; } else { assert next[i] == Children(top)[i - |rest|]; }
      }
    }
    if RefHere(document, top) && AllResolveIn(document, next) {
      forall i | 0 <= i < |Children(top)| ensures AllResolve(document, Children(top)[i]) {
        assert next[|rest| + i] == Children(top)[i];
      }
      forall i | 0 <= i < |stack| ensures AllResolve(document, stack[i]) {
        if i < |rest| { assert next[i] == stack[i]; }
      }
    }
  }

  // ----- every place of a document

  /** One step into a value: to the value of a field, or to an item. */
  datatype Hop = Member(key: string) | Item(index: nat)

  /** `x` stands in `value` where the hops lead. */
  ghost predicate StandsAt(value: Json, hops: seq<Hop>, x: Json) {
    if hops == [] then x == value else
      match value
      case Object(fields) =>
        exists i :: 0 <= i < |fields| && hops[0] == Member(fields[i].0) && StandsAt(fields[i].1, hops[1..], x)
      case Array(items) =>
        exists i :: 0 <= i < |items| && hops[0] == Item(i) && StandsAt(items[i], hops[1..], x)
      case _ => false
  }

  /** What stands somewhere is what the worklist comes to. */
  lemma {:induction false} StandingIsWithin(value: Json, hops: seq<Hop>, x: Json)
    requires StandsAt(value, hops, x)
    ensures Within(x, value)
    decreases value
  {
    if hops != [] {
      match value
      case Object(fields) =>
        var i :| 0 <= i < |fields| && hops[0] == Member(fields[i].0) && StandsAt(fields[i].1, hops[1..], x);
        assert Children(value)[i] == fields[i].1;
        StandingIsWithin(fields[i].1, hops[1..], x);
      case Array(items) =>
        var i :| 0 <= i < |items| && hops[0] == Item(i) && StandsAt(items[i], hops[1..], x);
        assert Children(value)[i] == items[i];
        StandingIsWithin(items[i], hops[1..], x);
    }
  }

  lemma {:induction false} WithinStands(value: Json, x: Json) returns (hops: seq<Hop>)
    requires Within(x, value)
    ensures StandsAt(value, hops, x)
    decreases value
  {
    if x == value { return []; }
    var i :| 0 <= i < |Children(value)| && Within(x, Children(value)[i]);
    var rest := WithinStands(Children(value)[i], x);
    var hop := if value.Object? then Member(value.fields[i].0) else Item(i);
    hops := [hop] + rest;
    assert hops[0] == hop && hops[1..] == rest;
  }

  /** The reference leads to a value that stands at the end of named fields. */
  ghost predicate Names(document: Json, ref: string) {
    && |ref| >= 2 && ref[..2] == "#/"
    && exists x :: StandsAt(document, Map(MemberHop, Map(OnePass, Split(ref[2..]))), x)
  }

  function MemberHop(key: string): Hop { Member(key) }

  predicate DistinctKeys(value: Json) {
    value.Object? ==> forall i, j :: 0 <= i < j < |value.fields| ==> value.fields[i].0 != value.fields[j].0
  }

  /** The keys of every object are different, as those of a mapping are. */
  ghost predicate KeysUnique(value: Json) {
    forall x :: Within(x, value) ==> DistinctKeys(x)
  }

  lemma {:induction false} ChildKeysUnique(value: Json, i: nat)
    requires KeysUnique(value) && i < |Children(value)|
    ensures KeysUnique(Children(value)[i])
  {
    forall x | Within(x, Children(value)[i]) ensures DistinctKeys(x) { assert Within(x, value); }
  }

  lemma {:induction false} FieldExactly(value: Json, key: string, i: nat)
    requires value.Object? && DistinctKeys(value) && i < |value.fields| && value.fields[i].0 == key
    ensures Field(value.fields, key) == Some(value.fields[i].1)
  {
    var v := Field(value.fields, key);
    assert v.Some?;
    var j :| 0 <= j < |value.fields| && value.fields[j] == (key, v.value);
    if i < j { assert value.fields[i].0 != value.fields[j].0; }
    if j < i { assert value.fields[j].0 != value.fields[i].0; }
  }

  /** Following keys leads to what stands at the end of the named fields. */
  lemma {:induction false} AtStands(value: Json, keys: seq<string>, x: Json)
    requires KeysUnique(value)
    ensures At(value, keys) == Some(x) <==> StandsAt(value, Map(MemberHop, keys), x)
    decreases |keys|
  {
    var hops := Map(MemberHop, keys);
    if keys != [] {
      assert hops[0] == Member(keys[0]) && hops[1..] == Map(MemberHop, keys[1..]);
      assert Within(value, value);
      if value.Object? {
        var fields := value.fields;
        forall i | 0 <= i < |fields| && fields[i].0 == keys[0]
          ensures Child(value, keys[0]) == Some(fields[i].1)
          ensures At(fields[i].1, keys[1..]) == Some(x) <==> StandsAt(fields[i].1, hops[1..], x)
        {
          FieldExactly(value, keys[0], i);
          assert Children(value)[i] == fields[i].1;
          ChildKeysUnique(value, i);
          AtStands(fields[i].1, keys[1..], x);
        }
      }
    }
  }

  lemma {:induction false} KeysAreOnePass(ref: string)
    requires LocalRef(ref)
    ensures Keys(ref) == Map(OnePass, Split(ref[2..]))
  {
    var raw := Split(ref[2..]);
    forall i | 0 <= i < |raw| ensures Keys(ref)[i] == Map(OnePass, raw)[i] { UnescapeIsOnePass(raw[i]); }
  }

  /** A pointer resolves exactly if it names a value of the document. */
  lemma {:induction false} ResolvesExactly(document: Json, ref: string)
    requires KeysUnique(document)
    ensures Resolves(document, ref) <==> Names(document, ref)
  {
    assert LocalRef(ref) <==> |ref| >= 2 && ref[..2] == "#/";
    if LocalRef(ref) {
      KeysAreOnePass(ref);
      forall x ensures At(document, Keys(ref)) == Some(x) <==> StandsAt(document, Map(MemberHop, Keys(ref)), x) {
        AtStands(document, Keys(ref), x);
      }
    }
  }

  /** Field `i` of the object at some place of the document is a textual reference. */
  ghost predicate RefAt(document: Json, hops: seq<Hop>, x: Json, i: int, ref: string) {
    StandsAt(document, hops, x) && x.Object? && 0 <= i < |x.fields| && x.fields[i] == ("$ref", Text(ref))
  }

  /** Every reference anywhere in the document names a value of the document. */
  ghost predicate RefsHold(document: Json) {
    forall hops, x, i, ref :: RefAt(document, hops, x, i, ref) ==> Names(document, ref)
  }

  lemma {:induction false} RefHereExactly(document: Json, x: Json)
    requires KeysUnique(document) && Within(x, document)
    ensures RefHere(document, x) <==>
      forall i, ref :: x.Object? && 0 <= i < |x.fields| && x.fields[i] == ("$ref", Text(ref)) ==> Names(document, ref)
  {
    if x.Object? {
      forall i, ref | 0 <= i < |x.fields| && x.fields[i] == ("$ref", Text(ref))
        ensures Field(x.fields, "$ref") == Some(Text(ref)) && (Resolves(document, ref) <==> Names(document, ref))
      {
        FieldExactly(x, "$ref", i);
        ResolvesExactly(document, ref);
      }
      var found := Field(x.fields, "$ref");
      if found.Some? && found.value.Text? {
        var i :| 0 <= i < |x.fields| && x.fields[i] == ("$ref", found.value);
        assert x.fields[i] == ("$ref", Text(found.value.text));
      }
    }
  }

  /** The worklist's condition, place by place. */
  lemma {:induction false} RefsExactly(document: Json)
    requires KeysUnique(document)
    ensures AllResolve(document, document) <==> RefsHold(document)
  {
    if AllResolve(document, document) {
      forall hops, x, i, ref | RefAt(document, hops, x, i, ref) ensures Names(document, ref) {
        StandingIsWithin(document, hops, x);
        RefHereExactly(document, x);
      }
    }
    if RefsHold(document) {
      forall x | Within(x, document) ensures RefHere(document, x) {
        var hops := WithinStands(document, x);
        RefHereExactly(document, x);
        forall i, ref | x.Object? && 0 <= i < |x.fields| && x.fields[i] == ("$ref", Text(ref))
          ensures Names(document, ref)
        {
          assert RefAt(document, hops, x, i, ref);
        }
      }
    }
  }

  /** The worklist terminates, and succeeds exactly when every `$ref` anywhere in the document resolves. */
  method CheckRefs(document: Json) returns (ok: bool)
    ensures ok <==> AllResolve(document, document)
    ensures KeysUnique(document) ==> (ok <==> RefsHold(document))
  {
    if KeysUnique(document) { RefsExactly(document); }
    var stack := [document];
    while stack != []
      invariant AllResolve(document, document) <==> AllResolveIn(document, stack)
      decreases Load(stack)
    {
      StackStep(document, stack);
      var value, rest := stack[|stack|-1], stack[..|stack|-1];
      if value.Object? {
        var ref := Field(value.fields, "$ref");
        if ref.Some? && ref.value.Text? {
          var target := ResolvePointer(document, ref.value.text);
          if target.None? { return false; }
        }
      }
      LoadAppend(rest, Children(value), value);
      stack := rest + Children(value);
    }
    return true;
  }
}
