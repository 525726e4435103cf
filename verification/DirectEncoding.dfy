/** The tagged, length-prefixed byte encoding that both Direct validators feed to SHA-256.
    Text is held as its UTF-8 bytes, one character per byte. Every encoder below can be cut
    off the front of a longer byte string in only one way; that is what makes a digest of
    the concatenation a digest of the values. */
module DirectEncoding {
  import opened Options
  import opened Orders
  import opened Sequences

  type Bytes = string

  /** `sys.maxsize + 1`: no Python string, list or mapping is this long. */
  const MAX_LENGTH := 0x8000_0000_0000_0000
  const U32_LIMIT := 0x1_0000_0000
  const U64_LIMIT := 0x1_0000_0000_0000_0000

  type Text = s: string | |s| < MAX_LENGTH
  type Uuid = s: string | |s| == 16 witness UUID_WITNESS
  const UUID_WITNESS: string := "0123456789abcdef"
  type Digest = s: string | |s| == 32 && forall i :: 0 <= i < 32 ==> s[i] as int < 256 witness DIGEST_WITNESS
  const DIGEST_WITNESS: string := "0123456789abcdef0123456789abcdef"
  type Sha256 = Bytes -> Digest

  datatype Graph = DefaultGraph(activeDefaultGraphSha256: Text) | NamedGraph(graphIri: Text)

  datatype Term =
    | Iri(value: Text)
    | BlankNode(value: Text)
    | Literal(lexicalForm: Text, datatypeIri: Text, language: Option<Text>)

  type Row = m: map<Text, Term> | |m| < MAX_LENGTH witness map[]

  // ----- specification: the bytes each value contributes

  function Pow256(width: nat): (p: nat)
    ensures p > 0
  {
    if width == 0 then 1 else 256 * Pow256(width - 1)
  }

  /** `struct.pack('>Q', n)` for width 8, `'>I'` for width 4. */
  function BigEndian(n: nat, width: nat): (b: Bytes)
    ensures |b| == width
  {
    if width == 0 then [] else BigEndian(n / 256, width - 1) + [(n % 256) as char]
  }

  function U64(n: nat): (b: Bytes)
    requires n < U64_LIMIT
    ensures |b| == 8
  {
    BigEndian(n, 8)
  }

  function StringBytes(s: Text): Bytes {
    U64(|s|) + s
  }

  function GraphBytes(g: Graph): Bytes {
    match g
    case DefaultGraph(sha) => [1 as char] + StringBytes(sha)
    case NamedGraph(iri) => [2 as char] + StringBytes(iri)
  }

  function LanguageBytes(language: Option<Text>): Bytes {
    match language
    case Some(tag) => [1 as char] + StringBytes(tag)
    case None => [0 as char]
  }

  function TermBytes(t: Term): Bytes {
    match t
    case Iri(value) => [1 as char] + StringBytes(value)
    case BlankNode(value) => [2 as char] + StringBytes(value)
    case Literal(lexical, datatype_, language) =>
      [3 as char] + (StringBytes(lexical) + (StringBytes(datatype_) + LanguageBytes(language)))
  }

  function PairsBytes(keys: seq<Text>, m: map<Text, Term>): Bytes
    requires forall k :: k in keys ==> k in m
  {
    if keys == [] then [] else
      StringBytes(keys[0]) + (TermBytes(m[keys[0]]) + PairsBytes(keys[1..], m))
  }

  /** `sorted(bindings)` */
  function SortedNames(m: Row): (keys: seq<Text>)
    ensures |keys| == |m|
    ensures forall k :: k in m <==> k in keys
  {
    var keys := SortedSet(m.Keys);
    assert forall i :: 0 <= i < |keys| ==> keys[i] in keys && keys[i] in m.Keys;
    keys
  }

  /** The count, then every binding in the order of its variable name. */
  function RowBytes(m: Row): Bytes {
    U64(|m|) + PairsBytes(SortedNames(m), m)
  }

  function StringsBytes(items: seq<Text>): Bytes {
    if items == [] then [] else StringBytes(items[0]) + StringsBytes(items[1..])
  }

  lemma {:induction false} Append3(p: Bytes, a: Bytes, b: Bytes, c: Bytes)
    ensures p + a + b + c == p + (a + (b + c))
  {
    Associate(p, a, b + c);
    Associate(p + a, b, c);
  }

  lemma {:induction false} Append2Tail(p: Bytes, a: Bytes, b: Bytes, x: Bytes)
    ensures (p + (a + b)) + x == p + (a + (b + x))
  {
    Associate(p, a + b, x);
    Associate(a, b, x);
  }

  lemma {:induction false} Append4(p: Bytes, a: Bytes, b: Bytes, c: Bytes, d: Bytes)
    ensures p + a + b + c + d == p + (a + (b + (c + d)))
  {
    Associate(p, a, b + (c + d));
    Append3(p + a, b, c, d);
  }

  lemma {:induction false} PairsStep(p: Bytes, keys: seq<Text>, m: map<Text, Term>, i: nat)
    requires i < |keys| && forall k :: k in keys ==> k in m
    ensures p + StringBytes(keys[i]) + TermBytes(m[keys[i]]) + PairsBytes(keys[i+1..], m)
      == p + PairsBytes(keys[i..], m)
  {
    assert keys[i..][1..] == keys[i+1..];
    Append3(p, StringBytes(keys[i]), TermBytes(m[keys[i]]), PairsBytes(keys[i+1..], m));
  }

  lemma {:induction false} StringsStep(p: Bytes, items: seq<Text>, i: nat)
    requires i < |items|
    ensures p + StringBytes(items[i]) + StringsBytes(items[i+1..]) == p + StringsBytes(items[i..])
  {
    assert items[i..][1..] == items[i+1..];
    Associate(p, StringBytes(items[i]), StringsBytes(items[i+1..]));
  }

  // ----- the hasher the scripts update step by step

  class Hasher {
    var buffer: Bytes

    /** `hashlib.sha256()` with the domain separator already fed to it. */
    constructor (domain: Bytes)
      ensures buffer == domain
    {
      buffer := domain;
    }

    method Update(data: Bytes)
      modifies this
      ensures buffer == old(buffer) + data
    {
      buffer := buffer + data;
    }

    /** `struct.pack('>Q', n)` raises outside the unsigned 64-bit range. */
    method PutU64(n: int) returns (ok: bool)
      modifies this
      ensures ok <==> 0 <= n < U64_LIMIT
      ensures buffer == old(buffer) + if ok then U64(n) else []
    {
      ok := 0 <= n < U64_LIMIT;
      if ok {
        Update(U64(n));
      }
    }

    method PutString(value: Text)
      modifies this
      ensures buffer == old(buffer) + StringBytes(value)
    {
      Update(U64(|value|));
      Update(value);
    }

    method PutGraph(g: Graph)
      modifies this
      ensures buffer == old(buffer) + GraphBytes(g)
    {
      match g
      case DefaultGraph(sha) =>
        Update([1 as char]);
        PutString(sha);
        Associate(old(buffer), [1 as char], StringBytes(sha));
      case NamedGraph(iri) =>
        Update([2 as char]);
        PutString(iri);
        Associate(old(buffer), [2 as char], StringBytes(iri));
    }

    method PutTerm(t: Term)
      modifies this
      ensures buffer == old(buffer) + TermBytes(t)
    {
      match t
      case Iri(value) =>
        Update([1 as char]);
        PutString(value);
        Associate(old(buffer), [1 as char], StringBytes(value));
      case BlankNode(value) =>
        Update([2 as char]);
        PutString(value);
        Associate(old(buffer), [2 as char], StringBytes(value));
      case Literal(lexical, datatype_, language) =>
        Update([3 as char]);
        PutString(lexical);
        PutString(datatype_);
        ghost var before := buffer;
        if language.Some? {
          Update([1 as char]);
          PutString(language.value);
          Associate(before, [1 as char], StringBytes(language.value));
        } else {
          Update([0 as char]);
        }
        Append4(old(buffer), [3 as char], StringBytes(lexical), StringBytes(datatype_), LanguageBytes(language));
    }

    method PutRow(m: Row)
      modifies this
      ensures buffer == old(buffer) + RowBytes(m)
    {
      var keys := SortedNames(m);
      Update(U64(|m|));
      ghost var target := buffer + PairsBytes(keys, m);
      assert PairsBytes(keys[0..], m) == PairsBytes(keys, m) by { assert keys[0..] == keys; }
      for i := 0 to |keys|
        invariant buffer + PairsBytes(keys[i..], m) == target
      {
        PairsStep(buffer, keys, m, i);
        PutString(keys[i]);
        PutTerm(m[keys[i]]);
      }
      assert PairsBytes(keys[|keys|..], m) == [];
      Associate(old(buffer), U64(|m|), PairsBytes(keys, m));
    }

    method PutStrings(items: seq<Text>)
      modifies this
      ensures buffer == old(buffer) + StringsBytes(items)
    {
      assert items[0..] == items;
      for i := 0 to |items|
        invariant buffer + StringsBytes(items[i..]) == old(buffer) + StringsBytes(items)
      {
        StringsStep(buffer, items, i);
        PutString(items[i]);
      }
    }
  }

  // ----- every encoding can be cut off in only one way

  lemma {:induction false} BigEndianInjective(m: nat, n: nat, width: nat)
    requires m < Pow256(width) && n < Pow256(width)
    requires BigEndian(m, width) == BigEndian(n, width)
    ensures m == n
  {
    if width > 0 {
      var p, q := BigEndian(m / 256, width - 1), BigEndian(n / 256, width - 1);
      Cut(p, q, [(m % 256) as char], [(n % 256) as char]);
      assert (m % 256) as char == (n % 256) as char;
      BigEndianInjective(m / 256, n / 256, width - 1);
    }
  }

  lemma {:induction false} Widths()
    ensures Pow256(4) == U32_LIMIT && Pow256(8) == U64_LIMIT
  {
    assert Pow256(1) == 256;
    assert Pow256(2) == 0x1_0000;
    assert Pow256(3) == 0x100_0000;
    assert Pow256(4) == 0x1_0000_0000;
    assert Pow256(5) == 0x100_0000_0000;
    assert Pow256(6) == 0x1_0000_0000_0000;
  }

  lemma {:induction false} U64Cut(m: nat, n: nat, x: Bytes, y: Bytes)
    requires m < U64_LIMIT && n < U64_LIMIT
    requires U64(m) + x == U64(n) + y
    ensures m == n && x == y
  {
    Cut(U64(m), U64(n), x, y);
    Widths();
    BigEndianInjective(m, n, 8);
  }

  lemma {:induction false} StringCut(a: Text, b: Text, x: Bytes, y: Bytes)
    requires StringBytes(a) + x == StringBytes(b) + y
    ensures a == b && x == y
  {
    assert StringBytes(a) + x == U64(|a|) + (a + x);
    assert StringBytes(b) + y == U64(|b|) + (b + y);
    U64Cut(|a|, |b|, a + x, b + y);
    Cut(a, b, x, y);
  }

  /** A one-byte tag followed by a body. */
  lemma {:induction false} TagCut(s: char, t: char, x: Bytes, y: Bytes, u: Bytes, v: Bytes)
    requires [s] + x + u == [t] + y + v
    ensures s == t && x + u == y + v
  {
    assert [s] + x + u == [s] + (x + u);
    assert [t] + y + v == [t] + (y + v);
    Cut([s], [t], x + u, y + v);
  }

  lemma {:induction false} GraphCut(a: Graph, b: Graph, x: Bytes, y: Bytes)
    requires GraphBytes(a) + x == GraphBytes(b) + y
    ensures a == b && x == y
  {
    var s := if a.DefaultGraph? then a.activeDefaultGraphSha256 else a.graphIri;
    var t := if b.DefaultGraph? then b.activeDefaultGraphSha256 else b.graphIri;
    var i := if a.DefaultGraph? then 1 as char else 2 as char;
    var j := if b.DefaultGraph? then 1 as char else 2 as char;
    TagCut(i, j, StringBytes(s), StringBytes(t), x, y);
    StringCut(s, t, x, y);
  }

  lemma {:induction false} LanguageCut(a: Option<Text>, b: Option<Text>, x: Bytes, y: Bytes)
    requires LanguageBytes(a) + x == LanguageBytes(b) + y
    ensures a == b && x == y
  {
    var s := if a.Some? then StringBytes(a.value) else [];
    var t := if b.Some? then StringBytes(b.value) else [];
    var i := if a.Some? then 1 as char else 0 as char;
    var j := if b.Some? then 1 as char else 0 as char;
    assert LanguageBytes(a) == [i] + s && LanguageBytes(b) == [j] + t;
    TagCut(i, j, s, t, x, y);
    if a.Some? {
      StringCut(a.value, b.value, x, y);
    } else {
      assert s + x == x && t + y == y;
    }
  }

  function TermTag(t: Term): char {
    match t
    case Iri(_) => 1 as char
    case BlankNode(_) => 2 as char
    case Literal(_, _, _) => 3 as char
  }

  function TermBody(t: Term): Bytes {
    match t
    case Iri(value) => StringBytes(value)
    case BlankNode(value) => StringBytes(value)
    case Literal(lexical, datatype_, language) =>
      StringBytes(lexical) + (StringBytes(datatype_) + LanguageBytes(language))
  }

  lemma {:induction false} TermCut(a: Term, b: Term, x: Bytes, y: Bytes)
    requires TermBytes(a) + x == TermBytes(b) + y
    ensures a == b && x == y
  {
    TagCut(TermTag(a), TermTag(b), TermBody(a), TermBody(b), x, y);
    if a.Literal? {
      LiteralCut(a, b, x, y);
    } else {
      StringCut(a.value, b.value, x, y);
    }
  }

  lemma {:induction false} LiteralCut(a: Term, b: Term, x: Bytes, y: Bytes)
    requires a.Literal? && b.Literal? && TermBody(a) + x == TermBody(b) + y
    ensures a == b && x == y
  {
    var aTail, bTail := LanguageBytes(a.language) + x, LanguageBytes(b.language) + y;
    Append2Tail(StringBytes(a.lexicalForm), StringBytes(a.datatypeIri), LanguageBytes(a.language), x);
    Append2Tail(StringBytes(b.lexicalForm), StringBytes(b.datatypeIri), LanguageBytes(b.language), y);
    StringCut(a.lexicalForm, b.lexicalForm, StringBytes(a.datatypeIri) + aTail, StringBytes(b.datatypeIri) + bTail);
    StringCut(a.datatypeIri, b.datatypeIri, aTail, bTail);
    LanguageCut(a.language, b.language, x, y);
  }

  lemma {:induction false} PairCut(j: Text, s: Term, k: Text, t: Term, x: Bytes, y: Bytes)
    requires StringBytes(j) + (TermBytes(s) + x) == StringBytes(k) + (TermBytes(t) + y)
    ensures j == k && s == t && x == y
  {
    StringCut(j, k, TermBytes(s) + x, TermBytes(t) + y);
    TermCut(s, t, x, y);
  }

  lemma {:induction false} SameMap(keys: seq<Text>, m: map<Text, Term>, n: map<Text, Term>)
    requires forall v :: v in m <==> v in keys
    requires forall v :: v in n <==> v in keys
    requires forall v :: v in keys ==> m[v] == n[v]
    ensures m == n
  {
  }

  lemma {:induction false} PairsCut(
      j: seq<Text>, m: map<Text, Term>, k: seq<Text>, n: map<Text, Term>, x: Bytes, y: Bytes)
    requires (forall v :: v in j ==> v in m) && (forall v :: v in k ==> v in n)
    requires |j| == |k| && PairsBytes(j, m) + x == PairsBytes(k, n) + y
    ensures j == k && x == y
    ensures forall v :: v in j ==> m[v] == n[v]
  {
    if j != [] {
      var mTail, nTail := PairsBytes(j[1..], m) + x, PairsBytes(k[1..], n) + y;
      Append2Tail(StringBytes(j[0]), TermBytes(m[j[0]]), PairsBytes(j[1..], m), x);
      Append2Tail(StringBytes(k[0]), TermBytes(n[k[0]]), PairsBytes(k[1..], n), y);
      PairCut(j[0], m[j[0]], k[0], n[k[0]], mTail, nTail);
      PairsCut(j[1..], m, k[1..], n, x, y);
      assert j == [j[0]] + j[1..] && k == [k[0]] + k[1..];
    } else {
      assert PairsBytes(j, m) + x == x && PairsBytes(k, n) + y == y;
    }
  }

  lemma {:induction false} RowCut(a: Row, b: Row, x: Bytes, y: Bytes)
    requires RowBytes(a) + x == RowBytes(b) + y
    ensures a == b && x == y
  {
    var j, k := SortedNames(a), SortedNames(b);
    Associate(U64(|a|), PairsBytes(j, a), x);
    Associate(U64(|b|), PairsBytes(k, b), y);
    U64Cut(|a|, |b|, PairsBytes(j, a) + x, PairsBytes(k, b) + y);
    PairsCut(j, a, k, b, x, y);
    SameMap(j, a, b);
  }

  lemma {:induction false} StringsCut(a: seq<Text>, b: seq<Text>, x: Bytes, y: Bytes)
    requires |a| == |b| && StringsBytes(a) + x == StringsBytes(b) + y
    ensures a == b && x == y
  {
    if a != [] {
      var aTail, bTail := StringsBytes(a[1..]) + x, StringsBytes(b[1..]) + y;
      assert StringsBytes(a) + x == StringBytes(a[0]) + aTail;
      assert StringsBytes(b) + y == StringBytes(b[0]) + bTail;
      StringCut(a[0], b[0], aTail, bTail);
      StringsCut(a[1..], b[1..], x, y);
      assert a == [a[0]] + a[1..] && b == [b[0]] + b[1..];
    } else {
      assert StringsBytes(a) + x == x && StringsBytes(b) + y == y;
    }
  }

  // ----- hexadecimal digests

  function HexDigit(n: nat): (c: char)
    requires n < 16
  {
    if n < 10 then ('0' as int + n) as char else ('a' as int + n - 10) as char
  }

  /** `hexdigest()`: two lower-case digits per byte. */
  function Hex(b: Bytes): (r: string)
    requires forall i :: 0 <= i < |b| ==> b[i] as int < 256
    ensures |r| == 2 * |b|
  {
    if b == [] then [] else
      [HexDigit(b[0] as int / 16), HexDigit(b[0] as int % 16)] + Hex(b[1..])
  }

  function HexDigest(sha: Sha256, preimage: Bytes): (r: Text)
    ensures |r| == 64
  {
    Hex(sha(preimage))
  }

  lemma {:induction false} HexInjective(a: Bytes, b: Bytes)
    requires forall i :: 0 <= i < |a| ==> a[i] as int < 256
    requires forall i :: 0 <= i < |b| ==> b[i] as int < 256
    requires Hex(a) == Hex(b)
    ensures a == b
  {
    if a != [] {
      assert Hex(a)[0] == Hex(b)[0] && Hex(a)[1] == Hex(b)[1];
      assert Hex(a)[2..] == Hex(a[1..]) && Hex(b)[2..] == Hex(b[1..]);
      HexInjective(a[1..], b[1..]);
      assert a == [a[0]] + a[1..] && b == [b[0]] + b[1..];
    }
  }

  /** No two different byte strings of `inputs` have the same digest. SHA-256 cannot be
      injective on all byte strings, so this is only ever asked of the finitely many at hand. */
  ghost predicate CollisionFree(sha: Sha256, inputs: set<Bytes>) {
    forall x, y :: x in inputs && y in inputs && sha(x) == sha(y) ==> x == y
  }

  lemma {:induction false} HexDigestCollisionFree(sha: Sha256, inputs: set<Bytes>, x: Bytes, y: Bytes)
    requires CollisionFree(sha, inputs)
    requires x in inputs && y in inputs && HexDigest(sha, x) == HexDigest(sha, y)
    ensures x == y
  {
    HexInjective(sha(x), sha(y));
  }
}
