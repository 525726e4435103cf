/** Reading the pre-images back, field after field: what a verifier in any language sees in the bytes.
    Every encoder of the Direct documents is inverted by a reader that names the fields in order. */
module DirectDecoding {
  import opened Options
  import opened Orders
  import opened Sequences
  import opened DirectEncoding

  /** A value read off the front of some bytes, and what follows it. */
  datatype Reading<+T> = Stuck | Reading(value: T, rest: Bytes) {
    predicate IsFailure() { Stuck? }

    function PropagateFailure<U>(): Reading<U>
      requires IsFailure()
    {
      Stuck
    }

    function Extract(): (T, Bytes)
      requires !IsFailure()
    {
      (value, rest)
    }
  }

  /** Big-endian: every byte counts 256 times the next. */
  function Number(b: Bytes): nat {
    if b == [] then 0 else Number(b[..|b|-1]) * 256 + b[|b|-1] as int
  }

  function ReadBytes(b: Bytes, n: nat): Reading<Bytes> {
    if |b| < n then Stuck else Reading(b[..n], b[n..])
  }

  function ReadNumber(b: Bytes, width: nat): Reading<nat> {
    var digits :- ReadBytes(b, width);
    Reading(Number(digits.0), digits.1)
  }

  /** Eight bytes of length, then the text. */
  function ReadText(b: Bytes): Reading<Text> {
    var length :- ReadNumber(b, 8);
    if length.0 >= MAX_LENGTH then Stuck else
      ReadBytes(length.1, length.0)
  }

  function Prepend<T>(x: T, tail: Reading<seq<T>>): Reading<seq<T>> {
    if tail.Stuck? then Stuck else Reading([x] + tail.value, tail.rest)
  }

  function ReadTexts(b: Bytes, n: nat): (texts: Reading<seq<Text>>)
    ensures texts.Reading? ==> |texts.value| == n
    decreases n
  {
    if n == 0 then Reading([], b) else
      var head :- ReadText(b);
      Prepend(head.0, ReadTexts(head.1, n - 1))
  }

  function ReadDomain(b: Bytes, domain: Bytes): Reading<()> {
    if domain <= b then Reading((), b[|domain|..]) else Stuck
  }

  function ReadGraph(b: Bytes): Reading<Graph> {
    var tag :- ReadNumber(b, 1);
    var text :- ReadText(tag.1);
    if tag.0 == 1 then Reading(DefaultGraph(text.0), text.1)
    else if tag.0 == 2 then Reading(NamedGraph(text.0), text.1)
    else Stuck
  }

  function ReadLanguage(b: Bytes): Reading<Option<Text>> {
    var tag :- ReadNumber(b, 1);
    if tag.0 == 0 then Reading(None, tag.1)
    else if tag.0 == 1 then
      var text :- ReadText(tag.1);
      Reading(Some(text.0), text.1)
    else Stuck
  }

  function ReadTerm(b: Bytes): Reading<Term> {
    var tag :- ReadNumber(b, 1);
    var text :- ReadText(tag.1);
    if tag.0 == 1 then Reading(Iri(text.0), text.1)
    else if tag.0 == 2 then Reading(BlankNode(text.0), text.1)
    else if tag.0 == 3 then
      var kind :- ReadText(text.1);
      var language :- ReadLanguage(kind.1);
      Reading(Literal(text.0, kind.0, language.0), language.1)
    else Stuck
  }

  datatype Binding = Binding(name: Text, term: Term)

  function ReadBinding(b: Bytes): Reading<Binding> {
    var name :- ReadText(b);
    var term :- ReadTerm(name.1);
    Reading(Binding(name.0, term.0), term.1)
  }

  function ReadBindings(b: Bytes, n: nat): Reading<seq<Binding>>
    decreases n
  {
    if n == 0 then Reading([], b) else
      var head :- ReadBinding(b);
      Prepend(head.0, ReadBindings(head.1, n - 1))
  }

  function ReadRow(b: Bytes): Reading<seq<Binding>> {
    var count :- ReadNumber(b, 8);
    ReadBindings(count.1, count.0)
  }

  // ----- round trips

  lemma {:induction false} FrontAndRest(a: Bytes, x: Bytes)
    ensures (a + x)[..|a|] == a && (a + x)[|a|..] == x
  {
  }

  lemma {:induction false} NumberOf(n: nat, width: nat)
    requires n < Pow256(width)
    ensures Number(BigEndian(n, width)) == n
  {
    if width > 0 {
      NumberOf(n / 256, width - 1);
      var b := BigEndian(n, width);
      assert b[..|b|-1] == BigEndian(n / 256, width - 1);
      assert b[|b|-1] == (n % 256) as char;
    }
  }

  lemma {:induction false} NumberReads(n: nat, width: nat, x: Bytes)
    requires n < Pow256(width)
    ensures ReadNumber(BigEndian(n, width) + x, width) == Reading(n, x)
  {
    FrontAndRest(BigEndian(n, width), x);
    NumberOf(n, width);
  }

  lemma {:induction false} TagReads(tag: char, x: Bytes)
    ensures ReadNumber([tag] + x, 1) == Reading(tag as int, x)
  {
    FrontAndRest([tag], x);
    assert Number([]) == 0 && [tag][..0] == [];
    assert Number([tag]) == tag as int;
  }

  lemma {:induction false} U64Reads(n: nat, x: Bytes)
    requires n < U64_LIMIT
    ensures ReadNumber(U64(n) + x, 8) == Reading(n, x)
  {
    Widths();
    NumberReads(n, 8, x);
  }

  lemma {:induction false} TextReads(s: Text, x: Bytes)
    ensures ReadText(StringBytes(s) + x) == Reading(s, x)
  {
    Associate(U64(|s|), s, x);
    U64Reads(|s|, s + x);
    FrontAndRest(s, x);
  }

  lemma {:induction false} TextsRead(items: seq<Text>, x: Bytes)
    ensures ReadTexts(StringsBytes(items) + x, |items|) == Reading(items, x)
  {
    if items == [] {
      assert StringsBytes(items) + x == x;
    } else {
      Associate(StringBytes(items[0]), StringsBytes(items[1..]), x);
      TextReads(items[0], StringsBytes(items[1..]) + x);
      TextsRead(items[1..], x);
      assert items == [items[0]] + items[1..];
    }
  }

  lemma {:induction false} DomainReads(domain: Bytes, x: Bytes)
    ensures ReadDomain(domain + x, domain) == Reading((), x)
  {
    FrontAndRest(domain, x);
  }

  /** A tagged graph reads back. */
  lemma {:induction false} GraphReads(g: Graph, x: Bytes)
    ensures ReadGraph(GraphBytes(g) + x) == Reading(g, x)
  {
    var tag := if g.DefaultGraph? then 1 as char else 2 as char;
    var text := if g.DefaultGraph? then g.activeDefaultGraphSha256 else g.graphIri;
    Associate([tag], StringBytes(text), x);
    TagReads(tag, StringBytes(text) + x);
    TextReads(text, x);
  }

  lemma {:induction false} LanguageReads(language: Option<Text>, x: Bytes)
    ensures ReadLanguage(LanguageBytes(language) + x) == Reading(language, x)
  {
    match language
    case None => TagReads(0 as char, x);
    case Some(tag) =>
      Associate([1 as char], StringBytes(tag), x);
      TagReads(1 as char, StringBytes(tag) + x);
      TextReads(tag, x);
  }

  lemma {:induction false} LiteralReads(lexical: Text, kind: Text, language: Option<Text>, x: Bytes)
    ensures ReadTerm(TermBytes(Literal(lexical, kind, language)) + x) == Reading(Literal(lexical, kind, language), x)
  {
    var tail := LanguageBytes(language) + x;
    Associate([3 as char], StringBytes(lexical) + (StringBytes(kind) + LanguageBytes(language)), x);
    Append2Tail(StringBytes(lexical), StringBytes(kind), LanguageBytes(language), x);
    TagReads(3 as char, StringBytes(lexical) + (StringBytes(kind) + tail));
    TextReads(lexical, StringBytes(kind) + tail);
    TextReads(kind, tail);
    LanguageReads(language, x);
  }

  /** A tagged term reads back, with or without a language. */
  lemma {:induction false} TermReads(t: Term, x: Bytes)
    ensures ReadTerm(TermBytes(t) + x) == Reading(t, x)
  {
    match t
    case Literal(lexical, kind, language) => LiteralReads(lexical, kind, language, x);
    case Iri(value) =>
      Associate([1 as char], StringBytes(value), x);
      TagReads(1 as char, StringBytes(value) + x);
      TextReads(value, x);
    case BlankNode(value) =>
      Associate([2 as char], StringBytes(value), x);
      TagReads(2 as char, StringBytes(value) + x);
      TextReads(value, x);
  }

  /** The bindings of a row in the order in which they are hashed. */
  function BindingsOf(names: seq<Text>, m: map<Text, Term>): (bs: seq<Binding>)
    requires forall k :: k in names ==> k in m
    ensures |bs| == |names|
    ensures forall i :: 0 <= i < |names| ==> bs[i] == Binding(names[i], m[names[i]])
  {
    if names == [] then [] else [Binding(names[0], m[names[0]])] + BindingsOf(names[1..], m)
  }

  lemma {:induction false} BindingsRead(names: seq<Text>, m: map<Text, Term>, x: Bytes)
    requires forall k :: k in names ==> k in m
    ensures ReadBindings(PairsBytes(names, m) + x, |names|) == Reading(BindingsOf(names, m), x)
  {
    if names == [] {
      assert PairsBytes(names, m) + x == x;
    } else {
      var tail := PairsBytes(names[1..], m);
      Append2Tail(StringBytes(names[0]), TermBytes(m[names[0]]), tail, x);
      TextReads(names[0], TermBytes(m[names[0]]) + (tail + x));
      TermReads(m[names[0]], tail + x);
      BindingsRead(names[1..], m, x);
    }
  }

  /** The bindings are those of the row, each once and by increasing name. */
  ghost predicate ListsRow(bs: seq<Binding>, row: Row) {
    && |bs| == |row|
    && (forall i :: 0 <= i < |bs| ==> bs[i].name in row && row[bs[i].name] == bs[i].term)
    && forall i, j :: 0 <= i < j < |bs| ==> Lt(bs[i].name, bs[j].name)
  }

  /** A row reads back as its own bindings in name order. */
  lemma {:induction false} RowReads(row: Row, x: Bytes) returns (bs: seq<Binding>)
    ensures ReadRow(RowBytes(row) + x) == Reading(bs, x) && ListsRow(bs, row)
  {
    bs := BindingsOf(SortedNames(row), row);
    RowBytesRead(row, x);
    NamesIncrease(row);
    BindingsListRow(SortedNames(row), row);
  }

  lemma {:induction false} RowBytesRead(row: Row, x: Bytes)
    ensures ReadRow(RowBytes(row) + x) == Reading(BindingsOf(SortedNames(row), row), x)
  {
    var pairs := PairsBytes(SortedNames(row), row);
    Associate(U64(|row|), pairs, x);
    U64Reads(|row|, pairs + x);
    BindingsRead(SortedNames(row), row, x);
  }

  lemma {:induction false} NamesIncrease(row: Row)
    ensures StrictlyIncreasing(SortedNames(row))
  {
    SortedSetIncreasing(row.Keys);
  }

  lemma {:induction false} BindingsListRow(names: seq<Text>, row: Row)
    requires StrictlyIncreasing(names) && |names| == |row| && forall k :: k in names ==> k in row
    ensures ListsRow(BindingsOf(names, row), row)
  {
    var bs := BindingsOf(names, row);
    forall i | 0 <= i < |bs| ensures bs[i].name in row && row[bs[i].name] == bs[i].term {
      assert names[i] in names;
    }
    forall i, j | 0 <= i < j < |bs| ensures Lt(bs[i].name, bs[j].name) {
      assert Lt(names[i], names[j]);
    }
  }
}
