/** The spelling rules of the Direct documents: lengths in code points, the patterns of the JSON
    schemas, and the character tests of the validators. */
module DirectSpelling {
  import opened HexSha
  import opened Options
  import opened DirectEncoding

  /** What the scripts take from Python's libraries: SHA-256, `uuid.UUID(text).bytes` (none where it
      raises), and whether any character of a text is white space. */
  datatype Library = Library(sha: Sha256, uuid: Text -> Option<Uuid>, hasSpace: Text -> bool)

  /** The number of code points of UTF-8 text: its bytes that continue no other. */
  function CodePoints(s: string): nat {
    if s == [] then 0 else CodePoints(s[1..]) + if 0x80 <= s[0] as int < 0xC0 then 0 else 1
  }

  predicate LengthBetween(s: Text, low: nat, high: nat) {
    low <= CodePoints(s) <= high
  }

  /** `^...$` with `re.search` lets one final newline pass. */
  function BeforeNewline(s: Text): Text {
    if s != [] && s[|s|-1] == '\n' then s[..|s|-1] else s
  }

  /** `^[0-9a-f]{64}$` */
  predicate ShaPattern(s: Text) {
    IsSha(BeforeNewline(s))
  }

  /** `^\S+$` */
  predicate NonSpacePattern(lib: Library, s: Text) {
    (s != [] && !lib.hasSpace(s)) || (BeforeNewline(s) != [] && !lib.hasSpace(BeforeNewline(s)))
  }

  predicate Letter(c: char) {
    'A' <= c <= 'Z' || 'a' <= c <= 'z'
  }

  /** `[A-Za-z][A-Za-z0-9+.-]*`, matched in full. */
  predicate Scheme(s: string) {
    && s != [] && Letter(s[0])
    && forall i :: 0 <= i < |s| ==> Letter(s[i]) || '0' <= s[i] <= '9' || s[i] in "+.-"
  }

  /** `value.split(':', 1)[0]` */
  function BeforeColon(s: string): string {
    if s == [] || s[0] == ':' then [] else [s[0]] + BeforeColon(s[1..])
  }

  predicate AbsoluteIri(lib: Library, s: Text) {
    s != [] && !lib.hasSpace(s) && ':' in s && Scheme(BeforeColon(s))
  }

  predicate VariableName(lib: Library, s: Text) {
    s != [] && CodePoints(s) <= 1024 && s[0] !in "?$" && !lib.hasSpace(s)
  }

  predicate BlankNodeLabel(lib: Library, s: Text) {
    s != [] && !lib.hasSpace(s)
  }

  /** Not empty, at most 256 characters, and no control character. */
  predicate ReasonerField(s: Text) {
    s != [] && CodePoints(s) <= 256 && forall i :: 0 <= i < |s| ==> s[i] as int >= 32 && s[i] as int != 127
  }

  // ----- hexadecimal spellings of a UUID

  function HexValue(c: char): Option<nat> {
    if '0' <= c <= '9' then Some(c as int - '0' as int)
    else if 'a' <= c <= 'f' then Some(c as int - 'a' as int + 10)
    else if 'A' <= c <= 'F' then Some(c as int - 'A' as int + 10)
    else None
  }

  function NoHyphens(s: string): string {
    if s == [] then [] else (if s[0] == '-' then [] else [s[0]]) + NoHyphens(s[1..])
  }

  function HexByte(h: string, i: nat): char
    requires 2 * i + 1 < |h|
  {
    var a, b := HexValue(h[2 * i]), HexValue(h[2 * i + 1]);
    if a.Some? && b.Some? && 16 * a.value + b.value < 256 then (16 * a.value + b.value) as char else '\0'
  }

  /** The part of `uuid.UUID` that reads hexadecimal digits in either case and drops hyphens. */
  function HexUuid(text: Text): Option<Uuid> {
    var h := NoHyphens(text);
    if |h| == 32 && forall i :: 0 <= i < 32 ==> HexValue(h[i]).Some?
    then Some(seq(16, i requires 0 <= i < 16 => HexByte(h, i))) else None
  }

  const LOWER_UUID: string := seq(32, _ => 'a')
  const UPPER_UUID: string := seq(32, _ => 'A')

  lemma {:induction false} NothingToDrop(s: string)
    requires '-' !in s
    ensures NoHyphens(s) == s
  {
    if s != [] {
      assert s[0] in s;
      assert forall c :: c in s[1..] ==> c in s;
      NothingToDrop(s[1..]);
      assert s == [s[0]] + s[1..];
    }
  }

  /** Two spellings of one UUID. */
  lemma {:induction false} CaseIsNotRead()
    ensures LOWER_UUID != UPPER_UUID && HexUuid(LOWER_UUID).Some? && HexUuid(LOWER_UUID) == HexUuid(UPPER_UUID)
  {
    NothingToDrop(LOWER_UUID);
    NothingToDrop(UPPER_UUID);
    assert LOWER_UUID[0] != UPPER_UUID[0];
    var a, b := HexUuid(LOWER_UUID).value, HexUuid(UPPER_UUID).value;
    assert forall i :: 0 <= i < 16 ==> a[i] == HexByte(LOWER_UUID, i) && b[i] == HexByte(UPPER_UUID, i);
    assert a == b;
  }
}
