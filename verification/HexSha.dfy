/** SHA-256 digests as the scripts write them: 64 lower-case hexadecimal characters. */
module HexSha {
  predicate HexChar(c: char) {
    '0' <= c <= '9' || 'a' <= c <= 'f'
  }

  predicate IsSha(s: string) {
    |s| == 64 && forall i :: 0 <= i < |s| ==> HexChar(s[i])
  }

  type Sha = s: string | IsSha(s) witness SHA_WITNESS
  const SHA_WITNESS: string := seq(64, _ => '0')
}
