/** Types shared by every component of the client model. */
module Common {

  datatype Option<+T> = None | Some(value: T)

  /** Identifiers (RFC 4122 UUIDs in the source); only equality matters here. */
  type Uuid = nat

  const NIL_UUID: Uuid := 0

  type Byte = b: int | 0 <= b < 256

  /** One past the largest unsigned 32-bit number. */
  const U32 := 0x1_0000_0000

  /** ASCII lower case. */
  function LowerChar(c: char): char {
    if 'A' <= c <= 'Z' then c - 'A' + 'a' else c
  }

  function Lower(s: string): string {
    seq(|s|, i requires 0 <= i < |s| => LowerChar(s[i]))
  }
}
