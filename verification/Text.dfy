/** The few string operations the source relies on: letter case and character classes. */
module Text {

  function LowerChar(c: char): char {
    if 'A' <= c <= 'Z' then ((c as int) + 32) as char else c
  }

  /** `toLowerCase()` on the ASCII identifiers, addresses and hashes that the source compares. */
  function Lower(s: string): (r: string) {
    seq(|s|, i requires 0 <= i < |s| => LowerChar(s[i]))
  }

  /** Two strings are the same up to letter case. */
  predicate SameUpToCase(a: string, b: string) {
    Lower(a) == Lower(b)
  }

  predicate HexDigit(c: char) {
    '0' <= c <= '9' || 'a' <= c <= 'f' || 'A' <= c <= 'F'
  }

  predicate AllHex(s: string) {
    s == [] || (HexDigit(s[0]) && AllHex(s[1..]))
  }

  /** `/^0x[a-fA-F0-9]{40}$/` */
  predicate IsEvmAddress(s: string) {
    |s| == 42 && s[..2] == "0x" && AllHex(s[2..])
  }

  /** `/^0x[a-fA-F0-9]{64}$/` */
  predicate IsEvmHash(s: string) {
    |s| == 66 && s[..2] == "0x" && AllHex(s[2..])
  }

  /** One character of a pattern: `h` a hex digit, `v` a version digit, `a` a variant digit, anything else itself. */
  predicate Fits(c: char, p: char) {
    match p
    case 'h' => HexDigit(c)
    case 'v' => '1' <= c <= '8'
    case 'a' => c in "89abAB"
    case _ => c == p
  }

  predicate ShapedAs(s: string, pattern: string)
    decreases |s|
  {
    if s == [] || pattern == [] then s == [] && pattern == [] else Fits(s[0], pattern[0]) && ShapedAs(s[1..], pattern[1..])
  }

  /** The RFC 4122 shape of versions 1 to 8 that Circle transaction ids must have. */
  predicate IsUuid(s: string) {
    s != "" && ShapedAs(s, "hhhhhhhh-hhhh-vhhh-ahhh-hhhhhhhhhhhh")
  }
}
