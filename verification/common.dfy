/** Values shared by the client components: optional values, results of the
    guard chains, and the address helpers used for every identity check. */
module Common {

  datatype Option<T> = None | Some(value: T)

  datatype Result<T, E> = Ok(value: T) | Err(error: E)

  /** The zero address, `ethers.ZeroAddress`. */
  const ZeroAddress: string := "0x0000000000000000000000000000000000000000"

  /** `toLowerCase` on one character, restricted to ASCII letters. */
  function LowerChar(c: char): char
  {
    if 'A' <= c <= 'Z' then (c as int + 32) as char else c
  }

  /** `toLowerCase` on a string, restricted to ASCII letters. */
  function Lower(s: string): (r: string)
    ensures |r| == |s|
    ensures forall i :: 0 <= i < |s| ==> r[i] == LowerChar(s[i])
  {
    seq(|s|, i requires 0 <= i < |s| => LowerChar(s[i]))
  }

  /** Lower-casing twice is lower-casing once: a lower-cased address
      compares equal to itself under every later case-insensitive test. */
  lemma LowerIdempotent(s: string)
    ensures Lower(Lower(s)) == Lower(s)
  {
  }

  /** Identity of two addresses as the client decides it:
      `a.toLowerCase() === b.toLowerCase()`. */
  predicate SameAddress(a: string, b: string)
  {
    Lower(a) == Lower(b)
  }

  /** A JavaScript truthiness test on the connected address (`!address`
      fails for `undefined` and for the empty string). */
  predicate Connected(address: Option<string>)
  {
    address.Some? && address.value != ""
  }

  predicate IsHexDigit(c: char)
  {
    '0' <= c <= '9' || 'a' <= c <= 'f' || 'A' <= c <= 'F'
  }

  /** The digits of an address, after an optional "0x" prefix. */
  function AddressBody(s: string): (body: string)
    ensures |body| <= |s|
  {
    if |s| >= 2 && s[..2] == "0x" then s[2..] else s
  }

  /** The shape `ethers.isAddress` accepts: an optional "0x" prefix followed
      by exactly forty hexadecimal digits. */
  predicate IsAddress(s: string)
  {
    var body := AddressBody(s);
    |body| == 40 && forall i :: 0 <= i < 40 ==> IsHexDigit(body[i])
  }

  /** Every well-formed address has 40 or 42 characters, so it is never empty. */
  lemma AddressLength(s: string)
    requires IsAddress(s)
    ensures |s| == 40 || |s| == 42
    ensures s != ""
  {
  }
}
