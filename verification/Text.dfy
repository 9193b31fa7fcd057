/** C++ text: a `char` is one of 256 byte values, written here as the character with that code. */
module Text {

  type byte = c: char | c < '\U{0100}' witness 'a'

  /** A C++ string. */
  type text = seq<byte>

  /** The value of a byte as a (signed) `char`. */
  function Signed(c: byte): (v: int)
    ensures -128 <= v < 128
  {
    if c < '\U{0080}' then c as int else c as int - 256
  }

  predicate IsDigit(c: char) { '0' <= c <= '9' }

  predicate IsUpper(c: char) { 'A' <= c <= 'Z' }

  predicate IsLower(c: char) { 'a' <= c <= 'z' }
}
