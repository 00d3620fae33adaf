/**
 * The machine's integer widths. The emulator stores bytes in `unsigned char`
 * and addresses in `unsigned short`; both are modelled as bounded integers,
 * and every place where C++ truncates to 16 bits goes through `Wrap16`.
 */
module Bytes {

  /** An `unsigned char`. */
  type byte = x: int | 0 <= x < 0x100

  /** An `unsigned short`. */
  type word = x: int | 0 <= x < 0x1_0000

  /** Conversion of an `int` to `unsigned short`: C++ keeps the low 16 bits. */
  function Wrap16(n: int): (w: word)
    ensures 0 <= n < 0x1_0000 ==> w == n
    ensures (n - w) % 0x1_0000 == 0
  {
    n % 0x1_0000
  }

  /** The low byte of a word, `data & 0x00ff`. */
  function Lo(w: word): byte
  {
    w % 0x100
  }

  /** The high byte of a word, `(data & 0xff00) >> 8`. */
  function Hi(w: word): byte
  {
    w / 0x100
  }

  /**
   * The word `(hi << 8) | lo`. The two operands occupy disjoint bits, so the
   * OR is an addition.
   */
  function Word(lo: byte, hi: byte): word
  {
    hi * 0x100 + lo
  }

  /** Joining two bytes and splitting the word again gives the bytes back. */
  lemma HalvesOfWord(lo: byte, hi: byte)
    ensures Lo(Word(lo, hi)) == lo && Hi(Word(lo, hi)) == hi
  {
  }

  /** Splitting a word into its bytes and joining them again gives the word back. */
  lemma WordOfHalves(w: word)
    ensures Word(Lo(w), Hi(w)) == w
  {
  }
}
