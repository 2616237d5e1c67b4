/** The codec's bit expressions, as its source writes them, against their
    arithmetic forms. Numbers are 32-bit vectors, as JavaScript's shifts and
    masks make them.

    The codecs compute with integers, in these arithmetic forms. That a vector's
    arithmetic is its integer's, where nothing overflows, is read off the bounds
    stated here: no lemma joins the two, and no other module uses this one.
  */
module BitForms {

  /** What the encoder pushes. */
  lemma EncoderForms(c: bv32)
    ensures c < 0x800 ==> 0xc0 | (c >> 6) == 0xc0 + c / 0x40
    ensures c < 0x10000 ==> 0xe0 | (c >> 12) == 0xe0 + c / 0x1000
    ensures c < 0x200000 ==> 0xf0 | (c >> 18) == 0xf0 + c / 0x40000
    ensures 0x80 | (c & 0x3f) == 0x80 + c % 0x40
    ensures 0x80 | ((c >> 6) & 0x3f) == 0x80 + c / 0x40 % 0x40
    ensures 0x80 | ((c >> 12) & 0x3f) == 0x80 + c / 0x1000 % 0x40
  {}

  /** How the encoder joins a surrogate pair, and how the decoder splits one. */
  lemma SurrogateForms(high: bv32, low: bv32, rest: bv32)
    requires 0xd800 <= high <= 0xdbff && 0xdc00 <= low <= 0xdfff && rest < 0x1f0000
    ensures 0x10000 + ((high - 0xd800) << 10) + (low - 0xdc00) == 0x10000 + (high - 0xd800) * 0x400 + (low - 0xdc00)
    ensures 0xd800 + (rest >> 10) == 0xd800 + rest / 0x400 < 0x10000
    ensures 0xdc00 + (rest & 0x3ff) == 0xdc00 + rest % 0x400 < 0x10000
  {}

  /** How the decoder reads a first byte and absorbs a continuation byte. */
  lemma DecoderForms(b: bv32, code: bv32)
    requires b < 0x100 && code < 0x8000
    ensures b & 0xe0 == 0xc0 <==> 0xc0 <= b < 0xe0
    ensures b & 0xf0 == 0xe0 <==> 0xe0 <= b < 0xf0
    ensures 0xc0 <= b < 0xe0 ==> b & 0x1f == b - 0xc0
    ensures 0xe0 <= b < 0xf0 ==> b & 0x0f == b - 0xe0
    ensures b & 0x07 == b % 0x08
    ensures (code << 6) | (b & 0x3f) == code * 0x40 + b % 0x40
  {}

  /** What the base64 reader and the checksum do to their 32-bit state: a digit
      fills the six bits shifted in, and a byte reaches only the low eight. */
  lemma AccumulatorForms(v: bv32, digit: bv32, b: bv32)
    requires digit < 64 && b < 0x100
    ensures (v << 6) | digit == v * 64 + digit
    ensures v & 0xff == v % 256
    ensures v ^ b == v / 0x100 * 0x100 + ((v % 0x100) ^ b)
    ensures (v % 0x100) ^ b < 0x100
  {}

  /** `v >> n`, which fills with the sign. */
  function SignedShift(v: bv32, n: bv32): bv32
    requires n <= 32
  {
    if v < 0x8000_0000 then v >> n else (v >> n) | !(0xffff_ffff >> n)
  }

  /** A byte is read off the accumulator at 0, 2 or 4 bits from its end, where a
      sign that overflow left in it does not reach. */
  lemma ByteForms(v: bv32, n: bv32)
    requires n == 0 || n == 2 || n == 4
    ensures SignedShift(v, n) & 0xff == (v >> n) & 0xff
    ensures (v >> 0) & 0xff == v % 0x100
    ensures (v >> 2) & 0xff == v / 0x4 % 0x100
    ensures (v >> 4) & 0xff == v / 0x10 % 0x100
  {}

  /** One step of an exclusive or, bit by bit from the right. */
  lemma XorStep(a: bv32, b: bv32)
    ensures (a ^ b) / 2 == (a / 2) ^ (b / 2)
    ensures (a ^ b) % 2 == (a % 2 + b % 2) % 2
  {}
}
