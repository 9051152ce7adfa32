/** The branch-free logarithms of common.bpf.h, on machine words. */
module Log2 {
  /** A C comparison used as a number. */
  function Bit(b: bool): bv32 {
    if b then 1 else 0
  }

  /** 2^r <= v < 2^(r + 1) */
  predicate IsLog(v: bv32, r: bv32) {
    r < 32 && 1 << r <= v && (r < 31 ==> v < 1 << (r + 1))
  }

  /** r is the number of bits of v: v < 2^r, and 2^(r - 1) <= v. */
  predicate IsBitLength(v: bv64, r: bv32) {
    0 < r <= 64 && 1 << (r - 1) <= v && (r < 64 ==> v < 1 << r)
  }

  /** log2_u32 */
  method Log2U32(word: bv32) returns (r: bv32)
    ensures word != 0 ==> IsLog(word, r)
    ensures word == 0 ==> r == 0
  {
    var v, shift := word, 0;
    r := Bit(v > 0xFFFF) << 4; v := v >> r;
    shift := Bit(v > 0xFF) << 3; v := v >> shift; r := r | shift;
    shift := Bit(v > 0xF) << 2; v := v >> shift; r := r | shift;
    shift := Bit(v > 0x3) << 1; v := v >> shift; r := r | shift;
    r := r | (v >> 1);
  }

  /** log2_u64; each operand is cut to 32 bits by the conversion to u32. */
  method Log2U64(word: bv64) returns (r: bv32)
    ensures word != 0 ==> IsBitLength(word, r)
    ensures word == 0 ==> r == 1
  {
    var hi := ((word >> 32) & 0xFFFF_FFFF) as bv32;
    if hi != 0 {
      var l := Log2U32(hi);
      r := l + 32 + 1;
    } else {
      var l := Log2U32((word & 0xFFFF_FFFF) as bv32);
      r := l + 1;
    }
  }
}
