/** The blocks of the ggml tensor types. */
module GgufBlocks {
  import opened Wrappers
  import opened GgufTensors

  /** The bytes that `n` elements of `bits` bits each take. */
  function Packed(n: nat, bits: nat): nat { n * bits / 8 }

  /** A plain type has blocks of one element. */
  predicate Plain(typeId: nat, bytes: nat) { BlockShape(typeId) == Some((1, bytes)) }

  /** A block of 32 packed elements behind its scale, or scale and minimum. */
  predicate Small(typeId: nat, scales: nat, bits: nat) {
    BlockShape(typeId) == Some((32, scales + Packed(32, bits)))
  }

  /** A block of 256 packed elements with its scales. */
  predicate Large(typeId: nat, scales: nat, bits: nat) {
    BlockShape(typeId) == Some((256, scales + Packed(256, bits)))
  }

  /** F32, F16, BF16, F64 and the integers of 8 to 64 bits. */
  lemma PlainTypes()
    ensures Plain(0, 4) && Plain(1, 2) && Plain(30, 2) && Plain(28, 8)
    ensures Plain(24, 1) && Plain(25, 2) && Plain(26, 4) && Plain(27, 8)
  {
  }

  /** Q4_0 and its three repacked forms, Q4_1, Q5_0, Q5_1, Q8_0, Q8_1, IQ4_NL and its three repacked forms, MXFP4. */
  lemma SmallTypes()
    ensures Small(2, 2, 4) && Small(31, 2, 4) && Small(32, 2, 4) && Small(33, 2, 4)
    ensures Small(3, 2 + 2, 4) && Small(6, 2, 5) && Small(7, 2 + 2, 5) && Small(8, 2, 8) && Small(9, 4, 8)
    ensures Small(20, 2, 4) && Small(36, 2, 4) && Small(37, 2, 4) && Small(38, 2, 4) && Small(39, 1, 4)
  {
  }

  /** The K types: Q2_K to Q6_K with one scale for every 16 or 32 elements, and Q8_K with the sums of 16 elements. */
  lemma KTypes()
    ensures Large(10, 2 + 2 + 256 / 16, 2) && Large(11, 2 + 12, 3) && Large(12, 2 + 2 + 12, 4)
    ensures Large(13, 2 + 2 + 12, 5) && Large(14, 2 + 256 / 16, 6) && Large(15, 4 + 2 * (256 / 16), 8)
  {
  }

  /** IQ2_XXS, IQ2_XS, IQ2_S, IQ3_XXS, IQ3_S, IQ1_S, IQ1_M and IQ4_XS, then the ternary TQ1_0 and TQ2_0. */
  lemma IndexedTypes()
    ensures Large(16, 2, 2) && Large(17, 2 + 256 / 32, 2) && Large(22, 2 + 256 / 16, 2)
    ensures Large(18, 2, 3) && Large(21, 2 + 256 / 32 + 4, 3)
    ensures Large(19, 2 + 256 / 16, 1) && Large(29, 256 / 16 + 256 / 32, 1) && Large(23, 2 + 2 + 256 / 64, 4)
    ensures BlockShape(34) == Some((256, 2 + 4 * 13)) && Large(35, 2, 2)
  {
  }

  /** No other id is in use: 4 and 5 are older than the format, and 40 is the first that is not assigned. */
  lemma OtherTypes(typeId: nat)
    ensures BlockShape(typeId).None? <==> typeId == 4 || typeId == 5 || typeId >= 40
  {
  }
}
