/** The units of a text, and the classes of characters that the token estimates tell apart. */
module TextUnits {
  /** UTF-16 code units. */
  type Unit = u: nat | u < 0x1_0000
  type Text = seq<Unit>

  predicate IsCjk(u: Unit) { 0x3400 <= u <= 0x9FFF }

  predicate IsAlphaNumeric(u: Unit) { 48 <= u <= 57 || 65 <= u <= 90 || 97 <= u <= 122 }

  /** Letters, digits and `_ . / : -` continue a word. */
  predicate IsWord(u: Unit) { IsAlphaNumeric(u) || u in {95, 46, 47, 58, 45} }

  /** The weights 0.9, 1.3 and 0.35, in hundredths, rounded up. */
  function Weigh(cjk: nat, words: nat, punctuation: nat): nat {
    (90 * cjk + 130 * words + 35 * punctuation + 99) / 100
  }
}
