/** Machine words, and the counts that references declare. */
module Words {

  const U64_MAX: nat := 0xFFFF_FFFF_FFFF_FFFF

  newtype byte = x: int | 0 <= x < 256

  /** A reference counts itself and, unless it names a blob, whatever lies below it. */
  predicate Countable(blob: bool, count: nat) {
    count > 0 && (blob ==> count == 1)
  }
}
