/**
 * The three-valued ("Troolean") truth values used by valuations, formulas and
 * monitor verdicts, and the Option wrapper that stands for Java's null.
 */
module Troolean {

  /** TRUE, FALSE and INCONCLUSIVE, the values of the Troolean library. */
  datatype Value = TRUE | FALSE | INCONCLUSIVE

  /** A two-valued ("decided") value: what a binary counter position holds. */
  predicate IsDecided(b: Value)
  {
    b == TRUE || b == FALSE
  }

  /** None stands for a Java null reference. */
  datatype Option<+T> = None | Some(value: T)
}
