/**
 * The time type of the audio crates (crates/oak-core/src/rational.rs): an exact
 * rational, or the 0/0 sentinel that `Rational::NULL` denotes.
 */
module Rationals {

  datatype Rational = Null | Of(value: real)
  {
    /** True for 0/0 and for 0/1: the source tests the numerator only. */
    predicate IsNull() {
      Null? || value == 0.0
    }

    /** 0/0 on the left is returned as it is, 0/0 on the right makes the sum 0/0. */
    function Plus(rhs: Rational): Rational {
      if Null? || rhs.Null? then Null else Of(value + rhs.value)
    }

    function Minus(rhs: Rational): Rational {
      if Null? || rhs.Null? then Null else Of(value - rhs.value)
    }

    /** The total order, in which 0/0 comes before every number. */
    predicate Less(rhs: Rational) {
      if Null? then rhs.Of? else rhs.Of? && value < rhs.value
    }

    function MaxWith(rhs: Rational): Rational {
      if rhs.Less(this) then this else rhs
    }
  }
}
