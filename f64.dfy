/** Double-precision floats, kept symbolic.

    The crate hands every component to Rust's `f64` arithmetic (through cgmath).
    IEEE-754 rounding, NaN and infinities are not modelled. `Num` is a free
    term algebra: a float is either a literal bit pattern or one of the five
    operators the crate uses applied to two floats, and two terms are equal
    only when they are built the same way. Only equations between `Num` terms
    carry over to f64: the same operators on the same floats give the same
    f64. Disequalities do not carry over, since distinct terms can denote the
    same f64 (`1.0 + 1.0` and `2.0`), so no lemma of this model concludes that
    two floats differ, and no algebraic identity (commutativity,
    `a + b - b == a`, ...) is assumed. */
module F64 {

  datatype Num =
    | Lit(bits: bv64)                      // a float as its 64-bit pattern
    | Sum(lhs: Num, rhs: Num)              // lhs + rhs
    | Difference(lhs: Num, rhs: Num)       // lhs - rhs
    | Product(lhs: Num, rhs: Num)          // lhs * rhs
    | Quotient(lhs: Num, rhs: Num)         // lhs / rhs
    | Remainder(lhs: Num, rhs: Num)        // lhs % rhs

}
