/**
 * C++ integer arithmetic the widgets rely on. Division of `int`s truncates
 * toward zero, whereas Dafny's `/` rounds toward negative infinity for a
 * negative dividend.
 */
module CppInt {

  /** `a / 2` on C++ `int`s: half of `a`, rounded toward zero. */
  function Half(a: int): (q: int)
    ensures a >= 0 ==> 0 <= a - 2 * q <= 1
    ensures a < 0 ==> 0 <= 2 * q - a <= 1
  {
    if a >= 0 then a / 2 else -((-a) / 2)
  }

  /** The rounding is toward zero: the quotient keeps the dividend's sign and
    * never exceeds it in magnitude. */
  lemma HalfTowardZero(a: int)
    ensures a >= 0 ==> 0 <= Half(a) <= a
    ensures a < 0 ==> a <= Half(a) <= 0
    ensures Half(-a) == -Half(a)
  {
  }
}
